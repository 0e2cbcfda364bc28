/** One exercise screen of the course: the learner watches a video, raises
    alerts, gets them evaluated against the screen's segments, replays the
    segments missed, and the screen's record in the suspend data follows. */
module Screens {
  import opened Text
  import opened Alerts
  import opened Storage
  import Xapi

  /** A list held in the screen's state; `reset` assigns `{}` instead of an
      empty array, which has no length, so nothing is listed and no count
      matches it. */
  datatype Listing<T> = Items(items: seq<T>) | Blank

  /** A JavaScript `Set` of strings, kept in insertion order: adding an
      element already present changes nothing. */
  function Insert(viewed: seq<string>, x: string): seq<string>
  {
    if x in viewed then viewed else viewed + [x]
  }

  /** `new Set(array)`: the array's elements in order, each kept once. */
  function FromArray(a: seq<string>): seq<string>
  {
    if a == [] then [] else Insert(FromArray(a[..|a| - 1]), a[|a| - 1])
  }

  predicate Distinct(s: seq<string>)
  {
    forall i, j :: 0 <= i < j < |s| ==> s[i] != s[j]
  }

  /** Adding to the set keeps it free of repeats, grows it only by a new
      element, and loses nothing. */
  lemma InsertGrows(viewed: seq<string>, x: string)
    requires Distinct(viewed)
    ensures Distinct(Insert(viewed, x))
    ensures x in Insert(viewed, x) && forall y :: y in viewed ==> y in Insert(viewed, x)
    ensures |Insert(viewed, x)| == |viewed| + (if x in viewed then 0 else 1)
  {
    if x !in viewed {
      var r := viewed + [x];
      forall i, j | 0 <= i < j < |r|
        ensures r[i] != r[j]
      {
        if j == |viewed| {
          assert r[i] == viewed[i] && r[i] in viewed;
        }
      }
    }
  }

  /** A set built from an array holds every element of it, with no repeats. */
  lemma {:induction false} FromArrayDistinct(a: seq<string>)
    ensures Distinct(FromArray(a))
    ensures forall x :: x in FromArray(a) <==> x in a
  {
    if a != [] {
      var prefix := a[..|a| - 1];
      FromArrayDistinct(prefix);
      InsertGrows(FromArray(prefix), a[|a| - 1]);
      assert a == prefix + [a[|a| - 1]];
    }
  }

  /** The identifiers of a list of segments, in order. */
  function Identifiers(segments: seq<Segment>): (r: seq<string>)
    ensures |r| == |segments|
    ensures forall i :: 0 <= i < |segments| ==> r[i] == SegmentIdentifier(segments[i])
  {
    seq(|segments|, i requires 0 <= i < |segments| => SegmentIdentifier(segments[i]))
  }

  function Elements(s: seq<string>): set<string>
  {
    set x | x in s
  }

  lemma {:induction false} DistinctElements(s: seq<string>)
    requires Distinct(s)
    ensures |Elements(s)| == |s|
  {
    if s != [] {
      var prefix := s[..|s| - 1];
      var last := s[|s| - 1];
      DistinctElements(prefix);
      assert last !in prefix;
      assert s == prefix + [last];
      assert Elements(s) == Elements(prefix) + {last};
    }
  }

  /** A part of a finite set as large as the whole is the whole. */
  lemma SameSizeSubset(a: set<string>, b: set<string>)
    requires a <= b
    ensures |a| == |b| <==> a == b
  {
    if |a| == |b| {
      assert |b - a| == |b| - |a|;
    }
  }

  /** The completion rule compares only sizes. Provided the unmarked
      segments have pairwise different identifiers and only they are
      replayed, the sizes agree exactly when every unmarked segment has been
      replayed to its end. */
  lemma ReplayedAll(viewed: seq<string>, unmarked: seq<Segment>)
    requires Distinct(viewed) && Distinct(Identifiers(unmarked))
    requires forall x :: x in viewed ==> x in Identifiers(unmarked)
    ensures |viewed| == |unmarked| <==> forall i :: 0 <= i < |unmarked| ==> SegmentIdentifier(unmarked[i]) in viewed
  {
    var ids := Identifiers(unmarked);
    SizesMatch(viewed, ids);
    assert |ids| == |unmarked|;
    forall i | 0 <= i < |unmarked|
      ensures ids[i] in viewed <==> SegmentIdentifier(unmarked[i]) in viewed
    {
      assert ids[i] == SegmentIdentifier(unmarked[i]);
    }
  }

  /** Two lists without repeats, one drawn from the other, are as long as
      each other exactly when the first holds every element of the second. */
  lemma SizesMatch(viewed: seq<string>, ids: seq<string>)
    requires Distinct(viewed) && Distinct(ids)
    requires forall x :: x in viewed ==> x in ids
    ensures |viewed| == |ids| <==> forall i :: 0 <= i < |ids| ==> ids[i] in viewed
  {
    DistinctElements(viewed);
    DistinctElements(ids);
    var a, b := Elements(viewed), Elements(ids);
    assert a <= b;
    SameSizeSubset(a, b);
    if |viewed| == |ids| {
      forall i | 0 <= i < |ids|
        ensures ids[i] in viewed
      {
        assert ids[i] in b;
      }
    } else {
      assert |b - a| == |b| - |a| > 0;
      var x :| x in b - a;
      assert x in ids && x !in viewed;
    }
  }

  /** The record `checkAlerts` stores for the screen: the evaluation's three
      lists, viewed, and completed exactly when no segment is left unmarked;
      any earlier list of replayed segments is gone. */
  function EvaluatedEntry(segments: seq<Segment>, alerts: seq<real>): ScreenEntry
  {
    var t := Run(segments, alerts);
    RunFacts(segments, alerts);
    ScreenEntry(t.correct, t.incorrect, Project(segments, t.unmarked), true, |t.unmarked| == 0, None)
  }

  /** The stored record is completed exactly when every segment is claimed
      by some alert, and its correct alerts and unmarked segments together
      are as many as the segments. */
  lemma EvaluatedEntryFacts(segments: seq<Segment>, alerts: seq<real>)
    ensures var e := EvaluatedEntry(segments, alerts);
      && e.viewed && e.viewedSegments.None?
      && |e.correctAlerts| + |e.unmarkedSegments| == |segments|
      && |e.correctAlerts| + |e.incorrectAlerts| <= |alerts|
      && (e.completed <==> forall m :: 0 <= m < |segments| ==> m in Claimed(segments, alerts))
  {
    RunFacts(segments, alerts);
    var t := Run(segments, alerts);
    UnclaimedMembers(0, |segments|, t.marked);
    if |t.unmarked| != 0 {
      assert t.unmarked[0] in t.unmarked;
    }
  }

  /** The record after a segment replay: the stored entry with the new set of
      replayed segments, or, when the screen has no entry yet, an entry with
      only that set, which every reader treats like an empty one. */
  function ReplayedEntry(screens: seq<ScreenEntry>, id: nat, viewed: seq<string>): ScreenEntry
  {
    if id < |screens| then screens[id].(viewedSegments := Some(viewed))
    else ScreenEntry([], [], [], false, false, Some(viewed))
  }

  class Screen {
    const id: nat
    const title: string
    const segments: seq<Segment>
    const totalScreens: nat
    const status: Option<string>
    const hasScorm: bool
    const actor: Xapi.Actor
    const env: Environment

    var alerts: seq<real>
    var correctAlerts: Listing<CorrectAlert>
    var incorrectAlerts: Listing<real>
    var unmarkedSegments: Listing<Segment>
    var viewedSegments: seq<string>
    var viewed: bool
    var canContinue: bool
    var progress: real
    var isViewingSegment: bool

    /** The screen as first rendered, before its effects run. */
    constructor (id: nat, title: string, segments: seq<Segment>, totalScreens: nat,
                 status: Option<string>, hasScorm: bool, actor: Xapi.Actor, env: Environment)
      ensures this.id == id && this.title == title && this.segments == segments
      ensures this.totalScreens == totalScreens && this.status == status && this.hasScorm == hasScorm
      ensures this.actor == actor && this.env == env
      ensures alerts == [] && correctAlerts == Items([]) && incorrectAlerts == Items([]) && unmarkedSegments == Items([])
      ensures viewedSegments == [] && !viewed && !canContinue && progress == 0.0 && !isViewingSegment
    {
      this.id := id;
      this.title := title;
      this.segments := segments;
      this.totalScreens := totalScreens;
      this.status := status;
      this.hasScorm := hasScorm;
      this.actor := actor;
      this.env := env;
      alerts := [];
      correctAlerts := Items([]);
      incorrectAlerts := Items([]);
      unmarkedSegments := Items([]);
      viewedSegments := [];
      viewed := false;
      canContinue := false;
      progress := 0.0;
      isViewingSegment := false;
    }

    /** Whether SCORM gets a copy of what is stored: only with a wrapper and
        while the course is not completed. */
    predicate Mirrors()
    {
      hasScorm && status != Some(Completed)
    }

    /** The SCORM request copying the stored suspend data, if any. */
    function Mirror(screens: seq<ScreenEntry>): seq<Effect>
    {
      if Mirrors() then [ScormSuspendData(env.json.stringify(SuspendData(Some(screens))))] else []
    }

    /** The effect run when the screen is shown: the lists, the replayed
        segments and the viewed flag are read from the screen's stored entry,
        with empty defaults, and the progress from the stored screens. */
    method Show()
      requires StoredScreens(env.json, env.storage).Some?
      modifies this
      ensures var screens := StoredScreens(env.json, env.storage).value;
        var entry := if id < |screens| then Some(screens[id]) else None;
        && correctAlerts == Items(if entry.Some? then entry.value.correctAlerts else [])
        && incorrectAlerts == Items(if entry.Some? then entry.value.incorrectAlerts else [])
        && unmarkedSegments == Items(if entry.Some? then entry.value.unmarkedSegments else [])
        && viewedSegments == FromArray(if entry.Some? && entry.value.viewedSegments.Some? then entry.value.viewedSegments.value else [])
        && viewed == (entry.Some? && entry.value.viewed)
        && progress == Progress(screens, totalScreens)
      ensures alerts == old(alerts) && canContinue == old(canContinue) && isViewingSegment == old(isViewingSegment)
    {
      var screens := StoredScreens(env.json, env.storage).value;
      if id < |screens| {
        var entry := screens[id];
        correctAlerts := Items(entry.correctAlerts);
        incorrectAlerts := Items(entry.incorrectAlerts);
        unmarkedSegments := Items(entry.unmarkedSegments);
        viewedSegments := FromArray(if entry.viewedSegments.Some? then entry.viewedSegments.value else []);
        viewed := entry.viewed;
      } else {
        correctAlerts := Items([]);
        incorrectAlerts := Items([]);
        unmarkedSegments := Items([]);
        viewedSegments := FromArray([]);
        viewed := false;
      }
      progress := Progress(screens, totalScreens);
    }

    /** The effect run when `canContinue` changes: once it is true, the
        progress is recomputed from the stored screens and sent as the score
        when SCORM gets copies. */
    method ContinueEffect()
      requires canContinue ==> StoredScreens(env.json, env.storage).Some?
      modifies this, env
      ensures !old(canContinue) ==> progress == old(progress) && env.outbox == old(env.outbox)
      ensures old(canContinue) ==>
        && progress == Progress(old(StoredScreens(env.json, env.storage)).value, totalScreens)
        && env.outbox == old(env.outbox) + (if Mirrors() then [ScormScore(progress)] else [])
      ensures env.storage == old(env.storage)
      ensures alerts == old(alerts) && correctAlerts == old(correctAlerts) && incorrectAlerts == old(incorrectAlerts)
      ensures unmarkedSegments == old(unmarkedSegments) && viewedSegments == old(viewedSegments)
      ensures viewed == old(viewed) && canContinue == old(canContinue) && isViewingSegment == old(isViewingSegment)
    {
      if canContinue {
        progress := Progress(StoredScreens(env.json, env.storage).value, totalScreens);
        if Mirrors() {
          env.outbox := env.outbox + [ScormScore(progress)];
        }
      }
    }

    /** Every unmarked segment may count as replayed: the set of replayed
        segments is non-empty and as large as the unmarked list. */
    predicate CompletionDue()
      reads this
    {
      && |viewedSegments| > 0
      && unmarkedSegments.Items?
      && |viewedSegments| == |unmarkedSegments.items|
    }

    /** The effect run when the set of replayed segments changes: when the
        completion is due, the screen's stored entry is marked completed and
        the screen can be left. */
    method CompletionEffect()
      requires CompletionDue() ==>
        var screens := StoredScreens(env.json, env.storage);
        screens.Some? && id < |screens.value|
      modifies this, env
      ensures !old(CompletionDue()) ==> env.storage == old(env.storage) && env.outbox == old(env.outbox) && canContinue == old(canContinue)
      ensures old(CompletionDue()) ==>
        var screens := old(StoredScreens(env.json, env.storage)).value;
        var updated := screens[id := screens[id].(completed := true)];
        && env.storage == WriteScreens(env.json, old(env.storage), updated)
        && env.outbox == old(env.outbox) + Mirror(updated)
        && canContinue
      ensures alerts == old(alerts) && correctAlerts == old(correctAlerts) && incorrectAlerts == old(incorrectAlerts)
      ensures unmarkedSegments == old(unmarkedSegments) && viewedSegments == old(viewedSegments)
      ensures viewed == old(viewed) && progress == old(progress) && isViewingSegment == old(isViewingSegment)
    {
      if CompletionDue() {
        var screens := StoredScreens(env.json, env.storage).value;
        var updated := screens[id := screens[id].(completed := true)];
        env.storage := WriteScreens(env.json, env.storage, updated);
        env.outbox := env.outbox + Mirror(updated);
        canContinue := true;
      }
    }

    /** `handleSetAlert`: the alert is appended. */
    method SetAlert(time: real)
      modifies this
      ensures alerts == old(alerts) + [time]
      ensures correctAlerts == old(correctAlerts) && incorrectAlerts == old(incorrectAlerts)
      ensures unmarkedSegments == old(unmarkedSegments) && viewedSegments == old(viewedSegments)
      ensures viewed == old(viewed) && canContinue == old(canContinue) && progress == old(progress)
      ensures isViewingSegment == old(isViewingSegment)
    {
      alerts := alerts + [time];
    }

    /** `checkAlerts`: the alerts are evaluated, the screen's entry is
        replaced by the evaluated one, the replayed segments are forgotten,
        and the screen can be left exactly when no segment is unmarked. The
        local copy is always written; SCORM gets one only when it mirrors. */
    method CheckAlerts()
      requires var screens := StoredScreens(env.json, env.storage);
        screens.Some? && id <= |screens.value|
      modifies this, env
      ensures var entry := EvaluatedEntry(segments, alerts);
        var screens := Overwrite(old(StoredScreens(env.json, env.storage)).value, id, entry);
        && correctAlerts == Items(entry.correctAlerts)
        && incorrectAlerts == Items(entry.incorrectAlerts)
        && unmarkedSegments == Items(entry.unmarkedSegments)
        && viewedSegments == []
        && canContinue == entry.completed
        && env.storage == WriteScreens(env.json, old(env.storage), screens)
        && env.outbox == old(env.outbox) + Mirror(screens)
      ensures alerts == old(alerts) && viewed == old(viewed) && progress == old(progress)
      ensures isViewingSegment == old(isViewingSegment)
    {
      var correct, incorrect, unmarked := EvaluateAlerts(segments, alerts);
      correctAlerts := Items(correct);
      incorrectAlerts := Items(incorrect);
      unmarkedSegments := Items(unmarked);
      viewedSegments := [];
      var entry := ScreenEntry(correct, incorrect, unmarked, true, |unmarked| == 0, None);
      assert entry == EvaluatedEntry(segments, alerts);
      var screens := Overwrite(StoredScreens(env.json, env.storage).value, id, entry);
      canContinue := |unmarked| == 0;
      env.storage := WriteScreens(env.json, env.storage, screens);
      env.outbox := env.outbox + Mirror(screens);
    }

    /** `handleVideoEnded`: the viewed statement, then `checkAlerts`. */
    method VideoEnded()
      requires var screens := StoredScreens(env.json, env.storage);
        screens.Some? && id <= |screens.value|
      modifies this, env
      ensures var entry := EvaluatedEntry(segments, alerts);
        var screens := Overwrite(old(StoredScreens(env.json, env.storage)).value, id, entry);
        && env.storage == WriteScreens(env.json, old(env.storage), screens)
        && env.outbox == old(env.outbox) + [Sent(Xapi.ViewedVideoStatement(actor, title))] + Mirror(screens)
        && correctAlerts == Items(entry.correctAlerts)
        && incorrectAlerts == Items(entry.incorrectAlerts)
        && unmarkedSegments == Items(entry.unmarkedSegments)
        && canContinue == entry.completed
        && viewedSegments == []
      ensures alerts == old(alerts) && viewed == old(viewed) && progress == old(progress)
      ensures isViewingSegment == old(isViewingSegment)
    {
      env.outbox := env.outbox + [Sent(Xapi.ViewedVideoStatement(actor, title))];
      CheckAlerts();
    }

    /** `playSegment` up to the start of the replay: the segment statement
        is sent and the replay buttons are disabled. */
    method PlaySegment(segmentTitle: string)
      modifies this, env
      ensures env.outbox == old(env.outbox) + [Sent(Xapi.ViewedVideoSegmentStatement(actor, title, segmentTitle))]
      ensures env.storage == old(env.storage) && isViewingSegment
      ensures alerts == old(alerts) && correctAlerts == old(correctAlerts) && incorrectAlerts == old(incorrectAlerts)
      ensures unmarkedSegments == old(unmarkedSegments) && viewedSegments == old(viewedSegments)
      ensures viewed == old(viewed) && canContinue == old(canContinue) && progress == old(progress)
    {
      env.outbox := env.outbox + [Sent(Xapi.ViewedVideoSegmentStatement(actor, title, segmentTitle))];
      isViewingSegment := true;
    }

    /** A replay reaching the segment's end: its `start-end` identifier joins
        the replayed set, which is stored in the screen's entry with every
        other field of the entry kept. */
    method SegmentEnded(segment: Segment)
      requires var screens := StoredScreens(env.json, env.storage);
        screens.Some? && id <= |screens.value|
      modifies this, env
      ensures var replayed := Insert(old(viewedSegments), SegmentIdentifier(segment));
        var screens := old(StoredScreens(env.json, env.storage)).value;
        var updated := Overwrite(screens, id, ReplayedEntry(screens, id, replayed));
        && viewedSegments == replayed
        && env.storage == WriteScreens(env.json, old(env.storage), updated)
        && env.outbox == old(env.outbox) + Mirror(updated)
        && !isViewingSegment
      ensures alerts == old(alerts) && correctAlerts == old(correctAlerts) && incorrectAlerts == old(incorrectAlerts)
      ensures unmarkedSegments == old(unmarkedSegments)
      ensures viewed == old(viewed) && canContinue == old(canContinue) && progress == old(progress)
    {
      var replayed := Insert(viewedSegments, SegmentIdentifier(segment));
      var screens := StoredScreens(env.json, env.storage).value;
      var updated := Overwrite(screens, id, ReplayedEntry(screens, id, replayed));
      env.storage := WriteScreens(env.json, env.storage, updated);
      env.outbox := env.outbox + Mirror(updated);
      viewedSegments := replayed;
      isViewingSegment := false;
    }

    /** `reset`: no alerts, and the three lists become `{}`. */
    method Reset()
      modifies this
      ensures alerts == [] && correctAlerts == Blank && incorrectAlerts == Blank && unmarkedSegments == Blank
      ensures viewedSegments == old(viewedSegments) && viewed == old(viewed) && canContinue == old(canContinue)
      ensures progress == old(progress) && isViewingSegment == old(isViewingSegment)
    {
      alerts := [];
      correctAlerts := Blank;
      incorrectAlerts := Blank;
      unmarkedSegments := Blank;
    }

    /** `hardReset`, run when leaving the screen: `reset`, and the screen can
        no longer be left and has no replayed segments. */
    method HardReset()
      modifies this
      ensures alerts == [] && correctAlerts == Blank && incorrectAlerts == Blank && unmarkedSegments == Blank
      ensures viewedSegments == [] && !canContinue && !CompletionDue()
      ensures viewed == old(viewed) && progress == old(progress) && isViewingSegment == old(isViewingSegment)
    {
      Reset();
      canContinue := false;
      viewedSegments := [];
    }

    /** `handleRetry`: the retried statement, then `reset`. */
    method Retry()
      modifies this, env
      ensures env.outbox == old(env.outbox) + [Sent(Xapi.RetriedVideoStatement(actor, title))]
      ensures env.storage == old(env.storage)
      ensures alerts == [] && correctAlerts == Blank && incorrectAlerts == Blank && unmarkedSegments == Blank
      ensures viewedSegments == old(viewedSegments) && viewed == old(viewed) && canContinue == old(canContinue)
      ensures progress == old(progress) && isViewingSegment == old(isViewingSegment)
    {
      env.outbox := env.outbox + [Sent(Xapi.RetriedVideoStatement(actor, title))];
      Reset();
    }
  }
}
