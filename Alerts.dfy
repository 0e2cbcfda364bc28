/** Evaluation of the alerts a learner raises while a screen's video plays:
    every alert is matched against the screen's segments (the moments showing
    a practice to identify), giving the correct alerts, the incorrect ones and
    the segments left unmarked. */
module Alerts {
  import opened Text

  /** A moment of the video, from `start` to `end` seconds inclusive. */
  datatype Segment = Segment(start: int, end: int, title: string)

  /** An alert that identified a segment: when it was raised and the title of
      the segment it identified. */
  datatype CorrectAlert = CorrectAlert(time: real, title: string)

  predicate Contains(s: Segment, alert: real)
  {
    s.start as real <= alert <= s.end as real
  }

  /** `segmentIdentifier`: the segment's start and end joined by a dash. */
  function SegmentIdentifier(s: Segment): string
  {
    IntToString(s.start) + "-" + IntToString(s.end)
  }

  // ---------------------------------------------------------------------------
  // Searching

  function FindFrom(segments: seq<Segment>, alert: real, i: nat): (r: Option<nat>)
    requires i <= |segments|
    ensures r.Some? ==> i <= r.value < |segments| && Contains(segments[r.value], alert)
    ensures r.Some? ==> forall j :: i <= j < r.value ==> !Contains(segments[j], alert)
    ensures r.None? ==> forall j :: i <= j < |segments| ==> !Contains(segments[j], alert)
    decreases |segments| - i
  {
    if i == |segments| then None
    else if Contains(segments[i], alert) then Some(i)
    else FindFrom(segments, alert, i + 1)
  }

  /** `segments.find`: the position of the first segment, in list order, whose
      closed interval holds the alert; `None` when no segment holds it. */
  function FirstMatch(segments: seq<Segment>, alert: real): (r: Option<nat>)
    ensures r.Some? ==> r.value < |segments| && Contains(segments[r.value], alert)
    ensures r.Some? ==> forall j :: 0 <= j < r.value ==> !Contains(segments[j], alert)
    ensures r.None? <==> forall j :: 0 <= j < |segments| ==> !Contains(segments[j], alert)
  {
    FindFrom(segments, alert, 0)
  }

  function IndexFrom(s: seq<nat>, x: nat, i: nat): (r: int)
    requires i <= |s|
    ensures r == -1 || i <= r < |s|
    ensures r >= 0 ==> s[r] == x && forall j :: i <= j < r ==> s[j] != x
    ensures r == -1 ==> forall j :: i <= j < |s| ==> s[j] != x
    decreases |s| - i
  {
    if i == |s| then -1
    else if s[i] == x then i
    else IndexFrom(s, x, i + 1)
  }

  /** `indexOf`: the first position of `x` in `s`, or -1. */
  function IndexOf(s: seq<nat>, x: nat): (r: int)
    ensures -1 <= r < |s|
    ensures r >= 0 ==> s[r] == x && forall j :: 0 <= j < r ==> s[j] != x
    ensures r == -1 <==> x !in s
  {
    IndexFrom(s, x, 0)
  }

  // ---------------------------------------------------------------------------
  // The evaluation, one alert at a time

  /** What the evaluation has built so far. Segments are named by their
      position in the screen's list, standing for the segment objects the
      evaluation compares by identity. */
  datatype Tally = Tally(correct: seq<CorrectAlert>, incorrect: seq<real>, unmarked: seq<nat>, marked: set<nat>)

  /** Every position of a list of `n` segments, in order: the copy of the
      segment list the evaluation starts from. */
  function AllPositions(n: nat): seq<nat>
  {
    seq(n, i requires 0 <= i => i as nat)
  }

  function Start(segments: seq<Segment>): Tally
  {
    Tally([], [], AllPositions(|segments|), {})
  }

  /** One alert: the first segment holding it is claimed, if it is not yet,
      with a correct alert and its removal from the unmarked list; an alert
      in an already claimed segment changes nothing; an alert in no segment
      is incorrect. */
  function Step(segments: seq<Segment>, t: Tally, alert: real): Tally
  {
    match FirstMatch(segments, alert)
    case None => t.(incorrect := t.incorrect + [alert])
    case Some(m) =>
      if m in t.marked then t
      else
        var index := IndexOf(t.unmarked, m);
        t.(correct := t.correct + [CorrectAlert(alert, segments[m].title)],
           marked := t.marked + {m},
           unmarked := if index > -1 then t.unmarked[..index] + t.unmarked[index + 1..] else t.unmarked)
  }

  /** The alerts taken in the order they were raised. */
  function Run(segments: seq<Segment>, alerts: seq<real>): Tally
    decreases |alerts|
  {
    if alerts == [] then Start(segments)
    else Step(segments, Run(segments, alerts[..|alerts| - 1]), alerts[|alerts| - 1])
  }

  /** The segments at the given positions. */
  function Project(segments: seq<Segment>, positions: seq<nat>): (r: seq<Segment>)
    requires forall k :: 0 <= k < |positions| ==> positions[k] < |segments|
    ensures |r| == |positions| && forall k :: 0 <= k < |r| ==> r[k] == segments[positions[k]]
  {
    seq(|positions|, k requires 0 <= k < |positions| => segments[positions[k]])
  }

  /** `checkAlerts`'s loop: the correct alerts, the incorrect alerts and the
      unmarked segments for the alerts raised, in that order. */
  method EvaluateAlerts(segments: seq<Segment>, alerts: seq<real>)
    returns (correct: seq<CorrectAlert>, incorrect: seq<real>, unmarked: seq<Segment>)
    ensures var t := Run(segments, alerts);
      && UnmarkedInRange(segments, t)
      && correct == t.correct && incorrect == t.incorrect && unmarked == Project(segments, t.unmarked)
  {
    correct := [];
    incorrect := [];
    var positions := AllPositions(|segments|);
    var marked: set<nat> := {};
    var k := 0;
    while k < |alerts|
      invariant 0 <= k <= |alerts|
      invariant Run(segments, alerts[..k]) == Tally(correct, incorrect, positions, marked)
    {
      var alert := alerts[k];
      ghost var before := Tally(correct, incorrect, positions, marked);
      var matched := FirstMatch(segments, alert);
      if matched.Some? {
        var m := matched.value;
        if m !in marked {
          correct := correct + [CorrectAlert(alert, segments[m].title)];
          marked := marked + {m};
          var index := IndexOf(positions, m);
          if index > -1 {
            positions := positions[..index] + positions[index + 1..];
          }
        }
      } else {
        incorrect := incorrect + [alert];
      }
      assert Tally(correct, incorrect, positions, marked) == Step(segments, before, alert);
      assert alerts[..k + 1][..k] == alerts[..k] && alerts[..k + 1][k] == alert;
      assert Run(segments, alerts[..k + 1]) == Step(segments, Run(segments, alerts[..k]), alert);
      k := k + 1;
    }
    assert alerts[..k] == alerts;
    RunFacts(segments, alerts);
    unmarked := Project(segments, positions);
  }

  // ---------------------------------------------------------------------------
  // What the evaluation computes, stated without the loop

  /** The positions from `lo` up to `n` not in `claimed`, in increasing order. */
  function Unclaimed(lo: nat, n: nat, claimed: set<nat>): seq<nat>
    requires lo <= n
    decreases n - lo
  {
    if lo == n then []
    else (if lo in claimed then [] else [lo]) + Unclaimed(lo + 1, n, claimed)
  }

  /** The unclaimed positions are exactly those in range and not claimed. */
  lemma {:induction false} UnclaimedMembers(lo: nat, n: nat, claimed: set<nat>)
    requires lo <= n
    ensures forall i :: i in Unclaimed(lo, n, claimed) <==> lo <= i < n && i !in claimed
    decreases n - lo
  {
    if lo < n {
      UnclaimedMembers(lo + 1, n, claimed);
      var rest := Unclaimed(lo + 1, n, claimed);
      if lo !in claimed {
        assert Unclaimed(lo, n, claimed) == [lo] + rest;
      } else {
        assert Unclaimed(lo, n, claimed) == rest;
      }
    }
  }

  /** Positions from `lo` up to `n`, each greater than the one before. */
  predicate IncreasingWithin(u: seq<nat>, lo: nat, n: nat)
  {
    && (forall a :: 0 <= a < |u| ==> lo <= u[a] < n)
    && (forall a, b :: 0 <= a < b < |u| ==> u[a] < u[b])
  }

  lemma ConsIncreasing(x: nat, rest: seq<nat>, n: nat)
    requires x < n && IncreasingWithin(rest, x + 1, n)
    ensures IncreasingWithin([x] + rest, x, n)
  {
    var u := [x] + rest;
    forall a, b | 0 <= a < b < |u|
      ensures u[a] < u[b]
    {
      assert u[b] == rest[b - 1];
    }
  }

  lemma WidenIncreasing(u: seq<nat>, lo: nat, n: nat)
    requires IncreasingWithin(u, lo + 1, n)
    ensures IncreasingWithin(u, lo, n)
  {
  }

  /** The unclaimed positions are listed in increasing order, the order of
      the segment list. */
  lemma {:induction false} UnclaimedIncreasing(lo: nat, n: nat, claimed: set<nat>)
    requires lo <= n
    ensures IncreasingWithin(Unclaimed(lo, n, claimed), lo, n)
    decreases n - lo
  {
    if lo < n {
      var rest := Unclaimed(lo + 1, n, claimed);
      UnclaimedIncreasing(lo + 1, n, claimed);
      if lo !in claimed {
        assert Unclaimed(lo, n, claimed) == [lo] + rest;
        ConsIncreasing(lo, rest, n);
      } else {
        assert Unclaimed(lo, n, claimed) == rest;
        WidenIncreasing(rest, lo, n);
      }
    }
  }

  /** Claiming a position below `lo` does not change the list from `lo` on. */
  lemma {:induction false} UnclaimedBelow(lo: nat, n: nat, claimed: set<nat>, m: nat)
    requires lo <= n && m < lo
    ensures Unclaimed(lo, n, claimed + {m}) == Unclaimed(lo, n, claimed)
    decreases n - lo
  {
    if lo < n {
      UnclaimedBelow(lo + 1, n, claimed, m);
    }
  }

  /** Removing the first occurrence of a newly claimed position from the
      unclaimed list gives the unclaimed list with that position claimed. */
  lemma {:induction false} UnclaimedRemove(lo: nat, n: nat, claimed: set<nat>, m: nat)
    requires lo <= m < n && m !in claimed
    ensures var u := Unclaimed(lo, n, claimed);
      var index := IndexOf(u, m);
      && index > -1
      && u[..index] + u[index + 1..] == Unclaimed(lo, n, claimed + {m})
    decreases n - lo
  {
    var u := Unclaimed(lo, n, claimed);
    var rest := Unclaimed(lo + 1, n, claimed);
    UnclaimedUnfold(lo, n, claimed);
    UnclaimedUnfold(lo, n, claimed + {m});
    if lo == m {
      assert u == [m] + rest;
      assert IndexOf(u, m) == 0;
      UnclaimedBelow(lo + 1, n, claimed, m);
    } else {
      UnclaimedRemove(lo + 1, n, claimed, m);
      var head: seq<nat> := if lo in claimed then [] else [lo];
      assert u == head + rest;
      RemoveAfterHead(head, rest, m);
    }
  }

  lemma UnclaimedUnfold(lo: nat, n: nat, claimed: set<nat>)
    requires lo < n
    ensures Unclaimed(lo, n, claimed) == (if lo in claimed then [] else [lo]) + Unclaimed(lo + 1, n, claimed)
  {
  }

  /** Removing the first occurrence of `m` from `head + rest`, where `m` is
      not in `head`, removes it from `rest`. */
  lemma RemoveAfterHead(head: seq<nat>, rest: seq<nat>, m: nat)
    requires m !in head && m in rest
    ensures var u := head + rest;
      var index := IndexOf(u, m);
      var i := IndexOf(rest, m);
      && index == |head| + i
      && u[..index] + u[index + 1..] == head + (rest[..i] + rest[i + 1..])
  {
    var u := head + rest;
    var i := IndexOf(rest, m);
    var index := IndexOf(u, m);
    assert u[|head| + i] == m;
    assert u[..index] == head + rest[..i];
    assert u[index + 1..] == rest[i + 1..];
  }

  lemma {:induction false} AllPositionsUnclaimed(lo: nat, n: nat)
    requires lo <= n
    ensures Unclaimed(lo, n, {}) == seq(n - lo, i requires 0 <= i => (lo + i) as nat)
    decreases n - lo
  {
    if lo < n {
      AllPositionsUnclaimed(lo + 1, n);
    }
  }

  /** The positions claimed by a sequence of alerts: the first segment of
      every alert that falls in one. */
  function Claimed(segments: seq<Segment>, alerts: seq<real>): (c: set<nat>)
    ensures forall m :: m in c ==> m < |segments|
    decreases |alerts|
  {
    if alerts == [] then {}
    else
      var before := Claimed(segments, alerts[..|alerts| - 1]);
      match FirstMatch(segments, alerts[|alerts| - 1])
      case None => before
      case Some(m) => before + {m}
  }

  /** The alerts that fall in no segment, in the order they were raised. */
  function Misses(segments: seq<Segment>, alerts: seq<real>): (r: seq<real>)
    ensures |r| <= |alerts|
    decreases |alerts|
  {
    if alerts == [] then []
    else
      var last := alerts[|alerts| - 1];
      Misses(segments, alerts[..|alerts| - 1]) + (if FirstMatch(segments, last).None? then [last] else [])
  }

  predicate UnmarkedInRange(segments: seq<Segment>, t: Tally)
  {
    forall k :: 0 <= k < |t.unmarked| ==> t.unmarked[k] < |segments|
  }

  /** The invariant of the evaluation: claimed positions are in range, the
      unmarked list is the unclaimed positions in order, and every claimed
      position has given one correct alert. */
  predicate Consistent(segments: seq<Segment>, t: Tally)
  {
    && (forall m :: m in t.marked ==> m < |segments|)
    && t.unmarked == Unclaimed(0, |segments|, t.marked)
    && |t.correct| == |t.marked|
    && |t.correct| + |t.unmarked| == |segments|
  }

  lemma StartConsistent(segments: seq<Segment>)
    ensures Consistent(segments, Start(segments))
  {
    AllPositionsUnclaimed(0, |segments|);
  }

  lemma StepConsistent(segments: seq<Segment>, t: Tally, alert: real)
    requires Consistent(segments, t)
    ensures Consistent(segments, Step(segments, t, alert))
  {
    match FirstMatch(segments, alert)
    case None =>
    case Some(m) =>
      if m !in t.marked {
        UnclaimedRemove(0, |segments|, t.marked, m);
        var index := IndexOf(t.unmarked, m);
        var next := Step(segments, t, alert);
        assert next.unmarked == t.unmarked[..index] + t.unmarked[index + 1..];
        assert next.marked == t.marked + {m} && |next.marked| == |t.marked| + 1;
        assert |next.correct| == |t.correct| + 1;
      }
  }

  lemma ConsistentInRange(segments: seq<Segment>, t: Tally)
    requires Consistent(segments, t)
    ensures UnmarkedInRange(segments, t)
  {
    UnclaimedMembers(0, |segments|, t.marked);
    assert forall k :: 0 <= k < |t.unmarked| ==> t.unmarked[k] in t.unmarked;
  }

  lemma {:induction false} RunConsistent(segments: seq<Segment>, alerts: seq<real>)
    ensures Consistent(segments, Run(segments, alerts))
    decreases |alerts|
  {
    if alerts == [] {
      StartConsistent(segments);
    } else {
      RunConsistent(segments, alerts[..|alerts| - 1]);
      StepConsistent(segments, Run(segments, alerts[..|alerts| - 1]), alerts[|alerts| - 1]);
    }
  }

  /** The claimed positions and the incorrect alerts, stated without the loop. */
  lemma {:induction false} RunClaimsAndMisses(segments: seq<Segment>, alerts: seq<real>)
    ensures Run(segments, alerts).marked == Claimed(segments, alerts)
    ensures Run(segments, alerts).incorrect == Misses(segments, alerts)
    ensures |Run(segments, alerts).correct| + |Run(segments, alerts).incorrect| <= |alerts|
    decreases |alerts|
  {
    if alerts != [] {
      RunClaimsAndMisses(segments, alerts[..|alerts| - 1]);
    }
  }

  /** The evaluation claims the first segment of every alert that falls in
      one; the unmarked segments are the unclaimed ones, in increasing
      position, so in their original relative order; the
      incorrect alerts are those in no segment, in the order raised; each
      claimed segment gives one correct alert, so the correct alerts and the
      unmarked segments together are as many as the segments, and the
      correct and incorrect alerts together are at most as many as the
      alerts. */
  lemma RunFacts(segments: seq<Segment>, alerts: seq<real>)
    ensures var t := Run(segments, alerts);
      && t.marked == Claimed(segments, alerts)
      && t.unmarked == Unclaimed(0, |segments|, t.marked)
      && IncreasingWithin(t.unmarked, 0, |segments|)
      && UnmarkedInRange(segments, t)
      && t.incorrect == Misses(segments, alerts)
      && |t.correct| == |t.marked|
      && |t.correct| + |t.unmarked| == |segments|
      && |t.correct| + |t.incorrect| <= |alerts|
  {
    RunConsistent(segments, alerts);
    ConsistentInRange(segments, Run(segments, alerts));
    UnclaimedIncreasing(0, |segments|, Run(segments, alerts).marked);
    RunClaimsAndMisses(segments, alerts);
  }

  /** An alert that hits a segment no earlier alert claimed gives a correct
      alert with its time and the segment's title, claims the segment and
      removes it from the unmarked list, which loses exactly that one entry. */
  lemma StepClaims(segments: seq<Segment>, alerts: seq<real>, alert: real, m: nat)
    requires FirstMatch(segments, alert) == Some(m) && m !in Claimed(segments, alerts)
    ensures var before := Run(segments, alerts);
      var after := Run(segments, alerts + [alert]);
      && after.correct == before.correct + [CorrectAlert(alert, segments[m].title)]
      && after.incorrect == before.incorrect
      && after.marked == before.marked + {m}
      && m in before.unmarked && m !in after.unmarked
      && |after.unmarked| == |before.unmarked| - 1
  {
    var s := alerts + [alert];
    assert s[..|s| - 1] == alerts;
    RunFacts(segments, alerts);
    RunFacts(segments, s);
    var before := Run(segments, alerts);
    UnclaimedMembers(0, |segments|, before.marked);
    UnclaimedMembers(0, |segments|, before.marked + {m});
  }

  /** An alert inside a segment an earlier alert already claimed is recorded
      nowhere: it is neither correct nor incorrect. */
  lemma StepDropsClaimed(segments: seq<Segment>, alerts: seq<real>, alert: real, m: nat)
    requires FirstMatch(segments, alert) == Some(m) && m in Claimed(segments, alerts)
    ensures Run(segments, alerts + [alert]) == Run(segments, alerts)
  {
    var s := alerts + [alert];
    assert s[..|s| - 1] == alerts;
    RunFacts(segments, alerts);
  }

  /** An alert inside no segment is appended to the incorrect alerts. */
  lemma StepMisses(segments: seq<Segment>, alerts: seq<real>, alert: real)
    requires FirstMatch(segments, alert).None?
    ensures Run(segments, alerts + [alert]).incorrect == Run(segments, alerts).incorrect + [alert]
    ensures Run(segments, alerts + [alert]).correct == Run(segments, alerts).correct
    ensures Run(segments, alerts + [alert]).unmarked == Run(segments, alerts).unmarked
  {
    var s := alerts + [alert];
    assert s[..|s| - 1] == alerts;
  }

  /** Two alerts in the same segment: only the first counts, so the correct
      and incorrect alerts together are fewer than the alerts. */
  lemma SecondAlertDropped()
    ensures var segments := [Segment(10, 20, "a")];
      var t := Run(segments, [12.0, 15.0]);
      && t.correct == [CorrectAlert(12.0, "a")]
      && t.incorrect == []
      && t.unmarked == []
  {
    var segments := [Segment(10, 20, "a")];
    assert FirstMatch(segments, 12.0) == Some(0);
    assert FirstMatch(segments, 15.0) == Some(0);
    assert [12.0, 15.0][..1] == [12.0];
    assert [12.0][..0] == [];
    assert AllPositions(1) == [0];
  }

  /** Two digit strings followed by the same non-digit separator: equal
      texts have equal digit strings and equal remainders. */
  lemma SplitAtSeparator(x: string, p: string, y: string, q: string, c: char)
    requires AllDigits(x) && AllDigits(y) && !IsDigit(c)
    requires x + [c] + p == y + [c] + q
    ensures x == y && p == q
  {
    var s := x + [c] + p;
    assert s == x + ([c] + p) && s == y + ([c] + q);
    DigitPrefixStops(x, [c] + p);
    DigitPrefixStops(y, [c] + q);
    assert x == s[..|x|] == y;
    assert p == s[|x| + 1..] == q;
  }

  /** Segments at non-negative times with different bounds have different
      identifiers. */
  lemma SegmentIdentifierInjective(a: Segment, b: Segment)
    requires a.start >= 0 && a.end >= 0 && b.start >= 0 && b.end >= 0
    requires SegmentIdentifier(a) == SegmentIdentifier(b)
    ensures a.start == b.start && a.end == b.end
  {
    var x, y := NatToString(a.start), NatToString(b.start);
    NatToStringShape(a.start);
    NatToStringShape(b.start);
    assert IntToString(a.start) == x && IntToString(b.start) == y;
    var s := SegmentIdentifier(a);
    assert s == x + "-" + NatToString(a.end) && s == y + "-" + NatToString(b.end);
    SplitAtSeparator(x, NatToString(a.end), y, NatToString(b.end), '-');
    NatToStringInjective(a.start, b.start);
    NatToStringInjective(a.end, b.end);
  }
}
