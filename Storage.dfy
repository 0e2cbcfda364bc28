/** What the course player keeps in the browser's local storage, the suspend
    data record it stores there as JSON, and the requests it sends out of the
    page (xAPI statements and writes through the SCORM wrapper). */
module Storage {
  import opened Text
  import opened Alerts
  import Xapi

  const Completed := "completed"
  const Incomplete := "incomplete"

  /** One screen's record in the suspend data. */
  datatype ScreenEntry = ScreenEntry(
    correctAlerts: seq<CorrectAlert>,
    incorrectAlerts: seq<real>,
    unmarkedSegments: seq<Segment>,
    viewed: bool,
    completed: bool,
    viewedSegments: Option<seq<string>>)

  /** The suspend data record; `{}` is the record without a `screens` list. */
  datatype SuspendData = SuspendData(screens: Option<seq<ScreenEntry>>)

  /** What `JSON.parse` gives for a text: a record (any JSON value without a
      `screens` list reads as `SuspendData(None)`), `null`, or an exception. */
  datatype Parsed = Value(record: SuspendData) | Null | Malformed

  /** `JSON.parse` and `JSON.stringify` for the suspend data. */
  datatype Json = Json(parse: string -> Parsed, stringify: SuspendData -> string)

  /** The two are inverse: a stringified record is a non-empty text that
      parses back to the record; and "{}" parses to the empty record. */
  ghost predicate InversePair(json: Json)
  {
    && (forall d :: json.stringify(d) != "" && json.parse(json.stringify(d)) == Value(d))
    && json.parse("{}") == Value(SuspendData(None))
  }

  /** A request sent out of the page: an xAPI statement, or a call through
      the SCORM wrapper. */
  datatype Effect =
    | Sent(statement: Xapi.Statement)
    | ScormSuspendData(text: string)
    | ScormScore(progress: real)
    | ScormStatus(status: string)
    | ScormSessionTime(seconds: nat)
    | ScormTerminate

  /** The page's environment: `localStorage` and the requests sent so far. */
  class Environment {
    var storage: map<string, string>
    var outbox: seq<Effect>
    const json: Json

    constructor (storage: map<string, string>, json: Json)
      ensures this.storage == storage && this.json == json && outbox == []
    {
      this.storage := storage;
      this.json := json;
      outbox := [];
    }
  }

  /** `localStorage.getItem`: `None` stands for `null`. */
  function GetItem(storage: map<string, string>, key: string): Option<string>
  {
    if key in storage then Some(storage[key]) else None
  }

  /** A stored value is truthy when it is present and not empty. */
  predicate Truthy(value: Option<string>)
  {
    value.Some? && value.value != ""
  }

  /** The screens list as the source's screen reads it: an empty list when
      nothing (or the empty string) is stored; `None` where reading throws:
      a text that does not parse, `null`, or a record without a `screens`
      list, whose missing list is then indexed. */
  function StoredScreensAsWritten(json: Json, storage: map<string, string>): Option<seq<ScreenEntry>>
  {
    var text := GetItem(storage, "suspendData");
    if !Truthy(text) then Some([])
    else match json.parse(text.value)
      case Value(SuspendData(Some(screens))) => Some(screens)
      case _ => None
  }

  /** The screens list a screen reads, where a record without a `screens`
      list reads as no screens, like an empty storage does. */
  function StoredScreens(json: Json, storage: map<string, string>): Option<seq<ScreenEntry>>
  {
    var text := GetItem(storage, "suspendData");
    if !Truthy(text) then Some([])
    else match json.parse(text.value)
      case Value(SuspendData(screens)) => Some(if screens.Some? then screens.value else [])
      case _ => None
  }

  /** The stored record "{}" cannot be read as written (indexing its missing
      list throws) while the corrected reading sees no screens. The two
      readings agree wherever the one as written succeeds, and the corrected
      one fails only on a text that does not parse to a record. */
  lemma EmptyRecordUnreadable(json: Json, storage: map<string, string>)
    requires InversePair(json)
    ensures GetItem(storage, "suspendData") == Some("{}") ==>
      StoredScreensAsWritten(json, storage) == None && StoredScreens(json, storage) == Some([])
    ensures StoredScreensAsWritten(json, storage).Some? ==> StoredScreens(json, storage) == StoredScreensAsWritten(json, storage)
    ensures StoredScreens(json, storage).None? <==>
      Truthy(GetItem(storage, "suspendData")) && !json.parse(storage["suspendData"]).Value?
  {
  }

  /** The storage after writing a screens list as the suspend data. */
  function WriteScreens(json: Json, storage: map<string, string>, screens: seq<ScreenEntry>): map<string, string>
  {
    storage["suspendData" := json.stringify(SuspendData(Some(screens)))]
  }

  /** A written screens list is read back as written, and nothing else in
      the storage changes. */
  lemma ReadAfterWrite(json: Json, storage: map<string, string>, screens: seq<ScreenEntry>)
    requires InversePair(json)
    ensures StoredScreens(json, WriteScreens(json, storage, screens)) == Some(screens)
    ensures forall k :: k != "suspendData" ==> GetItem(WriteScreens(json, storage, screens), k) == GetItem(storage, k)
  {
    assert json.stringify(SuspendData(Some(screens))) != "";
  }

  /** `screens[id] = entry` on a list that is at most one entry short. */
  function Overwrite(screens: seq<ScreenEntry>, id: nat, entry: ScreenEntry): (r: seq<ScreenEntry>)
    requires id <= |screens|
  {
    if id < |screens| then screens[id := entry] else screens + [entry]
  }

  /** The overwritten entry is the new one and every other entry is kept. */
  lemma OverwriteKeepsOthers(screens: seq<ScreenEntry>, id: nat, entry: ScreenEntry)
    requires id <= |screens|
    ensures var r := Overwrite(screens, id, entry);
      && |r| == (if id < |screens| then |screens| else |screens| + 1)
      && r[id] == entry
      && forall j :: 0 <= j < |screens| && j != id ==> r[j] == screens[j]
  {
  }

  /** The number of screens marked completed. */
  function CountCompleted(screens: seq<ScreenEntry>): nat
  {
    if screens == [] then 0
    else CountCompleted(screens[..|screens| - 1]) + (if screens[|screens| - 1].completed then 1 else 0)
  }

  lemma {:induction false} CountCompletedBound(screens: seq<ScreenEntry>)
    ensures CountCompleted(screens) <= |screens|
    ensures CountCompleted(screens) == |screens| <==> forall j :: 0 <= j < |screens| ==> screens[j].completed
  {
    if screens != [] {
      var prefix := screens[..|screens| - 1];
      CountCompletedBound(prefix);
      assert forall j :: 0 <= j < |prefix| ==> prefix[j] == screens[j];
    }
  }

  /** Replacing one entry changes the count by that entry's contribution only. */
  lemma {:induction false} CountAfterUpdate(screens: seq<ScreenEntry>, id: nat, entry: ScreenEntry)
    requires id < |screens|
    ensures CountCompleted(screens[id := entry]) + (if screens[id].completed then 1 else 0)
         == CountCompleted(screens) + (if entry.completed then 1 else 0)
  {
    var last := |screens| - 1;
    var updated := screens[id := entry];
    if id == last {
      assert updated[..last] == screens[..last];
    } else {
      assert updated[..last] == screens[..last][id := entry];
      CountAfterUpdate(screens[..last], id, entry);
    }
  }

  lemma CountAfterOverwrite(screens: seq<ScreenEntry>, id: nat, entry: ScreenEntry)
    requires id <= |screens|
    ensures CountCompleted(Overwrite(screens, id, entry))
         + (if id < |screens| && screens[id].completed then 1 else 0)
         == CountCompleted(screens) + (if entry.completed then 1 else 0)
  {
    if id < |screens| {
      CountAfterUpdate(screens, id, entry);
    } else {
      assert (screens + [entry])[..|screens|] == screens;
    }
  }

  /** The progress shown and sent as the score: the completed screens as a
      percentage of the course's screens, 0 for a course without screens. */
  function Progress(screens: seq<ScreenEntry>, totalScreens: nat): real
  {
    if totalScreens > 0 then (CountCompleted(screens) as real / totalScreens as real) * 100.0 else 0.0
  }

  /** The progress lies between 0 and 100 while no more screens are stored
      than the course has, and reaches 100 exactly when every one of the
      course's screens is stored as completed. */
  lemma ProgressRange(screens: seq<ScreenEntry>, totalScreens: nat)
    requires |screens| <= totalScreens
    ensures 0.0 <= Progress(screens, totalScreens) <= 100.0
    ensures Progress(screens, totalScreens) == 100.0 <==>
      totalScreens > 0 && |screens| == totalScreens && forall j :: 0 <= j < |screens| ==> screens[j].completed
  {
    CountCompletedBound(screens);
    if totalScreens > 0 {
      Ratio(CountCompleted(screens) as real, totalScreens as real);
    }
  }

  /** A share of a positive whole lies in 0..1 and is 1 only for the whole. */
  lemma Ratio(c: real, t: real)
    requires 0.0 <= c <= t && t > 0.0
    ensures 0.0 <= c / t <= 1.0
    ensures c / t == 1.0 <==> c == t
  {
    assert c == (c / t) * t;
  }
}
