/** The SCORM run-time wrapper of the course player: version check, the data
    model keys and API function names of SCORM 1.2 and SCORM 2004, the search
    for the API object up the frame hierarchy, and the gating of every API call
    on a successful initialisation. The LMS is modelled as a store of data
    model values plus a log of the API calls it received. */
module Scorm {
  import opened Text
  import ScormTime

  type Version = ScormTime.Version

  /** The printable name of a version, as the constructor receives it. */
  function VersionName(v: Version): string
  {
    match v
    case V12 => "1.2"
    case V2004 => "2004"
  }

  /** The constructor's argument check: no argument means "1.2", and only
      "1.2" and "2004" are accepted (`None` stands for the thrown `Error`). */
  function CheckVersion(requested: Option<string>): Option<Version>
  {
    match requested
    case None => Some(ScormTime.V12)
    case Some(s) =>
      if s == "1.2" then Some(ScormTime.V12)
      else if s == "2004" then Some(ScormTime.V2004)
      else None
  }

  /** A version name is accepted exactly when it is one of the two names, and
      it is accepted as the version it names. */
  lemma CheckVersionExact(s: string)
    ensures CheckVersion(Some(s)).Some? <==> s == "1.2" || s == "2004"
    ensures forall v: Version :: CheckVersion(Some(s)) == Some(v) <==> s == VersionName(v)
  {
    assert VersionName(ScormTime.V12) == "1.2" && VersionName(ScormTime.V2004) == "2004";
    assert "1.2" != "2004" by {
      assert |"1.2"| != |"2004"|;
    }
  }

  // ---------------------------------------------------------------------------
  // Data model elements and API function names

  /** The data model elements the wrapper reads or writes. */
  datatype Element = Status | SuspendData | Score | SessionTime | TotalTime | LearnerName | LearnerId

  /** The data model key of an element in each version. In SCORM 2004 the
      suspend data goes to `cmi.location`. */
  function Key(v: Version, e: Element): string
  {
    match v
    case V12 =>
      (match e
       case Status => "cmi.core.lesson_status"
       case SuspendData => "cmi.suspend_data"
       case Score => "cmi.core.score.raw"
       case SessionTime => "cmi.core.session_time"
       case TotalTime => "cmi.core.total_time"
       case LearnerName => "cmi.core.student_name"
       case LearnerId => "cmi.core.student_id")
    case V2004 =>
      (match e
       case Status => "cmi.completion_status"
       case SuspendData => "cmi.location"
       case Score => "cmi.score.raw"
       case SessionTime => "cmi.session_time"
       case TotalTime => "cmi.total_time"
       case LearnerName => "cmi.learner_name"
       case LearnerId => "cmi.learner_id")
  }

  /** The element a key stands for in a version, if any. */
  function ElementOf(v: Version, key: string): Option<Element>
  {
    if key == Key(v, Status) then Some(Status)
    else if key == Key(v, SuspendData) then Some(SuspendData)
    else if key == Key(v, Score) then Some(Score)
    else if key == Key(v, SessionTime) then Some(SessionTime)
    else if key == Key(v, TotalTime) then Some(TotalTime)
    else if key == Key(v, LearnerName) then Some(LearnerName)
    else if key == Key(v, LearnerId) then Some(LearnerId)
    else None
  }

  /** Every element has its own key in each version: the key determines the element. */
  lemma KeyDetermines(v: Version, e: Element)
    ensures ElementOf(v, Key(v, e)) == Some(e)
  {
    match v
    case V12 =>
      assert Key(v, SessionTime)[10] == 'e' && Key(v, LearnerName)[10] == 't';
      assert Key(v, TotalTime)[9] == 't' && Key(v, LearnerId)[9] == 's';
    case V2004 =>
      assert Key(v, SessionTime)[4] == 's' && Key(v, LearnerName)[4] == 'l';
      assert Key(v, TotalTime)[4] == 't' && Key(v, LearnerId)[4] == 'l';
  }

  /** Two elements never share a key in the same version. */
  lemma KeyInjective(v: Version, e: Element, f: Element)
    requires Key(v, e) == Key(v, f)
    ensures e == f
  {
    KeyDetermines(v, e);
    KeyDetermines(v, f);
  }

  /** The run-time API functions the wrapper calls. */
  datatype Api = Init | Finish | Get | Set | Commit | LastError | ErrorString | Diagnostic

  /** The name of an API function on the version's API object. */
  function MethodName(v: Version, op: Api): string
  {
    match v
    case V12 =>
      (match op
       case Init => "LMSInitialize"
       case Finish => "LMSFinish"
       case Get => "LMSGetValue"
       case Set => "LMSSetValue"
       case Commit => "LMSCommit"
       case LastError => "LMSGetLastError"
       case ErrorString => "LMSGetErrorString"
       case Diagnostic => "LMSGetDiagnostic")
    case V2004 =>
      (match op
       case Init => "Initialize"
       case Finish => "Terminate"
       case Get => "GetValue"
       case Set => "SetValue"
       case Commit => "Commit"
       case LastError => "GetLastError"
       case ErrorString => "GetErrorString"
       case Diagnostic => "GetDiagnostic")
  }

  /** The SCORM 1.2 name of every API function is the SCORM 2004 name with an
      `LMS` prefix, except that `Terminate` was called `LMSFinish`. */
  lemma MethodNamesPrefixed(op: Api)
    ensures op != Finish ==> MethodName(ScormTime.V12, op) == "LMS" + MethodName(ScormTime.V2004, op)
    ensures op == Finish ==> MethodName(ScormTime.V12, op) == "LMSFinish" && MethodName(ScormTime.V2004, op) == "Terminate"
  {
  }

  // ---------------------------------------------------------------------------
  // The LMS side

  /** One call received by the API object: the function name and its arguments. */
  datatype Call = Call(name: string, args: seq<string>)

  /** The value the LMS answers for a key: what it holds, or the empty string. */
  function Lookup(values: map<string, string>, key: string): string
  {
    if key in values then values[key] else ""
  }

  /** The API object an LMS places in one of the course's frames. It keeps the
      data model values it was given, logs every call, and answers each call
      from its own state. */
  class Lms {
    var values: map<string, string>
    var calls: seq<Call>
    var initAnswer: string
    var lastError: string
    var errorStrings: map<string, string>
    var diagnostics: map<string, string>

    constructor (values: map<string, string>, initAnswer: string, lastError: string,
                 errorStrings: map<string, string>, diagnostics: map<string, string>)
      ensures this.values == values && this.initAnswer == initAnswer && this.lastError == lastError
      ensures this.errorStrings == errorStrings && this.diagnostics == diagnostics
      ensures calls == []
    {
      this.values := values;
      this.initAnswer := initAnswer;
      this.lastError := lastError;
      this.errorStrings := errorStrings;
      this.diagnostics := diagnostics;
      calls := [];
    }

    /** A call that changes nothing but the log and is answered from `answer`. */
    method Receive(name: string, args: seq<string>, answer: string) returns (r: string)
      modifies this
      ensures calls == old(calls) + [Call(name, args)] && r == answer
      ensures values == old(values) && initAnswer == old(initAnswer) && lastError == old(lastError)
      ensures errorStrings == old(errorStrings) && diagnostics == old(diagnostics)
    {
      calls := calls + [Call(name, args)];
      r := answer;
    }

    /** `LMSSetValue` / `SetValue`: the LMS stores the value. */
    method Store(name: string, key: string, value: string) returns (r: string)
      modifies this
      ensures calls == old(calls) + [Call(name, [key, value])] && r == "true"
      ensures values == old(values)[key := value]
      ensures initAnswer == old(initAnswer) && lastError == old(lastError)
      ensures errorStrings == old(errorStrings) && diagnostics == old(diagnostics)
    {
      calls := calls + [Call(name, [key, value])];
      values := values[key := value];
      r := "true";
    }
  }

  // ---------------------------------------------------------------------------
  // Frames and the search for the API object

  type FrameId = nat

  /** A browser window or frame: the API objects it carries for each version
      (`window.API`, `window.API_1484_11`) and its parent, `None` or itself
      at the top. */
  datatype Frame = Frame(api12: Lms?, api2004: Lms?, parent: Option<FrameId>)

  /** The windows the course can reach: every frame, the one the course runs
      in, and the opener of its top window, if any. */
  datatype Browser = Browser(frames: map<FrameId, Frame>, current: FrameId, topOpener: Option<FrameId>)

  /** Every parent named is a known frame. */
  predicate Closed(frames: map<FrameId, Frame>)
  {
    forall id :: id in frames && frames[id].parent.Some? ==> frames[id].parent.value in frames
  }

  predicate WellFormed(b: Browser)
  {
    Closed(b.frames) && b.current in b.frames && (b.topOpener.Some? ==> b.topOpener.value in b.frames)
  }

  /** The API object a frame carries for a version, or null. */
  function ApiOf(f: Frame, v: Version): Lms?
  {
    match v
    case V12 => f.api12
    case V2004 => f.api2004
  }

  /** Every API object of every frame. */
  function Apis(frames: map<FrameId, Frame>): set<Lms?>
  {
    (set id | id in frames :: frames[id].api12) + (set id | id in frames :: frames[id].api2004)
  }

  /** One step up: the parent, or the frame itself at the top. */
  function Climb(frames: map<FrameId, Frame>, id: FrameId): (up: FrameId)
    requires Closed(frames) && id in frames
    ensures up in frames
  {
    var p := frames[id].parent;
    if p.Some? && p.value != id then p.value else id
  }

  /** The frame reached after `k` steps up. */
  function Ancestor(frames: map<FrameId, Frame>, id: FrameId, k: nat): (a: FrameId)
    requires Closed(frames) && id in frames
    ensures a in frames
    decreases k
  {
    if k == 0 then id else Ancestor(frames, Climb(frames, id), k - 1)
  }

  /** What `findApi` returns with `attempts` iterations left: the API object
      of the first frame on the way up that carries one. */
  function FindFrom(frames: map<FrameId, Frame>, v: Version, id: FrameId, attempts: nat): Lms?
    requires Closed(frames) && id in frames
    decreases attempts
  {
    if attempts == 0 then null
    else if ApiOf(frames[id], v) != null then ApiOf(frames[id], v)
    else FindFrom(frames, v, Climb(frames, id), attempts - 1)
  }

  /** When the `k`-th frame up is the first to carry an API object and `k` is
      within the attempts, the search returns that object. */
  lemma {:induction false} FindFromFirst(frames: map<FrameId, Frame>, v: Version, id: FrameId, attempts: nat, k: nat)
    requires Closed(frames) && id in frames && k < attempts
    requires forall j :: 0 <= j < k ==> ApiOf(frames[Ancestor(frames, id, j)], v) == null
    requires ApiOf(frames[Ancestor(frames, id, k)], v) != null
    ensures FindFrom(frames, v, id, attempts) == ApiOf(frames[Ancestor(frames, id, k)], v)
    decreases k
  {
    if k > 0 {
      var up := Climb(frames, id);
      assert ApiOf(frames[Ancestor(frames, id, 0)], v) == null;
      forall j | 0 <= j < k - 1
        ensures ApiOf(frames[Ancestor(frames, up, j)], v) == null
      {
        assert Ancestor(frames, id, j + 1) == Ancestor(frames, up, j);
      }
      FindFromFirst(frames, v, up, attempts - 1, k - 1);
    }
  }

  /** When none of the frames within the attempts carries an API object, the
      search returns null. */
  lemma {:induction false} FindFromNone(frames: map<FrameId, Frame>, v: Version, id: FrameId, attempts: nat)
    requires Closed(frames) && id in frames
    requires forall j :: 0 <= j < attempts ==> ApiOf(frames[Ancestor(frames, id, j)], v) == null
    ensures FindFrom(frames, v, id, attempts) == null
    decreases attempts
  {
    if attempts > 0 {
      var up := Climb(frames, id);
      assert ApiOf(frames[Ancestor(frames, id, 0)], v) == null;
      forall j | 0 <= j < attempts - 1
        ensures ApiOf(frames[Ancestor(frames, up, j)], v) == null
      {
        assert Ancestor(frames, id, j + 1) == Ancestor(frames, up, j);
      }
      FindFromNone(frames, v, up, attempts - 1);
    }
  }

  /** How many steps up the search goes before it stops, either at a frame
      that carries an API object or when its attempts run out. */
  function StepsTaken(frames: map<FrameId, Frame>, v: Version, id: FrameId, attempts: nat): nat
    requires Closed(frames) && id in frames
    decreases attempts
  {
    if attempts == 0 || ApiOf(frames[id], v) != null then 0
    else 1 + StepsTaken(frames, v, Climb(frames, id), attempts - 1)
  }

  /** Conversely, a non-null result is the API object of a frame within the
      attempts, with no API object on any frame below it. */
  lemma {:induction false} FindFromFound(frames: map<FrameId, Frame>, v: Version, id: FrameId, attempts: nat)
    requires Closed(frames) && id in frames
    requires FindFrom(frames, v, id, attempts) != null
    ensures var k := StepsTaken(frames, v, id, attempts);
      && k < attempts
      && FindFrom(frames, v, id, attempts) == ApiOf(frames[Ancestor(frames, id, k)], v)
      && forall j :: 0 <= j < k ==> ApiOf(frames[Ancestor(frames, id, j)], v) == null
    decreases attempts
  {
    if ApiOf(frames[id], v) != null {
      assert Ancestor(frames, id, 0) == id;
    } else {
      var up := Climb(frames, id);
      FindFromFound(frames, v, up, attempts - 1);
      var k := StepsTaken(frames, v, up, attempts - 1);
      assert Ancestor(frames, id, k + 1) == Ancestor(frames, up, k);
      forall j | 0 <= j < k + 1
        ensures ApiOf(frames[Ancestor(frames, id, j)], v) == null
      {
        if j > 0 {
          assert Ancestor(frames, id, j) == Ancestor(frames, up, j - 1);
        }
      }
    }
  }

  /** The search only ever returns an API object some frame carries. */
  lemma {:induction false} FindFromInApis(frames: map<FrameId, Frame>, v: Version, id: FrameId, attempts: nat)
    requires Closed(frames) && id in frames
    ensures FindFrom(frames, v, id, attempts) in Apis(frames) + {null}
    decreases attempts
  {
    if attempts > 0 && ApiOf(frames[id], v) == null {
      FindFromInApis(frames, v, Climb(frames, id), attempts - 1);
    }
  }

  /** The number of iterations `findApi` allows itself. */
  const SearchLimit := 500

  // ---------------------------------------------------------------------------
  // The wrapper

  /** JavaScript truthiness of the string an API function answers. */
  predicate Truthy(answer: string)
  {
    answer != ""
  }

  class ScormWrapper {
    const version: Version
    var apiHandle: Lms?
    var isInitialized: bool

    /** An initialised wrapper holds the API object it initialised. */
    predicate Valid()
      reads this
    {
      isInitialized ==> apiHandle != null
    }

    /** A new wrapper has no API object and is not initialised. */
    constructor (version: Version)
      ensures this.version == version && apiHandle == null && !isInitialized
      ensures Valid()
    {
      this.version := version;
      apiHandle := null;
      isInitialized := false;
    }

    /** `findApi`: at most 500 iterations, each checking the current frame for
        the version's API object and otherwise moving to its parent. */
    method FindApi(frames: map<FrameId, Frame>, start: FrameId) returns (api: Lms?)
      requires Closed(frames) && start in frames
      ensures api == FindFrom(frames, version, start, SearchLimit)
    {
      var attempts := 0;
      var win := start;
      while attempts < SearchLimit
        invariant 0 <= attempts <= SearchLimit && win in frames
        invariant FindFrom(frames, version, start, SearchLimit) == FindFrom(frames, version, win, SearchLimit - attempts)
      {
        var frame := frames[win];
        if version == ScormTime.V12 && frame.api12 != null {
          return frame.api12;
        } else if version == ScormTime.V2004 && frame.api2004 != null {
          return frame.api2004;
        } else if frame.parent.Some? && frame.parent.value != win {
          win := frame.parent.value;
        }
        attempts := attempts + 1;
      }
      return null;
    }

    /** `initialize`: search from the course's frame, then from the opener of
        the top window; without an API object the result is false and the
        flag is left alone; otherwise the flag is the truthiness of what the
        initialisation call answers (so an answer "false" counts as success). */
    method Initialize(b: Browser) returns (result: bool)
      requires WellFormed(b)
      modifies this, Apis(b.frames)
      ensures var found := FindFrom(b.frames, version, b.current, SearchLimit);
        apiHandle == (if found == null && b.topOpener.Some?
                      then FindFrom(b.frames, version, b.topOpener.value, SearchLimit)
                      else found)
      ensures apiHandle == null ==> !result && isInitialized == old(isInitialized)
      ensures var h := apiHandle; h != null ==>
        && h.calls == old(h.calls) + [Call(MethodName(version, Init), [""])]
        && h.values == old(h.values)
        && isInitialized == Truthy(old(h.initAnswer))
        && result == isInitialized
        && Valid()
      ensures forall l :: l in Apis(b.frames) && l != null && l != apiHandle ==> unchanged(l)
    {
      FindFromInApis(b.frames, version, b.current, SearchLimit);
      apiHandle := FindApi(b.frames, b.current);
      if apiHandle == null && b.topOpener.Some? {
        FindFromInApis(b.frames, version, b.topOpener.value, SearchLimit);
        apiHandle := FindApi(b.frames, b.topOpener.value);
      }
      if apiHandle == null {
        return false;
      }
      var answer := apiHandle.Receive(MethodName(version, Init), [""], apiHandle.initAnswer);
      isInitialized := Truthy(answer);
      result := isInitialized;
    }

    /** `terminate`: one finishing call when initialised, nothing otherwise. */
    method Terminate()
      requires Valid()
      modifies apiHandle
      ensures apiHandle != null && isInitialized ==>
        && apiHandle.calls == old(apiHandle.calls) + [Call(MethodName(version, Finish), [""])]
        && apiHandle.values == old(apiHandle.values)
      ensures apiHandle != null && !isInitialized ==> unchanged(apiHandle)
    {
      if !isInitialized {
        return;
      }
      var _ := apiHandle.Receive(MethodName(version, Finish), [""], "true");
    }

    /** `getValue`: null when not initialised, otherwise the LMS's answer. */
    method GetValue(key: string) returns (value: Option<string>)
      requires Valid()
      modifies apiHandle
      ensures !isInitialized ==> value == None
      ensures apiHandle != null && !isInitialized ==> unchanged(apiHandle)
      ensures apiHandle != null && isInitialized ==>
        && value == Some(Lookup(old(apiHandle.values), key))
        && apiHandle.calls == old(apiHandle.calls) + [Call(MethodName(version, Get), [key])]
        && apiHandle.values == old(apiHandle.values)
    {
      if !isInitialized {
        return None;
      }
      var answer := apiHandle.Receive(MethodName(version, Get), [key], Lookup(apiHandle.values, key));
      value := Some(answer);
    }

    /** `setValue`: when initialised, exactly one set call followed by one
        commit; nothing at all otherwise. */
    method SetValue(key: string, value: string)
      requires Valid()
      modifies apiHandle
      ensures apiHandle != null && !isInitialized ==> unchanged(apiHandle)
      ensures apiHandle != null && isInitialized ==>
        && apiHandle.calls == old(apiHandle.calls)
             + [Call(MethodName(version, Set), [key, value]), Call(MethodName(version, Api.Commit), [""])]
        && apiHandle.values == old(apiHandle.values)[key := value]
    {
      if !isInitialized {
        return;
      }
      var _ := apiHandle.Store(MethodName(version, Set), key, value);
      Commit();
    }

    /** `commit`: one commit call when initialised, nothing otherwise. */
    method Commit()
      requires Valid()
      modifies apiHandle
      ensures apiHandle != null && !isInitialized ==> unchanged(apiHandle)
      ensures apiHandle != null && isInitialized ==>
        && apiHandle.calls == old(apiHandle.calls) + [Call(MethodName(version, Api.Commit), [""])]
        && apiHandle.values == old(apiHandle.values)
    {
      if !isInitialized {
        return;
      }
      var _ := apiHandle.Receive(MethodName(version, Api.Commit), [""], "true");
    }

    /** `getLastError`: "0" when not initialised, otherwise the LMS's answer. */
    method GetLastError() returns (code: string)
      requires Valid()
      modifies apiHandle
      ensures !isInitialized ==> code == "0"
      ensures apiHandle != null && !isInitialized ==> unchanged(apiHandle)
      ensures apiHandle != null && isInitialized ==>
        && code == old(apiHandle.lastError)
        && apiHandle.calls == old(apiHandle.calls) + [Call(MethodName(version, LastError), [])]
        && apiHandle.values == old(apiHandle.values)
    {
      if !isInitialized {
        return "0";
      }
      code := apiHandle.Receive(MethodName(version, LastError), [], apiHandle.lastError);
    }

    /** `getErrorString`: "" when not initialised, otherwise the LMS's answer. */
    method GetErrorString(errorCode: string) returns (text: string)
      requires Valid()
      modifies apiHandle
      ensures !isInitialized ==> text == ""
      ensures apiHandle != null && !isInitialized ==> unchanged(apiHandle)
      ensures apiHandle != null && isInitialized ==>
        && text == Lookup(old(apiHandle.errorStrings), errorCode)
        && apiHandle.calls == old(apiHandle.calls) + [Call(MethodName(version, ErrorString), [errorCode])]
        && apiHandle.values == old(apiHandle.values)
    {
      if !isInitialized {
        return "";
      }
      text := apiHandle.Receive(MethodName(version, ErrorString), [errorCode], Lookup(apiHandle.errorStrings, errorCode));
    }

    /** `getDiagnostic`: "" when not initialised, otherwise the LMS's answer. */
    method GetDiagnostic(errorCode: string) returns (text: string)
      requires Valid()
      modifies apiHandle
      ensures !isInitialized ==> text == ""
      ensures apiHandle != null && !isInitialized ==> unchanged(apiHandle)
      ensures apiHandle != null && isInitialized ==>
        && text == Lookup(old(apiHandle.diagnostics), errorCode)
        && apiHandle.calls == old(apiHandle.calls) + [Call(MethodName(version, Diagnostic), [errorCode])]
        && apiHandle.values == old(apiHandle.values)
    {
      if !isInitialized {
        return "";
      }
      text := apiHandle.Receive(MethodName(version, Diagnostic), [errorCode], Lookup(apiHandle.diagnostics, errorCode));
    }

    /** `getStatus`, `getSuspendData`, `getScore`, `getUserName`, `getUserId`:
        the value under the element's key for this version. */
    method GetElement(e: Element) returns (value: Option<string>)
      requires Valid()
      requires e in {Status, SuspendData, Score, LearnerName, LearnerId}
      modifies apiHandle
      ensures !isInitialized ==> value == None
      ensures apiHandle != null && !isInitialized ==> unchanged(apiHandle)
      ensures apiHandle != null && isInitialized ==>
        && value == Some(Lookup(old(apiHandle.values), Key(version, e)))
        && apiHandle.calls == old(apiHandle.calls) + [Call(MethodName(version, Get), [Key(version, e)])]
        && apiHandle.values == old(apiHandle.values)
    {
      value := GetValue(Key(version, e));
    }

    /** `setStatus`, `setSuspendData`, `setScore`: the value goes under the
        element's key for this version. */
    method SetElement(e: Element, value: string)
      requires Valid()
      requires e in {Status, SuspendData, Score}
      modifies apiHandle
      ensures apiHandle != null && !isInitialized ==> unchanged(apiHandle)
      ensures apiHandle != null && isInitialized ==>
        && apiHandle.calls == old(apiHandle.calls)
             + [Call(MethodName(version, Set), [Key(version, e), value]), Call(MethodName(version, Api.Commit), [""])]
        && apiHandle.values == old(apiHandle.values)[Key(version, e) := value]
    {
      SetValue(Key(version, e), value);
    }

    /** `setSessionTime`: the seconds are written in the version's time format. */
    method SetSessionTime(seconds: nat)
      requires Valid()
      modifies apiHandle
      ensures apiHandle != null && !isInitialized ==> unchanged(apiHandle)
      ensures apiHandle != null && isInitialized ==>
        && apiHandle.calls == old(apiHandle.calls)
             + [Call(MethodName(version, Set), [Key(version, SessionTime), ScormTime.Encode(version, seconds)]),
                Call(MethodName(version, Api.Commit), [""])]
        && apiHandle.values == old(apiHandle.values)[Key(version, SessionTime) := ScormTime.Encode(version, seconds)]
    {
      var text := ScormTime.Encode(version, seconds);
      SetValue(Key(version, SessionTime), text);
    }

    /** `getTotalTime`: the stored total time decoded in the version's format,
        0 when the value is null or empty. */
    method GetTotalTime() returns (total: ScormTime.Decoded)
      requires Valid()
      modifies apiHandle
      ensures !isInitialized ==> total == ScormTime.Seconds(0)
      ensures apiHandle != null && !isInitialized ==> unchanged(apiHandle)
      ensures apiHandle != null && isInitialized ==>
        && total == ScormTime.TotalTime(version, Some(Lookup(old(apiHandle.values), Key(version, TotalTime))))
        && apiHandle.calls == old(apiHandle.calls) + [Call(MethodName(version, Get), [Key(version, TotalTime)])]
        && apiHandle.values == old(apiHandle.values)
    {
      var time := GetValue(Key(version, TotalTime));
      total := ScormTime.TotalTime(version, time);
    }
  }

  /** A total time the LMS holds in the wrapper's own format is read back as
      the seconds it encodes, for less than 10000 hours. */
  lemma TotalTimeReadsBack(v: Version, values: map<string, string>, n: nat)
    requires n < 36000000
    requires Key(v, TotalTime) in values && values[Key(v, TotalTime)] == ScormTime.Encode(v, n)
    ensures ScormTime.TotalTime(v, Some(Lookup(values, Key(v, TotalTime)))) == ScormTime.Seconds(n)
  {
    ScormTime.TotalTimeOfEncoded(v, n);
  }
}
