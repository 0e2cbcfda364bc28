/** The application shell: it decides between SCORM and the local storage,
    loads the learner's name, status, suspend data and xAPI actor from one of
    them, or takes them from the login form. */
module Session {
  import opened Text
  import opened Storage
  import Xapi
  import Scorm
  import ScormTime
  import Format
  import Course

  /** What the shell holds for the player once loaded; `None` stands for
      `null`. */
  datatype Refs = Refs(
    userName: Option<string>,
    initialSuspendData: Option<SuspendData>,
    initialStatus: Option<string>,
    actor: Option<Xapi.Actor>,
    isLogged: bool)

  // ---------------------------------------------------------------------------
  // Loading from the local storage

  /** Loading from the local storage, or `None` when parsing the stored
      suspend data throws. Without a truthy name and email nothing changes;
      otherwise the status defaults to "incomplete" and the suspend data to
      the empty record (also when it parses to `null`). */
  function LocalRefs(r: Refs, json: Json, storage: map<string, string>): Option<Refs>
  {
    var name := GetItem(storage, "userName");
    var email := GetItem(storage, "email");
    var status := GetItem(storage, "status");
    var text := GetItem(storage, "suspendData");
    var parsed := if Truthy(text) then json.parse(text.value) else Value(SuspendData(None));
    if parsed.Malformed? then None
    else if !(Truthy(name) && Truthy(email)) then Some(r)
    else Some(Refs(name,
                   Some(if parsed.Value? then parsed.record else SuspendData(None)),
                   Some(if Truthy(status) then status.value else Incomplete),
                   Some(Xapi.MboxAgent(name.value, "mailto:" + email.value)),
                   true))
  }

  /** The storage after a login. */
  function LoginStorage(storage: map<string, string>, name: string, email: string): map<string, string>
  {
    storage["userName" := name]["email" := email]["status" := Incomplete]["suspendData" := ""]
  }

  /** What a login gives the player. */
  function LoginRefs(name: string, email: string): Refs
  {
    Refs(Some(name), Some(SuspendData(None)), Some(Incomplete), Some(Xapi.MboxAgent(name, "mailto:" + email)), true)
  }

  /** Reloading the page after a login restores the session the login
      started, whatever was loaded before. */
  lemma LoginRestored(r: Refs, json: Json, storage: map<string, string>, name: string, email: string)
    requires name != "" && email != ""
    ensures LocalRefs(r, json, LoginStorage(storage, name, email)) == Some(LoginRefs(name, email))
  {
    var s := LoginStorage(storage, name, email);
    assert |"userName"| == 8 && |"email"| == 5 && |"status"| == 6 && |"suspendData"| == 11;
    assert GetItem(s, "userName") == Some(name);
    assert GetItem(s, "email") == Some(email);
    assert GetItem(s, "status") == Some(Incomplete);
    assert GetItem(s, "suspendData") == Some("");
  }

  /** The screens a screen writes come back to the player after a reload,
      and nothing else loaded changes. */
  lemma ProgressSurvivesReload(r: Refs, json: Json, storage: map<string, string>, screens: seq<ScreenEntry>)
    requires InversePair(json)
    requires LocalRefs(r, json, storage).Some?
    requires Truthy(GetItem(storage, "userName")) && Truthy(GetItem(storage, "email"))
    ensures var after := LocalRefs(r, json, WriteScreens(json, storage, screens));
      && after.Some?
      && after.value == LocalRefs(r, json, storage).value.(initialSuspendData := Some(SuspendData(Some(screens))))
  {
    var s := WriteScreens(json, storage, screens);
    ReadAfterWrite(json, storage, screens);
    assert |"userName"| == 8 && |"email"| == 5 && |"status"| == 6 && |"suspendData"| == 11;
    assert GetItem(s, "userName") == GetItem(storage, "userName");
    assert GetItem(s, "email") == GetItem(storage, "email");
    assert GetItem(s, "status") == GetItem(storage, "status");
  }

  // ---------------------------------------------------------------------------
  // Loading from SCORM

  /** The four values the shell asks the wrapper for. */
  datatype Answers = Answers(name: Option<string>, id: Option<string>, status: Option<string>, suspend: Option<string>)

  /** What the wrapper answers: the LMS's values under the version's keys
      when initialised, `null` for everything otherwise. */
  function ScormAnswers(initialized: bool, values: map<string, string>, v: ScormTime.Version): Answers
  {
    if initialized then
      Answers(Some(Scorm.Lookup(values, Scorm.Key(v, Scorm.LearnerName))),
              Some(Scorm.Lookup(values, Scorm.Key(v, Scorm.LearnerId))),
              Some(Scorm.Lookup(values, Scorm.Key(v, Scorm.Status))),
              Some(Scorm.Lookup(values, Scorm.Key(v, Scorm.SuspendData))))
    else Answers(None, None, None, None)
  }

  /** `localStorage.setItem` stores `null` as "null". */
  function StoredText(value: Option<string>): string
  {
    if value.Some? then value.value else "null"
  }

  /** The suspend data kept from SCORM: "{}" in place of a missing or empty
      text. */
  function ScormSuspendText(suspend: Option<string>): (r: string)
    ensures r != ""
    ensures Truthy(suspend) ==> r == suspend.value
  {
    if Truthy(suspend) then suspend.value else "{}"
  }

  /** The storage after loading from SCORM: the name, the status and the
      suspend data are copied into it. */
  function ScormStorage(storage: map<string, string>, a: Answers): map<string, string>
  {
    storage["userName" := StoredText(a.name)]["status" := StoredText(a.status)]["suspendData" := ScormSuspendText(a.suspend)]
  }

  /** Loading from SCORM. The name is taken before the suspend data is
      parsed; when parsing throws nothing else is. Otherwise the actor is the
      LMS account on the page's origin. */
  function ScormRefs(r: Refs, json: Json, a: Answers, origin: string): Refs
  {
    var parsed := json.parse(ScormSuspendText(a.suspend));
    if parsed.Malformed? then r.(userName := a.name)
    else Refs(a.name,
              if parsed.Value? then Some(parsed.record) else None,
              a.status,
              Some(Xapi.AccountAgent(a.name, origin, a.id)),
              true)
  }

  /** On a first SCORM launch (no suspend data in the LMS) the stored record
      is "{}", which a screen as written cannot read: opening the first screen
      throws. */
  lemma ScormFirstLaunchUnreadable(json: Json, storage: map<string, string>, a: Answers)
    requires InversePair(json)
    requires !Truthy(a.suspend)
    ensures GetItem(ScormStorage(storage, a), "suspendData") == Some("{}")
    ensures StoredScreensAsWritten(json, ScormStorage(storage, a)) == None
  {
  }

  /** When parsing throws, only the name is loaded. Suspend data that
      parses to a record can be read by a screen; a null or empty text is
      stored as "{}", so a first launch starts with no screens; any other
      text is stored as it came, and screens the course wrote to the LMS come back as
      written, both to the screens and to the player. */
  lemma ScormDataReadable(r: Refs, json: Json, storage: map<string, string>, a: Answers, origin: string)
    requires InversePair(json)
    ensures var s := ScormStorage(storage, a);
      && (json.parse(ScormSuspendText(a.suspend)).Malformed? ==> ScormRefs(r, json, a, origin) == r.(userName := a.name))
      && (json.parse(ScormSuspendText(a.suspend)).Value? ==> StoredScreens(json, s).Some?)
      && (Truthy(a.suspend) ==> GetItem(s, "suspendData") == a.suspend)
      && (!Truthy(a.suspend) ==>
            && GetItem(s, "suspendData") == Some("{}")
            && StoredScreens(json, s) == Some([])
            && ScormRefs(r, json, a, origin).initialSuspendData == Some(SuspendData(None)))
      && (forall screens :: a.suspend == Some(json.stringify(SuspendData(Some(screens)))) ==>
            && StoredScreens(json, s) == Some(screens)
            && ScormRefs(r, json, a, origin).initialSuspendData == Some(SuspendData(Some(screens))))
  {
    var s := ScormStorage(storage, a);
    assert GetItem(s, "suspendData") == Some(ScormSuspendText(a.suspend));
  }

  /** Without an initialised LMS the shell still logs the learner in, with
      `null` for the name, the status and the account name, and stores
      "null" for the name and the status. */
  lemma UninitializedScormLogsIn(r: Refs, json: Json, storage: map<string, string>, origin: string, v: ScormTime.Version)
    requires InversePair(json)
    ensures var a := ScormAnswers(false, map[], v);
      && ScormRefs(r, json, a, origin) == Refs(None, Some(SuspendData(None)), None, Some(Xapi.AccountAgent(None, origin, None)), true)
      && ScormStorage(storage, a)["userName"] == "null"
      && ScormStorage(storage, a)["status"] == "null"
  {
    assert |"userName"| == 8 && |"status"| == 6 && |"suspendData"| == 11;
  }

  /** Without an initialised LMS the learner is logged in with a `null`
      name and welcomed, and the welcome view as written then fails on that
      name, while the corrected greeting shows the empty first name. */
  lemma UninitializedScormGreetingThrows(r: Refs, json: Json, origin: string, v: ScormTime.Version, totalScreens: nat)
    requires InversePair(json)
    ensures var refs := ScormRefs(r, json, ScormAnswers(false, map[], v), origin);
      && refs.isLogged && refs.userName == None
      && refs.initialSuspendData.Some?
      && Course.InitialScreen(refs.initialSuspendData.value, totalScreens) == -1
      && Format.FirstNameAsWritten(refs.userName) == None
      && Format.GreetedName(refs.userName) == ""
  {
    UninitializedScormLogsIn(r, json, map[], origin, v);
  }

  /** The API object the wrapper settles on: the one found from the
      course's frame, or else the one found from the top window's opener. */
  function Located(b: Scorm.Browser, v: ScormTime.Version): Scorm.Lms?
    requires Scorm.WellFormed(b)
  {
    var found := Scorm.FindFrom(b.frames, v, b.current, Scorm.SearchLimit);
    if found == null && b.topOpener.Some? then Scorm.FindFrom(b.frames, v, b.topOpener.value, Scorm.SearchLimit)
    else found
  }

  // ---------------------------------------------------------------------------
  // The shell

  class App {
    const env: Environment
    var isLoading: bool
    var userName: Option<string>
    var initialSuspendData: Option<SuspendData>
    var initialStatus: Option<string>
    var actor: Option<Xapi.Actor>
    var isLogged: bool
    var scorm: Scorm.ScormWrapper?

    /** The shell as first rendered: loading, nobody logged in, no wrapper. */
    constructor (env: Environment)
      ensures this.env == env && isLoading && scorm == null
      ensures Snapshot() == Refs(None, None, None, None, false)
    {
      this.env := env;
      isLoading := true;
      userName := None;
      initialSuspendData := None;
      initialStatus := None;
      actor := None;
      isLogged := false;
      scorm := null;
    }

    function Snapshot(): Refs
      reads this
    {
      Refs(userName, initialSuspendData, initialStatus, actor, isLogged)
    }

    method SetSnapshot(r: Refs)
      modifies this
      ensures Snapshot() == r
      ensures isLoading == old(isLoading) && scorm == old(scorm)
    {
      userName, initialSuspendData, initialStatus, actor, isLogged :=
        r.userName, r.initialSuspendData, r.initialStatus, r.actor, r.isLogged;
    }

    /** `loadDataFromLocalStorage`; `threw` reports the exception of
        `JSON.parse`, which leaves everything as it was. */
    method LoadDataFromLocalStorage() returns (threw: bool)
      modifies this
      ensures var loaded := LocalRefs(old(Snapshot()), env.json, env.storage);
        && threw == loaded.None?
        && Snapshot() == (if loaded.Some? then loaded.value else old(Snapshot()))
      ensures isLoading == old(isLoading) && scorm == old(scorm)
    {
      var loaded := LocalRefs(Snapshot(), env.json, env.storage);
      threw := loaded.None?;
      if loaded.Some? {
        SetSnapshot(loaded.value);
      }
    }

    /** The four questions `loadDataFromScorm` asks the wrapper: the name,
        the id, the status and the suspend data, in that order. */
    method AskScorm() returns (a: Answers)
      requires scorm != null && scorm.Valid()
      modifies scorm.apiHandle
      ensures var h := scorm.apiHandle;
        a == ScormAnswers(scorm.isInitialized, if h != null then old(h.values) else map[], scorm.version)
      ensures var h := scorm.apiHandle; h != null ==> h.values == old(h.values)
      ensures var h := scorm.apiHandle; var v := scorm.version; h != null && scorm.isInitialized ==>
        h.calls == old(h.calls) + [Scorm.Call(Scorm.MethodName(v, Scorm.Get), [Scorm.Key(v, Scorm.LearnerName)]),
                                   Scorm.Call(Scorm.MethodName(v, Scorm.Get), [Scorm.Key(v, Scorm.LearnerId)]),
                                   Scorm.Call(Scorm.MethodName(v, Scorm.Get), [Scorm.Key(v, Scorm.Status)]),
                                   Scorm.Call(Scorm.MethodName(v, Scorm.Get), [Scorm.Key(v, Scorm.SuspendData)])]
    {
      var name := scorm.GetElement(Scorm.LearnerName);
      var id := scorm.GetElement(Scorm.LearnerId);
      var status := scorm.GetElement(Scorm.Status);
      var suspend := scorm.GetElement(Scorm.SuspendData);
      a := Answers(name, id, status, suspend);
    }

    /** `loadDataFromScorm`: the wrapper's answers are copied into the
        storage and loaded; `threw` reports the exception of `JSON.parse`. */
    method LoadDataFromScorm(origin: string) returns (threw: bool)
      requires scorm != null && scorm.Valid()
      modifies this, env, scorm.apiHandle
      ensures scorm == old(scorm)
      ensures var w := scorm;
        var a := ScormAnswers(w.isInitialized, if w.apiHandle != null then old(w.apiHandle.values) else map[], w.version);
        && env.storage == ScormStorage(old(env.storage), a)
        && Snapshot() == ScormRefs(old(Snapshot()), env.json, a, origin)
        && threw == env.json.parse(ScormSuspendText(a.suspend)).Malformed?
      ensures var h := scorm.apiHandle; h != null ==> h.values == old(h.values)
      ensures var h := scorm.apiHandle; var v := scorm.version; h != null && scorm.isInitialized ==>
        h.calls == old(h.calls) + [Scorm.Call(Scorm.MethodName(v, Scorm.Get), [Scorm.Key(v, Scorm.LearnerName)]),
                                   Scorm.Call(Scorm.MethodName(v, Scorm.Get), [Scorm.Key(v, Scorm.LearnerId)]),
                                   Scorm.Call(Scorm.MethodName(v, Scorm.Get), [Scorm.Key(v, Scorm.Status)]),
                                   Scorm.Call(Scorm.MethodName(v, Scorm.Get), [Scorm.Key(v, Scorm.SuspendData)])]
      ensures isLoading == old(isLoading) && env.outbox == old(env.outbox)
    {
      var a := AskScorm();
      env.storage := ScormStorage(env.storage, a);
      threw := env.json.parse(ScormSuspendText(a.suspend)).Malformed?;
      SetSnapshot(ScormRefs(Snapshot(), env.json, a, origin));
    }

    /** `initializeScorm`: a wrapper built without a version argument (so
        for SCORM 1.2), initialised in the page's frames, then the load; the
        result of the initialisation is not looked at. */
    method InitializeScorm(b: Scorm.Browser, origin: string) returns (threw: bool)
      requires Scorm.WellFormed(b)
      modifies this, env, Scorm.Apis(b.frames)
      ensures scorm != null && fresh(scorm) && scorm.Valid()
      ensures Some(scorm.version) == Scorm.CheckVersion(None)
      ensures scorm.apiHandle == Located(b, scorm.version)
      ensures var h := scorm.apiHandle;
        && (h == null ==> !scorm.isInitialized)
        && (h != null ==> scorm.isInitialized == Scorm.Truthy(old(h.initAnswer)) && h.values == old(h.values))
      ensures var h := scorm.apiHandle;
        var a := ScormAnswers(scorm.isInitialized, if h != null then old(h.values) else map[], scorm.version);
        && env.storage == ScormStorage(old(env.storage), a)
        && Snapshot() == ScormRefs(old(Snapshot()), env.json, a, origin)
        && threw == env.json.parse(ScormSuspendText(a.suspend)).Malformed?
      ensures isLoading == old(isLoading) && env.outbox == old(env.outbox)
    {
      var w := new Scorm.ScormWrapper(Scorm.CheckVersion(None).value);
      var _ := w.Initialize(b);
      ghost var h := w.apiHandle;
      assert h != null ==> w.isInitialized == Scorm.Truthy(old(h.initAnswer)) && h.values == old(h.values);
      scorm := w;
      threw := LoadDataFromScorm(origin);
      assert w.apiHandle == h;
    }

    /** `initializeApp`: SCORM when the build names a SCORM version, the
        local storage otherwise; loading ends unless parsing threw. */
    method InitializeApp(scormVersion: Option<string>, b: Scorm.Browser, origin: string)
      requires Scorm.WellFormed(b)
      modifies this, env, Scorm.Apis(b.frames)
      ensures !Truthy(scormVersion) ==>
        var loaded := LocalRefs(old(Snapshot()), env.json, old(env.storage));
        && env.storage == old(env.storage)
        && Snapshot() == (if loaded.Some? then loaded.value else old(Snapshot()))
        && isLoading == (old(isLoading) && loaded.None?)
        && scorm == old(scorm)
      ensures Truthy(scormVersion) ==>
        && scorm != null && fresh(scorm) && scorm.version == ScormTime.V12
        && scorm.apiHandle == Located(b, ScormTime.V12)
        && var h := scorm.apiHandle;
           var a := ScormAnswers(scorm.isInitialized, if h != null then old(h.values) else map[], ScormTime.V12);
           && env.storage == ScormStorage(old(env.storage), a)
           && Snapshot() == ScormRefs(old(Snapshot()), env.json, a, origin)
           && isLoading == (old(isLoading) && env.json.parse(ScormSuspendText(a.suspend)).Malformed?)
      ensures env.outbox == old(env.outbox)
    {
      var threw;
      if Truthy(scormVersion) {
        threw := InitializeScorm(b, origin);
      } else {
        threw := LoadDataFromLocalStorage();
      }
      if !threw {
        isLoading := false;
      }
    }

    /** `handleLogin`: the form's name and email start a new session. */
    method HandleLogin(name: string, email: string)
      modifies this, env
      ensures Snapshot() == LoginRefs(name, email)
      ensures env.storage == LoginStorage(old(env.storage), name, email)
      ensures isLoading == old(isLoading) && scorm == old(scorm) && env.outbox == old(env.outbox)
    {
      SetSnapshot(LoginRefs(name, email));
      env.storage := LoginStorage(env.storage, name, email);
    }
  }
}
