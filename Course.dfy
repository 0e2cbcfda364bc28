/** The course player: where a returning learner resumes, the navigation
    between the welcome view, the screens and the final view, the completion
    of the course, and the session timer. */
module Course {
  import opened Text
  import opened Storage
  import Xapi

  /** The index of the last stored screen marked completed, -1 when there is
      none (the `reduce` over the stored screens). */
  function LastCompletedIndex(screens: seq<ScreenEntry>): (r: int)
    ensures -1 <= r < |screens|
    ensures r >= 0 ==> screens[r].completed
    ensures forall j :: r < j < |screens| ==> !screens[j].completed
  {
    if screens == [] then -1
    else if screens[|screens| - 1].completed then |screens| - 1
    else LastCompletedIndex(screens[..|screens| - 1])
  }

  /** The view shown first: the welcome view (-1) without stored screens,
      the final view (-2) when the last completed screen is the course's
      last one, and otherwise the screen after the last completed one. */
  function InitialScreen(initial: SuspendData, totalScreens: nat): int
  {
    match initial.screens
    case None => -1
    case Some(screens) =>
      var last := LastCompletedIndex(screens);
      if last + 1 == totalScreens then -2 else last + 1
  }

  /** A learner without stored screens is welcomed. With stored screens
      (never more than the course has), the final view is shown exactly when
      the course's last screen is stored as completed, or the course has no
      screens; otherwise the learner resumes on a real screen, right after a
      completed one, with no completed screen at or after it. */
  lemma InitialScreenResumes(initial: SuspendData, totalScreens: nat)
    requires initial.screens.Some? ==> |initial.screens.value| <= totalScreens
    ensures initial.screens.None? ==> InitialScreen(initial, totalScreens) == -1
    ensures initial.screens.Some? ==>
      var screens := initial.screens.value;
      var r := InitialScreen(initial, totalScreens);
      && (r == -2 <==> |screens| == totalScreens && (totalScreens == 0 || screens[totalScreens - 1].completed))
      && (r != -2 ==>
            && 0 <= r < totalScreens
            && (r > 0 ==> screens[r - 1].completed)
            && forall j :: r <= j < |screens| ==> !screens[j].completed)
  {
    if initial.screens.Some? {
      var screens := initial.screens.value;
      var last := LastCompletedIndex(screens);
      if |screens| == totalScreens && totalScreens > 0 && screens[totalScreens - 1].completed {
        assert last == totalScreens - 1;
      }
    }
  }

  /** The resumed screen follows the highest completed index, not the number
      of completed screens: with only the second of three screens completed,
      the learner resumes on the third. */
  lemma ResumesAfterHighestCompleted(entry: ScreenEntry)
    ensures var pending := entry.(completed := false);
      var done := entry.(completed := true);
      InitialScreen(SuspendData(Some([pending, done])), 3) == 2
  {
    var pending, done := entry.(completed := false), entry.(completed := true);
    assert LastCompletedIndex([pending, done]) == 1;
  }

  /** What is rendered for the current screen value. */
  datatype View = Nothing | Welcome | Finish | ScreenAt(index: nat)

  function ViewOf(current: Option<int>, totalScreens: nat): (v: View)
    ensures v.ScreenAt? ==> v.index < totalScreens
    ensures v != Nothing <==> current.Some? && -2 <= current.value < totalScreens
  {
    match current
    case None => Nothing
    case Some(c) =>
      if c == -1 then Welcome
      else if c == -2 then Finish
      else if 0 <= c < totalScreens then ScreenAt(c)
      else Nothing
  }

  /** The value "next" moves to: the final view after the last screen,
      otherwise one further on. */
  function NextScreen(current: int, totalScreens: nat): int
  {
    if current == totalScreens - 1 then -2 else current + 1
  }

  /** The buttons keep the player on a rendered view: "next" on the welcome
      view or a screen, "previous" on a screen, and "review" on the final
      view (which goes to the welcome view). "Next" reaches the final view
      only from the last screen, or from the welcome view of a course
      without screens. */
  lemma NavigationStaysRendered(c: int, totalScreens: nat)
    requires ViewOf(Some(c), totalScreens) != Nothing
    ensures c != -2 ==> ViewOf(Some(NextScreen(c, totalScreens)), totalScreens) != Nothing
    ensures c >= 0 ==> ViewOf(Some(c - 1), totalScreens) != Nothing
    ensures ViewOf(Some(-1), totalScreens) == Welcome
    ensures c != -2 ==> (NextScreen(c, totalScreens) == -2 <==> c == totalScreens - 1)
  {
  }

  class Player {
    const actor: Xapi.Actor
    const hasScorm: bool
    const totalScreens: nat
    const env: Environment

    var currentScreen: Option<int>
    var status: Option<string>
    var timerActive: bool
    var sessionTime: nat

    /** The player as first rendered: no screen yet, the status it was given,
        the timer on and no seconds counted. */
    constructor (actor: Xapi.Actor, initialStatus: Option<string>, hasScorm: bool, totalScreens: nat, env: Environment)
      ensures this.actor == actor && this.hasScorm == hasScorm && this.totalScreens == totalScreens && this.env == env
      ensures currentScreen == None && status == initialStatus && timerActive && sessionTime == 0
    {
      this.actor := actor;
      this.hasScorm := hasScorm;
      this.totalScreens := totalScreens;
      this.env := env;
      currentScreen := None;
      status := initialStatus;
      timerActive := true;
      sessionTime := 0;
    }

    /** The mount effect: the started statement, then the initial view; a
        `null` suspend data (`None`) has no screens, so it welcomes. */
    method Start(initial: Option<SuspendData>)
      modifies this, env
      ensures env.outbox == old(env.outbox) + [Sent(Xapi.StartedCourseStatement(actor))]
      ensures initial.None? ==> currentScreen == Some(-1)
      ensures initial.Some? ==> currentScreen == Some(InitialScreen(initial.value, totalScreens))
      ensures env.storage == old(env.storage)
      ensures status == old(status) && timerActive == old(timerActive) && sessionTime == old(sessionTime)
    {
      env.outbox := env.outbox + [Sent(Xapi.StartedCourseStatement(actor))];
      currentScreen := Some(if initial.Some? then InitialScreen(initial.value, totalScreens) else -1);
    }

    /** One second of the interval: the session time grows whether the timer
        is active or not, since the callback reads the flag as it was when
        the interval was set up. */
    method Tick()
      modifies this
      ensures sessionTime == old(sessionTime) + 1
      ensures currentScreen == old(currentScreen) && status == old(status) && timerActive == old(timerActive)
    {
      sessionTime := sessionTime + 1;
    }

    /** Leaving the page: the quitted statement with the seconds counted. */
    method Unload()
      modifies env
      ensures env.outbox == old(env.outbox) + [Sent(Xapi.QuittedCourseStatement(actor, sessionTime))]
      ensures env.storage == old(env.storage)
    {
      env.outbox := env.outbox + [Sent(Xapi.QuittedCourseStatement(actor, sessionTime))];
    }

    predicate AtLastScreen()
      reads this
    {
      currentScreen == Some(totalScreens - 1)
    }

    /** `handleNextScreen`. On the last screen the course is completed, once:
        the status is stored, the completed statement is sent and, with
        SCORM, the status, the session time and the end of the session are
        sent; then the final view is shown. Elsewhere the player moves one
        further on (`null + 1` is 1). */
    method HandleNext()
      modifies this, env
      ensures old(AtLastScreen()) && old(status) != Some(Completed) ==>
        && status == Some(Completed)
        && env.storage == old(env.storage)["status" := Completed]
        && env.outbox == old(env.outbox) + [Sent(Xapi.FinishedCourseStatement(actor))]
                         + (if hasScorm then [ScormStatus(Completed), ScormSessionTime(sessionTime), ScormTerminate] else [])
        && !timerActive
      ensures !(old(AtLastScreen()) && old(status) != Some(Completed)) ==>
        && status == old(status)
        && env.storage == old(env.storage)
        && env.outbox == old(env.outbox)
        && timerActive == old(timerActive)
      ensures currentScreen == Some(if old(currentScreen).Some? then NextScreen(old(currentScreen).value, totalScreens) else 1)
      ensures old(AtLastScreen()) ==> status == Some(Completed)
      ensures old(status) == Some(Completed) ==> status == Some(Completed)
      ensures sessionTime == old(sessionTime)
    {
      if AtLastScreen() {
        if status != Some(Completed) {
          status := Some(Completed);
          env.storage := env.storage["status" := Completed];
          env.outbox := env.outbox + [Sent(Xapi.FinishedCourseStatement(actor))];
          if hasScorm {
            env.outbox := env.outbox + [ScormStatus(Completed), ScormSessionTime(sessionTime), ScormTerminate];
          }
          timerActive := false;
        }
        currentScreen := Some(-2);
      } else {
        currentScreen := Some(if currentScreen.Some? then currentScreen.value + 1 else 1);
      }
    }

    /** `handlePreviousScreen`: one back (`null - 1` is -1). */
    method HandlePrevious()
      modifies this
      ensures currentScreen == Some(if old(currentScreen).Some? then old(currentScreen).value - 1 else -1)
      ensures status == old(status) && timerActive == old(timerActive) && sessionTime == old(sessionTime)
    {
      currentScreen := Some(if currentScreen.Some? then currentScreen.value - 1 else -1);
    }

    /** `handleGoToScreen`: straight to the given value. */
    method HandleGoTo(screen: int)
      modifies this
      ensures currentScreen == Some(screen)
      ensures status == old(status) && timerActive == old(timerActive) && sessionTime == old(sessionTime)
    {
      currentScreen := Some(screen);
    }
  }
}
