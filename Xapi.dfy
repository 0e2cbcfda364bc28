/** The xAPI statements the course player sends to its learning record store:
    one builder per learning event, each an object literal made from its
    arguments. */
module Xapi {
  import opened Text

  /** The learner as an xAPI agent: identified by an LMS account (the SCORM
      path, where the name and the id may be missing) or by a mailbox. */
  datatype Actor =
    | AccountAgent(accountHolder: Option<string>, homePage: string, accountName: Option<string>)
    | MboxAgent(name: string, mbox: string)

  /** A verb: its IRI and its English and Spanish display texts. */
  datatype Verb = Verb(id: string, displayEn: string, displaySpanish: string)

  /** An activity of type "Activity": its IRI, and its name and description in
      English and in Spanish. */
  datatype Activity = Activity(id: string, nameEn: string, nameSpanish: string,
                               descriptionEn: string, descriptionSpanish: string)

  /** The value of a result extension: a segment title or a number of seconds. */
  datatype ExtensionValue = Title(title: string) | SessionSeconds(seconds: int)

  /** A result holding a single extension. */
  datatype Extension = Extension(key: string, value: ExtensionValue)

  datatype Statement = Statement(actor: Actor, verb: Verb, activity: Activity, result: Option<Extension>)

  const VerbPrefix := "https://xapi.easyyeah.com/verbs/"
  const ActivityPrefix := "https://xapi.easyyeah.com/activities/"
  const ExtensionPrefix := "https://xapi.easyyeah.com/extension/"

  const CourseName := "+Humanización"

  /** The course activity as the started statement describes it. */
  const StartedCourseActivity := Activity(ActivityPrefix + "course", CourseName, CourseName,
                                          "+Humanización course", "+Humanización curso")

  /** The course activity as the quitted and completed statements describe it. */
  const EndedCourseActivity := Activity(ActivityPrefix + "course", CourseName, CourseName,
                                        "Course +Humanización", "Curso +Humanización")

  /** The video activity of a screen, named after the screen's title. */
  function VideoActivity(video: string): Activity
  {
    Activity(ActivityPrefix + "video", video, video, "Video " + video, "Video " + video)
  }

  function StartedCourseStatement(actor: Actor): Statement
  {
    Statement(actor, Verb(VerbPrefix + "started", "started", "empezó"), StartedCourseActivity, None)
  }

  function ViewedVideoStatement(actor: Actor, video: string): Statement
  {
    Statement(actor, Verb(VerbPrefix + "viewed", "viewed", "vió"), VideoActivity(video), None)
  }

  function RetriedVideoStatement(actor: Actor, video: string): Statement
  {
    Statement(actor, Verb(VerbPrefix + "retried", "retried", "reintentó"), VideoActivity(video), None)
  }

  /** Takes the title of the segment played, the only part of the segment the
      statement carries. */
  function ViewedVideoSegmentStatement(actor: Actor, video: string, segmentTitle: string): Statement
  {
    Statement(actor, Verb(VerbPrefix + "viewed", "viewed", "vió"), VideoActivity(video),
              Some(Extension(ExtensionPrefix + "segment", Title(segmentTitle))))
  }

  function QuittedCourseStatement(actor: Actor, sessionTime: int): Statement
  {
    Statement(actor, Verb(VerbPrefix + "quitted", "quitted", "salió"), EndedCourseActivity,
              Some(Extension(ExtensionPrefix + "session_time", SessionSeconds(sessionTime))))
  }

  function FinishedCourseStatement(actor: Actor): Statement
  {
    Statement(actor, Verb(VerbPrefix + "completed", "completed", "completó"), EndedCourseActivity, None)
  }

  // ---------------------------------------------------------------------------
  // Reading a statement back

  /** The learning events the player reports, with what each one carries. */
  datatype Event =
    | StartedCourse
    | ViewedVideo(video: string)
    | RetriedVideo(video: string)
    | ViewedVideoSegment(video: string, segmentTitle: string)
    | QuittedCourse(sessionTime: int)
    | FinishedCourse

  /** The statement the player sends for an event. */
  function Build(actor: Actor, e: Event): Statement
  {
    match e
    case StartedCourse => StartedCourseStatement(actor)
    case ViewedVideo(video) => ViewedVideoStatement(actor, video)
    case RetriedVideo(video) => RetriedVideoStatement(actor, video)
    case ViewedVideoSegment(video, title) => ViewedVideoSegmentStatement(actor, video, title)
    case QuittedCourse(seconds) => QuittedCourseStatement(actor, seconds)
    case FinishedCourse => FinishedCourseStatement(actor)
  }

  /** What a receiver learns from a statement: which event it reports, told
      apart by the verb IRI and the presence of a result, and the video title,
      segment title or session time it carries. */
  function Read(s: Statement): Option<Event>
  {
    var verb := s.verb.id;
    if verb == VerbPrefix + "started" then Some(StartedCourse)
    else if verb == VerbPrefix + "completed" then Some(FinishedCourse)
    else if verb == VerbPrefix + "retried" then Some(RetriedVideo(s.activity.nameEn))
    else if verb == VerbPrefix + "quitted" then
      (match s.result
       case Some(Extension(_, SessionSeconds(n))) => Some(QuittedCourse(n))
       case _ => None)
    else if verb == VerbPrefix + "viewed" then
      (match s.result
       case None => Some(ViewedVideo(s.activity.nameEn))
       case Some(Extension(_, Title(t))) => Some(ViewedVideoSegment(s.activity.nameEn, t))
       case _ => None)
    else None
  }

  /** The six verb IRIs are pairwise different. */
  lemma VerbIdsDiffer()
    ensures VerbPrefix + "started" != VerbPrefix + "completed"
    ensures VerbPrefix + "started" != VerbPrefix + "retried"
    ensures VerbPrefix + "started" != VerbPrefix + "quitted"
    ensures VerbPrefix + "started" != VerbPrefix + "viewed"
    ensures VerbPrefix + "completed" != VerbPrefix + "retried"
    ensures VerbPrefix + "completed" != VerbPrefix + "quitted"
    ensures VerbPrefix + "completed" != VerbPrefix + "viewed"
    ensures VerbPrefix + "retried" != VerbPrefix + "quitted"
    ensures VerbPrefix + "retried" != VerbPrefix + "viewed"
    ensures VerbPrefix + "quitted" != VerbPrefix + "viewed"
  {
    var n := |VerbPrefix|;
    assert (VerbPrefix + "started")[n] == 's';
    assert (VerbPrefix + "completed")[n] == 'c';
    assert (VerbPrefix + "retried")[n] == 'r';
    assert (VerbPrefix + "quitted")[n] == 'q';
    assert (VerbPrefix + "viewed")[n] == 'v';
  }

  /** Every statement reads back as the event it was built for: the builders
      are told apart by their verbs and results, and each one keeps the video
      title, segment title and session time it was given. */
  lemma ReadBuild(actor: Actor, e: Event)
    ensures Read(Build(actor, e)) == Some(e)
  {
    VerbIdsDiffer();
  }

  /** Every builder embeds the actor it is given, unchanged. */
  lemma BuildKeepsActor(actor: Actor, e: Event)
    ensures Build(actor, e).actor == actor
  {
  }

  /** Two statements are equal only when they report the same event for the
      same actor. */
  lemma BuildInjective(a: Actor, e: Event, b: Actor, f: Event)
    requires Build(a, e) == Build(b, f)
    ensures a == b && e == f
  {
    ReadBuild(a, e);
    ReadBuild(b, f);
  }

  /** Only the segment and quit statements carry a result, and its extension
      holds the segment title or the session time as given. */
  lemma ResultOnlyForSegmentAndQuit(actor: Actor, e: Event)
    ensures Build(actor, e).result.Some? <==> e.ViewedVideoSegment? || e.QuittedCourse?
    ensures e.ViewedVideoSegment? ==>
      Build(actor, e).result == Some(Extension(ExtensionPrefix + "segment", Title(e.segmentTitle)))
    ensures e.QuittedCourse? ==>
      Build(actor, e).result == Some(Extension(ExtensionPrefix + "session_time", SessionSeconds(e.sessionTime)))
  {
  }

  /** Course events are about the course activity and video events about the
      video named after the screen, described as "Video " and its title. */
  lemma BuildObject(actor: Actor, e: Event)
    ensures e.StartedCourse? || e.QuittedCourse? || e.FinishedCourse? ==>
      Build(actor, e).activity.id == ActivityPrefix + "course"
    ensures e.ViewedVideo? || e.RetriedVideo? || e.ViewedVideoSegment? ==>
      && Build(actor, e).activity.id == ActivityPrefix + "video"
      && Build(actor, e).activity.nameEn == e.video
      && Build(actor, e).activity.descriptionEn == "Video " + e.video
  {
  }
}
