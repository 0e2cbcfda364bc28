# +Humanización course player, modelled in Dafny

The course player is a single-page application. It shows a learner a short
sequence of video screens about humane care practice. While a screen's video
plays, the learner raises *alerts* at the moments they think show a practice
to identify. When the video ends, the alerts are evaluated against the
screen's *segments*, and the segments the learner missed can be replayed.
A screen is completed when every segment was identified, or when every missed
segment was replayed to its end. Finishing the last screen completes the
course.

Progress is kept as a *suspend data* record in the browser's local storage
and, when the player runs inside an LMS, mirrored through a SCORM 1.2/2004
run-time wrapper. Learning events are reported as xAPI statements.

The model covers:

- `Text`: the number and string primitives the code relies on: decimal
  printing, `parseInt`, `split`, `trim`, `slice(-n)` padding, `replace`.
- `Format`: the chronometer text and the first-name helper.
- `ScormTime`: the four SCORM session-time converters and the total-time read.
- `Scorm`: the wrapper class (`ScormWrapper`), with its version check, its
  search for the API object up the frame hierarchy, its data-model keys and
  function names, and the gating of every call on a successful
  initialisation. The LMS is modelled as a store of values plus a log of
  received calls (`Lms`).
- `Xapi`: the six statement builders, and a reader showing that each
  statement identifies its event.
- `Alerts`: the evaluation of alerts (`checkAlerts`). A specification fold
  (`Run`) gives the expected result; `EvaluateAlerts` is the loop, proved
  against it.
- `Storage`: the suspend data record, the local storage, the readings and
  writings of the screens list, the progress percentage, and the log of
  requests sent out of the page.
- `Screens`: the screen component as a class whose methods are its handlers
  and effects.
- `Course`: the player component. It covers where a returning learner
  resumes, the navigation, the completion of the course and the session
  timer.
- `Session`: the application shell. It chooses SCORM or the local storage,
  loads the learner's data from one of them, and handles the login form.

Where the project's written description and its code differ, the model
follows the code:
- A second alert inside a segment that is already identified is dropped. It
  is not counted as incorrect.
- The final view leads only back to the welcome view.
- The shell always builds its wrapper without a version argument, so the
  wrapper always speaks SCORM 1.2.

## Model

| member | source | states |
|---|---|---|
| Format.FormatChronoFields | src/utils/formatUtil.js:1-16 | the chronometer text has 3, 2 or 1 colon-separated fields from one hour, from one minute, and below a minute; the first field has no leading zero; every later field has two digits below 60; the text reads back as the given seconds |
| Format.ChronoHours | src/utils/formatUtil.js:8-9 | from one hour on, the fields are the hours, then the padded minutes and seconds |
| Format.ChronoMinutes | src/utils/formatUtil.js:10-11 | from one minute to one hour, the fields are the unpadded minutes, then the padded seconds |
| Format.ChronoSeconds | src/utils/formatUtil.js:12-13 | below a minute, the text is the bare number of seconds |
| Format.FirstNameWithoutComma | src/utils/formatUtil.js:17-22 | a name without a comma is returned trimmed |
| Format.FirstNameIsSecondPiece | src/utils/formatUtil.js:17-22 | for "Last, First[, …]", the result is the trimmed second piece |
| Format.FirstNameAfterTrailingComma | src/utils/formatUtil.js:18-20 | for "Last,", the result is the empty string: the default applies only to a missing piece, not an empty one |
| Format.GreetedNameAgrees | src/components/Welcome.js:14 | the corrected greeting never fails: it is `formatFirstName` of the name wherever the view as written renders, the empty first name for a null name, and never starts or ends with whitespace; the reading as written fails exactly on a null name |
| ScormTime.Encode12Fields | src/lib/ScormWrapper.js:142-150 | the 1.2 encoding has 10 characters in three fields: four hour digits holding the hours modulo 10000, then two minute digits and two second digits, each below 60 |
| ScormTime.RoundTrip12Truncated | src/lib/ScormWrapper.js:142-176 | decoding a 1.2 encoding gives the seconds back modulo 10000 hours |
| ScormTime.RoundTrip12 | src/lib/ScormWrapper.js:142-176 | below 10000 hours, the 1.2 codec round-trips exactly |
| ScormTime.Decode12Fields | src/lib/ScormWrapper.js:170-176 | three numeric fields decode as hours×3600 + minutes×60 + seconds |
| ScormTime.Decode12IgnoresFraction | src/lib/ScormWrapper.js:174 | the hundredths after the dot are ignored |
| ScormTime.Decode2004Fields | src/lib/ScormWrapper.js:178-190 | `PT…H…M…S` with numeric fields decodes as hours×3600 + minutes×60 + seconds |
| ScormTime.RoundTrip2004Truncated | src/lib/ScormWrapper.js:152-190 | decoding a 2004 encoding gives the seconds back modulo 10000 hours |
| ScormTime.RoundTrip2004 | src/lib/ScormWrapper.js:152-190 | below 10000 hours, the 2004 codec round-trips exactly |
| ScormTime.TotalTime | src/lib/ScormWrapper.js:116-126 | a null or empty total time counts as 0 seconds |
| ScormTime.TotalTimeOfEncoded | src/lib/ScormWrapper.js:116-126 | a total time held in the wrapper's own format reads back as its seconds |
| Scorm.CheckVersionExact | src/lib/ScormWrapper.js:4-11 | only "1.2" and "2004" are accepted, each as the version it names |
| Scorm.ScormWrapper.constructor | src/lib/ScormWrapper.js:4-11 | a new wrapper has no API object and is not initialised |
| Scorm.KeyDetermines | src/lib/ScormWrapper.js:58-140 | each element has its own data-model key in each version, and the key identifies the element |
| Scorm.KeyInjective | src/lib/ScormWrapper.js:58-140 | two elements never share a key within a version |
| Scorm.FindFromFirst | src/lib/ScormWrapper.js:32-48 | if the k-th frame up is the first with an API object, and k is within the attempts, the search returns that object |
| Scorm.FindFromNone | src/lib/ScormWrapper.js:32-48 | if no frame within the attempts has an API object, the search returns null |
| Scorm.FindFromFound | src/lib/ScormWrapper.js:32-48 | a non-null result comes from a frame within the attempts, and no frame below it has one |
| Scorm.FindFromInApis | src/lib/ScormWrapper.js:32-48 | the search only returns an API object that some frame carries |
| Scorm.ScormWrapper.FindApi | src/lib/ScormWrapper.js:32-48 | the loop of at most 500 iterations returns what the recursive search describes |
| Scorm.ScormWrapper.Initialize | src/lib/ScormWrapper.js:13-30 | searches from the course's frame, then from the top window's opener. Without an API object: false, flag unchanged. With one: exactly one initialise call, and the flag becomes the truthiness of its answer. No other API object is touched |
| Scorm.ScormWrapper.Terminate | src/lib/ScormWrapper.js:50-56 | one finishing call when initialised, nothing otherwise |
| Scorm.ScormWrapper.GetValue | src/lib/ScormWrapper.js:192-199 | null and no call when not initialised; otherwise one get call, answered with the LMS's value |
| Scorm.ScormWrapper.SetValue | src/lib/ScormWrapper.js:201-208 | when initialised, exactly one set call then one commit, and the value is stored; nothing otherwise |
| Scorm.ScormWrapper.Commit | src/lib/ScormWrapper.js:210-216 | one commit call when initialised, nothing otherwise |
| Scorm.ScormWrapper.GetLastError | src/lib/ScormWrapper.js:218-224 | "0" and no call when not initialised; otherwise the LMS's last error |
| Scorm.ScormWrapper.GetErrorString | src/lib/ScormWrapper.js:226-232 | "" and no call when not initialised; otherwise the LMS's text for the code |
| Scorm.ScormWrapper.GetDiagnostic | src/lib/ScormWrapper.js:234-240 | "" and no call when not initialised; otherwise the LMS's diagnostic for the code |
| Scorm.ScormWrapper.GetElement | src/lib/ScormWrapper.js:58-140 | the status, suspend data, score, name and id getters read the element's key for the version |
| Scorm.ScormWrapper.SetElement | src/lib/ScormWrapper.js:58-101 | the status, suspend data and score setters write under the element's key, then commit |
| Scorm.ScormWrapper.SetSessionTime | src/lib/ScormWrapper.js:103-114 | the session time is written in the version's time format, then committed |
| Scorm.ScormWrapper.GetTotalTime | src/lib/ScormWrapper.js:116-126 | the stored total time is decoded in the version's format; 0 when not initialised |
| Scorm.TotalTimeReadsBack | src/lib/ScormWrapper.js:116-126 | a total time the LMS holds in the version's format reads back exactly |
| Xapi.ReadBuild | src/utils/xapiUtils.js:1-177 | every statement reads back as the event it was built for, keeping its video title, segment title or session time |
| Xapi.BuildInjective | src/utils/xapiUtils.js:1-177 | different events or actors never give the same statement |
| Xapi.BuildKeepsActor | src/utils/xapiUtils.js:1-177 | every builder embeds its actor unchanged |
| Xapi.ResultOnlyForSegmentAndQuit | src/utils/xapiUtils.js:85-149 | only the segment and quit statements carry a result, holding the segment title or the session time |
| Xapi.BuildObject | src/utils/xapiUtils.js:1-177 | course events use the course activity; video events use the video named after the screen, described as "Video " + title |
| Alerts.FirstMatch | src/components/Screen.js:105-107 | the first segment, in list order, whose closed interval holds the alert; none exactly when no segment holds it |
| Alerts.IndexOf | src/components/Screen.js:117-120 | the first position of the element, or -1 exactly when it is absent |
| Alerts.EvaluateAlerts | src/components/Screen.js:98-125 | the loop's correct alerts, incorrect alerts and unmarked segments are those of the specification fold `Run` |
| Alerts.RunFacts | src/components/Screen.js:98-125 | claimed segments are those some alert falls in first; unmarked segments are the rest, in their original order; incorrect alerts are those in no segment, in order; correct + unmarked = segments; correct + incorrect ≤ alerts |
| Alerts.StepClaims | src/components/Screen.js:109-121 | an alert in an unclaimed segment adds one correct alert with its time and the segment's title, and removes exactly that segment from the unmarked ones |
| Alerts.StepDropsClaimed | src/components/Screen.js:110 | an alert in an already claimed segment changes nothing |
| Alerts.StepMisses | src/components/Screen.js:122-124 | an alert in no segment is appended to the incorrect alerts |
| Alerts.SecondAlertDropped | src/components/Screen.js:110 | two alerts in one segment give one correct alert and no incorrect one |
| Alerts.SegmentIdentifierInjective | src/components/Screen.js:96 | segments at non-negative times with different bounds have different identifiers |
| Storage.ReadAfterWrite | src/components/Screen.js:137-158 | a written screens list reads back as written; no other storage key changes |
| Storage.OverwriteKeepsOthers | src/components/Screen.js:141 | `screens[id] = entry` replaces that entry (or appends it) and keeps all others |
| Storage.CountAfterOverwrite | src/components/Screen.js:46-48 | replacing one entry changes the completed count only by that entry's contribution |
| Storage.CountCompletedBound | src/components/Screen.js:46-48 | the completed count is at most the number of screens, and equals it exactly when every screen is completed |
| Storage.ProgressRange | src/components/Screen.js:50-51 | the progress lies in 0..100, and is 100 exactly when every one of the course's screens is stored completed |
| Storage.EmptyRecordUnreadable | src/components/Screen.js:36-40 | the stored record "{}" cannot be read as written, while the corrected reading sees no screens; the two readings agree wherever the first succeeds |
| Screens.InsertGrows | src/components/Screen.js:193-195 | adding to the replayed set keeps it free of repeats, keeps its elements, and grows it by one only for a new identifier |
| Screens.FromArrayDistinct | src/components/Screen.js:43-45 | a set built from a stored array has no repeats and holds exactly the array's elements |
| Screens.EvaluatedEntryFacts | src/components/Screen.js:141-156 | the stored entry is viewed, drops the replayed list, has correct + unmarked = segments, and is completed exactly when every segment was claimed |
| Screens.ReplayedAll | src/components/Screen.js:77-81 | if the unmarked segments have distinct identifiers and only they are replayed, the size test holds exactly when each unmarked segment was replayed to its end |
| Screens.Screen.constructor | src/components/Screen.js:24-32 | the screen's initial state |
| Screens.Screen.Show | src/components/Screen.js:34-55 | lists, replayed set and viewed flag come from the stored entry, with empty defaults; progress comes from the stored screens |
| Screens.Screen.ContinueEffect | src/components/Screen.js:57-75 | once the screen can be left, the progress is recomputed and sent as the score, unless the course is completed or there is no SCORM |
| Screens.Screen.CompletionEffect | src/components/Screen.js:77-94 | when the replayed set is non-empty and as large as the unmarked list: the entry is stored completed, SCORM gets a copy, and the screen can be left; nothing otherwise |
| Screens.Screen.SetAlert | src/components/Screen.js:172-175 | the alert is appended |
| Screens.Screen.CheckAlerts | src/components/Screen.js:98-162 | the evaluated entry replaces the screen's entry (always stored locally, copied to SCORM when mirroring); the replayed set is emptied; the screen can be left exactly when no segment is unmarked |
| Screens.Screen.VideoEnded | src/components/Screen.js:164-170 | the viewed statement, then the alert check: the screen's correct, incorrect and unmarked lists become those of the evaluated entry, which is stored and mirrored; the replayed set empties; the screen can be left exactly when nothing is unmarked; alerts, viewed flag, progress and replay flag are unchanged |
| Screens.Screen.PlaySegment | src/components/Screen.js:177-182 | the segment statement with the segment's title; replay buttons disabled |
| Screens.Screen.SegmentEnded | src/components/Screen.js:188-212 | the identifier joins the replayed set; the set is stored in the entry, keeping the entry's other fields; replay buttons enabled |
| Screens.Screen.Reset | src/components/Screen.js:224-230 | no alerts; the three lists become `{}` |
| Screens.Screen.HardReset | src/components/Screen.js:217-222 | a reset, and the screen can no longer be left; no replayed segments, so the completion rule cannot fire |
| Screens.Screen.Retry | src/components/Screen.js:232-237 | the retried statement, then a reset |
| Course.LastCompletedIndex | src/components/Player.js:40-45 | the highest index stored completed, or -1; no completed screen after it |
| Course.InitialScreen | src/components/Player.js:35-52 | the welcome view without stored screens; the final view when the last completed index is the last screen; otherwise the next screen |
| Course.InitialScreenResumes | src/components/Player.js:35-52 | with stored screens, the final view appears exactly when the course's last screen is stored completed (or there are no screens); otherwise the learner resumes on a real screen, right after a completed one |
| Course.ResumesAfterHighestCompleted | src/components/Player.js:40-51 | with only the second of three screens completed, the learner resumes on the third |
| Course.ViewOf | src/components/Player.js:131-153 | the welcome view, the final view, or a screen only for a valid index; nothing otherwise |
| Course.NavigationStaysRendered | src/components/Player.js:101-129 | next, previous and review keep the player on a rendered view; next reaches the final view only from the last screen |
| Course.Player.constructor | src/components/Player.js:23-26 | no screen yet, the initial status, timer on, no seconds counted |
| Course.Player.Start | src/components/Player.js:28-55 | the started statement, then the initial view; a null suspend data welcomes the learner |
| Course.Player.Tick | src/components/Player.js:57-67 | each second adds one to the session time, even after the timer is switched off |
| Course.Player.Unload | src/components/Player.js:69-78 | the quit statement with the seconds counted |
| Course.Player.HandleNext | src/components/Player.js:101-121 | on the last screen, the course is completed once: status stored, completed statement sent, and with SCORM the status, session time and termination sent; timer off; final view. Elsewhere one step on. A completed status stays completed |
| Course.Player.HandlePrevious | src/components/Player.js:123-125 | one step back |
| Course.Player.HandleGoTo | src/components/Player.js:127-129 | straight to the given value |
| Session.LoginRestored | src/App.js:75-128 | a reload after a login restores the session the login started |
| Session.ProgressSurvivesReload | src/App.js:75-104 | screens written to the storage reach the player after a reload, with nothing else changed |
| Session.ScormFirstLaunchUnreadable | src/App.js:55-56 | on a first SCORM launch (a null or empty suspend data), "{}" is stored as the suspend data, and a screen reading it as written cannot read it |
| Session.ScormDataReadable | src/App.js:45-73 | when parsing throws, only the name is loaded. A null or empty suspend data is stored as "{}", which reads as no screens; any other text is stored unchanged. Screens the course wrote to the LMS come back to both the screens and the player |
| Session.UninitializedScormLogsIn | src/App.js:45-73 | without an initialised LMS, the learner is logged in with null name, status and account name, and "null" is stored |
| Session.UninitializedScormGreetingThrows | src/App.js:45-73 | without an initialised LMS the learner is logged in with a null name and shown the welcome view, where `formatFirstName` as written fails on that name; the corrected greeting shows the empty first name |
| Session.App.constructor | src/App.js:10-25 | loading, nobody logged in, no wrapper |
| Session.App.LoadDataFromLocalStorage | src/App.js:75-104 | the result is `LocalRefs`: nothing changes without a truthy name and email; the status defaults to "incomplete" and the suspend data to `{}`; actor is a mailbox agent; a parse exception is reported |
| Session.App.AskScorm | src/App.js:47-55 | the name, id, status and suspend data are asked of the wrapper in this order |
| Session.App.LoadDataFromScorm | src/App.js:45-73 | the answers are copied into the storage; the learner is loaded with an LMS account actor on the page's origin; a parse exception is reported |
| Session.App.InitializeScorm | src/App.js:37-43 | a SCORM 1.2 wrapper is initialised on the located API object, then the data is loaded |
| Session.App.InitializeApp | src/App.js:27-35 | SCORM when the build names a version, the local storage otherwise; loading ends unless parsing threw |
| Session.App.HandleLogin | src/App.js:106-128 | the form's name and email start a session with status "incomplete" and empty suspend data, and the four storage keys are written |

## Left out

- Asynchrony: every `await` is taken in program order, and React's batching
  of state updates is not modelled. An effect is a method that its caller
  runs after the state it depends on changes, for example
  `Screens.Screen.CompletionEffect` after `SegmentEnded`.
- The browser's `localStorage` is a map from keys to texts. Quotas and other
  tabs are not modelled.
- `JSON.parse` and `JSON.stringify` are a pair of functions given to the
  model (`Storage.Json`). Where a property needs them to be inverse, the
  lemma asks for it (`InversePair`). The JSON text format itself is not
  modelled.
- Requests leaving the page form one log (`Storage.Effect`). It holds xAPI
  statements, and the suspend data, score, status, session time and
  termination sent through the SCORM wrapper by the screens and the player.
  What the wrapper does with each request is modelled on its own, in
  `Scorm.ScormWrapper`. The xAPI client, its endpoint and its credentials
  are not modelled.
- The LMS is a store of values and a log of calls. It answers every set and
  commit with "true"; its real validation and error codes are not
  modelled.
- Numbers: alert times and the progress are exact reals, not IEEE doubles.
  The text of the score sent to the LMS is not modelled. Segment bounds are
  integers; the course data (`screens.json`) is given as parameters.
- The video element and the interval that watches a replay are not
  modelled. `Screens.Screen.SegmentEnded` is the moment the interval sees
  the segment's end, and `Course.Player.Tick` is one second of the timer.
  The interval is not cleared when the learner leaves the screen, and the
  player reuses one screen component for every screen. So a replay still
  running on navigation could store its identifier in the old screen's
  entry and add it to the next screen's replayed set. The model runs each
  replay to its end on its own screen and does not capture this
  interleaving.
- Replaying a correct alert is modelled only up to its statement
  (`Screens.Screen.PlaySegment` takes the title). The alert has no `start`
  or `end`, so the seek that follows fails in the browser, and the replay
  never ends.
- Rendering beyond the choice of view is not modelled: the JSX, the Login
  form and its validation, the Welcome and Finish texts, and debug logging.
  Only the first name they greet is modelled (`Format.GreetedName`, and
  `Format.FirstNameAsWritten` for the failure on a null name; see Findings).
- Format.FormatChrono: whole non-negative seconds only. Fractional and
  negative inputs are not modelled; the source prints them as given below a
  minute and floors the fields above.
- Screens.Screen.CheckAlerts: requires the screen's index to be at most the
  number of stored screens. JavaScript would leave `null` holes otherwise,
  but sequential navigation never reaches a screen before all earlier ones
  are stored.
- Screens.Screen.SegmentEnded: requires the same bound as `CheckAlerts`, for
  the same reason.
- Screens.Screen.CompletionEffect: requires that the screen's entry exists
  when the rule fires. A non-empty replayed set has already been stored
  there by `SegmentEnded`. It reads the stored screens with the corrected
  reading (`Storage.StoredScreens`), so the record "{}" reads as no screens
  where the source throws (see Findings).
- Screens.Screen.Show: requires the stored suspend data to parse to a
  record, since the source throws on a text that does not parse or on
  `null`. It uses the corrected reading: on the record "{}", stored on a
  first SCORM launch, it shows no screens where the source throws (see
  Findings).
- Screens.Screen.ContinueEffect: requires the same as `Show`, when the
  screen can be left, and uses the same corrected reading of "{}".
- Screens.Screen.CheckAlerts: also uses the corrected reading, so on "{}" it
  stores the screen's entry as the first one where the source throws (see
  Findings).
- Screens.Screen.SegmentEnded: also uses the corrected reading of "{}",
  where the source throws (see Findings).
- Screens.Screen.VideoEnded: runs `CheckAlerts`, with the same corrected
  reading.
- Course.Player.HandleNext: the SCORM status, session time and termination
  are sent in program order. In the source they are not awaited, and the
  session time waits for its asynchronous encoding, so the LMS can receive
  it after the session has ended. That ordering is not modelled.
- Screens.Screen: the course status is a constant of the screen. The player
  passes it down as a property and re-renders the screen when it changes.
- Scorm.ScormWrapper.GetElement: the five getters are one method,
  parameterised by the element.
- Scorm.ScormWrapper.SetElement: the three setters are one method,
  parameterised by the element.
- Alerts.SegmentIdentifierInjective: holds only for non-negative bounds.
  Negative numbers contain the dash that separates the two bounds.

## Findings

| source | as written | input that shows it | evidently intended | confidence | as-written member | corrected member |
|---|---|---|---|---|---|---|
| src/components/Screen.js:36-40 | A first SCORM launch stores the suspend data "{}" (src/App.js:55-56). Every screen reads it with `localSuspendData.screens[id]`, which throws on a record without a `screens` list; `Storage.StoredScreensAsWritten` models this reading | A SCORM 1.2 learner with an empty `cmi.suspend_data` opens the first screen from the welcome view | A record without a `screens` list reads as no screens, like an empty storage (`Storage.StoredScreens`, used by the screen model) | high; not executed | Session.ScormFirstLaunchUnreadable | Session.ScormDataReadable |
| src/utils/formatUtil.js:17-20 | `formatFirstName` calls `split` on the learner name. Without an initialised LMS, `getValue` returns null (src/lib/ScormWrapper.js:192-199), the shell loads that null as the name (src/App.js:47-60), and the welcome view calls `formatFirstName(null)` (src/components/Welcome.js:14; also src/components/Finish.js:10), which throws | A course launched in SCORM mode outside an LMS, or in an LMS whose API object is not found | A missing name greets the learner with the empty first name, and the view renders | high; not executed | Session.UninitializedScormGreetingThrows | Format.GreetedNameAgrees |
