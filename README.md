# QuestAutoComplete: a Dafny model of its quest runner

QuestAutoComplete is a client-mod plugin that finds the quest a user has
enrolled in and drives its progress endpoints until it completes. Most of
`index.tsx` is glue over the host application's stores, DOM and HTTP
client. This project models the four pieces of it that have logic of their
own:

- **Version comparison and the update decision** (`Versions`, `Updates`).
  `compareVersions` splits both strings on `.`, reads each part with
  `Number(part) || 0`, and compares the parts from the left, with a
  missing part counting as 0. The model proves that the comparator agrees,
  in all three outcomes, with a reference "first differing part" ordering.
  It is reflexive, antisymmetric and transitive, a trailing zero changes
  nothing, and splitting loses nothing (join after split is the identity).
  The decision in `checkForUpdates` offers an update exactly when the
  remote version is strictly newer and its text differs from the ignored
  version. `lastUpdateCheck` is written only for a completed check that
  offered nothing.
- **Quest selection and the start guard** (`Quests`, `Engine.PlanStart`,
  `Engine.QuestEngine.CheckAndStartQuest`). The selected quest is the first
  one in store order that passes all four tests: it is not the excluded
  id, is enrolled, is not completed and has not expired. Its task kind is
  the first present entry of WATCH_VIDEO, WATCH_VIDEO_ON_MOBILE,
  PLAY_ON_DESKTOP, STREAM_ON_DESKTOP, PLAY_ACTIVITY. Nothing changes when
  `isProcessing` is set, auto-start is off, the stores are missing, no
  quest qualifies, or the chosen quest is already `currentQuestId`.
  Otherwise the quest is claimed, and both flags are cleared again in four
  cases: no task config, no known task kind, videos not skipped, or a
  desktop-only task outside the desktop app.
- **The paced video loop** (`VideoProgress.RunVideoProgress`). Each
  iteration computes `maxAllowed = floor(elapsed seconds) + 10`. It reports
  `min(secondsNeeded, secondsDone + speed)` exactly when
  `maxAllowed - secondsDone >= speed`, and leaves once
  `secondsDone + speed >= secondsNeeded`. It then makes one extra report of
  exactly `secondsNeeded`, unless the last reply carried `completed_at`.
  The clock and the server are parameters, and the loop is verified for
  every clock that moves on by at least a second per iteration and for
  every sequence of replies. Termination is proved from that clock
  assumption alone.
- **Stop** (`Engine.QuestEngine.Stop`). It clears both flags, runs every
  queued cleanup once in queue order (recorded in a ghost log) and empties
  the queue.

Behaviour of the code that the model keeps as written:
- After a failed progress report in the video loop, the handler returns
  without clearing `isProcessing` or `currentQuestId`. The runner then
  stays busy until stop.
- The final forced report is outside the handler's `try`. If it fails, the
  exception reaches `checkAndStartQuest`'s `catch`, which clears both
  flags.
- When the play or activity handler fails inside its own `try` (or the
  activity handler finds no voice channel), it clears `isProcessing` only.
  `currentQuestId` keeps the quest, so later attempts skip it for as long
  as it is still the first active quest.
- A handler can also throw outside its own `try`. The stream handler has
  no `try`, and it reads `ApplicationStreamingStore` (index.tsx:712), which
  store discovery may have left undefined. The activity handler reads its
  channel stores before its `try` (index.tsx:756-757). Such an exception
  reaches `checkAndStartQuest`'s `catch`, which clears both flags, and no
  cleanup is queued.
- The forced final report of `secondsNeeded` is not paced. It can lie
  beyond the last iteration's `maxAllowed`: a 30-second target at speed 10
  leaves the loop at 20 with a ceiling of 21 and then reports 30.
- `completed` is overwritten by every reply. So the extra report depends
  on the last reply only, not on whether any reply ever said completed.
- A quest that is claimed and then let go (for example a desktop-only task
  in the browser) is claimed again on every trigger. Being first, it keeps
  later quests from being chosen.
- There is no separate cancelled state. Stop resets the flags and empties
  the queue, and a second stop runs no cleanup.

Modules: `Options` (the optional value), `Versions`, `Updates`, `Quests`,
`VideoProgress`, `Engine`.

## Model

| member | source | states |
|---|---|---|
| `Versions.Split` | index.tsx:284-285 | `split('.')` gives at least one piece, and no piece contains a dot |
| `Versions.JoinSplit` | index.tsx:284-285 | joining the pieces with `.` gives back the original string |
| `Versions.SplitCount` | index.tsx:284-285 | there is one more piece than there are dots |
| `Versions.ParsePart` | index.tsx:284-285 | a part that is not all digits (NaN after `Number`) and the empty part read as 0; with `DecimalReadsBack` and `LeadingZero` every digit string reads as its decimal value, leading zeros included |
| `Versions.ParseVersion` | index.tsx:284-285 | exactly one number per dot-separated piece (one more than the dots), the k-th being the k-th piece read by `ParsePart`; `ParseRender` shows that it inverts writing a version out |
| `Versions.LeadingZero` | index.tsx:284-285 | a leading zero does not change the value of a digit string, as `Number("01")` is 1 |
| `Versions.DecimalReadsBack` | index.tsx:284-285 | the decimal numeral of any number is non-empty, all digits, dot-free, and `Number` reads it back as that number |
| `Versions.SplitDotFree` | index.tsx:284-285 | `split('.')` of a dot-free prefix followed by x only lengthens the first piece of x's split |
| `Versions.SplitJoin` | index.tsx:284-285 | splitting undoes joining with `.` for pieces that hold no dot |
| `Versions.ParseRender` | index.tsx:284-285 | every version, written as decimal parts joined by `.`, reads back as the same list of parts |
| `Versions.CompareFrom` | index.tsx:287-295 | the comparator loop from an index on returns only -1, 0 or 1 |
| `Versions.Compare` | index.tsx:283-296 | `compareVersions` on parsed versions returns only -1, 0 or 1 |
| `Versions.CompareStrings` | index.tsx:283-296 | `compareVersions` on the strings returns only -1, 0 or 1 |
| `Versions.CompareFromSpec` | index.tsx:287-295 | from an index before which all parts agree, the loop returns 1 / -1 / 0 exactly when the first differing part is larger in a, larger in b, or no part differs |
| `Versions.CompareSpec` | index.tsx:283-296 | the comparator returns 1, -1 or 0 iff a is newer, b is newer, or the zero-padded parts are equal (both directions) |
| `Versions.CompareReflexive` | index.tsx:283-296 | a version compares equal to itself |
| `Versions.CompareAntisymmetric` | index.tsx:283-296 | `compare(a,b) == -compare(b,a)` |
| `Versions.TrailingZero` | index.tsx:287-292 | appending a 0 part never changes the comparison |
| `Versions.CompareTransitive` | index.tsx:283-296 | newer-than is transitive |
| `Versions.ParseSamples` | index.tsx:284-285 | "1.0" reads as [1, 0], and "1.0.0" (the plugin's own version, index.tsx:32) as [1, 0, 0] |
| `Versions.ShortAndLongZeroVersions` | index.tsx:283-296 | "1.0" and "1.0.0" compare equal |
| `Versions.LeadingZeroSample` | index.tsx:283-296 | "1.01" and "1.1" compare equal |
| `Updates.CheckForUpdates` | index.tsx:434-468 | disabled iff checkUpdates is off; offered (with the fetched version) iff enabled, fetched, strictly newer and not the ignored text; ignored iff newer and equal to the ignored text; up to date iff fetched and not newer |
| `Updates.OfferedOnlyWhenNewerAndNotIgnored` | index.tsx:450-455 | an offered update compares as 1 against the plugin version, differs from the ignored version, and does not record the check time |
| `Updates.CheckEffects` | index.tsx:450-461 | the update modal shows iff notifying and the fetched version is newer and not ignored; "No Updates" iff notifying and it is not newer; `lastUpdateCheck` is written iff a version was fetched and not offered |
| `Updates.SameVersionNotOffered` | index.tsx:450-460 | a remote "1.0.0" with any number of extra zero parts is reported as up to date |
| `Quests.FindActiveFrom` | index.tsx:813-818 | from an index on, the first quest passing the four filter tests, or none when no later quest passes |
| `Quests.FindActive` | index.tsx:812-818 | the selected quest passes all four tests, no earlier quest does, and none is selected iff no quest passes |
| `Quests.ConfigOf` | index.tsx:825 | `taskConfig ?? taskConfigV2`: absent iff both are absent, the first whenever it is present, the second whenever the first is absent |
| `Quests.FirstPresentFrom` | index.tsx:826-827 | the first name of the list present in the tasks, from an index on; none iff none is present |
| `Quests.ChooseTask` | index.tsx:826-827 | the chosen kind is present and every kind before it in the priority list is absent; none iff no listed kind is present |
| `Quests.UnknownTasksOnly` | index.tsx:826-833 | a configuration holding only unknown task names yields no task; a `TaskConfig` never holds an `Other` carrying one of the five listed names, since those are the known kinds |
| `Quests.ChooseVideo` | index.tsx:826-827 | WATCH_VIDEO is chosen iff present; WATCH_VIDEO_ON_MOBILE iff present without WATCH_VIDEO |
| `VideoProgress.Speed` | index.tsx:557 | the speed is the setting when non-zero and 10 otherwise, and always at least 1 |
| `VideoProgress.CeilingStep` | index.tsx:592-593 | a clock one second later raises `maxAllowed` by at least one |
| `VideoProgress.PacedLoop` | index.tsx:568-594 | the `while (true)` loop alone: the same trace; failed iff the last iteration's report threw; otherwise secondsDone is the last iteration's result, the exit test held there and `completed` is the last reply's flag |
| `VideoProgress.RunVideoProgress` | index.tsx:548-603 | the run is a trace that starts at the initial progress; each iteration reads the clock, reports exactly when paced (value clamped to the target) and carries secondsDone forward; every iteration but the last goes round again; on success the last one meets the exit test, secondsDone + speed ≥ target, the final report is Some(target) iff the last reply did not say completed; the error outcomes come exactly from a failing loop report or a failing final report; secondsDone stays ≤ target when it starts there |
| `VideoProgress.PostsWithinCeiling` | index.tsx:569-580 | every report is at most the ceiling of its iteration and at most the target |
| `VideoProgress.PostsAdvanceBySpeed` | index.tsx:571-579 | before the last iteration a report raises secondsDone by exactly the speed, and an iteration without a report leaves it unchanged |
| `VideoProgress.DoneWithinTarget` | index.tsx:579 | secondsDone never exceeds secondsNeeded when it starts at or below it |
| `VideoProgress.DoneMonotone` | index.tsx:579 | secondsDone never decreases across iterations |
| `VideoProgress.NoCompletionNoFlag` | index.tsx:595-600 | if no report was answered with completion, the flag is false, so the extra report of secondsNeeded is made |
| `VideoProgress.FlagHasWitness` | index.tsx:578 | the flag is set only if some report was answered with completion |
| `Engine.PlanStart` | index.tsx:804-869 | skip iff busy, auto-start off, stores missing, no active quest, or the active quest is current; otherwise the first active quest is claimed; it is let go for a missing config iff neither config is present and for no known task iff no listed kind is; for a chosen kind t, the video handler runs iff t is a video kind and skipVideos is on, it is let go for videos iff t is a video kind and skipVideos is off, let go as desktop-only iff t is play or stream outside the desktop app, and handed off iff t is the activity kind or play/stream in the desktop app |
| `Engine.ClaimedQuestNotRestarted` | index.tsx:820 | once a quest is current, the next attempt on the same snapshot skips even if isProcessing was cleared |
| `Engine.SameQuestSkips` | index.tsx:820 | a start attempt whose first active quest is the current one does nothing |
| `Engine.QuestEngine.constructor` | index.tsx:69-72 | both flags start cleared and the cleanup queue empty |
| `Engine.QuestEngine.RegisterCleanup` | index.tsx:682-686 | appends one cleanup to the queue and changes nothing else |
| `Engine.QuestEngine.RunCleanup` | index.tsx:922 | records one cleanup as run |
| `Engine.QuestEngine.Stop` | index.tsx:917-923 | both flags cleared, every queued cleanup run once in queue order, queue empty |
| `Engine.SecondsDoneAtStart` | index.tsx:554 | the video handler starts from the quest's recorded progress for the task, and from 0 when there is none |
| `Engine.QuestEngine.CompleteVideoQuest` | index.tsx:548-608 | `VideoRun`: the loop's trace starts from the recorded progress, aims at the task's target (index.tsx:553) and paces against the enrolment time, with the outcome following from the trace and replies as in RunVideoProgress; secondsDone stays within the target when the recorded progress starts at or below it; flags cleared iff finished, unchanged on either error |
| `Engine.QuestEngine.CheckAndStartQuest` | index.tsx:610-876 | follows PlanStart: no change on skip; flags cleared when let go; a video run is `VideoRun` of the chosen quest and task, with flags cleared when it finishes or its final report fails and held after a failed loop report; a hand-off whose handler throws outside its `try` clears both flags (index.tsx:712, 756-757, 869-873); otherwise a play hand-off keeps the quest current, keeps isProcessing and queues RestoreRunningGames iff the handler completes (index.tsx:682, 693); a stream hand-off that completes holds the quest and queues RestoreStreamMetadata (index.tsx:738); an activity hand-off clears isProcessing, and keeps currentQuestId iff its own catch or the missing voice channel ended it (index.tsx:758-763, 791-798); nothing else is queued and nothing is run |
| `Engine.StopThenStart` | index.tsx:804-923 | from a fresh runner the first attempt claims the first active quest; a second attempt skips iff the video loop report failed, or the quest is still current after a hand-off (a play handler that did not throw, a completed stream handler, an activity handler ended by its own catch), and otherwise plans the same start; after stop the same start is planned again |
| `VideoProgress.ThirtySecondDone` | index.tsx:568-594 | with target 30, speed 10 and a clock one second per iteration from enrolment, secondsDone is 0 in iteration 0, 10 in iterations 1-10 and 20 in iteration 11 |
| `VideoProgress.ThirtySecondRun` | index.tsx:568-601 | that run against a server that never completes has twelve iterations, the last without a report, leaves secondsDone at 20 and finishes with a forced report of 30, beyond the last ceiling of 21 |

## Left out

- Store discovery through the bundler's module cache: reflection over host internals.
- The settings panel, the update modal, the progress bar and its percent clamp: DOM and JSX.
- Notifications and toasts: fire-and-forget calls with no effect on the modelled state.
- The `fetch` and JSON parsing in `checkForUpdates`: network I/O. The fetched version is a parameter, and None stands for every way the fetch can fail.
- `shouldCheckForUpdates`: it reads the wall clock and a constant `UPDATE_INTERVAL` that `index.tsx` never defines. The `lastUpdateCheck` value (Date.now) is reduced to whether it is written.
- The play, stream and activity handlers' work: event subscriptions, replaced host functions, the application lookup and the 20-second heartbeat loop. How each ends (completed, caught by its own `catch`, or thrown past it) is the parameter `handler`, and the model keeps what each does to the flags and the cleanup queue. The heartbeat event that later finishes a play or stream quest and clears both flags (index.tsx:656-678, 719-735) is not modelled. What a cleanup does to the host is not modelled, only that it ran.
- `Engine.QuestEngine.CompleteVideoQuest`: takes the video kind `checkAndStartQuest` chose instead of searching again. The two searches agree, since WATCH_VIDEO comes first in both lists (`Quests.ChooseVideo`). So the handler's own early `return false` when no video kind is present (index.tsx:551) cannot happen through its only caller, and it is not modelled.
- `Versions.ParsePart`: `Number` reads a part as a double. For example, "9007199254740993" and "9007199254740992" compare equal in the source but 1 in the model. "Infinity" reads as infinity in the source and as 0 here.
- `Engine.PlanStart`: the filter calls Date.now() once per quest tested (index.tsx:817). The model uses one `now` for the whole search, so a clock moving during the search is not modelled.
- `Engine.QuestEngine.Stop`: model cleanups cannot fail. In the source a cleanup that throws aborts the `forEach` before `cleanupFunctions = []`, leaving the queue as it was (index.tsx:922-923).
- `VideoProgress.RunVideoProgress`: each report is the integer `min(secondsNeeded, secondsDone + speed)`. The source adds `Math.random()` jitter below one second before clamping, so a real report can exceed the ceiling by less than a second.
- `Versions.ParsePart`: only digit strings are read as numbers. JavaScript's `Number` also accepts surrounding blanks, signs, hex (`0x`), binary (`0b`) and octal (`0o`) prefixes and exponent forms, which this model reads as 0.
- Progress values and targets are whole seconds. The floats of the source (progress values, percentages) are not modelled.
- An enrolment date that is present but does not parse (NaN arithmetic in the loop) is not modelled. An expiry date that does not parse is, as never active.
- Asynchronous interleaving: every call runs to completion. A trigger arriving during the video handler's awaits would see `isProcessing` set and skip. More is lost for a `stop` that runs during the video loop. Stop clears both flags and empties the queue, but the loop never checks for cancellation (index.tsx:568-594). It keeps posting progress and clears the flags again when it finishes (index.tsx:605-606). A trigger in between can start a second loop on the same quest. None of this is modelled.
- Flux event triggers and the delayed start in `start`: the host calls `CheckAndStartQuest` whenever it likes.
- The button and observer teardown in `stop`: DOM only.
