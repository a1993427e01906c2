# CA exam study tracker — a verified model of its state logic

The tracker is a single React component (`src/App.jsx`). A student uses it to tick off the
chapters of the six CA Intermediate subjects, see per-subject and overall completion
percentages, keep a list of scheduled study sessions, time a session with a stopwatch, edit a
small profile and mail a progress summary. This project models the component's state and
the handlers that change it. It leaves out the markup the component renders.

Modules, one file each:

- `Catalog`: the fixed `SUBJECTS` catalogue, its six subjects and 124 chapters, with proofs
  that subject names and chapters within a subject are distinct.
- `ProgressStore`: the nested completion map. Toggling a pair creates the subject's map when
  it is missing, and a missing entry reads as "not completed".
- `Aggregation`: per-subject summaries (`prepareSubjectData`) and the overall figure
  (`calculateOverallProgress`, as an imperative loop proved against a recursive
  specification). `Math.round(100 * c / t)` becomes the exact integer
  `(200c + t) / (2t)`. A lemma shows that no catalogue total admits a tie at `.5`, so the
  integer result is exactly what the floating-point code displays.
- `Scheduler`: tasks and the new-task form, `addTask`, `removeTask`, the (date, time)
  display comparator, and an in-place insertion sort proved to order the array and permute
  it.
- `SessionTimer`: the stopwatch as a state machine (`Step`, `Replay`) and as a class with the
  component's two fields, `isRunning` and `elapsedTime`.
- `Clock`: `formatTime`, with a parser that reads the display back.
- `Strings`: decimal spelling of naturals, `padStart`, and split/join on one character.
- `Profiles`: the profile record, `updateProfile`, the avatar catalogue and `getAvatarSrc`.
- `Email`: address selection, the empty-address guard, the status messages and the
  per-subject summary text, with a parser that reads each line back.
- `App`: class `Tracker`, holding the component's non-presentation state fields. Each handler is
  specified by the pure operation above and leaves every other field unchanged.

Inputs the component takes from its environment are parameters:

- what was loaded from local storage (`Option`: `None` for a missing or unreadable entry);
- the `Date.now()` id of a new task;
- the firing of the stopwatch interval (`Tick`);
- the mail service's success or failure (`EmailAnswered`).

The model follows the code in these respects:

- the stopwatch state is just a running flag and a count, with no start tick;
- task durations are not validated;
- the percentage rounds halves up, as `Math.round` does;
- toggling a chapter that has no entry twice leaves a `false` entry behind, so every reading
  comes back but the store itself is not restored (`ProgressStore.ToggleTwice`).

## Model

| member | source | states |
|---|---|---|
| Catalog.SubjectsSizes | src/App.jsx:11-148 | the catalogue lists six subjects, in source order, with 36, 15, 28, 15, 11 and 19 chapters |
| Catalog.SubjectsWellFormed | src/App.jsx:11-148 | subject names are distinct, and so are the chapters within each subject |
| ProgressStore.Done | src/App.jsx:521 | a subject without a map, and any pair of the empty store, reads as not completed; `Toggle` flips it for one pair only, `ToggleTwice` restores it, and `CompletedCount` shows the filter's length is the number of listed chapters it holds for |
| ProgressStore.Toggle | src/App.jsx:478-484 | the pair's reading flips, with a missing entry read as false; every other pair reads as before; the subject's map gains the chapter key; other subjects' maps are untouched |
| ProgressStore.ToggleTwice | src/App.jsx:483-484 | toggling a pair twice restores every reading; the store itself comes back when the entry existed, and otherwise a `false` entry is left behind |
| Aggregation.CompletedChapters | src/App.jsx:521 | the completed chapters of a subject are exactly the listed chapters whose entry reads true, and there are no more of them than chapters |
| Aggregation.CompletedCount | src/App.jsx:521 | for distinct chapters, the filter's length is the number of chapters whose entry reads true |
| Aggregation.SubjectValuesCount | src/App.jsx:534 | for a well-formed catalogue, each record's `value` is the number of that subject's chapters marked completed |
| Aggregation.Percent | src/App.jsx:525 | the percentage never exceeds 100 |
| Aggregation.PercentIsRounded | src/App.jsx:525 | the percentage is the integer nearest to `100c/t`, halves rounded up: `t(2p-1) <= 200c < t(2p+1)` |
| Aggregation.PercentZeroIff | src/App.jsx:525 | with at most 200 chapters, 0% holds exactly when nothing is completed |
| Aggregation.PercentFullIff | src/App.jsx:525 | with fewer than 200 chapters, 100% holds exactly when everything is completed |
| Aggregation.PercentMonotone | src/App.jsx:525 | completing more chapters never lowers the percentage |
| Aggregation.CatalogHasNoRoundingTies | src/App.jsx:525 | the catalogue totals (each subject's and the overall 124) never put `100c/t` exactly at a half, so integer and floating-point rounding agree |
| Aggregation.SubjectData | src/App.jsx:532-545 | one record per catalogue subject, in catalogue order: name, total = chapter count, value = length of the completed filter (a count by `SubjectValuesCount`), value <= total, rounded percentage |
| Aggregation.OverallProgress | src/App.jsx:515-529 | completed <= total, percent <= 100, and percent is 0 when total is 0 |
| Aggregation.CalculateOverallProgress | src/App.jsx:515-529 | the accumulating loop returns what the recursive specification `OverallProgress` defines |
| Aggregation.CompletedWithinTotal | src/App.jsx:518-521 | the completed count, summed over subjects, never exceeds the chapter total |
| Aggregation.SubjectDataAddsUp | src/App.jsx:519-522 | the per-subject values add up to the overall completed count, and the per-subject totals add up to the overall total |
| Aggregation.TotalIndependentOfProgress | src/App.jsx:518-519 | the overall total is the sum of the chapter-list lengths, whatever the progress |
| Aggregation.ResetClearsProgress | src/App.jsx:335-338 | after the reset, overall completed and percent are 0, and every subject's value and percent are 0 |
| Aggregation.ToggleShiftsCount | src/App.jsx:478-484 | toggling changes a subject's completed count by one exactly when it toggles one of that subject's listed chapters; otherwise the count is unchanged |
| Aggregation.ToggleShiftsCompletedTotal | src/App.jsx:478-484 | toggling a listed pair moves the overall completed count by one, up when completing, down when unchecking; toggling an unlisted pair leaves it unchanged |
| Aggregation.TaxationScenario | src/App.jsx:532-545 | 7 of the 28 Taxation chapters completed gives the record ("Taxation", 7, 28, 25%) |
| Scheduler.AddTask | src/App.jsx:323-328 | the list grows by one exactly when title, date and time are all non-empty; then earlier tasks are unchanged, the new task is last and built from the form and the id, and the form is reset to blank with duration 60; otherwise nothing changes |
| Scheduler.RemoveTask | src/App.jsx:330-332 | removal never lengthens the list |
| Scheduler.RemoveTaskKeeps | src/App.jsx:331 | a task survives exactly when its id differs |
| Scheduler.RemoveTaskPiecewise | src/App.jsx:331 | removal works piece by piece, so survivors keep their original order |
| Scheduler.RemoveAbsentId | src/App.jsx:331 | removing an id no task has changes nothing |
| Scheduler.RemoveListedTask | src/App.jsx:331 | with unique ids, removing a listed task's id drops exactly that task |
| Scheduler.RemoveTaskIdempotent | src/App.jsx:331 | removing twice is removing once |
| Scheduler.RemoveKeepsIdsUnique | src/App.jsx:331 | removal keeps ids unique |
| Scheduler.RemoveUndoesAdd | src/App.jsx:325-331 | adding with an id no task has keeps ids unique, and removing that id gives the list back |
| Scheduler.TextLeReflexive | src/App.jsx:1099 | every string is ordered before itself |
| Scheduler.TextLeTotal | src/App.jsx:1099 | any two strings are ordered one way or the other |
| Scheduler.TextLeTransitive | src/App.jsx:1099 | string order is transitive |
| Scheduler.TextLeAntisymmetric | src/App.jsx:1099 | strings ordered both ways are equal |
| Scheduler.DueNoLater | src/App.jsx:1099 | the comparator's "not after", dates first and then times, holds between tasks due at the same date and time; `DueNoLaterTotal` and `DueNoLaterTransitive` make it a total preorder, and `SortForDisplay` orders the list by it |
| Scheduler.DueNoLaterTotal | src/App.jsx:1099 | any two tasks are comparable by (date, time) |
| Scheduler.DueNoLaterTransitive | src/App.jsx:1099 | the (date, time) order is transitive |
| Scheduler.InsertNext | src/App.jsx:1097-1099 | one insertion pass extends the ordered prefix by one, permuting the array |
| Scheduler.SortForDisplay | src/App.jsx:1097-1099 | the array ends in display order and holds the same tasks |
| SessionTimer.Step | src/App.jsx:281-308 | start sets running and stop clears it, both keeping the count; reset returns to stopped at 0; a tick adds one exactly when running and is otherwise no change |
| SessionTimer.ReplayAppend | src/App.jsx:281-308 | events replay stretch by stretch |
| SessionTimer.ResetForgetsHistory | src/App.jsx:305-308 | after a reset, the state depends only on the events that follow it |
| SessionTimer.ElapsedBoundedByTicks | src/App.jsx:283-285 | the count rises by at most one per tick, and without a reset it never falls |
| SessionTimer.ReplayTicks | src/App.jsx:282-288 | n ticks add n to a running stopwatch and leave a stopped one unchanged |
| SessionTimer.StartStopStartCounts | src/App.jsx:281-308 | start, 5 ticks, stop, 3 ticks, start, 2 ticks ends running, at 7 |
| SessionTimer.Stopwatch.constructor | src/App.jsx:212-213 | the stopwatch starts stopped at 0 |
| SessionTimer.Stopwatch.Start | src/App.jsx:297-299 | the fields take the state `Step` gives for a start |
| SessionTimer.Stopwatch.Stop | src/App.jsx:301-303 | the fields take the state `Step` gives for a stop |
| SessionTimer.Stopwatch.Reset | src/App.jsx:305-308 | the fields take the state `Step` gives for a reset |
| SessionTimer.Stopwatch.Tick | src/App.jsx:283-285 | the fields take the state `Step` gives for a tick |
| SessionTimer.StartStopStartScenario | src/App.jsx:281-308 | the same sequence on a stopwatch object ends running, at 7 |
| Clock.Components | src/App.jsx:311-313 | hours, minutes and seconds make up the input, with minutes and seconds below 60 |
| Clock.Pad2 | src/App.jsx:314 | at least two decimal digits, spelling the number; exactly two below 100; from 10 on, the unpadded decimal spelling |
| Clock.FormatTime | src/App.jsx:310-315 | at least 8 characters, with colons before the minutes and the seconds; exactly 8 below 100 hours |
| Clock.FormatTimeRoundTrip | src/App.jsx:310-315 | reading the display back gives the seconds displayed |
| Clock.FormatTimeInjective | src/App.jsx:310-315 | different times display differently |
| Strings.NatToString | src/App.jsx:314 | at least one digit, a single digit exactly below 10, no leading zero; `NatToStringRoundTrip` shows it denotes the number |
| Strings.NatToStringRoundTrip | src/App.jsx:314 | the decimal spelling reads back as the number |
| Strings.PadStart | src/App.jsx:314 | padding reaches the width, keeps the string as a suffix, and fills the front with the pad character |
| Strings.PadStartZerosValue | src/App.jsx:314 | zero-padding keeps the number a digit string denotes |
| Strings.Join | src/App.jsx:405 | the first piece is a prefix, and the result is at least its length plus one separator per further piece; `SplitJoin` and `JoinSplit` show it is inverted by `Split` on pieces free of the separator |
| Strings.SplitJoin | src/App.jsx:405 | splitting joined pieces that hold no separator gives the pieces back |
| Strings.JoinSplit | src/App.jsx:405 | joining the pieces of a split gives the string back |
| Profiles.UpdateProfile | src/App.jsx:354-359 | the field gets the new value and every other field keeps its value |
| Profiles.UpdateOverwrites | src/App.jsx:354-359 | a second update of a field overrides the first |
| Profiles.UpdateWithOwnValue | src/App.jsx:354-359 | writing a field's own value back changes nothing |
| Profiles.UpdatesCommute | src/App.jsx:354-359 | updates of different fields commute |
| Profiles.LoadProfile | src/App.jsx:187-204 | the stored profile when one was loaded, the default profile otherwise |
| Profiles.FindAvatar | src/App.jsx:366 | the index of the first entry with the id, or none exactly when no entry has it |
| Profiles.AvatarIdsDistinct | src/App.jsx:160-169 | eight avatars, `avatar1` first and `avatar8` last, no two with the same id |
| Profiles.GetAvatarSrc | src/App.jsx:365-368 | the emoji of the entry with the id, the first entry's emoji when none has it, and always one of the catalogue's emoji |
| Profiles.DefaultAvatarIsStudent | src/App.jsx:190-192 | the default profile shows the Student emoji |
| Email.ChooseAddress | src/App.jsx:444 | the form's address when one is typed, the profile's otherwise; empty exactly when both are empty |
| Email.SendProgress | src/App.jsx:371-405 | no request and the "Please provide an email address" error exactly when the address is empty; otherwise status "sending" and a request to that address with the profile name and the summary text |
| Email.Delivered | src/App.jsx:414-438 | the send is over, and the status is an error exactly when delivery failed |
| Email.SubmitGuard | src/App.jsx:442-446 | submitting sends nothing, and shows the error, exactly when neither the form nor the profile has an address; a request goes to the form's address if typed, else to the profile's |
| Email.SummaryLine | src/App.jsx:403-404 | the line starts with the subject name, ends with `)` and is at least 19 characters longer than the name; `SummaryLineRoundTrip` shows it parses back to the whole record when the name holds no colon |
| Email.SummaryText | src/App.jsx:403-405 | the text starts with the first subject's line; `SummaryTextRoundTrip` shows it splits back into one line per subject, in order, each parsing to its record |
| Email.SummaryLineRoundTrip | src/App.jsx:403-404 | a summary line reads back as its subject's name, completed count, total and percentage |
| Email.SummaryTextRoundTrip | src/App.jsx:402-405 | the summary text splits into one line per subject, in order, each reading back as its record |
| Email.CatalogSummaryRoundTrip | src/App.jsx:402-405 | for the catalogue, the mailed summary has six lines, each reading back as that subject's progress record |
| App.Tracker.constructor | src/App.jsx:172-231 | loaded state where loading succeeded, `{}`, `[]` and the default profile where it did not; no dialog, blank form, idle email status |
| App.Tracker.ToggleChapter | src/App.jsx:478-491 | the store becomes `Toggle` of the old one; `isCompleting` is true exactly when the chapter is now completed, and only then is it recorded as the last completed; nothing else changes |
| App.Tracker.ResetProgress | src/App.jsx:335-338 | progress emptied and dialog closed, nothing else changed |
| App.Tracker.ResetSchedules | src/App.jsx:340-343 | schedule emptied and dialog closed, nothing else changed |
| App.Tracker.RequestReset | src/App.jsx:345-347 | the dialog opens for that kind of reset |
| App.Tracker.CancelReset | src/App.jsx:349-351 | the dialog closes and nothing else changes |
| App.Tracker.ConfirmReset | src/App.jsx:1333-1352 | only while the dialog is open: the progress reset when it asks about progress, the schedule reset when it asks about the schedule |
| App.Tracker.AddTask | src/App.jsx:323-328 | list and form become what `Scheduler.AddTask` gives |
| App.Tracker.RemoveTask | src/App.jsx:330-332 | the list becomes what `Scheduler.RemoveTask` gives |
| App.Tracker.SortSchedule | src/App.jsx:1097-1099 | the stored list is sorted in place: display order, same tasks, nothing else changed |
| App.Tracker.UpdateProfile | src/App.jsx:354-359 | the profile becomes what `Profiles.UpdateProfile` gives |
| App.Tracker.SetBackupEmail | src/App.jsx:1238 | the form's address field takes the typed value |
| App.Tracker.SubmitEmail | src/App.jsx:442-446 | nothing while a send is in flight; otherwise the status and the request that `SendProgress` gives for the chosen address and current progress |
| App.Tracker.EmailAnswered | src/App.jsx:414-438 | the status becomes what `Delivered` gives |
| App.Tracker.SuccessMessageExpired | src/App.jsx:422-428 | the status returns to idle |
| App.SubmitWithoutAddress | src/App.jsx:372-379 | with no address anywhere, submitting sends nothing and shows the missing-address error |
| App.ConfirmedProgressReset | src/App.jsx:345-352 | requesting and confirming a progress reset empties the progress, leaves the schedule unchanged and makes the overall completed count 0 |

## Left out

- Rendering: the JSX markup, theme switch, navigation, animations, confetti, toast element and window-resize listener, and the view flags `expandedSubjects` (`toggleSubject`) and `isEditingProfile` (`toggleEditProfile`). These are presentation only.
- Local storage and JSON: loading is an `Option` parameter of the `Tracker` constructor, and saving is not modelled.
- Mail delivery: the template parameters are modelled, but not the JSON dump of the whole state in `progress_data`. The asynchronous call, its service ids and the 5-second timer are outside the model; the answer and the timeout are the methods `EmailAnswered` and `SuccessMessageExpired`.
- Export of the progress as a downloaded JSON file: browser I/O.
- Exam countdown: it depends on the wall clock and a date library.
- The interval: `setInterval`/`clearInterval` are replaced by an explicit `Tick` that counts only while running.
- In-place mutation in `ToggleChapter`: in the source, the nested subject object of the old state is mutated in place. Progress values in the model are immutable maps, so that in-place mutation is not modelled.
- Scheduler.DueNoLater: the comparator parses `date + "T" + time` into a `Date`. The model compares the `YYYY-MM-DD` and `HH:MM` texts instead, which gives the same order for well-formed inputs except for local times inside a daylight-saving gap: `new Date` reads such a time in the browser's time zone, with the offset from before the switch, so there the source's order depends on that zone, and the model does not capture it. Invalid dates, which make the comparator return `NaN`, are not modelled.
- Scheduler.SortForDisplay: stability (tasks due at the same instant keep their order) is not proved.
- App.Tracker.SortSchedule: runs `SortForDisplay`, so the same stability is not proved for the stored list.
- App.Tracker.SubmitEmail: the form's address field has `type="email"` and the form does not disable validation, so the browser refuses to submit a non-empty malformed address before `handleEmailSubmit` runs. Address syntax is not modelled; the model sends to whatever address is typed.
- Scheduler.Task: `duration` is a number. The form's change handler stores whatever text is typed, and that text is not modelled. The change handler itself (`handleTaskChange`) is not modelled.
- Profiles.UpdateProfile: `field` ranges over the four fields the form edits. An arbitrary key would add a property in the source.
- Aggregation.Percent: exact rational rounding. It equals the floating-point `Math.round` result whenever `100c/t` is not a tie; a float tie (possible for totals that are multiples of 8) could round differently. `CatalogHasNoRoundingTies` shows the catalogue never produces one.
- Subject colours in `prepareSubjectData`: presentation only.
