# SmartStudy study-session core in Dafny

SmartStudy is an Android study planner. The user keeps **subjects**, each with a name, a goal in hours and two card colours. Each subject has **tasks**, which carry a title, a due date, a priority and a completion flag. A **study session** is the time spent on one subject. A foreground service times a session with a once-a-second tick, and the session screen drives it with Start/Stop, Cancel and Finish buttons. Finishing saves the session once it reaches 36 seconds.

This project models the following parts of the app and proves their properties:

- **The timer service's state machine** (`TimerService`).
  - A pure model covers START, STOP, CANCEL and ticks. It shows the duration as zero-padded hours, minutes and seconds.
  - The `StudySessionTimerService` class keeps the same fields and updates them in place.
  - Each running repeating timer is a numbered *schedule*, and a tick says which schedule fired. START while running creates a second schedule without cancelling the first, as the app does, and the first one keeps ticking.
- **The session screen's click and enabled rules** (`SessionScreen`).
  - Each rule is a pure function.
  - Methods wire the view model to the service.
- **The Room tables** (`Dao`), held as sequences of rows with an auto-increment counter.
  - The SQL `WHERE` clauses become filters, and `SUM` becomes `Table.Sum`.
  - The repository's cascading subject delete is in `SubjectRepository`.
- **The three view models' event handling** (`SessionViewModel`, `SubjectViewModel`, `TaskViewModel`).
  - Each class has a local state record and a log of emitted snackbar events.
  - Its state as the screen sees it is a pure function of the local record and the repositories' current contents.
- **Small utilities** (`Common`, `ColorListConverter`, `AddSubjectDialog`):
  - `Priority.fromInt`;
  - `Int.pad`;
  - the comma-separated colour-list converter;
  - the add-subject dialog's validation.

Kotlin's nullable types are `Nullable.Option`, and `Int` is `KotlinStdlib.Int32`. `Float` is `KotlinStdlib.Float`, which has a NaN and two infinities, so the IEEE comparisons of the dialog keep their meaning. Inputs the code takes from outside are parameters:

- the clock reading is `now`;
- a repository call that throws is `failure` (`Some(message)`: the call throws before writing anything);
- `String.toFloatOrNull` and `Float.toString` are function-typed parameters;
- the random default card colours are a constructor argument.

There is no `TaskDao` source file. `Dao.TaskDao` gives the task table the same semantics as the subject and session tables: upsert by id, delete by id, delete by subject id, and the upcoming/completed filters. This is an assumption.

## Model

| member | source | states |
|---|---|---|
| Nullable.Option.GetOr | app/src/main/java/com/example/smartstudy/presentation/session/SessionViewModel.kt:131-132 | `x ?: d` is the value when present and `d` otherwise |
| KotlinStdlib.LongToInt | app/src/main/java/com/example/smartstudy/presentation/session/StudySessionTimerService.kt:153 | `Long.toInt()` is the identity on the Int range and keeps the value modulo 2^32 elsewhere |
| KotlinStdlib.IntToString | app/src/main/java/com/example/smartstudy/data/local/ColorListConverter.kt:12 | `Int.toString()` starts with '-' exactly for negative values and is otherwise all digits |
| KotlinStdlib.ParseInt | app/src/main/java/com/example/smartstudy/data/local/ColorListConverter.kt:17 | `String.toInt()` of an optional '+' or '-' and decimal digits within the Int range; it fails on the empty string, and `ParseIntToString` proves it reads back every rendering |
| KotlinStdlib.ParseIntToString | app/src/main/java/com/example/smartstudy/data/local/ColorListConverter.kt:11-18 | `toInt` undoes `toString` on every Int |
| KotlinStdlib.IsBlank | app/src/main/java/com/example/smartstudy/presentation/components/AddSubjectDialog.kt:52-61 | `isBlank()` is true exactly when every character is JVM whitespace, the empty string included; its consequences are in `AddSubjectDialog.SubjectNameError` |
| Common.FromInt | app/src/main/java/com/example/smartstudy/util/Commmon.kt:21 | `fromInt(v)` is the level whose value is v for v in 0..2, and MEDIUM for every other integer |
| Common.FirstWithValue | app/src/main/java/com/example/smartstudy/util/Commmon.kt:21 | `firstOrNull { it.value == v }` returns the FIRST level in the list with value v (every level before it has another value), or null when none has it |
| Common.FromIntValue | app/src/main/java/com/example/smartstudy/util/Commmon.kt:14-22 | round trip: `fromInt(p.value) == p` for every priority |
| Common.Pad | app/src/main/java/com/example/smartstudy/util/Commmon.kt:55-57 | `pad(n)` has at least two characters; it is the decimal rendering when that has two or more, and otherwise that rendering with one '0' in front |
| Common.PadStartShape | app/src/main/java/com/example/smartstudy/util/Commmon.kt:56 | the padded string ends with the original text and everything before it is the pad character |
| Common.PadParsesBack | app/src/main/java/com/example/smartstudy/util/Commmon.kt:55-57 | every Int parses back from its padded form |
| Common.PadTwoDigits | app/src/main/java/com/example/smartstudy/util/Commmon.kt:55-57 | for 0 ≤ n ≤ 99 the padded form is exactly two digits |
| Common.PadInjective | app/src/main/java/com/example/smartstudy/util/Commmon.kt:55-57 | different Ints pad to different strings |
| ColorListConverter.Split | app/src/main/java/com/example/smartstudy/data/local/ColorListConverter.kt:17 | `split(",")` yields comma count + 1 pieces, none containing a comma |
| ColorListConverter.ParseAll | app/src/main/java/com/example/smartstudy/data/local/ColorListConverter.kt:17 | `map { it.toInt() }` succeeds iff every piece parses, and then yields each piece's value in order |
| ColorListConverter.FromColorList | app/src/main/java/com/example/smartstudy/data/local/ColorListConverter.kt:11-13 | `joinToString(",")` of the renderings; its meaning is given by `FromColorListCommas` and `RoundTrip` |
| ColorListConverter.ToColorList | app/src/main/java/com/example/smartstudy/data/local/ColorListConverter.kt:16-18 | a parsed list has comma count + 1 colours |
| ColorListConverter.FromColorListCommas | app/src/main/java/com/example/smartstudy/data/local/ColorListConverter.kt:11-13 | a non-empty list serialises with exactly one comma fewer than it has colours |
| ColorListConverter.SplitJoin | app/src/main/java/com/example/smartstudy/data/local/ColorListConverter.kt:11-18 | splitting the comma join of comma-free pieces gives the pieces back |
| ColorListConverter.RoundTrip | app/src/main/java/com/example/smartstudy/data/local/ColorListConverter.kt:11-18 | `toColorList(fromColorList(l)) == l` for every non-empty list of Ints, negative ARGB values included |
| ColorListConverter.EmptyListDoesNotRoundTrip | app/src/main/java/com/example/smartstudy/data/local/ColorListConverter.kt:12-17 | the empty list serialises to "" and "" does not parse back |
| Table.Find | app/src/main/java/com/example/smartstudy/data/local/SubjectDao.kt:22-23 | a lookup by primary key returns a stored row with that id, or nothing when no row has it |
| Table.Where | app/src/main/java/com/example/smartstudy/data/local/SessionDao.kt:23-24 | a `WHERE` filter keeps exactly the rows that satisfy it, all of them when all do |
| Table.Upsert | app/src/main/java/com/example/smartstudy/data/local/SubjectDao.kt:13-14 | an upsert stores the row, keeps every row with another id, keeps the length on an update and appends on an insert |
| Table.WhereIdempotent | app/src/main/java/com/example/smartstudy/data/local/SessionDao.kt:32-33 | a second delete with the same `WHERE` clause changes nothing |
| Table.WhereFind | app/src/main/java/com/example/smartstudy/data/local/SubjectDao.kt:25-26 | a filter that keeps a key's row keeps the lookup of that key unchanged |
| Table.UpsertFindOther | app/src/main/java/com/example/smartstudy/data/local/SubjectDao.kt:13-14 | an upsert leaves the lookup of every other id unchanged |
| Table.SumWhereSplit | app/src/main/java/com/example/smartstudy/data/local/SessionDao.kt:26-30 | a SUM over a table is the SUM over rows matching a clause plus the SUM over the others |
| Dao.SubjectDao.GetSubjectById | app/src/main/java/com/example/smartstudy/data/local/SubjectDao.kt:22-23 | the stored subject with that id, or null when there is none |
| Dao.SubjectDao.GetTotalSubjectCount | app/src/main/java/com/example/smartstudy/data/local/SubjectDao.kt:16-29 | `COUNT(*)` is the length of `getAllSubjects` |
| Dao.SubjectDao.UpsertSubject | app/src/main/java/com/example/smartstudy/data/local/SubjectDao.kt:13-14 | without an id the subject is appended under a fresh id; with one it is the row under that id afterwards, other ids look up as before, and updating an existing id keeps the count |
| Dao.SubjectDao.DeleteSubject | app/src/main/java/com/example/smartstudy/data/local/SubjectDao.kt:25-26 | removes exactly the row with that id; every other id looks up as before |
| Dao.SessionDao.GetRecentSessionsForSubject | app/src/main/java/com/example/smartstudy/data/local/SessionDao.kt:23-24 | exactly the stored sessions of that subject, with no limit |
| Dao.SessionDao.GetTotalSessionsDuration | app/src/main/java/com/example/smartstudy/data/local/SessionDao.kt:26-27 | `SUM(duration)` over the table; `InsertSession` proves it grows by each saved duration and `GetTotalSessionsDurationBySubject` splits it by subject |
| Dao.SessionDao.GetTotalSessionsDurationBySubject | app/src/main/java/com/example/smartstudy/data/local/SessionDao.kt:26-30 | the subject's total plus the other sessions' total is the total over all sessions |
| Dao.SessionDao.InsertSession | app/src/main/java/com/example/smartstudy/data/local/SessionDao.kt:14-15 | adds exactly one row under a fresh id (or under its own id when that is free; a clash aborts and changes nothing), and the total duration grows by the session's duration |
| Dao.SessionDao.DeleteSession | app/src/main/java/com/example/smartstudy/data/local/SessionDao.kt:17-18 | removes the row whose primary key is the session's id, and nothing when the id is null |
| Dao.SessionDao.DeleteSessionsBySubjectId | app/src/main/java/com/example/smartstudy/data/local/SessionDao.kt:32-33 | afterwards no session has that subject id, and every session of another subject is still there |
| Dao.SumSplitBySubject | app/src/main/java/com/example/smartstudy/data/local/SessionDao.kt:26-30 | the total is one subject's total plus the rest |
| Dao.TaskDao.GetTaskById | app/src/main/java/com/example/smartstudy/domain/repository/TaskRepository.kt:13 | (assumed) the stored task with that id, or null |
| Dao.TaskDao.GetUpcomingTasksForSubject | app/src/main/java/com/example/smartstudy/domain/repository/TaskRepository.kt:15 | (assumed) exactly the stored, unfinished tasks of the subject: every row returned is one, and every one is returned |
| Dao.TaskDao.GetCompletedTasksForSubject | app/src/main/java/com/example/smartstudy/domain/repository/TaskRepository.kt:17 | (assumed) exactly the stored, completed tasks of the subject: every row returned is one, and every one is returned |
| Dao.TaskDao.UpsertTask | app/src/main/java/com/example/smartstudy/domain/repository/TaskRepository.kt:9 | (assumed) upsert by task id, as for subjects |
| Dao.TaskDao.DeleteTask | app/src/main/java/com/example/smartstudy/domain/repository/TaskRepository.kt:11 | (assumed) removes exactly the task with that id |
| Dao.TaskDao.DeleteTasksBySubjectId | app/src/main/java/com/example/smartstudy/data/repository/SubjectRepositoryImpl.kt:31 | (assumed) removes exactly the subject's tasks and keeps all others |
| SubjectRepository.CascadeDelete | app/src/main/java/com/example/smartstudy/data/repository/SubjectRepositoryImpl.kt:30-34 | after the three deletes no task, session or subject refers to the id; every row of another subject is kept |
| SubjectRepository.CascadeIdempotent | app/src/main/java/com/example/smartstudy/data/repository/SubjectRepositoryImpl.kt:30-34 | deleting a subject twice leaves the store as deleting it once |
| SubjectRepository.RetryAfterInterruptedDelete | app/src/main/java/com/example/smartstudy/data/repository/SubjectRepositoryImpl.kt:30-34 | a delete interrupted after any number of the three steps, then run again, ends as a full delete |
| SubjectRepository.CascadeKeepsIntegrity | app/src/main/java/com/example/smartstudy/data/repository/SubjectRepositoryImpl.kt:31-33 | if every task and session refers to a stored subject before the delete, that still holds afterwards |
| SubjectRepository.SubjectRowAloneLeavesOrphans | app/src/main/java/com/example/smartstudy/data/repository/SubjectRepositoryImpl.kt:31-33 | deleting only the subject row would leave a session whose subject is gone, which is why sessions are deleted first |
| SubjectRepository.SubjectRepositoryImpl.UpsertSubject | app/src/main/java/com/example/smartstudy/data/repository/SubjectRepositoryImpl.kt:18-20 | delegates to the DAO's upsert: without an id the subject is appended under a fresh id; with one the table is `Table.Upsert` of the old one, the id looks up the subject and every other id looks up as before |
| SubjectRepository.SubjectRepositoryImpl.GetTotalSubjectCount | app/src/main/java/com/example/smartstudy/data/repository/SubjectRepositoryImpl.kt:22-24 | delegates: the count is the length of the subject list |
| SubjectRepository.SubjectRepositoryImpl.GetSubjectById | app/src/main/java/com/example/smartstudy/data/repository/SubjectRepositoryImpl.kt:36-38 | delegates: the stored subject with that id or nothing |
| SubjectRepository.SubjectRepositoryImpl.DeleteSubject | app/src/main/java/com/example/smartstudy/data/repository/SubjectRepositoryImpl.kt:30-34 | deletes tasks, then sessions, then the subject; the three tables end as `CascadeDelete` of the old ones, and the id no longer looks up |
| TimerService.ComponentsRecombine | app/src/main/java/com/example/smartstudy/presentation/session/StudySessionTimerService.kt:152 | `toComponents` gives minutes and seconds below 60, and hours·3600 + minutes·60 + seconds is the duration |
| TimerService.Components | app/src/main/java/com/example/smartstudy/presentation/session/StudySessionTimerService.kt:152 | `toComponents`: whole hours, minutes within the hour, seconds within the minute; `ComponentsRecombine` states the recombination |
| TimerService.HoursText | app/src/main/java/com/example/smartstudy/presentation/session/StudySessionTimerService.kt:153 | `hours.toInt().pad()`; `DisplayRecombines` states what it shows |
| TimerService.MinutesText | app/src/main/java/com/example/smartstudy/presentation/session/StudySessionTimerService.kt:154 | `minutes.pad()`; `DisplayRecombines` states what it shows |
| TimerService.SecondsText | app/src/main/java/com/example/smartstudy/presentation/session/StudySessionTimerService.kt:155 | `seconds.pad()`; `SecondsZeroIffWholeMinute` and `DisplayRecombines` state what it shows |
| TimerService.WithTimeUnits | app/src/main/java/com/example/smartstudy/presentation/session/StudySessionTimerService.kt:151-157 | `updateTimeUnits` sets the three strings from the duration and nothing else; it makes `ShowsDuration` hold |
| TimerService.Started | app/src/main/java/com/example/smartstudy/presentation/session/StudySessionTimerService.kt:124-133 | `startTimer`; `StartKeepsValid`, `StartResumes` and `DoubleStartLeavesOrphan` state its effect |
| TimerService.Stopped | app/src/main/java/com/example/smartstudy/presentation/session/StudySessionTimerService.kt:136-141 | `stopTimer`; `StopFromAnyState` states its effect |
| TimerService.Cancelled | app/src/main/java/com/example/smartstudy/presentation/session/StudySessionTimerService.kt:144-148 | `cancelTimer`; `CancelKeepsValid` and `CancelResets` state its effect |
| TimerService.Dispatch | app/src/main/java/com/example/smartstudy/presentation/session/StudySessionTimerService.kt:62-87 | `onStartCommand`'s `when` on the action; `OtherActionsIgnored` covers the null and unknown actions |
| TimerService.Ticked | app/src/main/java/com/example/smartstudy/presentation/session/StudySessionTimerService.kt:128-131 | one run of a schedule's task; `TickAddsOneSecond` and `TicksKeepState` state its effect |
| TimerService.Step | app/src/main/java/com/example/smartstudy/presentation/session/StudySessionTimerService.kt:62-131 | one intent or one tick; `StepKeepsValid` and `StepKeepsSingleSchedule` state what it keeps |
| TimerService.Run | app/src/main/java/com/example/smartstudy/presentation/session/StudySessionTimerService.kt:62-157 | the service after a sequence of inputs; `RunKeepsValid` and `DurationNeverDecreases` state what every run keeps |
| TimerService.InitialValid | app/src/main/java/com/example/smartstudy/presentation/session/StudySessionTimerService.kt:41-53 | the fresh service (IDLE, zero, "00" strings, no timer) satisfies the invariant and has one schedule at most |
| TimerService.StepKeepsValid | app/src/main/java/com/example/smartstudy/presentation/session/StudySessionTimerService.kt:62-157 | every command and tick keeps the strings showing the duration and the schedule bookkeeping consistent |
| TimerService.RunKeepsValid | app/src/main/java/com/example/smartstudy/presentation/session/StudySessionTimerService.kt:62-157 | the invariant holds after any sequence of commands and ticks |
| TimerService.StartResumes | app/src/main/java/com/example/smartstudy/presentation/session/StudySessionTimerService.kt:124-133 | START sets STARTED, keeps the duration (so START after STOP resumes) and starts a new live schedule |
| TimerService.TickAddsOneSecond | app/src/main/java/com/example/smartstudy/presentation/session/StudySessionTimerService.kt:128-131 | a tick of a live schedule adds exactly one second and recomputes the strings from the new duration; a cancelled schedule's tick does nothing |
| TimerService.StopFromAnyState | app/src/main/java/com/example/smartstudy/presentation/session/StudySessionTimerService.kt:136-141 | STOP always gives STOPPED, even from IDLE, keeps the duration and cancels only the last created timer, if any |
| TimerService.CancelResets | app/src/main/java/com/example/smartstudy/presentation/session/StudySessionTimerService.kt:79-83 | CANCEL ends IDLE with zero duration and "00" in all three strings |
| TimerService.OtherActionsIgnored | app/src/main/java/com/example/smartstudy/presentation/session/StudySessionTimerService.kt:63-85 | a null or unknown action changes nothing |
| TimerService.DurationNeverDecreases | app/src/main/java/com/example/smartstudy/presentation/session/StudySessionTimerService.kt:129-145 | without CANCEL the duration never goes down |
| TimerService.TicksKeepState | app/src/main/java/com/example/smartstudy/presentation/session/StudySessionTimerService.kt:128-131 | ticks never change the timer state |
| TimerService.DisplayRecombines | app/src/main/java/com/example/smartstudy/presentation/session/StudySessionTimerService.kt:151-157 | the three strings parse to values that recombine to the duration; minutes and seconds are two characters |
| TimerService.SecondsZeroIffWholeMinute | app/src/main/java/com/example/smartstudy/presentation/session/StudySessionTimerService.kt:155 | the seconds string is "00" exactly on whole minutes |
| TimerService.StepKeepsSingleSchedule | app/src/main/java/com/example/smartstudy/presentation/session/StudySessionTimerService.kt:124-148 | apart from START while STARTED, each step keeps one live schedule while STARTED and none otherwise |
| TimerService.FrozenUnlessStarted | app/src/main/java/com/example/smartstudy/presentation/session/StudySessionTimerService.kt:128-141 | with a single schedule, ticks change nothing unless the state is STARTED |
| TimerService.DoubleStartLeavesOrphan | app/src/main/java/com/example/smartstudy/presentation/session/StudySessionTimerService.kt:128 | START, START leaves two live schedules; after CANCEL the first still ticks, so an IDLE service counts to one second |
| TimerService.StudySessionTimerService.constructor | app/src/main/java/com/example/smartstudy/presentation/session/StudySessionTimerService.kt:41-56 | the fields start as the initial model, with a null subject id |
| TimerService.StudySessionTimerService.OnStartCommand | app/src/main/java/com/example/smartstudy/presentation/session/StudySessionTimerService.kt:62-87 | the fields end as one step of the model for the intent's action |
| TimerService.StudySessionTimerService.StartTimer | app/src/main/java/com/example/smartstudy/presentation/session/StudySessionTimerService.kt:124-133 | state STARTED and a new schedule; the old one is not cancelled |
| TimerService.StudySessionTimerService.Tick | app/src/main/java/com/example/smartstudy/presentation/session/StudySessionTimerService.kt:114-131 | one tick of the model; a live schedule also yields the notification text `hours:minutes:seconds` |
| TimerService.StudySessionTimerService.StopTimer | app/src/main/java/com/example/smartstudy/presentation/session/StudySessionTimerService.kt:136-141 | cancels the last timer if there is one and sets STOPPED |
| TimerService.StudySessionTimerService.CancelTimer | app/src/main/java/com/example/smartstudy/presentation/session/StudySessionTimerService.kt:144-148 | zero duration, refreshed strings, IDLE |
| TimerService.StudySessionTimerService.UpdateTimeUnits | app/src/main/java/com/example/smartstudy/presentation/session/StudySessionTimerService.kt:151-157 | the strings become the padded components of the duration |
| SessionScreen.StartButtonLabelInjective | app/src/main/java/com/example/smartstudy/presentation/session/SessionScreen.kt:405-409 | the three states have three different labels ("停止", "继续", "开始") |
| SessionScreen.StartButtonLabel | app/src/main/java/com/example/smartstudy/presentation/session/SessionScreen.kt:405-409 | the label for each state; `StartButtonLabelInjective` and `StartLabelMatchesAction` state its meaning |
| SessionScreen.EndButtonsEnabled | app/src/main/java/com/example/smartstudy/presentation/session/SessionScreen.kt:386-414 | the shared `enabled` rule of Cancel and Finish; `ButtonRulesOnDuration` states it in terms of the duration |
| SessionScreen.SubjectPickerEnabled | app/src/main/java/com/example/smartstudy/presentation/session/SessionScreen.kt:360-362 | the picker's `enabled` rule; `ButtonRulesOnDuration` states it in terms of the duration |
| SessionScreen.StartButtonClick | app/src/main/java/com/example/smartstudy/presentation/session/SessionScreen.kt:220-230 | the Start click's effects; `StartButtonRule` states them |
| SessionScreen.CancelButtonClick | app/src/main/java/com/example/smartstudy/presentation/session/SessionScreen.kt:232-237 | the Cancel click's effects; `CancelButtonRule` states them |
| SessionScreen.FinishButtonClick | app/src/main/java/com/example/smartstudy/presentation/session/SessionScreen.kt:238-247 | the Finish click's effects; `FinishButtonRule` and `FinishResetsTimer` state them |
| SessionScreen.ButtonRulesOnDuration | app/src/main/java/com/example/smartstudy/presentation/session/SessionScreen.kt:362-414 | Cancel and Finish are enabled iff the duration is not a whole minute and the timer is not STARTED; the subject picker iff it is a whole minute |
| SessionScreen.SentActions | app/src/main/java/com/example/smartstudy/presentation/session/SessionScreen.kt:219-247 | exactly the service actions among the effects: each action returned is sent by some effect, each sent action is returned, none are returned iff no effect sends one, and never more actions than effects |
| SessionScreen.SentActionsAppend | app/src/main/java/com/example/smartstudy/presentation/session/SessionScreen.kt:219-247 | the actions of two effect lists one after the other are those of the first followed by those of the second |
| SessionScreen.StartButtonRule | app/src/main/java/com/example/smartstudy/presentation/session/SessionScreen.kt:220-230 | with a subject chosen, Start sends STOP when STARTED and START otherwise, then copies the subject id to the service; without one it sends nothing and raises `NotifyToUpdateSubject` |
| SessionScreen.StartLabelMatchesAction | app/src/main/java/com/example/smartstudy/presentation/session/SessionScreen.kt:405-409 | the button reads "停止" exactly when pressing it sends STOP |
| SessionScreen.CancelButtonRule | app/src/main/java/com/example/smartstudy/presentation/session/SessionScreen.kt:232-237 | Cancel always sends CANCEL |
| SessionScreen.FinishButtonRule | app/src/main/java/com/example/smartstudy/presentation/session/SessionScreen.kt:238-247 | Finish sends CANCEL iff the duration is at least 36 s, and always raises `SaveSession(duration)` last |
| SessionScreen.FinishResetsTimer | app/src/main/java/com/example/smartstudy/presentation/session/SessionScreen.kt:238-247 | at 36 s or more the service ends IDLE at zero; below that it is untouched |
| SessionScreen.ClicksKeepSingleSchedule | app/src/main/java/com/example/smartstudy/presentation/session/SessionScreen.kt:219-247 | the buttons never send START while STARTED, so they keep the single-schedule property |
| SessionScreen.FirstNameWithId | app/src/main/java/com/example/smartstudy/presentation/session/SessionScreen.kt:148 | `find { it.subjectId == id }?.name` is the name of the first subject with that id, or null if none has it |
| SessionScreen.SubjectSyncRule | app/src/main/java/com/example/smartstudy/presentation/session/SessionScreen.kt:143-151 | after the sync the view model's subject id is the timer's, with a name iff a listed subject has that id |
| SessionScreen.SubjectSync | app/src/main/java/com/example/smartstudy/presentation/session/SessionScreen.kt:143-151 | the sync effect's event; `SubjectSyncRule` states its outcome |
| SessionScreen.StartButtonClicked | app/src/main/java/com/example/smartstudy/presentation/session/SessionScreen.kt:219-231 | applies the Start effects to the service and the view model |
| SessionScreen.CancelButtonClicked | app/src/main/java/com/example/smartstudy/presentation/session/SessionScreen.kt:232-237 | applies CANCEL to the service |
| SessionScreen.FinishButtonClicked | app/src/main/java/com/example/smartstudy/presentation/session/SessionScreen.kt:238-247 | resets the service when at least 36 s, then saves the whole-second duration read before the reset |
| SessionScreen.SubjectsChanged | app/src/main/java/com/example/smartstudy/presentation/session/SessionScreen.kt:143-151 | raises the sync event for the current subject list and the timer's subject id |
| SessionViewModel.CombinedIgnoresLocalLists | app/src/main/java/com/example/smartstudy/presentation/session/SessionViewModel.kt:31-39 | the combined state depends on the local state only through its own three fields |
| SessionViewModel.CombinedLatestWins | app/src/main/java/com/example/smartstudy/presentation/session/SessionViewModel.kt:31-39 | the combined state's subject and session lists are the latest repository lists |
| SessionViewModel.Combined | app/src/main/java/com/example/smartstudy/presentation/session/SessionViewModel.kt:31-39 | `combine`'s copy; `CombinedIgnoresLocalLists` and `CombinedLatestWins` state its meaning |
| SessionViewModel.Reduce | app/src/main/java/com/example/smartstudy/presentation/session/SessionViewModel.kt:51-81 | the `_state.update` branches; `ReduceChangesOnlyItsFields` states them |
| SessionViewModel.ReduceChangesOnlyItsFields | app/src/main/java/com/example/smartstudy/presentation/session/SessionViewModel.kt:55-77 | the subject events set exactly `subjectId` and `relatedToSubject`; the delete click sets only `session`; save, delete and notify change no field |
| SessionViewModel.NewSession | app/src/main/java/com/example/smartstudy/presentation/session/SessionViewModel.kt:128-136 | the saved row carries `subjectId ?: -1`, `relatedToSubject ?: ""`, the clock reading, the duration and no id |
| SessionViewModel.SessionViewModel.OnEvent | app/src/main/java/com/example/smartstudy/presentation/session/SessionViewModel.kt:51-81 | field events only update the local state; the notify, delete and save events have their outcomes below |
| SessionViewModel.SessionViewModel.NotifyToUpdateSubjectAction | app/src/main/java/com/example/smartstudy/presentation/session/SessionViewModel.kt:84-94 | emits "请选择要学习的科目。" iff the subject id or name is null |
| SessionViewModel.SessionViewModel.DeleteSessionAction | app/src/main/java/com/example/smartstudy/presentation/session/SessionViewModel.kt:97-115 | no stored session: nothing happens; otherwise that session's row is removed with a success notice, or on failure nothing is removed and a long failure notice is emitted |
| SessionViewModel.SessionViewModel.InsertSession | app/src/main/java/com/example/smartstudy/presentation/session/SessionViewModel.kt:118-149 | below 36 s: the "不能少于36秒" notice and no insert; otherwise one new row and a success notice, or on failure only a long failure notice; the total duration grows by exactly the saved duration |
| SubjectViewModel.CombinedKeepsEdits | app/src/main/java/com/example/smartstudy/presentation/subject/SubjectViewModel.kt:44-62 | the combined state keeps the edited fields and takes the task lists, the recent sessions and the studied hours from the repositories |
| SubjectViewModel.Combined | app/src/main/java/com/example/smartstudy/presentation/subject/SubjectViewModel.kt:44-62 | `combine`'s copy; `CombinedKeepsEdits` states its meaning |
| SubjectViewModel.Reduce | app/src/main/java/com/example/smartstudy/presentation/subject/SubjectViewModel.kt:76-98 | the field-event branches; `ReduceChangesOneField` states them |
| SubjectViewModel.WithFetched | app/src/main/java/com/example/smartstudy/presentation/subject/SubjectViewModel.kt:147-161 | `fetchSubject`'s update; `FetchKeepsOtherFields` and `FetchThenUpdateWritesSameRow` state its meaning |
| SubjectViewModel.Toggled | app/src/main/java/com/example/smartstudy/presentation/subject/SubjectViewModel.kt:196-198 | the toggled copy of a task; `ToggleFlipsOnlyCompletion` states its meaning |
| SubjectViewModel.ReduceChangesOneField | app/src/main/java/com/example/smartstudy/presentation/subject/SubjectViewModel.kt:76-98 | the colour, name, goal and delete-click events each set their one field and change nothing else |
| SubjectViewModel.SubjectFromState | app/src/main/java/com/example/smartstudy/presentation/subject/SubjectViewModel.kt:124-131 | the saved subject has the state's id, name and colours, and the parsed goal or else 1 |
| SubjectViewModel.FetchThenUpdateWritesSameRow | app/src/main/java/com/example/smartstudy/presentation/subject/SubjectViewModel.kt:124-160 | saving right after fetching writes back the fetched row, given that the goal's text parses back to the goal |
| SubjectViewModel.FetchKeepsOtherFields | app/src/main/java/com/example/smartstudy/presentation/subject/SubjectViewModel.kt:147-160 | fetching sets the name, colours and id from the stored subject and keeps every other field |
| SubjectViewModel.ToggleFlipsOnlyCompletion | app/src/main/java/com/example/smartstudy/presentation/subject/SubjectViewModel.kt:196-198 | the toggled task differs from the task only in `isComplete`, and toggling twice restores it |
| SubjectViewModel.ToggleMessage | app/src/main/java/com/example/smartstudy/presentation/subject/SubjectViewModel.kt:199-207 | the notice is "任务未完成。" iff the task was complete, and "任务已完成。" iff it was not |
| SubjectViewModel.SubjectViewModel.constructor | app/src/main/java/com/example/smartstudy/presentation/subject/SubjectViewModel.kt:44-71 | starts from the defaults and fetches the navigated subject |
| SubjectViewModel.SubjectViewModel.FetchSubject | app/src/main/java/com/example/smartstudy/presentation/subject/SubjectViewModel.kt:147-161 | copies name, goal text, colours and id when the subject exists; otherwise the state is unchanged |
| SubjectViewModel.SubjectViewModel.OnEvent | app/src/main/java/com/example/smartstudy/presentation/subject/SubjectViewModel.kt:74-118 | the field events change only the local state and write nothing; update, delete, toggle and delete-session each end in their action's outcome predicate (`UpdateSubjectOutcome`, `DeleteSubjectOutcome`, `UpdateTaskOutcome`, `DeleteSessionOutcome`) and leave the tables they do not write unchanged |
| SubjectViewModel.SubjectViewModel.UpdateSubjectAction | app/src/main/java/com/example/smartstudy/presentation/subject/SubjectViewModel.kt:121-144 | the subject table becomes the old one with the subject built from the state appended under a fresh id (no id) or upserted by its id (`Table.Upsert`), then "科目更新成功。"; on failure the table is unchanged and a long failure notice is emitted |
| SubjectViewModel.SubjectViewModel.DeleteSubjectAction | app/src/main/java/com/example/smartstudy/presentation/subject/SubjectViewModel.kt:164-190 | no current id: "没有科目可删除。" and no write; otherwise the cascade delete, then a success notice and `NavigateUp`; on failure no write and a long failure notice |
| SubjectViewModel.SubjectViewModel.UpdateTask | app/src/main/java/com/example/smartstudy/presentation/subject/SubjectViewModel.kt:193-217 | the task table becomes the old one with the toggled task appended under a fresh id (no id) or upserted by its id (`Table.Upsert`), then the status notice; on failure the table is unchanged and a long failure notice is emitted |
| SubjectViewModel.SubjectViewModel.DeleteSessionAction | app/src/main/java/com/example/smartstudy/presentation/subject/SubjectViewModel.kt:220-238 | acts only when a session is stored in the state: removes its row with a notice, or emits a failure notice |
| TaskViewModel.ReduceChangesOnlyItsFields | app/src/main/java/com/example/smartstudy/presentation/task/TaskViewModel.kt:65-110 | title, description, date and priority each change only their field; the completion switch flips and two flips restore; subject selection sets exactly the name and id |
| TaskViewModel.Reduce | app/src/main/java/com/example/smartstudy/presentation/task/TaskViewModel.kt:65-110 | the field-event branches; `ReduceChangesOnlyItsFields` states them |
| TaskViewModel.WithTask | app/src/main/java/com/example/smartstudy/presentation/task/TaskViewModel.kt:182-201 | `fetchTask`'s update; `SaveThenFetch`, `FetchThenSave` and `FetchNormalisesPriority` state its meaning |
| TaskViewModel.WithSubject | app/src/main/java/com/example/smartstudy/presentation/task/TaskViewModel.kt:204-217 | `fetchSubject`'s update of the subject id and name |
| TaskViewModel.TaskFromState | app/src/main/java/com/example/smartstudy/presentation/task/TaskViewModel.kt:154-165 | the saved task has the state's fields, `priority.value`, `dueDate ?: now` and `currentTaskId` as its id |
| TaskViewModel.SaveThenFetch | app/src/main/java/com/example/smartstudy/presentation/task/TaskViewModel.kt:154-197 | reopening a saved task restores every edited field (priority included), with the due date filled in |
| TaskViewModel.FetchThenSave | app/src/main/java/com/example/smartstudy/presentation/task/TaskViewModel.kt:154-197 | saving a task right after opening it writes the same row back when its priority is 0, 1 or 2 |
| TaskViewModel.FetchNormalisesPriority | app/src/main/java/com/example/smartstudy/presentation/task/TaskViewModel.kt:193 | a stored priority outside 0..2 is saved back as MEDIUM |
| TaskViewModel.TaskViewModel.constructor | app/src/main/java/com/example/smartstudy/presentation/task/TaskViewModel.kt:42-62 | starts from the defaults, fetches the navigated task, then the navigated subject |
| TaskViewModel.TaskViewModel.FetchTask | app/src/main/java/com/example/smartstudy/presentation/task/TaskViewModel.kt:182-201 | copies every editable field of the stored task into the state, or leaves the state when there is none |
| TaskViewModel.TaskViewModel.FetchSubject | app/src/main/java/com/example/smartstudy/presentation/task/TaskViewModel.kt:204-217 | sets the related subject's id and name when it exists |
| TaskViewModel.TaskViewModel.OnEvent | app/src/main/java/com/example/smartstudy/presentation/task/TaskViewModel.kt:65-110 | the field events change only the local state and write nothing; save and delete end in `SaveTaskOutcome` and `DeleteTaskOutcome` |
| TaskViewModel.TaskViewModel.SaveTaskAction | app/src/main/java/com/example/smartstudy/presentation/task/TaskViewModel.kt:142-179 | without a subject: "请选择相关的科目。" and no write; otherwise the task table becomes the old one with the task appended under a fresh id (no id) or upserted by its id (`Table.Upsert`), then a success notice and `NavigateUp`; on failure no write and a long failure notice |
| TaskViewModel.TaskViewModel.DeleteTaskAction | app/src/main/java/com/example/smartstudy/presentation/task/TaskViewModel.kt:113-139 | without a task id: "没有任务可删除。" and no write; otherwise the task is removed, then a success notice and `NavigateUp`; on failure no write and a long failure notice |
| AddSubjectDialog.SubjectNameError | app/src/main/java/com/example/smartstudy/presentation/components/AddSubjectDialog.kt:52-57 | each message exactly in its case (blank, then under 2, then over 20); no error iff not blank and 2 ≤ length ≤ 20 |
| AddSubjectDialog.GoalHoursErrorAsWritten | app/src/main/java/com/example/smartstudy/presentation/components/AddSubjectDialog.kt:59-65 | no error iff the goal is not blank and parses either to NaN or to a finite value in 1..1000 |
| AddSubjectDialog.NaNGoalAcceptedAsWritten | app/src/main/java/com/example/smartstudy/presentation/components/AddSubjectDialog.kt:59-65 | the goal text "NaN" raises no error |
| AddSubjectDialog.GoalHoursError | app/src/main/java/com/example/smartstudy/presentation/components/AddSubjectDialog.kt:59-65 | blank, then unparsable or NaN, then the two bounds; no error iff the goal parses to a finite g with 1 ≤ g ≤ 1000 |
| AddSubjectDialog.GoalHoursErrorDiffersOnlyOnNaN | app/src/main/java/com/example/smartstudy/presentation/components/AddSubjectDialog.kt:59-65 | the corrected and as-written checks disagree exactly on non-blank text that parses to NaN |
| AddSubjectDialog.ErrorShownRules | app/src/main/java/com/example/smartstudy/presentation/components/AddSubjectDialog.kt:103-113 | a blank field is never red; a non-blank name is red iff its length is outside 2..20 |
| AddSubjectDialog.IsErrorShown | app/src/main/java/com/example/smartstudy/presentation/components/AddSubjectDialog.kt:103-113 | the `isError` rule of both fields; `ErrorShownRules` states it |
| AddSubjectDialog.SaveEnabled | app/src/main/java/com/example/smartstudy/presentation/components/AddSubjectDialog.kt:128 | the save button's `enabled` rule, with the corrected goal check; `SavedSubjectIsValid` states what it guarantees |
| AddSubjectDialog.SavedSubjectIsValid | app/src/main/java/com/example/smartstudy/presentation/components/AddSubjectDialog.kt:128 | when save is enabled, the subject passed to `upsertSubject` has a valid name and a finite goal in 1..1000 |
| AddSubjectDialog.NaNGoalSavedAsWritten | app/src/main/java/com/example/smartstudy/presentation/components/AddSubjectDialog.kt:59-128 | as written, "NaN" passes the goal check and the subject passed to `upsertSubject` has a NaN goal |

## Findings

| source | as written | input that shows it | evidently intended | confidence | as-written member | corrected member |
|---|---|---|---|---|---|---|
| app/src/main/java/com/example/smartstudy/presentation/components/AddSubjectDialog.kt:59-65 | the goal passes when it is neither `< 1f` nor `> 1000f`, and both comparisons are false for NaN | the goal text "NaN", which `toFloatOrNull` reads as NaN | only a finite goal between 1 and 1000 hours is accepted | not executed; it rests on Kotlin's parser accepting "NaN" | AddSubjectDialog.NaNGoalAcceptedAsWritten | AddSubjectDialog.GoalHoursError |

`AddSubjectDialog.SaveEnabled` uses the corrected goal check.

## Left out

- Compose rendering, layout and animation, the dashboard screen, and the dialog's colour picker and layout: these are UI with no rules beyond the ones modelled.
- Service plumbing is left out: foreground notifications and channels, `stopSelf`, the Binder, the intent helper. The notification text is returned by `Tick` and not sent anywhere.
- Threads, coroutines and flows are left out. Each `launch` body runs to completion in sequence. Each `fixedRateTimer` firing is an explicit `Tick(schedule)`. An intent is handled at once instead of being delivered later. `stateIn`'s initial value before the first emission is not modelled.
- Float numerics are left out: `toHours` with its `%.2f` rounding, the `UpdateProgress` event (division and clamp), and `getTotalGoalHours`. `UpdateProgress` is therefore missing from `SubjectViewModel.SubjectEvent`.
- `Float` values are exact reals without rounding to 24 bits. `toFloatOrNull` and `Float.toString` are abstract parameters.
- The clock (`Instant.now()`, `changeMillisToDateString`) is the parameter `now`. `Subject.subjectCardColors.random()` is a constructor argument. Colours are ARGB ints, taken to survive `Color(argb).toArgb()` unchanged.
- `TaskDao` and the session and task repository implementations are not part of this model. The task table's semantics are assumed (see above). The session repository is taken to pass the session DAO's queries through, so `getRecentTenSessionsForSubject` is the unordered, unlimited filter of `SessionDao.kt:23-24`.
- `SessionState.kt`, `TaskState.kt` and `SubjectEvent.kt` are not part of this model. Their fields are inferred from use, and the task state's defaults are assumed: empty texts, no date, not complete, LOW, nothing chosen.
- A repository exception happens before any write. A failure between the three steps of a subject delete is covered only at table level, by `SubjectRepository.RetryAfterInterruptedDelete`.
- `TaskViewModel.TaskViewModel.constructor`: the two fetches are launched concurrently in the app; the model runs the task fetch first and the subject fetch second.
- `TaskViewModel.TaskViewModel.FetchTask`: the view model's `navTaskId`/`navSubjectId` stand for the navigation arguments; `SavedStateHandle` is not modelled.
- `SubjectViewModel.CombinedKeepsEdits`: the studied hours are the exact seconds / 3600, not the two-decimal Float of `toHours`.
- `AddSubjectDialog.SubjectNameError`: lengths count Unicode characters, not UTF-16 code units, so they differ for characters outside the Basic Multilingual Plane.
- `KotlinStdlib.ParseInt` and `KotlinStdlib.IntToString` model `toInt()` and `toString()` on ASCII digits with an optional '+' or '-' (`toString()` writes only '-'). Other Unicode digits, which `toInt()` also accepts, are not modelled.
- The database's handling of a NaN goal is not modelled: `goalHours` is a non-null `Float` column, and SQLite stores NaN as NULL, so the upsert of such a subject most likely throws rather than storing NaN.
- `Dao.SessionDao.GetTotalSessionsDurationBySubject`: the SQL `SUM` over no rows is NULL; the model reads it as 0, as Room does for a `Long`.
- `TimerService.StudySessionTimerService.constructor`: the duration is a whole number of seconds, which is all any tick produces. `Duration`'s range and fractions are not modelled.
- `TimerService.HoursText`: hours pass through `Long.toInt()` before padding, with 32-bit wrap-around. `TimerService.DisplayRecombines` therefore requires the hours to fit in an Int.
