/**
 * The subject screen's view model: it edits one subject (the navigation
 * argument `navSubjectId`), toggles the completion of its tasks and deletes
 * its sessions. Colours are ARGB `Int` values; `Color(argb)` and `toArgb()`
 * are taken to undo each other. Float parsing and printing are the
 * parameters `parseFloat` (`toFloatOrNull`) and `floatText` (`toString`).
 * A repository call that throws is the `failure` parameter, as in the
 * session view model.
 */
module SubjectViewModel {
  import opened Nullable
  import opened KotlinStdlib
  import opened Entities
  import opened Common
  import opened Dao
  import opened SubjectRepository

  datatype SubjectState = SubjectState(
    currentSubjectId: Option<int>,
    subjectName: string,
    goalStudyHours: string,
    subjectCardColors: seq<Int32>,
    studiedHours: real,
    recentSessions: seq<Session>,
    upcomingTasks: seq<Task>,
    completedTasks: seq<Task>,
    session: Option<Session>)

  /** The defaults; the card colours are a random choice, so they come in as a parameter. */
  function InitialState(colors: seq<Int32>): SubjectState {
    SubjectState(None, "", "", colors, 0.0, [], [], [], None)
  }

  datatype SubjectEvent =
    | OnSubjectCardColorChange(colors: seq<Int32>)
    | OnSubjectNameChange(name: string)
    | OnGoalStudyHoursChange(hours: string)
    | OnDeleteSessionButtonClick(session: Session)
    | OnTaskIsCompleteChange(task: Task)
    | UpdateSubject
    | DeleteSubject
    | DeleteSession

  const UpdatedMessage := "科目更新成功。"
  const UpdateFailedMessage := "未能更新科目。"
  const DeletedMessage := "科目删除成功。"
  const NothingToDeleteMessage := "没有科目可删除。"
  const DeleteFailedMessage := "未能删除科目。"
  const TaskReopenedMessage := "任务未完成。"
  const TaskDoneMessage := "任务已完成。"
  const TaskFailedMessage := "未能更新任务状态。"
  const SessionDeletedMessage := "记录删除成功。"
  const SessionDeleteFailedMessage := "未能删除记录。"

  /** The `combine` lambda: the three lists and the studied hours come from the repositories. */
  function Combined(local: SubjectState, upcoming: seq<Task>, completed: seq<Task>, recent: seq<Session>,
                    totalSeconds: int): SubjectState
  {
    local.(upcomingTasks := upcoming, completedTasks := completed, recentSessions := recent,
           studiedHours := totalSeconds as real / 3600.0)
  }

  /** The combined state keeps the edited fields and takes everything else from the latest values. */
  lemma CombinedKeepsEdits(local: SubjectState, upcoming: seq<Task>, completed: seq<Task>, recent: seq<Session>,
                           totalSeconds: int)
    ensures var r := Combined(local, upcoming, completed, recent, totalSeconds);
      && r.currentSubjectId == local.currentSubjectId && r.subjectName == local.subjectName
      && r.goalStudyHours == local.goalStudyHours && r.subjectCardColors == local.subjectCardColors
      && r.session == local.session
      && r.upcomingTasks == upcoming && r.completedTasks == completed && r.recentSessions == recent
      && r.studiedHours * 3600.0 == totalSeconds as real
  {
  }

  /** The `_state.update` branches of `onEvent`. */
  function Reduce(local: SubjectState, e: SubjectEvent): SubjectState {
    match e
    case OnSubjectCardColorChange(colors) => local.(subjectCardColors := colors)
    case OnSubjectNameChange(name) => local.(subjectName := name)
    case OnGoalStudyHoursChange(hours) => local.(goalStudyHours := hours)
    case OnDeleteSessionButtonClick(session) => local.(session := Some(session))
    case _ => local
  }

  /** Each field event sets its one field and puts back nothing else; the other events leave the state. */
  lemma ReduceChangesOneField(local: SubjectState, e: SubjectEvent)
    ensures e.OnSubjectCardColorChange? ==>
      Reduce(local, e).subjectCardColors == e.colors
      && Reduce(local, e).(subjectCardColors := local.subjectCardColors) == local
    ensures e.OnSubjectNameChange? ==>
      Reduce(local, e).subjectName == e.name && Reduce(local, e).(subjectName := local.subjectName) == local
    ensures e.OnGoalStudyHoursChange? ==>
      Reduce(local, e).goalStudyHours == e.hours
      && Reduce(local, e).(goalStudyHours := local.goalStudyHours) == local
    ensures e.OnDeleteSessionButtonClick? ==>
      Reduce(local, e).session == Some(e.session) && Reduce(local, e).(session := local.session) == local
    ensures e.OnTaskIsCompleteChange? || e.UpdateSubject? || e.DeleteSubject? || e.DeleteSession? ==>
      Reduce(local, e) == local
  {
  }

  /** The row `updateSubject` writes: the state's id, name and colours, and the goal parsed or else 1. */
  function SubjectFromState(s: SubjectState, parseFloat: string -> Option<Float>): (r: Subject)
    ensures r.subjectId == s.currentSubjectId && r.name == s.subjectName && r.colors == s.subjectCardColors
    ensures parseFloat(s.goalStudyHours).Some? ==> r.goalHours == parseFloat(s.goalStudyHours).value
    ensures parseFloat(s.goalStudyHours).None? ==> r.goalHours == Finite(1.0)
  {
    Subject(s.subjectName, parseFloat(s.goalStudyHours).GetOr(Finite(1.0)), s.subjectCardColors, s.currentSubjectId)
  }

  /** `fetchSubject`'s update: name, goal text, colours and id from the stored subject. */
  function WithFetched(local: SubjectState, subject: Subject, floatText: Float -> string): SubjectState {
    local.(subjectName := subject.name, goalStudyHours := floatText(subject.goalHours),
           subjectCardColors := subject.colors, currentSubjectId := subject.subjectId)
  }

  /**
   * Saving right after fetching writes back the row that was fetched, while
   * the goal's text parses back to the goal.
   */
  lemma FetchThenUpdateWritesSameRow(local: SubjectState, subject: Subject, parseFloat: string -> Option<Float>,
                                     floatText: Float -> string)
    requires parseFloat(floatText(subject.goalHours)) == Some(subject.goalHours)
    ensures SubjectFromState(WithFetched(local, subject, floatText), parseFloat) == subject
  {
  }

  /** Fetching keeps everything but the four edited fields. */
  lemma FetchKeepsOtherFields(local: SubjectState, subject: Subject, floatText: Float -> string)
    ensures var r := WithFetched(local, subject, floatText);
      && r.studiedHours == local.studiedHours && r.session == local.session
      && r.recentSessions == local.recentSessions && r.upcomingTasks == local.upcomingTasks
      && r.completedTasks == local.completedTasks
      && r.subjectName == subject.name && r.currentSubjectId == subject.subjectId && r.subjectCardColors == subject.colors
  {
  }

  /** The task `updateTask` writes: the same task with its completion flipped. */
  function Toggled(t: Task): Task {
    t.(isComplete := !t.isComplete)
  }

  /** The toggle flips `isComplete`, changes nothing else, and undoes itself. */
  lemma ToggleFlipsOnlyCompletion(t: Task)
    ensures Toggled(t).isComplete != t.isComplete
    ensures Toggled(t).(isComplete := t.isComplete) == t
    ensures Toggled(Toggled(t)) == t
  {
  }

  /** The notice after a toggle names the task's new status. */
  function ToggleMessage(t: Task): (m: string)
    ensures m == TaskReopenedMessage <==> t.isComplete
    ensures m == TaskDoneMessage <==> !t.isComplete
  {
    if t.isComplete then TaskReopenedMessage else TaskDoneMessage
  }

  class SubjectViewModel {
    const subjectRepository: SubjectRepositoryImpl
    const taskDao: TaskDao
    const sessionDao: SessionDao
    const navSubjectId: int
    const parseFloat: string -> Option<Float>
    const floatText: Float -> string
    var local: SubjectState
    var events: seq<SnackbarEvent>

    /** The three repositories share the app's one database. */
    ghost predicate Valid()
      reads this, subjectRepository, subjectRepository.subjectDao, subjectRepository.taskDao,
        subjectRepository.sessionDao
    {
      subjectRepository.Valid() && taskDao == subjectRepository.taskDao && sessionDao == subjectRepository.sessionDao
    }

    /** `state.value`. */
    function State(): SubjectState
      reads this, taskDao, sessionDao
    {
      Combined(local, taskDao.GetUpcomingTasksForSubject(navSubjectId), taskDao.GetCompletedTasksForSubject(navSubjectId),
               sessionDao.GetRecentSessionsForSubject(navSubjectId), sessionDao.GetTotalSessionsDurationBySubject(navSubjectId))
    }

    /** `init { fetchSubject() }`. */
    constructor (subjectRepository: SubjectRepositoryImpl, taskDao: TaskDao, sessionDao: SessionDao,
                 navSubjectId: int, initialColors: seq<Int32>,
                 parseFloat: string -> Option<Float>, floatText: Float -> string)
      ensures this.subjectRepository == subjectRepository && this.taskDao == taskDao && this.sessionDao == sessionDao
      ensures this.navSubjectId == navSubjectId && this.parseFloat == parseFloat && this.floatText == floatText
      ensures events == []
      ensures subjectRepository.GetSubjectById(navSubjectId).Some? ==>
        local == WithFetched(InitialState(initialColors), subjectRepository.GetSubjectById(navSubjectId).value, floatText)
      ensures subjectRepository.GetSubjectById(navSubjectId).None? ==> local == InitialState(initialColors)
    {
      this.subjectRepository := subjectRepository;
      this.taskDao := taskDao;
      this.sessionDao := sessionDao;
      this.navSubjectId := navSubjectId;
      this.parseFloat := parseFloat;
      this.floatText := floatText;
      local := InitialState(initialColors);
      events := [];
      new;
      FetchSubject();
    }

    method FetchSubject()
      modifies this
      ensures events == old(events)
      ensures subjectRepository.GetSubjectById(navSubjectId).Some? ==>
        local == WithFetched(old(local), subjectRepository.GetSubjectById(navSubjectId).value, floatText)
      ensures subjectRepository.GetSubjectById(navSubjectId).None? ==> local == old(local)
    {
      var subject := subjectRepository.GetSubjectById(navSubjectId);
      if subject.Some? {
        local := WithFetched(local, subject.value, floatText);
      }
    }

    method OnEvent(e: SubjectEvent, failure: Option<string>)
      requires Valid()
      modifies this, subjectRepository.subjectDao, taskDao, sessionDao
      ensures Valid()
      ensures local == Reduce(old(local), e)
      ensures !(e.OnTaskIsCompleteChange? || e.UpdateSubject? || e.DeleteSubject? || e.DeleteSession?) ==>
        events == old(events) && subjectRepository.Contents() == old(subjectRepository.Contents())
      ensures e.UpdateSubject? ==>
        UpdateSubjectOutcome(old(State()), old(subjectRepository.subjectDao.rows), old(subjectRepository.subjectDao.nextId),
          old(events), failure)
        && taskDao.rows == old(taskDao.rows) && sessionDao.rows == old(sessionDao.rows)
      ensures e.DeleteSubject? ==>
        DeleteSubjectOutcome(old(State()), old(subjectRepository.Contents()), old(events), failure)
      ensures e.OnTaskIsCompleteChange? ==>
        UpdateTaskOutcome(e.task, old(taskDao.rows), old(taskDao.nextId), old(events), failure)
        && subjectRepository.subjectDao.rows == old(subjectRepository.subjectDao.rows)
        && sessionDao.rows == old(sessionDao.rows)
      ensures e.DeleteSession? ==>
        DeleteSessionOutcome(old(State()), old(sessionDao.rows), old(events), failure)
        && subjectRepository.subjectDao.rows == old(subjectRepository.subjectDao.rows)
        && taskDao.rows == old(taskDao.rows)
    {
      match e {
        case OnTaskIsCompleteChange(task) => UpdateTask(task, failure);
        case UpdateSubject => UpdateSubjectAction(failure);
        case DeleteSubject => DeleteSubjectAction(failure);
        case DeleteSession => DeleteSessionAction(failure);
        case _ => local := Reduce(local, e);
      }
    }

    /** What `updateSubject` leaves behind, given the state, subject table, next id and log it started from. */
    ghost predicate UpdateSubjectOutcome(s: SubjectState, rows0: seq<Subject>, nextId0: int,
                                         events0: seq<SnackbarEvent>, failure: Option<string>)
      reads this, subjectRepository, subjectRepository.subjectDao
    {
      var subject := SubjectFromState(s, parseFloat);
      && (failure.None? ==>
            && (subject.subjectId.None? ==>
                  subjectRepository.subjectDao.rows == rows0 + [subject.(subjectId := Some(nextId0))])
            && (subject.subjectId.Some? ==>
                  subjectRepository.subjectDao.rows == Table.Upsert(rows0, SubjectKey, subject))
            && events == events0 + [Notice(UpdatedMessage)])
      && (failure.Some? ==>
            subjectRepository.subjectDao.rows == rows0
            && events == events0 + [FailureNotice(UpdateFailedMessage, failure.value)])
    }

    /** What `deleteSubject` leaves behind, given the state, the three tables and the log it started from. */
    ghost predicate DeleteSubjectOutcome(s: SubjectState, contents0: Tables, events0: seq<SnackbarEvent>,
                                         failure: Option<string>)
      reads this, subjectRepository, subjectRepository.subjectDao, subjectRepository.taskDao,
        subjectRepository.sessionDao
    {
      && (s.currentSubjectId.None? ==>
            subjectRepository.Contents() == contents0 && events == events0 + [Notice(NothingToDeleteMessage)])
      && (s.currentSubjectId.Some? && failure.None? ==>
            subjectRepository.Contents() == CascadeDelete(contents0, s.currentSubjectId.value)
            && events == events0 + [Notice(DeletedMessage), NavigateUp])
      && (s.currentSubjectId.Some? && failure.Some? ==>
            subjectRepository.Contents() == contents0
            && events == events0 + [FailureNotice(DeleteFailedMessage, failure.value)])
    }

    /** What `updateTask` leaves behind for the task whose completion was switched. */
    ghost predicate UpdateTaskOutcome(task: Task, rows0: seq<Task>, nextId0: int, events0: seq<SnackbarEvent>,
                                      failure: Option<string>)
      reads this, taskDao
    {
      && (failure.None? ==>
            && (task.taskId.None? ==> taskDao.rows == rows0 + [Toggled(task).(taskId := Some(nextId0))])
            && (task.taskId.Some? ==> taskDao.rows == Table.Upsert(rows0, TaskKey, Toggled(task)))
            && events == events0 + [Notice(ToggleMessage(task))])
      && (failure.Some? ==>
            taskDao.rows == rows0 && events == events0 + [FailureNotice(TaskFailedMessage, failure.value)])
    }

    /** What `deleteSession` leaves behind. */
    ghost predicate DeleteSessionOutcome(s: SubjectState, rows0: seq<Session>, events0: seq<SnackbarEvent>,
                                         failure: Option<string>)
      reads this, sessionDao
    {
      && (s.session.None? ==> sessionDao.rows == rows0 && events == events0)
      && (s.session.Some? && failure.None? ==>
            sessionDao.rows == Table.Where(rows0, SessionIdIsNot(s.session.value.sessionId))
            && events == events0 + [Notice(SessionDeletedMessage)])
      && (s.session.Some? && failure.Some? ==>
            sessionDao.rows == rows0 && events == events0 + [FailureNotice(SessionDeleteFailedMessage, failure.value)])
    }

    method UpdateSubjectAction(failure: Option<string>)
      requires Valid()
      modifies this, subjectRepository.subjectDao
      ensures Valid() && local == old(local)
      ensures UpdateSubjectOutcome(old(State()), old(subjectRepository.subjectDao.rows),
        old(subjectRepository.subjectDao.nextId), old(events), failure)
      ensures var subject := SubjectFromState(old(State()), parseFloat);
        failure.None? && subject.subjectId.Some? ==>
          subjectRepository.GetSubjectById(subject.subjectId.value) == Some(subject)
    {
      var subject := SubjectFromState(State(), parseFloat);
      if failure.Some? {
        events := events + [FailureNotice(UpdateFailedMessage, failure.value)];
      } else {
        subjectRepository.UpsertSubject(subject);
        events := events + [Notice(UpdatedMessage)];
      }
    }

    method DeleteSubjectAction(failure: Option<string>)
      requires Valid()
      modifies this, subjectRepository.subjectDao, taskDao, sessionDao
      ensures Valid() && local == old(local)
      ensures DeleteSubjectOutcome(old(State()), old(subjectRepository.Contents()), old(events), failure)
    {
      var currentSubjectId := State().currentSubjectId;
      if currentSubjectId.Some? {
        if failure.Some? {
          events := events + [FailureNotice(DeleteFailedMessage, failure.value)];
        } else {
          subjectRepository.DeleteSubject(currentSubjectId.value);
          events := events + [Notice(DeletedMessage), NavigateUp];
        }
      } else {
        events := events + [Notice(NothingToDeleteMessage)];
      }
    }

    method UpdateTask(task: Task, failure: Option<string>)
      requires Valid()
      modifies this, taskDao
      ensures Valid() && local == old(local)
      ensures UpdateTaskOutcome(task, old(taskDao.rows), old(taskDao.nextId), old(events), failure)
      ensures failure.None? && task.taskId.Some? ==> taskDao.GetTaskById(task.taskId.value) == Some(Toggled(task))
    {
      if failure.Some? {
        events := events + [FailureNotice(TaskFailedMessage, failure.value)];
      } else {
        taskDao.UpsertTask(Toggled(task));
        events := events + [Notice(ToggleMessage(task))];
      }
    }

    method DeleteSessionAction(failure: Option<string>)
      requires Valid()
      modifies this, sessionDao
      ensures Valid() && local == old(local)
      ensures DeleteSessionOutcome(old(State()), old(sessionDao.rows), old(events), failure)
    {
      var session := State().session;
      if session.Some? {
        if failure.Some? {
          events := events + [FailureNotice(SessionDeleteFailedMessage, failure.value)];
        } else {
          sessionDao.DeleteSession(session.value);
          events := events + [Notice(SessionDeletedMessage)];
        }
      }
    }
  }
}
