/**
 * The task screen's view model: it edits one task, opened either on a
 * stored task (`navTaskId`) or for a subject (`navSubjectId`), saves it with
 * an upsert and deletes it. The clock reading used when no due date was
 * picked is the parameter `now`; a repository call that throws is `failure`.
 */
module TaskViewModel {
  import opened Nullable
  import opened Entities
  import opened Common
  import opened Dao
  import opened SubjectRepository

  datatype TaskState = TaskState(
    subjects: seq<Subject>,
    title: string,
    description: string,
    dueDate: Option<int>,
    isTaskComplete: bool,
    priority: Priority,
    relatedToSubject: Option<string>,
    subjectId: Option<int>,
    currentTaskId: Option<int>)

  /** The defaults: empty texts, no date, not complete, LOW, nothing chosen. */
  const InitialState: TaskState := TaskState([], "", "", None, false, LOW, None, None, None)

  datatype TaskEvent =
    | OnTitleChange(title: string)
    | OnDescriptionChange(description: string)
    | OnDateChange(millis: Option<int>)
    | OnPriorityChange(priority: Priority)
    | OnRelatedSubjectSelect(subject: Subject)
    | OnIsCompleteChange
    | SaveTask
    | DeleteTask

  const SelectSubjectMessage := "请选择相关的科目。"
  const SavedMessage := "任务保存成功。"
  const SaveFailedMessage := "未能保存任务。"
  const DeletedMessage := "任务删除成功。"
  const NothingToDeleteMessage := "没有任务可删除。"
  const DeleteFailedMessage := "未能删除任务。"

  /** The `_state.update` branches of `onEvent`. */
  function Reduce(local: TaskState, e: TaskEvent): TaskState {
    match e
    case OnTitleChange(title) => local.(title := title)
    case OnDescriptionChange(description) => local.(description := description)
    case OnDateChange(millis) => local.(dueDate := millis)
    case OnPriorityChange(priority) => local.(priority := priority)
    case OnIsCompleteChange => local.(isTaskComplete := !local.isTaskComplete)
    case OnRelatedSubjectSelect(subject) => local.(relatedToSubject := Some(subject.name), subjectId := subject.subjectId)
    case _ => local
  }

  /** Each edit changes only its own fields, and the completion switch undoes itself. */
  lemma ReduceChangesOnlyItsFields(local: TaskState, e: TaskEvent)
    ensures e.OnTitleChange? ==>
      Reduce(local, e).title == e.title && Reduce(local, e).(title := local.title) == local
    ensures e.OnDescriptionChange? ==>
      Reduce(local, e).description == e.description
      && Reduce(local, e).(description := local.description) == local
    ensures e.OnDateChange? ==>
      Reduce(local, e).dueDate == e.millis && Reduce(local, e).(dueDate := local.dueDate) == local
    ensures e.OnPriorityChange? ==>
      Reduce(local, e).priority == e.priority && Reduce(local, e).(priority := local.priority) == local
    ensures e.OnIsCompleteChange? ==>
      Reduce(local, e).isTaskComplete != local.isTaskComplete
      && Reduce(Reduce(local, e), e) == local
    ensures e.OnRelatedSubjectSelect? ==>
      Reduce(local, e).relatedToSubject == Some(e.subject.name) && Reduce(local, e).subjectId == e.subject.subjectId
      && Reduce(local, e).(relatedToSubject := local.relatedToSubject, subjectId := local.subjectId) == local
    ensures e.SaveTask? || e.DeleteTask? ==> Reduce(local, e) == local
  {
  }

  /** Whether `saveTask` refuses for want of a subject. */
  predicate LacksSubject(s: TaskState) {
    s.subjectId.None? || s.relatedToSubject.None?
  }

  /** The row `saveTask` writes; without a picked date it is due now. */
  function TaskFromState(s: TaskState, now: int): (r: Task)
    requires !LacksSubject(s)
    ensures r.title == s.title && r.description == s.description && r.isComplete == s.isTaskComplete
    ensures r.priority == s.priority.Value() && r.taskId == s.currentTaskId
    ensures r.taskSubjectId == s.subjectId.value && r.relatedToSubject == s.relatedToSubject.value
    ensures s.dueDate.Some? ==> r.dueDate == s.dueDate.value
    ensures s.dueDate.None? ==> r.dueDate == now
  {
    Task(s.title, s.description, s.dueDate.GetOr(now), s.priority.Value(), s.relatedToSubject.value,
         s.isTaskComplete, s.subjectId.value, s.currentTaskId)
  }

  /** `fetchTask`'s update: every edited field from the stored task. */
  function WithTask(local: TaskState, task: Task): TaskState {
    local.(title := task.title, description := task.description, dueDate := Some(task.dueDate),
           isTaskComplete := task.isComplete, relatedToSubject := Some(task.relatedToSubject),
           priority := FromInt(task.priority), subjectId := Some(task.taskSubjectId), currentTaskId := task.taskId)
  }

  /** `fetchSubject`'s update: the subject as the related subject. */
  function WithSubject(local: TaskState, subject: Subject): TaskState {
    local.(subjectId := subject.subjectId, relatedToSubject := Some(subject.name))
  }

  /** Reopening a saved task shows what was saved; only a missing due date is now filled in. */
  lemma SaveThenFetch(s: TaskState, now: int)
    requires !LacksSubject(s)
    ensures WithTask(s, TaskFromState(s, now)) == s.(dueDate := Some(s.dueDate.GetOr(now)))
  {
    FromIntValue(s.priority);
  }

  /** Saving a task just opened writes the same row back, as long as its priority is one of the three levels. */
  lemma FetchThenSave(local: TaskState, task: Task, now: int)
    requires 0 <= task.priority <= 2
    ensures TaskFromState(WithTask(local, task), now) == task
  {
  }

  /** A stored priority outside the three levels is saved back as MEDIUM. */
  lemma FetchNormalisesPriority(local: TaskState, task: Task, now: int)
    requires !(0 <= task.priority <= 2)
    ensures TaskFromState(WithTask(local, task), now) == task.(priority := MEDIUM.Value())
  {
  }

  class TaskViewModel {
    const subjectRepository: SubjectRepositoryImpl
    const taskDao: TaskDao
    const navTaskId: Option<int>
    const navSubjectId: Option<int>
    var local: TaskState
    var events: seq<SnackbarEvent>

    ghost predicate Valid()
      reads this, subjectRepository, subjectRepository.subjectDao, subjectRepository.taskDao,
        subjectRepository.sessionDao
    {
      subjectRepository.Valid() && taskDao == subjectRepository.taskDao
    }

    /** `state.value`: the local state with the latest subject list. */
    function State(): TaskState
      reads this, subjectRepository, subjectRepository.subjectDao
    {
      local.(subjects := subjectRepository.GetAllSubjects())
    }

    /** The task the navigation argument points at, if it is stored. */
    function FoundTask(): Option<Task>
      reads this, taskDao
    {
      if navTaskId.Some? then taskDao.GetTaskById(navTaskId.value) else None
    }

    /** The subject the navigation argument points at, if it is stored. */
    function FoundSubject(): Option<Subject>
      reads this, subjectRepository, subjectRepository.subjectDao
    {
      if navSubjectId.Some? then subjectRepository.GetSubjectById(navSubjectId.value) else None
    }

    /** `init { fetchTask(); fetchSubject() }`, the two fetches taken in that order. */
    constructor (subjectRepository: SubjectRepositoryImpl, taskDao: TaskDao,
                 navTaskId: Option<int>, navSubjectId: Option<int>)
      ensures this.subjectRepository == subjectRepository && this.taskDao == taskDao
      ensures this.navTaskId == navTaskId && this.navSubjectId == navSubjectId
      ensures events == []
      ensures var afterTask := if FoundTask().Some? then WithTask(InitialState, FoundTask().value) else InitialState;
        local == if FoundSubject().Some? then WithSubject(afterTask, FoundSubject().value) else afterTask
    {
      this.subjectRepository := subjectRepository;
      this.taskDao := taskDao;
      this.navTaskId := navTaskId;
      this.navSubjectId := navSubjectId;
      local := InitialState;
      events := [];
      new;
      FetchTask();
      FetchSubject();
    }

    method FetchTask()
      modifies this
      ensures events == old(events)
      ensures FoundTask().Some? ==> local == WithTask(old(local), FoundTask().value)
      ensures FoundTask().None? ==> local == old(local)
    {
      if navTaskId.Some? {
        var task := taskDao.GetTaskById(navTaskId.value);
        if task.Some? {
          local := WithTask(local, task.value);
        }
      }
    }

    method FetchSubject()
      modifies this
      ensures events == old(events)
      ensures FoundSubject().Some? ==> local == WithSubject(old(local), FoundSubject().value)
      ensures FoundSubject().None? ==> local == old(local)
    {
      if navSubjectId.Some? {
        var subject := subjectRepository.GetSubjectById(navSubjectId.value);
        if subject.Some? {
          local := WithSubject(local, subject.value);
        }
      }
    }

    method OnEvent(e: TaskEvent, now: int, failure: Option<string>)
      requires Valid()
      modifies this, taskDao
      ensures Valid()
      ensures local == Reduce(old(local), e)
      ensures !(e.SaveTask? || e.DeleteTask?) ==> events == old(events) && taskDao.rows == old(taskDao.rows)
      ensures e.SaveTask? ==> SaveTaskOutcome(old(local), old(taskDao.rows), old(taskDao.nextId), old(events), now, failure)
      ensures e.DeleteTask? ==> DeleteTaskOutcome(old(local), old(taskDao.rows), old(events), failure)
    {
      match e {
        case SaveTask => SaveTaskAction(now, failure);
        case DeleteTask => DeleteTaskAction(failure);
        case _ => local := Reduce(local, e);
      }
    }

    /** What `saveTask` leaves behind, given the state, table, next id and log it started from. */
    ghost predicate SaveTaskOutcome(s: TaskState, rows0: seq<Task>, nextId0: int, events0: seq<SnackbarEvent>,
                                    now: int, failure: Option<string>)
      reads this, taskDao
    {
      && (LacksSubject(s) ==> taskDao.rows == rows0 && events == events0 + [Notice(SelectSubjectMessage)])
      && (!LacksSubject(s) && failure.None? ==>
            var task := TaskFromState(s, now);
            && (task.taskId.None? ==> taskDao.rows == rows0 + [task.(taskId := Some(nextId0))])
            && (task.taskId.Some? ==> taskDao.rows == Table.Upsert(rows0, TaskKey, task))
            && events == events0 + [Notice(SavedMessage), NavigateUp])
      && (!LacksSubject(s) && failure.Some? ==>
            taskDao.rows == rows0 && events == events0 + [FailureNotice(SaveFailedMessage, failure.value)])
    }

    /** What `deleteTask` leaves behind. */
    ghost predicate DeleteTaskOutcome(s: TaskState, rows0: seq<Task>, events0: seq<SnackbarEvent>,
                                      failure: Option<string>)
      reads this, taskDao
    {
      && (s.currentTaskId.None? ==> taskDao.rows == rows0 && events == events0 + [Notice(NothingToDeleteMessage)])
      && (s.currentTaskId.Some? && failure.None? ==>
            taskDao.rows == Table.Where(rows0, TaskIdIsNot(s.currentTaskId.value))
            && events == events0 + [Notice(DeletedMessage), NavigateUp])
      && (s.currentTaskId.Some? && failure.Some? ==>
            taskDao.rows == rows0 && events == events0 + [FailureNotice(DeleteFailedMessage, failure.value)])
    }

    method SaveTaskAction(now: int, failure: Option<string>)
      requires Valid()
      modifies this, taskDao
      ensures Valid() && local == old(local)
      ensures SaveTaskOutcome(old(local), old(taskDao.rows), old(taskDao.nextId), old(events), now, failure)
      ensures !LacksSubject(old(local)) && failure.None? ==>
        var task := TaskFromState(old(local), now);
        task.taskId.Some? ==> taskDao.GetTaskById(task.taskId.value) == Some(task)
    {
      if local.subjectId.None? || local.relatedToSubject.None? {
        events := events + [Notice(SelectSubjectMessage)];
        return;
      }
      if failure.Some? {
        events := events + [FailureNotice(SaveFailedMessage, failure.value)];
      } else {
        taskDao.UpsertTask(TaskFromState(local, now));
        events := events + [Notice(SavedMessage), NavigateUp];
      }
    }

    method DeleteTaskAction(failure: Option<string>)
      requires Valid()
      modifies this, taskDao
      ensures Valid() && local == old(local)
      ensures DeleteTaskOutcome(old(local), old(taskDao.rows), old(events), failure)
      ensures old(local).currentTaskId.Some? && failure.None? ==> taskDao.GetTaskById(old(local).currentTaskId.value) == None
    {
      var currentTaskId := State().currentTaskId;
      if currentTaskId.Some? {
        if failure.Some? {
          events := events + [FailureNotice(DeleteFailedMessage, failure.value)];
        } else {
          taskDao.DeleteTask(currentTaskId.value);
          events := events + [Notice(DeletedMessage), NavigateUp];
        }
      } else {
        events := events + [Notice(NothingToDeleteMessage)];
      }
    }
  }
}
