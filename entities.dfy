/** The three stored records. Ids are absent until the database assigns them. */
module Entities {
  import opened Nullable
  import opened KotlinStdlib

  /** A subject: a name, a goal in hours, the ARGB colours of its card, and its id. */
  datatype Subject = Subject(name: string, goalHours: Float, colors: seq<Int32>, subjectId: Option<int>)

  /** A task; `priority` is the stored integer of a priority level, `taskSubjectId` the owning subject. */
  datatype Task = Task(
    title: string,
    description: string,
    dueDate: int,
    priority: int,
    relatedToSubject: string,
    isComplete: bool,
    taskSubjectId: int,
    taskId: Option<int>)

  /**
   * A study session: the subject id and name copied at save time, the start
   * date in epoch milliseconds and the length in whole seconds.
   */
  datatype Session = Session(
    sessionSubjectId: int,
    relatedToSubject: string,
    date: int,
    duration: int,
    sessionId: Option<int>)

  /** Primary keys, as functions the generic table operations take. */
  function SubjectKey(s: Subject): Option<int> { s.subjectId }
  function TaskKey(t: Task): Option<int> { t.taskId }
  function SessionKey(s: Session): Option<int> { s.sessionId }
}
