/**
 * The three tables behind the Room DAOs. Each DAO is a class whose `rows`
 * field is the table and whose `nextId` field is the AUTOINCREMENT counter:
 * a row stored without an id gets `nextId`, and ids are never handed out twice.
 * The subject and session DAOs follow their declared SQL; the task DAO's
 * source is not part of this model, so its operations carry the contracts
 * its callers assume (see the README).
 */
module Dao {
  import opened Nullable
  import opened Entities
  import opened Table

  /** `WHERE sessionSubjectId = :subjectId` */
  function SessionOfSubject(subjectId: int): Session -> bool {
    (s: Session) => s.sessionSubjectId == subjectId
  }

  /** `WHERE sessionSubjectId != :subjectId`, the rows `DELETE ... WHERE sessionSubjectId = :subjectId` keeps. */
  function SessionNotOfSubject(subjectId: int): Session -> bool {
    (s: Session) => s.sessionSubjectId != subjectId
  }

  /** The rows a delete by primary key keeps. */
  function SessionIdIsNot(id: Option<int>): Session -> bool {
    (s: Session) => s.sessionId != id
  }

  function SubjectIdIsNot(id: int): Subject -> bool {
    (s: Subject) => s.subjectId != Some(id)
  }

  function TaskIdIsNot(id: int): Task -> bool {
    (t: Task) => t.taskId != Some(id)
  }

  function TaskNotOfSubject(subjectId: int): Task -> bool {
    (t: Task) => t.taskSubjectId != subjectId
  }

  function UpcomingTaskOf(subjectId: int): Task -> bool {
    (t: Task) => t.taskSubjectId == subjectId && !t.isComplete
  }

  function CompletedTaskOf(subjectId: int): Task -> bool {
    (t: Task) => t.taskSubjectId == subjectId && t.isComplete
  }

  function IsUpcoming(t: Task): bool { !t.isComplete }

  function SessionDuration(s: Session): int { s.duration }

  /** The AUTOINCREMENT counter after storing a row with id `id`. */
  function Bump(next: int, id: int): int { if id >= next then id + 1 else next }

  class SubjectDao {
    var rows: seq<Subject>
    var nextId: int

    ghost predicate Valid()
      reads this
    {
      Keyed(rows, SubjectKey) && IdsBelow(rows, SubjectKey, nextId)
    }

    constructor ()
      ensures Valid() && rows == []
    {
      rows := [];
      nextId := 1;
    }

    /** `SELECT * FROM Subject WHERE subjectId = :subjectId` */
    function GetSubjectById(subjectId: int): (r: Option<Subject>)
      reads this
      ensures r.Some? ==> r.value in rows && r.value.subjectId == Some(subjectId)
      ensures r.None? ==> forall i :: 0 <= i < |rows| ==> rows[i].subjectId != Some(subjectId)
    {
      Find(rows, SubjectKey, subjectId)
    }

    /** `SELECT * FROM Subject` */
    function GetAllSubjects(): seq<Subject>
      reads this
    {
      rows
    }

    /** `SELECT COUNT(*) FROM SUBJECT` */
    function GetTotalSubjectCount(): (n: int)
      reads this
      ensures n == |GetAllSubjects()|
    {
      |rows|
    }

    /**
     * `@Upsert`: a subject without an id is inserted under a fresh id; one
     * with an id replaces the row with that id, or is inserted under it.
     */
    method UpsertSubject(subject: Subject)
      requires Valid()
      modifies this
      ensures Valid()
      ensures subject.subjectId.None? ==>
        rows == old(rows) + [subject.(subjectId := Some(old(nextId)))]
      ensures subject.subjectId.Some? ==> rows == Upsert(old(rows), SubjectKey, subject)
      ensures subject.subjectId.Some? ==> GetSubjectById(subject.subjectId.value) == Some(subject)
      ensures subject.subjectId.Some? ==>
        forall id :: id != subject.subjectId.value ==> GetSubjectById(id) == old(GetSubjectById(id))
      ensures subject.subjectId.Some? && old(GetSubjectById(subject.subjectId.value)).Some? ==>
        GetTotalSubjectCount() == old(GetTotalSubjectCount())
    {
      var row := if subject.subjectId.None? then subject.(subjectId := Some(nextId)) else subject;
      UpsertFind(rows, SubjectKey, row);
      forall id | id != row.subjectId.value
        ensures Find(Upsert(rows, SubjectKey, row), SubjectKey, id) == Find(rows, SubjectKey, id)
      {
        UpsertFindOther(rows, SubjectKey, row, id);
      }
      rows := Upsert(rows, SubjectKey, row);
      nextId := Bump(nextId, row.subjectId.value);
    }

    /** `DELETE FROM Subject WHERE subjectId = :subjectId` */
    method DeleteSubject(subjectId: int)
      requires Valid()
      modifies this
      ensures Valid() && nextId == old(nextId)
      ensures rows == Where(old(rows), SubjectIdIsNot(subjectId))
      ensures GetSubjectById(subjectId) == None
      ensures forall id :: id != subjectId ==> GetSubjectById(id) == old(GetSubjectById(id))
    {
      WhereKeyed(rows, SubjectKey, SubjectIdIsNot(subjectId));
      forall id | id != subjectId
        ensures Find(Where(rows, SubjectIdIsNot(subjectId)), SubjectKey, id) == Find(rows, SubjectKey, id)
      {
        WhereFind(rows, SubjectKey, SubjectIdIsNot(subjectId), id);
      }
      rows := Where(rows, SubjectIdIsNot(subjectId));
    }
  }

  class SessionDao {
    var rows: seq<Session>
    var nextId: int

    ghost predicate Valid()
      reads this
    {
      Keyed(rows, SessionKey) && IdsBelow(rows, SessionKey, nextId)
    }

    constructor ()
      ensures Valid() && rows == []
    {
      rows := [];
      nextId := 1;
    }

    /** `SELECT * FROM Session` */
    function GetAllSessions(): seq<Session>
      reads this
    {
      rows
    }

    /** `SELECT * FROM Session WHERE sessionSubjectId = :subjectId`: no ordering and no limit. */
    function GetRecentSessionsForSubject(subjectId: int): (r: seq<Session>)
      reads this
      ensures forall i :: 0 <= i < |r| ==> r[i] in rows && r[i].sessionSubjectId == subjectId
      ensures forall i :: 0 <= i < |rows| && rows[i].sessionSubjectId == subjectId ==> rows[i] in r
    {
      Where(rows, SessionOfSubject(subjectId))
    }

    /** `SELECT SUM(duration) FROM Session` */
    function GetTotalSessionsDuration(): int
      reads this
    {
      Sum(rows, SessionDuration)
    }

    /** `SELECT SUM(duration) FROM Session WHERE sessionSubjectId = :subjectId` */
    function GetTotalSessionsDurationBySubject(subjectId: int): (total: int)
      reads this
      ensures total + Sum(Where(rows, SessionNotOfSubject(subjectId)), SessionDuration)
        == GetTotalSessionsDuration()
    {
      SumSplitBySubject(rows, subjectId);
      Sum(GetRecentSessionsForSubject(subjectId), SessionDuration)
    }

    /**
     * `@Insert`: a session without an id gets a fresh one; a session whose id
     * is already stored aborts on the primary-key conflict and changes nothing.
     */
    method InsertSession(session: Session) returns (inserted: bool)
      requires Valid()
      modifies this
      ensures Valid()
      ensures inserted <==> session.sessionId.None? || old(Find(rows, SessionKey, session.sessionId.value)).None?
      ensures inserted && session.sessionId.None? ==>
        rows == old(rows) + [session.(sessionId := Some(old(nextId)))]
      ensures inserted && session.sessionId.Some? ==> rows == old(rows) + [session]
      ensures !inserted ==> rows == old(rows)
      ensures inserted ==> GetTotalSessionsDuration() == old(GetTotalSessionsDuration()) + session.duration
    {
      var row := if session.sessionId.None? then session.(sessionId := Some(nextId)) else session;
      if Find(rows, SessionKey, row.sessionId.value).Some? {
        inserted := false;
      } else {
        inserted := true;
        SumAppend(rows, row, SessionDuration);
        rows := rows + [row];
        nextId := Bump(nextId, row.sessionId.value);
      }
    }

    /** `@Delete`: removes the row whose primary key equals the session's id. */
    method DeleteSession(session: Session)
      requires Valid()
      modifies this
      ensures Valid() && nextId == old(nextId)
      ensures rows == Where(old(rows), SessionIdIsNot(session.sessionId))
      ensures session.sessionId.None? ==> rows == old(rows)
      ensures session.sessionId.Some? ==> Find(rows, SessionKey, session.sessionId.value) == None
    {
      WhereKeyed(rows, SessionKey, SessionIdIsNot(session.sessionId));
      rows := Where(rows, SessionIdIsNot(session.sessionId));
    }

    /** `DELETE FROM Session WHERE sessionSubjectId = :subjectId` */
    method DeleteSessionsBySubjectId(subjectId: int)
      requires Valid()
      modifies this
      ensures Valid() && nextId == old(nextId)
      ensures rows == DeleteSessionsOf(old(rows), subjectId)
      ensures forall i :: 0 <= i < |rows| ==> rows[i].sessionSubjectId != subjectId
      ensures forall i :: 0 <= i < |old(rows)| && old(rows)[i].sessionSubjectId != subjectId ==> old(rows)[i] in rows
    {
      WhereKeyed(rows, SessionKey, SessionNotOfSubject(subjectId));
      rows := Where(rows, SessionNotOfSubject(subjectId));
    }
  }

  /** The session table after `deleteSessionsBySubjectId`. */
  function DeleteSessionsOf(rows: seq<Session>, subjectId: int): seq<Session> {
    Where(rows, SessionNotOfSubject(subjectId))
  }

  /** The duration of all sessions is that of one subject's sessions plus that of the rest. */
  lemma SumSplitBySubject(rows: seq<Session>, subjectId: int)
    ensures Sum(Where(rows, SessionOfSubject(subjectId)), SessionDuration)
      + Sum(Where(rows, SessionNotOfSubject(subjectId)), SessionDuration)
      == Sum(rows, SessionDuration)
  {
    SumWhereSplit(rows, SessionOfSubject(subjectId), SessionNotOfSubject(subjectId), SessionDuration);
  }

  /**
   * The task table. Its DAO is not part of this model: these operations
   * carry the semantics the repository's callers assume, by analogy with the
   * subject and session DAOs.
   */
  class TaskDao {
    var rows: seq<Task>
    var nextId: int

    ghost predicate Valid()
      reads this
    {
      Keyed(rows, TaskKey) && IdsBelow(rows, TaskKey, nextId)
    }

    constructor ()
      ensures Valid() && rows == []
    {
      rows := [];
      nextId := 1;
    }

    function GetTaskById(taskId: int): (r: Option<Task>)
      reads this
      ensures r.Some? ==> r.value in rows && r.value.taskId == Some(taskId)
      ensures r.None? ==> forall i :: 0 <= i < |rows| ==> rows[i].taskId != Some(taskId)
    {
      Find(rows, TaskKey, taskId)
    }

    /** The subject's tasks that are not complete (assumed query). */
    function GetUpcomingTasksForSubject(subjectId: int): (r: seq<Task>)
      reads this
      ensures forall i :: 0 <= i < |r| ==> r[i] in rows && r[i].taskSubjectId == subjectId && !r[i].isComplete
      ensures forall i :: 0 <= i < |rows| && rows[i].taskSubjectId == subjectId && !rows[i].isComplete ==> rows[i] in r
    {
      Where(rows, UpcomingTaskOf(subjectId))
    }

    /** The subject's completed tasks (assumed query). */
    function GetCompletedTasksForSubject(subjectId: int): (r: seq<Task>)
      reads this
      ensures forall i :: 0 <= i < |r| ==> r[i] in rows && r[i].taskSubjectId == subjectId && r[i].isComplete
      ensures forall i :: 0 <= i < |rows| && rows[i].taskSubjectId == subjectId && rows[i].isComplete ==> rows[i] in r
    {
      Where(rows, CompletedTaskOf(subjectId))
    }

    /** Upsert, assumed to behave as the subject DAO's. */
    method UpsertTask(task: Task)
      requires Valid()
      modifies this
      ensures Valid()
      ensures task.taskId.None? ==> rows == old(rows) + [task.(taskId := Some(old(nextId)))]
      ensures task.taskId.Some? ==> rows == Upsert(old(rows), TaskKey, task)
      ensures task.taskId.Some? ==> GetTaskById(task.taskId.value) == Some(task)
      ensures task.taskId.Some? ==>
        forall id :: id != task.taskId.value ==> GetTaskById(id) == old(GetTaskById(id))
    {
      var row := if task.taskId.None? then task.(taskId := Some(nextId)) else task;
      UpsertFind(rows, TaskKey, row);
      forall id | id != row.taskId.value
        ensures Find(Upsert(rows, TaskKey, row), TaskKey, id) == Find(rows, TaskKey, id)
      {
        UpsertFindOther(rows, TaskKey, row, id);
      }
      rows := Upsert(rows, TaskKey, row);
      nextId := Bump(nextId, row.taskId.value);
    }

    /** Delete by primary key (assumed). */
    method DeleteTask(taskId: int)
      requires Valid()
      modifies this
      ensures Valid() && nextId == old(nextId)
      ensures rows == Where(old(rows), TaskIdIsNot(taskId))
      ensures GetTaskById(taskId) == None
    {
      WhereKeyed(rows, TaskKey, TaskIdIsNot(taskId));
      rows := Where(rows, TaskIdIsNot(taskId));
    }

    /** `deleteTasksBySubjectId`, ASSUMED to be `DELETE FROM Task WHERE taskSubjectId = :subjectId`. */
    method DeleteTasksBySubjectId(subjectId: int)
      requires Valid()
      modifies this
      ensures Valid() && nextId == old(nextId)
      ensures rows == DeleteTasksOf(old(rows), subjectId)
      ensures forall i :: 0 <= i < |rows| ==> rows[i].taskSubjectId != subjectId
      ensures forall i :: 0 <= i < |old(rows)| && old(rows)[i].taskSubjectId != subjectId ==> old(rows)[i] in rows
    {
      WhereKeyed(rows, TaskKey, TaskNotOfSubject(subjectId));
      rows := Where(rows, TaskNotOfSubject(subjectId));
    }
  }

  /** The task table after `deleteTasksBySubjectId` (assumed). */
  function DeleteTasksOf(rows: seq<Task>, subjectId: int): seq<Task> {
    Where(rows, TaskNotOfSubject(subjectId))
  }

  /** The subject table after `deleteSubject`. */
  function DeleteSubjectRow(rows: seq<Subject>, subjectId: int): seq<Subject> {
    Where(rows, SubjectIdIsNot(subjectId))
  }
}
