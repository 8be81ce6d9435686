/**
 * The subject repository: it delegates to the subject DAO, and deletes a
 * subject by first deleting its tasks, then its sessions, then the subject
 * row, since the tables carry no foreign-key cascade.
 */
module SubjectRepository {
  import opened Nullable
  import opened Entities
  import opened Table
  import opened Dao

  /** The content of the three tables. */
  datatype Tables = Tables(subjects: seq<Subject>, tasks: seq<Task>, sessions: seq<Session>)

  /** The tables after the first `steps` of the cascade: 1 = tasks, 2 = then sessions, 3 = then the subject. */
  function CascadeSteps(t: Tables, subjectId: int, steps: nat): Tables {
    var afterTasks := if steps >= 1 then t.(tasks := DeleteTasksOf(t.tasks, subjectId)) else t;
    var afterSessions :=
      if steps >= 2 then afterTasks.(sessions := DeleteSessionsOf(afterTasks.sessions, subjectId)) else afterTasks;
    if steps >= 3 then afterSessions.(subjects := DeleteSubjectRow(afterSessions.subjects, subjectId))
    else afterSessions
  }

  /**
   * `deleteSubject(id)` as a whole: nothing references `id` afterwards and
   * every row of another subject is kept.
   */
  function CascadeDelete(t: Tables, subjectId: int): (r: Tables)
    ensures forall i :: 0 <= i < |r.tasks| ==> r.tasks[i].taskSubjectId != subjectId
    ensures forall i :: 0 <= i < |r.sessions| ==> r.sessions[i].sessionSubjectId != subjectId
    ensures forall i :: 0 <= i < |r.subjects| ==> r.subjects[i].subjectId != Some(subjectId)
    ensures forall i :: 0 <= i < |t.tasks| && t.tasks[i].taskSubjectId != subjectId ==> t.tasks[i] in r.tasks
    ensures forall i :: 0 <= i < |t.sessions| && t.sessions[i].sessionSubjectId != subjectId ==>
      t.sessions[i] in r.sessions
    ensures forall i :: 0 <= i < |t.subjects| && t.subjects[i].subjectId != Some(subjectId) ==>
      t.subjects[i] in r.subjects
  {
    CascadeSteps(t, subjectId, 3)
  }

  /** Deleting a subject a second time changes nothing. */
  lemma CascadeIdempotent(t: Tables, subjectId: int)
    ensures CascadeDelete(CascadeDelete(t, subjectId), subjectId) == CascadeDelete(t, subjectId)
  {
    WhereIdempotent(t.tasks, TaskNotOfSubject(subjectId));
    WhereIdempotent(t.sessions, SessionNotOfSubject(subjectId));
    WhereIdempotent(t.subjects, SubjectIdIsNot(subjectId));
  }

  /**
   * If a delete stops after any number of its steps, re-issuing it ends
   * where one uninterrupted delete would have.
   */
  lemma RetryAfterInterruptedDelete(t: Tables, subjectId: int, steps: nat)
    ensures CascadeDelete(CascadeSteps(t, subjectId, steps), subjectId) == CascadeDelete(t, subjectId)
  {
    WhereIdempotent(t.tasks, TaskNotOfSubject(subjectId));
    WhereIdempotent(t.sessions, SessionNotOfSubject(subjectId));
    WhereIdempotent(t.subjects, SubjectIdIsNot(subjectId));
  }

  /** Referential integrity: every task and every session names a stored subject. */
  ghost predicate NoOrphans(t: Tables) {
    && (forall i :: 0 <= i < |t.tasks| ==> Find(t.subjects, SubjectKey, t.tasks[i].taskSubjectId).Some?)
    && (forall i :: 0 <= i < |t.sessions| ==> Find(t.subjects, SubjectKey, t.sessions[i].sessionSubjectId).Some?)
  }

  /** The cascade keeps referential integrity. */
  lemma CascadeKeepsIntegrity(t: Tables, subjectId: int)
    requires Keyed(t.subjects, SubjectKey) && NoOrphans(t)
    ensures NoOrphans(CascadeDelete(t, subjectId))
  {
    var r := CascadeDelete(t, subjectId);
    forall other | other != subjectId
      ensures Find(r.subjects, SubjectKey, other) == Find(t.subjects, SubjectKey, other)
    {
      WhereFind(t.subjects, SubjectKey, SubjectIdIsNot(subjectId), other);
    }
    forall i | 0 <= i < |r.tasks| ensures Find(r.subjects, SubjectKey, r.tasks[i].taskSubjectId).Some? {
      var k :| 0 <= k < |t.tasks| && t.tasks[k] == r.tasks[i];
    }
    forall i | 0 <= i < |r.sessions| ensures Find(r.subjects, SubjectKey, r.sessions[i].sessionSubjectId).Some? {
      var k :| 0 <= k < |t.sessions| && t.sessions[k] == r.sessions[i];
    }
  }

  /** Deleting the subject row alone, without the first two steps, can leave orphans. */
  lemma SubjectRowAloneLeavesOrphans()
    ensures var s := Subject("数学", KotlinStdlib.Finite(10.0), [], Some(1));
            var t := Tables([s], [], [Session(1, "数学", 0, 60, Some(1))]);
            NoOrphans(t) && !NoOrphans(t.(subjects := DeleteSubjectRow(t.subjects, 1)))
  {
    var s := Subject("数学", KotlinStdlib.Finite(10.0), [], Some(1));
    var t := Tables([s], [], [Session(1, "数学", 0, 60, Some(1))]);
    assert Find([s], SubjectKey, 1) == Some(s);
    assert NoOrphans(t);
    var rest := DeleteSubjectRow(t.subjects, 1);
    assert !SubjectIdIsNot(1)(s);
    assert Find(rest, SubjectKey, 1) == None;
    var after := t.(subjects := rest);
    assert after.sessions[0].sessionSubjectId == 1;
    assert !NoOrphans(after);
  }

  class SubjectRepositoryImpl {
    const subjectDao: SubjectDao
    const taskDao: TaskDao
    const sessionDao: SessionDao

    ghost predicate Valid()
      reads this, subjectDao, taskDao, sessionDao
    {
      subjectDao.Valid() && taskDao.Valid() && sessionDao.Valid()
    }

    /** The three tables as one value. */
    function Contents(): Tables
      reads this, subjectDao, taskDao, sessionDao
    {
      Tables(subjectDao.rows, taskDao.rows, sessionDao.rows)
    }

    constructor (subjectDao: SubjectDao, taskDao: TaskDao, sessionDao: SessionDao)
      ensures this.subjectDao == subjectDao && this.taskDao == taskDao && this.sessionDao == sessionDao
    {
      this.subjectDao := subjectDao;
      this.taskDao := taskDao;
      this.sessionDao := sessionDao;
    }

    method UpsertSubject(subject: Subject)
      requires Valid()
      modifies subjectDao
      ensures Valid()
      ensures subject.subjectId.None? ==>
        subjectDao.rows == old(subjectDao.rows) + [subject.(subjectId := Some(old(subjectDao.nextId)))]
      ensures subject.subjectId.Some? ==> subjectDao.rows == Upsert(old(subjectDao.rows), SubjectKey, subject)
      ensures subject.subjectId.Some? ==> subjectDao.GetSubjectById(subject.subjectId.value) == Some(subject)
      ensures subject.subjectId.Some? ==>
        forall id :: id != subject.subjectId.value ==> GetSubjectById(id) == old(GetSubjectById(id))
    {
      subjectDao.UpsertSubject(subject);
    }

    function GetTotalSubjectCount(): (n: int)
      reads this, subjectDao
      ensures n == |GetAllSubjects()|
    {
      subjectDao.GetTotalSubjectCount()
    }

    function GetSubjectById(subjectId: int): (r: Option<Subject>)
      reads this, subjectDao
      ensures r.Some? ==> r.value in subjectDao.rows && r.value.subjectId == Some(subjectId)
      ensures r.None? ==> forall i :: 0 <= i < |subjectDao.rows| ==> subjectDao.rows[i].subjectId != Some(subjectId)
    {
      subjectDao.GetSubjectById(subjectId)
    }

    function GetAllSubjects(): seq<Subject>
      reads this, subjectDao
    {
      subjectDao.GetAllSubjects()
    }

    /** Tasks, then sessions, then the subject row. */
    method DeleteSubject(subjectId: int)
      requires Valid()
      modifies subjectDao, taskDao, sessionDao
      ensures Valid()
      ensures Contents() == CascadeDelete(old(Contents()), subjectId)
      ensures GetSubjectById(subjectId) == None
      ensures subjectDao.nextId == old(subjectDao.nextId) && taskDao.nextId == old(taskDao.nextId)
        && sessionDao.nextId == old(sessionDao.nextId)
    {
      taskDao.DeleteTasksBySubjectId(subjectId);
      sessionDao.DeleteSessionsBySubjectId(subjectId);
      subjectDao.DeleteSubject(subjectId);
    }
  }
}
