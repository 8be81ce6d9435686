/**
 * The session screen's view model: a local state record updated by the
 * screen's events, a log of emitted snackbar events, and writes to the
 * session table. The state the screen sees is the local state with the
 * subject and session lists taken from the repositories.
 *
 * A repository call that throws is modelled by `failure`: `Some(message)`
 * means the call fails before writing, with `message` as the rendered
 * exception message.
 */
module SessionViewModel {
  import opened Nullable
  import opened Entities
  import opened Table
  import opened Common
  import opened Dao
  import opened SubjectRepository

  /** The screen state (its defaults: empty lists and nulls). */
  datatype SessionState = SessionState(
    subjects: seq<Subject>,
    sessions: seq<Session>,
    relatedToSubject: Option<string>,
    subjectId: Option<int>,
    session: Option<Session>)

  const InitialState: SessionState := SessionState([], [], None, None, None)

  datatype SessionEvent =
    | OnRelatedSubjectChange(subject: Subject)
    | SaveSession(duration: int)
    | OnDeleteSessionButtonClick(session: Session)
    | DeleteSession
    | NotifyToUpdateSubject
    | UpdateSubjectIdAndRelatedSubject(newSubjectId: Option<int>, newRelatedToSubject: Option<string>)

  const SelectSubjectMessage := "请选择要学习的科目。"
  const TooShortMessage := "单次时长不能少于36秒。"
  const SavedMessage := "记录保存成功。"
  const SaveFailedMessage := "未能保存记录。"
  const DeletedMessage := "记录删除成功。"
  const DeleteFailedMessage := "未能删除记录。"

  /** The shortest session that is saved, in seconds. */
  const MinimumSessionSeconds := 36

  /** The `combine` lambda: the local state with both lists replaced by the latest repository values. */
  function Combined(local: SessionState, subjects: seq<Subject>, sessions: seq<Session>): SessionState {
    local.(subjects := subjects, sessions := sessions)
  }

  /** The combined state depends on the local state only through its three own fields. */
  lemma CombinedIgnoresLocalLists(a: SessionState, b: SessionState, subjects: seq<Subject>, sessions: seq<Session>)
    requires a.relatedToSubject == b.relatedToSubject && a.subjectId == b.subjectId && a.session == b.session
    ensures Combined(a, subjects, sessions) == Combined(b, subjects, sessions)
  {
  }

  /** Combining twice keeps only the latest lists. */
  lemma CombinedLatestWins(local: SessionState, s1: seq<Subject>, t1: seq<Session>, s2: seq<Subject>, t2: seq<Session>)
    ensures Combined(Combined(local, s1, t1), s2, t2) == Combined(local, s2, t2)
    ensures Combined(local, s2, t2).subjects == s2 && Combined(local, s2, t2).sessions == t2
  {
  }

  /** The `_state.update` branches of `onEvent`; the other events leave the local state alone. */
  function Reduce(local: SessionState, e: SessionEvent): SessionState {
    match e
    case OnDeleteSessionButtonClick(session) => local.(session := Some(session))
    case OnRelatedSubjectChange(subject) =>
      local.(relatedToSubject := Some(subject.name), subjectId := subject.subjectId)
    case UpdateSubjectIdAndRelatedSubject(id, name) => local.(relatedToSubject := name, subjectId := id)
    case _ => local
  }

  /** Each update changes only its own fields; every other event changes nothing. */
  lemma ReduceChangesOnlyItsFields(local: SessionState, e: SessionEvent)
    ensures var r := Reduce(local, e);
      r.subjects == local.subjects && r.sessions == local.sessions
    ensures e.OnDeleteSessionButtonClick? ==>
      var r := Reduce(local, e);
      r.session == Some(e.session) && r.subjectId == local.subjectId && r.relatedToSubject == local.relatedToSubject
    ensures e.OnRelatedSubjectChange? || e.UpdateSubjectIdAndRelatedSubject? ==>
      Reduce(local, e).session == local.session
    ensures e.OnRelatedSubjectChange? ==>
      Reduce(local, e).subjectId == e.subject.subjectId && Reduce(local, e).relatedToSubject == Some(e.subject.name)
    ensures e.UpdateSubjectIdAndRelatedSubject? ==>
      Reduce(local, e).subjectId == e.newSubjectId && Reduce(local, e).relatedToSubject == e.newRelatedToSubject
    ensures e.SaveSession? || e.DeleteSession? || e.NotifyToUpdateSubject? ==> Reduce(local, e) == local
  {
  }

  /** Whether the screen still lacks a chosen subject. */
  predicate LacksSubject(s: SessionState) {
    s.subjectId.None? || s.relatedToSubject.None?
  }

  /** The row `insertSession` writes: the chosen subject (or -1 and ""), the clock reading and the duration. */
  function NewSession(s: SessionState, now: int, duration: int): (r: Session)
    ensures r.sessionId.None? && r.date == now && r.duration == duration
    ensures s.subjectId.Some? ==> r.sessionSubjectId == s.subjectId.value
    ensures s.subjectId.None? ==> r.sessionSubjectId == -1
    ensures s.relatedToSubject.Some? ==> r.relatedToSubject == s.relatedToSubject.value
    ensures s.relatedToSubject.None? ==> r.relatedToSubject == ""
  {
    Session(s.subjectId.GetOr(-1), s.relatedToSubject.GetOr(""), now, duration, None)
  }

  class SessionViewModel {
    const subjectRepository: SubjectRepositoryImpl
    /** The session repository's table; the app has one session DAO, shared by both repositories. */
    const sessionDao: SessionDao
    var local: SessionState
    var events: seq<SnackbarEvent>

    ghost predicate Valid()
      reads this, subjectRepository, subjectRepository.subjectDao, subjectRepository.taskDao,
        subjectRepository.sessionDao
    {
      subjectRepository.Valid() && sessionDao == subjectRepository.sessionDao
    }

    /** `state.value`: what the screen and the actions read. */
    function State(): SessionState
      reads this, subjectRepository, subjectRepository.subjectDao, sessionDao
    {
      Combined(local, subjectRepository.GetAllSubjects(), sessionDao.GetAllSessions())
    }

    constructor (subjectRepository: SubjectRepositoryImpl, sessionDao: SessionDao)
      ensures this.subjectRepository == subjectRepository && this.sessionDao == sessionDao
      ensures local == InitialState && events == []
    {
      this.subjectRepository := subjectRepository;
      this.sessionDao := sessionDao;
      local := InitialState;
      events := [];
    }

    method OnEvent(e: SessionEvent, now: int, failure: Option<string>)
      requires Valid()
      modifies this, sessionDao
      ensures Valid()
      ensures local == Reduce(old(local), e)
      ensures !(e.SaveSession? || e.DeleteSession? || e.NotifyToUpdateSubject?) ==>
        events == old(events) && sessionDao.rows == old(sessionDao.rows)
      ensures e.NotifyToUpdateSubject? ==>
        sessionDao.rows == old(sessionDao.rows)
        && events == old(events) + (if LacksSubject(old(State())) then [Notice(SelectSubjectMessage)] else [])
      ensures e.DeleteSession? ==> DeleteSessionOutcome(old(State()), old(sessionDao.rows), old(events), failure)
      ensures e.SaveSession? ==> SaveSessionOutcome(old(State()), old(sessionDao.rows), old(sessionDao.nextId),
        old(events), e.duration, now, failure)
    {
      match e {
        case NotifyToUpdateSubject => NotifyToUpdateSubjectAction();
        case DeleteSession => DeleteSessionAction(failure);
        case SaveSession(duration) => InsertSession(duration, now, failure);
        case _ => local := Reduce(local, e);
      }
    }

    /** What `deleteSession` leaves behind, given the state, table and log it started from. */
    ghost predicate DeleteSessionOutcome(s: SessionState, rows0: seq<Session>, events0: seq<SnackbarEvent>,
                                         failure: Option<string>)
      reads this, sessionDao
    {
      && (s.session.None? ==> sessionDao.rows == rows0 && events == events0)
      && (s.session.Some? && failure.None? ==>
            sessionDao.rows == Where(rows0, SessionIdIsNot(s.session.value.sessionId))
            && events == events0 + [Notice(DeletedMessage)])
      && (s.session.Some? && failure.Some? ==>
            sessionDao.rows == rows0 && events == events0 + [FailureNotice(DeleteFailedMessage, failure.value)])
    }

    /** What `insertSession` leaves behind. */
    ghost predicate SaveSessionOutcome(s: SessionState, rows0: seq<Session>, nextId0: int,
                                       events0: seq<SnackbarEvent>, duration: int, now: int, failure: Option<string>)
      reads this, sessionDao
    {
      && (duration < MinimumSessionSeconds ==>
            sessionDao.rows == rows0 && events == events0 + [Notice(TooShortMessage)])
      && (duration >= MinimumSessionSeconds && failure.None? ==>
            sessionDao.rows == rows0 + [NewSession(s, now, duration).(sessionId := Some(nextId0))]
            && events == events0 + [Notice(SavedMessage)])
      && (duration >= MinimumSessionSeconds && failure.Some? ==>
            sessionDao.rows == rows0 && events == events0 + [FailureNotice(SaveFailedMessage, failure.value)])
    }

    method NotifyToUpdateSubjectAction()
      requires Valid()
      modifies this
      ensures Valid() && local == old(local)
      ensures events == old(events) + (if LacksSubject(State()) then [Notice(SelectSubjectMessage)] else [])
    {
      if State().subjectId.None? || State().relatedToSubject.None? {
        events := events + [Notice(SelectSubjectMessage)];
      }
    }

    method DeleteSessionAction(failure: Option<string>)
      requires Valid()
      modifies this, sessionDao
      ensures Valid() && local == old(local)
      ensures DeleteSessionOutcome(old(State()), old(sessionDao.rows), old(events), failure)
    {
      var session := State().session;
      if session.Some? {
        if failure.Some? {
          events := events + [FailureNotice(DeleteFailedMessage, failure.value)];
        } else {
          sessionDao.DeleteSession(session.value);
          events := events + [Notice(DeletedMessage)];
        }
      }
    }

    method InsertSession(duration: int, now: int, failure: Option<string>)
      requires Valid()
      modifies this, sessionDao
      ensures Valid() && local == old(local)
      ensures SaveSessionOutcome(old(State()), old(sessionDao.rows), old(sessionDao.nextId), old(events),
        duration, now, failure)
      ensures duration >= MinimumSessionSeconds && failure.None? ==>
        sessionDao.GetTotalSessionsDuration() == old(sessionDao.GetTotalSessionsDuration()) + duration
      ensures duration < MinimumSessionSeconds || failure.Some? ==>
        sessionDao.GetTotalSessionsDuration() == old(sessionDao.GetTotalSessionsDuration())
    {
      if duration < MinimumSessionSeconds {
        events := events + [Notice(TooShortMessage)];
        return;
      }
      if failure.Some? {
        events := events + [FailureNotice(SaveFailedMessage, failure.value)];
      } else {
        var session := NewSession(State(), now, duration);
        var _ := sessionDao.InsertSession(session);
        events := events + [Notice(SavedMessage)];
      }
    }
  }
}
