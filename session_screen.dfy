/**
 * The session screen's rules: what its Start, Cancel and Finish buttons do,
 * when they are enabled, the Start button's label, the subject picker's
 * enabled rule, and the effect that hands the timer's subject to the view
 * model when the subject list changes.
 *
 * A click is described by the list of effects it has, in order: an intent
 * sent to the timer service, an assignment of the service's `subjectId`,
 * or an event raised to the view model. The methods at the end carry the
 * rules out on the service and view-model objects.
 */
module SessionScreen {
  import opened Nullable
  import opened Entities
  import opened TimerService
  import opened SessionViewModel

  datatype ScreenEffect =
    | SendAction(action: ServiceAction)
    | SetTimerSubjectId(subjectId: Option<int>)
    | Raise(event: SessionEvent)

  const StopLabel := "停止"
  const ResumeLabel := "继续"
  const BeginLabel := "开始"

  /** The Start button's text. */
  function StartButtonLabel(state: TimerState): string {
    match state
    case STARTED => StopLabel
    case STOPPED => ResumeLabel
    case IDLE => BeginLabel
  }

  /** Each state has its own label. */
  lemma StartButtonLabelInjective(a: TimerState, b: TimerState)
    requires StartButtonLabel(a) == StartButtonLabel(b)
    ensures a == b
  {
    assert StopLabel[0] != ResumeLabel[0] && ResumeLabel[0] != BeginLabel[0] && StopLabel[0] != BeginLabel[0];
  }

  /** Cancel and Finish share one rule: some seconds shown and the timer not running. */
  predicate EndButtonsEnabled(seconds: string, state: TimerState) {
    seconds != "00" && state != STARTED
  }

  /** The subject picker is enabled only while the seconds read "00". */
  predicate SubjectPickerEnabled(seconds: string) {
    seconds == "00"
  }

  /**
   * In terms of the duration: Cancel and Finish are disabled at every whole
   * minute (60 s, 120 s, ...) even though time has been recorded, and the
   * picker is enabled again at every whole minute.
   */
  lemma ButtonRulesOnDuration(d: nat, state: TimerState)
    ensures EndButtonsEnabled(SecondsText(d), state) <==> d % 60 != 0 && state != STARTED
    ensures SubjectPickerEnabled(SecondsText(d)) <==> d % 60 == 0
  {
    SecondsZeroIffWholeMinute(d);
  }

  function StartButtonClick(s: SessionState, state: TimerState): seq<ScreenEffect> {
    if s.subjectId.Some? && s.relatedToSubject.Some? then
      [SendAction(if state == STARTED then ActionServiceStop else ActionServiceStart), SetTimerSubjectId(s.subjectId)]
    else
      [Raise(NotifyToUpdateSubject)]
  }

  function CancelButtonClick(): seq<ScreenEffect> {
    [SendAction(ActionServiceCancel)]
  }

  /** `duration` is the service's duration in whole seconds. */
  function FinishButtonClick(duration: nat): seq<ScreenEffect> {
    (if duration >= MinimumSessionSeconds then [SendAction(ActionServiceCancel)] else []) + [Raise(SaveSession(duration))]
  }

  /** The intents among the effects, in order. */
  function SentActions(effects: seq<ScreenEffect>): (r: seq<ServiceAction>)
    ensures |r| <= |effects|
    ensures forall i :: 0 <= i < |r| ==> SendAction(r[i]) in effects
    ensures forall i :: 0 <= i < |effects| && effects[i].SendAction? ==> effects[i].action in r
    ensures r == [] <==> forall i :: 0 <= i < |effects| ==> !effects[i].SendAction?
  {
    if |effects| == 0 then []
    else (if effects[0].SendAction? then [effects[0].action] else []) + SentActions(effects[1..])
  }

  /** The intents of two effect lists sent one after the other are those of the first, then those of the second. */
  lemma {:induction false} SentActionsAppend(a: seq<ScreenEffect>, b: seq<ScreenEffect>)
    ensures SentActions(a + b) == SentActions(a) + SentActions(b)
    decreases |a|
  {
    if |a| > 0 {
      assert (a + b)[1..] == a[1..] + b;
      SentActionsAppend(a[1..], b);
    } else {
      assert a + b == b;
    }
  }

  /** The service after one effect: an intent is handled, anything else does not reach the service. */
  function Apply(m: Timer, e: ScreenEffect): Timer {
    if e.SendAction? then Step(m, Command(Some(e.action))) else m
  }

  /** The service after it has received the intents among the effects, in order. */
  function ServiceAfter(m: Timer, effects: seq<ScreenEffect>): Timer
    decreases |effects|
  {
    if |effects| == 0 then m else ServiceAfter(Apply(m, effects[0]), effects[1..])
  }

  lemma ServiceAfterOne(m: Timer, a: ScreenEffect)
    ensures ServiceAfter(m, [a]) == Apply(m, a)
  {
    assert [a][1..] == [];
  }

  lemma ServiceAfterTwo(m: Timer, a: ScreenEffect, b: ScreenEffect)
    ensures ServiceAfter(m, [a, b]) == Apply(Apply(m, a), b)
  {
    assert [a, b][1..] == [b];
    ServiceAfterOne(Apply(m, a), b);
  }

  /**
   * Start sends one intent, STOP when running and START otherwise, and then
   * copies the subject id into the service, exactly when a subject is
   * chosen; otherwise it sends nothing and raises `NotifyToUpdateSubject`.
   */
  lemma StartButtonRule(s: SessionState, state: TimerState)
    ensures !LacksSubject(s) ==>
      SentActions(StartButtonClick(s, state)) == [if state == STARTED then ActionServiceStop else ActionServiceStart]
    ensures LacksSubject(s) ==> SentActions(StartButtonClick(s, state)) == []
    ensures Raise(NotifyToUpdateSubject) in StartButtonClick(s, state) <==> LacksSubject(s)
    ensures SetTimerSubjectId(s.subjectId) in StartButtonClick(s, state) <==> !LacksSubject(s)
  {
    var e := StartButtonClick(s, state);
    if !LacksSubject(s) {
      assert e[1..][1..] == [];
    } else {
      assert e[1..] == [];
    }
  }

  /** The label says what Start will do: "停止" exactly when it sends STOP. */
  lemma StartLabelMatchesAction(s: SessionState, state: TimerState)
    requires !LacksSubject(s)
    ensures StartButtonLabel(state) == StopLabel <==> SentActions(StartButtonClick(s, state)) == [ActionServiceStop]
  {
    StartButtonRule(s, state);
    if StartButtonLabel(state) == StopLabel {
      StartButtonLabelInjective(state, STARTED);
    }
  }

  /** Finish sends CANCEL iff at least 36 seconds were counted, and always raises `SaveSession` last. */
  lemma FinishButtonRule(d: nat)
    ensures ActionServiceCancel in SentActions(FinishButtonClick(d)) <==> d >= MinimumSessionSeconds
    ensures |SentActions(FinishButtonClick(d))| <= 1
    ensures var e := FinishButtonClick(d); |e| >= 1 && e[|e| - 1] == Raise(SaveSession(d))
  {
    var e := FinishButtonClick(d);
    if d >= MinimumSessionSeconds {
      assert e[1..] == [Raise(SaveSession(d))];
      assert e[1..][1..] == [];
    } else {
      assert e[1..] == [];
    }
  }

  /** Cancel always sends CANCEL, and nothing else. */
  lemma CancelButtonRule()
    ensures SentActions(CancelButtonClick()) == [ActionServiceCancel]
  {
    assert CancelButtonClick()[1..] == [];
  }

  /**
   * The buttons never send START to a running service, so clicking them
   * keeps a single live schedule.
   */
  lemma ClicksKeepSingleSchedule(m: Timer, s: SessionState)
    requires Valid(m) && SingleSchedule(m)
    ensures SingleSchedule(ServiceAfter(m, StartButtonClick(s, m.state)))
    ensures SingleSchedule(ServiceAfter(m, CancelButtonClick()))
    ensures SingleSchedule(ServiceAfter(m, FinishButtonClick(m.duration)))
  {
    var cancel := Command(Some(ActionServiceCancel));
    if !LacksSubject(s) {
      var a := if m.state == STARTED then ActionServiceStop else ActionServiceStart;
      StepKeepsSingleSchedule(m, Command(Some(a)));
      ServiceAfterTwo(m, SendAction(a), SetTimerSubjectId(s.subjectId));
    } else {
      ServiceAfterOne(m, Raise(NotifyToUpdateSubject));
    }
    StepKeepsSingleSchedule(m, cancel);
    ServiceAfterOne(m, SendAction(ActionServiceCancel));
    FinishOnService(m);
  }

  /** Finish reaches the service as one CANCEL at 36 seconds or more, and not at all below. */
  lemma FinishOnService(m: Timer)
    ensures m.duration >= MinimumSessionSeconds ==>
      ServiceAfter(m, FinishButtonClick(m.duration)) == Step(m, Command(Some(ActionServiceCancel)))
    ensures m.duration < MinimumSessionSeconds ==> ServiceAfter(m, FinishButtonClick(m.duration)) == m
  {
    var save := Raise(SaveSession(m.duration));
    if m.duration >= MinimumSessionSeconds {
      assert FinishButtonClick(m.duration) == [SendAction(ActionServiceCancel), save];
      ServiceAfterTwo(m, SendAction(ActionServiceCancel), save);
    } else {
      assert FinishButtonClick(m.duration) == [save];
      ServiceAfterOne(m, save);
    }
  }

  /**
   * Finish at 36 seconds or more resets the timer to IDLE and zero, whatever
   * then happens to the save; below that it leaves the timer untouched.
   */
  lemma FinishResetsTimer(m: Timer)
    ensures m.duration >= MinimumSessionSeconds ==>
      var r := ServiceAfter(m, FinishButtonClick(m.duration)); r.state == IDLE && r.duration == 0
    ensures m.duration < MinimumSessionSeconds ==> ServiceAfter(m, FinishButtonClick(m.duration)) == m
  {
    FinishOnService(m);
    CancelResets(m);
  }

  /** `find { it.subjectId == subjectId }?.name`: the name of the first subject with that id. */
  function FirstNameWithId(subjects: seq<Subject>, subjectId: Option<int>): (r: Option<string>)
    ensures r.Some? ==>
      exists i :: 0 <= i < |subjects| && subjects[i].subjectId == subjectId && subjects[i].name == r.value
        && forall j :: 0 <= j < i ==> subjects[j].subjectId != subjectId
    ensures r.None? ==> forall i :: 0 <= i < |subjects| ==> subjects[i].subjectId != subjectId
  {
    if |subjects| == 0 then None
    else if subjects[0].subjectId == subjectId then Some(subjects[0].name)
    else
      var rest := FirstNameWithId(subjects[1..], subjectId);
      assert rest.Some? ==>
        exists i :: 1 <= i < |subjects| && subjects[i].subjectId == subjectId && subjects[i].name == rest.value
          && forall j :: 1 <= j < i ==> subjects[j].subjectId != subjectId
      by {
        if rest.Some? {
          var i :| 0 <= i < |subjects[1..]| && subjects[1..][i].subjectId == subjectId
            && subjects[1..][i].name == rest.value
            && forall j :: 0 <= j < i ==> subjects[1..][j].subjectId != subjectId;
          assert forall j :: 1 <= j < i + 1 ==> subjects[j] == subjects[1..][j - 1];
        }
      }
      rest
  }

  /** The event the subject-list effect raises: the timer's subject id and the matching name. */
  function SubjectSync(subjects: seq<Subject>, timerSubjectId: Option<int>): SessionEvent {
    UpdateSubjectIdAndRelatedSubject(timerSubjectId, FirstNameWithId(subjects, timerSubjectId))
  }

  /** After the sync the view model's subject is the timer's, named iff some listed subject has that id. */
  lemma SubjectSyncRule(local: SessionState, subjects: seq<Subject>, timerSubjectId: Option<int>)
    ensures Reduce(local, SubjectSync(subjects, timerSubjectId)).subjectId == timerSubjectId
    ensures Reduce(local, SubjectSync(subjects, timerSubjectId)).relatedToSubject.Some? <==>
      exists i :: 0 <= i < |subjects| && subjects[i].subjectId == timerSubjectId
  {
  }

  method StartButtonClicked(vm: SessionViewModel, service: StudySessionTimerService, now: int)
    requires vm.Valid()
    modifies vm, vm.sessionDao, service
    ensures vm.Valid()
    ensures service.Model() == ServiceAfter(old(service.Model()), StartButtonClick(old(vm.State()), old(service.currentTimerState)))
    ensures !LacksSubject(old(vm.State())) ==>
      service.subjectId == old(vm.State()).subjectId && vm.events == old(vm.events)
    ensures LacksSubject(old(vm.State())) ==>
      service.subjectId == old(service.subjectId) && vm.events == old(vm.events) + [Common.Notice(SelectSubjectMessage)]
    ensures vm.local == old(vm.local) && vm.sessionDao.rows == old(vm.sessionDao.rows)
  {
    var s := vm.State();
    if s.subjectId.Some? && s.relatedToSubject.Some? {
      var action := if service.currentTimerState == STARTED then ActionServiceStop else ActionServiceStart;
      ServiceAfterTwo(service.Model(), SendAction(action), SetTimerSubjectId(s.subjectId));
      service.OnStartCommand(Some(action));
      service.subjectId := s.subjectId;
    } else {
      ServiceAfterOne(service.Model(), Raise(NotifyToUpdateSubject));
      vm.OnEvent(NotifyToUpdateSubject, now, None);
    }
  }

  method CancelButtonClicked(service: StudySessionTimerService)
    modifies service
    ensures service.Model() == ServiceAfter(old(service.Model()), CancelButtonClick())
    ensures service.subjectId == old(service.subjectId)
  {
    ServiceAfterOne(service.Model(), SendAction(ActionServiceCancel));
    service.OnStartCommand(Some(ActionServiceCancel));
  }

  /** The timer is reset before the save runs, so a failing save loses the counted time. */
  method FinishButtonClicked(vm: SessionViewModel, service: StudySessionTimerService, now: int,
                             failure: Option<string>)
    requires vm.Valid()
    modifies vm, vm.sessionDao, service
    ensures vm.Valid() && vm.local == old(vm.local)
    ensures service.Model() == ServiceAfter(old(service.Model()), FinishButtonClick(old(service.duration)))
    ensures vm.SaveSessionOutcome(old(vm.State()), old(vm.sessionDao.rows), old(vm.sessionDao.nextId),
      old(vm.events), old(service.duration), now, failure)
  {
    var duration := service.duration;
    FinishOnService(service.Model());
    if duration >= MinimumSessionSeconds {
      service.OnStartCommand(Some(ActionServiceCancel));
    }
    vm.OnEvent(SaveSession(duration), now, failure);
  }

  /** The `LaunchedEffect(state.subjects)` body. */
  method SubjectsChanged(vm: SessionViewModel, service: StudySessionTimerService)
    requires vm.Valid()
    modifies vm, vm.sessionDao
    ensures vm.Valid() && vm.events == old(vm.events) && vm.sessionDao.rows == old(vm.sessionDao.rows)
    ensures vm.local == Reduce(old(vm.local), SubjectSync(old(vm.State()).subjects, service.subjectId))
  {
    vm.OnEvent(SubjectSync(vm.State().subjects, service.subjectId), 0, None);
  }
}
