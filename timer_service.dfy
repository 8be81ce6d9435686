/**
 * The study-session timer service. It holds a state (IDLE, STARTED,
 * STOPPED), a whole-second duration and the zero-padded hour, minute and
 * second strings shown in its notification; commands come in as service
 * intents and a fixed-rate schedule adds one second per tick.
 *
 * Each schedule the service creates is an identity (a natural number).
 * `timer` is the most recently created one (the `lateinit` field, `None`
 * before the first start) and `live` holds those created and not yet
 * cancelled; every live schedule ticks, whatever the current state.
 */
module TimerService {
  import opened Nullable
  import opened KotlinStdlib
  import opened Common

  datatype TimerState = IDLE | STARTED | STOPPED

  /** The intent action the service receives. */
  datatype ServiceAction =
    | ActionServiceStart
    | ActionServiceStop
    | ActionServiceCancel
    | OtherAction(name: string)

  /** What can happen to the service: an intent (its action may be null) or one tick of a schedule. */
  datatype Input = Command(action: Option<ServiceAction>) | Tick(schedule: nat)

  /** The fields of the service, as one value. */
  datatype Timer = Timer(
    state: TimerState,
    duration: nat,
    hours: string,
    minutes: string,
    seconds: string,
    timer: Option<nat>,
    live: set<nat>,
    nextSchedule: nat)

  const Initial: Timer := Timer(IDLE, 0, "00", "00", "00", None, {}, 0)

  /** `Duration.toComponents`: whole hours, then minutes and seconds within the hour and minute. */
  function Components(d: nat): (nat, nat, nat) {
    (d / 3600, (d / 60) % 60, d % 60)
  }

  /** The components recombine to the duration, minutes and seconds below 60. */
  lemma ComponentsRecombine(d: nat)
    ensures var (h, m, s) := Components(d); h * 3600 + m * 60 + s == d && m < 60 && s < 60
  {
    var q := d / 60;
    assert d == q * 60 + d % 60;
    assert q == (q / 60) * 60 + q % 60;
    assert d / 3600 == q / 60;
  }

  /** The three strings `updateTimeUnits` computes from a duration (hours go through `Long.toInt()`). */
  function HoursText(d: nat): string { Pad(LongToInt(Components(d).0)) }
  function MinutesText(d: nat): string { Pad(Components(d).1) }
  function SecondsText(d: nat): string { Pad(Components(d).2) }

  /** `updateTimeUnits`. */
  function WithTimeUnits(m: Timer): Timer {
    m.(hours := HoursText(m.duration), minutes := MinutesText(m.duration), seconds := SecondsText(m.duration))
  }

  /** `startTimer`: STARTED, and a new schedule stored in `timer`; the previous one is not cancelled. */
  function Started(m: Timer): Timer {
    m.(state := STARTED, timer := Some(m.nextSchedule), live := m.live + {m.nextSchedule},
       nextSchedule := m.nextSchedule + 1)
  }

  /** `stopTimer`: cancels `timer` if one was ever created, and is STOPPED in every case. */
  function Stopped(m: Timer): Timer {
    m.(state := STOPPED, live := if m.timer.Some? then m.live - {m.timer.value} else m.live)
  }

  /** `cancelTimer`: duration back to zero, strings recomputed, IDLE. */
  function Cancelled(m: Timer): Timer {
    WithTimeUnits(m.(duration := 0)).(state := IDLE)
  }

  /** `onStartCommand`: dispatch on the intent's action. */
  function Dispatch(m: Timer, action: Option<ServiceAction>): Timer {
    match action
    case None => m
    case Some(a) =>
      match a
      case ActionServiceStart => Started(m)
      case ActionServiceStop => Stopped(m)
      case ActionServiceCancel => Cancelled(Stopped(m))
      case OtherAction(_) => m
  }

  /** The body of a schedule's task, which runs only while that schedule is not cancelled. */
  function Ticked(m: Timer, schedule: nat): Timer {
    if schedule in m.live then WithTimeUnits(m.(duration := m.duration + 1)) else m
  }

  function Step(m: Timer, i: Input): Timer {
    match i
    case Command(action) => Dispatch(m, action)
    case Tick(schedule) => Ticked(m, schedule)
  }

  /** The service after a sequence of inputs. */
  function Run(m: Timer, inputs: seq<Input>): Timer
    decreases |inputs|
  {
    if |inputs| == 0 then m else Step(Run(m, inputs[..|inputs| - 1]), inputs[|inputs| - 1])
  }

  /** The strings show the duration. */
  ghost predicate ShowsDuration(m: Timer) {
    m.hours == HoursText(m.duration) && m.minutes == MinutesText(m.duration) && m.seconds == SecondsText(m.duration)
  }

  /** Schedules have distinct identities below `nextSchedule`, and none is live before the first one exists. */
  ghost predicate Valid(m: Timer) {
    && ShowsDuration(m)
    && (forall s :: s in m.live ==> s < m.nextSchedule)
    && (m.timer.Some? ==> m.timer.value < m.nextSchedule)
    && (m.timer.None? ==> forall s :: s !in m.live)
  }

  /**
   * The intended discipline: exactly the current schedule is live while
   * STARTED, and none otherwise.
   */
  ghost predicate SingleSchedule(m: Timer) {
    && (m.state == STARTED ==> m.timer.Some? && m.live == {m.timer.value})
    && (m.state != STARTED ==> m.live == {})
  }

  lemma InitialValid()
    ensures Valid(Initial) && SingleSchedule(Initial)
  {
    assert Components(0) == (0, 0, 0);
  }

  /** START keeps `Valid`: the new schedule takes the next fresh identity. */
  lemma StartKeepsValid(m: Timer)
    requires Valid(m)
    ensures Valid(Started(m))
  {
  }

  /** CANCEL keeps `Valid`: the strings are recomputed from the zero duration. */
  lemma CancelKeepsValid(m: Timer)
    requires Valid(m)
    ensures Valid(Cancelled(Stopped(m)))
  {
  }

  lemma StepKeepsValid(m: Timer, i: Input)
    requires Valid(m)
    ensures Valid(Step(m, i))
  {
    match i
    case Tick(_) =>
    case Command(action) =>
      match action
      case None =>
      case Some(a) =>
        match a
        case ActionServiceStart => StartKeepsValid(m);
        case ActionServiceStop =>
        case ActionServiceCancel => CancelKeepsValid(m);
        case OtherAction(_) =>
  }

  lemma {:induction false} RunKeepsValid(m: Timer, inputs: seq<Input>)
    requires Valid(m)
    ensures Valid(Run(m, inputs))
    decreases |inputs|
  {
    if |inputs| > 0 {
      RunKeepsValid(m, inputs[..|inputs| - 1]);
      StepKeepsValid(Run(m, inputs[..|inputs| - 1]), inputs[|inputs| - 1]);
    }
  }

  /** START is STARTED and keeps the duration, so START after STOP resumes counting. */
  lemma StartResumes(m: Timer)
    ensures Step(m, Command(Some(ActionServiceStart))).state == STARTED
    ensures Step(m, Command(Some(ActionServiceStart))).duration == m.duration
    ensures m.nextSchedule in Step(m, Command(Some(ActionServiceStart))).live
  {
  }

  /** A tick of a live schedule adds one second and shows the new duration; any other tick changes nothing. */
  lemma TickAddsOneSecond(m: Timer, schedule: nat)
    ensures schedule in m.live ==>
      var r := Step(m, Tick(schedule));
      r.duration == m.duration + 1 && ShowsDuration(r) && r.state == m.state && r.live == m.live
    ensures schedule !in m.live ==> Step(m, Tick(schedule)) == m
  {
  }

  /** STOP, from any state including IDLE: STOPPED, same duration, and only `timer` cancelled. */
  lemma StopFromAnyState(m: Timer)
    ensures var r := Step(m, Command(Some(ActionServiceStop)));
      && r.state == STOPPED && r.duration == m.duration
      && r.live == (if m.timer.Some? then m.live - {m.timer.value} else m.live)
  {
  }

  /** CANCEL: IDLE, duration zero, every string "00". */
  lemma CancelResets(m: Timer)
    ensures var r := Step(m, Command(Some(ActionServiceCancel)));
      r.state == IDLE && r.duration == 0 && r.hours == "00" && r.minutes == "00" && r.seconds == "00"
  {
    assert Components(0) == (0, 0, 0);
  }

  /** A null action, or one that is none of the three, changes nothing. */
  lemma OtherActionsIgnored(m: Timer, action: Option<ServiceAction>)
    requires action.None? || action.value.OtherAction?
    ensures Step(m, Command(action)) == m
  {
  }

  /** Only CANCEL lowers the duration. */
  lemma {:induction false} DurationNeverDecreases(m: Timer, inputs: seq<Input>)
    requires forall k :: 0 <= k < |inputs| ==> inputs[k] != Command(Some(ActionServiceCancel))
    ensures Run(m, inputs).duration >= m.duration
    decreases |inputs|
  {
    if |inputs| > 0 {
      DurationNeverDecreases(m, inputs[..|inputs| - 1]);
    }
  }

  /** Ticks never change the state: it is set by the last START, STOP or CANCEL alone. */
  lemma {:induction false} TicksKeepState(m: Timer, inputs: seq<Input>)
    requires forall k :: 0 <= k < |inputs| ==> inputs[k].Tick?
    ensures Run(m, inputs).state == m.state
    decreases |inputs|
  {
    if |inputs| > 0 {
      TicksKeepState(m, inputs[..|inputs| - 1]);
    }
  }

  /**
   * The shown strings parse back to whole hours, minutes and seconds that
   * recombine to the duration (while the hours fit in an `Int`).
   */
  lemma DisplayRecombines(m: Timer)
    requires ShowsDuration(m) && m.duration / 3600 <= INT_MAX
    ensures ParseInt(m.hours).Some? && ParseInt(m.minutes).Some? && ParseInt(m.seconds).Some?
    ensures ParseInt(m.hours).value * 3600 + ParseInt(m.minutes).value * 60 + ParseInt(m.seconds).value
      == m.duration
    ensures |m.minutes| == 2 && |m.seconds| == 2
  {
    ComponentsRecombine(m.duration);
    var (h, mi, s) := Components(m.duration);
    PadParsesBack(h);
    PadParsesBack(mi);
    PadParsesBack(s);
    PadTwoDigits(mi);
    PadTwoDigits(s);
  }

  /** A whole minute shows seconds "00", and only a whole minute does. */
  lemma SecondsZeroIffWholeMinute(d: nat)
    ensures SecondsText(d) == "00" <==> d % 60 == 0
  {
    if SecondsText(d) == "00" {
      PadParsesBack(d % 60);
      assert ParseInt("00") == Some(0) by {
        PadParsesBack(0);
      }
    }
  }

  /** Every input but START-while-STARTED keeps a single live schedule. */
  lemma StepKeepsSingleSchedule(m: Timer, i: Input)
    requires Valid(m) && SingleSchedule(m)
    requires !(i == Command(Some(ActionServiceStart)) && m.state == STARTED)
    ensures SingleSchedule(Step(m, i))
  {
  }

  /** Under that discipline a tick while not STARTED changes nothing. */
  lemma FrozenUnlessStarted(m: Timer, schedule: nat)
    requires SingleSchedule(m) && m.state != STARTED
    ensures Step(m, Tick(schedule)) == m
  {
  }

  /**
   * START while STARTED overwrites `timer` without cancelling the running
   * schedule: after START, START, CANCEL the first schedule still ticks, so
   * an IDLE service counts up.
   */
  lemma DoubleStartLeavesOrphan()
    ensures var start := Command(Some(ActionServiceStart));
      var twice := Run(Initial, [start, start]);
      twice.live == {0, 1} && twice.timer == Some(1)
    ensures var start := Command(Some(ActionServiceStart));
      var r := Run(Initial, [start, start, Command(Some(ActionServiceCancel)), Tick(0)]);
      r.state == IDLE && r.duration == 1 && r.live == {0}
  {
    var start := Command(Some(ActionServiceStart));
    var cancel := Command(Some(ActionServiceCancel));
    var inputs := [start, start, cancel, Tick(0)];
    assert inputs[..3] == [start, start, cancel];
    assert inputs[..3][..2] == [start, start];
    assert [start, start][..1] == [start];
    assert [start][..0] == [];
    var once := Started(Initial);
    assert Run(Initial, [start]) == once;
    var twice := Started(once);
    assert Run(Initial, [start, start]) == twice;
    assert twice.live == {0, 1};
    var cancelled := Cancelled(Stopped(twice));
    assert Run(Initial, inputs[..3]) == cancelled;
    assert cancelled.live == {0} && cancelled.duration == 0;
  }

  /** The service object: the same fields, updated in place by its methods. */
  class StudySessionTimerService {
    var duration: nat
    var hours: string
    var minutes: string
    var seconds: string
    var currentTimerState: TimerState
    var subjectId: Option<int>
    var timer: Option<nat>
    var live: set<nat>
    var nextSchedule: nat

    function Model(): Timer
      reads this
    {
      Timer(currentTimerState, duration, hours, minutes, seconds, timer, live, nextSchedule)
    }

    constructor ()
      ensures Model() == Initial && subjectId == None
    {
      duration := 0;
      hours, minutes, seconds := "00", "00", "00";
      currentTimerState := IDLE;
      subjectId := None;
      timer := None;
      live := {};
      nextSchedule := 0;
    }

    method OnStartCommand(action: Option<ServiceAction>)
      modifies this
      ensures Model() == Step(old(Model()), Command(action))
      ensures subjectId == old(subjectId)
    {
      match action {
        case Some(ActionServiceStart) =>
          StartTimer();
        case Some(ActionServiceStop) =>
          StopTimer();
        case Some(ActionServiceCancel) =>
          StopTimer();
          CancelTimer();
        case _ =>
      }
    }

    method StartTimer()
      modifies this
      ensures Model() == Started(old(Model()))
      ensures subjectId == old(subjectId)
    {
      currentTimerState := STARTED;
      timer := Some(nextSchedule);
      live := live + {nextSchedule};
      nextSchedule := nextSchedule + 1;
    }

    /** One tick of `schedule`; a live one returns the "h:m:s" text shown in the notification. */
    method Tick(schedule: nat) returns (notification: Option<string>)
      modifies this
      ensures Model() == Step(old(Model()), Input.Tick(schedule))
      ensures subjectId == old(subjectId)
      ensures schedule in old(live) ==> notification == Some(hours + ":" + minutes + ":" + seconds)
      ensures schedule !in old(live) ==> notification == None
    {
      if schedule in live {
        duration := duration + 1;
        UpdateTimeUnits();
        notification := Some(hours + ":" + minutes + ":" + seconds);
      } else {
        notification := None;
      }
    }

    method StopTimer()
      modifies this
      ensures Model() == Stopped(old(Model()))
      ensures subjectId == old(subjectId)
    {
      if timer.Some? {
        live := live - {timer.value};
      }
      currentTimerState := STOPPED;
    }

    method CancelTimer()
      modifies this
      ensures Model() == Cancelled(old(Model()))
      ensures subjectId == old(subjectId)
    {
      duration := 0;
      UpdateTimeUnits();
      currentTimerState := IDLE;
    }

    method UpdateTimeUnits()
      modifies this
      ensures Model() == WithTimeUnits(old(Model()))
      ensures subjectId == old(subjectId)
    {
      hours := HoursText(duration);
      minutes := MinutesText(duration);
      seconds := SecondsText(duration);
    }
  }
}
