/**
 The scheduler of `quickwit-actors/src/scheduler.rs` as one task among many.

 The scheduler takes messages from a queue. Each message starts a pass that pops the elapsed events,
 perhaps jumps forward in time, and arms a timer. A pass reads the clock, the acceleration flag and
 the guard counter at different moments; the other threads, the timer and the clock move between any
 two of those reads. Time is counted in units of any fixed resolution.
 */
module SchedulerRuns {
  import opened Wrappers

  /** `callback` names the request that the event was scheduled for. */
  datatype TimeoutEvent = TimeoutEvent(deadline: nat, id: nat, callback: nat)

  /** The order of `TimeoutEvent`: by deadline, ties broken by event id. */
  predicate Before(a: TimeoutEvent, b: TimeoutEvent) {
    a.deadline < b.deadline || (a.deadline == b.deadline && a.id < b.id)
  }

  datatype SchedulerMessage = ProcessTime | Schedule(timeout: nat, callback: nat)

  /** A call of `schedule_event`: the timeout asked for, and the simulated time of the call. */
  datatype Request = Request(timeout: nat, sentAt: nat)

  /** A callback that was run, and the simulated time at which it was. */
  datatype Firing = Firing(event: TimeoutEvent, at: nat)

  datatype Pc =
    | Idle
    | Scheduling(timeout: nat, callback: nat)   // process_schedule: compute the deadline and push
    | ReadNow                     // process_time: read the simulated time
    | Popping(now: nat)           // pop and run every event that is not after it
    | ReadFlag                    // advance_time_if_necessary: client alive and time accelerated?
    | ReadGuards                  // advance time forbidden?
    | Jump                        // move the simulated time to the next deadline
    | Arm                         // schedule_next_timeout

  /** How the latest pass left `advance_time_if_necessary`. */
  datatype Passage = NoClient | NotAccelerated | Guarded | NoEvent | Jumped

  /**
   `clock` is the real clock and `shift` the simulated time shift. `signals` counts the threads that
   have dropped the last guard, or set the flag, and have not yet sent their `ProcessTime`. `timer`
   is the real time at which the armed timer task wakes up; that task holds a client of its own.
   `requests` is every request made and `processed` the simulated time at which each request taken
   from the queue became an event; the event's id is its place in `processed`.
   */
  datatype Scheduler = Scheduler(
    clock: nat,
    shift: nat,
    events: set<TimeoutEvent>,
    nextId: nat,
    queue: seq<SchedulerMessage>,
    signals: nat,
    clients: nat,
    timer: Option<nat>,
    guards: nat,
    accelerated: bool,
    pc: Pc,
    fired: seq<Firing>,
    passage: Passage,
    requests: seq<Request>,
    processed: seq<nat>)

  function Now(s: Scheduler): nat {
    s.clock + s.shift
  }

  predicate Alive(s: Scheduler) {
    s.clients > 0 || s.timer.Some?
  }

  datatype Action =
    // the clock, the timer and other threads
    | Tick(delta: nat) | TimerFires
    | ScheduleEvent(timeout: nat) | IncGuard | DecGuard | Accelerate | SendProcessTime
    | CloneClient | DropClient
    // the scheduler task; `head` is what `peek` returns
    | Receive | Step(head: Option<TimeoutEvent>)

  /** `peek` on the heap: the least event, if there is one. */
  predicate IsHead(events: set<TimeoutEvent>, head: Option<TimeoutEvent>) {
    match head
    case None => events == {}
    case Some(e) => e in events && forall x :: x in events && x != e ==> Before(e, x)
  }

  predicate Init(s: Scheduler) {
    s == Scheduler(s.clock, 0, {}, 0, [], 0, 1, None, 0, false, Idle, [], NoEvent, [], [])
  }

  predicate Enabled(s: Scheduler, a: Action) {
    match a
    case Tick(_) => true
    case TimerFires => s.timer.Some? && s.timer.value <= s.clock
    case ScheduleEvent(_) => s.clients > 0
    case IncGuard => s.clients > 0
    case DecGuard => s.clients > s.signals && s.guards > 0
    case Accelerate => s.clients > s.signals
    case SendProcessTime => s.signals > 0
    case CloneClient => s.clients > 0
    case DropClient => s.clients > s.signals
    case Receive => s.pc.Idle? && s.queue != []
    case Step(head) => !s.pc.Idle? && IsHead(s.events, head)
  }

  function Apply(s: Scheduler, a: Action): Scheduler
    requires Enabled(s, a)
  {
    match a
    case Tick(delta) => s.(clock := s.clock + delta)
    case TimerFires => s.(timer := None, queue := s.queue + [ProcessTime])
    case ScheduleEvent(timeout) =>
      s.(queue := s.queue + [Schedule(timeout, |s.requests|)], requests := s.requests + [Request(timeout, Now(s))])
    case IncGuard => s.(guards := s.guards + 1)
    case DecGuard =>
      s.(guards := s.guards - 1, signals := if s.guards == 1 then s.signals + 1 else s.signals)
    case Accelerate => s.(accelerated := true, signals := s.signals + 1)
    case SendProcessTime => s.(signals := s.signals - 1, queue := s.queue + [ProcessTime])
    case CloneClient => s.(clients := s.clients + 1)
    case DropClient => s.(clients := s.clients - 1)
    case Receive =>
      s.(queue := s.queue[1..],
         pc := match s.queue[0] case ProcessTime => ReadNow case Schedule(t, c) => Scheduling(t, c))
    case Step(head) => TaskStep(s, head)
  }

  function TaskStep(s: Scheduler, head: Option<TimeoutEvent>): Scheduler
    requires !s.pc.Idle?
  {
    match s.pc
    case Scheduling(timeout, callback) =>
      s.(events := s.events + {TimeoutEvent(Now(s) + timeout, s.nextId, callback)}, nextId := s.nextId + 1,
         processed := s.processed + [Now(s)], pc := ReadNow)
    case ReadNow => s.(pc := Popping(Now(s)))
    case Popping(now) =>
      if head.Some? && head.value.deadline <= now then
        s.(events := s.events - {head.value}, fired := s.fired + [Firing(head.value, Now(s))])
      else s.(pc := ReadFlag)
    case ReadFlag =>
      if !Alive(s) then s.(pc := Arm, passage := NoClient)
      else if !s.accelerated then s.(pc := Arm, passage := NotAccelerated)
      else s.(pc := ReadGuards)
    case ReadGuards =>
      if s.guards > 0 then s.(pc := Arm, passage := Guarded) else s.(pc := Jump)
    case Jump =>
      if head.None? then s.(pc := Arm, passage := NoEvent)
      else
        s.(pc := Arm, passage := Jumped,
           shift := if head.value.deadline >= Now(s)
                    then s.shift + (head.value.deadline - Now(s)) else s.shift)
    case Arm =>
      if !Alive(s) || head.None? then s.(pc := Idle)
      else
        s.(pc := Idle,
           timer := Some(if head.value.deadline <= Now(s) then s.clock
                         else s.clock + (head.value.deadline - Now(s))))
  }

  ghost predicate Next(s: Scheduler, s': Scheduler) {
    exists a :: Enabled(s, a) && s' == Apply(s, a)
  }

  ghost predicate Behavior(run: seq<Scheduler>) {
    && |run| > 0
    && Init(run[0])
    && forall i :: 0 <= i < |run| - 1 ==> Next(run[i], run[i + 1])
  }

  /** The heap never blocks a pass: a finite set of events with distinct ids has a head. */
  lemma {:induction false} HeadExists(events: set<TimeoutEvent>) returns (head: Option<TimeoutEvent>)
    requires forall a, b :: a in events && b in events && a.id == b.id ==> a == b
    ensures IsHead(events, head)
    decreases events
  {
    if events == {} {
      head := None;
    } else {
      var e :| e in events;
      var rest := HeadExists(events - {e});
      if rest.None? {
        assert events == {e};
        head := Some(e);
      } else if Before(e, rest.value) {
        head := Some(e);
        assert forall x :: x in events && x != e ==> x in events - {e};
      } else {
        head := rest;
        assert forall x :: x in events && x != e ==> x in events - {e};
      }
    }
  }

  // ---------------------------------------------------------------------------
  // Order of the callbacks

  predicate Ordered(s: Scheduler) {
    && (forall e, f :: e in s.events && f in s.fired ==> Before(f.event, e))
    && (forall i, j :: 0 <= i < j < |s.fired| ==> Before(s.fired[i].event, s.fired[j].event))
    && (forall f :: f in s.fired ==> f.event.deadline <= f.at <= Now(s) && f.event.id < s.nextId)
    && (forall e :: e in s.events ==> e.id < s.nextId)
    && (forall a, b :: a in s.events && b in s.events && a.id == b.id ==> a == b)
    && (s.pc.Popping? ==> s.pc.now <= Now(s))
  }

  lemma FireKeepsOrdered(s: Scheduler, e: TimeoutEvent)
    requires Ordered(s) && s.pc.Popping? && e.deadline <= s.pc.now && IsHead(s.events, Some(e))
    ensures Ordered(s.(events := s.events - {e}, fired := s.fired + [Firing(e, Now(s))]))
  {
    var fired' := s.fired + [Firing(e, Now(s))];
    forall i, j | 0 <= i < j < |fired'| ensures Before(fired'[i].event, fired'[j].event) {
      if j == |s.fired| {
        assert s.fired[i] in s.fired;
      }
    }
    forall x, f | x in s.events - {e} && f in fired' ensures Before(f.event, x) {
      if f !in s.fired {
        assert f == Firing(e, Now(s));
      }
    }
  }

  lemma ScheduleKeepsOrdered(s: Scheduler)
    requires Ordered(s) && s.pc.Scheduling?
    ensures Ordered(TaskStep(s, None))
  {
  }

  /** A step that neither fires nor schedules, and does not turn simulated time back. */
  lemma MoveKeepsOrdered(s: Scheduler, s': Scheduler)
    requires Ordered(s) && s'.events == s.events && s'.fired == s.fired && s'.nextId == s.nextId
    requires Now(s) <= Now(s')
    requires s'.pc.Popping? ==> s'.pc.now <= Now(s')
    ensures Ordered(s')
  {
  }

  lemma TaskStepKeepsOrdered(s: Scheduler, head: Option<TimeoutEvent>)
    requires Ordered(s) && !s.pc.Idle? && IsHead(s.events, head)
    ensures Ordered(TaskStep(s, head))
  {
    hide Ordered;
    if s.pc.Popping? && head.Some? && head.value.deadline <= s.pc.now {
      FireKeepsOrdered(s, head.value);
    } else if s.pc.Scheduling? {
      ScheduleKeepsOrdered(s);
    } else {
      MoveKeepsOrdered(s, TaskStep(s, head));
    }
  }

  lemma ApplyKeepsOrdered(s: Scheduler, a: Action)
    requires Ordered(s) && Enabled(s, a)
    ensures Ordered(Apply(s, a))
  {
    if a.Step? {
      TaskStepKeepsOrdered(s, a.head);
    } else {
      MoveKeepsOrdered(s, Apply(s, a));
    }
  }

  lemma {:induction false} OrderedAlways(run: seq<Scheduler>, n: nat)
    requires Behavior(run) && n < |run|
    ensures Ordered(run[n])
  {
    if n > 0 {
      OrderedAlways(run, n - 1);
      assert Next(run[n - 1], run[n - 1 + 1]);
      var a :| Enabled(run[n - 1], a) && run[n] == Apply(run[n - 1], a);
      ApplyKeepsOrdered(run[n - 1], a);
    }
  }

  /**
   Over a whole run callbacks fire in strictly increasing order of deadline and event id, whenever
   their events were scheduled, and none before its deadline in simulated time.
   */
  lemma CallbacksFireInOrder(run: seq<Scheduler>, n: nat)
    requires Behavior(run) && n < |run|
    ensures forall i, j :: 0 <= i < j < |run[n].fired| ==> Before(run[n].fired[i].event, run[n].fired[j].event)
    ensures forall i :: 0 <= i < |run[n].fired| ==> run[n].fired[i].event.deadline <= run[n].fired[i].at
  {
    OrderedAlways(run, n);
  }

  /** And what is still pending comes after everything that has fired. */
  lemma PendingAfterFired(run: seq<Scheduler>, n: nat, e: TimeoutEvent, f: Firing)
    requires Behavior(run) && n < |run| && e in run[n].events && f in run[n].fired
    ensures Before(f.event, e)
  {
    OrderedAlways(run, n);
  }

  // ---------------------------------------------------------------------------
  // Discrete-event exactness while the real clock stands still

  ghost predicate Frozen(run: seq<Scheduler>) {
    forall i :: 0 <= i < |run| ==> run[i].clock == run[0].clock
  }

  predicate Exact(s: Scheduler) {
    && (forall e :: e in s.events ==> Now(s) <= e.deadline)
    && (forall f :: f in s.fired ==> f.at == f.event.deadline)
    && (s.pc.Popping? ==> s.pc.now == Now(s))
  }

  lemma ApplyKeepsExact(s: Scheduler, a: Action)
    requires Exact(s) && Enabled(s, a) && Apply(s, a).clock == s.clock
    ensures Exact(Apply(s, a))
  {
  }

  lemma {:induction false} ExactAlways(run: seq<Scheduler>, n: nat)
    requires Behavior(run) && Frozen(run) && n < |run|
    ensures Exact(run[n])
  {
    if n > 0 {
      ExactAlways(run, n - 1);
      assert Next(run[n - 1], run[n - 1 + 1]);
      var a :| Enabled(run[n - 1], a) && run[n] == Apply(run[n - 1], a);
      ApplyKeepsExact(run[n - 1], a);
    }
  }

  /**
   With the real clock at a standstill, simulated time never passes a pending deadline and every
   callback runs at a simulated time equal to its deadline.
   */
  lemma FrozenClockIsExact(run: seq<Scheduler>, n: nat)
    requires Behavior(run) && Frozen(run) && n < |run|
    ensures forall e :: e in run[n].events ==> Now(run[n]) <= e.deadline
    ensures forall f :: f in run[n].fired ==> f.at == f.event.deadline
  {
    ExactAlways(run, n);
  }

  // ---------------------------------------------------------------------------
  // The scheduler never stalls

  /** The timer is due, or wakes no later than any pending deadline. */
  predicate TimerInTime(s: Scheduler) {
    s.timer.Some?
    && (s.timer.value <= s.clock
        || forall e :: e in s.events ==> s.timer.value + s.shift <= e.deadline)
  }

  predicate TimerDue(s: Scheduler) {
    s.timer.Some? && s.timer.value <= s.clock
  }

  /** A message is queued, or a thread is about to queue one. */
  predicate Signalled(s: Scheduler) {
    s.queue != [] || s.signals > 0
  }

  /** What the latest pass has established about the reason it did or did not jump. */
  predicate PassageHolds(s: Scheduler) {
    s.pc.Arm? || s.pc.Idle? ==>
      match s.passage
      case NoClient => !Alive(s)
      case NotAccelerated => s.accelerated ==> Signalled(s)
      case Guarded => s.guards == 0 ==> Signalled(s)
      case NoEvent => s.events == {}
      case Jumped =>
        (exists e :: e in s.events && e.deadline <= Now(s))
        && (s.pc.Idle? && Alive(s) ==> s.queue != [] || TimerDue(s))
  }

  predicate NotStalled(s: Scheduler) {
    && (Alive(s) && s.events != {} ==> s.queue != [] || !s.pc.Idle? || TimerInTime(s))
    && (s.pc.ReadGuards? || s.pc.Jump? ==> s.accelerated)
    && PassageHolds(s)
    && s.signals <= s.clients
  }

  lemma TaskStepKeepsNotStalled(s: Scheduler, head: Option<TimeoutEvent>)
    requires NotStalled(s) && !s.pc.Idle? && IsHead(s.events, head)
    ensures NotStalled(TaskStep(s, head))
  {
    var s' := TaskStep(s, head);
    if s.pc.Jump? && head.Some? {
      assert head.value in s'.events && head.value.deadline <= Now(s');
    }
    if s.pc.Arm? && s.passage.Jumped? {
      var e :| e in s.events && e.deadline <= Now(s);
      assert e in s'.events && e.deadline <= Now(s');
    }
  }

  lemma OthersKeepNotStalled(s: Scheduler, a: Action)
    requires NotStalled(s) && Enabled(s, a) && !a.Step?
    ensures NotStalled(Apply(s, a))
  {
    if s.passage.Jumped? && (s.pc.Arm? || s.pc.Idle?) {
      var e :| e in s.events && e.deadline <= Now(s);
      assert e in Apply(s, a).events && e.deadline <= Now(Apply(s, a));
    }
  }

  lemma {:induction false} NotStalledAlways(run: seq<Scheduler>, n: nat)
    requires Behavior(run) && n < |run|
    ensures NotStalled(run[n])
  {
    if n > 0 {
      NotStalledAlways(run, n - 1);
      assert Next(run[n - 1], run[n - 1 + 1]);
      var a :| Enabled(run[n - 1], a) && run[n] == Apply(run[n - 1], a);
      if a.Step? {
        TaskStepKeepsNotStalled(run[n - 1], a.head);
      } else {
        OthersKeepNotStalled(run[n - 1], a);
      }
    }
  }

  /**
   While a client is alive and events are pending, the idle scheduler has a message waiting or a
   timer armed that is due or wakes no later than the earliest deadline.
   */
  lemma NeverStalls(run: seq<Scheduler>, n: nat)
    requires Behavior(run) && n < |run|
    requires run[n].pc.Idle? && run[n].clients > 0 && run[n].events != {}
    ensures run[n].queue != [] || TimerInTime(run[n])
  {
    NotStalledAlways(run, n);
  }

  /**
   With time accelerated and no guard, an idle scheduler with pending events has a message waiting
   or on its way, or a timer that is due at once.
   */
  lemma AcceleratedTimerIsImmediate(run: seq<Scheduler>, n: nat)
    requires Behavior(run) && n < |run|
    requires run[n].pc.Idle? && run[n].clients > 0 && run[n].events != {}
    requires run[n].accelerated && run[n].guards == 0
    ensures Signalled(run[n]) || TimerDue(run[n])
  {
    NotStalledAlways(run, n);
  }
}
