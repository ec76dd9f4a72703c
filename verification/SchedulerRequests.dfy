/**
 From requests to callbacks: what becomes of each call of `schedule_event`, what a pass of the scheduler
 does, and what holds time back.
 */
module SchedulerRequests {
  import opened Wrappers
  import opened SchedulerRuns

  // ---------------------------------------------------------------------------
  // Requests that are not events yet

  function Schedules(queue: seq<SchedulerMessage>): seq<SchedulerMessage> {
    if queue == [] then []
    else Schedules(queue[..|queue| - 1]) + (if queue[|queue| - 1].Schedule? then [queue[|queue| - 1]] else [])
  }

  /** The request in hand and those in the queue. */
  function Waiting(s: Scheduler): seq<SchedulerMessage> {
    (if s.pc.Scheduling? then [Schedule(s.pc.timeout, s.pc.callback)] else []) + Schedules(s.queue)
  }

  lemma SchedulesAppend(queue: seq<SchedulerMessage>, m: SchedulerMessage)
    ensures Schedules(queue + [m]) == Schedules(queue) + (if m.Schedule? then [m] else [])
  {
    assert (queue + [m])[..|queue|] == queue;
  }

  lemma {:induction false} SchedulesPrepend(m: SchedulerMessage, rest: seq<SchedulerMessage>)
    ensures Schedules([m] + rest) == (if m.Schedule? then [m] else []) + Schedules(rest)
  {
    assert Schedules([]) == [];
    hide Schedules;
    if rest == [] {
      SchedulesAppend([], m);
      assert [] + [m] == [m] + rest;
    } else {
      var init, last := rest[..|rest| - 1], rest[|rest| - 1];
      SchedulesPrepend(m, init);
      SchedulesAppend([m] + init, last);
      SchedulesAppend(init, last);
      assert rest == init + [last];
      assert [m] + rest == [m] + init + [last];
    }
  }

  // ---------------------------------------------------------------------------
  // The invariant

  /** Requests become events in the order they were made: the event of request c has id c. */
  predicate FromRequest(s: Scheduler, e: TimeoutEvent) {
    && e.id < |s.processed| && e.id < |s.requests|
    && e.callback == e.id && e.deadline == s.processed[e.id] + s.requests[e.id].timeout
  }

  predicate InLine(s: Scheduler) {
    && |s.processed| == s.nextId && s.nextId + |Waiting(s)| == |s.requests|
    && forall k :: 0 <= k < |Waiting(s)|
                   ==> Waiting(s)[k] == Schedule(s.requests[s.nextId + k].timeout, s.nextId + k)
  }

  predicate Timely(s: Scheduler) {
    && (forall c :: 0 <= c < |s.requests| ==> s.requests[c].sentAt <= Now(s))
    && (forall c :: 0 <= c < |s.processed| && c < |s.requests|
                    ==> s.requests[c].sentAt <= s.processed[c] <= Now(s))
  }

  predicate IsPending(s: Scheduler, c: nat) {
    exists e :: e in s.events && e.id == c
  }

  predicate HasFired(s: Scheduler, c: nat) {
    exists f :: f in s.fired && f.event.id == c
  }

  predicate AllThere(s: Scheduler) {
    && (forall e :: e in s.events ==> FromRequest(s, e))
    && (forall f :: f in s.fired ==> FromRequest(s, f.event))
    && (forall c :: 0 <= c < s.nextId ==> IsPending(s, c) || HasFired(s, c))
  }

  predicate Kept(s: Scheduler) {
    InLine(s) && Timely(s) && AllThere(s)
  }

  /** Other threads only add requests. */
  lemma AllThereFrame(s: Scheduler, s': Scheduler)
    requires AllThere(s) && s'.events == s.events && s'.fired == s.fired && s'.nextId == s.nextId
    requires s'.processed == s.processed && s.requests <= s'.requests
    ensures AllThere(s')
  {
    forall e | FromRequest(s, e) ensures FromRequest(s', e) {
    }
    forall c | 0 <= c < s'.nextId ensures IsPending(s', c) || HasFired(s', c) {
      assert IsPending(s, c) || HasFired(s, c);
    }
  }

  lemma FireKeepsAllThere(s: Scheduler, e: TimeoutEvent)
    requires AllThere(s) && e in s.events
    ensures AllThere(s.(events := s.events - {e}, fired := s.fired + [Firing(e, Now(s))]))
  {
    var s' := s.(events := s.events - {e}, fired := s.fired + [Firing(e, Now(s))]);
    assert s'.fired[|s.fired|] == Firing(e, Now(s));
    forall c | 0 <= c < s'.nextId ensures IsPending(s', c) || HasFired(s', c) {
      assert IsPending(s, c) || HasFired(s, c);
      if c == e.id {
        assert Firing(e, Now(s)) in s'.fired;
      } else if IsPending(s, c) {
        var x :| x in s.events && x.id == c;
        assert x in s'.events;
      } else {
        var f :| f in s.fired && f.event.id == c;
        assert f in s'.fired;
      }
    }
  }

  lemma ScheduleKeepsAllThere(s: Scheduler)
    requires Kept(s) && s.pc.Scheduling?
    ensures AllThere(TaskStep(s, None))
  {
    var s' := TaskStep(s, None);
    var e := TimeoutEvent(Now(s) + s.pc.timeout, s.nextId, s.pc.callback);
    assert Waiting(s)[0] == Schedule(s.pc.timeout, s.pc.callback);
    assert FromRequest(s', e) && e in s'.events;
    forall x | FromRequest(s, x) ensures FromRequest(s', x) {
    }
    forall c | 0 <= c < s'.nextId ensures IsPending(s', c) || HasFired(s', c) {
      if c < s.nextId {
        assert IsPending(s, c) || HasFired(s, c);
        if IsPending(s, c) {
          var x :| x in s.events && x.id == c;
          assert x in s'.events;
        }
      }
    }
  }

  lemma ScheduleKeepsInLine(s: Scheduler)
    requires InLine(s) && s.pc.Scheduling?
    ensures InLine(TaskStep(s, None))
  {
    hide Schedules;
    var s' := TaskStep(s, None);
    assert Waiting(s) == [Schedule(s.pc.timeout, s.pc.callback)] + Waiting(s') by {
      assert [] + Schedules(s.queue) == Schedules(s.queue);
    }
    forall k | 0 <= k < |Waiting(s')|
      ensures Waiting(s')[k] == Schedule(s'.requests[s'.nextId + k].timeout, s'.nextId + k)
    {
      assert Waiting(s')[k] == Waiting(s)[k + 1];
    }
  }

  lemma EnqueueKeepsInLine(s: Scheduler, m: SchedulerMessage, requests: seq<Request>)
    requires InLine(s)
    requires if m.Schedule? then m.callback == |s.requests| && exists at :: requests == s.requests + [Request(m.timeout, at)]
             else requests == s.requests
    ensures InLine(s.(queue := s.queue + [m], requests := requests))
  {
    SchedulesAppend(s.queue, m);
    var s' := s.(queue := s.queue + [m], requests := requests);
    assert Waiting(s') == Waiting(s) + (if m.Schedule? then [m] else []);
  }

  lemma ReceiveKeepsWaiting(s: Scheduler)
    requires Enabled(s, Receive)
    ensures Waiting(Apply(s, Receive)) == Waiting(s)
  {
    hide Schedules;
    SchedulesPrepend(s.queue[0], s.queue[1..]);
    assert s.queue == [s.queue[0]] + s.queue[1..];
  }

  lemma ReceiveKeepsInLine(s: Scheduler)
    requires InLine(s) && Enabled(s, Receive)
    ensures InLine(Apply(s, Receive))
  {
    hide Schedules, Waiting;
    ReceiveKeepsWaiting(s);
  }

  lemma TaskStepKeeps(s: Scheduler, head: Option<TimeoutEvent>)
    requires Kept(s) && !s.pc.Idle? && IsHead(s.events, head)
    ensures Kept(TaskStep(s, head))
  {
    hide InLine, AllThere;
    var s' := TaskStep(s, head);
    if s.pc.Scheduling? {
      ScheduleKeepsAllThere(s);
      ScheduleKeepsInLine(s);
      assert InLine(s) ==> |s.processed| == s.nextId by { InLineSizes(s); }
    } else {
      InLineFrame(s, s');
      if s.pc.Popping? && head.Some? && head.value.deadline <= s.pc.now {
        FireKeepsAllThere(s, head.value);
      } else {
        AllThereFrame(s, s');
      }
    }
  }

  lemma InLineSizes(s: Scheduler)
    requires InLine(s)
    ensures |s.processed| == s.nextId <= |s.requests|
  {
  }

  lemma InLineFrame(s: Scheduler, s': Scheduler)
    requires InLine(s) && s'.queue == s.queue && s'.requests == s.requests
    requires s'.processed == s.processed && s'.nextId == s.nextId
    requires !s.pc.Scheduling? && !s'.pc.Scheduling?
    ensures InLine(s')
  {
  }

  lemma ApplyKeeps(s: Scheduler, a: Action)
    requires Kept(s) && Enabled(s, a)
    ensures Kept(Apply(s, a))
  {
    hide InLine, AllThere;
    var s' := Apply(s, a);
    match a {
      case Step(head) => TaskStepKeeps(s, head);
      case Receive =>
        ReceiveKeepsInLine(s);
        AllThereFrame(s, s');
      case ScheduleEvent(timeout) =>
        assert s'.requests == s.requests + [Request(timeout, Now(s))];
        EnqueueKeepsInLine(s, Schedule(timeout, |s.requests|), s'.requests);
        AllThereFrame(s, s');
        InLineSizes(s);
      case TimerFires =>
        EnqueueKeepsInLine(s, ProcessTime, s.requests);
        InLineSame(s.(queue := s.queue + [ProcessTime]), s');
        AllThereFrame(s, s');
      case SendProcessTime =>
        EnqueueKeepsInLine(s, ProcessTime, s.requests);
        InLineSame(s.(queue := s.queue + [ProcessTime]), s');
        AllThereFrame(s, s');
      case _ =>
        InLineSame(s, s');
        AllThereFrame(s, s');
    }
  }

  lemma InLineSame(s: Scheduler, s': Scheduler)
    requires InLine(s) && s'.queue == s.queue && s'.requests == s.requests && s'.pc == s.pc
    requires s'.processed == s.processed && s'.nextId == s.nextId
    ensures InLine(s')
  {
  }

  lemma {:induction false} KeptAlways(run: seq<Scheduler>, n: nat)
    requires Behavior(run) && n < |run|
    ensures Kept(run[n])
  {
    hide Apply, Enabled;
    if n > 0 {
      hide Kept;
      KeptAlways(run, n - 1);
      assert Next(run[n - 1], run[n - 1 + 1]);
      var a :| Enabled(run[n - 1], a) && run[n] == Apply(run[n - 1], a);
      ApplyKeeps(run[n - 1], a);
    }
  }

  // ---------------------------------------------------------------------------
  // What becomes of a request

  /**
   No callback fires before the timeout it was requested with has passed in simulated time, counted
   from the call of `schedule_event`.
   */
  lemma NeverFiresEarly(run: seq<Scheduler>, n: nat, f: Firing)
    requires Behavior(run) && n < |run| && f in run[n].fired
    ensures f.event.callback < |run[n].requests|
    ensures var request := run[n].requests[f.event.callback]; f.at >= request.sentAt + request.timeout
  {
    KeptAlways(run, n);
    OrderedAlways(run, n);
    assert FromRequest(run[n], f.event);
  }

  /**
   With the real clock at a standstill a callback fires exactly its timeout after the simulated time at
   which the scheduler took up the request.
   */
  lemma FiresExactlyOnTime(run: seq<Scheduler>, n: nat, f: Firing)
    requires Behavior(run) && Frozen(run) && n < |run| && f in run[n].fired
    ensures f.event.callback < |run[n].requests| && f.event.callback < |run[n].processed|
    ensures f.at == run[n].processed[f.event.callback] + run[n].requests[f.event.callback].timeout
  {
    KeptAlways(run, n);
    ExactAlways(run, n);
    assert FromRequest(run[n], f.event);
  }

  predicate IsWaiting(s: Scheduler, c: nat) {
    exists k :: 0 <= k < |Waiting(s)| && Waiting(s)[k].Schedule? && Waiting(s)[k].callback == c
  }

  lemma WaitingAreTheLast(s: Scheduler, c: nat)
    requires InLine(s)
    ensures IsWaiting(s, c) <==> s.nextId <= c < |s.requests|
  {
    if s.nextId <= c < |s.requests| {
      assert Waiting(s)[c - s.nextId].callback == c;
    }
  }

  /**
   Each request is in exactly one place: waiting to be taken up, pending as one event, or fired once.
   */
  lemma RequestIsOneEvent(run: seq<Scheduler>, n: nat, c: nat)
    requires Behavior(run) && n < |run| && c < |run[n].requests|
    ensures IsWaiting(run[n], c) || IsPending(run[n], c) || HasFired(run[n], c)
    ensures !(IsWaiting(run[n], c) && IsPending(run[n], c)) && !(IsWaiting(run[n], c) && HasFired(run[n], c))
    ensures !(IsPending(run[n], c) && HasFired(run[n], c))
    ensures forall d, e :: d in run[n].events && e in run[n].events && d.callback == e.callback ==> d == e
    ensures forall i, j :: 0 <= i < j < |run[n].fired| ==> run[n].fired[i].event.callback != run[n].fired[j].event.callback
  {
    KeptAlways(run, n);
    OrderedAlways(run, n);
    var s := run[n];
    WaitingAreTheLast(s, c);
    forall d, e | d in s.events && e in s.events && d.callback == e.callback ensures d == e {
      assert FromRequest(s, d) && FromRequest(s, e);
    }
    forall i, j | 0 <= i < j < |s.fired| ensures s.fired[i].event.callback != s.fired[j].event.callback {
      assert s.fired[i] in s.fired && s.fired[j] in s.fired;
      assert FromRequest(s, s.fired[i].event) && FromRequest(s, s.fired[j].event);
    }
    forall e, f | e in s.events && f in s.fired ensures f.event.id != e.id {
      assert FromRequest(s, e) && FromRequest(s, f.event) && Before(f.event, e);
    }
  }

  /** Requests are recorded for good. */
  lemma {:induction false} RequestsStand(run: seq<Scheduler>, m: nat, n: nat)
    requires Behavior(run) && m <= n < |run|
    ensures run[m].requests <= run[n].requests && run[m].processed <= run[n].processed
    ensures Now(run[m]) <= Now(run[n])
  {
    hide Apply, Enabled;
    if m < n {
      RequestsStand(run, m, n - 1);
      assert Next(run[n - 1], run[n - 1 + 1]);
      var a :| Enabled(run[n - 1], a) && run[n] == Apply(run[n - 1], a);
      StepStands(run[n - 1], a);
    }
  }

  /** A Schedule message once taken up is the event of the request it was sent for, with its timeout. */
  lemma TakenUp(run: seq<Scheduler>, m: nat, n: nat)
    requires Behavior(run) && m <= n < |run| && run[m].pc.Scheduling?
    requires |run[m].processed| < |run[n].processed|
    ensures var c := run[m].pc.callback;
            && c < |run[n].requests| && run[n].requests[c].timeout == run[m].pc.timeout
            && (IsPending(run[n], c) || HasFired(run[n], c))
  {
    KeptAlways(run, m);
    KeptAlways(run, n);
    RequestsStand(run, m, n);
    assert Waiting(run[m])[0] == Schedule(run[m].pc.timeout, run[m].pc.callback);
    assert run[m].pc.callback == run[m].nextId < run[n].nextId;
  }

  lemma StepStands(s: Scheduler, a: Action)
    requires Enabled(s, a)
    ensures s.requests <= Apply(s, a).requests && s.processed <= Apply(s, a).processed
    ensures Now(s) <= Now(Apply(s, a))
  {
    hide IsHead;
  }

  // ---------------------------------------------------------------------------
  // A pass fires all that has elapsed

  /** Where a pass that began at simulated time `since` stands: nothing elapsed by then survives the pops. */
  predicate Sweeps(s: Scheduler, since: nat) {
    && since <= Now(s)
    && (s.pc.Popping? ==> since <= s.pc.now)
    && (!s.pc.ReadNow? && !s.pc.Popping? ==> forall e :: e in s.events ==> e.deadline > since)
  }

  lemma SweepContinues(s: Scheduler, a: Action, since: nat)
    requires Sweeps(s, since) && Enabled(s, a) && !s.pc.Idle? && !s.pc.Scheduling?
    ensures Sweeps(Apply(s, a), since) && !Apply(s, a).pc.Scheduling?
  {
    if a.Step? {
      TaskSweeps(s, a.head, since);
    } else {
      StepStands(s, a);
    }
  }

  lemma TaskSweeps(s: Scheduler, head: Option<TimeoutEvent>, since: nat)
    requires Sweeps(s, since) && IsHead(s.events, head) && !s.pc.Idle? && !s.pc.Scheduling?
    ensures Sweeps(TaskStep(s, head), since) && !TaskStep(s, head).pc.Scheduling?
  {
    if s.pc.Popping? && (head.None? || head.value.deadline > s.pc.now) {
      forall e | e in s.events ensures e.deadline > since {
        assert head.Some? && (e == head.value || Before(head.value, e));
      }
    }
  }

  lemma {:induction false} SweptAlong(run: seq<Scheduler>, m: nat, n: nat)
    requires Behavior(run) && m <= n < |run| && run[m].pc.ReadNow?
    requires forall i :: m <= i < n ==> !run[i].pc.Idle?
    ensures Sweeps(run[n], Now(run[m])) && !run[n].pc.Scheduling?
  {
    hide Apply, Enabled;
    if m < n {
      SweptAlong(run, m, n - 1);
      assert Next(run[n - 1], run[n - 1 + 1]);
      var a :| Enabled(run[n - 1], a) && run[n] == Apply(run[n - 1], a);
      hide Sweeps;
      SweepContinues(run[n - 1], a, Now(run[m]));
    }
  }

  /**
   A pass, from the start of `process_time` until the scheduler is idle again, fires every event that was
   pending at its start with a deadline not after the simulated time of that moment.
   */
  lemma PassFiresElapsed(run: seq<Scheduler>, m: nat, n: nat, e: TimeoutEvent)
    requires Behavior(run) && m < n < |run| && run[m].pc.ReadNow? && run[n].pc.Idle?
    requires forall i :: m <= i < n ==> !run[i].pc.Idle?
    requires e in run[m].events && e.deadline <= Now(run[m])
    ensures e !in run[n].events && HasFired(run[n], e.id)
  {
    SweptAlong(run, m, n);
    KeptAlways(run, m);
    KeptAlways(run, n);
    RequestsStand(run, m, n);
    assert FromRequest(run[m], e);
    assert IsPending(run[n], e.id) || HasFired(run[n], e.id);
    forall x | x in run[n].events ensures x.id != e.id {
      assert FromRequest(run[n], x);
    }
  }

  // ---------------------------------------------------------------------------
  // Guards and timer

  lemma GuardedStepKeepsShift(s: Scheduler, a: Action)
    requires Enabled(s, a) && s.guards > 0 && !s.pc.Jump?
    ensures Apply(s, a).shift == s.shift && !Apply(s, a).pc.Jump?
  {
    hide IsHead;
  }

  /**
   While a guard is held simulated time does not jump: it moves with the real clock alone, unless the
   guard came after the scheduler had already looked.
   */
  lemma {:induction false} GuardHoldsTime(run: seq<Scheduler>, m: nat, n: nat)
    requires Behavior(run) && m <= n < |run| && !run[m].pc.Jump?
    requires forall i :: m <= i < n ==> run[i].guards > 0
    ensures run[n].shift == run[m].shift && !run[n].pc.Jump?
  {
    hide Apply, Enabled;
    if m < n {
      GuardHoldsTime(run, m, n - 1);
      assert Next(run[n - 1], run[n - 1 + 1]);
      var a :| Enabled(run[n - 1], a) && run[n] == Apply(run[n - 1], a);
      GuardedStepKeepsShift(run[n - 1], a);
    }
  }

  /** Without acceleration simulated time never jumps at all. */
  lemma {:induction false} NoJumpUnlessAccelerated(run: seq<Scheduler>, n: nat)
    requires Behavior(run) && n < |run| && !run[n].accelerated
    ensures run[n].shift == 0 && !run[n].pc.ReadGuards? && !run[n].pc.Jump?
  {
    hide Apply, Enabled;
    if n > 0 {
      assert Next(run[n - 1], run[n - 1 + 1]);
      var a :| Enabled(run[n - 1], a) && run[n] == Apply(run[n - 1], a);
      NotAcceleratedBefore(run[n - 1], a);
      NoJumpUnlessAccelerated(run, n - 1);
      PlainStepKeepsShift(run[n - 1], a);
    }
  }

  lemma NotAcceleratedBefore(s: Scheduler, a: Action)
    requires Enabled(s, a) && !Apply(s, a).accelerated
    ensures !s.accelerated
  {
    hide IsHead;
  }

  lemma PlainStepKeepsShift(s: Scheduler, a: Action)
    requires Enabled(s, a) && !s.accelerated && s.shift == 0 && !s.pc.ReadGuards? && !s.pc.Jump?
    ensures Apply(s, a).shift == 0 && !Apply(s, a).pc.ReadGuards? && !Apply(s, a).pc.Jump?
  {
    hide IsHead;
  }

  /**
   The timer is not armed early either: when a pass arms it, it wakes exactly when simulated time reaches
   the earliest pending deadline, or at once if that has passed.
   */
  lemma TimerWakesAtEarliest(run: seq<Scheduler>, n: nat, head: TimeoutEvent)
    requires Behavior(run) && n + 1 < |run| && run[n].pc.Arm? && run[n + 1].pc.Idle?
    requires Alive(run[n]) && IsHead(run[n].events, Some(head))
    ensures run[n + 1].timer.Some?
    ensures var s := run[n + 1];
            if head.deadline <= Now(s) then s.timer.value == s.clock else s.timer.value + s.shift == head.deadline
  {
    assert Next(run[n], run[n + 1]);
    var a :| Enabled(run[n], a) && run[n + 1] == Apply(run[n], a);
    HeadUnique(run[n].events, Some(head), if a.Step? then a.head else Some(head));
  }

  lemma HeadUnique(events: set<TimeoutEvent>, a: Option<TimeoutEvent>, b: Option<TimeoutEvent>)
    requires IsHead(events, a) && IsHead(events, b)
    ensures a == b
  {
  }
}
