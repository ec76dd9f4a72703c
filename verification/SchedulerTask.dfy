/**
 The scheduler task as it is written: an object whose methods pop a heap, shift time and arm a timer.

 Between any two of its accesses to shared state the surroundings act: the clock moves, the timer
 fires, clients come and go, guards and flags change. What they do in each gap is an arbitrary
 parameter. Every execution is shown to be a run of the step machine, so all that is proved about
 runs holds of this code.
 */
module SchedulerTask {
  import opened Wrappers
  import opened SchedulerRuns
  import opened SchedulerRequests

  /** What the surroundings do in each gap; what is not possible at that point is skipped. */
  type Surroundings = nat -> seq<Action>

  predicate FromOutside(a: Action) {
    !a.Receive? && !a.Step?
  }

  ghost predicate Extends(run: seq<Scheduler>, from: seq<Scheduler>) {
    from <= run
  }

  lemma BehaviorExtends(run: seq<Scheduler>, a: Action)
    requires Behavior(run) && Enabled(run[|run| - 1], a)
    ensures Behavior(run + [Apply(run[|run| - 1], a)])
  {
    hide Apply, Enabled;
    var run' := run + [Apply(run[|run| - 1], a)];
    forall i | 0 <= i < |run'| - 1 ensures Next(run'[i], run'[i + 1]) {
      if i < |run| - 1 {
        assert Next(run[i], run[i + 1]);
      }
    }
  }

  lemma DistinctIds(run: seq<Scheduler>)
    requires Behavior(run)
    ensures forall a, b ::
              a in run[|run| - 1].events && b in run[|run| - 1].events && a.id == b.id ==> a == b
  {
    OrderedAlways(run, |run| - 1);
  }

  /** The heap's least event. */
  method Least(events: set<TimeoutEvent>) returns (head: Option<TimeoutEvent>)
    requires forall a, b :: a in events && b in events && a.id == b.id ==> a == b
    ensures IsHead(events, head)
  {
    head := None;
    var left := events;
    while left != {}
      invariant left <= events
      invariant head.None? ==> left == events
      invariant head.Some? ==> head.value in events && head.value !in left
      invariant head.Some? ==> forall x :: x in events && x !in left && x != head.value ==> Before(head.value, x)
      decreases |left|
    {
      var e :| e in left;
      if head.None? || Before(e, head.value) {
        head := Some(e);
      }
      left := left - {e};
    }
  }

  class Task {
    // The scheduler's own state
    var eventIdGenerator: nat
    var simulatedTimeShift: nat
    var futureEvents: set<TimeoutEvent>
    var nextTimeout: Option<nat>
    // The state shared with the surroundings
    var clock: nat
    var queue: seq<SchedulerMessage>
    var signals: nat
    var clients: nat
    var guards: nat
    var accelerated: bool
    var fired: seq<Firing>
    var requests: seq<Request>
    var gap: nat
    ghost var passage: Passage
    ghost var processed: seq<nat>
    ghost var run: seq<Scheduler>

    ghost function Model(pc: Pc): Scheduler
      reads this
    {
      Scheduler(clock, simulatedTimeShift, futureEvents, eventIdGenerator, queue, signals, clients,
                nextTimeout, guards, accelerated, pc, fired, passage, requests, processed)
    }

    ghost predicate At(pc: Pc)
      reads this
    {
      |run| > 0 && Behavior(run) && run[|run| - 1] == Model(pc)
    }

    constructor (clock: nat)
      ensures At(Idle)
    {
      this.clock := clock;
      eventIdGenerator, simulatedTimeShift, futureEvents, nextTimeout := 0, 0, {}, None;
      queue, signals, clients, guards, accelerated, fired, requests, gap := [], 0, 1, 0, false, [], [], 0;
      passage, processed := NoEvent, [];
      run := [Scheduler(clock, 0, {}, 0, [], 0, 1, None, 0, false, Idle, [], NoEvent, [], [])];
    }

    /** Records that the fields now hold the outcome of one step. */
    ghost method Stepped(pc: Pc, a: Action, pc': Pc)
      requires |run| > 0 && Behavior(run) && run[|run| - 1].pc == pc && Enabled(run[|run| - 1], a)
      requires Apply(run[|run| - 1], a) == Model(pc')
      modifies `run
      ensures At(pc') && run == old(run) + [Model(pc')]
    {
      BehaviorExtends(run, a);
      run := run + [Model(pc')];
    }

    /** One action of a client, of its guards or of its flag. */
    method ClientAction(a: Action, ghost pc: Pc)
      requires At(pc) && FromOutside(a) && !a.Tick? && !a.TimerFires? && !a.ScheduleEvent?
      modifies this
      ensures At(pc) && Extends(run, old(run)) && gap == old(gap) && futureEvents == old(futureEvents)
    {
      hide Behavior, TaskStep;
      match a
      case IncGuard =>
        if clients > 0 {
          guards := guards + 1;
          Stepped(pc, a, pc);
        }
      case DecGuard =>
        if clients > signals && guards > 0 {
          guards := guards - 1;
          if guards == 0 {
            signals := signals + 1;
          }
          Stepped(pc, a, pc);
        }
      case Accelerate =>
        if clients > signals {
          accelerated := true;
          signals := signals + 1;
          Stepped(pc, a, pc);
        }
      case SendProcessTime =>
        if signals > 0 {
          signals := signals - 1;
          queue := queue + [ProcessTime];
          Stepped(pc, a, pc);
        }
      case CloneClient =>
        if clients > 0 {
          clients := clients + 1;
          Stepped(pc, a, pc);
        }
      case DropClient =>
        if clients > signals {
          clients := clients - 1;
          Stepped(pc, a, pc);
        }
    }

    /** One action of the surroundings; what is not possible at this point is skipped. */
    method OutsideAction(a: Action, ghost pc: Pc)
      requires At(pc) && FromOutside(a)
      modifies this
      ensures At(pc) && Extends(run, old(run)) && gap == old(gap) && futureEvents == old(futureEvents)
    {
      hide Behavior, TaskStep;
      if a.Tick? {
        clock := clock + a.delta;
        Stepped(pc, a, pc);
      } else if a.TimerFires? {
        if nextTimeout.Some? && nextTimeout.value <= clock {
          nextTimeout := None;
          queue := queue + [ProcessTime];
          Stepped(pc, a, pc);
        }
      } else if a.ScheduleEvent? {
        if clients > 0 {
          queue := queue + [Schedule(a.timeout, |requests|)];
          requests := requests + [Request(a.timeout, clock + simulatedTimeShift)];
          Stepped(pc, a, pc);
        }
      } else {
        ClientAction(a, pc);
      }
    }

    /** The surroundings act for a while. */
    method Yield(env: Surroundings, ghost pc: Pc)
      requires At(pc)
      modifies this
      ensures At(pc) && Extends(run, old(run)) && futureEvents == old(futureEvents)
    {
      hide Behavior;
      var actions := env(gap);
      gap := gap + 1;
      for i := 0 to |actions|
        invariant At(pc) && Extends(run, old(run)) && futureEvents == old(futureEvents)
      {
        if FromOutside(actions[i]) {
          OutsideAction(actions[i], pc);
        }
      }
    }

    /** The heap's head. */
    method Peek(ghost pc: Pc) returns (head: Option<TimeoutEvent>)
      requires At(pc)
      ensures IsHead(futureEvents, head)
    {
      DistinctIds(run);
      hide Behavior;
      head := Least(futureEvents);
    }

    /** The two conditions of advance_time_if_necessary on the client, read one after the other. */
    method MayAdvanceTime(env: Surroundings) returns (may: bool)
      requires At(ReadFlag)
      modifies this
      ensures At(if may then Jump else Arm) && Extends(run, old(run)) && futureEvents == old(futureEvents)
    {
      hide Behavior, IsHead;
      Yield(env, ReadFlag);
      ghost var head := Peek(ReadFlag);
      if (clients == 0 && nextTimeout.None?) || !accelerated {
        passage := if clients == 0 && nextTimeout.None? then NoClient else NotAccelerated;
        Stepped(ReadFlag, Step(head), Arm);
        return false;
      }
      Stepped(ReadFlag, Step(head), ReadGuards);
      Yield(env, ReadGuards);
      may := guards == 0;
      passage := if may then passage else Guarded;
      Stepped(ReadGuards, Step(head), if may then Jump else Arm);
    }

    /** advance_time_if_necessary */
    method AdvanceTimeIfNecessary(env: Surroundings)
      requires At(ReadFlag)
      modifies this
      ensures At(Arm) && Extends(run, old(run)) && futureEvents == old(futureEvents)
    {
      hide Behavior, IsHead;
      var may := MayAdvanceTime(env);
      if !may {
        return;
      }
      Yield(env, Jump);
      var next := Peek(Jump);
      passage := NoEvent;
      if next.Some? {
        var now := clock + simulatedTimeShift;
        if next.value.deadline >= now {
          simulatedTimeShift := simulatedTimeShift + (next.value.deadline - now);
        }
        passage := Jumped;
      }
      Stepped(Jump, Step(next), Arm);
    }

    /** schedule_next_timeout */
    method ScheduleNextTimeout(env: Surroundings)
      requires At(Arm)
      modifies this
      ensures At(Idle) && Extends(run, old(run)) && futureEvents == old(futureEvents)
    {
      hide Behavior;
      Yield(env, Arm);
      var next := Peek(Arm);
      if (clients > 0 || nextTimeout.Some?) && next.Some? {
        var now := clock + simulatedTimeShift;
        var timeout := if next.value.deadline <= now then 0 else next.value.deadline - now;
        nextTimeout := Some(clock + timeout);
      }
      Stepped(Arm, Step(next), Idle);
    }

    /** The loop of process_time: runs the callback of every elapsed event. */
    method PopElapsed(env: Surroundings, now: nat)
      requires At(Popping(now))
      modifies this
      ensures At(ReadFlag) && Extends(run, old(run))
    {
      hide Behavior;
      while true
        invariant At(Popping(now)) && Extends(run, old(run))
        decreases |futureEvents|
      {
        Yield(env, Popping(now));
        var head := Peek(Popping(now));
        if head.None? || head.value.deadline > now {
          Stepped(Popping(now), Step(head), ReadFlag);
          break;
        }
        futureEvents := futureEvents - {head.value};
        fired := fired + [Firing(head.value, clock + simulatedTimeShift)];
        Stepped(Popping(now), Step(head), Popping(now));
      }
    }

    /** process_time */
    method ProcessTimeMessage(env: Surroundings)
      requires At(ReadNow)
      modifies this
      ensures At(Idle) && Extends(run, old(run))
    {
      hide Behavior, IsHead;
      Yield(env, ReadNow);
      ghost var first := Peek(ReadNow);
      var now := clock + simulatedTimeShift;
      Stepped(ReadNow, Step(first), Popping(now));
      PopElapsed(env, now);
      AdvanceTimeIfNecessary(env);
      ScheduleNextTimeout(env);
    }

    /** process_schedule */
    method ProcessScheduleMessage(env: Surroundings, timeout: nat, callback: nat)
      requires At(Scheduling(timeout, callback))
      modifies this
      ensures At(Idle) && Extends(run, old(run))
      ensures callback < |requests| && requests[callback].timeout == timeout
      ensures IsPending(Model(Idle), callback) || HasFired(Model(Idle), callback)
    {
      hide Behavior, IsPending, HasFired;
      ghost var m := |run| - 1;
      Yield(env, Scheduling(timeout, callback));
      ghost var before := |run| - 1;
      ghost var head := Peek(Scheduling(timeout, callback));
      var deadline := clock + simulatedTimeShift + timeout;
      futureEvents := futureEvents + {TimeoutEvent(deadline, eventIdGenerator, callback)};
      processed := processed + [clock + simulatedTimeShift];
      eventIdGenerator := eventIdGenerator + 1;
      Stepped(Scheduling(timeout, callback), Step(head), ReadNow);
      ghost var after := |run| - 1;
      ProcessTimeMessage(env);
      RequestsStand(run, m, before);
      RequestsStand(run, after, |run| - 1);
      TakenUp(run, m, |run| - 1);
    }

    /** The body of the receive loop, with the surroundings acting while it waits for a message. */
    method HandleNextMessage(env: Surroundings)
      requires At(Idle)
      modifies this
      ensures At(Idle) && Extends(run, old(run))
    {
      hide Behavior;
      Yield(env, Idle);
      if queue == [] {
        return;
      }
      var message := queue[0];
      queue := queue[1..];
      match message
      case ProcessTime =>
        Stepped(Idle, Receive, ReadNow);
        ProcessTimeMessage(env);
      case Schedule(timeout, callback) =>
        Stepped(Idle, Receive, Scheduling(timeout, callback));
        ProcessScheduleMessage(env, timeout, callback);
    }
  }

  /**
   Any number of messages: the callbacks fire in order, and none before the timeout it was requested with
   has passed since the request.
   */
  method Serve(clock: nat, env: Surroundings, rounds: nat) returns (requests: seq<Request>, fired: seq<Firing>)
    ensures forall i, j :: 0 <= i < j < |fired| ==> Before(fired[i].event, fired[j].event)
    ensures forall i :: 0 <= i < |fired| ==>
              && fired[i].event.callback < |requests|
              && fired[i].at >= requests[fired[i].event.callback].sentAt + requests[fired[i].event.callback].timeout
  {
    var task := new Task(clock);
    for i := 0 to rounds
      invariant fresh(task) && task.At(Idle)
    {
      task.HandleNextMessage(env);
    }
    requests, fired := task.requests, task.fired;
    OrderedAlways(task.run, |task.run| - 1);
    forall i | 0 <= i < |fired|
      ensures fired[i].event.callback < |requests|
              && fired[i].at >= requests[fired[i].event.callback].sentAt + requests[fired[i].event.callback].timeout
    {
      NeverFiresEarly(task.run, |task.run| - 1, fired[i]);
    }
  }
}
