/**
 The actor's execution loop as it is written: nested receive and process loops, with the kill
 switch, the actor state and the reference count read where the code reads them.

 Other threads act between any two steps, and handlers answer as they like; both are arbitrary
 parameters. `budget` bounds how many steps are taken, since a loop may be kept busy or waiting for
 ever. Receives on the inbox are taken one atomic operation at a time; their code is that of
 `PriorityReceiver`. Every execution is a run of the actor machine.
 */
module ActorTask {
  import opened Wrappers
  import opened ActorLoop
  import ActorModes
  import PriorityChannel

  type Others = nat -> seq<Action>

  type Handlers = nat -> Reply

  type Inbox = PriorityChannel.Channel<Body>

  /** A handler that answers success ends the actor, but not as `Completed`. */
  function Answer(reply: Reply): Reply {
    if reply == Stop(Completed) then Stop(HandlerSuccess) else reply
  }

  lemma Agreed(run: seq<Actor>)
    requires Behavior(run)
    ensures PcsAgree(run[|run| - 1]) && run[|run| - 1].ch.senders == 1
    ensures run[|run| - 1].ch.pc.Done? && run[|run| - 1].pc.Receiving? ==> run[|run| - 1].ch.pc.outcome.Got?
  {
    InvAlways(run, |run| - 1);
    if run[|run| - 1].ch.pc.Done? && run[|run| - 1].pc.Receiving? {
      ReceiveNeverFails(run, |run| - 1);
    }
  }

  /** A step that only moves the loop on. */
  predicate Moves(s: Actor, reply: Reply, next: ActorPc) {
    Enabled(s, ActorStep(reply)) && Step(s, reply) == s.(pc := next)
  }

  lemma ChecksMove(s: Actor)
    ensures s.pc.Top? ==> Moves(s, Ok, if s.killed then Exited(Killed) else ReadMode)
    ensures s.pc.InHand? ==>
              Moves(s, Ok, if s.killed then Exited(Killed) else Handling(s.pc.msg, s.pc.draining))
    ensures s.pc.AfterFirst? ==> Moves(s, Ok, if s.running then DrainStart else CheckLast)
    ensures s.pc.CheckLast? && s.refCount != 1 ==> Moves(s, Ok, Top)
  {
  }

  lemma EmptinessReadsMove(s: Actor)
    ensures s.pc.DrainLow? ==> Moves(s, Ok, if s.ch.low == [] then DrainStash else DrainStart)
    ensures s.pc.DrainStash? ==> Moves(s, Ok, if s.ch.stash.None? then DrainHigh else DrainStart)
    ensures s.pc.DrainHigh? ==> Moves(s, Ok, if s.ch.high == [] then OnDrained else DrainStart)
    ensures s.pc.LastLow? ==> Moves(s, Ok, if s.ch.low == [] then LastStash else Top)
    ensures s.pc.LastStash? ==> Moves(s, Ok, if s.ch.stash.None? then LastHigh else Top)
    ensures s.pc.LastHigh? ==> Moves(s, Ok, if s.ch.high == [] then Exited(Completed) else Top)
  {
  }

  lemma AnswersMove(s: Actor, reply: Reply)
    requires reply != Stop(Completed)
    ensures s.pc.OnDrained? ==> Moves(s, reply, if reply.Stop? then Exited(reply.exit) else CheckLast)
    ensures s.pc.Handling? ==>
              match s.pc.msg.body
              case Quit => Moves(s, reply, Exited(HandlerQuit))
              case ExitWithSuccess => Moves(s, reply, Exited(HandlerSuccess))
              case Work(_) => reply.Stop? ==> Moves(s, reply, Exited(reply.exit))
              case _ => true
  {
  }

  /** The message has been dealt with, and the loop goes on. */
  lemma HandledSteps(s: Actor, reply: Reply)
    requires s.pc.Handling? && reply != Stop(Completed)
    requires !s.pc.msg.body.Quit? && !s.pc.msg.body.ExitWithSuccess? && (s.pc.msg.body.Work? ==> !reply.Stop?)
    ensures Enabled(s, ActorStep(reply))
    ensures Apply(s, ActorStep(reply))
            == s.(handled := s.handled + [s.pc.msg],
                  running := !s.pc.msg.body.Pause? && (s.pc.msg.body.Resume? || s.running),
                  pc := if s.pc.draining then DrainStart else AfterFirst)
  {
  }

  datatype Progress = Continue | Ended(exit: Exit) | OutOfBudget

  class ExecutionEnv {
    // The inbox, with the receive in progress on it
    var inbox: Inbox
    // The context: the mailbox's reference count, the actor state and the kill switch
    var refCount: nat
    var running: bool
    var killed: bool
    // The mailboxes elsewhere, and their drops that have a Nudge to send
    var handles: nat
    var nudgers: nat
    var gap: nat
    var budget: nat
    // What was handled, and how much had been sent when the count was last read as one
    var handled: seq<Msg>
    var checkedAt: nat
    ghost var late: bool
    ghost var run: seq<Actor>

    ghost function Model(pc: ActorPc): Actor
      reads this
    {
      Actor(inbox, refCount, handles, nudgers, running, killed, pc, handled, checkedAt, late)
    }

    ghost predicate At(pc: ActorPc)
      reads this
    {
      |run| > 0 && Behavior(run) && run[|run| - 1] == Model(pc)
    }

    /** Where the loop stands when a part of it has returned. */
    ghost predicate Reached(p: Progress, pc: ActorPc)
      reads this
    {
      && (p.Continue? ==> At(pc))
      && (p.Ended? ==> At(Exited(p.exit)))
      && (p.OutOfBudget? ==> budget == 0 && |run| > 0 && At(run[|run| - 1].pc))
    }

    constructor (budget: nat)
      ensures At(Top)
    {
      this.budget := budget;
      inbox := PriorityChannel.Channel([], [], [], None, 1, PriorityChannel.Idle, []);
      refCount, running, killed, handles, nudgers, gap := 2, true, false, 1, 0, 0;
      handled, checkedAt, late := [], 0, false;
      new;
      run := [Model(Top)];
    }

    /** Records that the fields now hold the outcome of one step. */
    ghost method Recorded(a: Action, pc: ActorPc)
      requires |run| > 0 && Behavior(run) && Enabled(run[|run| - 1], a) && Apply(run[|run| - 1], a) == Model(pc)
      modifies `run
      ensures At(pc) && old(run) <= run
    {
      run := Extend(run, a);
    }

    /** Moves the loop on. */
    ghost method Goto(pc: ActorPc, reply: Reply, next: ActorPc)
      requires At(pc) && Moves(Model(pc), reply, next)
      modifies `run
      ensures At(next) && old(run) <= run
    {
      hide Behavior;
      Recorded(ActorStep(reply), next);
    }

    /** A send by another thread, directly or at the end of a drop. */
    method SendAction(a: Action, ghost pc: ActorPc)
      requires At(pc) && (a.SendMessage? || a.SendNudge?)
      modifies this
      ensures At(pc) && old(run) <= run && budget == old(budget) && inbox.pc == old(inbox.pc)
    {
      hide Behavior, Step;
      match a
      case SendMessage(priority, body, viaContext) =>
        if inbox.senders > 0 && (viaContext || handles > 0) {
          inbox := PriorityChannel.Enqueue(inbox, priority, body);
          late := late || (viaContext && PastCheck(pc));
          Recorded(a, pc);
        }
      case SendNudge =>
        if nudgers > 0 && inbox.senders > 0 {
          nudgers := nudgers - 1;
          inbox := PriorityChannel.Enqueue(inbox, PriorityChannel.High, Nudge);
          Recorded(a, pc);
        }
    }

    /** A clone, an upgrade or the first half of a drop of a mailbox by another thread. */
    method MailboxAction(a: Action, ghost pc: ActorPc)
      requires At(pc) && (a.AddHandle? || a.DropHandle?)
      modifies this
      ensures At(pc) && old(run) <= run && budget == old(budget) && inbox.pc == old(inbox.pc)
    {
      hide Behavior, Step;
      if a.AddHandle? {
        refCount := refCount + 1;
        handles := handles + 1;
        late := late || PastCheck(pc);
        Recorded(a, pc);
      } else if handles > 0 && refCount > 0 {
        var oldVal := refCount;
        refCount := refCount - 1;
        handles := handles - 1;
        if oldVal == 2 {
          nudgers := nudgers + 1;
        }
        Recorded(a, pc);
      }
    }

    /** One action of another thread; what is not possible at this point is skipped. */
    method OutsideAction(a: Action, ghost pc: ActorPc)
      requires At(pc) && !a.ActorStep?
      modifies this
      ensures At(pc) && old(run) <= run && budget == old(budget) && inbox.pc == old(inbox.pc)
    {
      hide Behavior, Step;
      match a
      case ActivateKillSwitch =>
        killed := true;
        Recorded(a, pc);
      case SetRunning(on) =>
        running := on;
        Recorded(a, pc);
      case AddHandle => MailboxAction(a, pc);
      case DropHandle => MailboxAction(a, pc);
      case SendMessage(_, _, _) => SendAction(a, pc);
      case SendNudge => SendAction(a, pc);
    }

    /** Other threads act for a while. */
    method Yield(env: Others, ghost pc: ActorPc)
      requires At(pc)
      modifies this
      ensures At(pc) && old(run) <= run && budget == old(budget) && inbox.pc == old(inbox.pc)
    {
      hide Behavior;
      var actions := env(gap);
      gap := gap + 1;
      for i := 0 to |actions|
        invariant At(pc) && old(run) <= run && budget == old(budget) && inbox.pc == old(inbox.pc)
      {
        if !actions[i].ActorStep? {
          OutsideAction(actions[i], pc);
        }
      }
    }

    /** One operation of the receive in progress on the inbox. */
    method InboxStep(env: Others, ghost pc: ActorPc)
      requires At(pc) && (pc.Receiving? || pc.DrainReceiving?) && !inbox.pc.Done?
      modifies this
      ensures At(pc) && old(run) <= run && budget == old(budget)
    {
      Yield(env, pc);
      Agreed(run);
      hide Behavior, PriorityChannel.Step;
      inbox := PriorityChannel.Step(inbox);
      Recorded(ActorStep(Ok), pc);
    }

    /** Begins a receive on the inbox. */
    method BeginReceive(start: PriorityChannel.Pc<Body>, ghost pc: ActorPc, ghost next: ActorPc)
      requires At(pc) && Enabled(Model(pc), ActorStep(Ok))
      requires Step(Model(pc), Ok) == Model(next).(ch := inbox.(pc := start))
      modifies this
      ensures At(next) && old(run) <= run && budget == old(budget)
    {
      hide Behavior, Step;
      inbox := inbox.(pc := start);
      Recorded(ActorStep(Ok), next);
    }

    /** Polls the receive in progress until it has an outcome. */
    method AwaitOutcome(env: Others, ghost pc: ActorPc) returns (done: bool)
      requires At(pc) && (pc.Receiving? || pc.DrainReceiving?)
      modifies this
      ensures At(pc) && old(run) <= run && budget <= old(budget)
      ensures if done then inbox.pc.Done? else budget == 0
    {
      hide Behavior;
      while !inbox.pc.Done?
        invariant At(pc) && old(run) <= run && budget <= old(budget)
        decreases budget
      {
        if budget == 0 {
          return false;
        }
        budget := budget - 1;
        InboxStep(env, pc);
      }
      return true;
    }

    /** The actor has been paused since that point of the run. */
    ghost predicate PausedSince(start: nat)
      reads this
    {
      forall i :: start <= i < |run| ==> !run[i].running
    }

    lemma PausedReceivesNoLow(start: nat)
      requires |run| > 0 && Behavior(run) && run[|run| - 1].ch == inbox
      requires start < |run| && run[start].pc.ReadMode?
      ensures PausedSince(start) ==>
                PriorityChannel.Of(inbox.delivered, PriorityChannel.Low)
                == PriorityChannel.Of(run[start].ch.delivered, PriorityChannel.Low)
    {
      if PausedSince(start) {
        ActorModes.PausedAlong(run, start, |run| - 1);
      }
    }

    /** recv_envelope */
    method RecvEnvelope(env: Others) returns (p: Progress, msg: Msg)
      requires At(ReadMode)
      modifies this
      ensures old(run) <= run && Reached(p, InHand(msg, false)) && !p.Ended? && budget <= old(budget)
      ensures PausedSince(old(|run|) - 1) ==>
                PriorityChannel.Of(inbox.delivered, PriorityChannel.Low)
                == PriorityChannel.Of(old(inbox.delivered), PriorityChannel.Low)
    {
      ghost var start := |run| - 1;
      Yield(env, ReadMode);
      Agreed(run);
      hide Behavior;
      msg := PriorityChannel.Message(PriorityChannel.High, 0, Nudge);
      BeginReceive(
        if running then PriorityChannel.ProbePop(PriorityChannel.AtStart) else PriorityChannel.OnlyHigh,
        ReadMode, Receiving);
      var done := AwaitOutcome(env, Receiving);
      if !done {
        PausedReceivesNoLow(start);
        return OutOfBudget, msg;
      }
      msg := TakeEnvelope();
      PausedReceivesNoLow(start);
      return Continue, msg;
    }

    /** The outcome of a blocking receive is always a message. */
    method TakeEnvelope() returns (msg: Msg)
      requires At(Receiving) && inbox.pc.Done?
      modifies this
      ensures At(InHand(msg, false)) && old(run) <= run && budget == old(budget)
    {
      Agreed(run);
      hide Behavior;
      msg := inbox.pc.outcome.msg;
      inbox := inbox.(pc := PriorityChannel.Idle);
      Recorded(ActorStep(Ok), InHand(msg, false));
    }

    /** process_one_message */
    method ProcessOneMessage(env: Others, handlers: Handlers, msg: Msg, draining: bool) returns (p: Progress)
      requires At(InHand(msg, draining))
      modifies this
      ensures old(run) <= run && budget == old(budget)
      ensures Reached(p, if draining then DrainStart else AfterFirst) && !p.OutOfBudget?
    {
      hide Behavior, Moves;
      Yield(env, InHand(msg, draining));
      ChecksMove(Model(InHand(msg, draining)));
      if killed {
        Goto(InHand(msg, draining), Ok, Exited(Killed));
        return Ended(Killed);
      }
      Goto(InHand(msg, draining), Ok, Handling(msg, draining));
      Yield(env, Handling(msg, draining));
      p := HandleMessage(Answer(handlers(gap)), msg, draining);
    }

    /** Commands are handled by the loop, anything else by the actor's own code, which answers `reply`. */
    method HandleMessage(reply: Reply, msg: Msg, draining: bool) returns (p: Progress)
      requires At(Handling(msg, draining)) && reply != Stop(Completed)
      modifies this
      ensures old(run) <= run && budget == old(budget)
      ensures Reached(p, if draining then DrainStart else AfterFirst) && !p.OutOfBudget?
    {
      hide Behavior, Moves, Enabled, Apply;
      ghost var before := Model(Handling(msg, draining));
      AnswersMove(before, reply);
      match msg.body {
        case Quit =>
          Goto(Handling(msg, draining), reply, Exited(HandlerQuit));
          return Ended(HandlerQuit);
        case ExitWithSuccess =>
          Goto(Handling(msg, draining), reply, Exited(HandlerSuccess));
          return Ended(HandlerSuccess);
        case Work(_) =>
          if reply.Stop? {
            Goto(Handling(msg, draining), reply, Exited(reply.exit));
            return Ended(reply.exit);
          }
        case Pause =>
          running := false;
        case Resume =>
          running := true;
        case Nudge =>
      }
      handled := handled + [msg];
      HandledSteps(before, reply);
      Recorded(ActorStep(reply), if draining then DrainStart else AfterFirst);
      return Continue;
    }

    /** try_recv_envelope */
    method TryRecvEnvelope(env: Others) returns (p: Progress, got: bool, msg: Msg)
      requires At(DrainStart)
      modifies this
      ensures old(run) <= run && budget <= old(budget) && !p.Ended?
      ensures Reached(p, if got then InHand(msg, true) else DrainLow)
    {
      Yield(env, DrainStart);
      Agreed(run);
      hide Behavior;
      msg := PriorityChannel.Message(PriorityChannel.High, 0, Nudge);
      BeginReceive(PriorityChannel.TryHigh, DrainStart, DrainReceiving);
      var done := AwaitOutcome(env, DrainReceiving);
      if !done {
        return OutOfBudget, false, msg;
      }
      got, msg := TakeIfAny();
      p := Continue;
    }

    /** The outcome of a drain's receive is a message or nothing. */
    method TakeIfAny() returns (got: bool, msg: Msg)
      requires At(DrainReceiving) && inbox.pc.Done?
      modifies this
      ensures At(if got then InHand(msg, true) else DrainLow) && old(run) <= run && budget == old(budget)
    {
      hide Behavior;
      msg := PriorityChannel.Message(PriorityChannel.High, 0, Nudge);
      got := inbox.pc.outcome.Got?;
      if got {
        msg := inbox.pc.outcome.msg;
      }
      inbox := inbox.(pc := PriorityChannel.Idle);
      Recorded(ActorStep(Ok), if got then InHand(msg, true) else DrainLow);
    }

    /** is_empty after the drain: three reads, the first non-empty one ends it. */
    method DrainedIsEmpty(env: Others) returns (empty: bool)
      requires At(DrainLow)
      modifies this
      ensures old(run) <= run && budget == old(budget) && At(if empty then OnDrained else DrainStart)
    {
      hide Behavior, Moves;
      Yield(env, DrainLow);
      EmptinessReadsMove(Model(DrainLow));
      empty := inbox.low == [];
      Goto(DrainLow, Ok, if empty then DrainStash else DrainStart);
      if !empty {
        return;
      }
      Yield(env, DrainStash);
      EmptinessReadsMove(Model(DrainStash));
      empty := inbox.stash.None?;
      Goto(DrainStash, Ok, if empty then DrainHigh else DrainStart);
      if !empty {
        return;
      }
      Yield(env, DrainHigh);
      EmptinessReadsMove(Model(DrainHigh));
      empty := inbox.high == [];
      Goto(DrainHigh, Ok, if empty then OnDrained else DrainStart);
    }

    /** The loop that consumes all the messages in the inbox. */
    method Drain(env: Others, handlers: Handlers) returns (p: Progress)
      requires At(DrainStart)
      modifies this
      ensures old(run) <= run && Reached(p, OnDrained)
    {
      hide Behavior;
      while true
        invariant At(DrainStart) && old(run) <= run
        decreases budget
      {
        if budget == 0 {
          return OutOfBudget;
        }
        budget := budget - 1;
        var r, got, msg := TryRecvEnvelope(env);
        if r.OutOfBudget? {
          return r;
        }
        if got {
          r := ProcessOneMessage(env, handlers, msg, true);
          if !r.Continue? {
            return r;
          }
        } else {
          var empty := DrainedIsEmpty(env);
          if empty {
            return Continue;
          }
        }
      }
    }

    /** is_last_mailbox, then is_empty. */
    method CheckCompleted(env: Others) returns (p: Progress)
      requires At(CheckLast)
      modifies this
      ensures old(run) <= run && Reached(p, Top) && !p.OutOfBudget?
      ensures p.Ended? ==> p.exit == Completed
    {
      hide Behavior, Moves;
      Yield(env, CheckLast);
      ChecksMove(Model(CheckLast));
      if refCount != 1 {
        Goto(CheckLast, Ok, Top);
        return Continue;
      }
      checkedAt, late := |inbox.sent|, false;
      Recorded(ActorStep(Ok), LastLow);
      var empty := LastIsEmpty(env);
      return if empty then Ended(Completed) else Continue;
    }

    method LastIsEmpty(env: Others) returns (empty: bool)
      requires At(LastLow)
      modifies this
      ensures old(run) <= run && At(if empty then Exited(Completed) else Top)
    {
      hide Behavior, Moves;
      Yield(env, LastLow);
      EmptinessReadsMove(Model(LastLow));
      empty := inbox.low == [];
      Goto(LastLow, Ok, if empty then LastStash else Top);
      if !empty {
        return;
      }
      Yield(env, LastStash);
      EmptinessReadsMove(Model(LastStash));
      empty := inbox.stash.None?;
      Goto(LastStash, Ok, if empty then LastHigh else Top);
      if !empty {
        return;
      }
      Yield(env, LastHigh);
      EmptinessReadsMove(Model(LastHigh));
      empty := inbox.high == [];
      Goto(LastHigh, Ok, if empty then Exited(Completed) else Top);
    }

    /** The part of process_all_available_messages after its first message. */
    method DrainIfRunning(env: Others, handlers: Handlers) returns (p: Progress)
      requires At(AfterFirst)
      modifies this
      ensures old(run) <= run && Reached(p, CheckLast)
    {
      hide Behavior, Moves;
      Yield(env, AfterFirst);
      ChecksMove(Model(AfterFirst));
      Goto(AfterFirst, Ok, if running then DrainStart else CheckLast);
      if !running {
        return Continue;
      }
      p := Drain(env, handlers);
      if !p.Continue? {
        return;
      }
      Yield(env, OnDrained);
      var reply := Answer(handlers(gap));
      AnswersMove(Model(OnDrained), reply);
      Goto(OnDrained, reply, if reply.Stop? then Exited(reply.exit) else CheckLast);
      return if reply.Stop? then Ended(reply.exit) else Continue;
    }

    /** process_all_available_messages up to the first message handled. */
    method ProcessFirstMessage(env: Others, handlers: Handlers) returns (p: Progress)
      requires At(Top)
      modifies this
      ensures old(run) <= run && Reached(p, AfterFirst)
    {
      hide Behavior, Moves;
      Yield(env, Top);
      ChecksMove(Model(Top));
      if killed {
        Goto(Top, Ok, Exited(Killed));
        return Ended(Killed);
      }
      Goto(Top, Ok, ReadMode);
      var r, msg := RecvEnvelope(env);
      if r.OutOfBudget? {
        return r;
      }
      p := ProcessOneMessage(env, handlers, msg, false);
    }

    /** process_all_available_messages */
    method ProcessAllAvailableMessages(env: Others, handlers: Handlers) returns (p: Progress)
      requires At(Top)
      modifies this
      ensures old(run) <= run && Reached(p, Top)
    {
      hide Behavior;
      p := ProcessFirstMessage(env, handlers);
      if p.Continue? {
        p := DrainIfRunning(env, handlers);
      }
      if p.Continue? {
        p := CheckCompleted(env);
      }
    }
  }

  /**
   process_messages, for any number of turns: when the loop completes the actor, what it has handled
   is exactly what was sent before its last look at the reference count.
   */
  method ProcessMessages(env: Others, handlers: Handlers, turns: nat, budget: nat)
    returns (p: Progress, sent: seq<Msg>, handled: seq<Msg>, checkedAt: nat)
    ensures p == Ended(Completed) ==>
              forall i :: 0 <= i < |sent| ==> (sent[i] in handled <==> i < checkedAt)
  {
    var actor := new ExecutionEnv(budget);
    p := Continue;
    for i := 0 to turns
      invariant fresh(actor) && actor.Reached(p, Top) && |actor.run| > 0
    {
      if !p.Continue? {
        break;
      }
      p := actor.ProcessAllAvailableMessages(env, handlers);
    }
    sent, handled, checkedAt := actor.inbox.sent, actor.handled, actor.checkedAt;
    if p == Ended(Completed) {
      forall i | 0 <= i < |sent| ensures sent[i] in handled <==> i < checkedAt {
        CompletedHandledIffBeforeCheck(actor.run, |actor.run| - 1, i);
      }
    }
  }
}
