/**
 What the actor's state, its kill switch and its drain mean for the messages it handles, and why it exits.
 */
module ActorModes {
  import opened Wrappers
  import opened PriorityChannel
  import opened ActorLoop

  // ---------------------------------------------------------------------------
  // While paused, low-priority messages wait

  /** The actor is not draining, and its receive, if any, is one of high-priority messages only. */
  predicate OffDuty(s: Actor) {
    match s.pc
    case Receiving => s.ch.pc.OnlyHigh? || s.ch.pc.Done?
    case InHand(_, draining) => !draining
    case Handling(_, draining) => !draining
    case DrainStart => false
    case DrainReceiving => false
    case DrainLow => false
    case DrainStash => false
    case DrainHigh => false
    case OnDrained => false
    case _ => true
  }

  lemma HighQueueIsHigh<T>(c: Channel<T>)
    requires Conserved(c) && c.high != []
    ensures c.high[0].priority == High
  {
    assert c.high[0] in Of(c.delivered, High) + c.high;
    OfMembers(c.sent, High, c.high[0]);
  }

  ghost predicate NoLowDelivered(s: Actor, s': Actor) {
    Of(s'.ch.delivered, Low) == Of(s.ch.delivered, Low)
  }

  lemma OnlyHighLeavesLow<T>(c: Channel<T>)
    requires Conserved(c) && c.pc.OnlyHigh?
    ensures var c' := PriorityChannel.Step(c);
            && (c'.pc.OnlyHigh? || c'.pc.Done?)
            && Of(c'.delivered, Low) == Of(c.delivered, Low)
  {
    if c.high != [] {
      HighQueueIsHigh(c);
      OfAppend(c.delivered, c.high[0], Low);
    }
  }

  lemma PausedReceive(s: Actor, reply: Reply)
    requires Conserved(s.ch) && ActorLoop.Enabled(s, ActorStep(reply)) && OffDuty(s) && s.pc.Receiving?
    ensures OffDuty(ActorLoop.Step(s, reply)) && NoLowDelivered(s, ActorLoop.Step(s, reply))
  {
    hide PriorityChannel.Step, Conserved;
    if s.ch.pc.OnlyHigh? {
      OnlyHighLeavesLow(s.ch);
    }
  }

  lemma PausedStep(s: Actor, reply: Reply)
    requires Conserved(s.ch) && ActorLoop.Enabled(s, ActorStep(reply)) && OffDuty(s) && !s.running
    ensures OffDuty(ActorLoop.Step(s, reply)) && NoLowDelivered(s, ActorLoop.Step(s, reply))
  {
    hide Conserved, PriorityChannel.Step;
    if s.pc.Receiving? {
      PausedReceive(s, reply);
    }
  }

  lemma PausedApply(s: Actor, a: ActorLoop.Action)
    requires Conserved(s.ch) && ActorLoop.Enabled(s, a) && OffDuty(s) && !s.running
    ensures OffDuty(ActorLoop.Apply(s, a)) && NoLowDelivered(s, ActorLoop.Apply(s, a))
  {
    hide Conserved, ActorLoop.Step;
    if a.ActorStep? {
      PausedStep(s, a.reply);
    }
  }

  lemma {:induction false} PausedAlong(run: seq<Actor>, m: nat, n: nat)
    requires ActorLoop.Behavior(run) && m <= n < |run| && OffDuty(run[m])
    requires forall i :: m <= i < n ==> !run[i].running
    ensures OffDuty(run[n]) && NoLowDelivered(run[m], run[n])
  {
    hide ActorLoop.Apply, ActorLoop.Enabled, OffDuty, Conserved;
    if m < n {
      PausedAlong(run, m, n - 1);
      assert Conserved(run[n - 1].ch) by {
        ActorLoop.InvAlways(run, n - 1);
      }
      assert ActorLoop.Next(run[n - 1], run[n - 1 + 1]);
      var a :| ActorLoop.Enabled(run[n - 1], a) && run[n] == ActorLoop.Apply(run[n - 1], a);
      PausedApply(run[n - 1], a);
    }
  }

  /**
   From the top of the loop on, as long as the actor is paused, no low-priority message is delivered to it,
   whatever is sent and however many commands it handles.
   */
  lemma PausedLeavesLowWaiting(run: seq<Actor>, m: nat, n: nat)
    requires ActorLoop.Behavior(run) && m <= n < |run| && run[m].pc.Top?
    requires forall i :: m <= i < n ==> !run[i].running
    ensures Of(run[n].ch.delivered, Low) == Of(run[m].ch.delivered, Low)
  {
    PausedAlong(run, m, n);
  }

  /** Without anyone else setting it, the state follows the commands handled. */
  function RunningAfter(handled: seq<Msg>): bool {
    if handled == [] then true
    else
      var last := handled[|handled| - 1].body;
      if last.Pause? then false else if last.Resume? then true else RunningAfter(handled[..|handled| - 1])
  }

  ghost predicate StateIsItsOwn(run: seq<Actor>) {
    forall i :: 0 <= i < |run| - 1 ==> exists a ::
      ActorLoop.Enabled(run[i], a) && run[i + 1] == ActorLoop.Apply(run[i], a) && !a.SetRunning?
  }

  lemma HandleFollows(s: Actor, reply: Reply)
    requires s.pc.Handling? && s.running == RunningAfter(s.handled)
    ensures var s' := Handle(s, s.pc.msg, s.pc.draining, reply); s'.running == RunningAfter(s'.handled)
  {
    hide RunningAfter;
    RunningAppend(s.handled, s.pc.msg);
  }

  lemma RunningAppend(handled: seq<Msg>, msg: Msg)
    ensures RunningAfter(handled + [msg])
            == if msg.body.Pause? then false else if msg.body.Resume? then true else RunningAfter(handled)
  {
    assert (handled + [msg])[..|handled|] == handled;
  }

  lemma StepFollows(s: Actor, a: ActorLoop.Action)
    requires ActorLoop.Enabled(s, a) && !a.SetRunning? && s.running == RunningAfter(s.handled)
    ensures ActorLoop.Apply(s, a).running == RunningAfter(ActorLoop.Apply(s, a).handled)
  {
    hide RunningAfter, PriorityChannel.Step, Handle;
    if a.ActorStep? && s.pc.Handling? {
      HandleFollows(s, a.reply);
    }
  }

  lemma {:induction false} StateFollowsCommands(run: seq<Actor>, n: nat)
    requires ActorLoop.Behavior(run) && StateIsItsOwn(run) && n < |run|
    ensures run[n].running == RunningAfter(run[n].handled)
  {
    hide ActorLoop.Apply, ActorLoop.Enabled;
    if n > 0 {
      StateFollowsCommands(run, n - 1);
      var i := n - 1;
      var a :| ActorLoop.Enabled(run[i], a) && run[i + 1] == ActorLoop.Apply(run[i], a) && !a.SetRunning?;
      StepFollows(run[i], a);
    }
  }

  // ---------------------------------------------------------------------------
  // Once killed, nothing more is taken up

  function Budget(s: Actor): nat {
    |s.handled| + (if s.pc.Handling? then 1 else 0)
  }

  lemma KilledHandle(s: Actor, reply: Reply)
    requires s.pc.Handling?
    ensures var s' := Handle(s, s.pc.msg, s.pc.draining, reply); s'.killed == s.killed && Budget(s') <= Budget(s)
  {
  }

  lemma KilledApply(s: Actor, a: ActorLoop.Action)
    requires ActorLoop.Enabled(s, a) && s.killed
    ensures ActorLoop.Apply(s, a).killed && Budget(ActorLoop.Apply(s, a)) <= Budget(s)
  {
    hide PriorityChannel.Step, Handle;
    if a.ActorStep? && s.pc.Handling? {
      KilledHandle(s, a.reply);
    }
  }

  /**
   Once its kill switch is activated an actor handles nothing more, except the message it is already
   handling.
   */
  lemma {:induction false} KilledHandlesNoMore(run: seq<Actor>, m: nat, n: nat)
    requires ActorLoop.Behavior(run) && m <= n < |run| && run[m].killed
    ensures run[n].killed
    ensures |run[n].handled| <= |run[m].handled| + (if run[m].pc.Handling? then 1 else 0)
    ensures Budget(run[n]) <= Budget(run[m])
  {
    hide ActorLoop.Apply, ActorLoop.Enabled;
    if m < n {
      KilledHandlesNoMore(run, m, n - 1);
      assert ActorLoop.Next(run[n - 1], run[n - 1 + 1]);
      var a :| ActorLoop.Enabled(run[n - 1], a) && run[n] == ActorLoop.Apply(run[n - 1], a);
      KilledApply(run[n - 1], a);
    }
  }

  lemma KilledAvoidsWaiting(s: Actor, a: ActorLoop.Action)
    requires ActorLoop.Enabled(s, a) && s.killed && !s.pc.ReadMode? && !s.pc.Receiving?
    ensures !ActorLoop.Apply(s, a).pc.ReadMode? && !ActorLoop.Apply(s, a).pc.Receiving?
  {
    hide PriorityChannel.Step, Handle;
    if a.ActorStep? && s.pc.Handling? {
      HandleGoes(s, a.reply);
    }
  }

  /** And it does not begin to wait for a message. */
  lemma {:induction false} KilledNeverWaits(run: seq<Actor>, m: nat, n: nat)
    requires ActorLoop.Behavior(run) && m <= n < |run|
    requires run[m].killed && !run[m].pc.ReadMode? && !run[m].pc.Receiving?
    ensures !run[n].pc.ReadMode? && !run[n].pc.Receiving?
  {
    hide ActorLoop.Apply, ActorLoop.Enabled;
    if m < n {
      KilledNeverWaits(run, m, n - 1);
      KilledHandlesNoMore(run, m, n - 1);
      assert ActorLoop.Next(run[n - 1], run[n - 1 + 1]);
      var a :| ActorLoop.Enabled(run[n - 1], a) && run[n] == ActorLoop.Apply(run[n - 1], a);
      KilledAvoidsWaiting(run[n - 1], a);
    }
  }

  // ---------------------------------------------------------------------------
  // Nudges

  lemma OwnStepKeepsMailboxes(s: Actor, reply: Reply)
    requires ActorLoop.Enabled(s, ActorStep(reply))
    ensures var s' := ActorLoop.Step(s, reply); s'.handles == s.handles && s'.nudgers == s.nudgers
  {
    hide PriorityChannel.Step;
  }

  lemma DropStep(s: Actor, a: ActorLoop.Action)
    requires ActorLoop.Enabled(s, a) && s.refCount == 1 + s.handles
    ensures var s' := ActorLoop.Apply(s, a);
            s'.nudgers > s.nudgers <==> s.handles == 1 && s'.handles == 0
  {
    hide ActorLoop.Step, Enqueue;
    if a.ActorStep? {
      OwnStepKeepsMailboxes(s, a.reply);
    }
  }

  /** A drop is to send a Nudge exactly when it leaves no mailbox but the one of the context. */
  lemma NudgeOnlyForTheLast(run: seq<Actor>, n: nat)
    requires ActorLoop.Behavior(run) && n + 1 < |run|
    ensures run[n + 1].nudgers > run[n].nudgers <==> run[n].handles == 1 && run[n + 1].handles == 0
  {
    assert run[n].refCount == 1 + run[n].handles by {
      ActorLoop.InvAlways(run, n);
    }
    hide ActorLoop.Apply, ActorLoop.Enabled;
    assert ActorLoop.Next(run[n], run[n + 1]);
    var a :| ActorLoop.Enabled(run[n], a) && run[n + 1] == ActorLoop.Apply(run[n], a);
    DropStep(run[n], a);
  }

  // ---------------------------------------------------------------------------
  // The drain

  predicate Draining(pc: ActorPc) {
    || pc.DrainStart? || pc.DrainReceiving? || pc.DrainLow? || pc.DrainStash? || pc.DrainHigh?
    || (pc.InHand? && pc.draining) || (pc.Handling? && pc.draining)
  }

  lemma DrainHandle(s: Actor, reply: Reply)
    requires s.pc.Handling? && s.pc.draining
    ensures var pc := Handle(s, s.pc.msg, s.pc.draining, reply).pc; pc.DrainStart? || pc.Exited?
  {
  }

  lemma DrainApply(s: Actor, a: ActorLoop.Action)
    requires ActorLoop.Enabled(s, a) && (Draining(s.pc) || s.pc.Exited?)
    ensures var pc := ActorLoop.Apply(s, a).pc; Draining(pc) || pc.OnDrained? || pc.Exited?
  {
    hide PriorityChannel.Step, Handle;
    if a.ActorStep? && s.pc.Handling? {
      DrainHandle(s, a.reply);
    }
  }

  /**
   A running actor that has handled its first message drains: it does not look at the reference count, nor
   go back to wait, before its drained hook.
   */
  lemma {:induction false} DrainsBeforeCheck(run: seq<Actor>, m: nat, n: nat)
    requires ActorLoop.Behavior(run) && m + 1 < |run| && m < n < |run|
    requires run[m].pc.AfterFirst? && run[m].running && !run[m + 1].pc.AfterFirst?
    requires forall i :: m < i <= n ==> !run[i].pc.OnDrained?
    ensures Draining(run[n].pc) || run[n].pc.Exited?
  {
    hide ActorLoop.Apply, ActorLoop.Enabled;
    assert ActorLoop.Next(run[n - 1], run[n - 1 + 1]);
    var a :| ActorLoop.Enabled(run[n - 1], a) && run[n] == ActorLoop.Apply(run[n - 1], a);
    if n == m + 1 {
      LeavesAfterFirst(run[m], a);
    } else {
      DrainsBeforeCheck(run, m, n - 1);
      DrainApply(run[n - 1], a);
    }
  }

  lemma LeavesAfterFirst(s: Actor, a: ActorLoop.Action)
    requires ActorLoop.Enabled(s, a) && s.pc.AfterFirst? && s.running && !ActorLoop.Apply(s, a).pc.AfterFirst?
    ensures ActorLoop.Apply(s, a).pc.DrainStart?
  {
    hide PriorityChannel.Step, Handle;
  }

  lemma HandleGoes(s: Actor, reply: Reply)
    requires s.pc.Handling?
    ensures var pc := Handle(s, s.pc.msg, s.pc.draining, reply).pc; pc.DrainStart? || pc.AfterFirst? || pc.Exited?
  {
  }

  /** The read that comes before each point of the emptiness check. */
  ghost predicate ReadBefore(s: Actor, pc: ActorPc) {
    && (pc.DrainStash? ==> s.pc.DrainStash? || (s.pc.DrainLow? && s.ch.low == []))
    && (pc.DrainHigh? ==> s.pc.DrainHigh? || (s.pc.DrainStash? && s.ch.stash.None?))
    && (pc.OnDrained? ==> s.pc.OnDrained? || (s.pc.DrainHigh? && s.ch.high == []))
  }

  lemma StepIntoEmptiness(s: Actor, reply: Reply)
    requires ActorLoop.Enabled(s, ActorStep(reply))
    ensures ReadBefore(s, ActorLoop.Step(s, reply).pc)
  {
    hide PriorityChannel.Step, Handle;
    match s.pc {
      case Handling(_, _) => HandleGoes(s, reply);
      case Receiving =>
      case DrainReceiving =>
      case _ =>
    }
  }

  lemma IntoEmptiness(s: Actor, a: ActorLoop.Action)
    requires ActorLoop.Enabled(s, a)
    ensures ReadBefore(s, ActorLoop.Apply(s, a).pc)
  {
    hide ActorLoop.Step;
    if a.ActorStep? {
      StepIntoEmptiness(s, a.reply);
    }
  }

  /** What the last reads saw, going back from a point of the emptiness check. */
  lemma {:induction false} SawLowEmpty(run: seq<Actor>, n: nat) returns (i: nat)
    requires ActorLoop.Behavior(run) && n < |run| && run[n].pc.DrainStash?
    ensures i < n && run[i].pc.DrainLow? && run[i].ch.low == []
  {
    hide ActorLoop.Apply, ActorLoop.Enabled;
    assert n > 0;
    assert ActorLoop.Next(run[n - 1], run[n - 1 + 1]);
    var a :| ActorLoop.Enabled(run[n - 1], a) && run[n] == ActorLoop.Apply(run[n - 1], a);
    IntoEmptiness(run[n - 1], a);
    if run[n - 1].pc.DrainStash? { i := SawLowEmpty(run, n - 1); } else { i := n - 1; }
  }

  lemma {:induction false} SawStashEmpty(run: seq<Actor>, n: nat) returns (i: nat, j: nat)
    requires ActorLoop.Behavior(run) && n < |run| && run[n].pc.DrainHigh?
    ensures i < j < n && run[i].ch.low == [] && run[j].ch.stash.None?
  {
    hide ActorLoop.Apply, ActorLoop.Enabled;
    assert n > 0;
    assert ActorLoop.Next(run[n - 1], run[n - 1 + 1]);
    var a :| ActorLoop.Enabled(run[n - 1], a) && run[n] == ActorLoop.Apply(run[n - 1], a);
    IntoEmptiness(run[n - 1], a);
    if run[n - 1].pc.DrainHigh? {
      i, j := SawStashEmpty(run, n - 1);
    } else {
      i := SawLowEmpty(run, n - 1);
      j := n - 1;
    }
  }

  /** The drained hook is called only after the low queue, the stash and the high queue were seen empty in turn. */
  lemma {:induction false} HookAfterEmptyReads(run: seq<Actor>, n: nat) returns (i: nat, j: nat, k: nat)
    requires ActorLoop.Behavior(run) && n < |run| && run[n].pc.OnDrained?
    ensures i < j < k < n && run[i].ch.low == [] && run[j].ch.stash.None? && run[k].ch.high == []
  {
    hide ActorLoop.Apply, ActorLoop.Enabled;
    assert n > 0;
    assert ActorLoop.Next(run[n - 1], run[n - 1 + 1]);
    var a :| ActorLoop.Enabled(run[n - 1], a) && run[n] == ActorLoop.Apply(run[n - 1], a);
    IntoEmptiness(run[n - 1], a);
    if run[n - 1].pc.OnDrained? {
      i, j, k := HookAfterEmptyReads(run, n - 1);
    } else {
      i, j := SawStashEmpty(run, n - 1);
      k := n - 1;
    }
  }

  // ---------------------------------------------------------------------------
  // Exits

  /** Code of the actor may answer with an exit of its own: a handler, or the drained hook. */
  predicate MayAnswer(s: Actor) {
    s.pc.OnDrained? || (s.pc.Handling? && s.pc.msg.body.Work?)
  }

  /** What the exit of an actor says about the step that made it. */
  predicate Explains(s: Actor, exit: Exit) {
    match exit
    case Completed => s.pc.LastHigh? && s.ch.high == []
    case Killed => (s.killed && (s.pc.Top? || s.pc.InHand?)) || MayAnswer(s)
    case HandlerQuit => (s.pc.Handling? && s.pc.msg.body.Quit?) || MayAnswer(s)
    case HandlerSuccess => (s.pc.Handling? && s.pc.msg.body.ExitWithSuccess?) || MayAnswer(s)
    case _ => MayAnswer(s)
  }

  lemma HandleExplains(s: Actor, reply: Reply)
    requires s.pc.Handling? && !(reply.Stop? && reply.exit.Completed?)
    requires Handle(s, s.pc.msg, s.pc.draining, reply).pc.Exited?
    ensures Explains(s, Handle(s, s.pc.msg, s.pc.draining, reply).pc.exit)
  {
  }

  lemma StepExplains(s: Actor, reply: Reply)
    requires ActorLoop.Enabled(s, ActorStep(reply)) && ActorLoop.Step(s, reply).pc.Exited?
    requires s.pc.Receiving? && s.ch.pc.Done? ==> s.ch.pc.outcome.Got?
    ensures Explains(s, ActorLoop.Step(s, reply).pc.exit)
  {
    hide PriorityChannel.Step, Handle;
    match s.pc {
      case Handling(_, _) => HandleExplains(s, reply);
      case _ =>
    }
  }

  lemma ExitStep(s: Actor, a: ActorLoop.Action)
    requires ActorLoop.Inv(s) && ActorLoop.Enabled(s, a) && !s.pc.Exited? && ActorLoop.Apply(s, a).pc.Exited?
    ensures Explains(s, ActorLoop.Apply(s, a).pc.exit)
  {
    if s.pc.Receiving? && s.ch.pc.Done? {
      RecvGetsMessage(s);
    }
    hide ActorLoop.Inv, ActorLoop.Step, Explains;
    if a.ActorStep? {
      StepExplains(s, a.reply);
    }
  }

  lemma ExitIsFinal(s: Actor, a: ActorLoop.Action)
    requires ActorLoop.Enabled(s, a) && s.pc.Exited?
    ensures ActorLoop.Apply(s, a).pc == s.pc
  {
  }

  /**
   An exit is final and has its reason: an actor is Killed, has Quit, or succeeded on a command or by
   completing only if that is what happened, unless its own code answered so. It never panics by itself.
   */
  lemma {:induction false} ExitHasReason(run: seq<Actor>, n: nat) returns (m: nat)
    requires ActorLoop.Behavior(run) && n < |run| && run[n].pc.Exited?
    ensures m < n && !run[m].pc.Exited? && Explains(run[m], run[n].pc.exit)
    ensures forall i :: m < i <= n ==> run[i].pc == run[n].pc
  {
    hide ActorLoop.Apply, ActorLoop.Enabled, ActorLoop.Inv, Explains;
    assert n > 0;
    assert ActorLoop.Next(run[n - 1], run[n - 1 + 1]);
    var a :| ActorLoop.Enabled(run[n - 1], a) && run[n] == ActorLoop.Apply(run[n - 1], a);
    if run[n - 1].pc.Exited? {
      ExitIsFinal(run[n - 1], a);
      m := ExitHasReason(run, n - 1);
    } else {
      ActorLoop.InvAlways(run, n - 1);
      ExitStep(run[n - 1], a);
      m := n - 1;
    }
  }

  /** And the commands that ask for an exit get the one they ask for, with the next step of the actor. */
  lemma ExitCommandsObeyed(s: Actor, reply: Reply)
    requires ActorLoop.Enabled(s, ActorStep(reply)) && s.pc.Handling?
    ensures s.pc.msg.body.Quit? ==> ActorLoop.Step(s, reply).pc == Exited(HandlerQuit)
    ensures s.pc.msg.body.ExitWithSuccess? ==> ActorLoop.Step(s, reply).pc == Exited(HandlerSuccess)
  {
  }
}
