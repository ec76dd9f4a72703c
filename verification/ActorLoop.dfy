/**
 One actor and its mailboxes: the loop of `quickwit-actors/src/spawn_builder.rs` that decides when
 to exit, over the reference-counted mailboxes of `mailbox.rs` and the channel of
 `channel_with_priority.rs`.

 Other threads clone, upgrade and drop mailboxes and send messages between any two atomic
 operations of the actor. Dropping a mailbox takes two steps: the decrement of the count and, when
 the count was two, the send of a `Nudge`.
 */
module ActorLoop {
  import opened Wrappers
  import opened PriorityChannel

  /** Commands of `command.rs`, and everything an actor handles with code of its own. */
  datatype Body = Nudge | Pause | Resume | Quit | ExitWithSuccess | Work(id: nat)

  type Msg = Message<Body>

  /** `Completed` is a success decided by the loop itself; the others come from a handler. */
  datatype Exit =
    | Completed | HandlerSuccess | HandlerQuit | Killed | DownstreamClosed | Failure | Panicked

  /** What code of the actor answers when the loop calls it. */
  datatype Reply = Ok | Stop(exit: Exit)

  datatype ActorPc =
    // process_all_available_messages: the kill check, then the blocking receive
    | Top | ReadMode | Receiving
    // process_one_message: the kill check, then the handler
    | InHand(msg: Msg, draining: bool) | Handling(msg: Msg, draining: bool)
    // the drain: try_recv until it fails, then the three reads of is_empty
    | AfterFirst | DrainStart | DrainReceiving | DrainLow | DrainStash | DrainHigh | OnDrained
    // is_last_mailbox, then the three reads of is_empty
    | CheckLast | LastLow | LastStash | LastHigh
    | Exited(exit: Exit)

  /**
   `refCount` is the shared counter; `handles` counts the mailboxes alive besides the one in the
   actor context, and `nudgers` the drops that have decremented the counter from two and have not
   sent their `Nudge` yet. `checkedAt` is the number of sends when the counter was last read as one,
   and `late` says whether a mailbox was made, or the context used to send, since that read.
   */
  datatype Actor = Actor(
    ch: Channel<Body>,
    refCount: nat,
    handles: nat,
    nudgers: nat,
    running: bool,
    killed: bool,
    pc: ActorPc,
    handled: seq<Msg>,
    checkedAt: nat,
    late: bool)

  datatype Action =
    // other threads
    | SendMessage(priority: Priority, body: Body, viaContext: bool)
    | AddHandle                   // clone of a mailbox, or upgrade of a weak one
    | DropHandle                  // first half of a drop: the decrement
    | SendNudge                   // second half of a drop that took the counter from two to one
    | ActivateKillSwitch
    | SetRunning(on: bool)        // pause and resume called on a shared context
    // the actor
    | ActorStep(reply: Reply)

  predicate Init(s: Actor) {
    && PriorityChannel.Init(s.ch)
    && s.refCount == 2 && s.handles == 1 && s.nudgers == 0
    && s.running && !s.killed
    && s.pc == Top && s.handled == [] && s.checkedAt == 0 && !s.late
  }

  predicate Enabled(s: Actor, a: Action) {
    match a
    case SendMessage(_, _, viaContext) => s.ch.senders > 0 && (viaContext || s.handles > 0)
    case AddHandle => true
    case DropHandle => s.handles > 0 && s.refCount > 0
    case SendNudge => s.nudgers > 0 && s.ch.senders > 0
    case ActivateKillSwitch => true
    case SetRunning(_) => true
    case ActorStep(reply) =>
      !s.pc.Exited? && !(reply.Stop? && reply.exit.Completed?)
      && (s.pc.ReadMode? || s.pc.DrainStart? ==> s.ch.pc.Idle?)
      && (s.pc.Receiving? || s.pc.DrainReceiving? ==> !s.ch.pc.Idle?)
  }

  /** The ref-count check has been passed and not yet been withdrawn. */
  predicate PastCheck(pc: ActorPc) {
    pc.LastLow? || pc.LastStash? || pc.LastHigh? || pc == Exited(Completed)
  }

  function Apply(s: Actor, a: Action): Actor
    requires Enabled(s, a)
  {
    match a
    case SendMessage(priority, body, viaContext) =>
      s.(ch := Enqueue(s.ch, priority, body), late := s.late || (viaContext && PastCheck(s.pc)))
    case AddHandle =>
      s.(refCount := s.refCount + 1, handles := s.handles + 1, late := s.late || PastCheck(s.pc))
    case DropHandle =>
      s.(refCount := s.refCount - 1, handles := s.handles - 1,
         nudgers := if s.refCount == 2 then s.nudgers + 1 else s.nudgers)
    case SendNudge => s.(nudgers := s.nudgers - 1, ch := Enqueue(s.ch, High, Nudge))
    case ActivateKillSwitch => s.(killed := true)
    case SetRunning(on) => s.(running := on)
    case ActorStep(reply) => Step(s, reply)
  }

  function Step(s: Actor, reply: Reply): Actor
    requires Enabled(s, ActorStep(reply))
  {
    match s.pc
    case Top => s.(pc := if s.killed then Exited(Killed) else ReadMode)
    case ReadMode =>
      s.(ch := s.ch.(pc := if s.running then ProbePop(AtStart) else OnlyHigh), pc := Receiving)
    case Receiving =>
      if !s.ch.pc.Done? then s.(ch := PriorityChannel.Step(s.ch))
      else if s.ch.pc.outcome.Got? then
        s.(ch := s.ch.(pc := Idle), pc := InHand(s.ch.pc.outcome.msg, false))
      else s.(ch := s.ch.(pc := Idle), pc := Exited(Panicked))   // the `expect` of recv_envelope
    case InHand(msg, draining) =>
      s.(pc := if s.killed then Exited(Killed) else Handling(msg, draining))
    case Handling(msg, draining) => Handle(s, msg, draining, reply)
    case AfterFirst => s.(pc := if s.running then DrainStart else CheckLast)
    case DrainStart => s.(ch := s.ch.(pc := TryHigh), pc := DrainReceiving)
    case DrainReceiving =>
      if !s.ch.pc.Done? then s.(ch := PriorityChannel.Step(s.ch))
      else if s.ch.pc.outcome.Got? then
        s.(ch := s.ch.(pc := Idle), pc := InHand(s.ch.pc.outcome.msg, true))
      else s.(ch := s.ch.(pc := Idle), pc := DrainLow)
    case DrainLow => s.(pc := if s.ch.low == [] then DrainStash else DrainStart)
    case DrainStash => s.(pc := if s.ch.stash.None? then DrainHigh else DrainStart)
    case DrainHigh => s.(pc := if s.ch.high == [] then OnDrained else DrainStart)
    case OnDrained => s.(pc := if reply.Stop? then Exited(reply.exit) else CheckLast)
    case CheckLast =>
      if s.refCount == 1 then s.(pc := LastLow, checkedAt := |s.ch.sent|, late := false)
      else s.(pc := Top)
    case LastLow => s.(pc := if s.ch.low == [] then LastStash else Top)
    case LastStash => s.(pc := if s.ch.stash.None? then LastHigh else Top)
    case LastHigh => s.(pc := if s.ch.high == [] then Exited(Completed) else Top)
  }

  /** The handler of one message, and where the loop goes once it has answered. */
  function Handle(s: Actor, msg: Msg, draining: bool, reply: Reply): Actor {
    var s' := s.(handled := s.handled + [msg], pc := if draining then DrainStart else AfterFirst);
    match msg.body
    case Nudge => s'
    case Pause => s'.(running := false)
    case Resume => s'.(running := true)
    case Quit => s.(pc := Exited(HandlerQuit))
    case ExitWithSuccess => s.(pc := Exited(HandlerSuccess))
    case Work(_) => if reply.Stop? then s.(pc := Exited(reply.exit)) else s'
  }

  ghost predicate Next(s: Actor, s': Actor) {
    exists a :: Enabled(s, a) && s' == Apply(s, a)
  }

  /** A run: any interleaving of the actor with any number of other threads. */
  ghost predicate Behavior(run: seq<Actor>) {
    && |run| > 0
    && Init(run[0])
    && forall i :: 0 <= i < |run| - 1 ==> Next(run[i], run[i + 1])
  }

  // ---------------------------------------------------------------------------
  // The invariant

  /** The message received and not yet handled, if any. */
  function Unhandled(s: Actor): seq<Msg> {
    match s.pc
    case InHand(msg, _) => [msg]
    case Handling(msg, _) => [msg]
    case _ => if s.ch.pc.Done? && s.ch.pc.outcome.Got? then [s.ch.pc.outcome.msg] else []
  }

  /** The operation in progress is one of `recv` or `recv_high_priority`. */
  predicate InRecv(pc: Pc<Body>) {
    || pc.ProbePop? || pc.ProbeFlag? || pc.ProbeAgain? || pc.RecvStash? || pc.PollHigh?
    || pc.PollLow? || pc.OnlyHigh? || (pc.Done? && !pc.outcome.NoMessage?)
  }

  predicate InTryRecv(pc: Pc<Body>) {
    pc.TryHigh? || pc.TryStash? || pc.TryLow? || pc.TryRecheck? || pc.TryClosed? || pc.Done?
  }

  predicate PcsAgree(s: Actor) {
    if s.pc.Receiving? then InRecv(s.ch.pc)
    else if s.pc.DrainReceiving? then InTryRecv(s.ch.pc)
    else s.ch.pc.Idle?
  }

  /** Every message delivered has been handled, in order, but for at most the one in hand. */
  ghost predicate Accounted(s: Actor) {
    (s.pc.Exited? && !s.pc.exit.Completed?) || s.ch.delivered == s.handled + Unhandled(s)
  }

  /** Something is there to be received. */
  predicate Available(ch: Channel<Body>) {
    ch.high != [] || ch.low != [] || ch.stash.Some? || Held(ch.pc) != []
  }

  /** The actor will wait for a message before it looks at the reference count again. */
  predicate Committed(s: Actor) {
    s.pc.Top? || s.pc.ReadMode? || (s.pc.Receiving? && !s.ch.pc.Done?)
  }

  /** Nobody is left to wake the actor up: no counted mailbox and no `Nudge` on its way. */
  predicate Abandoned(s: Actor) {
    s.handles == 0 && s.nudgers == 0
  }

  predicate Wakeful(s: Actor) {
    Committed(s) && Abandoned(s) ==> Available(s.ch)
  }

  /** What the emptiness reads since the ref-count check have established so far. */
  ghost predicate Swept(s: Actor) {
    && s.checkedAt <= |s.ch.sent|
    && (s.pc.LastStash? ==>
          forall i :: 0 <= i < s.checkedAt && s.ch.sent[i].priority == Low
                      ==> s.ch.sent[i] in s.handled || s.ch.stash == Some(s.ch.sent[i]))
    && (s.pc.LastHigh? ==>
          forall i :: 0 <= i < s.checkedAt && s.ch.sent[i].priority == Low
                      ==> s.ch.sent[i] in s.handled)
    && (s.pc == Exited(Completed) ==>
          forall i :: 0 <= i < s.checkedAt ==> s.ch.sent[i] in s.handled)
  }

  /** Without a late mailbox or a late use of the context, only Nudges were sent since the check. */
  predicate OnlyNudgesSince(s: Actor) {
    PastCheck(s.pc) && !s.late && s.checkedAt <= |s.ch.sent| ==>
      && s.handles == 0
      && forall i :: s.checkedAt <= i < |s.ch.sent| ==> s.ch.sent[i].body == Nudge
  }

  ghost predicate Inv(s: Actor) {
    && PriorityChannel.Inv(s.ch) && s.ch.senders == 1
    && s.refCount == 1 + s.handles
    && PcsAgree(s)
    && Accounted(s)
    && Wakeful(s)
    && Swept(s)
    && OnlyNudgesSince(s)
  }

  // ---------------------------------------------------------------------------
  // Steps of other threads

  lemma EnqueueKeepsInv(s: Actor, priority: Priority, body: Body, s': Actor)
    requires Inv(s)
    requires s' == s.(ch := Enqueue(s.ch, priority, body), nudgers := s'.nudgers, late := s'.late)
    requires s.late ==> s'.late
    requires body != Nudge && PastCheck(s.pc) ==> s.handles > 0 || s'.late
    ensures Inv(s')
  {
    hide PriorityChannel.Inv;
    SendKeepsInv(s.ch, priority, body);
    var sent := s.ch.sent;
    assert forall i :: 0 <= i < |sent| ==> s'.ch.sent[i] == sent[i];
  }

  lemma AddHandleKeepsInv(s: Actor)
    requires Inv(s)
    ensures Inv(Apply(s, AddHandle))
  {
    hide PriorityChannel.Inv;
  }

  lemma DropHandleKeepsInv(s: Actor)
    requires Inv(s) && s.handles > 0
    ensures Inv(Apply(s, DropHandle))
  {
    hide PriorityChannel.Inv;
  }

  lemma FlagsKeepInv(s: Actor, running': bool, killed': bool)
    requires Inv(s)
    ensures Inv(s.(running := running', killed := killed'))
  {
    hide PriorityChannel.Inv;
  }

  lemma OthersKeepInv(s: Actor, a: Action)
    requires Inv(s) && Enabled(s, a) && !a.ActorStep?
    ensures Inv(Apply(s, a))
  {
    hide PriorityChannel.Inv;
    match a
    case SendMessage(priority, body, _) => EnqueueKeepsInv(s, priority, body, Apply(s, a));
    case SendNudge => EnqueueKeepsInv(s, High, Nudge, Apply(s, a));
    case AddHandle => AddHandleKeepsInv(s);
    case DropHandle => DropHandleKeepsInv(s);
    case ActivateKillSwitch => FlagsKeepInv(s, s.running, true);
    case SetRunning(on) => FlagsKeepInv(s, on, s.killed);
  }

  // ---------------------------------------------------------------------------
  // Steps of the actor

  /** Starting an operation on the channel from `Idle`. */
  lemma BeginKeepsChannel(ch: Channel<Body>, pc: Pc<Body>)
    requires PriorityChannel.Inv(ch) && ch.pc.Idle?
    requires pc == ProbePop(AtStart) || pc.OnlyHigh? || pc.TryHigh?
    ensures PriorityChannel.Inv(ch.(pc := pc))
  {
  }

  lemma FinishKeepsChannel(ch: Channel<Body>)
    requires PriorityChannel.Inv(ch) && ch.pc.Done?
    ensures PriorityChannel.Inv(ch.(pc := Idle))
  {
  }

  lemma ChannelStepFrame(ch: Channel<Body>)
    requires !ch.pc.Idle? && !ch.pc.Done? && ch.senders > 0
    ensures var ch' := PriorityChannel.Step(ch);
            && ch'.senders == ch.senders && ch'.sent == ch.sent && !ch'.pc.Idle?
            && (if ch'.pc.Done? && ch'.pc.outcome.Got?
                then ch'.delivered == ch.delivered + [ch'.pc.outcome.msg]
                else ch'.delivered == ch.delivered)
            && (InRecv(ch.pc) ==> InRecv(ch'.pc))
            && (InTryRecv(ch.pc) ==> InTryRecv(ch'.pc))
            && (Available(ch) && !ch'.pc.Done? ==> Available(ch'))
  {
  }

  lemma ReceiveAdvanceKeepsInv(s: Actor)
    requires Inv(s) && (s.pc.Receiving? || s.pc.DrainReceiving?) && !s.ch.pc.Done?
    ensures Inv(s.(ch := PriorityChannel.Step(s.ch)))
  {
    hide PriorityChannel.Inv;
    StepKeepsInv(s.ch);
    ChannelStepFrame(s.ch);
    assert s.handled + [] == s.handled;
  }

  lemma ReceiveFinishKeepsInv(s: Actor, pc': ActorPc)
    requires Inv(s) && s.ch.pc.Done? && (s.pc.Receiving? || s.pc.DrainReceiving?)
    requires if s.ch.pc.outcome.Got? then pc' == InHand(s.ch.pc.outcome.msg, s.pc.DrainReceiving?)
             else s.pc.DrainReceiving? && pc' == DrainLow
    ensures Inv(s.(ch := s.ch.(pc := Idle), pc := pc'))
  {
    hide PriorityChannel.Inv;
    FinishKeepsChannel(s.ch);
  }

  /** `recv` never gives up while the actor context holds a mailbox. */
  lemma RecvGetsMessage(s: Actor)
    requires Inv(s) && s.pc.Receiving? && s.ch.pc.Done?
    ensures s.ch.pc.outcome.Got?
  {
    hide Core, Accounted, Wakeful, Swept, OnlyNudgesSince;
    assert Learnt(s.ch) && InRecv(s.ch.pc);
  }

  lemma ReceiveKeepsInv(s: Actor, reply: Reply)
    requires Inv(s) && Enabled(s, ActorStep(reply)) && (s.pc.Receiving? || s.pc.DrainReceiving?)
    ensures Inv(Step(s, reply))
  {
    hide PriorityChannel.Inv;
    if !s.ch.pc.Done? {
      ReceiveAdvanceKeepsInv(s);
    } else if s.ch.pc.outcome.Got? {
      ReceiveFinishKeepsInv(s, InHand(s.ch.pc.outcome.msg, s.pc.DrainReceiving?));
    } else {
      if s.pc.Receiving? {
        RecvGetsMessage(s);
        assert false;
      }
      ReceiveFinishKeepsInv(s, DrainLow);
    }
  }

  lemma BeginKeepsInv(s: Actor, reply: Reply)
    requires Inv(s) && Enabled(s, ActorStep(reply))
    requires s.pc.ReadMode? || s.pc.DrainStart?
    ensures Inv(Step(s, reply))
  {
    hide PriorityChannel.Inv;
    BeginKeepsChannel(s.ch, Step(s, reply).ch.pc);
  }

  lemma HandledKeepsInv(s: Actor, running': bool, pc': ActorPc)
    requires Inv(s) && s.pc.Handling? && (pc'.DrainStart? || pc'.AfterFirst?)
    ensures Inv(s.(handled := s.handled + [s.pc.msg], running := running', pc := pc'))
  {
    hide PriorityChannel.Inv;
    assert s.handled + [s.pc.msg] + [] == s.handled + [s.pc.msg];
  }

  /** Any exit other than `Completed`, from a point where no receive is in progress. */
  lemma StopKeepsInv(s: Actor, exit: Exit)
    requires Inv(s) && s.ch.pc.Idle? && !exit.Completed?
    ensures Inv(s.(pc := Exited(exit)))
  {
    hide PriorityChannel.Inv;
  }

  /** A move that does not touch the shared state and does not commit the actor to wait. */
  lemma MoveKeepsInv(s: Actor, pc': ActorPc)
    requires Inv(s) && s.ch.pc.Idle? && Unhandled(s) == [] && !s.pc.Exited?
    requires pc'.DrainStart? || pc'.DrainStash? || pc'.DrainHigh? || pc'.OnDrained? || pc'.CheckLast?
          || ((pc'.Top? || pc'.ReadMode?) && (Abandoned(s) ==> Available(s.ch)))
    ensures Inv(s.(pc := pc'))
  {
    hide PriorityChannel.Inv;
  }

  lemma HandleKeepsInv(s: Actor, reply: Reply)
    requires Inv(s) && Enabled(s, ActorStep(reply)) && s.pc.Handling?
    ensures Inv(Handle(s, s.pc.msg, s.pc.draining, reply))
  {
    hide PriorityChannel.Inv;
    var pc' := if s.pc.draining then DrainStart else AfterFirst;
    match s.pc.msg.body
    case Nudge => HandledKeepsInv(s, s.running, pc');
    case Pause => HandledKeepsInv(s, false, pc');
    case Resume => HandledKeepsInv(s, true, pc');
    case Quit => StopKeepsInv(s, HandlerQuit);
    case ExitWithSuccess => StopKeepsInv(s, HandlerSuccess);
    case Work(_) =>
      if reply.Stop? { StopKeepsInv(s, reply.exit); } else { HandledKeepsInv(s, s.running, pc'); }
  }

  /** With the channel idle, what was sent and is not waiting has been handled. */
  lemma SentIsHandledOrWaiting(s: Actor, i: nat)
    requires Inv(s) && PastCheck(s.pc) && i < |s.ch.sent|
    ensures var m := s.ch.sent[i];
            m in s.handled
            || (m.priority == High && m in s.ch.high)
            || (m.priority == Low && (s.ch.stash == Some(m) || m in s.ch.low))
  {
    hide Conserved, Learnt, PriorityRespected, Stamped, Wakeful, Swept, OnlyNudgesSince;
    SentIsDeliveredOrStored(s.ch, i);
  }

  lemma LastLowKeepsInv(s: Actor)
    requires Inv(s) && s.pc.LastLow? && s.ch.low == []
    ensures Inv(s.(pc := LastStash))
  {
    hide PriorityChannel.Inv;
    forall i | 0 <= i < s.checkedAt && s.ch.sent[i].priority == Low
      ensures s.ch.sent[i] in s.handled || s.ch.stash == Some(s.ch.sent[i])
    {
      SentIsHandledOrWaiting(s, i);
    }
  }

  lemma LastStashKeepsInv(s: Actor)
    requires Inv(s) && s.pc.LastStash? && s.ch.stash.None?
    ensures Inv(s.(pc := LastHigh))
  {
    hide PriorityChannel.Inv;
  }

  lemma LastHighKeepsInv(s: Actor)
    requires Inv(s) && s.pc.LastHigh? && s.ch.high == []
    ensures Inv(s.(pc := Exited(Completed)))
  {
    hide PriorityChannel.Inv;
    forall i | 0 <= i < s.checkedAt
      ensures s.ch.sent[i] in s.handled
    {
      SentIsHandledOrWaiting(s, i);
    }
  }

  /** The last reads of `is_empty`: one that finds something sends the actor back to receive it. */
  lemma LastChecksKeepInv(s: Actor, reply: Reply)
    requires Inv(s) && Enabled(s, ActorStep(reply))
    requires s.pc.LastLow? || s.pc.LastStash? || s.pc.LastHigh?
    ensures Inv(Step(s, reply))
  {
    hide PriorityChannel.Inv;
    if Step(s, reply).pc.Top? {
      MoveKeepsInv(s, Top);
    } else {
      match s.pc
      case LastLow => LastLowKeepsInv(s);
      case LastStash => LastStashKeepsInv(s);
      case LastHigh => LastHighKeepsInv(s);
    }
  }

  lemma MovesKeepInv(s: Actor, reply: Reply)
    requires Inv(s) && Enabled(s, ActorStep(reply))
    requires s.pc.Top? || s.pc.AfterFirst? || s.pc.DrainLow? || s.pc.DrainStash? || s.pc.DrainHigh?
          || s.pc.OnDrained? || (s.pc.CheckLast? && s.refCount != 1)
    ensures Inv(Step(s, reply))
  {
    hide PriorityChannel.Inv;
    var pc' := Step(s, reply).pc;
    if pc'.Exited? { StopKeepsInv(s, pc'.exit); } else { MoveKeepsInv(s, pc'); }
  }

  lemma CheckLastKeepsInv(s: Actor, reply: Reply)
    requires Inv(s) && Enabled(s, ActorStep(reply)) && s.pc.CheckLast? && s.refCount == 1
    ensures Inv(Step(s, reply))
  {
    hide PriorityChannel.Inv;
  }

  lemma InHandKeepsInv(s: Actor, reply: Reply)
    requires Inv(s) && Enabled(s, ActorStep(reply)) && s.pc.InHand?
    ensures Inv(Step(s, reply))
  {
    hide PriorityChannel.Inv;
    if s.killed { StopKeepsInv(s, Killed); }
  }

  lemma ActorStepKeepsInv(s: Actor, reply: Reply)
    requires Inv(s) && Enabled(s, ActorStep(reply))
    ensures Inv(Step(s, reply))
  {
    hide PriorityChannel.Inv;
    match s.pc
    case ReadMode => BeginKeepsInv(s, reply);
    case DrainStart => BeginKeepsInv(s, reply);
    case Receiving => ReceiveKeepsInv(s, reply);
    case DrainReceiving => ReceiveKeepsInv(s, reply);
    case InHand(_, _) => InHandKeepsInv(s, reply);
    case Handling(_, _) => HandleKeepsInv(s, reply);
    case LastLow => LastChecksKeepInv(s, reply);
    case LastStash => LastChecksKeepInv(s, reply);
    case LastHigh => LastChecksKeepInv(s, reply);
    case CheckLast =>
      if s.refCount == 1 { CheckLastKeepsInv(s, reply); } else { MovesKeepInv(s, reply); }
    case _ => MovesKeepInv(s, reply);
  }

  lemma InitInv(s: Actor)
    requires Init(s)
    ensures Inv(s)
  {
    assert s.handled + [] == s.handled;
  }

  lemma ApplyKeepsInv(s: Actor, a: Action)
    requires Inv(s) && Enabled(s, a)
    ensures Inv(Apply(s, a))
  {
    hide Inv;
    if a.ActorStep? { ActorStepKeepsInv(s, a.reply); } else { OthersKeepInv(s, a); }
  }

  lemma {:induction false} InvAlways(run: seq<Actor>, n: nat)
    requires Behavior(run) && n < |run|
    ensures Inv(run[n])
  {
    hide Inv, Apply, Enabled, Init;
    if n == 0 {
      InitInv(run[0]);
    } else {
      InvAlways(run, n - 1);
      assert Next(run[n - 1], run[n - 1 + 1]);
      var a :| Enabled(run[n - 1], a) && run[n] == Apply(run[n - 1], a);
      ApplyKeepsInv(run[n - 1], a);
    }
  }

  // ---------------------------------------------------------------------------
  // Main results, over every run

  /**
   No lost wake-up: an actor waiting for a message while both queues and the stash are empty has a
   counted mailbox besides its own, or a drop about to send its `Nudge`.
   */
  lemma NoLostWakeUp(run: seq<Actor>, n: nat)
    requires Behavior(run) && n < |run|
    requires run[n].pc.Receiving? && !run[n].ch.pc.Done? && !Available(run[n].ch)
    ensures run[n].refCount > 1 || run[n].nudgers > 0
  {
    InvAlways(run, n);
  }

  /** The blocking receive always ends with a message: the `expect` in `recv_envelope` holds. */
  lemma ReceiveNeverFails(run: seq<Actor>, n: nat)
    requires Behavior(run) && n < |run|
    requires run[n].pc.Receiving? && run[n].ch.pc.Done?
    ensures run[n].ch.pc.outcome.Got?
  {
    InvAlways(run, n);
  }

  /** Past the ref-count check everything handled was sent before it. */
  ghost predicate HandledBeforeCheck(s: Actor) {
    PastCheck(s.pc) ==> forall m :: m in s.handled ==> m.stamp < s.checkedAt
  }

  lemma HandledWasSent(s: Actor, m: Msg)
    requires Inv(s) && !s.pc.Exited? && m in s.handled
    ensures m.stamp < |s.ch.sent|
  {
    hide Conserved, Learnt, PriorityRespected, Stamped, Wakeful, Swept, OnlyNudgesSince;
    assert m in s.ch.delivered;
    DeliveredWasSent(s.ch, m);
  }

  ghost predicate FrameOfCheck(s: Actor, s': Actor) {
    && s'.handled == s.handled
    && if PastCheck(s.pc) then s'.checkedAt == s.checkedAt
       else s.pc.CheckLast? && s'.checkedAt == |s.ch.sent|
  }

  lemma HandleStopsShort(s: Actor, msg: Msg, draining: bool, reply: Reply)
    requires !(reply.Stop? && reply.exit.Completed?)
    ensures !PastCheck(Handle(s, msg, draining, reply).pc)
  {
  }

  predicate AtCheck(pc: ActorPc) {
    pc.CheckLast? || pc.LastLow? || pc.LastStash? || pc.LastHigh?
  }

  lemma StepStopsShort(s: Actor, reply: Reply)
    requires Enabled(s, ActorStep(reply)) && !AtCheck(s.pc)
    ensures !PastCheck(Step(s, reply).pc)
  {
    hide PriorityChannel.Step, Handle;
    match s.pc {
      case Receiving =>
      case DrainReceiving =>
      case Handling(msg, draining) => HandleStopsShort(s, msg, draining, reply);
      case _ =>
    }
  }

  lemma StepPastCheck(s: Actor, reply: Reply)
    requires Enabled(s, ActorStep(reply)) && PastCheck(Step(s, reply).pc)
    ensures FrameOfCheck(s, Step(s, reply))
  {
    if !AtCheck(s.pc) {
      StepStopsShort(s, reply);
    }
    hide PriorityChannel.Step, Handle, Enabled;
  }

  /** Nothing is handled past the check. */
  lemma PastCheckFrame(s: Actor, a: Action)
    requires Enabled(s, a) && PastCheck(Apply(s, a).pc)
    ensures FrameOfCheck(s, Apply(s, a))
  {
    hide Step;
    if a.ActorStep? {
      StepPastCheck(s, a.reply);
    }
  }

  lemma ApplyKeepsHandledBeforeCheck(s: Actor, a: Action)
    requires Inv(s) && HandledBeforeCheck(s) && Enabled(s, a)
    ensures HandledBeforeCheck(Apply(s, a))
  {
    hide Inv, Apply, Enabled;
    if PastCheck(Apply(s, a).pc) {
      PastCheckFrame(s, a);
      if !PastCheck(s.pc) {
        forall m | m in s.handled ensures m.stamp < |s.ch.sent| {
          HandledWasSent(s, m);
        }
      }
    }
  }

  lemma {:induction false} HandledBeforeCheckAlways(run: seq<Actor>, n: nat)
    requires Behavior(run) && n < |run|
    ensures HandledBeforeCheck(run[n])
  {
    hide Inv, Apply, Enabled;
    if n > 0 {
      HandledBeforeCheckAlways(run, n - 1);
      InvAlways(run, n - 1);
      assert Next(run[n - 1], run[n - 1 + 1]);
      var a :| Enabled(run[n - 1], a) && run[n] == Apply(run[n - 1], a);
      ApplyKeepsHandledBeforeCheck(run[n - 1], a);
    }
  }

  lemma CompletedIff(s: Actor, i: nat)
    requires Inv(s) && HandledBeforeCheck(s) && s.pc == Exited(Completed) && i < |s.ch.sent|
    ensures s.ch.sent[i] in s.handled <==> i < s.checkedAt
  {
    assert s.ch.sent[i].stamp == i;
  }

  /**
   The ref-count check is the exact limit: of an actor that exits as `Completed`, the messages
   handled, of either priority, are those sent before the check that let it exit, and no others.
   */
  lemma CompletedHandledIffBeforeCheck(run: seq<Actor>, n: nat, i: nat)
    requires Behavior(run) && n < |run| && run[n].pc == Exited(Completed) && i < |run[n].ch.sent|
    ensures run[n].ch.sent[i] in run[n].handled <==> i < run[n].checkedAt
  {
    InvAlways(run, n);
    HandledBeforeCheckAlways(run, n);
    CompletedIff(run[n], i);
  }

  /**
   If since that check no mailbox was made and the context was not used to send, nothing at all is
   left behind except the `Nudge` of a drop.
   */
  lemma CompletedLeavesOnlyNudges(run: seq<Actor>, n: nat, msg: Msg)
    requires Behavior(run) && n < |run| && run[n].pc == Exited(Completed) && !run[n].late
    requires msg in run[n].ch.sent
    ensures msg in run[n].handled || msg.body == Nudge
  {
    InvAlways(run, n);
    var i :| 0 <= i < |run[n].ch.sent| && run[n].ch.sent[i] == msg;
    assert i < run[n].checkedAt || run[n].ch.sent[i].body == Nudge;
  }

  /** Messages are handled in the order received, each at most once, and none is skipped. */
  lemma HandledInOrderReceived(run: seq<Actor>, n: nat)
    requires Behavior(run) && n < |run| && !run[n].pc.Exited?
    ensures run[n].handled <= run[n].ch.delivered
    ensures |run[n].ch.delivered| <= |run[n].handled| + 1
  {
    InvAlways(run, n);
  }

  // ---------------------------------------------------------------------------
  // A message sent after the check

  lemma Extend(run: seq<Actor>, a: Action) returns (run': seq<Actor>)
    requires |run| > 0 && Behavior(run) && Enabled(run[|run| - 1], a)
    ensures |run'| > 0 && Behavior(run') && run <= run' && run'[|run'| - 1] == Apply(run[|run| - 1], a)
  {
    hide Apply, Enabled;
    run' := run + [Apply(run[|run| - 1], a)];
    forall i | 0 <= i < |run'| - 1 ensures Next(run'[i], run'[i + 1]) {
      if i < |run| - 1 {
        assert Next(run[i], run[i + 1]);
      }
    }
  }

  lemma RunStart() returns (run: seq<Actor>)
    ensures |run| > 0 && Behavior(run)
    ensures run[|run| - 1] == Actor(Channel([], [], [], None, 1, Idle, []), 2, 1, 0, true, false, Top, [], 0, false)
  {
    run := [Actor(Channel([], [], [], None, 1, Idle, []), 2, 1, 0, true, false, Top, [], 0, false)];
  }

  /** The only mailbox is dropped. */
  lemma RunToDrop() returns (run: seq<Actor>)
    ensures |run| > 0 && Behavior(run)
    ensures run[|run| - 1] == Actor(Channel([], [], [], None, 1, Idle, []), 1, 0, 1, true, false, Top, [], 0, false)
  {
    hide Behavior;
    run := RunStart();
    run := Extend(run, DropHandle);
  }

  /** The drop sends a `Nudge`. */
  lemma RunToSend() returns (run: seq<Actor>, nudge: Msg)
    ensures |run| > 0 && Behavior(run) && nudge == Message(High, 0, Nudge)
    ensures run[|run| - 1] == Actor(Channel([nudge], [nudge], [], None, 1, Idle, []),
                                    1, 0, 0, true, false, Top, [], 0, false)
  {
    hide Behavior;
    nudge := Message(High, 0, Nudge);
    run := RunToDrop();
    FirstNudge(run[|run| - 1].ch);
    hide Enqueue;
    run := Extend(run, SendNudge);
  }

  lemma FirstNudge(ch: Channel<Body>)
    requires ch == Channel([], [], [], None, 1, Idle, [])
    ensures var nudge := Message(High, 0, Nudge);
            Enqueue(ch, High, Nudge) == Channel([nudge], [nudge], [], None, 1, Idle, [])
  {
  }

  /** The actor receives it. */
  lemma RunToNudge() returns (run: seq<Actor>, nudge: Msg)
    ensures |run| > 0 && Behavior(run) && nudge == Message(High, 0, Nudge)
    ensures run[|run| - 1] == Actor(Channel([nudge], [], [], None, 1, Done(Got(nudge)), [nudge]),
                                    1, 0, 0, true, false, Receiving, [], 0, false)
  {
    hide Behavior;
    run, nudge := RunToSend();
    var go := ActorStep(Ok);
    run := Extend(run, go);       // kill check
    run := Extend(run, go);       // begin recv
    run := Extend(run, go);       // the Nudge is popped
  }

  lemma RunToDrain() returns (run: seq<Actor>, nudge: Msg)
    ensures |run| > 0 && Behavior(run) && nudge == Message(High, 0, Nudge)
    ensures run[|run| - 1] == Actor(Channel([nudge], [], [], None, 1, Idle, [nudge]), 1, 0, 0, true,
                                    false, DrainStart, [nudge], 0, false)
  {
    hide Behavior;
    run, nudge := RunToNudge();
    var go := ActorStep(Ok);
    run := Extend(run, go);
    run := Extend(run, go);       // kill check
    run := Extend(run, go);       // handled
    run := Extend(run, go);       // running, so drain
  }

  /** There is nothing to drain. */
  lemma RunToEmptyInbox() returns (run: seq<Actor>, nudge: Msg)
    ensures |run| > 0 && Behavior(run) && nudge == Message(High, 0, Nudge)
    ensures run[|run| - 1] == Actor(Channel([nudge], [], [], None, 1, Idle, [nudge]), 1, 0, 0, true,
                                    false, DrainLow, [nudge], 0, false)
  {
    hide Behavior;
    run, nudge := RunToDrain();
    var go := ActorStep(Ok);
    run := Extend(run, go);       // begin try_recv
    run := Extend(run, go);       // high queue empty
    run := Extend(run, go);       // stash empty
    run := Extend(run, go);       // low queue empty
    run := Extend(run, go);
  }

  /** So the actor goes on to read the reference count, as one. */
  lemma RunToLastCheck() returns (run: seq<Actor>, nudge: Msg)
    ensures |run| > 0 && Behavior(run) && nudge == Message(High, 0, Nudge)
    ensures run[|run| - 1] == Actor(Channel([nudge], [], [], None, 1, Idle, [nudge]), 1, 0, 0, true,
                                    false, LastLow, [nudge], 1, false)
  {
    run, nudge := RunToEmptyInbox();
    var go := ActorStep(Ok);
    run := Extend(run, go);       // is_empty: low
    run := Extend(run, go);       // is_empty: stash
    run := Extend(run, go);       // is_empty: high
    run := Extend(run, go);       // on_drained_messages
    run := Extend(run, go);       // is_last_mailbox
  }

  /**
   A run with such a message: a weak mailbox upgraded just after the check sends it, and it is left
   in the queue of an actor that exits as `Completed`.
   */
  lemma LateSendCanBeLost() returns (run: seq<Actor>, lost: Msg)
    ensures Behavior(run)
    ensures var s := run[|run| - 1];
            && s.pc == Exited(Completed) && s.late
            && lost in s.ch.sent && lost.body == Work(7) && lost !in s.handled
  {
    var nudge;
    run, nudge := RunToLastCheck();
    var go := ActorStep(Ok);
    lost := Message(Low, 1, Work(7));
    run := Extend(run, AddHandle);
    run := Extend(run, go);       // the low queue is still empty
    run := Extend(run, SendMessage(Low, Work(7), false));
    run := Extend(run, go);       // the stash is empty
    run := Extend(run, go);       // the high queue is empty
    assert run[|run| - 1].ch.sent == [nudge, lost];
  }
}
