/**
 What an actor gets done when it is left alone, what it leaves undone while it is paused, and how it
 ends once it is killed.
 */
module ActorProgress {
  import opened Wrappers
  import opened PriorityChannel
  import opened ActorLoop

  /** The messages that are there and not delivered yet. */
  function Waiting(ch: Channel<Body>): nat {
    |ch.high| + |ch.low| + |ch.stash.ToSeq()| + |Held(ch.pc)|
  }

  /** The actor is not stuck in a receive that it began while paused. */
  predicate Listening(s: Actor) {
    s.ch.pc.OnlyHigh? ==> s.ch.high != []
  }

  predicate Working(s: Actor) {
    s.running && !s.killed && !s.pc.Exited?
  }

  /** A message was just delivered to the actor. */
  predicate Delivered(s: Actor) {
    (s.pc.Receiving? || s.pc.DrainReceiving?) && s.ch.pc.Done? && s.ch.pc.outcome.Got?
  }

  /** A step delivered a message, or came closer to it. */
  predicate Closer(s: Actor, s': Actor) {
    if Delivered(s') && !Delivered(s) then Waiting(s'.ch) == Waiting(s.ch) - 1
    else Waiting(s'.ch) == Waiting(s.ch) && s'.ch.high == s.ch.high && BusyRank(s') < BusyRank(s)
  }

  // ---------------------------------------------------------------------------
  // Steps left until the next delivery, or until the exit

  /** Steps left in the receive in progress when something is there. */
  function ReceiveRank(ch: Channel<Body>): nat {
    match ch.pc
    case Done(outcome) => if outcome.Got? then 25 else 19
    case TryHigh => 4
    case TryStash => if ch.stash.Some? || ch.low != [] then 3 else 21
    case TryLow => if ch.low != [] then 2 else 20
    case TryRecheck(_) => 1
    case TryClosed => 1
    case ProbePop(caller) => if caller.AtStart? then 8 else 2
    case ProbeFlag(caller) => if caller.AtStart? then 7 else 1
    case ProbeAgain(caller) => if caller.AtStart? then 7 else 1
    case RecvStash => 6
    case PollHigh => 4
    case PollLow => if ch.low != [] then 3 else 5
    case OnlyHigh => 1
    case Idle => 0
  }

  function BusyRank(s: Actor): nat {
    match s.pc
    case Receiving => ReceiveRank(s.ch)
    case DrainReceiving => ReceiveRank(s.ch)
    case DrainStart => 5
    case ReadMode => 9
    case Top => 10
    case LastHigh => 11
    case LastStash => 12
    case LastLow => 13
    case CheckLast => 14
    case OnDrained => 15
    case DrainHigh => 16
    case DrainStash => 17
    case DrainLow => 18
    case AfterFirst => 22
    case Handling(_, _) => 23
    case InHand(_, _) => 24
    case Exited(_) => 0
  }

  /** Steps left until the exit when nothing is there. */
  function IdleRank(s: Actor): nat {
    match s.pc
    case Exited(_) => 0
    case LastHigh => 1
    case LastStash => 2
    case LastLow => 3
    case CheckLast => 4
    case OnDrained => 5
    case DrainHigh => 6
    case DrainStash => 7
    case DrainLow => 8
    case DrainReceiving =>
      (match s.ch.pc
       case Done(outcome) => if outcome.Got? then 17 else 9
       case TryLow => 10
       case TryStash => 11
       case _ => 12)
    case DrainStart => 13
    case AfterFirst => 14
    case Handling(_, _) => 15
    case InHand(_, _) => 16
    case _ => 17
  }

  function Rank(s: Actor): nat {
    if Waiting(s.ch) > 0 then 30 * Waiting(s.ch) + BusyRank(s) else IdleRank(s)
  }

  lemma RankBound(s: Actor)
    ensures Rank(s) <= 30 * Waiting(s.ch) + 25
    ensures Waiting(s.ch) > 0 ==> Rank(s) >= 30
  {
  }

  // ---------------------------------------------------------------------------
  // One step of an actor left alone

  /** A step of the receive in progress delivers, or comes closer to it. */
  lemma ChannelStepRanks(ch: Channel<Body>)
    requires PriorityChannel.Inv(ch) && ch.senders == 1 && !ch.pc.Idle? && !ch.pc.Done?
    requires Waiting(ch) > 0 && (ch.pc.OnlyHigh? ==> ch.high != [])
    ensures var ch' := PriorityChannel.Step(ch);
            && (ch'.pc.OnlyHigh? ==> ch'.high != [])
            && (if ch'.pc.Done? && ch'.pc.outcome.Got? then Waiting(ch') == Waiting(ch) - 1
                else Waiting(ch') == Waiting(ch) && ch'.high == ch.high && ReceiveRank(ch') < ReceiveRank(ch))
  {
    hide Core, Conserved;
    assert Learnt(ch);
  }

  lemma InvOfChannel(s: Actor)
    requires ActorLoop.Inv(s)
    ensures PriorityChannel.Inv(s.ch) && s.ch.senders == 1 && PcsAgree(s)
  {
  }

  /** What a step of the actor inside a receive is. */
  lemma ReceiveStep(s: Actor, reply: Reply)
    requires ActorLoop.Enabled(s, ActorStep(reply)) && (s.pc.Receiving? || s.pc.DrainReceiving?)
    ensures !s.ch.pc.Done? ==> ActorLoop.Step(s, reply) == s.(ch := PriorityChannel.Step(s.ch))
    ensures s.ch.pc.Done? ==>
              var s' := ActorLoop.Step(s, reply);
              s'.ch == s.ch.(pc := Idle)
              && (s'.pc.Exited? || (if s.ch.pc.outcome.Got? then s'.pc.InHand? else s'.pc.DrainLow?))
  {
    hide PriorityChannel.Step;
  }

  lemma InsideReceive(s: Actor)
    requires PriorityChannel.Inv(s.ch) && s.ch.senders == 1 && Listening(s) && Waiting(s.ch) > 0
    requires (s.pc.Receiving? || s.pc.DrainReceiving?) && !s.ch.pc.Idle? && !s.ch.pc.Done?
    ensures var s' := s.(ch := PriorityChannel.Step(s.ch)); Listening(s') && Closer(s, s')
  {
    hide PriorityChannel.Inv, PriorityChannel.Step, Waiting, ReceiveRank;
    ChannelStepRanks(s.ch);
  }

  lemma AfterReceive(s: Actor, s': Actor)
    requires (s.pc.Receiving? || s.pc.DrainReceiving?) && s.ch.pc.Done? && s'.ch == s.ch.(pc := Idle)
    requires if s.ch.pc.outcome.Got? then s'.pc.InHand? else s'.pc.DrainLow?
    ensures Listening(s') && Closer(s, s')
  {
    DoneHoldsNothing(s.ch);
    hide Waiting;
  }

  lemma ReceivingRanks(s: Actor, reply: Reply)
    requires ActorLoop.Inv(s) && ActorLoop.Enabled(s, ActorStep(reply)) && Listening(s) && Waiting(s.ch) > 0
    requires s.pc.Receiving? || s.pc.DrainReceiving?
    ensures var s' := ActorLoop.Step(s, reply); s'.pc.Exited? || (Listening(s') && Closer(s, s'))
  {
    InvOfChannel(s);
    ReceiveStep(s, reply);
    NotIdleInside(s, reply);
    hide ActorLoop.Inv, PriorityChannel.Inv, ActorLoop.Step, PriorityChannel.Step, ActorLoop.Enabled, Waiting;
    hide Closer, Listening, PcsAgree;
    if !s.ch.pc.Done? {
      InsideReceive(s);
    } else if !ActorLoop.Step(s, reply).pc.Exited? {
      AfterReceive(s, ActorLoop.Step(s, reply));
    }
  }

  lemma NotIdleInside(s: Actor, reply: Reply)
    requires ActorLoop.Enabled(s, ActorStep(reply)) && (s.pc.Receiving? || s.pc.DrainReceiving?)
    ensures !s.ch.pc.Idle?
  {
  }

  lemma DoneHoldsNothing(ch: Channel<Body>)
    requires ch.pc.Done?
    ensures Waiting(ch.(pc := Idle)) == Waiting(ch)
  {
  }

  lemma IdleHoldsNothing(ch: Channel<Body>, pc: Pc<Body>)
    requires ch.pc.Idle? && (pc.TryHigh? || pc == ProbePop(AtStart) || pc.OnlyHigh?)
    ensures Waiting(ch.(pc := pc)) == Waiting(ch)
  {
  }

  lemma HandlingRanks(s: Actor, reply: Reply)
    requires ActorLoop.Enabled(s, ActorStep(reply)) && s.pc.Handling? && Listening(s)
    ensures var s' := ActorLoop.Step(s, reply);
            s'.pc.Exited? || (Listening(s') && s'.ch == s.ch && (s'.pc.DrainStart? || s'.pc.AfterFirst?))
  {
  }

  /**
   Left alone with something there, an actor that is running, or has a high-priority message, ends or comes
   closer to a delivery.
   */
  lemma BusyStepIsCloser(s: Actor, reply: Reply)
    requires ActorLoop.Inv(s) && ActorLoop.Enabled(s, ActorStep(reply)) && !s.pc.Exited?
    requires Listening(s) && Waiting(s.ch) > 0 && (s.running || s.ch.high != [])
    ensures var s' := ActorLoop.Step(s, reply); s'.pc.Exited? || (Listening(s') && Closer(s, s'))
  {
    if s.pc.Receiving? || s.pc.DrainReceiving? {
      ReceivingRanks(s, reply);
    } else if s.pc.Handling? {
      HandlingRanks(s, reply);
      hide ActorLoop.Step, ActorLoop.Inv;
    } else {
      MovesCloser(s, reply);
    }
  }

  predicate Plain(pc: ActorPc) {
    !pc.Receiving? && !pc.DrainReceiving? && !pc.Handling? && !pc.ReadMode? && !pc.DrainStart? && !pc.Exited?
  }

  lemma PlainMove(s: Actor, reply: Reply)
    requires ActorLoop.Enabled(s, ActorStep(reply)) && Plain(s.pc)
    ensures var s' := ActorLoop.Step(s, reply);
            s'.ch == s.ch && !s'.pc.Receiving? && !s'.pc.DrainReceiving? && (s'.pc.Exited? || BusyRank(s') < BusyRank(s))
  {
    hide PriorityChannel.Step, Handle, ReceiveRank;
  }

  lemma BeginsReceive(s: Actor, reply: Reply)
    requires ActorLoop.Enabled(s, ActorStep(reply)) && (s.pc.ReadMode? || s.pc.DrainStart?)
    ensures var s' := ActorLoop.Step(s, reply);
            && (s'.pc.Receiving? || s'.pc.DrainReceiving?) && s.ch.pc.Idle? && s' == s.(ch := s'.ch, pc := s'.pc)
            && s'.ch == s.ch.(pc := if s.pc.DrainStart? then TryHigh else if s.running then ProbePop(AtStart) else OnlyHigh)
  {
  }

  lemma MovesCloser(s: Actor, reply: Reply)
    requires ActorLoop.Inv(s) && ActorLoop.Enabled(s, ActorStep(reply)) && !s.pc.Exited?
    requires !s.pc.Receiving? && !s.pc.DrainReceiving? && !s.pc.Handling?
    requires Listening(s) && Waiting(s.ch) > 0 && (s.running || s.ch.high != [])
    ensures var s' := ActorLoop.Step(s, reply); s'.pc.Exited? || (Listening(s') && Closer(s, s'))
  {
    if Plain(s.pc) {
      PlainMove(s, reply);
    } else {
      BeginsReceive(s, reply);
      IdleHoldsNothing(s.ch, ActorLoop.Step(s, reply).ch.pc);
    }
    hide ActorLoop.Inv, ActorLoop.Step, ActorLoop.Enabled, Waiting;
  }

  lemma BusyStepRanks(s: Actor, reply: Reply)
    requires ActorLoop.Inv(s) && ActorLoop.Enabled(s, ActorStep(reply)) && Working(s) && Listening(s) && Waiting(s.ch) > 0
    ensures var s' := ActorLoop.Step(s, reply); s'.pc.Exited? || (Listening(s') && Rank(s') < Rank(s))
  {
    BusyStepIsCloser(s, reply);
    BusyRankBound(ActorLoop.Step(s, reply));
    hide ActorLoop.Inv, ActorLoop.Step, Waiting, BusyRank;
    IdleRankBound(ActorLoop.Step(s, reply));
  }

  lemma BusyRankBound(s: Actor)
    ensures BusyRank(s) <= 25
  {
  }

  lemma IdleRankBound(s: Actor)
    ensures IdleRank(s) <= 17
  {
  }

  /** A receive with nothing there delivers nothing. */
  lemma EmptyStepStaysEmpty(ch: Channel<Body>)
    requires ch.senders == 1 && !ch.pc.Idle? && !ch.pc.Done? && Waiting(ch) == 0
    ensures Waiting(PriorityChannel.Step(ch)) == 0
    ensures var pc := PriorityChannel.Step(ch).pc;
            match ch.pc
            case TryHigh => pc.TryStash?
            case TryStash => pc.TryLow?
            case TryLow => pc == Done(NoMessage)
            case _ => true
  {
  }

  lemma EmptyStaysEmpty(s: Actor, reply: Reply)
    requires ActorLoop.Inv(s) && ActorLoop.Enabled(s, ActorStep(reply)) && Waiting(s.ch) == 0
    ensures Waiting(ActorLoop.Step(s, reply).ch) == 0
  {
    InvOfChannel(s);
    hide ActorLoop.Inv, PriorityChannel.Inv;
    match s.pc {
      case Receiving =>
        if !s.ch.pc.Done? { EmptyStepStaysEmpty(s.ch); } else { DoneHoldsNothing(s.ch); }
      case DrainReceiving =>
        if !s.ch.pc.Done? { EmptyStepStaysEmpty(s.ch); } else { DoneHoldsNothing(s.ch); }
      case ReadMode => IdleHoldsNothing(s.ch, ActorLoop.Step(s, reply).ch.pc);
      case DrainStart => IdleHoldsNothing(s.ch, ActorLoop.Step(s, reply).ch.pc);
      case Handling(_, _) => HandlingKeepsChannel(s, reply);
      case _ =>
    }
  }

  lemma HandlingKeepsChannel(s: Actor, reply: Reply)
    requires ActorLoop.Enabled(s, ActorStep(reply)) && s.pc.Handling?
    ensures ActorLoop.Step(s, reply).ch == s.ch
  {
  }

  /** The moves of the loop outside receives and handlers, with nothing there. */
  lemma EmptyMoveRanks(s: Actor, reply: Reply)
    requires ActorLoop.Enabled(s, ActorStep(reply)) && Working(s) && Waiting(s.ch) == 0 && s.refCount == 1
    requires !s.pc.Top? && !s.pc.ReadMode? && !s.pc.Receiving? && !s.pc.DrainReceiving? && !s.pc.Handling?
    ensures IdleRank(ActorLoop.Step(s, reply)) < IdleRank(s)
  {
    hide PriorityChannel.Step, Handle;
  }

  lemma EmptyDrainRanks(s: Actor, reply: Reply)
    requires ActorLoop.Enabled(s, ActorStep(reply)) && s.pc.DrainReceiving? && InTryRecv(s.ch.pc)
    requires Waiting(s.ch) == 0 && s.ch.senders == 1
    ensures IdleRank(ActorLoop.Step(s, reply)) < IdleRank(s)
  {
    ReceiveStep(s, reply);
    hide ActorLoop.Step;
    if !s.ch.pc.Done? {
      EmptyStepStaysEmpty(s.ch);
      hide PriorityChannel.Step;
    }
  }

  /** With nothing there and nobody left, a running actor comes closer to its exit. */
  lemma AbandonedStepRanks(s: Actor, reply: Reply)
    requires ActorLoop.Inv(s) && ActorLoop.Enabled(s, ActorStep(reply)) && Working(s)
    requires Waiting(s.ch) == 0 && Abandoned(s)
    ensures var s' := ActorLoop.Step(s, reply); Waiting(s'.ch) == 0 && IdleRank(s') < IdleRank(s)
  {
    EmptyStaysEmpty(s, reply);
    NotCommitted(s);
    InvOfChannel(s);
    if s.pc.Handling? {
      HandlingRanks(s, reply);
      hide ActorLoop.Step;
    } else if s.pc.DrainReceiving? {
      EmptyDrainRanks(s, reply);
    } else if s.pc.Receiving? {
      ReceiveStep(s, reply);
      hide ActorLoop.Step;
    } else {
      EmptyMoveRanks(s, reply);
    }
    hide ActorLoop.Inv, PriorityChannel.Inv, PriorityChannel.Step, ActorLoop.Step, Waiting;
  }

  lemma NotCommitted(s: Actor)
    requires ActorLoop.Inv(s) && Waiting(s.ch) == 0 && Abandoned(s)
    ensures !Committed(s) && s.refCount == 1
  {
    hide PriorityChannel.Inv, Accounted, Swept, OnlyNudgesSince;
  }

  // ---------------------------------------------------------------------------
  // Runs left alone

  /** From m to n the actor alone moves, running and not killed, and it has not exited before n. */
  ghost predicate LeftAlone(run: seq<Actor>, m: nat, n: nat) {
    && m <= n < |run|
    && (forall i :: m <= i < n ==> OwnStep(run[i], run[i + 1]))
    && (forall i :: m <= i < n ==> Working(run[i]))
  }

  ghost predicate OwnStep(s: Actor, s': Actor) {
    exists reply :: ActorLoop.Enabled(s, ActorStep(reply)) && s' == ActorLoop.Step(s, reply)
  }

  lemma {:induction false} RankFalls(run: seq<Actor>, m: nat, n: nat)
    requires ActorLoop.Behavior(run) && LeftAlone(run, m, n) && Listening(run[m])
    ensures run[n].pc.Exited? || Waiting(run[n].ch) == 0 || (Listening(run[n]) && Rank(run[n]) + (n - m) <= Rank(run[m]))
  {
    hide ActorLoop.Inv, ActorLoop.Step, ActorLoop.Enabled, Rank, Waiting, Listening, ActorLoop.Behavior;
    if m < n {
      RankFalls(run, m, n - 1);
      ActorLoop.InvAlways(run, n - 1);
      assert OwnStep(run[n - 1], run[n - 1 + 1]) && Working(run[n - 1]);
      var reply :| ActorLoop.Enabled(run[n - 1], ActorStep(reply)) && run[n] == ActorLoop.Step(run[n - 1], reply);
      if Waiting(run[n - 1].ch) == 0 {
        EmptyStaysEmpty(run[n - 1], reply);
      } else {
        BusyStepRanks(run[n - 1], reply);
      }
    }
  }

  /**
   Nothing is left lying: a running actor that is neither killed nor disturbed, and not stuck in a receive
   it began while paused, has after a bounded number of its own steps exited, or handled every message
   sent to it except one that is in its hand.
   */
  lemma AvailableIsHandled(run: seq<Actor>, m: nat, n: nat, i: nat)
    requires ActorLoop.Behavior(run) && LeftAlone(run, m, n) && Listening(run[m])
    requires n - m >= 30 * Waiting(run[m].ch) + 25 && i < |run[n].ch.sent|
    ensures run[n].pc.Exited? || run[n].ch.sent[i] in run[n].handled + Unhandled(run[n])
  {
    RankFalls(run, m, n);
    RankBound(run[m]);
    RankBound(run[n]);
    ActorLoop.InvAlways(run, n);
    if !run[n].pc.Exited? {
      NothingWaits(run[n], i);
    }
  }

  lemma NothingWaits(s: Actor, i: nat)
    requires ActorLoop.Inv(s) && !s.pc.Exited? && Waiting(s.ch) == 0 && i < |s.ch.sent|
    ensures s.ch.sent[i] in s.handled + Unhandled(s)
  {
    hide Learnt, PriorityRespected, Stamped, Wakeful, Swept, OnlyNudgesSince, Conserved;
    assert Held(s.ch.pc) == [];
    SentIsDeliveredOrStored(s.ch, i);
    assert s.ch.delivered == s.handled + Unhandled(s);
  }

  /** Stuck, it waits for the message that resumes it: this is the exact limit of the result above. */
  lemma PausedReceiveWaits(s: Actor, reply: Reply)
    requires ActorLoop.Enabled(s, ActorStep(reply)) && s.pc.Receiving? && s.ch.pc.OnlyHigh? && s.ch.high == []
    ensures ActorLoop.Step(s, reply) == s
  {
  }

  lemma {:induction false} AbandonedRankFalls(run: seq<Actor>, m: nat, n: nat)
    requires ActorLoop.Behavior(run) && LeftAlone(run, m, n) && Listening(run[m]) && Abandoned(run[m])
    ensures run[n].pc.Exited? || (Listening(run[n]) && Abandoned(run[n]) && Rank(run[n]) + (n - m) <= Rank(run[m]))
  {
    hide ActorLoop.Inv, ActorLoop.Step, ActorLoop.Enabled, Waiting, BusyRank, IdleRank, Listening, ActorLoop.Behavior;
    if m < n {
      AbandonedRankFalls(run, m, n - 1);
      ActorLoop.InvAlways(run, n - 1);
      assert OwnStep(run[n - 1], run[n - 1 + 1]) && Working(run[n - 1]);
      var reply :| ActorLoop.Enabled(run[n - 1], ActorStep(reply)) && run[n] == ActorLoop.Step(run[n - 1], reply);
      OwnStepKeepsHandles(run[n - 1], reply);
      if Waiting(run[n - 1].ch) == 0 {
        AbandonedStepRanks(run[n - 1], reply);
        AbandonedListens(run[n - 1], reply);
      } else {
        BusyStepRanks(run[n - 1], reply);
      }
    }
  }

  lemma OwnStepKeepsHandles(s: Actor, reply: Reply)
    requires ActorLoop.Enabled(s, ActorStep(reply))
    ensures var s' := ActorLoop.Step(s, reply); s'.handles == s.handles && s'.nudgers == s.nudgers
  {
    hide PriorityChannel.Step;
  }

  lemma AbandonedListens(s: Actor, reply: Reply)
    requires ActorLoop.Inv(s) && ActorLoop.Enabled(s, ActorStep(reply)) && Working(s) && Waiting(s.ch) == 0 && Abandoned(s)
    ensures Listening(ActorLoop.Step(s, reply))
  {
    EmptyStaysEmpty(s, reply);
    NotCommitted(s);
    InvOfChannel(s);
    hide ActorLoop.Inv, PriorityChannel.Inv;
    match s.pc {
      case DrainReceiving => if !s.ch.pc.Done? { TryStaysTry(s.ch); hide PriorityChannel.Step; }
      case Handling(_, _) => HandlingRanks(s, reply);
      case _ =>
    }
  }

  lemma TryStaysTry(ch: Channel<Body>)
    requires InTryRecv(ch.pc) && !ch.pc.Done?
    ensures InTryRecv(PriorityChannel.Step(ch).pc)
  {
  }

  /**
   Once all mailboxes are dropped and their Nudge is sent, a running actor that is neither killed nor
   disturbed exits after a bounded number of its own steps, having worked off what was in its inbox.
   */
  lemma AbandonedActorExits(run: seq<Actor>, m: nat, n: nat)
    requires ActorLoop.Behavior(run) && LeftAlone(run, m, n) && Listening(run[m]) && Abandoned(run[m])
    requires n - m >= 30 * Waiting(run[m].ch) + 25
    ensures run[n].pc.Exited?
  {
    AbandonedRankFalls(run, m, n);
    RankBound(run[m]);
    if !run[n].pc.Exited? {
      ActorLoop.InvAlways(run, n);
      NotExitedRanks(run[n]);
    }
  }

  lemma NotExitedRanks(s: Actor)
    requires !s.pc.Exited?
    ensures Rank(s) > 0
  {
  }

  // ---------------------------------------------------------------------------
  // A killed actor

  function KilledRank(s: Actor): nat {
    if Delivered(s) then 2 else if s.pc.InHand? then 1 else if s.pc.Exited? then 0 else 2 + BusyRank(s)
  }

  /** Killed, with a high-priority message there until one is delivered to it. */
  predicate Doomed(s: Actor) {
    s.killed && (s.pc.Exited? || Delivered(s) || s.pc.InHand? || (s.ch.high != [] && Listening(s)))
  }

  lemma DoomedStep(s: Actor, reply: Reply)
    requires ActorLoop.Inv(s) && ActorLoop.Enabled(s, ActorStep(reply)) && Doomed(s)
    ensures var s' := ActorLoop.Step(s, reply); Doomed(s') && KilledRank(s') < KilledRank(s)
  {
    KilledStays(s, reply);
    if Delivered(s) {
      ReceiveStep(s, reply);
      hide ActorLoop.Step;
    } else if !s.pc.InHand? {
      HighCounts(s.ch);
      BusyStepIsCloser(s, reply);
      NotKilledInHand(s, reply);
      hide ActorLoop.Step, Waiting, BusyRank;
      PositiveRank(s);
    }
    hide ActorLoop.Inv;
  }

  lemma HighCounts(ch: Channel<Body>)
    requires ch.high != []
    ensures Waiting(ch) > 0
  {
  }

  lemma PositiveRank(s: Actor)
    requires !s.pc.Exited? && !((s.pc.Receiving? || s.pc.DrainReceiving?) && s.ch.pc.Idle?)
    ensures BusyRank(s) > 0
  {
  }

  lemma KilledStays(s: Actor, reply: Reply)
    requires ActorLoop.Enabled(s, ActorStep(reply)) && s.killed
    ensures ActorLoop.Step(s, reply).killed
  {
    hide PriorityChannel.Step;
  }

  /** A message comes into the hand only from a delivery. */
  lemma NotKilledInHand(s: Actor, reply: Reply)
    requires ActorLoop.Enabled(s, ActorStep(reply)) && !Delivered(s) && !s.pc.Exited?
    ensures !ActorLoop.Step(s, reply).pc.InHand?
    ensures s.pc.Receiving? || s.pc.DrainReceiving? ==> !s.ch.pc.Idle?
  {
    if s.pc.Receiving? || s.pc.DrainReceiving? {
      ReceiveStep(s, reply);
      NotIdleInside(s, reply);
      hide ActorLoop.Step;
    } else if s.pc.Handling? {
      HandlingEnds(s, reply);
    } else if Plain(s.pc) {
      PlainNotInHand(s, reply);
    } else {
      BeginsReceive(s, reply);
    }
    hide ActorLoop.Step;
  }

  lemma HandlingEnds(s: Actor, reply: Reply)
    requires ActorLoop.Enabled(s, ActorStep(reply)) && s.pc.Handling?
    ensures !ActorLoop.Step(s, reply).pc.InHand?
  {
  }

  lemma PlainNotInHand(s: Actor, reply: Reply)
    requires ActorLoop.Enabled(s, ActorStep(reply)) && Plain(s.pc)
    ensures !ActorLoop.Step(s, reply).pc.InHand?
  {
    hide PriorityChannel.Step, Handle;
  }

  lemma {:induction false} DoomRuns(run: seq<Actor>, m: nat, n: nat)
    requires ActorLoop.Behavior(run) && m <= n < |run| && Doomed(run[m])
    requires forall i :: m <= i < n ==> OwnStep(run[i], run[i + 1])
    ensures Doomed(run[n]) && KilledRank(run[n]) + (n - m) <= KilledRank(run[m])
  {
    hide ActorLoop.Inv, ActorLoop.Step, ActorLoop.Enabled, KilledRank, Doomed, ActorLoop.Behavior;
    if m < n {
      DoomRuns(run, m, n - 1);
      ActorLoop.InvAlways(run, n - 1);
      assert OwnStep(run[n - 1], run[n - 1 + 1]);
      var reply :| ActorLoop.Enabled(run[n - 1], ActorStep(reply)) && run[n] == ActorLoop.Step(run[n - 1], reply);
      DoomedStep(run[n - 1], reply);
    }
  }

  lemma NotExitedKilledRank(s: Actor)
    requires !s.pc.Exited? && !((s.pc.Receiving? || s.pc.DrainReceiving?) && s.ch.pc.Idle?)
    ensures KilledRank(s) > 0
  {
  }

  /**
   Killed and nudged, an actor left alone exits within 27 of its own steps, running or paused, whatever it
   was doing.
   */
  lemma KilledActorExits(run: seq<Actor>, m: nat, n: nat)
    requires ActorLoop.Behavior(run) && m <= n < |run| && run[m].killed && run[m].ch.high != []
    requires forall i :: m <= i < n ==> OwnStep(run[i], run[i + 1])
    ensures run[n].pc.Exited? || n - m < 27
  {
    DoomRuns(run, m, n);
    BusyRankBound(run[m]);
    ActorLoop.InvAlways(run, n);
    InvOfChannel(run[n]);
    hide ActorLoop.Inv, BusyRank, ActorLoop.Behavior;
    if !run[n].pc.Exited? {
      NotExitedKilledRank(run[n]);
    }
  }
}
