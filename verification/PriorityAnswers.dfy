/**
 What the receive operations of the two-priority channel answer: exactly, when no sender interferes, and
 what an answer of no message rests on when they do.
 */
module PriorityAnswers {
  import opened Wrappers
  import opened PriorityChannel

  // ---------------------------------------------------------------------------
  // The exact answer, from the stores alone

  /** The head of the high queue, else the stash, else the head of the low queue, else nothing. */
  function Answer<T>(c: Channel<T>): Outcome<T> {
    if c.high != [] then Got(c.high[0])
    else if c.stash.Some? then Got(c.stash.value)
    else if c.low != [] then Got(c.low[0])
    else if c.senders == 0 then Disconnected
    else NoMessage
  }

  /** The channel once that answer has been given. */
  function Served<T>(c: Channel<T>): Channel<T> {
    var delivered := if Answer(c).Got? then c.delivered + [Answer(c).msg] else c.delivered;
    var rest :=
      if c.high != [] then c.(high := c.high[1..])
      else if c.stash.Some? then c.(stash := None)
      else if c.low != [] then c.(low := c.low[1..])
      else c;
    rest.(delivered := delivered, pc := Done(Answer(c)))
  }

  // ---------------------------------------------------------------------------
  // Where an operation ends if it is left alone

  function Closed<T>(c: Channel<T>): Channel<T> {
    if c.high != [] then DeliverHigh(c) else c.(pc := Done(Disconnected))
  }

  function FromTryLow<T>(c: Channel<T>): Channel<T> {
    if c.low != [] then
      if c.high != [] then DeliverHigh(c.(low := c.low[1..], stash := Some(c.low[0])))
      else Deliver(c.(low := c.low[1..]), c.low[0])
    else if c.senders == 0 then Closed(c)
    else c.(pc := Done(NoMessage))
  }

  function FromTryStash<T>(c: Channel<T>): Channel<T> {
    if c.stash.Some? then Deliver(c.(stash := None), c.stash.value) else FromTryLow(c)
  }

  predicate InTry<T>(pc: Pc<T>) {
    pc.TryHigh? || pc.TryStash? || pc.TryLow? || pc.TryRecheck? || pc.TryClosed? || pc.Done?
  }

  function TryGoal<T>(c: Channel<T>): Channel<T>
    requires InTry(c.pc)
  {
    match c.pc
    case TryHigh => if c.high != [] then DeliverHigh(c) else FromTryStash(c)
    case TryStash => FromTryStash(c)
    case TryLow => FromTryLow(c)
    case TryRecheck(low) => if c.high != [] then DeliverHigh(c.(stash := Some(low))) else Deliver(c, low)
    case TryClosed => Closed(c)
    case Done(_) => c
  }

  lemma TryStepKeepsGoal<T>(c: Channel<T>)
    requires InTry(c.pc) && !c.pc.Done?
    ensures InTry(Step(c).pc) && TryGoal(Step(c)) == TryGoal(c)
  {
  }

  /** A receive that waits: nothing is there, and a sender is alive. */
  function Waits<T>(c: Channel<T>): Channel<T> {
    c.(pc := PollHigh)
  }

  function WithLowGoal<T>(c: Channel<T>, low: Message<T>): Channel<T> {
    if c.high != [] then DeliverHigh(c.(stash := Some(low))) else Deliver(c, low)
  }

  function FromPollLow<T>(c: Channel<T>): Channel<T> {
    if c.low != [] then WithLowGoal(c.(low := c.low[1..]), c.low[0])
    else if c.senders == 0 then Closed(c)
    else if c.high != [] then DeliverHigh(c)
    else Waits(c)
  }

  function FromRecvStash<T>(c: Channel<T>): Channel<T> {
    if c.stash.Some? then Deliver(c.(stash := None), c.stash.value)
    else if c.high != [] then DeliverHigh(c)
    else FromPollLow(c)
  }

  predicate InRecv<T>(pc: Pc<T>) {
    || pc.ProbePop? || pc.ProbeFlag? || pc.ProbeAgain? || pc.RecvStash? || pc.PollHigh? || pc.PollLow? || pc.Done?
  }

  function MissGoal<T>(c: Channel<T>, caller: Caller<T>): Channel<T> {
    match caller
    case AtStart => FromRecvStash(c)
    case WithLow(low) => Deliver(c, low)
    case LowClosed => c.(pc := Done(Disconnected))
  }

  function RecvGoal<T>(c: Channel<T>): Channel<T>
    requires InRecv(c.pc)
  {
    match c.pc
    case ProbePop(caller) => if c.high != [] then DeliverHigh(PutBack(c, caller)) else MissGoal(c, caller)
    case ProbeFlag(caller) =>
      if c.senders == 0 && c.high != [] then DeliverHigh(PutBack(c, caller)) else MissGoal(c, caller)
    case ProbeAgain(caller) => if c.high != [] then DeliverHigh(PutBack(c, caller)) else MissGoal(c, caller)
    case RecvStash => FromRecvStash(c)
    case PollHigh => if c.high != [] then DeliverHigh(c) else FromPollLow(c)
    case PollLow => FromPollLow(c)
    case Done(_) => c
  }

  lemma ProbeKeepsGoal<T>(c: Channel<T>)
    requires c.pc.ProbePop? || c.pc.ProbeFlag? || c.pc.ProbeAgain?
    ensures InRecv(Step(c).pc) && RecvGoal(Step(c)) == RecvGoal(c)
  {
  }

  lemma RecvStepKeepsGoal<T>(c: Channel<T>)
    requires InRecv(c.pc) && !c.pc.Done?
    ensures InRecv(Step(c).pc) && RecvGoal(Step(c)) == RecvGoal(c)
  {
    if c.pc.ProbePop? || c.pc.ProbeFlag? || c.pc.ProbeAgain? {
      ProbeKeepsGoal(c);
    }
  }

  // ---------------------------------------------------------------------------
  // Runs left alone

  /** From m to n only the receive in progress moves. */
  ghost predicate LeftAlone<T>(run: seq<Channel<T>>, m: nat, n: nat) {
    && m <= n < |run|
    && forall i :: m <= i < n ==> !run[i].pc.Idle? && !run[i].pc.Done? && run[i + 1] == Step(run[i])
  }

  lemma {:induction false} TryGoalStands<T>(run: seq<Channel<T>>, m: nat, n: nat)
    requires LeftAlone(run, m, n) && InTry(run[m].pc)
    ensures InTry(run[n].pc) && TryGoal(run[n]) == TryGoal(run[m])
  {
    if m < n {
      hide TryGoal, Step;
      TryGoalStands(run, m, n - 1);
      assert run[n - 1 + 1] == Step(run[n - 1]);
      TryStepKeepsGoal(run[n - 1]);
    }
  }

  lemma {:induction false} RecvGoalStands<T>(run: seq<Channel<T>>, m: nat, n: nat)
    requires LeftAlone(run, m, n) && InRecv(run[m].pc)
    ensures InRecv(run[n].pc) && RecvGoal(run[n]) == RecvGoal(run[m])
  {
    if m < n {
      hide RecvGoal, Step;
      RecvGoalStands(run, m, n - 1);
      assert run[n - 1 + 1] == Step(run[n - 1]);
      RecvStepKeepsGoal(run[n - 1]);
    }
  }

  lemma StartsTry<T>(c: Channel<T>)
    requires c.pc.TryHigh?
    ensures TryGoal(c) == Served(c)
  {
  }

  lemma StartsRecv<T>(c: Channel<T>)
    requires c.pc == ProbePop(AtStart)
    ensures RecvGoal(c) == if Answer(c) == NoMessage then Waits(c) else Served(c)
  {
  }

  /** `try_recv` left alone answers exactly from the stores it finds, and takes out what it returns. */
  lemma TryRecvAnswers<T>(run: seq<Channel<T>>, m: nat, n: nat)
    requires LeftAlone(run, m, n) && run[m].pc.TryHigh? && run[n].pc.Done?
    ensures run[n] == Served(run[m])
  {
    TryGoalStands(run, m, n);
    StartsTry(run[m]);
  }

  /**
   `recv` left alone does the same, and waits exactly when nothing is there and a sender is alive.
   */
  lemma RecvAnswers<T>(run: seq<Channel<T>>, m: nat, n: nat)
    requires LeftAlone(run, m, n) && run[m].pc == ProbePop(AtStart)
    ensures run[n].pc.Done? ==> Answer(run[m]) != NoMessage && run[n] == Served(run[m])
    ensures Answer(run[m]) == NoMessage ==> Waits(run[n]) == Waits(run[m])
  {
    RecvGoalStands(run, m, n);
    StartsRecv(run[m]);
    if Answer(run[m]) == NoMessage {
      OnlyWaitingWaits(run[n]);
    }
  }

  lemma OnlyWaitingWaits<T>(c: Channel<T>)
    requires InRecv(c.pc) && RecvGoal(c).pc.PollHigh?
    ensures RecvGoal(c) == Waits(c)
  {
  }

  /** How many steps the operation still takes. */
  function StepsLeft<T>(c: Channel<T>): nat {
    match c.pc
    case TryHigh => 4
    case TryStash => 3
    case TryLow => 2
    case ProbePop(caller) => if caller.AtStart? then 9 else 3
    case ProbeFlag(caller) => if caller.AtStart? then 8 else 2
    case ProbeAgain(caller) => if caller.AtStart? then 7 else 1
    case RecvStash => 6
    case PollHigh => 5
    case PollLow => if c.low != [] || c.senders == 0 then 4 else 6
    case Done(_) => 0
    case _ => 1
  }

  lemma StepIsCloser<T>(c: Channel<T>)
    requires (InTry(c.pc) || (InRecv(c.pc) && RecvGoal(c).pc.Done?)) && !c.pc.Done?
    ensures StepsLeft(Step(c)) < StepsLeft(c)
  {
  }

  /** An operation left alone ends within nine steps, unless it is a `recv` with nothing to receive. */
  lemma {:induction false} EndsSoon<T>(run: seq<Channel<T>>, m: nat, n: nat)
    requires LeftAlone(run, m, n) && (run[m].pc.TryHigh? || run[m].pc == ProbePop(AtStart))
    requires run[m].pc.TryHigh? || Answer(run[m]) != NoMessage
    ensures StepsLeft(run[n]) + (n - m) <= StepsLeft(run[m])
    ensures n - m <= 9
  {
    if m < n {
      EndsSoon(run, m, n - 1);
      var c := run[n - 1];
      assert run[n - 1 + 1] == Step(c);
      if run[m].pc.TryHigh? {
        TryGoalStands(run, m, n - 1);
      } else {
        RecvGoalStands(run, m, n - 1);
        StartsRecv(run[m]);
        assert RecvGoal(c).pc.Done?;
      }
      hide Step, RecvGoal, TryGoal, Answer;
      StepIsCloser(c);
    }
  }

  // ---------------------------------------------------------------------------
  // What NoMessage rests on, whatever the senders do

  lemma IntoNoMessage<T>(c: Channel<T>, a: Action<T>)
    requires Enabled(c, a) && Apply(c, a).pc == Done(NoMessage) && c.pc != Done(NoMessage)
    ensures a.Advance? && c.pc.TryLow? && c.low == [] && c.senders > 0
  {
  }

  lemma PastHigh<T>(c: Channel<T>, a: Action<T>)
    requires Enabled(c, a) && (Apply(c, a).pc.TryStash? || Apply(c, a).pc.TryLow?)
    ensures c.pc.TryStash? || c.pc.TryLow? || (c.pc.TryHigh? && c.high == [])
  {
  }

  lemma {:induction false} SawHighEmpty<T(!new)>(run: seq<Channel<T>>, b: nat, n: nat) returns (i: nat)
    requires Behavior(run) && b < n < |run| && run[b].pc.Idle?
    requires run[n].pc.TryStash? || run[n].pc.TryLow?
    ensures b < i < n && run[i].high == []
  {
    hide Apply, Enabled;
    assert Next(run[n - 1], run[n - 1 + 1]);
    var a :| Enabled(run[n - 1], a) && run[n] == Apply(run[n - 1], a);
    PastHigh(run[n - 1], a);
    if run[n - 1].pc.TryHigh? && run[n - 1].high == [] {
      i := n - 1;
    } else {
      i := SawHighEmpty(run, b, n - 1);
    }
  }

  /**
   A call of `try_recv` answers that there is no message only if, at some moment of the call, stash and
   low queue were both empty with a sender alive, after an earlier moment of the call at which the high
   queue was empty.
   */
  lemma {:induction false} NoMessageIsJustified<T(!new)>(run: seq<Channel<T>>, b: nat, n: nat)
    returns (i: nat, j: nat)
    requires Behavior(run) && b < n < |run| && run[b].pc.Idle? && run[n].pc == Done(NoMessage)
    ensures b < i < j < n && run[i].high == []
    ensures run[j].stash.None? && run[j].low == [] && run[j].senders > 0
  {
    hide Apply, Enabled, Inv;
    assert Next(run[n - 1], run[n - 1 + 1]);
    var a :| Enabled(run[n - 1], a) && run[n] == Apply(run[n - 1], a);
    if run[n - 1].pc == Done(NoMessage) {
      i, j := NoMessageIsJustified(run, b, n - 1);
    } else {
      IntoNoMessage(run[n - 1], a);
      i := SawHighEmpty(run, b, n - 1);
      j := n - 1;
      InvAlways(run, n - 1);
      StashSeen(run[n - 1]);
    }
  }

  lemma StashSeen<T>(c: Channel<T>)
    requires Inv(c) && c.pc.TryLow?
    ensures c.stash.None?
  {
  }
}
