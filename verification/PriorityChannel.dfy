/**
 The two-priority channel of `quickwit-actors/src/channel_with_priority.rs`.

 One consumer receives from a high-priority queue, a low-priority queue and a one-slot stash. Any
 number of senders run beside it. `recv` and `try_recv` are broken into their atomic queue
 operations: `Pc` says which operation the consumer performs next, and sends may happen between any
 two of them. A message carries its stamp, the position of its send among all sends.
 */
module PriorityChannel {
  import opened Wrappers

  datatype Priority = High | Low

  datatype Message<T> = Message(priority: Priority, stamp: nat, body: T)

  datatype Outcome<T> = Got(msg: Message<T>) | NoMessage | Disconnected

  /** Where `recv` was when it called `try_recv_high_priority_message`. */
  datatype Caller<T> =
    | AtStart                     // before looking at the stash
    | WithLow(low: Message<T>)    // holding a message popped from the low queue
    | LowClosed                   // the low queue reported a disconnection

  datatype Pc<T> =
    | Idle
    // try_recv
    | TryHigh | TryStash | TryLow | TryRecheck(low: Message<T>) | TryClosed
    // try_recv_high_priority_message: pop, look at the disconnection flag, pop again
    | ProbePop(caller: Caller<T>) | ProbeFlag(caller: Caller<T>) | ProbeAgain(caller: Caller<T>)
    // recv: the stash, then the biased select
    | RecvStash | PollHigh | PollLow
    // recv_high_priority
    | OnlyHigh
    | Done(outcome: Outcome<T>)

  /** `sent` and `delivered` are the complete histories; the rest is the channel itself. */
  datatype Channel<T> = Channel(
    sent: seq<Message<T>>,
    high: seq<Message<T>>,
    low: seq<Message<T>>,
    stash: Option<Message<T>>,
    senders: nat,
    pc: Pc<T>,
    delivered: seq<Message<T>>)

  datatype Action<T> =
    | Send(priority: Priority, body: T) | CloneSender | DropSender
    | BeginTryRecv | BeginRecv | BeginRecvHigh | Advance | Finish

  predicate Init<T>(c: Channel<T>) {
    c == Channel([], [], [], None, 1, Idle, [])
  }

  predicate Enabled<T>(c: Channel<T>, a: Action<T>) {
    match a
    case Send(_, _) => c.senders > 0
    case CloneSender => c.senders > 0
    case DropSender => c.senders > 0
    case BeginTryRecv => c.pc.Idle?
    case BeginRecv => c.pc.Idle?
    case BeginRecvHigh => c.pc.Idle?
    case Advance => !c.pc.Idle? && !c.pc.Done?
    case Finish => c.pc.Done?
  }

  function Apply<T>(c: Channel<T>, a: Action<T>): Channel<T>
    requires Enabled(c, a)
  {
    match a
    case Send(priority, body) => Enqueue(c, priority, body)
    case CloneSender => c.(senders := c.senders + 1)
    case DropSender => c.(senders := c.senders - 1)
    case BeginTryRecv => c.(pc := TryHigh)
    case BeginRecv => c.(pc := ProbePop(AtStart))
    case BeginRecvHigh => c.(pc := OnlyHigh)
    case Advance => Step(c)
    case Finish => c.(pc := Idle)
  }

  function Enqueue<T>(c: Channel<T>, priority: Priority, body: T): Channel<T> {
    var msg := Message(priority, |c.sent|, body);
    match priority
    case High => c.(sent := c.sent + [msg], high := c.high + [msg])
    case Low => c.(sent := c.sent + [msg], low := c.low + [msg])
  }

  function Deliver<T>(c: Channel<T>, msg: Message<T>): Channel<T> {
    c.(delivered := c.delivered + [msg], pc := Done(Got(msg)))
  }

  /** Pops the head of the high queue and returns it to the caller of `recv` or `try_recv`. */
  function DeliverHigh<T>(c: Channel<T>): Channel<T>
    requires c.high != []
  {
    Deliver(c.(high := c.high[1..]), c.high[0])
  }

  /** Places the low message in hand, if any, into the stash before a high message is returned. */
  function PutBack<T>(c: Channel<T>, caller: Caller<T>): Channel<T> {
    if caller.WithLow? then c.(stash := Some(caller.low)) else c
  }

  /** What `recv` does once no high-priority message was found. */
  function Miss<T>(c: Channel<T>, caller: Caller<T>): Channel<T> {
    match caller
    case AtStart => c.(pc := RecvStash)
    case WithLow(low) => Deliver(c, low)
    case LowClosed => c.(pc := Done(Disconnected))
  }

  /** The next atomic operation of the receive in progress. */
  function Step<T>(c: Channel<T>): Channel<T>
    requires !c.pc.Idle? && !c.pc.Done?
  {
    match c.pc
    case TryHigh => if c.high != [] then DeliverHigh(c) else c.(pc := TryStash)
    case TryStash =>
      if c.stash.Some? then Deliver(c.(stash := None), c.stash.value) else c.(pc := TryLow)
    case TryLow =>
      if c.low != [] then c.(low := c.low[1..], pc := TryRecheck(c.low[0]))
      else if c.senders == 0 then c.(pc := TryClosed)
      else c.(pc := Done(NoMessage))
    case TryRecheck(low) =>
      if c.high != [] then DeliverHigh(c.(stash := Some(low))) else Deliver(c, low)
    case TryClosed => if c.high != [] then DeliverHigh(c) else c.(pc := Done(Disconnected))
    case ProbePop(caller) =>
      if c.high != [] then DeliverHigh(PutBack(c, caller)) else c.(pc := ProbeFlag(caller))
    case ProbeFlag(caller) =>
      if c.senders == 0 then c.(pc := ProbeAgain(caller)) else Miss(c, caller)
    case ProbeAgain(caller) =>
      if c.high != [] then DeliverHigh(PutBack(c, caller)) else Miss(c, caller)
    case RecvStash =>
      if c.stash.Some? then Deliver(c.(stash := None), c.stash.value) else c.(pc := PollHigh)
    case PollHigh => if c.high != [] then DeliverHigh(c) else c.(pc := PollLow)
    case PollLow =>
      if c.low != [] then c.(low := c.low[1..], pc := ProbePop(WithLow(c.low[0])))
      else if c.senders == 0 then c.(pc := ProbePop(LowClosed))
      else c.(pc := PollHigh)
    case OnlyHigh => if c.high != [] then DeliverHigh(c) else c
  }

  // ---------------------------------------------------------------------------
  // Whole runs

  ghost predicate Next<T(!new)>(c: Channel<T>, c': Channel<T>) {
    exists a :: Enabled(c, a) && c' == Apply(c, a)
  }

  /** A run: any interleaving of sends, clones and drops of senders, and consumer operations. */
  ghost predicate Behavior<T(!new)>(run: seq<Channel<T>>) {
    && |run| > 0
    && Init(run[0])
    && forall i :: 0 <= i < |run| - 1 ==> Next(run[i], run[i + 1])
  }

  // ---------------------------------------------------------------------------
  // The invariant

  /** The messages of one priority, in order. */
  function Of<T>(msgs: seq<Message<T>>, priority: Priority): seq<Message<T>> {
    if msgs == [] then []
    else
      var last := msgs[|msgs| - 1];
      Of(msgs[..|msgs| - 1], priority) + (if last.priority == priority then [last] else [])
  }

  /** The low message a receive in progress has popped and not yet returned or stashed. */
  function Held<T>(pc: Pc<T>): seq<Message<T>> {
    match pc
    case TryRecheck(low) => [low]
    case ProbePop(WithLow(low)) => [low]
    case ProbeFlag(WithLow(low)) => [low]
    case ProbeAgain(WithLow(low)) => [low]
    case _ => []
  }

  predicate Stamped<T>(sent: seq<Message<T>>) {
    forall i :: 0 <= i < |sent| ==> sent[i].stamp == i
  }

  /** Every message of either priority is in exactly one place, in the order it was sent. */
  ghost predicate Conserved<T>(c: Channel<T>) {
    && Of(c.delivered, High) + c.high == Of(c.sent, High)
    && Of(c.delivered, Low) + c.stash.ToSeq() + Held(c.pc) + c.low == Of(c.sent, Low)
  }

  /** Every high-priority message sent before `low` is among `delivered`. */
  ghost predicate HighsBefore<T>(sent: seq<Message<T>>, low: Message<T>, delivered: seq<Message<T>>) {
    forall i :: 0 <= i < |sent| && i < low.stamp && sent[i].priority == High ==> sent[i] in delivered
  }

  /** The promise of the channel: no low message overtakes a high message sent before it. */
  ghost predicate PriorityRespected<T>(sent: seq<Message<T>>, delivered: seq<Message<T>>) {
    forall i :: 0 <= i < |delivered| && delivered[i].priority == Low
                ==> HighsBefore(sent, delivered[i], delivered[..i])
  }

  /** The receive in progress has found the stash empty, so it may place a message in it. */
  predicate StashSeenEmpty<T>(pc: Pc<T>) {
    match pc
    case TryLow => true
    case TryRecheck(_) => true
    case TryClosed => true
    case ProbePop(caller) => !caller.AtStart?
    case ProbeFlag(caller) => !caller.AtStart?
    case ProbeAgain(caller) => !caller.AtStart?
    case PollHigh => true
    case PollLow => true
    case _ => false
  }

  /**
   The low message that the receive in progress returns unless it still meets a high one, when it
   has already seen the high queue empty since that low message was in the stash or in its hand.
   */
  function Cleared<T>(c: Channel<T>): Option<Message<T>> {
    match c.pc
    case TryStash => c.stash
    case RecvStash => c.stash
    case ProbeFlag(AtStart) => c.stash
    case ProbeAgain(AtStart) => c.stash
    case ProbeFlag(WithLow(low)) => Some(low)
    case ProbeAgain(WithLow(low)) => Some(low)
    case _ => None
  }

  /** The receive in progress has seen the low queue empty with every sender gone. */
  ghost predicate LowSeenClosed<T>(pc: Pc<T>) {
    || pc.TryClosed?
    || pc == ProbePop(LowClosed) || pc == ProbeFlag(LowClosed) || pc == ProbeAgain(LowClosed)
    || pc == Done(Disconnected)
  }

  /** What holds of the histories and the stores, whatever the consumer is doing. */
  ghost predicate Core<T>(c: Channel<T>) {
    Stamped(c.sent) && Conserved(c) && PriorityRespected(c.sent, c.delivered)
  }

  /** What the consumer has learnt from the operations of the receive in progress. */
  ghost predicate Learnt<T>(c: Channel<T>) {
    && (StashSeenEmpty(c.pc) ==> c.stash.None?)
    && (Cleared(c).Some? ==> HighsBefore(c.sent, Cleared(c).value, c.delivered))
    && (LowSeenClosed(c.pc) ==> c.senders == 0 && c.low == [] && c.stash.None?)
    && (c.pc == Done(Disconnected) ==> c.high == [])
  }

  ghost predicate Inv<T>(c: Channel<T>) {
    Core(c) && Learnt(c)
  }

  // ---------------------------------------------------------------------------
  // Facts about `Of`

  lemma OfAppend<T>(msgs: seq<Message<T>>, msg: Message<T>, priority: Priority)
    ensures Of(msgs + [msg], priority)
            == Of(msgs, priority) + (if msg.priority == priority then [msg] else [])
  {
    assert (msgs + [msg])[..|msgs|] == msgs;
  }

  lemma DeliveredWasSent<T>(c: Channel<T>, m: Message<T>)
    requires Stamped(c.sent) && Conserved(c) && m in c.delivered
    ensures m in c.sent && m.stamp < |c.sent|
  {
    OfMembers(c.delivered, m.priority, m);
    match m.priority {
      case High => assert m in Of(c.delivered, High) + c.high;
      case Low => assert m in Of(c.delivered, Low) + c.stash.ToSeq() + Held(c.pc) + c.low;
    }
    OfMembers(c.sent, m.priority, m);
  }

  /** A message is delivered, or still in the store of its priority. */
  lemma SentIsDeliveredOrStored<T>(c: Channel<T>, i: nat)
    requires Conserved(c) && Held(c.pc) == [] && i < |c.sent|
    ensures var m := c.sent[i];
            m in c.delivered
            || (m.priority == High && m in c.high)
            || (m.priority == Low && (c.stash == Some(m) || m in c.low))
  {
    var m := c.sent[i];
    OfMembers(c.sent, m.priority, m);
    OfMembers(c.delivered, m.priority, m);
    match m.priority {
      case High => assert m in Of(c.delivered, High) + c.high;
      case Low => assert m in Of(c.delivered, Low) + c.stash.ToSeq() + Held(c.pc) + c.low;
    }
  }

  lemma {:induction false} OfMembers<T>(msgs: seq<Message<T>>, priority: Priority, msg: Message<T>)
    ensures msg in Of(msgs, priority) <==> msg in msgs && msg.priority == priority
  {
    if msgs != [] {
      OfMembers(msgs[..|msgs| - 1], priority, msg);
      assert msgs == msgs[..|msgs| - 1] + [msgs[|msgs| - 1]];
    }
  }

  /** With the high queue empty, every high-priority message sent so far has been delivered. */
  lemma AllHighsDelivered<T>(c: Channel<T>, low: Message<T>)
    requires Conserved(c) && c.high == []
    ensures HighsBefore(c.sent, low, c.delivered)
  {
    forall i | 0 <= i < |c.sent| && i < low.stamp && c.sent[i].priority == High
      ensures c.sent[i] in c.delivered
    {
      OfMembers(c.sent, High, c.sent[i]);
      OfMembers(c.delivered, High, c.sent[i]);
      assert Of(c.delivered, High) + c.high == Of(c.delivered, High);
    }
  }

  // ---------------------------------------------------------------------------
  // Every atomic step keeps the invariant

  lemma SendConserves<T>(c: Channel<T>, priority: Priority, body: T)
    requires Conserved(c)
    ensures Conserved(Enqueue(c, priority, body))
  {
    var msg := Message(priority, |c.sent|, body);
    OfAppend(c.sent, msg, High);
    OfAppend(c.sent, msg, Low);
    AppendRegroups(Of(c.delivered, High), c.high, msg);
    AppendRegroups(Of(c.delivered, Low) + c.stash.ToSeq() + Held(c.pc), c.low, msg);
  }

  lemma LaterSendKeepsHighsBefore<T>(sent: seq<Message<T>>, low: Message<T>, delivered: seq<Message<T>>,
                                     msg: Message<T>)
    requires HighsBefore(sent, low, delivered) && low.stamp <= |sent|
    ensures HighsBefore(sent + [msg], low, delivered)
  {
  }

  lemma SendKeepsPriority<T>(c: Channel<T>, msg: Message<T>)
    requires Core(c)
    ensures PriorityRespected(c.sent + [msg], c.delivered)
  {
    SentStampsBounded(c);
    forall i | 0 <= i < |c.delivered| && c.delivered[i].priority == Low
      ensures HighsBefore(c.sent + [msg], c.delivered[i], c.delivered[..i])
    {
      LaterSendKeepsHighsBefore(c.sent, c.delivered[i], c.delivered[..i], msg);
    }
  }

  lemma SendKeepsInv<T>(c: Channel<T>, priority: Priority, body: T)
    requires Inv(c) && c.senders > 0
    ensures Inv(Enqueue(c, priority, body))
  {
    hide Conserved, PriorityRespected, HighsBefore;
    var msg := Message(priority, |c.sent|, body);
    SendConserves(c, priority, body);
    SendKeepsPriority(c, msg);
    if Cleared(c).Some? {
      SentStampsBounded(c);
      LaterSendKeepsHighsBefore(c.sent, Cleared(c).value, c.delivered, msg);
    }
  }

  /** Everything in the channel or delivered was sent, so its stamp is below the number of sends. */
  lemma SentStampsBounded<T>(c: Channel<T>)
    requires Stamped(c.sent) && Conserved(c)
    ensures Cleared(c).Some? ==> Cleared(c).value.stamp < |c.sent|
    ensures forall i :: 0 <= i < |c.delivered| ==> c.delivered[i].stamp < |c.sent|
  {
    if Cleared(c).Some? {
      assert Cleared(c).value in Of(c.delivered, Low) + c.stash.ToSeq() + Held(c.pc) + c.low;
      OfMembers(c.sent, Low, Cleared(c).value);
    }
    forall i | 0 <= i < |c.delivered| ensures c.delivered[i].stamp < |c.sent| {
      var m := c.delivered[i];
      OfMembers(c.delivered, m.priority, m);
      OfMembers(c.sent, m.priority, m);
      match m.priority {
        case High => assert m in Of(c.delivered, High) + c.high;
        case Low => assert m in Of(c.delivered, Low) + c.stash.ToSeq() + Held(c.pc) + c.low;
      }
    }
  }

  lemma PriorityAppend<T>(sent: seq<Message<T>>, delivered: seq<Message<T>>, msg: Message<T>)
    requires PriorityRespected(sent, delivered)
    requires msg.priority == Low ==> HighsBefore(sent, msg, delivered)
    ensures PriorityRespected(sent, delivered + [msg])
  {
    var d := delivered + [msg];
    forall i | 0 <= i < |d| && d[i].priority == Low
      ensures HighsBefore(sent, d[i], d[..i])
    {
      if i < |delivered| {
        assert d[..i] == delivered[..i];
      } else {
        assert d[..i] == delivered;
      }
    }
  }

  lemma Regroups<M>(a: seq<M>, b: seq<M>, c: seq<M>, d: seq<M>)
    ensures a + b + c + d == (a + (b + c)) + [] + d == (a + (b + c)) + d
  {
  }

  lemma AppendRegroups<M>(a: seq<M>, b: seq<M>, x: M)
    ensures a + (b + [x]) == (a + b) + [x]
  {
  }

  lemma PopRegroups<M>(a: seq<M>, b: seq<M>)
    requires b != []
    ensures (a + [b[0]]) + b[1..] == a + b
  {
  }

  lemma HighPriorityInHighQueue<T>(c: Channel<T>)
    requires Conserved(c) && c.high != []
    ensures c.high[0].priority == High
  {
    assert c.high[0] in Of(c.delivered, High) + c.high;
    OfMembers(c.sent, High, c.high[0]);
  }

  lemma LowPriorityWaiting<T>(c: Channel<T>, msg: Message<T>)
    requires Conserved(c) && msg in c.stash.ToSeq() + Held(c.pc)
    ensures msg.priority == Low
  {
    assert msg in Of(c.delivered, Low) + c.stash.ToSeq() + Held(c.pc) + c.low;
    OfMembers(c.sent, Low, msg);
  }

  lemma DeliverHighConserves<T>(c: Channel<T>, stash': Option<Message<T>>)
    requires Conserved(c) && c.high != []
    requires stash'.ToSeq() == c.stash.ToSeq() + Held(c.pc)
    ensures Conserved(DeliverHigh(c.(stash := stash')))
  {
    var msg := c.high[0];
    HighPriorityInHighQueue(c);
    OfAppend(c.delivered, msg, High);
    OfAppend(c.delivered, msg, Low);
    PopRegroups(Of(c.delivered, High), c.high);
    Regroups(Of(c.delivered, Low), c.stash.ToSeq(), Held(c.pc), c.low);
  }

  /** Returning the head of the high queue, after stashing the low message in hand, if any. */
  lemma DeliverHighKeepsInv<T>(c: Channel<T>, stash': Option<Message<T>>)
    requires Core(c) && c.high != []
    requires stash'.ToSeq() == c.stash.ToSeq() + Held(c.pc)
    ensures Inv(DeliverHigh(c.(stash := stash')))
  {
    hide Conserved, PriorityRespected;
    HighPriorityInHighQueue(c);
    DeliverHighConserves(c, stash');
    PriorityAppend(c.sent, c.delivered, c.high[0]);
  }

  lemma DeliverLowConserves<T>(c: Channel<T>, msg: Message<T>)
    requires Conserved(c) && c.stash.ToSeq() + Held(c.pc) == [msg] && msg.priority == Low
    ensures Conserved(Deliver(c.(stash := None), msg))
  {
    OfAppend(c.delivered, msg, High);
    OfAppend(c.delivered, msg, Low);
    assert Of(c.delivered, High) + [] == Of(c.delivered, High);
    Regroups(Of(c.delivered, Low), c.stash.ToSeq(), Held(c.pc), c.low);
    Regroups(Of(c.delivered, Low) + [msg], [], [], c.low);
  }

  /** Returning a low message: either the stash, or the one in hand. */
  lemma DeliverLowKeepsInv<T>(c: Channel<T>, msg: Message<T>)
    requires Core(c) && HighsBefore(c.sent, msg, c.delivered)
    requires c.stash.ToSeq() + Held(c.pc) == [msg]
    ensures Inv(Deliver(c.(stash := None), msg))
  {
    hide Conserved, PriorityRespected, HighsBefore;
    LowPriorityWaiting(c, msg);
    DeliverLowConserves(c, msg);
    PriorityAppend(c.sent, c.delivered, msg);
  }

  /** Popping the low queue moves its head into the hand of the receiver. */
  lemma PopLowKeepsInv<T>(c: Channel<T>, pc': Pc<T>)
    requires Inv(c) && c.low != [] && Held(c.pc) == [] && c.stash.None?
    requires pc' == TryRecheck(c.low[0]) || pc' == ProbePop(WithLow(c.low[0]))
    ensures Inv(c.(low := c.low[1..], pc := pc'))
  {
    assert c.low == [c.low[0]] + c.low[1..];
    assert Of(c.delivered, Low) + [] + [c.low[0]] + c.low[1..]
        == Of(c.delivered, Low) + [] + [] + c.low;
  }

  /** A look that finds the high queue empty clears the low message waiting in hand or stash. */
  lemma HighSeenEmptyKeepsInv<T>(c: Channel<T>, pc': Pc<T>)
    requires Inv(c) && c.high == []
    requires (c.pc.TryHigh? && pc'.TryStash?)
          || (c.pc.ProbePop? && pc' == ProbeFlag(c.pc.caller))
    ensures Inv(c.(pc := pc'))
  {
    var c' := c.(pc := pc');
    if Cleared(c').Some? {
      AllHighsDelivered(c', Cleared(c').value);
    }
  }

  lemma PcMoveConserves<T>(c: Channel<T>, pc': Pc<T>)
    requires Conserved(c) && Held(pc') == Held(c.pc)
    ensures Conserved(c.(pc := pc'))
  {
  }

  lemma MissKeepsInv<T>(c: Channel<T>, caller: Caller<T>)
    requires Inv(c)
    requires (c.pc == ProbeFlag(caller) && c.senders > 0) || (c.pc == ProbeAgain(caller) && c.high == [])
    ensures Inv(Miss(c, caller))
  {
    hide Conserved, PriorityRespected, HighsBefore;
    if caller.WithLow? {
      DeliverLowKeepsInv(c, caller.low);
      assert c.(stash := None) == c;
    } else {
      PcMoveConserves(c, Miss(c, caller).pc);
    }
  }

  /** Looks at the high queue. */
  predicate LooksHigh<T>(pc: Pc<T>) {
    pc.TryHigh? || pc.TryRecheck? || pc.TryClosed? || pc.ProbePop? || pc.ProbeAgain? || pc.PollHigh?
    || pc.OnlyHigh?
  }

  /** Every look at the high queue that finds a message, from whichever operation. */
  lemma HitShape<T>(c: Channel<T>) returns (stash': Option<Message<T>>)
    requires LooksHigh(c.pc) && c.high != [] && (StashSeenEmpty(c.pc) ==> c.stash.None?)
    ensures stash'.ToSeq() == c.stash.ToSeq() + Held(c.pc)
    ensures Step(c) == DeliverHigh(c.(stash := stash'))
  {
    stash' := if Held(c.pc) == [] then c.stash else Some(Held(c.pc)[0]);
  }

  lemma HitKeepsInv<T>(c: Channel<T>)
    requires Inv(c) && LooksHigh(c.pc) && c.high != []
    ensures Inv(Step(c))
  {
    hide Conserved, PriorityRespected, DeliverHigh;
    var stash' := HitShape(c);
    DeliverHighKeepsInv(c, stash');
  }

  lemma StashKeepsInv<T>(c: Channel<T>)
    requires Inv(c) && (c.pc.TryStash? || c.pc.RecvStash?)
    ensures Inv(Step(c))
  {
    hide Conserved, PriorityRespected, HighsBefore;
    if c.stash.Some? {
      assert c.stash.ToSeq() + [] == [c.stash.value];
      DeliverLowKeepsInv(c, c.stash.value);
    } else {
      PcMoveConserves(c, Step(c).pc);
    }
  }

  lemma RecheckMissKeepsInv<T>(c: Channel<T>)
    requires Inv(c) && c.pc.TryRecheck? && c.high == []
    ensures Inv(Step(c))
  {
    hide Conserved, PriorityRespected, HighsBefore;
    AllHighsDelivered(c, c.pc.low);
    DeliverLowKeepsInv(c, c.pc.low);
    assert c.(stash := None) == c;
  }

  lemma LowKeepsInv<T>(c: Channel<T>)
    requires Inv(c) && (c.pc.TryLow? || c.pc.PollLow?)
    ensures Inv(Step(c))
  {
    hide Conserved, PriorityRespected, HighsBefore;
    if c.low == [] {
      PcMoveConserves(c, Step(c).pc);
    } else {
      PopLowKeepsInv(c, if c.pc.TryLow? then TryRecheck(c.low[0]) else ProbePop(WithLow(c.low[0])));
    }
  }

  lemma StepKeepsInv<T>(c: Channel<T>)
    requires Inv(c) && !c.pc.Idle? && !c.pc.Done?
    ensures Inv(Step(c))
  {
    hide Conserved, PriorityRespected, HighsBefore;
    match c.pc
    case TryHigh =>
      if c.high != [] { HitKeepsInv(c); } else { HighSeenEmptyKeepsInv(c, TryStash); }
    case TryStash => StashKeepsInv(c);
    case TryLow => LowKeepsInv(c);
    case TryRecheck(low) =>
      if c.high != [] { HitKeepsInv(c); } else { RecheckMissKeepsInv(c); }
    case TryClosed =>
      if c.high != [] { HitKeepsInv(c); } else { PcMoveConserves(c, Done(Disconnected)); }
    case ProbePop(caller) =>
      if c.high != [] { HitKeepsInv(c); } else { HighSeenEmptyKeepsInv(c, ProbeFlag(caller)); }
    case ProbeFlag(caller) =>
      if c.senders > 0 { MissKeepsInv(c, caller); } else { PcMoveConserves(c, ProbeAgain(caller)); }
    case ProbeAgain(caller) =>
      if c.high != [] { HitKeepsInv(c); } else { MissKeepsInv(c, caller); }
    case RecvStash => StashKeepsInv(c);
    case PollHigh =>
      if c.high != [] { HitKeepsInv(c); } else { PcMoveConserves(c, PollLow); }
    case PollLow => LowKeepsInv(c);
    case OnlyHigh =>
      if c.high != [] { HitKeepsInv(c); }
  }

  lemma SendersKeepInv<T>(c: Channel<T>, senders': nat)
    requires Inv(c) && c.senders > 0
    ensures Inv(c.(senders := senders'))
  {
  }

  lemma ApplyKeepsInv<T>(c: Channel<T>, a: Action<T>)
    requires Inv(c) && Enabled(c, a)
    ensures Inv(Apply(c, a))
  {
    hide Conserved, PriorityRespected, HighsBefore;
    match a
    case Send(priority, body) => SendKeepsInv(c, priority, body);
    case Advance => StepKeepsInv(c);
    case CloneSender => SendersKeepInv(c, c.senders + 1);
    case DropSender => SendersKeepInv(c, c.senders - 1);
    case _ => PcMoveConserves(c, Apply(c, a).pc);
  }

  // ---------------------------------------------------------------------------
  // Main results, over every run

  lemma {:induction false} InvAlways<T(!new)>(run: seq<Channel<T>>, i: nat)
    requires Behavior(run) && i < |run|
    ensures Inv(run[i])
  {
    if i > 0 {
      InvAlways(run, i - 1);
      assert Next(run[i - 1], run[i - 1 + 1]);
      var a :| Enabled(run[i - 1], a) && run[i] == Apply(run[i - 1], a);
      ApplyKeepsInv(run[i - 1], a);
    }
  }

  /**
   A high-priority message is consumed before any low-priority message sent after it: in every run,
   when the low message at position `i` was delivered, each high message with a smaller stamp had
   been delivered at some earlier position.
   */
  lemma HighBeforeLaterLow<T(!new)>(run: seq<Channel<T>>, n: nat, i: nat, h: nat)
    requires Behavior(run) && n < |run|
    requires i < |run[n].delivered| && run[n].delivered[i].priority == Low
    requires h < |run[n].sent| && h < run[n].delivered[i].stamp && run[n].sent[h].priority == High
    ensures exists j :: 0 <= j < i && run[n].delivered[j] == run[n].sent[h]
  {
    InvAlways(run, n);
    assert HighsBefore(run[n].sent, run[n].delivered[i], run[n].delivered[..i]);
    assert run[n].sent[h] in run[n].delivered[..i];
  }

  /**
   Nothing is lost, duplicated or reordered within a priority: what was delivered, then the stash,
   then the message in hand, then the queue, is exactly what was sent.
   */
  lemma NothingLostOrReordered<T(!new)>(run: seq<Channel<T>>, n: nat)
    requires Behavior(run) && n < |run|
    ensures Of(run[n].delivered, High) + run[n].high == Of(run[n].sent, High)
    ensures Of(run[n].delivered, Low) + run[n].stash.ToSeq() + Held(run[n].pc) + run[n].low
            == Of(run[n].sent, Low)
  {
    InvAlways(run, n);
  }

  /** Strictly increasing stamps: send order, without repetition. */
  predicate Increasing<T>(msgs: seq<Message<T>>) {
    forall i, j :: 0 <= i < j < |msgs| ==> msgs[i].stamp < msgs[j].stamp
  }

  lemma {:induction false} OfSentIncreasing<T>(sent: seq<Message<T>>, priority: Priority)
    requires Stamped(sent)
    ensures Increasing(Of(sent, priority))
    ensures forall m :: m in Of(sent, priority) ==> m.stamp < |sent|
  {
    if sent != [] {
      OfSentIncreasing(sent[..|sent| - 1], priority);
    }
  }

  lemma {:induction false} OfIncreasingPairs<T>(msgs: seq<Message<T>>, i: nat, j: nat)
    requires i < j < |msgs| && msgs[i].priority == msgs[j].priority
    requires Increasing(Of(msgs, msgs[i].priority))
    ensures msgs[i].stamp < msgs[j].stamp
  {
    var p := msgs[i].priority;
    var front, last := msgs[..|msgs| - 1], msgs[|msgs| - 1];
    assert Of(front, p) == Of(msgs, p)[..|Of(front, p)|];
    if j < |msgs| - 1 {
      OfIncreasingPairs(front, i, j);
    } else {
      OfMembers(front, p, msgs[i]);
      assert front[i] == msgs[i];
      var k :| 0 <= k < |Of(front, p)| && Of(front, p)[k] == msgs[i];
      assert Of(msgs, p)[k] == msgs[i] && Of(msgs, p)[|Of(front, p)|] == last;
    }
  }

  /** Two messages of one priority are delivered in the order they were sent, neither of them twice. */
  lemma DeliveredOnceInSendOrder<T>(c: Channel<T>, i: nat, j: nat)
    requires Inv(c) && i < j < |c.delivered| && c.delivered[i].priority == c.delivered[j].priority
    ensures c.delivered[i].stamp < c.delivered[j].stamp
  {
    var p := c.delivered[i].priority;
    OfSentIncreasing(c.sent, p);
    assert Of(c.delivered, p) <= Of(c.sent, p);
    OfIncreasingPairs(c.delivered, i, j);
  }

  /** A message waiting in the stash stays there until it is taken: it is never overwritten. */
  lemma StashNeverOverwritten<T(!new)>(run: seq<Channel<T>>, n: nat)
    requires Behavior(run) && n + 1 < |run|
    requires run[n].stash.Some? && run[n + 1].stash.Some?
    ensures run[n + 1].stash == run[n].stash
  {
    InvAlways(run, n);
    assert Next(run[n], run[n + 1]);
  }

  predicate Exhausted<T>(c: Channel<T>) {
    c.senders == 0 && c.high == [] && c.low == [] && c.stash.None? && Held(c.pc) == []
  }

  lemma ExhaustedStays<T>(c: Channel<T>, a: Action<T>)
    requires Exhausted(c) && Enabled(c, a)
    ensures Exhausted(Apply(c, a))
    ensures Apply(c, a).sent == c.sent && Apply(c, a).delivered == c.delivered
  {
  }

  /** `Disconnected` is final: from then on nothing is sent and all three stores stay empty. */
  lemma {:induction false} DisconnectedForGood<T(!new)>(run: seq<Channel<T>>, n: nat, k: nat)
    requires Behavior(run) && n <= k < |run|
    requires run[n].pc == Done(Disconnected)
    ensures Exhausted(run[k])
    ensures run[k].sent == run[n].sent && run[k].delivered == run[n].delivered
  {
    if k == n {
      InvAlways(run, n);
    } else {
      DisconnectedForGood(run, n, k - 1);
      assert Next(run[k - 1], run[k - 1 + 1]);
      var a :| Enabled(run[k - 1], a) && run[k] == Apply(run[k - 1], a);
      ExhaustedStays(run[k - 1], a);
    }
  }

  /** Hence at `Disconnected` every message ever sent has been delivered. */
  lemma DisconnectedAfterEverything<T(!new)>(run: seq<Channel<T>>, n: nat, msg: Message<T>)
    requires Behavior(run) && n < |run| && run[n].pc == Done(Disconnected)
    requires msg in run[n].sent
    ensures msg in run[n].delivered
  {
    InvAlways(run, n);
    OfMembers(run[n].sent, msg.priority, msg);
    OfMembers(run[n].delivered, msg.priority, msg);
    assert Of(run[n].delivered, High) + [] == Of(run[n].delivered, High);
    assert Of(run[n].delivered, Low) + [] + [] + [] == Of(run[n].delivered, Low);
  }
}
