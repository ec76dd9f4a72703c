/**
 The receiver of the two-priority channel as it is written: a value in a locked option, two queues,
 and the receive operations that pop from them.

 Other threads send, clone and drop senders between any two accesses to the queues; what they do in
 each gap is an arbitrary parameter. Every execution is a run of the channel's step machine.
 */
module PriorityReceiver {
  import opened Wrappers
  import opened PriorityAnswers
  import opened PriorityChannel

  type Senders<!T> = nat -> seq<Action<T>>

  /** No sender acts in any gap. */
  ghost predicate Quiet<T>(env: Senders<T>) {
    forall gap: nat :: env(gap) == []
  }

  /**
   At some moment from `since` on stash and low queue were both empty with a sender alive, after an
   earlier such moment at which the high queue was empty.
   */
  ghost predicate SawNothing<T>(run: seq<Channel<T>>, since: nat) {
    exists i, j :: since <= i < j < |run| && run[i].high == []
                   && run[j].stash.None? && run[j].low == [] && run[j].senders > 0
  }

  predicate FromSender<T>(a: Action<T>) {
    a.Send? || a.CloneSender? || a.DropSender?
  }

  lemma BehaviorExtends<T(!new)>(run: seq<Channel<T>>, a: Action<T>)
    requires Behavior(run) && Enabled(run[|run| - 1], a)
    ensures Behavior(run + [Apply(run[|run| - 1], a)])
  {
    hide Apply, Enabled;
    var run' := run + [Apply(run[|run| - 1], a)];
    forall i | 0 <= i < |run'| - 1 ensures Next(run'[i], run'[i + 1]) {
      if i < |run| - 1 {
        assert Next(run[i], run[i + 1]);
      }
    }
  }

  /** A popped message, a definite answer, or a receive that is still waiting. */
  datatype Poll<T> = Ready(outcome: Outcome<T>) | Pending

  predicate Probing<T>(pc: Pc<T>) {
    pc.ProbePop? || pc.ProbeFlag? || pc.ProbeAgain?
  }

  class Receiver<T(!new)> {
    var highPriority: seq<Message<T>>
    var lowPriority: seq<Message<T>>
    var senders: nat
    // The locked option that holds a pending low-priority message
    var opt: Option<Message<T>>
    var hasVal: bool
    var gap: nat
    var sent: seq<Message<T>>
    var delivered: seq<Message<T>>
    ghost var run: seq<Channel<T>>

    ghost function Model(pc: Pc<T>): Channel<T>
      reads this
    {
      Channel(sent, highPriority, lowPriority, opt, senders, pc, delivered)
    }

    ghost predicate At(pc: Pc<T>)
      reads this
    {
      |run| > 0 && Behavior(run) && run[|run| - 1] == Model(pc) && (hasVal <==> opt.Some?)
    }

    /** A high-priority message is popped and in hand, its step still to be completed. */
    ghost predicate InHand(pc: Pc<T>, msg: Message<T>)
      reads this
    {
      && |run| > 0 && Behavior(run) && (hasVal <==> opt.Some?)
      && run[|run| - 1] == Model(pc).(high := [msg] + highPriority)
    }

    constructor ()
      ensures At(Idle)
    {
      highPriority, lowPriority, senders, opt, hasVal, gap := [], [], 1, None, false, 0;
      sent, delivered := [], [];
      run := [Channel([], [], [], None, 1, Idle, [])];
    }

    ghost method Stepped(a: Action<T>, pc: Pc<T>)
      requires |run| > 0 && Behavior(run) && Enabled(run[|run| - 1], a) && (hasVal <==> opt.Some?)
      requires Apply(run[|run| - 1], a) == Model(pc)
      modifies `run
      ensures At(pc) && old(run) <= run
    {
      BehaviorExtends(run, a);
      run := run + [Model(pc)];
    }

    /** LockedOption::take */
    method Take() returns (val: Option<Message<T>>)
      requires hasVal <==> opt.Some?
      modifies `opt, `hasVal
      ensures val == old(opt) && opt == None && !hasVal
    {
      if !hasVal {
        return None;
      }
      val := opt;
      opt := None;
      hasVal := false;
    }

    /** LockedOption::place */
    method Place(val: Message<T>)
      modifies `opt, `hasVal
      ensures opt == Some(val) && hasVal
    {
      hasVal := true;
      opt := Some(val);
    }

    /** One action of another thread. */
    method SenderAction(a: Action<T>, ghost pc: Pc<T>)
      requires At(pc) && FromSender(a)
      modifies this
      ensures At(pc) && old(run) <= run && opt == old(opt)
    {
      hide Behavior;
      if senders == 0 {
        return;
      }
      match a
      case Send(priority, body) =>
        var msg := Message(priority, |sent|, body);
        sent := sent + [msg];
        if priority == High {
          highPriority := highPriority + [msg];
        } else {
          lowPriority := lowPriority + [msg];
        }
        Stepped(a, pc);
      case CloneSender =>
        senders := senders + 1;
        Stepped(a, pc);
      case DropSender =>
        senders := senders - 1;
        Stepped(a, pc);
    }

    /** The other threads act for a while. */
    method Yield(env: Senders<T>, ghost pc: Pc<T>)
      requires At(pc)
      modifies this
      ensures At(pc) && old(run) <= run && opt == old(opt)
      ensures Quiet(env) ==> Model(pc) == old(Model(pc))
    {
      hide Behavior;
      ghost var before := Model(pc);
      var actions := env(gap);
      gap := gap + 1;
      for i := 0 to |actions|
        invariant At(pc) && old(run) <= run && opt == old(opt)
        invariant actions == [] ==> Model(pc) == before
      {
        if FromSender(actions[i]) {
          SenderAction(actions[i], pc);
        }
      }
    }

    /** Completes the step of a high-priority message in hand by returning it. */
    method ReturnHigh(msg: Message<T>, ghost pc: Pc<T>)
      requires InHand(pc, msg) && (pc.TryHigh? || pc.TryClosed? || pc.PollHigh? || pc.OnlyHigh? || Probing(pc))
      requires Probing(pc) ==> !pc.caller.WithLow? && !pc.ProbeFlag?
      modifies this
      ensures At(Done(Got(msg))) && old(run) <= run
      ensures Model(Done(Got(msg))) == old(Model(Done(Got(msg)))).(delivered := old(delivered) + [msg])
    {
      hide Behavior;
      assert ([msg] + highPriority)[1..] == highPriority;
      delivered := delivered + [msg];
      Stepped(Advance, Done(Got(msg)));
    }

    /** The same, after placing the low-priority message popped before it. */
    method ReturnHighKeepLow(msg: Message<T>, low: Message<T>, ghost pc: Pc<T>)
      requires InHand(pc, msg) && (pc == TryRecheck(low) || (Probing(pc) && pc.caller == WithLow(low) && !pc.ProbeFlag?))
      modifies this
      ensures At(Done(Got(msg))) && old(run) <= run && opt == Some(low)
      ensures Model(Done(Got(msg))) == old(Model(Done(Got(msg)))).(delivered := old(delivered) + [msg], stash := Some(low))
    {
      hide Behavior;
      assert ([msg] + highPriority)[1..] == highPriority;
      Place(low);
      delivered := delivered + [msg];
      Stepped(Advance, Done(Got(msg)));
    }

    /** Pops the high-priority queue, which is not empty. */
    method PopHigh(ghost pc: Pc<T>) returns (msg: Message<T>)
      requires At(pc) && highPriority != []
      modifies `highPriority
      ensures InHand(pc, msg) && [msg] + highPriority == old(highPriority)
    {
      hide Behavior;
      msg := highPriority[0];
      highPriority := highPriority[1..];
      assert old(highPriority) == [msg] + highPriority;
    }

    /** try_recv_high_priority_message */
    method TryRecvHighPriorityMessage(env: Senders<T>, ghost caller: Caller<T>)
      returns (r: Outcome<T>, ghost pc: Pc<T>)
      requires At(ProbePop(caller))
      modifies this
      ensures old(run) <= run && opt == old(opt) && Probing(pc) && pc.caller == caller
      ensures r.Got? ==> InHand(pc, r.msg) && !pc.ProbeFlag?
      ensures r.NoMessage? ==> At(pc) && pc.ProbeFlag? && senders > 0
      ensures r.Disconnected? ==> At(pc) && pc.ProbeAgain? && highPriority == []
      ensures Quiet(env) ==> Model(Idle).(high := if r.Got? then [r.msg] + highPriority else highPriority)
                             == old(Model(Idle))
      ensures Quiet(env) ==> (r.Got? <==> old(highPriority) != [])
    {
      hide Behavior;
      pc := ProbePop(caller);
      Yield(env, pc);
      if highPriority != [] {
        var msg := PopHigh(pc);
        return Got(msg), pc;
      }
      pc := ProbeFlag(caller);
      Stepped(Advance, pc);
      Yield(env, pc);
      if senders > 0 {
        return NoMessage, pc;
      }
      pc := ProbeAgain(caller);
      Stepped(Advance, pc);
      Yield(env, pc);
      if highPriority != [] {
        var msg := PopHigh(pc);
        return Got(msg), pc;
      }
      return Disconnected, pc;
    }

    /** Returns the pending low-priority message, if there is one. */
    method TakePending(env: Senders<T>, ghost pc: Pc<T>) returns (pending: Option<Message<T>>)
      requires At(pc) && (pc == TryStash || pc == RecvStash)
      modifies this
      ensures old(run) <= run
      ensures pending.Some? ==> At(Done(Got(pending.value)))
      ensures pending.None? ==> At(if pc == TryStash then TryLow else PollHigh)
      ensures pending == old(opt)
      ensures Quiet(env) ==>
                Model(Idle) == old(Model(Idle)).(stash := None, delivered := old(delivered) + pending.ToSeq())
    {
      hide Behavior;
      Yield(env, pc);
      pending := Take();
      if pending.Some? {
        delivered := delivered + [pending.value];
        Stepped(Advance, Done(Got(pending.value)));
      } else {
        Stepped(Advance, if pc == TryStash then TryLow else PollHigh);
      }
    }

    /** try_recv */
    method TryRecv(env: Senders<T>) returns (outcome: Outcome<T>)
      requires At(Idle)
      modifies this
      ensures At(Done(outcome)) && old(run) <= run
      ensures outcome.NoMessage? ==> SawNothing(run, old(|run|))
      ensures Quiet(env) ==> Model(Done(outcome)) == Served(old(Model(Idle)))
    {
      outcome := TryRecvStores(env);
      if outcome.NoMessage? {
        var i, j := NoMessageIsJustified(run, old(|run|) - 1, |run| - 1);
      }
    }

    /** The body of try_recv. */
    method TryRecvStores(env: Senders<T>) returns (outcome: Outcome<T>)
      requires At(Idle)
      modifies this
      ensures At(Done(outcome)) && old(run) < run
      ensures Quiet(env) ==> Model(Done(outcome)) == Served(old(Model(Idle)))
    {
      hide Behavior;
      Stepped(BeginTryRecv, TryHigh);
      Yield(env, TryHigh);
      if highPriority != [] {
        var msg := PopHigh(TryHigh);
        ReturnHigh(msg, TryHigh);
        return Got(msg);
      }
      Stepped(Advance, TryStash);
      var pending := TakePending(env, TryStash);
      if pending.Some? {
        return Got(pending.value);
      }
      outcome := TryRecvLow(env);
    }

    /** The last match of try_recv. */
    method TryRecvLow(env: Senders<T>) returns (outcome: Outcome<T>)
      requires At(TryLow)
      modifies this
      ensures At(Done(outcome)) && old(run) <= run
      ensures Quiet(env) ==> Model(Done(outcome)) == FromTryLow(old(Model(TryLow)))
    {
      hide Behavior;
      Yield(env, TryLow);
      if lowPriority != [] {
        var low := lowPriority[0];
        lowPriority := lowPriority[1..];
        Stepped(Advance, TryRecheck(low));
        Yield(env, TryRecheck(low));
        if highPriority != [] {
          var msg := PopHigh(TryRecheck(low));
          ReturnHighKeepLow(msg, low, TryRecheck(low));
          return Got(msg);
        }
        delivered := delivered + [low];
        Stepped(Advance, Done(Got(low)));
        return Got(low);
      }
      if senders > 0 {
        Stepped(Advance, Done(NoMessage));
        return NoMessage;
      }
      Stepped(Advance, TryClosed);
      outcome := TryRecvClosed(env);
    }

    /** try_recv once the low-priority queue is disconnected. */
    method TryRecvClosed(env: Senders<T>) returns (outcome: Outcome<T>)
      requires At(TryClosed)
      modifies this
      ensures At(Done(outcome)) && old(run) <= run
      ensures Quiet(env) ==> Model(Done(outcome)) == Closed(old(Model(TryClosed)))
    {
      hide Behavior;
      Yield(env, TryClosed);
      if highPriority != [] {
        var msg := PopHigh(TryClosed);
        ReturnHigh(msg, TryClosed);
        return Got(msg);
      }
      Stepped(Advance, Done(Disconnected));
      return Disconnected;
    }

    /** recv, polled a number of times. */
    method Recv(env: Senders<T>, polls: nat) returns (poll: Poll<T>)
      requires At(Idle)
      modifies this
      ensures At(if poll.Ready? then Done(poll.outcome) else PollHigh) && old(run) <= run
      ensures Quiet(env) && polls > 0 && Answer(old(Model(Idle))) != NoMessage ==>
                poll.Ready? && Model(Done(poll.outcome)) == Served(old(Model(Idle)))
      ensures Quiet(env) && Answer(old(Model(Idle))) == NoMessage ==>
                poll.Pending? && Model(Idle) == old(Model(Idle))
    {
      hide Behavior;
      Stepped(BeginRecv, ProbePop(AtStart));
      var r, pc := TryRecvHighPriorityMessage(env, AtStart);
      if r.Got? {
        ReturnHigh(r.msg, pc);
        return Ready(r);
      }
      Stepped(Advance, RecvStash);
      poll := RecvPendingOrSelect(env, polls);
    }

    /** recv once no high-priority message was found. */
    method RecvPendingOrSelect(env: Senders<T>, polls: nat) returns (poll: Poll<T>)
      requires At(RecvStash)
      modifies this
      ensures At(if poll.Ready? then Done(poll.outcome) else PollHigh) && old(run) <= run
      ensures Quiet(env) && polls > 0 ==>
                Model(if poll.Ready? then Done(poll.outcome) else PollHigh) == FromRecvStash(old(Model(RecvStash)))
      ensures Quiet(env) && poll.Pending? ==> Model(Idle) == old(Model(Idle))
      ensures polls == 0 ==> (poll.Pending? <==> old(opt) == None)
    {
      hide Behavior;
      var pending := TakePending(env, RecvStash);
      if pending.Some? {
        return Ready(Got(pending.value));
      }
      poll := Select(env, polls);
    }

    /** The biased select of recv: each poll looks at the high-priority queue first. */
    method Select(env: Senders<T>, polls: nat) returns (poll: Poll<T>)
      requires At(PollHigh)
      modifies this
      ensures At(if poll.Ready? then Done(poll.outcome) else PollHigh) && old(run) <= run
      ensures Quiet(env) && polls > 0 ==>
                Model(if poll.Ready? then Done(poll.outcome) else PollHigh) == RecvGoal(old(Model(PollHigh)))
      ensures Quiet(env) && poll.Pending? ==> Model(PollHigh) == old(Model(PollHigh))
      ensures polls == 0 ==> poll.Pending?
    {
      hide Behavior;
      ghost var before := Model(PollHigh);
      for i := 0 to polls
        invariant At(PollHigh) && old(run) <= run
        invariant Quiet(env) ==> Model(PollHigh) == before && (i > 0 ==> RecvGoal(before) == before)
      {
        Yield(env, PollHigh);
        if highPriority != [] {
          var msg := PopHigh(PollHigh);
          ReturnHigh(msg, PollHigh);
          return Ready(Got(msg));
        }
        Stepped(Advance, PollLow);
        Yield(env, PollLow);
        if lowPriority != [] || senders == 0 {
          var outcome := SelectLow(env);
          return Ready(outcome);
        }
        Stepped(Advance, PollHigh);
      }
      return Pending;
    }

    /** The low-priority branch of the select. */
    method SelectLow(env: Senders<T>) returns (outcome: Outcome<T>)
      requires At(PollLow) && (lowPriority != [] || senders == 0)
      modifies this
      ensures At(Done(outcome)) && old(run) <= run
      ensures Quiet(env) ==> Model(Done(outcome)) == FromPollLow(old(Model(PollLow)))
    {
      hide Behavior;
      if lowPriority == [] {
        Stepped(Advance, ProbePop(LowClosed));
        outcome := SelectClosed(env);
        return;
      }
      var low := lowPriority[0];
      lowPriority := lowPriority[1..];
      Stepped(Advance, ProbePop(WithLow(low)));
      var r, pc := TryRecvHighPriorityMessage(env, WithLow(low));
      if r.Got? {
        ReturnHighKeepLow(r.msg, low, pc);
        return r;
      }
      delivered := delivered + [low];
      Stepped(Advance, Done(Got(low)));
      return Got(low);
    }

    /** The low-priority branch of the select once that queue is disconnected. */
    method SelectClosed(env: Senders<T>) returns (outcome: Outcome<T>)
      requires At(ProbePop(LowClosed))
      modifies this
      ensures At(Done(outcome)) && old(run) <= run
      ensures Quiet(env) ==> Model(Done(outcome)) == Closed(old(Model(ProbePop(LowClosed))))
    {
      hide Behavior;
      var r, pc := TryRecvHighPriorityMessage(env, LowClosed);
      if r.Got? {
        ReturnHigh(r.msg, pc);
        return r;
      }
      Stepped(Advance, Done(Disconnected));
      return Disconnected;
    }

    /** recv_high_priority, polled a number of times: low-priority messages are left where they are. */
    method RecvHighPriority(env: Senders<T>, polls: nat) returns (poll: Poll<T>)
      requires At(Idle)
      modifies this
      ensures At(if poll.Ready? then Done(poll.outcome) else OnlyHigh) && old(run) <= run && opt == old(opt)
      ensures poll.Ready? ==> poll.outcome.Got?
      ensures Quiet(env) && polls > 0 && old(highPriority) != [] ==>
                poll.Ready? && Model(Done(poll.outcome)) == Served(old(Model(Idle)))
      ensures Quiet(env) && old(highPriority) == [] ==> poll.Pending? && Model(Idle) == old(Model(Idle))
    {
      hide Behavior;
      Stepped(BeginRecvHigh, OnlyHigh);
      ghost var before := Model(OnlyHigh);
      for i := 0 to polls
        invariant At(OnlyHigh) && old(run) <= run && opt == old(opt)
        invariant Quiet(env) ==> Model(OnlyHigh) == before && (i > 0 ==> highPriority == [])
      {
        Yield(env, OnlyHigh);
        if highPriority != [] {
          var msg := PopHigh(OnlyHigh);
          ReturnHigh(msg, OnlyHigh);
          return Ready(Got(msg));
        }
      }
      return Pending;
    }

    /** A finished receive leaves the receiver ready for the next one. */
    method EndReceive(ghost outcome: Outcome<T>)
      requires At(Done(outcome))
      modifies `run
      ensures At(Idle) && old(run) <= run
    {
      hide Behavior;
      Stepped(Finish, Idle);
    }
  }

  /**
   A consumer that makes any sequence of `recv` and `try_recv` calls beside arbitrary senders: no
   low-priority message comes before a high-priority one sent before it, and nothing is delivered
   out of order or twice.
   */
  method Consume<T(!new)>(env: Senders<T>, waits: nat -> bool, rounds: nat)
    returns (sent: seq<Message<T>>, delivered: seq<Message<T>>)
    ensures PriorityRespected(sent, delivered)
    ensures Of(delivered, High) <= Of(sent, High) && Of(delivered, Low) <= Of(sent, Low)
  {
    var receiver := new Receiver<T>();
    var pending := false;
    for i := 0 to rounds
      invariant fresh(receiver) && receiver.At(if pending then PollHigh else Idle)
    {
      var poll: Poll<T>;
      if pending {
        poll := receiver.Select(env, 1);
      } else if waits(i) {
        poll := receiver.Recv(env, 1);
      } else {
        var outcome := receiver.TryRecv(env);
        poll := Ready(outcome);
      }
      pending := poll.Pending?;
      if poll.Ready? {
        receiver.EndReceive(poll.outcome);
      }
    }
    sent, delivered := receiver.sent, receiver.delivered;
    InvAlways(receiver.run, |receiver.run| - 1);
    assert Conserved(receiver.run[|receiver.run| - 1]);
  }
}
