/**
 A supervised actor: the restart state machine of `quickwit-actors/src/supervisor.rs` over the inbox
 that successive incarnations of the actor share.

 Each incarnation receives from the channel, handles what it received, and may end at any point
 where it is not inside a receive. The supervisor looks at the published state of the latest
 incarnation, kills it when it makes no progress, waits for it to end, and spawns the next one.
 */
module Supervision {
  import opened Wrappers
  import opened PriorityChannel
  import opened ActorLoop

  /** `killed` is the incarnation's kill switch and `hand` the message it is working on. */
  datatype Incarnation =
    | Live(killed: bool, hand: Option<Msg>)
    | Ended(exit: Exit, announced: bool, hand: Option<Msg>)

  /** What `ActorHandle::state` shows. A panic ends the actor without publishing anything. */
  datatype Published = Alive | Succeeded | Failed

  function Publish(k: Incarnation): Published {
    match k
    case Live(_, _) => Alive
    case Ended(exit, announced, _) =>
      if !announced then Alive else if IsSuccess(exit) then Succeeded else Failed
  }

  predicate IsSuccess(exit: Exit) {
    exit.Completed? || exit.HandlerSuccess?
  }

  datatype Metrics = Metrics(panics: nat, errors: nat, kills: nat) {
    function Total(): nat { panics + errors + kills }
  }

  /** Restarting counts the reason; any other exit ends the supervisor too. */
  function CountRestart(m: Metrics, exit: Exit): Option<Metrics> {
    match exit
    case Killed => Some(m.(kills := m.kills + 1))
    case Failure => Some(m.(errors := m.errors + 1))
    case Panicked => Some(m.(panics := m.panics + 1))
    case _ => None
  }

  datatype Phase = Watching | Unhealthy | Joining | Stopped(exit: Exit)

  datatype Receipt = Receipt(incarnation: nat, msg: Msg)

  /** `owner` is the incarnation that began the receive in progress on the shared channel. */
  datatype World = World(
    ch: Channel<Body>,
    owner: nat,
    incarnations: seq<Incarnation>,
    phase: Phase,
    metrics: Metrics,
    received: seq<Receipt>,
    handled: seq<Receipt>)

  datatype Event =
    | SendMessage(priority: Priority, body: Body)
    // incarnation k
    | Begin(k: nat, pc: Pc<Body>) | Advance(k: nat) | Take(k: nat) | HandleOk(k: nat)
    | End(k: nat, exit: Exit, announced: bool)
    | KillSwitch(k: nat)
    // the supervisor
    | CheckHealth(progressed: bool) | KillOrJoin | Joined

  function Last(w: World): nat
    requires w.incarnations != []
  {
    |w.incarnations| - 1
  }

  predicate Init(w: World) {
    && PriorityChannel.Init(w.ch) && w.owner == 0
    && w.incarnations == [Live(false, None)] && w.phase == Watching
    && w.metrics == Metrics(0, 0, 0) && w.received == [] && w.handled == []
  }

  predicate IsLive(w: World, k: nat) {
    k < |w.incarnations| && w.incarnations[k].Live?
  }

  predicate Enabled(w: World, e: Event) {
    && w.incarnations != []
    && match e
       case SendMessage(_, _) => w.ch.senders > 0
       case Begin(k, pc) =>
         IsLive(w, k) && w.incarnations[k].hand.None? && w.ch.pc.Idle?
         && (pc.TryHigh? || pc == ProbePop(AtStart) || pc.OnlyHigh?)
       case Advance(k) => IsLive(w, k) && w.owner == k && !w.ch.pc.Idle? && !w.ch.pc.Done?
       case Take(k) => IsLive(w, k) && w.owner == k && w.ch.pc.Done? && !w.ch.pc.outcome.Disconnected?
       case HandleOk(k) => IsLive(w, k) && w.incarnations[k].hand.Some?
       case End(k, exit, announced) =>
         && IsLive(w, k) && !(w.owner == k && !w.ch.pc.Idle?)
         && (exit.Killed? ==> w.incarnations[k].killed)
         && (exit.Completed? ==> w.incarnations[k].hand.None?)
         && (!announced ==> exit.Panicked?)
       case KillSwitch(k) => IsLive(w, k)
       case CheckHealth(_) => w.phase.Watching?
       case KillOrJoin => w.phase.Unhealthy? && w.ch.senders > 0
       case Joined => w.phase.Joining? && w.incarnations[Last(w)].Ended?
  }

  function SetIncarnation(w: World, k: nat, i: Incarnation): World
    requires k < |w.incarnations|
  {
    w.(incarnations := w.incarnations[k := i])
  }

  function Apply(w: World, e: Event): World
    requires Enabled(w, e)
  {
    match e
    case SendMessage(priority, body) => w.(ch := Enqueue(w.ch, priority, body))
    case Begin(k, pc) => w.(ch := w.ch.(pc := pc), owner := k)
    case Advance(k) => w.(ch := PriorityChannel.Step(w.ch))
    case Take(k) => TakeOutcome(w, k)
    case HandleOk(k) =>
      var i := w.incarnations[k];
      SetIncarnation(w, k, Live(i.killed, None))
      .(handled := w.handled + [Receipt(k, i.hand.value)])
    case End(k, exit, announced) =>
      SetIncarnation(w, k, Ended(exit, announced, w.incarnations[k].hand))
    case KillSwitch(k) => SetIncarnation(w, k, Live(true, w.incarnations[k].hand))
    case CheckHealth(progressed) =>
      (match Publish(w.incarnations[Last(w)])
       case Succeeded => w.(phase := Stopped(Completed))
       case Failed => w.(phase := Unhealthy)
       case Alive => if progressed then w else w.(phase := Unhealthy))
    case KillOrJoin =>
      var i := w.incarnations[Last(w)];
      if Publish(i) != Alive then w.(phase := Joining)
      else
        w.(ch := Enqueue(w.ch, High, Nudge), phase := Joining,
           incarnations := if i.Live? then w.incarnations[Last(w) := Live(true, i.hand)]
                           else w.incarnations)
    case Joined =>
      var exit := w.incarnations[Last(w)].exit;
      (match CountRestart(w.metrics, exit)
       case None => w.(phase := Stopped(exit))
       case Some(m) =>
         w.(metrics := m, phase := Watching, incarnations := w.incarnations + [Live(false, None)]))
  }

  function TakeOutcome(w: World, k: nat): World
    requires IsLive(w, k) && w.ch.pc.Done?
  {
    var idle := w.(ch := w.ch.(pc := Idle));
    if w.ch.pc.outcome.Got? then
      var msg := w.ch.pc.outcome.msg;
      SetIncarnation(idle, k, Live(w.incarnations[k].killed, Some(msg)))
      .(received := w.received + [Receipt(k, msg)])
    else idle
  }

  ghost predicate Next(w: World, w': World) {
    exists e :: Enabled(w, e) && w' == Apply(w, e)
  }

  ghost predicate Behavior(run: seq<World>) {
    && |run| > 0
    && Init(run[0])
    && forall i :: 0 <= i < |run| - 1 ==> Next(run[i], run[i + 1])
  }

  // ---------------------------------------------------------------------------
  // The invariant

  function Messages(receipts: seq<Receipt>): seq<Msg> {
    seq(|receipts|, i requires 0 <= i < |receipts| => receipts[i].msg)
  }

  /** The number of incarnations that hold a message, or ended holding one. */
  function Hands(incarnations: seq<Incarnation>): nat {
    if incarnations == [] then 0
    else
      Hands(incarnations[..|incarnations| - 1])
      + (if incarnations[|incarnations| - 1].hand.Some? then 1 else 0)
  }

  /** Only the latest incarnation can be live, and only it can be inside a receive. */
  predicate OneConsumer(w: World) {
    && w.incarnations != []
    && (forall k :: 0 <= k < |w.incarnations| - 1 ==> w.incarnations[k].Ended?)
    && (!w.ch.pc.Idle? ==>
          var last := w.incarnations[Last(w)];
          w.owner == Last(w) && last.Live? && last.hand.None?)
  }

  /** The receipts are what the channel delivered, incarnation after incarnation. */
  ghost predicate Logged(w: World) {
    && w.ch.delivered
       == Messages(w.received) + (if w.ch.pc.Done? && w.ch.pc.outcome.Got?
                                  then [w.ch.pc.outcome.msg] else [])
    && (forall i :: 0 <= i < |w.received| ==> w.received[i].incarnation < |w.incarnations|)
    && (forall i, j :: 0 <= i < j < |w.received|
                       ==> w.received[i].incarnation <= w.received[j].incarnation)
  }

  /** Every message received was handled by its receiver, or is the one in its hand. */
  ghost predicate Fates(w: World) {
    && (forall i :: 0 <= i < |w.received| && w.received[i].incarnation < |w.incarnations| ==>
          || w.received[i] in w.handled
          || w.incarnations[w.received[i].incarnation].hand == Some(w.received[i].msg))
    && |w.received| == |w.handled| + Hands(w.incarnations)
  }

  predicate Counted(w: World) {
    w.metrics.Total() + 1 == |w.incarnations|
  }

  ghost predicate Inv(w: World) {
    && PriorityChannel.Inv(w.ch) && w.ch.senders == 1
    && OneConsumer(w) && Logged(w) && Fates(w) && Counted(w)
  }

  // ---------------------------------------------------------------------------
  // Counting hands

  lemma {:induction false} HandsUpdate(s: seq<Incarnation>, k: nat, i: Incarnation)
    requires k < |s|
    ensures Hands(s[k := i]) + (if s[k].hand.Some? then 1 else 0)
            == Hands(s) + (if i.hand.Some? then 1 else 0)
  {
    if k == |s| - 1 {
      assert s[k := i][..k] == s[..k];
    } else {
      assert s[k := i][..|s| - 1] == s[..|s| - 1][k := i];
      HandsUpdate(s[..|s| - 1], k, i);
    }
  }

  lemma HandsAppend(s: seq<Incarnation>, i: Incarnation)
    ensures Hands(s + [i]) == Hands(s) + (if i.hand.Some? then 1 else 0)
  {
    assert (s + [i])[..|s|] == s;
  }

  lemma {:induction false} HandsBound(s: seq<Incarnation>)
    ensures Hands(s) <= |s|
  {
    if s != [] { HandsBound(s[..|s| - 1]); }
  }

  // ---------------------------------------------------------------------------
  // Every event keeps the invariant

  lemma SendKeepsWorld(w: World, priority: Priority, body: Body)
    requires Inv(w)
    ensures Inv(w.(ch := Enqueue(w.ch, priority, body)))
  {
    hide PriorityChannel.Inv, Fates;
    SendKeepsInv(w.ch, priority, body);
    FatesFrame(w, w.(ch := Enqueue(w.ch, priority, body)));
  }

  lemma FatesFrame(w: World, w': World)
    requires Fates(w) && w'.received == w.received && w'.handled == w.handled
    requires w'.incarnations == w.incarnations
    ensures Fates(w')
  {
  }

  lemma BeginKeepsWorld(w: World, e: Event)
    requires Inv(w) && Enabled(w, e) && e.Begin?
    ensures Inv(Apply(w, e))
  {
    hide PriorityChannel.Inv, Fates;
    BeginKeepsChannel(w.ch, e.pc);
    FatesFrame(w, Apply(w, e));
  }

  lemma AdvanceKeepsWorld(w: World, e: Event)
    requires Inv(w) && Enabled(w, e) && e.Advance?
    ensures Inv(Apply(w, e))
  {
    hide PriorityChannel.Inv, Fates;
    StepKeepsInv(w.ch);
    ChannelStepFrame(w.ch);
    assert Messages(w.received) + [] == Messages(w.received);
    FatesFrame(w, Apply(w, e));
  }

  /** An incarnation changes without a change in what it holds. */
  lemma RelabelKeepsFates(w: World, k: nat, i: Incarnation)
    requires Fates(w) && k < |w.incarnations| && i.hand == w.incarnations[k].hand
    ensures Fates(SetIncarnation(w, k, i))
  {
    HandsUpdate(w.incarnations, k, i);
  }

  lemma TakeKeepsFates(w: World, k: nat)
    requires Fates(w) && IsLive(w, k) && w.ch.pc.Done? && w.incarnations[k].hand.None?
    ensures Fates(TakeOutcome(w, k))
  {
    var w' := TakeOutcome(w, k);
    if w.ch.pc.outcome.Got? {
      HandsUpdate(w.incarnations, k, w'.incarnations[k]);
    }
  }

  lemma TakeKeepsLog(w: World, k: nat)
    requires Logged(w) && OneConsumer(w) && k == Last(w) && IsLive(w, k) && w.ch.pc.Done?
    ensures Logged(TakeOutcome(w, k))
  {
    if w.ch.pc.outcome.Got? {
      assert Messages(w.received + [Receipt(k, w.ch.pc.outcome.msg)])
          == Messages(w.received) + [w.ch.pc.outcome.msg];
    }
  }

  lemma TakeKeepsWorld(w: World, e: Event)
    requires Inv(w) && Enabled(w, e) && e.Take?
    ensures Inv(Apply(w, e))
  {
    hide PriorityChannel.Inv, Fates, Logged;
    FinishKeepsChannel(w.ch);
    TakeKeepsFates(w, e.k);
    TakeKeepsLog(w, e.k);
  }

  lemma HandleKeepsFates(w: World, k: nat)
    requires Fates(w) && Logged(w) && IsLive(w, k) && w.incarnations[k].hand.Some?
    ensures Fates(Apply(w, HandleOk(k)))
  {
    HandsUpdate(w.incarnations, k, Live(w.incarnations[k].killed, None));
  }

  lemma HandleKeepsWorld(w: World, e: Event)
    requires Inv(w) && Enabled(w, e) && e.HandleOk?
    ensures Inv(Apply(w, e))
  {
    hide PriorityChannel.Inv, Fates;
    HandleKeepsFates(w, e.k);
  }

  /** `End`, `KillSwitch`: an incarnation changes its label and keeps its hand. */
  lemma RelabelKeepsWorld(w: World, k: nat, i: Incarnation)
    requires Inv(w) && IsLive(w, k) && i.hand == w.incarnations[k].hand
    requires i.Live? || w.ch.pc.Idle?
    ensures Inv(SetIncarnation(w, k, i))
  {
    hide PriorityChannel.Inv, Fates;
    RelabelKeepsFates(w, k, i);
  }

  lemma KillOrJoinKeepsWorld(w: World, e: Event)
    requires Inv(w) && Enabled(w, e) && e.KillOrJoin?
    ensures Inv(Apply(w, e))
  {
    hide PriorityChannel.Inv, Fates;
    var k := Last(w);
    var i := w.incarnations[k];
    FatesFrame(w, w.(phase := Joining));
    if Publish(i) == Alive {
      var w1 := w.(phase := Joining);
      if i.Live? {
        RelabelKeepsWorld(w1, k, Live(true, i.hand));
        SendKeepsWorld(SetIncarnation(w1, k, Live(true, i.hand)), High, Nudge);
      } else {
        SendKeepsWorld(w1, High, Nudge);
      }
    }
  }

  lemma JoinedKeepsFates(w: World, i: Incarnation)
    requires Fates(w) && Logged(w) && i.hand.None?
    ensures Fates(w.(incarnations := w.incarnations + [i]))
  {
    HandsAppend(w.incarnations, i);
  }

  lemma JoinedKeepsLog(w: World, i: Incarnation)
    requires Logged(w)
    ensures Logged(w.(incarnations := w.incarnations + [i]))
  {
    hide Messages;
  }

  lemma LogFrame(w: World, w': World)
    requires Logged(w) && w'.ch == w.ch && w'.received == w.received && w'.incarnations == w.incarnations
    ensures Logged(w')
  {
  }

  lemma JoinedKeepsWorld(w: World, e: Event)
    requires Inv(w) && Enabled(w, e) && e.Joined?
    ensures Inv(Apply(w, e))
  {
    hide PriorityChannel.Inv, Fates, Logged;
    JoinedKeepsFates(w, Live(false, None));
    JoinedKeepsLog(w, Live(false, None));
    FatesFrame(w.(incarnations := Apply(w, e).incarnations), Apply(w, e));
    LogFrame(w.(incarnations := Apply(w, e).incarnations), Apply(w, e));
  }

  lemma CheckHealthKeepsWorld(w: World, e: Event)
    requires Inv(w) && Enabled(w, e) && e.CheckHealth?
    ensures Inv(Apply(w, e))
  {
    hide PriorityChannel.Inv, Fates;
    FatesFrame(w, Apply(w, e));
  }

  lemma ApplyKeepsWorld(w: World, e: Event)
    requires Inv(w) && Enabled(w, e)
    ensures Inv(Apply(w, e))
  {
    match e
    case SendMessage(priority, body) => SendKeepsWorld(w, priority, body);
    case Begin(_, _) => BeginKeepsWorld(w, e);
    case Advance(_) => AdvanceKeepsWorld(w, e);
    case Take(_) => TakeKeepsWorld(w, e);
    case HandleOk(_) => HandleKeepsWorld(w, e);
    case End(k, exit, announced) =>
      RelabelKeepsWorld(w, k, Ended(exit, announced, w.incarnations[k].hand));
    case KillSwitch(k) => RelabelKeepsWorld(w, k, Live(true, w.incarnations[k].hand));
    case CheckHealth(_) => CheckHealthKeepsWorld(w, e);
    case KillOrJoin => KillOrJoinKeepsWorld(w, e);
    case Joined => JoinedKeepsWorld(w, e);
  }

  lemma InitWorld(w: World)
    requires Init(w)
    ensures Inv(w)
  {
    assert Hands(w.incarnations[..0]) == 0;
  }

  lemma {:induction false} InvAlways(run: seq<World>, n: nat)
    requires Behavior(run) && n < |run|
    ensures Inv(run[n])
  {
    hide Inv, Apply, Enabled, Init;
    if n == 0 {
      InitWorld(run[0]);
    } else {
      InvAlways(run, n - 1);
      assert Next(run[n - 1], run[n - 1 + 1]);
      var e :| Enabled(run[n - 1], e) && run[n] == Apply(run[n - 1], e);
      ApplyKeepsWorld(run[n - 1], e);
    }
  }

  // ---------------------------------------------------------------------------
  // Main results, over every run and any number of restarts

  /** At most one incarnation is ever live, so at most one consumes the inbox. */
  lemma OneConsumerAtATime(run: seq<World>, n: nat, j: nat, k: nat)
    requires Behavior(run) && n < |run| && IsLive(run[n], j) && IsLive(run[n], k)
    ensures j == k == |run[n].incarnations| - 1
  {
    InvAlways(run, n);
  }

  /**
   Messages of one priority reach the incarnations in the order they were sent, none of them twice,
   and never an earlier incarnation after a later one.
   */
  lemma ReceivedOnceInSendOrder(run: seq<World>, n: nat, i: nat, j: nat)
    requires Behavior(run) && n < |run| && i < j < |run[n].received|
    requires run[n].received[i].msg.priority == run[n].received[j].msg.priority
    ensures run[n].received[i].msg.stamp < run[n].received[j].msg.stamp
    ensures run[n].received[i].incarnation <= run[n].received[j].incarnation
  {
    InvAlways(run, n);
    var w := run[n];
    assert w.ch.delivered[i] == w.received[i].msg && w.ch.delivered[j] == w.received[j].msg;
    DeliveredOnceInSendOrder(w.ch, i, j);
  }

  /**
   A restart loses at most the message in hand: whatever an incarnation received it has handled,
   except the one message it holds or held when it ended.
   */
  lemma RestartLosesAtMostHand(run: seq<World>, n: nat, i: nat)
    requires Behavior(run) && n < |run| && i < |run[n].received|
    ensures var r := run[n].received[i];
            && r.incarnation < |run[n].incarnations|
            && (r in run[n].handled || run[n].incarnations[r.incarnation].hand == Some(r.msg))
  {
    InvAlways(run, n);
  }

  /** Counted over a whole run: no more messages go unhandled than there were incarnations. */
  lemma LossesBoundedByRestarts(run: seq<World>, n: nat)
    requires Behavior(run) && n < |run|
    ensures |run[n].received| <= |run[n].handled| + run[n].metrics.Total() + 1
  {
    InvAlways(run, n);
    HandsBound(run[n].incarnations);
  }

  /** Nothing is lost between incarnations: what none has received is still in the inbox. */
  lemma NothingLostBetweenIncarnations(run: seq<World>, n: nat)
    requires Behavior(run) && n < |run| && run[n].ch.pc.Idle?
    ensures var w := run[n];
            && Of(Messages(w.received), High) + w.ch.high == Of(w.ch.sent, High)
            && Of(Messages(w.received), Low) + w.ch.stash.ToSeq() + w.ch.low == Of(w.ch.sent, Low)
  {
    InvAlways(run, n);
    var w := run[n];
    assert w.ch.delivered == Messages(w.received);
    assert Of(w.ch.delivered, Low) + w.ch.stash.ToSeq() + [] + w.ch.low
        == Of(w.ch.delivered, Low) + w.ch.stash.ToSeq() + w.ch.low;
  }

  /** The metrics count the restarts: one per incarnation after the first. */
  lemma MetricsCountRestarts(run: seq<World>, n: nat)
    requires Behavior(run) && n < |run|
    ensures run[n].metrics.panics + run[n].metrics.errors + run[n].metrics.kills
            == |run[n].incarnations| - 1
  {
    InvAlways(run, n);
  }

  lemma OneConsumerOf(w: World)
    requires Inv(w)
    ensures OneConsumer(w)
  {
  }

  /** How many of the incarnations ended with the given exit. */
  function EndedWith(incarnations: seq<Incarnation>, exit: Exit): nat {
    if incarnations == [] then 0
    else
      var last := incarnations[|incarnations| - 1];
      EndedWith(incarnations[..|incarnations| - 1], exit) + (if last.Ended? && last.exit == exit then 1 else 0)
  }

  /** Each counter is the number of past incarnations that ended for its reason. */
  ghost predicate CountsReasons(w: World)
    requires w.incarnations != []
  {
    var past := w.incarnations[..Last(w)];
    w.metrics == Metrics(EndedWith(past, Panicked), EndedWith(past, Failure), EndedWith(past, Killed))
  }

  lemma JoinedCountsReasons(w: World)
    requires w.incarnations != [] && CountsReasons(w) && Enabled(w, Joined)
    ensures Apply(w, Joined).incarnations != [] && CountsReasons(Apply(w, Joined))
  {
    var s := w.incarnations;
    assert (s + [Live(false, None)])[..|s|] == s;
  }

  lemma PastIsPast(w: World, e: Event)
    requires OneConsumer(w) && Enabled(w, e) && !e.Joined?
    ensures |Apply(w, e).incarnations| == |w.incarnations| && Apply(w, e).metrics == w.metrics
    ensures Apply(w, e).incarnations[..Last(w)] == w.incarnations[..Last(w)]
  {
    hide PriorityChannel.Step;
  }

  /** Restarts are counted by reason: panics, errors and kills are never mistaken for each other. */
  lemma {:induction false} MetricsCountReasons(run: seq<World>, n: nat)
    requires Behavior(run) && n < |run|
    ensures run[n].incarnations != [] && CountsReasons(run[n])
  {
    hide Inv, Apply, Enabled;
    if n > 0 {
      MetricsCountReasons(run, n - 1);
      InvAlways(run, n - 1);
      OneConsumerOf(run[n - 1]);
      assert Next(run[n - 1], run[n - 1 + 1]);
      var e :| Enabled(run[n - 1], e) && run[n] == Apply(run[n - 1], e);
      if e.Joined? {
        JoinedCountsReasons(run[n - 1]);
      } else {
        PastIsPast(run[n - 1], e);
      }
    }
  }

  /** A supervisor that has stopped leaves an actor that ended for good. */
  ghost predicate StoppedForGood(w: World) {
    w.phase.Stopped? ==>
      && w.incarnations != [] && w.incarnations[Last(w)].Ended?
      && var exit := w.incarnations[Last(w)].exit;
         CountRestart(w.metrics, exit) == None && (w.phase.exit == exit || (IsSuccess(exit) && w.phase.exit == Completed))
  }

  lemma ApplyKeepsStopped(w: World, e: Event)
    requires OneConsumer(w) && StoppedForGood(w) && Enabled(w, e)
    ensures StoppedForGood(Apply(w, e))
  {
    hide PriorityChannel.Step;
  }

  /**
   Supervision stops exactly with an actor that is not to be restarted: it ended by itself, with
   success, on request or because its downstream closed.
   */
  lemma {:induction false} StopsOnlyForGood(run: seq<World>, n: nat)
    requires Behavior(run) && n < |run|
    ensures StoppedForGood(run[n])
  {
    hide Inv, Apply, Enabled;
    if n > 0 {
      StopsOnlyForGood(run, n - 1);
      InvAlways(run, n - 1);
      OneConsumerOf(run[n - 1]);
      assert Next(run[n - 1], run[n - 1 + 1]);
      var e :| Enabled(run[n - 1], e) && run[n] == Apply(run[n - 1], e);
      ApplyKeepsStopped(run[n - 1], e);
    }
  }
}
