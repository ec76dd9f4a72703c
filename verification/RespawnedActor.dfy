/**
 The actor machine across supervised restarts: an actor that ended with a failure is replaced by a new
 one on the same inbox, which may hold messages, and on the same reference count.

 Before it waits for the old actor, the supervisor clones a mailbox; the clone becomes the mailbox of
 the new actor's context. The mailbox of the old context is from then on one mailbox among others, to
 be dropped like any of them. Spawning makes one more mailbox, whose drop the supervisor starts while
 the new actor is already at work.
 */
module RespawnedActor {
  import opened Wrappers
  import PriorityChannel
  import opened ActorLoop
  import Supervision

  /**
   `log` is what was handled and `lost` what an incarnation had received and not handled when it
   ended. The actor's own `handled` stands for everything received and done with, handled or lost.
   */
  datatype Supervised = Supervised(actor: Actor, restarts: nat, log: seq<Msg>, lost: seq<Msg>)

  datatype Event = Act(action: ActorLoop.Action) | Respawn

  predicate Starts(s: Supervised) {
    ActorLoop.Init(s.actor) && s.restarts == 0 && s.log == [] && s.lost == []
  }

  /** The exits after which the supervisor starts the actor again. */
  predicate Restartable(exit: Exit) {
    Supervision.CountRestart(Supervision.Metrics(0, 0, 0), exit).Some?
  }

  predicate Possible(s: Supervised, e: Event) {
    match e
    case Act(action) => ActorLoop.Enabled(s.actor, action)
    case Respawn => s.actor.pc.Exited? && Restartable(s.actor.pc.exit)
  }

  /** What comes after a prefix. */
  function Rest(whole: seq<Msg>, part: seq<Msg>): seq<Msg> {
    if |part| <= |whole| then whole[|part|..] else []
  }

  /** The next incarnation: running, not killed, at the top of its loop, one mailbox more. */
  function Fresh(a: Actor): Actor {
    a.(refCount := a.refCount + 1, handles := a.handles + 1, running := true, killed := false,
       pc := Top, handled := a.ch.delivered, late := false)
  }

  function After(s: Supervised, e: Event): Supervised
    requires Possible(s, e)
  {
    match e
    case Act(action) =>
      var actor := ActorLoop.Apply(s.actor, action);
      s.(actor := actor, log := s.log + Rest(actor.handled, s.actor.handled))
    case Respawn =>
      s.(actor := Fresh(s.actor), restarts := s.restarts + 1,
         lost := s.lost + Rest(s.actor.ch.delivered, s.actor.handled))
  }

  ghost predicate Follows(s: Supervised, s': Supervised) {
    exists e :: Possible(s, e) && s' == After(s, e)
  }

  ghost predicate Life(run: seq<Supervised>) {
    && |run| > 0
    && Starts(run[0])
    && forall i :: 0 <= i < |run| - 1 ==> Follows(run[i], run[i + 1])
  }

  // ---------------------------------------------------------------------------
  // The invariant

  /** At most one message is received and not done with. */
  ghost predicate Tight(a: Actor) {
    a.handled <= a.ch.delivered && |a.ch.delivered| <= |a.handled| + 1
  }

  ghost predicate Shared(s: Supervised) {
    forall m :: m in s.actor.handled <==> m in s.log || m in s.lost
  }

  ghost predicate Holds(s: Supervised) {
    && ActorLoop.Inv(s.actor) && HandledBeforeCheck(s.actor)
    && Tight(s.actor) && Shared(s) && |s.lost| <= s.restarts
  }

  lemma FreshKeepsInv(a: Actor)
    requires ActorLoop.Inv(a) && a.pc.Exited? && !a.pc.exit.Completed?
    ensures ActorLoop.Inv(Fresh(a)) && HandledBeforeCheck(Fresh(a)) && Tight(Fresh(a))
  {
    hide PriorityChannel.Inv;
    assert a.ch.delivered + [] == a.ch.delivered;
  }

  lemma TightUnlessExited(a: Actor)
    requires ActorLoop.Inv(a) && !(a.pc.Exited? && !a.pc.exit.Completed?)
    ensures Tight(a)
  {
    hide PriorityChannel.Inv, Wakeful, Swept, OnlyNudgesSince;
  }

  lemma HandleFrame(a: Actor, reply: Reply)
    requires a.pc.Handling?
    ensures var a' := Handle(a, a.pc.msg, a.pc.draining, reply);
            && a'.ch == a.ch && a.handled <= a'.handled && (a'.pc.Exited? ==> a'.handled == a.handled)
  {
  }

  /** A step handles nothing, or the message in hand; the one that ends the actor receives nothing either. */
  lemma StepFrame(a: Actor, reply: Reply)
    requires ActorLoop.Enabled(a, ActorStep(reply))
    ensures var a' := ActorLoop.Step(a, reply);
            && a.handled <= a'.handled
            && (a'.pc.Exited? ==> a'.handled == a.handled && a'.ch.delivered == a.ch.delivered)
  {
    hide PriorityChannel.Step, Handle;
    match a.pc {
      case Handling(_, _) => HandleFrame(a, reply);
      case Receiving => ReceiveFrame(a, reply);
      case DrainReceiving => ReceiveFrame(a, reply);
      case _ => assert ActorLoop.Step(a, reply).handled == a.handled;
    }
  }

  lemma ReceiveFrame(a: Actor, reply: Reply)
    requires ActorLoop.Enabled(a, ActorStep(reply)) && (a.pc.Receiving? || a.pc.DrainReceiving?)
    ensures var a' := ActorLoop.Step(a, reply);
            a'.handled == a.handled && (a'.pc.Exited? ==> a'.ch.delivered == a.ch.delivered)
  {
    hide PriorityChannel.Step;
  }

  lemma ActionFrame(a: Actor, action: ActorLoop.Action)
    requires ActorLoop.Enabled(a, action)
    ensures var a' := ActorLoop.Apply(a, action);
            && a.handled <= a'.handled
            && (a'.pc.Exited? ==> a'.handled == a.handled && a'.ch.delivered == a.ch.delivered)
  {
    hide ActorLoop.Step;
    if action.ActorStep? {
      StepFrame(a, action.reply);
    }
  }

  lemma ActKeeps(s: Supervised, action: ActorLoop.Action)
    requires Holds(s) && ActorLoop.Enabled(s.actor, action)
    ensures Holds(After(s, Act(action)))
  {
    hide ActorLoop.Inv, HandledBeforeCheck, ActorLoop.Enabled, ActorLoop.Apply;
    var actor := ActorLoop.Apply(s.actor, action);
    ActorLoop.ApplyKeepsInv(s.actor, action);
    ApplyKeepsHandledBeforeCheck(s.actor, action);
    ActionFrame(s.actor, action);
    if !actor.pc.Exited? || actor.pc.exit.Completed? {
      TightUnlessExited(actor);
    }
    assert actor.handled == s.actor.handled + Rest(actor.handled, s.actor.handled);
  }

  lemma RespawnKeeps(s: Supervised)
    requires Holds(s) && Possible(s, Respawn)
    ensures Holds(After(s, Respawn))
  {
    FreshKeepsInv(s.actor);
    hide ActorLoop.Inv, HandledBeforeCheck;
    assert s.actor.ch.delivered == s.actor.handled + Rest(s.actor.ch.delivered, s.actor.handled);
  }

  lemma {:induction false} HoldsAlways(run: seq<Supervised>, n: nat)
    requires Life(run) && n < |run|
    ensures Holds(run[n])
  {
    if n == 0 {
      ActorLoop.InitInv(run[0].actor);
    } else {
      HoldsAlways(run, n - 1);
      assert Follows(run[n - 1], run[n - 1 + 1]);
      var e :| Possible(run[n - 1], e) && run[n] == After(run[n - 1], e);
      hide Holds, After;
      match e
      case Act(action) => ActKeeps(run[n - 1], action);
      case Respawn => RespawnKeeps(run[n - 1]);
    }
  }

  // ---------------------------------------------------------------------------
  // Main results, over any number of restarts

  /** No lost wake-up, whichever incarnation is waiting. */
  lemma NoLostWakeUpAcrossRestarts(run: seq<Supervised>, n: nat)
    requires Life(run) && n < |run|
    requires var a := run[n].actor; a.pc.Receiving? && !a.ch.pc.Done? && !Available(a.ch)
    ensures run[n].actor.refCount > 1 || run[n].actor.nudgers > 0
  {
    HoldsAlways(run, n);
  }

  lemma ReceiveNeverFailsAcrossRestarts(run: seq<Supervised>, n: nat)
    requires Life(run) && n < |run| && run[n].actor.pc.Receiving? && run[n].actor.ch.pc.Done?
    ensures run[n].actor.ch.pc.outcome.Got?
  {
    HoldsAlways(run, n);
    RecvGetsMessage(run[n].actor);
  }

  /**
   When the last incarnation exits as `Completed`, the messages handled or lost are exactly those sent
   before its ref-count check, and no more are lost than there were restarts.
   */
  lemma CompletedAcrossRestarts(run: seq<Supervised>, n: nat, i: nat)
    requires Life(run) && n < |run| && run[n].actor.pc == Exited(Completed) && i < |run[n].actor.ch.sent|
    ensures var m := run[n].actor.ch.sent[i];
            m in run[n].log || m in run[n].lost <==> i < run[n].actor.checkedAt
    ensures |run[n].lost| <= run[n].restarts
  {
    HoldsAlways(run, n);
    CompletedIff(run[n].actor, i);
    hide ActorLoop.Inv;
    assert run[n].actor.ch.sent[i] in run[n].actor.handled
      <==> run[n].actor.ch.sent[i] in run[n].log || run[n].actor.ch.sent[i] in run[n].lost;
  }
}
