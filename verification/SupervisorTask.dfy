/**
 The supervisor as it is written: an object that takes its actor handle out, waits for the actor to
 end, counts the reason and puts the handle of the next incarnation back.

 Actors and senders act between any two of its accesses; what they do is an arbitrary parameter.
 Every execution is a run of the supervision machine.
 */
module SupervisorTask {
  import opened Wrappers
  import ActorLoop
  import opened Supervision
  import opened SupervisionChecks
  import PriorityChannel

  type Others = nat -> seq<Event>

  type Inbox = PriorityChannel.Channel<ActorLoop.Body>

  predicate FromOthers(e: Event) {
    !e.CheckHealth? && !e.KillOrJoin? && !e.Joined?
  }

  lemma BehaviorExtends(run: seq<World>, e: Event)
    requires Behavior(run) && Enabled(run[|run| - 1], e)
    ensures Behavior(run + [Apply(run[|run| - 1], e)])
  {
    hide Apply, Enabled;
    var run' := run + [Apply(run[|run| - 1], e)];
    forall i | 0 <= i < |run'| - 1 ensures Next(run'[i], run'[i + 1]) {
      if i < |run| - 1 {
        assert Next(run[i], run[i + 1]);
      }
    }
  }

  /** The supervisor's own mailbox handle keeps the channel open, and there is always an incarnation. */
  lemma {:induction false} OpenAlways(run: seq<World>, n: nat)
    requires Behavior(run) && n < |run|
    ensures run[n].ch.senders == 1 && run[n].incarnations != []
  {
    hide Apply, Enabled;
    if n > 0 {
      OpenAlways(run, n - 1);
      assert Next(run[n - 1], run[n - 1 + 1]);
      var e :| Enabled(run[n - 1], e) && run[n] == Apply(run[n - 1], e);
      ApplyKeepsOpen(run[n - 1], e);
    }
  }

  lemma ApplyKeepsOpen(w: World, e: Event)
    requires Enabled(w, e) && w.ch.senders == 1
    ensures Apply(w, e).ch.senders == 1 && Apply(w, e).incarnations != []
  {
    if e.Advance? { StepKeepsSenders(w.ch); }
    hide PriorityChannel.Step;
  }

  lemma StepKeepsSenders(c: PriorityChannel.Channel<ActorLoop.Body>)
    requires !c.pc.Idle? && !c.pc.Done?
    ensures PriorityChannel.Step(c).senders == c.senders
  {
  }

  lemma StandingIsTransitive(a: World, b: World, c: World)
    requires LeavesStanding(a, b) && LeavesStanding(b, c)
    ensures LeavesStanding(a, c)
  {
    forall k | 0 <= k < |a.incarnations| ensures Evolves(a.incarnations[k], c.incarnations[k]) {
      assert Evolves(a.incarnations[k], b.incarnations[k]) && Evolves(b.incarnations[k], c.incarnations[k]);
    }
  }

  lemma StandingIsReflexive(a: World)
    ensures LeavesStanding(a, a)
  {
  }

  /** A Nudge was sent since the given moment. */
  ghost predicate NudgedSince(w: World, inbox: Inbox) {
    exists i :: |w.ch.sent| <= i < |inbox.sent| && inbox.sent[i].body == ActorLoop.Nudge
                && inbox.sent[i].priority == PriorityChannel.High
  }

  /** How a supervise step ended. */
  datatype Verdict = Running | Exit(status: ActorLoop.Exit) | StillWaiting

  class Supervisor {
    var handleOpt: Option<nat>
    var metrics: Metrics
    // The actors, by incarnation, and the inbox they share
    var incarnations: seq<Incarnation>
    var inbox: Inbox
    var owner: nat
    var received: seq<Receipt>
    var handled: seq<Receipt>
    var gap: nat
    ghost var run: seq<World>

    function Model(phase: Phase): World
      reads this
    {
      World(inbox, owner, incarnations, phase, metrics, received, handled)
    }

    ghost predicate At(phase: Phase)
      reads this
    {
      |run| > 0 && Behavior(run) && run[|run| - 1] == Model(phase) && incarnations != []
    }

    /** Between two steps the handle is that of the latest incarnation. */
    ghost predicate Valid()
      reads this
    {
      At(Watching) && handleOpt == Some(|incarnations| - 1)
    }

    constructor ()
      ensures Valid()
    {
      handleOpt, metrics, incarnations := Some(0), Metrics(0, 0, 0), [Live(false, None)];
      inbox := PriorityChannel.Channel([], [], [], None, 1, PriorityChannel.Idle, []);
      owner, received, handled, gap := 0, [], [], 0;
      new;
      run := [Model(Watching)];
    }

    /** Records that the fields now hold the outcome of one step. */
    ghost method Recorded(e: Event, phase: Phase)
      requires |run| > 0 && Behavior(run) && Enabled(run[|run| - 1], e)
      requires Apply(run[|run| - 1], e) == Model(phase) && incarnations != []
      modifies `run
      ensures At(phase) && old(run) <= run && run == old(run) + [Model(phase)]
    {
      BehaviorExtends(run, e);
      run := run + [Model(phase)];
    }

    /** Actors and senders act for a while; what is not possible at that point is skipped. */
    method Yield(env: Others, phase: Phase)
      requires At(phase)
      modifies this
      ensures At(phase) && old(run) <= run
      ensures LeavesStanding(old(Model(phase)), Model(phase)) && handleOpt == old(handleOpt)
    {
      hide Behavior, Apply, Enabled;
      ghost var before := Model(phase);
      StandingIsReflexive(before);
      var events := env(gap);
      gap := gap + 1;
      for i := 0 to |events|
        invariant At(phase) && old(run) <= run
        invariant LeavesStanding(before, Model(phase)) && handleOpt == old(handleOpt)
      {
        if FromOthers(events[i]) && Enabled(Model(phase), events[i]) {
          OthersLeaveStanding(Model(phase), events[i]);
          StandingIsTransitive(before, Model(phase), Apply(Model(phase), events[i]));
          var next := Apply(Model(phase), events[i]);
          incarnations, inbox, owner, received, handled :=
            next.incarnations, next.ch, next.owner, next.received, next.handled;
          Recorded(events[i], phase);
        }
      }
    }

    /**
     supervise, waiting at most a number of times for the actor to end. `check` is the point of the run at
     which the health of the actor was checked.
     */
    method Supervise(env: Others, progressed: bool, waits: nat) returns (verdict: Verdict, ghost check: nat)
      requires Valid()
      modifies this
      ensures old(run) <= run && old(|run|) <= check + 1 < |run| && run[check].incarnations != []
      ensures verdict.Running? ==> Valid()
      ensures verdict.Exit? ==> At(Stopped(verdict.status))
      ensures verdict.StillWaiting? ==> At(Joining) && handleOpt == None
      ensures var last := run[check].incarnations[Last(run[check])];
              && (last.Live? && progressed ==>
                    verdict.Running? && |run| == check + 2 && run[check + 1] == run[check])
              && (last.Ended? && last.announced && IsSuccess(last.exit) ==>
                    verdict == Exit(ActorLoop.Completed) && run[check + 1] == run[check].(phase := Stopped(ActorLoop.Completed)))
              && (AtFault(last, progressed) ==> Dealt(verdict, run[check]))
    {
      hide Behavior;
      Yield(env, Watching);
      check := |run| - 1;
      var handle := handleOpt.value;
      var health := Publish(incarnations[handle]);
      if health == Succeeded {
        Recorded(CheckHealth(progressed), Stopped(ActorLoop.Completed));
        return Exit(ActorLoop.Completed), check;
      }
      if health == Alive && progressed {
        Recorded(CheckHealth(progressed), Watching);
        return Running, check;
      }
      Recorded(CheckHealth(progressed), Unhealthy);
      handleOpt := None;
      ghost var checked := run[check];
      KillOrJoinActor(env, handle);
      verdict := AwaitExit(env, handle, waits, checked);
    }

    /**
     What became of the incarnation that a check found at fault: it has ended, and been counted and
     replaced unless its exit is final; or it is still waited for, ended already or killed and nudged.
     */
    ghost predicate Dealt(verdict: Verdict, checked: World)
      reads this
    {
      && checked.incarnations != [] && |incarnations| >= |checked.incarnations|
      && var k := Last(checked);
         match verdict
         case Running =>
           |incarnations| == k + 2 && incarnations[k].Ended?
           && CountRestart(checked.metrics, incarnations[k].exit) == Some(metrics)
         case Exit(status) =>
           |incarnations| == k + 1 && incarnations[k].Ended? && incarnations[k].exit == status
           && CountRestart(checked.metrics, status) == None && metrics == checked.metrics
         case StillWaiting =>
           |incarnations| == k + 1 && metrics == checked.metrics
           && (incarnations[k].Live? ==> incarnations[k].killed && NudgedSince(checked, inbox))
    }

    /** Kills the actor unless its state already shows an exit. */
    method KillOrJoinActor(env: Others, handle: nat)
      requires At(Unhealthy) && handle == |incarnations| - 1
      modifies this
      ensures At(Joining) && old(run) <= run
      ensures |incarnations| == old(|incarnations|) && handleOpt == old(handleOpt) && metrics == old(metrics)
      ensures incarnations[handle].Live? ==>
                incarnations[handle].killed && NudgedSince(old(Model(Unhealthy)), inbox)
    {
      Yield(env, Unhealthy);
      OpenAlways(run, |run| - 1);
      hide Behavior;
      var i := incarnations[handle];
      if Publish(i) == Alive {
        if i.Live? {
          incarnations := incarnations[handle := Live(true, i.hand)];
        }
        inbox := PriorityChannel.Enqueue(inbox, PriorityChannel.High, ActorLoop.Nudge);
        assert inbox.sent[|inbox.sent| - 1].body == ActorLoop.Nudge;
      }
      Recorded(KillOrJoin, Joining);
    }

    /** Awaits the exit status, then counts the reason and respawns, or gives up. */
    method AwaitExit(env: Others, handle: nat, waits: nat, ghost checked: World) returns (verdict: Verdict)
      requires At(Joining) && handle == |incarnations| - 1 && handleOpt == None
      requires checked.incarnations != [] && handle == Last(checked) && metrics == checked.metrics
      requires incarnations[handle].Live? ==> incarnations[handle].killed && NudgedSince(checked, inbox)
      modifies this
      ensures old(run) <= run
      ensures verdict.Running? ==> Valid()
      ensures verdict.Exit? ==> At(Stopped(verdict.status))
      ensures verdict.StillWaiting? ==> At(Joining) && handleOpt == None
      ensures Dealt(verdict, checked)
    {
      hide Behavior;
      for n := 0 to waits
        invariant At(Joining) && old(run) <= run && handle == |incarnations| - 1 && handleOpt == None
        invariant metrics == checked.metrics
        invariant incarnations[handle].Live? ==> incarnations[handle].killed && NudgedSince(checked, inbox)
      {
        ghost var before := Model(Joining);
        Yield(env, Joining);
        StillNudged(checked, before, Model(Joining), handle);
        if incarnations[handle].Ended? {
          verdict := CountAndRespawn(handle);
          return;
        }
      }
      return StillWaiting;
    }

    method CountAndRespawn(handle: nat) returns (verdict: Verdict)
      requires At(Joining) && handle == |incarnations| - 1 && incarnations[handle].Ended?
      modifies this
      ensures old(run) <= run
      ensures verdict.Running? ==> Valid() && |incarnations| == handle + 2 && incarnations[handle] == old(incarnations[handle])
      ensures verdict.Exit? ==> At(Stopped(verdict.status)) && handleOpt == old(handleOpt) && incarnations == old(incarnations)
      ensures !verdict.StillWaiting?
      ensures CountRestart(old(metrics), old(incarnations[handle].exit))
              == (if verdict.Running? then Some(metrics) else None)
      ensures verdict.Exit? ==> metrics == old(metrics) && verdict.status == old(incarnations[handle].exit)
    {
      hide Behavior;
      var exit := incarnations[handle].exit;
      match exit {
        case Killed => metrics := metrics.(kills := metrics.kills + 1);
        case Failure => metrics := metrics.(errors := metrics.errors + 1);
        case Panicked => metrics := metrics.(panics := metrics.panics + 1);
        case _ =>
          Recorded(Joined, Stopped(exit));
          return Exit(exit);
      }
      incarnations := incarnations + [Live(false, None)];
      handleOpt := Some(|incarnations| - 1);
      Recorded(Joined, Watching);
      return Running;
    }
  }

  lemma StillNudged(checked: World, before: World, after: World, k: nat)
    requires LeavesStanding(before, after) && k < |before.incarnations|
    requires before.incarnations[k].Live? ==> before.incarnations[k].killed && NudgedSince(checked, before.ch)
    ensures after.incarnations[k].Live? ==> after.incarnations[k].killed && NudgedSince(checked, after.ch)
  {
    assert Evolves(before.incarnations[k], after.incarnations[k]);
    if after.incarnations[k].Live? {
      var i :| |checked.ch.sent| <= i < |before.ch.sent| && before.ch.sent[i].body == ActorLoop.Nudge
               && before.ch.sent[i].priority == PriorityChannel.High;
      assert after.ch.sent[i] == before.ch.sent[i];
    }
  }
}
