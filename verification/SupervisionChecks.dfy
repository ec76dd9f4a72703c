/**
 Which actors a supervisor leaves alone, which it kills, and which it replaces.
 */
module SupervisionChecks {
  import opened Wrappers
  import opened Supervision
  import ActorLoop
  import PriorityChannel

  /** The check finds the incarnation at fault: frozen or gone without notice, or announced as failed. */
  predicate AtFault(i: Incarnation, progressed: bool) {
    match i
    case Live(_, _) => !progressed
    case Ended(exit, announced, _) => if announced then !IsSuccess(exit) else !progressed
  }

  /** An actor that has not ended and made progress is left exactly as it is. */
  lemma ProgressingIsLeftAlone(w: World)
    requires Enabled(w, CheckHealth(true)) && w.incarnations[Last(w)].Live?
    ensures Apply(w, CheckHealth(true)) == w
  {
  }

  lemma CheckFindsFault(w: World, progressed: bool)
    requires Enabled(w, CheckHealth(progressed))
    ensures Apply(w, CheckHealth(progressed)).phase.Unhealthy? <==> AtFault(w.incarnations[Last(w)], progressed)
    ensures Apply(w, CheckHealth(progressed)) == w.(phase := Apply(w, CheckHealth(progressed)).phase)
  {
  }

  /** Only a check that finds fault makes the supervisor act. */
  lemma IntoAction(w: World, e: Event)
    requires Enabled(w, e) && (Apply(w, e).phase.Unhealthy? || Apply(w, e).phase.Joining?)
    ensures || (e.CheckHealth? && w.phase.Watching? && Apply(w, e).phase.Unhealthy?
                && AtFault(w.incarnations[Last(w)], e.progressed))
            || ((w.phase.Unhealthy? || w.phase.Joining?) && |Apply(w, e).incarnations| == |w.incarnations|)
    ensures Apply(w, e).phase.Joining? && !w.phase.Joining? ==> w.phase.Unhealthy? && e.KillOrJoin?
    ensures Apply(w, e).phase.Unhealthy? ==> |Apply(w, e).incarnations| == |w.incarnations|
  {
    hide PriorityChannel.Step;
  }

  /**
   Whenever the supervisor is about to kill, or is waiting for an actor to end, the check before it found
   that very incarnation at fault.
   */
  lemma {:induction false} ActionHasCause(run: seq<World>, n: nat) returns (m: nat, progressed: bool)
    requires Behavior(run) && n < |run| && (run[n].phase.Unhealthy? || run[n].phase.Joining?)
    ensures m < n && Enabled(run[m], CheckHealth(progressed)) && run[m + 1] == Apply(run[m], CheckHealth(progressed))
    ensures |run[m].incarnations| == |run[n].incarnations| > 0
    ensures AtFault(run[m].incarnations[Last(run[m])], progressed)
    ensures forall i :: m < i <= n ==> run[i].phase.Unhealthy? || run[i].phase.Joining?
  {
    hide Apply, Enabled, AtFault;
    assert n > 0;
    assert Next(run[n - 1], run[n - 1 + 1]);
    var e :| Enabled(run[n - 1], e) && run[n] == Apply(run[n - 1], e);
    IntoAction(run[n - 1], e);
    NotEmpty(run[n - 1], e);
    if run[n - 1].phase.Watching? {
      m, progressed := n - 1, e.progressed;
    } else {
      m, progressed := ActionHasCause(run, n - 1);
    }
  }

  lemma NotEmpty(w: World, e: Event)
    requires Enabled(w, e)
    ensures w.incarnations != []
  {
  }

  /**
   The step that kills: the latest incarnation's switch is set and a Nudge is sent to it, unless its state
   shows an exit; then it is joined with nothing done to it.
   */
  lemma KillStep(w: World)
    requires Enabled(w, KillOrJoin)
    ensures var w' := Apply(w, KillOrJoin);
            var last := w.incarnations[Last(w)];
            && w'.phase.Joining? && w'.metrics == w.metrics
            && (last.Live? ==> w'.incarnations == w.incarnations[Last(w) := Live(true, last.hand)]
                               && w'.ch == PriorityChannel.Enqueue(w.ch, PriorityChannel.High, ActorLoop.Nudge))
            && (last.Ended? && last.announced ==> w'.incarnations == w.incarnations && w'.ch == w.ch)
  {
  }

  /** Only these two set a switch. */
  lemma IntoKilled(w: World, e: Event, k: nat)
    requires Enabled(w, e) && IsLive(Apply(w, e), k) && Apply(w, e).incarnations[k].killed
    ensures IsLive(w, k) && (w.incarnations[k].killed || e == KillSwitch(k) || (e.KillOrJoin? && k == Last(w)))
  {
    hide PriorityChannel.Step;
  }

  /**
   A live incarnation's kill switch is set because someone else set it, or because the supervisor did, on
   its latest incarnation, after a check that saw no progress.
   */
  lemma {:induction false} KillHasCause(run: seq<World>, n: nat, k: nat) returns (m: nat, check: nat)
    requires Behavior(run) && n < |run| && IsLive(run[n], k) && run[n].incarnations[k].killed
    ensures m < n && IsLive(run[m], k) && !run[m].incarnations[k].killed
    ensures || (Enabled(run[m], KillSwitch(k)) && run[m + 1] == Apply(run[m], KillSwitch(k)))
            || (&& check < m && k == Last(run[m]) && |run[check].incarnations| == |run[m].incarnations|
                && Enabled(run[check], CheckHealth(false)) && run[check + 1] == Apply(run[check], CheckHealth(false))
                && IsLive(run[check], k))
  {
    hide Apply, Enabled, AtFault;
    StartsUnkilled(run[0], k);
    assert n > 0;
    assert Next(run[n - 1], run[n - 1 + 1]);
    var e :| Enabled(run[n - 1], e) && run[n] == Apply(run[n - 1], e);
    IntoKilled(run[n - 1], e, k);
    if run[n - 1].incarnations[k].killed {
      m, check := KillHasCause(run, n - 1, k);
    } else {
      m := n - 1;
      check := 0;
      if e.KillOrJoin? {
        KillsWhenUnhealthy(run[m]);
        var progressed;
        check, progressed := ActionHasCause(run, m);
        LiveBefore(run, check, m, k);
        LiveAtFault(run[check].incarnations[k], progressed);
      }
    }
  }

  lemma KillsWhenUnhealthy(w: World)
    requires Enabled(w, KillOrJoin)
    ensures w.phase.Unhealthy?
  {
  }

  lemma LiveAtFault(i: Incarnation, progressed: bool)
    requires i.Live? && AtFault(i, progressed)
    ensures !progressed
  {
  }

  lemma StartsUnkilled(w: World, k: nat)
    ensures Init(w) ==> !(IsLive(w, k) && w.incarnations[k].killed)
  {
  }

  lemma LiveStepBack(w: World, e: Event, k: nat)
    requires Enabled(w, e) && IsLive(Apply(w, e), k) && |Apply(w, e).incarnations| == |w.incarnations|
    ensures IsLive(w, k)
  {
    hide PriorityChannel.Step;
  }

  lemma {:induction false} LiveBefore(run: seq<World>, m: nat, n: nat, k: nat)
    requires Behavior(run) && m <= n < |run| && IsLive(run[n], k)
    requires |run[m].incarnations| == |run[n].incarnations|
    ensures IsLive(run[m], k)
  {
    hide Apply, Enabled;
    if m < n {
      assert Next(run[n - 1], run[n - 1 + 1]);
      var e :| Enabled(run[n - 1], e) && run[n] == Apply(run[n - 1], e);
      IncarnationsGrow(run, m, n - 1);
      GrowStep(run[n - 1], e);
      LiveStepBack(run[n - 1], e, k);
      LiveBefore(run, m, n - 1, k);
    }
  }

  lemma GrowStep(w: World, e: Event)
    requires Enabled(w, e)
    ensures |w.incarnations| <= |Apply(w, e).incarnations|
  {
    hide PriorityChannel.Step;
  }

  lemma {:induction false} IncarnationsGrow(run: seq<World>, m: nat, n: nat)
    requires Behavior(run) && m <= n < |run|
    ensures |run[m].incarnations| <= |run[n].incarnations|
  {
    hide Apply, Enabled;
    if m < n {
      IncarnationsGrow(run, m, n - 1);
      assert Next(run[n - 1], run[n - 1 + 1]);
      var e :| Enabled(run[n - 1], e) && run[n] == Apply(run[n - 1], e);
      GrowStep(run[n - 1], e);
    }
  }

  // ---------------------------------------------------------------------------
  // What others leave standing

  /** An ended incarnation stays as it is, and a kill switch that is set stays set. */
  predicate Evolves(i: Incarnation, i': Incarnation) {
    (i.Ended? ==> i' == i) && (i.Live? && i.killed && i'.Live? ==> i'.killed)
  }

  ghost predicate LeavesStanding(w: World, w': World) {
    && |w'.incarnations| == |w.incarnations| && w'.phase == w.phase && w'.metrics == w.metrics
    && w.ch.sent <= w'.ch.sent
    && forall k :: 0 <= k < |w.incarnations| ==> Evolves(w.incarnations[k], w'.incarnations[k])
  }

  lemma OthersLeaveStanding(w: World, e: Event)
    requires Enabled(w, e) && !e.CheckHealth? && !e.KillOrJoin? && !e.Joined?
    ensures LeavesStanding(w, Apply(w, e))
  {
    if e.Advance? {
      StepKeepsSent(w.ch);
      hide PriorityChannel.Step;
    }
  }

  lemma StepKeepsSent(c: PriorityChannel.Channel<ActorLoop.Body>)
    requires !c.pc.Idle? && !c.pc.Done?
    ensures PriorityChannel.Step(c).sent == c.sent
  {
  }
}
