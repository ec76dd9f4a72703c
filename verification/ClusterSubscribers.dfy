/**
 From gossip snapshots to subscribers: the change stream of `ClusterStream` over the nodes
 maintained as in `ClusterCarry` and `ClusterRebuild`, end to end.
 */
module ClusterSubscribers {
  import opened Wrappers
  import opened ClusterChange
  import opened ClusterCarry
  import opened ClusterRebuild
  import ClusterStream

  /** The snapshots seen along a run. */
  function Snapshots(run: seq<ClusterStream.World>): seq<NodeStates> {
    seq(|run|, i requires 0 <= i < |run| => run[i].states)
  }

  /** A snapshot that changes nothing carries everything over. */
  lemma SameStatesCarryAll(cfg: Config, known: Members, states: NodeStates)
    requires Belong(known, states)
    ensures Carry(cfg, known, states, states) == known
  {
  }

  lemma StepCarriesMembers(cfg: Config, w: ClusterStream.World, a: ClusterStream.Action, known: Members)
    requires ClusterStream.Enabled(w, a) && Belong(known, w.states) && Shows(w.live, known, w.states)
    requires Orderly(cfg, known, w.states, ClusterStream.Apply(cfg, w, a).states)
    ensures var w' := ClusterStream.Apply(cfg, w, a);
            Shows(w'.live, Carry(cfg, known, w.states, w'.states), w'.states)
  {
    hide Orderly, Shows, Belong, Carry, OnDiffs;
    if a.Snapshot? {
      SnapshotCarriesMembers(cfg, w.live, known, w.states, a.states, a.diffs);
    } else {
      SameStatesCarryAll(cfg, known, w.states);
    }
  }

  lemma {:induction false} LiveIsCarried(cfg: Config, run: seq<ClusterStream.World>, n: nat)
    requires ClusterStream.Behavior(cfg, run) && n < |run| && OrderlySnapshots(cfg, Snapshots(run))
    ensures Belong(KnownAfter(cfg, Snapshots(run), n), run[n].states)
    ensures Shows(run[n].live, KnownAfter(cfg, Snapshots(run), n), run[n].states)
  {
    var snapshots := Snapshots(run);
    if n > 0 {
      LiveIsCarried(cfg, run, n - 1);
      var known := KnownAfter(cfg, snapshots, n - 1);
      assert Orderly(cfg, known, snapshots[n - 1], snapshots[n - 1 + 1]);
      assert ClusterStream.Next(cfg, run[n - 1], run[n - 1 + 1]);
      var a :| ClusterStream.Enabled(run[n - 1], a) && run[n] == ClusterStream.Apply(cfg, run[n - 1], a);
      CarryBelongs(cfg, known, run[n - 1].states, run[n].states);
      hide Orderly, Shows, Belong, Carry, ClusterStream.Apply, ClusterStream.Enabled;
      StepCarriesMembers(cfg, run[n - 1], a, known);
    }
  }

  /** A member as subscribers are to see it: only if it is ready. */
  function IfReady(member: Option<ClusterNode>): Option<ClusterNode> {
    if member.Some? && member.value.isReady then member else None
  }

  lemma ReadyLookup(nodes: Nodes, n: NodeId)
    ensures Lookup(Ready(nodes), n) == IfReady(Lookup(nodes, n))
  {
  }

  // ---------------------------------------------------------------------------
  // Main results

  /**
   In every run with safe replacements, what an open subscriber has pieced together for a node id is
   the ready member carried from snapshot to snapshot, whenever and however it subscribed.
   */
  lemma SubscriberSeesCarriedMembers(cfg: Config, run: seq<ClusterStream.World>, k: nat, i: nat, n: NodeId)
    requires ClusterStream.Behavior(cfg, run) && k < |run| && OrderlySnapshots(cfg, Snapshots(run))
    requires i < |run[k].subscribers| && run[k].subscribers[i].open
    ensures var s := run[k].subscribers[i];
            Lookup(Replay(s.initial, s.received), n)
            == IfReady(MemberOf(KnownAfter(cfg, Snapshots(run), k), run[k].states, n))
  {
    ClusterStream.SubscriberSeesReadyNodes(cfg, run, k, i);
    LiveIsCarried(cfg, run, k);
    ReadyLookup(run[k].live, n);
    assert Lookup(run[k].live, n) == MemberOf(KnownAfter(cfg, Snapshots(run), k), run[k].states, n);
  }

  /**
   If moreover every state parses and equal versions mean equal states, it is the ready member built
   from the latest snapshot alone.
   */
  lemma SubscriberSeesRebuild(cfg: Config, run: seq<ClusterStream.World>, k: nat, i: nat, n: NodeId)
    requires ClusterStream.Behavior(cfg, run) && k < |run| && OrderlySnapshots(cfg, Snapshots(run))
    requires Readable(cfg, Snapshots(run))
    requires i < |run[k].subscribers| && run[k].subscribers[i].open
    ensures var s := run[k].subscribers[i];
            Lookup(Replay(s.initial, s.received), n) == IfReady(Rebuilt(cfg, run[k].states, n))
  {
    SubscriberSeesCarriedMembers(cfg, run, k, i, n);
    var id := IdOf(run[k].states, n);
    if id.Some? {
      KnownIsBuilt(cfg, Snapshots(run), k, id.value);
    }
  }

  /** What a state that parses says, in its key-value pairs. */
  lemma MemberFromPairs(cfg: Config, id: ChitchatId, state: NodeState)
    ensures TryNew(cfg, id, state).Some? <==>
              && "enabled_services" in state.keyValues && "grpc_advertise_addr" in state.keyValues
              && cfg.parseAddr(state.keyValues["grpc_advertise_addr"]).Some?
    ensures TryNew(cfg, id, state).Some? ==>
              TryNew(cfg, id, state).value
              == ClusterNode(id, "readiness" in state.keyValues && state.keyValues["readiness"] == "READY",
                             id == cfg.selfId, cfg.parseAddr(state.keyValues["grpc_advertise_addr"]).value,
                             state.keyValues)
  {
  }

  /** The node with this chitchat id announces that it is ready. */
  predicate AnnouncesReady(states: NodeStates, id: ChitchatId) {
    id in states && "readiness" in states[id].keyValues && states[id].keyValues["readiness"] == "READY"
  }

  /**
   The same in terms of the gossiped pairs: a subscriber has a node exactly when the latest snapshot has a
   chitchat id for it whose readiness key says READY, and then with that id, address and pairs.
   */
  lemma SubscriberSeesAnnouncedNodes(cfg: Config, run: seq<ClusterStream.World>, k: nat, i: nat, n: NodeId)
    requires ClusterStream.Behavior(cfg, run) && k < |run| && OrderlySnapshots(cfg, Snapshots(run))
    requires Readable(cfg, Snapshots(run))
    requires i < |run[k].subscribers| && run[k].subscribers[i].open
    ensures var s := run[k].subscribers[i];
            var view := Replay(s.initial, s.received);
            && (n in view <==> exists id :: AnnouncesReady(run[k].states, id) && id.nodeId == n)
            && (n in view ==>
                  && AnnouncesReady(run[k].states, view[n].id) && view[n].id.nodeId == n && view[n].isReady
                  && view[n].keyValues == run[k].states[view[n].id].keyValues
                  && "grpc_advertise_addr" in view[n].keyValues
                  && cfg.parseAddr(view[n].keyValues["grpc_advertise_addr"]) == Some(view[n].grpcAddr)
                  && (view[n].isSelf <==> view[n].id == cfg.selfId))
  {
    SubscriberSeesRebuild(cfg, run, k, i, n);
    assert Snapshots(run)[k] == run[k].states;
    OneIdAlways(cfg, run, k);
    assert Parses(cfg, Snapshots(run)[k]);
    hide ClusterStream.Behavior, OrderlySnapshots, Readable, Replay, TryNew;
    var states := run[k].states;
    var found := IdOf(states, n);
    if found.Some? {
      MemberFromPairs(cfg, found.value, states[found.value]);
    }
    forall id | AnnouncesReady(states, id) && id.nodeId == n ensures found == Some(id) {
      IdOfUnique(states, id);
    }
  }

  lemma OneIdAlways(cfg: Config, run: seq<ClusterStream.World>, k: nat)
    requires ClusterStream.Behavior(cfg, run) && k < |run| && OrderlySnapshots(cfg, Snapshots(run))
    ensures OneIdPerNode(run[k].states)
  {
    if k > 0 {
      assert Orderly(cfg, KnownAfter(cfg, Snapshots(run), k - 1), Snapshots(run)[k - 1], Snapshots(run)[k - 1 + 1]);
    }
  }
}
