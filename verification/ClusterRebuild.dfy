/**
 Incremental maintenance of the live nodes refines a rebuild from the latest snapshot alone, when
 every state parses and equal versions mean equal states.
 */
module ClusterRebuild {
  import opened Wrappers
  import opened SortedDiff
  import opened ClusterChange
  import opened ClusterCarry

  /** The member built from the snapshot for a node id. */
  ghost function Rebuilt(cfg: Config, states: NodeStates, n: NodeId): Option<ClusterNode> {
    match IdOf(states, n)
    case None => None
    case Some(id) => TryNew(cfg, id, states[id])
  }

  /** The live nodes are exactly the members built from the snapshot. */
  ghost predicate IsRebuild(cfg: Config, nodes: Nodes, states: NodeStates) {
    forall n :: Lookup(nodes, n) == Rebuilt(cfg, states, n)
  }

  ghost predicate Parses(cfg: Config, states: NodeStates) {
    forall id :: id in states ==> TryNew(cfg, id, states[id]).Some?
  }

  /** Equal versions mean equal states. */
  ghost predicate VersionsTell(prev: NodeStates, new_: NodeStates) {
    forall id :: id in prev && id in new_ && prev[id].maxVersion == new_[id].maxVersion
                 ==> prev[id] == new_[id]
  }

  /** Every snapshot parses, and versions tell states apart. */
  ghost predicate Readable(cfg: Config, snapshots: seq<NodeStates>) {
    && (forall i :: 0 <= i < |snapshots| ==> Parses(cfg, snapshots[i]))
    && (forall i :: 0 <= i < |snapshots| - 1 ==> VersionsTell(snapshots[i], snapshots[i + 1]))
  }

  lemma {:induction false} KnownIsBuilt(cfg: Config, snapshots: seq<NodeStates>, k: nat, id: ChitchatId)
    requires Readable(cfg, snapshots) && k < |snapshots| && snapshots[0] == map[] && id in snapshots[k]
    ensures id in KnownAfter(cfg, snapshots, k)
    ensures Some(KnownAfter(cfg, snapshots, k)[id]) == TryNew(cfg, id, snapshots[k][id])
  {
    assert Parses(cfg, snapshots[k]);
    if k > 0 {
      assert VersionsTell(snapshots[k - 1], snapshots[k - 1 + 1]);
      if id in snapshots[k - 1] {
        KnownIsBuilt(cfg, snapshots, k - 1, id);
      }
    }
  }

  /**
   Incremental maintenance refines rebuild: if every state parses and equal versions mean equal
   states, then after every snapshot the live nodes are the member map built from it alone.
   */
  lemma LiveNodesAreRebuilt(cfg: Config, snapshots: seq<NodeStates>, diffs: seq<Diffs>, k: nat)
    requires OrderlySnapshots(cfg, snapshots) && DiffsOf(snapshots, diffs)
    requires Readable(cfg, snapshots) && k <= |diffs|
    ensures IsRebuild(cfg, LiveAfter(cfg, diffs, k), snapshots[k])
  {
    LiveNodesAreCarried(cfg, snapshots, diffs, k);
    hide Readable, OrderlySnapshots, DiffsOf, KnownAfter, LiveAfter;
    forall n ensures Lookup(LiveAfter(cfg, diffs, k), n) == Rebuilt(cfg, snapshots[k], n) {
      assert Lookup(LiveAfter(cfg, diffs, k), n) == MemberOf(KnownAfter(cfg, snapshots, k), snapshots[k], n);
      var id := IdOf(snapshots[k], n);
      if id.Some? {
        KnownIsBuilt(cfg, snapshots, k, id.value);
      }
    }
  }

  // ---------------------------------------------------------------------------
  // When the live nodes stay a rebuild

  /** The members built from a snapshot. */
  function Built(cfg: Config, states: NodeStates): Members {
    map id | id in states && TryNew(cfg, id, states[id]).Some? :: TryNew(cfg, id, states[id]).value
  }

  lemma RebuildIsShown(cfg: Config, nodes: Nodes, states: NodeStates)
    ensures IsRebuild(cfg, nodes, states) <==> Shows(nodes, Built(cfg, states), states)
  {
    forall n ensures Rebuilt(cfg, states, n) == MemberOf(Built(cfg, states), states, n) {
    }
  }

  /**
   The update of a chitchat id that stays is not missed: with an unchanged version its member is
   unchanged, with a changed one it parses now if and only if it did before.
   */
  predicate NotMissed(cfg: Config, prev: NodeStates, new_: NodeStates, id: ChitchatId)
    requires id in prev && id in new_
  {
    var was, now := TryNew(cfg, id, prev[id]), TryNew(cfg, id, new_[id]);
    if prev[id].maxVersion == new_[id].maxVersion then was == now else was.Some? == now.Some?
  }

  lemma CarriedIsBuiltIff(cfg: Config, prev: NodeStates, new_: NodeStates, id: ChitchatId)
    requires id in new_
    ensures Carried(cfg, Built(cfg, prev), prev, new_, id) == TryNew(cfg, id, new_[id])
            <==> (id in prev ==> NotMissed(cfg, prev, new_, id))
  {
  }

  lemma ShownIsRebuildIff(cfg: Config, nodes: Nodes, known: Members, states: NodeStates)
    requires Shows(nodes, known, states) && OneIdPerNode(states)
    ensures IsRebuild(cfg, nodes, states)
            <==> forall id :: id in states ==> MemberFor(known, id) == TryNew(cfg, id, states[id])
  {
    forall id | id in states
      ensures Lookup(nodes, id.nodeId) == MemberFor(known, id)
      ensures Rebuilt(cfg, states, id.nodeId) == TryNew(cfg, id, states[id])
    {
      IdOfUnique(states, id);
      assert Lookup(nodes, id.nodeId) == MemberOf(known, states, id.nodeId);
    }
    if forall id :: id in states ==> MemberFor(known, id) == TryNew(cfg, id, states[id]) {
      forall n ensures Lookup(nodes, n) == Rebuilt(cfg, states, n) {
        assert Lookup(nodes, n) == MemberOf(known, states, n);
      }
    }
    if IsRebuild(cfg, nodes, states) {
      forall id | id in states ensures MemberFor(known, id) == TryNew(cfg, id, states[id]) {
        assert Lookup(nodes, id.nodeId) == Rebuilt(cfg, states, id.nodeId);
      }
    }
  }

  /**
   With safe replacements, one snapshot takes live nodes that are a rebuild of the old snapshot to a
   rebuild of the new one, in any order of the diff, if and only if no update of a staying id is missed.
   */
  lemma RebuildKeptIff(cfg: Config, nodes: Nodes, prev: NodeStates, new_: NodeStates, ds: Diffs)
    requires Orderly(cfg, Built(cfg, prev), prev, new_) && IsRebuild(cfg, nodes, prev)
    requires IsDiff(ds, prev, new_)
    ensures IsRebuild(cfg, OnDiffs(cfg, nodes, ds).nodes, new_)
            <==> forall id :: id in prev && id in new_ ==> NotMissed(cfg, prev, new_, id)
  {
    var known := Built(cfg, prev);
    RebuildIsShown(cfg, nodes, prev);
    SnapshotCarriesMembers(cfg, nodes, known, prev, new_, ds);
    ShownIsRebuildIff(cfg, OnDiffs(cfg, nodes, ds).nodes, Carry(cfg, known, prev, new_), new_);
    hide Orderly, IsRebuild, IsDiff, OnDiffs, NotMissed, Carried, Shows, Built;
    var carried := Carry(cfg, known, prev, new_);
    forall id | id in new_
      ensures (MemberFor(carried, id) == TryNew(cfg, id, new_[id])) <==> (id in prev ==> NotMissed(cfg, prev, new_, id))
    {
      CarriedIsBuiltIff(cfg, prev, new_, id);
    }
  }

  // ---------------------------------------------------------------------------
  // Without the assumptions

  /**
   Parsing matters: an id that could not be parsed when it joined is forgotten. No later update
   brings it back, whatever its state.
   */
  lemma UnparsedJoinIsForgotten(cfg: Config, nodes: Nodes, id: ChitchatId, bad: NodeState,
                                good: NodeState)
    requires id.nodeId !in nodes && TryNew(cfg, id, bad).None?
    ensures OnAdded(cfg, nodes, id, bad) == Outcome(nodes, [])
    ensures OnDiff(cfg, nodes, Unchanged(id, bad, good)) == Outcome(nodes, [])
    ensures TryNew(cfg, id, good).Some? && OneIdPerNode(map[id := good])
            ==> !IsRebuild(cfg, nodes, map[id := good])
  {
    assert nodes - {id.nodeId} == nodes;
    if TryNew(cfg, id, good).Some? && OneIdPerNode(map[id := good]) {
      IdOfUnique(map[id := good], id);
      assert Lookup(nodes, id.nodeId) != Rebuilt(cfg, map[id := good], id.nodeId);
    }
  }
}
