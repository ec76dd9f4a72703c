/**
 What incremental maintenance of the live nodes amounts to.

 The handlers of `quickwit-cluster/src/change.rs` see one entry of a diff at a time, in an order that
 depends on the order of chitchat ids. With one chitchat id per node in each snapshot and safe
 replacements of chitchat ids, each node id holds the member built from the last state of its chitchat
 id that parsed, provided the state it joined with did.
 */
module ClusterCarry {
  import opened Wrappers
  import opened SortedDiff
  import opened ClusterChange

  type Diffs = seq<KeyDiff<ChitchatId, NodeState>>

  ghost function Lookup(nodes: Nodes, n: NodeId): Option<ClusterNode> {
    if n in nodes then Some(nodes[n]) else None
  }

  /** A chitchat id of the snapshot with the given node id, if there is one. */
  ghost function IdOf(states: NodeStates, n: NodeId): Option<ChitchatId> {
    if exists id :: id in states && id.nodeId == n
    then var id :| id in states && id.nodeId == n; Some(id)
    else None
  }

  ghost predicate OneIdPerNode(states: NodeStates) {
    forall a, b :: a in states && b in states && a.nodeId == b.nodeId ==> a == b
  }

  // ---------------------------------------------------------------------------
  // Members carried from snapshot to snapshot

  /** The member known for each chitchat id of a snapshot. */
  type Members = map<ChitchatId, ClusterNode>

  /**
   A chitchat id that joins is known if its state parses. One that stays keeps its member unless its
   version changed and its new state parses; if it was not known it stays unknown.
   */
  function Carried(cfg: Config, known: Members, prev: NodeStates, new_: NodeStates,
                   id: ChitchatId): Option<ClusterNode>
    requires id in new_
  {
    if id !in prev then TryNew(cfg, id, new_[id])
    else if id !in known then None
    else if prev[id].maxVersion == new_[id].maxVersion then Some(known[id])
    else
      match TryNew(cfg, id, new_[id])
      case None => Some(known[id])
      case Some(member) => Some(member)
  }

  function Carry(cfg: Config, known: Members, prev: NodeStates, new_: NodeStates): Members {
    map id | id in new_ && Carried(cfg, known, prev, new_, id).Some?
      :: Carried(cfg, known, prev, new_, id).value
  }

  /** Members belong to the snapshot and carry their own id. */
  ghost predicate Belong(known: Members, states: NodeStates) {
    forall id :: id in known ==> id in states && known[id].id == id
  }

  function MemberFor(known: Members, id: ChitchatId): Option<ClusterNode> {
    if id in known then Some(known[id]) else None
  }

  ghost function MemberOf(known: Members, states: NodeStates, n: NodeId): Option<ClusterNode> {
    match IdOf(states, n)
    case None => None
    case Some(id) => MemberFor(known, id)
  }

  /** The live nodes are exactly the known members, by node id. */
  ghost predicate Shows(nodes: Nodes, known: Members, states: NodeStates) {
    forall n :: Lookup(nodes, n) == MemberOf(known, states, n)
  }

  /**
   When a chitchat id takes the place of another: unless its state does not parse, its generation is
   larger than that of the live member it replaces, and different from that of an unknown one.
   */
  predicate SafeReplacement(cfg: Config, known: Members, new_: NodeStates, a: ChitchatId, b: ChitchatId)
    requires b in new_
  {
    TryNew(cfg, b, new_[b]).Some? ==>
      if a in known then a.generation < b.generation else a.generation != b.generation
  }

  ghost predicate SafeReplacements(cfg: Config, known: Members, prev: NodeStates, new_: NodeStates) {
    forall a, b :: a in prev && b in new_ && a.nodeId == b.nodeId && a != b
                   ==> SafeReplacement(cfg, known, new_, a, b)
  }

  ghost predicate Orderly(cfg: Config, known: Members, prev: NodeStates, new_: NodeStates) {
    OneIdPerNode(prev) && OneIdPerNode(new_) && SafeReplacements(cfg, known, prev, new_)
  }

  // ---------------------------------------------------------------------------
  // Halfway through a diff

  /** What is stored for a node id once the entries of the ids in `done` have been handled. */
  ghost function Expected(cfg: Config, known: Members, prev: NodeStates, new_: NodeStates,
                          done: set<ChitchatId>, n: NodeId): Option<ClusterNode> {
    var a, b := IdOf(prev, n), IdOf(new_, n);
    var waiting := a.Some? && a.value !in done && a.value in known;
    if b.Some? && b.value in done
    then if waiting && a.value.generation > b.value.generation then Some(known[a.value])
         else Carried(cfg, known, prev, new_, b.value)
    else if waiting then Some(known[a.value])
    else None
  }

  ghost predicate Halfway(cfg: Config, nodes: Nodes, known: Members, prev: NodeStates,
                          new_: NodeStates, done: set<ChitchatId>) {
    forall n :: Lookup(nodes, n) == Expected(cfg, known, prev, new_, done, n)
  }

  lemma IdOfUnique(states: NodeStates, id: ChitchatId)
    requires OneIdPerNode(states) && id in states
    ensures IdOf(states, id.nodeId) == Some(id)
  {
  }

  lemma IdOfAbsent(states: NodeStates, id: ChitchatId)
    requires id !in states
    ensures IdOf(states, id.nodeId) != Some(id)
  {
  }

  lemma OtherNodesUntouched(cfg: Config, nodes: Nodes, d: KeyDiff<ChitchatId, NodeState>, n: NodeId)
    requires n != d.key.nodeId
    ensures Lookup(OnDiff(cfg, nodes, d).nodes, n) == Lookup(nodes, n)
  {
  }

  lemma AddedMeetsExpected(cfg: Config, nodes: Nodes, known: Members, prev: NodeStates,
                           new_: NodeStates, done: set<ChitchatId>, id: ChitchatId)
    requires Orderly(cfg, known, prev, new_) && Belong(known, prev) && id in new_ && id !in prev && id !in done
    requires Lookup(nodes, id.nodeId) == Expected(cfg, known, prev, new_, done, id.nodeId)
    ensures Lookup(OnAdded(cfg, nodes, id, new_[id]).nodes, id.nodeId)
            == Expected(cfg, known, prev, new_, done + {id}, id.nodeId)
  {
    IdOfUnique(new_, id);
    IdOfAbsent(prev, id);
  }

  lemma KeptMeetsExpected(cfg: Config, nodes: Nodes, known: Members, prev: NodeStates,
                          new_: NodeStates, done: set<ChitchatId>, id: ChitchatId)
    requires Orderly(cfg, known, prev, new_) && Belong(known, prev) && id in new_ && id in prev && id !in done
    requires Lookup(nodes, id.nodeId) == Expected(cfg, known, prev, new_, done, id.nodeId)
    ensures Lookup(OnDiff(cfg, nodes, Unchanged(id, prev[id], new_[id])).nodes, id.nodeId)
            == Expected(cfg, known, prev, new_, done + {id}, id.nodeId)
  {
    IdOfUnique(new_, id);
    IdOfUnique(prev, id);
  }

  lemma RemovedMeetsExpected(cfg: Config, nodes: Nodes, known: Members, prev: NodeStates,
                             new_: NodeStates, done: set<ChitchatId>, id: ChitchatId)
    requires Orderly(cfg, known, prev, new_) && Belong(known, prev) && id in prev && id !in new_ && id !in done
    requires Lookup(nodes, id.nodeId) == Expected(cfg, known, prev, new_, done, id.nodeId)
    ensures Lookup(OnRemoved(nodes, id).nodes, id.nodeId)
            == Expected(cfg, known, prev, new_, done + {id}, id.nodeId)
  {
    IdOfUnique(prev, id);
    IdOfAbsent(new_, id);
    CarriedKeepsId(cfg, known, prev, new_, id.nodeId);
  }

  lemma CarriedKeepsId(cfg: Config, known: Members, prev: NodeStates, new_: NodeStates, n: NodeId)
    requires Belong(known, prev)
    ensures IdOf(new_, n).Some? && Carried(cfg, known, prev, new_, IdOf(new_, n).value).Some? ==>
              Carried(cfg, known, prev, new_, IdOf(new_, n).value).value.id == IdOf(new_, n).value
  {
  }

  lemma OnDiffKeepsHalfway(cfg: Config, nodes: Nodes, known: Members, prev: NodeStates,
                           new_: NodeStates, done: set<ChitchatId>, d: KeyDiff<ChitchatId, NodeState>)
    requires Orderly(cfg, known, prev, new_) && Belong(known, prev) && Halfway(cfg, nodes, known, prev, new_, done)
    requires Describes(d, prev, new_) && d.key !in done
    ensures Halfway(cfg, OnDiff(cfg, nodes, d).nodes, known, prev, new_, done + {d.key})
  {
    hide Orderly, Belong, OnAdded, OnUpdated, OnRemoved, Carried;
    match d {
      case Added(id, _) => AddedMeetsExpected(cfg, nodes, known, prev, new_, done, id);
      case Unchanged(id, _, _) => KeptMeetsExpected(cfg, nodes, known, prev, new_, done, id);
      case Removed(id, _) => RemovedMeetsExpected(cfg, nodes, known, prev, new_, done, id);
    }
    forall n ensures Lookup(OnDiff(cfg, nodes, d).nodes, n)
                     == Expected(cfg, known, prev, new_, done + {d.key}, n) {
      if n != d.key.nodeId {
        OtherNodesUntouched(cfg, nodes, d, n);
        assert Lookup(nodes, n) == Expected(cfg, known, prev, new_, done, n);
      }
    }
  }

  function KeysOf(ds: Diffs): set<ChitchatId> {
    set i | 0 <= i < |ds| :: ds[i].key
  }

  lemma ShownIsHalfway(cfg: Config, nodes: Nodes, known: Members, prev: NodeStates, new_: NodeStates)
    requires Shows(nodes, known, prev)
    ensures Halfway(cfg, nodes, known, prev, new_, {})
  {
    forall n ensures Lookup(nodes, n) == Expected(cfg, known, prev, new_, {}, n) {
      assert Lookup(nodes, n) == MemberOf(known, prev, n);
    }
  }

  lemma {:induction false} OnDiffsReachesHalfway(cfg: Config, nodes: Nodes, known: Members,
                                                 prev: NodeStates, new_: NodeStates, ds: Diffs, k: nat)
    requires Orderly(cfg, known, prev, new_) && Belong(known, prev) && Shows(nodes, known, prev)
    requires IsDiff(ds, prev, new_) && k <= |ds|
    ensures Halfway(cfg, OnDiffs(cfg, nodes, ds[..k]).nodes, known, prev, new_, KeysOf(ds[..k]))
  {
    hide Orderly, Belong, Halfway, OnDiff;
    if k == 0 {
      assert KeysOf(ds[..0]) == {};
      ShownIsHalfway(cfg, nodes, known, prev, new_);
    } else {
      OnDiffsReachesHalfway(cfg, nodes, known, prev, new_, ds, k - 1);
      assert ds[..k][..k - 1] == ds[..k - 1];
      assert KeysOf(ds[..k]) == KeysOf(ds[..k - 1]) + {ds[k - 1].key};
      assert ds[k - 1].key !in KeysOf(ds[..k - 1]);
      OnDiffKeepsHalfway(cfg, OnDiffs(cfg, nodes, ds[..k - 1]).nodes, known, prev, new_,
                         KeysOf(ds[..k - 1]), ds[k - 1]);
    }
  }

  lemma AllKeysDone(prev: NodeStates, new_: NodeStates, ds: Diffs, n: NodeId)
    requires IsDiff(ds, prev, new_)
    ensures IdOf(prev, n).Some? ==> IdOf(prev, n).value in KeysOf(ds)
    ensures IdOf(new_, n).Some? ==> IdOf(new_, n).value in KeysOf(ds)
  {
    if IdOf(prev, n).Some? {
      assert IdOf(prev, n).value in prev.Keys + new_.Keys;
    }
    if IdOf(new_, n).Some? {
      assert IdOf(new_, n).value in prev.Keys + new_.Keys;
    }
  }

  // ---------------------------------------------------------------------------
  // Main results

  /**
   One snapshot, its diff entries handled in any order, carries the members over, whether or not
   states parse.
   */
  lemma SnapshotCarriesMembers(cfg: Config, nodes: Nodes, known: Members, prev: NodeStates,
                               new_: NodeStates, ds: Diffs)
    requires Orderly(cfg, known, prev, new_) && Belong(known, prev) && Shows(nodes, known, prev)
    requires IsDiff(ds, prev, new_)
    ensures Shows(OnDiffs(cfg, nodes, ds).nodes, Carry(cfg, known, prev, new_), new_)
  {
    OnDiffsReachesHalfway(cfg, nodes, known, prev, new_, ds, |ds|);
    assert ds[..|ds|] == ds;
    var done := KeysOf(ds);
    var nodes' := OnDiffs(cfg, nodes, ds).nodes;
    hide Orderly, OnDiffs, Carried, IsDiff;
    forall n ensures Lookup(nodes', n) == MemberOf(Carry(cfg, known, prev, new_), new_, n) {
      assert Lookup(nodes', n) == Expected(cfg, known, prev, new_, done, n);
      AllKeysDone(prev, new_, ds, n);
    }
  }

  lemma CarryBelongs(cfg: Config, known: Members, prev: NodeStates, new_: NodeStates)
    requires Belong(known, prev)
    ensures Belong(Carry(cfg, known, prev, new_), new_)
  {
  }

  /** The live nodes after the first `k` snapshots, starting from none. */
  function LiveAfter(cfg: Config, diffs: seq<Diffs>, k: nat): Nodes
    requires k <= |diffs|
  {
    if k == 0 then map[] else OnDiffs(cfg, LiveAfter(cfg, diffs, k - 1), diffs[k - 1]).nodes
  }

  /** The members carried over the first `k` snapshots. */
  function KnownAfter(cfg: Config, snapshots: seq<NodeStates>, k: nat): Members
    requires k < |snapshots|
  {
    if k == 0 then map[] else Carry(cfg, KnownAfter(cfg, snapshots, k - 1), snapshots[k - 1], snapshots[k])
  }

  /** One chitchat id per node in each snapshot, and safe replacements from each to the next. */
  ghost predicate OrderlySnapshots(cfg: Config, snapshots: seq<NodeStates>) {
    && |snapshots| > 0 && snapshots[0] == map[]
    && (forall i :: 0 <= i < |snapshots| - 1
                    ==> Orderly(cfg, KnownAfter(cfg, snapshots, i), snapshots[i], snapshots[i + 1]))
  }

  ghost predicate DiffsOf(snapshots: seq<NodeStates>, diffs: seq<Diffs>) {
    |snapshots| == |diffs| + 1
    && forall i :: 0 <= i < |diffs| ==> IsDiff(diffs[i], snapshots[i], snapshots[i + 1])
  }

  /**
   After every snapshot of every run, in whatever order diffs were processed: a node id is live with
   the member from the last state of its chitchat id that parsed, if the state it joined with did.
   */
  lemma {:induction false} LiveNodesAreCarried(cfg: Config, snapshots: seq<NodeStates>,
                                               diffs: seq<Diffs>, k: nat)
    requires OrderlySnapshots(cfg, snapshots) && DiffsOf(snapshots, diffs) && k <= |diffs|
    ensures Belong(KnownAfter(cfg, snapshots, k), snapshots[k])
    ensures Shows(LiveAfter(cfg, diffs, k), KnownAfter(cfg, snapshots, k), snapshots[k])
  {
    if k > 0 {
      LiveNodesAreCarried(cfg, snapshots, diffs, k - 1);
      var known := KnownAfter(cfg, snapshots, k - 1);
      CarryBelongs(cfg, known, snapshots[k - 1], snapshots[k]);
      assert Orderly(cfg, known, snapshots[k - 1], snapshots[k - 1 + 1]);
      assert IsDiff(diffs[k - 1], snapshots[k - 1], snapshots[k - 1 + 1]);
      hide Orderly, IsDiff, Shows, Belong, Carry, OnDiffs;
      SnapshotCarriesMembers(cfg, LiveAfter(cfg, diffs, k - 1), known, snapshots[k - 1], snapshots[k],
                             diffs[k - 1]);
    }
  }
}
