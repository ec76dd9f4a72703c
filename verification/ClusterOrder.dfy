/**
 When the order of the diff entries matters.

 With one chitchat id per node in each snapshot, every order leaves the same live nodes if and only if
 every replacement of a chitchat id by another is safe, which is a matter of the two generations.
 */
module ClusterOrder {
  import opened Wrappers
  import opened SortedDiff
  import opened ClusterChange
  import opened ClusterCarry

  /** One chitchat id per node on both sides, and live nodes that show the known members. */
  ghost predicate Settled(nodes: Nodes, known: Members, prev: NodeStates, new_: NodeStates) {
    OneIdPerNode(prev) && OneIdPerNode(new_) && Belong(known, prev) && Shows(nodes, known, prev)
  }

  ghost predicate SameInEveryOrder(cfg: Config, nodes: Nodes, prev: NodeStates, new_: NodeStates) {
    forall ds, es :: IsDiff(ds, prev, new_) && IsDiff(es, prev, new_)
                     ==> OnDiffs(cfg, nodes, ds).nodes == OnDiffs(cfg, nodes, es).nodes
  }

  lemma SameLookups(a: Nodes, b: Nodes, known: Members, states: NodeStates)
    requires Shows(a, known, states) && Shows(b, known, states)
    ensures a == b
  {
    forall n ensures Lookup(a, n) == Lookup(b, n) {
      assert Lookup(a, n) == MemberOf(known, states, n);
    }
    assert forall n :: n in a <==> Lookup(a, n).Some?;
    assert forall n :: n in b <==> Lookup(b, n).Some?;
    assert forall n :: n in a ==> a[n] == Lookup(a, n).value && b[n] == Lookup(b, n).value;
  }

  lemma SafeOrdersAgree(cfg: Config, nodes: Nodes, known: Members, prev: NodeStates, new_: NodeStates,
                        ds: Diffs, es: Diffs)
    requires Settled(nodes, known, prev, new_) && SafeReplacements(cfg, known, prev, new_)
    requires IsDiff(ds, prev, new_) && IsDiff(es, prev, new_)
    ensures OnDiffs(cfg, nodes, ds).nodes == OnDiffs(cfg, nodes, es).nodes
  {
    hide SafeReplacements, OneIdPerNode, Belong, Shows, IsDiff, OnDiffs, Carry;
    SnapshotCarriesMembers(cfg, nodes, known, prev, new_, ds);
    SnapshotCarriesMembers(cfg, nodes, known, prev, new_, es);
    SameLookups(OnDiffs(cfg, nodes, ds).nodes, OnDiffs(cfg, nodes, es).nodes, Carry(cfg, known, prev, new_), new_);
  }

  /** The two orders of a departure and the join that replaces it, from what the node id holds before. */
  lemma ReplacementOrder(cfg: Config, nodes: Nodes, known: Members, prev: NodeStates, new_: NodeStates,
                         a: ChitchatId, b: ChitchatId)
    requires a in prev && b in new_ && a.nodeId == b.nodeId && Belong(known, prev)
    requires Lookup(nodes, a.nodeId) == MemberFor(known, a)
    ensures Lookup(OnAdded(cfg, OnRemoved(nodes, a).nodes, b, new_[b]).nodes, a.nodeId)
            == Lookup(OnRemoved(OnAdded(cfg, nodes, b, new_[b]).nodes, a).nodes, a.nodeId)
            <==> SafeReplacement(cfg, known, new_, a, b)
  {
  }

  function DiffOf(prev: NodeStates, new_: NodeStates, id: ChitchatId): KeyDiff<ChitchatId, NodeState>
    requires id in prev || id in new_
  {
    if id !in prev then Added(id, new_[id])
    else if id in new_ then Unchanged(id, prev[id], new_[id])
    else Removed(id, prev[id])
  }

  /** The entries of the given ids, each once, in some order. */
  ghost predicate IsPart(ds: Diffs, ids: set<ChitchatId>, prev: NodeStates, new_: NodeStates) {
    && KeysOf(ds) == ids
    && (forall i, j :: 0 <= i < j < |ds| ==> ds[i].key != ds[j].key)
    && (forall i :: 0 <= i < |ds| ==> Describes(ds[i], prev, new_))
  }

  lemma KeysOfAppend(ds: Diffs, d: KeyDiff<ChitchatId, NodeState>)
    ensures KeysOf(ds + [d]) == KeysOf(ds) + {d.key}
  {
    var all := ds + [d];
    assert all[|ds|] == d;
    forall k ensures k in KeysOf(all) <==> k in KeysOf(ds) + {d.key} {
      if k in KeysOf(ds) {
        var i :| 0 <= i < |ds| && ds[i].key == k;
        assert all[i].key == k;
      }
    }
  }

  lemma PartAppend(ds: Diffs, ids: set<ChitchatId>, prev: NodeStates, new_: NodeStates, id: ChitchatId)
    requires IsPart(ds, ids, prev, new_) && id !in ids && id in prev.Keys + new_.Keys
    ensures IsPart(ds + [DiffOf(prev, new_, id)], ids + {id}, prev, new_)
  {
    KeysOfAppend(ds, DiffOf(prev, new_, id));
    assert forall i :: 0 <= i < |ds| ==> ds[i].key in KeysOf(ds);
  }

  lemma WholePartIsDiff(ds: Diffs, prev: NodeStates, new_: NodeStates)
    requires IsPart(ds, prev.Keys + new_.Keys, prev, new_)
    ensures IsDiff(ds, prev, new_)
  {
    forall k | k in prev.Keys + new_.Keys ensures exists i :: 0 <= i < |ds| && ds[i].key == k {
      assert k in KeysOf(ds);
    }
  }

  lemma {:induction false} Enumerate(prev: NodeStates, new_: NodeStates, ids: set<ChitchatId>)
    returns (ds: Diffs)
    requires ids <= prev.Keys + new_.Keys
    ensures IsPart(ds, ids, prev, new_)
    decreases ids
  {
    if ids == {} {
      ds := [];
    } else {
      var id :| id in ids;
      hide IsPart;
      var front := Enumerate(prev, new_, ids - {id});
      PartAppend(front, ids - {id}, prev, new_, id);
      assert ids - {id} + {id} == ids;
      ds := front + [DiffOf(prev, new_, id)];
    }
  }

  /** A diff that ends with the two given entries, whichever comes first. */
  lemma EndsWithPair(prev: NodeStates, new_: NodeStates, front: Diffs, a: ChitchatId, b: ChitchatId)
    requires a != b && a in prev.Keys + new_.Keys && b in prev.Keys + new_.Keys
    requires IsPart(front, prev.Keys + new_.Keys - {a, b}, prev, new_)
    ensures IsDiff(front + [DiffOf(prev, new_, a)] + [DiffOf(prev, new_, b)], prev, new_)
  {
    hide IsPart, IsDiff;
    var all := prev.Keys + new_.Keys;
    PartAppend(front, all - {a, b}, prev, new_, a);
    PartAppend(front + [DiffOf(prev, new_, a)], all - {a, b} + {a}, prev, new_, b);
    assert all - {a, b} + {a} + {b} == all;
    WholePartIsDiff(front + [DiffOf(prev, new_, a)] + [DiffOf(prev, new_, b)], prev, new_);
  }

  lemma {:induction false} FrontUntouched(cfg: Config, nodes: Nodes, ds: Diffs, n: NodeId)
    requires forall i :: 0 <= i < |ds| ==> ds[i].key.nodeId != n
    ensures Lookup(OnDiffs(cfg, nodes, ds).nodes, n) == Lookup(nodes, n)
  {
    hide OnDiff;
    if ds != [] {
      FrontUntouched(cfg, nodes, ds[..|ds| - 1], n);
      OtherNodesUntouched(cfg, OnDiffs(cfg, nodes, ds[..|ds| - 1]).nodes, ds[|ds| - 1], n);
    }
  }

  lemma OnDiffsAppend(cfg: Config, nodes: Nodes, ds: Diffs, d: KeyDiff<ChitchatId, NodeState>)
    ensures OnDiffs(cfg, nodes, ds + [d]).nodes == OnDiff(cfg, OnDiffs(cfg, nodes, ds).nodes, d).nodes
  {
    assert (ds + [d])[..|ds|] == ds;
  }

  /** An unsafe replacement is told apart by two orders of the same diff. */
  lemma UnsafeOrdersDiffer(cfg: Config, nodes: Nodes, known: Members, prev: NodeStates, new_: NodeStates,
                           a: ChitchatId, b: ChitchatId) returns (ds: Diffs, es: Diffs)
    requires Settled(nodes, known, prev, new_)
    requires a in prev && b in new_ && a.nodeId == b.nodeId && a != b
    requires !SafeReplacement(cfg, known, new_, a, b)
    ensures IsDiff(ds, prev, new_) && IsDiff(es, prev, new_)
    ensures Lookup(OnDiffs(cfg, nodes, ds).nodes, a.nodeId) != Lookup(OnDiffs(cfg, nodes, es).nodes, a.nodeId)
  {
    var da, db := DiffOf(prev, new_, a), DiffOf(prev, new_, b);
    assert da == Removed(a, prev[a]) && db == Added(b, new_[b]);
    var front := Enumerate(prev, new_, prev.Keys + new_.Keys - {a, b});
    ds, es := front + [da] + [db], front + [db] + [da];
    EndsWithPair(prev, new_, front, a, b);
    assert {a, b} == {b, a};
    EndsWithPair(prev, new_, front, b, a);
    IdOfUnique(prev, a);
    assert Lookup(nodes, a.nodeId) == MemberOf(known, prev, a.nodeId);
    forall i | 0 <= i < |front| ensures front[i].key.nodeId != a.nodeId {
      assert front[i].key in KeysOf(front);
    }
    hide Settled, SafeReplacement, OnDiffs, OnAdded, OnRemoved, IsDiff, KeysOf;
    FrontUntouched(cfg, nodes, front, a.nodeId);
    var held := OnDiffs(cfg, nodes, front).nodes;
    ReplacementOrder(cfg, held, known, prev, new_, a, b);
    OnDiffsAppend(cfg, nodes, front, da);
    OnDiffsAppend(cfg, nodes, front + [da], db);
    OnDiffsAppend(cfg, nodes, front, db);
    OnDiffsAppend(cfg, nodes, front + [db], da);
  }

  /**
   Every order of the diff entries leaves the same live nodes if and only if every replacement of a
   chitchat id is safe.
   */
  lemma OrderIrrelevantIffSafe(cfg: Config, nodes: Nodes, known: Members, prev: NodeStates, new_: NodeStates)
    requires Settled(nodes, known, prev, new_)
    ensures SameInEveryOrder(cfg, nodes, prev, new_) <==> SafeReplacements(cfg, known, prev, new_)
  {
    if SafeReplacements(cfg, known, prev, new_) {
      hide Settled;
      forall ds, es | IsDiff(ds, prev, new_) && IsDiff(es, prev, new_)
        ensures OnDiffs(cfg, nodes, ds).nodes == OnDiffs(cfg, nodes, es).nodes
      {
        SafeOrdersAgree(cfg, nodes, known, prev, new_, ds, es);
      }
    } else {
      var a, b :| a in prev && b in new_ && a.nodeId == b.nodeId && a != b && !SafeReplacement(cfg, known, new_, a, b);
      hide Settled;
      var ds, es := UnsafeOrdersDiffer(cfg, nodes, known, prev, new_, a, b);
      assert OnDiffs(cfg, nodes, ds).nodes != OnDiffs(cfg, nodes, es).nodes;
    }
  }

  /** When generations always grow, every replacement is safe, whatever is known. */
  lemma GrowingGenerationsAreSafe(cfg: Config, known: Members, prev: NodeStates, new_: NodeStates)
    requires forall a, b :: a in prev && b in new_ && a.nodeId == b.nodeId && a != b ==> a.generation < b.generation
    ensures SafeReplacements(cfg, known, prev, new_)
  {
  }

  /**
   The boundary: when a node comes back under another chitchat id with a generation that is not
   larger, even an equal one, handling the join before the departure loses the node, while the other
   order keeps it.
   */
  lemma RejoinLostInOneOrder(cfg: Config, old_: ChitchatId, back: ChitchatId, st: NodeState)
    requires old_.nodeId == back.nodeId && old_ != back && back.generation <= old_.generation
    requires TryNew(cfg, old_, st).Some?
    ensures var nodes := map[old_.nodeId := TryNew(cfg, old_, st).value];
            && OnDiffs(cfg, nodes, [Added(back, st), Removed(old_, st)]).nodes == map[]
            && OnDiffs(cfg, nodes, [Removed(old_, st), Added(back, st)]).nodes
               == map[old_.nodeId := TryNew(cfg, back, st).value]
  {
    var nodes := map[old_.nodeId := TryNew(cfg, old_, st).value];
    var a, r: KeyDiff<ChitchatId, NodeState> := Added(back, st), Removed(old_, st);
    OnDiffsAppend(cfg, nodes, [], a);
    OnDiffsAppend(cfg, nodes, [a], r);
    OnDiffsAppend(cfg, nodes, [], r);
    OnDiffsAppend(cfg, nodes, [r], a);
    assert [] + [a] == [a] && [] + [r] == [r] && [a] + [r] == [a, r] && [r] + [a] == [r, a];
  }
}
