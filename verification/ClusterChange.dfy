/**
 Incremental maintenance of the live nodes of a cluster: `quickwit-cluster/src/change.rs`.

 Each new snapshot of chitchat node states is diffed against the previous one. The handlers here turn
 one entry of that diff into an update of the map of live nodes and into events about ready nodes.
 gRPC channels are left out: nodes are compared by their member data.
 */
module ClusterChange {
  import opened Wrappers
  import opened SortedDiff

  type NodeId = string
  type SocketAddr = nat

  datatype ChitchatId = ChitchatId(nodeId: NodeId, generation: nat, gossipAddr: SocketAddr)

  datatype NodeState = NodeState(maxVersion: nat, keyValues: map<string, string>)

  type NodeStates = map<ChitchatId, NodeState>

  /** The other member fields are functions of the key-value pairs. */
  datatype ClusterNode = ClusterNode(
    id: ChitchatId,
    isReady: bool,
    isSelf: bool,
    grpcAddr: SocketAddr,
    keyValues: map<string, string>)

  /** Live nodes by node id. */
  type Nodes = map<NodeId, ClusterNode>

  datatype Change = Add(node: ClusterNode) | Update(previous: ClusterNode, updated: ClusterNode)
                  | Remove(node: ClusterNode)

  /** The node this process runs on, and the parser of socket addresses. */
  datatype Config = Config(selfId: ChitchatId, parseAddr: string -> Option<SocketAddr>)

  const GRPC_ADVERTISE_ADDR_KEY := "grpc_advertise_addr"
  const ENABLED_SERVICES_KEY := "enabled_services"
  const READINESS_KEY := "readiness"
  const READINESS_VALUE_READY := "READY"

  /** `ClusterNode::try_new`: fails without enabled services or a valid gRPC address. */
  function TryNew(cfg: Config, id: ChitchatId, state: NodeState): Option<ClusterNode> {
    var kv := state.keyValues;
    if ENABLED_SERVICES_KEY !in kv || GRPC_ADVERTISE_ADDR_KEY !in kv then None
    else
      match cfg.parseAddr(kv[GRPC_ADVERTISE_ADDR_KEY])
      case None => None
      case Some(addr) =>
        var ready := READINESS_KEY in kv && kv[READINESS_KEY] == READINESS_VALUE_READY;
        Some(ClusterNode(id, ready, id == cfg.selfId, addr, kv))
  }

  // ---------------------------------------------------------------------------
  // The handlers

  /** What a handler leaves behind: the live nodes and the events to publish. */
  datatype Outcome = Outcome(nodes: Nodes, events: seq<Change>)

  /** compute_cluster_change_events_on_added */
  function OnAdded(cfg: Config, nodes: Nodes, id: ChitchatId, state: NodeState): Outcome {
    var n := id.nodeId;
    if n in nodes && nodes[n].id.generation > id.generation then Outcome(nodes, [])
    else
      match TryNew(cfg, id, state)
      case None => Outcome(nodes - {n}, Farewell(nodes, n))
      case Some(node) =>
        Outcome(nodes[n := node], Farewell(nodes, n) + (if node.isReady then [Add(node)] else []))
  }

  /** The event for the node that a rejoining one replaces. */
  function Farewell(nodes: Nodes, n: NodeId): seq<Change> {
    if n in nodes && nodes[n].isReady then [Remove(nodes[n])] else []
  }

  /** compute_cluster_change_events_on_updated */
  function OnUpdated(cfg: Config, nodes: Nodes, id: ChitchatId, state: NodeState): Outcome {
    var n := id.nodeId;
    if n !in nodes || nodes[n].id.generation > id.generation then Outcome(nodes, [])
    else
      var previous := nodes[n];
      match TryNew(cfg, id, state)
      case None => Outcome(nodes, [])
      case Some(updated) =>
        var events :=
          if !previous.isReady && updated.isReady then [Add(updated)]
          else if previous.isReady && !updated.isReady then [Remove(updated)]
          else if previous.isReady && updated.isReady then [Update(previous, updated)]
          else [];
        Outcome(nodes[n := updated], events)
  }

  /** compute_cluster_change_events_on_removed */
  function OnRemoved(nodes: Nodes, id: ChitchatId): Outcome {
    var n := id.nodeId;
    if n in nodes && nodes[n].id.generation == id.generation then
      Outcome(nodes - {n}, if nodes[n].isReady then [Remove(nodes[n])] else [])
    else Outcome(nodes, [])
  }

  /** One turn of the loop of compute_cluster_change_events. */
  function OnDiff(cfg: Config, nodes: Nodes, d: KeyDiff<ChitchatId, NodeState>): Outcome {
    match d
    case Added(id, state) => OnAdded(cfg, nodes, id, state)
    case Unchanged(id, before, after) =>
      if before.maxVersion != after.maxVersion then OnUpdated(cfg, nodes, id, after)
      else Outcome(nodes, [])
    case Removed(id, _) => OnRemoved(nodes, id)
  }

  /** The whole loop. */
  function OnDiffs(cfg: Config, nodes: Nodes, ds: seq<KeyDiff<ChitchatId, NodeState>>): Outcome {
    if ds == [] then Outcome(nodes, [])
    else
      var first := OnDiffs(cfg, nodes, ds[..|ds| - 1]);
      var last := OnDiff(cfg, first.nodes, ds[|ds| - 1]);
      Outcome(last.nodes, first.events + last.events)
  }

  // ---------------------------------------------------------------------------
  // What a subscriber makes of the events

  /** The ready nodes among the live ones. */
  function Ready(nodes: Nodes): Nodes {
    map n | n in nodes && nodes[n].isReady :: nodes[n]
  }

  function Replay1(view: Nodes, e: Change): Nodes {
    match e
    case Add(node) => view[node.id.nodeId := node]
    case Update(_, updated) => view[updated.id.nodeId := updated]
    case Remove(node) => view - {node.id.nodeId}
  }

  /** Folding events by node id. */
  function Replay(view: Nodes, events: seq<Change>): Nodes {
    if events == [] then view else Replay1(Replay(view, events[..|events| - 1]), events[|events| - 1])
  }

  /** The event fits what the subscriber knows: it adds an unknown node, or touches a known one. */
  predicate Fits(view: Nodes, e: Change) {
    match e
    case Add(node) => node.id.nodeId !in view && node.isReady
    case Update(previous, updated) =>
      && previous.id.nodeId in view && view[previous.id.nodeId] == previous
      && updated.id.nodeId == previous.id.nodeId && updated.isReady
    case Remove(node) =>
      node.id.nodeId in view && (node.isReady ==> view[node.id.nodeId] == node)
  }

  /**
   Per node id the events read Add, Update*, Remove. Each Update names as `previous` the node last
   published under that id; a Remove carries that node, or one that is no longer ready.
   */
  predicate Alternates(view: Nodes, events: seq<Change>) {
    forall i :: 0 <= i < |events| ==> Fits(Replay(view, events[..i]), events[i])
  }

  /** Node ids and the nodes stored under them agree. */
  predicate Keyed(nodes: Nodes) {
    forall n :: n in nodes ==> nodes[n].id.nodeId == n
  }

  lemma {:induction false} ReplayConcat(view: Nodes, a: seq<Change>, b: seq<Change>)
    ensures Replay(view, a + b) == Replay(Replay(view, a), b)
  {
    if b == [] {
      assert a + b == a;
    } else {
      assert (a + b)[..|a + b| - 1] == a + b[..|b| - 1];
      ReplayConcat(view, a, b[..|b| - 1]);
    }
  }

  lemma AlternatesConcat(view: Nodes, a: seq<Change>, b: seq<Change>)
    requires Alternates(view, a) && Alternates(Replay(view, a), b)
    ensures Alternates(view, a + b)
  {
    forall i | 0 <= i < |a + b| ensures Fits(Replay(view, (a + b)[..i]), (a + b)[i]) {
      if i < |a| {
        assert (a + b)[..i] == a[..i];
      } else {
        assert (a + b)[..i] == a + b[..i - |a|];
        ReplayConcat(view, a, b[..i - |a|]);
      }
    }
  }

  /** A handler keeps the ready view of every subscriber in step with the live nodes. */
  ghost predicate Published(nodes: Nodes, o: Outcome) {
    && Keyed(o.nodes)
    && Alternates(Ready(nodes), o.events)
    && Replay(Ready(nodes), o.events) == Ready(o.nodes)
  }

  lemma OneEvent(view: Nodes, e: Change)
    requires Fits(view, e)
    ensures Alternates(view, [e]) && Replay(view, [e]) == Replay1(view, e)
  {
    assert [e][..0] == [];
  }

  lemma OnRemovedPublishes(nodes: Nodes, id: ChitchatId)
    requires Keyed(nodes)
    ensures Published(nodes, OnRemoved(nodes, id))
  {
    var o := OnRemoved(nodes, id);
    if o.events != [] {
      OneEvent(Ready(nodes), o.events[0]);
    }
  }

  lemma OnUpdatedPublishes(cfg: Config, nodes: Nodes, id: ChitchatId, state: NodeState)
    requires Keyed(nodes)
    ensures Published(nodes, OnUpdated(cfg, nodes, id, state))
  {
    var o := OnUpdated(cfg, nodes, id, state);
    if o.events != [] {
      OneEvent(Ready(nodes), o.events[0]);
    }
  }

  lemma FarewellPublishes(nodes: Nodes, n: NodeId)
    requires Keyed(nodes)
    ensures Alternates(Ready(nodes), Farewell(nodes, n))
    ensures Replay(Ready(nodes), Farewell(nodes, n)) == Ready(nodes) - {n} == Ready(nodes - {n})
  {
    if Farewell(nodes, n) != [] {
      OneEvent(Ready(nodes), Remove(nodes[n]));
    }
    assert Ready(nodes) - {n} == Ready(nodes - {n});
  }

  lemma ReplacePublishes(nodes: Nodes, node: ClusterNode)
    requires Keyed(nodes)
    ensures var n := node.id.nodeId;
            Published(nodes, Outcome(nodes[n := node],
                                     Farewell(nodes, n) + (if node.isReady then [Add(node)] else [])))
  {
    hide Alternates;
    var n := node.id.nodeId;
    var view, gone := Ready(nodes), Farewell(nodes, n);
    FarewellPublishes(nodes, n);
    if node.isReady {
      OneEvent(view - {n}, Add(node));
      ReplayConcat(view, gone, [Add(node)]);
      AlternatesConcat(view, gone, [Add(node)]);
      assert Ready(nodes[n := node]) == (view - {n})[n := node];
    } else {
      assert gone + [] == gone;
      assert Ready(nodes[n := node]) == view - {n};
    }
  }

  lemma OnAddedPublishes(cfg: Config, nodes: Nodes, id: ChitchatId, state: NodeState)
    requires Keyed(nodes)
    ensures Published(nodes, OnAdded(cfg, nodes, id, state))
  {
    hide Alternates;
    FarewellPublishes(nodes, id.nodeId);
    var node := TryNew(cfg, id, state);
    if node.Some? {
      ReplacePublishes(nodes, node.value);
    }
    NoEvent(Ready(nodes));
  }

  lemma NoEvent(view: Nodes)
    ensures Alternates(view, []) && Replay(view, []) == view
  {
  }

  lemma OnDiffPublishes(cfg: Config, nodes: Nodes, d: KeyDiff<ChitchatId, NodeState>)
    requires Keyed(nodes)
    ensures Published(nodes, OnDiff(cfg, nodes, d))
  {
    match d
    case Added(id, state) => OnAddedPublishes(cfg, nodes, id, state);
    case Unchanged(id, _, after) => OnUpdatedPublishes(cfg, nodes, id, after);
    case Removed(id, _) => OnRemovedPublishes(nodes, id);
  }

  /**
   What a Remove carries: the live node as it was, when it leaves or is replaced; the live node as it is
   now, when it is no longer ready.
   */
  lemma RemoveCarries(cfg: Config, nodes: Nodes, d: KeyDiff<ChitchatId, NodeState>, node: ClusterNode)
    requires Keyed(nodes) && Remove(node) in OnDiff(cfg, nodes, d).events
    ensures node.id.nodeId == d.key.nodeId && d.key.nodeId in nodes && nodes[d.key.nodeId].isReady
    ensures d.Unchanged? ==> !node.isReady && d.key.nodeId in OnDiff(cfg, nodes, d).nodes
                             && node == OnDiff(cfg, nodes, d).nodes[d.key.nodeId]
    ensures !d.Unchanged? ==> node == nodes[d.key.nodeId]
  {
  }

  /**
   Whatever the entries of a diff and the order they come in, replaying its events over the ready
   nodes gives the new ready nodes, and per node id the events alternate properly.
   */
  lemma {:induction false} OnDiffsPublishes(cfg: Config, nodes: Nodes,
                                            ds: seq<KeyDiff<ChitchatId, NodeState>>)
    requires Keyed(nodes)
    ensures Published(nodes, OnDiffs(cfg, nodes, ds))
  {
    if ds != [] {
      var first := OnDiffs(cfg, nodes, ds[..|ds| - 1]);
      OnDiffsPublishes(cfg, nodes, ds[..|ds| - 1]);
      OnDiffPublishes(cfg, first.nodes, ds[|ds| - 1]);
      var last := OnDiff(cfg, first.nodes, ds[|ds| - 1]);
      ReplayConcat(Ready(nodes), first.events, last.events);
      AlternatesConcat(Ready(nodes), first.events, last.events);
    }
  }

  // ---------------------------------------------------------------------------
  // Generations

  /** Joins, updates and removals from an older generation change neither the map nor the stream. */
  lemma OlderGenerationIgnored(cfg: Config, nodes: Nodes, d: KeyDiff<ChitchatId, NodeState>)
    requires d.key.nodeId in nodes && nodes[d.key.nodeId].id.generation > d.key.generation
    ensures OnDiff(cfg, nodes, d) == Outcome(nodes, [])
  {
  }

  /** While an id stays among the live nodes its generation never decreases. */
  lemma GenerationNeverDecreases(cfg: Config, nodes: Nodes, d: KeyDiff<ChitchatId, NodeState>, n: NodeId)
    requires Keyed(nodes) && n in nodes && n in OnDiff(cfg, nodes, d).nodes
    ensures nodes[n].id.generation <= OnDiff(cfg, nodes, d).nodes[n].id.generation
  {
  }

  /**
   Over any stretch of a run, a sequence of diff entries from any number of snapshots: as long as an
   id stays among the live nodes its generation never decreases.
   */
  lemma {:induction false} GenerationGrowsWhileLive(cfg: Config, nodes: Nodes,
                                                    ds: seq<KeyDiff<ChitchatId, NodeState>>, n: NodeId)
    requires Keyed(nodes)
    requires forall k :: 0 <= k <= |ds| ==> n in OnDiffs(cfg, nodes, ds[..k]).nodes
    ensures n in nodes && n in OnDiffs(cfg, nodes, ds).nodes
    ensures nodes[n].id.generation <= OnDiffs(cfg, nodes, ds).nodes[n].id.generation
  {
    assert ds[..0] == [] && ds[..|ds|] == ds;
    assert n in OnDiffs(cfg, nodes, ds[..0]).nodes && n in OnDiffs(cfg, nodes, ds[..|ds|]).nodes;
    if ds != [] {
      var front := ds[..|ds| - 1];
      forall k | 0 <= k <= |front| ensures n in OnDiffs(cfg, nodes, front[..k]).nodes {
        assert front[..k] == ds[..k];
      }
      GenerationGrowsWhileLive(cfg, nodes, front, n);
      OnDiffsPublishes(cfg, nodes, front);
      GenerationNeverDecreases(cfg, OnDiffs(cfg, nodes, front).nodes, ds[|ds| - 1], n);
    }
  }
}
