/**
 The change-stream task and its subscribers: `spawn_change_stream_task`, `change_stream` and
 `change_stream_with_initial` of `quickwit-cluster/src/cluster.rs`.

 Snapshots and subscriptions are serialised by the write lock of the cluster. Subscribers may join
 at any time and may close their end at any time.
 */
module ClusterStream {
  import opened Wrappers
  import opened SortedDiff
  import opened ClusterChange

  type Diffs = seq<KeyDiff<ChitchatId, NodeState>>

  /**
   A subscriber: the ready nodes it was handed when it subscribed, the events sent to it since,
   whether it still holds the receiving end, and whether the cluster still has the sending end.
   */
  datatype Subscriber = Subscriber(
    initial: Nodes,
    received: seq<Change>,
    open: bool,
    subscribed: bool)

  datatype World = World(live: Nodes, states: NodeStates, subscribers: seq<Subscriber>)

  datatype Action =
    | Snapshot(states: NodeStates, diffs: Diffs)
    | ChangeStream(order: seq<NodeId>, open: bool)
    | ChangeStreamWithInitial
    | Close(i: nat)

  predicate Init(w: World) {
    w == World(map[], map[], [])
  }

  /** The keys of a map in some order, each once. */
  ghost predicate Enumerates(order: seq<NodeId>, nodes: Nodes) {
    && (forall i :: 0 <= i < |order| ==> order[i] in nodes)
    && (forall i, j :: 0 <= i < j < |order| ==> order[i] != order[j])
    && (forall n :: n in nodes ==> n in order)
  }

  ghost predicate Enabled(w: World, a: Action) {
    match a
    case Snapshot(states, diffs) => IsDiff(diffs, w.states, states)
    case ChangeStream(order, _) => Enumerates(order, Ready(w.live))
    case ChangeStreamWithInitial => true
    case Close(i) => i < |w.subscribers|
  }

  /** `retain`: an open subscriber gets all the events, a closed one is dropped. */
  function Deliver(s: Subscriber, events: seq<Change>): Subscriber {
    if !s.subscribed then s
    else if s.open then s.(received := s.received + events)
    else s.(subscribed := false)
  }

  function Broadcast(subscribers: seq<Subscriber>, events: seq<Change>): seq<Subscriber> {
    if events == [] then subscribers
    else seq(|subscribers|, i requires 0 <= i < |subscribers| => Deliver(subscribers[i], events))
  }

  /** The `Add` events that replay the ready nodes to a new subscriber. */
  function Adds(nodes: Nodes, order: seq<NodeId>): seq<Change>
    requires forall i :: 0 <= i < |order| ==> order[i] in nodes
  {
    seq(|order|, i requires 0 <= i < |order| => Add(nodes[order[i]]))
  }

  ghost function Apply(cfg: Config, w: World, a: Action): World
    requires Enabled(w, a)
  {
    match a
    case Snapshot(states, diffs) =>
      var o := OnDiffs(cfg, w.live, diffs);
      World(o.nodes, states, Broadcast(w.subscribers, o.events))
    case ChangeStream(order, open) =>
      // Sending to a receiver that is already gone panics before anything is subscribed.
      if !open && order != [] then w
      else
        w.(subscribers := w.subscribers
                          + [Subscriber(map[], Adds(Ready(w.live), order), open, true)])
    case ChangeStreamWithInitial =>
      w.(subscribers := w.subscribers + [Subscriber(Ready(w.live), [], true, true)])
    case Close(i) =>
      w.(subscribers := w.subscribers[i := w.subscribers[i].(open := false)])
  }

  ghost predicate Next(cfg: Config, w: World, w': World) {
    exists a :: Enabled(w, a) && w' == Apply(cfg, w, a)
  }

  ghost predicate Behavior(cfg: Config, run: seq<World>) {
    && |run| > 0
    && Init(run[0])
    && forall i :: 0 <= i < |run| - 1 ==> Next(cfg, run[i], run[i + 1])
  }

  // ---------------------------------------------------------------------------
  // The invariant

  /** A subscriber that listens sees exactly the ready nodes, through properly alternating events. */
  ghost predicate InStep(live: Nodes, s: Subscriber) {
    && Alternates(s.initial, s.received)
    && (s.open ==> s.subscribed && Replay(s.initial, s.received) == Ready(live))
  }

  ghost predicate Inv(w: World) {
    && Keyed(w.live)
    && forall i :: 0 <= i < |w.subscribers| ==> InStep(w.live, w.subscribers[i])
  }

  lemma DeliverKeepsInStep(live: Nodes, o: Outcome, s: Subscriber)
    requires InStep(live, s) && Published(live, o) && o.events != []
    ensures InStep(o.nodes, Deliver(s, o.events))
  {
    if s.open {
      ReplayConcat(s.initial, s.received, o.events);
      AlternatesConcat(s.initial, s.received, o.events);
    }
  }

  lemma SnapshotKeepsInv(cfg: Config, w: World, a: Action)
    requires Inv(w) && Enabled(w, a) && a.Snapshot?
    ensures Inv(Apply(cfg, w, a))
  {
    var w' := Apply(cfg, w, a);
    var o := OnDiffs(cfg, w.live, a.diffs);
    OnDiffsPublishes(cfg, w.live, a.diffs);
    forall i | 0 <= i < |w'.subscribers| ensures InStep(w'.live, w'.subscribers[i]) {
      if o.events == [] {
        assert Ready(w'.live) == Ready(w.live);
      } else {
        DeliverKeepsInStep(w.live, o, w.subscribers[i]);
      }
    }
  }

  lemma FreshInOrder(nodes: Nodes, order: seq<NodeId>, k: nat)
    requires Enumerates(order, nodes) && k < |order|
    ensures order[k] !in order[..k]
  {
  }

  lemma PrefixView(nodes: Nodes, order: seq<NodeId>, k: nat)
    requires 0 < k <= |order| && order[k - 1] in nodes
    ensures (map n | n in nodes && n in order[..k] :: nodes[n])
            == (map n | n in nodes && n in order[..k - 1] :: nodes[n])[order[k - 1] := nodes[order[k - 1]]]
  {
    assert order[..k] == order[..k - 1] + [order[k - 1]];
  }

  /** Replaying the first `k` of the `Add` events. */
  lemma {:induction false} AddsReplay(nodes: Nodes, order: seq<NodeId>, k: nat)
    requires Enumerates(order, nodes) && Keyed(nodes) && k <= |order|
    requires forall n :: n in nodes ==> nodes[n].isReady
    ensures Alternates(map[], Adds(nodes, order)[..k])
    ensures Replay(map[], Adds(nodes, order)[..k])
            == map n | n in nodes && n in order[..k] :: nodes[n]
  {
    hide Alternates;
    var adds := Adds(nodes, order);
    if k == 0 {
      NoEvent(map[]);
    } else {
      AddsReplay(nodes, order, k - 1);
      assert adds[..k][..k - 1] == adds[..k - 1];
      assert adds[..k] == adds[..k - 1] + [adds[k - 1]];
      PrefixView(nodes, order, k);
      var view := Replay(map[], adds[..k - 1]);
      FreshInOrder(nodes, order, k - 1);
      OneEvent(view, adds[k - 1]);
      AlternatesConcat(map[], adds[..k - 1], [adds[k - 1]]);
    }
  }

  lemma SubscribeKeepsInv(cfg: Config, w: World, a: Action)
    requires Inv(w) && Enabled(w, a) && (a.ChangeStream? || a.ChangeStreamWithInitial?)
    ensures Inv(Apply(cfg, w, a))
  {
    if a.ChangeStream? {
      var ready := Ready(w.live);
      var adds := Adds(ready, a.order);
      AddsReplay(ready, a.order, |a.order|);
      assert adds[..|adds|] == adds && a.order[..|a.order|] == a.order;
      assert (map n | n in ready && n in a.order :: ready[n]) == ready;
    }
  }

  lemma ApplyKeepsInv(cfg: Config, w: World, a: Action)
    requires Inv(w) && Enabled(w, a)
    ensures Inv(Apply(cfg, w, a))
  {
    match a
    case Snapshot(_, _) => SnapshotKeepsInv(cfg, w, a);
    case Close(_) =>
    case _ => SubscribeKeepsInv(cfg, w, a);
  }

  lemma {:induction false} InvAlways(cfg: Config, run: seq<World>, n: nat)
    requires Behavior(cfg, run) && n < |run|
    ensures Inv(run[n])
  {
    hide Enabled, Apply, InStep;
    if n > 0 {
      InvAlways(cfg, run, n - 1);
      assert Next(cfg, run[n - 1], run[n - 1 + 1]);
      var a :| Enabled(run[n - 1], a) && run[n] == Apply(cfg, run[n - 1], a);
      ApplyKeepsInv(cfg, run[n - 1], a);
    }
  }

  // ---------------------------------------------------------------------------
  // Main results, over every run

  /**
   For every run of snapshots and every subscriber, whenever and however it joined: folding what it
   was handed and what it received by node id gives exactly the ready subset of the live nodes.
   */
  lemma SubscriberSeesReadyNodes(cfg: Config, run: seq<World>, n: nat, i: nat)
    requires Behavior(cfg, run) && n < |run|
    requires i < |run[n].subscribers| && run[n].subscribers[i].open
    ensures Replay(run[n].subscribers[i].initial, run[n].subscribers[i].received)
            == Ready(run[n].live)
  {
    InvAlways(cfg, run, n);
  }

  /**
   For every subscriber the events for each node id alternate as Add, Update*, Remove, and each Update
   names the node last published.
   */
  lemma SubscriberEventsAlternate(cfg: Config, run: seq<World>, n: nat, i: nat, k: nat)
    requires Behavior(cfg, run) && n < |run| && i < |run[n].subscribers|
    requires k < |run[n].subscribers[i].received|
    ensures var s := run[n].subscribers[i];
            Fits(Replay(s.initial, s.received[..k]), s.received[k])
  {
    InvAlways(cfg, run, n);
  }

  lemma ClosedStep(cfg: Config, w: World, a: Action, i: nat)
    requires Enabled(w, a) && i < |w.subscribers| && !w.subscribers[i].open
    ensures var w' := Apply(cfg, w, a);
            && i < |w'.subscribers| && !w'.subscribers[i].open
            && w'.subscribers[i].received == w.subscribers[i].received
            && (!w.subscribers[i].subscribed ==> !w'.subscribers[i].subscribed)
            && (a.Snapshot? && OnDiffs(cfg, w.live, a.diffs).events != [] ==> !w'.subscribers[i].subscribed)
  {
  }

  /** A subscriber that has closed its end is sent nothing more. */
  lemma {:induction false} ClosedReceivesNothing(cfg: Config, run: seq<World>, m: nat, n: nat, i: nat)
    requires Behavior(cfg, run) && m <= n < |run| && i < |run[m].subscribers| && !run[m].subscribers[i].open
    ensures i < |run[n].subscribers| && !run[n].subscribers[i].open
    ensures run[n].subscribers[i].received == run[m].subscribers[i].received
  {
    hide Enabled, Apply;
    if m < n {
      ClosedReceivesNothing(cfg, run, m, n - 1, i);
      assert Next(cfg, run[n - 1], run[n - 1 + 1]);
      var a :| Enabled(run[n - 1], a) && run[n] == Apply(cfg, run[n - 1], a);
      ClosedStep(cfg, run[n - 1], a, i);
    }
  }

  /** The first snapshot with something to publish forgets the subscribers that have closed, and only those. */
  lemma OnlyClosedAreForgotten(cfg: Config, run: seq<World>, n: nat, a: Action, i: nat)
    requires Behavior(cfg, run) && n < |run| && Enabled(run[n], a) && i < |run[n].subscribers|
    requires a.Snapshot? && OnDiffs(cfg, run[n].live, a.diffs).events != []
    ensures i < |Apply(cfg, run[n], a).subscribers|
    ensures Apply(cfg, run[n], a).subscribers[i].subscribed <==> run[n].subscribers[i].open
  {
    InvAlways(cfg, run, n);
    if !run[n].subscribers[i].open {
      ClosedStep(cfg, run[n], a, i);
    } else {
      assert InStep(run[n].live, run[n].subscribers[i]);
    }
  }

  // ---------------------------------------------------------------------------
  // The change-stream loop and the subscriptions as the source performs them

  class Cluster {
    const cfg: Config
    var liveNodes: Nodes
    var previousStates: NodeStates
    var subscribers: seq<Subscriber>

    constructor (cfg: Config)
      ensures this.cfg == cfg && View() == World(map[], map[], [])
    {
      this.cfg := cfg;
      liveNodes, previousStates, subscribers := map[], map[], [];
    }

    ghost function View(): World
      reads this
    {
      World(liveNodes, previousStates, subscribers)
    }

    method OnAddedNode(id: ChitchatId, state: NodeState) returns (events: seq<Change>)
      modifies this`liveNodes
      ensures Outcome(liveNodes, events) == OnAdded(cfg, old(liveNodes), id, state)
    {
      events := [];
      if id.nodeId in liveNodes {
        var previousNode := liveNodes[id.nodeId];
        if previousNode.id.generation > id.generation {
          return;
        }
        liveNodes := liveNodes - {id.nodeId};
        if previousNode.isReady {
          events := events + [Remove(previousNode)];
        }
      }
      assert liveNodes == old(liveNodes) - {id.nodeId};
      var newNode := TryNew(cfg, id, state);
      if newNode.None? {
        return;
      }
      liveNodes := liveNodes[id.nodeId := newNode.value];
      assert liveNodes == old(liveNodes)[id.nodeId := newNode.value];
      if newNode.value.isReady {
        events := events + [Add(newNode.value)];
      }
    }

    method OnUpdatedNode(id: ChitchatId, state: NodeState) returns (events: seq<Change>)
      modifies this`liveNodes
      ensures Outcome(liveNodes, events) == OnUpdated(cfg, old(liveNodes), id, state)
    {
      events := [];
      if id.nodeId !in liveNodes {
        return;
      }
      var previousNode := liveNodes[id.nodeId];
      if previousNode.id.generation > id.generation {
        return;
      }
      var updatedNode := TryNew(cfg, id, state);
      if updatedNode.None? {
        return;
      }
      var updated := updatedNode.value;
      liveNodes := liveNodes[id.nodeId := updated];
      if !previousNode.isReady && updated.isReady {
        events := [Add(updated)];
      } else if previousNode.isReady && !updated.isReady {
        events := [Remove(updated)];
      } else if previousNode.isReady && updated.isReady {
        events := [Update(previousNode, updated)];
      }
    }

    method OnRemovedNode(id: ChitchatId) returns (events: seq<Change>)
      modifies this`liveNodes
      ensures Outcome(liveNodes, events) == OnRemoved(old(liveNodes), id)
    {
      events := [];
      if id.nodeId in liveNodes {
        var previousNode := liveNodes[id.nodeId];
        if previousNode.id.generation == id.generation {
          liveNodes := liveNodes - {id.nodeId};
          if previousNode.isReady {
            events := [Remove(previousNode)];
          }
        }
      }
    }

    /** compute_cluster_change_events: the loop over the diff. */
    method ComputeClusterChangeEvents(diffs: Diffs) returns (events: seq<Change>)
      modifies this`liveNodes
      ensures Outcome(liveNodes, events) == OnDiffs(cfg, old(liveNodes), diffs)
    {
      events := [];
      for i := 0 to |diffs|
        invariant Outcome(liveNodes, events) == OnDiffs(cfg, old(liveNodes), diffs[..i])
      {
        var nodeEvents := [];
        match diffs[i] {
          case Added(id, state) => nodeEvents := OnAddedNode(id, state);
          case Unchanged(id, before, after) =>
            if before.maxVersion != after.maxVersion {
              nodeEvents := OnUpdatedNode(id, after);
            }
          case Removed(id, _) => nodeEvents := OnRemovedNode(id);
        }
        events := events + nodeEvents;
        assert diffs[..i + 1][..i] == diffs[..i];
      }
      assert diffs[..|diffs|] == diffs;
    }

    /** One turn of the change-stream task. */
    method ProcessSnapshot(states: NodeStates, diffs: Diffs)
      requires IsDiff(diffs, previousStates, states)
      modifies this
      ensures View() == Apply(cfg, old(View()), Snapshot(states, diffs))
    {
      var events := ComputeClusterChangeEvents(diffs);
      if events != [] {
        var retained := [];
        for i := 0 to |subscribers|
          invariant |retained| == i
          invariant forall j :: 0 <= j < i ==> retained[j] == Deliver(subscribers[j], events)
        {
          retained := retained + [Deliver(subscribers[i], events)];
        }
        subscribers := retained;
      }
      previousStates := states;
    }

    /** change_stream, run under the lock; `order` is the key order of the live nodes. */
    method SubscribeWithReplay(order: seq<NodeId>)
      requires Enumerates(order, Ready(liveNodes))
      modifies this`subscribers
      ensures View() == Apply(cfg, old(View()), ChangeStream(order, true))
    {
      var sent := [];
      for i := 0 to |order|
        invariant sent == Adds(Ready(liveNodes), order)[..i]
      {
        sent := sent + [Add(liveNodes[order[i]])];
      }
      assert sent == Adds(Ready(liveNodes), order);
      subscribers := subscribers + [Subscriber(map[], sent, true, true)];
    }

    /** change_stream_with_initial */
    method SubscribeWithInitial() returns (initial: Nodes)
      modifies this`subscribers
      ensures initial == Ready(liveNodes)
      ensures View() == Apply(cfg, old(View()), ChangeStreamWithInitial)
    {
      initial := Ready(liveNodes);
      subscribers := subscribers + [Subscriber(initial, [], true, true)];
    }
  }
}
