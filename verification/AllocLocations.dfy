/**
 What the allocation tracker tracks, told from the recorded operations alone.
 */
module AllocLocations {
  import opened Wrappers
  import opened AllocTracker

  /** Which operations of a session found room in the tables. */
  function Accepted(t: Tracker, ops: seq<Op>): seq<bool> {
    seq(|ops|, i requires 0 <= i < |ops| => Accepts(After(t, ops[..i])))
  }

  /**
   What the operations, and which of the allocations found room, say about a pointer: an allocation
   puts something there, a reallocation carries it on, a deallocation takes it away.
   */
  function Tracked(ops: seq<Op>, room: seq<bool>, p: nat): Option<Allocation>
    requires |room| == |ops|
  {
    if ops == [] then None
    else
      var n := |ops| - 1;
      var before := Tracked(ops[..n], room[..n], p);
      match ops[n]
      case Alloc(callsite, size, ptr) => if ptr == p && room[n] then Some(Allocation(callsite, size)) else before
      case Realloc(size, oldPtr, newPtr) =>
        var moved := Tracked(ops[..n], room[..n], oldPtr);
        if moved.None? then before
        else if newPtr == p then Some(Allocation(moved.value.callsite, size))
        else if oldPtr == p then None
        else before
      case Dealloc(ptr) => if ptr == p then None else before
  }

  function Location(t: Tracker, p: nat): Option<Allocation> {
    if p in t.locations then Some(t.locations[p]) else None
  }

  lemma AcceptedPrefix(t: Tracker, ops: seq<Op>)
    requires ops != []
    ensures Accepted(t, ops)[..|ops| - 1] == Accepted(t, ops[..|ops| - 1])
    ensures Accepted(t, ops)[|ops| - 1] == Accepts(After(t, ops[..|ops| - 1]))
  {
    hide Accepts, After;
    var n := |ops| - 1;
    assert forall i :: 0 <= i < n ==> ops[..n][..i] == ops[..i];
  }

  /** What one operation does to what is known of a pointer. */
  lemma ApplyLocation(t: Tracker, op: Op, p: nat)
    requires t.status.Started?
    ensures Location(Apply(t, op), p)
            == match op
               case Alloc(callsite, size, ptr) =>
                 if ptr == p && Accepts(t) then Some(Allocation(callsite, size)) else Location(t, p)
               case Realloc(size, oldPtr, newPtr) =>
                 (if Location(t, oldPtr).None? then Location(t, p)
                  else if newPtr == p then Some(Allocation(Location(t, oldPtr).value.callsite, size))
                  else if oldPtr == p then None
                  else Location(t, p))
               case Dealloc(ptr) => if ptr == p then None else Location(t, p)
  {
    hide Resize, Reported, Grown, Shrunk, Exceeded;
  }

  /** After any session the location table is what the operations say, pointer by pointer. */
  lemma {:induction false} LocationsFollowOperations(t: Tracker, interval: U64, ops: seq<Op>, p: nat)
    ensures Location(After(Init(t, interval), ops), p) == Tracked(ops, Accepted(Init(t, interval), ops), p)
  {
    hide Apply, Accepts;
    var t0 := Init(t, interval);
    if ops != [] {
      var n := |ops| - 1;
      LocationsFollowOperations(t, interval, ops[..n], p);
      if ops[n].Realloc? {
        LocationsFollowOperations(t, interval, ops[..n], ops[n].oldPtr);
      }
      AcceptedPrefix(t0, ops);
      TablesStayWithinMaxima(t, interval, ops[..n]);
      ApplyLocation(After(t0, ops[..n]), ops[n], p);
    }
  }

  // ---------------------------------------------------------------------------
  // The last placement of a pointer

  /** Operation i puts something at p. */
  predicate Places(ops: seq<Op>, room: seq<bool>, i: nat, p: nat)
    requires |room| == |ops| && i < |ops|
  {
    match ops[i]
    case Alloc(_, _, ptr) => ptr == p && room[i]
    case Realloc(_, oldPtr, newPtr) => newPtr == p && Tracked(ops[..i], room[..i], oldPtr).Some?
    case Dealloc(_) => false
  }

  /** Operation i takes p away: it deallocates p, or reallocates p to somewhere else. */
  predicate Removes(ops: seq<Op>, i: nat, p: nat)
    requires i < |ops|
  {
    match ops[i]
    case Alloc(_, _, _) => false
    case Realloc(_, oldPtr, newPtr) => oldPtr == p && newPtr != p
    case Dealloc(ptr) => ptr == p
  }

  /** What operation i put there. */
  function Placed(ops: seq<Op>, room: seq<bool>, i: nat, p: nat): Allocation
    requires |room| == |ops| && i < |ops| && Places(ops, room, i, p)
  {
    match ops[i]
    case Alloc(callsite, size, _) => Allocation(callsite, size)
    case Realloc(size, oldPtr, _) => Allocation(Tracked(ops[..i], room[..i], oldPtr).value.callsite, size)
  }

  /** Operation i is the last to put something at p, and nothing has taken it away since. */
  predicate LastPlaced(ops: seq<Op>, room: seq<bool>, i: nat, p: nat)
    requires |room| == |ops|
  {
    && i < |ops| && Places(ops, room, i, p)
    && forall j :: i < j < |ops| ==> !Places(ops, room, j, p) && !Removes(ops, j, p)
  }

  lemma PrefixPlaces(ops: seq<Op>, room: seq<bool>, n: nat, i: nat, p: nat)
    requires |room| == |ops| && i < n <= |ops|
    ensures Places(ops[..n], room[..n], i, p) <==> Places(ops, room, i, p)
    ensures Removes(ops[..n], i, p) <==> Removes(ops, i, p)
    ensures Places(ops, room, i, p) ==> Placed(ops[..n], room[..n], i, p) == Placed(ops, room, i, p)
  {
    hide Tracked;
    assert ops[..n][..i] == ops[..i] && room[..n][..i] == room[..i];
  }

  lemma LastPlacedPrefix(ops: seq<Op>, room: seq<bool>, i: nat, p: nat)
    requires |room| == |ops| && i < |ops| - 1
    ensures var n := |ops| - 1;
            LastPlaced(ops, room, i, p)
            <==> LastPlaced(ops[..n], room[..n], i, p) && !Places(ops, room, n, p) && !Removes(ops, n, p)
  {
    hide Places, Removes, Tracked;
    var n := |ops| - 1;
    forall j | 0 <= j < n
      ensures Places(ops[..n], room[..n], j, p) <==> Places(ops, room, j, p)
      ensures Removes(ops[..n], j, p) <==> Removes(ops, j, p)
    {
      PrefixPlaces(ops, room, n, j, p);
    }
  }

  /** What is tracked at p is what its last placement put there, if nothing has taken it away since. */
  lemma {:induction false} TrackedFromLastPlacement(ops: seq<Op>, room: seq<bool>, p: nat)
    requires |room| == |ops|
    ensures Tracked(ops, room, p).Some? <==> exists i: nat :: LastPlaced(ops, room, i, p)
    ensures forall i: nat :: LastPlaced(ops, room, i, p) ==> Tracked(ops, room, p) == Some(Placed(ops, room, i, p))
  {
    if ops != [] {
      var n := |ops| - 1;
      TrackedFromLastPlacement(ops[..n], room[..n], p);
      LastStep(ops, room, p);
      if Places(ops, room, n, p) {
        assert LastPlaced(ops, room, n, p);
      }
      hide Places, Removes, Tracked, Placed;
      forall i: nat | i < n
        ensures LastPlaced(ops, room, i, p) <==>
                  LastPlaced(ops[..n], room[..n], i, p) && !Places(ops, room, n, p) && !Removes(ops, n, p)
        ensures LastPlaced(ops, room, i, p) ==> Placed(ops[..n], room[..n], i, p) == Placed(ops, room, i, p)
      {
        LastPlacedPrefix(ops, room, i, p);
        PrefixPlaces(ops, room, n, i, p);
      }
    }
  }

  lemma LastStep(ops: seq<Op>, room: seq<bool>, p: nat)
    requires |room| == |ops| && ops != []
    ensures var n := |ops| - 1;
            && (Places(ops, room, n, p) ==> Tracked(ops, room, p) == Some(Placed(ops, room, n, p)))
            && (!Places(ops, room, n, p) && Removes(ops, n, p) ==> Tracked(ops, room, p).None?)
            && (!Places(ops, room, n, p) && !Removes(ops, n, p) ==>
                  Tracked(ops, room, p) == Tracked(ops[..n], room[..n], p))
  {
  }

  // ---------------------------------------------------------------------------
  // Main results

  /**
   After any session a pointer is tracked if and only if the last operation that put something there
   has not been followed by a deallocation of the pointer or by a reallocation away from it, and then
   with the callsite and size that operation gave.
   */
  lemma TrackedIffNotTakenAway(t: Tracker, interval: U64, ops: seq<Op>, p: nat)
    ensures var room := Accepted(Init(t, interval), ops);
            && (p in After(Init(t, interval), ops).locations <==> exists i: nat :: LastPlaced(ops, room, i, p))
            && (forall i: nat :: LastPlaced(ops, room, i, p)
                                 ==> Location(After(Init(t, interval), ops), p) == Some(Placed(ops, room, i, p)))
  {
    hide After, LastPlaced, Placed;
    LocationsFollowOperations(t, interval, ops, p);
    TrackedFromLastPlacement(ops, Accepted(Init(t, interval), ops), p);
  }

  /** A stopped tracker, a full one, and operations on pointers that are not tracked change nothing. */
  lemma NothingChanges(t: Tracker, op: Op)
    requires t.status.Stopped? || (op.Alloc? && !Accepts(t)) || (op.Realloc? && op.oldPtr !in t.locations)
             || (op.Dealloc? && op.ptr !in t.locations)
    ensures Apply(t, op) == t
  {
  }

  /** An allocation that is not recorded is told why: which table is at its maximum, if any. */
  lemma RefusalsAreExplained(t: Tracker, callsite: U64, size: U64, ptr: nat)
    ensures var response := RecordAllocation(t, callsite, size, ptr).1;
            && (response.NotStarted? <==> t.status.Stopped?)
            && (response.TrackerFull? <==> t.status.Started? && !Accepts(t))
            && (response.TrackerFull? ==>
                  if response.table == "memory_locations" then |t.locations| == t.maxLocations
                  else |t.stats| == t.maxCallsites)
  {
  }

  /** With every pointer freed nothing is left, in either table. */
  lemma EverythingFreed(t: Tracker, interval: U64, ops: seq<Op>)
    requires AllFit(Init(t, interval), ops)
    requires forall i :: 0 <= i < |ops| ==> Clean(Init(t, interval), ops, i)
    requires forall p, i: nat :: !LastPlaced(ops, Accepted(Init(t, interval), ops), i, p)
    ensures After(Init(t, interval), ops).locations == map[] && After(Init(t, interval), ops).stats == map[]
  {
    var now := After(Init(t, interval), ops);
    hide After, LastPlaced;
    forall p: nat ensures p !in now.locations {
      TrackedIffNotTakenAway(t, interval, ops, p);
    }
    assert now.locations.Keys == {};
    ConsistentIffNeverOverwritten(t, interval, ops);
    forall c: U64 ensures c !in now.stats {
      assert Tallies(now, c);
      assert |now.locations| == 0;
    }
    assert now.stats.Keys == {};
  }
}
