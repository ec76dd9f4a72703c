/**
 The heap profiler's allocation tracker: a table of tracked memory locations and a table of
 statistics per callsite, kept in step by the three record operations.
 */
module AllocTracker {
  import opened Wrappers

  const TWO_63 := 0x8000_0000_0000_0000
  const TWO_64 := 0x1_0000_0000_0000_0000

  type U64 = n: nat | n < TWO_64

  // ---------------------------------------------------------------------------
  // Machine arithmetic

  function AddU64(a: U64, b: U64): U64 {
    (a + b) % TWO_64
  }

  function SaturatingSub(a: U64, b: U64): U64 {
    if b <= a then a - b else 0
  }

  /** The two's complement reading of a 64-bit word. */
  function ToI64(x: int): int {
    var word := x % TWO_64;
    if word < TWO_63 then word else word - TWO_64
  }

  /** `(size as i64 + (new as i64 - old as i64)) as u64` */
  function Resize(size: U64, old_: U64, new_: U64): U64 {
    var delta := ToI64(ToI64(new_) - ToI64(old_));
    ToI64(ToI64(size) + delta) % TWO_64
  }

  /** Signed arithmetic is exact as long as the totals stay below 2^63. */
  lemma ResizeExact(size: U64, old_: U64, new_: U64)
    requires old_ <= size < TWO_63 && size - old_ + new_ < TWO_63
    ensures Resize(size, old_, new_) == size - old_ + new_
  {
    assert ToI64(size) == size && ToI64(old_) == old_ && ToI64(new_) == new_;
    var delta := new_ - old_;
    assert -TWO_63 < delta < TWO_63;
    assert ToI64(delta) == delta by { SmallToI64(delta); }
    assert ToI64(size + delta) == size + delta;
  }

  lemma SmallToI64(x: int)
    requires -TWO_63 <= x < TWO_63
    ensures ToI64(x) == x
  {
    if x < 0 {
      assert x % TWO_64 == x + TWO_64;
    }
  }

  // ---------------------------------------------------------------------------
  // The tables

  datatype Allocation = Allocation(callsite: U64, size: U64)

  datatype AllocStat = AllocStat(count: U64, size: U64, lastReport: U64)

  datatype Status = Started(interval: U64) | Stopped

  datatype Tracker = Tracker(
    locations: map<nat, Allocation>,
    maxLocations: nat,
    stats: map<U64, AllocStat>,
    maxCallsites: nat,
    status: Status)

  datatype AllocResponse =
    | ThresholdExceeded(stat: AllocStat)
    | ThresholdNotExceeded
    | TrackerFull(table: string)
    | NotStarted

  datatype ReallocResponse =
    | ReallocExceeded(stat: AllocStat, callsite: U64)
    | ReallocNotExceeded
    | ReallocNotStarted

  predicate Exceeded(stat: AllocStat, interval: U64) {
    stat.size >= AddU64(stat.lastReport, interval)
  }

  function Reported(stat: AllocStat, interval: U64): AllocStat {
    if Exceeded(stat, interval) then stat.(lastReport := stat.size) else stat
  }

  function Init(t: Tracker, interval: U64): Tracker {
    t.(locations := map[], stats := map[], status := Started(interval))
  }

  function Grown(stats: map<U64, AllocStat>, callsite: U64, size: U64): AllocStat {
    if callsite in stats
    then AllocStat(AddU64(stats[callsite].count, 1), AddU64(stats[callsite].size, size), stats[callsite].lastReport)
    else AllocStat(1, size, 0)
  }

  predicate Accepts(t: Tracker) {
    t.status.Started? && |t.locations| != t.maxLocations && |t.stats| != t.maxCallsites
  }

  function RecordAllocation(t: Tracker, callsite: U64, size: U64, ptr: nat): (Tracker, AllocResponse) {
    if t.status.Stopped? then (t, NotStarted)
    else if t.maxLocations == |t.locations| then (t, TrackerFull("memory_locations"))
    else if t.maxCallsites == |t.stats| then (t, TrackerFull("tracked_callsites"))
    else
      var stat := Grown(t.stats, callsite, size);
      (t.(locations := t.locations[ptr := Allocation(callsite, size)],
          stats := t.stats[callsite := Reported(stat, t.status.interval)]),
       if Exceeded(stat, t.status.interval) then ThresholdExceeded(stat) else ThresholdNotExceeded)
  }

  function Moved(locations: map<nat, Allocation>, size: U64, oldPtr: nat, newPtr: nat): map<nat, Allocation>
    requires oldPtr in locations
  {
    (locations - {oldPtr})[newPtr := Allocation(locations[oldPtr].callsite, size)]
  }

  function RecordReallocation(t: Tracker, size: U64, oldPtr: nat, newPtr: nat): (Tracker, ReallocResponse) {
    if t.status.Stopped? then (t, ReallocNotStarted)
    else if oldPtr !in t.locations then (t, ReallocNotExceeded)
    else
      var was := t.locations[oldPtr];
      var moved := t.(locations := Moved(t.locations, size, oldPtr, newPtr));
      if was.callsite !in t.stats then (moved, ReallocNotExceeded)
      else
        var stat := t.stats[was.callsite].(size := Resize(t.stats[was.callsite].size, was.size, size));
        (moved.(stats := t.stats[was.callsite := Reported(stat, t.status.interval)]),
         if Exceeded(stat, t.status.interval) then ReallocExceeded(stat, was.callsite) else ReallocNotExceeded)
  }

  function Shrunk(stat: AllocStat, size: U64): AllocStat {
    AllocStat(SaturatingSub(stat.count, 1), SaturatingSub(stat.size, size), stat.lastReport)
  }

  function RecordDeallocation(t: Tracker, ptr: nat): Tracker {
    if t.status.Stopped? || ptr !in t.locations then t
    else
      var was := t.locations[ptr];
      var removed := t.(locations := t.locations - {ptr});
      if was.callsite !in t.stats then removed
      else
        var stat := Shrunk(t.stats[was.callsite], was.size);
        if stat.count == 0 then removed.(stats := t.stats - {was.callsite})
        else removed.(stats := t.stats[was.callsite := stat])
  }

  // ---------------------------------------------------------------------------
  // Sessions: everything recorded since the last `init`

  datatype Op =
    | Alloc(callsite: U64, size: U64, ptr: nat)
    | Realloc(size: U64, oldPtr: nat, newPtr: nat)
    | Dealloc(ptr: nat)

  function Apply(t: Tracker, op: Op): Tracker {
    match op
    case Alloc(callsite, size, ptr) => RecordAllocation(t, callsite, size, ptr).0
    case Realloc(size, oldPtr, newPtr) => RecordReallocation(t, size, oldPtr, newPtr).0
    case Dealloc(ptr) => RecordDeallocation(t, ptr)
  }

  function After(t: Tracker, ops: seq<Op>): Tracker {
    if ops == [] then t else Apply(After(t, ops[..|ops| - 1]), ops[|ops| - 1])
  }

  /** The tracked location that the operation records over, if any. */
  function Overwritten(t: Tracker, op: Op): Option<Allocation> {
    match op
    case Alloc(_, _, ptr) =>
      if Accepts(t) && ptr in t.locations then Some(t.locations[ptr]) else None
    case Realloc(_, oldPtr, newPtr) =>
      if t.status.Started? && oldPtr in t.locations && newPtr != oldPtr && newPtr in t.locations
      then Some(t.locations[newPtr]) else None
    case Dealloc(_) => None
  }

  /** The operation keeps the total of its callsite below 2^63 and its count within 64 bits. */
  predicate Fits(t: Tracker, op: Op) {
    match op
    case Alloc(callsite, size, _) =>
      size < TWO_63
      && (callsite in t.stats ==>
            t.stats[callsite].size + size < TWO_63 && t.stats[callsite].count + 1 < TWO_64)
    case Realloc(size, oldPtr, _) =>
      oldPtr in t.locations && t.locations[oldPtr].callsite in t.stats ==>
        t.stats[t.locations[oldPtr].callsite].size - t.locations[oldPtr].size + size < TWO_63
    case Dealloc(_) => true
  }

  predicate AllFit(t: Tracker, ops: seq<Op>) {
    forall i :: 0 <= i < |ops| ==> Fits(After(t, ops[..i]), ops[i])
  }

  // ---------------------------------------------------------------------------
  // What the locations amount to, per callsite

  datatype Measure = Count | Bytes

  function Weight(a: Allocation, m: Measure, callsite: U64): nat {
    if a.callsite != callsite then 0 else if m.Count? then 1 else a.size
  }

  ghost function Pick(locations: map<nat, Allocation>): (p: nat)
    requires |locations| != 0
    ensures p in locations
  {
    var p :| p in locations;
    p
  }

  ghost function Usage(locations: map<nat, Allocation>, m: Measure, callsite: U64): nat
    decreases |locations|
  {
    if |locations| == 0 then 0
    else
      var p := Pick(locations);
      assert |locations - {p}| < |locations| by { RemoveShrinks(locations, p); }
      Usage(locations - {p}, m, callsite) + Weight(locations[p], m, callsite)
  }

  lemma RemoveShrinks(locations: map<nat, Allocation>, p: nat)
    requires p in locations
    ensures |locations - {p}| == |locations| - 1
  {
    assert (locations - {p}).Keys == locations.Keys - {p};
  }

  lemma {:induction false} UsageRemove(locations: map<nat, Allocation>, m: Measure, callsite: U64, p: nat)
    requires p in locations
    ensures Usage(locations, m, callsite)
            == Usage(locations - {p}, m, callsite) + Weight(locations[p], m, callsite)
    decreases |locations|
  {
    var q := Pick(locations);
    if q != p {
      RemoveShrinks(locations, q);
      RemoveShrinks(locations, p);
      UsageRemove(locations - {q}, m, callsite, p);
      UsageRemove(locations - {p}, m, callsite, q);
      assert locations - {q} - {p} == locations - {p} - {q};
    }
  }

  lemma UsageInsert(locations: map<nat, Allocation>, m: Measure, callsite: U64, p: nat, a: Allocation)
    requires p !in locations
    ensures Usage(locations[p := a], m, callsite) == Usage(locations, m, callsite) + Weight(a, m, callsite)
  {
    UsageRemove(locations[p := a], m, callsite, p);
    assert locations[p := a] - {p} == locations;
  }

  function Located(locations: map<nat, Allocation>, callsite: U64): set<nat> {
    set p | p in locations && locations[p].callsite == callsite
  }

  /** Counted usage is the number of tracked locations of the callsite. */
  lemma {:induction false} UsageCounts(locations: map<nat, Allocation>, callsite: U64)
    ensures Usage(locations, Count, callsite) == |Located(locations, callsite)|
    decreases |locations|
  {
    if |locations| != 0 {
      var q := Pick(locations);
      RemoveShrinks(locations, q);
      UsageCounts(locations - {q}, callsite);
      assert Located(locations - {q}, callsite) == Located(locations, callsite) - {q};
      if q !in Located(locations, callsite) {
        assert Located(locations - {q}, callsite) == Located(locations, callsite);
      }
    }
  }

  function LostUse(lost: seq<Allocation>, m: Measure, callsite: U64): nat {
    if lost == [] then 0
    else LostUse(lost[..|lost| - 1], m, callsite) + Weight(lost[|lost| - 1], m, callsite)
  }

  // ---------------------------------------------------------------------------
  // The accounting invariant, with the locations recorded over kept on the side

  predicate Matches(stats: map<U64, AllocStat>, callsite: U64, count: nat, size: nat) {
    && (callsite in stats <==> count > 0)
    && (callsite in stats ==> stats[callsite].count == count && stats[callsite].size == size)
  }

  ghost function Due(t: Tracker, lost: seq<Allocation>, m: Measure, callsite: U64): nat {
    Usage(t.locations, m, callsite) + LostUse(lost, m, callsite)
  }

  ghost predicate Settled(t: Tracker, lost: seq<Allocation>, callsite: U64) {
    Matches(t.stats, callsite, Due(t, lost, Count, callsite), Due(t, lost, Bytes, callsite))
  }

  ghost predicate Accounts(t: Tracker, lost: seq<Allocation>) {
    forall callsite: U64 :: Settled(t, lost, callsite)
  }

  predicate Small(t: Tracker) {
    forall callsite :: callsite in t.stats ==> t.stats[callsite].size < TWO_63
  }

  lemma {:induction false} EmptyUse(locations: map<nat, Allocation>, callsite: U64)
    ensures Usage(locations, Count, callsite) == 0 ==> Usage(locations, Bytes, callsite) == 0
    decreases |locations|
  {
    if |locations| != 0 {
      var p := Pick(locations);
      RemoveShrinks(locations, p);
      EmptyUse(locations - {p}, callsite);
    }
  }

  lemma {:induction false} EmptyLost(lost: seq<Allocation>, callsite: U64)
    ensures LostUse(lost, Count, callsite) == 0 ==> LostUse(lost, Bytes, callsite) == 0
  {
    if lost != [] { EmptyLost(lost[..|lost| - 1], callsite); }
  }

  lemma EmptyDue(t: Tracker, lost: seq<Allocation>, callsite: U64)
    ensures Due(t, lost, Count, callsite) == 0 ==> Due(t, lost, Bytes, callsite) == 0
  {
    EmptyUse(t.locations, callsite);
    EmptyLost(lost, callsite);
  }

  lemma LostAppend(lost: seq<Allocation>, a: Allocation, m: Measure, callsite: U64)
    ensures LostUse(lost + [a], m, callsite) == LostUse(lost, m, callsite) + Weight(a, m, callsite)
  {
    assert (lost + [a])[..|lost|] == lost;
  }

  /** Inserting at a tracked location moves the old allocation to the lost ones. */
  lemma DueAfterInsert(t: Tracker, lost: seq<Allocation>, p: nat, a: Allocation, m: Measure, callsite: U64)
    ensures Due(t.(locations := t.locations[p := a]),
                lost + (if p in t.locations then [t.locations[p]] else []), m, callsite)
            == Due(t, lost, m, callsite) + Weight(a, m, callsite)
  {
    hide Usage, LostUse, Weight;
    if p in t.locations {
      var rest := t.locations - {p};
      UsageRemove(t.locations, m, callsite, p);
      UsageInsert(rest, m, callsite, p, a);
      assert rest[p := a] == t.locations[p := a];
      LostAppend(lost, t.locations[p], m, callsite);
    } else {
      UsageInsert(t.locations, m, callsite, p, a);
      assert lost + [] == lost;
    }
  }

  lemma DueAfterRemove(t: Tracker, lost: seq<Allocation>, p: nat, m: Measure, callsite: U64)
    requires p in t.locations
    ensures Due(t, lost, m, callsite)
            == Due(t.(locations := t.locations - {p}), lost, m, callsite) + Weight(t.locations[p], m, callsite)
  {
    UsageRemove(t.locations, m, callsite, p);
  }

  lemma DueDependsOnLocations(t: Tracker, u: Tracker, lost: seq<Allocation>, m: Measure, callsite: U64)
    requires t.locations == u.locations
    ensures Due(t, lost, m, callsite) == Due(u, lost, m, callsite)
  {
  }

  // ---------------------------------------------------------------------------
  // Every operation keeps the accounts

  function LostBy(t: Tracker, op: Op): seq<Allocation> {
    Overwritten(t, op).ToSeq()
  }

  lemma AllocKeepsAccounts(t: Tracker, lost: seq<Allocation>, callsite: U64, size: U64, ptr: nat)
    requires Accounts(t, lost) && Fits(t, Alloc(callsite, size, ptr))
    ensures var op := Alloc(callsite, size, ptr); Accounts(Apply(t, op), lost + LostBy(t, op))
  {
    hide Due;
    var op := Alloc(callsite, size, ptr);
    var t' := Apply(t, op);
    if Accepts(t) {
      var a := Allocation(callsite, size);
      forall c: U64 ensures Settled(t', lost + LostBy(t, op), c) {
        forall m: Measure ensures Due(t', lost + LostBy(t, op), m, c) == Due(t, lost, m, c) + Weight(a, m, c) {
          DueAfterInsert(t, lost, ptr, a, m, c);
          DueDependsOnLocations(t', t.(locations := t.locations[ptr := a]), lost + LostBy(t, op), m, c);
        }
        EmptyDue(t, lost, c);
        assert Settled(t, lost, c);
      }
    } else {
      assert lost + [] == lost;
    }
  }

  /** A tracked location's callsite has an entry that covers it. */
  lemma EntryCovers(t: Tracker, lost: seq<Allocation>, p: nat)
    requires Accounts(t, lost) && p in t.locations
    ensures var a := t.locations[p];
            a.callsite in t.stats && t.stats[a.callsite].count >= 1 && t.stats[a.callsite].size >= a.size
  {
    var a := t.locations[p];
    DueAfterRemove(t, lost, p, Count, a.callsite);
    DueAfterRemove(t, lost, p, Bytes, a.callsite);
    assert Settled(t, lost, a.callsite);
  }

  lemma DeallocKeepsAccounts(t: Tracker, lost: seq<Allocation>, ptr: nat)
    requires Accounts(t, lost)
    ensures Accounts(Apply(t, Dealloc(ptr)), lost)
  {
    hide Due;
    var t' := Apply(t, Dealloc(ptr));
    if t.status.Started? && ptr in t.locations {
      EntryCovers(t, lost, ptr);
      forall c: U64 ensures Settled(t', lost, c) {
        forall m: Measure ensures Due(t, lost, m, c) == Due(t', lost, m, c) + Weight(t.locations[ptr], m, c) {
          DueAfterRemove(t, lost, ptr, m, c);
          DueDependsOnLocations(t', t.(locations := t.locations - {ptr}), lost, m, c);
        }
        assert Settled(t, lost, c);
      }
    }
  }

  lemma DueAfterMove(t: Tracker, lost: seq<Allocation>, size: U64, oldPtr: nat, newPtr: nat,
                     m: Measure, callsite: U64)
    requires oldPtr in t.locations && t.status.Started?
    ensures var was := t.locations[oldPtr];
            Due(t, lost, m, callsite) + Weight(Allocation(was.callsite, size), m, callsite)
            == Due(t.(locations := Moved(t.locations, size, oldPtr, newPtr)),
                   lost + LostBy(t, Realloc(size, oldPtr, newPtr)), m, callsite) + Weight(was, m, callsite)
  {
    var was := t.locations[oldPtr];
    var removed := t.(locations := t.locations - {oldPtr});
    DueAfterRemove(t, lost, oldPtr, m, callsite);
    DueAfterInsert(removed, lost, newPtr, Allocation(was.callsite, size), m, callsite);
  }

  lemma ReallocKeepsAccounts(t: Tracker, lost: seq<Allocation>, size: U64, oldPtr: nat, newPtr: nat)
    requires Accounts(t, lost) && Small(t) && Fits(t, Realloc(size, oldPtr, newPtr))
    ensures var op := Realloc(size, oldPtr, newPtr); Accounts(Apply(t, op), lost + LostBy(t, op))
  {
    hide Due, Resize;
    var op := Realloc(size, oldPtr, newPtr);
    var t' := Apply(t, op);
    if t.status.Started? && oldPtr in t.locations {
      var was := t.locations[oldPtr];
      EntryCovers(t, lost, oldPtr);
      ResizeExact(t.stats[was.callsite].size, was.size, size);
      forall c: U64 ensures Settled(t', lost + LostBy(t, op), c) {
        forall m: Measure
          ensures Due(t, lost, m, c) + Weight(Allocation(was.callsite, size), m, c)
                  == Due(t', lost + LostBy(t, op), m, c) + Weight(was, m, c)
        {
          DueAfterMove(t, lost, size, oldPtr, newPtr, m, c);
          DueDependsOnLocations(
            t', t.(locations := Moved(t.locations, size, oldPtr, newPtr)), lost + LostBy(t, op), m, c);
        }
        assert Settled(t, lost, c);
      }
    } else {
      assert lost + [] == lost;
    }
  }

  lemma ApplyKeepsAccounts(t: Tracker, lost: seq<Allocation>, op: Op)
    requires Accounts(t, lost) && Small(t) && Fits(t, op)
    ensures Accounts(Apply(t, op), lost + LostBy(t, op))
  {
    hide Accounts, Fits, Small, Apply;
    match op
    case Alloc(callsite, size, ptr) => AllocKeepsAccounts(t, lost, callsite, size, ptr);
    case Realloc(size, oldPtr, newPtr) => ReallocKeepsAccounts(t, lost, size, oldPtr, newPtr);
    case Dealloc(ptr) =>
      DeallocKeepsAccounts(t, lost, ptr);
      assert lost + [] == lost;
  }

  lemma ApplyKeepsSmall(t: Tracker, lost: seq<Allocation>, op: Op)
    requires Accounts(t, lost) && Small(t) && Fits(t, op)
    ensures Small(Apply(t, op))
  {
    hide Resize, Accounts;
    match op
    case Alloc(_, _, _) =>
    case Realloc(size, oldPtr, _) =>
      if t.status.Started? && oldPtr in t.locations {
        var was := t.locations[oldPtr];
        EntryCovers(t, lost, oldPtr);
        ResizeExact(t.stats[was.callsite].size, was.size, size);
      }
    case Dealloc(_) =>
  }

  // ---------------------------------------------------------------------------
  // Whole sessions

  /** Everything recorded over in the course of the operations. */
  function Lost(t: Tracker, ops: seq<Op>): seq<Allocation> {
    if ops == [] then []
    else Lost(t, ops[..|ops| - 1]) + LostBy(After(t, ops[..|ops| - 1]), ops[|ops| - 1])
  }

  lemma AllFitPrefix(t: Tracker, ops: seq<Op>, n: nat)
    requires AllFit(t, ops) && n <= |ops|
    ensures AllFit(t, ops[..n])
  {
    forall i | 0 <= i < n ensures Fits(After(t, ops[..n][..i]), ops[..n][i]) {
      assert ops[..n][..i] == ops[..i];
      assert Fits(After(t, ops[..i]), ops[i]);
    }
  }

  lemma {:induction false} SessionAccounts(t: Tracker, interval: U64, ops: seq<Op>)
    requires AllFit(Init(t, interval), ops)
    ensures Accounts(After(Init(t, interval), ops), Lost(Init(t, interval), ops))
    ensures Small(After(Init(t, interval), ops))
  {
    hide Apply, LostBy, Fits;
    var t0 := Init(t, interval);
    if ops != [] {
      var n := |ops| - 1;
      AllFitPrefix(t0, ops, n);
      SessionAccounts(t, interval, ops[..n]);
      assert Fits(After(t0, ops[..n]), ops[n]);
      ApplyKeepsAccounts(After(t0, ops[..n]), Lost(t0, ops[..n]), ops[n]);
      ApplyKeepsSmall(After(t0, ops[..n]), Lost(t0, ops[..n]), ops[n]);
    }
  }

  ghost predicate Tallies(t: Tracker, callsite: U64) {
    Matches(t.stats, callsite, Usage(t.locations, Count, callsite), Usage(t.locations, Bytes, callsite))
  }

  /** Each callsite entry is the number and sum of the callsite's tracked locations. */
  ghost predicate Consistent(t: Tracker) {
    forall callsite: U64 :: Tallies(t, callsite)
  }

  predicate Clean(t: Tracker, ops: seq<Op>, i: nat)
    requires i < |ops|
  {
    Overwritten(After(t, ops[..i]), ops[i]).None?
  }

  predicate AllClean(t: Tracker, ops: seq<Op>, n: nat)
    requires n <= |ops|
  {
    forall i :: 0 <= i < n ==> Clean(t, ops, i)
  }

  lemma CleanPrefix(t: Tracker, ops: seq<Op>, n: nat)
    requires n <= |ops|
    ensures AllClean(t, ops[..n], n) <==> AllClean(t, ops, n)
  {
    hide Overwritten, After;
    assert forall i :: 0 <= i < n ==> ops[..n][..i] == ops[..i];
    assert forall i :: 0 <= i < n ==> (Clean(t, ops[..n], i) <==> Clean(t, ops, i));
  }

  lemma LostStep(t: Tracker, ops: seq<Op>)
    requires ops != []
    ensures Lost(t, ops) == [] <==> Lost(t, ops[..|ops| - 1]) == [] && Clean(t, ops, |ops| - 1)
  {
    hide Overwritten, After;
  }

  lemma {:induction false} LostNothing(t: Tracker, ops: seq<Op>)
    ensures Lost(t, ops) == [] <==> AllClean(t, ops, |ops|)
  {
    if ops != [] {
      var n := |ops| - 1;
      LostStep(t, ops);
      hide Lost, Clean;
      LostNothing(t, ops[..n]);
      CleanPrefix(t, ops, n);
    }
  }

  lemma ConsistentIffNothingLost(t: Tracker, lost: seq<Allocation>)
    requires Accounts(t, lost)
    ensures Consistent(t) <==> lost == []
  {
    if lost == [] {
      forall c: U64 ensures Tallies(t, c) {
        assert Settled(t, lost, c);
      }
    } else {
      var c := lost[|lost| - 1].callsite;
      assert Settled(t, lost, c);
      assert LostUse(lost, Count, c) >= 1;
      assert !Tallies(t, c);
    }
  }

  // ---------------------------------------------------------------------------
  // Main results

  /**
   After any session the statistics are exactly the counts and sums over the tracked locations, if
   and only if no operation of the session recorded over a location that was still tracked.
   */
  lemma ConsistentIffNeverOverwritten(t: Tracker, interval: U64, ops: seq<Op>)
    requires AllFit(Init(t, interval), ops)
    ensures Consistent(After(Init(t, interval), ops))
            <==> forall i :: 0 <= i < |ops| ==> Clean(Init(t, interval), ops, i)
  {
    var t0 := Init(t, interval);
    SessionAccounts(t, interval, ops);
    ConsistentIffNothingLost(After(t0, ops), Lost(t0, ops));
    LostNothing(t0, ops);
  }

  /** Overwritten or not, no tracked location is without an entry and no subtraction saturates. */
  lemma NeverSaturates(t: Tracker, interval: U64, ops: seq<Op>, p: nat)
    requires AllFit(Init(t, interval), ops) && p in After(Init(t, interval), ops).locations
    ensures var now := After(Init(t, interval), ops);
            var a := now.locations[p];
            && a.callsite in now.stats
            && SaturatingSub(now.stats[a.callsite].count, 1) == now.stats[a.callsite].count - 1
            && SaturatingSub(now.stats[a.callsite].size, a.size) == now.stats[a.callsite].size - a.size
  {
    SessionAccounts(t, interval, ops);
    EntryCovers(After(Init(t, interval), ops), Lost(Init(t, interval), ops), p);
  }

  predicate WithinMaxima(t: Tracker) {
    |t.locations| <= t.maxLocations && |t.stats| <= t.maxCallsites
  }

  lemma UpdateSize<K, V>(m: map<K, V>, k: K, v: V)
    ensures |m[k := v]| == if k in m then |m| else |m| + 1
  {
    assert m[k := v].Keys == m.Keys + {k};
  }

  lemma RemoveSize<K, V>(m: map<K, V>, k: K)
    ensures |m - {k}| == if k in m then |m| - 1 else |m|
  {
    assert (m - {k}).Keys == m.Keys - {k};
    if k !in m { assert m.Keys - {k} == m.Keys; }
  }

  predicate SameLimits(t: Tracker, u: Tracker) {
    t.maxLocations == u.maxLocations && t.maxCallsites == u.maxCallsites && t.status == u.status
  }

  lemma AllocKeepsMaxima(t: Tracker, callsite: U64, size: U64, ptr: nat)
    requires WithinMaxima(t)
    ensures var t' := RecordAllocation(t, callsite, size, ptr).0; WithinMaxima(t') && SameLimits(t, t')
  {
    hide Reported, Grown, Exceeded;
    if Accepts(t) {
      UpdateSize(t.locations, ptr, Allocation(callsite, size));
      UpdateSize(t.stats, callsite, Reported(Grown(t.stats, callsite, size), t.status.interval));
    }
  }

  lemma ReallocKeepsMaxima(t: Tracker, size: U64, oldPtr: nat, newPtr: nat)
    requires WithinMaxima(t)
    ensures var t' := RecordReallocation(t, size, oldPtr, newPtr).0; WithinMaxima(t') && SameLimits(t, t')
  {
    hide Resize, Reported, Exceeded;
    if t.status.Started? && oldPtr in t.locations {
      var was := t.locations[oldPtr];
      RemoveSize(t.locations, oldPtr);
      UpdateSize(t.locations - {oldPtr}, newPtr, Allocation(was.callsite, size));
      if was.callsite in t.stats {
        var stat := t.stats[was.callsite].(size := Resize(t.stats[was.callsite].size, was.size, size));
        UpdateSize(t.stats, was.callsite, Reported(stat, t.status.interval));
      }
    }
  }

  lemma DeallocKeepsMaxima(t: Tracker, ptr: nat)
    requires WithinMaxima(t)
    ensures var t' := RecordDeallocation(t, ptr); WithinMaxima(t') && SameLimits(t, t')
  {
    hide Shrunk;
    if t.status.Started? && ptr in t.locations {
      var was := t.locations[ptr];
      RemoveSize(t.locations, ptr);
      RemoveSize(t.stats, was.callsite);
      if was.callsite in t.stats {
        UpdateSize(t.stats, was.callsite, Shrunk(t.stats[was.callsite], was.size));
      }
    }
  }

  lemma ApplyKeepsMaxima(t: Tracker, op: Op)
    requires WithinMaxima(t)
    ensures WithinMaxima(Apply(t, op)) && SameLimits(t, Apply(t, op))
  {
    hide RecordAllocation, RecordReallocation, RecordDeallocation, WithinMaxima;
    match op
    case Alloc(callsite, size, ptr) => AllocKeepsMaxima(t, callsite, size, ptr);
    case Realloc(size, oldPtr, newPtr) => ReallocKeepsMaxima(t, size, oldPtr, newPtr);
    case Dealloc(ptr) => DeallocKeepsMaxima(t, ptr);
  }

  /** Neither table ever outgrows its maximum, whatever the operations. */
  lemma {:induction false} TablesStayWithinMaxima(t: Tracker, interval: U64, ops: seq<Op>)
    ensures var now := After(Init(t, interval), ops);
            && |now.locations| <= t.maxLocations && |now.stats| <= t.maxCallsites
            && now.maxLocations == t.maxLocations && now.maxCallsites == t.maxCallsites
            && now.status == Started(interval)
  {
    hide Apply;
    if ops != [] {
      TablesStayWithinMaxima(t, interval, ops[..|ops| - 1]);
      ApplyKeepsMaxima(After(Init(t, interval), ops[..|ops| - 1]), ops[|ops| - 1]);
    }
  }

  /** The total is not a whole interval above its last report. */
  predicate UpToDate(stat: AllocStat, interval: U64) {
    && stat.lastReport < TWO_63
    && stat.size <= stat.lastReport + interval
    && (interval > 0 ==> stat.size < stat.lastReport + interval)
  }

  predicate ReportedUpTo(t: Tracker, interval: U64) {
    forall callsite :: callsite in t.stats ==> UpToDate(t.stats[callsite], interval)
  }

  lemma ReportBringsUpToDate(stat: AllocStat, interval: U64)
    requires stat.size < TWO_63 && stat.lastReport < TWO_63 && interval < TWO_63
    ensures UpToDate(Reported(stat, interval), interval)
  {
  }

  lemma AllocKeepsReported(t: Tracker, callsite: U64, size: U64, ptr: nat)
    requires Fits(t, Alloc(callsite, size, ptr))
    requires t.status.Started? && t.status.interval < TWO_63 && ReportedUpTo(t, t.status.interval)
    ensures ReportedUpTo(RecordAllocation(t, callsite, size, ptr).0, t.status.interval)
  {
    ReportBringsUpToDate(Grown(t.stats, callsite, size), t.status.interval);
    hide UpToDate, Reported, Grown, Exceeded;
  }

  lemma ReallocKeepsReported(t: Tracker, lost: seq<Allocation>, size: U64, oldPtr: nat, newPtr: nat)
    requires Accounts(t, lost) && Small(t) && Fits(t, Realloc(size, oldPtr, newPtr))
    requires t.status.Started? && t.status.interval < TWO_63 && ReportedUpTo(t, t.status.interval)
    ensures ReportedUpTo(RecordReallocation(t, size, oldPtr, newPtr).0, t.status.interval)
  {
    hide Resize, Accounts, Reported, Exceeded;
    if oldPtr in t.locations {
      var was := t.locations[oldPtr];
      EntryCovers(t, lost, oldPtr);
      var entry := t.stats[was.callsite];
      ResizeExact(entry.size, was.size, size);
      ReportBringsUpToDate(entry.(size := Resize(entry.size, was.size, size)), t.status.interval);
    }
  }

  lemma ApplyKeepsReported(t: Tracker, lost: seq<Allocation>, op: Op)
    requires Accounts(t, lost) && Small(t) && Fits(t, op)
    requires t.status.Started? && t.status.interval < TWO_63 && ReportedUpTo(t, t.status.interval)
    ensures ReportedUpTo(Apply(t, op), t.status.interval)
  {
    hide RecordAllocation, RecordReallocation, Accounts, Small, Fits;
    match op
    case Alloc(callsite, size, ptr) => AllocKeepsReported(t, callsite, size, ptr);
    case Realloc(size, oldPtr, newPtr) => ReallocKeepsReported(t, lost, size, oldPtr, newPtr);
    case Dealloc(ptr) =>
  }

  /**
   Each time the total of a callsite reaches its last report plus the interval it is reported: at no
   point of a session is a total left at or above that mark.
   */
  lemma {:induction false} TotalsReportedEveryInterval(t: Tracker, interval: U64, ops: seq<Op>)
    requires AllFit(Init(t, interval), ops) && interval < TWO_63
    ensures ReportedUpTo(After(Init(t, interval), ops), interval)
  {
    hide Apply, Fits, Accounts, Small, ReportedUpTo;
    var t0 := Init(t, interval);
    if ops == [] {
      assert ReportedUpTo(t0, interval) by { NothingToReport(t, interval); }
    } else {
      var n := |ops| - 1;
      AllFitPrefix(t0, ops, n);
      TotalsReportedEveryInterval(t, interval, ops[..n]);
      SessionAccounts(t, interval, ops[..n]);
      TablesStayWithinMaxima(t, interval, ops[..n]);
      assert Fits(After(t0, ops[..n]), ops[n]);
      ApplyKeepsReported(After(t0, ops[..n]), Lost(t0, ops[..n]), ops[n]);
    }
  }

  lemma NothingToReport(t: Tracker, interval: U64)
    ensures ReportedUpTo(Init(t, interval), interval)
  {
  }

  function LastReport(t: Tracker, callsite: U64): U64 {
    if callsite in t.stats then t.stats[callsite].lastReport else 0
  }

  /**
   An allocation is reported exactly when the bytes now tracked for its callsite reach the last report
   plus the interval. The report carries the number and sum of the tracked locations, and that sum is
   the next allocation's last report.
   */
  lemma AllocationReports(t: Tracker, callsite: U64, size: U64, ptr: nat)
    requires Consistent(t) && Fits(t, Alloc(callsite, size, ptr)) && Accepts(t) && ptr !in t.locations
    requires t.status.interval < TWO_63 && ReportedUpTo(t, t.status.interval)
    ensures var (t', response) := RecordAllocation(t, callsite, size, ptr);
            var count, total := Usage(t'.locations, Count, callsite), Usage(t'.locations, Bytes, callsite);
            if total >= LastReport(t, callsite) + t.status.interval
            then response.ThresholdExceeded? && LastReport(t', callsite) == total
                 && (response.stat.count, response.stat.size, response.stat.lastReport)
                    == (count, total, LastReport(t, callsite))
            else response.ThresholdNotExceeded? && LastReport(t', callsite) == LastReport(t, callsite)
  {
    hide Usage;
    ConsistentAccounts(t);
    AllocKeepsAccounts(t, [], callsite, size, ptr);
    var t' := Apply(t, Alloc(callsite, size, ptr));
    assert [] + LostBy(t, Alloc(callsite, size, ptr)) == [];
    AccountsConsistent(t');
    assert Tallies(t', callsite);
  }

  /** The same for a reallocation, whose callsite is the one its location was allocated from. */
  lemma ReallocationReports(t: Tracker, size: U64, oldPtr: nat, newPtr: nat)
    requires Consistent(t) && Small(t) && Fits(t, Realloc(size, oldPtr, newPtr)) && t.status.Started?
    requires oldPtr in t.locations && (newPtr != oldPtr ==> newPtr !in t.locations)
    requires t.status.interval < TWO_63 && ReportedUpTo(t, t.status.interval)
    ensures var (t', response) := RecordReallocation(t, size, oldPtr, newPtr);
            var callsite := t.locations[oldPtr].callsite;
            var count, total := Usage(t'.locations, Count, callsite), Usage(t'.locations, Bytes, callsite);
            if total >= LastReport(t, callsite) + t.status.interval
            then response.ReallocExceeded? && response.callsite == callsite && LastReport(t', callsite) == total
                 && (response.stat.count, response.stat.size, response.stat.lastReport)
                    == (count, total, LastReport(t, callsite))
            else response.ReallocNotExceeded? && LastReport(t', callsite) == LastReport(t, callsite)
  {
    hide Usage, Resize;
    var callsite := t.locations[oldPtr].callsite;
    ConsistentAccounts(t);
    EntryCovers(t, [], oldPtr);
    ReallocKeepsAccounts(t, [], size, oldPtr, newPtr);
    var t' := Apply(t, Realloc(size, oldPtr, newPtr));
    assert [] + LostBy(t, Realloc(size, oldPtr, newPtr)) == [];
    AccountsConsistent(t');
    assert Tallies(t', callsite);
  }

  lemma ConsistentAccounts(t: Tracker)
    requires Consistent(t)
    ensures Accounts(t, [])
  {
    forall c: U64 ensures Settled(t, [], c) {
      assert Tallies(t, c);
    }
  }

  lemma AccountsConsistent(t: Tracker)
    requires Accounts(t, [])
    ensures Consistent(t)
  {
    ConsistentIffNothingLost(t, []);
  }

  // ---------------------------------------------------------------------------
  // The tracker as it is updated in place

  class Allocations {
    var memoryLocations: map<nat, Allocation>
    var maxTrackedMemoryLocations: nat
    var callsiteStatistics: map<U64, AllocStat>
    var maxTrackedCallsites: nat
    var status: Status

    ghost function Model(): Tracker
      reads this
    {
      Tracker(memoryLocations, maxTrackedMemoryLocations, callsiteStatistics, maxTrackedCallsites, status)
    }

    constructor ()
      ensures Model() == Tracker(map[], 131072, map[], 32768, Stopped)
    {
      memoryLocations := map[];
      maxTrackedMemoryLocations := 128 * 1024;
      callsiteStatistics := map[];
      maxTrackedCallsites := 32 * 1024;
      status := Stopped;
    }

    method InitSession(interval: U64)
      modifies this
      ensures Model() == Init(old(Model()), interval)
    {
      memoryLocations := map[];
      callsiteStatistics := map[];
      status := Started(interval);
    }

    method Allocate(callsite: U64, size: U64, ptr: nat) returns (response: AllocResponse)
      modifies this
      ensures (Model(), response) == RecordAllocation(old(Model()), callsite, size, ptr)
    {
      if status.Stopped? {
        return NotStarted;
      }
      if maxTrackedMemoryLocations == |memoryLocations| {
        return TrackerFull("memory_locations");
      }
      if maxTrackedCallsites == |callsiteStatistics| {
        return TrackerFull("tracked_callsites");
      }
      memoryLocations := memoryLocations[ptr := Allocation(callsite, size)];
      var entry := AllocStat(1, size, 0);
      if callsite in callsiteStatistics {
        entry := callsiteStatistics[callsite];
        entry := entry.(count := AddU64(entry.count, 1));
        entry := entry.(size := AddU64(entry.size, size));
      }
      response := ThresholdNotExceeded;
      if entry.size >= AddU64(entry.lastReport, status.interval) {
        response := ThresholdExceeded(entry);
        entry := entry.(lastReport := entry.size);
      }
      callsiteStatistics := callsiteStatistics[callsite := entry];
    }

    method Reallocate(size: U64, oldPtr: nat, newPtr: nat) returns (response: ReallocResponse)
      modifies this
      ensures (Model(), response) == RecordReallocation(old(Model()), size, oldPtr, newPtr)
    {
      if status.Stopped? {
        return ReallocNotStarted;
      }
      if oldPtr !in memoryLocations {
        return ReallocNotExceeded;
      }
      var was := memoryLocations[oldPtr];
      ghost var before := memoryLocations;
      if oldPtr != newPtr {
        memoryLocations := memoryLocations - {oldPtr};
        memoryLocations := memoryLocations[newPtr := Allocation(was.callsite, size)];
      } else {
        memoryLocations := memoryLocations[oldPtr := was.(size := size)];
      }
      assert memoryLocations == Moved(before, size, oldPtr, newPtr);
      response := ReallocNotExceeded;
      if was.callsite in callsiteStatistics {
        var stat := callsiteStatistics[was.callsite];
        stat := stat.(size := Resize(stat.size, was.size, size));
        if stat.size >= AddU64(stat.lastReport, status.interval) {
          response := ReallocExceeded(stat, was.callsite);
          stat := stat.(lastReport := stat.size);
        }
        callsiteStatistics := callsiteStatistics[was.callsite := stat];
      }
    }

    method Deallocate(ptr: nat)
      modifies this
      ensures Model() == RecordDeallocation(old(Model()), ptr)
      ensures memoryLocations == if status.Started? then old(memoryLocations) - {ptr} else old(memoryLocations)
      ensures old(status.Stopped? || ptr !in memoryLocations) ==> Model() == old(Model())
    {
      if status.Stopped? || ptr !in memoryLocations {
        return;
      }
      var was := memoryLocations[ptr];
      memoryLocations := memoryLocations - {ptr};
      if was.callsite in callsiteStatistics {
        var stat := callsiteStatistics[was.callsite];
        stat := stat.(count := SaturatingSub(stat.count, 1), size := SaturatingSub(stat.size, was.size));
        callsiteStatistics := callsiteStatistics[was.callsite := stat];
        if stat.count == 0 {
          callsiteStatistics := callsiteStatistics - {was.callsite};
        }
      }
    }
  }
}
