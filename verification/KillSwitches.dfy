/**
 The tree of kill switches of `quickwit-common/src/kill_switch.rs`.

 A switch keeps weak references to its children behind a mutex. `child` runs under that mutex.
 `kill` clears the flag first, then takes the mutex, drains the list and kills each child that is
 still held, keeping the mutex all the while. Any number of `kill` calls, `child` calls and drops
 interleave at that granularity.
 */
module KillSwitches {
  import opened Wrappers

  /** The locked state of a `kill` at one switch: who holds the mutex, what is left of the drained
      list, and the child whose own `kill` is running. */
  datatype Guard = Guard(kill: nat, rest: seq<nat>, current: Option<nat>)

  /** `held` says whether a strong reference to the switch exists. */
  datatype Switch = Switch(
    parent: Option<nat>,
    alive: bool,
    held: bool,
    children: seq<nat>,
    guard: Option<Guard>)

  datatype Stage = Mark | Lock | Drain

  datatype Frame = Frame(switch: nat, stage: Stage)

  /** One call of `kill` by a client: its switch and its call stack, empty once it has returned. */
  datatype Kill = Kill(root: nat, stack: seq<Frame>)

  /**
   `steps` and `childCalls` count what has happened so far. `sealed` collects the switches whose held
   descendants are known to be dead for good: those whose `kill` has returned, and those born dead.
   */
  datatype Forest = Forest(
    switches: seq<Switch>,
    kills: seq<Kill>,
    steps: nat,
    childCalls: nat,
    sealed: set<nat>)

  datatype Action =
    | NewRoot
    | Child(parent: nat)
    | Release(switch: nat)        // the last strong reference is dropped
    | CallKill(switch: nat)
    | KillStep(kill: nat)

  // ---------------------------------------------------------------------------
  // garbage_collect

  function SwapRemove(list: seq<nat>, i: nat): seq<nat>
    requires i < |list|
  {
    list[i := list[|list| - 1]][..|list| - 1]
  }

  /** The loop of `garbage_collect`, from position `i` on. */
  function Collect(list: seq<nat>, held: nat -> bool, i: nat): seq<nat>
    requires i <= |list|
    decreases |list| - i
  {
    if i == |list| then list
    else if !held(list[i]) then Collect(SwapRemove(list, i), held, i)
    else Collect(list, held, i + 1)
  }

  lemma SwapRemoveMultiset(list: seq<nat>, i: nat)
    requires i < |list|
    ensures multiset(list) == multiset(SwapRemove(list, i)) + multiset{list[i]}
  {
    var last := |list| - 1;
    if i == last {
      assert list == SwapRemove(list, i) + [list[i]];
    } else {
      var a, b := list[..i], list[i + 1..last];
      assert list == (a + [list[i]]) + (b + [list[last]]);
      assert SwapRemove(list, i) == (a + [list[last]]) + b;
      MoveLast(a, b, list[i], list[last]);
    }
  }

  lemma MoveLast(a: seq<nat>, b: seq<nat>, x: nat, y: nat)
    ensures multiset((a + [x]) + (b + [y])) == multiset((a + [y]) + b) + multiset{x}
  {
  }

  lemma {:induction false} CollectContents(list: seq<nat>, held: nat -> bool, i: nat)
    requires i <= |list| && forall k :: 0 <= k < i ==> held(list[k])
    ensures forall x :: multiset(Collect(list, held, i))[x] == if held(x) then multiset(list)[x] else 0
    ensures |Collect(list, held, i)| <= |list|
    decreases |list| - i
  {
    if i == |list| {
      forall x ensures multiset(list)[x] == if held(x) then multiset(list)[x] else 0 {
        if x in multiset(list) {
          assert x in list;
        }
      }
    } else if !held(list[i]) {
      SwapRemoveMultiset(list, i);
      CollectContents(SwapRemove(list, i), held, i);
    } else {
      CollectContents(list, held, i + 1);
    }
  }

  /** `garbage_collect` as the source writes it: exactly the children still held remain. */
  method GarbageCollect(list: seq<nat>, held: nat -> bool) returns (kept: seq<nat>)
    ensures kept == Collect(list, held, 0)
    ensures forall x :: multiset(kept)[x] == if held(x) then multiset(list)[x] else 0
  {
    kept := list;
    var i := 0;
    while i < |kept|
      invariant i <= |kept|
      invariant Collect(kept, held, i) == Collect(list, held, 0)
      decreases |kept| - i
    {
      if !held(kept[i]) {
        kept := SwapRemove(kept, i);
      } else {
        i := i + 1;
      }
    }
    CollectContents(list, held, 0);
  }

  // ---------------------------------------------------------------------------
  // Steps

  predicate Init(f: Forest) {
    f == Forest([], [], 0, 0, {})
  }

  function Held(switches: seq<Switch>): nat -> bool {
    (n: nat) => n < |switches| && switches[n].held
  }

  /** No running `kill` keeps the switch alive through the reference it upgraded. */
  predicate NotInUse(f: Forest, n: nat) {
    forall t, i :: 0 <= t < |f.kills| && 0 <= i < |f.kills[t].stack|
                   ==> f.kills[t].stack[i].switch != n
  }

  predicate Enabled(f: Forest, a: Action) {
    match a
    case NewRoot => true
    case Child(p) => p < |f.switches| && f.switches[p].held && f.switches[p].guard.None?
    case Release(n) => n < |f.switches| && f.switches[n].held && NotInUse(f, n)
    case CallKill(n) => n < |f.switches| && f.switches[n].held
    case KillStep(t) => CanStep(f, t)
  }

  function Top(k: Kill): Frame
    requires k.stack != []
  {
    k.stack[|k.stack| - 1]
  }

  /** A running `kill` waits only for a mutex held by another one. */
  predicate CanStep(f: Forest, t: nat) {
    && t < |f.kills| && f.kills[t].stack != []
    && var top := Top(f.kills[t]);
       && top.switch < |f.switches|
       && (top.stage.Lock? ==> f.switches[top.switch].guard.None?)
       && (top.stage.Drain? ==> f.switches[top.switch].guard.Some?)
  }

  function NewChild(f: Forest, p: nat): Forest
    requires p < |f.switches|
  {
    var parent := f.switches[p];
    var n := |f.switches|;
    var list := Collect(parent.children, Held(f.switches), 0) + [n];
    f.(switches := f.switches[p := parent.(children := list)]
                   + [Switch(Some(p), parent.alive, true, [], None)],
       childCalls := f.childCalls + 1,
       sealed := if parent.alive then f.sealed else f.sealed + {n})
  }

  function SetSwitch(f: Forest, n: nat, s: Switch): Forest
    requires n < |f.switches|
  {
    f.(switches := f.switches[n := s])
  }

  function SetStack(f: Forest, t: nat, stack: seq<Frame>): Forest
    requires t < |f.kills|
  {
    f.(kills := f.kills[t := f.kills[t].(stack := stack)], steps := f.steps + 1)
  }

  function Apply(f: Forest, a: Action): Forest
    requires Enabled(f, a)
  {
    match a
    case NewRoot => f.(switches := f.switches + [Switch(None, true, true, [], None)])
    case Child(p) => NewChild(f, p)
    case Release(n) => SetSwitch(f, n, f.switches[n].(held := false))
    case CallKill(n) => f.(kills := f.kills + [Kill(n, [Frame(n, Mark)])])
    case KillStep(t) =>
      (match Top(f.kills[t]).stage
       case Mark => MarkStep(f, t)
       case Lock => LockStep(f, t)
       case Drain =>
         if f.switches[Top(f.kills[t]).switch].guard.value.rest == [] then ReturnStep(f, t)
         else DrainStep(f, t))
  }

  function MarkStep(f: Forest, t: nat): Forest
    requires CanStep(f, t)
  {
    var stack := f.kills[t].stack;
    var n := Top(f.kills[t]).switch;
    SetStack(SetSwitch(f, n, f.switches[n].(alive := false)), t,
             stack[|stack| - 1 := Frame(n, Lock)])
  }

  function LockStep(f: Forest, t: nat): Forest
    requires CanStep(f, t)
  {
    var stack := f.kills[t].stack;
    var n := Top(f.kills[t]).switch;
    var s := f.switches[n];
    SetStack(SetSwitch(f, n, s.(children := [], guard := Some(Guard(t, s.children, None)))), t,
             stack[|stack| - 1 := Frame(n, Drain)])
  }

  function DrainStep(f: Forest, t: nat): Forest
    requires CanStep(f, t) && Top(f.kills[t]).stage.Drain?
    requires f.switches[Top(f.kills[t]).switch].guard.value.rest != []
  {
    var stack := f.kills[t].stack;
    var n := Top(f.kills[t]).switch;
    var s := f.switches[n];
    var rest := s.guard.value.rest;
    var c := rest[0];
    if Held(f.switches)(c) then
      SetStack(SetSwitch(f, n, s.(guard := Some(Guard(t, rest[1..], Some(c))))), t,
               stack + [Frame(c, Mark)])
    else
      SetStack(SetSwitch(f, n, s.(guard := Some(Guard(t, rest[1..], None)))), t, stack)
  }

  function ReturnStep(f: Forest, t: nat): Forest
    requires CanStep(f, t)
  {
    var stack := f.kills[t].stack;
    var n := Top(f.kills[t]).switch;
    var f1 := SetSwitch(f, n, f.switches[n].(guard := None));
    var f2 := SetStack(f1, t, stack[..|stack| - 1]).(sealed := f.sealed + {n});
    if |stack| == 1 then f2 else ResumeCaller(f2, t, stack[|stack| - 2].switch)
  }

  /** The `kill` of a child has returned: the caller goes on with the rest of its list. */
  function ResumeCaller(f: Forest, t: nat, caller: nat): Forest {
    if caller < |f.switches| && f.switches[caller].guard.Some? then
      var s := f.switches[caller];
      SetSwitch(f, caller, s.(guard := Some(Guard(t, s.guard.value.rest, None))))
    else f
  }

  ghost predicate Next(f: Forest, f': Forest) {
    exists a :: Enabled(f, a) && f' == Apply(f, a)
  }

  ghost predicate Behavior(run: seq<Forest>) {
    && |run| > 0
    && Init(run[0])
    && forall i :: 0 <= i < |run| - 1 ==> Next(run[i], run[i + 1])
  }

  // ---------------------------------------------------------------------------
  // The invariant

  predicate IsChild(f: Forest, n: nat, c: nat) {
    c < |f.switches| && f.switches[c].parent == Some(n)
  }

  /** What holds at one switch: parents come first, and lists name children only. */
  predicate SwitchOk(f: Forest, n: nat)
    requires n < |f.switches|
  {
    var s := f.switches[n];
    && (s.parent.Some? ==> s.parent.value < n)
    && (forall c :: c in s.children ==> IsChild(f, n, c))
    && (s.guard.Some? ==>
          && s.children == []
          && (forall c :: c in s.guard.value.rest ==> IsChild(f, n, c))
          && (s.guard.value.current.Some? ==> IsChild(f, n, s.guard.value.current.value)))
  }

  /** What holds at one frame of the call stack of kill `t`. */
  predicate FrameOk(f: Forest, t: nat, i: nat)
    requires t < |f.kills| && i < |f.kills[t].stack|
  {
    var stack := f.kills[t].stack;
    var n := stack[i].switch;
    && n < |f.switches|
    && (!stack[i].stage.Mark? ==> !f.switches[n].alive)
    && (i < |stack| - 1 ==>
          stack[i].stage.Drain? && HasGuard(f, n, t, Some(stack[i + 1].switch)))
    && (i == |stack| - 1 && stack[i].stage.Drain? ==> HasGuard(f, n, t, None))
    && (i == 0 ==> n == f.kills[t].root)
  }

  predicate HasGuard(f: Forest, n: nat, t: nat, current: Option<nat>)
    requires n < |f.switches|
  {
    var g := f.switches[n].guard;
    g.Some? && g.value.kill == t && g.value.current == current
  }

  /** A mutex is held by a `kill` that is draining that switch. */
  ghost predicate GuardOwned(f: Forest, n: nat)
    requires n < |f.switches|
  {
    f.switches[n].guard.Some? ==>
      var t := f.switches[n].guard.value.kill;
      t < |f.kills| && Frame(n, Drain) in f.kills[t].stack
  }

  ghost predicate Structure(f: Forest) {
    && (forall n :: 0 <= n < |f.switches| ==> SwitchOk(f, n))
    && (forall n :: 0 <= n < |f.switches| ==> GuardOwned(f, n))
    && (forall t, i :: 0 <= t < |f.kills| && 0 <= i < |f.kills[t].stack| ==> FrameOk(f, t, i))
  }

  /** A held child is still listed, or in the hands of the kill that drained the list, or sealed. */
  predicate Tracked(f: Forest, x: nat, c: nat)
    requires x < |f.switches|
  {
    || c in f.switches[x].children
    || (f.switches[x].guard.Some?
        && (c in f.switches[x].guard.value.rest || f.switches[x].guard.value.current == Some(c)))
    || c in f.sealed
  }

  ghost predicate AllTracked(f: Forest) {
    forall c :: (0 <= c < |f.switches| && f.switches[c].held && f.switches[c].parent.Some?
                 && f.switches[c].parent.value < |f.switches|)
                ==> Tracked(f, f.switches[c].parent.value, c)
  }

  /** A sealed switch is dead and so, recursively, are its held children. */
  ghost predicate Sealed(f: Forest) {
    && (forall x :: x in f.sealed ==> 0 <= x < |f.switches| && !f.switches[x].alive)
    && (forall c :: (0 <= c < |f.switches| && f.switches[c].held && f.switches[c].parent.Some?
                     && f.switches[c].parent.value in f.sealed)
                    ==> c in f.sealed)
    && (forall t :: 0 <= t < |f.kills| && f.kills[t].stack == [] ==> f.kills[t].root in f.sealed)
  }

  /** Some `kill` was called on the switch itself or on one of its ancestors. */
  ghost predicate UnderKill(f: Forest, n: nat)
    decreases n
  {
    || (exists t :: 0 <= t < |f.kills| && f.kills[t].root == n)
    || (n < |f.switches| && f.switches[n].parent.Some? && f.switches[n].parent.value < n
        && UnderKill(f, f.switches[n].parent.value))
  }

  ghost predicate OnlyUnderKill(f: Forest) {
    && (forall n :: 0 <= n < |f.switches| && !f.switches[n].alive ==> UnderKill(f, n))
    && (forall t, i :: 0 <= t < |f.kills| && 0 <= i < |f.kills[t].stack|
                       ==> UnderKill(f, f.kills[t].stack[i].switch))
  }

  // ---------------------------------------------------------------------------
  // Structure is kept

  lemma NewRootStructure(f: Forest)
    requires Structure(f)
    ensures Structure(Apply(f, NewRoot))
  {
    var f' := Apply(f, NewRoot);
    forall n | 0 <= n < |f'.switches| ensures SwitchOk(f', n) && GuardOwned(f', n) {
      if n < |f.switches| {
        assert SwitchOk(f, n) && GuardOwned(f, n);
      }
    }
    forall t, i | 0 <= t < |f'.kills| && 0 <= i < |f'.kills[t].stack| ensures FrameOk(f', t, i) {
      assert FrameOk(f, t, i);
    }
  }

  lemma CollectMembers(list: seq<nat>, held: nat -> bool, x: nat)
    ensures x in Collect(list, held, 0) <==> x in list && held(x)
    ensures |Collect(list, held, 0)| <= |list|
  {
    CollectContents(list, held, 0);
    assert x in Collect(list, held, 0) <==> multiset(Collect(list, held, 0))[x] > 0;
    assert x in list <==> multiset(list)[x] > 0;
  }

  lemma ChildStructure(f: Forest, p: nat)
    requires Structure(f) && Enabled(f, Child(p))
    ensures Structure(NewChild(f, p))
  {
    var f' := NewChild(f, p);
    forall n | 0 <= n < |f'.switches| ensures SwitchOk(f', n) && GuardOwned(f', n) {
      if n < |f.switches| {
        assert SwitchOk(f, n) && GuardOwned(f, n);
        if n == p {
          forall c | c in f'.switches[p].children ensures IsChild(f', p, c) {
            CollectMembers(f.switches[p].children, Held(f.switches), c);
          }
        }
      }
    }
    forall t, i | 0 <= t < |f'.kills| && 0 <= i < |f'.kills[t].stack| ensures FrameOk(f', t, i) {
      assert FrameOk(f, t, i);
    }
  }

  lemma ReleaseStructure(f: Forest, n: nat)
    requires Structure(f) && Enabled(f, Release(n))
    ensures Structure(Apply(f, Release(n)))
  {
    var f' := Apply(f, Release(n));
    forall m | 0 <= m < |f'.switches| ensures SwitchOk(f', m) && GuardOwned(f', m) {
      assert SwitchOk(f, m) && GuardOwned(f, m);
    }
    forall t, i | 0 <= t < |f'.kills| && 0 <= i < |f'.kills[t].stack| ensures FrameOk(f', t, i) {
      assert FrameOk(f, t, i);
    }
  }

  lemma CallKillStructure(f: Forest, n: nat)
    requires Structure(f) && Enabled(f, CallKill(n))
    ensures Structure(Apply(f, CallKill(n)))
  {
    var f' := Apply(f, CallKill(n));
    forall m | 0 <= m < |f'.switches| ensures SwitchOk(f', m) && GuardOwned(f', m) {
      assert SwitchOk(f, m) && GuardOwned(f, m);
    }
    forall t, i | 0 <= t < |f'.kills| && 0 <= i < |f'.kills[t].stack| ensures FrameOk(f', t, i) {
      if t < |f.kills| {
        assert FrameOk(f, t, i);
      }
    }
  }

  lemma MarkStructure(f: Forest, t: nat)
    requires Structure(f) && CanStep(f, t) && Top(f.kills[t]).stage.Mark?
    ensures Structure(MarkStep(f, t))
  {
    var f' := MarkStep(f, t);
    forall m | 0 <= m < |f'.switches| ensures SwitchOk(f', m) && GuardOwned(f', m) {
      assert SwitchOk(f, m) && GuardOwned(f, m);
      if f.switches[m].guard.Some? {
        KeptFrame(f, f', t, f.switches[m].guard.value.kill, Frame(m, Drain));
      }
    }
    forall u, i | 0 <= u < |f'.kills| && 0 <= i < |f'.kills[u].stack| ensures FrameOk(f', u, i) {
      assert FrameOk(f, u, i);
    }
  }

  lemma LockStructure(f: Forest, t: nat)
    requires Structure(f) && CanStep(f, t) && Top(f.kills[t]).stage.Lock?
    ensures Structure(LockStep(f, t))
  {
    var f' := LockStep(f, t);
    forall m | 0 <= m < |f'.switches| ensures SwitchOk(f', m) && GuardOwned(f', m) {
      assert SwitchOk(f, m) && GuardOwned(f, m);
      if m == Top(f.kills[t]).switch {
        assert f'.kills[t].stack[|f.kills[t].stack| - 1] == Frame(m, Drain);
      } else if f.switches[m].guard.Some? {
        KeptFrame(f, f', t, f.switches[m].guard.value.kill, Frame(m, Drain));
      }
    }
    forall u, i | 0 <= u < |f'.kills| && 0 <= i < |f'.kills[u].stack| ensures FrameOk(f', u, i) {
      assert FrameOk(f, u, i);
    }
  }

  /** A frame other than the top of the stepping kill is still on its stack after the step. */
  lemma KeptFrame(f: Forest, f': Forest, t: nat, u: nat, fr: Frame)
    requires t < |f.kills| == |f'.kills| && u < |f.kills| && f.kills[t].stack != []
    requires fr in f.kills[u].stack && (u == t ==> fr != Top(f.kills[t]))
    requires u != t ==> f'.kills[u] == f.kills[u]
    requires |f'.kills[t].stack| >= |f.kills[t].stack| - 1
    requires forall i :: 0 <= i < |f.kills[t].stack| - 1 ==> f'.kills[t].stack[i] == f.kills[t].stack[i]
    ensures fr in f'.kills[u].stack
  {
    var i :| 0 <= i < |f.kills[u].stack| && f.kills[u].stack[i] == fr;
    assert f'.kills[u].stack[i] == fr;
  }

  lemma DrainSwitches(f: Forest, t: nat, m: nat)
    requires Structure(f) && CanStep(f, t) && Top(f.kills[t]).stage.Drain?
    requires f.switches[Top(f.kills[t]).switch].guard.value.rest != []
    requires m < |f.switches|
    ensures SwitchOk(DrainStep(f, t), m) && GuardOwned(DrainStep(f, t), m)
  {
    var f' := DrainStep(f, t);
    var stack := f.kills[t].stack;
    var n := Top(f.kills[t]).switch;
    assert FrameOk(f, t, |stack| - 1);
    assert SwitchOk(f, m) && GuardOwned(f, m);
    assert forall c :: IsChild(f, m, c) ==> IsChild(f', m, c);
    if m == n {
      assert f.switches[n].guard.value.rest[0] in f.switches[n].guard.value.rest;
      assert f'.kills[t].stack[|stack| - 1] == Frame(n, Drain);
    } else if f.switches[m].guard.Some? {
      KeptFrame(f, f', t, f.switches[m].guard.value.kill, Frame(m, Drain));
    }
  }

  lemma DrainStructure(f: Forest, t: nat)
    requires Structure(f) && CanStep(f, t) && Top(f.kills[t]).stage.Drain?
    requires f.switches[Top(f.kills[t]).switch].guard.value.rest != []
    ensures Structure(DrainStep(f, t))
  {
    var f' := DrainStep(f, t);
    var stack := f.kills[t].stack;
    forall m | 0 <= m < |f'.switches| ensures SwitchOk(f', m) && GuardOwned(f', m) {
      DrainSwitches(f, t, m);
    }
    assert FrameOk(f, t, |stack| - 1);
    forall u, i | 0 <= u < |f'.kills| && 0 <= i < |f'.kills[u].stack| ensures FrameOk(f', u, i) {
      if u == t && i == |stack| {
        assert SwitchOk(f, Top(f.kills[t]).switch);
      } else {
        assert FrameOk(f, u, i);
        if i < |stack| - 1 && u == t {
          AncestorsBelow(f, t, i, |stack| - 1);
        }
      }
    }
  }

  /** Switches get larger from the bottom of a stack to its top. */
  lemma {:induction false} AncestorsBelow(f: Forest, t: nat, i: nat, j: nat)
    requires Structure(f) && t < |f.kills| && i < j < |f.kills[t].stack|
    ensures f.kills[t].stack[i].switch < f.kills[t].stack[j].switch
  {
    assert FrameOk(f, t, j - 1) && FrameOk(f, t, j);
    assert SwitchOk(f, f.kills[t].stack[j - 1].switch) && SwitchOk(f, f.kills[t].stack[j].switch);
    if i < j - 1 {
      AncestorsBelow(f, t, i, j - 1);
    }
  }

  lemma ReturnSwitches(f: Forest, t: nat, m: nat)
    requires Structure(f) && CanStep(f, t) && Top(f.kills[t]).stage.Drain? && m < |f.switches|
    ensures m < |ReturnStep(f, t).switches| && SwitchOk(ReturnStep(f, t), m) && GuardOwned(ReturnStep(f, t), m)
  {
    var f' := ReturnStep(f, t);
    var stack := f.kills[t].stack;
    assert FrameOk(f, t, |stack| - 1);
    if |stack| > 1 {
      assert FrameOk(f, t, |stack| - 2);
      AncestorsBelow(f, t, |stack| - 2, |stack| - 1);
    }
    assert SwitchOk(f, m) && GuardOwned(f, m);
    if m != Top(f.kills[t]).switch && f.switches[m].guard.Some? {
      KeptFrame(f, f', t, f.switches[m].guard.value.kill, Frame(m, Drain));
    }
  }

  lemma ReturnStructure(f: Forest, t: nat)
    requires Structure(f) && CanStep(f, t) && Top(f.kills[t]).stage.Drain?
    ensures Structure(ReturnStep(f, t))
  {
    var f' := ReturnStep(f, t);
    var stack := f.kills[t].stack;
    var n := Top(f.kills[t]).switch;
    assert FrameOk(f, t, |stack| - 1);
    if |stack| > 1 {
      assert FrameOk(f, t, |stack| - 2);
      AncestorsBelow(f, t, |stack| - 2, |stack| - 1);
    }
    forall m | 0 <= m < |f'.switches| ensures SwitchOk(f', m) && GuardOwned(f', m) {
      ReturnSwitches(f, t, m);
    }
    hide SwitchOk, GuardOwned;
    forall u, i | 0 <= u < |f'.kills| && 0 <= i < |f'.kills[u].stack| ensures FrameOk(f', u, i) {
      assert FrameOk(f, u, i);
      if u == t {
        AncestorsBelow(f, t, i, |stack| - 1);
        if i < |stack| - 2 {
          AncestorsBelow(f, t, i, |stack| - 2);
        }
      }
    }
  }

  // ---------------------------------------------------------------------------
  // Tracking and sealing are kept

  ghost predicate Safe(f: Forest) {
    Structure(f) && AllTracked(f) && Sealed(f)
  }

  lemma ChildSafe(f: Forest, p: nat)
    requires Safe(f) && Enabled(f, Child(p))
    ensures Safe(NewChild(f, p))
  {
    ChildStructure(f, p);
    var f' := NewChild(f, p);
    forall c | (0 <= c < |f'.switches| && f'.switches[c].held && f'.switches[c].parent.Some?
                && f'.switches[c].parent.value < |f'.switches|)
      ensures Tracked(f', f'.switches[c].parent.value, c)
    {
      if c < |f.switches| {
        assert SwitchOk(f, c);
        assert Tracked(f, f.switches[c].parent.value, c);
        CollectMembers(f.switches[p].children, Held(f.switches), c);
      }
    }
    forall c | (0 <= c < |f'.switches| && f'.switches[c].held && f'.switches[c].parent.Some?
                && f'.switches[c].parent.value in f'.sealed)
      ensures c in f'.sealed
    {
      if c < |f.switches| {
        assert SwitchOk(f, c);
      }
    }
  }

  lemma QuietSafe(f: Forest, a: Action)
    requires Safe(f) && Enabled(f, a) && (a.NewRoot? || a.Release? || a.CallKill?)
    ensures Safe(Apply(f, a))
  {
    match a
    case NewRoot => NewRootSafe(f);
    case Release(n) => ReleaseSafe(f, n);
    case CallKill(n) => CallKillStructure(f, n);
  }

  lemma NewRootSafe(f: Forest)
    requires Safe(f)
    ensures Safe(Apply(f, NewRoot))
  {
    NewRootStructure(f);
    var f' := Apply(f, NewRoot);
    forall c | (0 <= c < |f'.switches| && f'.switches[c].held && f'.switches[c].parent.Some?
                && f'.switches[c].parent.value < |f'.switches|)
      ensures Tracked(f', f'.switches[c].parent.value, c)
    {
      assert SwitchOk(f, c);
      assert Tracked(f, f.switches[c].parent.value, c);
    }
  }

  lemma ReleaseSafe(f: Forest, n: nat)
    requires Safe(f) && Enabled(f, Release(n))
    ensures Safe(Apply(f, Release(n)))
  {
    ReleaseStructure(f, n);
    var f' := Apply(f, Release(n));
    forall c | (0 <= c < |f'.switches| && f'.switches[c].held && f'.switches[c].parent.Some?
                && f'.switches[c].parent.value < |f'.switches|)
      ensures Tracked(f', f'.switches[c].parent.value, c)
    {
      assert Tracked(f, f.switches[c].parent.value, c);
    }
  }

  lemma MarkSafe(f: Forest, t: nat)
    requires Safe(f) && CanStep(f, t) && Top(f.kills[t]).stage.Mark?
    ensures Safe(MarkStep(f, t))
  {
    MarkStructure(f, t);
    var f' := MarkStep(f, t);
    forall c | (0 <= c < |f'.switches| && f'.switches[c].held && f'.switches[c].parent.Some?
                && f'.switches[c].parent.value < |f'.switches|)
      ensures Tracked(f', f'.switches[c].parent.value, c)
    {
      assert Tracked(f, f.switches[c].parent.value, c);
    }
  }

  lemma LockSafe(f: Forest, t: nat)
    requires Safe(f) && CanStep(f, t) && Top(f.kills[t]).stage.Lock?
    ensures Safe(LockStep(f, t))
  {
    LockStructure(f, t);
    var f' := LockStep(f, t);
    forall c | (0 <= c < |f'.switches| && f'.switches[c].held && f'.switches[c].parent.Some?
                && f'.switches[c].parent.value < |f'.switches|)
      ensures Tracked(f', f'.switches[c].parent.value, c)
    {
      assert Tracked(f, f.switches[c].parent.value, c);
    }
  }

  lemma DrainSafe(f: Forest, t: nat)
    requires Safe(f) && CanStep(f, t) && Top(f.kills[t]).stage.Drain?
    requires f.switches[Top(f.kills[t]).switch].guard.value.rest != []
    ensures Safe(DrainStep(f, t))
  {
    DrainStructure(f, t);
    var f' := DrainStep(f, t);
    assert FrameOk(f, t, |f.kills[t].stack| - 1);
    forall c | (0 <= c < |f'.switches| && f'.switches[c].held && f'.switches[c].parent.Some?
                && f'.switches[c].parent.value < |f'.switches|)
      ensures Tracked(f', f'.switches[c].parent.value, c)
    {
      assert Tracked(f, f.switches[c].parent.value, c);
    }
  }

  /** When `kill` is done at a switch, each child of it that is still held has been sealed. */
  lemma DrainedChildrenSealed(f: Forest, t: nat, c: nat)
    requires Safe(f) && CanStep(f, t) && Top(f.kills[t]).stage.Drain?
    requires f.switches[Top(f.kills[t]).switch].guard.value.rest == []
    requires IsChild(f, Top(f.kills[t]).switch, c) && f.switches[c].held
    ensures c in f.sealed
  {
    assert FrameOk(f, t, |f.kills[t].stack| - 1);
    assert SwitchOk(f, Top(f.kills[t]).switch);
    assert Tracked(f, f.switches[c].parent.value, c);
  }

  /** A return changes guards and the sealed set only. */
  lemma ReturnShape(f: Forest, t: nat)
    requires Structure(f) && CanStep(f, t) && Top(f.kills[t]).stage.Drain?
    ensures var f' := ReturnStep(f, t);
            var n := Top(f.kills[t]).switch;
            && |f'.switches| == |f.switches| && f'.sealed == f.sealed + {n}
            && n < |f.switches| && !f.switches[n].alive
            && (forall m :: 0 <= m < |f.switches| ==>
                  && f'.switches[m].held == f.switches[m].held && f'.switches[m].parent == f.switches[m].parent
                  && f'.switches[m].alive == f.switches[m].alive && f'.switches[m].children == f.switches[m].children)
  {
    var stack := f.kills[t].stack;
    assert FrameOk(f, t, |stack| - 1);
    if |stack| > 1 {
      assert FrameOk(f, t, |stack| - 2);
    }
  }

  lemma ReturnTracked(f: Forest, t: nat, c: nat)
    requires Safe(f) && CanStep(f, t) && Top(f.kills[t]).stage.Drain?
    requires f.switches[Top(f.kills[t]).switch].guard.value.rest == []
    requires c < |f.switches| && f.switches[c].held && f.switches[c].parent.Some?
    requires f.switches[c].parent.value < |f.switches|
    ensures f.switches[c].parent.value < |ReturnStep(f, t).switches|
    ensures Tracked(ReturnStep(f, t), f.switches[c].parent.value, c)
  {
    ReturnShape(f, t);
    var stack := f.kills[t].stack;
    assert FrameOk(f, t, |stack| - 1);
    if |stack| > 1 {
      assert FrameOk(f, t, |stack| - 2);
    }
    assert Tracked(f, f.switches[c].parent.value, c);
    if f.switches[c].parent.value == Top(f.kills[t]).switch {
      DrainedChildrenSealed(f, t, c);
    }
  }

  lemma ReturnSafe(f: Forest, t: nat)
    requires Safe(f) && CanStep(f, t) && Top(f.kills[t]).stage.Drain?
    requires f.switches[Top(f.kills[t]).switch].guard.value.rest == []
    ensures Safe(ReturnStep(f, t))
  {
    ReturnStructure(f, t);
    var f' := ReturnStep(f, t);
    var n := Top(f.kills[t]).switch;
    ReturnShape(f, t);
    ReturnSeals(f, t);
    hide Structure, Tracked;
    forall c | (0 <= c < |f'.switches| && f'.switches[c].held && f'.switches[c].parent.Some?
                && f'.switches[c].parent.value < |f'.switches|)
      ensures Tracked(f', f'.switches[c].parent.value, c)
    {
      ReturnTracked(f, t, c);
    }
  }

  lemma ReturnSeals(f: Forest, t: nat)
    requires Safe(f) && CanStep(f, t) && Top(f.kills[t]).stage.Drain?
    requires f.switches[Top(f.kills[t]).switch].guard.value.rest == []
    ensures Sealed(ReturnStep(f, t))
  {
    var f' := ReturnStep(f, t);
    var n := Top(f.kills[t]).switch;
    ReturnShape(f, t);
    assert FrameOk(f, t, |f.kills[t].stack| - 1);
    forall c | (0 <= c < |f'.switches| && f'.switches[c].held && f'.switches[c].parent.Some?
                && f'.switches[c].parent.value in f'.sealed)
      ensures c in f'.sealed
    {
      if f.switches[c].parent.value == n {
        DrainedChildrenSealed(f, t, c);
      }
    }
  }

  lemma ApplySafe(f: Forest, a: Action)
    requires Safe(f) && Enabled(f, a)
    ensures Safe(Apply(f, a))
  {
    hide Safe;
    match a
    case Child(p) => ChildSafe(f, p);
    case KillStep(t) =>
      match Top(f.kills[t]).stage {
        case Mark => MarkSafe(f, t);
        case Lock => LockSafe(f, t);
        case Drain =>
          if f.switches[Top(f.kills[t]).switch].guard.value.rest == [] {
            ReturnSafe(f, t);
          } else {
            DrainSafe(f, t);
          }
      }
    case _ => QuietSafe(f, a);
  }

  // ---------------------------------------------------------------------------
  // Only descendants of a killed switch die

  lemma {:induction false} UnderKillMono(f: Forest, f': Forest, n: nat)
    requires |f.switches| <= |f'.switches| && |f.kills| <= |f'.kills|
    requires forall i :: 0 <= i < |f.switches| ==> f'.switches[i].parent == f.switches[i].parent
    requires forall t :: 0 <= t < |f.kills| ==> f'.kills[t].root == f.kills[t].root
    requires UnderKill(f, n)
    ensures UnderKill(f', n)
    decreases n
  {
    if exists t :: 0 <= t < |f.kills| && f.kills[t].root == n {
      var t :| 0 <= t < |f.kills| && f.kills[t].root == n;
      assert f'.kills[t].root == n;
    } else {
      UnderKillMono(f, f', f.switches[n].parent.value);
    }
  }

  lemma ApplyKeepsLineage(f: Forest, a: Action)
    requires Enabled(f, a)
    ensures var f' := Apply(f, a);
            && |f.switches| <= |f'.switches| && |f.kills| <= |f'.kills|
            && (forall i :: 0 <= i < |f.switches| ==> f'.switches[i].parent == f.switches[i].parent)
            && (forall t :: 0 <= t < |f.kills| ==> f'.kills[t].root == f.kills[t].root)
  {
  }

  /** Where a switch that is dead after a step, or a frame that is on a stack, came from. */
  lemma DeadOrigin(f: Forest, a: Action, n: nat)
    requires Structure(f) && Enabled(f, a)
    requires var f' := Apply(f, a); n < |f'.switches| && !f'.switches[n].alive
    ensures n < |f.switches| ==>
              !f.switches[n].alive
              || (a.KillStep? && n == Top(f.kills[a.kill]).switch)
    ensures n >= |f.switches| ==> a.Child? && n == |f.switches| && !f.switches[a.parent].alive
  {
  }

  lemma FrameOrigin(f: Forest, a: Action, t: nat, i: nat)
    requires Structure(f) && Enabled(f, a)
    requires var f' := Apply(f, a); t < |f'.kills| && i < |f'.kills[t].stack|
    ensures var n := Apply(f, a).kills[t].stack[i].switch;
            || (t < |f.kills| && i < |f.kills[t].stack| && f.kills[t].stack[i].switch == n)
            || (a.CallKill? && t == |f.kills| && n == Apply(f, a).kills[t].root)
            || (a == KillStep(t) && IsChild(f, Top(f.kills[t]).switch, n))
  {
    if a.KillStep? && Top(f.kills[a.kill]).stage.Drain? {
      assert SwitchOk(f, Top(f.kills[a.kill]).switch);
    }
  }

  lemma ApplyOnlyUnderKill(f: Forest, a: Action)
    requires Structure(f) && OnlyUnderKill(f) && Enabled(f, a)
    ensures OnlyUnderKill(Apply(f, a))
  {
    var f' := Apply(f, a);
    ApplyKeepsLineage(f, a);
    forall n | 0 <= n < |f'.switches| && !f'.switches[n].alive ensures UnderKill(f', n) {
      DeadOrigin(f, a, n);
      if n < |f.switches| {
        UnderKillMono(f, f', n);
      } else {
        UnderKillMono(f, f', a.parent);
      }
    }
    forall t, i | 0 <= t < |f'.kills| && 0 <= i < |f'.kills[t].stack|
      ensures UnderKill(f', f'.kills[t].stack[i].switch)
    {
      FrameOrigin(f, a, t, i);
      var n := f'.kills[t].stack[i].switch;
      if t < |f.kills| && i < |f.kills[t].stack| && f.kills[t].stack[i].switch == n {
        UnderKillMono(f, f', n);
      } else if a.KillStep? {
        assert SwitchOk(f, n);
        UnderKillMono(f, f', Top(f.kills[t]).switch);
      }
    }
  }

  // ---------------------------------------------------------------------------
  // A bound on the work of all kills

  function SwitchCost(s: Switch): nat {
    5 * |s.children| + (if s.guard.Some? then 5 * |s.guard.value.rest| else 0)
  }

  function StackCost(stack: seq<Frame>): nat {
    if stack == [] then 0
    else
      StackCost(stack[..|stack| - 1])
      + (match stack[|stack| - 1].stage case Mark => 3 case Lock => 2 case Drain => 1)
  }

  function SwitchesCost(switches: seq<Switch>): nat {
    if switches == [] then 0
    else SwitchesCost(switches[..|switches| - 1]) + SwitchCost(switches[|switches| - 1])
  }

  function KillsCost(kills: seq<Kill>): nat {
    if kills == [] then 0
    else KillsCost(kills[..|kills| - 1]) + StackCost(kills[|kills| - 1].stack)
  }

  /** What the kills still have to do, as things stand. */
  function Potential(f: Forest): nat {
    SwitchesCost(f.switches) + KillsCost(f.kills)
  }

  lemma {:induction false} SwitchesCostUpdate(ss: seq<Switch>, n: nat, s: Switch)
    requires n < |ss|
    ensures SwitchesCost(ss[n := s]) + SwitchCost(ss[n]) == SwitchesCost(ss) + SwitchCost(s)
  {
    if n == |ss| - 1 {
      assert ss[n := s][..n] == ss[..n];
    } else {
      assert ss[n := s][..|ss| - 1] == ss[..|ss| - 1][n := s];
      SwitchesCostUpdate(ss[..|ss| - 1], n, s);
    }
  }

  lemma {:induction false} KillsCostUpdate(ks: seq<Kill>, t: nat, k: Kill)
    requires t < |ks|
    ensures KillsCost(ks[t := k]) + StackCost(ks[t].stack) == KillsCost(ks) + StackCost(k.stack)
  {
    if t == |ks| - 1 {
      assert ks[t := k][..t] == ks[..t];
    } else {
      assert ks[t := k][..|ks| - 1] == ks[..|ks| - 1][t := k];
      KillsCostUpdate(ks[..|ks| - 1], t, k);
    }
  }

  lemma NewChildCost(f: Forest, p: nat)
    requires Enabled(f, Child(p))
    ensures Potential(NewChild(f, p)) <= Potential(f) + 5
  {
    var f' := NewChild(f, p);
    var updated := f.switches[p := f'.switches[p]];
    var born := Switch(Some(p), f.switches[p].alive, true, [], None);
    CollectContents(f.switches[p].children, Held(f.switches), 0);
    SwitchesCostUpdate(f.switches, p, f'.switches[p]);
    assert f'.switches == updated + [born];
    assert (updated + [born])[..|updated|] == updated;
  }

  /** Replacing the top frame, pushing on it, or popping it, in terms of `StackCost`. */
  lemma TopCost(stack: seq<Frame>, fr: Frame)
    requires stack != []
    ensures StackCost(stack[|stack| - 1 := fr]) == StackCost(stack[..|stack| - 1]) + StackCost([fr])
    ensures StackCost(stack + [fr]) == StackCost(stack) + StackCost([fr])
    ensures StackCost(stack) == StackCost(stack[..|stack| - 1]) + StackCost([stack[|stack| - 1]])
  {
    assert stack[|stack| - 1 := fr][..|stack| - 1] == stack[..|stack| - 1];
    assert (stack + [fr])[..|stack|] == stack;
    assert [fr][..0] == [];
    assert [stack[|stack| - 1]][..0] == [];
  }

  /** A step that changes one switch and one stack, in terms of the two changes. */
  lemma LocalCost(f: Forest, f': Forest, t: nat, n: nat)
    requires n < |f.switches| && t < |f.kills|
    requires |f'.switches| == |f.switches| && f'.switches == f.switches[n := f'.switches[n]]
    requires |f'.kills| == |f.kills| && f'.kills == f.kills[t := f'.kills[t]]
    ensures Potential(f') + SwitchCost(f.switches[n]) + StackCost(f.kills[t].stack)
            == Potential(f) + SwitchCost(f'.switches[n]) + StackCost(f'.kills[t].stack)
  {
    SwitchesCostUpdate(f.switches, n, f'.switches[n]);
    KillsCostUpdate(f.kills, t, f'.kills[t]);
  }

  lemma MarkCost(f: Forest, t: nat)
    requires CanStep(f, t) && Top(f.kills[t]).stage.Mark?
    ensures Potential(MarkStep(f, t)) < Potential(f)
  {
    var n := Top(f.kills[t]).switch;
    LocalCost(f, MarkStep(f, t), t, n);
    TopCost(f.kills[t].stack, Frame(n, Lock));
  }

  lemma LockCost(f: Forest, t: nat)
    requires CanStep(f, t) && Top(f.kills[t]).stage.Lock?
    ensures Potential(LockStep(f, t)) < Potential(f)
  {
    var n := Top(f.kills[t]).switch;
    LocalCost(f, LockStep(f, t), t, n);
    TopCost(f.kills[t].stack, Frame(n, Drain));
  }

  lemma DrainCost(f: Forest, t: nat)
    requires CanStep(f, t) && Top(f.kills[t]).stage.Drain?
    requires f.switches[Top(f.kills[t]).switch].guard.value.rest != []
    ensures Potential(DrainStep(f, t)) < Potential(f)
  {
    var n := Top(f.kills[t]).switch;
    LocalCost(f, DrainStep(f, t), t, n);
    TopCost(f.kills[t].stack, Frame(f.switches[n].guard.value.rest[0], Mark));
  }

  /** Every step of a `kill` uses up some of the potential. */
  lemma KillStepCost(f: Forest, t: nat)
    requires Structure(f) && CanStep(f, t)
    ensures Potential(Apply(f, KillStep(t))) < Potential(f)
  {
    match Top(f.kills[t]).stage
    case Mark => MarkCost(f, t);
    case Lock => LockCost(f, t);
    case Drain =>
      if f.switches[Top(f.kills[t]).switch].guard.value.rest == [] {
        var f' := ReturnStep(f, t);
        ReturnCost(f, t);
        KillsCostUpdate(f.kills, t, f'.kills[t]);
        TopCost(f.kills[t].stack, Top(f.kills[t]));
      } else {
        DrainCost(f, t);
      }
  }

  lemma ReturnCost(f: Forest, t: nat)
    requires Structure(f) && CanStep(f, t) && Top(f.kills[t]).stage.Drain?
    requires f.switches[Top(f.kills[t]).switch].guard.value.rest == []
    ensures SwitchesCost(ReturnStep(f, t).switches) <= SwitchesCost(f.switches)
  {
    var stack := f.kills[t].stack;
    var n := Top(f.kills[t]).switch;
    var freed := f.switches[n].(guard := None);
    var f1 := f.switches[n := freed];
    SwitchesCostUpdate(f.switches, n, freed);
    if |stack| > 1 {
      assert FrameOk(f, t, |stack| - 2);
      AncestorsBelow(f, t, |stack| - 2, |stack| - 1);
      var caller := stack[|stack| - 2].switch;
      var f' := ReturnStep(f, t);
      SwitchesCostUpdate(f1, caller, f'.switches[caller]);
      assert f'.switches == f1[caller := f'.switches[caller]];
    }
  }

  predicate WithinBudget(f: Forest) {
    f.steps + Potential(f) <= 5 * f.childCalls + 3 * |f.kills|
  }

  lemma ApplyWithinBudget(f: Forest, a: Action)
    requires Structure(f) && WithinBudget(f) && Enabled(f, a)
    ensures WithinBudget(Apply(f, a))
  {
    var f' := Apply(f, a);
    match a
    case NewRoot =>
      assert f'.switches[..|f.switches|] == f.switches;
    case Child(p) => NewChildCost(f, p);
    case Release(n) => SwitchesCostUpdate(f.switches, n, f'.switches[n]);
    case CallKill(n) =>
      assert f'.kills[..|f.kills|] == f.kills;
      assert StackCost([Frame(n, Mark)]) == 3 by {
        assert [Frame(n, Mark)][..0] == [];
      }
      assert KillsCost(f'.kills) == KillsCost(f.kills) + 3;
    case KillStep(t) => KillStepCost(f, t);
  }

  // ---------------------------------------------------------------------------
  // Main results, over every run

  ghost predicate Inv(f: Forest) {
    Safe(f) && OnlyUnderKill(f) && WithinBudget(f)
  }

  lemma {:induction false} InvAlways(run: seq<Forest>, n: nat)
    requires Behavior(run) && n < |run|
    ensures Inv(run[n])
  {
    hide Apply, Enabled, OnlyUnderKill, WithinBudget, Structure, AllTracked, Sealed;
    if n == 0 {
      InitInv(run[0]);
    } else {
      InvAlways(run, n - 1);
      assert Next(run[n - 1], run[n - 1 + 1]);
      var a :| Enabled(run[n - 1], a) && run[n] == Apply(run[n - 1], a);
      ApplySafe(run[n - 1], a);
      ApplyOnlyUnderKill(run[n - 1], a);
      ApplyWithinBudget(run[n - 1], a);
    }
  }

  lemma InitInv(f: Forest)
    requires Init(f)
    ensures Inv(f)
  {
  }

  /** A chain of held switches leads from `a` down to `d`. */
  predicate HeldChain(f: Forest, a: nat, d: nat)
    decreases d
  {
    || d == a
    || (d < |f.switches| && f.switches[d].held && f.switches[d].parent.Some?
        && f.switches[d].parent.value < d && HeldChain(f, a, f.switches[d].parent.value))
  }

  lemma {:induction false} ChainSealed(f: Forest, a: nat, d: nat)
    requires Sealed(f) && a in f.sealed && HeldChain(f, a, d)
    ensures d in f.sealed
    decreases d
  {
    if d != a {
      ChainSealed(f, a, f.switches[d].parent.value);
    }
  }

  /**
   Once a `kill` has returned, every switch reachable from its own through a chain of held child
   switches is dead, now and ever after, whenever those switches were created.
   */
  lemma KillReachesHeldDescendants(run: seq<Forest>, n: nat, t: nat, d: nat)
    requires Behavior(run) && n < |run|
    requires t < |run[n].kills| && run[n].kills[t].stack == []
    requires d < |run[n].switches| && HeldChain(run[n], run[n].kills[t].root, d)
    ensures !run[n].switches[d].alive
  {
    InvAlways(run, n);
    ChainSealed(run[n], run[n].kills[t].root, d);
  }

  /** No switch dies unless `kill` was called on it or on one of its ancestors. */
  lemma OnlyDescendantsDie(run: seq<Forest>, n: nat, d: nat)
    requires Behavior(run) && n < |run|
    requires d < |run[n].switches| && !run[n].switches[d].alive
    ensures UnderKill(run[n], d)
  {
    InvAlways(run, n);
  }

  /**
   The recursion terminates: all the kills of a run together take at most five steps per `child`
   call and three per `kill` call, however the calls interleave.
   */
  lemma KillsTakeBoundedSteps(run: seq<Forest>, n: nat)
    requires Behavior(run) && n < |run|
    ensures run[n].steps <= 5 * run[n].childCalls + 3 * |run[n].kills|
  {
    InvAlways(run, n);
  }

  /**
   Kills never deadlock on the mutexes they hold while they recurse: as long as one is running, one
   of those running can take a step.
   */
  lemma {:induction false} KillsNeverDeadlock(run: seq<Forest>, n: nat, t: nat) returns (u: nat)
    requires Behavior(run) && n < |run|
    requires t < |run[n].kills| && run[n].kills[t].stack != []
    ensures CanStep(run[n], u)
  {
    InvAlways(run, n);
    u := Unblocked(run[n], t);
  }

  /** Follow the mutex from waiter to owner: each hop leads strictly further down the tree. */
  lemma {:induction false} Unblocked(f: Forest, t: nat) returns (u: nat)
    requires Structure(f) && t < |f.kills| && f.kills[t].stack != []
    ensures CanStep(f, u)
    decreases |f.switches| - Top(f.kills[t]).switch
  {
    var stack := f.kills[t].stack;
    assert FrameOk(f, t, |stack| - 1);
    var n := Top(f.kills[t]).switch;
    if CanStep(f, t) {
      u := t;
    } else {
      assert GuardOwned(f, n);
      var owner := f.switches[n].guard.value.kill;
      var i :| 0 <= i < |f.kills[owner].stack| && f.kills[owner].stack[i] == Frame(n, Drain);
      var top := |f.kills[owner].stack| - 1;
      assert FrameOk(f, owner, top);
      if i == top {
        u := owner;
      } else {
        AncestorsBelow(f, owner, i, top);
        u := Unblocked(f, owner);
      }
    }
  }
}
