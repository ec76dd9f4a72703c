/**
 Actor progress kept in one 32-bit atomic word. Every load, compare-exchange and fetch is one step;
 any number of threads may be between the load and the compare-exchange of `protect_zone`.
 */
module ProgressWord {

  const TWO_32 := 0x1_0000_0000

  datatype ProgressState = NoUpdate | Updated | ProtectedZone(level: nat)

  function Encode(p: ProgressState): nat {
    match p
    case NoUpdate => 0
    case Updated => 1
    case ProtectedZone(level) => (2 + level) % TWO_32
  }

  function Decode(word: nat): ProgressState {
    if word == 0 then NoUpdate else if word == 1 then Updated else ProtectedZone(word - 2)
  }

  lemma EncodeDecode(word: nat)
    requires word < TWO_32
    ensures Encode(Decode(word)) == word
  {
  }

  /** Decoding undoes encoding exactly for the levels that fit. */
  lemma DecodeEncode(p: ProgressState)
    requires p.ProtectedZone? ==> p.level < TWO_32
    ensures Decode(Encode(p)) == p <==> (p.ProtectedZone? ==> p.level + 2 < TWO_32)
  {
    if p.ProtectedZone? && p.level + 2 >= TWO_32 {
      assert (2 + p.level) % TWO_32 == 2 + p.level - TWO_32;
    }
  }

  function Enter(p: ProgressState): ProgressState {
    match p
    case NoUpdate => ProtectedZone(0)
    case Updated => ProtectedZone(0)
    case ProtectedZone(level) => ProtectedZone(level + 1)
  }

  // ---------------------------------------------------------------------------
  // Steps

  datatype Event = Recorded | Entered | Left | Checked(active: bool)

  /**
   `loads` holds the values loaded by the threads inside `protect_zone`, `guards` counts the live
   guards, `history` is every completed operation and `panicked` says that the assertion in the
   guard's drop fired.
   */
  datatype State = State(word: nat, loads: map<nat, nat>, guards: nat, history: seq<Event>, panicked: bool)

  datatype Action = Record | Load(thread: nat) | CompareExchange(thread: nat) | Check | Drop

  predicate Init(s: State) {
    s == State(Encode(Updated), map[], 0, [], false)
  }

  predicate Enabled(s: State, a: Action) {
    match a
    case Load(thread) => thread !in s.loads
    case CompareExchange(thread) => thread in s.loads
    case Drop => s.guards > 0
    case _ => true
  }

  function Max(a: nat, b: nat): nat {
    if a < b then b else a
  }

  function TryEnter(s: State, thread: nat): State
    requires thread in s.loads
  {
    var previous := Decode(s.loads[thread]);
    var back := s.(loads := s.loads - {thread});
    if s.word == Encode(previous)
    then back.(word := Encode(Enter(previous)), guards := s.guards + 1, history := s.history + [Entered])
    else back
  }

  function Apply(s: State, a: Action): State
    requires Enabled(s, a)
  {
    match a
    case Record => s.(word := Max(s.word, Encode(Updated)), history := s.history + [Recorded])
    case Load(thread) => s.(loads := s.loads[thread := s.word])
    case CompareExchange(thread) => TryEnter(s, thread)
    case Check =>
      s.(word := if s.word == Encode(Updated) then Encode(NoUpdate) else s.word,
         history := s.history + [Checked(Decode(s.word) != NoUpdate)])
    case Drop =>
      s.(word := (s.word - 1) % TWO_32,
         guards := s.guards - 1,
         history := s.history + [Left],
         panicked := s.panicked || !Decode(s.word).ProtectedZone?)
  }

  ghost predicate Next(s: State, s': State) {
    exists a :: Enabled(s, a) && s' == Apply(s, a)
  }

  ghost predicate Behavior(run: seq<State>) {
    && |run| > 0 && Init(run[0])
    && forall i :: 0 <= i < |run| - 1 ==> Next(run[i], run[i + 1])
  }

  // ---------------------------------------------------------------------------
  // What a check ought to answer, from the history alone

  function Live(h: seq<Event>): int {
    if h == [] then 0
    else
      Live(h[..|h| - 1])
      + match h[|h| - 1] case Entered => 1 case Left => -1 case Recorded => 0 case Checked(_) => 0
  }

  predicate NoCheckFrom(h: seq<Event>, i: nat) {
    forall j :: i <= j < |h| ==> !h[j].Checked?
  }

  /** At point i of the history a guard was live or progress was being recorded. */
  predicate Stirred(h: seq<Event>, i: nat)
    requires i <= |h|
  {
    Live(h[..i]) > 0 || (i < |h| && h[i].Recorded?)
  }

  /** No check yet, or activity since the last one. */
  predicate Active(h: seq<Event>) {
    NoCheckFrom(h, 0) || exists i: nat :: i <= |h| && NoCheckFrom(h, i) && Stirred(h, i)
  }

  lemma LiveAppend(h: seq<Event>, e: Event)
    ensures Live(h + [e])
            == Live(h) + match e case Entered => 1 case Left => -1 case Recorded => 0 case Checked(_) => 0
  {
    assert (h + [e])[..|h|] == h;
  }

  lemma ActiveAfterEvent(h: seq<Event>, e: Event)
    requires e.Recorded? || (e.Entered? && Live(h) >= 0) || (e.Left? && Live(h) > 0)
    ensures Active(h + [e])
  {
    var h' := h + [e];
    LiveAppend(h, e);
    assert h'[..|h|] == h;
    assert h'[..|h'|] == h';
    var i: nat := if e.Entered? then |h'| else |h|;
    assert NoCheckFrom(h', i) && Stirred(h', i);
  }

  lemma ActiveAfterCheck(h: seq<Event>, active: bool)
    ensures Active(h + [Checked(active)]) <==> Live(h) > 0
  {
    var h' := h + [Checked(active)];
    LiveAppend(h, Checked(active));
    assert h'[..|h'|] == h';
    assert h'[|h|].Checked?;
    if Live(h) > 0 {
      assert NoCheckFrom(h', |h'|) && Stirred(h', |h'|);
    }
  }

  // ---------------------------------------------------------------------------
  // The word says how many guards are live, or whether there was activity

  function WordFor(guards: nat, active: bool): nat {
    if guards > 0 then guards + 1 else if active then 1 else 0
  }

  ghost predicate Answered(h: seq<Event>) {
    forall i :: 0 <= i < |h| && h[i].Checked? ==> (h[i].active <==> Active(h[..i]))
  }

  ghost predicate Inv(s: State) {
    && !s.panicked
    && (forall thread :: thread in s.loads ==> s.loads[thread] < TWO_32)
    && Live(s.history) == s.guards
    && s.word == WordFor(s.guards, Active(s.history))
    && (s.guards > 0 ==> Active(s.history))
    && Answered(s.history)
  }

  /** Few enough guards that the level fits its 32-bit word. */
  predicate Fits(s: State) {
    s.guards + 1 < TWO_32
  }

  lemma AnsweredAppend(h: seq<Event>, e: Event)
    requires Answered(h) && (e.Checked? ==> (e.active <==> Active(h)))
    ensures Answered(h + [e])
  {
    var h' := h + [e];
    forall i | 0 <= i < |h'| && h'[i].Checked? ensures h'[i].active <==> Active(h'[..i]) {
      if i < |h| {
        assert h'[..i] == h[..i];
      } else {
        assert h'[..i] == h;
      }
    }
  }

  lemma ApplyKeepsInv(s: State, a: Action)
    requires Inv(s) && Enabled(s, a) && Fits(s) && Fits(Apply(s, a))
    ensures Inv(Apply(s, a))
  {
    hide Active, Answered, Live;
    match a
    case Record =>
      LiveAppend(s.history, Recorded);
      ActiveAfterEvent(s.history, Recorded);
      AnsweredAppend(s.history, Recorded);
    case Load(_) =>
    case CompareExchange(thread) =>
      EnterKeepsInv(s, thread);
    case Check =>
      var e := Checked(Decode(s.word) != NoUpdate);
      LiveAppend(s.history, e);
      ActiveAfterCheck(s.history, e.active);
      AnsweredAppend(s.history, e);
    case Drop =>
      LiveAppend(s.history, Left);
      ActiveAfterEvent(s.history, Left);
      AnsweredAppend(s.history, Left);
  }

  lemma EnterKeepsInv(s: State, thread: nat)
    requires Inv(s) && thread in s.loads && Fits(s) && Fits(TryEnter(s, thread))
    ensures Inv(TryEnter(s, thread))
  {
    hide Active, Answered, Live;
    EncodeDecode(s.loads[thread]);
    LiveAppend(s.history, Entered);
    ActiveAfterEvent(s.history, Entered);
    AnsweredAppend(s.history, Entered);
  }

  lemma {:induction false} InvAlways(run: seq<State>, n: nat)
    requires Behavior(run) && n < |run| && forall i :: 0 <= i <= n ==> Fits(run[i])
    ensures Inv(run[n])
  {
    if n == 0 {
      InitInv(run[0]);
    } else {
      InvAlways(run, n - 1);
      assert Next(run[n - 1], run[n - 1 + 1]);
      var a :| Enabled(run[n - 1], a) && run[n] == Apply(run[n - 1], a);
      assert Fits(run[n - 1]) && Fits(run[n]);
      ApplyKeepsInv(run[n - 1], a);
    }
  }

  lemma InitInv(s: State)
    requires Init(s)
    ensures Inv(s)
  {
  }

  // ---------------------------------------------------------------------------
  // Main results

  /** Whatever the interleaving, the word is one more than the number of live guards. */
  lemma WordCountsGuards(run: seq<State>, n: nat)
    requires Behavior(run) && n < |run| && forall i :: 0 <= i <= n ==> Fits(run[i])
    ensures run[n].guards > 0 ==> Decode(run[n].word) == ProtectedZone(run[n].guards - 1)
    ensures run[n].guards == 0 ==> Decode(run[n].word) == (if Active(run[n].history) then Updated else NoUpdate)
  {
    InvAlways(run, n);
  }

  /** The assertion in the guard's drop never fires. */
  lemma DropNeverPanics(run: seq<State>, n: nat)
    requires Behavior(run) && n < |run| && forall i :: 0 <= i <= n ==> Fits(run[i])
    ensures !run[n].panicked
  {
    InvAlways(run, n);
  }

  /** Each check answers true if and only if there was activity since the check before it. */
  lemma ChecksAreExact(run: seq<State>, n: nat, i: nat)
    requires Behavior(run) && n < |run| && forall j :: 0 <= j <= n ==> Fits(run[j])
    requires i < |run[n].history| && run[n].history[i].Checked?
    ensures run[n].history[i].active <==> Active(run[n].history[..i])
  {
    InvAlways(run, n);
  }

  lemma CheckAfterLastDrop(h: seq<Event>, events: seq<Event>)
    requires Live(h) > 0 && NoCheckFrom(events, 0)
    ensures Active(h + events)
  {
    var h' := h + events;
    assert h'[..|h|] == h;
    assert NoCheckFrom(h', |h|) by {
      forall j | |h| <= j < |h'| ensures !h'[j].Checked? {
        assert h'[j] == events[j - |h|];
      }
    }
    assert Stirred(h', |h|);
  }

  lemma {:induction false} HistoryGrows(run: seq<State>, n: nat, m: nat)
    requires Behavior(run) && n <= m < |run|
    ensures run[n].history <= run[m].history
  {
    if n < m {
      HistoryGrows(run, n, m - 1);
      assert Next(run[m - 1], run[m - 1 + 1]);
      var a :| Enabled(run[m - 1], a) && run[m] == Apply(run[m - 1], a);
    }
  }

  /**
   The first check after a moment at which a guard was live reports activity, whether or not all
   guards were dropped in between.
   */
  lemma FirstCheckAfterGuard(run: seq<State>, n: nat, m: nat, i: nat)
    requires Behavior(run) && n <= m < |run| && forall j :: 0 <= j <= m ==> Fits(run[j])
    requires run[n].guards > 0
    requires |run[n].history| <= i < |run[m].history| && run[m].history[i].Checked?
    requires forall j :: |run[n].history| <= j < i ==> !run[m].history[j].Checked?
    ensures run[m].history[i].active
  {
    HistoryGrows(run, n, m);
    InvAlways(run, n);
    ChecksAreExact(run, m, i);
    var h, later := run[n].history, run[m].history[|run[n].history|..i];
    assert run[m].history[..i] == h + later;
    CheckAfterLastDrop(h, later);
  }

  lemma {:induction false} LoadedValueWasCurrent(run: seq<State>, n: nat, thread: nat) returns (m: nat)
    requires Behavior(run) && n < |run| && thread in run[n].loads
    ensures m <= n && run[m].word == run[n].loads[thread]
    ensures forall i :: m <= i <= n ==> thread in run[i].loads && run[i].loads[thread] == run[n].loads[thread]
  {
    assert n > 0;
    assert Next(run[n - 1], run[n - 1 + 1]);
    var a :| Enabled(run[n - 1], a) && run[n] == Apply(run[n - 1], a);
    if a == Load(thread) {
      m := n;
    } else {
      m := LoadedValueWasCurrent(run, n - 1, thread);
    }
  }

  /** A compare-exchange is retried only because another thread's step changed the word meanwhile. */
  lemma RetryMeansProgress(run: seq<State>, n: nat, thread: nat) returns (m: nat)
    requires Behavior(run) && n < |run| && thread in run[n].loads && run[n].word != run[n].loads[thread]
    ensures m < n && forall i :: m <= i <= n ==> thread in run[i].loads && run[i].loads[thread] == run[n].loads[thread]
    ensures run[m].word == run[n].loads[thread] != run[m + 1].word
  {
    m := LoadedValueWasCurrent(run, n, thread);
    while run[m + 1].word == run[n].loads[thread]
      invariant m < n && run[m].word == run[n].loads[thread]
      invariant forall i :: m <= i <= n ==> thread in run[i].loads && run[i].loads[thread] == run[n].loads[thread]
      decreases n - m
    {
      m := m + 1;
    }
  }

  /** Only a successful entry can leave the range in which the level fits. */
  lemma LeavesRangeByEntering(s: State, a: Action)
    requires Inv(s) && Fits(s) && Enabled(s, a) && !Fits(Apply(s, a))
    ensures Decode(Apply(s, a).word) == NoUpdate
  {
    if a.CompareExchange? {
      EncodeDecode(s.loads[a.thread]);
    }
  }

  /**
   The limit is exact: up to the first state with 2^32 - 1 guards or more, the word counts the live
   guards if and only if their number is below that.
   */
  lemma WordCountsGuardsIffFits(run: seq<State>, n: nat)
    requires Behavior(run) && n < |run| && forall i :: 0 <= i < n ==> Fits(run[i])
    requires run[n].guards > 0
    ensures Decode(run[n].word) == ProtectedZone(run[n].guards - 1) <==> Fits(run[n])
  {
    if Fits(run[n]) {
      WordCountsGuards(run, n);
    } else {
      assert n > 0;
      InvAlways(run, n - 1);
      assert Next(run[n - 1], run[n - 1 + 1]);
      var a :| Enabled(run[n - 1], a) && run[n] == Apply(run[n - 1], a);
      LeavesRangeByEntering(run[n - 1], a);
    }
  }

  lemma Extend(run: seq<State>, a: Action) returns (run': seq<State>)
    requires |run| > 0 && Behavior(run) && Enabled(run[|run| - 1], a)
    ensures run' == run + [Apply(run[|run| - 1], a)] && Behavior(run')
  {
    hide Apply, Enabled;
    run' := run + [Apply(run[|run| - 1], a)];
    forall i | 0 <= i < |run'| - 1 ensures Next(run'[i], run'[i + 1]) {
      if i < |run| - 1 {
        assert Next(run[i], run[i + 1]);
      }
    }
  }

  /** One thread entering again and again: any number of guards up to the limit is reached. */
  lemma {:induction false} EnterTimes(guards: nat) returns (run: seq<State>)
    requires guards < TWO_32
    ensures |run| > 0 && Behavior(run)
    ensures forall i :: 0 <= i < |run| - 1 ==> Fits(run[i])
    ensures run[|run| - 1].guards == guards && run[|run| - 1].loads == map[]
  {
    if guards == 0 {
      run := [State(Encode(Updated), map[], 0, [], false)];
    } else {
      var before := EnterTimes(guards - 1);
      var s := before[|before| - 1];
      assert forall i :: 0 <= i <= |before| - 1 ==> Fits(before[i]);
      InvAlways(before, |before| - 1);
      EncodeDecode(s.word);
      hide Behavior, Inv;
      run := Extend(before, Load(0));
      assert run[|run| - 1] == s.(loads := map[0 := s.word]);
      var loaded := run;
      run := Extend(loaded, CompareExchange(0));
      assert map[0 := s.word] - {0} == map[];
    }
  }

  /** A run of 2^32 - 1 entries, none of them undone, after which the word reads `NoUpdate`. */
  lemma OneGuardTooMany() returns (run: seq<State>)
    ensures |run| > 0 && Behavior(run)
    ensures run[|run| - 1].guards == TWO_32 - 1 && Decode(run[|run| - 1].word) == NoUpdate
  {
    run := EnterTimes(TWO_32 - 1);
    var n := |run| - 1;
    assert Init(run[0]);
    InvAlways(run, n - 1);
    assert Next(run[n - 1], run[n - 1 + 1]);
    var a :| Enabled(run[n - 1], a) && run[n] == Apply(run[n - 1], a);
    LeavesRangeByEntering(run[n - 1], a);
  }
}
