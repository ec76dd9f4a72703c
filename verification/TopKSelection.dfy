/**
 Incremental selection of the k best items. The standard library's binary heap is a collection whose
 head is some entry of least order; which one among equals is left open.
 */
module TopKSelection {
  import opened Wrappers

  /** A scoring key and the total order on keys. */
  datatype Ranking<!T, !O> = Ranking(key: T -> O, leq: (O, O) -> bool)

  ghost predicate TotalOrder<O(!new)>(leq: (O, O) -> bool) {
    && (forall a, b :: leq(a, b) || leq(b, a))
    && (forall a, b :: leq(a, b) && leq(b, a) ==> a == b)
    && (forall a, b, c :: leq(a, b) && leq(b, c) ==> leq(a, c))
  }

  datatype Pair<O, T> = Pair(order: O, item: T)

  function Items<O, T>(heap: seq<Pair<O, T>>): seq<T> {
    seq(|heap|, i requires 0 <= i < |heap| => heap[i].item)
  }

  function Keys<T, O>(r: Ranking<T, O>, items: seq<T>): seq<O> {
    seq(|items|, i requires 0 <= i < |items| => r.key(items[i]))
  }

  function Min(a: nat, b: nat): nat {
    if a < b then a else b
  }

  // ---------------------------------------------------------------------------
  // What a selection is

  predicate Descending<O>(leq: (O, O) -> bool, keys: seq<O>) {
    forall i, j :: 0 <= i < j < |keys| ==> leq(keys[j], keys[i])
  }

  ghost predicate NoneBetter<T, O>(r: Ranking<T, O>, best: seq<T>, rest: seq<T>) {
    forall i, j :: 0 <= i < |best| && 0 <= j < |rest| ==> r.leq(r.key(rest[j]), r.key(best[i]))
  }

  /** `best` is a choice of k items of `all` in descending order, none of the others beating any of them. */
  ghost predicate IsTopK<T(!new), O>(r: Ranking<T, O>, k: nat, all: seq<T>, best: seq<T>) {
    && |best| == Min(k, |all|)
    && Descending(r.leq, Keys(r, best))
    && exists rest: seq<T> :: multiset(best) + multiset(rest) == multiset(all) && NoneBetter(r, best, rest)
  }

  ghost predicate IsDescendingSort<T, O>(r: Ranking<T, O>, all: seq<T>, sorted: seq<T>) {
    multiset(sorted) == multiset(all) && Descending(r.leq, Keys(r, sorted))
  }

  // ---------------------------------------------------------------------------
  // The keys of a selection are determined

  lemma WithoutOne<T>(s: seq<T>, j: nat)
    requires j < |s|
    ensures multiset(s) == multiset(s[..j] + s[j + 1..]) + multiset{s[j]}
  {
    assert s == s[..j] + [s[j]] + s[j + 1..];
  }

  lemma LastElsewhere<T>(a: seq<T>, b: seq<T>) returns (j: nat)
    requires multiset(a) == multiset(b) && a != []
    ensures j < |b| && b[j] == a[|a| - 1]
    ensures multiset(a[..|a| - 1]) == multiset(b[..j] + b[j + 1..])
  {
    var n := |a| - 1;
    assert a[n] in multiset(a);
    assert a[n] in b;
    j :| 0 <= j < |b| && b[j] == a[n];
    WithoutOne(b, j);
    WithoutOne(a, n);
    assert a[..n] + a[n + 1..] == a[..n];
    assert multiset(a[..n]) == multiset(a) - multiset{a[n]};
  }

  lemma {:induction false} SameKeys<T, O>(r: Ranking<T, O>, a: seq<T>, b: seq<T>)
    requires multiset(a) == multiset(b)
    ensures multiset(Keys(r, a)) == multiset(Keys(r, b))
  {
    if a == [] {
      assert |multiset(b)| == 0;
      assert b == [];
    } else {
      var n := |a| - 1;
      var j := LastElsewhere(a, b);
      hide Keys;
      SameKeys(r, a[..n], b[..j] + b[j + 1..]);
      KeysAround(r, b, j);
      KeysAround(r, a, n);
      assert a[..n] + a[n + 1..] == a[..n];
    }
  }

  lemma KeysAround<T, O>(r: Ranking<T, O>, b: seq<T>, j: nat)
    requires j < |b|
    ensures multiset(Keys(r, b)) == multiset(Keys(r, b[..j] + b[j + 1..])) + multiset{r.key(b[j])}
  {
    var before, after := Keys(r, b[..j]), Keys(r, b[j + 1..]);
    assert Keys(r, b) == before + [r.key(b[j])] + after;
    assert Keys(r, b[..j] + b[j + 1..]) == before + after;
  }

  /** The first key of a descending selection is the greatest of all. */
  lemma FirstIsGreatest<O(!new)>(leq: (O, O) -> bool, a: seq<O>, rest: multiset<O>, x: O)
    requires TotalOrder(leq) && Descending(leq, a) && a != []
    requires forall y, i :: y in rest && 0 <= i < |a| ==> leq(y, a[i])
    requires x in multiset(a) + rest
    ensures leq(x, a[0])
  {
    if x !in rest {
      assert x in a;
      var i :| 0 <= i < |a| && a[i] == x;
    }
  }

  lemma TailKeys<O>(a: seq<O>, rest: multiset<O>)
    requires a != []
    ensures multiset(a[1..]) + rest == (multiset(a) + rest) - multiset{a[0]}
  {
    assert a == [a[0]] + a[1..];
  }

  lemma {:induction false} TopKeysUnique<O(!new)>(leq: (O, O) -> bool, a: seq<O>, restA: multiset<O>,
                                                  b: seq<O>, restB: multiset<O>)
    requires TotalOrder(leq) && |a| == |b|
    requires Descending(leq, a) && forall y, i :: y in restA && 0 <= i < |a| ==> leq(y, a[i])
    requires Descending(leq, b) && forall y, i :: y in restB && 0 <= i < |b| ==> leq(y, b[i])
    requires multiset(a) + restA == multiset(b) + restB
    ensures a == b
  {
    if a != [] {
      assert a[0] in multiset(a) + restA && b[0] in multiset(b) + restB;
      FirstIsGreatest(leq, a, restA, b[0]);
      FirstIsGreatest(leq, b, restB, a[0]);
      TailKeys(a, restA);
      TailKeys(b, restB);
      TopKeysUnique(leq, a[1..], restA, b[1..], restB);
    }
  }

  lemma RestKeys<T, O>(r: Ranking<T, O>, all: seq<T>, best: seq<T>, rest: seq<T>)
    requires multiset(best) + multiset(rest) == multiset(all) && NoneBetter(r, best, rest)
    ensures multiset(Keys(r, best)) + multiset(Keys(r, rest)) == multiset(Keys(r, all))
    ensures forall y, i :: y in multiset(Keys(r, rest)) && 0 <= i < |best| ==> r.leq(y, Keys(r, best)[i])
  {
    assert multiset(best + rest) == multiset(all);
    SameKeys(r, best + rest, all);
    assert Keys(r, best + rest) == Keys(r, best) + Keys(r, rest);
    forall y, i | y in multiset(Keys(r, rest)) && 0 <= i < |best| ensures r.leq(y, Keys(r, best)[i]) {
      assert y in Keys(r, rest);
      var j :| 0 <= j < |rest| && Keys(r, rest)[j] == y;
    }
  }

  // ---------------------------------------------------------------------------
  // Main results

  /** Any two selections of the same items, in whatever batches, have the same keys. */
  lemma SelectionsAgree<T(!new), O(!new)>(r: Ranking<T, O>, k: nat, all: seq<T>, a: seq<T>, b: seq<T>)
    requires TotalOrder(r.leq) && IsTopK(r, k, all, a) && IsTopK(r, k, all, b)
    ensures Keys(r, a) == Keys(r, b)
  {
    var restA: seq<T> :| multiset(a) + multiset(restA) == multiset(all) && NoneBetter(r, a, restA);
    var restB: seq<T> :| multiset(b) + multiset(restB) == multiset(all) && NoneBetter(r, b, restB);
    RestKeys(r, all, a, restA);
    RestKeys(r, all, b, restB);
    TopKeysUnique(r.leq, Keys(r, a), multiset(Keys(r, restA)), Keys(r, b), multiset(Keys(r, restB)));
  }

  lemma SortPrefixIsTopK<T(!new), O>(r: Ranking<T, O>, k: nat, all: seq<T>, sorted: seq<T>)
    requires IsDescendingSort(r, all, sorted)
    ensures Min(k, |all|) <= |sorted| && IsTopK(r, k, all, sorted[..Min(k, |all|)])
  {
    assert |multiset(sorted)| == |multiset(all)|;
    var n := Min(k, |all|);
    var best, rest := sorted[..n], sorted[n..];
    assert sorted == best + rest;
    forall i, j | 0 <= i < |best| && 0 <= j < |rest| ensures r.leq(r.key(rest[j]), r.key(best[i])) {
      assert r.leq(Keys(r, sorted)[n + j], Keys(r, sorted)[i]);
    }
    forall i, j | 0 <= i < j < n ensures r.leq(Keys(r, best)[j], Keys(r, best)[i]) {
      assert r.leq(Keys(r, sorted)[j], Keys(r, sorted)[i]);
    }
    assert multiset(best) + multiset(rest) == multiset(all) && NoneBetter(r, best, rest);
  }

  /** The keys of a selection are the first k keys of every full descending sort. */
  lemma SelectionIsSortPrefix<T(!new), O(!new)>(r: Ranking<T, O>, k: nat, all: seq<T>, best: seq<T>, sorted: seq<T>)
    requires TotalOrder(r.leq) && IsTopK(r, k, all, best) && IsDescendingSort(r, all, sorted)
    ensures |best| <= |sorted| && Keys(r, best) == Keys(r, sorted)[..|best|]
  {
    SortPrefixIsTopK(r, k, all, sorted);
    SelectionsAgree(r, k, all, best, sorted[..|best|]);
    assert Keys(r, sorted[..|best|]) == Keys(r, sorted)[..|best|];
  }

  // ---------------------------------------------------------------------------
  // What the heap keeps, step by step

  ghost predicate Keeps<T, O>(r: Ranking<T, O>, k: nat, added: seq<T>, heap: seq<Pair<O, T>>, rest: seq<T>) {
    && |heap| == Min(k, |added|)
    && (forall i :: 0 <= i < |heap| ==> heap[i].order == r.key(heap[i].item))
    && multiset(Items(heap)) + multiset(rest) == multiset(added)
    && NoneBetter(r, Items(heap), rest)
  }

  lemma KeepsSize<T, O>(r: Ranking<T, O>, k: nat, added: seq<T>, heap: seq<Pair<O, T>>, rest: seq<T>)
    requires Keeps(r, k, added, heap, rest)
    ensures |heap| + |rest| == |added| && |heap| <= k && Keyed(r, heap)
  {
    assert |multiset(Items(heap)) + multiset(rest)| == |multiset(added)|;
  }

  lemma KeepsNothing<T, O>(r: Ranking<T, O>, k: nat)
    ensures Keeps(r, k, [], [], [])
  {
  }

  lemma Pushed<T, O>(r: Ranking<T, O>, k: nat, added: seq<T>, heap: seq<Pair<O, T>>, rest: seq<T>, item: T)
    requires Keeps(r, k, added, heap, rest) && |heap| < k
    ensures Keeps(r, k, added + [item], heap + [Pair(r.key(item), item)], rest)
  {
    KeepsSize(r, k, added, heap, rest);
    assert rest == [];
    assert Items(heap + [Pair(r.key(item), item)]) == Items(heap) + [item];
  }

  lemma NothingKept<T, O>(r: Ranking<T, O>, added: seq<T>, heap: seq<Pair<O, T>>, rest: seq<T>, items: seq<T>)
    requires Keeps(r, 0, added, heap, rest)
    ensures Keeps(r, 0, added + items, heap, rest + items)
  {
  }

  ghost predicate IsHead<T, O>(r: Ranking<T, O>, heap: seq<Pair<O, T>>, h: nat) {
    h < |heap| && forall i :: 0 <= i < |heap| ==> r.leq(heap[h].order, heap[i].order)
  }

  lemma NotBetter<T, O(!new)>(r: Ranking<T, O>, k: nat, added: seq<T>, heap: seq<Pair<O, T>>, rest: seq<T>,
                              h: nat, item: T)
    requires TotalOrder(r.leq) && Keeps(r, k, added, heap, rest) && |heap| == k
    requires IsHead(r, heap, h) && r.leq(r.key(item), heap[h].order)
    ensures Keeps(r, k, added + [item], heap, rest + [item])
  {
    var rest' := rest + [item];
    forall i, j | 0 <= i < |heap| && 0 <= j < |rest'|
      ensures r.leq(r.key(rest'[j]), r.key(Items(heap)[i]))
    {
      assert r.leq(heap[h].order, heap[i].order);
      assert j < |rest| ==> r.leq(r.key(rest[j]), r.key(Items(heap)[i]));
    }
  }

  lemma ReplacedItems<T, O>(heap: seq<Pair<O, T>>, h: nat, p: Pair<O, T>)
    requires h < |heap|
    ensures Items(heap[h := p]) == Items(heap)[h := p.item]
    ensures multiset(Items(heap[h := p])) + multiset{heap[h].item} == multiset(Items(heap)) + multiset{p.item}
  {
    assert multiset(Items(heap)[h := p.item]) == multiset(Items(heap)) - multiset{heap[h].item} + multiset{p.item};
  }

  lemma Replaced<T, O(!new)>(r: Ranking<T, O>, k: nat, added: seq<T>, heap: seq<Pair<O, T>>, rest: seq<T>,
                             h: nat, item: T)
    requires TotalOrder(r.leq) && Keeps(r, k, added, heap, rest) && |heap| == k
    requires IsHead(r, heap, h) && !r.leq(r.key(item), heap[h].order)
    ensures Keeps(r, k, added + [item], heap[h := Pair(r.key(item), item)], rest + [heap[h].item])
  {
    var heap', rest' := heap[h := Pair(r.key(item), item)], rest + [heap[h].item];
    ReplacedItems(heap, h, Pair(r.key(item), item));
    forall i, j | 0 <= i < |heap'| && 0 <= j < |rest'|
      ensures r.leq(r.key(rest'[j]), r.key(Items(heap')[i]))
    {
      assert r.leq(heap[h].order, heap[i].order);
      assert j < |rest| ==> r.leq(r.key(rest[j]), r.key(Items(heap)[h]))
                            && r.leq(r.key(rest[j]), r.key(Items(heap)[i]));
    }
    assert multiset(rest') == multiset(rest) + multiset{heap[h].item};
    assert multiset(added + [item]) == multiset(added) + multiset{item};
  }

  lemma SortedIsTopK<T(!new), O>(r: Ranking<T, O>, k: nat, added: seq<T>, heap: seq<Pair<O, T>>, rest: seq<T>,
                           sorted: seq<T>)
    requires Keeps(r, k, added, heap, rest)
    requires multiset(sorted) == multiset(Items(heap)) && Descending(r.leq, Keys(r, sorted))
    ensures IsTopK(r, k, added, sorted)
  {
    assert |multiset(sorted)| == |multiset(Items(heap))|;
    forall i, j | 0 <= i < |sorted| && 0 <= j < |rest| ensures r.leq(r.key(rest[j]), r.key(sorted[i])) {
      assert sorted[i] in multiset(Items(heap));
      assert sorted[i] in Items(heap);
    }
    assert multiset(sorted) + multiset(rest) == multiset(added) && NoneBetter(r, sorted, rest);
  }

  // ---------------------------------------------------------------------------
  // The heap operations

  /** The position of the heap's head: some entry of least order. */
  method Head<T, O(!new)>(r: Ranking<T, O>, heap: seq<Pair<O, T>>) returns (h: nat)
    requires TotalOrder(r.leq) && heap != []
    ensures IsHead(r, heap, h)
  {
    h := 0;
    for i := 1 to |heap|
      invariant h < |heap| && forall j :: 0 <= j < i ==> r.leq(heap[h].order, heap[j].order)
    {
      if !r.leq(heap[h].order, heap[i].order) {
        h := i;
      }
    }
  }

  lemma TakeOut<T, O>(heap: seq<Pair<O, T>>, h: nat)
    requires h < |heap|
    ensures multiset(Items(heap)) == multiset{heap[h].item} + multiset(Items(heap[..h] + heap[h + 1..]))
  {
    var rest := heap[..h] + heap[h + 1..];
    assert Items(heap) == Items(heap[..h]) + [heap[h].item] + Items(heap[h + 1..]);
    assert Items(rest) == Items(heap[..h]) + Items(heap[h + 1..]);
  }

  ghost predicate Keyed<T, O>(r: Ranking<T, O>, heap: seq<Pair<O, T>>) {
    forall i :: 0 <= i < |heap| ==> heap[i].order == r.key(heap[i].item)
  }

  ghost predicate AllBelow<T, O>(r: Ranking<T, O>, low: seq<T>, heap: seq<Pair<O, T>>) {
    forall i, j :: 0 <= i < |low| && 0 <= j < |heap| ==> r.leq(r.key(low[i]), heap[j].order)
  }

  /** The items in reverse heap order: best first. */
  method IntoSortedItems<T, O(!new)>(r: Ranking<T, O>, heap: seq<Pair<O, T>>) returns (sorted: seq<T>)
    requires TotalOrder(r.leq) && Keyed(r, heap)
    ensures multiset(sorted) == multiset(Items(heap)) && Descending(r.leq, Keys(r, sorted))
  {
    var left := heap;
    sorted := [];
    while left != []
      invariant Keyed(r, left) && AllBelow(r, sorted, left)
      invariant Descending(r.leq, Keys(r, sorted))
      invariant multiset(sorted) + multiset(Items(left)) == multiset(Items(heap))
      decreases |left|
    {
      var h := Head(r, left);
      TakeOut(left, h);
      PopBelow(r, sorted, left, h);
      sorted := [left[h].item] + sorted;
      left := left[..h] + left[h + 1..];
    }
  }

  lemma PopBelow<T, O(!new)>(r: Ranking<T, O>, sorted: seq<T>, left: seq<Pair<O, T>>, h: nat)
    requires TotalOrder(r.leq) && Keyed(r, left) && AllBelow(r, sorted, left) && IsHead(r, left, h)
    requires Descending(r.leq, Keys(r, sorted))
    ensures var left' := left[..h] + left[h + 1..];
            var sorted' := [left[h].item] + sorted;
            && Keyed(r, left') && AllBelow(r, sorted', left')
            && Descending(r.leq, Keys(r, sorted')) && multiset(sorted') == multiset{left[h].item} + multiset(sorted)
  {
    var left' := left[..h] + left[h + 1..];
    var sorted' := [left[h].item] + sorted;
    forall j | 0 <= j < |left'| ensures left'[j] in left {
      assert left'[j] == if j < h then left[j] else left[j + 1];
    }
    assert Keyed(r, left') by {
      forall j | 0 <= j < |left'| ensures left'[j].order == r.key(left'[j].item) {
        assert left'[j] in left;
      }
    }
    forall i, j | 0 <= i < |sorted'| && 0 <= j < |left'| ensures r.leq(r.key(sorted'[i]), left'[j].order) {
      assert left'[j] in left;
      if i > 0 { assert sorted'[i] == sorted[i - 1]; }
    }
    forall i, j | 0 <= i < j < |sorted'| ensures r.leq(Keys(r, sorted')[j], Keys(r, sorted')[i]) {
      assert sorted'[j] == sorted[j - 1];
      if i > 0 { assert r.leq(Keys(r, sorted)[j - 1], Keys(r, sorted)[i - 1]); }
    }
  }

  // ---------------------------------------------------------------------------
  // Selecting at once

  /** top_k */
  method TopKOf<T(!new), O(!new)>(r: Ranking<T, O>, k: nat, items: seq<T>) returns (best: seq<T>)
    requires TotalOrder(r.leq)
    ensures IsTopK(r, k, items, best)
  {
    hide Keeps, TotalOrder;
    if k == 0 {
      ghost var rest := items;
      assert multiset([]) + multiset(rest) == multiset(items) && NoneBetter(r, [], rest);
      return [];
    }
    var heap: seq<Pair<O, T>> := [];
    ghost var rest: seq<T> := [];
    KeepsNothing(r, k);
    var i := 0;
    while i < k && i < |items|
      invariant i <= |items| && i <= k && |heap| == i && Keeps(r, k, items[..i], heap, rest)
    {
      Pushed(r, k, items[..i], heap, rest, items[i]);
      assert items[..i] + [items[i]] == items[..i + 1];
      heap := heap + [Pair(r.key(items[i]), items[i])];
      i := i + 1;
    }
    if |heap| == k {
      while i < |items|
        invariant i <= |items| && |heap| == k && Keeps(r, k, items[..i], heap, rest)
      {
        var h := Head(r, heap);
        assert items[..i] + [items[i]] == items[..i + 1];
        if !r.leq(r.key(items[i]), heap[h].order) {
          Replaced(r, k, items[..i], heap, rest, h, items[i]);
          rest := rest + [heap[h].item];
          heap := heap[h := Pair(r.key(items[i]), items[i])];
        } else {
          NotBetter(r, k, items[..i], heap, rest, h, items[i]);
          rest := rest + [items[i]];
        }
        i := i + 1;
      }
    }
    assert items[..i] == items;
    KeepsSize(r, k, items, heap, rest);
    best := IntoSortedItems(r, heap);
    SortedIsTopK(r, k, items, heap, rest, best);
  }

  // ---------------------------------------------------------------------------
  // Selecting incrementally

  class TopK<T(!new), O(!new)> {
    var heap: seq<Pair<O, T>>
    const ranking: Ranking<T, O>
    const k: nat
    ghost var added: seq<T>
    ghost var rest: seq<T>

    ghost predicate Valid()
      reads this
    {
      TotalOrder(ranking.leq) && Keeps(ranking, k, added, heap, rest)
    }

    constructor (k: nat, ranking: Ranking<T, O>)
      requires TotalOrder(ranking.leq)
      ensures Valid() && this.k == k && this.ranking == ranking && added == []
    {
      this.k := k;
      this.ranking := ranking;
      heap := [];
      added := [];
      rest := [];
    }

    predicate AtCapacity()
      reads this
    {
      |heap| >= k
    }

    method AddEntries(items: seq<T>)
      requires Valid()
      modifies this
      ensures Valid() && added == old(added) + items
    {
      hide Keeps, TotalOrder;
      if k == 0 {
        NothingKept(ranking, added, heap, rest, items);
        added := added + items;
        rest := rest + items;
        return;
      }
      var i := 0;
      KeepsSize(ranking, k, added, heap, rest);
      while !AtCapacity()
        invariant i <= |items| && Valid() && |heap| <= k && added == old(added) + items[..i]
        decreases k - |heap|
      {
        if i == |items| {
          assert items[..i] == items;
          return;
        }
        assert items[..i] + [items[i]] == items[..i + 1];
        Pushed(ranking, k, added, heap, rest, items[i]);
        heap := heap + [Pair(ranking.key(items[i]), items[i])];
        added := added + [items[i]];
        i := i + 1;
      }
      while i < |items|
        invariant i <= |items| && Valid() && |heap| == k && added == old(added) + items[..i]
      {
        assert items[..i] + [items[i]] == items[..i + 1];
        var h := Head(ranking, heap);
        if !ranking.leq(ranking.key(items[i]), heap[h].order) {
          Replaced(ranking, k, added, heap, rest, h, items[i]);
          rest := rest + [heap[h].item];
          heap := heap[h := Pair(ranking.key(items[i]), items[i])];
        } else {
          NotBetter(ranking, k, added, heap, rest, h, items[i]);
          rest := rest + [items[i]];
        }
        added := added + [items[i]];
        i := i + 1;
      }
      assert items[..i] == items;
    }

    method AddEntry(item: T)
      requires Valid()
      modifies this
      ensures Valid() && added == old(added) + [item]
    {
      AddEntries([item]);
    }

    /** A worst item of the selection, none exactly when nothing is selected. */
    method PeekWorst() returns (worst: Option<T>)
      requires Valid()
      ensures worst.None? <==> Min(k, |added|) == 0
      ensures worst.Some? ==> worst.value in Items(heap)
                              && forall i :: 0 <= i < |heap| ==>
                                   ranking.leq(ranking.key(worst.value), ranking.key(heap[i].item))
    {
      if heap == [] {
        return None;
      }
      var h := Head(ranking, heap);
      assert Items(heap)[h] == heap[h].item;
      return Some(heap[h].item);
    }

    /** The selection over everything added, in whatever batches it came. */
    method Finalize() returns (best: seq<T>)
      requires Valid()
      ensures IsTopK(ranking, k, added, best)
    {
      best := IntoSortedItems(ranking, heap);
      SortedIsTopK(ranking, k, added, heap, rest, best);
    }
  }

  /** Feeding batches one after the other and selecting once over their concatenation agree on the keys. */
  method BatchesAgreeWithTopK<T(!new), O(!new)>(ranking: Ranking<T, O>, k: nat, batches: seq<seq<T>>)
    returns (incremental: seq<T>, atOnce: seq<T>)
    requires TotalOrder(ranking.leq)
    ensures IsTopK(ranking, k, Flatten(batches), incremental) && IsTopK(ranking, k, Flatten(batches), atOnce)
    ensures Keys(ranking, incremental) == Keys(ranking, atOnce)
  {
    var topK := new TopK(k, ranking);
    for i := 0 to |batches|
      invariant topK.Valid() && topK.added == Flatten(batches[..i])
      invariant topK.k == k && topK.ranking == ranking && fresh(topK)
    {
      topK.AddEntries(batches[i]);
      assert batches[..i + 1][..i] == batches[..i];
    }
    assert batches[..|batches|] == batches;
    incremental := topK.Finalize();
    atOnce := TopKOf(ranking, k, Flatten(batches));
    SelectionsAgree(ranking, k, Flatten(batches), incremental, atOnce);
  }

  function Flatten<T>(batches: seq<seq<T>>): seq<T> {
    if batches == [] then [] else Flatten(batches[..|batches| - 1]) + batches[|batches| - 1]
  }
}
