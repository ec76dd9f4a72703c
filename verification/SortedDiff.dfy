/**
 `diff_by_key` of `quickwit-common/src/sorted_iter.rs`: the merge of two key-sorted iterators.

 The iterators are the key-ordered contents of two `BTreeMap`s and are modelled as what is left of
 each. The order on keys is any strict total order.
 */
module SortedDiff {
  datatype KeyDiff<K, V> =
    | Added(key: K, after: V)
    | Unchanged(key: K, before: V, after: V)
    | Removed(key: K, before: V)

  ghost predicate StrictTotalOrder<K(!new)>(less: (K, K) -> bool) {
    && (forall a :: !less(a, a))
    && (forall a, b :: a == b || less(a, b) || less(b, a))
    && (forall a, b, c :: less(a, b) && less(b, c) ==> less(a, c))
  }

  /** `DiffByKeyIterator::next`, called until it returns nothing. */
  function DiffByKey<K(==), V>(left: seq<(K, V)>, right: seq<(K, V)>, less: (K, K) -> bool)
    : seq<KeyDiff<K, V>>
    decreases |left| + |right|
  {
    if left != [] && right != [] then
      if less(left[0].0, right[0].0) then
        [Removed(left[0].0, left[0].1)] + DiffByKey(left[1..], right, less)
      else if left[0].0 == right[0].0 then
        [Unchanged(left[0].0, left[0].1, right[0].1)] + DiffByKey(left[1..], right[1..], less)
      else
        [Added(right[0].0, right[0].1)] + DiffByKey(left, right[1..], less)
    else if left != [] then
      [Removed(left[0].0, left[0].1)] + DiffByKey(left[1..], right, less)
    else if right != [] then
      [Added(right[0].0, right[0].1)] + DiffByKey(left, right[1..], less)
    else []
  }

  /** Strictly increasing keys. */
  predicate Sorted<K, V>(items: seq<(K, V)>, less: (K, K) -> bool) {
    forall i, j :: 0 <= i < j < |items| ==> less(items[i].0, items[j].0)
  }

  /** The map with the given contents. */
  ghost function Contents<K, V>(items: seq<(K, V)>): map<K, V> {
    if items == [] then map[] else Contents(items[1..])[items[0].0 := items[0].1]
  }

  /** The change recorded for a key is the one between the two maps. */
  ghost predicate Describes<K, V>(d: KeyDiff<K, V>, before: map<K, V>, after: map<K, V>) {
    match d
    case Added(k, v) => k !in before && k in after && after[k] == v
    case Unchanged(k, u, v) => k in before && before[k] == u && k in after && after[k] == v
    case Removed(k, u) => k in before && before[k] == u && k !in after
  }

  /** Every key of either map is recorded exactly once, with its change. */
  ghost predicate IsDiff<K, V>(diffs: seq<KeyDiff<K, V>>, before: map<K, V>, after: map<K, V>) {
    && (forall i :: 0 <= i < |diffs| ==> Describes(diffs[i], before, after))
    && (forall i, j :: 0 <= i < j < |diffs| ==> diffs[i].key != diffs[j].key)
    && (forall k :: k in before.Keys + after.Keys ==> exists i :: 0 <= i < |diffs| && diffs[i].key == k)
  }

  lemma {:induction false} ContentsKeys<K, V>(items: seq<(K, V)>, k: K)
    ensures k in Contents(items) <==> exists i :: 0 <= i < |items| && items[i].0 == k
  {
    if items != [] {
      ContentsKeys(items[1..], k);
      if k in Contents(items[1..]) {
        var i :| 0 <= i < |items[1..]| && items[1..][i].0 == k;
        assert items[i + 1].0 == k;
      }
      if i :| 0 <= i < |items| && items[i].0 == k && k != items[0].0 {
        assert items[1..][i - 1].0 == k;
      }
    }
  }

  /** The first key of a sorted list is smaller than every other key in it. */
  lemma HeadIsLeast<K(!new), V>(items: seq<(K, V)>, less: (K, K) -> bool, k: K)
    requires Sorted(items, less) && items != [] && k in Contents(items[1..])
    ensures less(items[0].0, k)
  {
    ContentsKeys(items[1..], k);
    var i :| 0 <= i < |items[1..]| && items[1..][i].0 == k;
    assert items[i + 1].0 == k;
  }

  /** A key below both heads is in neither map. */
  lemma BelowHeadAbsent<K(!new), V>(items: seq<(K, V)>, less: (K, K) -> bool, k: K)
    requires StrictTotalOrder(less) && Sorted(items, less) && items != [] && less(k, items[0].0)
    ensures k !in Contents(items)
  {
    if k in Contents(items[1..]) {
      HeadIsLeast(items, less, k);
    }
  }

  /** Prepending the change of a key that the rest does not mention. */
  lemma PrependDiff<K, V>(d: KeyDiff<K, V>, rest: seq<KeyDiff<K, V>>, before0: map<K, V>,
                          after0: map<K, V>, before: map<K, V>, after: map<K, V>)
    requires IsDiff(rest, before0, after0) && Describes(d, before, after)
    requires d.key !in before0 && d.key !in after0
    requires before == before0 || (d.key in before && before == before0[d.key := before[d.key]])
    requires after == after0 || (d.key in after && after == after0[d.key := after[d.key]])
    ensures IsDiff([d] + rest, before, after)
  {
    var diffs := [d] + rest;
    forall i | 0 <= i < |diffs| ensures Describes(diffs[i], before, after) {
      if i > 0 {
        assert Describes(rest[i - 1], before0, after0);
      }
    }
    forall k | k in before.Keys + after.Keys
      ensures exists i :: 0 <= i < |diffs| && diffs[i].key == k
    {
      if k == d.key {
        assert diffs[0].key == k;
      } else {
        assert k in before0.Keys + after0.Keys;
        var i :| 0 <= i < |rest| && rest[i].key == k;
        assert diffs[i + 1].key == k;
      }
    }
    forall i, j | 0 <= i < j < |diffs| ensures diffs[i].key != diffs[j].key {
      assert Describes(rest[j - 1], before0, after0);
      if i > 0 {
        assert rest[i - 1].key != rest[j - 1].key;
      }
    }
  }

  /** The merge records every key of either map exactly once, with its change. */
  lemma {:induction false} DiffByKeyIsDiff<K(!new), V>(left: seq<(K, V)>, right: seq<(K, V)>,
                                                      less: (K, K) -> bool)
    requires StrictTotalOrder(less) && Sorted(left, less) && Sorted(right, less)
    ensures IsDiff(DiffByKey(left, right, less), Contents(left), Contents(right))
    decreases |left| + |right|
  {
    if left == [] && right == [] {
      return;
    }
    if left != [] && (right == [] || less(left[0].0, right[0].0)) {
      var k := left[0].0;
      if k in Contents(left[1..]) { HeadIsLeast(left, less, k); }
      if right != [] { BelowHeadAbsent(right, less, k); }
      DiffByKeyIsDiff(left[1..], right, less);
      PrependDiff(Removed(k, left[0].1), DiffByKey(left[1..], right, less),
                  Contents(left[1..]), Contents(right), Contents(left), Contents(right));
    } else if left != [] && left[0].0 == right[0].0 {
      var k := left[0].0;
      if k in Contents(left[1..]) { HeadIsLeast(left, less, k); }
      if k in Contents(right[1..]) { HeadIsLeast(right, less, k); }
      DiffByKeyIsDiff(left[1..], right[1..], less);
      PrependDiff(Unchanged(k, left[0].1, right[0].1), DiffByKey(left[1..], right[1..], less),
                  Contents(left[1..]), Contents(right[1..]), Contents(left), Contents(right));
    } else {
      var k := right[0].0;
      if k in Contents(right[1..]) { HeadIsLeast(right, less, k); }
      if left != [] { BelowHeadAbsent(left, less, k); }
      DiffByKeyIsDiff(left, right[1..], less);
      PrependDiff(Added(k, right[0].1), DiffByKey(left, right[1..], less),
                  Contents(left), Contents(right[1..]), Contents(left), Contents(right));
    }
  }
}
