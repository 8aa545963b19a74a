/** The group-by-section folds: a `reduce` (or `forEach`) that fills a plain
    JavaScript object used as a dictionary. Such an object enumerates keys
    that are not array indices in insertion order, so it is modelled as an
    association list in insertion order. */
module Grouping {
  import opened Common

  /** A dictionary from a key to a list of items, keys in insertion order. */
  type Groups<K, T> = seq<(K, seq<T>)>

  /** A dictionary from a key to a counter, keys in insertion order. */
  type Counts<K> = seq<(K, nat)>

  function Keys<K, T>(g: seq<(K, T)>): (r: seq<K>)
    ensures |r| == |g|
    ensures forall i :: 0 <= i < |g| ==> r[i] == g[i].0
  {
    if g == [] then [] else [g[0].0] + Keys(g[1..])
  }

  ghost predicate DistinctKeys<K, T>(g: seq<(K, T)>) {
    forall i, j :: 0 <= i < j < |g| ==> g[i].0 != g[j].0
  }

  /** One step of the fold: `if (!acc[k]) acc[k] = []; acc[k].push(x)`. */
  function Push<K(==), T>(acc: Groups<K, T>, k: K, x: T): Groups<K, T> {
    if acc == [] then [(k, [x])]
    else if acc[0].0 == k then [(k, acc[0].1 + [x])] + acc[1..]
    else [acc[0]] + Push(acc[1..], k, x)
  }

  /** The fold itself, over `items` from first to last. */
  function GroupBy<T, K(==)>(items: seq<T>, keyOf: T -> K): Groups<K, T> {
    if items == [] then []
    else
      var n := |items| - 1;
      Push(GroupBy(items[..n], keyOf), keyOf(items[n]), items[n])
  }

  /** One step of the counting fold: `if (!acc[k]) acc[k] = 0; acc[k]++`. */
  function Bump<K(==)>(acc: Counts<K>, k: K): Counts<K> {
    if acc == [] then [(k, 1)]
    else if acc[0].0 == k then [(k, acc[0].1 + 1)] + acc[1..]
    else [acc[0]] + Bump(acc[1..], k)
  }

  function CountBy<T, K(==)>(items: seq<T>, keyOf: T -> K): Counts<K> {
    if items == [] then []
    else
      var n := |items| - 1;
      Bump(CountBy(items[..n], keyOf), keyOf(items[n]))
  }

  /** The size of every group, keys in the same order. */
  function Sizes<K, T>(g: Groups<K, T>): (r: Counts<K>)
    ensures |r| == |g|
    ensures forall i :: 0 <= i < |g| ==> r[i] == (g[i].0, |g[i].1|)
  {
    if g == [] then [] else [(g[0].0, |g[0].1|)] + Sizes(g[1..])
  }

  function Total<K>(c: Counts<K>): nat {
    if c == [] then 0 else c[0].1 + Total(c[1..])
  }

  /** `g` is what grouping `items` by `keyOf` should give: one entry per key
      that occurs, and under each key exactly the items with that key, in
      input order. */
  ghost predicate GroupedBy<T(!new), K(!new)>(g: Groups<K, T>, items: seq<T>, keyOf: T -> K) {
    && DistinctKeys(g)
    && (forall i :: 0 <= i < |g| ==> g[i].1 == Select(items, keyOf, g[i].0) && g[i].1 != [])
    && (forall x :: x in items ==> keyOf(x) in Keys(g))
  }

  lemma KeysCons<K, T>(a: (K, T), g: seq<(K, T)>)
    ensures Keys([a] + g) == [a.0] + Keys(g)
  {
    assert ([a] + g)[1..] == g;
  }

  lemma {:induction false} PushLength<K, T>(acc: Groups<K, T>, k: K, x: T)
    ensures |Push(acc, k, x)| == if k in Keys(acc) then |acc| else |acc| + 1
  {
    if acc != [] && acc[0].0 != k {
      KeysCons(acc[0], acc[1..]);
      assert [acc[0]] + acc[1..] == acc;
      PushLength(acc[1..], k, x);
    } else if acc != [] {
      assert Keys(acc)[0] == k;
    }
  }

  lemma DistinctTail<K, T>(acc: Groups<K, T>)
    requires acc != [] && DistinctKeys(acc)
    ensures DistinctKeys(acc[1..])
  {
    forall i, j | 0 <= i < j < |acc[1..]| ensures acc[1..][i].0 != acc[1..][j].0 {
      assert acc[1..][i] == acc[i + 1] && acc[1..][j] == acc[j + 1];
    }
  }

  lemma {:induction false} PushAt<K, T>(acc: Groups<K, T>, k: K, x: T)
    requires DistinctKeys(acc)
    ensures forall i :: 0 <= i < |acc| ==>
      i < |Push(acc, k, x)| && Push(acc, k, x)[i] == if acc[i].0 == k then (k, acc[i].1 + [x]) else acc[i]
  {
    if acc == [] {
    } else if acc[0].0 == k {
      var r := Push(acc, k, x);
      assert r == [(k, acc[0].1 + [x])] + acc[1..];
      forall i | 0 < i < |acc| ensures r[i] == acc[i] && acc[i].0 != k {
        assert r[i] == acc[1..][i - 1];
      }
    } else {
      var r := Push(acc, k, x);
      var t := Push(acc[1..], k, x);
      assert r == [acc[0]] + t;
      DistinctTail(acc);
      PushAt(acc[1..], k, x);
      forall i | 0 < i < |acc| ensures i < |r| && r[i] == if acc[i].0 == k then (k, acc[i].1 + [x]) else acc[i] {
        assert acc[i] == acc[1..][i - 1];
        assert r[i] == t[i - 1];
      }
    }
  }

  lemma {:induction false} PushLast<K, T>(acc: Groups<K, T>, k: K, x: T)
    requires k !in Keys(acc)
    ensures |Push(acc, k, x)| == |acc| + 1 && Push(acc, k, x)[|acc|] == (k, [x])
  {
    if acc != [] {
      KeysCons(acc[0], acc[1..]);
      assert [acc[0]] + acc[1..] == acc;
      PushLast(acc[1..], k, x);
    }
  }

  /** What one push does: an existing key's list grows by the item, a new
      key is added at the end with the item alone, nothing else moves. */
  lemma PushShape<K, T>(acc: Groups<K, T>, k: K, x: T)
    requires DistinctKeys(acc)
    ensures var r := Push(acc, k, x);
      && |r| == (if k in Keys(acc) then |acc| else |acc| + 1)
      && (forall i :: 0 <= i < |acc| ==> r[i] == if acc[i].0 == k then (k, acc[i].1 + [x]) else acc[i])
      && (k !in Keys(acc) ==> r[|acc|] == (k, [x]))
  {
    PushLength(acc, k, x);
    PushAt(acc, k, x);
    if k !in Keys(acc) {
      PushLast(acc, k, x);
    }
  }

  lemma {:induction false} PushKeysSeq<K, T>(acc: Groups<K, T>, k: K, x: T)
    ensures Keys(Push(acc, k, x)) == if k in Keys(acc) then Keys(acc) else Keys(acc) + [k]
  {
    if acc == [] {
    } else if acc[0].0 == k {
      PushKeysHead(acc, k, x);
    } else {
      PushKeysSeq(acc[1..], k, x);
      PushKeysSkip(acc, k, x);
    }
  }

  lemma PushKeysHead<K, T>(acc: Groups<K, T>, k: K, x: T)
    requires acc != [] && acc[0].0 == k
    ensures k in Keys(acc) && Keys(Push(acc, k, x)) == Keys(acc)
  {
    assert Push(acc, k, x) == [(k, acc[0].1 + [x])] + acc[1..];
    KeysCons((k, acc[0].1 + [x]), acc[1..]);
    KeysCons(acc[0], acc[1..]);
    assert [acc[0]] + acc[1..] == acc;
  }

  lemma PushKeysSkip<K, T>(acc: Groups<K, T>, k: K, x: T)
    requires acc != [] && acc[0].0 != k
    requires Keys(Push(acc[1..], k, x)) == if k in Keys(acc[1..]) then Keys(acc[1..]) else Keys(acc[1..]) + [k]
    ensures Keys(Push(acc, k, x)) == if k in Keys(acc) then Keys(acc) else Keys(acc) + [k]
  {
    var a := acc[0].0;
    var tail := Keys(acc[1..]);
    var pt := Push(acc[1..], k, x);
    assert Push(acc, k, x) == [acc[0]] + pt;
    KeysCons(acc[0], pt);
    KeysCons(acc[0], acc[1..]);
    assert [acc[0]] + acc[1..] == acc;
    assert Keys(acc) == [a] + tail;
    if k !in tail {
      AppendAssoc([a], tail, [k]);
    }
  }

  /** Pushing keeps the keys distinct and adds only the pushed key, at the end. */
  lemma PushKeys<K, T>(acc: Groups<K, T>, k: K, x: T)
    requires DistinctKeys(acc)
    ensures DistinctKeys(Push(acc, k, x))
    ensures Keys(Push(acc, k, x)) == if k in Keys(acc) then Keys(acc) else Keys(acc) + [k]
  {
    PushKeysSeq(acc, k, x);
    var g := Push(acc, k, x);
    var ks := Keys(g);
    forall i, j | 0 <= i < j < |g| ensures g[i].0 != g[j].0 {
      assert ks[i] == g[i].0 && ks[j] == g[j].0;
      if j < |acc| {
        assert Keys(acc)[i] == acc[i].0 && Keys(acc)[j] == acc[j].0;
      } else {
        assert Keys(acc)[i] == acc[i].0;
      }
    }
  }

  lemma {:induction false} PushTotal<K, T>(acc: Groups<K, T>, k: K, x: T)
    ensures Total(Sizes(Push(acc, k, x))) == Total(Sizes(acc)) + 1
  {
    if acc != [] && acc[0].0 != k {
      PushTotal(acc[1..], k, x);
      assert Sizes(acc)[1..] == Sizes(acc[1..]);
      assert Sizes(Push(acc, k, x))[1..] == Sizes(Push(acc[1..], k, x));
    } else if acc != [] {
      assert Sizes(acc)[1..] == Sizes(acc[1..]);
      assert Sizes(Push(acc, k, x))[1..] == Sizes(acc[1..]);
    }
  }

  lemma {:induction false} BumpSizes<K, T>(acc: Groups<K, T>, k: K, x: T)
    ensures Bump(Sizes(acc), k) == Sizes(Push(acc, k, x))
  {
    if acc != [] && acc[0].0 != k {
      BumpSizes(acc[1..], k, x);
      assert Sizes(acc)[1..] == Sizes(acc[1..]);
    } else if acc != [] {
      assert Sizes(acc)[1..] == Sizes(acc[1..]);
    }
  }

  lemma PushGroupsKeys<T(!new), K(!new)>(acc: Groups<K, T>, pre: seq<T>, x: T, keyOf: T -> K)
    requires GroupedBy(acc, pre, keyOf)
    ensures var g := Push(acc, keyOf(x), x);
      && DistinctKeys(g)
      && (forall y :: y in pre + [x] ==> keyOf(y) in Keys(g))
  {
    PushKeys(acc, keyOf(x), x);
    var g := Push(acc, keyOf(x), x);
    assert keyOf(x) in Keys(g);
    assert forall j :: j in Keys(acc) ==> j in Keys(g);
  }

  lemma PushGroupsBuckets<T(!new), K(!new)>(acc: Groups<K, T>, pre: seq<T>, x: T, keyOf: T -> K)
    requires GroupedBy(acc, pre, keyOf)
    ensures var g := Push(acc, keyOf(x), x);
      forall i :: 0 <= i < |g| ==> g[i].1 == Select(pre + [x], keyOf, g[i].0) && g[i].1 != []
  {
    PushShape(acc, keyOf(x), x);
    var g := Push(acc, keyOf(x), x);
    forall i | 0 <= i < |g| ensures g[i].1 == Select(pre + [x], keyOf, g[i].0) && g[i].1 != [] {
      SelectAppend(pre, [x], keyOf, g[i].0);
      if i == |acc| {
        assert keyOf(x) !in Keys(acc);
        SelectAbsent(pre, keyOf, keyOf(x));
        assert g[i] == (keyOf(x), [x]);
      } else if acc[i].0 == keyOf(x) {
        assert g[i] == (keyOf(x), acc[i].1 + [x]);
      } else {
        assert g[i] == acc[i];
      }
    }
  }

  /** The fold groups correctly: every item lands exactly once, under its
      own key, and each group keeps the items' input order. */
  lemma {:induction false} GroupByGroups<T(!new), K(!new)>(items: seq<T>, keyOf: T -> K)
    ensures GroupedBy(GroupBy(items, keyOf), items, keyOf)
  {
    if items != [] {
      var n := |items| - 1;
      assert items == items[..n] + [items[n]];
      GroupByGroups(items[..n], keyOf);
      PushGroupsKeys(GroupBy(items[..n], keyOf), items[..n], items[n], keyOf);
      PushGroupsBuckets(GroupBy(items[..n], keyOf), items[..n], items[n], keyOf);
    }
  }

  /** No item is lost or duplicated: the groups' sizes add up to the number of items. */
  lemma {:induction false} GroupByTotal<T, K>(items: seq<T>, keyOf: T -> K)
    ensures Total(Sizes(GroupBy(items, keyOf))) == |items|
  {
    if items != [] {
      var n := |items| - 1;
      GroupByTotal(items[..n], keyOf);
      PushTotal(GroupBy(items[..n], keyOf), keyOf(items[n]), items[n]);
    }
  }

  /** The counting fold counts what the grouping fold collects. */
  lemma {:induction false} CountByIsSizes<T, K>(items: seq<T>, keyOf: T -> K)
    ensures CountBy(items, keyOf) == Sizes(GroupBy(items, keyOf))
  {
    if items != [] {
      var n := |items| - 1;
      CountByIsSizes(items[..n], keyOf);
      BumpSizes(GroupBy(items[..n], keyOf), keyOf(items[n]), items[n]);
    }
  }
  ghost predicate KeysAscending<K, T>(g: seq<(K, T)>, rank: K -> int) {
    forall i, j :: 0 <= i < j < |g| ==> rank(g[i].0) < rank(g[j].0)
  }

  /** Pushing under a key ranked at least as high as every key present keeps
      the keys in strictly ascending rank. */
  lemma PushKeysAscending<K, T>(acc: Groups<K, T>, k: K, x: T, rank: K -> int)
    requires forall a, b :: rank(a) == rank(b) ==> a == b
    requires DistinctKeys(acc) && KeysAscending(acc, rank)
    requires forall i :: 0 <= i < |acc| ==> rank(acc[i].0) <= rank(k)
    ensures KeysAscending(Push(acc, k, x), rank)
    ensures forall i :: 0 <= i < |Push(acc, k, x)| ==> rank(Push(acc, k, x)[i].0) <= rank(k)
  {
    PushShape(acc, k, x);
    var g := Push(acc, k, x);
    forall i | 0 <= i < |acc| ensures g[i].0 == acc[i].0 && (acc[i].0 != k ==> rank(acc[i].0) < rank(k)) {
    }
    if k !in Keys(acc) {
      forall i | 0 <= i < |acc| ensures acc[i].0 != k {
        assert Keys(acc)[i] == acc[i].0;
      }
    }
  }

  /** Grouping a sequence ordered by an injective rank of its keys lists the
      keys in strictly ascending rank. */
  lemma {:induction false} GroupByKeysAscending<T, K>(items: seq<T>, keyOf: T -> K, rank: K -> int)
    requires forall a, b :: rank(a) == rank(b) ==> a == b
    requires forall i, j :: 0 <= i < j < |items| ==> rank(keyOf(items[i])) <= rank(keyOf(items[j]))
    ensures KeysAscending(GroupBy(items, keyOf), rank)
    ensures DistinctKeys(GroupBy(items, keyOf))
    ensures items != [] ==>
      forall i :: 0 <= i < |GroupBy(items, keyOf)| ==> rank(GroupBy(items, keyOf)[i].0) <= rank(keyOf(items[|items| - 1]))
  {
    if items != [] {
      var n := |items| - 1;
      var pre := items[..n];
      var acc := GroupBy(pre, keyOf);
      var k := keyOf(items[n]);
      assert forall i, j :: 0 <= i < j < |pre| ==> pre[i] == items[i] && pre[j] == items[j];
      GroupByKeysAscending(pre, keyOf, rank);
      if pre != [] {
        assert rank(keyOf(pre[n - 1])) <= rank(k);
      }
      PushKeysAscending(acc, k, items[n], rank);
      PushShape(acc, k, items[n]);
      var g := Push(acc, k, items[n]);
      assert DistinctKeys(g) by {
        forall i, j | 0 <= i < j < |g| ensures g[i].0 != g[j].0 {
        }
      }
    }
  }
}
