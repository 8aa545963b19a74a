/** The ordering a query's `.sort({ field: 1 })` gives, modelled as a stable
    insertion sort on an integer key. A descending sort uses the negated key. */
module Sorting {
  import opened Common

  ghost predicate SortedBy<T>(s: seq<T>, key: T -> int) {
    forall i, j :: 0 <= i < j < |s| ==> key(s[i]) <= key(s[j])
  }

  /** Puts `x` in front of the first element whose key is not below its own. */
  function InsertBy<T>(x: T, s: seq<T>, key: T -> int): seq<T> {
    if s == [] || key(x) <= key(s[0]) then [x] + s
    else [s[0]] + InsertBy(x, s[1..], key)
  }

  function SortBy<T>(s: seq<T>, key: T -> int): seq<T> {
    if s == [] then [] else InsertBy(s[0], SortBy(s[1..], key), key)
  }

  lemma {:induction false} InsertByPermutes<T>(x: T, s: seq<T>, key: T -> int)
    ensures multiset(InsertBy(x, s, key)) == multiset(s) + multiset{x}
  {
    if s != [] && key(x) > key(s[0]) {
      InsertByPermutes(x, s[1..], key);
      assert s == [s[0]] + s[1..];
    }
  }

  lemma {:induction false} InsertBySorted<T>(x: T, s: seq<T>, key: T -> int)
    requires SortedBy(s, key)
    ensures SortedBy(InsertBy(x, s, key), key)
  {
    if s != [] && key(x) > key(s[0]) {
      var t := InsertBy(x, s[1..], key);
      InsertBySorted(x, s[1..], key);
      InsertByPermutes(x, s[1..], key);
      forall j | 0 <= j < |t| ensures key(s[0]) <= key(t[j]) {
        assert t[j] in multiset(t);
        assert t[j] in multiset(s[1..]) || t[j] == x;
      }
    }
  }

  /** The result of `SortBy` is ordered by the key and is a permutation of its input. */
  lemma {:induction false} SortBySortsAndPermutes<T>(s: seq<T>, key: T -> int)
    ensures SortedBy(SortBy(s, key), key)
    ensures multiset(SortBy(s, key)) == multiset(s)
  {
    if s != [] {
      SortBySortsAndPermutes(s[1..], key);
      InsertBySorted(s[0], SortBy(s[1..], key), key);
      InsertByPermutes(s[0], SortBy(s[1..], key), key);
      assert s == [s[0]] + s[1..];
    }
  }

  /** Sorting keeps the length. */
  lemma SortByLength<T>(s: seq<T>, key: T -> int)
    ensures |SortBy(s, key)| == |s|
  {
    SortBySortsAndPermutes(s, key);
    assert |multiset(SortBy(s, key))| == |multiset(s)|;
  }

  lemma SelectCons<T(!new)>(y: T, t: seq<T>, key: T -> int, c: int)
    ensures Select([y] + t, key, c) == (if key(y) == c then [y] else []) + Select(t, key, c)
  {
    assert ([y] + t)[0] == y && ([y] + t)[1..] == t;
  }

  lemma {:induction false} InsertBySelect<T(!new)>(x: T, s: seq<T>, key: T -> int, c: int)
    ensures Select(InsertBy(x, s, key), key, c)
            == (if key(x) == c then [x] else []) + Select(s, key, c)
  {
    if s == [] || key(x) <= key(s[0]) {
      SelectCons(x, s, key, c);
    } else {
      var t := InsertBy(x, s[1..], key);
      assert InsertBy(x, s, key) == [s[0]] + t;
      SelectCons(s[0], t, key, c);
      InsertBySelect(x, s[1..], key, c);
      assert s == [s[0]] + s[1..];
      SelectCons(s[0], s[1..], key, c);
      var a := if key(s[0]) == c then [s[0]] else [];
      var b := if key(x) == c then [x] else [];
      assert a == [] || b == [];
      AppendAssoc(a, b, Select(s[1..], key, c));
      AppendAssoc(b, a, Select(s[1..], key, c));
    }
  }

  /** Stability: the elements sharing one key keep their input order. */
  lemma {:induction false} SortByStable<T(!new)>(s: seq<T>, key: T -> int, c: int)
    ensures Select(SortBy(s, key), key, c) == Select(s, key, c)
  {
    if s != [] {
      SortByStable(s[1..], key, c);
      InsertBySelect(s[0], SortBy(s[1..], key), key, c);
    }
  }

  /** Keeping only some elements of an ordered sequence keeps it ordered. */
  lemma {:induction false} FilterSorted<T(!new)>(s: seq<T>, p: T -> bool, key: T -> int)
    requires SortedBy(s, key)
    ensures SortedBy(Filter(s, p), key)
  {
    if s != [] {
      FilterSorted(s[1..], p, key);
      var t := Filter(s[1..], p);
      forall j | 0 <= j < |t| ensures key(s[0]) <= key(t[j]) {
        assert t[j] in s[1..];
      }
    }
  }

  lemma {:induction false} SelectSorted<T(!new), K>(s: seq<T>, sel: T -> K, k: K, key: T -> int)
    requires SortedBy(s, key)
    ensures SortedBy(Select(s, sel, k), key)
  {
    if s != [] {
      SelectSorted(s[1..], sel, k, key);
      var t := Select(s[1..], sel, k);
      forall j | 0 <= j < |t| ensures key(s[0]) <= key(t[j]) {
        assert t[j] in s[1..];
      }
    }
  }
}
