/** Python's `list.sort(key=..., reverse=True)` on an integer key: a stable
    sort into non-increasing key order. Elements with equal keys keep the
    order they had before the sort. */
module Sorting {

  predicate SortedDesc<T>(s: seq<T>, key: T -> int) {
    forall i, j :: 0 <= i < j < |s| ==> key(s[i]) >= key(s[j])
  }

  /** The elements of `s` whose key is `k`, in their order in `s`. */
  function WithKey<T>(s: seq<T>, key: T -> int, k: int): (r: seq<T>)
    ensures |r| <= |s|
    ensures forall i :: 0 <= i < |r| ==> key(r[i]) == k
  {
    if s == [] then []
    else (if key(s[0]) == k then [s[0]] else []) + WithKey(s[1..], key, k)
  }

  /** Sum of the keys, as `sum(cnt for _, cnt in counts)`. */
  function SumKeys<T>(s: seq<T>, key: T -> int): int {
    if s == [] then 0 else key(s[0]) + SumKeys(s[1..], key)
  }

  /** Places `x` in front of the first element whose key is not greater than
      its own, so that `x` precedes every element with an equal key. */
  function Insert<T>(x: T, s: seq<T>, key: T -> int): (r: seq<T>)
    ensures |r| == |s| + 1
    ensures multiset(r) == multiset(s) + multiset{x}
  {
    if s == [] || key(s[0]) <= key(x) then [x] + s
    else
      assert s == [s[0]] + s[1..];
      [s[0]] + Insert(x, s[1..], key)
  }

  function SortDesc<T>(s: seq<T>, key: T -> int): (r: seq<T>)
    ensures |r| == |s|
    ensures multiset(r) == multiset(s)
  {
    if s == [] then []
    else
      assert s == [s[0]] + s[1..];
      Insert(s[0], SortDesc(s[1..], key), key)
  }

  lemma {:induction false} InsertSorted<T>(x: T, s: seq<T>, key: T -> int)
    requires SortedDesc(s, key)
    ensures SortedDesc(Insert(x, s, key), key)
  {
    if s == [] || key(s[0]) <= key(x) {
    } else {
      InsertSorted(x, s[1..], key);
      var r := Insert(x, s, key);
      var t := Insert(x, s[1..], key);
      assert r == [s[0]] + t;
      forall j | 0 <= j < |t| ensures key(s[0]) >= key(t[j]) {
        assert t[j] in multiset(t);
        assert t[j] in multiset(s[1..]) + multiset{x};
        if t[j] in multiset(s[1..]) {
          var k :| 0 <= k < |s[1..]| && s[1..][k] == t[j];
          assert s[k + 1] == t[j];
        }
      }
    }
  }

  /** The result is ordered by non-increasing key. */
  lemma {:induction false} SortDescSorted<T>(s: seq<T>, key: T -> int)
    ensures SortedDesc(SortDesc(s, key), key)
  {
    if s != [] {
      SortDescSorted(s[1..], key);
      InsertSorted(s[0], SortDesc(s[1..], key), key);
    }
  }

  lemma {:induction false} WithKeyInsert<T>(x: T, s: seq<T>, key: T -> int, k: int)
    ensures WithKey(Insert(x, s, key), key, k) == WithKey([x] + s, key, k)
  {
    if s == [] || key(s[0]) <= key(x) {
    } else {
      var t := Insert(x, s[1..], key);
      var mine := Picked(x, key, k);
      var first := Picked(s[0], key, k);
      var rest := WithKey(s[1..], key, k);
      InsertPastFirst(x, s, key);
      WithKeyCons(s[0], t, key, k);
      WithKeyInsert(x, s[1..], key, k);
      WithKeyCons(x, s[1..], key, k);
      WithKeyCons(x, s, key, k);
      // s[0] has a greater key than x, so at most one of them is selected
      // and their order does not matter.
      SwapAroundEmpty(first, mine, rest);
    }
  }

  /** `[x]` when `x` carries key `k`, else nothing. */
  function Picked<T>(x: T, key: T -> int, k: int): (r: seq<T>)
    ensures r == [] || r == [x]
  {
    if key(x) == k then [x] else []
  }

  lemma InsertPastFirst<T>(x: T, s: seq<T>, key: T -> int)
    requires s != [] && key(s[0]) > key(x)
    ensures Insert(x, s, key) == [s[0]] + Insert(x, s[1..], key)
  {
  }

  lemma SwapAroundEmpty<T>(a: seq<T>, b: seq<T>, c: seq<T>)
    requires a == [] || b == []
    ensures a + (b + c) == b + (a + c)
  {
    if a == [] {
      assert a + (b + c) == b + c;
    } else {
      assert b + (a + c) == a + c;
    }
  }

  lemma {:induction false} WithKeyCons<T>(x: T, s: seq<T>, key: T -> int, k: int)
    ensures WithKey([x] + s, key, k) == Picked(x, key, k) + WithKey(s, key, k)
  {
    assert ([x] + s)[1..] == s;
  }

  /** Stability: for every key value, the elements carrying it appear in the
      same relative order before and after the sort. */
  lemma {:induction false} SortDescStable<T>(s: seq<T>, key: T -> int, k: int)
    ensures WithKey(SortDesc(s, key), key, k) == WithKey(s, key, k)
  {
    if s != [] {
      SortDescStable(s[1..], key, k);
      WithKeyInsert(s[0], SortDesc(s[1..], key), key, k);
      WithKeyCons(s[0], SortDesc(s[1..], key), key, k);
      assert s == [s[0]] + s[1..];
      WithKeyCons(s[0], s[1..], key, k);
    }
  }

  lemma {:induction false} SumKeysInsert<T>(x: T, s: seq<T>, key: T -> int)
    ensures SumKeys(Insert(x, s, key), key) == key(x) + SumKeys(s, key)
  {
    if s == [] || key(s[0]) <= key(x) {
      assert ([x] + s)[1..] == s;
    } else {
      SumKeysInsert(x, s[1..], key);
      assert ([s[0]] + Insert(x, s[1..], key))[1..] == Insert(x, s[1..], key);
    }
  }

  /** Sorting does not change the total of the keys. */
  lemma {:induction false} SortDescSum<T>(s: seq<T>, key: T -> int)
    ensures SumKeys(SortDesc(s, key), key) == SumKeys(s, key)
  {
    if s != [] {
      SortDescSum(s[1..], key);
      SumKeysInsert(s[0], SortDesc(s[1..], key), key);
    }
  }

  /** The sum of non-negative keys bounds each of them. */
  lemma {:induction false} SumKeysBounds<T>(s: seq<T>, key: T -> int, i: int)
    requires forall j :: 0 <= j < |s| ==> key(s[j]) >= 0
    requires 0 <= i < |s|
    ensures 0 <= key(s[i]) <= SumKeys(s, key)
  {
    if i > 0 {
      SumKeysBounds(s[1..], key, i - 1);
      assert s[1..][i - 1] == s[i];
    } else {
      SumKeysNonNegative(s[1..], key);
    }
  }

  lemma {:induction false} SumKeysNonNegative<T>(s: seq<T>, key: T -> int)
    requires forall j :: 0 <= j < |s| ==> key(s[j]) >= 0
    ensures SumKeys(s, key) >= 0
  {
    if s != [] {
      SumKeysNonNegative(s[1..], key);
    }
  }
}
