/**
 * A stable sort, largest key first: LINQ's `OrderByDescending(key)`. The property
 * listing's `$sort: { createdAt: -1 }` is modelled by the same function.
 */
module Sorting {

  /** Keys never increase along `s`. */
  predicate IsDescending<T>(s: seq<T>, key: T -> int) {
    forall i, j | 0 <= i < j < |s| :: key(s[i]) >= key(s[j])
  }

  /** The elements of `s` whose key is `k`, in their order in `s`. */
  function WithKey<T>(s: seq<T>, key: T -> int, k: int): seq<T>
    decreases |s|
  {
    if s == [] then [] else (if key(s[0]) == k then [s[0]] else []) + WithKey(s[1..], key, k)
  }

  /** Inserts `x` before the first element whose key is not larger than its own. */
  function InsertDescending<T>(x: T, s: seq<T>, key: T -> int): (r: seq<T>)
    ensures |r| == |s| + 1
    ensures multiset(r) == multiset(s) + multiset{x}
    decreases |s|
  {
    if s == [] || key(s[0]) <= key(x) then [x] + s
    else
      assert s == [s[0]] + s[1..];
      [s[0]] + InsertDescending(x, s[1..], key)
  }

  /** Insertion sort of `s`, largest key first, equal keys in their original order. */
  function SortDescending<T>(s: seq<T>, key: T -> int): (r: seq<T>)
    ensures |r| == |s|
    ensures multiset(r) == multiset(s)
    decreases |s|
  {
    if s == [] then []
    else
      assert s == [s[0]] + s[1..];
      InsertDescending(s[0], SortDescending(s[1..], key), key)
  }

  lemma {:induction false} InsertBounded<T>(x: T, s: seq<T>, key: T -> int, b: int)
    requires key(x) <= b
    requires forall i | 0 <= i < |s| :: key(s[i]) <= b
    ensures forall j | 0 <= j < |s| + 1 :: key(InsertDescending(x, s, key)[j]) <= b
    decreases |s|
  {
    if s != [] && key(s[0]) > key(x) {
      InsertBounded(x, s[1..], key, b);
    }
  }

  lemma {:induction false} InsertKeepsDescending<T>(x: T, s: seq<T>, key: T -> int)
    requires IsDescending(s, key)
    ensures IsDescending(InsertDescending(x, s, key), key)
    decreases |s|
  {
    if s != [] && key(s[0]) > key(x) {
      InsertKeepsDescending(x, s[1..], key);
      InsertBounded(x, s[1..], key, key(s[0]));
    }
  }

  /** The sorted sequence has its keys in descending order. */
  lemma {:induction false} SortIsDescending<T>(s: seq<T>, key: T -> int)
    ensures IsDescending(SortDescending(s, key), key)
    decreases |s|
  {
    if s != [] {
      SortIsDescending(s[1..], key);
      InsertKeepsDescending(s[0], SortDescending(s[1..], key), key);
    }
  }

  /** Unfolds `WithKey` on a sequence with a known first element. */
  lemma WithKeyCons<T>(y: T, s: seq<T>, key: T -> int, k: int)
    ensures WithKey([y] + s, key, k) == (if key(y) == k then [y] else []) + WithKey(s, key, k)
  {
    assert ([y] + s)[1..] == s;
  }

  lemma {:induction false} InsertWithKey<T>(x: T, s: seq<T>, key: T -> int, k: int)
    ensures WithKey(InsertDescending(x, s, key), key, k)
            == (if key(x) == k then [x] else []) + WithKey(s, key, k)
    decreases |s|
  {
    if s == [] || key(s[0]) <= key(x) {
      WithKeyCons(x, s, key, k);
    } else {
      var rest := InsertDescending(x, s[1..], key);
      assert InsertDescending(x, s, key) == [s[0]] + rest;
      assert [s[0]] + s[1..] == s;
      InsertWithKey(x, s[1..], key, k);
      WithKeyCons(s[0], rest, key, k);
      WithKeyCons(s[0], s[1..], key, k);
      KeptInEitherOrder(s[0], x, WithKey(s[1..], key, k), key, k);
    }
  }

  /** Of two elements with different keys at most one is kept, so their order does not matter. */
  lemma KeptInEitherOrder<T>(y: T, x: T, t: seq<T>, key: T -> int, k: int)
    requires key(y) != key(x)
    ensures (if key(y) == k then [y] else []) + ((if key(x) == k then [x] else []) + t)
         == (if key(x) == k then [x] else []) + ((if key(y) == k then [y] else []) + t)
  {
  }

  /** Stability: the elements with any one key keep their relative order. */
  lemma {:induction false} SortIsStable<T>(s: seq<T>, key: T -> int, k: int)
    ensures WithKey(SortDescending(s, key), key, k) == WithKey(s, key, k)
    decreases |s|
  {
    if s != [] {
      SortIsStable(s[1..], key, k);
      InsertWithKey(s[0], SortDescending(s[1..], key), key, k);
    }
  }
}
