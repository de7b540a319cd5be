/** LINQ's `Where`, and MongoDB's `$match` over a collection in natural order. */
module Linq {

  /** The elements of `s` satisfying `f`, in their order in `s`. */
  function Where<T>(s: seq<T>, f: T -> bool): (r: seq<T>)
    ensures |r| <= |s|
    ensures forall i | 0 <= i < |r| :: f(r[i])
    decreases |s|
  {
    if s == [] then []
    else (if f(s[0]) then [s[0]] else []) + Where(s[1..], f)
  }

  /** An element is kept exactly when it is in `s` and satisfies `f`. */
  lemma {:induction false} WhereMembers<T>(s: seq<T>, f: T -> bool, x: T)
    ensures x in Where(s, f) <==> x in s && f(x)
    decreases |s|
  {
    if s != [] {
      WhereMembers(s[1..], f, x);
      assert s == [s[0]] + s[1..];
    }
  }

  /** Filtering with the conjunction of two conditions is filtering twice. */
  lemma {:induction false} WhereWhere<T>(s: seq<T>, f: T -> bool, g: T -> bool)
    ensures Where(Where(s, f), g) == Where(s, x => f(x) && g(x))
    decreases |s|
  {
    if s != [] {
      WhereWhere(s[1..], f, g);
      var head := if f(s[0]) then [s[0]] else [];
      assert Where(s, f) == head + Where(s[1..], f);
      WhereAppend(head, Where(s[1..], f), g);
    }
  }

  lemma {:induction false} WhereAppend<T>(a: seq<T>, b: seq<T>, f: T -> bool)
    ensures Where(a + b, f) == Where(a, f) + Where(b, f)
    decreases |a|
  {
    if a != [] {
      WhereAppend(a[1..], b, f);
      assert (a + b)[1..] == a[1..] + b;
    } else {
      assert a + b == b;
    }
  }

  /** The number of elements of `s` satisfying `f`. */
  function CountWhere<T>(s: seq<T>, f: T -> bool): nat {
    |Where(s, f)|
  }

  /** Appending one element adds one to the count exactly when it satisfies `f`. */
  lemma CountAfterAppend<T>(s: seq<T>, f: T -> bool, x: T)
    ensures CountWhere(s + [x], f) == CountWhere(s, f) + (if f(x) then 1 else 0)
  {
    WhereAppend(s, [x], f);
    assert [x][1..] == [];
  }
}
