/** Sequence helpers for PHP's array functions: counting, `array_unique`, `array_slice(a, 0, n)`. */
module Seqs {

  /** The number of occurrences of `x` in `s`. */
  function Count<T(==)>(s: seq<T>, x: T): (n: nat)
    ensures n <= |s|
    ensures n > 0 <==> x in s
  {
    if s == [] then 0
    else Count(s[..|s| - 1], x) + (if s[|s| - 1] == x then 1 else 0)
  }

  predicate Distinct<T(==)>(s: seq<T>) {
    forall i, j :: 0 <= i < j < |s| ==> s[i] != s[j]
  }

  /** The index of the first occurrence of `x` in `s`. */
  function IndexOf<T(==)>(s: seq<T>, x: T): (i: nat)
    requires x in s
    ensures i < |s| && s[i] == x && x !in s[..i]
  {
    if s[0] == x then 0 else 1 + IndexOf(s[1..], x)
  }

  /** `array_unique`: the first occurrence of every value, in order of first occurrence. */
  function Unique<T(==)>(s: seq<T>): (r: seq<T>)
    ensures Distinct(r)
    ensures forall k :: 0 <= k < |r| ==> r[k] in s
    ensures forall k :: 0 <= k < |s| ==> s[k] in r
    ensures |r| <= |s|
  {
    if s == [] then []
    else
      var u := Unique(s[..|s| - 1]);
      assert s == s[..|s| - 1] + [s[|s| - 1]];
      if s[|s| - 1] in u then u else u + [s[|s| - 1]]
  }

  /** `array_slice(s, 0, n)`: at most the first `n` entries. */
  function Take<T>(s: seq<T>, n: nat): (r: seq<T>)
    ensures |r| == if |s| < n then |s| else n
    ensures r == s[..|r|]
  {
    if |s| <= n then s else s[..n]
  }

  lemma {:induction false} CountAppend<T>(a: seq<T>, b: seq<T>, x: T)
    ensures Count(a + b, x) == Count(a, x) + Count(b, x)
    decreases |b|
  {
    if b == [] {
      assert a + b == a;
    } else {
      assert (a + b)[..|a + b| - 1] == a + b[..|b| - 1];
      CountAppend(a, b[..|b| - 1], x);
    }
  }

  /** A sequence without repetitions is its own `array_unique`. */
  lemma {:induction false} UniqueOfDistinct<T>(s: seq<T>)
    requires Distinct(s)
    ensures Unique(s) == s
  {
    if s != [] {
      var p := s[..|s| - 1];
      assert Distinct(p);
      UniqueOfDistinct(p);
      assert s[|s| - 1] !in p;
      assert s == p + [s[|s| - 1]];
    }
  }

  /** `array_unique` of a longer array starts with `array_unique` of its prefix. */
  lemma {:induction false} UniquePrefix<T>(a: seq<T>, b: seq<T>)
    ensures |Unique(a)| <= |Unique(a + b)|
    ensures Unique(a + b)[..|Unique(a)|] == Unique(a)
    decreases |b|
  {
    if b == [] {
      assert a + b == a;
    } else {
      var b' := b[..|b| - 1];
      assert (a + b)[..|a + b| - 1] == a + b';
      UniquePrefix(a, b');
    }
  }

  /** `array_unique` lists values in the order of their first occurrence. */
  lemma {:induction false} UniqueFirstOccurrence<T>(s: seq<T>, i: nat, j: nat)
    requires i < j < |Unique(s)|
    ensures IndexOf(s, Unique(s)[i]) < IndexOf(s, Unique(s)[j])
    decreases |s|
  {
    var p := s[..|s| - 1];
    var x := s[|s| - 1];
    var u := Unique(p);
    assert s == p + [x];
    if x in u {
      assert Unique(s) == u;
      UniqueFirstOccurrence(p, i, j);
      IndexOfPrefix(p, x, u[i]);
      IndexOfPrefix(p, x, u[j]);
    } else {
      assert Unique(s) == u + [x];
      IndexOfPrefix(p, x, u[i]);
      if j < |u| {
        UniqueFirstOccurrence(p, i, j);
        IndexOfPrefix(p, x, u[j]);
      } else {
        assert x !in p;
        IndexOfLast(p, x);
      }
    }
  }

  lemma {:induction false} IndexOfPrefix<T>(p: seq<T>, x: T, y: T)
    requires y in p
    ensures y in p + [x] && IndexOf(p + [x], y) == IndexOf(p, y)
  {
    if p[0] != y {
      assert (p + [x])[1..] == p[1..] + [x];
      IndexOfPrefix(p[1..], x, y);
    }
  }

  lemma {:induction false} IndexOfLast<T>(p: seq<T>, x: T)
    requires x !in p
    ensures IndexOf(p + [x], x) == |p|
  {
    if p != [] {
      assert (p + [x])[1..] == p[1..] + [x];
      IndexOfLast(p[1..], x);
    }
  }

  /** The elements of `s` that satisfy `p`, in order: a WHERE clause. */
  function Filter<T>(s: seq<T>, p: T -> bool): seq<T> {
    if s == [] then []
    else
      var init := Filter(s[..|s| - 1], p);
      if p(s[|s| - 1]) then init + [s[|s| - 1]] else init
  }

  /** Filter keeps exactly the elements that satisfy the predicate and is never longer than its input. */
  lemma {:induction false} FilterMembers<T>(s: seq<T>, p: T -> bool, x: T)
    ensures |Filter(s, p)| <= |s|
    ensures x in Filter(s, p) <==> x in s && p(x)
  {
    if s != [] {
      FilterMembers(s[..|s| - 1], p, x);
      assert s == s[..|s| - 1] + [s[|s| - 1]];
    }
  }

  /** Filters with predicates that agree on the sequence select the same elements. */
  lemma {:induction false} FilterSame<T(!new)>(s: seq<T>, p1: T -> bool, p2: T -> bool)
    requires forall x :: x in s ==> p1(x) == p2(x)
    ensures Filter(s, p1) == Filter(s, p2)
  {
    if s != [] {
      FilterSame(s[..|s| - 1], p1, p2);
    }
  }

  /** A filter whose predicate holds everywhere keeps everything. */
  lemma {:induction false} FilterAll<T>(s: seq<T>, p: T -> bool)
    requires forall k :: 0 <= k < |s| ==> p(s[k])
    ensures Filter(s, p) == s
  {
    if s != [] {
      FilterAll(s[..|s| - 1], p);
      assert s == s[..|s| - 1] + [s[|s| - 1]];
    }
  }
}
