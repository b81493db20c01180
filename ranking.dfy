/**
 * The stable descending sort that PHP 8's `usort` and `arsort` perform: entries
 * with a larger key come first, and entries whose keys are equal keep their
 * input order. The sort is computed on indices (`Rank`) so that stability can be
 * stated directly: two tied entries appear in the order of their input indices.
 */
module Ranking {
  import opened Seqs

  /** A sort key compared lexicographically: primary first, then secondary. */
  datatype Key = Key(primary: real, secondary: real)

  predicate Outranks(a: Key, b: Key) {
    a.primary > b.primary || (a.primary == b.primary && a.secondary > b.secondary)
  }

  /** In the stable descending order, entry `i` is placed before entry `j`. */
  predicate Before(keys: seq<Key>, i: nat, j: nat)
    requires i < |keys| && j < |keys|
  {
    Outranks(keys[i], keys[j]) || (keys[i] == keys[j] && i < j)
  }

  predicate InRange(keys: seq<Key>, r: seq<nat>) {
    forall k :: 0 <= k < |r| ==> r[k] < |keys|
  }

  /** `r` lists entries of `keys` in the stable descending order. */
  predicate Ranked(keys: seq<Key>, r: seq<nat>)
    requires InRange(keys, r)
  {
    forall p, q :: 0 <= p < q < |r| ==> Before(keys, r[p], r[q])
  }

  lemma BeforeTotal(keys: seq<Key>, i: nat, j: nat)
    requires i < |keys| && j < |keys| && i != j
    ensures Before(keys, i, j) || Before(keys, j, i)
  {
  }

  lemma BeforeTransitive(keys: seq<Key>, i: nat, j: nat, k: nat)
    requires i < |keys| && j < |keys| && k < |keys|
    requires Before(keys, i, j) && Before(keys, j, k)
    ensures Before(keys, i, k)
  {
  }

  /** Inserts entry `i` behind every entry of `r` that goes before it. */
  function Insert(keys: seq<Key>, i: nat, r: seq<nat>): (r': seq<nat>)
    requires i < |keys| && InRange(keys, r)
    ensures |r'| == |r| + 1 && InRange(keys, r')
    ensures forall x :: x in r' <==> x == i || x in r
  {
    if r == [] then [i]
    else if Before(keys, r[0], i) then [r[0]] + Insert(keys, i, r[1..])
    else [i] + r
  }

  /** The stable descending order of the first `n` entries (insertion sort). */
  function RankPrefix(keys: seq<Key>, n: nat): (r: seq<nat>)
    requires n <= |keys|
    ensures |r| == n && InRange(keys, r)
    ensures forall x: nat :: x in r <==> x < n
  {
    if n == 0 then []
    else
      var r := Insert(keys, n - 1, RankPrefix(keys, n - 1));
      assert forall x: nat :: x in r ==> x < n;
      r
  }

  /** The order in which the stable descending sort lists the entries. */
  function Rank(keys: seq<Key>): (r: seq<nat>)
    ensures |r| == |keys| && InRange(keys, r)
    ensures forall x: nat :: x in r <==> x < |keys|
  {
    RankPrefix(keys, |keys|)
  }

  lemma {:induction false} InsertRanked(keys: seq<Key>, i: nat, r: seq<nat>)
    requires i < |keys| && InRange(keys, r)
    requires Ranked(keys, r) && i !in r
    ensures Ranked(keys, Insert(keys, i, r))
  {
    if r != [] {
      var r' := Insert(keys, i, r);
      if Before(keys, r[0], i) {
        var tail := r[1..];
        InsertRanked(keys, i, tail);
        var t' := Insert(keys, i, tail);
        assert r' == [r[0]] + t';
        forall q | 0 < q < |r'|
          ensures Before(keys, r[0], r'[q])
        {
          var x := r'[q];
          assert x in t';
          if x != i {
            assert x in tail;
            var k :| 0 <= k < |tail| && tail[k] == x;
            assert r[k + 1] == x;
          }
        }
      } else {
        BeforeTotal(keys, r[0], i);
        assert r' == [i] + r;
        forall q | 0 < q < |r'|
          ensures Before(keys, i, r'[q])
        {
          if q > 1 {
            BeforeTransitive(keys, i, r[0], r[q - 1]);
          }
        }
      }
    }
  }

  lemma {:induction false} RankPrefixRanked(keys: seq<Key>, n: nat)
    requires n <= |keys|
    ensures Ranked(keys, RankPrefix(keys, n))
  {
    if n > 0 {
      RankPrefixRanked(keys, n - 1);
      InsertRanked(keys, n - 1, RankPrefix(keys, n - 1));
    }
  }

  /** `Rank` is a stable descending order without repetitions. */
  lemma RankRanked(keys: seq<Key>)
    ensures Ranked(keys, Rank(keys))
    ensures Distinct(Rank(keys))
  {
    RankPrefixRanked(keys, |keys|);
  }

  // ---------------------------------------------------------------------------
  // Sorting values by a key

  function KeysOf<T>(s: seq<T>, key: T -> Key): (ks: seq<Key>)
    ensures |ks| == |s|
    ensures forall k :: 0 <= k < |s| ==> ks[k] == key(s[k])
  {
    seq(|s|, k requires 0 <= k < |s| => key(s[k]))
  }

  /** The entries of `s` at the indices `r`, in that order. */
  function Arrange<T>(s: seq<T>, r: seq<nat>): (a: seq<T>)
    requires forall k :: 0 <= k < |r| ==> r[k] < |s|
    ensures |a| == |r|
    ensures forall k :: 0 <= k < |r| ==> a[k] == s[r[k]]
  {
    seq(|r|, k requires 0 <= k < |r| => s[r[k]])
  }

  /** A stable sort of `s`, largest key first (PHP 8 `usort` with a descending comparator). */
  function SortDesc<T>(s: seq<T>, key: T -> Key): (r: seq<T>)
    ensures |r| == |s|
  {
    Arrange(s, Rank(KeysOf(s, key)))
  }

  /** Removing the only occurrence of the largest index `n - 1` from an ordering of `0..n-1`. */
  lemma RemoveLargest(r: seq<nat>, n: nat, m: nat) returns (r': seq<nat>)
    requires Distinct(r) && m < |r| && r[m] == n - 1
    requires forall x: nat :: x in r <==> x < n
    ensures r' == r[..m] + r[m + 1..]
    ensures Distinct(r')
    ensures forall x: nat :: x in r' <==> x < n - 1
  {
    r' := r[..m] + r[m + 1..];
    forall x: nat
      ensures x in r' <==> x < n - 1
    {
      if x in r' {
        var k :| 0 <= k < |r'| && r'[k] == x;
        var k' := if k < m then k else k + 1;
        assert r[k'] == x && k' != m;
        assert x in r;
      }
      if x < n - 1 {
        assert x in r;
        var k :| 0 <= k < |r| && r[k] == x;
        if k < m {
          assert r'[k] == x;
        } else {
          assert r'[k - 1] == x;
        }
      }
    }
    forall i, j | 0 <= i < j < |r'|
      ensures r'[i] != r'[j]
    {
      var i' := if i < m then i else i + 1;
      var j' := if j < m then j else j + 1;
      assert r'[i] == r[i'] && r'[j] == r[j'];
    }
  }

  /** Arranging `s` by any ordering of all of its indices gives a permutation of `s`. */
  lemma {:induction false} ArrangePermutation<T>(s: seq<T>, r: seq<nat>)
    requires |r| == |s| && Distinct(r)
    requires forall k :: 0 <= k < |r| ==> r[k] < |s|
    requires forall x: nat :: x in r <==> x < |s|
    ensures multiset(Arrange(s, r)) == multiset(s)
    decreases |s|
  {
    if s != [] {
      var n := |s|;
      assert n - 1 in r;
      var m :| 0 <= m < |r| && r[m] == n - 1;
      var r' := RemoveLargest(r, n, m);
      forall k | 0 <= k < |r'|
        ensures r'[k] < n - 1
      {
        assert r'[k] in r';
      }
      var p := s[..n - 1];
      ArrangePermutation(p, r');
      forall k | 0 <= k < |r| && k != m
        ensures r[k] < n - 1
      {
        assert r[k] != r[m];
      }
      ArrangeParts(s, r, m);
      assert s == p + [s[n - 1]];
    }
  }

  /** The arrangement by `r` splits around position `m`, whose index is the last one. */
  lemma ArrangeParts<T>(s: seq<T>, r: seq<nat>, m: nat)
    requires s != [] && m < |r| && r[m] == |s| - 1
    requires forall k :: 0 <= k < |r| ==> r[k] < |s|
    requires forall k :: 0 <= k < |r| && k != m ==> r[k] < |s| - 1
    ensures multiset(Arrange(s, r)) == multiset(Arrange(s[..|s| - 1], r[..m] + r[m + 1..])) + multiset{s[|s| - 1]}
  {
    var n := |s|;
    var p := s[..n - 1];
    var a, b := r[..m], r[m + 1..];
    var A, B := Arrange(p, a), Arrange(p, b);
    assert Arrange(s, r) == A + [s[n - 1]] + B;
    assert Arrange(p, a + b) == A + B;
  }

  /**
   * The sorted sequence is a permutation of the input, in non-increasing key
   * order, and entries with equal keys keep their input order.
   */
  lemma SortDescSpec<T>(s: seq<T>, key: T -> Key)
    ensures multiset(SortDesc(s, key)) == multiset(s)
    ensures forall p, q :: 0 <= p < q < |s| ==> !Outranks(key(SortDesc(s, key)[q]), key(SortDesc(s, key)[p]))
    ensures forall p, q :: 0 <= p < q < |s| && key(SortDesc(s, key)[p]) == key(SortDesc(s, key)[q]) ==>
              Rank(KeysOf(s, key))[p] < Rank(KeysOf(s, key))[q]
  {
    var ks := KeysOf(s, key);
    var r := Rank(ks);
    RankRanked(ks);
    ArrangePermutation(s, r);
    forall p, q | 0 <= p < q < |s|
      ensures !Outranks(key(SortDesc(s, key)[q]), key(SortDesc(s, key)[p]))
    {
      assert Before(ks, r[p], r[q]);
    }
  }
}
