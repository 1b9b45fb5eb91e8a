/** Python's `itertools.combinations(s, 2)`: every unordered pair of
    positions of `s`, each once, in lexicographic order of positions. */
module Itertools {

  /** The position pairs (i, j), (i, j + 1), ..., (i, n - 1). */
  function Row(i: nat, j: nat, n: nat): (r: seq<(nat, nat)>)
    decreases n - j
    ensures |r| == if j < n then n - j else 0
    ensures forall k :: 0 <= k < |r| ==> r[k] == (i, j + k)
  {
    if j >= n then [] else [(i, j)] + Row(i, j + 1, n)
  }

  /** All position pairs (i, j) with lo <= i < j < n, first by i, then by j. */
  function Pairs(lo: nat, n: nat): (r: seq<(nat, nat)>)
    decreases n - lo
    ensures forall k :: 0 <= k < |r| ==> lo <= r[k].0 < r[k].1 < n
  {
    if lo >= n then [] else Row(lo, lo + 1, n) + Pairs(lo + 1, n)
  }

  /** The order `itertools.combinations` produces pairs in. */
  predicate LexLess(a: (nat, nat), b: (nat, nat))
  {
    a.0 < b.0 || (a.0 == b.0 && a.1 < b.1)
  }

  lemma {:induction false} PairsLength(lo: nat, n: nat)
    requires lo <= n
    decreases n - lo
    ensures 2 * |Pairs(lo, n)| == (n - lo) * (n - lo - 1)
  {
    if lo < n {
      PairsLength(lo + 1, n);
      var m := n - lo;
      assert m * (m - 1) == 2 * (m - 1) + (m - 1) * (m - 2);
    }
  }

  lemma {:induction false} PairsSorted(lo: nat, n: nat)
    decreases n - lo
    ensures forall a, b :: 0 <= a < b < |Pairs(lo, n)| ==> LexLess(Pairs(lo, n)[a], Pairs(lo, n)[b])
  {
    if lo < n {
      PairsSorted(lo + 1, n);
    }
  }

  lemma {:induction false} PairsComplete(lo: nat, n: nat, i: nat, j: nat)
    requires lo <= i < j < n
    decreases n - lo
    ensures (i, j) in Pairs(lo, n)
  {
    var row := Row(lo, lo + 1, n);
    if i == lo {
      assert row[j - lo - 1] == (i, j);
    } else {
      PairsComplete(lo + 1, n, i, j);
    }
  }

  /** The position pairs of a sequence of length n: n(n-1)/2 of them,
      each with its first position before its second, strictly increasing
      in lexicographic order (so none is repeated), and every pair of
      positions i < j among them. */
  lemma IndexPairs(n: nat)
    ensures 2 * |Pairs(0, n)| == n * (n - 1)
    ensures forall k :: 0 <= k < |Pairs(0, n)| ==> Pairs(0, n)[k].0 < Pairs(0, n)[k].1 < n
    ensures forall a, b :: 0 <= a < b < |Pairs(0, n)| ==> LexLess(Pairs(0, n)[a], Pairs(0, n)[b])
    ensures forall i, j :: 0 <= i < j < n ==> (i, j) in Pairs(0, n)
  {
    PairsLength(0, n);
    PairsSorted(0, n);
    forall i, j | 0 <= i < j < n
      ensures (i, j) in Pairs(0, n)
    {
      PairsComplete(0, n, i, j);
    }
  }

  /** The pairs of elements of `s`, in `itertools.combinations(s, 2)` order. */
  function Combinations<T>(s: seq<T>): seq<(T, T)>
  {
    var p := Pairs(0, |s|);
    seq(|p|, k requires 0 <= k < |p| => (s[p[k].0], s[p[k].1]))
  }

  /** A pair of elements is produced exactly when its first element
      occurs at an earlier position of `s` than its second. */
  lemma CombinationsMembers<T>(s: seq<T>, a: T, b: T)
    ensures (a, b) in Combinations(s) <==> exists i, j :: 0 <= i < j < |s| && s[i] == a && s[j] == b
  {
    var p := Pairs(0, |s|);
    var c := Combinations(s);
    if (a, b) in c {
      var k :| 0 <= k < |c| && c[k] == (a, b);
      assert s[p[k].0] == a && s[p[k].1] == b;
    }
    if exists i, j :: 0 <= i < j < |s| && s[i] == a && s[j] == b {
      var i, j :| 0 <= i < j < |s| && s[i] == a && s[j] == b;
      PairsComplete(0, |s|, i, j);
      var k :| 0 <= k < |p| && p[k] == (i, j);
      assert c[k] == (a, b);
    }
  }

  /** As many pairs as `itertools.combinations` yields: n(n-1)/2. */
  lemma CombinationsLength<T>(s: seq<T>)
    ensures 2 * |Combinations(s)| == |s| * (|s| - 1)
  {
    PairsLength(0, |s|);
  }
}
