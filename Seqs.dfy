/**
  Order-preserving selections, filters, folds and index searches over sequences.
  A pandas boolean mask applied to a frame is `Select(rows, mask)`; a query is
  `Filter(rows, p)`, which is `Select` with the mask `Mask(rows, p)`.
*/
module Seqs {

  /** The elements of `s` at the positions where `keep` is true, in their order in `s`. */
  function Select<T>(s: seq<T>, keep: seq<bool>): (r: seq<T>)
    requires |keep| == |s|
    ensures |r| <= |s|
    decreases |s|
  {
    if s == [] then []
    else Select(s[..|s| - 1], keep[..|s| - 1]) + (if keep[|s| - 1] then [s[|s| - 1]] else [])
  }

  /** Evaluates `p` at every position of `s`. */
  function Mask<T>(s: seq<T>, p: T -> bool): (keep: seq<bool>)
    ensures |keep| == |s|
    ensures forall i :: 0 <= i < |s| ==> keep[i] == p(s[i])
  {
    seq(|s|, i requires 0 <= i < |s| => p(s[i]))
  }

  function Not<T>(p: T -> bool): T -> bool {
    x => !p(x)
  }

  /** The elements of `s` that satisfy `p`, in order. */
  function Filter<T(!new)>(s: seq<T>, p: T -> bool): (r: seq<T>)
    ensures forall x :: x in r <==> x in s && p(x)
    ensures r == Select(s, Mask(s, p))
    decreases |s|
  {
    if s == [] then []
    else
      var n := |s| - 1;
      assert s == s[..n] + [s[n]];
      assert Mask(s, p)[..n] == Mask(s[..n], p);
      Filter(s[..n], p) + (if p(s[n]) then [s[n]] else [])
  }

  /** Selecting at every position keeps the whole sequence. */
  lemma {:induction false} SelectAll<T>(s: seq<T>, keep: seq<bool>)
    requires |keep| == |s|
    requires forall i :: 0 <= i < |keep| ==> keep[i]
    ensures Select(s, keep) == s
    decreases |s|
  {
    if s != [] {
      var n := |s| - 1;
      SelectAll(s[..n], keep[..n]);
      assert s[..n] + [s[n]] == s;
    }
  }

  /** A filter that every element passes keeps the whole sequence. */
  lemma FilterAll<T(!new)>(s: seq<T>, p: T -> bool)
    requires forall i :: 0 <= i < |s| ==> p(s[i])
    ensures Filter(s, p) == s
  {
    var keep := Mask(s, p);
    assert forall i :: 0 <= i < |keep| ==> keep[i];
    SelectAll(s, keep);
    assert Filter(s, p) == Select(s, keep);
  }

  /** A filter that no element passes keeps nothing. */
  lemma {:induction false} FilterNone<T(!new)>(s: seq<T>, p: T -> bool)
    requires forall i :: 0 <= i < |s| ==> !p(s[i])
    ensures Filter(s, p) == []
    decreases |s|
  {
    if s != [] {
      FilterNone(s[..|s| - 1], p);
    }
  }

  /** Filtering by `p` and then by `q` is filtering by a predicate that holds where both do. */
  lemma {:induction false} FilterFilter<T(!new)>(s: seq<T>, p: T -> bool, q: T -> bool, both: T -> bool)
    requires forall x :: x in s ==> (both(x) <==> p(x) && q(x))
    ensures Filter(Filter(s, p), q) == Filter(s, both)
    decreases |s|
  {
    if s != [] {
      var n := |s| - 1;
      var front := Filter(s[..n], p);
      assert forall x :: x in s[..n] ==> x in s;
      FilterFilter(s[..n], p, q, both);
      if p(s[n]) {
        var ps := Filter(s, p);
        assert ps == front + [s[n]];
        assert ps[..|ps| - 1] == front;
        assert Filter(ps, q) == Filter(front, q) + (if q(s[n]) then [s[n]] else []);
      } else {
        assert Filter(s, p) == front;
      }
    }
  }

  /** The sum of `f` over the elements of `s` (0 for the empty sequence). */
  function Sum<T>(s: seq<T>, f: T -> real): real
    decreases |s|
  {
    if s == [] then 0.0 else Sum(s[..|s| - 1], f) + f(s[|s| - 1])
  }

  lemma {:induction false} SumAppend<T>(a: seq<T>, b: seq<T>, f: T -> real)
    ensures Sum(a + b, f) == Sum(a, f) + Sum(b, f)
    decreases |b|
  {
    if b != [] {
      var n := |b| - 1;
      assert (a + b)[..|a + b| - 1] == a + b[..n];
      SumAppend(a, b[..n], f);
    } else {
      assert a + b == a;
    }
  }

  /** Splitting a sequence by a predicate splits its sum. */
  lemma {:induction false} SumPartition<T(!new)>(s: seq<T>, p: T -> bool, f: T -> real)
    ensures Sum(Filter(s, p), f) + Sum(Filter(s, Not(p)), f) == Sum(s, f)
    decreases |s|
  {
    if s != [] {
      var n := |s| - 1;
      SumPartition(s[..n], p, f);
      var last := if p(s[n]) then [s[n]] else [];
      var other := if Not(p)(s[n]) then [s[n]] else [];
      assert Filter(s, p) == Filter(s[..n], p) + last;
      assert Filter(s, Not(p)) == Filter(s[..n], Not(p)) + other;
      SumAppend(Filter(s[..n], p), last, f);
      SumAppend(Filter(s[..n], Not(p)), other, f);
      assert Sum([s[n]], f) == f(s[n]) by {
        assert [s[n]][..0] == [];
      }
      assert Sum(last, f) + Sum(other, f) == f(s[n]);
    }
  }

  /** Splitting a sequence by a predicate splits its length. */
  lemma {:induction false} CountPartition<T(!new)>(s: seq<T>, p: T -> bool)
    ensures |Filter(s, p)| + |Filter(s, Not(p))| == |s|
    decreases |s|
  {
    if s != [] {
      CountPartition(s[..|s| - 1], p);
    }
  }

  /** The positions of `s` whose element satisfies `p`, in increasing order. */
  function Positions<T(!new)>(s: seq<T>, p: T -> bool): (r: seq<nat>)
    ensures forall k :: 0 <= k < |r| ==> r[k] < |s| && p(s[r[k]])
    ensures forall a, b :: 0 <= a < b < |r| ==> r[a] < r[b]
    ensures forall i :: 0 <= i < |s| && p(s[i]) ==> i in r
    decreases |s|
  {
    if s == [] then []
    else
      var n := |s| - 1;
      var front := Positions(s[..n], p);
      assert forall k :: 0 <= k < |front| ==> front[k] < n && s[front[k]] == s[..n][front[k]];
      assert forall i :: 0 <= i < n ==> s[i] == s[..n][i];
      front + (if p(s[n]) then [n] else [])
  }

  /** There are as many matching positions as matching elements. */
  lemma {:induction false} PositionsCount<T(!new)>(s: seq<T>, p: T -> bool)
    ensures |Positions(s, p)| == |Filter(s, p)|
    decreases |s|
  {
    if s != [] {
      PositionsCount(s[..|s| - 1], p);
    }
  }

  /** No position before the first matching one matches. */
  lemma FirstPosition<T(!new)>(s: seq<T>, p: T -> bool)
    requires Positions(s, p) != []
    ensures forall j :: 0 <= j < Positions(s, p)[0] ==> !p(s[j])
  {
  }
}
