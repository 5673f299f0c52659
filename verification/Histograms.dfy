/** Counting how often each value occurs, and the mass a histogram stands for. */
module Histograms {

  function CountOf(s: seq<int>, v: int): (c: nat)
    ensures c <= |s|
  {
    if s == [] then 0 else (if s[0] == v then 1 else 0) + CountOf(s[1..], v)
  }

  function Sum(s: seq<int>): int {
    if s == [] then 0 else s[0] + Sum(s[1..])
  }

  /** The sum of v * h[v] over the positions of a histogram. */
  function Weighted(h: seq<int>): int {
    if h == [] then 0 else Weighted(h[..|h| - 1]) + (|h| - 1) * h[|h| - 1]
  }

  /** The histogram of s over the values 0 to n - 1. */
  function HistogramOf(s: seq<int>, n: nat): (h: seq<int>)
    ensures |h| == n && forall v :: 0 <= v < n ==> h[v] == CountOf(s, v)
  {
    seq(n, v => CountOf(s, v))
  }

  lemma {:induction false} CountSplit(s: seq<int>, t: seq<int>, v: int)
    ensures CountOf(s + t, v) == CountOf(s, v) + CountOf(t, v)
  {
    if s == [] {
      assert s + t == t;
    } else {
      assert (s + t)[1..] == s[1..] + t;
      CountSplit(s[1..], t, v);
    }
  }

  lemma CountStep(s: seq<int>, k: nat, v: int)
    requires k < |s|
    ensures CountOf(s[..k + 1], v) == CountOf(s[..k], v) + if s[k] == v then 1 else 0
  {
    assert s[..k + 1] == s[..k] + [s[k]];
    CountSplit(s[..k], [s[k]], v);
  }

  lemma {:induction false} SumAppend(s: seq<int>, t: seq<int>)
    ensures Sum(s + t) == Sum(s) + Sum(t)
  {
    if s == [] {
      assert s + t == t;
    } else {
      assert (s + t)[1..] == s[1..] + t;
      SumAppend(s[1..], t);
    }
  }

  lemma SumStep(s: seq<int>, k: nat)
    requires k < |s|
    ensures Sum(s[..k + 1]) == Sum(s[..k]) + s[k]
  {
    assert s[..k + 1] == s[..k] + [s[k]];
    SumAppend(s[..k], [s[k]]);
  }

  /** Writing one position moves one unit of the histogram and shifts the total. */
  lemma UpdateCounts(s: seq<int>, i: nat, x: int)
    requires i < |s|
    ensures forall v ::
              CountOf(s[i := x], v) == CountOf(s, v) - (if s[i] == v then 1 else 0) + (if x == v then 1 else 0)
    ensures Sum(s[i := x]) == Sum(s) - s[i] + x
  {
    var a, b := s[..i], s[i + 1..];
    assert s == (a + [s[i]]) + b && s[i := x] == (a + [x]) + b;
    SumAppend(a + [s[i]], b); SumAppend(a, [s[i]]);
    SumAppend(a + [x], b); SumAppend(a, [x]);
    forall v ensures CountOf(s[i := x], v) == CountOf(s, v) - (if s[i] == v then 1 else 0) + (if x == v then 1 else 0) {
      CountSplit(a + [s[i]], b, v); CountSplit(a, [s[i]], v);
      CountSplit(a + [x], b, v); CountSplit(a, [x], v);
    }
  }

  lemma {:induction false} CountAbsent(s: seq<int>, v: int)
    ensures CountOf(s, v) == 0 <==> v !in s
  {
    if s != [] {
      CountAbsent(s[1..], v);
      assert s == [s[0]] + s[1..];
    }
  }

  lemma {:induction false} CountAll(s: seq<int>, v: int)
    requires forall i :: 0 <= i < |s| ==> s[i] == v
    ensures CountOf(s, v) == |s| && Sum(s) == |s| * v
    ensures forall u :: u != v ==> CountOf(s, u) == 0
  {
    if s != [] {
      CountAll(s[1..], v);
    }
  }

  lemma {:induction false} WeightedSum(f: seq<int>, g: seq<int>, h: seq<int>)
    requires |f| == |g| == |h| && forall v :: 0 <= v < |f| ==> h[v] == f[v] + g[v]
    ensures Weighted(h) == Weighted(f) + Weighted(g)
  {
    if f != [] {
      var n := |f| - 1;
      WeightedSum(f[..n], g[..n], h[..n]);
      assert n * h[n] == n * f[n] + n * g[n];
    }
  }

  lemma {:induction false} WeightedUnit(h: seq<int>, u: nat)
    requires u < |h| && forall v :: 0 <= v < |h| ==> h[v] == if v == u then 1 else 0
    ensures Weighted(h) == u
  {
    var n := |h| - 1;
    if u == n { WeightedZero(h[..n]); } else { WeightedUnit(h[..n], u); assert n * h[n] == 0; }
  }

  lemma {:induction false} WeightedZero(h: seq<int>)
    requires forall v :: 0 <= v < |h| ==> h[v] == 0
    ensures Weighted(h) == 0
  {
    if h != [] {
      WeightedZero(h[..|h| - 1]);
      assert (|h| - 1) * h[|h| - 1] == 0;
    }
  }

  /** The mass of a histogram that covers all of s is the total of s. */
  lemma {:induction false} HistogramMass(s: seq<int>, n: nat)
    requires forall i :: 0 <= i < |s| ==> 0 <= s[i] < n
    ensures Weighted(HistogramOf(s, n)) == Sum(s)
  {
    if s == [] {
      WeightedZero(HistogramOf(s, n));
    } else {
      HistogramMass(s[1..], n);
      var unit := seq(n, v => if v == s[0] then 1 else 0);
      WeightedUnit(unit, s[0]);
      WeightedSum(unit, HistogramOf(s[1..], n), HistogramOf(s, n));
    }
  }

  /** A histogram that covers all of s counts all its elements. */
  lemma {:induction false} HistogramTotal(s: seq<int>, n: nat)
    requires forall i :: 0 <= i < |s| ==> 0 <= s[i] < n
    ensures Sum(HistogramOf(s, n)) == |s|
  {
    if s == [] {
      CountAll(HistogramOf(s, n), 0);
    } else {
      HistogramTotal(s[1..], n);
      var h := HistogramOf(s[1..], n);
      assert HistogramOf(s, n) == h[s[0] := h[s[0]] + 1];
      UpdateCounts(h, s[0], h[s[0]] + 1);
    }
  }
}
