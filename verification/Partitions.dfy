/** The decompositions of a counter value into flow sizes: nondecreasing sequences of positive
    parts with a given sum, listed by number of parts and then lexicographically. */
module Partitions {
  import opened Histograms

  predicate NonDecreasing(p: seq<int>) {
    forall i, j :: 0 <= i < j < |p| ==> p[i] <= p[j]
  }

  /** p is a decomposition of s into positive parts, smallest part first. */
  predicate IsPartition(p: seq<int>, s: int) {
    p != [] && p[0] >= 1 && NonDecreasing(p) && Sum(p) == s
  }

  /** Lexicographic order. */
  predicate Lex(p: seq<int>, q: seq<int>) {
    p != [] && q != [] && (p[0] < q[0] || (p[0] == q[0] && Lex(p[1..], q[1..])))
  }

  /** Fewer parts first; then lexicographically. */
  predicate Before(p: seq<int>, q: seq<int>) {
    |p| < |q| || (|p| == |q| && Lex(p, q))
  }

  ghost predicate Ordered(ps: seq<seq<int>>) {
    forall i, j :: 0 <= i < j < |ps| ==> Before(ps[i], ps[j])
  }

  function Prepend(v: int, ps: seq<seq<int>>): (r: seq<seq<int>>)
    ensures |r| == |ps| && forall i :: 0 <= i < |ps| ==> r[i] == [v] + ps[i]
  {
    seq(|ps|, i requires 0 <= i < |ps| => [v] + ps[i])
  }

  /** Every decomposition of s into m parts that are all at least lo. */
  function Parts(m: nat, lo: nat, s: int): seq<seq<int>>
    requires m >= 1
    decreases m, if s >= lo then s - lo + 1 else 0
  {
    if s < lo then []
    else if m == 1 then [[s]]
    else Prepend(lo, Parts(m - 1, lo, s - lo)) + Parts(m, lo + 1, s)
  }

  /** Every decomposition of s into at most m parts. */
  function AllParts(s: int, m: nat): seq<seq<int>> {
    if m == 0 then [] else AllParts(s, m - 1) + Parts(m, 1, s)
  }

  // ----- sums -----

  lemma SumSnoc(p: seq<int>, v: int)
    ensures Sum(p + [v]) == Sum(p) + v
  {
    SumAppend(p, [v]);
    assert Sum([v]) == v + Sum([]);
  }

  lemma {:induction false} SumMonotone(p: seq<int>, q: seq<int>)
    requires |p| == |q| && forall i :: 0 <= i < |p| ==> p[i] <= q[i]
    ensures Sum(p) <= Sum(q)
  {
    if p != [] { SumMonotone(p[1..], q[1..]); }
  }

  // ----- order -----

  lemma {:induction false} LexAsymmetric(p: seq<int>, q: seq<int>)
    requires Lex(p, q)
    ensures !Lex(q, p) && p != q
  {
    if p[0] == q[0] { LexAsymmetric(p[1..], q[1..]); }
  }

  lemma {:induction false} LexAt(p: seq<int>, q: seq<int>, d: nat)
    requires d < |p| && d < |q| && p[..d] == q[..d] && p[d] < q[d]
    ensures Lex(p, q)
  {
    if d > 0 {
      assert p[0] == p[..d][0] == q[0];
      assert p[1..][..d - 1] == p[..d][1..] == q[1..][..d - 1];
      LexAt(p[1..], q[1..], d - 1);
    }
  }

  lemma {:induction false} LexWitness(p: seq<int>, q: seq<int>) returns (d: nat)
    requires |p| == |q| && Lex(p, q)
    ensures d < |p| && p[..d] == q[..d] && p[d] < q[d]
  {
    if p[0] < q[0] {
      d := 0;
    } else {
      var e := LexWitness(p[1..], q[1..]);
      d := e + 1;
      assert p[..d] == [p[0]] + p[1..][..e];
      assert q[..d] == [q[0]] + q[1..][..e];
    }
  }

  /** A sequence below another position by position is equal to it or lexicographically below. */
  lemma {:induction false} BelowIsLex(p: seq<int>, q: seq<int>)
    requires |p| == |q| && forall i :: 0 <= i < |p| ==> p[i] <= q[i]
    ensures p == q || Lex(p, q)
  {
    if p != [] && p[0] == q[0] {
      BelowIsLex(p[1..], q[1..]);
      if p[1..] == q[1..] { assert p == [p[0]] + p[1..] && q == [q[0]] + q[1..]; }
    }
  }

  /** Decompositions of the same number into the same number of parts already differ before
      their last part. */
  lemma LexPrefix(p: seq<int>, q: seq<int>)
    requires |p| == |q| >= 2 && Sum(p) == Sum(q) && Lex(p, q)
    ensures Lex(p[..|p| - 1], q[..|q| - 1])
  {
    var n := |p| - 1;
    var d := LexWitness(p, q);
    if d == n {
      assert p == p[..n] + [p[n]] && q == q[..n] + [q[n]];
      SumSnoc(p[..n], p[n]);
      SumSnoc(q[..n], q[n]);
      assert false;
    }
    assert p[..n][..d] == p[..d] && q[..n][..d] == q[..d];
    LexAt(p[..n], q[..n], d);
  }

  // ----- the list is complete and in order -----

  ghost predicate InParts(q: seq<int>, m: nat, lo: nat, s: int) {
    |q| == m && q != [] && q[0] >= lo && NonDecreasing(q) && Sum(q) == s
  }

  lemma {:induction false} SumAtLeastFirst(q: seq<int>)
    requires q != [] && q[0] >= 0 && NonDecreasing(q)
    ensures Sum(q) >= q[0]
  {
    if |q| > 1 { SumAtLeastFirst(q[1..]); }
  }

  lemma PrependExact(v: int, ps: seq<seq<int>>, q: seq<int>)
    ensures q in Prepend(v, ps) <==> q != [] && q[0] == v && q[1..] in ps
  {
    if q in Prepend(v, ps) {
      var i :| 0 <= i < |ps| && Prepend(v, ps)[i] == q;
      assert q[1..] == ps[i];
    }
    if q != [] && q[0] == v && q[1..] in ps {
      var i :| 0 <= i < |ps| && ps[i] == q[1..];
      assert Prepend(v, ps)[i] == [q[0]] + q[1..] == q;
    }
  }

  /** A decomposition either starts with lo or has all its parts above lo. */
  lemma SplitFirst(q: seq<int>, m: nat, lo: nat, s: int)
    requires m >= 2
    ensures InParts(q, m, lo, s) <==>
            InParts(q, m, lo + 1, s) || (q != [] && q[0] == lo && InParts(q[1..], m - 1, lo, s - lo))
  {
    if |q| == m {
      assert NonDecreasing(q) <==> q[0] <= q[1] && NonDecreasing(q[1..]) by { PrependNonDecreasing(q); }
      assert q[1..][0] == q[1];
    }
  }

  lemma {:induction false} PartsExact(m: nat, lo: nat, s: int, q: seq<int>)
    requires m >= 1
    ensures q in Parts(m, lo, s) <==> InParts(q, m, lo, s)
    decreases m, if s >= lo then s - lo + 1 else 0
  {
    if s < lo {
      if InParts(q, m, lo, s) { SumAtLeastFirst(q); assert false; }
    } else if m == 1 {
      SinglePart(lo, s, q);
    } else {
      var first, more := Prepend(lo, Parts(m - 1, lo, s - lo)), Parts(m, lo + 1, s);
      PartsExact(m, lo + 1, s, q);
      assert q in first <==> q != [] && q[0] == lo && InParts(q[1..], m - 1, lo, s - lo) by {
        if q != [] { PartsExact(m - 1, lo, s - lo, q[1..]); }
        PrependExact(lo, Parts(m - 1, lo, s - lo), q);
      }
      SplitFirst(q, m, lo, s);
      assert q in first + more <==> q in first || q in more;
    }
  }

  lemma SinglePart(lo: nat, s: int, q: seq<int>)
    requires s >= lo
    ensures InParts(q, 1, lo, s) <==> q == [s]
  {
    if |q| == 1 { assert Sum(q) == q[0] + Sum([]) && q == [q[0]]; }
  }

  lemma PrependNonDecreasing(q: seq<int>)
    requires |q| >= 2
    ensures NonDecreasing(q) <==> q[0] <= q[1] && NonDecreasing(q[1..])
  {
    if q[0] <= q[1] && NonDecreasing(q[1..]) {
      forall i, j | 0 <= i < j < |q| ensures q[i] <= q[j] {
        assert q[j] == q[1..][j - 1];
        if i > 0 { assert q[i] == q[1..][i - 1]; }
      }
    }
  }

  lemma JoinOrdered(ps: seq<seq<int>>, qs: seq<seq<int>>)
    requires Ordered(ps) && Ordered(qs)
    requires forall i, j :: 0 <= i < |ps| && 0 <= j < |qs| ==> Before(ps[i], qs[j])
    ensures Ordered(ps + qs)
  {
  }

  lemma PrependOrdered(v: int, ps: seq<seq<int>>)
    requires Ordered(ps)
    ensures Ordered(Prepend(v, ps))
  {
    var r := Prepend(v, ps);
    forall i, j | 0 <= i < j < |r| ensures Before(r[i], r[j]) {
      assert r[i][1..] == ps[i] && r[j][1..] == ps[j];
    }
  }

  lemma {:induction false} PartsOrdered(m: nat, lo: nat, s: int)
    requires m >= 1
    ensures Ordered(Parts(m, lo, s))
    decreases m, if s >= lo then s - lo + 1 else 0
  {
    if s >= lo && m > 1 {
      var first, more := Prepend(lo, Parts(m - 1, lo, s - lo)), Parts(m, lo + 1, s);
      PartsOrdered(m - 1, lo, s - lo);
      PrependOrdered(lo, Parts(m - 1, lo, s - lo));
      PartsOrdered(m, lo + 1, s);
      forall i, j | 0 <= i < |first| && 0 <= j < |more| ensures Before(first[i], more[j]) {
        LowFirst(m, lo, s, first[i], more[j]);
      }
      JoinOrdered(first, more);
      assert Parts(m, lo, s) == first + more;
    }
  }

  lemma LowFirst(m: nat, lo: nat, s: int, p: seq<int>, q: seq<int>)
    requires m >= 2 && p in Prepend(lo, Parts(m - 1, lo, s - lo)) && q in Parts(m, lo + 1, s)
    ensures Before(p, q)
  {
    PrependExact(lo, Parts(m - 1, lo, s - lo), p);
    PartsExact(m - 1, lo, s - lo, p[1..]);
    PartsExact(m, lo + 1, s, q);
  }

  lemma {:induction false} AllPartsExact(s: int, m: nat, q: seq<int>)
    ensures q in AllParts(s, m) <==> IsPartition(q, s) && |q| <= m
  {
    if m > 0 {
      AllPartsExact(s, m - 1, q);
      PartsExact(m, 1, s, q);
    }
  }

  lemma {:induction false} AllPartsOrdered(s: int, m: nat)
    ensures Ordered(AllParts(s, m))
  {
    if m > 0 {
      var ps, qs := AllParts(s, m - 1), Parts(m, 1, s);
      AllPartsOrdered(s, m - 1);
      PartsOrdered(m, 1, s);
      forall i, j | 0 <= i < |ps| && 0 <= j < |qs| ensures Before(ps[i], qs[j]) {
        AllPartsExact(s, m - 1, ps[i]);
        PartsExact(m, 1, s, qs[j]);
      }
      JoinOrdered(ps, qs);
    }
  }

  lemma BeforeAsymmetric(p: seq<int>, q: seq<int>)
    requires Before(p, q)
    ensures !Before(q, p) && p != q
  {
    if |p| == |q| { LexAsymmetric(p, q); }
  }

  /** No decomposition is listed twice. */
  lemma AllPartsDistinct(s: int, m: nat, i: nat, j: nat)
    requires i < j < |AllParts(s, m)|
    ensures AllParts(s, m)[i] != AllParts(s, m)[j]
  {
    AllPartsOrdered(s, m);
    BeforeAsymmetric(AllParts(s, m)[i], AllParts(s, m)[j]);
  }

  lemma {:induction false} AllPartsPrefix(s: int, m: nat, n: nat)
    requires m <= n
    ensures AllParts(s, m) <= AllParts(s, n)
    decreases n
  {
    if m < n { AllPartsPrefix(s, m, n - 1); }
  }

  /** In an ordered list, the element after position i is the one that precedes everything
      else beyond i. */
  lemma NextInOrder(ps: seq<seq<int>>, i: int, x: seq<int>)
    requires Ordered(ps) && -1 <= i < |ps| && x in ps
    requires i >= 0 ==> Before(ps[i], x)
    requires forall j :: i < j < |ps| ==> ps[j] == x || Before(x, ps[j])
    ensures i + 1 < |ps| && ps[i + 1] == x
  {
    var k :| 0 <= k < |ps| && ps[k] == x;
    if 0 <= k <= i { BeforeAsymmetric(ps[i], x); assert false; }
    if k > i + 1 { BeforeAsymmetric(ps[i + 1], ps[k]); assert false; }
  }
}
