/** What the likelihood of a decomposition is: a sum over the orders in which its parts may come. */
module EmOrderings {
  import opened Histograms
  import opened Partitions
  import opened BetaEnumeration
  import opened EmModel

  // ----- the orderings of given parts -----

  ghost predicate Distinct(qs: seq<seq<int>>) {
    forall i, j :: 0 <= i < j < |qs| ==> qs[i] != qs[j]
  }

  ghost predicate Counts(c: seq<int>, n: nat) {
    Sum(c) == n && forall v :: 0 <= v < |c| ==> c[v] >= 0
  }

  /** One occurrence of v less. */
  function Less(c: seq<int>, v: nat): (r: seq<int>)
    requires v < |c|
    ensures |r| == |c| && forall u :: 0 <= u < |c| ==> r[u] == if u == v then c[u] - 1 else c[u]
  {
    c[v := c[v] - 1]
  }

  /** All sequences of n numbers in which each v occurs c[v] times. */
  function Arrange(c: seq<int>, n: nat): seq<seq<int>>
    decreases n, |c| + 1
  {
    if n == 0 then [[]] else ArrangeFrom(c, n, |c|)
  }

  /** Those that begin with a number below k. */
  function ArrangeFrom(c: seq<int>, n: nat, k: nat): seq<seq<int>>
    requires n > 0 && k <= |c|
    decreases n, k
  {
    if k == 0 then []
    else ArrangeFrom(c, n, k - 1) + if c[k - 1] > 0 then Prepend(k - 1, Arrange(Less(c, k - 1), n - 1)) else []
  }

  /** All orderings of p, whose elements are below size. */
  function Orderings(p: seq<int>, size: nat): seq<seq<int>> {
    Arrange(HistogramOf(p, size), |p|)
  }

  ghost predicate Below(q: seq<int>, size: nat) {
    forall j :: 0 <= j < |q| ==> 0 <= q[j] < size
  }

  /** q has the counts c. */
  ghost predicate Has(q: seq<int>, c: seq<int>) {
    Below(q, |c|) && forall v :: 0 <= v < |c| ==> CountOf(q, v) == c[v]
  }

  lemma LessCounts(c: seq<int>, n: nat, v: nat)
    requires Counts(c, n) && v < |c| && c[v] > 0
    ensures n > 0 && Counts(Less(c, v), n - 1)
  {
    UpdateCounts(c, v, c[v] - 1);
    SumNonNegative(Less(c, v));
  }

  lemma HasFirst(q: seq<int>, c: seq<int>)
    requires q != [] && 0 <= q[0] < |c|
    ensures Has(q, c) <==> Has(q[1..], Less(c, q[0]))
  {
    assert q == [q[0]] + q[1..];
    assert forall j :: 0 <= j < |q| - 1 ==> q[j + 1] == q[1..][j];
  }

  lemma {:induction false} ArrangeExact(c: seq<int>, n: nat, q: seq<int>)
    requires Counts(c, n)
    ensures q in Arrange(c, n) <==> |q| == n && Has(q, c)
    decreases n, |c| + 1
  {
    if n == 0 {
      AllZero(c);
      if q != [] && Has(q, c) && |q| == 0 { assert false; }
    } else {
      ArrangeFromExact(c, n, |c|, q);
    }
  }

  lemma AllZero(c: seq<int>)
    requires Counts(c, 0)
    ensures forall v :: 0 <= v < |c| ==> c[v] == 0
  {
    forall v | 0 <= v < |c| ensures c[v] == 0 {
      if c[v] > 0 { LessCounts(c, 0, v); }
    }
  }

  lemma {:induction false} ArrangeFromExact(c: seq<int>, n: nat, k: nat, q: seq<int>)
    requires Counts(c, n) && n > 0 && k <= |c|
    ensures q in ArrangeFrom(c, n, k) <==> |q| == n && Has(q, c) && q[0] < k
    decreases n, k
  {
    hide Has, Counts, Arrange, Less;
    if k == 0 {
      FirstNotNegative(q, c);
    } else {
      ArrangeFromExact(c, n, k - 1, q);
      PrependedExact(c, n, k - 1, q);
    }
  }

  lemma {:induction false} PrependedExact(c: seq<int>, n: nat, v: nat, q: seq<int>)
    requires Counts(c, n) && n > 0 && v < |c|
    ensures c[v] > 0 && q in Prepend(v, Arrange(Less(c, v), n - 1)) <==> |q| == n && Has(q, c) && q[0] == v
    decreases n, v
  {
    hide Has, Counts, Arrange, Less;
    PrependExact(v, Arrange(Less(c, v), n - 1), q);
    if q != [] && q[0] == v {
      HasFirst(q, c);
      if c[v] > 0 {
        LessCounts(c, n, v);
        ArrangeExact(Less(c, v), n - 1, q[1..]);
      } else if Has(q, c) {
        FirstCounted(q, c);
        assert false;
      }
    }
  }

  lemma FirstNotNegative(q: seq<int>, c: seq<int>)
    ensures q != [] && Has(q, c) ==> q[0] >= 0
  {
  }

  lemma FirstCounted(q: seq<int>, c: seq<int>)
    requires q != [] && Has(q, c)
    ensures c[q[0]] > 0
  {
  }

  lemma PrependDistinct(v: int, qs: seq<seq<int>>)
    requires Distinct(qs)
    ensures Distinct(Prepend(v, qs))
  {
    forall i, j | 0 <= i < j < |qs| ensures Prepend(v, qs)[i] != Prepend(v, qs)[j] {
      assert Prepend(v, qs)[i][1..] == qs[i] && Prepend(v, qs)[j][1..] == qs[j];
    }
  }

  /** Sequences that begin with numbers below v, and then some that begin with v. */
  lemma AppendDistinct(a: seq<seq<int>>, b: seq<seq<int>>, v: int)
    requires Distinct(a) && Distinct(b)
    requires forall i :: 0 <= i < |a| ==> a[i] != [] && a[i][0] < v
    requires forall i :: 0 <= i < |b| ==> b[i] != [] && b[i][0] == v
    ensures Distinct(a + b)
  {
  }

  lemma FirstBelow(c: seq<int>, n: nat, k: nat)
    requires Counts(c, n) && n > 0 && k <= |c|
    ensures forall i :: 0 <= i < |ArrangeFrom(c, n, k)| ==>
              ArrangeFrom(c, n, k)[i] != [] && ArrangeFrom(c, n, k)[i][0] < k
  {
    var qs := ArrangeFrom(c, n, k);
    hide Counts, Has, ArrangeFrom;
    forall i | 0 <= i < |qs| ensures qs[i] != [] && qs[i][0] < k { ArrangeFromExact(c, n, k, qs[i]); }
  }

  lemma {:induction false} ArrangeDistinct(c: seq<int>, n: nat)
    requires Counts(c, n)
    ensures Distinct(Arrange(c, n))
    decreases n, |c| + 1
  {
    if n > 0 { ArrangeFromDistinct(c, n, |c|); }
  }

  lemma {:induction false} ArrangeFromDistinct(c: seq<int>, n: nat, k: nat)
    requires Counts(c, n) && n > 0 && k <= |c|
    ensures Distinct(ArrangeFrom(c, n, k))
    decreases n, k
  {
    if k > 0 {
      ArrangeFromDistinct(c, n, k - 1);
      if c[k - 1] > 0 {
        hide Counts, Distinct;
        LessCounts(c, n, k - 1);
        ArrangeDistinct(Less(c, k - 1), n - 1);
        PrependDistinct(k - 1, Arrange(Less(c, k - 1), n - 1));
        FirstBelow(c, n, k - 1);
        AppendDistinct(ArrangeFrom(c, n, k - 1), Prepend(k - 1, Arrange(Less(c, k - 1), n - 1)), k - 1);
      }
    }
  }

  /** q holds the same numbers as p, each as often. */
  ghost predicate Permuted(q: seq<int>, p: seq<int>) {
    forall v :: CountOf(q, v) == CountOf(p, v)
  }

  /** The orderings of p are listed, each once. */
  lemma OrderingsExact(p: seq<int>, size: nat, q: seq<int>)
    requires Below(p, size)
    ensures q in Orderings(p, size) <==> |q| == |p| && Permuted(q, p)
    ensures Distinct(Orderings(p, size))
  {
    HistogramTotal(p, size);
    hide Arrange, CountOf, Has, Permuted;
    ArrangeExact(HistogramOf(p, size), |p|, q);
    ArrangeDistinct(HistogramOf(p, size), |p|);
    SameCounts(p, size, q);
  }

  lemma SameCounts(p: seq<int>, size: nat, q: seq<int>)
    requires Below(p, size)
    ensures Has(q, HistogramOf(p, size)) <==> Permuted(q, p)
  {
    hide Permuted, Has;
    if Has(q, HistogramOf(p, size)) { CountsAgree(p, size, q); }
    if Permuted(q, p) { AgreeingHas(p, size, q); }
  }

  lemma CountsAgree(p: seq<int>, size: nat, q: seq<int>)
    requires Below(p, size) && Has(q, HistogramOf(p, size))
    ensures Permuted(q, p)
  {
    hide CountOf;
    forall v ensures CountOf(q, v) == CountOf(p, v) { CountAbsent(q, v); CountAbsent(p, v); }
  }

  lemma AgreeingHas(p: seq<int>, size: nat, q: seq<int>)
    requires Below(p, size) && Permuted(q, p)
    ensures Has(q, HistogramOf(p, size))
  {
    hide CountOf;
    forall j | 0 <= j < |q| ensures 0 <= q[j] < size {
      CountAbsent(q, q[j]);
      CountAbsent(p, q[j]);
      assert CountOf(q, q[j]) == CountOf(p, q[j]);
    }
  }

  // ----- their weights -----

  /** Flows of size v expected in one counter. */
  function FlowsPer(e: Params, v: nat): real
    requires e.w > 0 && v < |e.dist|
  {
    e.n * e.dist[v] / e.w as real
  }

  /** The product of these numbers over the elements of q. */
  function Weight(e: Params, q: seq<int>): real
    requires e.w > 0 && Below(q, |e.dist|)
  {
    if q == [] then 1.0 else Mul(FlowsPer(e, q[0]), Weight(e, q[1..]))
  }

  lemma FlowsPerIsRate(e: Params, v: nat)
    requires e.w > 0 && v < |e.dist|
    ensures FlowsPer(e, v) == Rate(e.n, e.dist[v], e.w)
  {
  }

  ghost predicate AllBelow(qs: seq<seq<int>>, size: nat) {
    forall i :: 0 <= i < |qs| ==> Below(qs[i], size)
  }

  ghost function WeightSum(e: Params, qs: seq<seq<int>>): real
    requires e.w > 0 && AllBelow(qs, |e.dist|)
  {
    if qs == [] then 0.0 else WeightSum(e, qs[..|qs| - 1]) + Weight(e, qs[|qs| - 1])
  }

  lemma {:induction false} WeightSumAppend(e: Params, a: seq<seq<int>>, b: seq<seq<int>>)
    requires e.w > 0 && AllBelow(a, |e.dist|) && AllBelow(b, |e.dist|)
    ensures AllBelow(a + b, |e.dist|) && WeightSum(e, a + b) == WeightSum(e, a) + WeightSum(e, b)
  {
    if b == [] {
      assert a + b == a;
    } else {
      var m := |b| - 1;
      WeightSumAppend(e, a, b[..m]);
      assert (a + b)[..|a + b| - 1] == a + b[..m];
    }
  }

  lemma {:induction false} WeightSumPrepend(e: Params, v: nat, qs: seq<seq<int>>)
    requires e.w > 0 && v < |e.dist| && AllBelow(qs, |e.dist|)
    ensures AllBelow(Prepend(v, qs), |e.dist|)
    ensures WeightSum(e, Prepend(v, qs)) == Mul(Rate(e.n, e.dist[v], e.w), WeightSum(e, qs))
  {
    hide Mul, Rate, Weight, Below;
    forall i | 0 <= i < |qs| ensures Below(Prepend(v, qs)[i], |e.dist|) { BelowMore(v, qs[i], |e.dist|); }
    MulNone(Rate(e.n, e.dist[v], e.w));
    if qs != [] {
      var m := |qs| - 1;
      WeightSumPrepend(e, v, qs[..m]);
      assert Prepend(v, qs)[..m] == Prepend(v, qs[..m]);
      WeightPrepend(e, v, qs[m]);
      MulAdd(Rate(e.n, e.dist[v], e.w), WeightSum(e, qs[..m]), Weight(e, qs[m]));
    }
  }

  lemma MulNone(a: real)
    ensures Mul(a, 0.0) == 0.0
  {
  }

  lemma WeightPrepend(e: Params, v: nat, q: seq<int>)
    requires e.w > 0 && v < |e.dist| && Below(q, |e.dist|)
    ensures Below([v] + q, |e.dist|) && Weight(e, [v] + q) == Mul(Rate(e.n, e.dist[v], e.w), Weight(e, q))
  {
    hide Mul, Rate, FlowsPer;
    BelowMore(v, q, |e.dist|);
    var x := [v] + q;
    assert x[1..] == q && x[0] == v;
    FlowsPerIsRate(e, v);
  }

  lemma BelowMore(v: nat, q: seq<int>, size: nat)
    requires v < size && Below(q, size)
    ensures Below([v] + q, size)
  {
  }

  lemma MulAdd(a: real, b: real, c: real)
    ensures Mul(a, b) + Mul(a, c) == Mul(a, b + c)
  {
  }

  // ----- one part more -----

  /** The Poisson terms for the counts c. */
  function Terms(e: Params, c: seq<int>): (f: seq<real>)
    requires e.w > 0 && |c| == |e.dist| && forall v :: 0 <= v < |c| ==> c[v] >= 0
    ensures |f| == |c| && forall v :: 0 <= v < |c| ==> f[v] == PoissonTerm(Rate(e.n, e.dist[v], e.w), c[v])
  {
    seq(|c|, v requires 0 <= v < |c| => PoissonTerm(Rate(e.n, e.dist[v], e.w), c[v]))
  }

  function TermProduct(e: Params, c: seq<int>): real
    requires e.w > 0 && |c| == |e.dist| && forall v :: 0 <= v < |c| ==> c[v] >= 0
  {
    Product(Terms(e, c), |c|, {})
  }

  lemma FactorialStep(k: nat)
    requires k > 0
    ensures Factorial(k) == k * Factorial(k - 1)
  {
    if k > 1 { MulTurn(Factorial(k - 1), k); }
  }

  lemma MulTurn(a: int, b: int)
    ensures a * b == b * a
  {
  }

  /** x * x^(k-1)/(k-1)! is k * x^k/k!. */
  lemma TermStep(x: real, k: nat)
    requires k > 0
    ensures Mul(x, PoissonTerm(x, k - 1)) == Mul(k as real, PoissonTerm(x, k))
  {
    FactorialStep(k);
    QuotientStep(x, Pow(x, k - 1), k, Factorial(k - 1), Factorial(k));
  }

  lemma QuotientStep(x: real, y: real, k: nat, f: nat, g: nat)
    requires k > 0 && f > 0 && g == k * f
    ensures Mul(x, y / f as real) == Mul(k as real, x * y / g as real)
  {
    assert g as real == k as real * f as real;
    var z := x * y;
    assert x * (y / f as real) == z / f as real;
    assert k as real * (z / (k as real * f as real)) == z / f as real;
  }

  /** The product of all but one factor. */
  lemma {:induction false} ProductElsewhere(f: seq<real>, g: seq<real>, k: nat, v: nat)
    requires k <= |f| == |g| && forall u :: 0 <= u < |f| && u != v ==> f[u] == g[u]
    ensures Product(f, k, {v}) == Product(g, k, {v})
  {
    if k > 0 { ProductElsewhere(f, g, k - 1, v); }
  }

  lemma LessTerm(e: Params, c: seq<int>, v: nat)
    requires e.w > 0 && |c| == |e.dist| && (forall u :: 0 <= u < |c| ==> c[u] >= 0) && v < |c| && c[v] > 0
    ensures forall u :: 0 <= u < |c| ==> Less(c, v)[u] >= 0
    ensures Mul(Rate(e.n, e.dist[v], e.w), TermProduct(e, Less(c, v))) == Mul(c[v] as real, TermProduct(e, c))
  {
    hide PoissonTerm, Product, Rate, Mul;
    var f, g := Terms(e, c), Terms(e, Less(c, v));
    TakeOut(f, v);
    TakeOut(g, v);
    ProductElsewhere(f, g, |c|, v);
    TermStep(Rate(e.n, e.dist[v], e.w), c[v]);
    Regroup(Rate(e.n, e.dist[v], e.w), c[v] as real, Product(f, |c|, {v}), g[v], f[v]);
  }

  lemma TakeOut(f: seq<real>, v: nat)
    requires v < |f|
    ensures Product(f, |f|, {}) == Mul(Product(f, |f|, {v}), f[v])
  {
    ProductTake(f, |f|, {v}, v);
    assert {v} - {v} == {};
  }

  lemma Regroup(x: real, k: real, rest: real, g: real, f: real)
    requires Mul(x, g) == Mul(k, f)
    ensures Mul(x, Mul(rest, g)) == Mul(k, Mul(rest, f))
  {
    assert x * (rest * g) == rest * (x * g);
    assert k * (rest * f) == rest * (k * f);
  }

  // ----- the sum over the orderings -----

  lemma {:induction false} ArrangeBelow(c: seq<int>, n: nat)
    requires Counts(c, n)
    ensures AllBelow(Arrange(c, n), |c|)
  {
    forall i | 0 <= i < |Arrange(c, n)| ensures Below(Arrange(c, n)[i], |c|) {
      ArrangeExact(c, n, Arrange(c, n)[i]);
    }
  }

  lemma ArrangeFromBelow(c: seq<int>, n: nat, k: nat)
    requires Counts(c, n) && n > 0 && k <= |c|
    ensures AllBelow(ArrangeFrom(c, n, k), |c|)
  {
    forall i | 0 <= i < |ArrangeFrom(c, n, k)| ensures Below(ArrangeFrom(c, n, k)[i], |c|) {
      ArrangeFromExact(c, n, k, ArrangeFrom(c, n, k)[i]);
    }
  }

  lemma {:induction false} ArrangeSum(e: Params, c: seq<int>, n: nat)
    requires e.w > 0 && Counts(c, n) && |c| == |e.dist|
    ensures AllBelow(Arrange(c, n), |c|)
    ensures WeightSum(e, Arrange(c, n)) == Mul(Factorial(n) as real, TermProduct(e, c))
    decreases n, |c| + 1
  {
    ArrangeBelow(c, n);
    if n == 0 {
      NothingArranged(e, c);
    } else {
      CountsSign(c, n);
      ArrangeFromSum(e, c, n, |c|);
      assert c[..|c|] == c;
      FactorialStep(n);
      hide TermProduct, Arrange, WeightSum, AllBelow, Counts;
      FactorSwap(Factorial(n - 1), n, TermProduct(e, c), Factorial(n));
    }
  }

  lemma NothingArranged(e: Params, c: seq<int>)
    requires e.w > 0 && Counts(c, 0) && |c| == |e.dist| && AllBelow(Arrange(c, 0), |c|)
    ensures WeightSum(e, Arrange(c, 0)) == Mul(Factorial(0) as real, TermProduct(e, c))
  {
    AllZero(c);
    assert forall v :: 0 <= v < |c| ==> Terms(e, c)[v] == 1.0;
    ProductOnes(Terms(e, c), |c|, {});
    assert Arrange(c, 0)[..0] == [];
    assert Weight(e, []) == 1.0;
  }

  lemma FactorSwap(f: nat, n: nat, t: real, g: nat)
    requires g == n * f
    ensures Mul(f as real, Mul(n as real, t)) == Mul(g as real, t)
  {
    assert g as real == n as real * f as real;
  }

  lemma {:induction false} ArrangeFromSum(e: Params, c: seq<int>, n: nat, k: nat)
    requires e.w > 0 && Counts(c, n) && |c| == |e.dist| && n > 0 && k <= |c|
    requires forall v :: 0 <= v < |c| ==> c[v] >= 0
    ensures AllBelow(ArrangeFrom(c, n, k), |c|)
    ensures WeightSum(e, ArrangeFrom(c, n, k)) ==
            Mul(Factorial(n - 1) as real, Mul(Sum(c[..k]) as real, TermProduct(e, c)))
    decreases n, k
  {
    hide TermProduct, AllBelow, Counts, Factorial, Mul, Less, Rate, Arrange, Weight, Has;
    ArrangeFromBelow(c, n, k);
    if k == 0 {
      NoneFirst(e, c, Factorial(n - 1) as real);
    } else {
      ArrangeFromSum(e, c, n, k - 1);
      SumStep(c, k - 1);
      hide WeightSum, Sum, ArrangeFrom;
      ArrangeFromSplit(c, n, k);
      if c[k - 1] > 0 {
        FirstSum(e, c, n, k - 1);
        WeightSumAppend(e, ArrangeFrom(c, n, k - 1), Prepend(k - 1, Arrange(Less(c, k - 1), n - 1)));
        SumsAdd(Factorial(n - 1) as real, Sum(c[..k - 1]), c[k - 1], TermProduct(e, c));
      } else {
        assert ArrangeFrom(c, n, k) == ArrangeFrom(c, n, k - 1);
      }
    }
  }

  lemma ArrangeFromSplit(c: seq<int>, n: nat, k: nat)
    requires n > 0 && 0 < k <= |c|
    ensures ArrangeFrom(c, n, k) == ArrangeFrom(c, n, k - 1)
                                    + if c[k - 1] > 0 then Prepend(k - 1, Arrange(Less(c, k - 1), n - 1)) else []
  {
  }

  lemma NoneFirst(e: Params, c: seq<int>, f: real)
    requires e.w > 0 && |c| == |e.dist| && forall v :: 0 <= v < |c| ==> c[v] >= 0
    ensures Mul(f, Mul(Sum(c[..0]) as real, TermProduct(e, c))) == 0.0
  {
    assert c[..0] == [];
  }

  /** The orderings that begin with v. */
  lemma FirstSum(e: Params, c: seq<int>, n: nat, v: nat)
    requires e.w > 0 && Counts(c, n) && |c| == |e.dist| && n > 0 && v < |c| && c[v] > 0
    requires forall u :: 0 <= u < |c| ==> c[u] >= 0
    ensures var qs := Prepend(v, Arrange(Less(c, v), n - 1));
            && AllBelow(qs, |c|)
            && WeightSum(e, qs) == Mul(Factorial(n - 1) as real, Mul(c[v] as real, TermProduct(e, c)))
    decreases n, 0
  {
    hide TermProduct, WeightSum, AllBelow, Counts, Factorial, Mul, Less, Rate, Arrange;
    LessCounts(c, n, v);
    ArrangeSum(e, Less(c, v), n - 1);
    WeightSumPrepend(e, v, Arrange(Less(c, v), n - 1));
    LessTerm(e, c, v);
    MulTwice(Rate(e.n, e.dist[v], e.w), Factorial(n - 1) as real, TermProduct(e, Less(c, v)));
  }

  lemma MulTwice(x: real, f: real, t: real)
    ensures Mul(x, Mul(f, t)) == Mul(f, Mul(x, t))
  {
  }

  lemma SumsAdd(f: real, s: int, k: int, t: real)
    ensures Mul(f, Mul(s as real, t)) + Mul(f, Mul(k as real, t)) == Mul(f, Mul((s + k) as real, t))
  {
    assert (s + k) as real == s as real + k as real;
    MulAdd(f, Mul(s as real, t), Mul(k as real, t));
  }

  lemma CountsSign(c: seq<int>, n: nat)
    requires Counts(c, n)
    ensures forall u :: 0 <= u < |c| ==> c[u] >= 0
  {
  }

  // ----- how many orderings there are -----

  /** Different numbers have as many orderings as the factorial of their number. */
  lemma {:induction false} ArrangeCount(c: seq<int>, n: nat)
    requires Counts(c, n) && forall v :: 0 <= v < |c| ==> c[v] <= 1
    ensures |Arrange(c, n)| == Factorial(n)
    decreases n, |c| + 1
  {
    hide Factorial, Counts, Sum;
    if n == 0 {
      assert Factorial(0) == 1 by { ZeroFactorial(); }
    } else {
      ArrangeFromCount(c, n, |c|);
      assert c[..|c|] == c;
      FactorialStep(n);
      CountsTotal(c, n);
    }
  }

  lemma ZeroFactorial()
    ensures Factorial(0) == 1
  {
  }

  lemma CountsTotal(c: seq<int>, n: nat)
    requires Counts(c, n)
    ensures Sum(c) == n
  {
  }

  lemma {:induction false} ArrangeFromCount(c: seq<int>, n: nat, k: nat)
    requires Counts(c, n) && n > 0 && k <= |c| && forall v :: 0 <= v < |c| ==> c[v] <= 1
    ensures |ArrangeFrom(c, n, k)| == Multiple(Sum(c[..k]), Factorial(n - 1))
    decreases n, k
  {
    hide Factorial, Counts, Sum, Multiple, Arrange, Less, Prepend;
    CountsSign(c, n);
    if k == 0 {
      NoneTotal(c, Factorial(n - 1));
    } else {
      ArrangeFromCount(c, n, k - 1);
      NextCount(c, k - 1, Factorial(n - 1));
      if c[k - 1] > 0 {
        LessCounts(c, n, k - 1);
        ArrangeCount(Less(c, k - 1), n - 1);
      }
    }
  }

  function Multiple(a: int, f: int): int {
    a * f
  }

  lemma NoneTotal(c: seq<int>, f: int)
    ensures Multiple(Sum(c[..0]), f) == 0
  {
  }

  lemma NextCount(c: seq<int>, k: nat, f: int)
    requires k < |c| && 0 <= c[k] <= 1
    ensures Multiple(Sum(c[..k + 1]), f) == Multiple(Sum(c[..k]), f) + if c[k] > 0 then f else 0
  {
    SumStep(c, k);
    hide Sum;
    OneMore(Sum(c[..k]), f);
  }

  lemma OneMore(a: int, f: int)
    ensures (a + 1) * f == a * f + f
  {
  }

  /** Factorial(n) is the number of orderings of n different numbers. */
  lemma FactorialCounts(p: seq<int>, size: nat)
    requires Below(p, size) && forall i, j :: 0 <= i < j < |p| ==> p[i] != p[j]
    ensures |Orderings(p, size)| == Factorial(|p|)
  {
    hide Factorial, CountOf, Arrange;
    HistogramTotal(p, size);
    forall v ensures CountOf(p, v) <= 1 { CountOnce(p, v); }
    ArrangeCount(HistogramOf(p, size), |p|);
  }

  lemma {:induction false} CountOnce(p: seq<int>, v: int)
    requires forall i, j :: 0 <= i < j < |p| ==> p[i] != p[j]
    ensures CountOf(p, v) <= 1
  {
    if p != [] {
      CountOnce(p[1..], v);
      CountAbsent(p[1..], v);
    }
  }

  /** The likelihood of p, times the factorial of its length, is exp(-lambda) times the sum of the
      weights of its orderings. */
  lemma LikelihoodMeaning(e: Params, p: seq<int>)
    requires e.w > 0 && Below(p, |e.dist|)
    ensures AllBelow(Orderings(p, |e.dist|), |e.dist|)
    ensures Factorial(|p|) as real * Likelihood(e, p) == e.scale * WeightSum(e, Orderings(p, |e.dist|))
  {
    hide AllBelow, Orderings, WeightSum, Factorial, Likelihood, Mul;
    OrderingsSum(e, p);
    MulIs(Factorial(|p|) as real, Likelihood(e, p));
    MulIs(e.scale, WeightSum(e, Orderings(p, |e.dist|)));
  }

  lemma MulIs(a: real, b: real)
    ensures Mul(a, b) == a * b
  {
  }

  lemma OrderingsSum(e: Params, p: seq<int>)
    requires e.w > 0 && Below(p, |e.dist|)
    ensures AllBelow(Orderings(p, |e.dist|), |e.dist|)
    ensures Mul(Factorial(|p|) as real, Likelihood(e, p)) == Mul(e.scale, WeightSum(e, Orderings(p, |e.dist|)))
  {
    hide Arrange, WeightSum, Factorial, TermProduct, Likelihood, CountOf, Sum, Mul, PoissonTerm, Rate;
    var c := HistogramOf(p, |e.dist|);
    HistogramTotal(p, |e.dist|);
    ArrangeSum(e, c, |p|);
    assert Terms(e, c) == Factors(e, p);
    LikelihoodIs(e, p, c);
    MulTwice(Factorial(|p|) as real, e.scale, TermProduct(e, c));
  }

  lemma LikelihoodIs(e: Params, p: seq<int>, c: seq<int>)
    requires e.w > 0 && |c| == |e.dist| && (forall v :: 0 <= v < |c| ==> c[v] >= 0) && Terms(e, c) == Factors(e, p)
    ensures Likelihood(e, p) == Mul(e.scale, TermProduct(e, c))
  {
    hide Factors, Terms, Product, Mul;
  }
}
