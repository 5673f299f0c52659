/** How many flows of a size an epoch expects: the mean number of parts of that size, over the
    decompositions of each counter, weighed by their likelihoods. */
module EmShares {
  import opened Histograms
  import opened BetaEnumeration
  import opened EmModel

  /** The parts equal to v among the first k decompositions, each decomposition counting as much as
      its weight. */
  function PartsOf(ps: seq<seq<int>>, xs: seq<real>, k: nat, v: nat): real
    requires k <= |ps| == |xs|
  {
    if k == 0 then 0.0 else PartsOf(ps, xs, k - 1, v) + Mul(CountOf(ps[k - 1], v) as real, xs[k - 1])
  }

  /** The mean number of flows of size v in a counter of value s. */
  function MeanFlows(e: Params, s: int, v: nat): real
    requires e.w > 0 && Evidence(e, s) != 0.0
  {
    Ratio(PartsOf(Enumeration(s), Likelihoods(e, Enumeration(s)), |Enumeration(s)|, v), Evidence(e, s))
  }

  lemma {:induction false} AddPartsAt(ns: seq<real>, p: seq<int>, x: real, k: nat, v: nat)
    requires k <= |p| && (forall i :: 0 <= i < |p| ==> 0 <= p[i] < |ns|) && v < |ns|
    ensures AddParts(ns, p, x, k)[v] == ns[v] + Mul(CountOf(p[..k], v) as real, x)
  {
    hide Mul, CountOf;
    if k == 0 {
      NoneOf(p, v, x);
    } else {
      AddPartsAt(ns, p, x, k - 1, v);
      CountStep(p, k - 1, v);
      OneMore(CountOf(p[..k - 1], v), x);
    }
  }

  lemma NoneOf(p: seq<int>, v: int, x: real)
    ensures Mul(CountOf(p[..0], v) as real, x) == 0.0
  {
  }

  lemma OneMore(c: nat, x: real)
    ensures Mul((c + 1) as real, x) == Mul(c as real, x) + x
  {
    assert (c + 1) as real == c as real + 1.0;
  }

  lemma {:induction false} ShareAt(ns: seq<real>, ps: seq<seq<int>>, xs: seq<real>, k: nat, v: nat)
    requires k <= |ps| == |xs| && InRange(ps, |ns|) && v < |ns|
    ensures Share(ns, ps, xs, k)[v] == ns[v] + PartsOf(ps, xs, k, v)
  {
    hide AddParts, Mul;
    if k > 0 {
      ShareAt(ns, ps, xs, k - 1, v);
      AddPartsAt(Share(ns, ps, xs, k - 1), ps[k - 1], xs[k - 1], |ps[k - 1]|, v);
      assert ps[k - 1][..|ps[k - 1]|] == ps[k - 1];
    }
  }

  /** Weights in proportion give parts in proportion. */
  lemma {:induction false} PartsScaled(ps: seq<seq<int>>, ls: seq<real>, xs: seq<real>, c: real, t: real, k: nat,
          v: nat)
    requires k <= |ps| == |ls| == |xs| && t != 0.0 && forall i :: 0 <= i < |ls| ==> xs[i] == Fraction(c, ls[i], t)
    ensures PartsOf(ps, xs, k, v) == Mul(c, Ratio(PartsOf(ps, ls, k, v), t))
  {
    hide Mul, Fraction, Ratio;
    if k == 0 {
      NothingScaled(c, t);
    } else {
      PartsScaled(ps, ls, xs, c, t, k - 1, v);
      OneScaled(c, t, PartsOf(ps, ls, k - 1, v), CountOf(ps[k - 1], v) as real, ls[k - 1]);
    }
  }

  lemma NothingScaled(c: real, t: real)
    requires t != 0.0
    ensures Mul(c, Ratio(0.0, t)) == 0.0
  {
  }

  lemma OneScaled(c: real, t: real, a: real, m: real, l: real)
    requires t != 0.0
    ensures Mul(c, Ratio(a, t)) + Mul(m, Fraction(c, l, t)) == Mul(c, Ratio(a + Mul(m, l), t))
  {
    assert m * (c * l / t) == c * (m * l / t);
    assert (a + m * l) / t == a / t + m * l / t;
    MulSum(c, a / t, m * l / t);
  }

  lemma MulSum(c: real, x: real, y: real)
    ensures c * x + c * y == c * (x + y)
  {
  }

  /** Flows of size v expected in the counters with values below k. */
  ghost function FlowsExpected(e: Params, counter_dist: seq<int>, k: nat, v: nat): real
    requires Usable(e) && 1 <= k <= |counter_dist| == |e.dist| && Supported(e, counter_dist)
  {
    if k == 1 then 0.0
    else if counter_dist[k - 1] == 0 then FlowsExpected(e, counter_dist, k - 1, v)
    else
      PositiveEvidence(e, k - 1);
      FlowsExpected(e, counter_dist, k - 1, v) + Mul(counter_dist[k - 1] as real, MeanFlows(e, k - 1, v))
  }

  /** That is what an epoch computes. */
  lemma {:induction false} ExpectedAt(e: Params, counter_dist: seq<int>, k: nat, v: nat)
    requires Usable(e) && 1 <= k <= |counter_dist| == |e.dist| && Supported(e, counter_dist) && v < |counter_dist|
    ensures Expected(e, counter_dist, k)[v] == FlowsExpected(e, counter_dist, k, v)
  {
    hide Usable, Supported, Mul, Share, InRange, Enumeration, Evidence, Likelihoods, Shares, MeanFlows;
    if k > 1 {
      ExpectedAt(e, counter_dist, k - 1, v);
      if counter_dist[k - 1] != 0 { GainAt(e, counter_dist, k, v); }
    }
  }

  lemma GainAt(e: Params, counter_dist: seq<int>, k: nat, v: nat)
    requires Usable(e) && 2 <= k <= |counter_dist| == |e.dist| && Supported(e, counter_dist) && v < |counter_dist|
    requires counter_dist[k - 1] != 0
    ensures Evidence(e, k - 1) != 0.0
    ensures Expected(e, counter_dist, k)[v] ==
            Expected(e, counter_dist, k - 1)[v] + Mul(counter_dist[k - 1] as real, MeanFlows(e, k - 1, v))
  {
    hide Mul, Share, InRange, Enumeration, Evidence, SumFirst, Ratio;
    var c := counter_dist[k - 1] as real;
    PositiveEvidence(e, k - 1);
    EnumerationInRange(k - 1, |counter_dist|);
    var ps := Enumeration(k - 1);
    ShareAt(Expected(e, counter_dist, k - 1), ps, Shares(e, k - 1, c), |ps|, v);
    PartsScaled(ps, Likelihoods(e, ps), Shares(e, k - 1, c), c, Evidence(e, k - 1), |ps|, v);
  }

  // ----- the common factor -----

  /** The estimate without the factor exp(-lambda) that all likelihoods of an epoch share. */
  function Unscaled(e: Params): Params {
    e.(scale := 1.0)
  }

  lemma LikelihoodScaled(e: Params, p: seq<int>)
    requires e.w > 0
    ensures Likelihood(e, p) == Mul(e.scale, Likelihood(Unscaled(e), p))
  {
    assert Factors(e, p) == Factors(Unscaled(e), p);
    hide Factors, Factor, Product;
  }

  lemma {:induction false} SumScaled(xs: seq<real>, ys: seq<real>, c: real, k: nat)
    requires k <= |xs| == |ys| && forall i :: 0 <= i < |xs| ==> xs[i] == Mul(c, ys[i])
    ensures SumFirst(xs, k) == Mul(c, SumFirst(ys, k))
  {
    if k > 0 { SumScaled(xs, ys, c, k - 1); }
  }

  lemma {:induction false} PartsTimes(ps: seq<seq<int>>, xs: seq<real>, ys: seq<real>, c: real, k: nat, v: nat)
    requires k <= |ps| == |xs| == |ys| && forall i :: 0 <= i < |xs| ==> xs[i] == Mul(c, ys[i])
    ensures PartsOf(ps, xs, k, v) == Mul(c, PartsOf(ps, ys, k, v))
  {
    hide CountOf;
    if k > 0 {
      PartsTimes(ps, xs, ys, c, k - 1, v);
      TimesOut(c, PartsOf(ps, ys, k - 1, v), CountOf(ps[k - 1], v) as real, ys[k - 1]);
    }
  }

  lemma TimesOut(c: real, a: real, m: real, y: real)
    ensures Mul(c, a) + Mul(m, Mul(c, y)) == Mul(c, a + Mul(m, y))
  {
    assert m * (c * y) == c * (m * y);
    MulSum(c, a, m * y);
  }

  lemma FactorCancels(c: real, a: real, b: real)
    requires c != 0.0 && Mul(c, b) != 0.0
    ensures b != 0.0 && Ratio(Mul(c, a), Mul(c, b)) == Ratio(a, b)
  {
  }

  lemma MeanUnscaled(e: Params, s: int, v: nat)
    requires e.w > 0 && e.scale > 0.0 && Evidence(e, s) != 0.0
    ensures Evidence(Unscaled(e), s) != 0.0 && MeanFlows(e, s, v) == MeanFlows(Unscaled(e), s, v)
  {
    var ps := Enumeration(s);
    var xs, ys := Likelihoods(e, ps), Likelihoods(Unscaled(e), ps);
    hide Enumeration, Likelihood, Mul, Ratio, CountOf, PartsOf, SumFirst;
    forall i | 0 <= i < |ps| ensures xs[i] == Mul(e.scale, ys[i]) { LikelihoodScaled(e, ps[i]); }
    SumScaled(xs, ys, e.scale, |ps|);
    PartsTimes(ps, xs, ys, e.scale, |ps|, v);
    FactorCancels(e.scale, PartsOf(ps, ys, |ps|, v), SumFirst(ys, |ps|));
  }

  lemma {:induction false} ExpectedUnscaled(e: Params, counter_dist: seq<int>, k: nat, v: nat)
    requires Usable(e) && 1 <= k <= |counter_dist| == |e.dist| && Supported(e, counter_dist)
    ensures Usable(Unscaled(e)) && Supported(Unscaled(e), counter_dist)
    ensures FlowsExpected(e, counter_dist, k, v) == FlowsExpected(Unscaled(e), counter_dist, k, v)
  {
    hide Mul, Evidence, MeanFlows;
    if k > 1 {
      ExpectedUnscaled(e, counter_dist, k - 1, v);
      if counter_dist[k - 1] != 0 {
        PositiveEvidence(e, k - 1);
        MeanUnscaled(e, k - 1, v);
      }
    }
  }

  /** An epoch, from the estimate it starts with: the flows expected of each size, whatever the
      exponential factor; their total; and the share of each size in it. */
  lemma EpochMeaning(w: nat, exp: real -> real, counter_dist: seq<int>, est: Estimate, v: nat)
    requires w > 0 && Histogram(counter_dist) && Good(est, counter_dist) && EpochParams(w, exp, est).scale > 0.0
    requires 1 <= v < |counter_dist|
    ensures var e, r := Params(w, est.dist, est.n, 1.0), NextEstimate(w, exp, counter_dist, est);
            && Usable(e) && Supported(e, counter_dist)
            && r.ns[v] == FlowsExpected(e, counter_dist, |counter_dist|, v)
            && r.n == Flows(r.ns) > 0.0 && r.dist[v] == Ratio(r.ns[v], r.n)
  {
    var e := EpochParams(w, exp, est);
    hide Expected, FlowsExpected, Flows, Ratio;
    FlowsPositive(e, counter_dist);
    ExpectedAt(e, counter_dist, |counter_dist|, v);
    ExpectedUnscaled(e, counter_dist, |counter_dist|, v);
  }
}
