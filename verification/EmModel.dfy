/** One expectation-maximisation epoch of common/EMFSD.h over exact reals: every counter value
    is shared among its decompositions in proportion to their likelihood. */
module EmModel {
  import opened Histograms
  import opened Partitions
  import opened BetaEnumeration

  // ----- likelihoods -----

  /** What an epoch reads: the number of counters, the flow size distribution and flow count
      of the epoch before, and the value of exp(-lambda). */
  datatype Params = Params(w: nat, dist: seq<real>, n: real, scale: real)

  function Pow(x: real, k: nat): real {
    if k == 0 then 1.0 else x * Pow(x, k - 1)
  }

  function Factorial(n: nat): (f: nat)
    ensures f >= 1
  {
    if n <= 1 then 1 else MulPositive(Factorial(n - 1), n); Factorial(n - 1) * n
  }

  lemma MulPositive(a: int, b: int)
    requires a >= 1 && b >= 1
    ensures a * b >= 1
  {
  }

  function Mul(a: real, b: real): real {
    a * b
  }

  /** lambda_i, the expected number of flows of one size in one counter. */
  function Rate(n: real, share: real, w: nat): real
    requires w > 0
  {
    n * share / w as real
  }

  function PoissonTerm(x: real, k: nat): real {
    Pow(x, k) / Factorial(k) as real
  }

  /** The Poisson term of the parts of p that equal v; 1 when there is none. */
  function Factor(e: Params, p: seq<int>, v: nat): real
    requires e.w > 0 && v < |e.dist|
  {
    PoissonTerm(Rate(e.n, e.dist[v], e.w), CountOf(p, v))
  }

  /** The factors of p, by value. */
  function Factors(e: Params, p: seq<int>): (f: seq<real>)
    requires e.w > 0
    ensures |f| == |e.dist| && forall v :: 0 <= v < |f| ==> f[v] == Factor(e, p, v)
  {
    seq(|e.dist|, v requires 0 <= v < |e.dist| => Factor(e, p, v))
  }

  /** The product of the first k factors, leaving out the positions set aside. */
  function Product(f: seq<real>, k: nat, aside: set<int>): real
    requires k <= |f|
  {
    if k == 0 then 1.0 else if k - 1 in aside then Product(f, k - 1, aside) else Product(f, k - 1, aside) * f[k - 1]
  }

  /** The likelihood of a decomposition. */
  function Likelihood(e: Params, p: seq<int>): real
    requires e.w > 0
  {
    Mul(e.scale, Product(Factors(e, p), |e.dist|, {}))
  }

  function Likelihoods(e: Params, ps: seq<seq<int>>): (ls: seq<real>)
    requires e.w > 0
    ensures |ls| == |ps| && forall i :: 0 <= i < |ps| ==> ls[i] == Likelihood(e, ps[i])
  {
    seq(|ps|, i requires 0 <= i < |ps| => Likelihood(e, ps[i]))
  }

  function SumFirst(xs: seq<real>, k: nat): real
    requires k <= |xs|
  {
    if k == 0 then 0.0 else SumFirst(xs, k - 1) + xs[k - 1]
  }

  lemma SumFirstStep(xs: seq<real>, k: nat)
    requires k < |xs|
    ensures SumFirst(xs, k + 1) == SumFirst(xs, k) + xs[k]
  {
  }

  /** sum_p, the normalising sum over all the decompositions of s. */
  function Evidence(e: Params, s: int): real
    requires e.w > 0
  {
    SumFirst(Likelihoods(e, Enumeration(s)), |Enumeration(s)|)
  }

  function Ratio(a: real, b: real): real
    requires b != 0.0
  {
    a / b
  }

  function Fraction(c: real, part: real, whole: real): real
    requires whole != 0.0
  {
    c * part / whole
  }

  /** What each decomposition receives of a count c. */
  function Shares(e: Params, s: int, c: real): (xs: seq<real>)
    requires e.w > 0 && Evidence(e, s) != 0.0
    ensures |xs| == |Enumeration(s)|
    ensures forall i :: 0 <= i < |xs| ==> xs[i] == Fraction(c, Likelihoods(e, Enumeration(s))[i], Evidence(e, s))
  {
    var ls, total := Likelihoods(e, Enumeration(s)), Evidence(e, s);
    seq(|ls|, i requires 0 <= i < |ls| => Fraction(c, ls[i], total))
  }

  lemma {:induction false} ProductTake(f: seq<real>, k: nat, aside: set<int>, v: nat)
    requires k <= |f| && v in aside && v < |f|
    ensures v >= k ==> Product(f, k, aside - {v}) == Product(f, k, aside)
    ensures v < k ==> Product(f, k, aside - {v}) == Product(f, k, aside) * f[v]
  {
    if k > 0 {
      ProductTake(f, k - 1, aside, v);
      if v < k - 1 && k - 1 !in aside {
        MulSwap(Product(f, k - 1, aside), f[v], f[k - 1], Product(f, k - 1, aside - {v}));
      }
    }
  }

  lemma MulSwap(a: real, x: real, y: real, b: real)
    requires b == a * x
    ensures b * y == (a * y) * x
  {
  }

  lemma {:induction false} ProductOnes(f: seq<real>, k: nat, aside: set<int>)
    requires k <= |f| && forall v :: 0 <= v < k && v !in aside ==> f[v] == 1.0
    ensures Product(f, k, aside) == 1.0
  {
    if k > 0 { ProductOnes(f, k - 1, aside); }
  }

  lemma FactorAbsent(e: Params, p: seq<int>, v: nat)
    requires e.w > 0 && v < |e.dist| && CountOf(p, v) == 0
    ensures Factor(e, p, v) == 1.0
  {
    assert Pow(Rate(e.n, e.dist[v], e.w), 0) == 1.0 && Factorial(0) == 1;
  }

  /** Distribution entries are nonnegative, and the scale and any flow count used are positive. */
  ghost predicate Usable(e: Params) {
    e.w > 0 && e.scale > 0.0 && (|e.dist| > 1 ==> e.n > 0.0) && forall v :: 1 <= v < |e.dist| ==> e.dist[v] >= 0.0
  }

  lemma {:induction false} PowSign(x: real, k: nat)
    requires x >= 0.0
    ensures Pow(x, k) >= 0.0 && (x > 0.0 ==> Pow(x, k) > 0.0)
  {
    if k > 0 { PowSign(x, k - 1); }
  }

  lemma FactorSign(e: Params, p: seq<int>, v: nat)
    requires Usable(e) && 1 <= v < |e.dist|
    ensures Factor(e, p, v) >= 0.0 && (e.dist[v] > 0.0 || CountOf(p, v) == 0 ==> Factor(e, p, v) > 0.0)
  {
    MulSign(e.n, e.dist[v]);
    DivSign(e.n * e.dist[v], e.w as real);
    PowSign(Rate(e.n, e.dist[v], e.w), CountOf(p, v));
    DivSign(Pow(Rate(e.n, e.dist[v], e.w), CountOf(p, v)), Factorial(CountOf(p, v)) as real);
  }

  lemma DivSign(a: real, b: real)
    requires a >= 0.0 && b > 0.0
    ensures Ratio(a, b) >= 0.0 && (a > 0.0 ==> Ratio(a, b) > 0.0)
  {
  }

  lemma MulSign(a: real, b: real)
    requires a >= 0.0 && b >= 0.0
    ensures a * b >= 0.0 && (a > 0.0 && b > 0.0 ==> a * b > 0.0)
  {
  }

  lemma {:induction false} ProductSign(f: seq<real>, k: nat)
    requires k <= |f| && forall v :: 0 <= v < k ==> f[v] >= 0.0
    ensures Product(f, k, {}) >= 0.0
    ensures (forall v :: 0 <= v < k ==> f[v] > 0.0) ==> Product(f, k, {}) > 0.0
  {
    if k > 0 {
      ProductSign(f, k - 1);
      MulSign(Product(f, k - 1, {}), f[k - 1]);
    }
  }

  /** Every decomposition has a nonnegative likelihood, and the undivided counter a positive
      one when its value has been seen. */
  lemma LikelihoodSign(e: Params, p: seq<int>, s: int)
    requires Usable(e) && IsPartition(p, s) && 1 <= s < |e.dist|
    ensures Likelihood(e, p) >= 0.0
    ensures p == [s] && e.dist[s] > 0.0 ==> Likelihood(e, p) > 0.0
  {
    forall v | 0 <= v < |e.dist|
      ensures Factor(e, p, v) >= 0.0 && (p == [s] && e.dist[s] > 0.0 ==> Factor(e, p, v) > 0.0)
    {
      CountAbsent(p, v);
      if v == 0 { FactorAbsent(e, p, v); } else { FactorSign(e, p, v); }
    }
    ProductSign(Factors(e, p), |e.dist|);
    MulSign(e.scale, Product(Factors(e, p), |e.dist|, {}));
  }

  // ----- one epoch -----

  /** ns with x added at the first k parts of p. */
  function AddParts(ns: seq<real>, p: seq<int>, x: real, k: nat): (r: seq<real>)
    requires k <= |p| && forall i :: 0 <= i < |p| ==> 0 <= p[i] < |ns|
    ensures |r| == |ns|
  {
    if k == 0 then ns
    else var m := AddParts(ns, p, x, k - 1); m[p[k - 1] := m[p[k - 1]] + x]
  }

  /** All parts of all the listed decompositions are positions of ns. */
  ghost predicate InRange(ps: seq<seq<int>>, size: nat) {
    forall i :: 0 <= i < |ps| ==> forall j :: 0 <= j < |ps[i]| ==> 0 <= ps[i][j] < size
  }

  /** ns after the first k decompositions have received their shares. */
  ghost function Share(ns: seq<real>, ps: seq<seq<int>>, xs: seq<real>, k: nat): (r: seq<real>)
    requires k <= |ps| == |xs| && InRange(ps, |ns|)
    ensures |r| == |ns|
  {
    if k == 0 then ns else AddParts(Share(ns, ps, xs, k - 1), ps[k - 1], xs[k - 1], |ps[k - 1]|)
  }

  /** The expected number of flows of each size, from the counter values below k. */
  ghost function Expected(e: Params, counter_dist: seq<int>, k: nat): (ns: seq<real>)
    requires Usable(e) && 1 <= k <= |counter_dist| == |e.dist| && Supported(e, counter_dist)
    ensures |ns| == |counter_dist|
  {
    if k == 1 then seq(|counter_dist|, _ => 0.0)
    else if counter_dist[k - 1] == 0 then Expected(e, counter_dist, k - 1)
    else
      PositiveEvidence(e, k - 1);
      EnumerationInRange(k - 1, |counter_dist|);
      Share(Expected(e, counter_dist, k - 1), Enumeration(k - 1), Shares(e, k - 1, counter_dist[k - 1] as real),
        |Enumeration(k - 1)|)
  }

  /** Every counter value that occurs has a positive share of the distribution. */
  ghost predicate Supported(e: Params, counter_dist: seq<int>)
    requires |counter_dist| == |e.dist|
  {
    forall v :: 1 <= v < |counter_dist| ==> counter_dist[v] >= 0 && (counter_dist[v] > 0 ==> e.dist[v] > 0.0)
  }

  lemma PartsBounded(p: seq<int>, s: int)
    requires IsPartition(p, s)
    ensures forall j :: 0 <= j < |p| ==> 1 <= p[j] <= s
  {
    var n := |p| - 1;
    assert p == p[..n] + [p[n]];
    SumSnoc(p[..n], p[n]);
    SumMonotone(seq(n, _ => 0), p[..n]);
    CountAll(seq(n, _ => 0), 0);
  }

  lemma EnumerationInRange(s: nat, size: nat)
    requires 1 <= s < size
    ensures InRange(Enumeration(s), size)
  {
    var ps := Enumeration(s);
    forall i | 0 <= i < |ps| ensures IsPartition(ps[i], s) && forall j :: 0 <= j < |ps[i]| ==> 0 <= ps[i][j] < size {
      AllPartsExact(s, FlowNumLimit(s) - 1, ps[i]);
      PartsBounded(ps[i], s);
    }
  }

  lemma {:induction false} SumFirstSign(xs: seq<real>, k: nat)
    requires k <= |xs| && forall i :: 0 <= i < k ==> xs[i] >= 0.0
    ensures SumFirst(xs, k) >= 0.0 && (k > 0 && xs[0] > 0.0 ==> SumFirst(xs, k) > 0.0)
  {
    if k > 0 { SumFirstSign(xs, k - 1); }
  }

  lemma WholeFirst(s: nat)
    requires s >= 1
    ensures Enumeration(s) != [] && Enumeration(s)[0] == [s]
  {
    FirstLevel(s);
    LevelsNest(s, 1);
  }

  /** The normalising sum of a counter value that occurs is never zero. */
  lemma PositiveEvidence(e: Params, s: nat)
    requires Usable(e) && 1 <= s < |e.dist| && e.dist[s] > 0.0
    ensures Evidence(e, s) > 0.0
  {
    var ps := Enumeration(s);
    forall i | 0 <= i < |ps| ensures Likelihood(e, ps[i]) >= 0.0 && (i == 0 ==> Likelihood(e, ps[i]) > 0.0) {
      WholeFirst(s);
      AllPartsExact(s, FlowNumLimit(s) - 1, ps[i]);
      LikelihoodSign(e, ps[i], s);
    }
    WholeFirst(s);
    SumFirstSign(Likelihoods(e, ps), |ps|);
  }

  // ----- mass and number of flows -----

  /** k * x by repeated addition. */
  function Times(k: nat, x: real): real {
    if k == 0 then 0.0 else Times(k - 1, x) + x
  }

  lemma {:induction false} TimesIsProduct(k: nat, x: real)
    ensures Times(k, x) == k as real * x
  {
    if k > 0 { TimesIsProduct(k - 1, x); }
  }

  lemma {:induction false} TimesSum(k: nat, x: real, y: real)
    ensures Times(k, x + y) == Times(k, x) + Times(k, y)
  {
    if k > 0 { TimesSum(k - 1, x, y); }
  }

  lemma {:induction false} TimesMore(j: nat, k: nat, x: real)
    ensures Times(j + k, x) == Times(j, x) + Times(k, x)
  {
    if k > 0 { TimesMore(j, k - 1, x); }
  }

  lemma {:induction false} TimesSign(k: nat, x: real)
    requires x >= 0.0
    ensures Times(k, x) >= 0.0 && (k >= 1 ==> Times(k, x) >= x)
  {
    if k > 0 { TimesSign(k - 1, x); }
  }

  /** The number of packets that ns stands for: the sum of v * ns[v]. */
  function Mass(ns: seq<real>): real {
    if ns == [] then 0.0 else Mass(ns[..|ns| - 1]) + Times(|ns| - 1, ns[|ns| - 1])
  }

  /** The number of flows of positive size: the sum of ns[v] over v >= 1. */
  function Flows(ns: seq<real>): real {
    if |ns| <= 1 then 0.0 else Flows(ns[..|ns| - 1]) + ns[|ns| - 1]
  }

  lemma {:induction false} MassUpdate(ns: seq<real>, v: nat, x: real)
    requires v < |ns|
    ensures Mass(ns[v := ns[v] + x]) == Mass(ns) + Times(v, x)
    ensures v >= 1 ==> Flows(ns[v := ns[v] + x]) == Flows(ns) + x
  {
    var n, m := |ns| - 1, ns[v := ns[v] + x];
    if v == n {
      assert m[..n] == ns[..n];
      TimesSum(n, ns[n], x);
    } else {
      MassUpdate(ns[..n], v, x);
      assert m[..n] == ns[..n][v := ns[..n][v] + x];
    }
  }

  lemma {:induction false} MassZero(n: nat)
    ensures Mass(seq(n, _ => 0.0)) == 0.0 && Flows(seq(n, _ => 0.0)) == 0.0
  {
    if n > 0 {
      MassZero(n - 1);
      TimesIsProduct(n - 1, 0.0);
      assert seq(n, _ => 0.0)[..n - 1] == seq(n - 1, _ => 0.0);
    }
  }

  /** Adding x at the first k parts of p adds x packets per unit of their sum ... */
  lemma {:induction false} AddPartsMass(ns: seq<real>, p: seq<int>, x: real, k: nat)
    requires k <= |p| && forall i :: 0 <= i < |p| ==> 0 <= p[i] < |ns|
    ensures Sum(p[..k]) >= 0 && Mass(AddParts(ns, p, x, k)) == Mass(ns) + Times(Sum(p[..k]), x)
  {
    hide Mass, Times, Sum;
    if k == 0 {
      NothingAdded(ns, p, x);
    } else {
      AddPartsMass(ns, p, x, k - 1);
      MassUpdate(AddParts(ns, p, x, k - 1), p[k - 1], x);
      SumStep(p, k - 1);
      TimesMore(Sum(p[..k - 1]), p[k - 1], x);
    }
  }

  lemma NothingAdded(ns: seq<real>, p: seq<int>, x: real)
    ensures Sum(p[..0]) == 0 && Times(0, x) == 0.0
  {
  }

  /** ... and x flows per part ... */
  lemma {:induction false} AddPartsFlows(ns: seq<real>, p: seq<int>, x: real, k: nat)
    requires k <= |p| && forall i :: 0 <= i < |p| ==> 1 <= p[i] < |ns|
    ensures Flows(AddParts(ns, p, x, k)) == Flows(ns) + Times(k, x)
  {
    if k > 0 {
      AddPartsFlows(ns, p, x, k - 1);
      MassUpdate(AddParts(ns, p, x, k - 1), p[k - 1], x);
    }
  }

  /** ... and takes nothing away. */
  lemma {:induction false} AddPartsGrow(ns: seq<real>, p: seq<int>, x: real, k: nat)
    requires k <= |p| && x >= 0.0 && forall i :: 0 <= i < |p| ==> 0 <= p[i] < |ns|
    ensures forall v :: 0 <= v < |ns| ==> AddParts(ns, p, x, k)[v] >= ns[v]
    ensures k > 0 ==> AddParts(ns, p, x, k)[p[0]] >= ns[p[0]] + x
  {
    if k > 0 { AddPartsGrow(ns, p, x, k - 1); }
  }

  // ----- what one counter value contributes -----

  lemma EnumeratedPart(s: nat, size: nat, k: nat)
    requires 1 <= s < size && k < |Enumeration(s)|
    ensures var p := Enumeration(s)[k];
            IsPartition(p, s) && p[..|p|] == p && forall j :: 0 <= j < |p| ==> 1 <= p[j] < size
  {
    AllPartsExact(s, FlowNumLimit(s) - 1, Enumeration(s)[k]);
    PartsBounded(Enumeration(s)[k], s);
  }

  /** All of a count c is given out. */
  lemma SharesSum(e: Params, s: int, c: real)
    requires e.w > 0 && Evidence(e, s) != 0.0
    ensures SumFirst(Shares(e, s, c), |Enumeration(s)|) == c
  {
    SumScaledAll(Likelihoods(e, Enumeration(s)), Shares(e, s, c), c, Evidence(e, s), |Enumeration(s)|);
  }

  lemma SumScaledAll(ls: seq<real>, xs: seq<real>, c: real, t: real, n: nat)
    requires t != 0.0 && n == |ls| == |xs| && SumFirst(ls, n) == t
    requires forall i :: 0 <= i < n ==> xs[i] == Fraction(c, ls[i], t)
    ensures SumFirst(xs, n) == c
  {
    SumScaled(ls, xs, c, t, n);
    DivCancel(c, t);
  }

  lemma DivCancel(c: real, t: real)
    requires t != 0.0
    ensures Fraction(c, t, t) == c
  {
  }

  lemma {:induction false} SumScaled(ls: seq<real>, xs: seq<real>, c: real, t: real, k: nat)
    requires t != 0.0 && k <= |ls| == |xs| && forall i :: 0 <= i < k ==> xs[i] == Fraction(c, ls[i], t)
    ensures SumFirst(xs, k) == Fraction(c, SumFirst(ls, k), t)
  {
    if k > 0 {
      SumScaled(ls, xs, c, t, k - 1);
      Distribute(SumFirst(ls, k - 1), ls[k - 1], c, t);
    }
  }

  lemma Distribute(a: real, b: real, c: real, t: real)
    requires t != 0.0
    ensures Fraction(c, a + b, t) == Fraction(c, a, t) + Fraction(c, b, t)
  {
    var x, y := c * a, c * b;
    assert c * (a + b) == x + y;
    assert (x + y) / t == x / t + y / t;
  }

  lemma FractionSign(c: real, part: real, whole: real)
    requires c > 0.0 && part >= 0.0 && whole > 0.0
    ensures Fraction(c, part, whole) >= 0.0 && (part > 0.0 ==> Fraction(c, part, whole) > 0.0)
  {
    MulSign(c, part);
    DivSign(c * part, whole);
  }

  lemma SharesSign(e: Params, s: nat, c: real)
    requires Usable(e) && 1 <= s < |e.dist| && e.dist[s] > 0.0 && c > 0.0 && Evidence(e, s) > 0.0
    ensures forall i :: 0 <= i < |Enumeration(s)| ==> Shares(e, s, c)[i] >= 0.0
    ensures Enumeration(s) != [] && Shares(e, s, c)[0] > 0.0
  {
    WholeFirst(s);
    forall i | 0 <= i < |Enumeration(s)| ensures Shares(e, s, c)[i] >= 0.0 && (i == 0 ==> Shares(e, s, c)[i] > 0.0) {
      var p := Enumeration(s)[i];
      AllPartsExact(s, FlowNumLimit(s) - 1, p);
      LikelihoodSign(e, p, s);
      FractionSign(c, Likelihood(e, p), Evidence(e, s));
    }
  }

  /** Sharing a count of value s adds s packets for every unit given out. */
  lemma {:induction false} ShareMass(ns: seq<real>, s: nat, xs: seq<real>, k: nat)
    requires 1 <= s < |ns| && k <= |Enumeration(s)| == |xs| && InRange(Enumeration(s), |ns|)
    ensures Mass(Share(ns, Enumeration(s), xs, k)) == Mass(ns) + Times(s, SumFirst(xs, k))
  {
    if k == 0 {
      TimesIsProduct(s, 0.0);
    } else {
      var p := Enumeration(s)[k - 1];
      ShareMass(ns, s, xs, k - 1);
      EnumeratedPart(s, |ns|, k - 1);
      hide Mass, AddParts, Enumeration, Times;
      AddPartsMass(Share(ns, Enumeration(s), xs, k - 1), p, xs[k - 1], |p|);
      TimesSum(s, SumFirst(xs, k - 1), xs[k - 1]);
    }
  }

  /** Nonnegative shares take nothing away and bring at least one flow per unit. */
  lemma {:induction false} ShareGrow(ns: seq<real>, s: nat, xs: seq<real>, k: nat)
    requires 1 <= s < |ns| && k <= |Enumeration(s)| == |xs| && InRange(Enumeration(s), |ns|)
    requires forall i :: 0 <= i < |xs| ==> xs[i] >= 0.0
    ensures forall v :: 0 <= v < |ns| ==> Share(ns, Enumeration(s), xs, k)[v] >= ns[v]
    ensures Flows(Share(ns, Enumeration(s), xs, k)) >= Flows(ns) + SumFirst(xs, k)
    ensures k > 0 ==> Share(ns, Enumeration(s), xs, k)[s] >= ns[s] + xs[0]
  {
    if k > 0 {
      var p, before := Enumeration(s)[k - 1], Share(ns, Enumeration(s), xs, k - 1);
      ShareGrow(ns, s, xs, k - 1);
      EnumeratedPart(s, |ns|, k - 1);
      AddPartsGrow(before, p, xs[k - 1], |p|);
      AddPartsFlows(before, p, xs[k - 1], |p|);
      TimesSign(|p|, xs[k - 1]);
      if k == 1 { WholeFirst(s); }
    }
  }

  // ----- an epoch conserves packets -----

  /** The expected flow counts carry exactly the packets of the counters they came from. */
  lemma {:induction false} ExpectedMass(e: Params, counter_dist: seq<int>, k: nat)
    requires Usable(e) && 1 <= k <= |counter_dist| == |e.dist| && Supported(e, counter_dist)
    ensures Mass(Expected(e, counter_dist, k)) == Weighted(counter_dist[..k]) as real
  {
    if k == 1 {
      MassZero(|counter_dist|);
      assert Weighted(counter_dist[..1]) == Weighted(counter_dist[..1][..0]) + 0 * counter_dist[0];
    } else {
      assert counter_dist[..k][..k - 1] == counter_dist[..k - 1];
      assert Weighted(counter_dist[..k]) == Weighted(counter_dist[..k - 1]) + (k - 1) * counter_dist[k - 1];
      hide Mass, Weighted, Expected, Usable;
      ExpectedMass(e, counter_dist, k - 1);
      if counter_dist[k - 1] > 0 { ExpectedGain(e, counter_dist, k); } else { ExpectedSkip(e, counter_dist, k); }
    }
  }

  /** The packets that the counters of value k - 1 add. */
  lemma ExpectedGain(e: Params, counter_dist: seq<int>, k: nat)
    requires Usable(e) && 2 <= k <= |counter_dist| == |e.dist| && Supported(e, counter_dist) && counter_dist[k - 1] > 0
    ensures Mass(Expected(e, counter_dist, k)) == Mass(Expected(e, counter_dist, k - 1)) +
      ((k - 1) * counter_dist[k - 1]) as real
  {
    var c := counter_dist[k - 1];
    PositiveEvidence(e, k - 1);
    EnumerationInRange(k - 1, |counter_dist|);
    hide Mass, Share, Enumeration, InRange, Usable, SumFirst, Evidence;
    ShareMass(Expected(e, counter_dist, k - 1), k - 1, Shares(e, k - 1, c as real), |Enumeration(k - 1)|);
    SharesSum(e, k - 1, c as real);
    TimesInt(k - 1, c);
  }

  lemma TimesInt(k: nat, c: int)
    ensures Times(k, c as real) == (k * c) as real
  {
    TimesIsProduct(k, c as real);
  }

  /** They are nonnegative, and positive wherever a counter had the value. */
  lemma {:induction false} ExpectedSign(e: Params, counter_dist: seq<int>, k: nat)
    requires Usable(e) && 1 <= k <= |counter_dist| == |e.dist| && Supported(e, counter_dist)
    ensures forall v :: 0 <= v < |counter_dist| ==> Expected(e, counter_dist, k)[v] >= 0.0
    ensures forall v :: 1 <= v < k && counter_dist[v] > 0 ==> Expected(e, counter_dist, k)[v] > 0.0
  {
    if k > 1 {
      ExpectedSign(e, counter_dist, k - 1);
      if counter_dist[k - 1] > 0 { ExpectedStep(e, counter_dist, k); }
    }
  }

  /** They count at least one flow for every nonzero counter. */
  lemma {:induction false} ExpectedFlows(e: Params, counter_dist: seq<int>, k: nat)
    requires Usable(e) && 1 <= k <= |counter_dist| == |e.dist| && Supported(e, counter_dist)
    ensures Flows(Expected(e, counter_dist, k)) >= Sum(counter_dist[1..k]) as real
  {
    if k == 1 {
      MassZero(|counter_dist|);
      assert counter_dist[1..1] == [];
    } else {
      hide *;
      ExpectedFlows(e, counter_dist, k - 1);
      SumTail(counter_dist, k);
      if counter_dist[k - 1] > 0 { ExpectedStep(e, counter_dist, k); } else { ExpectedSkip(e, counter_dist, k); }
    }
  }

  lemma SumTail(s: seq<int>, k: nat)
    requires 2 <= k <= |s|
    ensures Sum(s[1..k]) == Sum(s[1..k - 1]) + s[k - 1]
  {
    assert s[1..k] == s[1..k - 1] + [s[k - 1]];
    SumSnoc(s[1..k - 1], s[k - 1]);
  }

  lemma ExpectedSkip(e: Params, counter_dist: seq<int>, k: nat)
    requires Usable(e) && 2 <= k <= |counter_dist| == |e.dist| && Supported(e, counter_dist) && counter_dist[k - 1] == 0
    ensures Expected(e, counter_dist, k) == Expected(e, counter_dist, k - 1)
  {
  }

  /** What the counters of value k - 1 add. */
  lemma ExpectedStep(e: Params, counter_dist: seq<int>, k: nat)
    requires Usable(e) && 2 <= k <= |counter_dist| == |e.dist| && Supported(e, counter_dist) && counter_dist[k - 1] > 0
    ensures var before, after := Expected(e, counter_dist, k - 1), Expected(e, counter_dist, k);
            && (forall v :: 0 <= v < |counter_dist| ==> after[v] >= before[v])
            && after[k - 1] > before[k - 1]
            && Flows(after) >= Flows(before) + counter_dist[k - 1] as real
  {
    var c := counter_dist[k - 1] as real;
    PositiveEvidence(e, k - 1);
    EnumerationInRange(k - 1, |counter_dist|);
    SharesSign(e, k - 1, c);
    ShareGrow(Expected(e, counter_dist, k - 1), k - 1, Shares(e, k - 1, c), |Enumeration(k - 1)|);
    SharesSum(e, k - 1, c);
  }

  // ----- any number of epochs -----

  /** What one epoch hands to the next: the distribution, the number of flows, and the expected
      flow counts they were computed from. */
  datatype Estimate = Estimate(dist: seq<real>, n: real, ns: seq<real>)

  ghost predicate Histogram(counter_dist: seq<int>) {
    && counter_dist != []
    && (forall v :: 0 <= v < |counter_dist| ==> counter_dist[v] >= 0)
    && (|counter_dist| > 1 ==> counter_dist[|counter_dist| - 1] > 0)
  }

  /** An estimate that an epoch can start from. */
  ghost predicate Good(est: Estimate, counter_dist: seq<int>) {
    && |est.dist| == |est.ns| == |counter_dist|
    && (|counter_dist| > 1 ==> est.n > 0.0)
    && (forall v :: 1 <= v < |counter_dist| ==> est.dist[v] >= 0.0 && (counter_dist[v] > 0 ==> est.dist[v] > 0.0))
  }

  /** dist_new after an epoch; entry 0 is left as it was. */
  function Normalised(ns: seq<real>, n: real, dist: seq<real>): (r: seq<real>)
    requires |ns| == |dist| && (|ns| > 1 ==> n != 0.0)
    ensures |r| == |ns| && (r != [] ==> r[0] == dist[0])
    ensures forall v :: 1 <= v < |r| ==> r[v] == Ratio(ns[v], n)
  {
    seq(|ns|, v requires 0 <= v < |ns| => if v == 0 then dist[0] else Ratio(ns[v], n))
  }

  function EpochParams(w: nat, exp: real -> real, est: Estimate): Params
    requires w > 0
  {
    Params(w, est.dist, est.n, exp(-Ratio(est.n, w as real)))
  }

  ghost function NextEstimate(w: nat, exp: real -> real, counter_dist: seq<int>, est: Estimate): Estimate
    requires w > 0 && Histogram(counter_dist) && Good(est, counter_dist) && EpochParams(w, exp, est).scale > 0.0
  {
    var e := EpochParams(w, exp, est);
    var ns := Expected(e, counter_dist, |counter_dist|);
    FlowsPositive(e, counter_dist);
    Estimate(Normalised(ns, Flows(ns), est.dist), Flows(ns), ns)
  }

  lemma FlowsPositive(e: Params, counter_dist: seq<int>)
    requires Histogram(counter_dist) && Usable(e) && |counter_dist| == |e.dist| && Supported(e, counter_dist)
    ensures |counter_dist| > 1 ==> Flows(Expected(e, counter_dist, |counter_dist|)) > 0.0
  {
    var n := |counter_dist|;
    if n > 1 {
      ExpectedFlows(e, counter_dist, n);
      LastPositive(counter_dist[1..n]);
    }
  }

  lemma LastPositive(s: seq<int>)
    requires s != [] && (forall i :: 0 <= i < |s| ==> s[i] >= 0) && s[|s| - 1] > 0
    ensures Sum(s) > 0
  {
    var n := |s| - 1;
    assert s == s[..n] + [s[n]];
    SumSnoc(s[..n], s[n]);
    SumNonNegative(s[..n]);
  }

  lemma {:induction false} SumNonNegative(s: seq<int>)
    requires forall i :: 0 <= i < |s| ==> s[i] >= 0
    ensures Sum(s) >= 0
  {
    if s != [] { SumNonNegative(s[1..]); }
  }

  lemma {:induction false} FlowsNormalised(ns: seq<real>, n: real, dist: seq<real>)
    requires |ns| == |dist| && (|ns| > 1 ==> n != 0.0)
    ensures |ns| > 1 ==> Flows(Normalised(ns, n, dist)) == Ratio(Flows(ns), n)
  {
    var k := |ns| - 1;
    if k > 1 {
      FlowsNormalised(ns[..k], n, dist[..k]);
      assert Normalised(ns, n, dist)[..k] == Normalised(ns[..k], n, dist[..k]);
      AddFractions(Flows(ns[..k]), ns[k], n);
    } else if k == 1 {
      assert Flows(ns) == Flows(ns[..1]) + ns[1];
      assert Flows(Normalised(ns, n, dist)) == Flows(Normalised(ns, n, dist)[..1]) + Ratio(ns[1], n);
    }
  }

  lemma AddFractions(a: real, b: real, n: real)
    requires n != 0.0
    ensures Ratio(a, n) + Ratio(b, n) == Ratio(a + b, n)
  {
  }

  /** No estimate has more flows than packets. */
  lemma {:induction false} FlowsWithinMass(ns: seq<real>)
    requires forall v :: 0 <= v < |ns| ==> ns[v] >= 0.0
    ensures Flows(ns) <= Mass(ns)
  {
    if ns != [] {
      FlowsWithinMass(ns[..|ns| - 1]);
      TimesSign(|ns| - 1, ns[|ns| - 1]);
    }
  }

  /** One epoch keeps the estimate good, carries exactly the packets that were counted, has at
      least one flow per nonzero counter and at most one per packet, and is normalised. */
  lemma EpochKeeps(w: nat, exp: real -> real, counter_dist: seq<int>, est: Estimate)
    requires w > 0 && Histogram(counter_dist) && Good(est, counter_dist) && EpochParams(w, exp, est).scale > 0.0
    ensures var next := NextEstimate(w, exp, counter_dist, est);
            && Good(next, counter_dist)
            && Mass(next.ns) == Weighted(counter_dist) as real
            && (forall v :: 0 <= v < |next.ns| ==> next.ns[v] >= 0.0)
            && Sum(counter_dist[1..]) as real <= next.n <= Weighted(counter_dist) as real
            && (|counter_dist| > 1 ==> Flows(next.dist) == 1.0)
  {
    var e := EpochParams(w, exp, est);
    CountsConserve(e, counter_dist);
    ExpectedSign(e, counter_dist, |counter_dist|);
    EpochGood(e, counter_dist);
  }

  lemma EpochGood(e: Params, counter_dist: seq<int>)
    requires Histogram(counter_dist) && Usable(e) && |counter_dist| == |e.dist| && Supported(e, counter_dist)
    ensures var ns := Expected(e, counter_dist, |counter_dist|);
            && (|counter_dist| > 1 ==> Flows(ns) > 0.0)
            && Good(Estimate(Normalised(ns, Flows(ns), e.dist), Flows(ns), ns), counter_dist)
            && (|counter_dist| > 1 ==> Flows(Normalised(ns, Flows(ns), e.dist)) == 1.0)
  {
    var ns := Expected(e, counter_dist, |counter_dist|);
    ExpectedSign(e, counter_dist, |counter_dist|);
    FlowsPositive(e, counter_dist);
    NormalisedKeeps(counter_dist, ns, Flows(ns), e.dist);
    if |ns| > 1 { NormalisedSum(ns, Flows(ns), e.dist); }
  }

  lemma NormalisedSum(ns: seq<real>, n: real, dist: seq<real>)
    requires |ns| == |dist| > 1 && n > 0.0 && n == Flows(ns)
    ensures Flows(Normalised(ns, n, dist)) == 1.0
  {
    FlowsNormalised(ns, n, dist);
    DivSelf(n, Flows(Normalised(ns, n, dist)));
  }

  lemma DivSelf(n: real, x: real)
    requires n > 0.0 && x == Ratio(n, n)
    ensures x == 1.0
  {
  }

  lemma CountsConserve(e: Params, counter_dist: seq<int>)
    requires Histogram(counter_dist) && Usable(e) && |counter_dist| == |e.dist| && Supported(e, counter_dist)
    ensures var ns := Expected(e, counter_dist, |counter_dist|);
            Mass(ns) == Weighted(counter_dist) as real &&
              Sum(counter_dist[1..]) as real <= Flows(ns) <= Weighted(counter_dist) as real
  {
    var n := |counter_dist|;
    assert counter_dist[..n] == counter_dist && counter_dist[1..n] == counter_dist[1..];
    ExpectedMass(e, counter_dist, n);
    ExpectedSign(e, counter_dist, n);
    ExpectedFlows(e, counter_dist, n);
    FlowsWithinMass(Expected(e, counter_dist, n));
  }

  lemma NormalisedKeeps(counter_dist: seq<int>, ns: seq<real>, n: real, dist: seq<real>)
    requires |ns| == |dist| == |counter_dist| && (|ns| > 1 ==> n > 0.0)
    requires forall v :: 0 <= v < |ns| ==> ns[v] >= 0.0
    requires forall v :: 1 <= v < |ns| && counter_dist[v] > 0 ==> ns[v] > 0.0
    ensures Good(Estimate(Normalised(ns, n, dist), n, ns), counter_dist)
  {
    forall v | 1 <= v < |ns| ensures Ratio(ns[v], n) >= 0.0 && (counter_dist[v] > 0 ==> Ratio(ns[v], n) > 0.0) {
      DivSign(ns[v], n);
    }
  }

  ghost function AfterEpochs(w: nat, exp: real -> real, counter_dist: seq<int>, est: Estimate, k: nat): (r: Estimate)
    requires w > 0 && Histogram(counter_dist) && Good(est, counter_dist) && forall x :: exp(x) > 0.0
    ensures Good(r, counter_dist)
  {
    if k == 0 then est
    else
      var before := AfterEpochs(w, exp, counter_dist, est, k - 1);
      EpochKeeps(w, exp, counter_dist, before);
      NextEstimate(w, exp, counter_dist, before)
  }

  /** So does any positive number of epochs. */
  lemma EpochsConserve(w: nat, exp: real -> real, counter_dist: seq<int>, est: Estimate, k: nat)
    requires w > 0 && Histogram(counter_dist) && Good(est, counter_dist) && forall x :: exp(x) > 0.0
    requires k >= 1
    ensures var r := AfterEpochs(w, exp, counter_dist, est, k);
            && Good(r, counter_dist)
            && Mass(r.ns) == Weighted(counter_dist) as real
            && (forall v :: 0 <= v < |r.ns| ==> r.ns[v] >= 0.0)
            && Sum(counter_dist[1..]) as real <= r.n <= Weighted(counter_dist) as real
            && (|counter_dist| > 1 ==> Flows(r.dist) == 1.0)
  {
    EpochKeeps(w, exp, counter_dist, AfterEpochs(w, exp, counter_dist, est, k - 1));
  }
}
