/** The flow size distribution estimator of common/EMFSD.h. */
module EmEstimation {
  import opened Histograms
  import opened Partitions
  import opened BetaEnumeration
  import opened EmModel

  /** std::vector<double>::resize. */
  function ResizeReal(v: seq<real>, m: nat): (r: seq<real>)
    ensures |r| == m && forall i :: 0 <= i < m ==> r[i] == if i < |v| then v[i] else 0.0
  {
    if m <= |v| then v[..m] else v + seq(m - |v|, _ => 0.0)
  }

  lemma CountWithin(s: seq<int>, n: nat)
    requires forall i :: 0 <= i < |s| ==> 0 <= s[i] < n
    ensures n > 0 && s != [] && n - 1 in s ==> Histogram(HistogramOf(s, n))
  {
    if n > 0 && s != [] && n - 1 in s { CountAbsent(s, n - 1); }
  }

  lemma SumFirstRest(h: seq<int>)
    requires h != []
    ensures Sum(h) == h[0] + Sum(h[1..])
  {
  }

  /** The nonzero counters are the ones not counted at 0. */
  lemma NonzeroCounters(s: seq<int>, n: nat)
    requires n >= 1 && forall i :: 0 <= i < |s| ==> 0 <= s[i] < n
    ensures Sum(HistogramOf(s, n)[1..]) == |s| - CountOf(s, 0)
  {
    var h := HistogramOf(s, n);
    assert h[0] == CountOf(s, 0);
    HistogramTotal(s, n);
    hide HistogramOf, CountOf;
    SumFirstRest(h);
  }

  /** A histogram of counters carries their sum and tells how many are nonzero. */
  lemma CountedCounters(counters: seq<nat>, max: nat)
    requires max in counters && forall i :: 0 <= i < |counters| ==> counters[i] <= max
    ensures var cd := HistogramOf(counters, max + 1);
            && Histogram(cd) && Weighted(cd) == Sum(counters) && cd[0] == CountOf(counters, 0)
            && (max > 0 ==> |counters| - cd[0] > 0)
  {
    HistogramMass(counters, max + 1);
    CountWithin(counters, max + 1);
    NonzeroCounters(counters, max + 1);
    if max > 0 { LastPositive(HistogramOf(counters, max + 1)[1..]); }
  }

  /** The first estimate takes every counter for one flow: n is the number of nonzero counters, and a
      size has the share of the counters that hold it. */
  function FirstOf(counters: seq<int>, size: nat): (est: Estimate)
    requires size > 1 ==> CountOf(counters, 0) < |counters|
  {
    var n := (|counters| - CountOf(counters, 0)) as real;
    Estimate(seq(size, v => if 1 <= v < size then Ratio(CountOf(counters, v) as real, n) else 0.0), n,
             seq(size, v => if 1 <= v then CountOf(counters, v) as real else 0.0))
  }

  /** size is one more than the largest counter. */
  ghost predicate Covered(counters: seq<int>, size: nat) {
    size >= 1 && size - 1 in counters && forall i :: 0 <= i < |counters| ==> 0 <= counters[i] < size
  }

  lemma FirstIsGood(counters: seq<int>, size: nat)
    requires Covered(counters, size)
    ensures Histogram(HistogramOf(counters, size)) && (size > 1 ==> CountOf(counters, 0) < |counters|)
    ensures Good(FirstOf(counters, size), HistogramOf(counters, size))
  {
    CountWithin(counters, size);
    NonzeroCounters(counters, size);
    if size > 1 { LastPositive(HistogramOf(counters, size)[1..]); }
    hide CountOf;
    FirstEstimate(HistogramOf(counters, size), FirstOf(counters, size).dist, FirstOf(counters, size).n);
  }

  lemma CountsWithin(counters: seq<int>, size: nat)
    requires size >= 1 && (size > 1 ==> CountOf(counters, 0) < |counters|)
    ensures var h := HistogramOf(counters, size);
            && |h| == size && |counters| >= h[0] == CountOf(counters, 0)
            && (size > 1 ==> |counters| > h[0]) && forall v :: 1 <= v < size ==> h[v] == CountOf(counters, v)
  {
    hide CountOf;
  }

  lemma IsFirst(est: Estimate, counters: seq<int>, size: nat)
    requires size >= 1 && (size > 1 ==> CountOf(counters, 0) < |counters|)
    requires |est.dist| == |est.ns| == size && est.n == (|counters| - CountOf(counters, 0)) as real
    requires est.dist[0] == 0.0 == est.ns[0]
    requires forall v :: 1 <= v < size ==>
               est.dist[v] == Ratio(CountOf(counters, v) as real, est.n) && est.ns[v] == CountOf(counters, v) as real
    ensures est == FirstOf(counters, size)
  {
    hide CountOf, Ratio;
  }

  /** The expected flow counts after ten epochs from the first estimate. */
  ghost function TenEpochs(counters: seq<int>, size: nat, exp: real -> real): seq<real>
    requires counters != [] && Covered(counters, size) && forall x :: exp(x) > 0.0
  {
    FirstIsGood(counters, size);
    AfterEpochs(|counters|, exp, HistogramOf(counters, size), FirstOf(counters, size), 10).ns
  }

  lemma FirstEstimate(counter_dist: seq<int>, dist: seq<real>, n: real)
    requires Histogram(counter_dist) && |dist| == |counter_dist| && (|counter_dist| > 1 ==> n > 0.0)
    requires forall v :: 1 <= v < |counter_dist| ==> dist[v] == Ratio(counter_dist[v] as real, n)
    ensures forall v :: 1 <= v < |counter_dist| ==> dist[v] >= 0.0 && (counter_dist[v] > 0 ==> dist[v] > 0.0)
  {
    forall v | 1 <= v < |counter_dist| ensures dist[v] >= 0.0 && (counter_dist[v] > 0 ==> dist[v] > 0.0) {
      DivSign(counter_dist[v] as real, n);
    }
  }

  lemma NonEmpty(keys: set<int>)
    requires keys != {}
    ensures exists v :: v in keys
  {
    assert (forall v :: v !in keys) ==> keys == {};
  }

  lemma MulOne(a: real)
    ensures Mul(a, 1.0) == a
  {
  }

  lemma MulTake(ret: real, t: real, scale: real, a: real, b: real)
    requires ret == Mul(scale, a) && b == a * t
    ensures Mul(ret, t) == Mul(scale, b)
  {
  }

  /** Visiting one more part multiplies its factor in. */
  lemma VisitPart(ret: real, term: real, scale: real, f: seq<real>, keys: set<int>, si: nat)
    requires si in keys && si < |f| && term == f[si]
    requires ret == Mul(scale, Product(f, |f|, keys))
    ensures Mul(ret, term) == Mul(scale, Product(f, |f|, keys - {si}))
  {
    ProductTake(f, |f|, keys, si);
    MulTake(ret, term, scale, Product(f, |f|, keys), Product(f, |f|, keys - {si}));
  }

  /** Before any part is visited the product over the rest is 1. */
  lemma NothingLeftOut(e: Params, p: seq<int>, keys: set<int>)
    requires e.w > 0 && forall v :: v !in keys ==> CountOf(p, v) == 0
    ensures Product(Factors(e, p), |e.dist|, keys) == 1.0
  {
    forall v | 0 <= v < |e.dist| && v !in keys ensures Factor(e, p, v) == 1.0 {
      FactorAbsent(e, p, v);
    }
    ProductOnes(Factors(e, p), |e.dist|, keys);
  }

  class EMFSD {
    var w: nat
    var counter_dist: seq<int>
    var dist_old: seq<real>
    var dist_new: seq<real>
    var ns: seq<real>
    var n_sum: real
    var inited: bool
    var n_old: real
    var n_new: real
    const exp: real -> real  // std::exp, of which only positivity is used

    /** What the estimator carries from one epoch to the next. */
    ghost function Current(): Estimate
      reads this
    {
      Estimate(dist_new, n_new, ns)
    }

    ghost predicate Valid()
      reads this
    {
      w > 0 && Histogram(counter_dist) && Good(Current(), counter_dist) && forall x :: exp(x) > 0.0
    }

    constructor (e: real -> real)
      ensures exp == e && dist_new == [] && ns == []
    {
      exp := e;
      w, counter_dist, inited := 0, [], false;
      dist_old, dist_new, ns := [], [], [];
      n_sum, n_old, n_new := 0.0, 0.0, 0.0;
    }

    /** Counts how many counters hold each value. */
    method CollectCounters(counters: seq<nat>) returns (max_counter_val: nat)
      requires |counters| == w > 0
      modifies this`counter_dist
      ensures max_counter_val in counters && forall i :: 0 <= i < w ==> counters[i] <= max_counter_val
      ensures counter_dist == HistogramOf(counters, max_counter_val + 1)
    {
      max_counter_val := 0;
      var i := 0;
      while i < w
        invariant 0 <= i <= w
        invariant forall k :: 0 <= k < i ==> counters[k] <= max_counter_val
        invariant max_counter_val == 0 || max_counter_val in counters
      {
        if counters[i] > max_counter_val { max_counter_val := counters[i]; }
        i := i + 1;
      }
      assert counters[0] in counters;
      counter_dist := seq(max_counter_val + 1, _ => 0);
      i := 0;
      while i < w
        invariant 0 <= i <= w && |counter_dist| == max_counter_val + 1
        invariant forall v :: 0 <= v <= max_counter_val ==> counter_dist[v] == CountOf(counters[..i], v)
      {
        forall v | 0 <= v <= max_counter_val
          ensures CountOf(counters[..i + 1], v) == CountOf(counters[..i], v) + if counters[i] == v then 1 else 0
        {
          CountStep(counters, i, v);
        }
        counter_dist := counter_dist[counters[i] := counter_dist[counters[i]] + 1];
        i := i + 1;
      }
      assert counters[..w] == counters;
    }

    /** Starts the estimator from the counters of a sketch: the histogram carries exactly their
        sum, and the first flow count is the number of nonzero counters. */
    method SetCounters(width: nat, counters: seq<nat>)
      requires |counters| == width > 0 && forall x :: exp(x) > 0.0
      modifies this
      ensures Valid() && w == width && inited
      ensures Covered(counters, |counter_dist|) && counter_dist == HistogramOf(counters, |counter_dist|)
      ensures forall i :: 0 <= i < width ==> counters[i] < |counter_dist|
      ensures Weighted(counter_dist) == Sum(counters)
      ensures n_new == (width - CountOf(counters, 0)) as real
      ensures forall v :: 1 <= v < |counter_dist| ==>
                dist_new[v] == Ratio(CountOf(counters, v) as real, n_new) && ns[v] == CountOf(counters, v) as real
      ensures old(dist_new) == [] && old(ns) == [] ==> Current() == FirstOf(counters, |counter_dist|)
    {
      hide CountOf, Sum, Weighted, Ratio, FirstOf, Good, Histogram, HistogramOf;
      inited := true;
      w := width;
      var max_cnt := CollectCounters(counters);
      CountedCounters(counters, max_cnt);
      FirstIsGood(counters, max_cnt + 1);
      CountsWithin(counters, max_cnt + 1);
      StartEstimate();
      if old(dist_new) == [] && old(ns) == [] { IsFirst(Current(), counters, max_cnt + 1); }
    }

    /** The second half of set_counters: the first estimate takes every counter for one flow. */
    method StartEstimate()
      requires Histogram(counter_dist) && w >= counter_dist[0] && (|counter_dist| > 1 ==> w > counter_dist[0])
      modifies this`n_new, this`dist_new, this`ns
      ensures Good(Current(), counter_dist) && n_new == (w - counter_dist[0]) as real
      ensures forall v :: 1 <= v < |counter_dist| ==>
                dist_new[v] == Ratio(counter_dist[v] as real, n_new) && ns[v] == counter_dist[v] as real
      ensures old(dist_new) == [] ==> dist_new[0] == 0.0
      ensures old(ns) == [] ==> ns[0] == 0.0
    {
      n_new := (w - counter_dist[0]) as real;
      dist_new := ResizeReal(dist_new, |counter_dist|);
      ns := ResizeReal(ns, |counter_dist|);
      var i := 1;
      while i < |counter_dist|
        invariant 1 <= i <= |counter_dist| == |dist_new| == |ns|
        invariant n_new == (w - counter_dist[0]) as real
        invariant (old(dist_new) == [] ==> dist_new[0] == 0.0) && (old(ns) == [] ==> ns[0] == 0.0)
        invariant forall v :: 1 <= v < i ==>
                    dist_new[v] == Ratio(counter_dist[v] as real, n_new) && ns[v] == counter_dist[v] as real
      {
        dist_new := dist_new[i := Ratio(counter_dist[i] as real, (w - counter_dist[0]) as real)];
        ns := ns[i := counter_dist[i] as real];
        i := i + 1;
      }
      FirstEstimate(counter_dist, dist_new, n_new);
    }

    /** The likelihood of the decomposition a generator stands on, whatever the order in which
        its distinct parts are visited. */
    method GetPFromBeta(bt: BetaGenerator, lambda: real, now_dist: seq<real>, now_n: real) returns (ret: real)
      requires w > 0 && bt.now_flow_num == |bt.now_result|
      requires forall j :: 0 <= j < |bt.now_result| ==> 0 <= bt.now_result[j] < |now_dist|
      ensures ret == Likelihood(Params(w, now_dist, now_n, exp(-lambda)), bt.now_result)
    {
      var p := bt.now_result;
      ghost var e := Params(w, now_dist, now_n, exp(-lambda));
      var mp: map<int, nat> := map[];
      var i := 0;
      while i < bt.now_flow_num
        invariant 0 <= i <= |p|
        invariant forall v :: v in mp ==> mp[v] == CountOf(p[..i], v) && 0 <= v < |now_dist|
        invariant forall v :: v !in mp ==> CountOf(p[..i], v) == 0
      {
        forall v ensures CountOf(p[..i + 1], v) == CountOf(p[..i], v) + if p[i] == v then 1 else 0 {
          CountStep(p, i, v);
        }
        mp := mp[p[i] := if p[i] in mp then mp[p[i]] + 1 else 1];
        i := i + 1;
      }
      assert p[..i] == p;
      ret := exp(-lambda);
      var keys := mp.Keys;
      ghost var f := Factors(e, p);
      assert forall v :: v in keys ==> 0 <= v < |f| && mp[v] == CountOf(p, v);
      NothingLeftOut(e, p, keys);
      MulOne(ret);
      while keys != {}
        invariant keys <= mp.Keys
        invariant ret == Mul(e.scale, Product(f, |f|, keys))
        decreases keys
      {
        NonEmpty(keys);
        var si :| si in keys;
        var fi := mp[si];
        var lambda_i := Rate(now_n, now_dist[si], w);
        var term := PoissonTerm(lambda_i, fi);
        assert term == Factor(e, p, si);
        VisitPart(ret, term, e.scale, f, keys, si);
        ret := Mul(ret, term);
        keys := keys - {si};
      }
    }

    /** The inner loop of next_epoch: adds x at every part the generator stands on. */
    method AddToParts(bts: BetaGenerator, x: real)
      requires bts.now_flow_num == |bts.now_result|
      requires forall j :: 0 <= j < |bts.now_result| ==> 0 <= bts.now_result[j] < |ns|
      modifies this`ns
      ensures ns == AddParts(old(ns), bts.now_result, x, |bts.now_result|)
    {
      ghost var ns0 := ns;
      var j := 0;
      while j < bts.now_flow_num
        invariant 0 <= j <= |bts.now_result|
        invariant ns == AddParts(ns0, bts.now_result, x, j)
      {
        ns := ns[bts.now_result[j] := ns[bts.now_result[j]] + x];
        j := j + 1;
      }
    }

    /** The parts of an enumerated decomposition are positions of the distribution. */
    ghost predicate Standing(bts: BetaGenerator, i: nat, size: nat)
      reads bts
    {
      && 1 <= bts.pos <= |Enumeration(i)| && bts.now_result == Enumeration(i)[bts.pos - 1]
      && bts.now_flow_num == |bts.now_result|
      && forall j :: 0 <= j < |bts.now_result| ==> 0 <= bts.now_result[j] < size
    }

    /** k decompositions of i have been used, and more says that the generator stands on another. */
    ghost predicate Turn(bts: BetaGenerator, i: nat, size: nat, k: nat, more: bool)
      reads bts
    {
      && bts.Valid() && bts.sum == i && k <= |Enumeration(i)|
      && (more <==> k < |Enumeration(i)|)
      && (more ==> bts.pos == k + 1 && Standing(bts, i, size))
    }

    /** Moves a generator of i to its first decomposition. */
    method Start(i: nat, size: nat) returns (bts: BetaGenerator, more: bool)
      requires 1 <= i < size
      ensures fresh(bts) && Turn(bts, i, size, 0, more)
    {
      bts := new BetaGenerator(i);
      more := bts.GetNext();
      if more { EnumeratedPart(i, size, 0); }
    }

    /** Moves a generator of i to the next decomposition. */
    method Advance(bts: BetaGenerator, i: nat, size: nat, ghost k: nat) returns (more: bool)
      requires Turn(bts, i, size, k, true) && 1 <= i < size
      modifies bts
      ensures Turn(bts, i, size, k + 1, more)
    {
      more := bts.GetNext();
      if more { EnumeratedPart(i, size, k + 1); }
    }

    /** e to the power of minus lambda. */
    function Scale(lambda: real): real {
      exp(-lambda)
    }

    /** The likelihood of the decomposition at position k of the enumeration of i. */
    method Weigh(bts: BetaGenerator, i: nat, lambda: real, ghost k: nat) returns (p: real)
      requires w > 0 && Turn(bts, i, |dist_old|, k, true)
      ensures k < |Enumeration(i)| && p == Likelihoods(Params(w, dist_old, n_old, Scale(lambda)), Enumeration(i))[k]
    {
      p := GetPFromBeta(bts, lambda, dist_old, n_old);
    }

    /** Adds the share of the decomposition at position k to every size in it. */
    method GiveShare(bts: BetaGenerator, i: nat, lambda: real, sum_p: real, p: real, ghost k: nat)
      requires w > 0 && i < |counter_dist| && Turn(bts, i, |ns|, k, true)
      requires sum_p == Evidence(Params(w, dist_old, n_old, Scale(lambda)), i) > 0.0
      requires p == Likelihoods(Params(w, dist_old, n_old, Scale(lambda)), Enumeration(i))[k]
      modifies this`ns
      ensures var xs := Shares(Params(w, dist_old, n_old, Scale(lambda)), i, counter_dist[i] as real);
              ns == AddParts(old(ns), Enumeration(i)[k], xs[k], |Enumeration(i)[k]|)
    {
      AddToParts(bts, Fraction(counter_dist[i] as real, p, sum_p));
    }

    /** One turn of the first enumeration: the likelihood of the decomposition at position k is
        added, and the generator moves on. */
    method AddWeight(bts: BetaGenerator, i: nat, lambda: real, ghost k: nat, sum0: real)
      returns (sum_p: real, more: bool)
      requires Turn(bts, i, |dist_old|, k, true) && Weighed(i, lambda, k, sum0)
      modifies bts
      ensures Turn(bts, i, |dist_old|, k + 1, more) && Weighed(i, lambda, k + 1, sum_p)
    {
      hide AllParts, Parts, Enumeration, SumFirst, Scale, Standing, BetaGenerator.Valid, Likelihoods;
      var p := Weigh(bts, i, lambda, k);
      SumFirstStep(Likelihoods(Params(w, dist_old, n_old, Scale(lambda)), Enumeration(i)), k);
      sum_p := sum0 + p;
      more := Advance(bts, i, |dist_old|, k);
    }

    /** The likelihoods of the first k decompositions of i add up to sum_p. */
    ghost predicate Weighed(i: nat, lambda: real, k: nat, sum_p: real)
      reads this`w, this`dist_old, this`n_old
    {
      && w > 0 && 1 <= i < |dist_old| && k <= |Enumeration(i)|
      && |Likelihoods(Params(w, dist_old, n_old, Scale(lambda)), Enumeration(i))| == |Enumeration(i)|
      && sum_p == SumFirst(Likelihoods(Params(w, dist_old, n_old, Scale(lambda)), Enumeration(i)), k)
    }

    lemma NothingWeighed(i: nat, lambda: real)
      requires w > 0 && 1 <= i < |dist_old|
      ensures Weighed(i, lambda, 0, 0.0)
    {
    }

    lemma AllWeighed(i: nat, lambda: real, sum_p: real)
      requires Weighed(i, lambda, |Enumeration(i)|, sum_p)
      ensures sum_p == Evidence(Params(w, dist_old, n_old, Scale(lambda)), i)
    {
      hide Enumeration, Likelihoods;
    }

    /** The first enumeration of next_epoch: the normalising sum of a counter value. */
    method Normaliser(i: nat, lambda: real) returns (sum_p: real)
      requires w > 0 && 1 <= i < |dist_old|
      ensures sum_p == Evidence(Params(w, dist_old, n_old, Scale(lambda)), i)
    {
      hide AllParts, Parts, Enumeration, Evidence, Weighed, Scale, Standing, BetaGenerator.Valid;
      NothingWeighed(i, lambda);
      var bts1, more := Start(i, |dist_old|);
      sum_p := 0.0;
      ghost var k := 0;
      while more
        invariant fresh(bts1) && Turn(bts1, i, |dist_old|, k, more)
        invariant Weighed(i, lambda, k, sum_p)
        decreases |Enumeration(i)| - k
      {
        sum_p, more := AddWeight(bts1, i, lambda, k, sum_p);
        k := k + 1;
      }
      AllWeighed(i, lambda, sum_p);
    }

    /** xs are the shares of the decompositions of i under the parameters e, normalised by sum_p. */
    ghost predicate Shared(e: Params, i: nat, lambda: real, sum_p: real, xs: seq<real>)
      reads this`w, this`dist_old, this`n_old, this`counter_dist
    {
      && w > 0 && 1 <= i < |counter_dist| == |dist_old| && e == Params(w, dist_old, n_old, Scale(lambda))
      && sum_p == Evidence(e, i) > 0.0 && xs == Shares(e, i, counter_dist[i] as real)
    }

    /** The first k decompositions of i have received their shares. */
    ghost predicate Dealt(i: nat, ns0: seq<real>, xs: seq<real>, k: nat)
      reads this`ns
    {
      && k <= |xs| == |Enumeration(i)| && |ns| == |ns0| && InRange(Enumeration(i), |ns0|)
      && ns == Share(ns0, Enumeration(i), xs, k)
    }

    /** One turn of the second enumeration: the decomposition at position k receives its share,
        and the generator moves on. */
    method Deal(bts: BetaGenerator, i: nat, lambda: real, sum_p: real, ghost k: nat, ghost ns0: seq<real>,
            ghost e: Params, ghost xs: seq<real>)
      returns (more: bool)
      requires Shared(e, i, lambda, sum_p, xs) && |ns| == |dist_old|
      requires Turn(bts, i, |dist_old|, k, true) && Dealt(i, ns0, xs, k)
      modifies bts, this`ns
      ensures Shared(e, i, lambda, sum_p, xs) && |ns| == |dist_old|
      ensures Turn(bts, i, |dist_old|, k + 1, more) && Dealt(i, ns0, xs, k + 1)
    {
      hide AllParts, Parts, Enumeration, AddParts, Evidence, Likelihood;
      var p := Weigh(bts, i, lambda, k);
      GiveShare(bts, i, lambda, sum_p, p, k);
      more := Advance(bts, i, |dist_old|, k);
    }

    /** The second enumeration of next_epoch: every decomposition receives its share. */
    method Distribute(i: nat, lambda: real, sum_p: real, ghost e: Params, ghost xs: seq<real>)
      requires Shared(e, i, lambda, sum_p, xs) && |ns| == |dist_old|
      modifies this`ns
      ensures |ns| == |dist_old| && Dealt(i, old(ns), xs, |xs|)
    {
      EnumerationInRange(i, |ns|);
      assert Dealt(i, ns, xs, 0);
      ghost var ns0, n := ns, |xs|;
      assert n == |Enumeration(i)|;
      hide AllParts, Parts, Enumeration, Dealt, Shared, Standing, BetaGenerator.Valid;
      var bts2, more := Start(i, |dist_old|);
      ghost var k := 0;
      while more
        invariant fresh(bts2) && Turn(bts2, i, |dist_old|, k, more) && Shared(e, i, lambda, sum_p, xs)
        invariant |ns| == |dist_old| && Dealt(i, ns0, xs, k)
        decreases n - k
      {
        more := Deal(bts2, i, lambda, sum_p, k, ns0, e, xs);
        k := k + 1;
      }
    }

    /** The first loop of next_epoch: shares the counters of every value among the
        decompositions of the value. */
    method ShareAll(lambda: real, ghost e: Params)
      requires e == Params(w, dist_old, n_old, Scale(lambda)) && Usable(e)
      requires 1 <= |counter_dist| == |dist_old| == |ns| && Supported(e, counter_dist)
      modifies this`ns
      ensures ns == Expected(e, counter_dist, |counter_dist|)
    {
      ns := seq(|ns|, _ => 0.0);
      var i := 1;
      while i < |counter_dist|
        invariant 1 <= i <= |counter_dist|
        invariant ns == Expected(e, counter_dist, i)
      {
        if counter_dist[i] != 0 {
          PositiveEvidence(e, i);
          var sum_p := Normaliser(i, lambda);
          Distribute(i, lambda, sum_p, e, Shares(e, i, counter_dist[i] as real));
        }
        i := i + 1;
      }
    }

    /** The second loop of next_epoch: the new number of flows. */
    method CountFlows()
      requires 1 <= |counter_dist| == |ns|
      modifies this`n_new
      ensures n_new == Flows(ns)
    {
      n_new := 0.0;
      var i := 1;
      while i < |counter_dist|
        invariant 1 <= i <= |ns|
        invariant n_new == Flows(ns[..i])
      {
        assert ns[..i + 1][..i] == ns[..i];
        n_new := n_new + ns[i];
        i := i + 1;
      }
      assert ns[..i] == ns;
    }

    /** The third loop of next_epoch: the new distribution. */
    method Normalise()
      requires 1 <= |counter_dist| == |ns| == |dist_new| && (|ns| > 1 ==> n_new != 0.0)
      modifies this`dist_new
      ensures dist_new == Normalised(ns, n_new, old(dist_new))
    {
      var i := 1;
      ghost var dist := dist_new;
      while i < |counter_dist|
        invariant 1 <= i <= |dist_new| == |ns|
        invariant dist_new[0] == dist[0] && forall v :: 1 <= v < i ==> dist_new[v] == Ratio(ns[v], n_new)
      {
        dist_new := dist_new[i := Ratio(ns[i], n_new)];
        i := i + 1;
      }
    }

    /** One epoch computes the next estimate, and so conserves packets. */
    method NextEpoch()
      requires Valid()
      modifies this
      ensures Valid() && w == old(w) && counter_dist == old(counter_dist)
      ensures Current() == NextEstimate(w, exp, counter_dist, old(Current())) && n_sum == n_new
      ensures Mass(ns) == Weighted(counter_dist) as real && forall v :: 0 <= v < |ns| ==> ns[v] >= 0.0
      ensures Sum(counter_dist[1..]) as real <= n_sum <= Weighted(counter_dist) as real
      ensures |counter_dist| > 1 ==> Flows(dist_new) == 1.0
    {
      hide AllParts, Parts, Enumeration, Expected, Flows, Mass, Weighted, Sum;
      ghost var est := Current();
      EpochKeeps(w, exp, counter_dist, est);
      dist_old := dist_new;
      n_old := n_new;
      var lambda := Ratio(n_old, w as real);
      ShareAll(lambda, EpochParams(w, exp, est));
      EpochGood(EpochParams(w, exp, est), counter_dist);
      CountFlows();
      Normalise();
      n_sum := n_new;
    }
  }
}
