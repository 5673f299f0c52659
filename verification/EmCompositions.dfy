/** What the normalising sum of a counter value is: flows of any sizes, in any order, that add up to
    the value. */
module EmCompositions {
  import opened Histograms
  import opened Partitions
  import opened BetaEnumeration
  import opened EmModel
  import opened EmOrderings

  // ----- compositions -----

  /** All sequences of m positive numbers that add up to s. */
  function Compositions(m: nat, s: int): seq<seq<int>>
    decreases m, if s > 0 then s + 1 else 1
  {
    if m == 0 then (if s == 0 then [[]] else []) else CompositionsFrom(m, s, if s > 0 then s else 0)
  }

  /** Those that begin with at most k. */
  function CompositionsFrom(m: nat, s: int, k: nat): seq<seq<int>>
    requires m > 0
    decreases m, k
  {
    if k == 0 then [] else CompositionsFrom(m, s, k - 1) + Prepend(k, Compositions(m - 1, s - k))
  }

  ghost predicate Positive(q: seq<int>) {
    forall j :: 0 <= j < |q| ==> q[j] >= 1
  }

  ghost predicate IsComposition(q: seq<int>, m: nat, s: int) {
    |q| == m && Positive(q) && Sum(q) == s
  }

  lemma {:induction false} PositiveSum(q: seq<int>)
    requires Positive(q)
    ensures Sum(q) >= |q| && (q != [] ==> q[0] <= Sum(q))
  {
    if q != [] { PositiveSum(q[1..]); }
  }

  lemma {:induction false} CompositionsExact(m: nat, s: int, q: seq<int>)
    ensures q in Compositions(m, s) <==> IsComposition(q, m, s)
    decreases m, if s > 0 then s + 1 else 1
  {
    if m > 0 {
      CompositionsFromExact(m, s, if s > 0 then s else 0, q);
      if IsComposition(q, m, s) { PositiveSum(q); }
    }
  }

  lemma {:induction false} CompositionsFromExact(m: nat, s: int, k: nat, q: seq<int>)
    requires m > 0
    ensures q in CompositionsFrom(m, s, k) <==> IsComposition(q, m, s) && q[0] <= k
    decreases m, k
  {
    if k > 0 {
      CompositionsFromExact(m, s, k - 1, q);
      PrependExact(k, Compositions(m - 1, s - k), q);
      if q != [] && q[0] == k {
        CompositionsExact(m - 1, s - k, q[1..]);
        FirstAndRest(q, m, s);
      }
    } else if IsComposition(q, m, s) {
      assert q[0] >= 1;
    }
  }

  lemma FirstAndRest(q: seq<int>, m: nat, s: int)
    requires m > 0 && q != []
    ensures IsComposition(q, m, s) <==> q[0] >= 1 && IsComposition(q[1..], m - 1, s - q[0])
  {
    if q[0] >= 1 && Positive(q[1..]) {
      forall j | 0 <= j < |q| ensures q[j] >= 1 { if j > 0 { assert q[j] == q[1..][j - 1]; } }
    }
  }

  lemma {:induction false} CompositionsDistinct(m: nat, s: int)
    ensures Distinct(Compositions(m, s))
    decreases m, if s > 0 then s + 1 else 1
  {
    if m > 0 { CompositionsFromDistinct(m, s, if s > 0 then s else 0); }
  }

  lemma {:induction false} CompositionsFromDistinct(m: nat, s: int, k: nat)
    requires m > 0
    ensures Distinct(CompositionsFrom(m, s, k))
    decreases m, k
  {
    if k > 0 {
      hide Distinct;
      CompositionsFromDistinct(m, s, k - 1);
      CompositionsDistinct(m - 1, s - k);
      PrependDistinct(k, Compositions(m - 1, s - k));
      FirstAtMost(m, s, k - 1);
      AppendDistinct(CompositionsFrom(m, s, k - 1), Prepend(k, Compositions(m - 1, s - k)), k);
    } else {
      assert Distinct(CompositionsFrom(m, s, 0));
    }
  }

  lemma FirstAtMost(m: nat, s: int, k: nat)
    requires m > 0
    ensures forall i :: 0 <= i < |CompositionsFrom(m, s, k)| ==>
              CompositionsFrom(m, s, k)[i] != [] && CompositionsFrom(m, s, k)[i][0] <= k
  {
    var qs := CompositionsFrom(m, s, k);
    hide CompositionsFrom;
    forall i | 0 <= i < |qs| ensures qs[i] != [] && qs[i][0] <= k { CompositionsFromExact(m, s, k, qs[i]); }
  }

  // ----- sorting -----

  function Insert(v: int, p: seq<int>): seq<int> {
    if p == [] || v <= p[0] then [v] + p else [p[0]] + Insert(v, p[1..])
  }

  function Sorted(q: seq<int>): seq<int> {
    if q == [] then [] else Insert(q[0], Sorted(q[1..]))
  }

  lemma {:induction false} InsertKeeps(v: int, p: seq<int>)
    requires NonDecreasing(p)
    ensures var r := Insert(v, p);
            && NonDecreasing(r) && |r| == |p| + 1 && Sum(r) == Sum(p) + v
            && (r[0] == v || (p != [] && r[0] == p[0]))
            && forall u :: CountOf(r, u) == CountOf(p, u) + if u == v then 1 else 0
  {
    if p == [] || v <= p[0] {
      assert ([v] + p)[1..] == p;
    } else {
      InsertKeeps(v, p[1..]);
      var t := Insert(v, p[1..]);
      assert ([p[0]] + t)[1..] == t;
      AppendFirst(p[0], t);
    }
  }

  lemma AppendFirst(a: int, t: seq<int>)
    requires NonDecreasing(t) && (t != [] ==> a <= t[0])
    ensures NonDecreasing([a] + t)
  {
  }

  lemma {:induction false} SortedKeeps(q: seq<int>)
    ensures NonDecreasing(Sorted(q)) && |Sorted(q)| == |q| && Sum(Sorted(q)) == Sum(q) && Permuted(q, Sorted(q))
  {
    if q != [] {
      SortedKeeps(q[1..]);
      InsertKeeps(q[0], Sorted(q[1..]));
    }
  }

  /** Sorted sequences with the same numbers are equal. */
  lemma {:induction false} SortedUnique(p: seq<int>, r: seq<int>)
    requires NonDecreasing(p) && NonDecreasing(r) && Permuted(p, r) && |p| == |r|
    ensures p == r
  {
    if p != [] {
      LeastFirst(p, r);
      LeastFirst(r, p);
      assert Permuted(p[1..], r[1..]) by {
        forall v ensures CountOf(p[1..], v) == CountOf(r[1..], v) { assert CountOf(p, v) == CountOf(r, v); }
      }
      SortedUnique(p[1..], r[1..]);
      assert p == [p[0]] + p[1..] && r == [r[0]] + r[1..];
    }
  }

  lemma LeastFirst(p: seq<int>, r: seq<int>)
    requires p != [] && NonDecreasing(p) && r != [] && Permuted(p, r)
    ensures p[0] <= r[0]
  {
    CountAbsent(p, r[0]);
    CountAbsent(r, r[0]);
    assert CountOf(p, r[0]) == CountOf(r, r[0]);
    var i :| 0 <= i < |p| && p[i] == r[0];
  }

  // ----- orderings of all decompositions -----

  /** The orderings of the first k listed sequences. */
  function AllOrderings(ps: seq<seq<int>>, size: nat, k: nat): seq<seq<int>>
    requires k <= |ps|
  {
    if k == 0 then [] else AllOrderings(ps, size, k - 1) + Orderings(ps[k - 1], size)
  }

  /** Different sorted sequences of one length below size. */
  ghost predicate SortedList(ps: seq<seq<int>>, m: nat, size: nat) {
    Distinct(ps) && forall i :: 0 <= i < |ps| ==> |ps[i]| == m && NonDecreasing(ps[i]) && Below(ps[i], size)
  }

  lemma {:induction false} AllOrderingsExact(ps: seq<seq<int>>, m: nat, size: nat, k: nat, q: seq<int>)
    requires SortedList(ps, m, size) && k <= |ps|
    ensures q in AllOrderings(ps, size, k) <==> |q| == m && exists i :: 0 <= i < k && Permuted(q, ps[i])
  {
    hide Permuted, Distinct, Orderings, NonDecreasing;
    if k > 0 {
      AllOrderingsExact(ps, m, size, k - 1, q);
      OrderingsExact(ps[k - 1], size, q);
    }
  }

  lemma {:induction false} AllOrderingsDistinct(ps: seq<seq<int>>, m: nat, size: nat, k: nat)
    requires SortedList(ps, m, size) && k <= |ps|
    ensures Distinct(AllOrderings(ps, size, k)) && AllBelow(AllOrderings(ps, size, k), size)
  {
    hide Permuted, Distinct, Orderings, AllBelow, SortedList;
    if k == 0 {
      NoOrderings(size);
    } else {
      var a, b := AllOrderings(ps, size, k - 1), Orderings(ps[k - 1], size);
      AllOrderingsDistinct(ps, m, size, k - 1);
      ListedBelow(ps, m, size, k - 1);
      OrderingsExact(ps[k - 1], size, ps[k - 1]);
      OrderingsBelow(ps[k - 1], size);
      forall i, j | 0 <= i < |a| && 0 <= j < |b| ensures a[i] != b[j] { ListsApart(ps, m, size, k, a[i], b[j]); }
      JoinDistinct(a, b, size);
    }
  }

  lemma ListedBelow(ps: seq<seq<int>>, m: nat, size: nat, k: nat)
    requires SortedList(ps, m, size) && k < |ps|
    ensures Below(ps[k], size)
  {
  }

  lemma ListsApart(ps: seq<seq<int>>, m: nat, size: nat, k: nat, q: seq<int>, r: seq<int>)
    requires SortedList(ps, m, size) && 0 < k <= |ps|
    requires q in AllOrderings(ps, size, k - 1) && r in Orderings(ps[k - 1], size)
    ensures q != r
  {
    hide Permuted, Distinct, Orderings, NonDecreasing, AllOrderings;
    AllOrderingsExact(ps, m, size, k - 1, q);
    OrderingsExact(ps[k - 1], size, r);
    if Permuted(r, ps[k - 1]) { ApartUnpermuted(ps, m, size, k, r); }
  }

  lemma NoOrderings(size: nat)
    ensures Distinct([]) && AllBelow([], size)
  {
  }

  lemma JoinDistinct(a: seq<seq<int>>, b: seq<seq<int>>, size: nat)
    requires Distinct(a) && Distinct(b) && forall i, j :: 0 <= i < |a| && 0 <= j < |b| ==> a[i] != b[j]
    requires AllBelow(a, size) && AllBelow(b, size)
    ensures Distinct(a + b) && AllBelow(a + b, size)
  {
    hide Below;
  }

  lemma OrderingsBelow(p: seq<int>, size: nat)
    requires Below(p, size)
    ensures AllBelow(Orderings(p, size), size)
  {
    HistogramTotal(p, size);
    hide CountOf;
    ArrangeBelow(HistogramOf(p, size), |p|);
  }

  /** No sequence is an ordering of two of them. */
  lemma ApartUnpermuted(ps: seq<seq<int>>, m: nat, size: nat, k: nat, q: seq<int>)
    requires SortedList(ps, m, size) && 0 < k <= |ps| && Permuted(q, ps[k - 1])
    ensures forall i :: 0 <= i < k - 1 ==> !Permuted(q, ps[i])
  {
    forall i | 0 <= i < k - 1 ensures !Permuted(q, ps[i]) {
      if Permuted(q, ps[i]) {
        Turned(q, ps[i]);
        ThroughOther(ps[i], q, ps[k - 1]);
        SortedUnique(ps[i], ps[k - 1]);
        assert false;
      }
    }
  }

  lemma ThroughOther(p: seq<int>, q: seq<int>, r: seq<int>)
    requires Permuted(p, q) && Permuted(q, r)
    ensures Permuted(p, r)
  {
    hide CountOf;
    forall v ensures CountOf(p, v) == CountOf(r, v) { assert CountOf(p, v) == CountOf(q, v); }
  }

  // ----- equal sums -----

  lemma WeightSumOut(e: Params, qs: seq<seq<int>>, j: nat)
    requires e.w > 0 && AllBelow(qs, |e.dist|) && j < |qs|
    ensures AllBelow(Without(qs, j), |e.dist|)
    ensures WeightSum(e, qs) == WeightSum(e, Without(qs, j)) + Weight(e, qs[j])
  {
    hide Weight, Below, WeightSum;
    WeightSumAppend(e, qs[..j], qs[j + 1..]);
    WeightSumAppend(e, qs[..j], qs[j..j + 1]);
    WeightSumAppend(e, qs[..j] + qs[j..j + 1], qs[j + 1..]);
    assert qs == (qs[..j] + qs[j..j + 1]) + qs[j + 1..];
    OneWeight(e, qs[j]);
    assert qs[j..j + 1] == [qs[j]];
  }

  lemma OneWeight(e: Params, q: seq<int>)
    requires e.w > 0 && Below(q, |e.dist|)
    ensures AllBelow([q], |e.dist|) && WeightSum(e, [q]) == Weight(e, q)
  {
    assert [q][..0] == [];
    hide Weight;
    assert WeightSum(e, [q]) == WeightSum(e, [q][..0]) + Weight(e, q);
  }

  /** Lists without repetitions that hold the same sequences have the same sum. */
  lemma {:induction false} SumSame(e: Params, a: seq<seq<int>>, b: seq<seq<int>>)
    requires e.w > 0 && AllBelow(a, |e.dist|) && AllBelow(b, |e.dist|) && Distinct(a) && Distinct(b)
    requires (forall i :: 0 <= i < |a| ==> a[i] in b) && forall j :: 0 <= j < |b| ==> b[j] in a
    ensures WeightSum(e, a) == WeightSum(e, b)
    decreases |a|
  {
    hide Weight, Below, WeightSum, Without;
    if a == [] {
      if b != [] { SomeMember(a, b); }
    } else {
      var m := |a| - 1;
      assert a[m] in b;
      var j :| 0 <= j < |b| && b[j] == a[m];
      WeightSumOut(e, b, j);
      WeightSumOut(e, a, m);
      StillDistinct(a, m);
      StillDistinct(b, j);
      StillSame(a, m, b, j);
      StillSame(b, j, a, m);
      SumSame(e, Without(a, m), Without(b, j));
    }
  }

  lemma SomeMember(a: seq<seq<int>>, b: seq<seq<int>>)
    requires b != [] && forall j :: 0 <= j < |b| ==> b[j] in a
    ensures a != []
  {
    assert b[0] in a;
  }

  /** q without its element j. */
  function Without(q: seq<seq<int>>, j: nat): (r: seq<seq<int>>)
    requires j < |q|
    ensures |r| == |q| - 1 && forall i :: 0 <= i < |r| ==> r[i] == q[if i < j then i else i + 1]
  {
    q[..j] + q[j + 1..]
  }

  lemma StillDistinct(q: seq<seq<int>>, j: nat)
    requires Distinct(q) && j < |q|
    ensures Distinct(Without(q, j))
  {
    hide Without;
  }

  lemma StillThere(q: seq<seq<int>>, j: nat, x: seq<int>)
    requires j < |q| && x in q && x != q[j]
    ensures x in Without(q, j)
  {
    hide Without;
    var k :| 0 <= k < |q| && q[k] == x;
    assert Without(q, j)[if k < j then k else k - 1] == x;
  }

  lemma StillSame(a: seq<seq<int>>, m: nat, b: seq<seq<int>>, j: nat)
    requires Distinct(a) && m < |a| && j < |b| && b[j] == a[m] && forall i :: 0 <= i < |a| ==> a[i] in b
    ensures forall i :: 0 <= i < |Without(a, m)| ==> Without(a, m)[i] in Without(b, j)
  {
    hide Without;
    forall i | 0 <= i < |Without(a, m)| ensures Without(a, m)[i] in Without(b, j) {
      StillThere(b, j, a[if i < m then i else i + 1]);
    }
  }

  // ----- the decompositions of s into m parts -----

  lemma PartsAreSorted(m: nat, s: nat, size: nat)
    requires m >= 1 && s < size
    ensures SortedList(Parts(m, 1, s), m, size)
  {
    var ps := Parts(m, 1, s);
    PartsOrdered(m, 1, s);
    hide Parts, Ordered;
    forall i | 0 <= i < |ps| ensures |ps[i]| == m && NonDecreasing(ps[i]) && Below(ps[i], size) {
      PartsExact(m, 1, s, ps[i]);
      PartsBounded(ps[i], s);
    }
    ListDistinct(ps);
  }

  lemma ListDistinct(ps: seq<seq<int>>)
    requires Ordered(ps)
    ensures Distinct(ps)
  {
    forall i, j | 0 <= i < j < |ps| ensures ps[i] != ps[j] { BeforeAsymmetric(ps[i], ps[j]); }
  }

  /** A sequence of positive numbers is an ordering of exactly the decomposition that sorts it. */
  lemma CompositionIsOrdering(m: nat, s: nat, size: nat, q: seq<int>)
    requires m >= 1 && s < size
    ensures q in AllOrderings(Parts(m, 1, s), size, |Parts(m, 1, s)|) <==> q in Compositions(m, s)
  {
    var ps := Parts(m, 1, s);
    PartsAreSorted(m, s, size);
    CompositionsExact(m, s, q);
    hide Parts, SortedList, Permuted, Orderings, Compositions, NonDecreasing;
    AllOrderingsExact(ps, m, size, |ps|, q);
    hide AllOrderings;
    if IsComposition(q, m, s) { SortedInParts(m, s, q); }
    if exists i :: 0 <= i < |ps| && Permuted(q, ps[i]) && |q| == m {
      var i :| 0 <= i < |ps| && Permuted(q, ps[i]);
      PartsExact(m, 1, s, ps[i]);
      OrderingIsComposition(m, s, q, ps[i]);
    }
  }

  lemma SortedInParts(m: nat, s: nat, q: seq<int>)
    requires m >= 1 && IsComposition(q, m, s)
    ensures exists i :: 0 <= i < |Parts(m, 1, s)| && Permuted(q, Parts(m, 1, s)[i])
  {
    var p := Sorted(q);
    SortedKeeps(q);
    PartsExact(m, 1, s, p);
    assert p[0] >= 1 by { FromOther(p, q); }
    hide Parts, Sorted, Permuted;
    assert p in Parts(m, 1, s);
    var i :| 0 <= i < |Parts(m, 1, s)| && Parts(m, 1, s)[i] == p;
  }

  lemma FromOther(p: seq<int>, q: seq<int>)
    requires Permuted(q, p)
    ensures forall j :: 0 <= j < |p| ==> p[j] in q
  {
    forall j | 0 <= j < |p| ensures p[j] in q {
      CountAbsent(p, p[j]);
      CountAbsent(q, p[j]);
      assert CountOf(q, p[j]) == CountOf(p, p[j]);
    }
  }

  lemma OrderingIsComposition(m: nat, s: nat, q: seq<int>, p: seq<int>)
    requires |q| == m && Permuted(q, p) && InParts(p, m, 1, s)
    ensures IsComposition(q, m, s)
  {
    SortedKeeps(q);
    var t := Sorted(q);
    hide Sorted, CountOf, Permuted;
    Turned(q, t);
    ThroughOther(t, q, p);
    SortedUnique(t, p);
    FromOther(q, t);
    forall j | 0 <= j < |q| ensures q[j] >= 1 { assert q[j] in p; }
  }

  lemma Turned(q: seq<int>, t: seq<int>)
    requires Permuted(q, t)
    ensures Permuted(t, q)
  {
    hide CountOf;
    forall v ensures CountOf(t, v) == CountOf(q, v) { assert CountOf(q, v) == CountOf(t, v); }
  }

  // ----- the normalising sum -----

  /** Twice over the same decompositions: by likelihood, and by the orderings of each. */
  lemma {:induction false} LevelSum(e: Params, ps: seq<seq<int>>, m: nat, k: nat)
    requires e.w > 0 && SortedList(ps, m, |e.dist|) && k <= |ps|
    ensures AllBelow(AllOrderings(ps, |e.dist|, k), |e.dist|)
    ensures Mul(Factorial(m) as real, SumFirst(Likelihoods(e, ps), k))
            == Mul(e.scale, WeightSum(e, AllOrderings(ps, |e.dist|, k)))
  {
    hide Orderings, WeightSum, Factorial, Likelihood, Mul, SortedList, AllBelow;
    AllOrderingsDistinct(ps, m, |e.dist|, k);
    MulNone(Factorial(m) as real);
    MulNone(e.scale);
    if k == 0 {
      NoWeights(e);
    } else {
      LevelSum(e, ps, m, k - 1);
      ListedBelow(ps, m, |e.dist|, k - 1);
      ListedLength(ps, m, |e.dist|, k - 1);
      OrderingsSum(e, ps[k - 1]);
      WeightSumAppend(e, AllOrderings(ps, |e.dist|, k - 1), Orderings(ps[k - 1], |e.dist|));
      MulAdd(Factorial(m) as real, SumFirst(Likelihoods(e, ps), k - 1), Likelihood(e, ps[k - 1]));
      MulAdd(e.scale, WeightSum(e, AllOrderings(ps, |e.dist|, k - 1)), WeightSum(e, Orderings(ps[k - 1], |e.dist|)));
    }
  }

  lemma NoWeights(e: Params)
    requires e.w > 0
    ensures AllBelow([], |e.dist|) && WeightSum(e, []) == 0.0
  {
  }

  lemma ListedLength(ps: seq<seq<int>>, m: nat, size: nat, k: nat)
    requires SortedList(ps, m, size) && k < |ps|
    ensures |ps[k]| == m
  {
  }

  lemma CompositionsBelow(m: nat, s: nat, size: nat)
    requires s < size
    ensures AllBelow(Compositions(m, s), size)
  {
    var qs := Compositions(m, s);
    hide Compositions;
    forall i | 0 <= i < |qs| ensures Below(qs[i], size) {
      CompositionsExact(m, s, qs[i]);
      PartsAtMost(qs[i]);
    }
  }

  lemma {:induction false} PartsAtMost(q: seq<int>)
    requires Positive(q)
    ensures forall j :: 0 <= j < |q| ==> q[j] <= Sum(q)
  {
    PositiveSum(q);
    if q != [] { PartsAtMost(q[1..]); }
  }

  /** The likelihoods of all decompositions of s into m flows, times the factorial of m, are
      exp(-lambda) times the weights of all sequences of m flows that add up to s. */
  lemma LevelMeaning(e: Params, m: nat, s: nat)
    requires e.w > 0 && m >= 1 && s < |e.dist|
    ensures AllBelow(Compositions(m, s), |e.dist|)
    ensures Mul(Factorial(m) as real, SumFirst(Likelihoods(e, Parts(m, 1, s)), |Parts(m, 1, s)|))
            == Mul(e.scale, WeightSum(e, Compositions(m, s)))
  {
    var ps := Parts(m, 1, s);
    var a, b := AllOrderings(ps, |e.dist|, |ps|), Compositions(m, s);
    hide Parts, SortedList, WeightSum, Compositions, AllOrderings, Mul, Factorial, Distinct, AllBelow, SumFirst;
    PartsAreSorted(m, s, |e.dist|);
    LevelSum(e, ps, m, |ps|);
    CompositionsBelow(m, s, |e.dist|);
    CompositionsDistinct(m, s);
    AllOrderingsDistinct(ps, m, |e.dist|, |ps|);
    forall i | 0 <= i < |a| ensures a[i] in b { CompositionIsOrdering(m, s, |e.dist|, a[i]); }
    forall j | 0 <= j < |b| ensures b[j] in a { CompositionIsOrdering(m, s, |e.dist|, b[j]); }
    SumSame(e, a, b);
  }

  /** exp(-lambda) times the sum, over the numbers of flows up to m, of the weights of all sequences
      of flows that add up to s, divided by the factorial of their number. */
  ghost function Poisson(e: Params, s: nat, m: nat): real
    requires e.w > 0 && s < |e.dist|
  {
    if m == 0 then 0.0
    else
      CompositionsBelow(m, s, |e.dist|);
      Poisson(e, s, m - 1) + Ratio(Mul(e.scale, WeightSum(e, Compositions(m, s))), Factorial(m) as real)
  }

  lemma {:induction false} SumFirstSplit(e: Params, a: seq<seq<int>>, b: seq<seq<int>>, k: nat)
    requires e.w > 0 && k <= |b|
    ensures SumFirst(Likelihoods(e, a + b), |a| + k) ==
            SumFirst(Likelihoods(e, a), |a|) + SumFirst(Likelihoods(e, b), k)
  {
    hide Likelihood;
    if k == 0 {
      SumFirstSame(Likelihoods(e, a + b), Likelihoods(e, a), |a|);
    } else {
      SumFirstSplit(e, a, b, k - 1);
    }
  }

  lemma {:induction false} SumFirstSame(x: seq<real>, y: seq<real>, k: nat)
    requires k <= |x| && k <= |y| && forall i :: 0 <= i < k ==> x[i] == y[i]
    ensures SumFirst(x, k) == SumFirst(y, k)
  {
    if k > 0 { SumFirstSame(x, y, k - 1); }
  }

  lemma {:induction false} LevelsMeaning(e: Params, s: nat, m: nat)
    requires e.w > 0 && s < |e.dist|
    ensures SumFirst(Likelihoods(e, AllParts(s, m)), |AllParts(s, m)|) == Poisson(e, s, m)
  {
    hide *;
    if m > 0 {
      LevelsMeaning(e, s, m - 1);
      AllPartsNext(s, m);
      SumFirstSplit(e, AllParts(s, m - 1), Parts(m, 1, s), |Parts(m, 1, s)|);
      PoissonNext(e, s, m);
    } else {
      NoLevels(e, s);
    }
  }

  lemma AllPartsNext(s: int, m: nat)
    requires m > 0
    ensures AllParts(s, m) == AllParts(s, m - 1) + Parts(m, 1, s)
  {
  }

  lemma NoLevels(e: Params, s: nat)
    requires e.w > 0 && s < |e.dist|
    ensures SumFirst(Likelihoods(e, AllParts(s, 0)), |AllParts(s, 0)|) == 0.0 == Poisson(e, s, 0)
  {
    assert AllParts(s, 0) == [];
  }

  lemma PoissonNext(e: Params, s: nat, m: nat)
    requires e.w > 0 && s < |e.dist| && m > 0
    ensures Poisson(e, s, m) == Poisson(e, s, m - 1) + SumFirst(Likelihoods(e, Parts(m, 1, s)), |Parts(m, 1, s)|)
  {
    hide Mul, Factorial, SumFirst, AllBelow, WeightSum, Parts, Compositions, Likelihoods, Ratio;
    LevelMeaning(e, m, s);
    Divided(Factorial(m), SumFirst(Likelihoods(e, Parts(m, 1, s)), |Parts(m, 1, s)|), e.scale,
      WeightSum(e, Compositions(m, s)));
  }

  lemma Divided(f: nat, x: real, scale: real, w: real)
    requires f > 0 && Mul(f as real, x) == Mul(scale, w)
    ensures x == Ratio(Mul(scale, w), f as real)
  {
    hide Mul, Ratio;
    Cancel(f as real, x);
  }

  lemma Cancel(f: real, x: real)
    requires f > 0.0
    ensures Ratio(Mul(f, x), f) == x
  {
  }

  /** The normalising sum of a counter value s: of all ways in which fewer flows than the limit, of
      any sizes, may add up to s. */
  lemma EvidenceMeaning(e: Params, s: nat)
    requires e.w > 0 && s < |e.dist|
    ensures Evidence(e, s) == Poisson(e, s, FlowNumLimit(s) - 1)
  {
    LevelsMeaning(e, s, FlowNumLimit(s) - 1);
    hide AllParts, Poisson, Likelihoods, SumFirst;
  }
}
