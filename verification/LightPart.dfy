/** The light part of elastic/LightPart.h: saturating 8-bit counters, a histogram of their values
    kept up to date by every update, and a compressed view. */
module LightSketch {
  import opened Words
  import opened Keys
  import opened Histograms
  import opened EmModel
  import opened EmEstimation

  /** The value of a byte read as a char, which the platform may take as signed. */
  function CharValue(signed: bool, b: uint8): (v: int)
    ensures v == b || v == b - 256
  {
    if signed && b >= 128 then b - 256 else b
  }

  function Min255(x: nat): (r: uint8)
    ensures r <= x
  {
    if x < 255 then x else 255
  }

  /** Adds f to a counter, up to 255. */
  function Add(counters: seq<uint8>, pos: nat, f: nat): (r: seq<uint8>)
    requires pos < |counters|
    ensures |r| == |counters|
  {
    counters[pos := Min255(counters[pos] + f)]
  }

  /** Raises a counter to f, up to 255. */
  function Raise(counters: seq<uint8>, pos: nat, f: nat): (r: seq<uint8>)
    requires pos < |counters|
    ensures |r| == |counters|
  {
    if counters[pos] < Min255(f) then counters[pos := Min255(f)] else counters
  }

  /** The histogram agrees with a recount: entry v >= 1 is the number of counters at v, and
      entry 0 is that number less the size of the array. */
  ghost predicate Recounted(mice_dist: seq<int>, counters: seq<uint8>) {
    && |mice_dist| == 256
    && mice_dist[0] == CountOf(counters, 0) - |counters|
    && forall v :: 1 <= v < 256 ==> mice_dist[v] == CountOf(counters, v)
  }

  lemma CountMove(mice_dist: seq<int>, counters: seq<uint8>, pos: nat, x: uint8)
    requires Recounted(mice_dist, counters) && pos < |counters|
    ensures var m := mice_dist[counters[pos] := mice_dist[counters[pos]] - 1];
            Recounted(m[x := m[x] + 1], counters[pos := x])
  {
    UpdateCounts(counters, pos, x);
  }

  /** The histogram kept up to date is the one the estimator would collect from the counters,
      and holds nothing above the largest counter. */
  lemma CollectedAgrees(mice_dist: seq<int>, counters: seq<uint8>, max: nat)
    requires Recounted(mice_dist, counters) && max <= 255 && forall i :: 0 <= i < |counters| ==> counters[i] <= max
    ensures forall v :: 1 <= v <= max ==> mice_dist[v] == HistogramOf(counters, max + 1)[v]
    ensures forall v :: max < v <= 255 ==> mice_dist[v] == 0
    ensures mice_dist[0] == HistogramOf(counters, max + 1)[0] - |counters|
  {
    forall v | max < v <= 255 ensures mice_dist[v] == 0 {
      CountAbsent(counters, v);
    }
  }

  /** Entries 1 to 255, weighted, give the sum of the counters. */
  lemma RecountedMass(mice_dist: seq<int>, counters: seq<uint8>)
    requires Recounted(mice_dist, counters)
    ensures Weighted(mice_dist) == Sum(counters)
  {
    var h := HistogramOf(counters, 256);
    HistogramMass(counters, 256);
    WeightedAgree(mice_dist, h);
  }

  lemma {:induction false} WeightedAgree(f: seq<int>, g: seq<int>)
    requires |f| == |g| && forall v :: 1 <= v < |f| ==> f[v] == g[v]
    ensures Weighted(f) == Weighted(g)
  {
    if f != [] { WeightedAgree(f[..|f| - 1], g[..|g| - 1]); }
  }

  /** j % width, by repeated subtraction. */
  function Residue(j: nat, width: nat): (r: nat)
    requires width > 0
    ensures r < width
  {
    if j < width then j else Residue(j - width, width)
  }

  lemma {:induction false} ResidueIsModulo(j: nat, width: nat)
    requires width > 0
    ensures Residue(j, width) == j % width
  {
    if j < width {
      ModuloUnique(j, 0, j, width);
    } else {
      ResidueIsModulo(j - width, width);
      var q := (j - width) / width;
      assert j == (q + 1) * width + (j - width) % width by { assert (q + 1) * width == q * width + width; }
      ModuloUnique(j, q + 1, (j - width) % width, width);
    }
  }

  lemma ModuloUnique(a: nat, q: nat, r: nat, width: nat)
    requires width > 0 && r < width && a == q * width + r
    ensures a % width == r
  {
    var q', r' := a / width, a % width;
    assert a == q' * width + r';
    if q < q' { ProductAtLeast(q' - q, width); }
    if q > q' { ProductAtLeast(q - q', width); }
  }

  lemma ProductAtLeast(d: nat, width: nat)
    requires d >= 1
    ensures d * width >= width
  {
    assert d * width == (d - 1) * width + width;
  }

  /** Between two neighbouring members of a class there is no other. */
  lemma {:induction false} ClassGap(j: nat, k: nat, width: nat)
    requires width > 0 && j < k < j + width
    ensures Residue(k, width) != Residue(j, width)
  {
    if j >= width { ClassGap(j - width, k - width, width); }
  }

  /** x is the largest counter in a residue class modulo the compressed width. */
  ghost predicate IsClassMax(counters: seq<uint8>, width: nat, i: nat, x: uint8)
    requires width > 0
  {
    && (exists j :: 0 <= j < |counters| && Residue(j, width) == i && counters[j] == x)
    && (forall j :: 0 <= j < |counters| && Residue(j, width) == i ==> counters[j] <= x)
  }

  /** A compressed view never answers less than the counters it was made from. */
  lemma CompressedCovers(counters: seq<uint8>, dst: seq<uint8>, width: nat, pos: nat)
    requires 0 < width <= |dst| && pos < |counters|
    requires forall i :: 0 <= i < width ==> IsClassMax(counters, width, i, dst[i])
    ensures pos % width < |dst| && counters[pos] <= dst[pos % width]
  {
    ResidueIsModulo(pos, width);
    assert IsClassMax(counters, width, Residue(pos, width), dst[Residue(pos, width)]);
  }

  class LightPart {
    const counter_num: nat
    const counters: array<uint8>
    const mice_dist: array<int>
    const hash: Key -> nat  // bobhash->run, of which nothing is assumed

    ghost predicate Valid()
      reads counters, mice_dist
    {
      && counter_num > 0 && counters.Length == counter_num && mice_dist.Length == 256
      && Recounted(mice_dist[..], counters[..])
    }

    constructor (n: nat, h: Key -> nat)
      requires n > 0
      ensures Valid() && counter_num == n && hash == h && fresh(counters) && fresh(mice_dist)
      ensures forall i :: 0 <= i < n ==> counters[i] == 0
    {
      counter_num := n;
      hash := h;
      counters := new uint8[n](_ => 0);
      mice_dist := new int[256](_ => 0);
      new;
      CountAll(counters[..], 0);
    }

    method Clear()
      requires Valid()
      modifies counters, mice_dist
      ensures Valid() && forall i :: 0 <= i < counter_num ==> counters[i] == 0
    {
      var i := 0;
      while i < counter_num
        invariant 0 <= i <= counter_num
        invariant forall k :: 0 <= k < i ==> counters[k] == 0
      {
        counters[i] := 0;
        i := i + 1;
      }
      i := 0;
      while i < 256
        invariant 0 <= i <= 256
        invariant forall k :: 0 <= k < i ==> mice_dist[k] == 0
        invariant forall k :: 0 <= k < counter_num ==> counters[k] == 0
      {
        mice_dist[i] := 0;
        i := i + 1;
      }
      CountAll(counters[..], 0);
    }

    function Position(key: Key): (pos: nat)
      requires counter_num > 0
      ensures pos < counter_num
    {
      hash(key) % counter_num
    }

    /** Adds f to the counter of a key; the histogram follows. */
    method Insert(key: Key, f: nat)
      requires Valid()
      modifies counters, mice_dist
      ensures Valid() && counters[..] == Add(old(counters[..]), Position(key), f)
    {
      var pos := Position(key);
      var old_val := counters[pos];
      var new_val: uint8 := if counters[pos] + f < 255 then counters[pos] + f else 255;
      CountMove(mice_dist[..], counters[..], pos, new_val);
      ghost var c, m := counters[..], mice_dist[..];
      counters[pos] := new_val;
      mice_dist[old_val] := mice_dist[old_val] - 1;
      mice_dist[new_val] := mice_dist[new_val] + 1;
      assert counters[..] == c[pos := new_val];
      ghost var m' := m[old_val := m[old_val] - 1];
      assert mice_dist[..] == m'[new_val := m'[new_val] + 1];
    }

    /** Raises the counter of a key to f; the histogram follows. */
    method SwapInsert(key: Key, f: nat)
      requires Valid()
      modifies counters, mice_dist
      ensures Valid() && counters[..] == Raise(old(counters[..]), Position(key), f)
    {
      var pos := Position(key);
      var f': uint8 := if f < 255 then f else 255;
      if counters[pos] < f' {
        var old_val := counters[pos];
        CountMove(mice_dist[..], counters[..], pos, f');
        ghost var c, m := counters[..], mice_dist[..];
        counters[pos] := f';
        var new_val := counters[pos];
        mice_dist[old_val] := mice_dist[old_val] - 1;
        mice_dist[new_val] := mice_dist[new_val] + 1;
        assert counters[..] == c[pos := f'];
        ghost var m' := m[old_val := m[old_val] - 1];
        assert mice_dist[..] == m'[new_val := m'[new_val] + 1];
      }
    }

    method Query(key: Key) returns (val: int)
      requires Valid()
      ensures val == counters[Position(key)]
    {
      var pos := Position(key);
      return counters[pos];
    }

    function GetCompressWidth(ratio: nat): (width: nat)
      requires ratio > 0
    {
      counter_num / ratio
    }

    /** Stores the maximum of every residue class, whether or not the width divides the number
        of counters. */
    method Compress(ratio: nat, dst: array<uint8>)
      requires Valid() && ratio > 0 && GetCompressWidth(ratio) <= dst.Length && dst != counters
      requires dst as object != mice_dist
      modifies dst
      ensures forall i :: 0 <= i < GetCompressWidth(ratio) ==>
        IsClassMax(counters[..], GetCompressWidth(ratio), i, dst[i])
      ensures forall i :: GetCompressWidth(ratio) <= i < dst.Length ==> dst[i] == old(dst[i])
    {
      var width := GetCompressWidth(ratio);
      ghost var c := counters[..];
      WidthFits(counter_num, ratio);
      var i := 0;
      while i < width && i < counter_num
        invariant 0 <= i <= width <= counter_num && counters[..] == c
        invariant forall k :: 0 <= k < i ==> IsClassMax(c, width, k, dst[k])
        invariant forall k :: i <= k < dst.Length ==> dst[k] == old(dst[k])
      {
        var max_val := ClassMax(i, width);
        dst[i] := max_val;
        i := i + 1;
      }
    }

    /** The inner loop of compress. */
    method ClassMax(i: nat, width: nat) returns (max_val: uint8)
      requires Valid() && i < width <= counter_num
      ensures IsClassMax(counters[..], width, i, max_val)
    {
      max_val := 0;
      var j := i;
      while j < counter_num
        invariant i <= j && Residue(j, width) == i
        invariant if j == i then max_val == 0
                  else exists k :: 0 <= k < counter_num && Residue(k, width) == i && counters[k] == max_val
        invariant forall k :: 0 <= k < j && k < counter_num && Residue(k, width) == i ==> counters[k] <= max_val
        decreases counter_num - j
      {
        forall k | j < k < j + width ensures Residue(k, width) != i { ClassGap(j, k, width); }
        max_val := if counters[j] > max_val then counters[j] else max_val;
        j := j + width;
      }
      assert forall k :: 0 <= k < counter_num ==> counters[..][k] == counters[k];
    }

    /** The estimator has run k epochs from the first estimate of the counters. */
    ghost predicate Running(em: EMFSD, exp: real -> real, size: nat, k: nat)
      reads em, counters, mice_dist
    {
      && Valid() && em.Valid() && em.exp == exp && em.w == counter_num && Covered(counters[..], size)
      && em.counter_dist == HistogramOf(counters[..], size) && Weighted(em.counter_dist) == Sum(counters[..])
      && StartsFrom(em, size, k)
      && (k > 0 ==> Mass(em.ns) == Sum(counters[..]) as real)
      && (k > 0 ==> forall v :: 0 <= v < |em.ns| ==> em.ns[v] >= 0.0)
    }

    ghost predicate StartsFrom(em: EMFSD, size: nat, k: nat)
      requires em.Valid() && em.counter_dist == HistogramOf(counters[..], size) && Covered(counters[..], size)
      reads em, counters
    {
      FirstIsGood(counters[..], size);
      em.Current() == AfterEpochs(em.w, em.exp, em.counter_dist, FirstOf(counters[..], size), k)
    }

    method OneEpoch(em: EMFSD, ghost exp: real -> real, ghost size: nat, ghost k: nat)
      requires Running(em, exp, size, k)
      modifies em
      ensures Running(em, exp, size, k + 1)
    {
      hide Expected, Flows, Mass, Weighted, Sum, HistogramOf, FirstOf, Covered, Recounted, Good, Histogram;
      FirstIsGood(counters[..], size);
      em.NextEpoch();
    }

    /** Ten epochs of estimation from the counters; the sizes are cut down to whole flows, so
        the estimate never stands for more packets than the counters hold. */
    method GetDistribution(exp: real -> real) returns (dist: seq<int>, ghost ns: seq<real>)
      requires Valid() && forall x :: exp(x) > 0.0
      ensures Covered(counters[..], |ns|) && ns == TenEpochs(counters[..], |ns|, exp)
      ensures |dist| == |ns| && Mass(ns) == Sum(counters[..]) as real
      ensures forall v :: 0 <= v < |ns| ==> ns[v] >= 0.0 && dist[v] == ns[v].Floor
      ensures Weighted(dist) <= Sum(counters[..])
    {
      hide Expected, Flows, Mass, Weighted, Sum, HistogramOf, FirstOf, Covered, Recounted, Running;
      var em_fsd_algo := new EMFSD(exp);
      em_fsd_algo.SetCounters(counter_num, counters[..]);
      ghost var size := |em_fsd_algo.counter_dist|;
      BeginsRunning(em_fsd_algo, exp, size);
      var epoch := 0;
      while epoch < 10
        invariant 0 <= epoch <= 10 && fresh(em_fsd_algo) && Running(em_fsd_algo, exp, size, epoch)
      {
        OneEpoch(em_fsd_algo, exp, size, epoch);
        epoch := epoch + 1;
      }
      TenRun(em_fsd_algo, exp, size);
      ns := em_fsd_algo.ns;
      var tmp := em_fsd_algo.ns;
      dist := seq(|tmp|, i requires 0 <= i < |tmp| => tmp[i].Floor);
      FloorsWithinMass(ns, dist);
    }

    lemma BeginsRunning(em: EMFSD, exp: real -> real, size: nat)
      requires Valid() && em.Valid() && em.exp == exp && em.w == counter_num && Covered(counters[..], size)
      requires em.counter_dist == HistogramOf(counters[..], size) && Weighted(em.counter_dist) == Sum(counters[..])
      requires size > 1 ==> CountOf(counters[..], 0) < |counters[..]|
      requires em.Current() == FirstOf(counters[..], size)
      ensures Running(em, exp, size, 0)
    {
      FirstIsGood(counters[..], size);
      hide Expected, Mass, Weighted, Sum, HistogramOf, FirstOf, Covered, Good, Histogram, CountOf;
    }

    lemma TenRun(em: EMFSD, exp: real -> real, size: nat)
      requires Running(em, exp, size, 10)
      ensures Covered(counters[..], |em.ns|) && em.ns == TenEpochs(counters[..], |em.ns|, exp)
      ensures Mass(em.ns) == Sum(counters[..]) as real && forall v :: 0 <= v < |em.ns| ==> em.ns[v] >= 0.0
    {
      hide Expected, Mass, Weighted, Sum, FirstOf, Covered;
    }

    /** A byte of the compressed view, as the source reads it through a plain char. */
    method QueryCompressedPart(key: Key, compress_part: seq<uint8>, compress_counter_num: nat, signed: bool)
      returns (val: int)
      requires Valid() && 0 < compress_counter_num <= |compress_part|
      ensures val == CharValue(signed, compress_part[Position(key) % compress_counter_num])
    {
      var pos := Position(key) % compress_counter_num;
      val := compress_part[pos];
      if signed && val >= 128 { val := val - 256; }
    }
  }

  lemma {:induction false} FloorsWithinMass(ns: seq<real>, dist: seq<int>)
    requires |ns| == |dist| && forall v :: 0 <= v < |ns| ==> dist[v] == ns[v].Floor
    ensures Weighted(dist) as real <= Mass(ns)
  {
    if ns != [] {
      var n := |ns| - 1;
      FloorsWithinMass(ns[..n], dist[..n]);
      TimesMonotone(n, dist[n] as real, ns[n]);
      TimesInt(n, dist[n]);
    }
  }

  lemma {:induction false} TimesMonotone(k: nat, x: real, y: real)
    requires x <= y
    ensures Times(k, x) <= Times(k, y)
  {
    if k > 0 { TimesMonotone(k - 1, x, y); }
  }

  lemma WidthFits(n: nat, ratio: nat)
    requires ratio > 0
    ensures n / ratio <= n
  {
    var q := n / ratio;
    assert n == q * ratio + n % ratio;
    ProductAtLeast(ratio, q);
    assert q * ratio == ratio * q;
  }
}
