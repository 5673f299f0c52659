/** The packet total and the heavy-flow report that process_data of server/server.cpp adds up for
    one sketch. */
module ProcessingModel {
  import opened Words
  import opened Keys
  import opened Histograms
  import opened HeavySketch
  import opened LightSketch
  import opened ElasticModel
  import opened BucketVotes
  import opened SketchRuns
  import opened SketchEstimates

  /** One reported flow: its key, its value, and whether it was swapped in. */
  datatype Report = Report(key: Key, val: nat, swap_flag: bool)

  /** The slots of bucket i leave room for the light counters of their keys below the flag bit. */
  ghost predicate Roomy(h: Hashes, s: State, i: nat)
    requires Sized(s) && i < |s.buckets|
  {
    forall j :: 0 <= j < MAX_VALID_COUNTER ==>
      GetCounterVal(s.buckets[i].val[j]) + s.counters[LightPos(h, s, s.buckets[i].key[j])] < FLAG
  }

  /** The value reported for a slot: a flagged one includes the light counter of its key. */
  function SlotValue(val: uint32, light: nat): nat {
    GetCounterVal(val) + if HighestBitIs1(val) then light else 0
  }

  /** The report of a slot, if it has a value. */
  function SlotReports(h: Hashes, s: State, i: nat, j: nat): seq<Report>
    requires Sized(s) && i < |s.buckets| && j < MAX_VALID_COUNTER
  {
    var b := s.buckets[i];
    var v := SlotValue(b.val[j], s.counters[LightPos(h, s, b.key[j])]);
    if v == 0 then [] else [Report(b.key[j], v, HighestBitIs1(b.val[j]))]
  }

  /** The reports of the first n slots of a bucket. */
  function BucketReports(h: Hashes, s: State, i: nat, n: nat): seq<Report>
    requires Sized(s) && i < |s.buckets| && n <= MAX_VALID_COUNTER
  {
    if n == 0 then [] else BucketReports(h, s, i, n - 1) + SlotReports(h, s, i, n - 1)
  }

  function Reports(h: Hashes, s: State, n: nat): seq<Report>
    requires Sized(s) && n <= |s.buckets|
  {
    if n == 0 then [] else Reports(h, s, n - 1) + BucketReports(h, s, n - 1, MAX_VALID_COUNTER)
  }

  /** Adding a light counter below the flag bit. */
  lemma AddLight(val: uint32, light: nat)
    requires GetCounterVal(val) + light < FLAG
    ensures val + light < WORD && GetCounterVal(val + light) == GetCounterVal(val) + light
  {
  }

  /** One slot: what is subtracted for a flagged slot is added back with its value. */
  method ProcessSlot(elastic: ElasticSketch, i: nat, j: nat, tot0: int, heavy0: seq<Report>)
    returns (tot: int, heavy_part: seq<Report>)
    requires elastic.Valid() && i < elastic.heavy_part.bucket_num && j < MAX_VALID_COUNTER
    requires Roomy(elastic.Hash(), elastic.Contents(), i)
    requires heavy0 == Reports(elastic.Hash(), elastic.Contents(), i) +
      BucketReports(elastic.Hash(), elastic.Contents(), i, j)
    ensures tot == tot0 + GetCounterVal(elastic.heavy_part.buckets[i].val[j])
    ensures heavy_part == Reports(elastic.Hash(), elastic.Contents(), i) +
      BucketReports(elastic.Hash(), elastic.Contents(), i, j + 1)
  {
    hide Reports;
    tot, heavy_part := tot0, heavy0;
    var key := elastic.heavy_part.buckets[i].key[j];
    var val := elastic.heavy_part.buckets[i].val[j];
    var swap_flag := false;
    var ex_val := elastic.light_part.Query(key);
    AddLight(val, ex_val);
    if HighestBitIs1(val) {
      swap_flag := true;
      if ex_val != 0 {
        val := val + ex_val;
        tot := tot - ex_val;
      }
    }
    val := GetCounterVal(val);
    if val != 0 {
      tot := tot + val;
      heavy_part := heavy_part + [Report(key, val, swap_flag)];
    }
  }

  /** The contribution of one sketch to the packet total is what its counters and its resident
      flows hold together, and the report lists the occupied slots in order. */
  method ProcessData(elastic: ElasticSketch, tot0: int) returns (tot: int, heavy_part: seq<Report>)
    requires elastic.Valid()
    requires forall i :: 0 <= i < elastic.heavy_part.bucket_num ==> Roomy(elastic.Hash(), elastic.Contents(), i)
    ensures tot == tot0 + Sum(elastic.Contents().counters) + TotalResident(elastic.Contents().buckets)
    ensures heavy_part == Reports(elastic.Hash(), elastic.Contents(), elastic.heavy_part.bucket_num)
  {
    hide Reports, BucketReports, Weighted, Sum, TotalResident;
    ghost var s, dist := elastic.Contents(), elastic.light_part.mice_dist[..];
    LightMass(dist, s.counters);
    tot := tot0;
    var i := 1;
    while i < 256
      invariant 1 <= i <= 256 && tot == tot0 + Weighted(dist[..i])
    {
      WeightedNext(dist, i);
      tot := tot + elastic.light_part.mice_dist[i] * i;
      i := i + 1;
    }
    heavy_part := [];
    NoReports(elastic.Hash(), s);
    i := 0;
    while i < elastic.heavy_part.bucket_num
      invariant 0 <= i <= elastic.heavy_part.bucket_num
      invariant tot == tot0 + Sum(s.counters) + TotalResident(s.buckets[..i])
      invariant heavy_part == Reports(elastic.Hash(), s, i)
    {
      tot, heavy_part := ProcessBucket(elastic, i, tot, heavy_part);
      ResidentNext(s.buckets, i);
      i := i + 1;
    }
    assert s.buckets[..i] == s.buckets;
  }

  lemma LightMass(dist: seq<int>, counters: seq<uint8>)
    requires Recounted(dist, counters)
    ensures Weighted(dist[..1]) == 0 && Weighted(dist[..256]) == Sum(counters)
  {
    RecountedMass(dist, counters);
    assert dist[..256] == dist;
    WeightedNext(dist, 0);
  }

  lemma WeightedNext(dist: seq<int>, i: nat)
    requires i < |dist|
    ensures Weighted(dist[..0]) == 0 && Weighted(dist[..i + 1]) == Weighted(dist[..i]) + dist[i] * i
  {
    assert dist[..i + 1][..i] == dist[..i];
  }

  lemma ResidentNext(buckets: seq<Bucket>, i: nat)
    requires i < |buckets|
    ensures TotalResident(buckets[..i + 1]) == TotalResident(buckets[..i]) + Resident(buckets[i])
  {
    assert buckets[..i + 1][..i] == buckets[..i];
  }

  lemma NoReports(h: Hashes, s: State)
    requires Sized(s)
    ensures Reports(h, s, 0) == [] && TotalResident(s.buckets[..0]) == 0
  {
  }

  /** The inner loop of process_data over the slots of a bucket. */
  method ProcessBucket(elastic: ElasticSketch, i: nat, tot0: int, heavy0: seq<Report>)
    returns (tot: int, heavy_part: seq<Report>)
    requires elastic.Valid() && i < elastic.heavy_part.bucket_num && Roomy(elastic.Hash(), elastic.Contents(), i)
    requires heavy0 == Reports(elastic.Hash(), elastic.Contents(), i)
    ensures tot == tot0 + Resident(elastic.heavy_part.buckets[i])
    ensures heavy_part == Reports(elastic.Hash(), elastic.Contents(), i + 1)
  {
    tot, heavy_part := tot0, heavy0;
    var j := 0;
    while j < MAX_VALID_COUNTER
      invariant 0 <= j <= MAX_VALID_COUNTER
      invariant tot == tot0 + SumCounts(elastic.heavy_part.buckets[i].val, j)
      invariant heavy_part == heavy0 + BucketReports(elastic.Hash(), elastic.Contents(), i, j)
    {
      tot, heavy_part := ProcessSlot(elastic, i, j, tot, heavy_part);
      j := j + 1;
    }
  }

  // ----- what the totals and reports mean after a run -----

  /** x is a key of the stream that belongs to bucket i and is stored as key. */
  ghost predicate Origin(h: Hashes, nb: nat, stream: seq<Key>, i: nat, key: Key, x: Key)
    requires nb > 0
  {
    x in stream && h.heavy(x) % nb == i && CopyString(x) == key
  }

  /** Every resident key of the bucket has an origin. */
  ghost predicate Stored(h: Hashes, nb: nat, stream: seq<Key>, b: Bucket, i: nat)
    requires nb > 0
  {
    forall j :: 0 <= j < MAX_VALID_COUNTER && b.key[j] != ZERO_KEY ==> exists x :: Origin(h, nb, stream, i, b.key[j], x)
  }

  lemma {:induction false} RunStores(h: Hashes, nb: nat, nc: nat, stream: seq<Key>, i: nat)
    requires nb > 0 && nc > 0 && i < nb
    ensures Stored(h, nb, stream, Run(h, nb, nc, stream).buckets[i], i)
  {
    hide BucketInsert, CopyString;
    if stream != [] {
      var n := |stream| - 1;
      var b := Run(h, nb, nc, stream[..n]).buckets[i];
      RunStores(h, nb, nc, stream[..n], i);
      OriginsStay(h, nb, stream, b, i);
      InsertKeys(b, stream[n]);
      assert h.heavy(stream[n]) % nb == i ==> Origin(h, nb, stream, i, CopyString(stream[n]), stream[n]);
      hide Origin;
    }
  }

  lemma OriginsStay(h: Hashes, nb: nat, stream: seq<Key>, b: Bucket, i: nat)
    requires nb > 0 && stream != [] && Stored(h, nb, stream[..|stream| - 1], b, i)
    ensures Stored(h, nb, stream, b, i)
  {
    hide CopyString;
    var before := stream[..|stream| - 1];
    forall j | 0 <= j < MAX_VALID_COUNTER && b.key[j] != ZERO_KEY
      ensures exists x :: Origin(h, nb, stream, i, b.key[j], x)
    {
      var x :| Origin(h, nb, before, i, b.key[j], x);
      assert Origin(h, nb, stream, i, b.key[j], x);
    }
  }

  /** After fewer than 2^31 packets of any keys the totals do not wrap, and one sketch contributes
      at most the number of packets it was given. */
  lemma TotalWithinPackets(h: Hashes, nb: nat, nc: nat, stream: seq<Key>)
    requires nb > 0 && nc > 0 && |stream| <= LIMIT
    ensures var s := Run(h, nb, nc, stream);
            && (forall i :: 0 <= i < nb ==> Roomy(h, s, i))
            && Sum(s.counters) + TotalResident(s.buckets) <= |stream|
  {
    hide Run, Roomy, TotalResident, Sum, Sent;
    var s := Run(h, nb, nc, stream);
    MassAtMost(h, nb, nc, stream);
    forall i | 0 <= i < nb ensures Roomy(h, s, i) { SmallIsRoomy(h, s, i); }
  }

  lemma SmallIsRoomy(h: Hashes, s: State, i: nat)
    requires Sized(s) && i < |s.buckets| && Sum(s.counters) + TotalResident(s.buckets) <= LIMIT
    ensures Roomy(h, s, i)
  {
    hide TotalResident, Sum, SumCounts, LightPos, GetCounterVal;
    var b := s.buckets[i];
    TotalResidentCovers(s.buckets, i);
    forall j | 0 <= j < MAX_VALID_COUNTER
      ensures GetCounterVal(b.val[j]) + s.counters[LightPos(h, s, b.key[j])] < FLAG
    {
      SumCountsCovers(b.val, MAX_VALID_COUNTER, j);
      SumCovers(s.counters, LightPos(h, s, b.key[j]));
    }
  }

  lemma {:induction false} TotalResidentCovers(buckets: seq<Bucket>, i: nat)
    requires i < |buckets|
    ensures Resident(buckets[i]) <= TotalResident(buckets)
  {
    hide Resident;
    if i < |buckets| - 1 { TotalResidentCovers(buckets[..|buckets| - 1], i); }
  }

  lemma {:induction false} SumCovers(counters: seq<uint8>, p: nat)
    requires p < |counters|
    ensures counters[p] <= Sum(counters)
  {
    if p > 0 {
      assert counters[1..][p - 1] == counters[p];
      SumCovers(counters[1..], p - 1);
    } else {
      SumNatural(counters[1..]);
    }
  }

  lemma {:induction false} SumNatural(counters: seq<uint8>)
    ensures Sum(counters) >= 0
  {
    if counters != [] { SumNatural(counters[1..]); }
  }

  /** A report is of a slot with a value, and every such slot is reported. */
  lemma {:induction false} BucketReportsExact(h: Hashes, s: State, i: nat, n: nat, r: Report)
    requires Sized(s) && i < |s.buckets| && n <= MAX_VALID_COUNTER
    ensures r in BucketReports(h, s, i, n) <==> r.val != 0 && exists j :: 0 <= j < n && IsSlotReport(h, s, i, j, r)
  {
    if n > 0 {
      BucketReportsExact(h, s, i, n - 1, r);
      SlotReportsExact(h, s, i, n - 1, r);
      hide SlotReports, IsSlotReport;
      InEither(BucketReports(h, s, i, n - 1), SlotReports(h, s, i, n - 1), r);
    }
  }

  lemma InEither(a: seq<Report>, b: seq<Report>, r: Report)
    ensures r in a + b <==> r in a || r in b
  {
  }

  lemma SlotReportsExact(h: Hashes, s: State, i: nat, j: nat, r: Report)
    requires Sized(s) && i < |s.buckets| && j < MAX_VALID_COUNTER
    ensures r in SlotReports(h, s, i, j) <==> r.val != 0 && IsSlotReport(h, s, i, j, r)
  {
  }

  ghost predicate IsSlotReport(h: Hashes, s: State, i: nat, j: nat, r: Report)
    requires Sized(s) && i < |s.buckets| && j < MAX_VALID_COUNTER
  {
    var b := s.buckets[i];
    r == Report(b.key[j], SlotValue(b.val[j], s.counters[LightPos(h, s, b.key[j])]), HighestBitIs1(b.val[j]))
  }

  ghost predicate Listed(h: Hashes, s: State, i: nat, r: Report)
    requires Sized(s) && i < |s.buckets|
  {
    r in BucketReports(h, s, i, MAX_VALID_COUNTER)
  }

  lemma {:induction false} ReportsExact(h: Hashes, s: State, n: nat, r: Report)
    requires Sized(s) && n <= |s.buckets|
    ensures r in Reports(h, s, n) <==> exists i :: 0 <= i < n && Listed(h, s, i, r)
  {
    hide BucketReports;
    if n > 0 {
      ReportsExact(h, s, n - 1, r);
      InEither(Reports(h, s, n - 1), BucketReports(h, s, n - 1, MAX_VALID_COUNTER), r);
      assert Listed(h, s, n - 1, r) <==> r in BucketReports(h, s, n - 1, MAX_VALID_COUNTER);
    }
  }

  /** A report is true of a key x of the stream: it is under the copy of x, which is resident.
      Without the swap flag its value is exactly the packets that the heavy part could take for x.
      Where the copy has the light counter of x, it is the answer to a query for x, at least what
      was heard of x unless that counter is saturated; where the copy has the bucket of x, it is
      the answer to a query for the reported key itself. */
  ghost predicate TrueOf(h: Hashes, nb: nat, nc: nat, stream: seq<Key>, r: Report, x: Key)
    requires nb > 0 && nc > 0
  {
    var s := Run(h, nb, nc, stream);
    && x in stream && r.key == CopyString(x) && SlotOf(s.buckets[HeavyPos(h, s, x)], x) < MAX_VALID_COUNTER
    && (!r.swap_flag ==> r.val == Matching(h, nb, stream, x))
    && (SameLight(h, nc, x) ==>
          r.val == Answer(h, s, x) &&
            (r.val >= Heard(h, nb, nc, stream, x) || s.counters[LightPos(h, s, x)] == 255))
    && (HeavyPos(h, s, r.key) == HeavyPos(h, s, x) ==> r.val == Answer(h, s, r.key))
  }

  /** After a run, every report of a bucket that gets no key beginning with a zero byte is true of a
      key that belongs to the bucket. */
  lemma BucketReportsTrue(h: Hashes, nb: nat, nc: nat, stream: seq<Key>, i: nat, r: Report) returns (x: Key)
    requires nb > 0 && nc > 0 && i < nb && Clean(h, nb, stream, i) && Listed(h, Run(h, nb, nc, stream), i, r)
    ensures h.heavy(x) % nb == i && TrueOf(h, nb, nc, stream, r, x)
  {
    hide Run, Reports, BucketReports, Stored, Sound, SlotValue, FindKey, CopyString, Matching, Heard, Clean;
    var s := Run(h, nb, nc, stream);
    BucketReportsExact(h, s, i, MAX_VALID_COUNTER, r);
    var j :| 0 <= j < MAX_VALID_COUNTER && IsSlotReport(h, s, i, j, r);
    VoteAccounting(h, nb, nc, stream, i);
    RunStores(h, nb, nc, stream, i);
    x := StoredOrigin(h, nb, stream, s, i, j, r);
    SlotReport(h, s, i, j, r, x);
    HeavyExact(h, nb, nc, stream, x);
    if SameLight(h, nc, x) { NeverUnderestimates(h, nb, nc, stream, x); }
  }

  /** So when no key begins with a zero byte, every report is true. */
  lemma ReportsTrue(h: Hashes, nb: nat, nc: nat, stream: seq<Key>, r: Report) returns (x: Key)
    requires nb > 0 && nc > 0 && Admissible(stream) && r in Reports(h, Run(h, nb, nc, stream), nb)
    ensures TrueOf(h, nb, nc, stream, r, x)
  {
    hide Run, Reports, Listed, TrueOf;
    var s := Run(h, nb, nc, stream);
    ReportsExact(h, s, nb, r);
    var i :| 0 <= i < nb && Listed(h, s, i, r);
    AdmissibleIsClean(h, nb, stream, i);
    x := BucketReportsTrue(h, nb, nc, stream, i, r);
  }

  lemma StoredOrigin(h: Hashes, nb: nat, stream: seq<Key>, s: State, i: nat, j: nat, r: Report) returns (x: Key)
    requires nb > 0 && Clean(h, nb, stream, i) && Sized(s) && |s.buckets| == nb && i < nb && j < MAX_VALID_COUNTER
    requires Sound(s.buckets[i]) && Stored(h, nb, stream, s.buckets[i], i) && IsSlotReport(h, s, i, j, r) && r.val != 0
    ensures x in stream && Nonempty(x) && HeavyPos(h, s, x) == i && CopyString(x) == s.buckets[i].key[j] == r.key
  {
    hide CopyString;
    assert s.buckets[i].key[j] != ZERO_KEY;
    x :| Origin(h, nb, stream, i, s.buckets[i].key[j], x);
  }

  /** What the report of slot j says of a key stored there. */
  lemma SlotReport(h: Hashes, s: State, i: nat, j: nat, r: Report, x: Key)
    requires Sized(s) && i < |s.buckets| && j < MAX_VALID_COUNTER && IsSlotReport(h, s, i, j, r) && r.val != 0
    requires Sound(s.buckets[i]) && Nonempty(x) && HeavyPos(h, s, x) == i && CopyString(x) == s.buckets[i].key[j]
    ensures SlotOf(s.buckets[i], x) == j && (!r.swap_flag ==> r.val == Answer(h, s, x))
    ensures SameLight(h, |s.counters|, x) ==> r.val == Answer(h, s, x)
    ensures HeavyPos(h, s, r.key) == i ==> r.val == Answer(h, s, r.key)
  {
    hide FindKey, GetCounterVal, HighestBitIs1, Combine, SlotValue, CopyString;
    var b := s.buckets[i];
    SlotExact(b, x);
    CopyIsProper(x);
    SlotExact(b, b.key[j]);
    ResidentPositive(b, x);
    SlotValueIsCombine(b.val[j], s.counters[LightPos(h, s, x)]);
    SlotValueIsCombine(b.val[j], s.counters[LightPos(h, s, b.key[j])]);
    UnflaggedValue(b.val[j], s.counters[LightPos(h, s, x)], s.counters[LightPos(h, s, b.key[j])]);
  }

  lemma UnflaggedValue(val: uint32, light: nat, light': nat)
    ensures !HighestBitIs1(val) ==> SlotValue(val, light) == SlotValue(val, light')
  {
  }

  /** The value of an occupied slot is what a query makes of it. */
  lemma SlotValueIsCombine(val: uint32, light: nat)
    ensures GetCounterVal(val) >= 1 ==> SlotValue(val, light) == Combine(val, light) >= 1
    ensures SlotValue(0, light) == 0
  {
  }

  /** Conversely, every resident flow is reported, under the copy of its key: with exactly the
      packets that the heavy part could take for it while it carries no swap flag, and with the
      answer to a query for it where its copy has its light counter. */
  lemma ResidentsReported(h: Hashes, nb: nat, nc: nat, stream: seq<Key>, k: Key) returns (r: Report)
    requires nb > 0 && nc > 0 && Clean(h, nb, stream, h.heavy(k) % nb) && Nonempty(k)
    requires var s := Run(h, nb, nc, stream); SlotOf(s.buckets[HeavyPos(h, s, k)], k) < MAX_VALID_COUNTER
    ensures var s := Run(h, nb, nc, stream);
            var b := s.buckets[HeavyPos(h, s, k)];
            && r in Reports(h, s, nb) && r.key == CopyString(k) && (r.swap_flag <==> HighestBitIs1(b.val[SlotOf(b, k)]))
            && (!r.swap_flag ==> r.val == Matching(h, nb, stream, k))
            && (SameLight(h, nc, k) ==> r.val == Answer(h, s, k))
  {
    hide FindKey, GetCounterVal, HighestBitIs1, Combine, SlotValue, Run, Sound, Reports, BucketReports, CopyString,
      Matching;
    var s := Run(h, nb, nc, stream);
    var i := HeavyPos(h, s, k);
    var b := s.buckets[i];
    var j := SlotOf(b, k);
    VoteAccounting(h, nb, nc, stream, i);
    SlotExact(b, k);
    ResidentPositive(b, k);
    r := Report(b.key[j], SlotValue(b.val[j], s.counters[LightPos(h, s, b.key[j])]), HighestBitIs1(b.val[j]));
    SlotValueIsCombine(b.val[j], s.counters[LightPos(h, s, b.key[j])]);
    assert IsSlotReport(h, s, i, j, r);
    BucketReportsExact(h, s, i, MAX_VALID_COUNTER, r);
    assert Listed(h, s, i, r);
    ReportsExact(h, s, nb, r);
    SlotReport(h, s, i, j, r, k);
    HeavyExact(h, nb, nc, stream, k);
  }
}
