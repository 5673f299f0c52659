/** The list of heavy flows that process_data reports: each occupied slot once and in order, with
    values that add up. */
module ReportLists {
  import opened Keys
  import opened HeavySketch
  import opened ElasticModel
  import opened BucketVotes
  import opened SketchRuns
  import opened ProcessingModel

  // ----- any state -----

  datatype Place = Place(bucket: nat, slot: nat)

  predicate Earlier(a: Place, b: Place) {
    a.bucket < b.bucket || (a.bucket == b.bucket && a.slot < b.slot)
  }

  predicate Within(s: State, n: nat, a: Place) {
    n <= |s.buckets| && a.bucket < n && a.slot < MAX_VALID_COUNTER
  }

  /** What there is to report of a slot: its key, and its count with, if it is flagged, the light
      counter of the key. */
  function ContentsOf(h: Hashes, s: State, a: Place): Report
    requires Sized(s) && Within(s, |s.buckets|, a)
  {
    var key, val := s.buckets[a.bucket].key[a.slot], s.buckets[a.bucket].val[a.slot];
    if val >= FLAG then Report(key, val - FLAG + s.counters[h.light(key) % |s.counters|], true)
    else Report(key, val, false)
  }

  /** at holds the places of the reports: in order, and no slot of the first n buckets with a value is
      missing. */
  ghost predicate Lists(h: Hashes, s: State, n: nat, at: seq<Place>, rs: seq<Report>)
    requires Sized(s)
  {
    && |at| == |rs|
    && (forall i, j :: 0 <= i < j < |at| ==> Earlier(at[i], at[j]))
    && (forall i :: 0 <= i < |at| ==> Within(s, n, at[i]) && rs[i] == ContentsOf(h, s, at[i]) && rs[i].val != 0)
    && (forall a: Place :: Within(s, n, a) && ContentsOf(h, s, a).val != 0 ==> a in at)
  }

  lemma SlotListed(h: Hashes, s: State, a: Place)
    requires Sized(s) && Within(s, |s.buckets|, a)
    ensures SlotReports(h, s, a.bucket, a.slot) ==
            if ContentsOf(h, s, a).val == 0 then [] else [ContentsOf(h, s, a)]
  {
  }

  /** The reports of whole buckets, and of the first j slots of one more. */
  ghost predicate ListsTo(h: Hashes, s: State, n: nat, j: nat, at: seq<Place>, rs: seq<Report>)
    requires Sized(s) && n < |s.buckets| && j <= MAX_VALID_COUNTER
  {
    && |at| == |rs|
    && (forall i, k :: 0 <= i < k < |at| ==> Earlier(at[i], at[k]))
    && (forall i :: 0 <= i < |at| ==>
          && Within(s, n + 1, at[i]) && (at[i].bucket == n ==> at[i].slot < j)
          && rs[i] == ContentsOf(h, s, at[i]) && rs[i].val != 0)
    && (forall a: Place :: Within(s, n + 1, a) && (a.bucket == n ==> a.slot < j) && ContentsOf(h, s, a).val != 0 ==>
          a in at)
  }

  lemma {:induction false} PlacesTo(h: Hashes, s: State, n: nat, j: nat) returns (at: seq<Place>)
    requires Sized(s) && n < |s.buckets| && j <= MAX_VALID_COUNTER
    ensures ListsTo(h, s, n, j, at, Reports(h, s, n) + BucketReports(h, s, n, j))
    decreases n, j + 1
  {
    hide ContentsOf, SlotReports, Lists, ListsTo;
    if j == 0 {
      at := PlacesOf(h, s, n);
      assert Reports(h, s, n) + BucketReports(h, s, n, 0) == Reports(h, s, n);
      NoneOfNext(h, s, n, at, Reports(h, s, n));
    } else {
      var before := PlacesTo(h, s, n, j - 1);
      SlotListed(h, s, Place(n, j - 1));
      var rs := Reports(h, s, n) + BucketReports(h, s, n, j - 1);
      assert Reports(h, s, n) + BucketReports(h, s, n, j) == rs + SlotReports(h, s, n, j - 1);
      hide Reports, BucketReports;
      if ContentsOf(h, s, Place(n, j - 1)).val == 0 {
        at := before;
        assert rs + [] == rs;
      } else {
        at := before + [Place(n, j - 1)];
      }
      NextSlot(h, s, n, j, before, rs);
    }
  }

  lemma NoneOfNext(h: Hashes, s: State, n: nat, at: seq<Place>, rs: seq<Report>)
    requires Sized(s) && n < |s.buckets| && Lists(h, s, n, at, rs)
    ensures ListsTo(h, s, n, 0, at, rs)
  {
    hide ContentsOf;
  }

  lemma NextSlot(h: Hashes, s: State, n: nat, j: nat, at: seq<Place>, rs: seq<Report>)
    requires Sized(s) && n < |s.buckets| && 0 < j <= MAX_VALID_COUNTER && ListsTo(h, s, n, j - 1, at, rs)
    ensures var a := Place(n, j - 1);
            if ContentsOf(h, s, a).val == 0 then ListsTo(h, s, n, j, at, rs)
            else ListsTo(h, s, n, j, at + [a], rs + [ContentsOf(h, s, a)])
  {
    hide ContentsOf;
  }

  lemma AllOfLast(h: Hashes, s: State, n: nat, at: seq<Place>, rs: seq<Report>)
    requires Sized(s) && n < |s.buckets| && ListsTo(h, s, n, MAX_VALID_COUNTER, at, rs)
    ensures Lists(h, s, n + 1, at, rs)
  {
    hide ContentsOf;
  }

  /** Every slot with a value is reported, once, and the reports come in the order of the slots. */
  lemma {:induction false} PlacesOf(h: Hashes, s: State, n: nat) returns (at: seq<Place>)
    requires Sized(s) && n <= |s.buckets|
    ensures Lists(h, s, n, at, Reports(h, s, n))
    decreases n, 0
  {
    hide ContentsOf, SlotReports, BucketReports, ListsTo;
    if n == 0 {
      at := [];
    } else {
      at := PlacesTo(h, s, n - 1, MAX_VALID_COUNTER);
      AllOfLast(h, s, n - 1, at, Reports(h, s, n));
    }
  }

  // ----- their number and their sum -----

  /** Slots with a count. */
  function Occupied(b: Bucket, n: nat): nat
    requires n <= MAX_VALID_COUNTER
  {
    if n == 0 then 0 else Occupied(b, n - 1) + if GetCounterVal(b.val[n - 1]) != 0 then 1 else 0
  }

  function TotalOccupied(buckets: seq<Bucket>): nat {
    if buckets == [] then 0
    else TotalOccupied(buckets[..|buckets| - 1]) + Occupied(buckets[|buckets| - 1], MAX_VALID_COUNTER)
  }

  /** No slot has a flag and no count. */
  ghost predicate Valued(b: Bucket) {
    forall j :: 0 <= j < MAX_VALID_COUNTER ==> b.val[j] == 0 || GetCounterVal(b.val[j]) >= 1
  }

  lemma {:induction false} BucketCount(h: Hashes, s: State, i: nat, n: nat)
    requires Sized(s) && i < |s.buckets| && n <= MAX_VALID_COUNTER && Valued(s.buckets[i])
    ensures |BucketReports(h, s, i, n)| == Occupied(s.buckets[i], n)
  {
    if n > 0 { BucketCount(h, s, i, n - 1); }
  }

  lemma {:induction false} ReportCount(h: Hashes, s: State, n: nat)
    requires Sized(s) && n <= |s.buckets| && forall i :: 0 <= i < n ==> Valued(s.buckets[i])
    ensures |Reports(h, s, n)| == TotalOccupied(s.buckets[..n])
  {
    hide BucketReports, Occupied, Valued;
    if n > 0 {
      ReportCount(h, s, n - 1);
      BucketCount(h, s, n - 1, MAX_VALID_COUNTER);
      assert s.buckets[..n][..n - 1] == s.buckets[..n - 1];
    }
  }

  function SumValues(rs: seq<Report>): nat {
    if rs == [] then 0 else SumValues(rs[..|rs| - 1]) + rs[|rs| - 1].val
  }

  /** The light counters of the keys in flagged slots. */
  function FlaggedLight(h: Hashes, s: State, i: nat, n: nat): nat
    requires Sized(s) && i < |s.buckets| && n <= MAX_VALID_COUNTER
  {
    if n == 0 then 0
    else
      FlaggedLight(h, s, i, n - 1)
      + if s.buckets[i].val[n - 1] >= FLAG then s.counters[h.light(s.buckets[i].key[n - 1]) % |s.counters|] else 0
  }

  function TotalFlaggedLight(h: Hashes, s: State, n: nat): nat
    requires Sized(s) && n <= |s.buckets|
  {
    if n == 0 then 0 else TotalFlaggedLight(h, s, n - 1) + FlaggedLight(h, s, n - 1, MAX_VALID_COUNTER)
  }

  lemma {:induction false} SumValuesAppend(a: seq<Report>, b: seq<Report>)
    ensures SumValues(a + b) == SumValues(a) + SumValues(b)
  {
    if b == [] {
      assert a + b == a;
    } else {
      SumValuesAppend(a, b[..|b| - 1]);
      assert (a + b)[..|a + b| - 1] == a + b[..|b| - 1];
    }
  }

  lemma {:induction false} BucketSum(h: Hashes, s: State, i: nat, n: nat)
    requires Sized(s) && i < |s.buckets| && n <= MAX_VALID_COUNTER
    ensures SumValues(BucketReports(h, s, i, n)) == SumCounts(s.buckets[i].val, n) + FlaggedLight(h, s, i, n)
  {
    hide SlotReports, GetCounterVal;
    if n > 0 {
      BucketSum(h, s, i, n - 1);
      hide SumValues;
      SumValuesAppend(BucketReports(h, s, i, n - 1), SlotReports(h, s, i, n - 1));
      SlotSum(h, s, i, n - 1);
    }
  }

  lemma SlotSum(h: Hashes, s: State, i: nat, j: nat)
    requires Sized(s) && i < |s.buckets| && j < MAX_VALID_COUNTER
    ensures SumValues(SlotReports(h, s, i, j)) == GetCounterVal(s.buckets[i].val[j])
            + if s.buckets[i].val[j] >= FLAG then s.counters[h.light(s.buckets[i].key[j]) % |s.counters|] else 0
  {
    var rs := SlotReports(h, s, i, j);
    if rs != [] { assert rs[..0] == []; }
  }

  /** The reported values add up to the resident packets and the light counters of the flagged keys. */
  lemma {:induction false} ReportSum(h: Hashes, s: State, n: nat)
    requires Sized(s) && n <= |s.buckets|
    ensures SumValues(Reports(h, s, n)) == TotalResident(s.buckets[..n]) + TotalFlaggedLight(h, s, n)
  {
    hide BucketReports, SumCounts, FlaggedLight;
    if n > 0 {
      ReportSum(h, s, n - 1);
      SumValuesAppend(Reports(h, s, n - 1), BucketReports(h, s, n - 1, MAX_VALID_COUNTER));
      BucketSum(h, s, n - 1, MAX_VALID_COUNTER);
      assert s.buckets[..n][..n - 1] == s.buckets[..n - 1];
      hide SumValues;
    }
  }

  // ----- after a run -----

  lemma {:induction false} RunValued(h: Hashes, nb: nat, nc: nat, stream: seq<Key>, i: nat)
    requires nb > 0 && nc > 0 && i < nb && Arrived(h, nb, stream, i) <= LIMIT
    ensures Valued(Run(h, nb, nc, stream).buckets[i])
  {
    hide BucketInsert, Bounded, Resident, Guard, Arrived, Overwritten;
    if stream != [] {
      var n := |stream| - 1;
      OneMoreArrived(h, nb, nc, stream, i);
      RunValued(h, nb, nc, stream[..n], i);
      if h.heavy(stream[n]) % nb == i {
        AnyAccounting(h, nb, nc, stream[..n], i);
        hide Valued;
        ValuedInserted(Run(h, nb, nc, stream[..n]).buckets[i], stream[n]);
      }
    }
  }

  lemma ValuedInserted(b: Bucket, key: Key)
    requires Valued(b) && Resident(b) < LIMIT
    ensures Valued(BucketInsert(b, key, 1).bucket)
  {
    hide FindKey, MinSlot, CopyString, SumCounts, GetCounterVal;
    var j := FindKey(b.key, key);
    CountUp(0);
    if j < MAX_VALID_COUNTER {
      SumCountsCovers(b.val, MAX_VALID_COUNTER, j);
      CountUp(b.val[j]);
    }
  }

  /** After fewer than 2^31 packets of any keys there are as many reports as slots with a count, and
      their values add up to the resident packets and the light counters of the flagged keys. */
  lemma ReportsAddUp(h: Hashes, nb: nat, nc: nat, stream: seq<Key>)
    requires nb > 0 && nc > 0 && |stream| <= LIMIT
    ensures var s := Run(h, nb, nc, stream);
            && |Reports(h, s, nb)| == TotalOccupied(s.buckets)
            && SumValues(Reports(h, s, nb)) == TotalResident(s.buckets) + TotalFlaggedLight(h, s, nb)
  {
    var s := Run(h, nb, nc, stream);
    hide Run, Valued, Reports, TotalOccupied, TotalResident, SumValues;
    forall i | 0 <= i < nb ensures Valued(s.buckets[i]) {
      ArrivedAtMost(h, nb, stream, i);
      RunValued(h, nb, nc, stream, i);
    }
    ReportCount(h, s, nb);
    ReportSum(h, s, nb);
    assert s.buckets[..nb] == s.buckets;
  }

  /** Reports that come from one bucket, which gets no key beginning with a zero byte, have different
      keys. */
  lemma BucketKeysDiffer(h: Hashes, nb: nat, nc: nat, stream: seq<Key>, a: nat, b: nat) returns (at: seq<Place>)
    requires nb > 0 && nc > 0 && a < b < |Reports(h, Run(h, nb, nc, stream), nb)|
    ensures var s := Run(h, nb, nc, stream);
            var rs := Reports(h, s, nb);
            && Lists(h, s, nb, at, rs)
            && (at[a].bucket == at[b].bucket && Clean(h, nb, stream, at[a].bucket) ==> rs[a].key != rs[b].key)
  {
    var s := Run(h, nb, nc, stream);
    at := PlacesOf(h, s, nb);
    hide Run, Reports, Sound, CopyString, Clean;
    if at[a].bucket == at[b].bucket && Clean(h, nb, stream, at[a].bucket) {
      RunSound(h, nb, nc, stream, at[a].bucket);
      SamePlace(h, s, at, Reports(h, s, nb), a, b);
    }
  }

  /** When every key survives a copy, no two reports have the same key. */
  lemma KeysDiffer(h: Hashes, nb: nat, nc: nat, stream: seq<Key>, a: nat, b: nat)
    requires nb > 0 && nc > 0 && |stream| <= LIMIT && forall i :: 0 <= i < |stream| ==> Proper(stream[i])
    requires a < b < |Reports(h, Run(h, nb, nc, stream), nb)|
    ensures var s := Run(h, nb, nc, stream); Reports(h, s, nb)[a].key != Reports(h, s, nb)[b].key
  {
    hide Run, Reports, CopyString, Clean, Lists;
    var at := BucketKeysDiffer(h, nb, nc, stream, a, b);
    ListLength(h, Run(h, nb, nc, stream), nb, at, Reports(h, Run(h, nb, nc, stream), nb));
    AtHome(h, nb, nc, stream, at, a);
    AtHome(h, nb, nc, stream, at, b);
  }

  lemma ListLength(h: Hashes, s: State, n: nat, at: seq<Place>, rs: seq<Report>)
    requires Sized(s) && Lists(h, s, n, at, rs)
    ensures |at| == |rs|
  {
  }

  lemma AtHome(h: Hashes, nb: nat, nc: nat, stream: seq<Key>, at: seq<Place>, a: nat)
    requires nb > 0 && nc > 0 && |stream| <= LIMIT && forall i :: 0 <= i < |stream| ==> Proper(stream[i])
    requires var s := Run(h, nb, nc, stream); Lists(h, s, nb, at, Reports(h, s, nb)) && a < |at|
    ensures at[a].bucket < nb && Clean(h, nb, stream, at[a].bucket)
    ensures h.heavy(Reports(h, Run(h, nb, nc, stream), nb)[a].key) % nb == at[a].bucket
  {
    var s := Run(h, nb, nc, stream);
    hide Run, Reports, Clean, CopyString, FindKey, Sound;
    var i, j := at[a].bucket, at[a].slot;
    AdmissibleIsClean(h, nb, stream, i);
    RunSound(h, nb, nc, stream, i);
    RunStores(h, nb, nc, stream, i);
    ValuedKey(s.buckets[i], j);
    var x :| Origin(h, nb, stream, i, s.buckets[i].key[j], x);
    var k :| 0 <= k < |stream| && stream[k] == x;
  }

  lemma ValuedKey(b: Bucket, j: nat)
    requires Sound(b) && j < MAX_VALID_COUNTER
    ensures b.key[j] == ZERO_KEY ==> b.val[j] == 0
  {
  }

  lemma SamePlace(h: Hashes, s: State, at: seq<Place>, rs: seq<Report>, a: nat, b: nat)
    requires Sized(s) && Lists(h, s, |s.buckets|, at, rs) && a < b < |at| && at[a].bucket == at[b].bucket
    requires Sound(s.buckets[at[a].bucket])
    ensures rs[a].key != rs[b].key
  {
    hide MinCount, HasRoom, Proper;
    assert Earlier(at[a], at[b]);
  }
}
