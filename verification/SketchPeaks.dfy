/** What a light counter holds after a run: the greatest of its totals since any eviction that raised
    it, so that evictions of keys without a flag do not add up. */
module SketchPeaks {
  import opened Words
  import opened Keys
  import opened HeavySketch
  import opened LightSketch
  import opened ElasticModel
  import opened BucketVotes
  import opened SketchRuns
  import opened SketchEstimates
  import opened SketchStrings

  /** A count as a light counter can hold it. */
  function Capped(x: nat): (c: uint8)
    ensures c == if x > 255 then 255 else x
  {
    if x > 255 then 255 else x
  }

  // ----- one insertion -----

  /** What the outcome of an insertion adds to the light counter p. */
  function AddedBy(h: Hashes, nc: nat, x: Key, o: Outcome, p: nat): nat
    requires nc > 0
  {
    if o.result == 2 && h.light(x) % nc == p then 1
    else if o.result == 1 && HighestBitIs1(o.swap_val) && h.light(o.swap_key) % nc == p then GetCounterVal(o.swap_val)
    else 0
  }

  /** The count that it lifts p to, if p is not there already. */
  function RaisedBy(h: Hashes, nc: nat, o: Outcome, p: nat): nat
    requires nc > 0
  {
    if o.result == 1 && !HighestBitIs1(o.swap_val) && h.light(o.swap_key) % nc == p then GetCounterVal(o.swap_val)
    else 0
  }

  /** The eviction of a key with a clear flag changes no counter when that of the key is at least its
      count already; otherwise that counter becomes the count, or 255.  The eviction of a flagged key
      adds its count, and a rejected packet adds one.  Nothing else changes a counter. */
  lemma CounterAfter(h: Hashes, s: State, x: Key, f: uint32)
    requires Sized(s)
    ensures var o, r := BucketInsert(s.buckets[HeavyPos(h, s, x)], x, f), Inserted(h, s, x, f).counters;
            var k, c := h.light(o.swap_key) % |s.counters|, GetCounterVal(o.swap_val);
            if o.result == 1 && !HighestBitIs1(o.swap_val) then
              r == if s.counters[k] >= c then s.counters else s.counters[k := Capped(c)]
            else if o.result == 1 then r == s.counters[k := Capped(s.counters[k] + c)]
            else if o.result == 2 then
              var j := h.light(x) % |s.counters|;
              r == s.counters[j := Capped(s.counters[j] as nat + 1)]
            else r == s.counters
  {
    var o := BucketInsert(s.buckets[HeavyPos(h, s, x)], x, f);
    assert o.result <= 2;
    hide BucketInsert;
    PlainIsCount(o.swap_val);
    if o.result == 1 && !HighestBitIs1(o.swap_val) { Unraised(s.counters, LightPos(h, s, o.swap_key), o.swap_val); }
  }

  lemma PlainIsCount(val: uint32)
    ensures !HighestBitIs1(val) ==> GetCounterVal(val) == val
  {
  }

  lemma Unraised(counters: seq<uint8>, k: nat, c: nat)
    requires k < |counters|
    ensures Raise(counters, k, c) == if counters[k] >= c then counters else counters[k := Capped(c)]
  {
    if counters[k] < c && counters[k] == 255 { assert counters[k := 255] == counters; }
  }

  lemma CounterStep(h: Hashes, s: State, x: Key, p: nat)
    requires Sized(s) && p < |s.counters|
    ensures var o := BucketInsert(s.buckets[HeavyPos(h, s, x)], x, 1);
            var added, raised := AddedBy(h, |s.counters|, x, o, p), RaisedBy(h, |s.counters|, o, p);
            && (added == 0 || raised == 0)
            && Inserted(h, s, x, 1).counters[p] ==
               if raised > s.counters[p] then Capped(raised) else Capped(s.counters[p] + added)
  {
    CounterAfter(h, s, x, 1);
    hide BucketInsert, GetCounterVal, HighestBitIs1, Inserted;
  }

  // ----- whole runs -----

  /** What packets t and later of a stream have added to p. */
  function AddedSince(h: Hashes, nb: nat, nc: nat, stream: seq<Key>, p: nat, t: nat): nat
    requires nb > 0 && nc > 0 && t <= |stream|
  {
    if t == |stream| then 0
    else
      var n := |stream| - 1;
      AddedSince(h, nb, nc, stream[..n], p, t) + AddedBy(h, nc, stream[n], LastOutcome(h, nb, nc, stream), p)
  }

  /** What p was lifted to by the last of the first t packets, and what has been added to it since;
      for t = 0, all that has been added. */
  function TotalSince(h: Hashes, nb: nat, nc: nat, stream: seq<Key>, p: nat, t: nat): nat
    requires nb > 0 && nc > 0 && t <= |stream|
  {
    AddedSince(h, nb, nc, stream, p, t)
    + if t == 0 then 0 else RaisedBy(h, nc, LastOutcome(h, nb, nc, stream[..t]), p)
  }

  lemma TotalStep(h: Hashes, nb: nat, nc: nat, stream: seq<Key>, p: nat, t: nat)
    requires nb > 0 && nc > 0 && t < |stream|
    ensures TotalSince(h, nb, nc, stream, p, t) == TotalSince(h, nb, nc, stream[..|stream| - 1], p, t)
            + AddedBy(h, nc, stream[|stream| - 1], LastOutcome(h, nb, nc, stream), p)
  {
    hide AddedBy, RaisedBy, LastOutcome;
    assert stream[..|stream| - 1][..t] == stream[..t];
  }

  lemma TotalEnd(h: Hashes, nb: nat, nc: nat, stream: seq<Key>, p: nat)
    requires nb > 0 && nc > 0
    ensures TotalSince(h, nb, nc, stream, p, |stream|) ==
            if stream == [] then 0 else RaisedBy(h, nc, LastOutcome(h, nb, nc, stream), p)
  {
    hide AddedBy, RaisedBy, LastOutcome;
    assert stream[..|stream|] == stream;
  }

  /** The counter is the greatest of these totals, up to 255. */
  lemma {:induction false} CounterIsGreatest(h: Hashes, nb: nat, nc: nat, stream: seq<Key>, p: nat) returns (t: nat)
    requires nb > 0 && p < nc
    ensures t <= |stream| && Run(h, nb, nc, stream).counters[p] == Capped(TotalSince(h, nb, nc, stream, p, t))
    ensures forall u :: 0 <= u <= |stream| ==>
              TotalSince(h, nb, nc, stream, p, u) <= TotalSince(h, nb, nc, stream, p, t)
  {
    hide TotalSince, AddedBy, RaisedBy, LastOutcome, Inserted;
    TotalEnd(h, nb, nc, stream, p);
    if stream == [] {
      t := 0;
    } else {
      var n := |stream| - 1;
      var before, x, o := stream[..n], stream[n], LastOutcome(h, nb, nc, stream);
      t := CounterIsGreatest(h, nb, nc, before, p);
      LastStep(h, nb, nc, stream, p);
      hide Run;
      forall u | 0 <= u <= n
        ensures TotalSince(h, nb, nc, stream, p, u) ==
                TotalSince(h, nb, nc, before, p, u) + AddedBy(h, nc, x, o, p)
      {
        TotalStep(h, nb, nc, stream, p, u);
      }
      if RaisedBy(h, nc, o, p) > TotalSince(h, nb, nc, before, p, t) { t := |stream|; }
    }
  }

  lemma LastStep(h: Hashes, nb: nat, nc: nat, stream: seq<Key>, p: nat)
    requires nb > 0 && p < nc && stream != []
    ensures var o := LastOutcome(h, nb, nc, stream);
            var c := Run(h, nb, nc, stream[..|stream| - 1]).counters[p];
            var added, raised := AddedBy(h, nc, stream[|stream| - 1], o, p), RaisedBy(h, nc, o, p);
            && (added == 0 || raised == 0)
            && Run(h, nb, nc, stream).counters[p] == if raised > c then Capped(raised) else Capped(c + added)
  {
    hide BucketInsert, AddedBy, RaisedBy, Inserted;
    CounterStep(h, Run(h, nb, nc, stream[..|stream| - 1]), stream[|stream| - 1], p);
  }

  /** So evictions of keys without a flag never add up: a counter exceeds all that rejected packets and
      flagged keys have added to it by no more than the largest count of one such key. */
  lemma RaisesDoNotAddUp(h: Hashes, nb: nat, nc: nat, stream: seq<Key>, p: nat, most: nat)
    requires nb > 0 && p < nc
    requires forall t :: 0 < t <= |stream| ==> RaisedBy(h, nc, LastOutcome(h, nb, nc, stream[..t]), p) <= most
    ensures var c, added := Run(h, nb, nc, stream).counters[p], AddedSince(h, nb, nc, stream, p, 0);
            Capped(added) <= c <= added + most
  {
    hide Run, AddedBy, RaisedBy, LastOutcome;
    var t := CounterIsGreatest(h, nb, nc, stream, p);
    AddedLess(h, nb, nc, stream, p, t);
    assert TotalSince(h, nb, nc, stream, p, 0) <= TotalSince(h, nb, nc, stream, p, t);
  }

  lemma {:induction false} AddedLess(h: Hashes, nb: nat, nc: nat, stream: seq<Key>, p: nat, t: nat)
    requires nb > 0 && nc > 0 && t <= |stream|
    ensures AddedSince(h, nb, nc, stream, p, t) <= AddedSince(h, nb, nc, stream, p, 0)
  {
    hide AddedBy, LastOutcome;
    if t < |stream| { AddedLess(h, nb, nc, stream[..|stream| - 1], p, t); }
  }

  // ----- sixteen packets -----

  /** The filling stream with all keys in one light counter. */
  lemma {:induction false} FlatFilling(k: Key, y: Key, n: nat, v: nat)
    requires n <= 6 && v <= 8 && (v > 0 ==> n == 6) && Nonempty(k) && Voter(k, y)
    ensures var s := Run(Flat(), 1, 1, Filling(k, y, n, v)); Filled(s.buckets[0], k, n, v) && s.counters == [v]
    decreases n + v
  {
    hide BucketInsert, Other, Voter, Run, Inserted, Filled;
    if v > 0 {
      FlatFilling(k, y, n, v - 1);
      var s := Run(Flat(), 1, 1, Filling(k, y, n, v - 1));
      RunSnoc(Flat(), 1, 1, Filling(k, y, n, v - 1), y);
      VoteAgainst(s.buckets[0], k, y, v - 1);
      FlatNext(s, y);
    } else if n > 0 {
      FlatFilling(k, y, n - 1, 0);
      RunSnoc(Flat(), 1, 1, Filling(k, y, n - 1, 0), Other(k, n - 1));
      FillOne(Run(Flat(), 1, 1, Filling(k, y, n - 1, 0)).buckets[0], k, n - 1);
      FlatNext(Run(Flat(), 1, 1, Filling(k, y, n - 1, 0)), Other(k, n - 1));
    } else {
      FlatStart();
      RunSnoc(Flat(), 1, 1, [], k);
      assert [] + [k] == [k];
      FirstPacket(k);
      FlatNext(Run(Flat(), 1, 1, []), k);
    }
  }

  lemma FlatNext(s: State, x: Key)
    requires |s.buckets| == 1 && |s.counters| == 1 && s.counters[0] < 255
    requires BucketInsert(s.buckets[0], x, 1).result != 1
    ensures var o, r := BucketInsert(s.buckets[0], x, 1), Inserted(Flat(), s, x, 1);
            r.buckets == [o.bucket] && r.counters == [s.counters[0] + if o.result == 2 then 1 else 0]
  {
    OneAtMost(s.buckets[0], x);
    CounterAfter(Flat(), s, x, 1);
    hide BucketInsert;
  }

  /** A key, six others and nine packets of a seventh, all in one light counter: eight packets were
      rejected when the key is evicted with its one packet, and the counter stays at 8. */
  lemma SixteenPackets(k: Key) returns (stream: seq<Key>)
    requires Nonempty(k)
    ensures |stream| == 16 && TrueCount(stream, k) == 1
    ensures var s := Run(Flat(), 1, 1, stream); s.counters == [8] && Answer(Flat(), s, k) == 8
  {
    var y := Other(k, 6);
    stream := Filling(k, y, 6, 9);
    hide BucketInsert, Other, Run, Inserted, Filled, Filling, TrueCount, CopyString, Swapped, BucketQuery;
    FlatFilling(k, y, 6, 8);
    var s := Run(Flat(), 1, 1, Filling(k, y, 6, 8));
    NextVote(k, y, 8);
    RunSnoc(Flat(), 1, 1, Filling(k, y, 6, 8), y);
    VoterMisses(s.buckets[0], k, y, 8);
    EvictedNow(s.buckets[0], k, y);
    FlatEvicted(s, y, k);
    FillingCount(k, y, 6, 9);
    NotFound(s.buckets[0], k);
  }

  lemma NextVote(k: Key, y: Key, v: nat)
    ensures Filling(k, y, 6, v + 1) == Filling(k, y, 6, v) + [y]
  {
  }

  lemma FlatEvicted(s: State, y: Key, k: Key)
    requires |s.buckets| == 1 && s.counters == [8]
    requires BucketInsert(s.buckets[0], y, 1) == Outcome(Swapped(s.buckets[0], y, 0), 1, CopyString(k), 1)
    ensures var r := Inserted(Flat(), s, y, 1); r.buckets == [Swapped(s.buckets[0], y, 0)] && r.counters == [8]
  {
    CounterAfter(Flat(), s, y, 1);
    hide BucketInsert, Swapped, CopyString;
    CountUp(0);
  }
}
