/** How much a query can answer too much: the bound of MassBound, taken for each light counter. */
module SketchBounds {
  import opened Words
  import opened Keys
  import opened HeavySketch
  import opened LightSketch
  import opened ElasticModel
  import opened BucketVotes
  import opened SketchRuns
  import opened SketchEstimates

  /** A packet of x can be counted at position p of the light part: as it is, or when the stored
      copy of x is evicted. */
  predicate Reaches(h: Hashes, nc: nat, x: Key, p: nat)
    requires nc > 0
  {
    h.light(x) % nc == p || h.light(CopyString(x)) % nc == p
  }

  /** The packets of a stream that can be counted at p. */
  function PacketsAt(h: Hashes, nc: nat, stream: seq<Key>, p: nat): nat
    requires nc > 0
  {
    if stream == [] then 0
    else PacketsAt(h, nc, stream[..|stream| - 1], p) + if Reaches(h, nc, stream[|stream| - 1], p) then 1 else 0
  }

  /** What a slot holds for position p: its count goes there when its key is evicted. */
  function SlotAt(h: Hashes, nc: nat, key: Key, val: uint32, p: nat): nat
    requires nc > 0
  {
    if h.light(key) % nc == p then GetCounterVal(val) else 0
  }

  function HeldAt(h: Hashes, nc: nat, b: Bucket, p: nat, n: nat): nat
    requires nc > 0 && n <= MAX_VALID_COUNTER
  {
    if n == 0 then 0 else HeldAt(h, nc, b, p, n - 1) + SlotAt(h, nc, b.key[n - 1], b.val[n - 1], p)
  }

  function AllAt(h: Hashes, nc: nat, buckets: seq<Bucket>, p: nat): nat
    requires nc > 0
  {
    if buckets == [] then 0
    else AllAt(h, nc, buckets[..|buckets| - 1], p) + HeldAt(h, nc, buckets[|buckets| - 1], p, MAX_VALID_COUNTER)
  }

  /** One slot changes. */
  lemma {:induction false} HeldAtUpdate(h: Hashes, nc: nat, b: Bucket, p: nat, n: nat, j: nat, key: Key, val: uint32)
    requires nc > 0 && n <= MAX_VALID_COUNTER && j < MAX_VALID_COUNTER
    ensures HeldAt(h, nc, BucketData(b.key[j := key], b.val[j := val]), p, n) ==
            HeldAt(h, nc, b, p, n)
            + if j < n then SlotAt(h, nc, key, val, p) - SlotAt(h, nc, b.key[j], b.val[j], p) else 0
  {
    hide SlotAt;
    if n > 0 { HeldAtUpdate(h, nc, b, p, n - 1, j, key, val); }
  }

  /** The guard holds no packets. */
  lemma {:induction false} HeldAtGuard(h: Hashes, nc: nat, b: Bucket, p: nat, n: nat, guard: uint32)
    requires nc > 0 && n <= MAX_VALID_COUNTER
    ensures HeldAt(h, nc, BucketData(b.key, b.val[MAX_VALID_COUNTER := guard]), p, n) == HeldAt(h, nc, b, p, n)
  {
    hide SlotAt;
    if n > 0 { HeldAtGuard(h, nc, b, p, n - 1, guard); }
  }

  lemma {:induction false} HeldAtSlot(h: Hashes, nc: nat, b: Bucket, p: nat, n: nat, j: nat)
    requires nc > 0 && j < n <= MAX_VALID_COUNTER
    ensures SlotAt(h, nc, b.key[j], b.val[j], p) <= HeldAt(h, nc, b, p, n)
  {
    hide SlotAt;
    if j < n - 1 { HeldAtSlot(h, nc, b, p, n - 1, j); }
  }

  lemma {:induction false} AllAtUpdate(h: Hashes, nc: nat, buckets: seq<Bucket>, i: nat, b: Bucket, p: nat)
    requires nc > 0 && i < |buckets|
    ensures AllAt(h, nc, buckets[i := b], p) ==
            AllAt(h, nc, buckets, p) - HeldAt(h, nc, buckets[i], p, MAX_VALID_COUNTER)
            + HeldAt(h, nc, b, p, MAX_VALID_COUNTER)
  {
    hide HeldAt;
    var n := |buckets| - 1;
    if i < n {
      AllAtUpdate(h, nc, buckets[..n], i, b, p);
      assert buckets[i := b][..n] == buckets[..n][i := b];
    } else {
      assert buckets[i := b][..n] == buckets[..n];
    }
  }

  lemma {:induction false} AllAtCovers(h: Hashes, nc: nat, buckets: seq<Bucket>, i: nat, p: nat)
    requires nc > 0 && i < |buckets|
    ensures HeldAt(h, nc, buckets[i], p, MAX_VALID_COUNTER) <= AllAt(h, nc, buckets, p)
  {
    hide HeldAt;
    if i < |buckets| - 1 { AllAtCovers(h, nc, buckets[..|buckets| - 1], i, p); }
  }

  lemma {:induction false} NothingHeld(h: Hashes, nc: nat, nb: nat, p: nat)
    requires nc > 0
    ensures AllAt(h, nc, seq(nb, _ => EMPTY_BUCKET), p) == 0
  {
    if nb > 0 {
      NothingHeld(h, nc, nb - 1, p);
      assert seq(nb, _ => EMPTY_BUCKET)[..nb - 1] == seq(nb - 1, _ => EMPTY_BUCKET);
      EmptyHolds(h, nc, p, MAX_VALID_COUNTER);
    }
  }

  lemma {:induction false} EmptyHolds(h: Hashes, nc: nat, p: nat, n: nat)
    requires nc > 0 && n <= MAX_VALID_COUNTER
    ensures HeldAt(h, nc, EMPTY_BUCKET, p, n) == 0
  {
    if n > 0 { EmptyHolds(h, nc, p, n - 1); }
  }

  // ----- one insertion -----

  /** What an outcome sends to position p. */
  function SentTo(h: Hashes, nc: nat, x: Key, o: Outcome, p: nat): nat
    requires nc > 0
  {
    if o.result == 1 then SlotAt(h, nc, o.swap_key, o.swap_val, p)
    else if o.result == 2 && h.light(x) % nc == p then 1
    else 0
  }

  lemma SlotOne(h: Hashes, nc: nat, key: Key, val: uint32, p: nat)
    requires nc > 0 && GetCounterVal(val) == 1
    ensures SlotAt(h, nc, key, val, p) <= 1 && (SlotAt(h, nc, key, val, p) == 1 ==> h.light(key) % nc == p)
  {
  }

  lemma SlotMore(h: Hashes, nc: nat, key: Key, val: uint32, p: nat)
    requires nc > 0
    ensures SlotAt(h, nc, key, (val + 1) % WORD, p)
            <= SlotAt(h, nc, key, val, p) + if h.light(key) % nc == p then 1 else 0
  {
    CountAtMost(val);
    hide GetCounterVal;
  }

  /** Every stored key survives a copy, as the copy that it is. */
  ghost predicate Copies(b: Bucket) {
    forall j :: 0 <= j < MAX_VALID_COUNTER ==> CopyString(b.key[j]) == b.key[j]
  }

  lemma FoundIsCopy(b: Bucket, x: Key)
    requires Copies(b) && SlotOf(b, x) < MAX_VALID_COUNTER
    ensures b.key[SlotOf(b, x)] == CopyString(x)
  {
    hide SameString, CopyString;
    SameStringIsSameCopy(b.key[SlotOf(b, x)], x);
  }

  /** What a bucket holds for p and sends to p grows by at most the packet inserted. */
  lemma BucketAt(h: Hashes, nc: nat, b: Bucket, x: Key, p: nat)
    requires nc > 0 && Copies(b)
    ensures var o := BucketInsert(b, x, 1);
            HeldAt(h, nc, o.bucket, p, MAX_VALID_COUNTER) + SentTo(h, nc, x, o, p)
            <= HeldAt(h, nc, b, p, MAX_VALID_COUNTER) + if Reaches(h, nc, x, p) then 1 else 0
  {
    hide FindKey, SameString, CopyString, MinSlot, GetCounterVal, HeldAt, SlotAt;
    var j, e, m := SlotOf(b, x), FindKey(b.key, ZERO_KEY), MinSlot(b.val, MAX_VALID_COUNTER);
    if j < MAX_VALID_COUNTER {
      FoundIsCopy(b, x);
      SlotMore(h, nc, b.key[j], b.val[j], p);
      HeldAtUpdate(h, nc, b, p, MAX_VALID_COUNTER, j, b.key[j], (b.val[j] + 1) % WORD);
      assert b.key[j := b.key[j]] == b.key;
    } else if e < MAX_VALID_COUNTER {
      CountUp(0);
      SlotOne(h, nc, CopyString(x), 1, p);
      HeldAtUpdate(h, nc, b, p, MAX_VALID_COUNTER, e, CopyString(x), 1);
    } else {
      HeldAtGuard(h, nc, b, p, MAX_VALID_COUNTER, (Guard(b) + 1) % WORD);
      SwapAt(h, nc, b, x, p, m);
    }
  }

  lemma SwapAt(h: Hashes, nc: nat, b: Bucket, x: Key, p: nat, m: nat)
    requires nc > 0 && m < MAX_VALID_COUNTER
    ensures HeldAt(h, nc, Swapped(b, x, m), p, MAX_VALID_COUNTER) + SlotAt(h, nc, b.key[m], b.val[m], p)
            <= HeldAt(h, nc, b, p, MAX_VALID_COUNTER) + if Reaches(h, nc, x, p) then 1 else 0
  {
    CountUp(0);
    hide HeldAt, SlotAt, CopyString, GetCounterVal;
    var g := BucketData(b.key, b.val[MAX_VALID_COUNTER := 0]);
    HeldAtGuard(h, nc, b, p, MAX_VALID_COUNTER, 0);
    HeldAtUpdate(h, nc, g, p, MAX_VALID_COUNTER, m, CopyString(x), FLAG + 1);
    SlotOne(h, nc, CopyString(x), FLAG + 1, p);
  }

  /** A light counter grows by at most what is sent to it. */
  lemma LightAt(h: Hashes, s: State, x: Key, o: Outcome, p: nat)
    requires Sized(s) && p < |s.counters| && o.result <= 2
    requires o.result == 1 && !HighestBitIs1(o.swap_val) ==> GetCounterVal(o.swap_val) == o.swap_val
    ensures LightStep(h, s, x, o)[p] <= s.counters[p] + SentTo(h, |s.counters|, x, o, p)
  {
    hide GetCounterVal, HighestBitIs1;
  }

  lemma PlainCount(val: uint32)
    ensures !HighestBitIs1(val) ==> GetCounterVal(val) == val
  {
  }

  // ----- whole runs -----

  lemma {:induction false} RunCopies(h: Hashes, nb: nat, nc: nat, stream: seq<Key>, i: nat)
    requires nb > 0 && nc > 0 && i < nb
    ensures Copies(Run(h, nb, nc, stream).buckets[i])
  {
    hide BucketInsert, CopyString;
    if stream == [] {
      CopyZeros(13);
      assert ZERO_KEY == seq(13, _ => 0);
    } else {
      var before, x := stream[..|stream| - 1], stream[|stream| - 1];
      RunCopies(h, nb, nc, before, i);
      InsertKeys(Run(h, nb, nc, before).buckets[i], x);
      CopyTwice(x);
    }
  }

  /** What the buckets hold for a light counter and what it has counted are together at most the
      packets that can be counted there, for every stream. */
  lemma {:induction false} PositionBound(h: Hashes, nb: nat, nc: nat, stream: seq<Key>, p: nat)
    requires nb > 0 && p < nc
    ensures var s := Run(h, nb, nc, stream);
            AllAt(h, nc, s.buckets, p) + s.counters[p] <= PacketsAt(h, nc, stream, p)
  {
    hide BucketInsert, Copies, LightStep, HeldAt, AllAt, SentTo, GetCounterVal, HighestBitIs1, Reaches, Resident;
    if stream == [] {
      NothingHeld(h, nc, nb, p);
    } else {
      var n := |stream| - 1;
      var before, x := stream[..n], stream[n];
      var s := Run(h, nb, nc, before);
      var i := HeavyPos(h, s, x);
      var o := BucketInsert(s.buckets[i], x, 1);
      PositionBound(h, nb, nc, before, p);
      RunCopies(h, nb, nc, before, i);
      BucketAt(h, nc, s.buckets[i], x, p);
      AllAtUpdate(h, nc, s.buckets, i, o.bucket, p);
      OneAtMost(s.buckets[i], x);
      PlainCount(o.swap_val);
      LightAt(h, s, x, o, p);
    }
  }

  /** A query answers at most the packets that can be counted where it looks. */
  lemma AnswerBound(h: Hashes, nb: nat, nc: nat, stream: seq<Key>, k: Key)
    requires nb > 0 && nc > 0 && SameLight(h, nc, k)
    ensures Answer(h, Run(h, nb, nc, stream), k) <= PacketsAt(h, nc, stream, h.light(k) % nc)
  {
    hide Run, PacketsAt, AllAt, Copies, HeldAt, FindKey, CopyString, BucketQuery;
    var s := Run(h, nb, nc, stream);
    var i, p := HeavyPos(h, s, k), LightPos(h, s, k);
    PositionBound(h, nb, nc, stream, p);
    RunCopies(h, nb, nc, stream, i);
    AllAtCovers(h, nc, s.buckets, i, p);
    CombinedAt(h, s, s.buckets[i], k, s.counters[p]);
  }

  lemma CombinedAt(h: Hashes, s: State, b: Bucket, k: Key, light: nat)
    requires Sized(s) && Copies(b) && SameLight(h, |s.counters|, k)
    ensures Combine(BucketQuery(b, k), light) <=
            HeldAt(h, |s.counters|, b, h.light(k) % |s.counters|, MAX_VALID_COUNTER) + light
  {
    hide Copies, FindKey, CopyString, HeldAt;
    var j := SlotOf(b, k);
    if j < MAX_VALID_COUNTER {
      FoundIsCopy(b, k);
      HeldAtSlot(h, |s.counters|, b, h.light(k) % |s.counters|, MAX_VALID_COUNTER, j);
    }
  }

  /** No other key of the stream can be counted where k is. */
  ghost predicate Alone(h: Hashes, nc: nat, stream: seq<Key>, k: Key)
    requires nc > 0
  {
    forall x :: x in stream && Reaches(h, nc, x, h.light(k) % nc) ==> x == k
  }

  lemma {:induction false} AlonePackets(h: Hashes, nc: nat, stream: seq<Key>, k: Key)
    requires nc > 0 && Alone(h, nc, stream, k)
    ensures PacketsAt(h, nc, stream, h.light(k) % nc) == TrueCount(stream, k)
  {
    hide CopyString;
    if stream != [] { AlonePackets(h, nc, stream[..|stream| - 1], k); }
  }

  /** So the answer for a key that shares its light counter with no other is its true count, as
      long as the counter is not saturated. */
  lemma ExactAlone(h: Hashes, nb: nat, nc: nat, stream: seq<Key>, k: Key)
    requires nb > 0 && nc > 0 && Clean(h, nb, stream, h.heavy(k) % nb) && Nonempty(k)
    requires SameLight(h, nc, k) && Alone(h, nc, stream, k)
    ensures var s := Run(h, nb, nc, stream);
            s.counters[LightPos(h, s, k)] < 255 ==> Answer(h, s, k) == TrueCount(stream, k)
  {
    hide Run, PacketsAt, TrueCount, Answer;
    AnswerBound(h, nb, nc, stream, k);
    AlonePackets(h, nc, stream, k);
    NeverUnderestimates(h, nb, nc, stream, k);
  }
}
