/** What a query answers after any admissible run, key by key. */
module SketchEstimates {
  import opened Words
  import opened Keys
  import opened HeavySketch
  import opened LightSketch
  import opened ElasticModel
  import opened BucketVotes
  import opened SketchRuns

  /** How often a key occurs in a stream. */
  function TrueCount(stream: seq<Key>, key: Key): nat {
    if stream == [] then 0
    else TrueCount(stream[..|stream| - 1], key) + if stream[|stream| - 1] == key then 1 else 0
  }

  lemma TrueCountMore(stream: seq<Key>, x: Key, key: Key)
    ensures TrueCount(stream + [x], key) == TrueCount(stream, key) + if x == key then 1 else 0
  {
    assert (stream + [x])[..|stream|] == stream;
  }

  /** x goes to the bucket of k and is the same string, so that the heavy part cannot tell them
      apart. */
  predicate Mates(h: Hashes, nb: nat, x: Key, k: Key)
    requires nb > 0
  {
    CopyString(x) == CopyString(k) && h.heavy(x) % nb == h.heavy(k) % nb
  }

  /** The packets of k as the heavy part sees them. */
  function Matching(h: Hashes, nb: nat, stream: seq<Key>, k: Key): nat
    requires nb > 0
  {
    if stream == [] then 0
    else Matching(h, nb, stream[..|stream| - 1], k) + if Mates(h, nb, stream[|stream| - 1], k) then 1 else 0
  }

  /** Those among them that also share the light counter of k. */
  function Heard(h: Hashes, nb: nat, nc: nat, stream: seq<Key>, k: Key): nat
    requires nb > 0 && nc > 0
  {
    if stream == [] then 0
    else
      var x := stream[|stream| - 1];
      Heard(h, nb, nc, stream[..|stream| - 1], k)
      + if Mates(h, nb, x, k) && h.light(x) % nc == h.light(k) % nc then 1 else 0
  }

  lemma {:induction false} CountsNested(h: Hashes, nb: nat, nc: nat, stream: seq<Key>, k: Key)
    requires nb > 0 && nc > 0
    ensures TrueCount(stream, k) <= Heard(h, nb, nc, stream, k) <= Matching(h, nb, stream, k)
  {
    if stream != [] { CountsNested(h, nb, nc, stream[..|stream| - 1], k); }
  }

  /** For keys that survive a copy all three counts are the same. */
  lemma {:induction false} ProperCounts(h: Hashes, nb: nat, nc: nat, stream: seq<Key>, k: Key)
    requires nb > 0 && nc > 0 && Proper(k) && forall i :: 0 <= i < |stream| ==> Proper(stream[i])
    ensures TrueCount(stream, k) == Heard(h, nb, nc, stream, k) == Matching(h, nb, stream, k)
  {
    hide CopyString;
    if stream != [] { ProperCounts(h, nb, nc, stream[..|stream| - 1], k); }
  }

  /** What an eviction carries out goes to the counter that a query for k reads. */
  predicate SameLight(h: Hashes, nc: nat, k: Key)
    requires nc > 0
  {
    h.light(CopyString(k)) % nc == h.light(k) % nc
  }

  /** What the sketch knows of a key with a matching packets of which t were heard, from its
      bucket and light counter: exactly a packets when it is resident and unflagged, at least t
      between the two parts otherwise unless the counter is saturated, and none sent on while
      the bucket has room. */
  ghost predicate Knows(b: Bucket, light: uint8, key: Key, t: nat, a: nat) {
    var j := SlotOf(b, key);
    && t <= a
    && if j < MAX_VALID_COUNTER then
         if HighestBitIs1(b.val[j]) then
           GetCounterVal(b.val[j]) <= a && (t <= GetCounterVal(b.val[j]) + light || light == 255)
         else b.val[j] == a
       else (t <= light || light == 255) && (HasRoom(b) ==> a == 0)
  }

  /** Nothing is lost when the light counter grows. */
  lemma KnowsMore(b: Bucket, light: uint8, light': uint8, key: Key, t: nat, a: nat)
    requires Knows(b, light, key, t, a) && light <= light'
    ensures Knows(b, light', key, t, a)
  {
  }

  /** A slot keeps its key and value. */
  lemma SlotKept(b': Bucket, key: Key, j: nat)
    requires Sound(b') && Nonempty(key) && j < MAX_VALID_COUNTER && b'.key[j] == CopyString(key)
    ensures SlotOf(b', key) == j
  {
    hide FindKey, SameString, CopyString;
    SlotExact(b', key);
  }

  /** A packet of the key itself, or of one that the heavy part takes for it. */
  lemma KnowsInserted(b: Bucket, light: uint8, light': uint8, x: Key, k: Key, t: nat, t': nat, a: nat)
    requires Sound(b) && Nonempty(x) && Nonempty(k) && CopyString(x) == CopyString(k) && Resident(b) < LIMIT
    requires Knows(b, light, k, t, a) && t <= t' <= t + 1
    requires light <= light' && (BucketInsert(b, x, 1).result == 2 ==> light' >= Min255(light + t' - t))
    ensures Knows(BucketInsert(b, x, 1).bucket, light', k, t', a + 1)
  {
    hide BucketInsert, Sound, Resident, FindKey, SameString, CopyString, MinSlot;
    var o, j := BucketInsert(b, x, 1), SlotOf(b, x);
    SlotExact(b, x);
    SlotExact(b, k);
    CountUp(0);
    if j < MAX_VALID_COUNTER {
      MatchStep(b, x);
      SlotKept(o.bucket, k, j);
    } else if HasRoom(b) {
      RoomStep(b, x);
      SlotKept(o.bucket, k, FindKey(b.key, ZERO_KEY));
    } else if Guard(b) < 8 * MinCount(b) {
      VoteStep(b, x);
      assert SlotOf(o.bucket, k) == MAX_VALID_COUNTER && !HasRoom(o.bucket);
    } else {
      GuardBound(b);
      SwapStep(b, x);
      SlotKept(o.bucket, k, MinSlot(b.val, MAX_VALID_COUNTER));
    }
  }

  /** Any other key of the bucket that is not evicted. */
  lemma KnowsOther(b: Bucket, light: uint8, light': uint8, x: Key, k: Key, t: nat, a: nat)
    requires Sound(b) && Nonempty(x) && Nonempty(k) && CopyString(x) != CopyString(k) && Resident(b) < LIMIT
    requires Knows(b, light, k, t, a) && light <= light'
    requires BucketInsert(b, x, 1).result == 1 ==> BucketInsert(b, x, 1).swap_key != CopyString(k)
    ensures Knows(BucketInsert(b, x, 1).bucket, light', k, t, a)
  {
    hide BucketInsert, Sound, Resident, FindKey, SameString, CopyString, MinSlot;
    var o, j := BucketInsert(b, x, 1), SlotOf(b, k);
    SlotExact(b, x);
    SlotExact(b, k);
    InsertVotes(b, x);
    SlotExact(o.bucket, k);
    if SlotOf(b, x) < MAX_VALID_COUNTER {
      MatchStep(b, x);
    } else if HasRoom(b) {
      RoomStep(b, x);
    } else if Guard(b) < 8 * MinCount(b) {
      VoteStep(b, x);
    } else {
      GuardBound(b);
      SwapStep(b, x);
    }
    if j < MAX_VALID_COUNTER { SlotKept(o.bucket, k, j); }
  }

  /** The evicted key: what it held goes to its light counter. */
  lemma KnowsEvicted(b: Bucket, light: uint8, light': uint8, x: Key, k: Key, t: nat, a: nat)
    requires Sound(b) && Nonempty(x) && Nonempty(k) && CopyString(x) != CopyString(k) && Resident(b) < LIMIT
    requires Knows(b, light, k, t, a)
    requires var o := BucketInsert(b, x, 1);
             && o.result == 1 && o.swap_key == CopyString(k)
             && if HighestBitIs1(o.swap_val) then light' == Min255(light + GetCounterVal(o.swap_val))
                else light' >= Min255(o.swap_val) && light' >= light
    ensures Knows(BucketInsert(b, x, 1).bucket, light', k, t, a)
  {
    hide BucketInsert, Sound, Resident, FindKey, SameString, CopyString, MinSlot;
    var o, m := BucketInsert(b, x, 1), MinSlot(b.val, MAX_VALID_COUNTER);
    InsertVotes(b, x);
    SlotExact(b, k);
    SlotExact(b, x);
    if SlotOf(b, x) < MAX_VALID_COUNTER { MatchStep(b, x); assert false; }
    if HasRoom(b) { RoomStep(b, x); assert false; }
    if Guard(b) < 8 * MinCount(b) { VoteStep(b, x); assert false; }
    GuardBound(b);
    SwapStep(b, x);
    SlotExact(o.bucket, k);
    SlotKept(b, k, m);
  }

  /** Every run leaves every key known whose copy has the same light counter. */
  lemma {:induction false} RunKnows(h: Hashes, nb: nat, nc: nat, stream: seq<Key>, k: Key)
    requires nb > 0 && nc > 0 && Clean(h, nb, stream, h.heavy(k) % nb) && Nonempty(k) && SameLight(h, nc, k)
    ensures var s := Run(h, nb, nc, stream);
            Knows(s.buckets[HeavyPos(h, s, k)], s.counters[LightPos(h, s, k)], k, Heard(h, nb, nc, stream, k),
              Matching(h, nb, stream, k))
  {
    hide Knows, BucketInsert, Sound, Resident, FindKey, SameString, CopyString, MinSlot, Clean, Nonempty;
    if stream == [] {
      StartKnows(k);
    } else {
      var n := |stream| - 1;
      var before, x := stream[..n], stream[n];
      var s := Run(h, nb, nc, before);
      CleanBefore(h, nb, stream, h.heavy(k) % nb);
      RunKnows(h, nb, nc, before, k);
      if HeavyPos(h, s, x) == HeavyPos(h, s, k) { ReadyBucket(h, nb, nc, stream); }
      StepKnows(h, s, x, k, Heard(h, nb, nc, before, k), Matching(h, nb, before, k));
    }
  }

  lemma StartKnows(k: Key)
    requires Nonempty(k)
    ensures Knows(EMPTY_BUCKET, 0, k, 0, 0)
  {
    EmptyIsSound();
    SlotExact(EMPTY_BUCKET, k);
  }

  /** One insertion keeps a key known, whether it is of the inserted key, of one taken for it, of
      one that evicts it, or of any other. */
  lemma StepKnows(h: Hashes, s: State, x: Key, k: Key, t: nat, a: nat)
    requires Sized(s) && Nonempty(k) && SameLight(h, |s.counters|, k)
    requires var b := s.buckets[HeavyPos(h, s, k)];
             HeavyPos(h, s, x) == HeavyPos(h, s, k) ==> Nonempty(x) && Sound(b) && Resident(b) < LIMIT
    requires Knows(s.buckets[HeavyPos(h, s, k)], s.counters[LightPos(h, s, k)], k, t, a)
    ensures var r, mate := Inserted(h, s, x, 1), Mates(h, |s.buckets|, x, k);
            Knows(r.buckets[HeavyPos(h, s, k)], r.counters[LightPos(h, s, k)], k,
                  t + (if mate && LightPos(h, s, x) == LightPos(h, s, k) then 1 else 0), a + if mate then 1 else 0)
  {
    hide Knows, BucketInsert, Sound, Resident, FindKey, SameString, CopyString, MinSlot;
    var b := s.buckets[HeavyPos(h, s, x)];
    var o := BucketInsert(b, x, 1);
    var p := LightPos(h, s, k);
    var light, light' := s.counters[p], LightStep(h, s, x, o)[p];
    OneAtMost(b, x);
    LightGains(h, s, x, o);
    if HeavyPos(h, s, k) != HeavyPos(h, s, x) {
      KnowsMore(s.buckets[HeavyPos(h, s, k)], light, light', k, t, a);
    } else if CopyString(x) == CopyString(k) {
      KnowsInserted(b, light, light', x, k, t, t + if LightPos(h, s, x) == p then 1 else 0, a);
    } else if o.result == 1 && o.swap_key == CopyString(k) {
      KnowsEvicted(b, light, light', x, k, t, a);
    } else {
      KnowsOther(b, light, light', x, k, t, a);
    }
  }

  /** A query answers at least the packets heard of the key, and so at least its true count. */
  ghost predicate NoUnderestimate(h: Hashes, nb: nat, nc: nat, stream: seq<Key>, k: Key)
    requires nb > 0 && nc > 0
  {
    var s := Run(h, nb, nc, stream);
    Answer(h, s, k) >= TrueCount(stream, k) || s.counters[LightPos(h, s, k)] == 255
  }

  /** A query never answers less than what was heard of the key, hence than its true count,
      unless the light counter of the key is saturated; and for a resident key whose flag is
      clear it answers exactly the packets that the heavy part could take for the key. */
  lemma NeverUnderestimates(h: Hashes, nb: nat, nc: nat, stream: seq<Key>, k: Key)
    requires nb > 0 && nc > 0 && Clean(h, nb, stream, h.heavy(k) % nb) && Nonempty(k) && SameLight(h, nc, k)
    ensures NoUnderestimate(h, nb, nc, stream, k)
    ensures var s := Run(h, nb, nc, stream);
            var b := s.buckets[HeavyPos(h, s, k)];
            && (Answer(h, s, k) >= Heard(h, nb, nc, stream, k) || s.counters[LightPos(h, s, k)] == 255)
            && (SlotOf(b, k) < MAX_VALID_COUNTER && !HighestBitIs1(b.val[SlotOf(b, k)]) ==>
               Answer(h, s, k) == Matching(h, nb, stream, k))
  {
    hide FindKey, Knows, Sound, Run, CopyString, Clean;
    var s := Run(h, nb, nc, stream);
    var b := s.buckets[HeavyPos(h, s, k)];
    RunKnows(h, nb, nc, stream, k);
    VoteAccounting(h, nb, nc, stream, HeavyPos(h, s, k));
    CountsNested(h, nb, nc, stream, k);
    KnownAnswer(b, s.counters[LightPos(h, s, k)], k, Heard(h, nb, nc, stream, k), Matching(h, nb, stream, k));
  }

  /** What is known of a key shows in the answer. */
  lemma KnownAnswer(b: Bucket, light: uint8, k: Key, t: nat, a: nat)
    requires Sound(b) && Nonempty(k) && Knows(b, light, k, t, a)
    ensures Combine(BucketQuery(b, k), light) >= t || light == 255
    ensures SlotOf(b, k) < MAX_VALID_COUNTER && !HighestBitIs1(b.val[SlotOf(b, k)]) ==>
      Combine(BucketQuery(b, k), light) == a
  {
    hide FindKey, Sound, CopyString;
    ResidentPositive(b, k);
  }

  lemma ResidentPositive(b: Bucket, k: Key)
    requires Sound(b) && Nonempty(k)
    ensures SlotOf(b, k) < MAX_VALID_COUNTER ==> GetCounterVal(b.val[SlotOf(b, k)]) >= 1
  {
    hide FindKey, CopyString;
    SlotExact(b, k);
  }

  /** The heavy part takes no notice of the light hash. */
  lemma {:induction false} HeavyAlone(h: Hashes, h': Hashes, nb: nat, nc: nat, stream: seq<Key>)
    requires nb > 0 && nc > 0 && h.heavy == h'.heavy
    ensures Run(h, nb, nc, stream).buckets == Run(h', nb, nc, stream).buckets
  {
    hide BucketInsert;
    if stream != [] { HeavyAlone(h, h', nb, nc, stream[..|stream| - 1]); }
  }

  /** For every key, whatever its light counter: while its bucket has room, and for as long as it
      is resident with its flag clear, it is counted exactly as far as the heavy part can tell. */
  lemma HeavyExact(h: Hashes, nb: nat, nc: nat, stream: seq<Key>, k: Key)
    requires nb > 0 && nc > 0 && Clean(h, nb, stream, h.heavy(k) % nb) && Nonempty(k)
    ensures var s := Run(h, nb, nc, stream);
            var b := s.buckets[HeavyPos(h, s, k)];
            && (HasRoom(b) ==> BucketQuery(b, k) == Matching(h, nb, stream, k))
            && (SlotOf(b, k) < MAX_VALID_COUNTER && !HighestBitIs1(b.val[SlotOf(b, k)]) ==>
               Answer(h, s, k) == Matching(h, nb, stream, k))
  {
    hide FindKey, CopyString, Run, Sound, Matching, Knows, SlotOf, BucketQuery;
    var flat := Hashes(h.heavy, _ => 0);
    HeavyAlone(h, flat, nb, nc, stream);
    SameMatching(h, flat, nb, stream, k);
    SameArrived(h, flat, nb, stream, h.heavy(k) % nb);
    RunKnows(flat, nb, nc, stream, k);
    var s, s' := Run(h, nb, nc, stream), Run(flat, nb, nc, stream);
    var b := s.buckets[HeavyPos(h, s, k)];
    VoteAccounting(h, nb, nc, stream, HeavyPos(h, s, k));
    KnownExactly(b, s'.counters[LightPos(flat, s', k)], s.counters[LightPos(h, s, k)], k,
      Heard(flat, nb, nc, stream, k), Matching(h, nb, stream, k));
  }

  lemma {:induction false} SameArrived(h: Hashes, h': Hashes, nb: nat, stream: seq<Key>, i: nat)
    requires nb > 0 && h.heavy == h'.heavy
    ensures Arrived(h, nb, stream, i) == Arrived(h', nb, stream, i)
  {
    if stream != [] { SameArrived(h, h', nb, stream[..|stream| - 1], i); }
  }

  lemma KnownExactly(b: Bucket, light: uint8, other: uint8, k: Key, t: nat, a: nat)
    requires Sound(b) && Nonempty(k) && Knows(b, light, k, t, a)
    ensures HasRoom(b) ==> BucketQuery(b, k) == a
    ensures SlotOf(b, k) < MAX_VALID_COUNTER && !HighestBitIs1(b.val[SlotOf(b, k)]) ==>
      Combine(BucketQuery(b, k), other) == a
  {
    hide FindKey, CopyString;
    ResidentPositive(b, k);
  }

  lemma {:induction false} SameMatching(h: Hashes, h': Hashes, nb: nat, stream: seq<Key>, k: Key)
    requires nb > 0 && h.heavy == h'.heavy
    ensures Matching(h, nb, stream, k) == Matching(h', nb, stream, k)
  {
    if stream != [] { SameMatching(h, h', nb, stream[..|stream| - 1], k); }
  }

  /** In any state the compressed view answers at least as much as the counters themselves, unless
      its bytes are read as signed and the byte that is read stands for a negative number: then, and
      only then, it answers less. */
  lemma CompressedIff(h: Hashes, s: State, k: Key, width: nat, dst: seq<uint8>, signed: bool)
    requires Sized(s) && 0 < width <= |dst|
    requires forall i :: 0 <= i < width ==> IsClassMax(s.counters, width, i, dst[i])
    ensures var compressed, heavy := dst[LightPos(h, s, k) % width], BucketQuery(s.buckets[HeavyPos(h, s, k)], k);
            var answer := Combine(heavy, CharValue(signed, compressed));
            answer >= Answer(h, s, k) <==> !(signed && compressed >= 128 && ReadsLight(heavy))
  {
    hide FindKey, BucketQuery;
    CompressedCovers(s.counters, dst, width, LightPos(h, s, k));
  }

  /** So over a run it does not underestimate either, with that one exception. */
  lemma CompressedAnswer(h: Hashes, nb: nat, nc: nat, stream: seq<Key>, k: Key, width: nat, dst: seq<uint8>,
          signed: bool)
    requires nb > 0 && nc > 0 && Clean(h, nb, stream, h.heavy(k) % nb) && Nonempty(k) && SameLight(h, nc, k)
    requires 0 < width <= |dst|
    requires forall i :: 0 <= i < width ==> IsClassMax(Run(h, nb, nc, stream).counters, width, i, dst[i])
    ensures var s := Run(h, nb, nc, stream);
            var compressed, heavy := dst[LightPos(h, s, k) % width], BucketQuery(s.buckets[HeavyPos(h, s, k)], k);
            var answer := Combine(heavy, CharValue(signed, compressed));
            && (signed && compressed >= 128 && ReadsLight(heavy) ==> answer < Answer(h, s, k))
            && (!(signed && compressed >= 128 && ReadsLight(heavy)) ==>
                  answer >= Heard(h, nb, nc, stream, k) >= TrueCount(stream, k) || compressed == 255)
  {
    hide FindKey, Run, BucketQuery, Heard, TrueCount;
    var s := Run(h, nb, nc, stream);
    CompressedIff(h, s, k, width, dst, signed);
    CompressedCovers(s.counters, dst, width, LightPos(h, s, k));
    NeverUnderestimates(h, nb, nc, stream, k);
    CountsNested(h, nb, nc, stream, k);
  }
}
