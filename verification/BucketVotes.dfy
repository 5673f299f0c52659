/** What one unit insertion of a key that is not the empty string does to a bucket that holds fewer
    packets than a slot can count, so that neither the flag bit nor the shifted minimum wraps. */
module BucketVotes {
  import opened Words
  import opened Keys
  import opened HeavySketch

  const LIMIT: nat := 0x7FFF_FFFF  // the largest count of a slot, 2^31 - 1

  /** The counts of the first n slots, summed. */
  function SumCounts(val: seq<uint32>, n: nat): nat
    requires n <= |val|
  {
    if n == 0 then 0 else SumCounts(val, n - 1) + GetCounterVal(val[n - 1])
  }

  /** The packets a bucket holds for its resident keys. */
  function Resident(b: Bucket): nat {
    SumCounts(b.val, MAX_VALID_COUNTER)
  }

  function Guard(b: Bucket): uint32 {
    b.val[MAX_VALID_COUNTER]
  }

  function MinCount(b: Bucket): nat {
    GetCounterVal(b.val[MinSlot(b.val, MAX_VALID_COUNTER)])
  }

  ghost predicate HasRoom(b: Bucket) {
    exists j :: 0 <= j < MAX_VALID_COUNTER && b.key[j] == ZERO_KEY
  }

  /** Occupied slots hold distinct proper keys with a positive count, empty ones hold nothing;
      the guard never exceeds eight times the least count, and a bucket with room has no
      flagged slot. */
  ghost predicate Sound(b: Bucket) {
    && (forall j :: 0 <= j < MAX_VALID_COUNTER ==>
          if b.key[j] == ZERO_KEY then b.val[j] == 0 else Proper(b.key[j]) && GetCounterVal(b.val[j]) >= 1)
    && (forall j, k :: 0 <= j < k < MAX_VALID_COUNTER && b.key[j] == b.key[k] ==> b.key[j] == ZERO_KEY)
    && Guard(b) <= 8 * MinCount(b)
    && (HasRoom(b) ==> forall j :: 0 <= j < MAX_VALID_COUNTER ==> !HighestBitIs1(b.val[j]))
  }

  /** The slot of a key, or 7. */
  function SlotOf(b: Bucket, key: Key): (j: nat)
    ensures j <= MAX_VALID_COUNTER
  {
    FindKey(b.key, key)
  }

  lemma {:induction false} SumCountsUpdate(val: seq<uint32>, n: nat, j: nat, x: uint32)
    requires n <= |val| && j < |val|
    ensures SumCounts(val[j := x], n) ==
            SumCounts(val, n) + if j < n then GetCounterVal(x) - GetCounterVal(val[j]) else 0
  {
    if n > 0 { SumCountsUpdate(val, n - 1, j, x); }
  }

  lemma {:induction false} SumCountsCovers(val: seq<uint32>, n: nat, j: nat)
    requires j < n <= |val|
    ensures GetCounterVal(val[j]) <= SumCounts(val, n)
  {
    if j < n - 1 { SumCountsCovers(val, n - 1, j); }
  }

  lemma {:induction false} SumAtLeast(val: seq<uint32>, n: nat, c: nat)
    requires n <= |val| && forall j :: 0 <= j < n ==> c <= GetCounterVal(val[j])
    ensures n * c <= SumCounts(val, n)
  {
    hide GetCounterVal;
    if n > 0 { SumAtLeast(val, n - 1, c); }
  }

  /** The least count is at most a seventh of what the bucket holds. */
  lemma LeastShare(b: Bucket)
    ensures 7 * MinCount(b) <= Resident(b)
    ensures Resident(b) < LIMIT ==> 8 * MinCount(b) + 1 < WORD
  {
    hide GetCounterVal;
    SumAtLeast(b.val, MAX_VALID_COUNTER, MinCount(b));
  }

  lemma EmptyIsSound()
    ensures Sound(EMPTY_BUCKET) && Resident(EMPTY_BUCKET) == 0 && Guard(EMPTY_BUCKET) == 0 && HasRoom(EMPTY_BUCKET)
  {
    assert EMPTY_BUCKET.key[0] == ZERO_KEY;
    forall n | 0 <= n <= 8 ensures SumCounts(EMPTY_BUCKET.val, n) == 0 { SumZeros(EMPTY_BUCKET.val, n); }
  }

  lemma {:induction false} SumZeros(val: seq<uint32>, n: nat)
    requires n <= |val| && forall j :: 0 <= j < n ==> val[j] == 0
    ensures SumCounts(val, n) == 0
  {
    if n > 0 { SumZeros(val, n - 1); }
  }

  /** In a sound bucket the string search is a search for the copy of the key. */
  lemma SlotExact(b: Bucket, key: Key)
    requires Sound(b) && Nonempty(key)
    ensures Proper(CopyString(key)) && CopyString(key) != ZERO_KEY
    ensures var j, copy := SlotOf(b, key), CopyString(key);
            if j < MAX_VALID_COUNTER then
              b.key[j] == copy && forall k :: 0 <= k < MAX_VALID_COUNTER && b.key[k] == copy ==> k == j
            else forall k :: 0 <= k < MAX_VALID_COUNTER ==> b.key[k] != copy
  {
    CopyIsProper(key);
    StoredKeys(ZERO_KEY, key);
    forall k | 0 <= k < MAX_VALID_COUNTER ensures SameString(b.key[k], key) <==> b.key[k] == CopyString(key) {
      StoredKeys(b.key[k], key);
    }
  }

  lemma EmptyExact(b: Bucket)
    requires Sound(b)
    ensures var e := FindKey(b.key, ZERO_KEY);
            if e < MAX_VALID_COUNTER then b.key[e] == ZERO_KEY && HasRoom(b) else e == MAX_VALID_COUNTER && !HasRoom(b)
  {
    forall k | 0 <= k < MAX_VALID_COUNTER ensures SameString(b.key[k], ZERO_KEY) <==> b.key[k] == ZERO_KEY {
      if b.key[k] == ZERO_KEY { SameStringIsSameCopy(ZERO_KEY, ZERO_KEY); } else { ProperKeys(b.key[k], ZERO_KEY); }
    }
  }

  /** A key that is resident gets one more packet. */
  lemma MatchStep(b: Bucket, key: Key)
    requires Sound(b) && Nonempty(key) && Resident(b) < LIMIT && SlotOf(b, key) < MAX_VALID_COUNTER
    ensures var o, j := BucketInsert(b, key, 1), SlotOf(b, key);
            && b.val[j] + 1 < WORD && o.result == 0 && o.bucket == BucketData(b.key, b.val[j := b.val[j] + 1])
            && Sound(o.bucket) && Resident(o.bucket) == Resident(b) + 1 && Guard(o.bucket) == Guard(b)
            && GetCounterVal(b.val[j] + 1) == GetCounterVal(b.val[j]) + 1
            && (HighestBitIs1(b.val[j] + 1) <==> HighestBitIs1(b.val[j]))
  {
    hide SameString, CopyString, FindKey, MinSlot, SumCounts;
    hide GetCounterVal, HighestBitIs1, Sound;
    var j := SlotOf(b, key);
    CountUp(b.val[j]);
    SlotExact(b, key);
    assert b.key[j] != ZERO_KEY;
    SumCountsCovers(b.val, MAX_VALID_COUNTER, j);
    SumCountsUpdate(b.val, MAX_VALID_COUNTER, j, b.val[j] + 1);
    RaiseSlot(b, j);
  }

  /** One more packet in an occupied slot keeps a bucket sound. */
  lemma RaiseSlot(b: Bucket, j: nat)
    requires Sound(b) && j < MAX_VALID_COUNTER && b.key[j] != ZERO_KEY && GetCounterVal(b.val[j]) + 1 < FLAG
    ensures b.val[j] + 1 < WORD && Sound(BucketData(b.key, b.val[j := b.val[j] + 1]))
  {
    hide HasRoom, MinSlot, MinCount, GetCounterVal, HighestBitIs1, Proper;
    CountUp(b.val[j]);
    RaiseLeast(b, j);
    SameRoom(BucketData(b.key, b.val[j := b.val[j] + 1]), b);
  }

  lemma RaiseLeast(b: Bucket, j: nat)
    requires j < MAX_VALID_COUNTER && GetCounterVal(b.val[j]) + 1 < FLAG
    ensures b.val[j] + 1 < WORD && MinCount(BucketData(b.key, b.val[j := b.val[j] + 1])) >= MinCount(b)
  {
    hide MinSlot, GetCounterVal;
    CountUp(b.val[j]);
    MinGrows(b.val, b.val[j := b.val[j] + 1]);
  }

  lemma SameRoom(r: Bucket, b: Bucket)
    requires r.key == b.key
    ensures HasRoom(r) <==> HasRoom(b)
  {
  }

  /** Adding one below the flag bit leaves the flag alone. */
  lemma CountUp(v: uint32)
    ensures GetCounterVal(v) + 1 < FLAG ==>
              v + 1 < WORD && GetCounterVal(v + 1) == GetCounterVal(v) + 1 &&
                (HighestBitIs1(v + 1) <==> HighestBitIs1(v))
    ensures GetCounterVal(0) == 0 && GetCounterVal(1) == 1 && GetCounterVal(FLAG + 1) == 1
    ensures !HighestBitIs1(0) && !HighestBitIs1(1) && HighestBitIs1(FLAG + 1)
  {
  }

  /** Counts that only grow do not lower the least count. */
  lemma MinGrows(val: seq<uint32>, val': seq<uint32>)
    requires |val| == |val'| == COUNTER_PER_BUCKET
    requires forall j :: 0 <= j < MAX_VALID_COUNTER ==> GetCounterVal(val[j]) <= GetCounterVal(val'[j])
    ensures GetCounterVal(val[MinSlot(val, MAX_VALID_COUNTER)]) <= GetCounterVal(val'[MinSlot(val', MAX_VALID_COUNTER)])
  {
    var m := MinSlot(val', MAX_VALID_COUNTER);
    assert GetCounterVal(val[MinSlot(val, MAX_VALID_COUNTER)]) <= GetCounterVal(val[m]);
  }

  /** A new key takes an empty slot. */
  lemma RoomStep(b: Bucket, key: Key)
    requires Sound(b) && Nonempty(key) && Resident(b) < LIMIT && SlotOf(b, key) == MAX_VALID_COUNTER && HasRoom(b)
    ensures var o, e := BucketInsert(b, key, 1), FindKey(b.key, ZERO_KEY);
            && e < MAX_VALID_COUNTER && b.key[e] == ZERO_KEY
            && o.result == 0 && o.bucket == BucketData(b.key[e := CopyString(key)], b.val[e := 1])
            && Sound(o.bucket) && Resident(o.bucket) == Resident(b) + 1 && Guard(o.bucket) == Guard(b) == 0
  {
    hide Sound, CopyString, FindKey, MinSlot, SumCounts, Guard;
    var e := FindKey(b.key, ZERO_KEY);
    EmptyExact(b);
    EmptySlot(b, e);
    CountUp(0);
    SumCountsUpdate(b.val, MAX_VALID_COUNTER, e, 1);
    RoomSound(b, key, e);
  }

  lemma EmptySlot(b: Bucket, e: nat)
    requires Sound(b) && e < MAX_VALID_COUNTER && b.key[e] == ZERO_KEY
    ensures b.val[e] == 0 && Guard(b) == 0
  {
    hide MinSlot;
    assert MinCount(b) <= GetCounterVal(b.val[e]) == 0;
  }

  /** A key with one packet in an empty slot leaves a bucket sound. */
  lemma RoomSound(b: Bucket, key: Key, e: nat)
    requires Sound(b) && Nonempty(key) && SlotOf(b, key) == MAX_VALID_COUNTER && e < MAX_VALID_COUNTER &&
      b.key[e] == ZERO_KEY
    ensures Sound(BucketData(b.key[e := CopyString(key)], b.val[e := 1]))
    ensures Guard(BucketData(b.key[e := CopyString(key)], b.val[e := 1])) == Guard(b)
  {
    hide SameString, CopyString, FindKey, MinCount;
    SlotExact(b, key);
    EmptySlot(b, e);
    assert HasRoom(b);
  }

  /** A new key in a full bucket casts a vote against the least resident ... */
  lemma VoteStep(b: Bucket, key: Key)
    requires Sound(b) && Nonempty(key) && Resident(b) < LIMIT && SlotOf(b, key) == MAX_VALID_COUNTER && !HasRoom(b)
    requires Guard(b) < 8 * MinCount(b)
    ensures var o := BucketInsert(b, key, 1);
            && o.result == 2 && Guard(b) + 1 < WORD
            && o.bucket == BucketData(b.key, b.val[MAX_VALID_COUNTER := Guard(b) + 1])
            && Sound(o.bucket) && Resident(o.bucket) == Resident(b)
  {
    hide Sound, HasRoom, BucketInsert, FindKey, MinSlot, MinCount, SumCounts, GetCounterVal;
    EmptyExact(b);
    LeastShare(b);
    SumCountsUpdate(b.val, MAX_VALID_COUNTER, MAX_VALID_COUNTER, Guard(b) + 1);
    VoteOutcome(b, key);
    VoteSound(b);
  }

  /** The comparison goes in favour of the least resident. */
  lemma VoteOutcome(b: Bucket, key: Key)
    requires SlotOf(b, key) == FindKey(b.key, ZERO_KEY) == MAX_VALID_COUNTER
    requires Guard(b) < 8 * MinCount(b) && 8 * MinCount(b) + 1 < WORD
    ensures Guard(b) + 1 < WORD
    ensures BucketInsert(b, key, 1) ==
      Outcome(BucketData(b.key, b.val[MAX_VALID_COUNTER := Guard(b) + 1]), 2, ZERO_KEY, 0)
  {
    hide CopyString, FindKey, MinSlot, GetCounterVal;
    GuardStays(Guard(b), MinCount(b));
  }

  lemma GuardStays(guard: uint32, count: nat)
    requires guard < 8 * count && 8 * count + 1 < WORD
    ensures (guard + 1) % WORD == guard + 1 <= count * 8 == count * 8 % WORD
  {
  }

  /** One more vote keeps a bucket sound while the guard stays within its bound. */
  lemma VoteSound(b: Bucket)
    requires Sound(b) && Guard(b) < 8 * MinCount(b) && Guard(b) + 1 < WORD
    ensures Sound(BucketData(b.key, b.val[MAX_VALID_COUNTER := Guard(b) + 1]))
  {
    hide HasRoom, MinSlot, GetCounterVal, HighestBitIs1, Proper;
    var r := BucketData(b.key, b.val[MAX_VALID_COUNTER := Guard(b) + 1]);
    MinGrows(b.val, r.val);
    SameRoom(r, b);
  }

  /** A swapped-in key with one packet and the flag leaves a full bucket sound. */
  lemma SwapSound(b: Bucket, key: Key, m: nat)
    requires Sound(b) && Nonempty(key) && SlotOf(b, key) == MAX_VALID_COUNTER && !HasRoom(b) && m < MAX_VALID_COUNTER
    ensures Sound(Swapped(b, key, m)) && !HasRoom(Swapped(b, key, m)) && Guard(Swapped(b, key, m)) == 0
    ensures Proper(b.key[m])
  {
    hide SameString, CopyString, FindKey, MinSlot, HighestBitIs1, Proper;
    SlotExact(b, key);
    CountUp(0);
    hide GetCounterVal;
    var r := Swapped(b, key, m);
    assert forall j :: 0 <= j < MAX_VALID_COUNTER ==>
      r.key[j] != ZERO_KEY && Proper(r.key[j]) && GetCounterVal(r.val[j]) >= 1;
    assert forall j, k :: 0 <= j < k < MAX_VALID_COUNTER ==> r.key[j] != r.key[k];
  }

  /** The bucket after an eviction from slot m. */
  function Swapped(b: Bucket, key: Key, m: nat): Bucket
    requires m < MAX_VALID_COUNTER
  {
    BucketData(b.key[m := CopyString(key)], b.val[MAX_VALID_COUNTER := 0][m := FLAG + 1])
  }

  lemma SwapResident(b: Bucket, key: Key, m: nat)
    requires m < MAX_VALID_COUNTER
    ensures Resident(Swapped(b, key, m)) == Resident(b) - GetCounterVal(b.val[m]) + 1
  {
    CountUp(0);
    hide SumCounts, GetCounterVal, CopyString;
    SumCountsUpdate(b.val, MAX_VALID_COUNTER, MAX_VALID_COUNTER, 0);
    SumCountsUpdate(b.val[MAX_VALID_COUNTER := 0], MAX_VALID_COUNTER, m, FLAG + 1);
  }

  /** The comparison goes against the least resident. */
  lemma SwapOutcome(b: Bucket, key: Key)
    requires SlotOf(b, key) == FindKey(b.key, ZERO_KEY) == MAX_VALID_COUNTER
    requires Guard(b) == 8 * MinCount(b) && 8 * MinCount(b) + 1 < WORD
    ensures var m := MinSlot(b.val, MAX_VALID_COUNTER);
            BucketInsert(b, key, 1) == Outcome(Swapped(b, key, m), 1, CopyString(b.key[m]), b.val[m])
  {
    hide CopyString, FindKey, MinSlot, GetCounterVal;
    GuardExceeds(Guard(b), MinCount(b));
  }

  lemma GuardExceeds(guard: uint32, count: nat)
    requires guard == 8 * count && 8 * count + 1 < WORD
    ensures (guard + 1) % WORD == guard + 1 > guard == count * 8 % WORD
  {
  }

  /** ... and the vote that exceeds eight times its count evicts it: then the guard stood at
      exactly eight times the count that is carried out. */
  lemma SwapStep(b: Bucket, key: Key)
    requires Sound(b) && Nonempty(key) && Resident(b) < LIMIT && SlotOf(b, key) == MAX_VALID_COUNTER && !HasRoom(b)
    requires Guard(b) == 8 * MinCount(b)
    ensures var o, m := BucketInsert(b, key, 1), MinSlot(b.val, MAX_VALID_COUNTER);
            && o.result == 1 && o.swap_key == b.key[m] && Proper(o.swap_key) && o.swap_val == b.val[m]
            && o.bucket == Swapped(b, key, m)
            && Sound(o.bucket) && !HasRoom(o.bucket) && Guard(o.bucket) == 0
            && Resident(o.bucket) == Resident(b) - MinCount(b) + 1
  {
    var m := MinSlot(b.val, MAX_VALID_COUNTER);
    EmptyExact(b);
    SwapSound(b, key, m);
    SwapResident(b, key, m);
    LeastShare(b);
    hide Sound, HasRoom, BucketInsert, Swapped, CopyString, FindKey, MinSlot, SumCounts, GetCounterVal;
    SwapOutcome(b, key);
  }
  // ----- any key, in any bucket -----

  /** What holds of the guard whatever the keys: it is at most eight times the least count, and 0
      while a new key would take a slot. */
  ghost predicate Bounded(b: Bucket) {
    Guard(b) <= 8 * MinCount(b) && (FindKey(b.key, ZERO_KEY) < MAX_VALID_COUNTER ==> Guard(b) == 0)
  }

  /** The packets counted in the slot that a new key takes; they are lost. */
  function Overwritten(b: Bucket, key: Key): nat {
    var e := FindKey(b.key, ZERO_KEY);
    if SlotOf(b, key) == MAX_VALID_COUNTER && e < MAX_VALID_COUNTER then GetCounterVal(b.val[e]) else 0
  }

  /** What a unit insertion of any key may do to a bucket. */
  ghost predicate Counted(b: Bucket, key: Key, o: Outcome) {
    && Bounded(o.bucket)
    && (o.result != 0 ==> Overwritten(b, key) == 0)
    && match o.result
       case 0 => Resident(o.bucket) + Overwritten(b, key) == Resident(b) + 1 && Guard(o.bucket) == Guard(b)
       case 1 => Resident(o.bucket) == Resident(b) - GetCounterVal(o.swap_val) + 1
                 && Guard(b) == 8 * GetCounterVal(o.swap_val) && Guard(o.bucket) == 0
       case 2 => Resident(o.bucket) == Resident(b) && Guard(o.bucket) == Guard(b) + 1
       case _ => false
  }

  lemma AnyInsertion(b: Bucket, key: Key)
    requires Bounded(b) && Resident(b) < LIMIT
    ensures Counted(b, key, BucketInsert(b, key, 1))
  {
    hide BucketInsert, Counted, Bounded, FindKey, Resident, MinCount, Guard;
    if SlotOf(b, key) < MAX_VALID_COUNTER {
      AnyMatch(b, key);
    } else if FindKey(b.key, ZERO_KEY) < MAX_VALID_COUNTER {
      AnyRoom(b, key);
    } else {
      AnyVote(b, key);
    }
  }

  lemma AnyMatch(b: Bucket, key: Key)
    requires Bounded(b) && Resident(b) < LIMIT && SlotOf(b, key) < MAX_VALID_COUNTER
    ensures Counted(b, key, BucketInsert(b, key, 1))
  {
    hide CopyString, FindKey, MinSlot, SumCounts, GetCounterVal, MinCount;
    var j := SlotOf(b, key);
    SumCountsCovers(b.val, MAX_VALID_COUNTER, j);
    CountUp(b.val[j]);
    SumCountsUpdate(b.val, MAX_VALID_COUNTER, j, b.val[j] + 1);
    RaiseLeast(b, j);
  }

  lemma AnyRoom(b: Bucket, key: Key)
    requires Bounded(b) && SlotOf(b, key) == MAX_VALID_COUNTER && FindKey(b.key, ZERO_KEY) < MAX_VALID_COUNTER
    ensures Counted(b, key, BucketInsert(b, key, 1))
  {
    hide CopyString, FindKey, MinSlot, SumCounts, GetCounterVal, MinCount;
    CountUp(0);
    SumCountsUpdate(b.val, MAX_VALID_COUNTER, FindKey(b.key, ZERO_KEY), 1);
  }

  /** In a full bucket every new key votes, and the vote above eight times the least count evicts. */
  lemma AnyVote(b: Bucket, key: Key)
    requires Bounded(b) && Resident(b) < LIMIT
    requires SlotOf(b, key) == FindKey(b.key, ZERO_KEY) == MAX_VALID_COUNTER
    ensures var o, m := BucketInsert(b, key, 1), MinSlot(b.val, MAX_VALID_COUNTER);
            && Counted(b, key, o)
            && if Guard(b) < 8 * MinCount(b)
               then o.result == 2 && o.bucket == BucketData(b.key, b.val[MAX_VALID_COUNTER := (Guard(b) + 1) % WORD])
               else o == Outcome(Swapped(b, key, m), 1, CopyString(b.key[m]), b.val[m])
  {
    hide BucketInsert, CopyString, FindKey, MinSlot, SumCounts, GetCounterVal;
    LeastShare(b);
    if Guard(b) < 8 * MinCount(b) {
      VoteOutcome(b, key);
      SumCountsUpdate(b.val, MAX_VALID_COUNTER, MAX_VALID_COUNTER, Guard(b) + 1);
      MinGrows(b.val, b.val[MAX_VALID_COUNTER := Guard(b) + 1]);
    } else {
      SwapOutcome(b, key);
      SwapResident(b, key, MinSlot(b.val, MAX_VALID_COUNTER));
    }
  }

  /** An insertion of weight f >= 1 of a key that is resident or finds a free slot is f insertions of
      weight 1; in a full bucket any weight is one vote. */
  lemma WeightIsRepeated(b: Bucket, key: Key, f: uint32)
    requires 1 <= f && f + 1 < WORD
    ensures if SlotOf(b, key) < MAX_VALID_COUNTER || FindKey(b.key, ZERO_KEY) < MAX_VALID_COUNTER
            then BucketInsert(b, key, f + 1) == BucketInsert(BucketInsert(b, key, f).bucket, key, 1)
            else BucketInsert(b, key, f) == BucketInsert(b, key, 1)
  {
    var j, e := SlotOf(b, key), FindKey(b.key, ZERO_KEY);
    hide MinSlot, CopyString, SameString, FindKey;
    if j < MAX_VALID_COUNTER {
      AddWraps(b.val[j], f);
      assert b.val[j := (b.val[j] + f) % WORD][j := (b.val[j] + f + 1) % WORD] == b.val[j := (b.val[j] + f + 1) % WORD];
    } else if e < MAX_VALID_COUNTER {
      FoundWhereStored(b.key, e, key);
      assert b.val[e := f][e := f + 1] == b.val[e := f + 1];
    }
  }

  lemma AddWraps(v: uint32, f: uint32)
    ensures ((v + f) % WORD + 1) % WORD == (v + (f + 1)) % WORD
  {
  }

  /** A new key is found again in the slot that it takes. */
  lemma FoundWhereStored(keys: seq<Key>, e: nat, key: Key)
    requires e < |keys| && FindKey(keys, key) == |keys|
    ensures FindKey(keys[e := CopyString(key)], key) == e
  {
    CopyTwice(key);
    SameStringIsSameCopy(CopyString(key), key);
    var stored := keys[e := CopyString(key)];
    hide CopyString, SameString;
    assert SameString(stored[e], key);
    assert forall k :: 0 <= k < |keys| ==> !SameString(keys[k], key);
  }

  /** Nothing but the copy of the inserted key is ever stored. */
  lemma InsertKeys(b: Bucket, key: Key)
    ensures forall j :: 0 <= j < MAX_VALID_COUNTER ==>
      BucketInsert(b, key, 1).bucket.key[j] in {b.key[j], CopyString(key)}
  {
    hide FindKey, MinSlot, CopyString, SameString;
  }

  /** A sound bucket is bounded, and a new key that is not empty overwrites nothing in it. */
  lemma SoundIsBounded(b: Bucket, key: Key)
    requires Sound(b)
    ensures Bounded(b) && Overwritten(b, key) == 0
  {
    hide Sound, FindKey, MinSlot, GetCounterVal, MinCount, Guard;
    CountUp(0);
    EmptyExact(b);
    GuardBound(b);
    var e := FindKey(b.key, ZERO_KEY);
    if e < MAX_VALID_COUNTER { EmptySlot(b, e); }
  }

  lemma GuardBound(b: Bucket)
    requires Sound(b)
    ensures Guard(b) <= 8 * MinCount(b)
  {
  }

  lemma EmptyIsBounded()
    ensures Bounded(EMPTY_BUCKET)
  {
    EmptyIsSound();
    SoundIsBounded(EMPTY_BUCKET, ZERO_KEY);
  }
}
