/** Keys that do not survive a string copy.  The heavy part stores the copy of a key, and when it
    evicts one the packets go to the light counter of the copy; a query reads the light counter
    of the key itself. */
module SketchStrings {
  import opened Words
  import opened Keys
  import opened HeavySketch
  import opened ElasticModel
  import opened BucketVotes
  import opened SketchRuns
  import opened SketchEstimates

  /** One bucket, and a light counter of its own for k. */
  function Apart(k: Key): Hashes {
    Hashes(_ => 0, x => if x == k then 0 else 1)
  }

  /** A one-byte string; k does not begin with it. */
  function Other(k: Key, i: nat): (x: Key)
    requires i < 7
    ensures Proper(x) && x[0] != k[0]
  {
    CopyZeros(12);
    var b: uint8 := if i + 1 < k[0] then i + 1 else i + 2;
    var x: Key := [b] + seq(12, _ => 0);
    assert x[1..] == seq(12, _ => 0);
    x
  }

  lemma OthersDiffer(k: Key, i: nat, j: nat)
    requires i < j < 7
    ensures Other(k, i) != Other(k, j)
  {
    assert Other(k, i)[0] != Other(k, j)[0];
  }

  /** The bucket after one packet of k and one of each of n other keys; v votes were cast. */
  ghost predicate Filled(b: Bucket, k: Key, n: nat, v: nat)
    requires n <= 6
  {
    && (forall j :: 0 <= j < MAX_VALID_COUNTER ==>
          b.key[j] == (if j == 0 then CopyString(k) else if j <= n then Other(k, j - 1) else ZERO_KEY))
    && (forall j :: 0 <= j < MAX_VALID_COUNTER ==> b.val[j] == if j <= n then 1 else 0)
    && Guard(b) == v
  }

  /** Such a bucket is sound. */
  lemma FilledSound(b: Bucket, k: Key, n: nat, v: nat)
    requires n <= 6 && v <= 8 && (v > 0 ==> n == 6) && Nonempty(k) && Filled(b, k, n, v)
    ensures Sound(b) && Resident(b) == n + 1
  {
    hide Other, CopyString, MinSlot, GetCounterVal, HighestBitIs1, SumCounts;
    CountUp(0);
    CopyIsProper(k);
    StoredKeys(ZERO_KEY, k);
    FilledDistinct(b, k, n, v);
    FilledRoom(b, k, n, v);
    var m := MinSlot(b.val, MAX_VALID_COUNTER);
    assert n == 6 ==> b.val[m] == 1;
    SumOnes(b.val, n + 1, MAX_VALID_COUNTER);
  }

  lemma {:induction false} SumOnes(val: seq<uint32>, ones: nat, n: nat)
    requires n <= |val| && ones <= n && forall j :: 0 <= j < n ==> val[j] == if j < ones then 1 else 0
    ensures SumCounts(val, n) == ones
  {
    CountUp(0);
    hide GetCounterVal;
    if n > 0 { SumOnes(val, if ones == n then n - 1 else ones, n - 1); }
  }

  lemma FilledDistinct(b: Bucket, k: Key, n: nat, v: nat)
    requires n <= 6 && Nonempty(k) && Filled(b, k, n, v)
    ensures forall i, j :: 0 <= i < j < MAX_VALID_COUNTER && b.key[i] == b.key[j] ==> b.key[i] == ZERO_KEY
  {
    hide Other, CopyString, Guard;
    forall i, j | 0 <= i < j <= n ensures b.key[i] != b.key[j] {
      OtherIsNew(k, j - 1);
      assert b.key[j] == Other(k, j - 1) && b.key[i] == if i == 0 then CopyString(k) else Other(k, i - 1);
    }
  }

  /** y votes against k: it is a seventh other key, or one that begins with a zero byte. */
  ghost predicate Voter(k: Key, y: Key) {
    y == Other(k, 6) || !Nonempty(y)
  }

  /** The stream that fills the bucket and then casts v votes of y against k. */
  function Filling(k: Key, y: Key, n: nat, v: nat): (stream: seq<Key>)
    requires n <= 6
    ensures |stream| == n + v + 1
  {
    if v > 0 then Filling(k, y, n, v - 1) + [y]
    else if n > 0 then Filling(k, y, n - 1, 0) + [Other(k, n - 1)]
    else [k]
  }

  lemma OneCount(k: Key)
    ensures TrueCount([k], k) == 1
  {
    TrueCountMore([], k, k);
    assert [] + [k] == [k];
  }

  lemma {:induction false} FillingCount(k: Key, y: Key, n: nat, v: nat)
    requires n <= 6 && y != k
    ensures TrueCount(Filling(k, y, n, v), k) == 1
  {
    hide CopyString, TrueCount;
    if v > 0 {
      FillingCount(k, y, n, v - 1);
      TrueCountMore(Filling(k, y, n, v - 1), y, k);
    } else if n > 0 {
      FillingCount(k, y, n - 1, 0);
      TrueCountMore(Filling(k, y, n - 1, 0), Other(k, n - 1), k);
    } else {
      OneCount(k);
    }
  }

  lemma {:induction false} FillingKeys(k: Key, y: Key, n: nat, v: nat)
    requires n <= 6 && Nonempty(k)
    ensures forall x :: x in Filling(k, y, n, v) ==> Nonempty(x) || x == y
  {
    hide Other;
    if v > 0 {
      FillingKeys(k, y, n, v - 1);
    } else if n > 0 {
      FillingKeys(k, y, n - 1, 0);
    }
  }

  /** A key that has not been inserted is not found. */
  lemma FilledMisses(b: Bucket, k: Key, n: nat, v: nat, x: Key)
    requires n <= 6 && Filled(b, k, n, v) && Sound(b) && Nonempty(x)
    requires CopyString(x) != CopyString(k) && forall i :: 0 <= i < n ==> CopyString(x) != Other(k, i)
    ensures SlotOf(b, x) == MAX_VALID_COUNTER
  {
    hide Other, CopyString, FindKey, Sound, Guard;
    SlotExact(b, x);
    forall j | 0 <= j < MAX_VALID_COUNTER ensures b.key[j] != CopyString(x) {
      if 0 < j <= n { assert b.key[j] == Other(k, j - 1); }
    }
  }

  lemma FilledRoom(b: Bucket, k: Key, n: nat, v: nat)
    requires n <= 6 && Filled(b, k, n, v) && Nonempty(k)
    ensures HasRoom(b) <==> n < 6
  {
    hide Other, CopyString, Guard;
    if n < 6 { assert b.key[6] == ZERO_KEY; }
    StoredKeys(ZERO_KEY, k);
    forall j | 0 < j <= n ensures b.key[j] != ZERO_KEY { ProperKeys(Other(k, j - 1), ZERO_KEY); }
  }

  lemma FilledLeast(b: Bucket, k: Key, v: nat)
    requires Filled(b, k, 6, v)
    ensures MinCount(b) == 1 && MinSlot(b.val, MAX_VALID_COUNTER) == 0
  {
    hide Other, CopyString, MinSlot;
    CountUp(0);
    var m := MinSlot(b.val, MAX_VALID_COUNTER);
    assert b.val[m] == 1 && b.val[0] == 1;
  }

  lemma FirstPacket(k: Key)
    requires Nonempty(k)
    ensures var o := BucketInsert(EMPTY_BUCKET, k, 1); o.result == 0 && Filled(o.bucket, k, 0, 0)
  {
    EmptyIsSound();
    SlotExact(EMPTY_BUCKET, k);
    RoomStep(EMPTY_BUCKET, k);
    FirstSlotEmpty();
  }

  lemma OtherIsNew(k: Key, i: nat)
    requires i < 7 && Nonempty(k)
    ensures CopyString(Other(k, i)) == Other(k, i) != CopyString(k)
    ensures forall j :: 0 <= j < i ==> Other(k, i) != Other(k, j)
  {
    assert CopyString(k)[0] == k[0];
    forall j | 0 <= j < i ensures Other(k, i) != Other(k, j) { OthersDiffer(k, j, i); }
  }

  lemma FillOne(b: Bucket, k: Key, n: nat)
    requires n < 6 && Filled(b, k, n, 0) && Nonempty(k)
    ensures var o := BucketInsert(b, Other(k, n), 1); o.result == 0 && Filled(o.bucket, k, n + 1, 0)
  {
    hide Other, CopyString, BucketInsert, FindKey, MinSlot, Sound, Resident, Filled, HasRoom, SlotOf;
    FilledSound(b, k, n, 0);
    OtherIsNew(k, n);
    FilledMisses(b, k, n, 0, Other(k, n));
    FilledRoom(b, k, n, 0);
    FirstEmpty(b, k, n);
    RoomStep(b, Other(k, n));
    FilledMore(b, k, n);
  }

  lemma FilledMore(b: Bucket, k: Key, n: nat)
    requires n < 6 && Filled(b, k, n, 0)
    ensures Filled(BucketData(b.key[n + 1 := Other(k, n)], b.val[n + 1 := 1]), k, n + 1, 0)
  {
    hide Other, CopyString;
  }

  lemma FirstEmpty(b: Bucket, k: Key, n: nat)
    requires n < 6 && Filled(b, k, n, 0) && Sound(b) && Nonempty(k)
    ensures FindKey(b.key, ZERO_KEY) == n + 1
  {
    hide Other, CopyString;
    SlotExact(b, k);
    SameStringIsSameCopy(ZERO_KEY, ZERO_KEY);
    forall j | 0 <= j <= n ensures !SameString(b.key[j], ZERO_KEY) {
      ProperKeys(b.key[j], ZERO_KEY);
    }
    assert b.key[n + 1] == ZERO_KEY && SameString(b.key[n + 1], ZERO_KEY);
  }

  /** In the full bucket a voter is found nowhere, not even as an empty slot. */
  lemma VoterMisses(b: Bucket, k: Key, y: Key, v: nat)
    requires v <= 8 && Filled(b, k, 6, v) && Voter(k, y) && Nonempty(k)
    ensures SlotOf(b, y) == FindKey(b.key, ZERO_KEY) == MAX_VALID_COUNTER && y != k
    ensures Sound(b) && Resident(b) < LIMIT && Bounded(b)
  {
    hide Other, CopyString, FindKey, Sound, Resident;
    FilledSound(b, k, 6, v);
    SoundIsBounded(b, y);
    FilledRoom(b, k, 6, v);
    EmptyExact(b);
    OtherIsNew(k, 6);
    if Nonempty(y) { FilledMisses(b, k, 6, v, y); } else { SameSearch(b.key, y); }
  }

  lemma VoteAgainst(b: Bucket, k: Key, y: Key, v: nat)
    requires v < 8 && Filled(b, k, 6, v) && Voter(k, y) && Nonempty(k)
    ensures var o := BucketInsert(b, y, 1); o.result == 2 && Filled(o.bucket, k, 6, v + 1)
  {
    hide Other, CopyString, BucketInsert, FindKey, MinSlot, Sound, Resident, Bounded, Voter, Counted;
    VoterMisses(b, k, y, v);
    FilledLeast(b, k, v);
    AnyVote(b, y);
  }

  /** The ninth vote evicts k. */
  lemma EvictedNow(b: Bucket, k: Key, y: Key)
    requires Filled(b, k, 6, 8) && Voter(k, y) && Nonempty(k)
    ensures BucketInsert(b, y, 1) == Outcome(Swapped(b, y, 0), 1, CopyString(k), 1)
  {
    hide Other, CopyString, BucketInsert, FindKey, MinSlot, Sound, Resident, Bounded, Voter, Counted;
    VoterMisses(b, k, y, 8);
    FilledLeast(b, k, 8);
    AnyVote(b, y);
    CopyTwice(k);
  }

  /** The bucket after n others and v votes; nothing has reached the light counter of k. */
  ghost predicate Reached(k: Key, s: State, n: nat, v: nat)
    requires n <= 6
  {
    |s.buckets| == 1 && |s.counters| == 2 && s.counters[0] == 0 && Filled(s.buckets[0], k, n, v)
  }

  lemma ReachNext(k: Key, s: State, x: Key, n: nat, v: nat)
    requires n <= 6 && |s.buckets| == 1 && |s.counters| == 2 && s.counters[0] == 0
    requires var o := BucketInsert(s.buckets[0], x, 1);
             Filled(o.bucket, k, n, v) && (o.result == 0 || (o.result == 2 && x != k))
    ensures Reached(k, Inserted(Apart(k), s, x, 1), n, v)
  {
    hide BucketInsert, Filled;
  }

  lemma {:induction false} FillingRun(k: Key, y: Key, n: nat, v: nat)
    requires n <= 6 && v <= 8 && (v > 0 ==> n == 6) && Nonempty(k) && Voter(k, y)
    ensures Reached(k, Run(Apart(k), 1, 2, Filling(k, y, n, v)), n, v)
    decreases n + v
  {
    hide BucketInsert, Other, Voter, Run, Apart, Inserted, Filled;
    if v > 0 {
      FillingRun(k, y, n, v - 1);
      var s := Run(Apart(k), 1, 2, Filling(k, y, n, v - 1));
      RunSnoc(Apart(k), 1, 2, Filling(k, y, n, v - 1), y);
      VoterMisses(s.buckets[0], k, y, v - 1);
      VoteAgainst(s.buckets[0], k, y, v - 1);
      ReachNext(k, s, y, n, v);
    } else if n > 0 {
      FillingRun(k, y, n - 1, 0);
      RunSnoc(Apart(k), 1, 2, Filling(k, y, n - 1, 0), Other(k, n - 1));
      FillOne(Run(Apart(k), 1, 2, Filling(k, y, n - 1, 0)).buckets[0], k, n - 1);
      ReachNext(k, Run(Apart(k), 1, 2, Filling(k, y, n - 1, 0)), Other(k, n - 1), n, v);
    } else {
      ApartStart(k);
      RunSnoc(Apart(k), 1, 2, [], k);
      assert [] + [k] == [k];
      FirstPacket(k);
      ReachNext(k, Run(Apart(k), 1, 2, []), k, 0, 0);
    }
  }

  lemma ApartStart(k: Key)
    ensures Run(Apart(k), 1, 2, []) == State([EMPTY_BUCKET], [0, 0])
  {
  }

  /** After the ninth vote k is in its light counter, if its copy has that counter, and nowhere
      else. */
  lemma EvictionRun(k: Key, y: Key)
    requires Nonempty(k) && Voter(k, y)
    ensures var b := Run(Apart(k), 1, 2, Filling(k, y, 6, 8)).buckets[0];
            var s := Run(Apart(k), 1, 2, Filling(k, y, 6, 9));
            && Filled(b, k, 6, 8) && s.buckets == [Swapped(b, y, 0)]
            && |s.counters| == 2 && s.counters[0] == if CopyString(k) == k then 1 else 0
  {
    hide BucketInsert, Filled, Other, Voter, Run, CopyString, Swapped;
    FillingRun(k, y, 6, 8);
    var s := Run(Apart(k), 1, 2, Filling(k, y, 6, 8));
    EvictedNow(s.buckets[0], k, y);
    RunSnoc(Apart(k), 1, 2, Filling(k, y, 6, 8), y);
  }

  /** For any key that does not survive a copy there is a run, with one bucket and two light
      counters, after which a query for it answers 0 although it occurred. */
  lemma CopiedKeyLost(k: Key) returns (stream: seq<Key>)
    requires Nonempty(k) && CopyString(k) != k
    ensures Admissible(stream) && !NoUnderestimate(Apart(k), 1, 2, stream, k)
  {
    var y := Other(k, 6);
    stream := Filling(k, y, 6, 9);
    hide Other, Filled, CopyString, Run, Filling, TrueCount, BucketQuery, Swapped, NoUnderestimate, Apart;
    FillingKeys(k, y, 6, 9);
    FillingCount(k, y, 6, 9);
    EvictionRun(k, y);
    NotFound(Run(Apart(k), 1, 2, Filling(k, y, 6, 8)).buckets[0], k);
    NothingThere(k, stream);
  }

  lemma NothingThere(k: Key, stream: seq<Key>)
    requires TrueCount(stream, k) == 1
    requires var s := Run(Apart(k), 1, 2, stream); BucketQuery(s.buckets[0], k) == 0 == s.counters[0]
    ensures !NoUnderestimate(Apart(k), 1, 2, stream, k)
  {
    hide Run, BucketQuery, TrueCount;
  }

  lemma NotFound(b: Bucket, k: Key)
    requires Filled(b, k, 6, 8) && Nonempty(k)
    ensures BucketQuery(Swapped(b, Other(k, 6), 0), k) == 0
  {
    hide Other, CopyString, FindKey, Sound, Resident;
    FilledSound(b, k, 6, 8);
    VoterMisses(b, k, Other(k, 6), 8);
    EmptyExact(b);
    SwapSound(b, Other(k, 6), 0);
    OtherIsNew(k, 6);
    SlotExact(Swapped(b, Other(k, 6), 0), k);
    OnlyThere(b, k, 0);
  }

  /** A stored key is stored once. */
  lemma OnlyThere(b: Bucket, k: Key, m: nat)
    requires Sound(b) && Nonempty(k) && m < MAX_VALID_COUNTER && b.key[m] == CopyString(k)
    ensures forall j :: 0 <= j < MAX_VALID_COUNTER && j != m ==> b.key[j] != CopyString(k) && !SameString(b.key[j], k)
  {
    hide FindKey, CopyString, SameString;
    SlotExact(b, k);
    forall j | 0 <= j < MAX_VALID_COUNTER && j != m ensures !SameString(b.key[j], k) { StoredKeys(b.key[j], k); }
  }

  // ----- keys that begin with a zero byte -----

  /** A key that begins with a zero byte is taken for an empty slot: it matches the first one,
      which stays empty. */
  lemma EmptyMatches(b: Bucket, e: Key)
    requires FindKey(b.key, ZERO_KEY) < MAX_VALID_COUNTER && !Nonempty(e)
    ensures var z := FindKey(b.key, ZERO_KEY);
            BucketInsert(b, e, 1) == Outcome(BucketData(b.key, b.val[z := (b.val[z] + 1) % WORD]), 0, ZERO_KEY, 0)
  {
    hide FindKey, MinSlot, CopyString, SameString;
    SameSearch(b.key, e);
  }

  lemma {:induction false} SameSearch(keys: seq<Key>, e: Key)
    requires !Nonempty(e)
    ensures FindKey(keys, e) == FindKey(keys, ZERO_KEY)
  {
    if keys != [] { SameSearch(keys[1..], e); }
  }

  /** The packet is counted in that slot, and the next new key overwrites it: the bucket is then
      as if the empty key had never arrived. */
  lemma EmptyKeyLost(b: Bucket, e: Key, k: Key)
    requires FindKey(b.key, ZERO_KEY) < MAX_VALID_COUNTER && !Nonempty(e) && SlotOf(b, k) == MAX_VALID_COUNTER
    ensures var first := BucketInsert(b, e, 1);
            && first.result == 0 && first.bucket.key == b.key
            && (Resident(b) < LIMIT ==> Resident(first.bucket) == Resident(b) + 1)
            && BucketInsert(first.bucket, k, 1) == BucketInsert(b, k, 1)
  {
    hide FindKey, MinSlot, CopyString, SumCounts, GetCounterVal;
    EmptyMatches(b, e);
    var z := FindKey(b.key, ZERO_KEY);
    CountUp(b.val[z]);
    SumCountsCovers(b.val, MAX_VALID_COUNTER, z);
    SumCountsUpdate(b.val, MAX_VALID_COUNTER, z, (b.val[z] + 1) % WORD);
    assert b.val[z := (b.val[z] + 1) % WORD][z := 1] == b.val[z := 1];
  }

  /** In a full bucket such a key votes like any other.  When its vote evicts, the slot of the evicted
      key is left empty, but flagged and with one packet; and the next new key, were it the evicted
      one, takes the slot with a clear flag, as if it had never been there. */
  lemma EmptyKeyEvicts(b: Bucket, e: Key, k: Key)
    requires Bounded(b) && Resident(b) < LIMIT && FindKey(b.key, ZERO_KEY) == MAX_VALID_COUNTER && !Nonempty(e)
    requires Nonempty(k)
    requires forall j :: 0 <= j < MAX_VALID_COUNTER && j != MinSlot(b.val, MAX_VALID_COUNTER) ==>
               !SameString(b.key[j], k)
    ensures var o, m := BucketInsert(b, e, 1), MinSlot(b.val, MAX_VALID_COUNTER);
            if Guard(b) < 8 * MinCount(b) then
              o.result == 2 && o.bucket == BucketData(b.key, b.val[MAX_VALID_COUNTER := (Guard(b) + 1) % WORD])
            else
              && o.result == 1 && o.swap_key == CopyString(b.key[m]) && o.swap_val == b.val[m]
              && o.bucket == BucketData(b.key[m := ZERO_KEY], b.val[MAX_VALID_COUNTER := 0][m := FLAG + 1])
              && var r := BucketInsert(o.bucket, k, 1);
                 r.result == 0
                 && r.bucket == BucketData(b.key[m := CopyString(k)], b.val[MAX_VALID_COUNTER := 0][m := 1])
  {
    hide CopyString, SameString, FindKey, MinSlot, Resident, Bounded, Counted, MinCount, Guard;
    var m := MinSlot(b.val, MAX_VALID_COUNTER);
    SameSearch(b.key, e);
    AnyVote(b, e);
    CopyEmpty(e);
    HoleTaken(b.key, m, k);
    assert b.val[MAX_VALID_COUNTER := 0][m := FLAG + 1][m := 1] == b.val[MAX_VALID_COUNTER := 0][m := 1];
    assert b.key[m := ZERO_KEY][m := CopyString(k)] == b.key[m := CopyString(k)];
  }

  lemma CopyEmpty(e: Key)
    ensures !Nonempty(e) ==> CopyString(e) == ZERO_KEY
  {
    assert ZERO_KEY == seq(13, _ => 0);
  }

  /** A hole at m is the first empty slot, and k is not found around it. */
  lemma HoleTaken(keys: seq<Key>, m: nat, k: Key)
    requires |keys| == MAX_VALID_COUNTER == FindKey(keys, ZERO_KEY) && m < |keys| && Nonempty(k)
    requires forall j :: 0 <= j < |keys| && j != m ==> !SameString(keys[j], k)
    ensures FindKey(keys[m := ZERO_KEY], ZERO_KEY) == m && FindKey(keys[m := ZERO_KEY], k) == MAX_VALID_COUNTER
  {
    var holed := keys[m := ZERO_KEY];
    SameStringIsSameCopy(ZERO_KEY, ZERO_KEY);
    StoredKeys(ZERO_KEY, k);
    hide CopyString, SameString;
    assert SameString(holed[m], ZERO_KEY) && !SameString(holed[m], k);
  }

  /** A stream in which e may occur besides keys that are not empty. */
  ghost predicate Mixed(e: Key, stream: seq<Key>) {
    |stream| <= LIMIT && forall i :: 0 <= i < |stream| ==> Nonempty(stream[i]) || stream[i] == e
  }

  const VISITOR: Key := [1, 0, 0, 0, 0, 0, 0, 0, 0, 0, 0, 0, 0]

  function Flat(): Hashes {
    Hashes(_ => 0, _ => 0)
  }

  /** After a packet of e and one of a new key only the second is left. */
  lemma OverwrittenRun(e: Key)
    requires !Nonempty(e)
    ensures var s := Run(Flat(), 1, 1, [e, VISITOR]);
            s.buckets == [BucketInsert(EMPTY_BUCKET, VISITOR, 1).bucket] && s.counters == [0]
    ensures Sent(Flat(), 1, 1, [e, VISITOR]) == 0
  {
    FirstSlotEmpty();
    NewVisitor();
    EmptyMatches(EMPTY_BUCKET, e);
    EmptyKeyLost(EMPTY_BUCKET, e, VISITOR);
    FlatStart();
    hide BucketInsert, FindKey, MinSlot, CopyString, Run, Sent;
    RunSnoc(Flat(), 1, 1, [], e);
    RunSnoc(Flat(), 1, 1, [e], VISITOR);
    assert [] + [e] == [e] && [e] + [VISITOR] == [e, VISITOR];
  }

  lemma FlatStart()
    ensures Run(Flat(), 1, 1, []) == State([EMPTY_BUCKET], [0]) && Sent(Flat(), 1, 1, []) == 0
  {
  }

  lemma NewVisitor()
    ensures SlotOf(EMPTY_BUCKET, VISITOR) == MAX_VALID_COUNTER && BucketInsert(EMPTY_BUCKET, VISITOR, 1).result == 0
    ensures BucketInsert(EMPTY_BUCKET, VISITOR, 1).bucket ==
      BucketData(EMPTY_BUCKET.key[0 := CopyString(VISITOR)], EMPTY_BUCKET.val[0 := 1])
    ensures Resident(BucketInsert(EMPTY_BUCKET, VISITOR, 1).bucket) == 1
  {
    hide BucketInsert, MinSlot, CopyString;
    EmptyIsSound();
    SlotExact(EMPTY_BUCKET, VISITOR);
    FirstSlotEmpty();
    RoomStep(EMPTY_BUCKET, VISITOR);
  }

  lemma FirstSlotEmpty()
    ensures FindKey(EMPTY_BUCKET.key, ZERO_KEY) == 0
  {
    SameStringIsSameCopy(ZERO_KEY, ZERO_KEY);
    assert SameString(EMPTY_BUCKET.key[0], ZERO_KEY);
  }

  /** Every packet is resident or was sent to the light part. */
  ghost predicate NothingLost(h: Hashes, nb: nat, nc: nat, stream: seq<Key>)
    requires nb > 0 && nc > 0
  {
    TotalResident(Run(h, nb, nc, stream).buckets) + Sent(h, nb, nc, stream) == |stream|
  }

  lemma OverwrittenIsLost(e: Key)
    requires !Nonempty(e)
    ensures Mixed(e, [e, VISITOR]) && !NothingLost(Flat(), 1, 1, [e, VISITOR])
  {
    hide BucketInsert, Run, Sent, Resident;
    OverwrittenRun(e);
    NewVisitor();
    var b := BucketInsert(EMPTY_BUCKET, VISITOR, 1).bucket;
    assert [b][..0] == [];
    assert TotalResident([b]) == Resident(b);
  }

  /** The keys of which no packet is ever lost, whatever the hash functions, the sizes and the
      keys around them, are exactly those that do not begin with a zero byte. */
  lemma NothingLostIff(e: Key)
    ensures Nonempty(e) <==>
            forall h: Hashes, nb: nat, nc: nat, stream: seq<Key> :: nb > 0 && nc > 0 && Mixed(e, stream) ==>
              NothingLost(h, nb, nc, stream)
  {
    if Nonempty(e) {
      forall h: Hashes, nb: nat, nc: nat, stream: seq<Key> | nb > 0 && nc > 0 && Mixed(e, stream)
        ensures NothingLost(h, nb, nc, stream)
      {
        MassBound(h, nb, nc, stream);
      }
    } else {
      OverwrittenIsLost(e);
    }
    hide NothingLost, Mixed;
  }

  lemma OverwrittenIsUnderestimated(e: Key)
    requires !Nonempty(e)
    ensures Mixed(e, [e, VISITOR]) && !NoUnderestimate(Flat(), 1, 1, [e, VISITOR], e)
  {
    hide BucketInsert, Run, CopyString;
    OverwrittenRun(e);
    NewVisitor();
    EmptyCount(e);
    FoundEmpty(e);
  }

  lemma EmptyCount(e: Key)
    ensures TrueCount([e, VISITOR], e) >= 1
  {
    OneCount(e);
    TrueCountMore([e], VISITOR, e);
    assert [e] + [VISITOR] == [e, VISITOR];
  }

  /** A query for e finds an empty slot. */
  lemma FoundEmpty(e: Key)
    requires !Nonempty(e)
    ensures BucketQuery(BucketData(EMPTY_BUCKET.key[0 := CopyString(VISITOR)], EMPTY_BUCKET.val[0 := 1]), e) == 0
  {
    var keys := EMPTY_BUCKET.key[0 := CopyString(VISITOR)];
    assert CopyString(VISITOR)[0] == 1;
    assert !SameString(keys[0], e);
    assert SameString(keys[1], e);
    hide CopyString, SameString;
  }

  // ----- keys that lose packets to a key that begins with a zero byte -----

  /** A key k that survives a copy, six others and nine packets of e: k is evicted and leaves a hole,
      which its next packet takes with a clear flag.  The answer is then 1 for two packets. */
  lemma HoleRun(k: Key, e: Key) returns (stream: seq<Key>)
    requires Proper(k) && !Nonempty(e)
    ensures |stream| == 17 && Around(k, e, stream) && TrueCount(stream, k) == 2
    ensures var s := Run(Apart(k), 1, 2, stream); Answer(Apart(k), s, k) == 1 == s.counters[0]
  {
    hide Other, Filled, CopyString, Run, Filling, TrueCount, BucketQuery, Swapped, BucketInsert;
    var before := Filling(k, e, 6, 9);
    stream := before + [k];
    FillingKeys(k, e, 6, 9);
    FillingCount(k, e, 6, 9);
    TrueCountMore(before, k, k);
    EvictionRun(k, e);
    RunSnoc(Apart(k), 1, 2, before, k);
    BackInHole(Run(Apart(k), 1, 2, Filling(k, e, 6, 8)).buckets[0], k, e);
  }

  lemma BackInHole(b: Bucket, k: Key, e: Key)
    requires Filled(b, k, 6, 8) && Proper(k) && !Nonempty(e)
    ensures var o := BucketInsert(Swapped(b, e, 0), k, 1); o.result == 0 && BucketQuery(o.bucket, k) == 1
  {
    hide Other, CopyString, SameString, FindKey, MinSlot, Sound, Resident, Bounded, BucketInsert;
    VoterMisses(b, k, e, 8);
    FilledLeast(b, k, 8);
    OnlyThere(b, k, 0);
    EmptyKeyEvicts(b, e, k);
    EvictedNow(b, k, e);
    FoundAgain(b.key, b.val[MAX_VALID_COUNTER := 0][0 := 1], k);
  }

  lemma FoundAgain(keys: seq<Key>, val: seq<uint32>, k: Key)
    requires |keys| == MAX_VALID_COUNTER && |val| == COUNTER_PER_BUCKET && val[0] == 1 && Proper(k)
    ensures BucketQuery(BucketData(keys[0 := CopyString(k)], val), k) == 1
  {
    ProperKeys(k, k);
    hide CopyString, SameString;
  }

  /** A stream in which k and e may occur besides keys that are not empty. */
  ghost predicate Around(k: Key, e: Key, stream: seq<Key>) {
    |stream| <= LIMIT && forall i :: 0 <= i < |stream| ==> Nonempty(stream[i]) || stream[i] == k || stream[i] == e
  }

  /** The count of k is never underestimated, whatever the hash functions, the sizes and the stream,
      exactly when k survives a copy and neither k nor the only other key that may begin with a
      zero byte does. */
  lemma NeverUnderestimatedIff(k: Key, e: Key)
    ensures Proper(k) && Nonempty(e) <==>
            forall h: Hashes, nb: nat, nc: nat, stream: seq<Key> ::
              nb > 0 && nc > 0 && Around(k, e, stream) ==> NoUnderestimate(h, nb, nc, stream, k)
  {
    hide NoUnderestimate, CopyString, Clean;
    if Proper(k) && Nonempty(e) {
      forall h: Hashes, nb: nat, nc: nat, stream: seq<Key> | nb > 0 && nc > 0 && Around(k, e, stream)
        ensures NoUnderestimate(h, nb, nc, stream, k)
      {
        AdmissibleIsClean(h, nb, stream, h.heavy(k) % nb);
        NeverUnderestimates(h, nb, nc, stream, k);
      }
    } else if Proper(k) {
      var stream := HoleRun(k, e);
      Underestimated(k, stream);
    } else if Nonempty(k) {
      var stream := CopiedKeyLost(k);
      assert Around(k, e, stream);
    } else {
      OverwrittenIsUnderestimated(k);
      assert Around(k, e, [k, VISITOR]);
    }
  }

  lemma Underestimated(k: Key, stream: seq<Key>)
    requires TrueCount(stream, k) == 2
    requires var s := Run(Apart(k), 1, 2, stream); Answer(Apart(k), s, k) == 1 == s.counters[0]
    ensures !NoUnderestimate(Apart(k), 1, 2, stream, k)
  {
    hide Run, Answer, TrueCount;
  }
}
