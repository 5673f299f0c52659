/** Runs at which the bounds on the sketch's answers end: 2^31 packets of one key reach the flag
    bit, and 128 packets in one light counter make a signed byte negative. */
module SketchLimits {
  import opened Words
  import opened Keys
  import opened HeavySketch
  import opened LightSketch
  import opened ElasticModel
  import opened BucketVotes
  import opened SketchRuns
  import opened SketchEstimates
  import opened SketchStrings

  // ----- the flag bit -----

  function Repeated(k: Key, n: nat): (stream: seq<Key>)
    ensures |stream| == n && forall i :: 0 <= i < n ==> stream[i] == k
  {
    if n == 0 then [] else Repeated(k, n - 1) + [k]
  }

  lemma {:induction false} RepeatedCount(k: Key, n: nat)
    ensures TrueCount(Repeated(k, n), k) == n
  {
    if n > 0 {
      RepeatedCount(k, n - 1);
      TrueCountMore(Repeated(k, n - 1), k, k);
    }
  }

  /** A bucket that holds nothing but n packets of k. */
  function Single(k: Key, n: uint32): Bucket {
    BucketData([CopyString(k), ZERO_KEY, ZERO_KEY, ZERO_KEY, ZERO_KEY, ZERO_KEY, ZERO_KEY], [n, 0, 0, 0, 0, 0, 0, 0])
  }

  lemma SingleMore(k: Key, n: uint32)
    requires Nonempty(k) && n + 1 < WORD
    ensures BucketInsert(Single(k, n), k, 1) == Outcome(Single(k, n + 1), 0, ZERO_KEY, 0)
    ensures BucketQuery(Single(k, n), k) == n
  {
    FoundFirst(k, n);
    hide CopyString, FindKey, MinSlot;
    assert Single(k, n).val[0 := n + 1] == Single(k, n + 1).val;
  }

  lemma FoundFirst(k: Key, n: uint32)
    requires Nonempty(k)
    ensures FindKey(Single(k, n).key, k) == 0
  {
    CopyIsProper(k);
    StoredKeys(CopyString(k), k);
    hide CopyString, SameString;
  }

  lemma SingleFirst(k: Key)
    requires Nonempty(k)
    ensures BucketInsert(EMPTY_BUCKET, k, 1).result == 0 && BucketInsert(EMPTY_BUCKET, k, 1).bucket == Single(k, 1)
  {
    hide BucketInsert, MinSlot, CopyString;
    EmptyIsSound();
    SlotExact(EMPTY_BUCKET, k);
    FirstSlotEmpty();
    RoomStep(EMPTY_BUCKET, k);
  }

  lemma {:induction false} SingleRun(k: Key, n: nat)
    requires Nonempty(k) && 1 <= n <= FLAG
    ensures Run(Flat(), 1, 1, Repeated(k, n)) == State([Single(k, n)], [0])
  {
    hide BucketInsert, Single, Run;
    RunSnoc(Flat(), 1, 1, Repeated(k, n - 1), k);
    if n == 1 {
      FlatStart();
      SingleFirst(k);
    } else {
      SingleRun(k, n - 1);
      SingleMore(k, n - 1);
    }
  }

  /** The bound of 2^31 packets cannot be raised, for any key: that many packets of it set the flag
      bit of its slot and leave the count at 0. */
  lemma LimitTight(k: Key) returns (stream: seq<Key>)
    requires Nonempty(k)
    ensures |stream| == LIMIT + 1 && forall i :: 0 <= i < |stream| ==> stream[i] == k
    ensures Answer(Flat(), Run(Flat(), 1, 1, stream), k) == 0 && !NoUnderestimate(Flat(), 1, 1, stream, k)
  {
    var n: nat := LIMIT + 1;
    stream := Repeated(k, n);
    hide Repeated, Run, Single;
    SingleRun(k, n);
    SingleMore(k, n);
    RepeatedCount(k, n);
    hide BucketQuery, TrueCount;
  }

  // ----- signed bytes -----

  function Letter(i: nat): (x: Key)
    requires i < 8
    ensures Proper(x) && x[0] == i + 1
  {
    CopyZeros(12);
    var x: Key := [i + 1] + seq(12, _ => 0);
    assert x[1..] == seq(12, _ => 0);
    x
  }

  /** Sixteen packets of each of seven keys, one key after the other. */
  function Load(n: nat): (stream: seq<Key>)
    requires n <= 112
    ensures |stream| == n && forall i :: 0 <= i < n ==> Nonempty(stream[i]) && stream[i][0] <= 7
  {
    if n == 0 then [] else Load(n - 1) + [Letter((n - 1) / 16)]
  }

  /** The count of slot j after n of them. */
  function Share(n: nat, j: nat): nat {
    if n <= 16 * j then 0 else if n <= 16 * j + 16 then n - 16 * j else 16
  }

  ghost predicate Packed(b: Bucket, n: nat, v: nat)
    requires n <= 112
  {
    && (forall j :: 0 <= j < MAX_VALID_COUNTER ==> b.key[j] == (if n <= 16 * j then ZERO_KEY else Letter(j)))
    && (forall j :: 0 <= j < MAX_VALID_COUNTER ==> b.val[j] == Share(n, j))
    && Guard(b) == v
  }

  /** Which slot a letter has. */
  lemma PackedSlot(b: Bucket, n: nat, v: nat, i: nat)
    requires n <= 112 && Packed(b, n, v) && Sound(b) && i < 8
    ensures SlotOf(b, Letter(i)) == if i < 7 && 16 * i < n then i else MAX_VALID_COUNTER
  {
    hide Letter, FindKey, CopyString, Sound, Guard;
    SlotExact(b, Letter(i));
    forall j | 0 <= j < MAX_VALID_COUNTER && b.key[j] == Letter(i) ensures j == i {
      if 16 * j < n { assert b.key[j] == Letter(j); }
    }
    if i < 7 && 16 * i < n { assert b.key[i] == Letter(i); }
  }

  lemma PackedRoom(b: Bucket, n: nat, v: nat)
    requires n <= 112 && Packed(b, n, v) && Sound(b) && n % 16 == 0
    ensures HasRoom(b) <==> n < 112
    ensures n < 112 ==> FindKey(b.key, ZERO_KEY) == n / 16
  {
    hide Letter, CopyString, Sound, Guard, SameString;
    EmptyExact(b);
    forall j | 0 <= j < MAX_VALID_COUNTER && 16 * j < n ensures b.key[j] != ZERO_KEY { assert b.key[j] == Letter(j); }
    if n < 112 {
      assert b.key[n / 16] == ZERO_KEY;
      SameStringIsSameCopy(ZERO_KEY, ZERO_KEY);
    }
  }

  lemma PackOne(b: Bucket, n: nat)
    requires n < 112 && Packed(b, n, 0) && Sound(b) && Resident(b) < LIMIT
    ensures var o := BucketInsert(b, Letter(n / 16), 1); o.result == 0 && Packed(o.bucket, n + 1, 0)
  {
    hide Letter, CopyString, BucketInsert, FindKey, MinSlot, Sound, Resident, Packed, HasRoom, SlotOf;
    var x, j := Letter(n / 16), n / 16;
    PackedSlot(b, n, 0, j);
    if n % 16 == 0 {
      PackedRoom(b, n, 0);
      RoomStep(b, x);
      PackedFirst(b, n);
    } else {
      MatchStep(b, x);
      PackedMore(b, n);
    }
  }

  lemma PackedFirst(b: Bucket, n: nat)
    requires n < 112 && n % 16 == 0 && Packed(b, n, 0)
    ensures Packed(BucketData(b.key[n / 16 := Letter(n / 16)], b.val[n / 16 := 1]), n + 1, 0)
  {
    hide Letter;
  }

  lemma PackedMore(b: Bucket, n: nat)
    requires n < 112 && n % 16 != 0 && Packed(b, n, 0)
    ensures b.val[n / 16] < 16 && Packed(BucketData(b.key, b.val[n / 16 := b.val[n / 16] + 1]), n + 1, 0)
  {
    hide Letter;
  }

  lemma VoteOne(b: Bucket, n: nat, v: nat)
    requires n == 112 && v < 128 && Packed(b, n, v) && Sound(b) && Resident(b) < LIMIT
    ensures var o := BucketInsert(b, Letter(7), 1); o.result == 2 && Packed(o.bucket, n, v + 1)
  {
    hide Letter, CopyString, BucketInsert, FindKey, MinSlot, Sound, Resident;
    PackedSlot(b, n, v, 7);
    PackedRoom(b, n, v);
    LeastSixteen(b, v);
    VoteStep(b, Letter(7));
    hide HasRoom, SlotOf;
  }

  lemma LeastSixteen(b: Bucket, v: nat)
    requires Packed(b, 112, v)
    ensures MinCount(b) == 16
  {
    hide Letter, MinSlot;
    assert b.val[MinSlot(b.val, MAX_VALID_COUNTER)] == 16;
  }

  /** v packets of the eighth key after that. */
  function Votes(load: seq<Key>, v: nat): (stream: seq<Key>)
    ensures |stream| == |load| + v
  {
    if v == 0 then load else Votes(load, v - 1) + [Letter(7)]
  }

  lemma {:induction false} VotesNonempty(load: seq<Key>, v: nat)
    requires forall i :: 0 <= i < |load| ==> Nonempty(load[i])
    ensures forall i :: 0 <= i < |Votes(load, v)| ==> Nonempty(Votes(load, v)[i])
  {
    hide Letter;
    if v > 0 { VotesNonempty(load, v - 1); }
  }

  lemma OneBucket(stream: seq<Key>)
    requires Admissible(stream) && |stream| < LIMIT
    ensures var b := Run(Flat(), 1, 1, stream).buckets[0]; Sound(b) && Resident(b) < LIMIT
  {
    hide Run, Sound, Resident;
    AdmissibleIsClean(Flat(), 1, stream, 0);
    VoteAccounting(Flat(), 1, 1, stream, 0);
    ArrivedAtMost(Flat(), 1, stream, 0);
  }

  lemma {:induction false} LoadRun(n: nat)
    requires n <= 112
    ensures var s := Run(Flat(), 1, 1, Load(n)); Packed(s.buckets[0], n, 0) && s.counters == [0]
  {
    if n == 0 {
      FlatStart();
    } else {
      hide BucketInsert, Packed, Sound, Resident, Letter, Run;
      LoadRun(n - 1);
      OneBucket(Load(n - 1));
      RunSnoc(Flat(), 1, 1, Load(n - 1), Letter((n - 1) / 16));
      PackOne(Run(Flat(), 1, 1, Load(n - 1)).buckets[0], n - 1);
    }
  }

  /** A rejected packet adds one to the only light counter. */
  lemma OneVote(before: seq<Key>, x: Key, v: nat)
    requires v < 128 && Run(Flat(), 1, 1, before).counters == [v]
    requires BucketInsert(Run(Flat(), 1, 1, before).buckets[0], x, 1).result == 2
    ensures var s, s' := Run(Flat(), 1, 1, before), Run(Flat(), 1, 1, before + [x]);
            s'.buckets[0] == BucketInsert(s.buckets[0], x, 1).bucket && s'.counters == [v + 1]
  {
    hide BucketInsert, Run;
    RunSnoc(Flat(), 1, 1, before, x);
  }

  lemma {:induction false} VotesRun(n: nat, v: nat)
    requires n == 112 && v <= 128
    ensures var s := Run(Flat(), 1, 1, Votes(Load(n), v)); Packed(s.buckets[0], n, v) && s.counters == [v]
  {
    hide BucketInsert, Packed, Sound, Resident, Letter, Run, Load, Nonempty;
    if v == 0 {
      LoadRun(n);
    } else {
      var before := Votes(Load(n), v - 1);
      VotesRun(n, v - 1);
      VotesNonempty(Load(n), v - 1);
      OneBucket(before);
      VoteOne(Run(Flat(), 1, 1, before).buckets[0], n, v - 1);
      OneVote(before, Letter(7), v - 1);
    }
  }

  lemma {:induction false} VotesCount(load: seq<Key>, v: nat)
    ensures TrueCount(Votes(load, v), Letter(7)) >= v
  {
    hide Letter, TrueCount;
    if v > 0 {
      VotesCount(load, v - 1);
      TrueCountMore(Votes(load, v - 1), Letter(7), Letter(7));
    }
  }

  lemma OnlyCounter(x: uint8)
    ensures IsClassMax([x], 1, 0, x)
  {
    assert Residue(0, 1) == 0 && [x][0] == x;
  }

  /** A run of 240 packets after which the plain query answers 128 for a key and the compressed one,
      where plain char is signed, answers -128. */
  lemma SignedAnswersLess() returns (stream: seq<Key>)
    ensures Admissible(stream) && |stream| == 240 && TrueCount(stream, Letter(7)) >= 128
    ensures var s := Run(Flat(), 1, 1, stream);
            && s.counters == [128] && IsClassMax(s.counters, 1, 0, 128) && Answer(Flat(), s, Letter(7)) == 128
            && Combine(BucketQuery(s.buckets[0], Letter(7)), CharValue(true, 128)) == -128
  {
    hide Letter, Run, Load, Votes, Packed, TrueCount, Sound, Resident, IsClassMax;
    var n: nat, v: nat := 112, 128;
    stream := Votes(Load(n), v);
    VotesRun(n, v);
    VotesCount(Load(n), v);
    VotesNonempty(Load(n), v);
    OneBucket(stream);
    OnlyCounter(128);
    PackedSlot(Run(Flat(), 1, 1, stream).buckets[0], n, v, 7);
  }
}
