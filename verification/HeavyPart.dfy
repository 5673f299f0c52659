/** The heavy part of elastic/HeavyPart.h: buckets of seven keyed slots and a guard vote. */
module HeavySketch {
  import opened Keys
  import opened Words

  const COUNTER_PER_BUCKET: nat := 8
  const MAX_VALID_COUNTER: nat := 7
  const FLAG: nat := 0x8000_0000

  /** val & 0x7FFFFFFF. */
  function GetCounterVal(val: uint32): (c: nat)
    ensures c < FLAG
  {
    val % FLAG
  }

  /** val & 0x80000000. */
  predicate HighestBitIs1(val: uint32) {
    val >= FLAG
  }

  datatype BucketData = BucketData(key: seq<Key>, val: seq<uint32>)

  type Bucket = b: BucketData | |b.key| == MAX_VALID_COUNTER && |b.val| == COUNTER_PER_BUCKET
    witness BucketData(seq(7, _ => ZERO_KEY), seq(8, _ => 0))

  const EMPTY_BUCKET: Bucket := BucketData(seq(7, _ => ZERO_KEY), seq(8, _ => 0))

  /** The first of the keys that compares equal to key, or their number. */
  function FindKey(keys: seq<Key>, key: Key): (i: nat)
    ensures i <= |keys|
    ensures i < |keys| ==> SameString(keys[i], key)
    ensures forall k :: 0 <= k < i ==> !SameString(keys[k], key)
  {
    if keys == [] then 0
    else if SameString(keys[0], key) then 0
    else 1 + FindKey(keys[1..], key)
  }

  /** The first position with the least counter among the first n. */
  function MinSlot(val: seq<uint32>, n: nat): (i: nat)
    requires 1 <= n <= |val|
    ensures i < n
    ensures forall k :: 0 <= k < n ==> GetCounterVal(val[i]) <= GetCounterVal(val[k])
    ensures forall k :: 0 <= k < i ==> GetCounterVal(val[i]) < GetCounterVal(val[k])
  {
    if n == 1 then 0
    else
      var m := MinSlot(val, n - 1);
      if GetCounterVal(val[m]) > GetCounterVal(val[n - 1]) then n - 1 else m
  }

  /** What an insertion does: the new bucket, and the result code with what it hands over. */
  datatype Outcome = Outcome(bucket: Bucket, result: nat, swap_key: Key, swap_val: uint32)

  /** One insertion of a key with weight f into its bucket, with 32-bit arithmetic. */
  function BucketInsert(b: Bucket, key: Key, f: uint32): Outcome {
    var matched := FindKey(b.key, key);
    var empty := FindKey(b.key, ZERO_KEY);
    var min_counter := MinSlot(b.val, MAX_VALID_COUNTER);
    var guard := (b.val[MAX_VALID_COUNTER] + 1) % WORD;
    if matched < MAX_VALID_COUNTER then
      Outcome(BucketData(b.key, b.val[matched := (b.val[matched] + f) % WORD]), 0, ZERO_KEY, 0)
    else if empty < MAX_VALID_COUNTER then
      Outcome(BucketData(b.key[empty := CopyString(key)], b.val[empty := f]), 0, ZERO_KEY, 0)
    else if !(guard > GetCounterVal(b.val[min_counter]) * 8 % WORD) then
      Outcome(BucketData(b.key, b.val[MAX_VALID_COUNTER := guard]), 2, ZERO_KEY, 0)
    else
      Outcome(BucketData(b.key[min_counter := CopyString(key)], b.val[MAX_VALID_COUNTER := 0][min_counter := FLAG + 1]),
              1, CopyString(b.key[min_counter]), b.val[min_counter])
  }

  /** The stored value of a key in its bucket, flag included, or 0. */
  function BucketQuery(b: Bucket, key: Key): uint32 {
    var i := FindKey(b.key, key);
    if i < MAX_VALID_COUNTER then b.val[i] else 0
  }

  /** The first i slots have been passed without a match. */
  ghost predicate Scanned(b: Bucket, key: Key, i: nat, empty: int, min_counter: nat, min_counter_val: nat)
    requires i <= MAX_VALID_COUNTER
  {
    && (forall k :: 0 <= k < i ==> !SameString(b.key[k], key))
    && (if empty == -1 then forall k :: 0 <= k < i ==> !SameString(b.key[k], ZERO_KEY)
        else 0 <= empty < i && empty == FindKey(b.key, ZERO_KEY))
    && min_counter == MinSlot(b.val, if i == 0 then 1 else i) && min_counter_val == GetCounterVal(b.val[min_counter])
  }

  lemma NoneScanned(b: Bucket, key: Key)
    ensures Scanned(b, key, 0, -1, 0, GetCounterVal(b.val[0]))
  {
  }

  lemma ScanTurn(b: Bucket, key: Key, i: nat, empty: int, min_counter: nat, min_counter_val: nat)
    requires i < MAX_VALID_COUNTER && Scanned(b, key, i, empty, min_counter, min_counter_val)
    ensures SameString(b.key[i], key) ==> FindKey(b.key, key) == i
    ensures !SameString(b.key[i], key) ==>
              Scanned(b, key, i + 1, if SameString(b.key[i], ZERO_KEY) && empty == -1 then i else empty,
                      if min_counter_val > GetCounterVal(b.val[i]) then i else min_counter,
                      if min_counter_val > GetCounterVal(b.val[i]) then GetCounterVal(b.val[i]) else min_counter_val)
  {
    hide SameString, GetCounterVal, MinSlot;
    LeastTurn(b.val, i);
  }

  lemma LeastTurn(val: seq<uint32>, i: nat)
    requires i < |val|
    ensures var m := MinSlot(val, if i == 0 then 1 else i);
            MinSlot(val, i + 1) == if GetCounterVal(val[m]) > GetCounterVal(val[i]) then i else m
  {
  }

  lemma AllScanned(b: Bucket, key: Key, empty: int, min_counter: nat, min_counter_val: nat)
    requires Scanned(b, key, MAX_VALID_COUNTER, empty, min_counter, min_counter_val)
    ensures FindKey(b.key, key) == MAX_VALID_COUNTER
    ensures if empty != -1 then empty == FindKey(b.key, ZERO_KEY) < MAX_VALID_COUNTER
      else FindKey(b.key, ZERO_KEY) == MAX_VALID_COUNTER
    ensures min_counter == MinSlot(b.val, MAX_VALID_COUNTER) && min_counter_val == GetCounterVal(b.val[min_counter])
  {
    hide SameString, GetCounterVal;
  }

  class HeavyPart {
    const bucket_num: nat
    const buckets: array<Bucket>
    const hash: Key -> nat  // bobhash->run, of which nothing is assumed

    ghost predicate Valid() {
      bucket_num > 0 && buckets.Length == bucket_num
    }

    constructor (n: nat, h: Key -> nat)
      requires n > 0
      ensures Valid() && bucket_num == n && hash == h && fresh(buckets)
      ensures forall i :: 0 <= i < n ==> buckets[i] == EMPTY_BUCKET
    {
      bucket_num := n;
      hash := h;
      buckets := new Bucket[n](_ => EMPTY_BUCKET);
    }

    method Clear()
      requires Valid()
      modifies buckets
      ensures forall i :: 0 <= i < bucket_num ==> buckets[i] == EMPTY_BUCKET
    {
      var i := 0;
      while i < bucket_num
        invariant 0 <= i <= bucket_num
        invariant forall k :: 0 <= k < i ==> buckets[k] == EMPTY_BUCKET
      {
        buckets[i] := EMPTY_BUCKET;
        i := i + 1;
      }
    }

    function Position(key: Key): (pos: nat)
      requires Valid()
      ensures pos < bucket_num
    {
      hash(key) % bucket_num
    }

    /** The scan that opens insert: the matching slot, or the first empty slot and the least
        counter when there is none. */
    method Scan(pos: nat, key: Key) returns (matched: int, empty: int, min_counter: nat, min_counter_val: nat)
      requires Valid() && pos < bucket_num
      ensures var b := buckets[pos];
              if matched != -1 then matched == FindKey(b.key, key) < MAX_VALID_COUNTER
              else
                && FindKey(b.key, key) == MAX_VALID_COUNTER
                && (if empty != -1 then empty == FindKey(b.key, ZERO_KEY) < MAX_VALID_COUNTER
                    else FindKey(b.key, ZERO_KEY) == MAX_VALID_COUNTER)
                && min_counter == MinSlot(b.val, MAX_VALID_COUNTER)
                && min_counter_val == GetCounterVal(b.val[min_counter])
    {
      hide SameString, Scanned, MinSlot;
      var b := buckets[pos];
      matched, empty, min_counter := -1, -1, 0;
      min_counter_val := GetCounterVal(b.val[0]);
      var i := 0;
      NoneScanned(b, key);
      while i < COUNTER_PER_BUCKET - 1
        invariant 0 <= i <= COUNTER_PER_BUCKET - 1 && matched == -1
        invariant Scanned(b, key, i, empty, min_counter, min_counter_val)
      {
        ScanTurn(b, key, i, empty, min_counter, min_counter_val);
        if SameString(b.key[i], key) {
          matched := i;
          break;
        }
        if SameString(b.key[i], ZERO_KEY) && empty == -1 {
          empty := i;
        }
        if min_counter_val > GetCounterVal(b.val[i]) {
          min_counter := i;
          min_counter_val := GetCounterVal(b.val[i]);
        }
        i := i + 1;
      }
      if matched == -1 { AllScanned(b, key, empty, min_counter, min_counter_val); }
    }

    /** Inserts a key, touching only its own bucket. */
    method Insert(key: Key, f: uint32) returns (result: nat, swap_key: Key, swap_val: uint32)
      requires Valid()
      modifies buckets
      ensures var o := BucketInsert(old(buckets[Position(key)]), key, f);
              && buckets[..] == old(buckets[..])[Position(key) := o.bucket]
              && result == o.result && swap_key == o.swap_key && swap_val == o.swap_val
    {
      hide SameString, CopyString, FindKey, MinSlot;
      var pos := Position(key);
      var matched, empty, min_counter, min_counter_val := Scan(pos, key);
      swap_key, swap_val := ZERO_KEY, 0;
      if matched != -1 {
        buckets[pos] := buckets[pos].(val := buckets[pos].val[matched := (buckets[pos].val[matched] + f) % WORD]);
        return 0, swap_key, swap_val;
      }
      if empty != -1 {
        buckets[pos] := buckets[pos].(key := buckets[pos].key[empty := CopyString(key)],
          val := buckets[pos].val[empty := f]);
        return 0, swap_key, swap_val;
      }
      var guard_val := (buckets[pos].val[MAX_VALID_COUNTER] + 1) % WORD;
      if !(guard_val > min_counter_val * 8 % WORD) {
        buckets[pos] := buckets[pos].(val := buckets[pos].val[MAX_VALID_COUNTER := guard_val]);
        return 2, swap_key, swap_val;
      }
      swap_key := CopyString(buckets[pos].key[min_counter]);
      swap_val := buckets[pos].val[min_counter];
      buckets[pos] := buckets[pos].(val := buckets[pos].val[MAX_VALID_COUNTER := 0]);
      buckets[pos] := buckets[pos].(key := buckets[pos].key[min_counter := CopyString(key)],
                                    val := buckets[pos].val[min_counter := FLAG + 1]);
      return 1, swap_key, swap_val;
    }

    /** The stored value of a key, or 0; nothing changes. */
    method Query(key: Key) returns (val: uint32)
      requires Valid()
      ensures val == BucketQuery(buckets[Position(key)], key)
    {
      var pos := Position(key);
      var i := 0;
      while i < MAX_VALID_COUNTER
        invariant 0 <= i <= MAX_VALID_COUNTER
        invariant forall k :: 0 <= k < i ==> !SameString(buckets[pos].key[k], key)
      {
        if SameString(buckets[pos].key[i], key) {
          return buckets[pos].val[i];
        }
        i := i + 1;
      }
      return 0;
    }
  }
}
