/** The sketch of elastic/ElasticSketch.h: insertions go to the heavy part, and what it rejects or
    evicts goes to the light part. */
module ElasticModel {
  import opened Words
  import opened Keys
  import opened HeavySketch
  import opened LightSketch

  /** The two hash functions; nothing is assumed of them. */
  datatype Hashes = Hashes(heavy: Key -> nat, light: Key -> nat)

  datatype State = State(buckets: seq<Bucket>, counters: seq<uint8>)

  ghost predicate Sized(s: State) {
    s.buckets != [] && s.counters != []
  }

  function HeavyPos(h: Hashes, s: State, key: Key): (pos: nat)
    requires Sized(s)
    ensures pos < |s.buckets|
  {
    h.heavy(key) % |s.buckets|
  }

  function LightPos(h: Hashes, s: State, key: Key): (pos: nat)
    requires Sized(s)
    ensures pos < |s.counters|
  {
    h.light(key) % |s.counters|
  }

  /** What the light part does with the outcome of a heavy insertion. */
  function LightStep(h: Hashes, s: State, key: Key, o: Outcome): (r: seq<uint8>)
    requires Sized(s)
    ensures |r| == |s.counters|
  {
    if o.result == 0 then s.counters
    else if o.result == 1 then
      if HighestBitIs1(o.swap_val) then Add(s.counters, LightPos(h, s, o.swap_key), GetCounterVal(o.swap_val))
      else Raise(s.counters, LightPos(h, s, o.swap_key), o.swap_val)
    else Add(s.counters, LightPos(h, s, key), 1)
  }

  function Inserted(h: Hashes, s: State, key: Key, f: uint32): (r: State)
    requires Sized(s)
    ensures |r.buckets| == |s.buckets| && |r.counters| == |s.counters|
  {
    var o := BucketInsert(s.buckets[HeavyPos(h, s, key)], key, f);
    State(s.buckets[HeavyPos(h, s, key) := o.bucket], LightStep(h, s, key, o))
  }

  /** The answer assembled from the stored value and a light counter. */
  function Combine(heavy_result: uint32, light: int): (answer: int)
    ensures light >= 0 ==> answer >= 0
  {
    if ReadsLight(heavy_result) then GetCounterVal(heavy_result) + light else heavy_result
  }

  /** The light part is consulted. */
  predicate ReadsLight(heavy_result: uint32) {
    heavy_result == 0 || HighestBitIs1(heavy_result)
  }

  function Answer(h: Hashes, s: State, key: Key): nat
    requires Sized(s)
  {
    Combine(BucketQuery(s.buckets[HeavyPos(h, s, key)], key), s.counters[LightPos(h, s, key)])
  }

  class ElasticSketch {
    const heavy_part: HeavyPart
    const light_part: LightPart

    ghost predicate Valid()
      reads light_part.counters, light_part.mice_dist
    {
      heavy_part.Valid() && light_part.Valid()
    }

    ghost function Hash(): Hashes {
      Hashes(heavy_part.hash, light_part.hash)
    }

    ghost function Contents(): State
      reads heavy_part.buckets, light_part.counters
    {
      State(heavy_part.buckets[..], light_part.counters[..])
    }

    constructor (bucket_num: nat, counter_num: nat, heavy_hash: Key -> nat, light_hash: Key -> nat)
      requires bucket_num > 0 && counter_num > 0
      ensures Valid() && fresh({heavy_part.buckets}) && fresh({light_part.counters}) && fresh({light_part.mice_dist})
      ensures Hash() == Hashes(heavy_hash, light_hash)
      ensures Contents() == State(seq(bucket_num, _ => EMPTY_BUCKET), seq(counter_num, _ => 0))
    {
      heavy_part := new HeavyPart(bucket_num, heavy_hash);
      light_part := new LightPart(counter_num, light_hash);
      new;
      assert heavy_part.buckets[..] == seq(bucket_num, _ => EMPTY_BUCKET);
      assert light_part.counters[..] == seq(counter_num, _ => 0);
    }

    method Clear()
      requires Valid()
      modifies heavy_part.buckets, light_part.counters, light_part.mice_dist
      ensures Valid()
      ensures Contents() == State(seq(heavy_part.bucket_num, _ => EMPTY_BUCKET), seq(light_part.counter_num, _ => 0))
    {
      heavy_part.Clear();
      light_part.Clear();
      assert heavy_part.buckets[..] == seq(heavy_part.bucket_num, _ => EMPTY_BUCKET);
      assert light_part.counters[..] == seq(light_part.counter_num, _ => 0);
    }

    method Insert(key: Key, f: uint32)
      requires Valid()
      modifies heavy_part.buckets, light_part.counters, light_part.mice_dist
      ensures Valid() && Contents() == Inserted(Hash(), old(Contents()), key, f)
    {
      var result, swap_key, swap_val := heavy_part.Insert(key, f);
      if result == 0 {
        return;
      } else if result == 1 {
        if HighestBitIs1(swap_val) {
          light_part.Insert(swap_key, GetCounterVal(swap_val));
        } else {
          light_part.SwapInsert(swap_key, swap_val);
        }
      } else {
        light_part.Insert(key, 1);
      }
    }

    method Query(key: Key) returns (val: nat)
      requires Valid()
      ensures val == Answer(Hash(), Contents(), key)
    {
      var heavy_result := heavy_part.Query(key);
      if heavy_result == 0 || HighestBitIs1(heavy_result) {
        var light_result := light_part.Query(key);
        return GetCounterVal(heavy_result) + light_result;
      }
      return heavy_result;
    }

    method QueryCompressedPart(key: Key, compress_part: seq<uint8>, compress_counter_num: nat, signed: bool)
      returns (val: int)
      requires Valid() && 0 < compress_counter_num <= |compress_part|
      ensures val == Combine(BucketQuery(heavy_part.buckets[heavy_part.Position(key)], key),
                             CharValue(signed, compress_part[light_part.Position(key) % compress_counter_num]))
    {
      var heavy_result := heavy_part.Query(key);
      if heavy_result == 0 || HighestBitIs1(heavy_result) {
        var light_result := light_part.QueryCompressedPart(key, compress_part, compress_counter_num, signed);
        return GetCounterVal(heavy_result) + light_result;
      }
      return heavy_result;
    }
  }
}
