/** Whole runs of the sketch: any stream of unit insertions, with any two hash functions.  The
    accounts are exact for any keys, up to what keys that begin with a zero byte let be
    overwritten, which is nothing in a bucket that gets no such key. */
module SketchRuns {
  import opened Words
  import opened Keys
  import opened Histograms
  import opened HeavySketch
  import opened ElasticModel
  import opened BucketVotes

  /** The state after inserting a stream into a cleared sketch. */
  function Run(h: Hashes, nb: nat, nc: nat, stream: seq<Key>): (s: State)
    requires nb > 0 && nc > 0
    ensures |s.buckets| == nb && |s.counters| == nc
  {
    if stream == [] then State(seq(nb, _ => EMPTY_BUCKET), seq(nc, _ => 0))
    else Inserted(h, Run(h, nb, nc, stream[..|stream| - 1]), stream[|stream| - 1], 1)
  }

  /** The device captures a stream: one unit insertion for each packet, from a cleared sketch. */
  method Capture(elastic: ElasticSketch, stream: seq<Key>)
    requires elastic.Valid() &&
      elastic.Contents() == Run(elastic.Hash(), |elastic.Contents().buckets|, |elastic.Contents().counters|, [])
    modifies elastic.heavy_part.buckets, elastic.light_part.counters, elastic.light_part.mice_dist
    ensures elastic.Valid()
    ensures elastic.Contents() ==
      Run(elastic.Hash(), |old(elastic.Contents()).buckets|, |old(elastic.Contents()).counters|, stream)
  {
    ghost var nb, nc := |elastic.Contents().buckets|, |elastic.Contents().counters|;
    assert stream[..0] == [];
    for i := 0 to |stream|
      invariant elastic.Valid() && elastic.Contents() == Run(elastic.Hash(), nb, nc, stream[..i])
    {
      elastic.Insert(stream[i], 1);
      assert stream[..i + 1][..i] == stream[..i];
    }
    assert stream[..|stream|] == stream;
  }

  ghost predicate Admissible(stream: seq<Key>) {
    |stream| <= LIMIT && forall i :: 0 <= i < |stream| ==> Nonempty(stream[i])
  }

  /** Bucket i gets fewer than 2^31 packets, and none of a key that begins with a zero byte. */
  ghost predicate Clean(h: Hashes, nb: nat, stream: seq<Key>, i: nat)
    requires nb > 0
  {
    && Arrived(h, nb, stream, i) <= LIMIT
    && forall j :: 0 <= j < |stream| && h.heavy(stream[j]) % nb == i ==> Nonempty(stream[j])
  }

  lemma AdmissibleIsClean(h: Hashes, nb: nat, stream: seq<Key>, i: nat)
    requires nb > 0 && Admissible(stream)
    ensures Clean(h, nb, stream, i)
  {
    ArrivedAtMost(h, nb, stream, i);
  }

  lemma CleanBefore(h: Hashes, nb: nat, stream: seq<Key>, i: nat)
    requires nb > 0 && stream != [] && Clean(h, nb, stream, i)
    ensures var n := |stream| - 1;
            && Clean(h, nb, stream[..n], i)
            && (h.heavy(stream[n]) % nb == i ==> Nonempty(stream[n]) && Arrived(h, nb, stream[..n], i) < LIMIT)
  {
  }

  /** The outcome of the last insertion of a stream in its bucket. */
  function LastOutcome(h: Hashes, nb: nat, nc: nat, stream: seq<Key>): Outcome
    requires nb > 0 && nc > 0 && stream != []
  {
    var n := |stream| - 1;
    var s := Run(h, nb, nc, stream[..n]);
    BucketInsert(s.buckets[HeavyPos(h, s, stream[n])], stream[n], 1)
  }

  /** A run goes on with one more insertion. */
  lemma RunSnoc(h: Hashes, nb: nat, nc: nat, stream: seq<Key>, x: Key)
    requires nb > 0 && nc > 0
    ensures var s := Run(h, nb, nc, stream);
            && Run(h, nb, nc, stream + [x]) == Inserted(h, s, x, 1)
            && Sent(h, nb, nc, stream + [x]) == Sent(h, nb, nc, stream) +
               PassedOn(BucketInsert(s.buckets[HeavyPos(h, s, x)], x, 1))
  {
    hide BucketInsert;
    assert (stream + [x])[..|stream|] == stream;
  }

  /** The packets an outcome passes on to the light part. */
  function PassedOn(o: Outcome): nat {
    if o.result == 1 then GetCounterVal(o.swap_val) else if o.result == 2 then 1 else 0
  }

  // ----- vote accounting, bucket by bucket -----

  /** Packets of the stream that belong to bucket i. */
  function Arrived(h: Hashes, nb: nat, stream: seq<Key>, i: nat): nat
    requires nb > 0
  {
    if stream == [] then 0
    else Arrived(h, nb, stream[..|stream| - 1], i) + if h.heavy(stream[|stream| - 1]) % nb == i then 1 else 0
  }

  /** Packets that bucket i rejected. */
  function Rejected(h: Hashes, nb: nat, nc: nat, stream: seq<Key>, i: nat): nat
    requires nb > 0 && nc > 0
  {
    if stream == [] then 0
    else Rejected(h, nb, nc, stream[..|stream| - 1], i)
         + if h.heavy(stream[|stream| - 1]) % nb == i && LastOutcome(h, nb, nc, stream).result == 2 then 1 else 0
  }

  /** Packets carried out of bucket i by evictions. */
  function CarriedOut(h: Hashes, nb: nat, nc: nat, stream: seq<Key>, i: nat): nat
    requires nb > 0 && nc > 0
  {
    if stream == [] then 0
    else CarriedOut(h, nb, nc, stream[..|stream| - 1], i)
         + if h.heavy(stream[|stream| - 1]) % nb == i && LastOutcome(h, nb, nc, stream).result == 1
           then GetCounterVal(LastOutcome(h, nb, nc, stream).swap_val) else 0
  }

  /** What a unit insertion may do to a bucket. */
  ghost predicate Voted(b: Bucket, o: Outcome) {
    && Sound(o.bucket)
    && match o.result
       case 0 => Resident(o.bucket) == Resident(b) + 1 && Guard(o.bucket) == Guard(b)
       case 1 => Resident(o.bucket) == Resident(b) - GetCounterVal(o.swap_val) + 1 && !HasRoom(b)
                 && Guard(b) == 8 * GetCounterVal(o.swap_val) && Guard(o.bucket) == 0
       case 2 => Resident(o.bucket) == Resident(b) && Guard(o.bucket) == Guard(b) + 1 && !HasRoom(b)
       case _ => false
  }

  lemma InsertVotes(b: Bucket, key: Key)
    requires Sound(b) && Nonempty(key) && Resident(b) < LIMIT
    ensures Voted(b, BucketInsert(b, key, 1))
  {
    hide BucketInsert, Sound, Resident, MinCount;
    if SlotOf(b, key) < MAX_VALID_COUNTER {
      MatchStep(b, key);
    } else if HasRoom(b) {
      RoomStep(b, key);
    } else if Guard(b) < 8 * MinCount(b) {
      VoteStep(b, key);
    } else {
      GuardBound(b);
      SwapStep(b, key);
      CarriedIsMin(b);
    }
  }

  lemma CarriedIsMin(b: Bucket)
    ensures MinCount(b) == GetCounterVal(b.val[MinSlot(b.val, MAX_VALID_COUNTER)])
  {
  }

  /** Packets counted in slots of bucket i that new keys took. */
  function OverwrittenIn(h: Hashes, nb: nat, nc: nat, stream: seq<Key>, i: nat): nat
    requires nb > 0 && nc > 0 && i < nb
  {
    if stream == [] then 0
    else
      var before, x := stream[..|stream| - 1], stream[|stream| - 1];
      OverwrittenIn(h, nb, nc, before, i)
      + if h.heavy(x) % nb == i then Overwritten(Run(h, nb, nc, before).buckets[i], x) else 0
  }

  /** Exact vote accounting on every run. */
  ghost predicate Accounted(h: Hashes, nb: nat, nc: nat, stream: seq<Key>, i: nat)
    requires nb > 0 && nc > 0 && i < nb
  {
    var b := Run(h, nb, nc, stream).buckets[i];
    var e := CarriedOut(h, nb, nc, stream, i);
    && Bounded(b)
    && Rejected(h, nb, nc, stream, i) == 8 * e + Guard(b)
    && Arrived(h, nb, stream, i) == Resident(b) + 9 * e + Guard(b) + OverwrittenIn(h, nb, nc, stream, i)
  }

  lemma {:induction false} ArrivedAtMost(h: Hashes, nb: nat, stream: seq<Key>, i: nat)
    requires nb > 0
    ensures Arrived(h, nb, stream, i) <= |stream|
  {
    if stream != [] { ArrivedAtMost(h, nb, stream[..|stream| - 1], i); }
  }

  /** Every packet that arrives at a bucket is resident, or stands in the guard, or was carried out
      together with eight votes, or was overwritten, whatever the keys are. */
  lemma {:induction false} AnyAccounting(h: Hashes, nb: nat, nc: nat, stream: seq<Key>, i: nat)
    requires nb > 0 && nc > 0 && i < nb && Arrived(h, nb, stream, i) <= LIMIT
    ensures Accounted(h, nb, nc, stream, i)
  {
    hide BucketInsert, Bounded, Resident, Run, Arrived, Rejected, CarriedOut, OverwrittenIn, LastOutcome, Guard,
      Overwritten;
    if stream == [] {
      NothingArrived(h, nb, nc, i);
    } else {
      var n := |stream| - 1;
      var before := stream[..n];
      OneMoreArrived(h, nb, nc, stream, i);
      AnyAccounting(h, nb, nc, before, i);
      if h.heavy(stream[n]) % nb == i {
        AnyInsertion(Run(h, nb, nc, before).buckets[i], stream[n]);
      }
    }
  }

  lemma NothingArrived(h: Hashes, nb: nat, nc: nat, i: nat)
    requires nb > 0 && nc > 0 && i < nb
    ensures Accounted(h, nb, nc, [], i)
  {
    hide Bounded, Resident;
    EmptyIsSound();
    EmptyIsBounded();
  }

  /** What the last packet of a stream adds to the counts of bucket i. */
  lemma OneMoreArrived(h: Hashes, nb: nat, nc: nat, stream: seq<Key>, i: nat)
    requires nb > 0 && nc > 0 && i < nb && stream != []
    ensures var n := |stream| - 1;
            var before := stream[..n];
            var b, b' := Run(h, nb, nc, before).buckets[i], Run(h, nb, nc, stream).buckets[i];
            var rejected, rejected' := Rejected(h, nb, nc, before, i), Rejected(h, nb, nc, stream, i);
            var carried, carried' := CarriedOut(h, nb, nc, before, i), CarriedOut(h, nb, nc, stream, i);
            var lost, lost' := OverwrittenIn(h, nb, nc, before, i), OverwrittenIn(h, nb, nc, stream, i);
            if h.heavy(stream[n]) % nb == i then
              var o := BucketInsert(b, stream[n], 1);
              && b' == o.bucket && Arrived(h, nb, stream, i) == Arrived(h, nb, before, i) + 1
              && rejected' == rejected + (if o.result == 2 then 1 else 0)
              && carried' == carried + (if o.result == 1 then GetCounterVal(o.swap_val) else 0)
              && lost' == lost + Overwritten(b, stream[n])
            else
              && b' == b && Arrived(h, nb, stream, i) == Arrived(h, nb, before, i)
              && rejected' == rejected && carried' == carried && lost' == lost
  {
    hide BucketInsert, Overwritten;
  }

  /** A bucket that gets no key beginning with a zero byte is sound and loses nothing. */
  lemma {:induction false} RunSound(h: Hashes, nb: nat, nc: nat, stream: seq<Key>, i: nat)
    requires nb > 0 && nc > 0 && i < nb && Clean(h, nb, stream, i)
    ensures Sound(Run(h, nb, nc, stream).buckets[i]) && OverwrittenIn(h, nb, nc, stream, i) == 0
  {
    hide BucketInsert, Sound, Resident, HasRoom, Run, Arrived, Rejected, CarriedOut, OverwrittenIn, LastOutcome,
      Guard, Overwritten, Clean;
    if stream == [] {
      NothingStored(h, nb, nc, i);
    } else {
      var n := |stream| - 1;
      var before := stream[..n];
      CleanBefore(h, nb, stream, i);
      OneMoreArrived(h, nb, nc, stream, i);
      RunSound(h, nb, nc, before, i);
      if h.heavy(stream[n]) % nb == i {
        var b := Run(h, nb, nc, before).buckets[i];
        AnyAccounting(h, nb, nc, before, i);
        InsertVotes(b, stream[n]);
        SoundIsBounded(b, stream[n]);
      }
    }
  }

  lemma NothingStored(h: Hashes, nb: nat, nc: nat, i: nat)
    requires nb > 0 && nc > 0 && i < nb
    ensures Sound(Run(h, nb, nc, []).buckets[i]) && OverwrittenIn(h, nb, nc, [], i) == 0
  {
    hide Sound;
    EmptyIsSound();
  }

  /** So its accounts have no remainder. */
  lemma VoteAccounting(h: Hashes, nb: nat, nc: nat, stream: seq<Key>, i: nat)
    requires nb > 0 && nc > 0 && i < nb && Clean(h, nb, stream, i)
    ensures var b := Run(h, nb, nc, stream).buckets[i];
            var e := CarriedOut(h, nb, nc, stream, i);
            && Sound(b)
            && Rejected(h, nb, nc, stream, i) == 8 * e + Guard(b)
            && Arrived(h, nb, stream, i) == Resident(b) + 9 * e + Guard(b)
  {
    hide Sound, Resident, Run, Arrived, Rejected, CarriedOut, OverwrittenIn, Guard, Bounded;
    AnyAccounting(h, nb, nc, stream, i);
    RunSound(h, nb, nc, stream, i);
  }

  /** Before a packet is inserted into its bucket. */
  lemma ReadyBucket(h: Hashes, nb: nat, nc: nat, stream: seq<Key>)
    requires nb > 0 && nc > 0 && stream != [] && Clean(h, nb, stream, h.heavy(stream[|stream| - 1]) % nb)
    ensures var n := |stream| - 1;
            var b := Run(h, nb, nc, stream[..n]).buckets[h.heavy(stream[n]) % nb];
            Sound(b) && Resident(b) < LIMIT && Nonempty(stream[n])
  {
    hide Sound, Resident, Run, Arrived, Clean, CarriedOut, Guard;
    var i := h.heavy(stream[|stream| - 1]) % nb;
    CleanBefore(h, nb, stream, i);
    VoteAccounting(h, nb, nc, stream[..|stream| - 1], i);
  }

  /** Evictions carry out at most a ninth of the packets of a bucket, whatever the keys are. */
  lemma CarriedAtMostNinth(h: Hashes, nb: nat, nc: nat, stream: seq<Key>, i: nat)
    requires nb > 0 && nc > 0 && i < nb && Arrived(h, nb, stream, i) <= LIMIT
    ensures 9 * CarriedOut(h, nb, nc, stream, i) <= Arrived(h, nb, stream, i)
    ensures Guard(Run(h, nb, nc, stream).buckets[i]) <= 8 * MinCount(Run(h, nb, nc, stream).buckets[i])
  {
    AnyAccounting(h, nb, nc, stream, i);
  }

  // ----- total mass -----

  function TotalResident(buckets: seq<Bucket>): nat {
    if buckets == [] then 0 else TotalResident(buckets[..|buckets| - 1]) + Resident(buckets[|buckets| - 1])
  }

  lemma {:induction false} TotalResidentUpdate(buckets: seq<Bucket>, i: nat, b: Bucket)
    requires i < |buckets|
    ensures TotalResident(buckets[i := b]) == TotalResident(buckets) - Resident(buckets[i]) + Resident(b)
  {
    var n := |buckets| - 1;
    if i < n {
      TotalResidentUpdate(buckets[..n], i, b);
      assert buckets[i := b][..n] == buckets[..n][i := b];
    } else {
      assert buckets[i := b][..n] == buckets[..n];
    }
  }

  lemma {:induction false} TotalResidentEmpty(n: nat)
    ensures TotalResident(seq(n, _ => EMPTY_BUCKET)) == 0
  {
    if n > 0 {
      EmptyIsSound();
      TotalResidentEmpty(n - 1);
      assert seq(n, _ => EMPTY_BUCKET)[..n - 1] == seq(n - 1, _ => EMPTY_BUCKET);
    }
  }

  /** Packets passed on to the light part over a run. */
  function Sent(h: Hashes, nb: nat, nc: nat, stream: seq<Key>): nat
    requires nb > 0 && nc > 0
  {
    if stream == [] then 0 else Sent(h, nb, nc, stream[..|stream| - 1]) + PassedOn(LastOutcome(h, nb, nc, stream))
  }

  /** The light part never gains more than it is sent. */
  lemma LightGains(h: Hashes, s: State, key: Key, o: Outcome)
    requires Sized(s) && o.result <= 2
    ensures Sum(LightStep(h, s, key, o)) <= Sum(s.counters) + PassedOn(o)
    ensures forall p :: 0 <= p < |s.counters| ==> LightStep(h, s, key, o)[p] >= s.counters[p]
  {
    hide Sum, LightPos;
    if o.result == 1 {
      var p := LightPos(h, s, o.swap_key);
      OneCounter(s.counters, p, LightStep(h, s, key, o)[p]);
    } else if o.result != 0 {
      var p := LightPos(h, s, key);
      OneCounter(s.counters, p, LightStep(h, s, key, o)[p]);
    }
  }

  lemma OneCounter(counters: seq<int>, p: nat, x: int)
    requires p < |counters|
    ensures Sum(counters[p := x]) == Sum(counters) - counters[p] + x
  {
    UpdateCounts(counters, p, x);
  }

  /** Packets overwritten over a run. */
  function Lost(h: Hashes, nb: nat, nc: nat, stream: seq<Key>): nat
    requires nb > 0 && nc > 0
  {
    if stream == [] then 0
    else
      var before, x := stream[..|stream| - 1], stream[|stream| - 1];
      var s := Run(h, nb, nc, before);
      Lost(h, nb, nc, before) + Overwritten(s.buckets[HeavyPos(h, s, x)], x)
  }

  /** Without any condition, a stream leaves at most its packets in the two parts. */
  lemma {:induction false} MassAtMost(h: Hashes, nb: nat, nc: nat, stream: seq<Key>)
    requires nb > 0 && nc > 0
    ensures var s := Run(h, nb, nc, stream);
            && TotalResident(s.buckets) + Sent(h, nb, nc, stream) <= |stream|
            && Sum(s.counters) <= Sent(h, nb, nc, stream)
  {
    hide BucketInsert, Resident, PassedOn;
    if stream == [] {
      TotalResidentEmpty(nb);
      CountAll(seq(nc, _ => 0), 0);
    } else {
      var n := |stream| - 1;
      var before, key := stream[..n], stream[n];
      var s := Run(h, nb, nc, before);
      var i := HeavyPos(h, s, key);
      MassAtMost(h, nb, nc, before);
      OneAtMost(s.buckets[i], key);
      TotalResidentUpdate(s.buckets, i, BucketInsert(s.buckets[i], key, 1).bucket);
      LightGains(h, s, key, BucketInsert(s.buckets[i], key, 1));
    }
  }

  /** One insertion brings at most one packet, in any bucket. */
  lemma OneAtMost(b: Bucket, key: Key)
    ensures var o := BucketInsert(b, key, 1);
            Resident(o.bucket) + PassedOn(o) <= Resident(b) + 1 && o.result <= 2
  {
    hide SumCounts, FindKey, MinSlot, CopyString, GetCounterVal;
    var j, e, m := FindKey(b.key, key), FindKey(b.key, ZERO_KEY), MinSlot(b.val, MAX_VALID_COUNTER);
    CountUp(0);
    if j < MAX_VALID_COUNTER {
      CountAtMost(b.val[j]);
      SumCountsUpdate(b.val, MAX_VALID_COUNTER, j, (b.val[j] + 1) % WORD);
    } else if e < MAX_VALID_COUNTER {
      SumCountsUpdate(b.val, MAX_VALID_COUNTER, e, 1);
    } else {
      SumCountsUpdate(b.val, MAX_VALID_COUNTER, MAX_VALID_COUNTER, (b.val[MAX_VALID_COUNTER] + 1) % WORD);
      SwapResident(b, key, m);
    }
  }

  lemma CountAtMost(v: uint32)
    ensures GetCounterVal((v + 1) % WORD) <= GetCounterVal(v) + 1
  {
  }

  /** Every packet is resident, or was sent on, or was overwritten, whatever the keys are. */
  lemma {:induction false} MassConserved(h: Hashes, nb: nat, nc: nat, stream: seq<Key>)
    requires nb > 0 && nc > 0 && |stream| <= LIMIT
    ensures TotalResident(Run(h, nb, nc, stream).buckets) + Sent(h, nb, nc, stream) + Lost(h, nb, nc, stream)
            == |stream|
  {
    hide BucketInsert, Resident, Bounded, Overwritten, Guard, LightStep;
    if stream == [] {
      TotalResidentEmpty(nb);
    } else {
      var n := |stream| - 1;
      var before, key := stream[..n], stream[n];
      var s := Run(h, nb, nc, before);
      var i := HeavyPos(h, s, key);
      MassConserved(h, nb, nc, before);
      ArrivedAtMost(h, nb, before, i);
      AnyAccounting(h, nb, nc, before, i);
      AnyInsertion(s.buckets[i], key);
      TotalResidentUpdate(s.buckets, i, BucketInsert(s.buckets[i], key, 1).bucket);
    }
  }

  lemma {:induction false} NothingOverwritten(h: Hashes, nb: nat, nc: nat, stream: seq<Key>)
    requires nb > 0 && nc > 0 && Admissible(stream)
    ensures Lost(h, nb, nc, stream) == 0
  {
    hide BucketInsert, Sound, Overwritten;
    if stream != [] {
      var n := |stream| - 1;
      var s := Run(h, nb, nc, stream[..n]);
      NothingOverwritten(h, nb, nc, stream[..n]);
      AdmissibleIsClean(h, nb, stream, HeavyPos(h, s, stream[n]));
      ReadyBucket(h, nb, nc, stream);
      SoundIsBounded(s.buckets[HeavyPos(h, s, stream[n])], stream[n]);
    }
  }

  /** So when no key begins with a zero byte every packet is resident or was sent on, and the
      counters hold at most what was sent. */
  lemma MassBound(h: Hashes, nb: nat, nc: nat, stream: seq<Key>)
    requires nb > 0 && nc > 0 && Admissible(stream)
    ensures var s := Run(h, nb, nc, stream);
            && TotalResident(s.buckets) + Sent(h, nb, nc, stream) == |stream|
            && Sum(s.counters) <= Sent(h, nb, nc, stream)
  {
    MassConserved(h, nb, nc, stream);
    NothingOverwritten(h, nb, nc, stream);
    MassAtMost(h, nb, nc, stream);
  }
}
