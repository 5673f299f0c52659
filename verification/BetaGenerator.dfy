/** BetaGenerator of common/EMFSD.h: walks the decompositions of a counter value in place, one
    lexicographic successor at a time. */
module BetaEnumeration {
  import opened Histograms
  import opened Partitions

  /** flow_num_limit, by the size of the value to decompose. */
  function FlowNumLimit(sum: int): (limit: nat)
    ensures 3 <= limit <= 7
  {
    if sum > 600 then 3 else if sum > 300 then 4 else if sum > 50 then 5 else 7
  }

  /** Every decomposition the generator is to produce, in order. */
  function Enumeration(sum: int): seq<seq<int>> {
    AllParts(sum, FlowNumLimit(sum) - 1)
  }

  /** The enumeration is exact, free of repetitions and ordered: it holds every decomposition with
      fewer parts than the limit and nothing else, and each one precedes all later ones. */
  lemma EnumerationExact(sum: int, q: seq<int>)
    ensures q in Enumeration(sum) <==> IsPartition(q, sum) && |q| < FlowNumLimit(sum)
    ensures forall i, j :: 0 <= i < j < |Enumeration(sum)| ==>
              Enumeration(sum)[i] != Enumeration(sum)[j] && Before(Enumeration(sum)[i], Enumeration(sum)[j])
  {
    AllPartsExact(sum, FlowNumLimit(sum) - 1, q);
    AllPartsOrdered(sum, FlowNumLimit(sum) - 1);
    var all := AllParts(sum, FlowNumLimit(sum) - 1);
    forall i, j | 0 <= i < j < |all| ensures all[i] != all[j] && Before(all[i], all[j]) {
      BeforeAsymmetric(all[i], all[j]);
    }
  }

  /** The largest number of parts listed: six for values up to 50, four up to 300, three up to 600 and
      two above, or as many as the value has units. */
  lemma MostParts(sum: nat) returns (q: seq<int>)
    requires sum >= 1
    ensures var most := if sum > 600 then 2 else if sum > 300 then 3 else if sum > 50 then 4
                        else if sum > 6 then 6 else sum;
            && q in Enumeration(sum) && |q| == most
            && forall i :: 0 <= i < |Enumeration(sum)| ==> |Enumeration(sum)[i]| <= most
  {
    var most := if sum > 600 then 2 else if sum > 300 then 3 else if sum > 50 then 4 else if sum > 6 then 6 else sum;
    q := OnesAndRest(sum, most);
    hide Enumeration, IsPartition;
    EnumerationExact(sum, q);
    forall i | 0 <= i < |Enumeration(sum)| ensures |Enumeration(sum)[i]| <= most {
      EnumerationExact(sum, Enumeration(sum)[i]);
      LengthWithinSum(Enumeration(sum)[i], sum);
    }
  }

  lemma OnesAndRest(sum: nat, most: nat) returns (q: seq<int>)
    requires 1 <= most <= sum
    ensures IsPartition(q, sum) && |q| == most
  {
    var ones := seq(most - 1, _ => 1);
    q := ones + [sum - most + 1];
    CountAll(ones, 1);
    SumSnoc(ones, sum - most + 1);
  }

  lemma LengthWithinSum(q: seq<int>, sum: int)
    requires IsPartition(q, sum)
    ensures |q| <= sum
  {
    NoMoreParts(q);
  }

  lemma {:induction false} NoMoreParts(q: seq<int>)
    requires forall i :: 0 <= i < |q| ==> q[i] >= 1
    ensures |q| <= Sum(q)
  {
    if q != [] { NoMoreParts(q[1..]); }
  }

  /** std::vector::resize, which fills with zeros. */
  function Resize(v: seq<int>, m: nat): (r: seq<int>)
    ensures |r| == m
    ensures forall i :: 0 <= i < m ==> r[i] == if i < |v| then v[i] else 0
  {
    if m <= |v| then v[..m] else v + seq(m - |v|, _ => 0)
  }

  // ----- the successor of a prefix -----

  /** All parts but the last: the tentative successor keeps p below position j, raises p[j]
      and repeats the raised value. */
  function Raised(p: seq<int>, j: nat): (r: seq<int>)
    requires j < |p|
    ensures |r| == |p| && r[..j] == p[..j]
    ensures forall i :: j <= i < |p| ==> r[i] == p[j] + 1
  {
    p[..j] + seq(|p| - j, _ => p[j] + 1)
  }

  /** The last part that is left after a tentative successor is not too small. */
  predicate Fits(p: seq<int>, j: nat, s: int)
    requires j < |p|
  {
    s - Sum(Raised(p, j)) >= p[j] + 1
  }

  /** p becomes a nondecreasing positive sequence when its last element is raised. */
  ghost predicate Ready(p: seq<int>) {
    p != [] && NonDecreasing(Raised(p, |p| - 1)) && Raised(p, |p| - 1)[0] >= 1
  }

  lemma RaisedDominates(p: seq<int>, j: nat, q: seq<int>, s: int)
    requires |q| == |p| + 1 && IsPartition(q, s)
    requires j < |p| && q[..j] == p[..j] && p[j] < q[j]
    ensures forall i :: 0 <= i < |p| ==> Raised(p, j)[i] <= q[..|p|][i]
    ensures Fits(p, j, s)
  {
    var n := |p|;
    forall i | 0 <= i < n ensures Raised(p, j)[i] <= q[..n][i] {
      if i < j { assert Raised(p, j)[i] == p[..j][i] == q[..j][i]; }
    }
    SumMonotone(Raised(p, j), q[..n]);
    assert q == q[..n] + [q[n]];
    SumSnoc(q[..n], q[n]);
    assert Raised(p, j)[n - 1] <= q[..n][n - 1] <= q[n];
  }

  /** The sequence the generator stores when it accepts position j. */
  function Successor(p: seq<int>, j: nat, s: int): seq<int>
    requires j < |p|
  {
    Raised(p, j) + [s - Sum(Raised(p, j))]
  }

  /** What raising position j leaves in the stored sequence. */
  lemma RaisedState(now: seq<int>, p: seq<int>, j: nat, remain: int, s: int)
    requires j < |p| && |now| == |p| + 1 && now[..|p|] == Raised(p, j) && remain == s - Sum(Raised(p, j))
    ensures now[..j] == p[..j] && (remain >= now[|p| - 1] <==> Fits(p, j, s))
    ensures now[|p| := remain] == Successor(p, j, s)
  {
    var r := Raised(p, j);
    assert now[|p| - 1] == now[..|p|][|p| - 1] == r[|p| - 1];
    assert now[..j] == now[..|p|][..j] == r[..j];
    assert now[|p| := remain] == now[..|p|] + [remain];
  }

  lemma SuccessorIsPartition(p: seq<int>, j: nat, s: int)
    requires Ready(p) && j < |p| && Fits(p, j, s)
    ensures IsPartition(Successor(p, j, s), s) && |Successor(p, j, s)| == |p| + 1
    ensures Lex(p, Successor(p, j, s)[..|p|])
  {
    var r, x := Raised(p, j), Successor(p, j, s);
    assert NonDecreasing(x) && x[0] >= 1 by {
      RaisedNonDecreasing(p, j);
      AppendNonDecreasing(r, s - Sum(r));
    }
    assert Sum(x) == s by { SumSnoc(r, s - Sum(r)); }
    assert x[..|p|] == r;
    assert Lex(p, r) by { LexAt(p, r, j); }
  }

  lemma AppendNonDecreasing(r: seq<int>, v: int)
    requires r != [] && NonDecreasing(r) && r[|r| - 1] <= v
    ensures NonDecreasing(r + [v])
  {
  }

  lemma RaisedNonDecreasing(p: seq<int>, j: nat)
    requires Ready(p) && j < |p|
    ensures NonDecreasing(Raised(p, j)) && Raised(p, j)[0] >= 1 && Raised(p, j)[|p| - 1] == p[j] + 1
  {
    var r, top := Raised(p, j), Raised(p, |p| - 1);
    forall i | 0 <= i < |p| - 1 ensures p[i] == top[i] { assert top[..|p| - 1][i] == p[..|p| - 1][i]; }
    forall i | 0 <= i < j ensures r[i] == p[i] { assert r[..j][i] == p[..j][i]; }
    forall i, k | 0 <= i < k < |p| ensures r[i] <= r[k] {
      if i < j { assert top[i] <= top[j]; }
      if k < j { assert top[i] <= top[k]; }
    }
  }

  /** When every later position fails, the accepted one gives the least decomposition above p. */
  lemma SuccessorIsLeast(p: seq<int>, j: int, s: int, q: seq<int>)
    requires -1 <= j < |p| && forall k :: j < k < |p| ==> !Fits(p, k, s)
    requires IsPartition(q, s) && |q| == |p| + 1 && Lex(p, q[..|p|])
    ensures j >= 0 && (q == Successor(p, j, s) || Lex(Successor(p, j, s), q))
  {
    var d := LexWitness(p, q[..|p|]);
    assert q[..|p|][..d] == q[..d];
    RaisedDominates(p, d, q, s);
    if d == j { LeastAtPosition(p, j, s, q); } else { LeastBeforePosition(p, d, j, s, q); }
  }

  /** Of the decompositions of s with one more part than p, none above p precedes x, and there
      is none at all unless one was found. */
  ghost predicate NoneBetween(p: seq<int>, s: int, found: bool, x: seq<int>) {
    forall q :: IsPartition(q, s) && |q| == |p| + 1 && Lex(p, q[..|p|]) ==> found && (q == x || Lex(x, q))
  }

  /** The outcome of the search at position j. */
  lemma FoundLeast(p: seq<int>, j: nat, s: int)
    requires j < |p| && forall k :: j < k < |p| ==> !Fits(p, k, s)
    ensures NoneBetween(p, s, true, Successor(p, j, s))
  {
    forall q | IsPartition(q, s) && |q| == |p| + 1 && Lex(p, q[..|p|])
      ensures q == Successor(p, j, s) || Lex(Successor(p, j, s), q)
    {
      SuccessorIsLeast(p, j, s, q);
    }
  }

  /** The outcome of a search that found no position. */
  lemma FoundNone(p: seq<int>, s: int, x: seq<int>)
    requires forall k :: 0 <= k < |p| ==> !Fits(p, k, s)
    ensures NoneBetween(p, s, false, x)
  {
    forall q | IsPartition(q, s) && |q| == |p| + 1 && Lex(p, q[..|p|]) ensures false {
      SuccessorIsLeast(p, -1, s, q);
    }
  }

  lemma LeastAtPosition(p: seq<int>, j: nat, s: int, q: seq<int>)
    requires j < |p| && IsPartition(q, s) && |q| == |p| + 1
    requires forall i :: 0 <= i < |p| ==> Raised(p, j)[i] <= q[..|p|][i]
    ensures q == Successor(p, j, s) || Lex(Successor(p, j, s), q)
  {
    var n, r := |p|, Raised(p, j);
    BelowIsLex(r, q[..n]);
    if r == q[..n] {
      assert q == q[..n] + [q[n]];
      SumSnoc(r, q[n]);
    } else {
      hide Raised, IsPartition, Sum;
      LexGrows(r, q, Successor(p, j, s));
    }
  }

  /** What is above the beginning of a sequence of the same length is above the sequence. */
  lemma LexGrows(r: seq<int>, q: seq<int>, x: seq<int>)
    requires |q| == |x| == |r| + 1 && x[..|r|] == r && Lex(r, q[..|r|])
    ensures Lex(x, q)
  {
    var e := LexWitness(r, q[..|r|]);
    assert x[..e] == r[..e] == q[..|r|][..e] == q[..e];
    LexAt(x, q, e);
  }

  lemma LeastBeforePosition(p: seq<int>, d: nat, j: nat, s: int, q: seq<int>)
    requires d < j < |p| && |q| == |p| + 1 && q[..d] == p[..d] && p[d] < q[d]
    ensures Lex(Successor(p, j, s), q)
  {
    var x := Successor(p, j, s);
    assert x[..j] == Raised(p, j)[..j] == p[..j];
    assert x[..d] == x[..j][..d] == p[..j][..d] == p[..d];
    assert x[d] == x[..j][d] == p[..j][d];
    LexAt(x, q, d);
  }

  // ----- positions in the enumeration -----

  /** Just before the first decomposition into m parts the prefix is 1, ..., 1, 0. */
  ghost predicate Fresh(p: seq<int>) {
    p != [] && p[|p| - 1] == 0 && forall i :: 0 <= i < |p| - 1 ==> p[i] == 1
  }

  lemma FreshIsBelow(p: seq<int>, q: seq<int>, s: int)
    requires Fresh(p) && |q| == |p| + 1 && IsPartition(q, s)
    ensures Lex(p, q[..|p|])
  {
    var n := |p|;
    BelowIsLex(p, q[..n]);
    assert q[..n][n - 1] >= 1;
  }

  /** p is the prefix reached after the first pos decompositions, with m parts to form next. */
  ghost predicate Reached(p: seq<int>, m: nat, s: int, pos: nat) {
    && m >= 2 && |p| == m - 1
    && if Fresh(p) then pos == |AllParts(s, m - 1)|
       else |AllParts(s, m - 1)| < pos <= |AllParts(s, m)| && p <= AllParts(s, m)[pos - 1]
  }

  /** The part of the enumeration with m parts, and where position pos falls in it. */
  lemma LevelOf(s: int, m: nat, pos: nat)
    requires m >= 1 && |AllParts(s, m - 1)| < pos <= |AllParts(s, m)|
    ensures var i := pos - 1 - |AllParts(s, m - 1)|;
            i < |Parts(m, 1, s)| && AllParts(s, m)[pos - 1] == Parts(m, 1, s)[i] && InParts(Parts(m, 1, s)[i], m, 1, s)
  {
    PartsExact(m, 1, s, Parts(m, 1, s)[pos - 1 - |AllParts(s, m - 1)|]);
  }

  lemma ReachedIsReady(p: seq<int>, m: nat, s: int, pos: nat)
    requires Reached(p, m, s, pos)
    ensures Ready(p)
  {
    if !Fresh(p) { LevelOf(s, m, pos); }
  }

  /** The decompositions with m parts beyond a reached position are those above its prefix. */
  lemma BeyondIsAbove(p: seq<int>, m: nat, s: int, pos: nat, j: nat)
    requires Reached(p, m, s, pos) && pos <= j < |AllParts(s, m)|
    ensures var q := AllParts(s, m)[j]; IsPartition(q, s) && |q| == m && Lex(p, q[..m - 1])
  {
    hide AllParts, Lex, Sum;
    var q := AllParts(s, m)[j];
    LevelOf(s, m, j + 1);
    if Fresh(p) {
      FreshIsBelow(p, q, s);
    } else {
      LevelOf(s, m, pos);
      AllPartsOrdered(s, m);
      assert AllParts(s, m)[pos - 1][..m - 1] == p;
      assert Before(AllParts(s, m)[pos - 1], q);
      LexPrefix(AllParts(s, m)[pos - 1], q);
    }
  }

  lemma ReachedBounds(p: seq<int>, m: nat, s: int, pos: nat)
    requires Reached(p, m, s, pos)
    ensures |AllParts(s, m - 1)| <= pos <= |AllParts(s, m)|
  {
    AllPartsPrefix(s, m - 1, m);
  }

  /** The least decomposition above a reached prefix is the next one listed. */
  lemma LeastIsNext(p: seq<int>, m: nat, s: int, pos: nat, x: seq<int>)
    requires Reached(p, m, s, pos) && IsPartition(x, s) && |x| == m && Lex(p, x[..m - 1])
    requires NoneBetween(p, s, true, x)
    ensures |AllParts(s, m - 1)| <= pos < |AllParts(s, m)| && AllParts(s, m)[pos] == x
  {
    ReachedBounds(p, m, s, pos);
    var ps := AllParts(s, m);
    AllPartsExact(s, m, x);
    AllPartsOrdered(s, m);
    if pos > 0 { ReachedIsBefore(p, m, s, pos, x); }
    forall j | pos - 1 < j < |ps| ensures ps[j] == x || Before(x, ps[j]) {
      BeyondIsAbove(p, m, s, pos, j);
    }
    NextInOrder(ps, pos - 1, x);
  }

  lemma NothingAbove(p: seq<int>, m: nat, s: int, pos: nat, x: seq<int>)
    requires Reached(p, m, s, pos) && NoneBetween(p, s, false, x)
    ensures pos == |AllParts(s, m)|
  {
    ReachedBounds(p, m, s, pos);
    if pos < |AllParts(s, m)| {
      BeyondIsAbove(p, m, s, pos, pos);
      assert false;
    }
  }

  lemma ReachedIsBefore(p: seq<int>, m: nat, s: int, pos: nat, x: seq<int>)
    requires Reached(p, m, s, pos) && pos > 0 && |x| == m && Lex(p, x[..m - 1])
    ensures pos <= |AllParts(s, m)| && Before(AllParts(s, m)[pos - 1], x)
  {
    var last := AllParts(s, m)[pos - 1];
    if Fresh(p) {
      AllPartsExact(s, m - 1, last);
    } else {
      LevelOf(s, m, pos);
      var d := LexWitness(p, x[..m - 1]);
      assert last[..m - 1] == p;
      assert last[..d] == p[..d] == x[..m - 1][..d] == x[..d];
      LexAt(last, x, d);
    }
  }

  lemma NothingSummed(s: seq<int>)
    ensures Sum(s[..0]) == 0
  {
  }

  class BetaGenerator {
    var sum: int
    var now_flow_num: nat
    var flow_num_limit: nat
    var now_result: seq<int>
    ghost var pos: nat  // decompositions produced so far

    /** The generator of a positive value stands at position pos of its enumeration. */
    ghost predicate Valid()
      reads this
    {
      && sum >= 1 && flow_num_limit == FlowNumLimit(sum)
      && if now_flow_num == 0 then pos == 0
         else if now_flow_num < flow_num_limit then InLevel(now_flow_num)
         else now_flow_num == flow_num_limit && pos == |Enumeration(sum)|
    }

    constructor (total: int)
      ensures sum == total && pos == 0
      ensures total >= 1 ==> Valid()
    {
      sum := total;
      now_flow_num := 0;
      now_result := [];
      flow_num_limit := FlowNumLimit(total);
      pos := 0;
    }

    /** One turn of the search: raises position j, repeats the raised value up to the last part
        but one, and returns what is left for the last part. */
    method RaiseAt(j: nat, ghost p: seq<int>) returns (remain: int)
      requires |now_result| == now_flow_num == |p| + 1 && j < |p|
      requires now_result[..j + 1] == p[..j + 1]
      modifies this`now_result
      ensures |now_result| == now_flow_num && now_result[..|p|] == Raised(p, j)
      ensures remain == sum - Sum(Raised(p, j))
    {
      hide Sum, Raised;
      assert now_result[j] == now_result[..j + 1][j] == p[j];
      ghost var r := Raised(p, j);
      var t := now_result[j] + 1;
      now_result := now_result[j := t];
      var k := j + 1;
      assert now_result[..k] == r[..k];
      while k < now_flow_num - 1
        invariant j + 1 <= k <= |p| && |now_result| == now_flow_num
        invariant forall i :: 0 <= i < k ==> now_result[i] == r[i]
      {
        now_result := now_result[k := t];
        k := k + 1;
      }
      assert now_result[..|p|] == r;
      var partial_sum := PartialSum();
      remain := sum - partial_sum;
    }

    /** The sum of all stored parts but the last. */
    method PartialSum() returns (partial_sum: int)
      requires 0 < now_flow_num == |now_result|
      ensures partial_sum == Sum(now_result[..now_flow_num - 1])
    {
      hide Sum;
      NothingSummed(now_result);
      partial_sum := 0;
      var k := 0;
      while k < now_flow_num - 1
        invariant 0 <= k <= now_flow_num - 1
        invariant partial_sum == Sum(now_result[..k])
      {
        SumStep(now_result, k);
        partial_sum := partial_sum + now_result[k];
        k := k + 1;
      }
    }

    /** Replaces the stored sequence by the least decomposition of the same length above it, or
        reports that there is none. */
    method GetNewComb() returns (ok: bool)
      requires now_flow_num == |now_result| >= 2 && Ready(now_result[..now_flow_num - 1])
      modifies this`now_result
      ensures |now_result| == now_flow_num
      ensures ok ==>
                IsPartition(now_result, sum) &&
                Lex(old(now_result)[..now_flow_num - 1], now_result[..now_flow_num - 1])
      ensures NoneBetween(old(now_result)[..now_flow_num - 1], sum, ok, now_result)
    {
      hide Raised, Successor, Fits, Sum, IsPartition, Lex, Ready, NoneBetween;
      ghost var p := now_result[..now_flow_num - 1];
      var j := now_flow_num - 2;
      while j >= 0
        invariant -1 <= j < |p| && |now_result| == now_flow_num
        invariant now_result[..j + 1] == p[..j + 1]
        invariant forall k :: j < k < |p| ==> !Fits(p, k, sum)
      {
        var remain := RaiseAt(j, p);
        RaisedState(now_result, p, j, remain, sum);
        if remain >= now_result[now_flow_num - 2] {
          now_result := now_result[now_flow_num - 1 := remain];
          SuccessorIsPartition(p, j, sum);
          FoundLeast(p, j, sum);
          return true;
        }
        j := j - 1;
      }
      FoundNone(p, sum, now_result);
      return false;
    }

    /** Case 0 of get_next: the value itself is the first decomposition. */
    method ProduceWhole()
      requires Valid() && now_flow_num == 0
      modifies this`now_flow_num, this`now_result, this`pos
      ensures Valid() && pos == 1 && now_flow_num == |now_result| == 1
      ensures Enumeration(sum) != [] && now_result == Enumeration(sum)[0]
    {
      FirstLevel(sum);
      LevelsNest(sum, 1);
      now_flow_num := 1;
      now_result := Resize(now_result, 1);
      now_result := now_result[0 := sum];
      pos := 1;
      assert now_result == [sum];
    }

    /** Case 1 of get_next: prepares the search for two parts. */
    method OpenPairs()
      requires Valid() && now_flow_num == 1
      modifies this`now_flow_num, this`now_result
      ensures now_flow_num == 2 && AtLevel(2)
    {
      FirstLevel(sum);
      now_flow_num := 2;
      now_result := now_result[0 := 0];
    }

    /** The search of the default branch, from a prefix that has been reached. */
    method Search(ghost p: seq<int>) returns (found: bool)
      requires |now_result| == now_flow_num >= 2 && p == now_result[..now_flow_num - 1] &&
        Reached(p, now_flow_num, sum, pos)
      modifies this`now_result
      ensures |now_result| == now_flow_num
      ensures if found
              then |AllParts(sum, now_flow_num - 1)| <= pos < |AllParts(sum, now_flow_num)| &&
                now_result == AllParts(sum, now_flow_num)[pos]
              else pos == |AllParts(sum, now_flow_num)|
    {
      hide AllParts, Reached, IsPartition, Lex, Ready, NoneBetween;
      ReachedIsReady(p, now_flow_num, sum, pos);
      found := GetNewComb();
      if found {
        LeastIsNext(p, now_flow_num, sum, pos, now_result);
      } else {
        NothingAbove(p, now_flow_num, sum, pos, now_result);
      }
    }

    /** The default branch of get_next up to the search: the next decomposition into
        now_flow_num parts, if there is one. */
    method NextInLevel() returns (found: bool)
      requires sum >= 1 && now_flow_num >= 2
      requires AtLevel(now_flow_num) || InLevel(now_flow_num)
      modifies this`now_result, this`pos
      ensures |now_result| == now_flow_num
      ensures found <==> old(pos) < |AllParts(sum, now_flow_num)|
      ensures found ==> InLevel(now_flow_num) && pos == old(pos) + 1
      ensures !found ==> pos == old(pos) == |AllParts(sum, now_flow_num)|
    {
      LevelReached(now_flow_num);
      hide AllParts, Reached, Fresh, AtLevel;
      now_result := Resize(now_result, now_flow_num);
      found := Search(now_result[..now_flow_num - 1]);
      if found { pos := pos + 1; }
    }

    /** The else branch of get_next: prepares the search with one more part. */
    method OpenLevel()
      requires |now_result| == now_flow_num >= 2 && pos == |AllParts(sum, now_flow_num)|
      modifies this`now_result, this`now_flow_num
      ensures now_flow_num == old(now_flow_num) + 1 && AtLevel(now_flow_num)
    {
      now_flow_num := now_flow_num + 1;
      var i := 0;
      while i < now_flow_num - 2
        invariant now_flow_num == old(now_flow_num) + 1
        invariant 0 <= i <= now_flow_num - 2 && |now_result| == now_flow_num - 1
        invariant forall k :: 0 <= k < i ==> now_result[k] == 1
      {
        now_result := now_result[i := 1];
        i := i + 1;
      }
      now_result := now_result[now_flow_num - 2 := 0];
    }

    /** The default branch of get_next. */
    method DefaultCase() returns (ok: bool)
      requires sum >= 1 && flow_num_limit == FlowNumLimit(sum) && 2 <= now_flow_num < flow_num_limit
      requires AtLevel(now_flow_num) || InLevel(now_flow_num)
      modifies this`now_flow_num, this`now_result, this`pos
      ensures ok ==> pos == old(pos) + 1 <= |Enumeration(sum)| && now_result == Enumeration(sum)[old(pos)]
      ensures ok ==> |now_result| == now_flow_num < flow_num_limit && InLevel(now_flow_num)
      ensures !ok ==> pos == old(pos) && now_flow_num == old(now_flow_num) + 1 && AtLevel(now_flow_num)
    {
      ok := NextInLevel();
      if ok {
        LevelsNest(sum, now_flow_num);
      } else {
        OpenLevel();
      }
    }

    /** Produces the next decomposition of the enumeration, or false when there is none left. */
    method GetNext() returns (ok: bool)
      requires Valid()
      modifies this
      ensures Valid() && sum == old(sum)
      ensures ok <==> old(pos) < |Enumeration(sum)|
      ensures ok ==> pos == old(pos) + 1 && now_result == Enumeration(sum)[old(pos)] && now_flow_num == |now_result|
      ensures !ok ==> pos == old(pos)
    {
      while now_flow_num < flow_num_limit
        invariant sum == old(sum) && sum >= 1 && flow_num_limit == FlowNumLimit(sum) && pos == old(pos)
        invariant Valid() || (now_flow_num <= flow_num_limit && AtLevel(now_flow_num))
        decreases flow_num_limit - now_flow_num
      {
        if now_flow_num == 0 {
          ProduceWhole();
          return true;
        }
        if now_flow_num == 1 { OpenPairs(); }
        ok := DefaultCase();
        if ok { return; }
      }
      return false;
    }

    /** Standing on a decomposition into m parts. */
    ghost predicate InLevel(m: nat)
      reads this
    {
      m >= 1 && now_flow_num == m && |AllParts(sum, m - 1)| < pos <= |AllParts(sum, m)| &&
        now_result == AllParts(sum, m)[pos - 1]
    }

    /** About to look for decompositions into m parts. */
    ghost predicate AtLevel(m: nat)
      reads this
    {
      m >= 2 && now_flow_num == m && |now_result| == m - 1 && Fresh(now_result) && pos == |AllParts(sum, m - 1)|
    }

    lemma LevelReached(m: nat)
      requires m >= 2 && (AtLevel(m) || InLevel(m))
      ensures Reached(Resize(now_result, m)[..m - 1], m, sum, pos)
    {
      if AtLevel(m) {
        assert Resize(now_result, m)[..m - 1] == now_result;
      } else {
        LevelOf(sum, m, pos);
        assert Resize(now_result, m) == now_result;
      }
    }
  }

  lemma LevelsNest(s: int, m: nat)
    ensures m < FlowNumLimit(s) ==> AllParts(s, m) <= Enumeration(s)
    ensures m == FlowNumLimit(s) - 1 ==> AllParts(s, m) == Enumeration(s)
  {
    if m < FlowNumLimit(s) { AllPartsPrefix(s, m, FlowNumLimit(s) - 1); }
  }

  /** The whole value is the first decomposition, and the only one with a single part. */
  lemma FirstLevel(s: int)
    requires s >= 1
    ensures AllParts(s, 0) == [] && AllParts(s, 1) == [[s]]
  {
    assert AllParts(s, 1) == AllParts(s, 0) + Parts(1, 1, s);
  }
}
