/** How many flows each server has finished at the end of a run: those that the requests ask of it,
    which over all servers are the entries of the table. */
module IncastTotals {
  import opened Histograms
  import opened IncastProtocol
  import opened IncastNet
  import opened IncastNetSteps
  import opened IncastRuns
  import Table = IncastRequests

  // ----- one server -----

  /** Threads that have written their flow. */
  function Written(senders: seq<Sender>): nat {
    if senders == [] then 0
    else Written(senders[..|senders| - 1]) + if senders[|senders| - 1].stage.Sent? then 1 else 0
  }

  lemma {:induction false} WrittenUpdate(senders: seq<Sender>, j: nat, t: Sender)
    requires j < |senders| && !senders[j].stage.Sent?
    ensures Written(senders[j := t]) == Written(senders) + if t.stage.Sent? then 1 else 0
  {
    var n := |senders| - 1;
    if j < n {
      WrittenUpdate(senders[..n], j, t);
      assert senders[j := t][..n] == senders[..n][j := t];
    } else {
      assert senders[j := t][..n] == senders[..n];
    }
  }

  lemma {:induction false} AllWritten(senders: seq<Sender>)
    requires forall j :: 0 <= j < |senders| ==> senders[j].stage.Sent?
    ensures Written(senders) == |senders|
  {
    if senders != [] { AllWritten(senders[..|senders| - 1]); }
  }

  lemma {:induction false} NoneWritten(senders: seq<Sender>)
    requires forall j :: 0 <= j < |senders| ==> !senders[j].stage.Sent?
    ensures Written(senders) == 0
  {
    if senders != [] { NoneWritten(senders[..|senders| - 1]); }
  }

  /** The flows dispatched to a server are those of the requests before r and those that the
      threads of request r have written. */
  predicate TalliedAt(demand: seq<seq<nat>>, r: nat, i: nat, p: Pool) {
    p.dispatched + Later(demand, r, i) == Later(demand, 0, i) + Written(p.senders)
  }

  predicate Tallied(s: Net) {
    forall i :: 0 <= i < |s.pools| ==> TalliedAt(s.demand, s.r, i, s.pools[i])
  }

  /** The planner dispatches nothing. */
  lemma PlanDispatches(p: Pool)
    requires CanTake(p, Plan)
    ensures PlanStep(p).dispatched == p.dispatched
    ensures !p.plan.Chosen? && !p.plan.Joining? ==> PlanStep(p).senders == p.senders
  {
    hide Launch;
  }

  lemma SendDispatches(p: Pool, j: nat)
    requires CanTake(p, Send(j))
    ensures var r := SendStep(p, j); r.dispatched - Written(r.senders) == p.dispatched - Written(p.senders)
  {
    WrittenUpdate(p.senders, j, SendStep(p, j).senders[j]);
    hide Written;
  }

  lemma StartDispatches(p: Pool)
    ensures StartThreads(p).dispatched == p.dispatched
  {
    hide PlanStep;
    if p.plan.Chosen? && |p.plan.found| == |p.plan.flows| { PlanDispatches(p); }
  }

  lemma JoinDispatches(p: Pool)
    ensures JoinThreads(p).dispatched == p.dispatched
  {
    hide PlanStep;
    if p.plan.Joining? && AllSentAt(p) { PlanDispatches(p); }
  }

  // ----- moves -----

  lemma OneTallied(s: Net, t: Net, i: nat)
    requires Tallied(s) && i < |s.pools| && t.demand == s.demand && t.r == s.r
    requires |t.pools| == |s.pools| && t.pools == s.pools[i := t.pools[i]]
    requires t.pools[i].dispatched - Written(t.pools[i].senders) == s.pools[i].dispatched - Written(s.pools[i].senders)
    ensures Tallied(t)
  {
    hide Later, Written;
    assert TalliedAt(s.demand, s.r, i, s.pools[i]);
  }

  lemma StartTallied(s: Net)
    requires NetInv(s) && Tallied(s) && s.phase == Serving(|s.pools|)
    ensures Tallied(MainStep(s))
  {
    hide Later, StartThreads, PoolInv, Written, SentOk, FlowIdOk;
    forall i | 0 <= i < |s.pools| ensures TalliedAt(s.demand, s.r, i, StartThreads(s.pools[i])) {
      assert PoolHere(s, i) && TalliedAt(s.demand, s.r, i, s.pools[i]);
      NotJoining(s, i);
      ThreadsGone(s.pools[i]);
      NoneWritten(s.pools[i].senders);
      StartPool(s, i);
      NoneWritten(StartThreads(s.pools[i]).senders);
      StartDispatches(s.pools[i]);
    }
  }

  lemma JoinTallied(s: Net)
    requires NetInv(s) && Tallied(s) && CanMove(s, Main) && s.phase.Sending?
    ensures Tallied(MainStep(s))
  {
    hide JoinThreads, PoolInv, Written, SentOk, FlowIdOk, Role, Room;
    forall i | 0 <= i < |s.pools| ensures TalliedAt(s.demand, s.r + 1, i, JoinThreads(s.pools[i])) {
      assert TalliedAt(s.demand, s.r, i, s.pools[i]);
      ThreadCount(s, i);
      AllWritten(s.pools[i].senders);
      JoinPool(s, i);
      NoneWritten(JoinThreads(s.pools[i]).senders);
      JoinDispatches(s.pools[i]);
    }
  }

  lemma ThreadCount(s: Net, i: nat)
    requires NetInv(s) && s.phase.Sending? && i < |s.pools|
    ensures |s.pools[i].senders| == s.demand[s.r][i]
  {
    assert PoolHere(s, i);
    hide PoolInv, CarriesAll, Room, SentOk, FlowIdOk, First;
    if !s.pools[i].plan.Joining? { ThreadsGone(s.pools[i]); }
  }

  lemma ServeTallied(s: Net)
    requires NetInv(s) && Tallied(s) && CanMove(s, Main) && (s.phase.Serving? || s.phase.Quitting?)
    requires s.phase.i < |s.pools|
    ensures Tallied(MainStep(s))
  {
    hide Written, PlanStep, NetInv, Later;
    var i := s.phase.i;
    var p := s.pools[i];
    NotThere(s, i);
    if CanTake(p, Plan) { PlanDispatches(p); }
    var t := MainStep(s);
    if t.pools != s.pools { OneTallied(s, t, i); }
  }

  lemma NotThere(s: Net, i: nat)
    requires NetInv(s) && (s.phase.Serving? || s.phase.Quitting?) && i < |s.pools|
    ensures !s.pools[i].plan.Joining? && (s.phase.Quitting? ==> !s.pools[i].plan.Chosen?)
  {
    assert PoolHere(s, i);
    hide PoolInv, CarriesAll, Room, SentOk, FlowIdOk;
  }

  lemma MovedTallied(s: Net, m: NetMove)
    requires NetInv(s) && Tallied(s) && CanMove(s, m)
    ensures Tallied(Moved(s, m))
  {
    match m
    case Main =>
      if s.phase == Serving(|s.pools|) {
        StartTallied(s);
      } else if s.phase.Sending? {
        JoinTallied(s);
      } else if s.phase == Quitting(|s.pools|) {
      } else {
        ServeTallied(s);
      }
      hide NetInv, Tallied, MainStep;
    case SendAt(i, j) =>
      hide NetInv, Written, SendStep;
      SendDispatches(s.pools[i], j);
      OneTallied(s, Moved(s, m), i);
    case HearAt(i, k) =>
      hide NetInv, Written;
      OneTallied(s, Moved(s, m), i);
  }

  lemma {:induction false} RunsTallied(s: Net, moves: seq<NetMove>)
    requires NetInv(s) && Tallied(s) && NetRuns(s, moves)
    ensures Tallied(NetReached(s, moves))
    decreases |moves|
  {
    if moves != [] {
      MovedOk(s, moves[0]);
      MovedTallied(s, moves[0]);
      hide NetInv, CanMove, Moved, Tallied;
      RunsTallied(Moved(s, moves[0]), moves[1..]);
    }
  }

  // ----- the totals -----

  /** Flows for the first n servers in request r and after. */
  function LaterAll(demand: seq<seq<nat>>, r: nat, n: nat): nat {
    if n == 0 then 0 else LaterAll(demand, r, n - 1) + Later(demand, r, n - 1)
  }

  /** Counted by server or by request, the flows are the same. */
  lemma {:induction false} LaterByRequest(demand: seq<seq<nat>>, r: nat, n: nat)
    requires r <= |demand| && forall q :: 0 <= q < |demand| ==> |demand[q]| == n
    ensures LaterAll(demand, r, n) + Base(demand, r) == Base(demand, |demand|)
    decreases |demand| - r
  {
    if r == |demand| {
      LaterNone(demand, r, n);
    } else {
      hide Base;
      LaterByRequest(demand, r + 1, n);
      LaterStep(demand, r, n);
      BaseStep(demand, r);
      assert demand[r][..n] == demand[r];
    }
  }

  lemma {:induction false} LaterNone(demand: seq<seq<nat>>, r: nat, n: nat)
    requires r >= |demand|
    ensures LaterAll(demand, r, n) == 0
  {
    if n > 0 { LaterNone(demand, r, n - 1); }
  }

  lemma {:induction false} LaterStep(demand: seq<seq<nat>>, r: nat, n: nat)
    requires r < |demand| && n <= |demand[r]|
    ensures LaterAll(demand, r, n) == LaterAll(demand, r + 1, n) + Sum(demand[r][..n])
  {
    if n > 0 {
      LaterStep(demand, r, n - 1);
      SumStep(demand[r], n - 1);
    }
  }

  /** When the client is done, every server has finished exactly the flows that the requests ask of
      it, and together they are the entries of the table. */
  lemma AllFlowsFinished(demand: seq<seq<nat>>, sizes: seq<nat>, moves: seq<NetMove>)
    requires Startable(demand, sizes) && NetRuns(NetStart(demand, sizes), moves)
    requires NetReached(NetStart(demand, sizes), moves).phase.Done?
    ensures var s := NetReached(NetStart(demand, sizes), moves);
            && |s.pools| == |sizes| && Settled(s)
            && (forall i :: 0 <= i < |sizes| ==>
                  s.pools[i].flow_finished == s.pools[i].dispatched == Later(demand, 0, i))
            && LaterAll(demand, 0, |sizes|) == |FlowTable(demand)|
  {
    var start := NetStart(demand, sizes);
    NetStartOk(demand, sizes);
    NetRunsOk(start, moves);
    StartIsTallied(demand, sizes);
    RunsTallied(start, moves);
    RunsKeepPools(start, moves);
    var s := NetReached(start, moves);
    DoneSettled(s);
    EndTotals(s, demand, sizes);
    LaterByRequest(demand, 0, |sizes|);
    TableLength(demand);
  }

  lemma StartIsTallied(demand: seq<seq<nat>>, sizes: seq<nat>)
    ensures Tallied(NetStart(demand, sizes))
  {
    hide Later;
  }

  lemma {:induction false} RunsKeepPools(s: Net, moves: seq<NetMove>)
    requires NetRuns(s, moves)
    ensures |NetReached(s, moves).pools| == |s.pools|
    decreases |moves|
  {
    hide StartThreads, JoinThreads, PlanStep, SendStep, HearStep, Take;
    if moves != [] { RunsKeepPools(Moved(s, moves[0]), moves[1..]); }
  }

  lemma EndTotals(s: Net, demand: seq<seq<nat>>, sizes: seq<nat>)
    requires NetInv(s) && Tallied(s) && Settled(s) && s.phase.Done? && Startable(demand, sizes)
    requires s.demand == demand && |s.pools| == |sizes|
    ensures forall i :: 0 <= i < |sizes| ==>
              s.pools[i].flow_finished == s.pools[i].dispatched == Later(demand, 0, i)
  {
    forall i | 0 <= i < |sizes|
      ensures s.pools[i].flow_finished == s.pools[i].dispatched == Later(demand, 0, i)
    {
      assert PoolHere(s, i) && TalliedAt(s.demand, s.r, i, s.pools[i]);
      assert Later(demand, |demand|, i) == 0;
      hide PoolInv, Later, CarriesAll, Room, SentOk;
      ThreadsGone(s.pools[i]);
    }
  }

  lemma TableLength(demand: seq<seq<nat>>)
    ensures Base(demand, 0) == 0 && Base(demand, |demand|) == |FlowTable(demand)|
  {
    var fanouts := Fanouts(demand);
    Table.FlowReqCount(fanouts);
    assert fanouts[..|demand|] == fanouts;
  }
}
