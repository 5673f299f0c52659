/** Every flow id of the incast client is received once: over all servers, and over every run. */
module IncastFlows {
  import opened PoolProtocol
  import opened PoolFlows
  import opened IncastProtocol
  import opened IncastSteps
  import opened IncastNet
  import opened IncastNetSteps
  import opened IncastRuns

  function HeldNet(pools: seq<Pool>, f: nat): nat {
    if pools == [] then 0 else HeldNet(pools[..|pools| - 1], f) + HeldAll(pools[|pools| - 1].nodes, f)
  }

  lemma {:induction false} HeldNetUpdate(pools: seq<Pool>, i: nat, p: Pool, f: nat)
    requires i < |pools|
    ensures HeldNet(pools[i := p], f) == HeldNet(pools, f) - HeldAll(pools[i].nodes, f) + HeldAll(p.nodes, f)
  {
    hide HeldAll;
    var last := |pools| - 1;
    if i < last {
      HeldNetUpdate(pools[..last], i, p, f);
      assert pools[i := p][..last] == pools[..last][i := p];
    } else {
      assert pools[i := p][..last] == pools[..last];
    }
  }

  lemma {:induction false} HeldNetSame(pools: seq<Pool>, pools': seq<Pool>, f: nat)
    requires |pools| == |pools'|
    requires forall i :: 0 <= i < |pools| ==> HeldAll(pools[i].nodes, f) == HeldAll(pools'[i].nodes, f)
    ensures HeldNet(pools, f) == HeldNet(pools', f)
  {
    hide HeldAll;
    if pools != [] { HeldNetSame(pools[..|pools| - 1], pools'[..|pools| - 1], f); }
  }

  lemma {:induction false} NothingHeld(pools: seq<Pool>, f: nat)
    requires forall i :: 0 <= i < |pools| ==> HeldAll(pools[i].nodes, f) == 0
    ensures HeldNet(pools, f) == 0
  {
    hide HeldAll;
    if pools != [] { NothingHeld(pools[..|pools| - 1], f); }
  }

  // ----- one server -----

  lemma PlanHeld(p: Pool, f: nat)
    requires PoolInv(p) && CanTake(p, Plan) && f != 0
    ensures HeldAll(PlanStep(p).nodes, f) == HeldAll(p.nodes, f)
  {
    hide HeldAll, Up, Down, PoolNodesOk, SendersOk, PoolCountsOk, PlanOk, Shortfall, Launch, NEW_NODE;
    match p.plan
    case Growing(_, _, _, _) => LinkHeld(p.nodes, f);
    case Launching(_, _, _, k) =>
      if k < |p.nodes| {
        NotLaunched(p);
        HeldUpdate(p.nodes, k, p.nodes[k].(listener := Reading), f);
      }
    case LeaveClaiming(k) => HeldUpdate(p.nodes, k, p.nodes[k].(busy := true), f);
    case LeaveWriting(k) =>
      HeldUpdate(p.nodes, k, p.nodes[k].(wire := p.nodes[k].wire + [0]), f);
      WriteHeld(p.nodes[k], 0, f);
    case _ =>
  }

  lemma NotLaunched(p: Pool)
    requires PoolInv(p) && p.plan.Launching? && p.plan.k < |p.nodes|
    ensures p.nodes[p.plan.k].listener.NotStarted?
  {
    NodeAt(p, p.plan.k);
  }

  lemma SendHeld(p: Pool, j: nat, f: nat)
    requires CanTake(p, Send(j))
    ensures HeldAll(SendStep(p, j).nodes, f) ==
            HeldAll(p.nodes, f) + if p.senders[j].stage.ToWrite? && p.senders[j].flow == f then 1 else 0
  {
    hide HeldAll, Down;
    var t := p.senders[j];
    match t.stage
    case ToClaim => HeldUpdate(p.nodes, t.k, p.nodes[t.k].(busy := true), f);
    case ToCharge =>
    case ToWrite =>
      HeldUpdate(p.nodes, t.k, p.nodes[t.k].(wire := p.nodes[t.k].wire + [t.flow]), f);
      WriteHeld(p.nodes[t.k], t.flow, f);
  }

  lemma HearHeld(p: Pool, k: nat, f: nat)
    requires CanTake(p, Hear(k))
    ensures HeldAll(HearStep(p, k).nodes, f) + (if p.nodes[k].listener == Counting(f) then 1 else 0) ==
            HeldAll(p.nodes, f)
  {
    ListenHeld(p.nodes[k], f);
    HeldUpdate(p.nodes, k, ListenNode(p.nodes[k]), f);
    hide HeldAll, Held, ListenNode, Credits;
  }

  // ----- one move -----

  /** A listener settles flow f. */
  predicate Settles(f: nat, s: Net, m: NetMove) {
    && m.HearAt? && m.i < |s.pools| && m.k < |s.pools[m.i].nodes|
    && s.pools[m.i].nodes[m.k].listener == Counting(f)
  }

  function SentOnce(s: Net, f: nat): nat {
    if f in s.sent then 1 else 0
  }

  lemma StartHeld(p: Pool, f: nat)
    requires PoolInv(p) && f != 0
    ensures HeldAll(StartThreads(p).nodes, f) == HeldAll(p.nodes, f)
  {
    hide PoolInv, HeldAll, PlanStep;
    if p.plan.Chosen? && |p.plan.found| == |p.plan.flows| { PlanHeld(p, f); }
  }

  lemma JoinHeld(p: Pool, f: nat)
    requires PoolInv(p) && f != 0
    ensures HeldAll(JoinThreads(p).nodes, f) == HeldAll(p.nodes, f)
  {
    hide PoolInv, HeldAll, PlanStep;
    if p.plan.Joining? && AllSentAt(p) { PlanHeld(p, f); }
  }

  lemma MainHeld(s: Net, f: nat)
    requires NetInv(s) && CanMove(s, Main) && f != 0
    ensures HeldNet(MainStep(s).pools, f) == HeldNet(s.pools, f) && MainStep(s).sent == s.sent
  {
    hide HeldAll, PoolInv, Role, Room, CarriesAll, StartThreads, JoinThreads, PlanStep, SentOk, FlowIdOk, HeldNet;
    forall i | 0 <= i < |s.pools|
      ensures PoolInv(s.pools[i])
      ensures HeldAll(StartThreads(s.pools[i]).nodes, f) == HeldAll(s.pools[i].nodes, f)
      ensures HeldAll(JoinThreads(s.pools[i]).nodes, f) == HeldAll(s.pools[i].nodes, f)
    {
      assert PoolHere(s, i);
      StartHeld(s.pools[i], f);
      JoinHeld(s.pools[i], f);
    }
    hide NetInv;
    if s.phase.Sending? || s.phase == Serving(|s.pools|) {
      HeldNetSame(s.pools, MainStep(s).pools, f);
    } else {
      ServerHeld(s, f);
    }
  }

  lemma ServerHeld(s: Net, f: nat)
    requires CanMove(s, Main) && (s.phase.Serving? || s.phase.Quitting?) && f != 0
    requires s.phase.i < |s.pools| ==> PoolInv(s.pools[s.phase.i])
    requires s.phase != Serving(|s.pools|)
    ensures HeldNet(MainStep(s).pools, f) == HeldNet(s.pools, f)
  {
    hide HeldAll, PoolInv, PlanStep, HeldNet, StartThreads, JoinThreads;
    var i := s.phase.i;
    if i < |s.pools| {
      if CanTake(s.pools[i], Plan) { PlanHeld(s.pools[i], f); }
      var t := MainStep(s);
      if t.pools != s.pools { HeldNetUpdate(s.pools, i, t.pools[i], f); }
    }
  }

  lemma MovedHeld(s: Net, m: NetMove, f: nat)
    requires NetInv(s) && CanMove(s, m) && f != 0
    ensures HeldNet(Moved(s, m).pools, f) + (if Settles(f, s, m) then 1 else 0) + SentOnce(s, f) ==
            HeldNet(s.pools, f) + SentOnce(Moved(s, m), f)
  {
    hide HeldAll, HeldNet, SendStep, HearStep, MainStep;
    match m
    case Main => MainHeld(s, f);
    case SendAt(i, j) =>
      SendingPhase(s, i, j);
      SendsFresh(s, i, j);
      hide NetInv;
      SendHeld(s.pools[i], j, f);
      HeldNetUpdate(s.pools, i, SendStep(s.pools[i], j), f);
    case HearAt(i, k) =>
      hide NetInv;
      HearHeld(s.pools[i], k, f);
      HeldNetUpdate(s.pools, i, HearStep(s.pools[i], k), f);
  }

  // ----- whole runs -----

  /** How often flow f is settled. */
  ghost function TimesSettled(f: nat, s: Net, moves: seq<NetMove>): nat
    requires NetRuns(s, moves)
    decreases |moves|
  {
    if moves == [] then 0
    else (if Settles(f, s, moves[0]) then 1 else 0) + TimesSettled(f, Moved(s, moves[0]), moves[1..])
  }

  lemma {:induction false} FlowsKept(s: Net, moves: seq<NetMove>, f: nat)
    requires NetInv(s) && NetRuns(s, moves) && f != 0
    ensures var t := NetReached(s, moves);
            HeldNet(t.pools, f) + TimesSettled(f, s, moves) + SentOnce(s, f) == HeldNet(s.pools, f) + SentOnce(t, f)
    decreases |moves|
  {
    if moves != [] {
      MovedOk(s, moves[0]);
      MovedHeld(s, moves[0], f);
      hide NetInv, CanMove, Moved, HeldNet, SentOnce, Settles;
      FlowsKept(Moved(s, moves[0]), moves[1..], f);
    }
  }

  /** A flow id that has been sent is on a connection or has been received, once, and no other is
      either; when the client is done, exactly the ids of the table have been received. */
  lemma EachIdOnce(demand: seq<seq<nat>>, sizes: seq<nat>, moves: seq<NetMove>, f: nat)
    requires Startable(demand, sizes) && NetRuns(NetStart(demand, sizes), moves) && f != 0
    ensures var s, t := NetStart(demand, sizes), NetReached(NetStart(demand, sizes), moves);
            && HeldNet(t.pools, f) + TimesSettled(f, s, moves) == (if f in t.sent then 1 else 0)
            && (t.phase.Done? ==> TimesSettled(f, s, moves) == if f <= |FlowTable(demand)| then 1 else 0)
  {
    var s, t := NetStart(demand, sizes), NetReached(NetStart(demand, sizes), moves);
    NetStartOk(demand, sizes);
    NetRunsOk(s, moves);
    FlowsKept(s, moves, f);
    BeginsEmpty(demand, sizes, f);
    if t.phase.Done? {
      DoneSettled(t);
      EndsEmpty(t, f);
    }
    hide NetInv, NetRuns, NetReached, NetStart, HeldNet, TimesSettled, FlowTable;
  }

  lemma BeginsEmpty(demand: seq<seq<nat>>, sizes: seq<nat>, f: nat)
    ensures HeldNet(NetStart(demand, sizes).pools, f) == 0 == SentOnce(NetStart(demand, sizes), f)
    ensures NetStart(demand, sizes).demand == demand
  {
    var pools := NetStart(demand, sizes).pools;
    forall i | 0 <= i < |pools| ensures HeldAll(pools[i].nodes, f) == 0 { NoneHeld(pools[i].nodes, f); }
    NothingHeld(pools, f);
  }

  lemma EndsEmpty(s: Net, f: nat)
    requires NetInv(s) && s.phase.Done? && Settled(s)
    ensures HeldNet(s.pools, f) == 0
  {
    hide HeldAll, FlowTable, SentOk, PoolInv;
    forall i | 0 <= i < |s.pools| ensures HeldAll(s.pools[i].nodes, f) == 0 {
      assert PoolHere(s, i);
      AllQuiet(s.pools[i].nodes, f);
    }
    NothingHeld(s.pools, f);
  }

  lemma AllQuiet(nodes: seq<Node>, f: nat)
    requires forall k :: 0 <= k < |nodes| ==> nodes[k].wire == [] && nodes[k].listener.Finished?
    ensures HeldAll(nodes, f) == 0
  {
    NoneHeld(nodes, f);
  }
}
