/** Every move of the incast pool keeps its invariant, and what follows for every run. */
module IncastSteps {
  import opened Words
  import opened PoolProtocol
  import opened IncastProtocol

  lemma OpenedOk(n: nat)
    requires 0 < n < HALF
    ensures PoolInv(Opened(n))
  {
    NoPending(n);
    IdleNodeOk();
    hide NodeCore, BusyRight, IDLE_NODE, TotalPending;
  }

  /** Before the exits a node of the pool is as in the pool of the plain client. */
  lemma NodeAt(p: Pool, k: nat)
    requires PoolNodesOk(p) && k < |p.nodes|
    ensures PoolNode(p.nodes[k], Holds(p.senders, k), k < LeftUpTo(p), Waits(p.plan, k), Quits(p.plan))
    ensures !Quits(p.plan) ==> NodeOk(p.nodes[k], Holds(p.senders, k), false, Waits(p.plan, k))
  {
    hide NodeCore, BusyRight, Holds;
  }

  // ----- the planner -----

  /** Planner moves that touch neither the nodes nor the counters. */
  lemma PlanMoves(p: Pool, plan: Planner)
    requires PoolInv(p) && !Quits(p.plan) && !Quits(plan) && p.plan.Tallying? == plan.Tallying?
    requires forall k :: 0 <= k < |p.nodes| ==> Waits(plan, k) == Waits(p.plan, k)
    requires p.senders == [] || plan.Joining?
    requires PlanOk(p.(plan := plan))
    ensures PoolInv(p.(plan := plan))
  {
    hide PoolNode, Holds, TotalPending, Uncharged, Unwritten, Waits;
  }

  lemma SizingOk(p: Pool)
    requires PoolInv(p) && p.plan.Sizing?
    ensures |p.plan.flows| % WORD == p.available_len ==>
      PoolInv(p.(plan := Asking(p.plan.flows, |p.nodes|, p.available_len)))
    ensures |p.plan.flows| % WORD != p.available_len ==> PoolInv(p.(plan := Resizing(p.plan.flows)))
  {
    CounterExact(p);
    hide PoolNodesOk, PoolCountsOk, SendersOk, TotalPending, Unwritten;
    if |p.plan.flows| % WORD == p.available_len {
      PlanMoves(p, Asking(p.plan.flows, |p.nodes|, p.available_len));
    } else {
      PlanMoves(p, Resizing(p.plan.flows));
    }
  }

  /** Below 2^31 the unsigned difference is what is missing, and none is asked for when nothing is. */
  lemma ShortfallIsMissing(num: nat, available_len: nat)
    requires num < HALF && available_len < HALF
    ensures Shortfall(num, available_len) == Missing(num, available_len)
  {
  }

  lemma ResizingOk(p: Pool)
    requires PoolInv(p) && p.plan.Resizing?
    ensures |p.plan.flows| % WORD == p.available_len ==>
      PoolInv(p.(plan := Asking(p.plan.flows, |p.nodes|, p.available_len)))
    ensures PoolInv(
              p.(plan := Growing(p.plan.flows, |p.nodes|, p.available_len, Shortfall(|p.plan.flows|, p.available_len))))
  {
    CounterExact(p);
    var fs := p.plan.flows;
    ShortfallIsMissing(|fs|, p.available_len);
    hide PoolNodesOk, PoolCountsOk, SendersOk, TotalPending, Unwritten, Shortfall;
    if |fs| % WORD == p.available_len { PlanMoves(p, Asking(fs, |p.nodes|, p.available_len)); }
    PlanMoves(p, Growing(fs, |p.nodes|, p.available_len, Missing(|fs|, p.available_len)));
  }

  /** One node changes and the others keep their roles. */
  lemma PoolNodesUpdate(p: Pool, r: Pool, k: nat)
    requires PoolNodesOk(p) && k < |p.nodes| == |r.nodes| && Quits(r.plan) == Quits(p.plan)
    requires PoolNode(r.nodes[k], Holds(r.senders, k), k < LeftUpTo(r), Waits(r.plan, k), Quits(r.plan))
    requires forall j :: 0 <= j < |p.nodes| && j != k ==>
               && r.nodes[j] == p.nodes[j] && Holds(r.senders, j) == Holds(p.senders, j)
               && Waits(r.plan, j) == Waits(p.plan, j)
               && (j < LeftUpTo(r) <==> j < LeftUpTo(p))
    ensures PoolNodesOk(r)
  {
    hide PoolNode, Holds, Waits, LeftUpTo;
  }

  lemma GrownOk(p: Pool)
    requires PoolInv(p) && p.plan.Growing? && p.plan.left == 0
    ensures PoolInv(p.(plan := Launching(p.plan.flows, p.plan.first, p.plan.seen, p.plan.first)))
  {
    NoSenders(p);
    hide PoolNodesOk, PoolCountsOk, SendersOk, TotalPending, Unwritten;
    PlanMoves(p, Launching(p.plan.flows, p.plan.first, p.plan.seen, p.plan.first));
  }

  lemma GrowNodes(p: Pool, r: Pool)
    requires PoolInv(p) && p.plan.Growing? && p.plan.left > 0
    requires r == p.(nodes := p.nodes + [NEW_NODE],
                     plan := Tallying(p.plan.flows, p.plan.first, p.plan.seen, p.plan.left))
    ensures PoolNodesOk(r) && TotalPending(r.nodes) == TotalPending(p.nodes)
  {
    NewNodeOk();
    TotalPendingAppend(p.nodes, NEW_NODE);
    NoSenders(p);
    assert p.plan.first <= |p.nodes|;
    hide PlanOk, PoolCountsOk, NodeCore, BusyRight, Pending, TotalPending, NEW_NODE;
    forall k | 0 <= k < |r.nodes|
      ensures PoolNode(r.nodes[k], Holds(r.senders, k), k < LeftUpTo(r), Waits(r.plan, k), Quits(r.plan))
    {
      if k < |p.nodes| { NodeAt(p, k); }
    }
  }

  lemma NoSenders(p: Pool)
    requires SendersOk(p) && !p.plan.Joining?
    ensures p.senders == [] && forall k :: !Holds(p.senders, k)
  {
  }

  /** The list grew by a node whose listener is not started. */
  lemma GrowOk(p: Pool, r: Pool)
    requires PoolInv(p) && p.plan.Growing? && p.plan.left > 0
    requires r == p.(nodes := p.nodes + [NEW_NODE],
                     plan := Tallying(p.plan.flows, p.plan.first, p.plan.seen, p.plan.left))
    ensures PoolInv(r)
  {
    hide PoolNodesOk, TotalPending, Uncharged, Unwritten, NEW_NODE;
    GrowNodes(p, r);
  }

  lemma TallyOk(p: Pool, r: Pool)
    requires PoolInv(p) && p.plan.Tallying?
    requires r == p.(available_len := Up(p.available_len),
                     plan := Growing(p.plan.flows, p.plan.first, p.plan.seen, p.plan.left - 1))
    ensures PoolInv(r)
  {
    Wraps(PoolAvailable(p));
    hide PoolNode, Holds, TotalPending, Uncharged, Unwritten, Up;
    assert forall k :: 0 <= k < |p.nodes| ==> Waits(r.plan, k) == Waits(p.plan, k);
    assert PoolNodesOk(r);
    hide PoolNodesOk;
  }

  lemma LaunchNodes(p: Pool, r: Pool, k: nat)
    requires PoolInv(p) && p.plan.Launching? && k == p.plan.k < |p.nodes|
    requires r == p.(nodes := p.nodes[k := p.nodes[k].(listener := Reading)],
                     plan := Launching(p.plan.flows, p.plan.first, p.plan.seen, k + 1))
    ensures PoolNodesOk(r) && PoolAvailable(r) == PoolAvailable(p) && TotalPending(r.nodes) == TotalPending(p.nodes)
  {
    NodeAt(p, k);
    NoSenders(p);
    UnstartedNode(p.nodes[k]);
    TotalPendingUpdate(p.nodes, k, r.nodes[k]);
    hide PoolCountsOk, SendersOk, PlanOk, NodeCore, BusyRight, Pending, TotalPending, Holds, Uncharged, Unwritten;
    PoolNodesUpdate(p, r, k);
  }

  lemma LaunchListenerOk(p: Pool, r: Pool, k: nat)
    requires PoolInv(p) && p.plan.Launching? && k == p.plan.k < |p.nodes|
    requires r == p.(nodes := p.nodes[k := p.nodes[k].(listener := Reading)],
                     plan := Launching(p.plan.flows, p.plan.first, p.plan.seen, k + 1))
    ensures PoolInv(r)
  {
    LaunchNodes(p, r, k);
    NoSenders(p);
    hide PoolNodesOk, PoolCountsOk, PoolAvailable, TotalPending, Holds;
    Reassemble(p, r);
  }

  lemma LaunchedAllOk(p: Pool)
    requires PoolInv(p) && p.plan.Launching? && p.plan.k == |p.nodes|
    ensures PoolInv(p.(plan := Asking(p.plan.flows, p.plan.first, p.plan.seen)))
  {
    NoSenders(p);
    hide PoolNodesOk, PoolCountsOk, SendersOk, TotalPending, Unwritten, Holds;
    PlanMoves(p, Asking(p.plan.flows, p.plan.first, p.plan.seen));
  }

  /** The nodes changed without effect on the counters. */
  lemma Reassemble(p: Pool, r: Pool)
    requires PoolInv(p) && PoolNodesOk(r) && |r.nodes| == |p.nodes| && PlanOk(r) && !Quits(p.plan) && !Quits(r.plan)
    requires r == p.(nodes := r.nodes, plan := r.plan) && p.senders == []
    requires PoolAvailable(r) == PoolAvailable(p) && TotalPending(r.nodes) == TotalPending(p.nodes)
    ensures PoolInv(r)
  {
    hide PoolNodesOk, PoolAvailable, PlanOk, TotalPending, Uncharged;
  }

  lemma AskIdle(p: Pool)
    requires PoolInv(p) && p.plan.Asking?
    ensures IdleAfter(p.nodes, 0) >= PoolAvailable(p)
  {
    NoSenders(p);
    hide PoolCountsOk, NodeOk, TotalPending, IdleAfter, Unwritten, Holds, PoolNodesOk;
    NoThreads();
    forall j | 0 <= j < |p.nodes| ensures NodeOk(p.nodes[j], false, false, false) {
      NodeAt(p, j);
    }
    IdleCovers(p.nodes, 0);
    assert p.nodes[..0] == [];
    NoneTotal();
  }

  /** The check of search_n_conn_list succeeds. */
  lemma AskOk(p: Pool)
    requires PoolInv(p) && p.plan.Asking?
    ensures p.available_len >= |p.plan.flows| && PoolInv(p.(plan := Scanning(p.plan.flows, 0, [])))
  {
    CounterExact(p);
    AskIdle(p);
    NoSenders(p);
    hide PoolNodesOk, PoolCountsOk, SendersOk, TotalPending, Unwritten, IdleAfter, Idle, Holds;
    PlanMoves(p, Scanning(p.plan.flows, 0, []));
  }

  lemma NoneTotal()
    ensures TotalPending([]) == 0
  {
  }

  lemma PickedMore(nodes: seq<Node>, found: seq<nat>, k: nat)
    requires k < |nodes| && Picked(nodes, found, k)
    ensures Picked(nodes, found, k + 1) && (Idle(nodes[k]) ==> Picked(nodes, found + [k], k + 1))
    ensures IdleAfter(nodes, k) == (if Idle(nodes[k]) then 1 else 0) + IdleAfter(nodes, k + 1)
  {
    hide Idle;
  }

  lemma PickedAll(nodes: seq<Node>, found: seq<nat>, k: nat)
    requires k <= |nodes| && Picked(nodes, found, k)
    ensures Picked(nodes, found, |nodes|)
    ensures IdleAfter(nodes, |nodes|) == 0
  {
    hide Idle;
  }

  /** The scan does not reach the end of the list, and keeps going or has found enough. */
  lemma ScanOk(p: Pool)
    requires PoolInv(p) && p.plan.Scanning?
    ensures p.plan.k < |p.nodes|
    ensures var fs, k := p.plan.flows, p.plan.k;
            var more := if Idle(p.nodes[k]) then p.plan.found + [k] else p.plan.found;
            PoolInv(p.(plan := if |more| < |fs| then Scanning(fs, k + 1, more) else Chosen(fs, more)))
  {
    var fs, k, found := p.plan.flows, p.plan.k, p.plan.found;
    PickedAll(p.nodes, found, k);
    NoSenders(p);
    hide PoolNodesOk, PoolCountsOk, PoolAvailable, SendersOk, Idle, IdleAfter, Picked, Holds;
    assert k < |p.nodes|;
    PickedMore(p.nodes, found, k);
    var more := if Idle(p.nodes[k]) then found + [k] else found;
    PickedAll(p.nodes, more, k + 1);
    ScanPlan(p, more);
    PlanMoves(p, if |more| < |fs| then Scanning(fs, k + 1, more) else Chosen(fs, more));
  }

  lemma ScanPlan(p: Pool, more: seq<nat>)
    requires PlanOk(p) && p.plan.Scanning? && |more| <= |p.plan.flows| && p.plan.k < |p.nodes|
    requires Picked(p.nodes, more, p.plan.k + 1) && Picked(p.nodes, more, |p.nodes|)
    requires |more| + IdleAfter(p.nodes, p.plan.k + 1) >= |p.plan.flows|
    ensures PlanOk(p.(plan := if |more| < |p.plan.flows| then Scanning(p.plan.flows, p.plan.k + 1, more)
                              else Chosen(p.plan.flows, more)))
  {
    hide TotalPending, Unwritten, Idle, IdleAfter, Picked;
  }

  lemma LaunchedOk(p: Pool, r: Pool)
    requires p.plan.Chosen? && PlanOk(p) && r.nodes == p.nodes && r.plan.Joining?
    requires |p.plan.found| == |p.plan.flows| && r.senders == Launch(p.plan.found, p.plan.flows)
    ensures SendersOk(r)
  {
    hide Launch, Idle, PoolAvailable;
    Launched(p.plan.found, p.plan.flows);
  }

  lemma NobodyHolds(senders: seq<Sender>, k: nat)
    requires forall i :: 0 <= i < |senders| ==> senders[i].stage.Sent? || senders[i].stage.ToClaim?
    ensures !Holds(senders, k)
  {
  }

  lemma LaunchedNodes(p: Pool, r: Pool)
    requires PoolNodesOk(p) && (p.plan.Chosen? || p.plan.Joining?) && r.nodes == p.nodes &&
      (r.plan.Joining? || r.plan.Between?)
    requires forall i :: 0 <= i < |p.senders| ==> p.senders[i].stage.Sent? || p.senders[i].stage.ToClaim?
    requires forall i :: 0 <= i < |r.senders| ==> r.senders[i].stage.Sent? || r.senders[i].stage.ToClaim?
    ensures PoolNodesOk(r)
  {
    hide PoolNode, Holds;
    forall k | 0 <= k < |r.nodes|
      ensures PoolNode(r.nodes[k], Holds(r.senders, k), k < LeftUpTo(r), Waits(r.plan, k), Quits(r.plan))
    {
      NodeAt(p, k);
      NobodyHolds(p.senders, k);
      NobodyHolds(r.senders, k);
    }
  }

  lemma LaunchOk(p: Pool, r: Pool)
    requires PoolInv(p) && p.plan.Chosen? && |p.plan.found| == |p.plan.flows|
    requires r == p.(senders := Launch(p.plan.found, p.plan.flows), plan := Joining)
    ensures PoolInv(r)
  {
    hide PoolNodesOk, PoolCountsOk, PoolAvailable, Launch, Holds, Picked;
    LaunchedOk(p, r);
    Launched(p.plan.found, p.plan.flows);
    NoSenders(p);
    LaunchedNodes(p, r);
    LaunchCounts(p, r);
  }

  lemma LaunchCounts(p: Pool, r: Pool)
    requires PlanOk(p) && PoolCountsOk(p) && p.plan.Chosen? && p.senders == [] && |p.plan.found| == |p.plan.flows|
    requires r == p.(senders := Launch(p.plan.found, p.plan.flows), plan := Joining)
    ensures PoolCountsOk(r)
  {
    hide PoolAvailable, TotalPending, Uncharged, Picked;
    LaunchedAvailable(p, r);
  }

  lemma LaunchedAvailable(p: Pool, r: Pool)
    requires p.plan.Chosen? && p.senders == [] && |p.plan.found| == |p.plan.flows|
    requires r == p.(senders := Launch(p.plan.found, p.plan.flows), plan := Joining)
    ensures PoolAvailable(r) == PoolAvailable(p) && Uncharged(r.senders) == |p.plan.found|
  {
    hide Launch, TotalPending, Uncharged, Unwritten;
    Launched(p.plan.found, p.plan.flows);
    NoThreads();
  }

  lemma NoThreads()
    ensures Uncharged([]) == 0 && Unwritten([]) == 0
  {
  }

  lemma JoinOk(p: Pool, r: Pool)
    requires PoolInv(p) && p.plan.Joining? && forall i :: 0 <= i < |p.senders| ==> p.senders[i].stage.Sent?
    requires r == p.(senders := [], plan := Between)
    ensures PoolInv(r)
  {
    AllSent(p.senders);
    NoThreads();
    LaunchedNodes(p, r);
    hide PoolNodesOk, TotalPending, Uncharged, Unwritten, Idle;
  }

  // ----- the exits -----

  /** Entering the exits, and moving on without touching a node. */
  lemma LeaveMoves(p: Pool, plan: Planner)
    requires PoolInv(p) && p.senders == [] && (p.plan.Between? || p.plan.Leaving?) && Quits(plan) && !plan.LeaveWriting?
    requires LeftUpTo(p.(plan := plan)) == LeftUpTo(p) && PlanOk(p.(plan := plan))
    ensures PoolInv(p.(plan := plan))
  {
    var r := p.(plan := plan);
    hide NodeCore, BusyRight, TotalPending, Uncharged, Unwritten, LeftUpTo, Holds;
    forall k | 0 <= k < |r.nodes|
      ensures PoolNode(r.nodes[k], Holds(r.senders, k), k < LeftUpTo(r), Waits(r.plan, k), Quits(r.plan))
    {
      NodeAt(p, k);
    }
  }

  lemma LeaveScanOk(p: Pool)
    requires PoolInv(p) && p.plan.Leaving?
    ensures p.plan.k == |p.nodes| ==> PoolInv(p.(plan := Planner.Waiting))
    ensures p.plan.k < |p.nodes| ==> p.nodes[p.plan.k].connected && PoolInv(p.(plan := LeaveClaiming(p.plan.k)))
  {
    NoSenders(p);
    if p.plan.k == |p.nodes| {
      LeaveMoves(p, Planner.Waiting);
    } else {
      NodeAt(p, p.plan.k);
      StillConnected(p.nodes[p.plan.k], Holds(p.senders, p.plan.k), Waits(p.plan, p.plan.k), true);
      LeaveMoves(p, LeaveClaiming(p.plan.k));
    }
  }

  lemma StillConnected(n: Node, held: bool, waits: bool, quits: bool)
    requires PoolNode(n, held, false, waits, quits)
    ensures n.connected
  {
  }

  lemma BusyNode(n: Node, left: bool)
    requires PoolNode(n, false, left, false, true)
    ensures PoolNode(n.(busy := true), false, left, false, true) && Pending(n.(busy := true)) == Pending(n)
  {
  }

  /** An exit step on node k that leaves the counters alone. */
  lemma LeaveNodes(p: Pool, r: Pool, k: nat, left: bool)
    requires PoolInv(p) && p.senders == [] && k < |p.nodes| && |r.nodes| == |p.nodes| && r.senders == p.senders
    requires (p.plan == LeaveClaiming(k) && r.plan == LeaveCharging(k) && !left)
             || (p.plan == LeaveWriting(k) && r.plan == Leaving(k + 1) && left)
    requires r.nodes == p.nodes[k := r.nodes[k]] && PoolNode(r.nodes[k], false, left, false, true)
    requires Pending(r.nodes[k]) == Pending(p.nodes[k])
    ensures PoolNodesOk(r) && TotalPending(r.nodes) == TotalPending(p.nodes)
  {
    NoSenders(p);
    TotalPendingUpdate(p.nodes, k, r.nodes[k]);
    hide PoolNode, Pending, TotalPending, Holds, Uncharged, Unwritten, SendersOk, PoolCountsOk, PlanOk;
    PoolNodesUpdate(p, r, k);
  }

  lemma LeaveClaimOk(p: Pool, r: Pool, k: nat)
    requires PoolInv(p) && p.plan == LeaveClaiming(k) && k < |p.nodes|
    requires r == p.(nodes := p.nodes[k := p.nodes[k].(busy := true)], plan := LeaveCharging(k))
    ensures PoolInv(r)
  {
    hide PoolNodesOk, PoolNode, Pending, TotalPending, Uncharged, Unwritten, Holds;
    NoSenders(p);
    NodeAt(p, k);
    BusyNode(p.nodes[k], false);
    LeaveNodes(p, r, k, false);
  }

  lemma LeaveChargeOk(p: Pool, r: Pool)
    requires PoolInv(p) && p.plan.LeaveCharging?
    requires r == p.(available_len := Down(p.available_len), plan := LeaveWriting(p.plan.k))
    ensures PoolInv(r)
  {
    Wraps(PoolAvailable(p));
    hide PoolNode, Holds, TotalPending, Uncharged, Unwritten, Down;
    assert PoolNodesOk(r);
    hide PoolNodesOk;
  }

  lemma LeavingNode(n: Node)
    requires PoolNode(n, false, false, false, true)
    ensures var r := n.(wire := n.wire + [0]); PoolNode(r, false, true, false, true) && Pending(r) == Pending(n)
  {
    DataFlowsAppend(n.wire, 0);
    assert (n.wire + [0])[|n.wire|] == 0;
  }

  lemma LeaveWriteOk(p: Pool, r: Pool, k: nat)
    requires PoolInv(p) && p.plan == LeaveWriting(k) && k < |p.nodes|
    requires r == p.(nodes := p.nodes[k := p.nodes[k].(wire := p.nodes[k].wire + [0])], plan := Leaving(k + 1))
    ensures PoolInv(r)
  {
    hide PoolNodesOk, PoolNode, Pending, TotalPending, Uncharged, Unwritten, Holds;
    NoSenders(p);
    NodeAt(p, k);
    LeavingNode(p.nodes[k]);
    LeaveNodes(p, r, k, true);
  }

  lemma TopUpStepOk(p: Pool)
    requires PoolInv(p) && p.nodes != [] && CanTake(p, Plan)
    requires p.plan.Sizing? || p.plan.Resizing? || p.plan.Growing? || p.plan.Tallying? || p.plan.Launching? ||
      p.plan.Asking?
    ensures PoolInv(PlanStep(p))
  {
    assert p.plan.Tallying? ==> p.plan.left > 0;
    hide PoolInv, Shortfall, Up;
    match p.plan
    case Sizing(_) => SizingOk(p);
    case Resizing(_) => ResizingOk(p);
    case Growing(_, _, _, left) => if left == 0 { GrownOk(p); } else { GrowOk(p, PlanStep(p)); }
    case Tallying(_, _, _, _) => TallyOk(p, PlanStep(p));
    case Launching(_, _, _, k) => if k == |p.nodes| { LaunchedAllOk(p); } else { LaunchListenerOk(p, PlanStep(p), k); }
    case Asking(_, _, _) => AskOk(p);
  }

  lemma LeaveStepOk(p: Pool)
    requires PoolInv(p) && CanTake(p, Plan) && Quits(p.plan)
    ensures PoolInv(PlanStep(p))
  {
    hide PoolInv, Down;
    match p.plan
    case Leaving(_) => LeaveScanOk(p);
    case LeaveClaiming(k) => LeaveClaimOk(p, PlanStep(p), k);
    case LeaveCharging(_) => LeaveChargeOk(p, PlanStep(p));
    case LeaveWriting(k) => LeaveWriteOk(p, PlanStep(p), k);
  }

  lemma PlanStepOk(p: Pool)
    requires PoolInv(p) && CanTake(p, Plan)
    ensures PoolInv(PlanStep(p))
  {
    hide PoolNodesOk, SendersOk, PoolCountsOk, PlanStep;
    match p.plan
    case Scanning(_, _, _) => ScanStepOk(p);
    case Chosen(_, _) => ScanStepOk(p);
    case Joining => ScanStepOk(p);
    case Sizing(_) => TopUpStepOk(p);
    case Resizing(_) => TopUpStepOk(p);
    case Growing(_, _, _, _) => TopUpStepOk(p);
    case Tallying(_, _, _, _) => TopUpStepOk(p);
    case Launching(_, _, _, _) => TopUpStepOk(p);
    case Asking(_, _, _) => TopUpStepOk(p);
    case _ => LeaveStepOk(p);
  }

  lemma ScanStepOk(p: Pool)
    requires PoolInv(p) && CanTake(p, Plan) && (p.plan.Scanning? || p.plan.Chosen? || p.plan.Joining?)
    ensures PoolInv(PlanStep(p))
  {
    hide PoolInv, Idle;
    match p.plan
    case Scanning(_, _, _) => ScanOk(p);
    case Chosen(_, _) => LaunchOk(p, PlanStep(p));
    case Joining => JoinOk(p, PlanStep(p));
  }

  // ----- the run_flow threads -----

  /** What a thread's move does to its node. */
  lemma SendNode(p: Pool, i: nat)
    requires PoolInv(p) && CanTake(p, Send(i))
    ensures var k, r := p.senders[i].k, SendStep(p, i);
            && NodeOk(r.nodes[k], r.senders[i].stage.ToCharge? || r.senders[i].stage.ToWrite?, false, false)
            && Pending(r.nodes[k]) == Pending(p.nodes[k]) + if p.senders[i].stage.ToWrite? then 1 else 0
  {
    var t := p.senders[i];
    SameHolds(p.senders, i, t.k);
    NodeAt(p, t.k);
    match t.stage
    case ToClaim => ClaimNode(p.nodes[t.k]);
    case ToCharge =>
    case ToWrite => WriteNode(p.nodes[t.k], t.flow);
  }

  /** Other threads stand still. */
  lemma SendNodes(p: Pool, i: nat)
    requires PoolInv(p) && CanTake(p, Send(i))
    ensures PoolNodesOk(SendStep(p, i))
    ensures TotalPending(SendStep(p, i).nodes) == TotalPending(p.nodes) + if p.senders[i].stage.ToWrite? then 1 else 0
  {
    SendNode(p, i);
    hide PlanOk, PoolCountsOk, NodeCore, BusyRight, Pending, TotalPending, Idle, Holds;
    var k, r := p.senders[i].k, SendStep(p, i);
    forall j | 0 <= j < |p.nodes|
      ensures Holds(r.senders, j) ==
              if j == k then r.senders[i].stage.ToCharge? || r.senders[i].stage.ToWrite? else Holds(p.senders, j)
    {
      HoldsUpdate(p.senders, i, r.senders[i].stage, j);
    }
    PoolNodesUpdate(p, r, k);
    TotalPendingUpdate(p.nodes, k, r.nodes[k]);
    assert p.nodes[k := p.nodes[k]] == p.nodes;
  }

  lemma SendSenders(p: Pool, i: nat)
    requires PoolInv(p) && CanTake(p, Send(i))
    ensures SendersOk(SendStep(p, i))
  {
    hide PlanOk, PoolCountsOk, PoolNodesOk;
  }

  lemma SameHolds(senders: seq<Sender>, i: nat, k: nat)
    requires i < |senders| && senders[i].k == k
    requires forall a, b :: 0 <= a < b < |senders| ==> senders[a].k != senders[b].k
    ensures Holds(senders, k) == (senders[i].stage.ToCharge? || senders[i].stage.ToWrite?)
  {
    HoldsUpdate(senders, i, senders[i].stage, k);
    assert senders[i := senders[i].(stage := senders[i].stage)] == senders;
  }

  /** The counts after a thread in the given stage has moved. */
  lemma CountsFollow(p: Pool, r: Pool, i: nat, stage: Stage)
    requires PoolCountsOk(p) && i < |p.senders| && stage == p.senders[i].stage && !stage.Sent?
    requires |r.nodes| == |p.nodes| && r.plan == p.plan && r.flow_finished == p.flow_finished
    requires |r.senders| == |p.senders| && r.senders == p.senders[i := r.senders[i]]
    requires r.available_len == if stage.ToCharge? then Down(p.available_len) else p.available_len
    requires r.dispatched == if stage.ToWrite? then p.dispatched + 1 else p.dispatched
    requires r.senders[i].stage == if stage.ToClaim? then ToCharge else if stage.ToCharge? then ToWrite else Sent
    requires TotalPending(r.nodes) == TotalPending(p.nodes) + if stage.ToWrite? then 1 else 0
    ensures PoolCountsOk(r)
  {
    hide PoolAvailable, TotalPending, Uncharged, Down;
    Wraps(PoolAvailable(p));
    AvailableFollows(p, r, i, stage);
  }

  lemma AvailableFollows(p: Pool, r: Pool, i: nat, stage: Stage)
    requires i < |p.senders| && stage == p.senders[i].stage && !stage.Sent?
    requires |r.nodes| == |p.nodes| && r.plan == p.plan && |r.senders| == |p.senders| &&
      r.senders == p.senders[i := r.senders[i]]
    requires r.senders[i].stage == if stage.ToClaim? then ToCharge else if stage.ToCharge? then ToWrite else Sent
    requires TotalPending(r.nodes) == TotalPending(p.nodes) + if stage.ToWrite? then 1 else 0
    ensures PoolAvailable(r) == PoolAvailable(p) - (if stage.ToCharge? then 1 else 0)
    ensures Uncharged(r.senders) == Uncharged(p.senders) - (if stage.ToCharge? then 1 else 0)
  {
    hide TotalPending, Uncharged, Unwritten;
    StageUpdate(p.senders, i, r.senders[i]);
  }

  lemma SendCounts(p: Pool, i: nat)
    requires PoolInv(p) && CanTake(p, Send(i))
    ensures PoolCountsOk(SendStep(p, i))
  {
    SendNodes(p, i);
    hide PlanOk, PoolCountsOk, PoolNodesOk, SendersOk, TotalPending;
    CountsFollow(p, SendStep(p, i), i, p.senders[i].stage);
  }

  lemma SendOk(p: Pool, i: nat)
    requires PoolInv(p) && CanTake(p, Send(i))
    ensures PoolInv(SendStep(p, i))
  {
    SendNodes(p, i);
    SendSenders(p, i);
    SendCounts(p, i);
    hide PoolNodesOk, SendersOk, PoolCountsOk;
  }

  // ----- the listeners -----

  /** A listener's move on its node. */
  lemma HeardNode(n: Node, held: bool, left: bool, waits: bool, quits: bool)
    requires PoolNode(n, held, left, waits, quits) && (left ==> quits)
    requires !n.listener.NotStarted? && !n.listener.Finished? && (n.listener.Reading? ==> n.wire != [])
    ensures PoolNode(ListenNode(n), held, left, waits, quits)
    ensures !quits && Idle(n) ==> Idle(ListenNode(n))
    ensures Pending(ListenNode(n)) == Pending(n) - if Credits(n) then 1 else 0
  {
    if quits { ListenKeepsCore(n, held, left); } else { ListenKeeps(n, held, left); }
  }

  lemma HearNode(p: Pool, k: nat)
    requires PoolInv(p) && CanTake(p, Hear(k))
    ensures PoolNode(ListenNode(p.nodes[k]), Holds(p.senders, k), k < LeftUpTo(p), Waits(p.plan, k), Quits(p.plan))
    ensures !Quits(p.plan) && Idle(p.nodes[k]) ==> Idle(ListenNode(p.nodes[k]))
    ensures Pending(ListenNode(p.nodes[k])) == Pending(p.nodes[k]) - if Credits(p.nodes[k]) then 1 else 0
  {
    hide PoolNode, Pending, ListenNode, Credits, Holds, TotalPending;
    NodeAt(p, k);
    HeardNode(p.nodes[k], Holds(p.senders, k), k < LeftUpTo(p), Waits(p.plan, k), Quits(p.plan));
  }

  /** The counts after a listener has moved on node k. */
  lemma CountsHear(p: Pool, r: Pool, k: nat, n: Node, credit: bool)
    requires PoolCountsOk(p) && k < |p.nodes| && r.nodes == p.nodes[k := n] && r.plan == p.plan &&
      r.senders == p.senders
    requires Pending(n) == Pending(p.nodes[k]) - (if credit then 1 else 0) && r.dispatched == p.dispatched
    requires r.available_len == if credit then Up(p.available_len) else p.available_len
    requires r.flow_finished == if credit then Up(p.flow_finished) else p.flow_finished
    ensures PoolCountsOk(r) && PoolAvailable(r) >= PoolAvailable(p)
  {
    hide PoolAvailable, Pending, TotalPending, Uncharged, Up;
    Wraps(PoolAvailable(p));
    Wraps(p.dispatched - TotalPending(p.nodes));
    AvailableHeard(p, r, k, n, credit);
  }

  lemma AvailableHeard(p: Pool, r: Pool, k: nat, n: Node, credit: bool)
    requires k < |p.nodes| && r.nodes == p.nodes[k := n] && r.plan == p.plan && r.senders == p.senders
    requires Pending(n) == Pending(p.nodes[k]) - if credit then 1 else 0
    ensures TotalPending(r.nodes) == TotalPending(p.nodes) - if credit then 1 else 0
    ensures PoolAvailable(r) == PoolAvailable(p) + if credit then 1 else 0
  {
    hide Pending, TotalPending, Unwritten;
    TotalPendingUpdate(p.nodes, k, n);
  }

  lemma HearPlan(p: Pool, r: Pool, k: nat, n: Node)
    requires PlanOk(p) && k < |p.nodes|
    requires r == p.(nodes := p.nodes[k := n], available_len := r.available_len, flow_finished := r.flow_finished)
    requires PoolAvailable(r) >= PoolAvailable(p) && (!Quits(p.plan) && Idle(p.nodes[k]) ==> Idle(n))
    ensures PlanOk(r)
  {
    if p.plan.Scanning? { IdleAfterGrows(p.nodes, k, n, p.plan.k); }
    hide PoolAvailable, Idle, IdleAfter;
  }

  lemma HearSenders(p: Pool, r: Pool, k: nat, n: Node)
    requires SendersOk(p) && k < |p.nodes| && r.nodes == p.nodes[k := n] && r.plan == p.plan && r.senders == p.senders
    requires !Quits(p.plan) && Idle(p.nodes[k]) ==> Idle(n)
    ensures SendersOk(r)
  {
    hide Idle;
  }

  lemma HearOk(p: Pool, k: nat)
    requires PoolInv(p) && CanTake(p, Hear(k))
    ensures PoolInv(HearStep(p, k))
  {
    var r, n := HearStep(p, k), ListenNode(p.nodes[k]);
    HearNode(p, k);
    CountsHear(p, r, k, n, Credits(p.nodes[k]));
    HearPlan(p, r, k, n);
    HearSenders(p, r, k, n);
    hide PoolNode, Pending, TotalPending, ListenNode, Credits, Idle, Holds, PoolCountsOk, PoolAvailable, PlanOk,
      SendersOk;
    PoolNodesUpdate(p, r, k);
    hide PoolNodesOk;
  }

  lemma TakeOk(p: Pool, m: Move)
    requires PoolInv(p) && CanTake(p, m)
    ensures PoolInv(Take(p, m))
  {
    match m
    case Begin(flows) =>
      NoSenders(p);
      hide PoolNodesOk, PoolCountsOk, SendersOk, Holds;
      PlanMoves(p, Sizing(flows));
    case Quit =>
      NoSenders(p);
      hide PoolNodesOk, PoolCountsOk, SendersOk, Holds;
      LeaveMoves(p, Leaving(0));
    case Plan => PlanStepOk(p);
    case Send(i) => SendOk(p, i);
    case Hear(k) => HearOk(p, k);
  }

  lemma {:induction false} RunsOk(p: Pool, moves: seq<Move>)
    requires PoolInv(p) && Runs(p, moves)
    ensures PoolInv(Reached(p, moves))
    decreases |moves|
  {
    if moves != [] {
      TakeOk(p, moves[0]);
      hide PoolInv, CanTake, Take;
      RunsOk(Take(p, moves[0]), moves[1..]);
    }
  }

  // ----- what every run guarantees at one server -----

  /** After the top-up every search succeeds, however the listeners run meanwhile: its count
      check passes, its scan never reaches the end of the list, and what it hands out is one
      connection for each flow, all distinct and all idle. */
  lemma SearchSucceeds(n: nat, moves: seq<Move>)
    requires 0 < n < HALF && Runs(Opened(n), moves)
    ensures var p := Reached(Opened(n), moves);
            && !p.plan.Failed?
            && (p.plan.Asking? ==> p.available_len >= |p.plan.flows|)
            && (p.plan.Scanning? ==> p.plan.k < |p.nodes|)
            && (p.plan.Chosen? ==>
                  && |p.plan.found| == |p.plan.flows|
                  && (forall i :: 0 <= i < |p.plan.found| ==>
                     p.plan.found[i] < |p.nodes| && Idle(p.nodes[p.plan.found[i]]))
                  && (forall i, j :: 0 <= i < j < |p.plan.found| ==> p.plan.found[i] != p.plan.found[j]))
  {
    OpenedOk(n);
    RunsOk(Opened(n), moves);
    var p := Reached(Opened(n), moves);
    if p.plan.Asking? { AskOk(p); }
    if p.plan.Scanning? { ScanOk(p); }
    hide Runs, Reached, Opened, PoolNodesOk, PoolCountsOk, SendersOk, TotalPending, Unwritten, Idle, IdleAfter;
  }

  /** The top-up opens exactly the connections that were missing when it last looked, and none
      when there were enough: by the time the search begins the list is longer by that much. */
  lemma TopUpExact(n: nat, moves: seq<Move>)
    requires 0 < n < HALF && Runs(Opened(n), moves)
    ensures var p := Reached(Opened(n), moves);
            && (p.plan.Resizing? ==> PlanStep(p).plan == if p.available_len == |p.plan.flows|
                  then Asking(p.plan.flows, |p.nodes|, p.available_len)
                  else Growing(p.plan.flows, |p.nodes|, p.available_len, Missing(|p.plan.flows|, p.available_len)))
            && (p.plan.Asking? ==> |p.nodes| == p.plan.first + Missing(|p.plan.flows|, p.plan.seen))
  {
    hide Runs, Reached, Opened, PoolInv, PlanStep, Missing;
    OpenedOk(n);
    RunsOk(Opened(n), moves);
    TopUpPlanned(Reached(Opened(n), moves));
  }

  lemma TopUpPlanned(p: Pool)
    requires PoolInv(p)
    ensures p.plan.Resizing? ==>
              && CanTake(p, Plan)
              && PlanStep(p).plan == if p.available_len == |p.plan.flows|
                   then Asking(p.plan.flows, |p.nodes|, p.available_len)
                   else Growing(p.plan.flows, |p.nodes|, p.available_len, Missing(|p.plan.flows|, p.available_len))
    ensures p.plan.Asking? ==> |p.nodes| == p.plan.first + Missing(|p.plan.flows|, p.plan.seen)
  {
    hide PoolNodesOk, PoolCountsOk, SendersOk, TotalPending, Unwritten, Shortfall;
    if p.plan.Resizing? {
      CounterExact(p);
      ShortfallIsMissing(|p.plan.flows|, p.available_len);
    }
  }

  /** Every flow written is finished or pending, and a connection never carries two unfinished
      flows; one that a thread has claimed carries none. */
  lemma FlowsAccounted(n: nat, moves: seq<Move>)
    requires 0 < n < HALF && Runs(Opened(n), moves)
    ensures var p := Reached(Opened(n), moves);
            && p.flow_finished == (p.dispatched - TotalPending(p.nodes)) % WORD && p.dispatched >= TotalPending(p.nodes)
            && (forall k :: 0 <= k < |p.nodes| ==> Unfinished(p.nodes[k]) + (if Holds(p.senders, k) then 1 else 0) <= 1)
  {
    OpenedOk(n);
    RunsOk(Opened(n), moves);
    var p := Reached(Opened(n), moves);
    hide Runs, Reached, Opened, PoolAvailable, SendersOk, PlanOk, TotalPending, Holds, Unfinished, PoolNodesOk;
    forall k | 0 <= k < |p.nodes| ensures Unfinished(p.nodes[k]) + (if Holds(p.senders, k) then 1 else 0) <= 1 {
      NodeAt(p, k);
    }
  }
}
