/** What every run of the incast client guarantees: flows are recorded under the request that
    sent them, no search fails, and every run ends with all flows accounted for. */
module IncastRuns {
  import opened Words
  import opened PoolProtocol
  import opened IncastProtocol
  import opened IncastSteps
  import opened IncastNet
  import opened IncastNetSteps
  import Table = IncastRequests
  import PoolRuns

  // ----- runs -----

  ghost predicate NetRuns(s: Net, moves: seq<NetMove>)
    decreases |moves|
  {
    moves == [] || (CanMove(s, moves[0]) && NetRuns(Moved(s, moves[0]), moves[1..]))
  }

  ghost function NetReached(s: Net, moves: seq<NetMove>): Net
    requires NetRuns(s, moves)
    decreases |moves|
  {
    if moves == [] then s else NetReached(Moved(s, moves[0]), moves[1..])
  }

  lemma {:induction false} NetRunsOk(s: Net, moves: seq<NetMove>)
    requires NetInv(s) && NetRuns(s, moves)
    ensures NetInv(NetReached(s, moves)) && NetReached(s, moves).demand == s.demand
    decreases |moves|
  {
    if moves != [] {
      MovedOk(s, moves[0]);
      assert Moved(s, moves[0]).demand == s.demand;
      hide NetInv, CanMove, Moved;
      NetRunsOk(Moved(s, moves[0]), moves[1..]);
    }
  }

  /** In every reachable state of an interleaving of all threads on all servers, no search has
      failed, and a data flow that is on a connection or being received carries an id whose
      entry in the table is the request during which it was sent. */
  lemma FlowsRecorded(demand: seq<seq<nat>>, sizes: seq<nat>, moves: seq<NetMove>, i: nat, k: nat, f: nat)
    requires Startable(demand, sizes) && NetRuns(NetStart(demand, sizes), moves)
    requires i < |NetReached(NetStart(demand, sizes), moves).pools|
    ensures var s := NetReached(NetStart(demand, sizes), moves);
            && !s.pools[i].plan.Failed?
            && (k < |s.pools[i].nodes| && f != 0 && OnConnection(s.pools[i].nodes[k], f) ==>
                  f in s.sent && f <= |FlowTable(demand)| && FlowTable(demand)[f - 1] == s.sent[f])
  {
    NetStartOk(demand, sizes);
    NetRunsOk(NetStart(demand, sizes), moves);
    var s := NetReached(NetStart(demand, sizes), moves);
    assert PoolHere(s, i);
    NeverFails(s.pools[i]);
    hide NetRuns, NetReached, PoolInv, Role, Room, FlowTable;
  }

  /** Flow f has been written to the connection and not been received in full. */
  predicate OnConnection(n: Node, f: nat) {
    f in n.wire || ((n.listener.Clearing? || n.listener.Counting?) && n.listener.flow == f)
  }

  // ----- the end of a run -----

  lemma SettledNode(n: Node, held: bool, left: bool)
    requires PoolNode(n, held, left, false, true) && n.listener.Finished?
    ensures Pending(n) == 0 && !n.connected && n.wire == []
  {
  }

  /** A server whose listeners have all terminated. */
  lemma SettledPool(p: Pool)
    requires PoolInv(p) && p.plan.Waiting? && AllFinished(p)
    ensures p.available_len == 0 && p.flow_finished == p.dispatched % WORD
    ensures forall k :: 0 <= k < |p.nodes| ==> p.nodes[k].wire == [] && !p.nodes[k].connected
  {
    hide PoolNode, Pending, TotalPending, Holds, Uncharged, PlanOk;
    forall k | 0 <= k < |p.nodes| ensures Pending(p.nodes[k]) == 0 && p.nodes[k].wire == [] && !p.nodes[k].connected {
      NodeAt(p, k);
      SettledNode(p.nodes[k], Holds(p.senders, k), true);
    }
    PoolRuns.AllSettled(p.nodes);
    NoSenders(p);
    NoThreads();
    hide PoolNodesOk, SendersOk;
  }

  /** When the client is done, every id of the table has been sent, the counters of every server
      are settled, and nothing is left unread. */
  ghost predicate Settled(s: Net) {
    && (forall f: nat :: f in s.sent <==> 0 < f <= |FlowTable(s.demand)|)
    && (forall i :: 0 <= i < |s.pools| ==>
          && s.pools[i].available_len == 0 && s.pools[i].flow_finished == s.pools[i].dispatched % WORD
          && forall k :: 0 <= k < |s.pools[i].nodes| ==>
             s.pools[i].nodes[k].wire == [] && !s.pools[i].nodes[k].connected)
  }

  lemma DoneSettled(s: Net)
    requires NetInv(s) && s.phase.Done?
    ensures Settled(s)
  {
    var fanouts := Fanouts(s.demand);
    Table.FlowReqCount(fanouts);
    assert fanouts[..|s.demand|] == fanouts;
    assert Base(s.demand, s.r) == |FlowTable(s.demand)|;
    forall i | 0 <= i < |s.pools| ensures s.pools[i].plan.Waiting? && AllFinished(s.pools[i]) && PoolInv(s.pools[i]) {
      assert PoolHere(s, i);
      hide PoolInv, CarriesAll, Room, AllFinished;
    }
    forall i | 0 <= i < |s.pools|
      ensures s.pools[i].senders == [] && s.pools[i].available_len == 0 &&
        s.pools[i].flow_finished == s.pools[i].dispatched % WORD
      ensures forall k :: 0 <= k < |s.pools[i].nodes| ==>
        s.pools[i].nodes[k].wire == [] && !s.pools[i].nodes[k].connected
    {
      hide PoolInv, AllFinished;
      SettledPool(s.pools[i]);
      ThreadsGone(s.pools[i]);
    }
    hide PoolHere, PoolInv, AllFinished, Base, FlowTable, FlowIdOk;
    assert forall f :: !SentNow(s.pools, f);
  }

  // ----- some thread can always move -----

  lemma PlannerMoves(p: Pool)
    requires PoolInv(p) && !p.plan.Between? && !p.plan.Joining? && !p.plan.Waiting?
    ensures CanTake(p, Plan)
  {
    hide PoolNodesOk, SendersOk, PoolCountsOk, Picked, IdleAfter;
  }

  lemma ListenerMoves(p: Pool) returns (k: nat)
    requires PoolInv(p) && p.plan.Waiting? && !AllFinished(p)
    ensures CanTake(p, Hear(k))
  {
    k :| 0 <= k < |p.nodes| && !p.nodes[k].listener.Finished?;
    NodeAt(p, k);
    hide PoolInv, Holds;
    ToldToExit(p.nodes[k], Holds(p.senders, k));
  }

  lemma ToldToExit(n: Node, held: bool)
    requires PoolNode(n, held, true, false, true) && !n.listener.Finished?
    ensures !n.listener.NotStarted? && (n.listener.Reading? ==> n.wire != [])
  {
  }

  lemma ThreadMoves(p: Pool) returns (j: nat)
    requires PoolInv(p) && !AllSentAt(p)
    ensures CanTake(p, Send(j))
  {
    j :| 0 <= j < |p.senders| && !p.senders[j].stage.Sent?;
    hide PoolNodesOk, PlanOk, PoolCountsOk;
  }

  lemma ServerMoves(s: Net, i: nat)
    requires NetInv(s) && s.phase == Serving(i) && i < |s.pools|
    ensures CanServe(s.pools[i], s.demand[s.r][i], s.flow_id)
  {
    var p := s.pools[i];
    assert PoolHere(s, i);
    if p.plan.Between? { hide PoolInv, CarriesAll; } else { hide PoolInv, CarriesAll, Room; PlannerMoves(p); }
  }

  lemma QuitterMoves(s: Net, i: nat)
    requires NetInv(s) && s.phase == Quitting(i) && i < |s.pools| && !s.pools[i].plan.Waiting?
    ensures CanQuit(s.pools[i])
  {
    var p := s.pools[i];
    assert PoolHere(s, i);
    hide PoolInv, CarriesAll, Room;
    if !p.plan.Between? { PlannerMoves(p); }
  }

  /** Short of the end some thread can move. */
  lemma SomeMove(s: Net) returns (m: NetMove)
    requires NetInv(s) && !s.phase.Done?
    ensures CanMove(s, m)
  {
    m := Main;
    match s.phase
    case Serving(i) =>
      if i < |s.pools| { ServerMoves(s, i); }
      hide PoolHere, SentOk, FlowIdOk, CanServe;
    case Sending =>
      hide SentOk, FlowIdOk;
      if i :| 0 <= i < |s.pools| && !AllSentAt(s.pools[i]) {
        assert PoolHere(s, i);
        var j := ThreadMoves(s.pools[i]);
        m := SendAt(i, j);
      }
    case Quitting(i) =>
      hide SentOk, FlowIdOk;
      if i < |s.pools| {
        assert PoolHere(s, i);
        if !s.pools[i].plan.Waiting? {
          QuitterMoves(s, i);
        } else if !AllFinished(s.pools[i]) {
          var k := ListenerMoves(s.pools[i]);
          m := HearAt(i, k);
        }
      }
  }

  // ----- every move brings the end closer -----

  /** How far a planner is from the end of its request or of the exits. */
  function PlanWork(p: Pool): int {
    var n := |p.nodes|;
    match p.plan
    case Sizing(fs) => 2 * |fs| + 2 * (n + |fs|) + 6
    case Resizing(fs) => 2 * |fs| + 2 * (n + |fs|) + 5
    case Growing(_, _, _, left) => 2 * left + 2 * (n + left) + 4
    case Tallying(_, _, _, left) => 2 * left - 1 + 2 * (n + left - 1) + 4
    case Launching(_, _, _, k) => n - k + n + 3
    case Asking(_, _, _) => n + 2
    case Scanning(_, k, _) => n - k + 1
    case Leaving(k) => 4 * (n - k) + 1
    case LeaveClaiming(k) => 4 * (n - k)
    case LeaveCharging(k) => 4 * (n - k) - 1
    case LeaveWriting(k) => 4 * (n - k) - 2
    case _ => 0
  }

  lemma PlanAdvances(p: Pool)
    requires PoolInv(p) && CanTake(p, Plan) && !p.plan.Chosen? && !p.plan.Joining?
    ensures 0 <= PlanWork(PlanStep(p)) < PlanWork(p)
  {
    PlanStepOk(p);
    if p.plan.Resizing? { NoMoreThanFlows(p); }
    PlanBounds(p);
    PlanBounds(PlanStep(p));
    NeverFails(PlanStep(p));
    hide PoolInv, CanTake, PlanStep, PlanWork, Shortfall;
    PlanFalls(p);
  }

  lemma PlanFalls(p: Pool)
    requires CanTake(p, Plan) && !p.plan.Chosen? && !p.plan.Joining? && !PlanStep(p).plan.Failed? && 0 <= PlanWork(p)
    requires p.plan.Growing? ==> p.plan.first <= |p.nodes|
    requires p.plan.Tallying? ==> p.plan.left > 0
    requires p.plan.Resizing? ==> Shortfall(|p.plan.flows|, p.available_len) <= |p.plan.flows|
    ensures PlanWork(PlanStep(p)) < PlanWork(p)
  {
    hide PlanStep, PlanWork, Shortfall;
    if Quits(p.plan) {
      LeaveFalls(p);
    } else if p.plan.Scanning? {
      ScanFalls(p);
    } else if p.plan.Sizing? || p.plan.Resizing? {
      SizeFalls(p);
    } else {
      GrowFalls(p);
    }
  }

  lemma LeaveFalls(p: Pool)
    requires CanTake(p, Plan) && Quits(p.plan)
    ensures PlanWork(PlanStep(p)) < PlanWork(p)
  {
    hide Down;
  }

  lemma ScanFalls(p: Pool)
    requires CanTake(p, Plan) && p.plan.Scanning? && !PlanStep(p).plan.Failed?
    ensures PlanWork(PlanStep(p)) < PlanWork(p)
  {
    hide Idle;
  }

  lemma SizeFalls(p: Pool)
    requires CanTake(p, Plan) && (p.plan.Sizing? || p.plan.Resizing?) && !PlanStep(p).plan.Failed?
    requires p.plan.Resizing? ==> Shortfall(|p.plan.flows|, p.available_len) <= |p.plan.flows|
    ensures PlanWork(PlanStep(p)) < PlanWork(p)
  {
    hide Shortfall;
  }

  lemma GrowFalls(p: Pool)
    requires CanTake(p, Plan) && (p.plan.Growing? || p.plan.Tallying? || p.plan.Launching? || p.plan.Asking?) &&
      !PlanStep(p).plan.Failed?
    requires p.plan.Growing? ==> p.plan.first <= |p.nodes|
    requires p.plan.Tallying? ==> p.plan.left > 0
    ensures PlanWork(PlanStep(p)) < PlanWork(p)
  {
    hide Up;
  }

  lemma PlanBounds(p: Pool)
    requires PoolInv(p)
    ensures 0 <= PlanWork(p)
    ensures p.plan.Growing? ==> p.plan.first <= |p.nodes|
    ensures p.plan.Tallying? ==> p.plan.left > 0
  {
    hide PoolNodesOk, SendersOk, PoolCountsOk, Picked, IdleAfter;
  }

  /** The work of the main thread at the server it is at. */
  function MainWork(s: Net): int
    requires Shaped(s)
  {
    match s.phase
    case Serving(i) =>
      if i == |s.pools| then 0
      else if s.pools[i].plan.Between? then
        var d := s.demand[s.r][i];
        2 * d + 2 * (|s.pools[i].nodes| + d) + 7
      else PlanWork(s.pools[i])
    case Quitting(i) =>
      if i == |s.pools| then 0
      else if s.pools[i].plan.Between? then 4 * |s.pools[i].nodes| + 2
      else PlanWork(s.pools[i])
    case _ => 0
  }

  /** Servers the main thread has still to visit for this request, or in the exits. */
  function Rank(s: Net): nat
    requires Shaped(s)
  {
    match s.phase
    case Serving(i) => |s.pools| - i + 1
    case Quitting(i) => |s.pools| - i + 1
    case _ => 0
  }

  function StageWork(stage: Stage): nat {
    match stage case ToClaim => 3 case ToCharge => 2 case ToWrite => 1 case Sent => 0
  }

  function ThreadWork(senders: seq<Sender>): nat {
    if senders == [] then 0 else ThreadWork(senders[..|senders| - 1]) + StageWork(senders[|senders| - 1].stage)
  }

  lemma {:induction false} ThreadWorkUpdate(senders: seq<Sender>, j: nat, t: Sender)
    requires j < |senders|
    ensures ThreadWork(senders[j := t]) == ThreadWork(senders) - StageWork(senders[j].stage) + StageWork(t.stage)
  {
    var last := |senders| - 1;
    if j < last {
      ThreadWorkUpdate(senders[..last], j, t);
      assert senders[j := t][..last] == senders[..last][j := t];
    } else {
      assert senders[j := t][..last] == senders[..last];
    }
  }

  function SendWork(pools: seq<Pool>): nat {
    if pools == [] then 0 else SendWork(pools[..|pools| - 1]) + ThreadWork(pools[|pools| - 1].senders)
  }

  function HearWork(pools: seq<Pool>): nat {
    if pools == [] then 0 else HearWork(pools[..|pools| - 1]) + PoolRuns.Work(pools[|pools| - 1].nodes)
  }

  lemma {:induction false} PoolWorkUpdate(pools: seq<Pool>, i: nat, p: Pool)
    requires i < |pools|
    ensures SendWork(pools[i := p]) == SendWork(pools) - ThreadWork(pools[i].senders) + ThreadWork(p.senders)
    ensures HearWork(pools[i := p]) == HearWork(pools) - PoolRuns.Work(pools[i].nodes) + PoolRuns.Work(p.nodes)
  {
    var last := |pools| - 1;
    if i < last {
      PoolWorkUpdate(pools[..last], i, p);
      assert pools[i := p][..last] == pools[..last][i := p];
    } else {
      assert pools[i := p][..last] == pools[..last];
    }
  }

  /** Fewer requests to serve; or fewer servers to visit; or less to do at the one at hand; or
      less left for the run_flow threads; or less left for the listeners. */
  predicate Closer(t: Net, s: Net)
    requires Shaped(t) && Shaped(s)
  {
    && t.demand == s.demand && 0 <= MainWork(s)
    && (t.r > s.r
        || (t.r == s.r
            && (Rank(t) < Rank(s)
                || (Rank(t) == Rank(s)
                    && (MainWork(t) < MainWork(s)
                        || (MainWork(t) == MainWork(s)
                            && (SendWork(t.pools) < SendWork(s.pools)
                                || (SendWork(t.pools) == SendWork(s.pools) &&
                                   HearWork(t.pools) < HearWork(s.pools)))))))))
  }

  lemma MainWorkSign(s: Net)
    requires NetInv(s)
    ensures 0 <= MainWork(s)
  {
    if (s.phase.Serving? || s.phase.Quitting?) && s.phase.i < |s.pools| {
      assert PoolHere(s, s.phase.i);
      PlanBounds(s.pools[s.phase.i]);
    }
    hide PoolHere, SentOk, PlanWork, FlowIdOk;
  }

  lemma MainCloser(s: Net)
    requires NetInv(s) && CanMove(s, Main)
    ensures Shaped(MainStep(s)) && Closer(MainStep(s), s)
  {
    MainWorkSign(s);
    MainOk(s);
    if (s.phase.Serving? || s.phase.Quitting?) && s.phase.i < |s.pools| {
      var p := s.pools[s.phase.i];
      assert PoolHere(s, s.phase.i);
      NotWithThreads(s, s.phase.i);
      hide PoolHere, SentOk, FlowIdOk, CanTake;
      if !p.plan.Between? && !p.plan.Chosen? && !p.plan.Waiting? { PlanAdvances(p); }
      hide NetInv, PlanStep, SendWork, HearWork, Take, PoolInv;
      OneServerCloser(s);
    } else {
      hide NetInv, PlanStep, SendWork, HearWork, StartThreads, JoinThreads;
    }
  }

  lemma NotWithThreads(s: Net, i: nat)
    requires NetInv(s) && (s.phase.Serving? || s.phase.Quitting?) && i == s.phase.i < |s.pools|
    ensures PoolInv(s.pools[i]) && !s.pools[i].plan.Joining?
    ensures (s.phase.Quitting? ==> !s.pools[i].plan.Chosen?) && (s.phase.Serving? ==> !s.pools[i].plan.Waiting?)
  {
    assert PoolHere(s, i);
    hide PoolInv, CarriesAll, Room;
  }

  lemma OneServerCloser(s: Net)
    requires CanMove(s, Main) && (s.phase.Serving? || s.phase.Quitting?) && s.phase.i < |s.pools|
    requires Shaped(MainStep(s)) && 0 <= MainWork(s)
    requires var p := s.pools[s.phase.i];
             && !p.plan.Joining? && (s.phase.Quitting? ==> !p.plan.Chosen?) && (s.phase.Serving? ==> !p.plan.Waiting?)
             && (!p.plan.Between? && !p.plan.Chosen? && !p.plan.Waiting? ==>
                   CanTake(p, Plan) && PlanWork(PlanStep(p)) < PlanWork(p) && !PlanStep(p).plan.Between?)
    ensures Closer(MainStep(s), s)
  {
    hide PlanStep, SendWork, HearWork, PlanWork;
    var p := s.pools[s.phase.i];
    if p.plan.Between? && s.phase.Serving? { BeginWork(p, s.demand[s.r][s.phase.i], s.flow_id); }
    if p.plan.Between? && s.phase.Quitting? { QuitWork(p); }
  }

  lemma BeginWork(p: Pool, num: nat, last: nat)
    requires p.plan.Between? && CanServe(p, num, last)
    ensures num > 0 ==> PlanWork(Take(p, Begin(Ids(last, num)))) == 2 * num + 2 * (|p.nodes| + num) + 6
  {
  }

  lemma QuitWork(p: Pool)
    requires p.plan.Between?
    ensures PlanWork(Take(p, Quit)) == 4 * |p.nodes| + 1
  {
  }

  lemma SendCloser(s: Net, i: nat, j: nat)
    requires NetInv(s) && CanMove(s, SendAt(i, j))
    ensures Closer(SendAtStep(s, i, j), s)
  {
    hide NetInv, MainWork, SendWork, HearWork, ThreadWork, Down;
    MainWorkSign(s);
    var t := SendAtStep(s, i, j);
    SameMainWork(s, t, i);
    PoolWorkUpdate(s.pools, i, t.pools[i]);
    ThreadWorkUpdate(s.pools[i].senders, j, t.pools[i].senders[j]);
  }

  lemma HearCloser(s: Net, i: nat, k: nat)
    requires NetInv(s) && CanMove(s, HearAt(i, k))
    ensures Closer(Moved(s, HearAt(i, k)), s)
  {
    hide NetInv, MainWork, ListenNode, Credits, Up, SendWork, HearWork;
    MainWorkSign(s);
    var t, n := Moved(s, HearAt(i, k)), s.pools[i].nodes[k];
    PoolRuns.NodeWorkFalls(n);
    PoolRuns.WorkUpdate(s.pools[i].nodes, k, ListenNode(n));
    PoolWorkUpdate(s.pools, i, t.pools[i]);
    SameMainWork(s, t, i);
  }

  /** Neither the planner's stand nor the length of a list depends on the other threads. */
  lemma SameMainWork(s: Net, t: Net, i: nat)
    requires Shaped(s) && i < |s.pools| && |t.pools| == |s.pools| &&
      t == s.(pools := s.pools[i := t.pools[i]], sent := t.sent)
    requires t.pools[i].plan == s.pools[i].plan && |t.pools[i].nodes| == |s.pools[i].nodes|
    ensures Shaped(t) && MainWork(t) == MainWork(s) && Rank(t) == Rank(s)
  {
    if s.phase.Serving? || s.phase.Quitting? {
      if s.phase.i < |s.pools| { SamePlanWork(s.pools[s.phase.i], t.pools[s.phase.i]); }
    }
    hide PlanWork;
  }

  lemma SamePlanWork(p: Pool, p': Pool)
    requires p'.plan == p.plan && |p'.nodes| == |p.nodes|
    ensures PlanWork(p') == PlanWork(p)
  {
  }

  /** Every move of any thread brings the run closer to its end. */
  lemma MoveProgress(s: Net, m: NetMove)
    requires NetInv(s) && CanMove(s, m)
    ensures Shaped(Moved(s, m)) && Closer(Moved(s, m), s)
  {
    MovedOk(s, m);
    match m
    case Main => MainCloser(s);
    case SendAt(i, j) => SendCloser(s, i, j);
    case HearAt(i, k) => HearCloser(s, i, k);
  }

  // ----- whole schedules -----

  lemma {:induction false} ReachedSnoc(s: Net, moves: seq<NetMove>, m: NetMove)
    requires NetRuns(s, moves) && CanMove(NetReached(s, moves), m)
    ensures NetRuns(s, moves + [m]) && NetReached(s, moves + [m]) == Moved(NetReached(s, moves), m)
    decreases |moves|
  {
    hide CanMove, Moved;
    if moves == [] {
      assert [] + [m] == [m];
      assert [m][1..] == [];
    } else {
      ReachedSnoc(Moved(s, moves[0]), moves[1..], m);
      assert (moves + [m])[1..] == moves[1..] + [m];
    }
  }

  /** A scheduler that always names a thread that can move, given the moves made so far. */
  ghost predicate Schedules(pick: seq<NetMove> -> NetMove, s: Net) {
    forall moves :: NetRuns(s, moves) && !NetReached(s, moves).phase.Done? ==>
      CanMove(NetReached(s, moves), pick(moves))
  }

  ghost predicate Follows(moves: seq<NetMove>, pick: seq<NetMove> -> NetMove) {
    forall i :: 0 <= i < |moves| ==> moves[i] == pick(moves[..i])
  }

  lemma {:induction false} RunsOut(s: Net, pick: seq<NetMove> -> NetMove, moves: seq<NetMove>, t: Net)
    returns (all: seq<NetMove>)
    requires Schedules(pick, s) && Follows(moves, pick) && NetRuns(s, moves) && t == NetReached(s, moves) && NetInv(t)
    ensures Follows(all, pick) && NetRuns(s, all) && NetInv(NetReached(s, all)) && NetReached(s, all).phase.Done?
    ensures NetReached(s, all).demand == t.demand
    decreases |t.demand| - t.r, Rank(t), MainWork(t), SendWork(t.pools), HearWork(t.pools)
  {
    if t.phase.Done? { return moves; }
    var m := pick(moves);
    MovedOk(t, m);
    MoveProgress(t, m);
    ReachedSnoc(s, moves, m);
    hide NetRuns, NetReached, PoolHere, SentOk, FlowIdOk, CanMove, Moved, MainWork, Rank, SendWork, HearWork;
    assert Follows(moves + [m], pick) by {
      forall i | 0 <= i < |moves + [m]| ensures (moves + [m])[i] == pick((moves + [m])[..i]) {
        assert (moves + [m])[..i] == moves[..i];
      }
    }
    all := RunsOut(s, pick, moves + [m], Moved(t, m));
  }

  /** However the threads are scheduled, a run of the incast client comes to an end, and there
      every request has been served and everything is settled. */
  lemma EveryScheduleEnds(demand: seq<seq<nat>>, sizes: seq<nat>, pick: seq<NetMove> -> NetMove)
    returns (moves: seq<NetMove>)
    requires Startable(demand, sizes) && Schedules(pick, NetStart(demand, sizes))
    ensures Follows(moves, pick) && NetRuns(NetStart(demand, sizes), moves)
    ensures var end := NetReached(NetStart(demand, sizes), moves);
            end.phase.Done? && end.demand == demand && end.r == |demand| && Settled(end)
  {
    NetStartOk(demand, sizes);
    assert NetStart(demand, sizes).demand == demand;
    hide NetInv, Schedules, NetRuns, NetReached, NetStart;
    moves := RunsOut(NetStart(demand, sizes), pick, [], NetStart(demand, sizes));
    DoneSettled(NetReached(NetStart(demand, sizes), moves));
    DoneServed(NetReached(NetStart(demand, sizes), moves));
  }

  lemma DoneServed(s: Net)
    requires NetInv(s) && s.phase.Done?
    ensures s.r == |s.demand|
  {
  }

  /** No reachable state is stuck short of the end. */
  lemma NeverStuck(demand: seq<seq<nat>>, sizes: seq<nat>, moves: seq<NetMove>) returns (m: NetMove)
    requires Startable(demand, sizes) && NetRuns(NetStart(demand, sizes), moves)
    ensures var s := NetReached(NetStart(demand, sizes), moves); s.phase.Done? || CanMove(s, m)
  {
    NetStartOk(demand, sizes);
    NetRunsOk(NetStart(demand, sizes), moves);
    hide NetInv, NetRuns, NetReached, NetStart, CanMove;
    m := Main;
    if !NetReached(NetStart(demand, sizes), moves).phase.Done? {
      m := SomeMove(NetReached(NetStart(demand, sizes), moves));
    }
  }
}
