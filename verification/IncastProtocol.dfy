/** The connection pool under TrafficGenerator's incast client, seen from one server: the thread
    that plans requests, the run_flow threads of one request, and the listeners, interleaved.
    Nodes, listeners and what a node may hold are those of PoolProtocol. */
module IncastProtocol {
  import opened Words
  import opened PoolProtocol

  const HALF: nat := 0x8000_0000

  /** A run_flow thread: its connection, its flow and where it stands. */
  datatype Stage = ToClaim | ToCharge | ToWrite | Sent
  datatype Sender = Sender(k: nat, flow: nat, stage: Stage)

  /** The main thread at one server: run_incast_request with the flow ids that go to it, then
      exit_connections.  first and seen remember, of the top-up, the length of the list and the
      value of available_len it went by. */
  datatype Planner =
    | Between                                               // no flow for this server at hand
    | Sizing(flows: seq<nat>)                               // max: about to read available_len
    | Resizing(flows: seq<nat>)                             // max: about to read it again
    | Growing(flows: seq<nat>, first: nat, seen: nat, left: nat)     // insert_conn_list, loop head
    | Tallying(flows: seq<nat>, first: nat, seen: nat, left: nat)    // node linked, about to be counted
    | Launching(flows: seq<nat>, first: nat, seen: nat, k: nat)      // starting the listener of node k
    | Asking(flows: seq<nat>, first: nat, seen: nat)        // search_n_conn_list, about to read available_len
    | Scanning(flows: seq<nat>, k: nat, found: seq<nat>)    // search_n_conn_list at node k
    | Chosen(flows: seq<nat>, found: seq<nat>)              // connections of this server selected
    | Joining                                               // run_flow threads started
    | Leaving(k: nat)                                       // exit_connections at node k
    | LeaveClaiming(k: nat)                                 // run_flow with id 0, about to set busy
    | LeaveCharging(k: nat)                                 // about to decrement available_len
    | LeaveWriting(k: nat)                                  // about to write the request
    | Waiting                                               // wait_conn_list
    | Failed                                                // a search or an allocation path gave up

  datatype Pool = Pool(nodes: seq<Node>, available_len: nat, flow_finished: nat, dispatched: nat,
                       senders: seq<Sender>, plan: Planner)

  datatype Move = Begin(flows: seq<nat>) | Quit | Plan | Send(i: nat) | Hear(k: nat)

  /** The pool as main leaves it. */
  function Opened(n: nat): Pool {
    Pool(seq(n, _ => IDLE_NODE), n % WORD, 0, 0, [], Between)
  }

  predicate FlowsOk(flows: seq<nat>) {
    0 < |flows| < HALF && forall i :: 0 <= i < |flows| ==> flows[i] > 0
  }

  // ----- moves -----

  predicate CanTake(p: Pool, m: Move) {
    match m
    case Begin(flows) => p.plan.Between? && FlowsOk(flows) && |p.nodes| + |flows| < HALF
    case Quit => p.plan.Between?
    case Plan =>
      (match p.plan
       case Between => false
       case Joining => forall i :: 0 <= i < |p.senders| ==> p.senders[i].stage.Sent?
       case Launching(_, _, _, k) => k <= |p.nodes|
       case Scanning(_, k, _) => k <= |p.nodes|
       case Chosen(flows, found) => |found| == |flows|
       case Leaving(k) => k <= |p.nodes|
       case LeaveClaiming(k) => k < |p.nodes|
       case LeaveCharging(k) => k < |p.nodes|
       case LeaveWriting(k) => k < |p.nodes|
       case Waiting => false
       case Failed => false
       case _ => true)
    case Send(i) => p.plan.Joining? && i < |p.senders| && !p.senders[i].stage.Sent? && p.senders[i].k < |p.nodes|
    case Hear(k) =>
      k < |p.nodes| &&
      (match p.nodes[k].listener
       case NotStarted => false
       case Reading => p.nodes[k].wire != []
       case Finished => false
       case _ => true)
  }

  /** One thread for each selected connection and flow. */
  function Launch(found: seq<nat>, flows: seq<nat>): seq<Sender>
    requires |found| == |flows|
  {
    if found == [] then []
    else
      var last := |found| - 1;
      Launch(found[..last], flows[..last]) + [Sender(found[last], flows[last], ToClaim)]
  }

  /** num_conn_new as insert_conn_list receives it: the unsigned difference read as an int, so
      that a difference with the top bit set asks for no node. */
  function Shortfall(num: nat, available_len: nat): nat {
    var v := (num - available_len) % WORD;
    if v >= HALF then 0 else v
  }

  /** What a request of num flows lacks when available_len connections are free. */
  function Missing(num: nat, available_len: nat): nat {
    if num > available_len then num - available_len else 0
  }

  function PlanStep(p: Pool): Pool
    requires CanTake(p, Plan)
  {
    match p.plan
    case Sizing(fs) =>
      if |fs| % WORD == p.available_len then p.(plan := Asking(fs, |p.nodes|, p.available_len))
      else p.(plan := Resizing(fs))
    case Resizing(fs) =>
      if |fs| % WORD == p.available_len then p.(plan := Asking(fs, |p.nodes|, p.available_len))
      else if p.nodes == [] then p.(plan := Failed)
      else p.(plan := Growing(fs, |p.nodes|, p.available_len, Shortfall(|fs|, p.available_len)))
    case Growing(fs, first, seen, left) =>
      if left == 0 then p.(plan := Launching(fs, first, seen, first))
      else p.(nodes := p.nodes + [NEW_NODE], plan := Tallying(fs, first, seen, left))
    case Tallying(fs, first, seen, left) =>
      p.(available_len := Up(p.available_len), plan := Growing(fs, first, seen, if left == 0 then 0 else left - 1))
    case Launching(fs, first, seen, k) =>
      if k == |p.nodes| then p.(plan := Asking(fs, first, seen))
      else p.(nodes := p.nodes[k := p.nodes[k].(listener := Reading)], plan := Launching(fs, first, seen, k + 1))
    case Asking(fs, _, _) => p.(plan := if p.available_len < |fs| then Failed else Scanning(fs, 0, []))
    case Scanning(fs, k, found) =>
      if k == |p.nodes| then p.(plan := Failed)
      else
        var more := if Idle(p.nodes[k]) then found + [k] else found;
        p.(plan := if |more| < |fs| then Scanning(fs, k + 1, more) else Chosen(fs, more))
    case Chosen(fs, found) => p.(senders := Launch(found, fs), plan := Joining)
    case Joining => p.(senders := [], plan := Between)
    case Leaving(k) =>
      if k == |p.nodes| then p.(plan := Planner.Waiting)
      else p.(plan := if p.nodes[k].connected then LeaveClaiming(k) else Leaving(k + 1))
    case LeaveClaiming(k) => p.(nodes := p.nodes[k := p.nodes[k].(busy := true)], plan := LeaveCharging(k))
    case LeaveCharging(k) => p.(available_len := Down(p.available_len), plan := LeaveWriting(k))
    case LeaveWriting(k) =>
      p.(nodes := p.nodes[k := p.nodes[k].(wire := p.nodes[k].wire + [0])], plan := Leaving(k + 1))
  }

  function SendStep(p: Pool, i: nat): Pool
    requires CanTake(p, Send(i))
  {
    var t := p.senders[i];
    match t.stage
    case ToClaim =>
      p.(nodes := p.nodes[t.k := p.nodes[t.k].(busy := true)], senders := p.senders[i := t.(stage := ToCharge)])
    case ToCharge => p.(available_len := Down(p.available_len), senders := p.senders[i := t.(stage := ToWrite)])
    case ToWrite =>
      p.(nodes := p.nodes[t.k := p.nodes[t.k].(wire := p.nodes[t.k].wire + [t.flow])],
         dispatched := p.dispatched + 1, senders := p.senders[i := t.(stage := Sent)])
  }

  function HearStep(p: Pool, k: nat): Pool
    requires k < |p.nodes|
  {
    var c := Credits(p.nodes[k]);
    p.(nodes := p.nodes[k := ListenNode(p.nodes[k])],
       available_len := if c then Up(p.available_len) else p.available_len,
       flow_finished := if c then Up(p.flow_finished) else p.flow_finished)
  }

  function Take(p: Pool, m: Move): Pool
    requires CanTake(p, m)
  {
    match m
    case Begin(flows) => p.(plan := Sizing(flows))
    case Quit => p.(plan := Leaving(0))
    case Plan => PlanStep(p)
    case Send(i) => SendStep(p, i)
    case Hear(k) => HearStep(p, k)
  }

  ghost predicate Runs(p: Pool, moves: seq<Move>)
    decreases |moves|
  {
    moves == [] || (CanTake(p, moves[0]) && Runs(Take(p, moves[0]), moves[1..]))
  }

  ghost function Reached(p: Pool, moves: seq<Move>): Pool
    requires Runs(p, moves)
    decreases |moves|
  {
    if moves == [] then p else Reached(Take(p, moves[0]), moves[1..])
  }

  // ----- the invariant -----

  /** A thread has set busy on node k and not yet written its request. */
  ghost predicate Holds(senders: seq<Sender>, k: nat) {
    exists i :: 0 <= i < |senders| && senders[i].k == k && (senders[i].stage.ToCharge? || senders[i].stage.ToWrite?)
  }

  /** Threads that have still to decrement available_len. */
  function Uncharged(senders: seq<Sender>): nat {
    if senders == [] then 0
    else
      var t := senders[|senders| - 1].stage;
      Uncharged(senders[..|senders| - 1]) + if t.ToClaim? || t.ToCharge? then 1 else 0
  }

  /** Threads that have decremented available_len and not yet written. */
  function Unwritten(senders: seq<Sender>): nat {
    if senders == [] then 0
    else Unwritten(senders[..|senders| - 1]) + if senders[|senders| - 1].stage.ToWrite? then 1 else 0
  }

  predicate Quits(plan: Planner) {
    plan.Leaving? || plan.LeaveClaiming? || plan.LeaveCharging? || plan.LeaveWriting? || plan.Waiting?
  }

  /** Nodes told to terminate: those before the one exit_connections stands on. */
  function LeftUpTo(p: Pool): nat {
    if p.plan.Waiting? then |p.nodes| else if Quits(p.plan) then p.plan.k else 0
  }

  /** A node of the pool; the exits set busy without regard to what the node carries. */
  ghost predicate PoolNode(n: Node, held: bool, left: bool, waits: bool, quits: bool) {
    NodeCore(n, held, left, waits) && (quits || BusyRight(n, held))
  }

  /** Nodes whose listener has not been started. */
  predicate Waits(plan: Planner, k: nat) {
    || ((plan.Growing? || plan.Tallying?) && k >= plan.first)
    || (plan.Launching? && k >= plan.k)
  }

  ghost predicate PoolNodesOk(p: Pool) {
    forall k :: 0 <= k < |p.nodes| ==>
      PoolNode(p.nodes[k], Holds(p.senders, k), k < LeftUpTo(p), Waits(p.plan, k), Quits(p.plan))
  }

  ghost predicate SendersOk(p: Pool) {
    && (p.senders != [] ==> p.plan.Joining?)
    && (forall i :: 0 <= i < |p.senders| ==>
          && p.senders[i].k < |p.nodes| && p.senders[i].flow > 0
          && (p.senders[i].stage.ToClaim? ==> Idle(p.nodes[p.senders[i].k])))
    && (forall i, j :: 0 <= i < j < |p.senders| ==> p.senders[i].k != p.senders[j].k)
  }

  /** available_len as the nodes and the threads determine it. */
  function PoolAvailable(p: Pool): int {
    |p.nodes| - TotalPending(p.nodes) - Unwritten(p.senders) - LeftUpTo(p)
    - if p.plan.Tallying? || p.plan.LeaveWriting? then 1 else 0
  }

  /** Idle nodes at k or after. */
  function IdleAfter(nodes: seq<Node>, k: nat): nat
    decreases |nodes| - k
  {
    if k >= |nodes| then 0 else (if Idle(nodes[k]) then 1 else 0) + IdleAfter(nodes, k + 1)
  }

  /** found lists idle nodes before k, each once, in list order. */
  ghost predicate Picked(nodes: seq<Node>, found: seq<nat>, k: nat) {
    && (forall i :: 0 <= i < |found| ==> found[i] < k && found[i] < |nodes| && Idle(nodes[found[i]]))
    && (forall i, j :: 0 <= i < j < |found| ==> found[i] < found[j])
  }

  ghost predicate PlanOk(p: Pool) {
    match p.plan
    case Between => true
    case Sizing(fs) => FlowsOk(fs) && |p.nodes| + |fs| < HALF
    case Resizing(fs) => FlowsOk(fs) && |p.nodes| + |fs| < HALF
    case Growing(fs, first, seen, left) =>
      && FlowsOk(fs) && first <= |p.nodes| && |p.nodes| + left < HALF && PoolAvailable(p) + left >= |fs|
      && |p.nodes| + left == first + Missing(|fs|, seen)
    case Tallying(fs, first, seen, left) =>
      && FlowsOk(fs) && first < |p.nodes| && 0 < left && |p.nodes| + left <= HALF && PoolAvailable(p) + left >= |fs|
      && |p.nodes| + left == first + Missing(|fs|, seen) + 1
    case Launching(fs, first, seen, k) =>
      FlowsOk(fs) && k <= |p.nodes| && PoolAvailable(p) >= |fs| && |p.nodes| == first + Missing(|fs|, seen)
    case Asking(fs, first, seen) => FlowsOk(fs) && PoolAvailable(p) >= |fs| && |p.nodes| == first + Missing(|fs|, seen)
    case Scanning(fs, k, found) =>
      && FlowsOk(fs) && k <= |p.nodes| && PoolAvailable(p) >= |fs| > |found|
      && Picked(p.nodes, found, k) && |found| + IdleAfter(p.nodes, k) >= |fs|
    case Chosen(fs, found) =>
      FlowsOk(fs) && |found| == |fs| <= PoolAvailable(p) && Picked(p.nodes, found, |p.nodes|)
    case Joining => true
    case Leaving(k) => k <= |p.nodes|
    case LeaveClaiming(k) => k < |p.nodes|
    case LeaveCharging(k) => k < |p.nodes|
    case LeaveWriting(k) => k < |p.nodes|
    case Waiting => true
    case Failed => false
  }

  ghost predicate PoolCountsOk(p: Pool) {
    && p.available_len == PoolAvailable(p) % WORD
    && (!Quits(p.plan) ==> Uncharged(p.senders) <= PoolAvailable(p))
    && p.flow_finished == (p.dispatched - TotalPending(p.nodes)) % WORD
    && p.dispatched >= TotalPending(p.nodes)
  }

  ghost predicate PoolInv(p: Pool) {
    0 < |p.nodes| < HALF && PoolNodesOk(p) && SendersOk(p) && PlanOk(p) && PoolCountsOk(p)
  }

  /** No wrap-around: the counter is the count. */
  lemma CounterExact(p: Pool)
    requires PoolInv(p) && !Quits(p.plan)
    ensures p.available_len == PoolAvailable(p) <= |p.nodes|
  {
    hide PoolNodesOk, SendersOk, PlanOk, TotalPending;
  }

  // ----- threads -----

  lemma {:induction false} StageUpdate(senders: seq<Sender>, i: nat, t: Sender)
    requires i < |senders|
    ensures Uncharged(senders[i := t]) == Uncharged(senders)
              - (if senders[i].stage.ToClaim? || senders[i].stage.ToCharge? then 1 else 0)
              + (if t.stage.ToClaim? || t.stage.ToCharge? then 1 else 0)
    ensures Unwritten(senders[i := t]) == Unwritten(senders)
              - (if senders[i].stage.ToWrite? then 1 else 0) + (if t.stage.ToWrite? then 1 else 0)
  {
    var last := |senders| - 1;
    if i < last {
      StageUpdate(senders[..last], i, t);
      assert senders[i := t][..last] == senders[..last][i := t];
    } else {
      assert senders[i := t][..last] == senders[..last];
    }
  }

  /** With distinct connections, only a thread's own stage decides whether its node is held. */
  lemma HoldsUpdate(senders: seq<Sender>, i: nat, stage: Stage, k: nat)
    requires i < |senders| && forall a, b :: 0 <= a < b < |senders| ==> senders[a].k != senders[b].k
    ensures Holds(senders[i := senders[i].(stage := stage)], k) ==
              if k == senders[i].k then stage.ToCharge? || stage.ToWrite? else Holds(senders, k)
  {
    var r := senders[i := senders[i].(stage := stage)];
    if k == senders[i].k {
      assert r[i].k == k && r[i].stage == stage;
    } else {
      if Holds(senders, k) {
        var j :| 0 <= j < |senders| && senders[j].k == k && (senders[j].stage.ToCharge? || senders[j].stage.ToWrite?);
        assert r[j] == senders[j];
      }
      if Holds(r, k) {
        var j :| 0 <= j < |r| && r[j].k == k && (r[j].stage.ToCharge? || r[j].stage.ToWrite?);
        assert r[j] == senders[j];
      }
    }
  }

  lemma {:induction false} Launched(found: seq<nat>, flows: seq<nat>)
    requires |found| == |flows|
    ensures |Launch(found, flows)| == |found| == Uncharged(Launch(found, flows)) && Unwritten(Launch(found, flows)) == 0
    ensures forall i :: 0 <= i < |found| ==> Launch(found, flows)[i] == Sender(found[i], flows[i], ToClaim)
  {
    if found != [] {
      var last := |found| - 1;
      Launched(found[..last], flows[..last]);
      var init := Launch(found[..last], flows[..last]);
      assert Launch(found, flows)[..last] == init;
    }
  }

  lemma {:induction false} AllSent(senders: seq<Sender>)
    requires forall i :: 0 <= i < |senders| ==> senders[i].stage.Sent?
    ensures Uncharged(senders) == 0 && Unwritten(senders) == 0
  {
    if senders != [] { AllSent(senders[..|senders| - 1]); }
  }

  // ----- idle nodes -----

  lemma {:induction false} IdleAfterGrows(nodes: seq<Node>, j: nat, n: Node, k: nat)
    requires j < |nodes| && (Idle(nodes[j]) ==> Idle(n))
    ensures IdleAfter(nodes[j := n], k) >= IdleAfter(nodes, k)
    decreases |nodes| - k
  {
    if k < |nodes| { IdleAfterGrows(nodes, j, n, k + 1); }
  }

  /** When no node is held and every listener runs, a node that is not idle has a pending flow. */
  lemma {:induction false} IdleCovers(nodes: seq<Node>, k: nat)
    requires k <= |nodes| && forall j :: 0 <= j < |nodes| ==> NodeOk(nodes[j], false, false, false)
    ensures IdleAfter(nodes, k) >= |nodes| - k - TotalPending(nodes) + TotalPending(nodes[..k])
    decreases |nodes| - k
  {
    hide NodeOk, Pending, Idle;
    if k < |nodes| {
      IdleCovers(nodes, k + 1);
      if Pending(nodes[k]) == 0 { FreeIsIdle(nodes[k]); }
      assert nodes[..k + 1][..k] == nodes[..k];
    } else {
      assert nodes[..k] == nodes;
    }
  }
}
