/** The whole incast client: one main thread that serves the requests server by server, the
    run_flow threads of the current request on all servers, and the listeners of all
    connections. */
module IncastNet {
  import opened Histograms
  import opened PoolProtocol
  import opened IncastProtocol
  import opened IncastSteps
  import Table = IncastRequests

  /** run_incast_request at server i, or waiting for the run_flow threads; then exit_connections
      at server i. */
  datatype Phase = Serving(i: nat) | Sending | Quitting(i: nat) | Done

  /** demand is req_server_flow_count; r is the request being served.  sent is a history
      variable: the requests during which flow ids were written to a connection. */
  datatype Net = Net(demand: seq<seq<nat>>, pools: seq<Pool>, phase: Phase, r: nat, flow_id: nat, sent: map<nat, nat>)

  datatype NetMove = Main | SendAt(i: nat, j: nat) | HearAt(i: nat, k: nat)

  // ----- flow ids -----

  function Total(counts: seq<nat>): nat {
    assert counts[..|counts|] == counts;
    Table.SumGrows(counts, 0, |counts|);
    Sum(counts)
  }

  function Fanouts(demand: seq<seq<nat>>): (fs: seq<nat>)
    ensures |fs| == |demand| && forall r :: 0 <= r < |demand| ==> fs[r] == Total(demand[r])
  {
    seq(|demand|, r requires 0 <= r < |demand| => Total(demand[r]))
  }

  /** flow_req_id. */
  function FlowTable(demand: seq<seq<nat>>): seq<nat> {
    Table.FlowReqIds(Fanouts(demand))
  }

  /** Flows of the requests before r. */
  function Base(demand: seq<seq<nat>>, r: nat): nat
    requires r <= |demand|
  {
    Table.SumGrows(Fanouts(demand), 0, r);
    Sum(Fanouts(demand)[..r])
  }

  /** Flows before those of request r at server i. */
  function First(demand: seq<seq<nat>>, r: nat, i: nat): nat
    requires r < |demand| && i <= |demand[r]|
  {
    Table.SumGrows(demand[r], 0, i);
    Base(demand, r) + Sum(demand[r][..i])
  }

  /** The n ids after last. */
  function Ids(last: nat, n: nat): (ids: seq<nat>)
    ensures |ids| == n && forall j :: 0 <= j < n ==> ids[j] == last + 1 + j
  {
    seq(n, j => last + 1 + j)
  }

  lemma BaseStep(demand: seq<seq<nat>>, r: nat)
    requires r < |demand|
    ensures Base(demand, r + 1) == Base(demand, r) + Total(demand[r]) == First(demand, r, |demand[r]|)
  {
    SumStep(Fanouts(demand), r);
    assert demand[r][..|demand[r]|] == demand[r];
  }

  lemma FirstStep(demand: seq<seq<nat>>, r: nat, i: nat)
    requires r < |demand| && i < |demand[r]|
    ensures First(demand, r, i + 1) == First(demand, r, i) + demand[r][i]
  {
    SumStep(demand[r], i);
  }

  lemma FirstGrows(demand: seq<seq<nat>>, r: nat, i: nat, j: nat)
    requires r < |demand| && i <= j <= |demand[r]|
    ensures Base(demand, r) <= First(demand, r, i) <= First(demand, r, j) <= Base(demand, r + 1)
  {
    Table.SumGrows(demand[r], i, j);
    Table.SumGrows(demand[r], j, |demand[r]|);
    BaseStep(demand, r);
  }

  /** The ids of request r have entries in the table, and the entries say r. */
  lemma InTable(demand: seq<seq<nat>>, r: nat, f: nat)
    requires r < |demand| && Base(demand, r) < f <= Base(demand, r + 1)
    ensures f <= |FlowTable(demand)| && FlowTable(demand)[f - 1] == r
  {
    Table.FlowReqAt(Fanouts(demand), r, f - 1);
  }

  /** Different places have different ids. */
  lemma IdsApart(demand: seq<seq<nat>>, r: nat, i: nat, j: nat, i': nat, j': nat)
    requires r < |demand| && i < |demand[r]| && i' < |demand[r]| && j < demand[r][i] && j' < demand[r][i']
    requires First(demand, r, i) + j == First(demand, r, i') + j'
    ensures i == i' && j == j'
  {
    FirstStep(demand, r, i);
    FirstStep(demand, r, i');
    if i < i' { FirstGrows(demand, r, i + 1, i'); }
    if i' < i { FirstGrows(demand, r, i' + 1, i); }
  }

  /** Every id of a request has its place. */
  lemma {:induction false} PlaceOf(demand: seq<seq<nat>>, r: nat, f: nat, n: nat) returns (i: nat, j: nat)
    requires r < |demand| && n <= |demand[r]| && Base(demand, r) < f <= First(demand, r, n)
    ensures i < n && j < demand[r][i] && f == First(demand, r, i) + 1 + j
  {
    FirstGrows(demand, r, 0, n);
    assert First(demand, r, 0) == Base(demand, r);
    FirstStep(demand, r, n - 1);
    if f > First(demand, r, n - 1) {
      return n - 1, f - First(demand, r, n - 1) - 1;
    }
    i, j := PlaceOf(demand, r, f, n - 1);
  }

  // ----- moves -----

  predicate Shaped(s: Net) {
    && (forall q :: 0 <= q < |s.demand| ==> |s.demand[q]| == |s.pools|)
    && match s.phase
       case Serving(i) => s.r < |s.demand| && i <= |s.pools|
       case Sending => s.r < |s.demand|
       case Quitting(i) => s.r == |s.demand| && i <= |s.pools|
       case Done => s.r == |s.demand|
  }

  predicate AllSentAt(p: Pool) {
    forall j :: 0 <= j < |p.senders| ==> p.senders[j].stage.Sent?
  }

  predicate AllFinished(p: Pool) {
    forall k :: 0 <= k < |p.nodes| ==> p.nodes[k].listener.Finished?
  }

  predicate CanMove(s: Net, m: NetMove) {
    Shaped(s) &&
    match m
    case Main =>
      (match s.phase
       case Serving(i) => i == |s.pools| || CanServe(s.pools[i], s.demand[s.r][i], s.flow_id)
       case Sending => forall i :: 0 <= i < |s.pools| ==> AllSentAt(s.pools[i])
       case Quitting(i) => i == |s.pools| || CanQuit(s.pools[i])
       case Done => false)
    case SendAt(i, j) => i < |s.pools| && CanTake(s.pools[i], Send(j))
    case HearAt(i, k) => i < |s.pools| && CanTake(s.pools[i], Hear(k))
  }

  predicate CanServe(p: Pool, num: nat, last: nat) {
    if p.plan.Between? then num == 0 || CanTake(p, Begin(Ids(last, num)))
    else p.plan.Chosen? || CanTake(p, Plan)
  }

  predicate CanQuit(p: Pool) {
    if p.plan.Between? then CanTake(p, Quit)
    else if p.plan.Waiting? then AllFinished(p)
    else CanTake(p, Plan)
  }

  /** After the last request come the exits. */
  function Opening(demand: seq<seq<nat>>, r: nat): Phase {
    if r < |demand| then Serving(0) else Quitting(0)
  }

  /** The threads of a server are started, all at once, since one that has not run is as good as
      not started. */
  function StartThreads(p: Pool): Pool {
    if p.plan.Chosen? && |p.plan.found| == |p.plan.flows| then PlanStep(p) else p
  }

  function JoinThreads(p: Pool): Pool {
    if p.plan.Joining? && AllSentAt(p) then PlanStep(p) else p
  }

  function MainStep(s: Net): Net
    requires CanMove(s, Main)
  {
    match s.phase
    case Serving(i) =>
      if i == |s.pools| then
        var started := seq(|s.pools|, j requires 0 <= j < |s.pools| => StartThreads(s.pools[j]));
        s.(pools := started, phase := Sending)
      else
        var p, num := s.pools[i], s.demand[s.r][i];
        if p.plan.Chosen? then s.(phase := Serving(i + 1), flow_id := s.flow_id + num)
        else if p.plan.Between? && num == 0 then s.(phase := Serving(i + 1))
        else if p.plan.Between? then s.(pools := s.pools[i := Take(p, Begin(Ids(s.flow_id, num)))])
        else s.(pools := s.pools[i := PlanStep(p)])
    case Sending =>
      s.(pools := seq(|s.pools|, j requires 0 <= j < |s.pools| => JoinThreads(s.pools[j])),
         phase := Opening(s.demand, s.r + 1), r := s.r + 1)
    case Quitting(i) =>
      if i == |s.pools| then s.(phase := Done)
      else
        var p := s.pools[i];
        if p.plan.Between? then s.(pools := s.pools[i := Take(p, Quit)])
        else if p.plan.Waiting? then s.(phase := Quitting(i + 1))
        else s.(pools := s.pools[i := PlanStep(p)])
  }

  /** The request that is written when a thread moves on from ToWrite is recorded. */
  function SendAtStep(s: Net, i: nat, j: nat): Net
    requires CanMove(s, SendAt(i, j))
  {
    var t := s.pools[i].senders[j];
    s.(pools := s.pools[i := SendStep(s.pools[i], j)],
       sent := if t.stage.ToWrite? then s.sent[t.flow := s.r] else s.sent)
  }

  function Moved(s: Net, m: NetMove): Net
    requires CanMove(s, m)
  {
    match m
    case Main => MainStep(s)
    case SendAt(i, j) => SendAtStep(s, i, j)
    case HearAt(i, k) => s.(pools := s.pools[i := HearStep(s.pools[i], k)])
  }

  // ----- the invariant -----

  /** The flows a planner works for. */
  predicate PlansFor(plan: Planner, flows: seq<nat>) {
    match plan
    case Sizing(fs) => fs == flows
    case Resizing(fs) => fs == flows
    case Growing(fs, _, _, _) => fs == flows
    case Tallying(fs, _, _, _) => fs == flows
    case Launching(fs, _, _, _) => fs == flows
    case Asking(fs, _, _) => fs == flows
    case Scanning(fs, _, _) => fs == flows
    case Chosen(fs, _) => fs == flows
    case _ => false
  }

  predicate ThreadsFor(senders: seq<Sender>, flows: seq<nat>) {
    |senders| == |flows| && forall j :: 0 <= j < |flows| ==> senders[j].flow == flows[j]
  }

  /** What the main thread has done at server i, where flows are the ids of the current request
      there. */
  predicate Role(phase: Phase, i: nat, p: Pool, flows: seq<nat>) {
    match phase
    case Serving(j) =>
      if i < j then (if flows == [] then p.plan.Between? else p.plan.Chosen? && p.plan.flows == flows)
      else if i == j then p.plan.Between? || (flows != [] && PlansFor(p.plan, flows))
      else p.plan.Between?
    case Sending => if flows == [] then p.plan.Between? else p.plan.Joining? && ThreadsFor(p.senders, flows)
    case Quitting(j) =>
      if i < j then p.plan.Waiting? && AllFinished(p)
      else if i == j then p.plan.Between? || Quits(p.plan)
      else p.plan.Between?
    case Done => p.plan.Waiting? && AllFinished(p)
  }

  function FlowsAt(demand: seq<seq<nat>>, r: nat, i: nat): seq<nat> {
    if r < |demand| && i < |demand[r]| then Ids(First(demand, r, i), demand[r][i]) else []
  }

  /** Nodes that a planner is still to add. */
  function Growth(plan: Planner): nat {
    match plan
    case Sizing(fs) => |fs|
    case Resizing(fs) => |fs|
    case Growing(_, _, _, left) => left
    case Tallying(_, _, _, left) => if left == 0 then 0 else left - 1
    case _ => 0
  }

  /** Flows for server i in request r and after. */
  function Later(demand: seq<seq<nat>>, r: nat, i: nat): nat
    decreases |demand| - r
  {
    if r >= |demand| then 0 else (if i < |demand[r]| then demand[r][i] else 0) + Later(demand, r + 1, i)
  }

  /** The first request that server i has not begun with. */
  function Upcoming(r: nat, phase: Phase, i: nat, plan: Planner): nat {
    if phase.Sending? || (phase.Serving? && (i < phase.i || (i == phase.i && !plan.Between?))) then r + 1 else r
  }

  /** The list stays below 2^31 nodes. */
  predicate Room(demand: seq<seq<nat>>, r: nat, phase: Phase, i: nat, p: Pool) {
    |p.nodes| + Growth(p.plan) + Later(demand, Upcoming(r, phase, i, p.plan), i) < HALF
  }

  /** Every data flow on the connection has been recorded as sent. */
  predicate Carries(n: Node, sent: map<nat, nat>) {
    && (forall x :: 0 <= x < |n.wire| ==> n.wire[x] == 0 || n.wire[x] in sent)
    && (n.listener.Clearing? || n.listener.Counting? ==> n.listener.flow == 0 || n.listener.flow in sent)
  }

  predicate CarriesAll(nodes: seq<Node>, sent: map<nat, nat>) {
    forall k :: 0 <= k < |nodes| ==> Carries(nodes[k], sent)
  }

  ghost predicate PoolHere(s: Net, i: nat)
    requires i < |s.pools|
  {
    && PoolInv(s.pools[i]) && Role(s.phase, i, s.pools[i], FlowsAt(s.demand, s.r, i))
    && Room(s.demand, s.r, s.phase, i, s.pools[i]) && CarriesAll(s.pools[i].nodes, s.sent)
  }

  /** Flow f has been written by a thread of the current request. */
  ghost predicate SentNow(pools: seq<Pool>, f: nat) {
    exists i, j :: 0 <= i < |pools| && 0 <= j < |pools[i].senders| && pools[i].senders[j].stage.Sent? &&
      pools[i].senders[j].flow == f
  }

  /** Exactly the flows of earlier requests and those written in this one have been sent, each
      in the request that the table gives for it. */
  ghost predicate SentOk(s: Net)
    requires s.r <= |s.demand|
  {
    && (forall f: nat :: f in s.sent <==> 0 < f <= Base(s.demand, s.r) || SentNow(s.pools, f))
    && (forall f :: f in s.sent ==> 0 < f <= |FlowTable(s.demand)| && FlowTable(s.demand)[f - 1] == s.sent[f])
  }

  predicate FlowIdOk(s: Net)
    requires Shaped(s)
  {
    match s.phase
    case Serving(i) => s.flow_id == First(s.demand, s.r, i)
    case Sending => s.flow_id == Base(s.demand, s.r + 1)
    case _ => s.flow_id == Base(s.demand, s.r)
  }

  ghost predicate NetInv(s: Net) {
    && Shaped(s) && FlowIdOk(s) && SentOk(s)
    && forall i :: 0 <= i < |s.pools| ==> PoolHere(s, i)
  }

  /** The lists as main opens them, and no request served. */
  function NetStart(demand: seq<seq<nat>>, sizes: seq<nat>): Net {
    Net(demand, seq(|sizes|, i requires 0 <= i < |sizes| => Opened(sizes[i])), Opening(demand, 0), 0, 0, map[])
  }

  /** Every list begins with a connection, and stays below 2^31 nodes whatever the requests. */
  predicate Startable(demand: seq<seq<nat>>, sizes: seq<nat>) {
    && (forall q :: 0 <= q < |demand| ==> |demand[q]| == |sizes|)
    && (forall i :: 0 <= i < |sizes| ==> 0 < sizes[i] && sizes[i] + Later(demand, 0, i) < HALF)
  }

  lemma NetStartOk(demand: seq<seq<nat>>, sizes: seq<nat>)
    requires Startable(demand, sizes)
    ensures NetInv(NetStart(demand, sizes))
  {
    var s := NetStart(demand, sizes);
    if 0 < |demand| { FirstGrows(demand, 0, 0, 0); }
    forall i | 0 <= i < |s.pools| ensures PoolHere(s, i) {
      OpenedOk(sizes[i]);
      NothingCarried(sizes[i]);
      hide PoolInv, Later, CarriesAll;
    }
  }

  lemma NothingCarried(n: nat)
    ensures CarriesAll(Opened(n).nodes, map[])
  {
  }
}
