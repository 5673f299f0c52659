/** Every move of the incast client as a whole keeps its invariant. */
module IncastNetSteps {
  import opened PoolProtocol
  import opened IncastProtocol
  import opened IncastSteps
  import opened IncastNet

  // ----- one pool -----

  lemma CarriesMore(nodes: seq<Node>, sent: map<nat, nat>, sent': map<nat, nat>)
    requires CarriesAll(nodes, sent) && forall f :: f in sent ==> f in sent'
    ensures CarriesAll(nodes, sent')
  {
  }

  /** What a planner step does to the nodes: it adds one without requests, starts a listener,
      or sends the id 0. */
  lemma PlanCarries(p: Pool, sent: map<nat, nat>)
    requires CanTake(p, Plan) && CarriesAll(p.nodes, sent)
    ensures CarriesAll(PlanStep(p).nodes, sent)
  {
    hide Shortfall, Launch, Up, Down, Idle;
  }

  lemma HearCarries(p: Pool, k: nat, sent: map<nat, nat>)
    requires k < |p.nodes| && CarriesAll(p.nodes, sent)
    ensures CarriesAll(HearStep(p, k).nodes, sent)
  {
    assert Carries(p.nodes[k], sent);
    assert Carries(ListenNode(p.nodes[k]), sent);
    hide Carries, ListenNode, Credits;
  }

  /** A planner works on for the same flows, and reserves no more nodes. */
  lemma PlanKeeps(p: Pool, flows: seq<nat>)
    requires PoolInv(p) && CanTake(p, Plan) && PlansFor(p.plan, flows) && !p.plan.Chosen?
    ensures PlansFor(PlanStep(p).plan, flows)
    ensures |PlanStep(p).nodes| + Growth(PlanStep(p).plan) <= |p.nodes| + Growth(p.plan)
  {
    PlanStepOk(p);
    NeverFails(PlanStep(p));
    if p.plan.Resizing? { NoMoreThanFlows(p); }
    hide PoolInv, Shortfall, PlansFor, CanTake, PlanStep, Growth;
    PlanWorksOn(p, flows);
    PlanReserves(p);
  }

  lemma PlanReserves(p: Pool)
    requires CanTake(p, Plan) && (p.plan.Resizing? ==> Shortfall(|p.plan.flows|, p.available_len) <= |p.plan.flows|)
    ensures |PlanStep(p).nodes| + Growth(PlanStep(p).plan) <= |p.nodes| + Growth(p.plan)
  {
    hide Shortfall, Launch, Up, Down, Idle;
  }

  lemma NeverFails(p: Pool)
    requires PoolInv(p)
    ensures !p.plan.Failed?
  {
    hide PoolNodesOk, SendersOk, PoolCountsOk;
  }

  lemma NoMoreThanFlows(p: Pool)
    requires PoolInv(p) && p.plan.Resizing?
    ensures Shortfall(|p.plan.flows|, p.available_len) <= |p.plan.flows|
  {
    CounterExact(p);
    ShortfallIsMissing(|p.plan.flows|, p.available_len);
    hide PoolNodesOk, SendersOk, PoolCountsOk, Shortfall;
  }

  lemma PlanWorksOn(p: Pool, flows: seq<nat>)
    requires CanTake(p, Plan) && PlansFor(p.plan, flows) && !p.plan.Chosen? && !PlanStep(p).plan.Failed?
    ensures PlansFor(PlanStep(p).plan, flows)
  {
    hide Shortfall, Launch, Up, Idle;
  }

  lemma LeaveKeeps(p: Pool)
    requires CanTake(p, Plan) && Quits(p.plan)
    ensures Quits(PlanStep(p).plan) && |PlanStep(p).nodes| == |p.nodes| && Growth(PlanStep(p).plan) == 0
  {
    hide Up, Down, Launch;
  }

  // ----- moving one pool -----

  /** Pool i has changed and stands well; nothing else has. */
  lemma OnePool(s: Net, t: Net, i: nat)
    requires NetInv(s) && i < |s.pools| && |t.pools| == |s.pools|
    requires t == s.(pools := s.pools[i := t.pools[i]], sent := t.sent)
    requires forall f :: f in s.sent ==> f in t.sent
    requires PoolHere(t, i) && SentOk(t)
    ensures NetInv(t)
  {
    forall j | 0 <= j < |t.pools| ensures PoolHere(t, j) {
      assert PoolHere(s, j);
      if j != i { CarriesMore(s.pools[j].nodes, s.sent, t.sent); }
    }
    hide PoolHere, SentOk;
  }

  /** Without threads at pool i, before and after, what is sent is unaffected. */
  lemma SameSent(s: Net, t: Net, i: nat)
    requires s.r <= |s.demand| && SentOk(s) && i < |s.pools| && s.pools[i].senders == [] && |t.pools| == |s.pools|
    requires t == s.(pools := s.pools[i := t.pools[i]], phase := t.phase) && t.pools[i].senders == []
    ensures SentOk(t)
  {
    SameThreads(s.pools, t.pools);
  }

  lemma SameThreads(pools: seq<Pool>, pools': seq<Pool>)
    requires |pools| == |pools'| && forall i :: 0 <= i < |pools| ==> pools[i].senders == pools'[i].senders
    ensures forall f :: SentNow(pools, f) == SentNow(pools', f)
  {
    forall f ensures SentNow(pools, f) == SentNow(pools', f) {
      if SentNow(pools, f) {
        var i, j :| 0 <= i < |pools| && 0 <= j < |pools[i].senders| && pools[i].senders[j].stage.Sent? &&
          pools[i].senders[j].flow == f;
        assert pools'[i].senders[j] == pools[i].senders[j];
      }
      if SentNow(pools', f) {
        var i, j :| 0 <= i < |pools'| && 0 <= j < |pools'[i].senders| && pools'[i].senders[j].stage.Sent? &&
          pools'[i].senders[j].flow == f;
        assert pools[i].senders[j] == pools'[i].senders[j];
      }
    }
  }

  lemma ThreadsGone(p: Pool)
    requires PoolInv(p) && !p.plan.Joining?
    ensures p.senders == []
  {
    hide PoolNodesOk, PlanOk, PoolCountsOk;
    NoSenders(p);
  }

  lemma HasThreads(p: Pool)
    requires PoolInv(p) && p.senders != []
    ensures p.plan.Joining?
  {
    hide PoolNodesOk, PlanOk, PoolCountsOk;
  }

  lemma BeginOk(s: Net, i: nat)
    requires NetInv(s) && s.phase == Serving(i) && i < |s.pools| && s.pools[i].plan.Between? && s.demand[s.r][i] > 0
    ensures CanTake(s.pools[i], Begin(Ids(s.flow_id, s.demand[s.r][i])))
    ensures NetInv(s.(pools := s.pools[i := Take(s.pools[i], Begin(Ids(s.flow_id, s.demand[s.r][i])))]))
  {
    var p, flows := s.pools[i], Ids(s.flow_id, s.demand[s.r][i]);
    assert PoolHere(s, i);
    TakeOk(p, Begin(flows));
    var t := s.(pools := s.pools[i := Take(p, Begin(flows))]);
    ThreadsGone(p);
    hide PoolInv, CarriesAll, First;
    SameSent(s, t, i);
    assert PoolHere(t, i);
    hide PoolHere, SentOk;
    OnePool(s, t, i);
  }

  lemma WorkOk(s: Net, i: nat)
    requires NetInv(s) && s.phase == Serving(i) && i < |s.pools| && !s.pools[i].plan.Between? &&
      !s.pools[i].plan.Chosen?
    requires CanTake(s.pools[i], Plan)
    ensures NetInv(s.(pools := s.pools[i := PlanStep(s.pools[i])]))
  {
    hide PoolInv, CarriesAll, First, Base, SentOk, PlanStep, CanTake, FlowsAt;
    var p, flows := s.pools[i], FlowsAt(s.demand, s.r, i);
    assert PoolHere(s, i);
    PlanStepOk(p);
    PlanKeeps(p, flows);
    PlanCarries(p, s.sent);
    ThreadsGone(p);
    ThreadsGone(PlanStep(p));
    var t := s.(pools := s.pools[i := PlanStep(p)]);
    SameSent(s, t, i);
    assert PoolHere(t, i);
    hide PoolHere, SentOk;
    OnePool(s, t, i);
  }

  // ----- changing the phase -----

  /** The main thread moves on without touching a pool. */
  lemma PhaseMoves(s: Net, t: Net)
    requires NetInv(s) && t == s.(phase := t.phase, flow_id := t.flow_id) && Shaped(t) && FlowIdOk(t)
    requires forall i :: 0 <= i < |s.pools| ==>
               && Role(t.phase, i, t.pools[i], FlowsAt(t.demand, t.r, i))
               && Upcoming(t.r, t.phase, i, t.pools[i].plan) >= Upcoming(s.r, s.phase, i, s.pools[i].plan)
    ensures NetInv(t)
  {
    hide PoolInv, Role, CarriesAll, FlowsAt, Upcoming;
    forall i | 0 <= i < |t.pools| ensures PoolHere(t, i) {
      assert PoolHere(s, i);
      LaterFalls(s.demand, Upcoming(s.r, s.phase, i, s.pools[i].plan), Upcoming(t.r, t.phase, i, t.pools[i].plan), i);
    }
    hide PoolHere;
  }

  lemma {:induction false} LaterFalls(demand: seq<seq<nat>>, a: nat, b: nat, i: nat)
    requires a <= b
    ensures Later(demand, b, i) <= Later(demand, a, i)
    decreases b - a
  {
    if a < b { LaterFalls(demand, a + 1, b, i); }
  }

  lemma ServedOk(s: Net, i: nat)
    requires NetInv(s) && s.phase == Serving(i) && i < |s.pools|
    requires s.pools[i].plan.Chosen? || (s.pools[i].plan.Between? && s.demand[s.r][i] == 0)
    ensures NetInv(s.(phase := Serving(i + 1), flow_id := s.flow_id + s.demand[s.r][i]))
  {
    var t := s.(phase := Serving(i + 1), flow_id := s.flow_id + s.demand[s.r][i]);
    FirstStep(s.demand, s.r, i);
    hide PoolInv, CarriesAll, First, SentOk;
    forall j | 0 <= j < |s.pools|
      ensures Role(t.phase, j, t.pools[j], FlowsAt(t.demand, t.r, j))
      ensures Upcoming(t.r, t.phase, j, t.pools[j].plan) >= Upcoming(s.r, s.phase, j, s.pools[j].plan)
    {
      assert PoolHere(s, j);
    }
    hide PoolHere;
    PhaseMoves(s, t);
  }

  lemma QuitPhaseOk(s: Net, i: nat)
    requires NetInv(s) && s.phase == Quitting(i)
    requires i < |s.pools| ==> s.pools[i].plan.Waiting? && AllFinished(s.pools[i])
    ensures NetInv(s.(phase := if i < |s.pools| then Quitting(i + 1) else Done))
  {
    var t := s.(phase := if i < |s.pools| then Quitting(i + 1) else Done);
    hide PoolInv, CarriesAll, Base, SentOk, AllFinished;
    forall j | 0 <= j < |s.pools|
      ensures Role(t.phase, j, t.pools[j], FlowsAt(t.demand, t.r, j))
      ensures Upcoming(t.r, t.phase, j, t.pools[j].plan) >= Upcoming(s.r, s.phase, j, s.pools[j].plan)
    {
      assert PoolHere(s, j);
    }
    hide PoolHere;
    PhaseMoves(s, t);
  }

  lemma QuitStepOk(s: Net, i: nat)
    requires NetInv(s) && s.phase == Quitting(i) && i < |s.pools| && !s.pools[i].plan.Waiting?
    requires CanQuit(s.pools[i])
    ensures var p := s.pools[i];
            NetInv(s.(pools := s.pools[i := if p.plan.Between? then Take(p, Quit) else PlanStep(p)]))
  {
    var p := s.pools[i];
    assert PoolHere(s, i);
    var p' := if p.plan.Between? then Take(p, Quit) else PlanStep(p);
    if p.plan.Between? {
      TakeOk(p, Quit);
    } else {
      PlanStepOk(p);
      LeaveKeeps(p);
      PlanCarries(p, s.sent);
    }
    ThreadsGone(p);
    ThreadsGone(p');
    hide PoolInv, CarriesAll, PlanStep, CanTake, FlowsAt;
    var t := s.(pools := s.pools[i := p']);
    SameSent(s, t, i);
    assert PoolHere(t, i);
    hide PoolHere, SentOk;
    OnePool(s, t, i);
  }

  // ----- all threads of a request -----

  /** A server whose connections have been chosen. */
  lemma StartChosen(p: Pool, sent: map<nat, nat>)
    requires PoolInv(p) && p.plan.Chosen? && CarriesAll(p.nodes, sent)
    ensures var t := StartThreads(p);
            && PoolInv(t) && t.plan.Joining? && ThreadsFor(t.senders, p.plan.flows) && |t.nodes| == |p.nodes|
            && CarriesAll(t.nodes, sent)
            && forall j :: 0 <= j < |t.senders| ==> t.senders[j].stage.ToClaim?
  {
    hide PoolInv, CarriesAll, PlanStep, CanTake, ThreadsFor;
    ChosenCounts(p);
    ChosenStep(p);
    PlanStepOk(p);
    PlanCarries(p, sent);
  }

  lemma ChosenStep(p: Pool)
    requires p.plan.Chosen? && CanTake(p, Plan)
    ensures var t := PlanStep(p);
            && t.plan.Joining? && ThreadsFor(t.senders, p.plan.flows) && t.nodes == p.nodes
            && forall j :: 0 <= j < |t.senders| ==> t.senders[j].stage.ToClaim?
  {
    hide Launch;
    Launched(p.plan.found, p.plan.flows);
  }

  lemma StartPool(s: Net, i: nat)
    requires NetInv(s) && s.phase == Serving(|s.pools|) && i < |s.pools|
    ensures var p, flows := StartThreads(s.pools[i]), FlowsAt(s.demand, s.r, i);
            && PoolInv(p) && Role(Sending, i, p, flows) && Room(s.demand, s.r, Sending, i, p)
            && CarriesAll(p.nodes, s.sent)
            && forall j :: 0 <= j < |p.senders| ==> p.senders[j].stage.ToClaim?
  {
    var p := s.pools[i];
    assert PoolHere(s, i);
    hide PoolInv, CarriesAll, Launch, FlowsAt, Later, PlanStep;
    if p.plan.Chosen? { StartChosen(p, s.sent); hide StartThreads; } else { ThreadsGone(p); }
  }

  lemma ChosenCounts(p: Pool)
    requires PoolInv(p) && p.plan.Chosen?
    ensures |p.plan.found| == |p.plan.flows| && CanTake(p, Plan)
  {
    hide PoolNodesOk, SendersOk, PoolCountsOk, Picked;
  }

  lemma StartOk(s: Net)
    requires NetInv(s) && s.phase == Serving(|s.pools|)
    ensures NetInv(MainStep(s))
  {
    var t := MainStep(s);
    BaseStep(s.demand, s.r);
    hide StartThreads, PoolInv, Role, Room, CarriesAll, FlowsAt, First, Base;
    forall i | 0 <= i < |t.pools|
      ensures PoolHere(t, i) && forall j :: 0 <= j < |t.pools[i].senders| ==> !t.pools[i].senders[j].stage.Sent?
    {
      StartPool(s, i);
    }
    forall i | 0 <= i < |s.pools| ensures s.pools[i].senders == [] {
      assert PoolHere(s, i);
      NotJoining(s, i);
      ThreadsGone(s.pools[i]);
    }
    hide PoolHere;
    assert forall f :: !SentNow(s.pools, f) && !SentNow(t.pools, f);
    assert SentOk(t);
    hide SentOk;
  }

  lemma NotJoining(s: Net, i: nat)
    requires s.phase.Serving? && i < |s.pools| && Role(s.phase, i, s.pools[i], FlowsAt(s.demand, s.r, i))
    ensures !s.pools[i].plan.Joining?
  {
  }

  lemma JoinPool(s: Net, i: nat)
    requires NetInv(s) && s.phase.Sending? && i < |s.pools| && AllSentAt(s.pools[i])
    ensures var p, r := JoinThreads(s.pools[i]), s.r + 1;
            && PoolInv(p) && p.plan.Between? && p.senders == []
            && Role(Opening(s.demand, r), i, p, FlowsAt(s.demand, r, i))
            && Room(s.demand, r, Opening(s.demand, r), i, p) && CarriesAll(p.nodes, s.sent)
  {
    hide PoolInv, CarriesAll, FlowsAt, Later, JoinThreads, SentOk, FlowIdOk;
    var p := s.pools[i];
    assert PoolHere(s, i);
    Joined(p, s.sent);
    if !p.plan.Joining? { ThreadsGone(p); }
  }

  lemma Joined(p: Pool, sent: map<nat, nat>)
    requires PoolInv(p) && CarriesAll(p.nodes, sent) && AllSentAt(p)
    ensures var r := JoinThreads(p);
            if p.plan.Joining? then r.plan.Between? && r.senders == [] && |r.nodes| == |p.nodes| && PoolInv(r) &&
              CarriesAll(r.nodes, sent)
            else r == p
  {
    hide PoolInv, CarriesAll;
    if p.plan.Joining? {
      PlanStepOk(p);
      PlanCarries(p, sent);
    }
  }

  /** When all threads of a request have written, all its ids have been sent. */
  lemma AllIdsSent(s: Net, f: nat)
    requires NetInv(s) && s.phase.Sending? && forall i :: 0 <= i < |s.pools| ==> AllSentAt(s.pools[i])
    ensures 0 < f <= Base(s.demand, s.r) || SentNow(s.pools, f) <==> 0 < f <= Base(s.demand, s.r + 1)
  {
    hide PoolInv, CarriesAll, Room, SentOk, FlowIdOk;
    BaseStep(s.demand, s.r);
    if Base(s.demand, s.r) < f <= Base(s.demand, s.r + 1) {
      var i, j := PlaceOf(s.demand, s.r, f, |s.pools|);
      assert PoolHere(s, i);
      assert s.pools[i].senders[j].flow == f && s.pools[i].senders[j].stage.Sent?;
    }
    if SentNow(s.pools, f) {
      var i, j :| 0 <= i < |s.pools| && 0 <= j < |s.pools[i].senders| && s.pools[i].senders[j].stage.Sent? &&
        s.pools[i].senders[j].flow == f;
      ThreadFlow(s, i, j);
    }
  }

  /** The id a thread sends, by its place. */
  lemma ThreadFlow(s: Net, i: nat, j: nat)
    requires NetInv(s) && s.phase.Sending? && i < |s.pools| && j < |s.pools[i].senders|
    ensures j < s.demand[s.r][i] && s.pools[i].senders[j].flow == First(s.demand, s.r, i) + 1 + j
    ensures Base(s.demand, s.r) < s.pools[i].senders[j].flow <= Base(s.demand, s.r + 1)
  {
    assert PoolHere(s, i);
    HasThreads(s.pools[i]);
    FirstStep(s.demand, s.r, i);
    FirstGrows(s.demand, s.r, i, i + 1);
    hide PoolInv, CarriesAll, Room, SentOk, FlowIdOk, First;
  }

  lemma JoinOk(s: Net)
    requires NetInv(s) && CanMove(s, Main) && s.phase.Sending?
    ensures NetInv(MainStep(s))
  {
    var t := MainStep(s);
    forall i | 0 <= i < |t.pools| ensures PoolHere(t, i) && t.pools[i].senders == [] { JoinPool(s, i); }
    forall f: nat ensures f in t.sent <==> 0 < f <= Base(t.demand, t.r) || SentNow(t.pools, f) {
      AllIdsSent(s, f);
      assert !SentNow(t.pools, f);
    }
    if t.r < |t.demand| { FirstGrows(t.demand, t.r, 0, 0); }
    assert t.phase.Serving? ==> First(t.demand, t.r, 0) == Base(t.demand, t.r);
    hide PoolHere, JoinThreads, Base, First;
  }

  // ----- the other threads -----

  /** A flow is written once. */
  lemma SendsFresh(s: Net, i: nat, j: nat)
    requires NetInv(s) && CanMove(s, SendAt(i, j)) && s.phase.Sending?
    ensures s.pools[i].senders[j].flow !in s.sent
  {
    var f := s.pools[i].senders[j].flow;
    ThreadFlow(s, i, j);
    hide PoolHere, FlowIdOk, First;
    if SentNow(s.pools, f) {
      var i', j' :| 0 <= i' < |s.pools| && 0 <= j' < |s.pools[i'].senders| && s.pools[i'].senders[j'].stage.Sent? &&
        s.pools[i'].senders[j'].flow == f;
      ThreadFlow(s, i', j');
      IdsApart(s.demand, s.r, i, j, i', j');
    }
  }

  lemma SendingPhase(s: Net, i: nat, j: nat)
    requires NetInv(s) && CanMove(s, SendAt(i, j))
    ensures s.phase.Sending?
  {
    assert PoolHere(s, i);
    hide PoolInv, CarriesAll, Room;
  }

  /** What a thread's move does to what has been sent. */
  lemma SendLog(s: Net, i: nat, j: nat)
    requires NetInv(s) && CanMove(s, SendAt(i, j)) && s.phase.Sending?
    ensures SentOk(SendAtStep(s, i, j))
  {
    hide PoolHere, SentOk, Written, FlowIdOk, FlowTable, Base, First, SendStep;
    var t, sender := SendAtStep(s, i, j), s.pools[i].senders[j];
    ThreadFlow(s, i, j);
    InTable(s.demand, s.r, sender.flow);
    ThreadLog(s.pools, t.pools, i, j);
    LogOk(s, t, sender.flow, sender.stage.ToWrite?);
  }

  /** No flow but f has been written in this move. */
  ghost predicate Written(pools: seq<Pool>, pools': seq<Pool>, f: nat, written: bool) {
    forall g: nat :: SentNow(pools', g) <==> SentNow(pools, g) || (written && g == f)
  }

  lemma LogOk(s: Net, t: Net, f: nat, written: bool)
    requires s.r < |s.demand| && SentOk(s) &&
      t == s.(pools := t.pools, sent := if written then s.sent[f := s.r] else s.sent)
    requires 0 < f <= |FlowTable(s.demand)| && FlowTable(s.demand)[f - 1] == s.r
    requires Written(s.pools, t.pools, f, written)
    ensures SentOk(t)
  {
    hide SentNow, FlowTable, Base;
  }

  lemma ThreadLog(pools: seq<Pool>, pools': seq<Pool>, i: nat, j: nat)
    requires i < |pools| && CanTake(pools[i], Send(j)) && pools' == pools[i := SendStep(pools[i], j)]
    ensures var t := pools[i].senders[j]; Written(pools, pools', t.flow, t.stage.ToWrite?)
  {
    hide SentNow, Down;
    var t := pools[i].senders[j];
    forall f: nat ensures SentNow(pools', f) <==> SentNow(pools, f) || (t.stage.ToWrite? && f == t.flow) {
      OneThread(pools, pools', i, j, f);
    }
  }

  lemma OneThread(pools: seq<Pool>, pools': seq<Pool>, i: nat, j: nat, f: nat)
    requires i < |pools| == |pools'| && j < |pools[i].senders| && !pools[i].senders[j].stage.Sent?
    requires forall x :: 0 <= x < |pools| && x != i ==> pools'[x].senders == pools[x].senders
    requires |pools'[i].senders| == |pools[i].senders| &&
      pools'[i].senders == pools[i].senders[j := pools'[i].senders[j]]
    requires pools'[i].senders[j].flow == pools[i].senders[j].flow
    ensures SentNow(pools', f) <==>
      SentNow(pools, f) || (pools'[i].senders[j].stage.Sent? && f == pools[i].senders[j].flow)
  {
    if SentNow(pools, f) {
      var a, b :| 0 <= a < |pools| && 0 <= b < |pools[a].senders| && pools[a].senders[b].stage.Sent? &&
        pools[a].senders[b].flow == f;
      assert pools'[a].senders[b] == pools[a].senders[b];
    }
    if SentNow(pools', f) {
      var a, b :| 0 <= a < |pools'| && 0 <= b < |pools'[a].senders| && pools'[a].senders[b].stage.Sent? &&
        pools'[a].senders[b].flow == f;
      assert a != i || b != j ==> pools[a].senders[b] == pools'[a].senders[b];
    }
    if pools'[i].senders[j].stage.Sent? && f == pools[i].senders[j].flow {
      assert pools'[i].senders[j].flow == f;
    }
  }

  lemma SendCarries(s: Net, i: nat, j: nat)
    requires NetInv(s) && CanMove(s, SendAt(i, j))
    ensures CarriesAll(SendAtStep(s, i, j).pools[i].nodes, SendAtStep(s, i, j).sent)
  {
    assert PoolHere(s, i);
    hide PoolInv, Role, Room, SentOk, FlowIdOk, Down;
    var t := SendAtStep(s, i, j);
    CarriesMore(s.pools[i].nodes, s.sent, t.sent);
    assert Carries(s.pools[i].nodes[s.pools[i].senders[j].k], t.sent);
  }

  lemma SendAtOk(s: Net, i: nat, j: nat)
    requires NetInv(s) && CanMove(s, SendAt(i, j))
    ensures NetInv(SendAtStep(s, i, j))
  {
    hide PoolHere, SentOk, FlowIdOk, CarriesAll, Base, First;
    var t := SendAtStep(s, i, j);
    assert PoolHere(s, i);
    SendingPhase(s, i, j);
    SendLog(s, i, j);
    SendCarries(s, i, j);
    SendHere(s, t, i, j);
    OnePool(s, t, i);
  }

  lemma SendHere(s: Net, t: Net, i: nat, j: nat)
    requires i < |s.pools| == |t.pools| && PoolHere(s, i) && CanTake(s.pools[i], Send(j)) && s.phase.Sending?
    requires t == s.(pools := s.pools[i := t.pools[i]], sent := t.sent) && t.pools[i] == SendStep(s.pools[i], j)
    requires CarriesAll(t.pools[i].nodes, t.sent)
    ensures PoolHere(t, i)
  {
    hide PoolInv, CarriesAll, FlowsAt, Later, Down;
    SendOk(s.pools[i], j);
  }

  lemma HearAtOk(s: Net, i: nat, k: nat)
    requires NetInv(s) && CanMove(s, HearAt(i, k))
    ensures NetInv(Moved(s, HearAt(i, k)))
  {
    hide PoolHere, SentOk, HearStep, CanTake, FlowIdOk;
    var t := Moved(s, HearAt(i, k));
    assert PoolHere(s, i);
    HearHere(s, t, i, k);
    HearLog(s, t);
    OnePool(s, t, i);
  }

  lemma HearHere(s: Net, t: Net, i: nat, k: nat)
    requires i < |s.pools| == |t.pools| && PoolHere(s, i) && CanTake(s.pools[i], Hear(k))
    requires t == s.(pools := s.pools[i := t.pools[i]]) && t.pools[i] == HearStep(s.pools[i], k)
    ensures PoolHere(t, i) && t.pools[i].senders == s.pools[i].senders
  {
    HearOk(s.pools[i], k);
    HearCarries(s.pools[i], k, s.sent);
    HearFinished(s.pools[i], k);
    hide PoolInv, CarriesAll, FlowsAt, Later, ListenNode, Credits, AllFinished, CanTake, Up;
  }

  lemma HearLog(s: Net, t: Net)
    requires Shaped(s) && SentOk(s) && t == s.(pools := t.pools) && |t.pools| == |s.pools|
    requires forall i :: 0 <= i < |s.pools| ==> t.pools[i].senders == s.pools[i].senders
    ensures SentOk(t)
  {
    SameThreads(s.pools, t.pools);
    hide SentNow;
  }

  lemma HearFinished(p: Pool, k: nat)
    requires CanTake(p, Hear(k))
    ensures !AllFinished(p)
  {
    assert !p.nodes[k].listener.Finished?;
  }

  // ----- all moves -----

  lemma MainOk(s: Net)
    requires NetInv(s) && CanMove(s, Main)
    ensures NetInv(MainStep(s))
  {
    match s.phase
    case Serving(i) =>
      hide NetInv;
      if i == |s.pools| { StartOk(s); } else { ServeOk(s, i); }
    case Sending => JoinOk(s);
    case Quitting(i) =>
      hide NetInv, PlanStep, Take;
      if i == |s.pools| || s.pools[i].plan.Waiting? { QuitPhaseOk(s, i); } else { QuitStepOk(s, i); }
  }

  lemma ServeOk(s: Net, i: nat)
    requires NetInv(s) && CanMove(s, Main) && s.phase == Serving(i) && i < |s.pools|
    ensures NetInv(MainStep(s))
  {
    var p := s.pools[i];
    assert p.plan.Between? && s.demand[s.r][i] == 0 ==> s.flow_id + s.demand[s.r][i] == s.flow_id;
    if p.plan.Chosen? || (p.plan.Between? && s.demand[s.r][i] == 0) {
      ServedOk(s, i);
    } else if p.plan.Between? {
      BeginOk(s, i);
    } else {
      WorkOk(s, i);
    }
    hide NetInv, PlanStep, Take;
  }

  lemma MovedOk(s: Net, m: NetMove)
    requires NetInv(s) && CanMove(s, m)
    ensures NetInv(Moved(s, m))
  {
    match m
    case Main => MainOk(s);
    case SendAt(i, j) => SendAtOk(s, i, j);
    case HearAt(i, k) => HearAtOk(s, i, k);
  }
}
