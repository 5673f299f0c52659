/** How the incast client numbers flows (TrafficGenerator/src/client/incast-client.c): the table
    from flow to request that set_req_variables builds, and the ids run_incast_request hands out. */
module IncastRequests {
  import opened Histograms

  // ----- the table from flow to request -----

  function Repeat(r: nat, n: nat): (s: seq<nat>)
    ensures |s| == n && forall j :: 0 <= j < n ==> s[j] == r
  {
    seq(n, _ => r)
  }

  /** One entry for each flow, request by request. */
  function FlowReqIds(fanouts: seq<nat>): seq<nat> {
    if fanouts == [] then [] else FlowReqIds(fanouts[..|fanouts| - 1]) + Repeat(|fanouts| - 1, fanouts[|fanouts| - 1])
  }

  lemma {:induction false} FlowReqCount(fanouts: seq<nat>)
    ensures |FlowReqIds(fanouts)| == Sum(fanouts)
  {
    if fanouts != [] {
      var last := |fanouts| - 1;
      FlowReqCount(fanouts[..last]);
      SumStep(fanouts, last);
      assert fanouts[..last + 1] == fanouts;
    }
  }

  lemma {:induction false} SumGrows(s: seq<nat>, a: nat, b: nat)
    requires a <= b <= |s|
    ensures 0 <= Sum(s[..a]) <= Sum(s[..b])
    decreases b
  {
    if b > 0 {
      SumStep(s, b - 1);
      SumGrows(s, if a < b then a else b - 1, b - 1);
    }
  }

  /** The entries of request r stand after those of all earlier requests. */
  lemma {:induction false} FlowReqAt(fanouts: seq<nat>, r: nat, j: nat)
    requires r < |fanouts| && Sum(fanouts[..r]) <= j < Sum(fanouts[..r + 1])
    ensures j < |FlowReqIds(fanouts)| && FlowReqIds(fanouts)[j] == r
  {
    var last := |fanouts| - 1;
    FlowReqCount(fanouts[..last]);
    SumStep(fanouts, r);
    if r == last {
      SumGrows(fanouts, 0, r);
    } else {
      assert fanouts[..last][..r] == fanouts[..r] && fanouts[..last][..r + 1] == fanouts[..r + 1];
      FlowReqAt(fanouts[..last], r, j);
    }
  }

  /** Every entry belongs to the request whose range it lies in. */
  lemma {:induction false} FlowReqRange(fanouts: seq<nat>, j: nat)
    requires j < |FlowReqIds(fanouts)|
    ensures var r := FlowReqIds(fanouts)[j]; r < |fanouts| && Sum(fanouts[..r]) <= j < Sum(fanouts[..r + 1])
  {
    var last := |fanouts| - 1;
    FlowReqCount(fanouts[..last]);
    SumStep(fanouts, last);
    if j < |FlowReqIds(fanouts[..last])| {
      FlowReqRange(fanouts[..last], j);
      var r := FlowReqIds(fanouts)[j];
      assert fanouts[..last][..r] == fanouts[..r] && fanouts[..last][..r + 1] == fanouts[..r + 1];
    }
  }

  /** The loops of set_req_variables that fill the table. */
  method AssignRequests(req_fanout: array<nat>, flow_req_id: array<nat>) returns (flow_id: nat)
    requires flow_req_id.Length == Sum(req_fanout[..]) && req_fanout != flow_req_id
    modifies flow_req_id
    ensures flow_req_id[..] == FlowReqIds(req_fanout[..]) && flow_id == flow_req_id.Length
  {
    flow_id := 0;
    ghost var fanouts := req_fanout[..];
    for i := 0 to req_fanout.Length
      invariant req_fanout[..] == fanouts
      invariant flow_id == Sum(fanouts[..i]) <= flow_req_id.Length && flow_req_id[..flow_id] == FlowReqIds(fanouts[..i])
    {
      SumStep(fanouts, i);
      SumGrows(fanouts, i + 1, |fanouts|);
      assert fanouts[..|fanouts|] == fanouts;
      assert fanouts[..i + 1][..i] == fanouts[..i];
      flow_id := RepeatRequest(flow_req_id, flow_id, i, req_fanout[i]);
    }
    assert fanouts[..|fanouts|] == fanouts;
  }

  method RepeatRequest(flow_req_id: array<nat>, start: nat, i: nat, fanout: nat) returns (flow_id: nat)
    requires start + fanout <= flow_req_id.Length
    modifies flow_req_id
    ensures flow_id == start + fanout && flow_req_id[..flow_id] == old(flow_req_id[..start]) + Repeat(i, fanout)
  {
    flow_id := start;
    for k := 0 to fanout
      invariant flow_id == start + k && flow_req_id[..flow_id] == old(flow_req_id[..start]) + Repeat(i, k)
    {
      flow_req_id[flow_id] := i;
      flow_id := flow_id + 1;
    }
  }

  // ----- the servers of a request -----

  /** Draws a server for each flow of a request; picks are the random draws. */
  method DrawServers(picks: seq<nat>, counts: array<nat>, server_flow_count: array<nat>)
    requires counts.Length == server_flow_count.Length && counts != server_flow_count
    requires forall k :: 0 <= k < |picks| ==> picks[k] < counts.Length
    requires forall s :: 0 <= s < counts.Length ==> counts[s] == 0
    modifies counts, server_flow_count
    ensures counts[..] == HistogramOf(picks, counts.Length)
    ensures forall s :: 0 <= s < counts.Length ==> server_flow_count[s] == old(server_flow_count[s]) + CountOf(picks, s)
  {
    for k := 0 to |picks|
      invariant forall s :: 0 <= s < counts.Length ==> counts[s] == CountOf(picks[..k], s)
      invariant forall s :: 0 <= s < counts.Length ==>
        server_flow_count[s] == old(server_flow_count[s]) + CountOf(picks[..k], s)
    {
      forall s ensures CountOf(picks[..k + 1], s) == CountOf(picks[..k], s) + if picks[k] == s then 1 else 0 {
        CountStep(picks, k, s);
      }
      var server_id := picks[k];
      counts[server_id] := counts[server_id] + 1;
      server_flow_count[server_id] := server_flow_count[server_id] + 1;
    }
    assert picks[..|picks|] == picks;
  }

  // ----- one request -----

  /** What search_n_conn_list hands back. */
  datatype Search = Found(nodes: seq<nat>) | NotFound

  datatype FlowRequest = FlowRequest(server: nat, node: nat, id: nat)

  /** A request as run_incast_request meets it: flows per server, and the searches' results. */
  datatype Request = Request(counts: seq<nat>, searches: seq<Search>)

  /** A search succeeds with as many nodes as it was asked for. */
  predicate Answered(q: Request) {
    && |q.counts| == |q.searches|
    && forall i :: 0 <= i < |q.counts| && q.searches[i].Found? ==> |q.searches[i].nodes| == q.counts[i]
  }

  /** No search is made for a server without flows. */
  predicate Served(q: Request, i: nat)
    requires i < |q.counts| == |q.searches|
  {
    q.counts[i] == 0 || q.searches[i].Found?
  }

  predicate Complete(q: Request)
    requires |q.counts| == |q.searches|
  {
    forall i :: 0 <= i < |q.counts| ==> Served(q, i)
  }

  /** Servers handled before the first search that fails. */
  function Handled(q: Request, i: nat): (r: nat)
    requires i <= |q.counts| == |q.searches|
    ensures i <= r <= |q.counts| && (forall j :: i <= j < r ==> Served(q, j)) && (r < |q.counts| ==> !Served(q, r))
    decreases |q.counts| - i
  {
    if i < |q.counts| && Served(q, i) then Handled(q, i + 1) else i
  }

  /** The searches of the first i servers succeeded. */
  ghost predicate Underway(q: Request, i: nat)
    requires i <= |q.counts| == |q.searches|
  {
    (forall j :: 0 <= j < i ==> Served(q, j)) && Handled(q, i) == Handled(q, 0)
  }

  /** Flow ids a request uses up. */
  function Assigned(q: Request): int
    requires |q.counts| == |q.searches|
  {
    Sum(q.counts[..Handled(q, 0)])
  }

  /** The flows for one server, with consecutive ids after last. */
  function ServerFlows(server: nat, nodes: seq<nat>, last: nat): (s: seq<FlowRequest>)
    ensures |s| == |nodes| && forall k :: 0 <= k < |s| ==> s[k] == FlowRequest(server, nodes[k], last + 1 + k)
  {
    seq(|nodes|, k requires 0 <= k < |nodes| => FlowRequest(server, nodes[k], last + 1 + k))
  }

  function NodesFor(q: Request, i: nat): seq<nat>
    requires i < |q.counts| == |q.searches|
  {
    if q.counts[i] > 0 && q.searches[i].Found? then q.searches[i].nodes else []
  }

  /** The flows for the first i servers. */
  function Flows(q: Request, i: nat, last: nat): seq<FlowRequest>
    requires i <= |q.counts| == |q.searches|
  {
    if i == 0 then []
    else Flows(q, i - 1, last) + ServerFlows(i - 1, NodesFor(q, i - 1), last + |Flows(q, i - 1, last)|)
  }

  lemma {:induction false} FlowCount(q: Request, i: nat, last: nat)
    requires Answered(q) && i <= |q.counts| && forall j :: 0 <= j < i ==> Served(q, j)
    ensures |Flows(q, i, last)| == Sum(q.counts[..i])
  {
    if i > 0 {
      FlowCount(q, i - 1, last);
      SumStep(q.counts, i - 1);
      assert Served(q, i - 1);
      FlowsStep(q, i - 1, last);
    }
  }

  /** There is a flow for each connection asked for, and every flow gets the next id. */
  lemma {:induction false} FlowsAre(q: Request, i: nat, last: nat)
    requires Answered(q) && i <= |q.counts| && forall j :: 0 <= j < i ==> Served(q, j)
    ensures |Flows(q, i, last)| == Sum(q.counts[..i])
    ensures forall j :: 0 <= j < |Flows(q, i, last)| ==> Flows(q, i, last)[j].id == last + 1 + j
  {
    hide Sum, NodesFor, Served, Answered, Flows;
    FlowCount(q, i, last);
    if i > 0 {
      FlowsAre(q, i - 1, last);
      FlowsNext(q, i - 1, last);
    } else {
      FlowsNone(q, last);
    }
  }

  lemma FlowsNone(q: Request, last: nat)
    requires Answered(q)
    ensures Flows(q, 0, last) == []
  {
  }

  lemma FlowsNext(q: Request, i: nat, last: nat)
    requires Answered(q) && i < |q.counts| && Served(q, i)
    requires forall j :: 0 <= j < |Flows(q, i, last)| ==> Flows(q, i, last)[j].id == last + 1 + j
    ensures var flows := Flows(q, i + 1, last); forall j :: 0 <= j < |flows| ==> flows[j].id == last + 1 + j
  {
    FlowsStep(q, i, last);
    hide Sum, NodesFor, Served, Answered, Flows;
  }

  lemma FlowsStep(q: Request, i: nat, last: nat)
    requires Answered(q) && i < |q.counts| && Served(q, i)
    ensures Flows(q, i + 1, last) == Flows(q, i, last) + ServerFlows(i, NodesFor(q, i), last + |Flows(q, i, last)|)
    ensures |NodesFor(q, i)| == q.counts[i]
  {
  }

  lemma FlowsGrow(q: Request, i: nat, last: nat, at: nat)
    requires i < |q.counts| == |q.searches| && at < |Flows(q, i, last)|
    ensures at < |Flows(q, i + 1, last)| && Flows(q, i + 1, last)[at] == Flows(q, i, last)[at]
  {
  }

  lemma {:induction false} FlowsPrefix(q: Request, j: nat, i: nat, last: nat, at: nat)
    requires j <= i <= |q.counts| == |q.searches| && at < |Flows(q, j, last)|
    ensures at < |Flows(q, i, last)| && Flows(q, i, last)[at] == Flows(q, j, last)[at]
  {
    hide Flows;
    if j < i {
      FlowsPrefix(q, j, i - 1, last, at);
      FlowsGrow(q, i - 1, last, at);
    }
  }

  lemma LastServer(q: Request, s: nat, last: nat, k: nat, at: nat)
    requires Answered(q) && s < |q.counts| && Served(q, s) && k < q.counts[s] && at == |Flows(q, s, last)| + k
    ensures k < |NodesFor(q, s)| && at < |Flows(q, s + 1, last)|
    ensures Flows(q, s + 1, last)[at] == FlowRequest(s, NodesFor(q, s)[k], last + 1 + at)
  {
    FlowsStep(q, s, last);
  }

  /** Flow k of server s stands after the flows of the servers before it. */
  lemma FlowAt(q: Request, i: nat, last: nat, s: nat, k: nat, at: nat)
    requires Answered(q) && s < i <= |q.counts| && (forall j :: 0 <= j < i ==> Served(q, j)) && k < q.counts[s]
    requires at == Sum(q.counts[..s]) + k
    ensures k < |NodesFor(q, s)| && at < |Flows(q, i, last)|
    ensures Flows(q, i, last)[at] == FlowRequest(s, NodesFor(q, s)[k], last + 1 + at)
  {
    FlowCount(q, s, last);
    assert Served(q, s);
    LastServer(q, s, last, k, at);
    FlowsPrefix(q, s + 1, i, last, at);
  }

  /** The incast client's flow counter. */
  class IncastClient {
    var global_flow_id: nat

    constructor ()
      ensures global_flow_id == 0
    {
      global_flow_id := 0;
    }

    /** Hands the nodes found for one server their flows and ids. */
    method FillServer(flow_reqs: array<FlowRequest>, start: nat, server: nat, num_conn: nat, nodes: seq<nat>)
      returns (conn_id: nat)
      requires |nodes| == num_conn && start + num_conn <= flow_reqs.Length
      modifies this, flow_reqs
      ensures conn_id == start + num_conn && global_flow_id == old(global_flow_id) + num_conn
      ensures flow_reqs[..conn_id] == old(flow_reqs[..start]) + ServerFlows(server, nodes, old(global_flow_id))
    {
      conn_id := start;
      ghost var flows := ServerFlows(server, nodes, global_flow_id);
      for k := 0 to num_conn
        invariant conn_id == start + k && global_flow_id == old(global_flow_id) + k
        invariant flow_reqs[..conn_id] == old(flow_reqs[..start]) + flows[..k]
      {
        flow_reqs[conn_id] := FlowRequest(server, nodes[k], global_flow_id + 1);
        conn_id := conn_id + 1;
        global_flow_id := global_flow_id + 1;
      }
    }

    /** The part of run_incast_request for one server. */
    method Serve(q: Request, i: nat, flow_reqs: array<FlowRequest>, start: nat) returns (conn_id: nat)
      requires Answered(q) && i < |q.counts| && Served(q, i) && start + q.counts[i] <= flow_reqs.Length
      modifies this, flow_reqs
      ensures conn_id == start + q.counts[i] && global_flow_id == old(global_flow_id) + q.counts[i]
      ensures flow_reqs[..conn_id] == old(flow_reqs[..start]) + ServerFlows(i, NodesFor(q, i), old(global_flow_id))
    {
      conn_id := start;
      var num_conn := q.counts[i];
      if num_conn != 0 { conn_id := FillServer(flow_reqs, start, i, num_conn, q.searches[i].nodes); }
    }

    /** The first i servers are handled, with the first conn_id flows prepared. */
    ghost predicate Prepared(q: Request, i: nat, g: nat, conn_id: nat, flow_reqs: array<FlowRequest>)
      requires i <= |q.counts| == |q.searches|
      reads this, flow_reqs
    {
      && Underway(q, i) && conn_id == Sum(q.counts[..i]) && conn_id <= flow_reqs.Length
      && global_flow_id == g + conn_id && flow_reqs[..conn_id] == Flows(q, i, g)
    }

    /** One turn of the loop over the servers. */
    method Handle(q: Request, i: nat, flow_reqs: array<FlowRequest>, start: nat, ghost g: nat)
      returns (ok: bool, conn_id: nat)
      requires |q.counts| == |q.searches| && Answered(q) && i < |q.counts| && flow_reqs.Length == Sum(q.counts)
      requires Prepared(q, i, g, start, flow_reqs)
      modifies this, flow_reqs
      ensures if ok then Prepared(q, i + 1, g, conn_id, flow_reqs)
              else !Complete(q) && global_flow_id == g + Assigned(q)
    {
      hide Sum, Flows, NodesFor, ServerFlows, Served, Answered, Underway, Complete, Assigned;
      HandledStep(q, i);
      ok, conn_id := Served(q, i), start;
      if ok {
        FlowsStep(q, i, g);
        conn_id := Serve(q, i, flow_reqs, start);
      }
    }

    /** Prepares the flows of a request, stopping at the first search that fails; ready says that
        its run_flow threads are started.  Ids used before a failure stay used. */
    method RunIncastRequest(q: Request, flow_reqs: array<FlowRequest>) returns (ready: bool)
      requires Answered(q) && flow_reqs.Length == Sum(q.counts)
      modifies this, flow_reqs
      ensures ready == Complete(q)
      ensures global_flow_id == old(global_flow_id) + Assigned(q)
      ensures ready ==> flow_reqs[..] == Flows(q, |q.counts|, old(global_flow_id))
    {
      var conn_id: nat := 0;
      ghost var g := global_flow_id;
      NoneHandled(q, g);
      for i := 0 to |q.counts|
        invariant Prepared(q, i, g, conn_id, flow_reqs)
      {
        hide Prepared, Complete, Assigned;
        ready, conn_id := Handle(q, i, flow_reqs, conn_id, g);
        if !ready { return; }
      }
      AllHandled(q);
      ready := true;
    }
  }

  lemma HandledStep(q: Request, i: nat)
    requires i < |q.counts| == |q.searches| && Underway(q, i)
    ensures if Served(q, i) then Underway(q, i + 1) else !Complete(q) && Assigned(q) == Sum(q.counts[..i])
    ensures Sum(q.counts[..i + 1]) == Sum(q.counts[..i]) + q.counts[i] <= Sum(q.counts)
  {
    SumStep(q.counts, i);
    SumGrows(q.counts, i + 1, |q.counts|);
    assert q.counts[..|q.counts|] == q.counts;
  }

  lemma NoneHandled(q: Request, last: nat)
    requires |q.counts| == |q.searches|
    ensures Underway(q, 0) && Sum(q.counts[..0]) == 0 && Flows(q, 0, last) == [] && Sum(q.counts) >= 0
  {
    SumGrows(q.counts, 0, |q.counts|);
    assert q.counts[..|q.counts|] == q.counts;
  }

  lemma AllHandled(q: Request)
    requires |q.counts| == |q.searches| && Underway(q, |q.counts|)
    ensures Complete(q) && Assigned(q) == Sum(q.counts[..|q.counts|]) == Sum(q.counts)
  {
    assert q.counts[..|q.counts|] == q.counts;
  }

  // ----- many requests -----

  function Fanout(q: Request): nat {
    SumGrows(q.counts, 0, |q.counts|);
    Sum(q.counts[..|q.counts|])
  }

  function Fanouts(rs: seq<Request>): (fs: seq<nat>)
    ensures |fs| == |rs| && forall r :: 0 <= r < |rs| ==> fs[r] == Fanout(rs[r])
  {
    seq(|rs|, r requires 0 <= r < |rs| => Fanout(rs[r]))
  }

  ghost predicate AllAnswered(rs: seq<Request>) {
    forall r :: 0 <= r < |rs| ==> Answered(rs[r])
  }

  /** global_flow_id when request r begins. */
  ghost function Began(rs: seq<Request>, r: nat): nat
    requires AllAnswered(rs) && r <= |rs|
  {
    if r == 0 then 0 else
      SumGrows(rs[r - 1].counts, 0, Handled(rs[r - 1], 0));
      Began(rs, r - 1) + Assigned(rs[r - 1])
  }

  /** A request uses up all its ids exactly when all its searches succeed. */
  lemma AssignedAll(q: Request)
    requires Answered(q)
    ensures Assigned(q) <= Fanout(q) && (Assigned(q) == Fanout(q) <==> Complete(q))
  {
    var h := Handled(q, 0);
    SumGrows(q.counts, h, |q.counts|);
    if h < |q.counts| {
      SumStep(q.counts, h);
      SumGrows(q.counts, h + 1, |q.counts|);
    }
  }

  lemma {:induction false} BeganAt(rs: seq<Request>, r: nat)
    requires AllAnswered(rs) && r <= |rs|
    ensures Began(rs, r) <= Sum(Fanouts(rs)[..r])
    ensures Began(rs, r) == Sum(Fanouts(rs)[..r]) <==> forall q :: 0 <= q < r ==> Complete(rs[q])
  {
    hide Fanouts, Fanout, Complete, Assigned, Sum, Began, Answered;
    if r > 0 {
      BeganAt(rs, r - 1);
      BeganNext(rs, r - 1);
    } else {
      BeganFirst(rs);
    }
  }

  lemma BeganFirst(rs: seq<Request>)
    requires AllAnswered(rs)
    ensures Began(rs, 0) == 0 == Sum(Fanouts(rs)[..0])
  {
  }

  lemma BeganNext(rs: seq<Request>, r: nat)
    requires AllAnswered(rs) && r < |rs|
    ensures Answered(rs[r]) && Began(rs, r + 1) == Began(rs, r) + Assigned(rs[r])
    ensures Assigned(rs[r]) <= Fanout(rs[r]) && (Assigned(rs[r]) == Fanout(rs[r]) <==> Complete(rs[r]))
    ensures Sum(Fanouts(rs)[..r + 1]) == Sum(Fanouts(rs)[..r]) + Fanout(rs[r])
  {
    hide Fanout, Complete, Assigned, Sum;
    AssignedAll(rs[r]);
    SumStep(Fanouts(rs), r);
  }

  /** What the table says of flow j of request r. */
  ghost function Recorded(rs: seq<Request>, r: nat, j: nat): (q: nat)
    requires AllAnswered(rs) && r < |rs| && Complete(rs[r]) && j < Fanout(rs[r])
    ensures Began(rs, r) + j < |FlowReqIds(Fanouts(rs))| && q == FlowReqIds(Fanouts(rs))[Began(rs, r) + j]
  {
    IdsInTable(rs, r, j);
    FlowReqIds(Fanouts(rs))[Flows(rs[r], |rs[r].counts|, Began(rs, r))[j].id - 1]
  }

  /** The ids of a complete request are consecutive, from the first one that is free, and have
      entries in the table. */
  lemma IdsInTable(rs: seq<Request>, r: nat, j: nat)
    requires AllAnswered(rs) && r < |rs| && Complete(rs[r]) && j < Fanout(rs[r])
    ensures var flows := Flows(rs[r], |rs[r].counts|, Began(rs, r));
            && |flows| == Fanout(rs[r]) && flows[j].id == Began(rs, r) + 1 + j
            && Began(rs, r) + j < |FlowReqIds(Fanouts(rs))|
  {
    hide Began, Fanouts, FlowReqIds, Answered, Flows, Sum, Fanout;
    BeganAt(rs, r);
    WholeRequest(rs[r], Began(rs, r));
    FlowReqCount(Fanouts(rs));
    SumStep(Fanouts(rs), r);
    SumGrows(Fanouts(rs), r + 1, |rs|);
    assert Fanouts(rs)[..|rs|] == Fanouts(rs);
  }

  /** A complete request has a flow for its whole fanout. */
  lemma WholeRequest(q: Request, last: nat)
    requires Answered(q) && Complete(q)
    ensures |Flows(q, |q.counts|, last)| == Fanout(q)
    ensures forall j :: 0 <= j < Fanout(q) ==> Flows(q, |q.counts|, last)[j].id == last + 1 + j
  {
    hide Sum, Served, Answered, Flows;
    FlowsAre(q, |q.counts|, last);
  }

  /** Flow j of a complete request is recorded as that request's exactly when the ids of the
      request, which may start early, have reached its range of the table by then. */
  lemma FlowRecorded(rs: seq<Request>, r: nat, j: nat)
    requires AllAnswered(rs) && r < |rs| && Complete(rs[r]) && j < Fanout(rs[r])
    ensures Recorded(rs, r, j) == r <==> Sum(Fanouts(rs)[..r]) <= Began(rs, r) + j
    ensures Recorded(rs, r, j) <= r
  {
    hide Recorded, Began, Fanouts, FlowReqIds, Complete, Fanout;
    BeganAt(rs, r);
    SumStep(Fanouts(rs), r);
    TableSays(Fanouts(rs), r, Began(rs, r) + j);
  }

  lemma TableSays(fanouts: seq<nat>, r: nat, at: nat)
    requires r < |fanouts| && at < Sum(fanouts[..r + 1])
    ensures at < |FlowReqIds(fanouts)| && FlowReqIds(fanouts)[at] <= r
    ensures FlowReqIds(fanouts)[at] == r <==> Sum(fanouts[..r]) <= at
  {
    if Sum(fanouts[..r]) <= at { FlowReqAt(fanouts, r, at); } else { Earlier(fanouts, at, r); }
  }

  /** An entry before the range of request r belongs to an earlier request. */
  lemma Earlier(fanouts: seq<nat>, at: nat, r: nat)
    requires r <= |fanouts| && at < Sum(fanouts[..r])
    ensures at < |FlowReqIds(fanouts)| && FlowReqIds(fanouts)[at] < r
  {
    FlowReqCount(fanouts);
    SumGrows(fanouts, r, |fanouts|);
    assert fanouts[..|fanouts|] == fanouts;
    FlowReqRange(fanouts, at);
    var q := FlowReqIds(fanouts)[at];
    if r <= q { SumGrows(fanouts, r, q); }
  }

  /** So all flows of a complete request are recorded as its own exactly when every request
      before it was complete as well. */
  lemma IdsMatch(rs: seq<Request>, r: nat)
    requires AllAnswered(rs) && r < |rs| && Complete(rs[r]) && Fanout(rs[r]) > 0
    ensures (forall j :: 0 <= j < Fanout(rs[r]) ==> Recorded(rs, r, j) == r) <==>
      forall q :: 0 <= q < r ==> Complete(rs[q])
  {
    BeganAt(rs, r);
    hide Complete, Recorded, Fanout, Fanouts, Began;
    FlowRecorded(rs, r, 0);
    forall j | 0 <= j < Fanout(rs[r]) ensures Sum(Fanouts(rs)[..r]) <= Began(rs, r) + j ==> Recorded(rs, r, j) == r {
      FlowRecorded(rs, r, j);
    }
  }

  /** For instance: a request of two flows whose second search fails uses up one id, and the
      only flow of the next request is recorded as the first request's. */
  lemma FailureMisdirects()
    ensures var rs := [Request([1, 1], [Found([0]), NotFound]), Request([1], [Found([0])])];
            AllAnswered(rs) && Complete(rs[1]) && Fanout(rs[1]) == 1 && Recorded(rs, 1, 0) == 0
  {
    var rs := [Request([1, 1], [Found([0]), NotFound]), Request([1], [Found([0])])];
    assert !Served(rs[0], 1);
    assert rs[1].counts[..1] == [1] && Sum([1]) == 1;
    IdsMatch(rs, 1);
    FlowRecorded(rs, 1, 0);
  }

  /** In a run where no search fails, every flow of every request is recorded as its own. */
  lemma AllIdsMatch(rs: seq<Request>, r: nat, j: nat)
    requires AllAnswered(rs) && r < |rs| && (forall q :: 0 <= q < |rs| ==> Complete(rs[q])) && j < Fanout(rs[r])
    ensures Recorded(rs, r, j) == r && Began(rs, |rs|) == |FlowReqIds(Fanouts(rs))|
  {
    BeganAt(rs, |rs|);
    FlowReqCount(Fanouts(rs));
    assert Fanouts(rs)[..|rs|] == Fanouts(rs);
    IdsMatch(rs, r);
  }
}
