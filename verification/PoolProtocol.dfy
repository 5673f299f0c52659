/** The connection pool of TrafficGenerator's client, seen from one server: the thread that
    dispatches requests and the listener threads of the connections, as steps of an interleaving
    in which every access to a shared field is one step. */
module PoolProtocol {

  import opened Words

  /** A listener and where it stands; flow id 0 asks it to terminate. */
  datatype Listener =
    | NotStarted
    | Reading                 // blocked on the socket
    | Clearing(flow: nat)     // has the reply, about to clear busy
    | Counting(flow: nat)     // busy cleared, about to take the lock
    | Disconnecting           // about to clear connected
    | Unbusying               // about to clear busy for good
    | Finished

  /** A connection: its flags, the requests written to it that have not been answered, oldest
      first, and its listener. */
  datatype Node = Node(busy: bool, connected: bool, wire: seq<nat>, listener: Listener)

  /** The dispatching thread and where it stands. */
  datatype Dispatcher =
    | Ready                            // between two requests
    | Checking(flow: nat)              // about to read available_len
    | Searching(flow: nat, k: nat)     // search_conn_list at node k
    | Linking(flow: nat)               // about to append a new node
    | Registering(flow: nat)           // appended, about to count it
    | Starting(flow: nat)              // counted, about to start its listener
    | Claiming(flow: nat, k: nat)      // about to set busy
    | Charging(flow: nat, k: nat)      // about to decrement available_len
    | Writing(flow: nat, k: nat)       // about to write the request
    | Exiting(k: nat)                  // exit_connections at node k
    | ExitCharging(k: nat)
    | ExitWriting(k: nat)
    | Waiting                          // joining the listeners

  /** The shared list and both kinds of thread.  req counts the requests begun, of total, to this
      server or another; dispatched is a history variable counting the flows written here. */
  datatype State = State(nodes: seq<Node>, available_len: nat, flow_finished: nat,
                         dispatched: nat, req: nat, total: nat, disp: Dispatcher)

  function Up(x: nat): nat {
    (x + 1) % WORD
  }

  function Down(x: nat): nat {
    (x + WORD - 1) % WORD
  }

  const NEW_NODE: Node := Node(false, true, [], NotStarted)

  const IDLE_NODE: Node := Node(false, true, [], Reading)

  /** The list as main leaves it before the first request. */
  function Start(n: nat, total: nat): State {
    State(seq(n, _ => IDLE_NODE), n % WORD, 0, 0, 0, total, Ready)
  }

  // ----- steps -----

  datatype Step = Dispatch | Elsewhere | Listen(k: nat)

  /** A step a thread can take: the dispatcher unless it waits or has no request left to send
      elsewhere, and any listener that is not blocked.  Nodes are bounded by the word size. */
  predicate Enabled(s: State, step: Step) {
    match step
    case Dispatch =>
      (match s.disp
       case Searching(_, k) => k <= |s.nodes|
       case Linking(_) => |s.nodes| + 1 < WORD
       case Starting(_) => s.nodes != []
       case Claiming(_, k) => k < |s.nodes|
       case Charging(_, k) => k < |s.nodes|
       case Writing(_, k) => k < |s.nodes|
       case Exiting(k) => k <= |s.nodes|
       case ExitCharging(k) => k < |s.nodes|
       case ExitWriting(k) => k < |s.nodes|
       case Waiting => false
       case _ => true)
    case Elsewhere => s.disp.Ready? && s.req < s.total
    case Listen(k) =>
      k < |s.nodes| &&
      (match s.nodes[k].listener
       case NotStarted => false
       case Reading => s.nodes[k].wire != []
       case Finished => false
       case _ => true)
  }

  function DispatchStep(s: State): State
    requires Enabled(s, Dispatch)
  {
    match s.disp
    case Ready => if s.req < s.total then s.(req := s.req + 1, disp := Checking(s.req + 1)) else s.(disp := Exiting(0))
    case Checking(f) => s.(disp := if s.available_len == 0 then Linking(f) else Searching(f, 0))
    case Searching(f, k) =>
      if k == |s.nodes| then s.(disp := Linking(f))
      else if !s.nodes[k].busy && s.nodes[k].connected then s.(disp := Claiming(f, k))
      else s.(disp := Searching(f, k + 1))
    case Linking(f) => s.(nodes := s.nodes + [NEW_NODE], disp := Registering(f))
    case Registering(f) => s.(available_len := Up(s.available_len), disp := Starting(f))
    case Starting(f) =>
      var last := |s.nodes| - 1;
      s.(nodes := s.nodes[last := s.nodes[last].(listener := Reading)], disp := Claiming(f, last))
    case Claiming(f, k) => s.(nodes := s.nodes[k := s.nodes[k].(busy := true)], disp := Charging(f, k))
    case Charging(f, k) => s.(available_len := Down(s.available_len), disp := Writing(f, k))
    case Writing(f, k) =>
      s.(nodes := s.nodes[k := s.nodes[k].(wire := s.nodes[k].wire + [f])],
         dispatched := s.dispatched + 1, disp := Ready)
    case Exiting(k) =>
      if k == |s.nodes| then s.(disp := Waiting)
      else s.(disp := if s.nodes[k].connected then ExitCharging(k) else Exiting(k + 1))
    case ExitCharging(k) => s.(available_len := Down(s.available_len), disp := ExitWriting(k))
    case ExitWriting(k) => s.(nodes := s.nodes[k := s.nodes[k].(wire := s.nodes[k].wire + [0])], disp := Exiting(k + 1))
  }

  /** What a listener does to its own node. */
  function ListenNode(n: Node): Node {
    match n.listener
    case NotStarted => n
    case Reading => if n.wire == [] then n else n.(wire := n.wire[1..], listener := Clearing(n.wire[0]))
    case Clearing(f) => n.(busy := false, listener := Counting(f))
    case Counting(f) => n.(listener := if f == 0 then Disconnecting else Reading)
    case Disconnecting => n.(connected := false, listener := Unbusying)
    case Unbusying => n.(busy := false, listener := Finished)
    case Finished => n
  }

  /** The locked update credits a finished data flow. */
  predicate Credits(n: Node) {
    n.listener.Counting? && n.listener.flow != 0
  }

  function ListenStep(s: State, k: nat): State
    requires k < |s.nodes|
  {
    var c := Credits(s.nodes[k]);
    s.(nodes := s.nodes[k := ListenNode(s.nodes[k])],
       available_len := if c then Up(s.available_len) else s.available_len,
       flow_finished := if c then Up(s.flow_finished) else s.flow_finished)
  }

  function Next(s: State, step: Step): State
    requires Enabled(s, step)
  {
    match step
    case Dispatch => DispatchStep(s)
    case Elsewhere => s.(req := s.req + 1)
    case Listen(k) => ListenStep(s, k)
  }

  /** The state after a schedule, when every step of it is enabled in turn. */
  ghost predicate Legal(s: State, steps: seq<Step>)
    decreases |steps|
  {
    steps == [] || (Enabled(s, steps[0]) && Legal(Next(s, steps[0]), steps[1..]))
  }

  ghost function After(s: State, steps: seq<Step>): State
    requires Legal(s, steps)
    decreases |steps|
  {
    if steps == [] then s else After(Next(s, steps[0]), steps[1..])
  }

  // ----- what a node holds -----

  /** Data flows among written requests. */
  function DataFlows(wire: seq<nat>): nat {
    if wire == [] then 0 else (if wire[0] != 0 then 1 else 0) + DataFlows(wire[1..])
  }

  predicate Handling(n: Node, counting: bool) {
    (n.listener.Clearing? || (counting && n.listener.Counting?)) && n.listener.flow != 0
  }

  /** Data flows on a connection that its listener has not finished receiving. */
  function Unfinished(n: Node): nat {
    DataFlows(n.wire) + if Handling(n, false) then 1 else 0
  }

  /** Data flows on a connection that have not been credited yet. */
  function Pending(n: Node): nat {
    DataFlows(n.wire) + if Handling(n, true) then 1 else 0
  }

  function TotalPending(nodes: seq<Node>): nat {
    if nodes == [] then 0 else TotalPending(nodes[..|nodes| - 1]) + Pending(nodes[|nodes| - 1])
  }

  /** The listener has been told to terminate. */
  predicate Exited(n: Node) {
    0 in n.wire || Leaving(n)
  }

  /** The listener has read the request to terminate. */
  predicate Leaving(n: Node) {
    || n.listener.Disconnecting? || n.listener.Unbusying? || n.listener.Finished?
    || ((n.listener.Clearing? || n.listener.Counting?) && n.listener.flow == 0)
  }

  predicate Idle(n: Node) {
    !n.busy && n.connected
  }

  // ----- the invariant -----

  /** The dispatcher has claimed node k for a request it has not written. */
  predicate Claimed(d: Dispatcher, k: nat) {
    (d.Charging? || d.Writing?) && d.k == k
  }

  predicate ExitPhase(d: Dispatcher) {
    d.Exiting? || d.ExitCharging? || d.ExitWriting? || d.Waiting?
  }

  /** Nodes told to terminate: those before the node exit_connections stands on. */
  function ExitedUpTo(s: State): nat {
    if s.disp.Waiting? then |s.nodes| else if ExitPhase(s.disp) then s.disp.k else 0
  }

  /** Decrements and increments of available_len that are ahead of the nodes. */
  function Ahead(d: Dispatcher): int {
    if d.Writing? || d.Registering? || d.ExitWriting? then -1 else 0
  }

  /** A node apart from its busy flag. */
  ghost predicate NodeCore(n: Node, claimed: bool, exited: bool, unstarted: bool) {
    && (n.connected <==> !n.listener.Unbusying? && !n.listener.Finished?)
    && Unfinished(n) + (if claimed then 1 else 0) <= 1
    && (Exited(n) <==> exited)
    && (forall i :: 0 <= i < |n.wire| - 1 ==> n.wire[i] != 0)
    && (Leaving(n) ==> n.wire == [])
    && (n.listener.NotStarted? <==> unstarted)
    && (unstarted ==> n.wire == [])
  }

  /** busy holds exactly while a flow is unfinished or about to be sent. */
  predicate BusyRight(n: Node, claimed: bool) {
    n.busy <==> claimed || Unfinished(n) == 1
  }

  ghost predicate NodeOk(n: Node, claimed: bool, exited: bool, unstarted: bool) {
    NodeCore(n, claimed, exited, unstarted) && BusyRight(n, claimed)
  }

  /** The node that is linked but has no listener yet. */
  predicate Unstarted(s: State, k: nat) {
    (s.disp.Registering? || s.disp.Starting?) && k == |s.nodes| - 1
  }

  ghost predicate NodesOk(s: State) {
    forall k :: 0 <= k < |s.nodes| ==> NodeOk(s.nodes[k], Claimed(s.disp, k), k < ExitedUpTo(s), Unstarted(s, k))
  }

  /** available_len as the nodes determine it. */
  function Available(s: State): int {
    |s.nodes| - TotalPending(s.nodes) - ExitedUpTo(s) + Ahead(s.disp)
  }

  ghost predicate IdleFrom(s: State, k: nat) {
    exists j :: k <= j < |s.nodes| && Idle(s.nodes[j])
  }

  ghost predicate DispatcherOk(s: State) {
    match s.disp
    case Searching(f, k) => f > 0 && IdleFrom(s, k) && Available(s) >= 1
    case Claiming(f, k) => f > 0 && k < |s.nodes| && Idle(s.nodes[k]) && Available(s) >= 1
    case Charging(f, k) => f > 0 && k < |s.nodes| && Available(s) >= 1
    case Writing(f, k) => f > 0 && k < |s.nodes|
    case Checking(f) => f > 0
    case Linking(f) => f > 0
    case Registering(f) => f > 0 && s.nodes != []
    case Starting(f) => f > 0 && s.nodes != [] && Available(s) >= 1
    case Exiting(k) => k <= |s.nodes|
    case ExitCharging(k) => k < |s.nodes|
    case ExitWriting(k) => k < |s.nodes|
    case _ => true
  }

  /** The counters agree with the nodes, and available_len has not wrapped before the exits. */
  ghost predicate CountsOk(s: State) {
    && s.available_len == Available(s) % WORD
    && s.flow_finished == (s.dispatched - TotalPending(s.nodes)) % WORD
    && s.dispatched >= TotalPending(s.nodes)
    && (!ExitPhase(s.disp) ==> Available(s) >= 0)
  }

  ghost predicate Inv(s: State) {
    |s.nodes| < WORD && s.req <= s.total && NodesOk(s) && DispatcherOk(s) && CountsOk(s)
  }

  lemma Wraps(a: int)
    ensures Up(a % WORD) == (a + 1) % WORD && Down(a % WORD) == (a - 1) % WORD
  {
  }

  // ----- one node -----

  lemma {:induction false} DataFlowsAppend(wire: seq<nat>, f: nat)
    ensures DataFlows(wire + [f]) == DataFlows(wire) + if f != 0 then 1 else 0
  {
    if wire == [] {
      assert [] + [f] == [f];
    } else {
      DataFlowsAppend(wire[1..], f);
      assert (wire + [f])[1..] == wire[1..] + [f];
    }
  }

  lemma {:induction false} TotalPendingUpdate(nodes: seq<Node>, k: nat, n: Node)
    requires k < |nodes|
    ensures TotalPending(nodes[k := n]) == TotalPending(nodes) - Pending(nodes[k]) + Pending(n)
  {
    var m := |nodes| - 1;
    if k < m {
      TotalPendingUpdate(nodes[..m], k, n);
      assert nodes[k := n][..m] == nodes[..m][k := n];
    } else {
      assert nodes[k := n][..m] == nodes[..m];
    }
  }

  /** A list with fewer pending flows than nodes has a node with none. */
  lemma {:induction false} SomeFree(nodes: seq<Node>) returns (k: nat)
    requires TotalPending(nodes) < |nodes|
    ensures k < |nodes| && Pending(nodes[k]) == 0
  {
    var m := |nodes| - 1;
    if Pending(nodes[m]) == 0 { return m; }
    k := SomeFree(nodes[..m]);
  }

  /** A listener step keeps its node in order, leaves the exit status alone, and settles a
      pending flow exactly when it credits one. */
  lemma ListenKeepsCore(n: Node, claimed: bool, exited: bool)
    requires NodeCore(n, claimed, exited, false) && !n.listener.Finished? && (n.listener.Reading? ==> n.wire != [])
    ensures NodeCore(ListenNode(n), claimed, exited, false)
    ensures Pending(ListenNode(n)) == Pending(n) - if Credits(n) then 1 else 0
  {
    if n.listener.Reading? {
      assert n.wire == [n.wire[0]] + n.wire[1..];
      assert 0 in n.wire <==> n.wire[0] == 0 || 0 in n.wire[1..];
    }
  }

  lemma ListenKeeps(n: Node, claimed: bool, exited: bool)
    requires NodeOk(n, claimed, exited, false) && !n.listener.Finished? && (n.listener.Reading? ==> n.wire != [])
    requires exited ==> !claimed
    ensures NodeOk(ListenNode(n), claimed, exited, false)
    ensures Pending(ListenNode(n)) == Pending(n) - if Credits(n) then 1 else 0
    ensures !exited && Idle(n) ==> Idle(ListenNode(n))
  {
    ListenKeepsCore(n, claimed, exited);
  }

  lemma StartOk(n: nat, total: nat)
    requires n < WORD
    ensures Inv(Start(n, total))
  {
    NoPending(n);
    IdleNodeOk();
    hide NodeOk, IDLE_NODE, TotalPending;
  }

  lemma IdleNodeOk()
    ensures NodeOk(IDLE_NODE, false, false, false)
  {
  }

  lemma {:induction false} NoPending(n: nat)
    ensures TotalPending(seq(n, _ => IDLE_NODE)) == 0
  {
    if n > 0 {
      NoPending(n - 1);
      assert seq(n, _ => IDLE_NODE)[..n - 1] == seq(n - 1, _ => IDLE_NODE);
    }
  }

  // ----- every step keeps the invariant -----

  lemma ListenNodes(s: State, k: nat)
    requires Inv(s) && Enabled(s, Listen(k))
    ensures NodesOk(ListenStep(s, k))
    ensures !ExitPhase(s.disp) && Idle(s.nodes[k]) ==> Idle(ListenNode(s.nodes[k]))
    ensures Pending(ListenNode(s.nodes[k])) == Pending(s.nodes[k]) - if Credits(s.nodes[k]) then 1 else 0
  {
    hide NodeOk, Pending, TotalPending, ListenNode, Credits, DispatcherOk;
    var n := s.nodes[k];
    StartedNode(n, Claimed(s.disp, k), k < ExitedUpTo(s), Unstarted(s, k));
    ListenKeeps(n, Claimed(s.disp, k), k < ExitedUpTo(s));
  }

  /** A listener step credits available_len and flow_finished exactly when it settles a flow. */
  lemma ListenCounts(s: State, k: nat)
    requires Inv(s) && Enabled(s, Listen(k))
    ensures var r, c := ListenStep(s, k), if Credits(s.nodes[k]) then 1 else 0;
            && TotalPending(r.nodes) == TotalPending(s.nodes) - c && Available(r) == Available(s) + c
            && r.available_len == Available(r) % WORD
            && r.flow_finished == (r.dispatched - TotalPending(r.nodes)) % WORD
  {
    hide NodeOk, NodesOk, DispatcherOk, Pending, TotalPending, ListenNode, Credits, Up;
    ListenNodes(s, k);
    Wraps(Available(s));
    Wraps(s.dispatched - TotalPending(s.nodes));
    TotalPendingUpdate(s.nodes, k, ListenNode(s.nodes[k]));
  }

  /** A listener step leaves the dispatcher's assertions true. */
  lemma ListenDispatcher(s: State, k: nat)
    requires Inv(s) && Enabled(s, Listen(k))
    ensures DispatcherOk(ListenStep(s, k))
  {
    hide NodeOk, NodesOk, CountsOk, Available, Pending, ListenNode, Credits, Idle;
    ListenNodes(s, k);
    ListenCounts(s, k);
    var r := ListenStep(s, k);
    assert forall j :: 0 <= j < |s.nodes| && !ExitPhase(s.disp) && Idle(s.nodes[j]) ==> Idle(r.nodes[j]);
    if s.disp.Searching? {
      var j :| s.disp.k <= j < |s.nodes| && Idle(s.nodes[j]);
      assert Idle(r.nodes[j]);
    }
  }

  lemma ListenOk(s: State, k: nat)
    requires Inv(s) && Enabled(s, Listen(k))
    ensures Inv(ListenStep(s, k)) && Available(ListenStep(s, k)) >= Available(s)
  {
    hide NodesOk, DispatcherOk, TotalPending, Pending, ListenNode, Credits, Available;
    ListenNodes(s, k);
    ListenCounts(s, k);
    ListenDispatcher(s, k);
  }

  lemma StartedNode(n: Node, claimed: bool, exited: bool, unstarted: bool)
    requires NodeOk(n, claimed, exited, unstarted) && !n.listener.NotStarted?
    ensures !unstarted
  {
  }

  /** While a node has no pending flow and is not claimed, it is idle. */
  lemma FreeIsIdle(n: Node)
    requires NodeOk(n, false, false, false) && Pending(n) == 0
    ensures Idle(n)
  {
  }

  /** A count above zero means that a search from the head will find an idle node. */
  lemma PositiveFinds(s: State)
    requires Inv(s) && s.disp.Checking? && s.available_len != 0
    ensures Available(s) >= 1 && IdleFrom(s, 0)
  {
    hide NodeOk, Pending, TotalPending;
    var k := SomeFree(s.nodes);
    FreeIsIdle(s.nodes[k]);
  }

  /** Dispatcher steps that touch neither the nodes nor available_len. */
  lemma MoveOk(s: State, d: Dispatcher, req: nat)
    requires Inv(s) && s.req <= req <= s.total
    requires Ahead(d) == Ahead(s.disp) && ExitedUpTo(s.(disp := d)) == ExitedUpTo(s)
    requires forall k :: 0 <= k < |s.nodes| ==>
      Claimed(d, k) == Claimed(s.disp, k) && Unstarted(s.(disp := d), k) == Unstarted(s, k)
    requires ExitPhase(s.disp) ==> ExitPhase(d)
    requires DispatcherOk(s.(disp := d, req := req))
    ensures Inv(s.(disp := d, req := req))
  {
    hide NodeOk, Pending, TotalPending;
  }

  lemma SearchOk(s: State)
    requires Inv(s) && s.disp.Searching?
    ensures s.disp.k < |s.nodes| && Inv(DispatchStep(s))
  {
    hide NodeOk, Pending, TotalPending;
    var k := s.disp.k;
    var j :| k <= j < |s.nodes| && Idle(s.nodes[j]);
    if !Idle(s.nodes[k]) {
      assert IdleFrom(s, k + 1);
      MoveOk(s, Searching(s.disp.flow, k + 1), s.req);
    } else {
      MoveOk(s, Claiming(s.disp.flow, k), s.req);
    }
  }

  lemma TotalPendingAppend(nodes: seq<Node>, n: Node)
    ensures TotalPending(nodes + [n]) == TotalPending(nodes) + Pending(n)
  {
    assert (nodes + [n])[..|nodes|] == nodes;
  }

  /** One node changes and the others keep their roles. */
  lemma NodesUpdate(s: State, r: State, k: nat, n: Node)
    requires NodesOk(s) && k < |s.nodes| && r.nodes == s.nodes[k := n]
    requires NodeOk(n, Claimed(r.disp, k), k < ExitedUpTo(r), Unstarted(r, k))
    requires forall j :: 0 <= j < |s.nodes| && j != k ==>
               Claimed(r.disp, j) == Claimed(s.disp, j) && (j < ExitedUpTo(r) <==> j < ExitedUpTo(s)) &&
                 Unstarted(r, j) == Unstarted(s, j)
    ensures NodesOk(r)
  {
    hide NodeOk;
  }

  lemma LinkNodes(s: State, r: State, n: Node)
    requires NodesOk(s) && s.disp.Linking? && r.disp.Registering?
    requires |r.nodes| == |s.nodes| + 1 && r.nodes[..|s.nodes|] == s.nodes && r.nodes[|s.nodes|] == n
    requires NodeOk(n, false, false, true)
    ensures NodesOk(r)
  {
    hide NodeOk;
    forall k | 0 <= k < |r.nodes| ensures NodeOk(r.nodes[k], Claimed(r.disp, k), k < ExitedUpTo(r), Unstarted(r, k)) {
      if k < |s.nodes| { assert r.nodes[k] == r.nodes[..|s.nodes|][k]; }
    }
  }

  lemma LinkOk(s: State, r: State)
    requires Inv(s) && s.disp.Linking? && |s.nodes| + 1 < WORD
    requires r == s.(nodes := s.nodes + [NEW_NODE], disp := Registering(s.disp.flow))
    ensures Inv(r)
  {
    NewNodeOk();
    LinkNodes(s, r, NEW_NODE);
    TotalPendingAppend(s.nodes, NEW_NODE);
    hide NodesOk, NodeOk, Pending, TotalPending, NEW_NODE;
  }

  lemma NewNodeOk()
    ensures NodeOk(NEW_NODE, false, false, true) && Pending(NEW_NODE) == 0
  {
  }

  lemma RegisterOk(s: State)
    requires Inv(s) && s.disp.Registering?
    ensures Inv(DispatchStep(s))
  {
    Wraps(Available(s));
    hide NodeOk, Pending, TotalPending, Up;
    assert forall k :: 0 <= k < |s.nodes| ==> Unstarted(s, k) == Unstarted(DispatchStep(s), k);
  }

  lemma UnstartedNode(n: Node)
    requires NodeOk(n, false, false, true)
    ensures NodeOk(n.(listener := Reading), false, false, false) && Pending(n.(listener := Reading)) == Pending(n) == 0
    ensures Idle(n.(listener := Reading))
  {
  }

  lemma StartListenerOk(s: State)
    requires Inv(s) && s.disp.Starting?
    ensures Inv(DispatchStep(s))
  {
    hide NodeOk, Pending, TotalPending;
    var last, r := |s.nodes| - 1, DispatchStep(s);
    var n := s.nodes[last].(listener := Reading);
    assert NodeOk(s.nodes[last], Claimed(s.disp, last), last < ExitedUpTo(s), Unstarted(s, last));
    UnstartedNode(s.nodes[last]);
    NodesUpdate(s, r, last, n);
    TotalPendingUpdate(s.nodes, last, n);
    hide NodesOk;
  }

  lemma ClaimNode(n: Node)
    requires NodeOk(n, false, false, false) && Idle(n)
    ensures NodeOk(n.(busy := true), true, false, false) && Pending(n.(busy := true)) == Pending(n)
  {
  }

  lemma ClaimOk(s: State)
    requires Inv(s) && s.disp.Claiming?
    ensures Inv(DispatchStep(s))
  {
    hide NodeOk, Pending, TotalPending;
    var k, r := s.disp.k, DispatchStep(s);
    ClaimNode(s.nodes[k]);
    TotalPendingUpdate(s.nodes, k, r.nodes[k]);
    assert NodesOk(r);
  }

  lemma ChargeOk(s: State)
    requires Inv(s) && s.disp.Charging?
    ensures Inv(DispatchStep(s))
  {
    Wraps(Available(s));
    hide NodeOk, Pending, TotalPending, Down;
    assert forall k :: 0 <= k < |s.nodes| ==> Claimed(s.disp, k) == Claimed(DispatchStep(s).disp, k);
  }

  lemma WriteNode(n: Node, f: nat)
    requires NodeOk(n, true, false, false) && f != 0
    ensures var r := n.(wire := n.wire + [f]); NodeOk(r, false, false, false) && Pending(r) == Pending(n) + 1
  {
    DataFlowsAppend(n.wire, f);
  }

  lemma WriteOk(s: State)
    requires Inv(s) && s.disp.Writing?
    ensures Inv(DispatchStep(s))
  {
    hide NodeOk, Pending, TotalPending;
    var k, r := s.disp.k, DispatchStep(s);
    assert Claimed(s.disp, k);
    WriteNode(s.nodes[k], s.disp.flow);
    TotalPendingUpdate(s.nodes, k, r.nodes[k]);
    assert NodesOk(r);
  }

  lemma ConnectedNode(n: Node, claimed: bool, unstarted: bool)
    requires NodeOk(n, claimed, false, unstarted)
    ensures n.connected
  {
  }

  lemma ExitMoveOk(s: State)
    requires Inv(s) && s.disp.Exiting?
    ensures Inv(DispatchStep(s))
  {
    hide NodeOk, Pending, TotalPending;
    var k := s.disp.k;
    if k == |s.nodes| {
      MoveOk(s, Waiting, s.req);
    } else {
      ConnectedNode(s.nodes[k], Claimed(s.disp, k), Unstarted(s, k));
      MoveOk(s, ExitCharging(k), s.req);
    }
  }

  lemma ExitChargeOk(s: State)
    requires Inv(s) && s.disp.ExitCharging?
    ensures Inv(DispatchStep(s))
  {
    Wraps(Available(s));
    hide NodeOk, Pending, TotalPending, Down;
  }

  lemma ExitNode(n: Node)
    requires NodeOk(n, false, false, false)
    ensures var r := n.(wire := n.wire + [0]); NodeOk(r, false, true, false) && Pending(r) == Pending(n)
  {
    DataFlowsAppend(n.wire, 0);
    assert (n.wire + [0])[|n.wire|] == 0;
  }

  lemma ExitWriteOk(s: State)
    requires Inv(s) && s.disp.ExitWriting?
    ensures Inv(DispatchStep(s))
  {
    hide NodeOk, Pending, TotalPending;
    var k, r := s.disp.k, DispatchStep(s);
    ExitNode(s.nodes[k]);
    TotalPendingUpdate(s.nodes, k, r.nodes[k]);
    assert NodesOk(r);
  }

  lemma DispatchOk(s: State)
    requires Inv(s) && Enabled(s, Dispatch)
    ensures Inv(DispatchStep(s))
  {
    hide NodesOk, NodeOk, Pending, TotalPending;
    match s.disp
    case Ready =>
      if s.req < s.total { MoveOk(s, Checking(s.req + 1), s.req + 1); } else { MoveOk(s, Exiting(0), s.req); }
    case Checking(f) =>
      if s.available_len == 0 {
        MoveOk(s, Linking(f), s.req);
      } else {
        PositiveFinds(s);
        MoveOk(s, Searching(f, 0), s.req);
      }
    case Searching(_, _) => SearchOk(s);
    case Linking(_) => LinkOk(s, DispatchStep(s));
    case Registering(_) => RegisterOk(s);
    case Starting(_) => StartListenerOk(s);
    case Claiming(_, _) => ClaimOk(s);
    case Charging(_, _) => ChargeOk(s);
    case Writing(_, _) => WriteOk(s);
    case Exiting(_) => ExitMoveOk(s);
    case ExitCharging(_) => ExitChargeOk(s);
    case ExitWriting(_) => ExitWriteOk(s);
  }

  lemma NextOk(s: State, step: Step)
    requires Inv(s) && Enabled(s, step)
    ensures Inv(Next(s, step))
  {
    match step
    case Dispatch => DispatchOk(s);
    case Elsewhere => MoveOk(s, Ready, s.req + 1);
    case Listen(k) => ListenOk(s, k);
  }

  /** Every reachable state satisfies the invariant, however the threads are scheduled. */
  lemma {:induction false} ReachableOk(s: State, steps: seq<Step>)
    requires Inv(s) && Legal(s, steps)
    ensures Inv(After(s, steps))
    decreases |steps|
  {
    if steps != [] {
      NextOk(s, steps[0]);
      ReachableOk(Next(s, steps[0]), steps[1..]);
    }
  }
}
