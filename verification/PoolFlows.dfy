/** Which flows the connections carry: every request is begun once, here or elsewhere, and one begun
    here is written once and received once. */
module PoolFlows {
  import opened Histograms
  import opened Words
  import opened PoolProtocol
  import opened PoolRuns

  // ----- the flows on a connection -----

  /** How often flow f is on the connection: written and not read yet, or read and not settled yet. */
  function Held(n: Node, f: nat): nat {
    CountOf(n.wire, f)
    + if (n.listener.Clearing? || n.listener.Counting?) && n.listener.flow == f then 1 else 0
  }

  function HeldAll(nodes: seq<Node>, f: nat): nat {
    if nodes == [] then 0 else HeldAll(nodes[..|nodes| - 1], f) + Held(nodes[|nodes| - 1], f)
  }

  lemma {:induction false} HeldUpdate(nodes: seq<Node>, k: nat, n: Node, f: nat)
    requires k < |nodes|
    ensures HeldAll(nodes[k := n], f) == HeldAll(nodes, f) - Held(nodes[k], f) + Held(n, f)
  {
    hide Held;
    var m := |nodes| - 1;
    if k < m {
      HeldUpdate(nodes[..m], k, n, f);
      assert nodes[k := n][..m] == nodes[..m][k := n];
    } else {
      assert nodes[k := n][..m] == nodes[..m];
    }
  }

  /** A listener passes on the flow that was written first, and gives it up when it settles it. */
  lemma ListenHeld(n: Node, f: nat)
    requires n.listener.Reading? ==> n.wire != []
    ensures Held(ListenNode(n), f) + (if n.listener == Counting(f) then 1 else 0) == Held(n, f)
  {
  }

  lemma WriteHeld(n: Node, g: nat, f: nat)
    ensures Held(n.(wire := n.wire + [g]), f) == Held(n, f) + if g == f then 1 else 0
  {
    CountSplit(n.wire, [g], f);
  }

  lemma {:induction false} NoneHeld(nodes: seq<Node>, f: nat)
    requires forall k :: 0 <= k < |nodes| ==> Held(nodes[k], f) == 0
    ensures HeldAll(nodes, f) == 0
  {
    if nodes != [] { NoneHeld(nodes[..|nodes| - 1], f); }
  }

  lemma LinkHeld(nodes: seq<Node>, f: nat)
    ensures HeldAll(nodes + [NEW_NODE], f) == HeldAll(nodes, f)
  {
    assert (nodes + [NEW_NODE])[..|nodes|] == nodes;
  }

  // ----- one step -----

  lemma DispatchHeld(s: State, f: nat)
    requires Inv(s) && Enabled(s, Dispatch) && f != 0
    ensures HeldAll(DispatchStep(s).nodes, f) ==
            HeldAll(s.nodes, f) + if s.disp.Writing? && s.disp.flow == f then 1 else 0
  {
    hide CountsOk, DispatcherOk, HeldAll, Up, Down, NodesOk, NEW_NODE;
    match s.disp
    case Linking(_) => LinkHeld(s.nodes, f);
    case Starting(_) =>
      NotStarted(s);
      hide Inv;
      HeldUpdate(s.nodes, |s.nodes| - 1, s.nodes[|s.nodes| - 1].(listener := Reading), f);
    case Claiming(_, k) => HeldUpdate(s.nodes, k, s.nodes[k].(busy := true), f);
    case Writing(g, k) =>
      HeldUpdate(s.nodes, k, s.nodes[k].(wire := s.nodes[k].wire + [g]), f);
      WriteHeld(s.nodes[k], g, f);
    case ExitWriting(k) =>
      HeldUpdate(s.nodes, k, s.nodes[k].(wire := s.nodes[k].wire + [0]), f);
      WriteHeld(s.nodes[k], 0, f);
    case _ =>
  }

  lemma NotStarted(s: State)
    requires Inv(s) && s.disp.Starting?
    ensures s.nodes != [] && s.nodes[|s.nodes| - 1].listener.NotStarted?
  {
    var k := |s.nodes| - 1;
    assert NodeOk(s.nodes[k], Claimed(s.disp, k), k < ExitedUpTo(s), Unstarted(s, k));
  }

  // ----- whole runs -----

  /** A request goes to another server; it is begun at this one; it is written; a listener settles it. */
  datatype Event = Skipped | Begun | Written | Received

  predicate Happens(e: Event, f: nat, s: State, step: Step) {
    match e
    case Skipped => step.Elsewhere? && s.req + 1 == f
    case Begun => step.Dispatch? && s.disp.Ready? && s.req + 1 == f <= s.total
    case Written => step.Dispatch? && s.disp.Writing? && s.disp.flow == f
    case Received => step.Listen? && step.k < |s.nodes| && s.nodes[step.k].listener == Counting(f)
  }

  /** How often it happens to flow f. */
  ghost function Times(e: Event, f: nat, s: State, steps: seq<Step>): nat
    requires Legal(s, steps)
    decreases |steps|
  {
    if steps == [] then 0
    else (if Happens(e, f, s, steps[0]) then 1 else 0) + Times(e, f, Next(s, steps[0]), steps[1..])
  }

  /** The request is at hand. */
  function InHand(d: Dispatcher, f: nat): nat {
    if InRequest(d) && d.flow == f then 1 else 0
  }

  lemma StepHeld(s: State, step: Step, f: nat)
    requires Inv(s) && Enabled(s, step) && f != 0
    ensures HeldAll(Next(s, step).nodes, f) + (if Happens(Received, f, s, step) then 1 else 0) ==
            HeldAll(s.nodes, f) + if Happens(Written, f, s, step) then 1 else 0
  {
    match step
    case Dispatch => DispatchHeld(s, f);
    case Elsewhere =>
    case Listen(k) =>
      ListenHeld(s.nodes[k], f);
      HeldUpdate(s.nodes, k, ListenNode(s.nodes[k]), f);
      hide Inv, Held, ListenNode, HeldAll, Credits;
  }

  lemma StepInHand(s: State, step: Step, f: nat)
    requires Enabled(s, step)
    ensures InHand(Next(s, step).disp, f) + (if Happens(Written, f, s, step) then 1 else 0) ==
            InHand(s.disp, f) + if Happens(Begun, f, s, step) then 1 else 0
  {
    hide Up, Down, NEW_NODE, ListenNode, Idle;
  }

  lemma StepBegins(s: State, step: Step, f: nat)
    requires Enabled(s, step)
    ensures (if f <= Next(s, step).req then 1 else 0) ==
            (if f <= s.req then 1 else 0) + (if Happens(Skipped, f, s, step) then 1 else 0)
            + if Happens(Begun, f, s, step) then 1 else 0
  {
    hide Up, Down, NEW_NODE, ListenNode, Idle;
  }

  lemma {:induction false} FlowsKept(s: State, steps: seq<Step>, f: nat)
    requires Inv(s) && Legal(s, steps) && f != 0
    ensures var r := After(s, steps);
            && HeldAll(r.nodes, f) + Times(Received, f, s, steps) == HeldAll(s.nodes, f) + Times(Written, f, s, steps)
            && InHand(r.disp, f) + Times(Written, f, s, steps) == InHand(s.disp, f) + Times(Begun, f, s, steps)
            && (if f <= r.req then 1 else 0) == (if f <= s.req then 1 else 0)
               + Times(Skipped, f, s, steps) + Times(Begun, f, s, steps)
    decreases |steps|
  {
    if steps != [] {
      NextOk(s, steps[0]);
      StepHeld(s, steps[0], f);
      StepInHand(s, steps[0], f);
      StepBegins(s, steps[0], f);
      hide Inv, Enabled, Next, HeldAll, InHand, Happens;
      FlowsKept(Next(s, steps[0]), steps[1..], f);
    }
  }

  /** Request f, once its turn has come, has gone elsewhere or been begun here, and not both; a
      request begun here is at hand or has been written, once; a flow written is on a connection or
      has been received, once.  At the end exactly the requests begun here have been received. */
  lemma EachFlowOnce(n: nat, total: nat, steps: seq<Step>, f: nat)
    requires n < WORD && Legal(Start(n, total), steps) && f != 0
    ensures var s, r := Start(n, total), After(Start(n, total), steps);
            && Times(Skipped, f, s, steps) + Times(Begun, f, s, steps) == (if f <= r.req then 1 else 0)
            && Times(Begun, f, s, steps) == InHand(r.disp, f) + Times(Written, f, s, steps)
            && Times(Written, f, s, steps) == HeldAll(r.nodes, f) + Times(Received, f, s, steps)
            && (Quiescent(r) ==> Times(Begun, f, s, steps) == Times(Received, f, s, steps))
  {
    var s, r := Start(n, total), After(Start(n, total), steps);
    StartOk(n, total);
    ReachableOk(s, steps);
    StartHolds(n, total, f);
    FlowsKept(s, steps, f);
    if Quiescent(r) { EndHolds(r, f); }
    hide Inv, Legal, After, Start, HeldAll, Quiescent, Times;
  }

  lemma StartHolds(n: nat, total: nat, f: nat)
    ensures HeldAll(Start(n, total).nodes, f) == 0 == InHand(Start(n, total).disp, f) == Start(n, total).req
  {
    NoneHeld(Start(n, total).nodes, f);
  }

  lemma EndHolds(s: State, f: nat)
    requires Inv(s) && Quiescent(s)
    ensures HeldAll(s.nodes, f) == 0 == InHand(s.disp, f)
  {
    QuiescentSettled(s);
    hide Inv;
    NoneHeld(s.nodes, f);
  }
}
