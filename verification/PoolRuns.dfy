/** What the pool protocol guarantees over every schedule: the meaning of available_len, the
    conservation of flows, and that every run ends with both settled. */
module PoolRuns {
  import opened Words
  import opened PoolProtocol

  // ----- what available_len counts -----

  function CountIdle(nodes: seq<Node>): nat {
    if nodes == [] then 0 else CountIdle(nodes[..|nodes| - 1]) + if Idle(nodes[|nodes| - 1]) then 1 else 0
  }

  /** Listeners that have cleared busy for a data flow and not yet credited it. */
  function CountCounting(nodes: seq<Node>): nat {
    if nodes == [] then 0 else CountCounting(nodes[..|nodes| - 1]) + if Credits(nodes[|nodes| - 1]) then 1 else 0
  }

  lemma NodeBalance(n: Node, claimed: bool, unstarted: bool)
    requires NodeOk(n, claimed, false, unstarted)
    ensures 1 - Pending(n) == (if Idle(n) then 1 else 0) - (if Credits(n) then 1 else 0) + if claimed then 1 else 0
  {
  }

  /** The claimed node, counted among the first m. */
  function ClaimedAmong(d: Dispatcher, m: nat): nat {
    if (d.Charging? || d.Writing?) && d.k < m then 1 else 0
  }

  lemma {:induction false} Balance(s: State, m: nat)
    requires m <= |s.nodes| && NodesOk(s) && !ExitPhase(s.disp)
    ensures m - TotalPending(s.nodes[..m]) == CountIdle(s.nodes[..m]) - CountCounting(s.nodes[..m]) +
      ClaimedAmong(s.disp, m)
  {
    hide NodeOk, Pending, Idle, Credits;
    if m > 0 {
      Balance(s, m - 1);
      assert s.nodes[..m][..m - 1] == s.nodes[..m - 1];
      assert NodeOk(s.nodes[m - 1], Claimed(s.disp, m - 1), m - 1 < ExitedUpTo(s), Unstarted(s, m - 1));
      NodeBalance(s.nodes[m - 1], Claimed(s.disp, m - 1), Unstarted(s, m - 1));
    }
  }

  /** Until the exits begin, available_len is exactly the number of idle connected nodes, less
      the listeners between clearing busy and incrementing, plus the send that has set busy and
      not decremented, less the node that is linked and not yet counted. */
  lemma AvailableMeaning(s: State)
    requires Inv(s) && !ExitPhase(s.disp)
    ensures s.available_len == CountIdle(s.nodes) - CountCounting(s.nodes)
                               + (if s.disp.Charging? then 1 else 0) - (if s.disp.Registering? then 1 else 0)
  {
    hide NodesOk;
    Balance(s, |s.nodes|);
    assert s.nodes[..|s.nodes|] == s.nodes;
  }

  /** A connection carries at most one unfinished data flow, and is busy exactly while it
      carries one or is claimed for one. */
  lemma OneFlowPerConnection(s: State, k: nat)
    requires Inv(s) && k < |s.nodes|
    ensures Unfinished(s.nodes[k]) <= 1
    ensures s.nodes[k].busy <==> Unfinished(s.nodes[k]) == 1 || Claimed(s.disp, k)
  {
    assert NodeOk(s.nodes[k], Claimed(s.disp, k), k < ExitedUpTo(s), Unstarted(s, k));
  }

  /** A search that starts on a positive count reaches an idle node before the end of the list,
      even while listeners run. */
  lemma SearchNeverMisses(s: State)
    requires Inv(s)
    ensures s.disp.Searching? ==> s.disp.k < |s.nodes|
    ensures s.disp.Checking? && s.available_len != 0 ==> IdleFrom(s, 0)
  {
    if s.disp.Checking? && s.available_len != 0 { PositiveFinds(s); }
  }

  /** Every flow written is finished or still pending. */
  lemma FlowsConserved(s: State)
    requires Inv(s)
    ensures s.dispatched >= TotalPending(s.nodes)
    ensures s.dispatched < WORD ==> s.dispatched == s.flow_finished + TotalPending(s.nodes)
  {
    hide NodesOk;
  }

  // ----- the end of a run -----

  ghost predicate Quiescent(s: State) {
    s.disp.Waiting? && forall k :: 0 <= k < |s.nodes| ==> s.nodes[k].listener.Finished?
  }

  lemma FinishedSettled(n: Node)
    requires NodeOk(n, false, true, false) && n.listener.Finished?
    ensures Pending(n) == 0 && !n.busy && !n.connected && n.wire == []
  {
  }

  lemma {:induction false} AllSettled(nodes: seq<Node>)
    requires forall k :: 0 <= k < |nodes| ==> Pending(nodes[k]) == 0
    ensures TotalPending(nodes) == 0
  {
    if nodes != [] { AllSettled(nodes[..|nodes| - 1]); }
  }

  /** Once every listener has handled its request to terminate, available_len is back to zero
      and every dispatched flow has been counted as finished. */
  lemma QuiescentSettled(s: State)
    requires Inv(s) && Quiescent(s)
    ensures s.available_len == 0 && s.flow_finished == s.dispatched % WORD
    ensures forall k :: 0 <= k < |s.nodes| ==> s.nodes[k].wire == [] && !s.nodes[k].connected
  {
    hide NodeOk, Pending, TotalPending;
    forall k | 0 <= k < |s.nodes| ensures Pending(s.nodes[k]) == 0 && s.nodes[k].wire == [] && !s.nodes[k].connected {
      assert NodeOk(s.nodes[k], Claimed(s.disp, k), k < ExitedUpTo(s), Unstarted(s, k));
      FinishedSettled(s.nodes[k]);
    }
    AllSettled(s.nodes);
  }

  /** Room for the nodes that the remaining requests may still add. */
  function NodesAtMost(s: State): int {
    |s.nodes| + s.total - s.req + if s.disp.Checking? || s.disp.Searching? || s.disp.Linking? then 1 else 0
  }

  /** Short of the end some thread can move. */
  lemma CanMove(s: State) returns (step: Step)
    requires Inv(s) && !Quiescent(s) && NodesAtMost(s) < WORD
    ensures Enabled(s, step)
  {
    if !s.disp.Waiting? {
      step := Dispatch;
      hide NodesOk;
    } else {
      var k :| 0 <= k < |s.nodes| && !s.nodes[k].listener.Finished?;
      step := Listen(k);
      assert NodeOk(s.nodes[k], Claimed(s.disp, k), k < ExitedUpTo(s), Unstarted(s, k));
    }
  }

  /** Steps a listener has left for what it holds and what is written to it. */
  function NodeWork(n: Node): nat {
    6 * |n.wire| +
    match n.listener
    case NotStarted => 0
    case Reading => 0
    case Clearing(f) => if f == 0 then 4 else 2
    case Counting(f) => if f == 0 then 3 else 1
    case Disconnecting => 2
    case Unbusying => 1
    case Finished => 0
  }

  function Work(nodes: seq<Node>): nat {
    if nodes == [] then 0 else Work(nodes[..|nodes| - 1]) + NodeWork(nodes[|nodes| - 1])
  }

  lemma {:induction false} WorkUpdate(nodes: seq<Node>, k: nat, n: Node)
    requires k < |nodes|
    ensures Work(nodes[k := n]) == Work(nodes) - NodeWork(nodes[k]) + NodeWork(n)
  {
    var m := |nodes| - 1;
    if k < m {
      WorkUpdate(nodes[..m], k, n);
      assert nodes[k := n][..m] == nodes[..m][k := n];
    } else {
      assert nodes[k := n][..m] == nodes[..m];
    }
  }

  /** How far the dispatcher is from the end of its current request, or of the exits. */
  function Phase(s: State): int {
    var n := |s.nodes|;
    match s.disp
    case Checking(_) => 4 * n + 13
    case Searching(_, k) => 4 * n + 12 - k
    case Linking(_) => 3 * n + 11
    case Registering(_) => 3 * n + 7
    case Starting(_) => 3 * n + 6
    case Claiming(_, _) => 3 * n + 5
    case Charging(_, _) => 3 * n + 4
    case Writing(_, _) => 3 * n + 3
    case Ready => 3 * n + 2
    case Exiting(k) => 3 * (n - k) + 1
    case ExitCharging(k) => 3 * (n - k)
    case ExitWriting(k) => 3 * (n - k) - 1
    case Waiting => 0
  }

  /** The run is closer to its end: fewer requests to begin, or a dispatcher further on, or
      less left for the listeners. */
  predicate Closer(r: State, s: State) {
    && r.total == s.total && NodesAtMost(r) <= NodesAtMost(s) && 0 <= Phase(s)
    && (r.req > s.req || (r.req == s.req &&
       (Phase(r) < Phase(s) || (Phase(r) == Phase(s) && Work(r.nodes) < Work(s.nodes)))))
  }

  lemma ListenProgress(s: State, k: nat)
    requires Inv(s) && Enabled(s, Listen(k))
    ensures Closer(ListenStep(s, k), s)
  {
    PhaseSign(s);
    NodeWorkFalls(s.nodes[k]);
    hide NodesOk, CountsOk, DispatcherOk, TotalPending, Pending, ListenNode, NodeWork, Credits, Up, Available;
    WorkUpdate(s.nodes, k, ListenNode(s.nodes[k]));
    SamePhase(s, ListenStep(s, k));
  }

  lemma NodeWorkFalls(n: Node)
    requires !n.listener.NotStarted? && !n.listener.Finished? && (n.listener.Reading? ==> n.wire != [])
    ensures NodeWork(ListenNode(n)) < NodeWork(n)
  {
  }

  lemma SamePhase(s: State, r: State)
    requires r.disp == s.disp && |r.nodes| == |s.nodes| && r.req == s.req && r.total == s.total
    ensures Phase(r) == Phase(s) && NodesAtMost(r) == NodesAtMost(s)
  {
  }

  lemma PhaseSign(s: State)
    requires DispatcherOk(s)
    ensures 0 <= Phase(s)
  {
    hide Available;
  }

  lemma DispatchProgress(s: State)
    requires Inv(s) && Enabled(s, Dispatch)
    ensures Closer(DispatchStep(s), s)
  {
    PhaseSign(s);
    hide NodesOk, CountsOk, DispatcherOk, Available, Work, Idle, Up, Down, NEW_NODE;
    if InRequest(s.disp) { RequestProgress(s); } else { BetweenProgress(s); }
  }

  lemma RequestProgress(s: State)
    requires Enabled(s, Dispatch) && InRequest(s.disp) && 0 <= Phase(s)
    ensures Closer(DispatchStep(s), s)
  {
    hide Work, Idle, Up, Down, NEW_NODE;
  }

  lemma BetweenProgress(s: State)
    requires Enabled(s, Dispatch) && !InRequest(s.disp) && 0 <= Phase(s)
    ensures Closer(DispatchStep(s), s)
  {
    hide Work, Idle, Up, Down, NEW_NODE;
  }

  /** Every step of either kind of thread brings the run closer to its end. */
  lemma StepProgress(s: State, step: Step)
    requires Inv(s) && Enabled(s, step)
    ensures Closer(Next(s, step), s)
  {
    match step
    case Listen(k) => ListenProgress(s, k);
    case Dispatch => DispatchProgress(s);
    case Elsewhere =>
  }

  predicate InRequest(d: Dispatcher) {
    !d.Ready? && !ExitPhase(d)
  }

  /** At most one flow is written per request begun, and the exits wait for the last request. */
  predicate Paced(s: State) {
    && s.dispatched + (if InRequest(s.disp) then 1 else 0) <= s.req <= s.total
    && (ExitPhase(s.disp) ==> s.req == s.total)
  }

  lemma PacedOk(s: State, step: Step)
    requires Paced(s) && Enabled(s, step)
    ensures Paced(Next(s, step))
  {
  }

  // ----- whole schedules -----

  lemma {:induction false} AfterSnoc(s: State, steps: seq<Step>, step: Step)
    requires Legal(s, steps) && Enabled(After(s, steps), step)
    ensures Legal(s, steps + [step]) && After(s, steps + [step]) == Next(After(s, steps), step)
    decreases |steps|
  {
    hide Enabled, Next;
    if steps == [] {
      assert [] + [step] == [step];
      assert [step][1..] == [];
    } else {
      AfterSnoc(Next(s, steps[0]), steps[1..], step);
      assert (steps + [step])[1..] == steps[1..] + [step];
    }
  }

  /** A scheduler that always names a thread that can move, given the steps taken so far. */
  ghost predicate Schedules(pick: seq<Step> -> Step, s: State) {
    forall steps :: Legal(s, steps) && !Quiescent(After(s, steps)) ==> Enabled(After(s, steps), pick(steps))
  }

  ghost predicate Follows(steps: seq<Step>, pick: seq<Step> -> Step) {
    forall i :: 0 <= i < |steps| ==> steps[i] == pick(steps[..i])
  }

  /** The run so far, and what it still satisfies. */
  ghost predicate OnTheWay(s: State, steps: seq<Step>, r: State) {
    Legal(s, steps) && r == After(s, steps) && Inv(r) && Paced(r) && NodesAtMost(r) < WORD && r.total == s.total
  }

  lemma {:induction false} RunsOut(s: State, pick: seq<Step> -> Step, steps: seq<Step>, r: State)
    returns (all: seq<Step>)
    requires Schedules(pick, s) && Follows(steps, pick) && OnTheWay(s, steps, r)
    ensures Follows(all, pick) && Legal(s, all) && OnTheWay(s, all, After(s, all)) && Quiescent(After(s, all))
    decreases r.total - r.req, Phase(r), Work(r.nodes)
  {
    if Quiescent(r) { return steps; }
    var step := pick(steps);
    NextOk(r, step);
    PacedOk(r, step);
    StepProgress(r, step);
    AfterSnoc(s, steps, step);
    hide Legal, After, Inv, Quiescent, Enabled, Next, NodesAtMost, Phase, Work;
    assert Follows(steps + [step], pick) by {
      forall i | 0 <= i < |steps + [step]| ensures (steps + [step])[i] == pick((steps + [step])[..i]) {
        assert (steps + [step])[..i] == steps[..i];
      }
    }
    all := RunsOut(s, pick, steps + [step], Next(r, step));
  }

  lemma StartOnTheWay(n: nat, total: nat)
    requires n + total < WORD
    ensures OnTheWay(Start(n, total), [], Start(n, total))
  {
    StartOk(n, total);
    hide Inv;
  }

  /** However the threads are scheduled, a run from the state main leaves comes to an end, and
      there every request has been begun and every flow written has been counted as finished. */
  lemma EveryScheduleEnds(n: nat, total: nat, pick: seq<Step> -> Step) returns (steps: seq<Step>)
    requires n + total < WORD && Schedules(pick, Start(n, total))
    ensures Follows(steps, pick) && Legal(Start(n, total), steps)
    ensures var end := After(Start(n, total), steps);
            Quiescent(end) && end.req == total && end.available_len == 0 && end.flow_finished == end.dispatched
  {
    hide *;
    StartOnTheWay(n, total);
    NothingTaken(pick);
    steps := RunsOut(Start(n, total), pick, [], Start(n, total));
    EndSettled(n, total, steps);
  }

  lemma NothingTaken(pick: seq<Step> -> Step)
    ensures Follows([], pick)
  {
  }

  lemma EndSettled(n: nat, total: nat, steps: seq<Step>)
    requires n + total < WORD
    requires Legal(Start(n, total), steps)
    requires var end := After(Start(n, total), steps); OnTheWay(Start(n, total), steps, end) && Quiescent(end)
    ensures var end := After(Start(n, total), steps);
            end.req == total && end.available_len == 0 && end.flow_finished == end.dispatched
  {
    assert Start(n, total).total == total;
    hide Inv, Legal, After, Start;
    QuiescentSettled(After(Start(n, total), steps));
  }

  lemma {:induction false} StaysOnTheWay(s: State, steps: seq<Step>)
    requires Inv(s) && Paced(s) && NodesAtMost(s) < WORD && Legal(s, steps)
    ensures OnTheWay(s, steps, After(s, steps))
    decreases |steps|
  {
    if steps != [] {
      NextOk(s, steps[0]);
      PacedOk(s, steps[0]);
      StepProgress(s, steps[0]);
      hide Inv, Paced, NodesAtMost, Phase, Work, Enabled, Next;
      StaysOnTheWay(Next(s, steps[0]), steps[1..]);
    }
  }

  /** Safety of every reachable state: what available_len counts until the exits begin, at most
      one unfinished flow per connection, and conservation of the flows written. */
  lemma Safe(n: nat, total: nat, steps: seq<Step>)
    requires n + total < WORD && Legal(Start(n, total), steps)
    ensures var s := After(Start(n, total), steps);
            && (!ExitPhase(s.disp) ==>
                  s.available_len == CountIdle(s.nodes) - CountCounting(s.nodes)
                                     + (if s.disp.Charging? then 1 else 0) - (if s.disp.Registering? then 1 else 0))
            && (forall k :: 0 <= k < |s.nodes| ==> Unfinished(s.nodes[k]) <= 1)
            && s.dispatched == s.flow_finished + TotalPending(s.nodes)
  {
    StartOnTheWay(n, total);
    StaysOnTheWay(Start(n, total), steps);
    var s := After(Start(n, total), steps);
    if !ExitPhase(s.disp) { AvailableMeaning(s); }
    FlowsConserved(s);
    hide NodesOk, CountsOk, DispatcherOk, Start, Legal, After, TotalPending, CountIdle, CountCounting, Unfinished;
    forall k | 0 <= k < |s.nodes| ensures Unfinished(s.nodes[k]) <= 1 {
      OneFlowPerConnection(s, k);
    }
  }

  /** No reachable state is stuck short of the end. */
  lemma NeverStuck(n: nat, total: nat, steps: seq<Step>) returns (step: Step)
    requires n + total < WORD && Legal(Start(n, total), steps)
    ensures var s := After(Start(n, total), steps); Quiescent(s) || Enabled(s, step)
  {
    StartOnTheWay(n, total);
    StaysOnTheWay(Start(n, total), steps);
    hide Inv, Legal, After, Start, Enabled, Quiescent, NodesAtMost;
    step := Dispatch;
    if !Quiescent(After(Start(n, total), steps)) { step := CanMove(After(Start(n, total), steps)); }
  }
}
