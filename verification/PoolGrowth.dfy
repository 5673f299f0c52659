/** When the dispatcher of the client opens a connection: over every schedule, exactly for requests
    that read an available_len of 0. */
module PoolGrowth {
  import opened Words
  import opened PoolProtocol
  import opened PoolRuns

  // ----- the check of the current request -----

  /** The dispatcher has read available_len for its request and not written the request yet. */
  predicate PastCheck(d: Dispatcher) {
    || d.Searching? || d.Linking? || d.Registering? || d.Starting?
    || d.Claiming? || d.Charging? || d.Writing?
  }

  /** c is the state in which the request of r was checked: a count of 0 leads to a new node at the
      end of the list as it was then, and any other count to a node of that list. */
  ghost predicate Since(c: State, r: State) {
    && c.disp.Checking? && PastCheck(r.disp) && c.disp.flow == r.disp.flow
    && |r.nodes| == |c.nodes| + (if r.disp.Linking? || r.disp.Searching? || c.available_len != 0 then 0 else 1)
    && match r.disp
       case Searching(_, _) => c.available_len != 0
       case Linking(_) => c.available_len == 0
       case Registering(_) => c.available_len == 0
       case Starting(_) => c.available_len == 0
       case _ => if c.available_len != 0 then r.disp.k < |c.nodes| else r.disp.k == |c.nodes|
  }

  lemma SinceStep(c: State, r: State, step: Step)
    requires Inv(r) && Since(c, r) && Enabled(r, step)
    ensures PastCheck(Next(r, step).disp) ==> Since(c, Next(r, step))
  {
    SearchNeverMisses(r);
    hide Inv, ListenNode, Credits, Idle, Up, Down, NEW_NODE;
  }

  lemma SinceStart(r: State, step: Step)
    requires Enabled(r, step) && !PastCheck(r.disp) && PastCheck(Next(r, step).disp)
    ensures step.Dispatch? && Since(r, Next(r, step))
  {
    hide ListenNode, Credits, Up, Down, NEW_NODE;
  }

  /** A schedule up to some point, and one step further. */
  lemma {:induction false} Prefix(s: State, steps: seq<Step>, c: nat)
    requires c <= |steps| && Legal(s, steps)
    ensures Legal(s, steps[..c])
    ensures c < |steps| ==> Enabled(After(s, steps[..c]), steps[c])
    ensures c < |steps| ==> Legal(s, steps[..c + 1]) && After(s, steps[..c + 1]) == Next(After(s, steps[..c]), steps[c])
    decreases |steps|
  {
    hide Enabled, Next;
    if c > 0 {
      Prefix(Next(s, steps[0]), steps[1..], c - 1);
      assert steps[..c][1..] == steps[1..][..c - 1];
      if c < |steps| { assert steps[..c + 1][1..] == steps[1..][..c]; }
    } else {
      assert steps[..0] == [];
      if |steps| > 0 { assert steps[..1][1..] == []; }
    }
  }

  /** Whoever is past the check of a request has an earlier state in which it was made. */
  lemma {:induction false} Checked(s: State, steps: seq<Step>) returns (c: nat)
    requires Inv(s) && s.disp.Ready? && Legal(s, steps) && PastCheck(After(s, steps).disp)
    ensures c < |steps| && steps[c].Dispatch? && Legal(s, steps[..c]) && Since(After(s, steps[..c]), After(s, steps))
    decreases |steps|
  {
    hide Inv, Enabled, Next, Since, Legal, After;
    NothingYet(s, steps);
    var m := |steps| - 1;
    Prefix(s, steps, m);
    assert steps[..m + 1] == steps;
    var r := After(s, steps[..m]);
    ReachableOk(s, steps[..m]);
    if PastCheck(r.disp) {
      c := Checked(s, steps[..m]);
      assert steps[..m][..c] == steps[..c];
      SinceStep(After(s, steps[..c]), r, steps[m]);
    } else {
      c := m;
      SinceStart(r, steps[m]);
    }
  }

  lemma NothingYet(s: State, steps: seq<Step>)
    requires s.disp.Ready? && Legal(s, steps) && PastCheck(After(s, steps).disp)
    ensures steps != []
  {
  }

  // ----- what a count of 0 means -----

  /** A count of 0 says that as many flows are pending as there are nodes; a node may be idle then,
      when another carries a flow while an earlier one of its own is not credited yet. */
  lemma ZeroMeans(s: State)
    requires Inv(s) && s.disp.Checking?
    ensures s.available_len == |s.nodes| - TotalPending(s.nodes) == CountIdle(s.nodes) - CountCounting(s.nodes)
  {
    AvailableMeaning(s);
    hide NodesOk;
  }

  // ----- every run -----

  /** The state after the first t steps. */
  ghost function At(n: nat, total: nat, steps: seq<Step>, t: nat): State
    requires Legal(Start(n, total), steps) && t <= |steps|
  {
    Prefix(Start(n, total), steps, t);
    After(Start(n, total), steps[..t])
  }

  lemma AtNext(n: nat, total: nat, steps: seq<Step>, t: nat)
    requires Legal(Start(n, total), steps) && t < |steps| && n < WORD
    ensures Enabled(At(n, total, steps, t), steps[t])
    ensures At(n, total, steps, t + 1) == Next(At(n, total, steps, t), steps[t]) && Inv(At(n, total, steps, t))
  {
    hide Enabled, Next, Start, Inv;
    Prefix(Start(n, total), steps, t);
    StartOk(n, total);
    ReachableOk(Start(n, total), steps[..t]);
  }

  /** Whoever is past the check of a request at step t has made it at an earlier step c. */
  lemma CheckedAt(n: nat, total: nat, steps: seq<Step>, t: nat) returns (c: nat)
    requires n < WORD && Legal(Start(n, total), steps) && t <= |steps| && PastCheck(At(n, total, steps, t).disp)
    ensures c < t && steps[c].Dispatch?
    ensures var check := At(n, total, steps, c);
            && Since(check, At(n, total, steps, t))
            && check.available_len == |check.nodes| - TotalPending(check.nodes)
            && check.available_len == CountIdle(check.nodes) - CountCounting(check.nodes)
  {
    StartOk(n, total);
    StartReady(n, total);
    hide Start, Inv, Legal, After, Since;
    Prefix(Start(n, total), steps, t);
    c := Checked(Start(n, total), steps[..t]);
    assert steps[..t][..c] == steps[..c];
    ReachableOk(Start(n, total), steps[..c]);
    SinceChecks(After(Start(n, total), steps[..c]), After(Start(n, total), steps[..t]));
    ZeroMeans(After(Start(n, total), steps[..c]));
  }

  lemma SinceChecks(c: State, r: State)
    requires Since(c, r)
    ensures c.disp.Checking?
  {
  }

  lemma StartReady(n: nat, total: nat)
    ensures Start(n, total).disp.Ready? && |Start(n, total).nodes| == n
  {
  }

  lemma OnlyLinking(s: State, step: Step)
    requires Enabled(s, step)
    ensures |Next(s, step).nodes| != |s.nodes| ==>
              step.Dispatch? && s.disp.Linking? && Next(s, step).nodes == s.nodes + [NEW_NODE]
  {
    hide ListenNode, Credits, Up, Down, NEW_NODE;
  }

  /** The list grows by one node at a time, and only for a request that read a count of 0, that is
      with as many pending flows as nodes, and no more idle nodes than flows waiting to be
      credited. */
  lemma GrowsWhenFull(n: nat, total: nat, steps: seq<Step>, t: nat) returns (c: nat)
    requires n < WORD && Legal(Start(n, total), steps) && t < |steps|
    requires |At(n, total, steps, t + 1).nodes| != |At(n, total, steps, t).nodes|
    ensures c < t && steps[c].Dispatch?
    ensures var check, before, after := At(n, total, steps, c), At(n, total, steps, t), At(n, total, steps, t + 1);
            && check.disp.Checking? && check.available_len == 0
            && CountIdle(check.nodes) == CountCounting(check.nodes)
            && TotalPending(check.nodes) == |check.nodes| == |before.nodes|
            && before.disp == Linking(check.disp.flow) && after.nodes == before.nodes + [NEW_NODE]
  {
    hide At, Inv, Legal, Enabled, Next, NEW_NODE;
    AtNext(n, total, steps, t);
    OnlyLinking(At(n, total, steps, t), steps[t]);
    c := CheckedAt(n, total, steps, t);
  }

  /** A request is written to a node that was in the list when its count was read exactly if the
      count was not 0, that is if more nodes were idle than flows waiting to be credited; otherwise
      to the one node added for it. */
  lemma WrittenWhere(n: nat, total: nat, steps: seq<Step>, t: nat) returns (c: nat)
    requires n < WORD && Legal(Start(n, total), steps) && t <= |steps| && At(n, total, steps, t).disp.Writing?
    ensures c < t && steps[c].Dispatch?
    ensures var check, s := At(n, total, steps, c), At(n, total, steps, t);
            && check.disp == Checking(s.disp.flow)
            && (s.disp.k < |check.nodes| <==> check.available_len != 0)
            && (check.available_len != 0 <==> CountIdle(check.nodes) > CountCounting(check.nodes))
            && (s.disp.k < |check.nodes| ==> |s.nodes| == |check.nodes|)
            && (s.disp.k >= |check.nodes| ==> s.disp.k == |check.nodes| == |s.nodes| - 1)
  {
    hide At, Legal;
    c := CheckedAt(n, total, steps, t);
  }

  /** So while every flow that was received has been credited, an idle node is always used. */
  lemma IdleIsUsed(n: nat, total: nat, steps: seq<Step>, t: nat) returns (c: nat)
    requires n < WORD && Legal(Start(n, total), steps) && t <= |steps| && At(n, total, steps, t).disp.Writing?
    ensures c < t && steps[c].Dispatch?
    ensures var check, s := At(n, total, steps, c), At(n, total, steps, t);
            && check.disp == Checking(s.disp.flow)
            && (CountCounting(check.nodes) == 0 && IdleFrom(check, 0) ==> s.disp.k < |check.nodes| == |s.nodes|)
  {
    hide At, Legal;
    c := WrittenWhere(n, total, steps, t);
    var check := At(n, total, steps, c);
    if IdleFrom(check, 0) { SomeIdle(check.nodes); }
  }

  lemma {:induction false} SomeIdle(nodes: seq<Node>)
    requires exists j :: 0 <= j < |nodes| && Idle(nodes[j])
    ensures CountIdle(nodes) > 0
  {
    var m := |nodes| - 1;
    if !Idle(nodes[m]) { SomeIdle(nodes[..m]); }
  }

  /** The list is as long as it was opened, or one longer than the flows pending at some moment. */
  lemma {:induction false} ListBound(n: nat, total: nat, steps: seq<Step>, t: nat) returns (c: nat)
    requires n < WORD && Legal(Start(n, total), steps) && t <= |steps|
    ensures c <= t
    ensures |At(n, total, steps, t).nodes| in {n, TotalPending(At(n, total, steps, c).nodes) + 1}
    decreases t
  {
    if t == 0 {
      c := 0;
      StartReady(n, total);
      assert steps[..0] == [];
    } else {
      hide At, Enabled, Next, Legal;
      AtNext(n, total, steps, t - 1);
      OnlyLinking(At(n, total, steps, t - 1), steps[t - 1]);
      if |At(n, total, steps, t).nodes| == |At(n, total, steps, t - 1).nodes| {
        c := ListBound(n, total, steps, t - 1);
      } else {
        c := GrowsWhenFull(n, total, steps, t - 1);
      }
    }
  }

  /** So a list that always has more nodes than flows pending does not grow. */
  lemma EnoughNodes(n: nat, total: nat, steps: seq<Step>)
    requires n < WORD && Legal(Start(n, total), steps)
    requires forall c :: 0 <= c <= |steps| ==> TotalPending(At(n, total, steps, c).nodes) < n
    ensures |At(n, total, steps, |steps|).nodes| == n
  {
    hide At, Legal, TotalPending, Start;
    StartReady(n, total);
    var t: nat := 0;
    StartsWith(n, total, steps);
    while t < |steps|
      invariant t <= |steps| && |At(n, total, steps, t).nodes| == n
    {
      AtNext(n, total, steps, t);
      if |At(n, total, steps, t + 1).nodes| != n {
        var _ := GrowsWhenFull(n, total, steps, t);
      }
      t := t + 1;
    }
  }

  lemma StartsWith(n: nat, total: nat, steps: seq<Step>)
    requires Legal(Start(n, total), steps)
    ensures |At(n, total, steps, 0).nodes| == n
  {
    assert steps[..0] == [];
  }

  // ----- an idle node that is overlooked -----

  /** Steps one after the other. */
  lemma Goes(s: State, steps: seq<Step>, step: Step, r: State)
    requires Legal(s, steps) && Enabled(After(s, steps), step) && Next(After(s, steps), step) == r
    ensures Legal(s, steps + [step]) && After(s, steps + [step]) == r
  {
    hide Enabled, Next;
    AfterSnoc(s, steps, step);
  }

  /** One node between clearing busy for flow 1 and crediting it, and one idle node. */
  function HalfDone(total: nat): State {
    State([Node(false, true, [], Counting(1)), IDLE_NODE], 1, 0, 1, 1, total, Ready)
  }

  lemma ToHalfDone(total: nat) returns (steps: seq<Step>)
    requires total >= 3
    ensures Legal(Start(2, total), steps) && After(Start(2, total), steps) == HalfDone(total)
  {
    var s := Start(2, total);
    assert s == State([IDLE_NODE, IDLE_NODE], 2, 0, 0, 0, total, Ready);
    var busy := IDLE_NODE.(busy := true);
    assert busy.wire + [1] == [1] && [1][1..] == busy.wire;
    hide Start, Legal, After;
    StartsEmpty(s);
    steps := [];
    Goes(s, steps, Dispatch, State([IDLE_NODE, IDLE_NODE], 2, 0, 0, 1, total, Checking(1)));
    steps := steps + [Dispatch];
    Goes(s, steps, Dispatch, State([IDLE_NODE, IDLE_NODE], 2, 0, 0, 1, total, Searching(1, 0)));
    steps := steps + [Dispatch];
    Goes(s, steps, Dispatch, State([IDLE_NODE, IDLE_NODE], 2, 0, 0, 1, total, Claiming(1, 0)));
    steps := steps + [Dispatch];
    Goes(s, steps, Dispatch, State([busy, IDLE_NODE], 2, 0, 0, 1, total, Charging(1, 0)));
    steps := steps + [Dispatch];
    Goes(s, steps, Dispatch, State([busy, IDLE_NODE], 1, 0, 0, 1, total, Writing(1, 0)));
    steps := steps + [Dispatch];
    Goes(s, steps, Dispatch, State([busy.(wire := [1]), IDLE_NODE], 1, 0, 1, 1, total, Ready));
    steps := steps + [Dispatch];
    Goes(s, steps, Listen(0), State([busy.(listener := Clearing(1)), IDLE_NODE], 1, 0, 1, 1, total, Ready));
    steps := steps + [Listen(0)];
    Goes(s, steps, Listen(0), HalfDone(total));
    steps := steps + [Listen(0)];
  }

  lemma StartsEmpty(s: State)
    ensures Legal(s, []) && After(s, []) == s
  {
  }

  /** The next request takes that node, whose first flow is not credited yet.  The one after it reads
      a count of 0 and opens a third connection, although the second has been idle all along. */
  lemma IdleOverlooked(total: nat) returns (steps: seq<Step>, t: nat)
    requires total >= 3
    ensures Legal(Start(2, total), steps) && t < |steps|
    ensures var check := At(2, total, steps, t);
            && check.disp.Checking? && check.available_len == 0
            && |check.nodes| == 2 && Idle(check.nodes[1]) && check.nodes[1].wire == []
    ensures |At(2, total, steps, |steps|).nodes| == 3
  {
    var s := Start(2, total);
    var first := Node(false, true, [], Counting(1));
    var busy := first.(busy := true);
    var twice := busy.(wire := [2]);
    assert busy.wire + [2] == [2];
    steps := ToHalfDone(total);
    hide Start, Legal, After;
    Goes(s, steps, Dispatch, State([first, IDLE_NODE], 1, 0, 1, 2, total, Checking(2)));
    steps := steps + [Dispatch];
    Goes(s, steps, Dispatch, State([first, IDLE_NODE], 1, 0, 1, 2, total, Searching(2, 0)));
    steps := steps + [Dispatch];
    Goes(s, steps, Dispatch, State([first, IDLE_NODE], 1, 0, 1, 2, total, Claiming(2, 0)));
    steps := steps + [Dispatch];
    Goes(s, steps, Dispatch, State([busy, IDLE_NODE], 1, 0, 1, 2, total, Charging(2, 0)));
    steps := steps + [Dispatch];
    Goes(s, steps, Dispatch, State([busy, IDLE_NODE], 0, 0, 1, 2, total, Writing(2, 0)));
    steps := steps + [Dispatch];
    Goes(s, steps, Dispatch, State([twice, IDLE_NODE], 0, 0, 2, 2, total, Ready));
    steps := steps + [Dispatch];
    Goes(s, steps, Dispatch, State([twice, IDLE_NODE], 0, 0, 2, 3, total, Checking(3)));
    steps := steps + [Dispatch];
    t := |steps|;
    ghost var checked := steps;
    Goes(s, steps, Dispatch, State([twice, IDLE_NODE], 0, 0, 2, 3, total, Linking(3)));
    steps := steps + [Dispatch];
    Goes(s, steps, Dispatch, State([twice, IDLE_NODE, NEW_NODE], 0, 0, 2, 3, total, Registering(3)));
    steps := steps + [Dispatch];
    assert steps[..t] == checked && steps[..|steps|] == steps;
  }
}
