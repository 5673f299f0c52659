/** The linked list of connections to one server (TrafficGenerator/src/common/conn.c), as one
    thread sees it. */
module Connections {

  import opened Words

  lemma CountOn(a: nat, i: nat)
    ensures ((a + i) % WORD + 1) % WORD == (a + (i + 1)) % WORD
  {
  }

  class ConnNode {
    var id: nat
    var busy: bool
    var connected: bool
    var next: ConnNode?

    /** init_conn_node: every path leaves the node idle and unlinked; it is connected when the
        socket calls succeed. */
    constructor (id: nat, reachable: bool)
      ensures this.id == id && !busy && next == null && connected == reachable
    {
      this.id, busy, next, connected := id, false, null, reachable;
    }

    predicate Idle()
      reads this
    {
      !busy && connected
    }
  }

  /** The idle nodes, in list order. */
  ghost function IdleNodes(nodes: seq<ConnNode>): (r: seq<ConnNode>)
    reads nodes
  {
    if nodes == [] then []
    else
      var last := |nodes| - 1;
      IdleNodes(nodes[..last]) + if nodes[last].Idle() then [nodes[last]] else []
  }

  /** Which nodes IdleNodes holds: those of the list that are idle, each once, in list order. */
  lemma {:induction false} IdleNodesAre(nodes: seq<ConnNode>)
    requires forall i, j :: 0 <= i < j < |nodes| ==> nodes[i] != nodes[j]
    ensures forall i :: 0 <= i < |IdleNodes(nodes)| ==> IdleNodes(nodes)[i] in nodes && IdleNodes(nodes)[i].Idle()
    ensures forall k :: 0 <= k < |nodes| && nodes[k].Idle() ==> nodes[k] in IdleNodes(nodes)
    ensures forall i, j :: 0 <= i < j < |IdleNodes(nodes)| ==> IdleNodes(nodes)[i] != IdleNodes(nodes)[j]
  {
    if nodes != [] {
      var last := |nodes| - 1;
      IdleNodesAre(nodes[..last]);
      assert nodes == nodes[..last] + [nodes[last]];
      assert nodes[last] !in nodes[..last];
    }
  }

  lemma IdleStep(nodes: seq<ConnNode>, k: nat)
    requires k < |nodes|
    ensures IdleNodes(nodes[..k + 1]) == IdleNodes(nodes[..k]) + if nodes[k].Idle() then [nodes[k]] else []
  {
    assert nodes[..k + 1][..k] == nodes[..k];
  }

  /** The idle nodes of a prefix of the list come first among the idle nodes. */
  lemma {:induction false} IdlePrefix(nodes: seq<ConnNode>, m: nat)
    requires m <= |nodes|
    ensures IdleNodes(nodes[..m]) <= IdleNodes(nodes)
  {
    if m < |nodes| {
      var last := |nodes| - 1;
      IdlePrefix(nodes[..last], m);
      assert nodes[..last][..m] == nodes[..m];
    } else {
      assert nodes[..m] == nodes;
    }
  }

  /** The node a walk along the list stands on after k steps from its head. */
  ghost function Follow(nodes: seq<ConnNode>, k: nat): ConnNode? {
    if k < |nodes| then nodes[k] else null
  }

  /** The nodes flagged among the first k. */
  ghost function Kept(nodes: seq<ConnNode>, flags: seq<bool>, k: nat): seq<ConnNode>
    requires k <= |nodes| == |flags|
  {
    if k == 0 then [] else Kept(nodes, flags, k - 1) + if flags[k - 1] then [nodes[k - 1]] else []
  }

  lemma {:induction false} KeptPrefix(nodes: seq<ConnNode>, flags: seq<bool>, k: nat, m: nat)
    requires k <= m <= |nodes| == |flags|
    ensures |Kept(nodes, flags, k)| <= |Kept(nodes, flags, m)|
    ensures Kept(nodes, flags, k) == Kept(nodes, flags, m)[..|Kept(nodes, flags, k)|]
  {
    if k < m { KeptPrefix(nodes, flags, k, m - 1); }
  }

  lemma KeptStep(nodes: seq<ConnNode>, flags: seq<bool>, k: nat)
    requires k < |nodes| == |flags|
    ensures Kept(nodes, flags, k + 1) == if flags[k] then Kept(nodes, flags, k) + [nodes[k]] else Kept(nodes, flags, k)
  {
  }

  lemma KeptNone(nodes: seq<ConnNode>, flags: seq<bool>)
    requires |nodes| == |flags|
    ensures Kept(nodes, flags, 0) == []
  {
  }

  lemma {:induction false} KeptIsIdle(nodes: seq<ConnNode>, flags: seq<bool>, k: nat)
    requires k <= |nodes| == |flags| && forall i :: 0 <= i < |nodes| ==> flags[i] == nodes[i].Idle()
    ensures Kept(nodes, flags, k) == IdleNodes(nodes[..k])
  {
    if k > 0 {
      KeptIsIdle(nodes, flags, k - 1);
      assert nodes[..k][..k - 1] == nodes[..k - 1];
    }
  }

  lemma Flags(nodes: seq<ConnNode>) returns (flags: seq<bool>)
    ensures |flags| == |nodes| && forall i :: 0 <= i < |nodes| ==> flags[i] == nodes[i].Idle()
    ensures Kept(nodes, flags, |nodes|) == IdleNodes(nodes)
  {
    flags := [];
    for m := 0 to |nodes|
      invariant |flags| == m && forall i :: 0 <= i < m ==> flags[i] == nodes[i].Idle()
    {
      flags := flags + [nodes[m].Idle()];
    }
    KeptIsIdle(nodes, flags, |nodes|);
    assert nodes[..|nodes|] == nodes;
  }

  class ConnList {
    var head: ConnNode?
    var tail: ConnNode?
    var len: nat
    var available_len: nat
    var flow_finished: nat
    ghost var nodes: seq<ConnNode>

    /** The chain of next fields from head to tail is nodes, without repetition. */
    ghost predicate Valid()
      reads this, nodes
    {
      && len == |nodes| < WORD && available_len < WORD
      && head == (if nodes == [] then null else nodes[0])
      && (nodes != [] ==> tail == nodes[|nodes| - 1])
      && (forall i, j :: 0 <= i < j < |nodes| ==> nodes[i] != nodes[j])
      && (forall i :: 0 <= i < |nodes| ==>
         nodes[i].id == i && nodes[i].next == if i + 1 < |nodes| then nodes[i + 1] else null)
    }

    lemma Walk(k: nat)
      requires Valid() && k < |nodes|
      ensures nodes[k].next == Follow(nodes, k + 1)
    {
    }

    lemma Counted()
      requires Valid()
      ensures len == |nodes| < WORD && available_len < WORD
    {
    }

    lemma Chained()
      requires Valid()
      ensures head == Follow(nodes, 0) && forall k :: 0 <= k < |nodes| ==> nodes[k].next == Follow(nodes, k + 1)
    {
    }

    /** init_conn_list */
    constructor ()
      ensures Valid() && nodes == [] && available_len == 0 && flow_finished == 0
    {
      head, tail, len, available_len, flow_finished, nodes := null, null, 0, 0, 0, [];
    }

    /** Links a connected node behind the tail and counts it. */
    method Link(new_node: ConnNode)
      requires Valid() && len + 1 < WORD
      requires new_node !in nodes && new_node.id == len && new_node.Idle() && new_node.next == null
      modifies this`head, this`tail, this`len, this`available_len, this`nodes
      modifies if nodes == [] then {} else {nodes[|nodes| - 1]}`next
      ensures Valid() && nodes == old(nodes) + [new_node] && available_len == (old(available_len) + 1) % WORD
    {
      if len == 0 {
        head := new_node;
        tail := new_node;
      } else {
        tail.next := new_node;
        tail := new_node;
      }
      len := len + 1;
      available_len := (available_len + 1) % WORD;
      nodes := nodes + [new_node];
    }

    /** Links num new nodes, or as many as can be connected when the server stops accepting; a
        count that is not positive links none.  reachable is how many connects succeed. */
    method InsertConnList(num: int, reachable: nat) returns (ok: bool)
      requires Valid() && len + (if num > 0 then num else 0) < WORD
      modifies this`head, this`tail, this`len, this`available_len, this`nodes
      modifies if nodes == [] then {} else {nodes[|nodes| - 1]}`next
      ensures Valid() && ok == (num <= reachable)
      ensures |nodes| == |old(nodes)| + (if num <= 0 then 0 else if num <= reachable then num else reachable)
      ensures old(nodes) <= nodes && forall k :: |old(nodes)| <= k < |nodes| ==> fresh(nodes[k]) && nodes[k].Idle()
      ensures available_len == (old(available_len) + |nodes| - |old(nodes)|) % WORD
    {
      hide Valid;
      Counted();
      var i: nat := 0;
      while i < num
        invariant Valid() && len == |nodes| && i <= reachable && (i <= num || i == 0)
        invariant |nodes| == |old(nodes)| + i && old(nodes) <= nodes
        invariant forall k :: |old(nodes)| <= k < |nodes| ==> fresh(nodes[k]) && nodes[k].Idle()
        invariant available_len == (old(available_len) + i) % WORD
      {
        var new_node := new ConnNode(len, i < reachable);
        if !new_node.connected {
          return false;
        }
        CountOn(old(available_len), i);
        Link(new_node);
        Counted();
        i := i + 1;
      }
      return true;
    }

    /** The first idle node in list order; none when available_len is zero, whatever the flags say. */
    method SearchConnList() returns (node: ConnNode?)
      requires Valid()
      ensures available_len == 0 ==> node == null
      ensures available_len != 0 ==> node == if IdleNodes(nodes) == [] then null else IdleNodes(nodes)[0]
    {
      if available_len == 0 { return null; }
      node := head;
      ghost var k := 0;
      while node != null && !(!node.busy && node.connected)
        invariant k <= |nodes| && node == Follow(nodes, k)
        invariant IdleNodes(nodes[..k]) == []
        decreases |nodes| - k
      {
        IdleStep(nodes, k);
        Walk(k);
        node := node.next;
        k := k + 1;
      }
      if k < |nodes| {
        IdleStep(nodes, k);
        IdlePrefix(nodes, k + 1);
      } else {
        assert nodes[..k] == nodes;
      }
    }

    /** The first num idle nodes in list order; none when num is zero, when available_len is
        below num, or when fewer nodes are idle. */
    method SearchNConnList(num: nat) returns (result: array?<ConnNode?>)
      requires Valid()
      ensures result != null <==> num != 0 && available_len >= num && |IdleNodes(nodes)| >= num
      ensures result != null ==> fresh(result) && result[..] == IdleNodes(nodes)[..num]
    {
      if available_len < num || num == 0 { return null; }
      result := new ConnNode?[num](_ => null);
      var full := Scan(result);
      if !full { return null; }
    }

    /** Walks the list and keeps the idle nodes until the array is full or the list ends. */
    method Scan(result: array<ConnNode?>) returns (full: bool)
      requires Valid() && result.Length > 0
      modifies result
      ensures full <==> |old(IdleNodes(nodes))| >= result.Length
      ensures full ==> result[..] == old(IdleNodes(nodes))[..result.Length]
    {
      hide IdleNodes, Valid, Kept;
      var i: nat := 0;
      var ptr := head;
      ghost var k, chain := 0, nodes;
      ghost var flags := Flags(chain);
      Chained();
      KeptNone(chain, flags);
      while ptr != null
        invariant k <= |chain| && ptr == Follow(chain, k)
        invariant i < result.Length && result[..i] == Kept(chain, flags, k)
        decreases |chain| - k
      {
        KeptStep(chain, flags, k);
        assert ptr == chain[k];
        i := Keep(result, i, ptr);
        k := k + 1;
        if i < result.Length {
          ptr := ptr.next;
        } else {
          KeptPrefix(chain, flags, k, |chain|);
          assert result[..] == result[..i];
          return true;
        }
      }
      return false;
    }

    method Keep(result: array<ConnNode?>, i: nat, ptr: ConnNode) returns (next: nat)
      requires i < result.Length
      modifies result
      ensures next <= result.Length &&
        result[..next] == if ptr.Idle() then old(result[..i]) + [ptr] else old(result[..i])
    {
      next := i;
      if !ptr.busy && ptr.connected {
        result[i] := ptr;
        next := i + 1;
      }
    }
  }

  /** What search_n_conn_list hands out: connections of the list, idle, no two the same. */
  lemma ResultDistinct(nodes: seq<ConnNode>, num: nat)
    requires forall i, j :: 0 <= i < j < |nodes| ==> nodes[i] != nodes[j]
    requires num <= |IdleNodes(nodes)|
    ensures forall i :: 0 <= i < num ==> IdleNodes(nodes)[..num][i] in nodes && IdleNodes(nodes)[..num][i].Idle()
    ensures forall i, j :: 0 <= i < j < num ==> IdleNodes(nodes)[..num][i] != IdleNodes(nodes)[..num][j]
  {
    IdleNodesAre(nodes);
  }
}
