/** The connection list that main opens for a server, and the state from which the protocol of
    the pool sets out. */
module PoolOpening {
  import opened Words
  import opened Connections
  import PoolProtocol
  import IncastProtocol

  /** The list as the protocol sees it, with a listener reading from every connection and no
      request on any. */
  ghost function View(nodes: seq<ConnNode>): (r: seq<PoolProtocol.Node>)
    reads nodes
    ensures |r| == |nodes|
    ensures forall k :: 0 <= k < |nodes| ==>
      r[k] == PoolProtocol.Node(nodes[k].busy, nodes[k].connected, [], PoolProtocol.Reading)
  {
    if nodes == [] then []
    else
      var last := nodes[|nodes| - 1];
      View(nodes[..|nodes| - 1]) + [PoolProtocol.Node(last.busy, last.connected, [], PoolProtocol.Reading)]
  }

  lemma IdleView(nodes: seq<ConnNode>)
    requires forall k :: 0 <= k < |nodes| ==> nodes[k].Idle()
    ensures View(nodes) == seq(|nodes|, _ => PoolProtocol.IDLE_NODE)
  {
  }

  /** Opens num connections to a server that accepts them all. */
  method OpenPool(num: nat) returns (list: ConnList)
    requires num < WORD
    ensures fresh(list) && list.Valid() && |list.nodes| == num
    ensures forall total :: PoolProtocol.Start(num, total).nodes == View(list.nodes)
    ensures forall total :: PoolProtocol.Start(num, total).available_len == list.available_len
    ensures forall total :: PoolProtocol.Start(num, total).flow_finished == list.flow_finished == 0
    ensures IncastProtocol.Opened(num).nodes == View(list.nodes) &&
      IncastProtocol.Opened(num).available_len == list.available_len
  {
    hide ConnList.Valid, View;
    list := new ConnList();
    list.Counted();
    var ok := list.InsertConnList(num, num);
    IdleView(list.nodes);
  }
}
