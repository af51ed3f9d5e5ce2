/** Nodes of the topology: exactly one for each object drawn, and so the reverse references never leave an
    edge dangling. */
module TopologyNodes {
  import opened Prelude
  import opened Inventory
  import opened Series
  import opened Markers
  import opened Topology
  import opened TopologyGraph

  /** A node as it is drawn: its labels and its value. */
  datatype Node = Node(id: string, title: string, kind: NodeKind, state: string, value: real, chain: string)

  function InfoRow(n: Node): Row {
    TopologyNode(n.id, n.title, n.kind, n.state, n.chain)
  }

  function StateRow(n: Node): Row {
    TopologyNodeState(n.id, n.kind, n.chain)
  }

  // ---- what the nodes of the objects are ----

  /** Namespace and service, failing that namespace and ingress, failing that the host, or else the name. */
  predicate ShowsChain(mi: MarkerInfo, name: string, n: Node) {
    n.chain == if mi.namespace != "" && mi.serviceName != "" then mi.namespace + "/" + mi.serviceName
               else if mi.namespace != "" && mi.ingressName != "" then mi.namespace + "/" + mi.ingressName
               else if mi.host != "" then mi.host
               else name
  }

  predicate ShowsState(operState: string, n: Node) {
    if operState == "OPER_UP" then n.state == "UP" && n.value == 1.0
    else if operState == "OPER_PARTIAL_UP" then n.state == "PARTIAL" && n.value == 0.5
    else n.state == "DOWN" && n.value == 0.0
  }

  predicate IsVSNode(x: VSItem, n: Node) {
    && n.id == "vs:" + x.uuid && n.title == x.name && n.kind == VSNode
    && ShowsState(x.operState, n) && ShowsChain(ObjectLabels(x.markers, x.metadata), x.name, n)
  }

  predicate IsPoolNode(p: PoolItem, n: Node) {
    && n.id == "pool:" + p.uuid && n.title == p.name && n.kind == PoolNode
    && ShowsState(p.operState, n) && ShowsChain(ObjectLabels(p.markers, p.metadata), p.name, n)
  }

  /** Up if all its VIPs are and there is one, partial if some are, down if none is. */
  predicate IsVsVipNode(v: VsVipItem, n: Node) {
    && n.id == "vsvip:" + v.uuid && n.title == v.name && n.kind == VsVipNode
    && (v.runtime != [] && (forall s :: s in v.runtime ==> s == "OPER_UP") ==> n.state == "UP" && n.value == 1.0)
    && ("OPER_UP" in v.runtime && (exists s :: s in v.runtime && s != "OPER_UP") ==> n.state == "PARTIAL" && n.value == 0.5)
    && ("OPER_UP" !in v.runtime ==> n.state == "DOWN" && n.value == 0.0)
    && ShowsChain(ObjectLabels(v.markers, v.metadata), v.name, n)
  }

  /** A pool group is always shown as up; it has no metadata but its markers. */
  predicate IsGroupNode(g: PoolGroupItem, n: Node) {
    && n.id == "poolgroup:" + g.uuid && n.title == g.name && n.kind == PoolGroupNode
    && n.state == "UP" && n.value == 1.0 && ShowsChain(MarkerLabels(g.markers), g.name, n)
  }

  /** A member is up or down, and has its pool's chain. */
  predicate IsMemberNode(m: PoolMember, n: Node) {
    && n.id == "poolmember:" + m.server.address + ":" + m.server.port && n.title == m.server.address + ":" + m.server.port
    && n.kind == PoolMemberNode
    && (if m.server.operState == "OPER_UP" then n.state == "UP" && n.value == 1.0 else n.state == "DOWN" && n.value == 0.0)
    && ShowsChain(ObjectLabels(m.pool.markers, m.pool.metadata), m.pool.name, n)
  }

  /** The nodes of all objects in the order in which they are drawn. */
  ghost predicate NodesOf(nodes: seq<Node>, vsItems: seq<VSItem>, poolItems: seq<PoolItem>, vsvipItems: seq<VsVipItem>,
                          groups: seq<PoolGroupItem>, members: seq<PoolMember>) {
    var a := |vsvipItems|;
    var b := a + |vsItems|;
    var c := b + |poolItems|;
    var d := c + |groups|;
    && |nodes| == d + |members|
    && (forall i :: 0 <= i < |vsvipItems| ==> IsVsVipNode(vsvipItems[i], nodes[i]))
    && (forall i :: 0 <= i < |vsItems| ==> IsVSNode(vsItems[i], nodes[a + i]))
    && (forall i :: 0 <= i < |poolItems| ==> IsPoolNode(poolItems[i], nodes[b + i]))
    && (forall i :: 0 <= i < |groups| ==> IsGroupNode(groups[i], nodes[c + i]))
    && (forall i :: 0 <= i < |members| ==> IsMemberNode(members[i], nodes[d + i]))
  }

  /** The node rows are exactly those of these nodes; of several with the same key the last one counts. */
  ghost predicate DrawsNodes(rows: Rows, nodes: seq<Node>) {
    && (forall r :: r in rows && r.TopologyNode? ==> exists k :: 0 <= k < |nodes| && InfoRow(nodes[k]) == r)
    && (forall r :: r in rows && r.TopologyNodeState? ==> exists k :: 0 <= k < |nodes| && StateRow(nodes[k]) == r)
    && (forall k :: 0 <= k < |nodes| ==> InfoRow(nodes[k]) in rows && StateRow(nodes[k]) in rows)
    && (forall k :: 0 <= k < |nodes| && (forall j :: k < j < |nodes| ==> InfoRow(nodes[j]) != InfoRow(nodes[k])) ==>
          rows[InfoRow(nodes[k])] == nodes[k].value)
    && (forall k :: 0 <= k < |nodes| && (forall j :: k < j < |nodes| ==> StateRow(nodes[j]) != StateRow(nodes[k])) ==>
          rows[StateRow(nodes[k])] == nodes[k].value)
  }

  // ---- drawing ----

  /** The node with the state and the chain that the renderers give it. */
  function Shown(kind: NodeKind, uuid: string, title: string, state: (string, real), chain: string): Node {
    Node(NodeID(kind, uuid), title, kind, state.0, state.1, chain)
  }

  function NodeOfVsVip(v: VsVipItem): Node {
    Shown(VsVipNode, v.uuid, v.name, VsVipState(v.runtime), VsVipChain(v))
  }

  function NodeOfVS(x: VSItem): Node {
    Shown(VSNode, x.uuid, x.name, StateOf(x.operState), VSChain(x))
  }

  function NodeOfPool(p: PoolItem): Node {
    Shown(PoolNode, p.uuid, p.name, StateOf(p.operState), PoolChain(p))
  }

  function NodeOfGroup(g: PoolGroupItem): Node {
    Shown(PoolGroupNode, g.uuid, g.name, ("UP", 1.0), GroupChain(g))
  }

  function NodeOfMember(m: PoolMember): Node {
    var up := m.server.operState == "OPER_UP";
    Node(MemberID(m.server), m.server.address + ":" + m.server.port, PoolMemberNode,
         if up then "UP" else "DOWN", if up then 1.0 else 0.0, PoolChain(m.pool))
  }

  function VsVipNodes(items: seq<VsVipItem>): seq<Node> {
    if items == [] then [] else VsVipNodes(items[..|items| - 1]) + [NodeOfVsVip(items[|items| - 1])]
  }

  function VSNodes(items: seq<VSItem>): seq<Node> {
    if items == [] then [] else VSNodes(items[..|items| - 1]) + [NodeOfVS(items[|items| - 1])]
  }

  function PoolNodes(items: seq<PoolItem>): seq<Node> {
    if items == [] then [] else PoolNodes(items[..|items| - 1]) + [NodeOfPool(items[|items| - 1])]
  }

  function GroupNodes(items: seq<PoolGroupItem>): seq<Node> {
    if items == [] then [] else GroupNodes(items[..|items| - 1]) + [NodeOfGroup(items[|items| - 1])]
  }

  function MemberNodes(items: seq<PoolMember>): seq<Node> {
    if items == [] then [] else MemberNodes(items[..|items| - 1]) + [NodeOfMember(items[|items| - 1])]
  }

  /** What the last node with this row says. */
  function LastValue(nodes: seq<Node>, r: Row): Option<real> {
    if nodes == [] then None
    else
      var n := nodes[|nodes| - 1];
      if r == InfoRow(n) || r == StateRow(n) then Some(n.value) else LastValue(nodes[..|nodes| - 1], r)
  }

  predicate IsNodeRow(r: Row) {
    r.TopologyNode? || r.TopologyNodeState?
  }

  function ValueAt(rows: Rows, r: Row): Option<real> {
    if r in rows then Some(rows[r]) else None
  }

  ghost predicate Holds(rows: Rows, nodes: seq<Node>) {
    forall r :: IsNodeRow(r) ==> ValueAt(rows, r) == LastValue(nodes, r)
  }

  ghost predicate SameNodes(before: Rows, after: Rows) {
    forall r :: IsNodeRow(r) ==> ValueAt(after, r) == ValueAt(before, r)
  }

  lemma NodeAdded(rows: Rows, nodes: seq<Node>, n: Node)
    requires Holds(rows, nodes)
    ensures Holds(WithNode(rows, n.id, n.title, n.kind, (n.state, n.value), n.chain), nodes + [n])
  {
    assert (nodes + [n])[..|nodes|] == nodes;
  }

  lemma EdgeAdded(rows: Rows, source: string, target: string, chain: string)
    ensures SameNodes(rows, WithEdge(rows, source, target, chain))
  {
    hide EdgeID;
  }

  lemma SameHolds(before: Rows, after: Rows, nodes: seq<Node>)
    requires Holds(before, nodes) && SameNodes(before, after)
    ensures Holds(after, nodes)
  {
  }

  lemma {:induction false} VsVipEdgesKeep(rows: Rows, v: VsVipItem, refs: seq<VsRef>)
    ensures SameNodes(rows, VsVipEdges(rows, v, refs))
  {
    hide WithEdge, NodeID, VsVipChain, ValueAt;
    if refs != [] {
      var n := |refs| - 1;
      VsVipEdgesKeep(rows, v, refs[..n]);
      EdgeAdded(VsVipEdges(rows, v, refs[..n]), NodeID(VsVipNode, v.uuid), NodeID(VSNode, refs[n].uuid), VsVipChain(v));
    }
  }

  lemma EmitKeeps(d: Drawing, vs: string, pool: string, chain: string)
    ensures SameNodes(d.rows, EmitVSPoolEdge(d, vs, pool, chain).rows)
  {
    hide NodeID, EdgeID, WithEdge;
    EdgeAdded(d.rows, NodeID(VSNode, vs), NodeID(PoolNode, pool), chain);
  }

  lemma {:induction false} ReverseEdgesKeep(d: Drawing, pool: string, refs: seq<VsRef>,
                                           chains: map<string, string>, needs: map<string, bool>)
    ensures SameNodes(d.rows, ReverseEdges(d, pool, refs, chains, needs).rows)
  {
    hide EmitVSPoolEdge, RefTarget, ValueAt;
    if refs != [] {
      var n := |refs| - 1;
      ReverseEdgesKeep(d, pool, refs[..n], chains, needs);
      var vs := RefTarget(refs[n]);
      if vs in chains {
        EmitKeeps(ReverseEdges(d, pool, refs[..n], chains, needs), vs, pool, chains[vs]);
      }
    }
  }

  lemma {:induction false} GroupEdgesKeep(rows: Rows, g: PoolGroupItem, refs: seq<string>)
    ensures SameNodes(rows, GroupEdges(rows, g, refs))
  {
    hide WithEdge, NodeID, GroupChain, RefUUID, ValueAt;
    if refs != [] {
      var n := |refs| - 1;
      GroupEdgesKeep(rows, g, refs[..n]);
      EdgeAdded(GroupEdges(rows, g, refs[..n]), NodeID(PoolGroupNode, g.uuid), NodeID(PoolNode, RefUUID(refs[n])), GroupChain(g));
    }
  }

  lemma {:induction false} VsVipRowsHold(rows: Rows, nodes: seq<Node>, items: seq<VsVipItem>)
    requires Holds(rows, nodes)
    ensures Holds(VsVipRows(rows, items), nodes + VsVipNodes(items))
  {
    hide WithNode, NodeID, VsVipChain, VsVipState, Holds, VsVipEdges, SameNodes;
    if items == [] {
      assert nodes + VsVipNodes(items) == nodes;
    } else {
      var n := |items| - 1;
      var v := items[n];
      VsVipRowsHold(rows, nodes, items[..n]);
      var before, node := VsVipRows(rows, items[..n]), NodeOfVsVip(v);
      NodeAdded(before, nodes + VsVipNodes(items[..n]), node);
      assert nodes + VsVipNodes(items) == nodes + VsVipNodes(items[..n]) + [node];
      var drawn := WithNode(before, node.id, node.title, node.kind, (node.state, node.value), node.chain);
      VsVipEdgesKeep(drawn, v, v.virtualServices);
      SameHolds(drawn, VsVipEdges(drawn, v, v.virtualServices), nodes + VsVipNodes(items));
    }
  }

  lemma VSRowHolds(d: Drawing, nodes: seq<Node>, x: VSItem)
    requires Holds(d.rows, nodes)
    ensures Holds(VSRow(d, x).rows, nodes + [NodeOfVS(x)])
  {
    hide WithNode, WithEdge, NodeID, VSChain, StateOf, Holds, EmitVSPoolEdge, SameNodes, RefUUID;
    var node := NodeOfVS(x);
    NodeAdded(d.rows, nodes, node);
    var d1 := d.(rows := WithNode(d.rows, node.id, node.title, node.kind, (node.state, node.value), node.chain));
    EmitKeeps(d1, x.uuid, RefUUID(x.poolRef), VSChain(x));
    var d2 := EmitVSPoolEdge(d1, x.uuid, RefUUID(x.poolRef), VSChain(x));
    SameHolds(d1.rows, d2.rows, nodes + [node]);
    var target := NodeID(PoolGroupNode, RefUUID(x.poolGroupRef));
    EdgeAdded(d2.rows, node.id, target, VSChain(x));
    SameHolds(d2.rows, WithEdge(d2.rows, node.id, target, VSChain(x)), nodes + [node]);
  }

  lemma {:induction false} VSRowsHold(d: Drawing, nodes: seq<Node>, items: seq<VSItem>)
    requires Holds(d.rows, nodes)
    ensures Holds(VSRows(d, items).rows, nodes + VSNodes(items))
  {
    hide VSRow, NodeOfVS, Holds;
    if items == [] {
      assert nodes + VSNodes(items) == nodes;
    } else {
      var n := |items| - 1;
      VSRowsHold(d, nodes, items[..n]);
      VSRowHolds(VSRows(d, items[..n]), nodes + VSNodes(items[..n]), items[n]);
      var node := NodeOfVS(items[n]);
      assert nodes + VSNodes(items) == nodes + VSNodes(items[..n]) + [node];
    }
  }

  lemma {:induction false} PoolRowsHold(d: Drawing, nodes: seq<Node>, items: seq<PoolItem>,
                                        chains: map<string, string>, needs: map<string, bool>)
    requires Holds(d.rows, nodes)
    ensures Holds(PoolRows(d, items, chains, needs).rows, nodes + PoolNodes(items))
  {
    hide WithNode, NodeID, PoolChain, StateOf, Holds, SameNodes, ReverseEdges;
    if items == [] {
      assert nodes + PoolNodes(items) == nodes;
    } else {
      var n := |items| - 1;
      var p := items[n];
      PoolRowsHold(d, nodes, items[..n], chains, needs);
      var before, node := PoolRows(d, items[..n], chains, needs), NodeOfPool(p);
      NodeAdded(before.rows, nodes + PoolNodes(items[..n]), node);
      assert nodes + PoolNodes(items) == nodes + PoolNodes(items[..n]) + [node];
      var drawn := before.(rows := WithNode(before.rows, node.id, node.title, node.kind, (node.state, node.value), node.chain));
      ReverseEdgesKeep(drawn, p.uuid, p.virtualServices, chains, needs);
      SameHolds(drawn.rows, ReverseEdges(drawn, p.uuid, p.virtualServices, chains, needs).rows, nodes + PoolNodes(items));
    }
  }

  lemma {:induction false} GroupRowsHold(rows: Rows, nodes: seq<Node>, items: seq<PoolGroupItem>)
    requires Holds(rows, nodes)
    ensures Holds(GroupRows(rows, items), nodes + GroupNodes(items))
  {
    hide WithNode, NodeID, GroupChain, Holds, SameNodes, GroupEdges;
    if items == [] {
      assert nodes + GroupNodes(items) == nodes;
    } else {
      var n := |items| - 1;
      var g := items[n];
      GroupRowsHold(rows, nodes, items[..n]);
      var before, node := GroupRows(rows, items[..n]), NodeOfGroup(g);
      NodeAdded(before, nodes + GroupNodes(items[..n]), node);
      assert nodes + GroupNodes(items) == nodes + GroupNodes(items[..n]) + [node];
      var drawn := WithNode(before, node.id, node.title, node.kind, (node.state, node.value), node.chain);
      GroupEdgesKeep(drawn, g, g.memberPoolRefs);
      SameHolds(drawn, GroupEdges(drawn, g, g.memberPoolRefs), nodes + GroupNodes(items));
    }
  }

  lemma {:induction false} MemberRowsHold(rows: Rows, nodes: seq<Node>, members: seq<PoolMember>)
    requires Holds(rows, nodes)
    ensures Holds(MemberRows(rows, members), nodes + MemberNodes(members))
  {
    hide WithNode, WithEdge, NodeID, MemberID, PoolChain, Holds, SameNodes;
    if members == [] {
      assert nodes + MemberNodes(members) == nodes;
    } else {
      var n := |members| - 1;
      var m := members[n];
      MemberRowsHold(rows, nodes, members[..n]);
      var before, node := MemberRows(rows, members[..n]), NodeOfMember(m);
      NodeAdded(before, nodes + MemberNodes(members[..n]), node);
      assert nodes + MemberNodes(members) == nodes + MemberNodes(members[..n]) + [node];
      var drawn := WithNode(before, node.id, node.title, node.kind, (node.state, node.value), node.chain);
      EdgeAdded(drawn, NodeID(PoolNode, m.pool.uuid), MemberID(m.server), PoolChain(m.pool));
      SameHolds(drawn, WithEdge(drawn, NodeID(PoolNode, m.pool.uuid), MemberID(m.server), PoolChain(m.pool)), nodes + MemberNodes(members));
    }
  }

  function AllNodes(vsItems: seq<VSItem>, poolItems: seq<PoolItem>, vsvipItems: seq<VsVipItem>,
                    groups: seq<PoolGroupItem>, members: seq<PoolMember>): seq<Node> {
    VsVipNodes(vsvipItems) + VSNodes(vsItems) + PoolNodes(poolItems) + GroupNodes(groups) + MemberNodes(members)
  }

  lemma TopologyHolds(vsItems: seq<VSItem>, poolItems: seq<PoolItem>, vsvipItems: seq<VsVipItem>,
                      groups: seq<PoolGroupItem>, members: seq<PoolMember>)
    ensures Holds(TopologyRows(vsItems, poolItems, vsvipItems, groups, members),
                  AllNodes(vsItems, poolItems, vsvipItems, groups, members))
  {
    assert Holds(map[], []);
    hide Holds, VsVipRows, VSRows, PoolRows, GroupRows, MemberRows, VsVipNodes, VSNodes, PoolNodes, GroupNodes, MemberNodes,
      ChainByUUID, NeedsReverse;
    VsVipRowsHold(map[], [], vsvipItems);
    assert [] + VsVipNodes(vsvipItems) == VsVipNodes(vsvipItems);
    var d := Drawing(VsVipRows(map[], vsvipItems), {});
    VSRowsHold(d, VsVipNodes(vsvipItems), vsItems);
    PoolRowsHold(VSRows(d, vsItems), VsVipNodes(vsvipItems) + VSNodes(vsItems), poolItems, ChainByUUID(vsItems), NeedsReverse(vsItems));
    var rows := InventoryRows(map[], vsItems, poolItems, vsvipItems);
    GroupRowsHold(rows, VsVipNodes(vsvipItems) + VSNodes(vsItems) + PoolNodes(poolItems), groups);
    MemberRowsHold(GroupRows(rows, groups), VsVipNodes(vsvipItems) + VSNodes(vsItems) + PoolNodes(poolItems) + GroupNodes(groups), members);
  }

  // ---- the nodes drawn are those of the objects ----

  lemma VsVipStateIs(runtime: seq<string>)
    ensures runtime != [] && (forall s :: s in runtime ==> s == "OPER_UP") ==> VsVipState(runtime) == ("UP", 1.0)
    ensures "OPER_UP" in runtime && (exists s :: s in runtime && s != "OPER_UP") ==> VsVipState(runtime) == ("PARTIAL", 0.5)
    ensures "OPER_UP" !in runtime ==> VsVipState(runtime) == ("DOWN", 0.0)
  {
    assert runtime != [] ==> runtime[0] in runtime;
    assert forall k :: 0 <= k < |runtime| ==> runtime[k] in runtime;
  }

  lemma VsVipNodeIs(v: VsVipItem)
    ensures IsVsVipNode(v, NodeOfVsVip(v))
  {
    hide ObjectLabels, VsVipState;
    VsVipStateIs(v.runtime);
  }

  lemma VSNodeIs(x: VSItem)
    ensures IsVSNode(x, NodeOfVS(x))
  {
    hide ObjectLabels;
  }

  lemma PoolNodeIs(p: PoolItem)
    ensures IsPoolNode(p, NodeOfPool(p))
  {
    hide ObjectLabels;
  }

  lemma GroupNodeIs(g: PoolGroupItem)
    ensures IsGroupNode(g, NodeOfGroup(g))
  {
    hide MarkerLabels;
  }

  lemma MemberNodeIs(m: PoolMember)
    ensures IsMemberNode(m, NodeOfMember(m))
  {
    hide ObjectLabels;
    var s := m.server;
    assert "poolmember" + ":" + (s.address + ":" + s.port) == "poolmember:" + s.address + ":" + s.port;
  }

  lemma {:induction false} VsVipNodesAre(items: seq<VsVipItem>)
    ensures |VsVipNodes(items)| == |items| && forall i :: 0 <= i < |items| ==> IsVsVipNode(items[i], VsVipNodes(items)[i])
    ensures forall v :: v in items ==> NodeOfVsVip(v) in VsVipNodes(items)
  {
    hide IsVsVipNode, NodeID, MemberID, NodeOfVsVip;
    if items != [] {
      var n := |items| - 1;
      var v := items[n];
      assert items == items[..n] + [v];
      VsVipNodesAre(items[..n]);
      VsVipNodeIs(v);
    }
  }

  lemma {:induction false} VSNodesAre(items: seq<VSItem>)
    ensures |VSNodes(items)| == |items| && forall i :: 0 <= i < |items| ==> IsVSNode(items[i], VSNodes(items)[i])
    ensures forall x :: x in items ==> NodeOfVS(x) in VSNodes(items)
  {
    hide IsVSNode, NodeID, MemberID, NodeOfVS;
    if items != [] {
      var n := |items| - 1;
      var x := items[n];
      assert items == items[..n] + [x];
      VSNodesAre(items[..n]);
      VSNodeIs(x);
    }
  }

  lemma {:induction false} PoolNodesAre(items: seq<PoolItem>)
    ensures |PoolNodes(items)| == |items| && forall i :: 0 <= i < |items| ==> IsPoolNode(items[i], PoolNodes(items)[i])
    ensures forall p :: p in items ==> NodeOfPool(p) in PoolNodes(items)
  {
    hide IsPoolNode, NodeID, MemberID, NodeOfPool;
    if items != [] {
      var n := |items| - 1;
      var p := items[n];
      assert items == items[..n] + [p];
      PoolNodesAre(items[..n]);
      PoolNodeIs(p);
    }
  }

  lemma {:induction false} GroupNodesAre(items: seq<PoolGroupItem>)
    ensures |GroupNodes(items)| == |items| && forall i :: 0 <= i < |items| ==> IsGroupNode(items[i], GroupNodes(items)[i])
    ensures forall g :: g in items ==> NodeOfGroup(g) in GroupNodes(items)
  {
    hide IsGroupNode, NodeID, MemberID, NodeOfGroup;
    if items != [] {
      var n := |items| - 1;
      var g := items[n];
      assert items == items[..n] + [g];
      GroupNodesAre(items[..n]);
      GroupNodeIs(g);
    }
  }

  lemma {:induction false} MemberNodesAre(items: seq<PoolMember>)
    ensures |MemberNodes(items)| == |items| && forall i :: 0 <= i < |items| ==> IsMemberNode(items[i], MemberNodes(items)[i])
    ensures forall m :: m in items ==> NodeOfMember(m) in MemberNodes(items)
  {
    hide IsMemberNode, NodeID, MemberID, NodeOfMember;
    if items != [] {
      var n := |items| - 1;
      var m := items[n];
      assert items == items[..n] + [m];
      MemberNodesAre(items[..n]);
      MemberNodeIs(m);
    }
  }

  lemma AllNodesAre(vsItems: seq<VSItem>, poolItems: seq<PoolItem>, vsvipItems: seq<VsVipItem>,
                    groups: seq<PoolGroupItem>, members: seq<PoolMember>)
    ensures NodesOf(AllNodes(vsItems, poolItems, vsvipItems, groups, members), vsItems, poolItems, vsvipItems, groups, members)
  {
    hide VsVipNodes, VSNodes, PoolNodes, GroupNodes, MemberNodes, NodeOfVsVip, NodeOfVS, NodeOfPool, NodeOfGroup, NodeOfMember,
      IsVsVipNode, IsVSNode, IsPoolNode, IsGroupNode, IsMemberNode;
    VsVipNodesAre(vsvipItems);
    VSNodesAre(vsItems);
    PoolNodesAre(poolItems);
    GroupNodesAre(groups);
    MemberNodesAre(members);
  }

  lemma {:induction false} LastValueIs(nodes: seq<Node>, r: Row)
    ensures LastValue(nodes, r).Some? <==> exists k :: 0 <= k < |nodes| && (r == InfoRow(nodes[k]) || r == StateRow(nodes[k]))
    ensures forall k :: 0 <= k < |nodes| && (r == InfoRow(nodes[k]) || r == StateRow(nodes[k]))
                        && (forall j :: k < j < |nodes| ==> r != InfoRow(nodes[j]) && r != StateRow(nodes[j]))
                        ==> LastValue(nodes, r) == Some(nodes[k].value)
  {
    hide InfoRow, StateRow;
    if nodes != [] {
      var n := |nodes| - 1;
      LastValueIs(nodes[..n], r);
      assert forall k :: 0 <= k < n ==> nodes[..n][k] == nodes[k];
    }
  }

  lemma HeldIsDrawn(rows: Rows, nodes: seq<Node>)
    requires Holds(rows, nodes)
    ensures DrawsNodes(rows, nodes)
  {
    hide LastValue;
    forall r ensures LastValue(nodes, r).Some? <==> exists k :: 0 <= k < |nodes| && (r == InfoRow(nodes[k]) || r == StateRow(nodes[k])) {
      LastValueIs(nodes, r);
    }
    forall r | r in rows && r.TopologyNode? ensures exists k :: 0 <= k < |nodes| && InfoRow(nodes[k]) == r {
      assert IsNodeRow(r) && ValueAt(rows, r).Some?;
      var k :| 0 <= k < |nodes| && (r == InfoRow(nodes[k]) || r == StateRow(nodes[k]));
      assert InfoRow(nodes[k]) == r;
    }
    forall r | r in rows && r.TopologyNodeState? ensures exists k :: 0 <= k < |nodes| && StateRow(nodes[k]) == r {
      assert IsNodeRow(r) && ValueAt(rows, r).Some?;
      var k :| 0 <= k < |nodes| && (r == InfoRow(nodes[k]) || r == StateRow(nodes[k]));
      assert StateRow(nodes[k]) == r;
    }
    forall k | 0 <= k < |nodes| ensures InfoRow(nodes[k]) in rows && StateRow(nodes[k]) in rows {
      assert IsNodeRow(InfoRow(nodes[k])) && IsNodeRow(StateRow(nodes[k]));
    }
    forall k | 0 <= k < |nodes| && (forall j :: k < j < |nodes| ==> InfoRow(nodes[j]) != InfoRow(nodes[k]))
      ensures rows[InfoRow(nodes[k])] == nodes[k].value
    {
      LastValueIs(nodes, InfoRow(nodes[k]));
      assert IsNodeRow(InfoRow(nodes[k]));
    }
    forall k | 0 <= k < |nodes| && (forall j :: k < j < |nodes| ==> StateRow(nodes[j]) != StateRow(nodes[k]))
      ensures rows[StateRow(nodes[k])] == nodes[k].value
    {
      LastValueIs(nodes, StateRow(nodes[k]));
      assert IsNodeRow(StateRow(nodes[k]));
    }
  }

  /** The topology draws exactly the nodes of its VsVips, services, pools, pool groups and members. */
  lemma TopologyNodesExact(vsItems: seq<VSItem>, poolItems: seq<PoolItem>, vsvipItems: seq<VsVipItem>,
                           groups: seq<PoolGroupItem>, members: seq<PoolMember>)
    ensures exists nodes ::
              && NodesOf(nodes, vsItems, poolItems, vsvipItems, groups, members)
              && DrawsNodes(TopologyRows(vsItems, poolItems, vsvipItems, groups, members), nodes)
  {
    hide AllNodes, TopologyRows, NodesOf, DrawsNodes, Holds;
    TopologyHolds(vsItems, poolItems, vsvipItems, groups, members);
    AllNodesAre(vsItems, poolItems, vsvipItems, groups, members);
    HeldIsDrawn(TopologyRows(vsItems, poolItems, vsvipItems, groups, members),
                AllNodes(vsItems, poolItems, vsvipItems, groups, members));
  }

  // ---- edges do not dangle ----

  ghost predicate HasNode(rows: Rows, id: string) {
    exists r :: r in rows && r.TopologyNode? && r.id == id
  }

  /** Every object of the inventory is a node, and so is every member that was fetched. */
  lemma EveryItemHasItsNode(vsItems: seq<VSItem>, poolItems: seq<PoolItem>, vsvipItems: seq<VsVipItem>,
                            groups: seq<PoolGroupItem>, members: seq<PoolMember>)
    ensures var rows := TopologyRows(vsItems, poolItems, vsvipItems, groups, members);
            && (forall v :: v in vsvipItems ==> HasNode(rows, NodeID(VsVipNode, v.uuid)))
            && (forall x :: x in vsItems ==> HasNode(rows, NodeID(VSNode, x.uuid)))
            && (forall p :: p in poolItems ==> HasNode(rows, NodeID(PoolNode, p.uuid)))
            && (forall g :: g in groups ==> HasNode(rows, NodeID(PoolGroupNode, g.uuid)))
            && (forall m :: m in members ==> HasNode(rows, MemberID(m.server)))
  {
    hide TopologyRows, Holds, HasNode, NodeID, MemberID, VsVipNodes, VSNodes, PoolNodes, GroupNodes, MemberNodes,
      IsVsVipNode, IsVSNode, IsPoolNode, IsGroupNode, IsMemberNode, VsVipState, StateOf;
    var rows, nodes := TopologyRows(vsItems, poolItems, vsvipItems, groups, members), AllNodes(vsItems, poolItems, vsvipItems, groups, members);
    TopologyHolds(vsItems, poolItems, vsvipItems, groups, members);
    forall n | n in nodes ensures HasNode(rows, n.id) {
      HeldNode(rows, nodes, n);
    }
    VsVipNodesAre(vsvipItems);
    VSNodesAre(vsItems);
    PoolNodesAre(poolItems);
    GroupNodesAre(groups);
    MemberNodesAre(members);
    assert forall v :: v in vsvipItems ==> NodeOfVsVip(v) in nodes;
    assert forall x :: x in vsItems ==> NodeOfVS(x) in nodes;
    assert forall p :: p in poolItems ==> NodeOfPool(p) in nodes;
    assert forall g :: g in groups ==> NodeOfGroup(g) in nodes;
    assert forall m :: m in members ==> NodeOfMember(m) in nodes;
  }

  lemma HeldNode(rows: Rows, nodes: seq<Node>, n: Node)
    requires Holds(rows, nodes) && n in nodes
    ensures HasNode(rows, n.id)
  {
    HeldIsDrawn(rows, nodes);
    hide Holds;
    var k :| 0 <= k < |nodes| && nodes[k] == n;
    assert InfoRow(nodes[k]) in rows;
  }

  /** The edge was found through a pool's reverse reference. */
  ghost predicate ReverseDerived(vsItems: seq<VSItem>, poolItems: seq<PoolItem>, vs: string, pool: string) {
    vs != "" && pool != "" && ReverseRef(poolItems, vs, pool) && KnownWithoutForwardRef(vsItems, vs)
  }

  /** Both ends of every edge found through a reverse reference exist as nodes. */
  lemma ReverseEdgesDoNotDangle(vsItems: seq<VSItem>, poolItems: seq<PoolItem>, vsvipItems: seq<VsVipItem>,
                                groups: seq<PoolGroupItem>, members: seq<PoolMember>, vs: string, pool: string)
    requires ReverseDerived(vsItems, poolItems, vs, pool)
    ensures HasNode(TopologyRows(vsItems, poolItems, vsvipItems, groups, members), NodeID(VSNode, vs))
    ensures HasNode(TopologyRows(vsItems, poolItems, vsvipItems, groups, members), NodeID(PoolNode, pool))
  {
    hide TopologyRows, NodeID, NoForwardRef, RefTarget, HasNode, MemberID;
    EveryItemHasItsNode(vsItems, poolItems, vsvipItems, groups, members);
    var x :| x in vsItems && x.uuid == vs;
    var p :| p in poolItems && p.uuid == pool;
  }

  /** The edge of a pool group always starts at a node; that of a member ends at one, and starts at one if
      the member's pool is in the inventory. */
  lemma GroupAndMemberEdgesDoNotDangle(vsItems: seq<VSItem>, poolItems: seq<PoolItem>, vsvipItems: seq<VsVipItem>,
                                       groups: seq<PoolGroupItem>, members: seq<PoolMember>, m: PoolMember)
    requires m in members
    ensures var rows := TopologyRows(vsItems, poolItems, vsvipItems, groups, members);
            && (forall g :: g in groups ==> HasNode(rows, NodeID(PoolGroupNode, g.uuid)))
            && HasNode(rows, MemberID(m.server))
            && ((exists p :: p in poolItems && p.uuid == m.pool.uuid) ==> HasNode(rows, NodeID(PoolNode, m.pool.uuid)))
  {
    hide TopologyRows, NodeID, HasNode, MemberID;
    EveryItemHasItsNode(vsItems, poolItems, vsvipItems, groups, members);
  }
}
