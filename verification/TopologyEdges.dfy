/** All edges of the topology, read off the inventory without any order: what each of the three renderers
    contributes, and nothing else. */
module TopologyEdges {
  import opened Prelude
  import opened Inventory
  import opened Series
  import opened Markers
  import opened Topology
  import opened TopologyGraph

  /** The edges that do not join a virtual service to a pool. */
  ghost function Others(rows: Rows): set<Row> {
    set r | r in rows && r.TopologyEdge? && !(Rank(r.source) == 1 && Rank(r.target) == 3)
  }

  function EdgeRow(from: NodeKind, a: string, to: NodeKind, b: string, chain: string): Row {
    TopologyEdge(EdgeID(NodeID(from, a), NodeID(to, b)), NodeID(from, a), NodeID(to, b), chain)
  }

  lemma OthersAdd(rows: Rows, from: NodeKind, a: string, to: NodeKind, b: string, chain: string)
    ensures Others(WithEdge(rows, NodeID(from, a), NodeID(to, b), chain))
            == if from == VSNode && to == PoolNode then Others(rows) else Others(rows) + {EdgeRow(from, a, to, b, chain)}
  {
    NodeIDRank(from, a);
    NodeIDRank(to, b);
    hide Rank, NodeID, EdgeID;
  }

  lemma NodeAddsNoEdge(rows: Rows, id: string, title: string, kind: NodeKind, state: (string, real), chain: string)
    ensures Others(WithNode(rows, id, title, kind, state, chain)) == Others(rows)
  {
    hide Rank;
  }

  lemma EmitAddsNone(d: Drawing, vs: string, pool: string, chain: string)
    ensures Others(EmitVSPoolEdge(d, vs, pool, chain).rows) == Others(d.rows)
  {
    hide NodeID, EdgeID, Others, WithEdge;
    OthersAdd(d.rows, VSNode, vs, PoolNode, pool, chain);
  }

  // ---- VIPs ----

  function VsVipEdgeRow(v: VsVipItem, ref: VsRef): Row {
    EdgeRow(VsVipNode, v.uuid, VSNode, ref.uuid, VsVipChain(v))
  }

  /** From each VIP to each of its virtual services. */
  function EdgesOfVsVips(items: seq<VsVipItem>): set<Row> {
    set v, ref | v in items && ref in v.virtualServices :: VsVipEdgeRow(v, ref)
  }

  lemma {:induction false} VsVipEdgesAre(rows: Rows, v: VsVipItem, refs: seq<VsRef>)
    ensures Others(VsVipEdges(rows, v, refs)) == Others(rows) + set ref | ref in refs :: VsVipEdgeRow(v, ref)
  {
    hide Others, NodeID, EdgeID, VsVipChain, WithEdge, VsVipEdgeRow;
    if refs != [] {
      var n := |refs| - 1;
      assert refs == refs[..n] + [refs[n]];
      VsVipEdgesAre(rows, v, refs[..n]);
      OthersAdd(VsVipEdges(rows, v, refs[..n]), VsVipNode, v.uuid, VSNode, refs[n].uuid, VsVipChain(v));
      VsVipEdgeIs(v, refs[n]);
      hide EdgeRow;
      assert (set ref | ref in refs :: VsVipEdgeRow(v, ref))
             == (set ref | ref in refs[..n] :: VsVipEdgeRow(v, ref)) + {VsVipEdgeRow(v, refs[n])};
    }
  }

  lemma VsVipEdgeIs(v: VsVipItem, ref: VsRef)
    ensures VsVipEdgeRow(v, ref) == EdgeRow(VsVipNode, v.uuid, VSNode, ref.uuid, VsVipChain(v))
  {
  }

  lemma {:induction false} VsVipRowsEdges(rows: Rows, items: seq<VsVipItem>)
    ensures Others(VsVipRows(rows, items)) == Others(rows) + EdgesOfVsVips(items)
  {
    hide Others, NodeID, EdgeID, VsVipChain, WithNode, VsVipEdges, VsVipEdgeRow, VsVipState;
    if items != [] {
      var n := |items| - 1;
      var v := items[n];
      assert items == items[..n] + [v];
      VsVipRowsEdges(rows, items[..n]);
      var before := VsVipRows(rows, items[..n]);
      var drawn := WithNode(before, NodeID(VsVipNode, v.uuid), v.name, VsVipNode, VsVipState(v.runtime), VsVipChain(v));
      NodeAddsNoEdge(before, NodeID(VsVipNode, v.uuid), v.name, VsVipNode, VsVipState(v.runtime), VsVipChain(v));
      VsVipEdgesAre(drawn, v, v.virtualServices);
      assert EdgesOfVsVips(items) == EdgesOfVsVips(items[..n]) + set ref | ref in v.virtualServices :: VsVipEdgeRow(v, ref);
    }
  }

  // ---- virtual services ----

  function VSGroupEdgeRow(vs: VSItem): Row {
    EdgeRow(VSNode, vs.uuid, PoolGroupNode, RefUUID(vs.poolGroupRef), VSChain(vs))
  }

  /** From each virtual service to the pool group it references. */
  function EdgesOfServices(items: seq<VSItem>): set<Row> {
    set vs | vs in items && RefUUID(vs.poolGroupRef) != "" :: VSGroupEdgeRow(vs)
  }

  lemma VSRowEdges(d: Drawing, vs: VSItem)
    ensures Others(VSRow(d, vs).rows)
            == Others(d.rows) + if RefUUID(vs.poolGroupRef) != "" then {VSGroupEdgeRow(vs)} else {}
  {
    hide Others, NodeID, EdgeID, VSChain, RefUUID, StateOf, WithNode, WithEdge, EmitVSPoolEdge;
    var id := NodeID(VSNode, vs.uuid);
    NodeAddsNoEdge(d.rows, id, vs.name, VSNode, StateOf(vs.operState), VSChain(vs));
    var d1 := d.(rows := WithNode(d.rows, id, vs.name, VSNode, StateOf(vs.operState), VSChain(vs)));
    EmitAddsNone(d1, vs.uuid, RefUUID(vs.poolRef), VSChain(vs));
    var d2 := EmitVSPoolEdge(d1, vs.uuid, RefUUID(vs.poolRef), VSChain(vs));
    OthersAdd(d2.rows, VSNode, vs.uuid, PoolGroupNode, RefUUID(vs.poolGroupRef), VSChain(vs));
  }

  lemma {:induction false} VSRowsEdges(d: Drawing, items: seq<VSItem>)
    ensures Others(VSRows(d, items).rows) == Others(d.rows) + EdgesOfServices(items)
  {
    hide Others, VSRow, VSGroupEdgeRow, RefUUID;
    if items != [] {
      var n := |items| - 1;
      assert items == items[..n] + [items[n]];
      VSRowsEdges(d, items[..n]);
      VSRowEdges(VSRows(d, items[..n]), items[n]);
      assert EdgesOfServices(items)
             == EdgesOfServices(items[..n]) + if RefUUID(items[n].poolGroupRef) != "" then {VSGroupEdgeRow(items[n])} else {};
    }
  }

  // ---- pools ----

  lemma {:induction false} ReverseEdgesAddNone(d: Drawing, pool: string, refs: seq<VsRef>,
                                              chains: map<string, string>, needs: map<string, bool>)
    ensures Others(ReverseEdges(d, pool, refs, chains, needs).rows) == Others(d.rows)
  {
    hide Others, EmitVSPoolEdge, RefTarget;
    if refs != [] {
      var n := |refs| - 1;
      ReverseEdgesAddNone(d, pool, refs[..n], chains, needs);
      var vs := RefTarget(refs[n]);
      if vs in chains {
        EmitAddsNone(ReverseEdges(d, pool, refs[..n], chains, needs), vs, pool, chains[vs]);
      }
    }
  }

  lemma {:induction false} PoolRowsAddNone(d: Drawing, items: seq<PoolItem>, chains: map<string, string>, needs: map<string, bool>)
    ensures Others(PoolRows(d, items, chains, needs).rows) == Others(d.rows)
  {
    hide Others, NodeID, PoolChain, StateOf, WithNode, ReverseEdges;
    if items != [] {
      var n := |items| - 1;
      var p := items[n];
      PoolRowsAddNone(d, items[..n], chains, needs);
      var before := PoolRows(d, items[..n], chains, needs);
      NodeAddsNoEdge(before.rows, NodeID(PoolNode, p.uuid), p.name, PoolNode, StateOf(p.operState), PoolChain(p));
      var drawn := before.(rows := WithNode(before.rows, NodeID(PoolNode, p.uuid), p.name, PoolNode, StateOf(p.operState), PoolChain(p)));
      ReverseEdgesAddNone(drawn, p.uuid, p.virtualServices, chains, needs);
    }
  }

  // ---- pool groups ----

  function GroupEdgeRow(g: PoolGroupItem, ref: string): Row {
    EdgeRow(PoolGroupNode, g.uuid, PoolNode, RefUUID(ref), GroupChain(g))
  }

  /** From each pool group to each of its member pools. */
  function EdgesOfGroups(items: seq<PoolGroupItem>): set<Row> {
    set g, ref | g in items && ref in g.memberPoolRefs && RefUUID(ref) != "" :: GroupEdgeRow(g, ref)
  }

  lemma {:induction false} GroupEdgesAre(rows: Rows, g: PoolGroupItem, refs: seq<string>)
    ensures Others(GroupEdges(rows, g, refs)) == Others(rows) + set ref | ref in refs && RefUUID(ref) != "" :: GroupEdgeRow(g, ref)
  {
    hide Others, NodeID, EdgeID, GroupChain, WithEdge, GroupEdgeRow, RefUUID;
    if refs != [] {
      var n := |refs| - 1;
      assert refs == refs[..n] + [refs[n]];
      GroupEdgesAre(rows, g, refs[..n]);
      OthersAdd(GroupEdges(rows, g, refs[..n]), PoolGroupNode, g.uuid, PoolNode, RefUUID(refs[n]), GroupChain(g));
      GroupEdgeIs(g, refs[n]);
      hide EdgeRow;
      assert (set ref | ref in refs && RefUUID(ref) != "" :: GroupEdgeRow(g, ref))
             == (set ref | ref in refs[..n] && RefUUID(ref) != "" :: GroupEdgeRow(g, ref))
                + if RefUUID(refs[n]) != "" then {GroupEdgeRow(g, refs[n])} else {};
    }
  }

  lemma GroupEdgeIs(g: PoolGroupItem, ref: string)
    ensures GroupEdgeRow(g, ref) == EdgeRow(PoolGroupNode, g.uuid, PoolNode, RefUUID(ref), GroupChain(g))
  {
  }

  lemma {:induction false} GroupRowsEdges(rows: Rows, items: seq<PoolGroupItem>)
    ensures Others(GroupRows(rows, items)) == Others(rows) + EdgesOfGroups(items)
  {
    hide Others, NodeID, GroupChain, WithNode, GroupEdges, GroupEdgeRow, RefUUID;
    if items != [] {
      var n := |items| - 1;
      var g := items[n];
      assert items == items[..n] + [g];
      GroupRowsEdges(rows, items[..n]);
      var before := GroupRows(rows, items[..n]);
      NodeAddsNoEdge(before, NodeID(PoolGroupNode, g.uuid), g.name, PoolGroupNode, ("UP", 1.0), GroupChain(g));
      var drawn := WithNode(before, NodeID(PoolGroupNode, g.uuid), g.name, PoolGroupNode, ("UP", 1.0), GroupChain(g));
      GroupEdgesAre(drawn, g, g.memberPoolRefs);
      assert EdgesOfGroups(items)
             == EdgesOfGroups(items[..n]) + set ref | ref in g.memberPoolRefs && RefUUID(ref) != "" :: GroupEdgeRow(g, ref);
    }
  }

  // ---- members ----

  function MemberEdgeRow(m: PoolMember): Row {
    TopologyEdge(EdgeID(NodeID(PoolNode, m.pool.uuid), MemberID(m.server)), NodeID(PoolNode, m.pool.uuid), MemberID(m.server),
                 PoolChain(m.pool))
  }

  /** From each member's pool to the member. */
  function EdgesOfMembers(members: seq<PoolMember>): set<Row> {
    set m | m in members :: MemberEdgeRow(m)
  }

  lemma {:induction false} MemberRowsEdges(rows: Rows, members: seq<PoolMember>)
    ensures Others(MemberRows(rows, members)) == Others(rows) + EdgesOfMembers(members)
    ensures VSPoolEdges(MemberRows(rows, members)) == VSPoolEdges(rows)
  {
    hide Others, VSPoolEdges, NodeID, EdgeID, PoolChain, WithNode, WithEdge;
    if members != [] {
      var n := |members| - 1;
      var m := members[n];
      assert members == members[..n] + [m];
      MemberRowsEdges(rows, members[..n]);
      var state := if m.server.operState == "OPER_UP" then ("UP", 1.0) else ("DOWN", 0.0);
      var title := m.server.address + ":" + m.server.port;
      var before := MemberRows(rows, members[..n]);
      var drawn := WithNode(before, MemberID(m.server), title, PoolMemberNode, state, PoolChain(m.pool));
      NodeAddsNoEdge(before, MemberID(m.server), title, PoolMemberNode, state, PoolChain(m.pool));
      NodeDrawsNothing(before, MemberID(m.server), title, PoolMemberNode, state, PoolChain(m.pool));
      OthersAdd(drawn, PoolNode, m.pool.uuid, PoolMemberNode, title, PoolChain(m.pool));
      VSPoolEdgesAdd(drawn, PoolNode, m.pool.uuid, PoolMemberNode, title, PoolChain(m.pool));
      assert EdgesOfMembers(members) == EdgesOfMembers(members[..n]) + {MemberEdgeRow(m)};
    }
  }

  lemma {:induction false} GroupEdgesDrawNothing(rows: Rows, g: PoolGroupItem, refs: seq<string>)
    ensures VSPoolEdges(GroupEdges(rows, g, refs)) == VSPoolEdges(rows)
  {
    hide VSPoolEdges, NodeID, EdgeID, GroupChain, WithEdge, RefUUID;
    if refs != [] {
      var n := |refs| - 1;
      GroupEdgesDrawNothing(rows, g, refs[..n]);
      VSPoolEdgesAdd(GroupEdges(rows, g, refs[..n]), PoolGroupNode, g.uuid, PoolNode, RefUUID(refs[n]), GroupChain(g));
    }
  }

  lemma {:induction false} GroupRowsDrawNothing(rows: Rows, items: seq<PoolGroupItem>)
    ensures VSPoolEdges(GroupRows(rows, items)) == VSPoolEdges(rows)
  {
    hide VSPoolEdges, NodeID, GroupChain, WithNode, GroupEdges;
    if items != [] {
      var n := |items| - 1;
      var g := items[n];
      GroupRowsDrawNothing(rows, items[..n]);
      var before := GroupRows(rows, items[..n]);
      NodeDrawsNothing(before, NodeID(PoolGroupNode, g.uuid), g.name, PoolGroupNode, ("UP", 1.0), GroupChain(g));
      var drawn := WithNode(before, NodeID(PoolGroupNode, g.uuid), g.name, PoolGroupNode, ("UP", 1.0), GroupChain(g));
      GroupEdgesDrawNothing(drawn, g, g.memberPoolRefs);
    }
  }

  lemma InventoryEdges(vsItems: seq<VSItem>, poolItems: seq<PoolItem>, vsvipItems: seq<VsVipItem>)
    ensures Others(InventoryRows(map[], vsItems, poolItems, vsvipItems)) == EdgesOfVsVips(vsvipItems) + EdgesOfServices(vsItems)
  {
    assert Others(map[]) == {};
    hide Others, VsVipRows, VSRows, PoolRows, EdgesOfVsVips, EdgesOfServices, ChainByUUID, NeedsReverse;
    VsVipRowsEdges(map[], vsvipItems);
    var d := Drawing(VsVipRows(map[], vsvipItems), {});
    VSRowsEdges(d, vsItems);
    PoolRowsAddNone(VSRows(d, vsItems), poolItems, ChainByUUID(vsItems), NeedsReverse(vsItems));
  }

  /** The edges of a tenant's topology are exactly: from each VIP to its virtual services, from each
      service to its pool group, from each pool group to its member pools, from each pool to its members,
      and the edges between services and pools that the inventory calls for. */
  lemma TopologyEdgesExact(vsItems: seq<VSItem>, poolItems: seq<PoolItem>, vsvipItems: seq<VsVipItem>,
                           groups: seq<PoolGroupItem>, members: seq<PoolMember>, r: Row)
    requires r.TopologyEdge?
    ensures r in TopologyRows(vsItems, poolItems, vsvipItems, groups, members)
            <==> || r in EdgesOfVsVips(vsvipItems)
                 || r in EdgesOfServices(vsItems)
                 || r in EdgesOfGroups(groups)
                 || r in EdgesOfMembers(members)
                 || r in VSPoolEdges(InventoryRows(map[], vsItems, poolItems, vsvipItems))
    ensures UniqueUUIDs(vsItems) && DistinctIDs(vsItems, poolItems) ==>
              (r in TopologyRows(vsItems, poolItems, vsvipItems, groups, members)
               <==> || r in EdgesOfVsVips(vsvipItems)
                    || r in EdgesOfServices(vsItems)
                    || r in EdgesOfGroups(groups)
                    || r in EdgesOfMembers(members)
                    || CalledEdge(vsItems, poolItems, r))
  {
    hide UniqueUUIDs, DistinctIDs, CalledEdge;
    if UniqueUUIDs(vsItems) {
      VSPoolEdgesExact(vsItems, poolItems, vsvipItems);
    }
    var drawn := InventoryRows(map[], vsItems, poolItems, vsvipItems);
    var rows := TopologyRows(vsItems, poolItems, vsvipItems, groups, members);
    EdgeSplit(rows, r);
    hide InventoryRows, GroupRows, MemberRows, Others, VSPoolEdges, EdgesOfVsVips, EdgesOfServices, EdgesOfGroups, EdgesOfMembers;
    InventoryEdges(vsItems, poolItems, vsvipItems);
    GroupRowsEdges(drawn, groups);
    GroupRowsDrawNothing(drawn, groups);
    MemberRowsEdges(GroupRows(drawn, groups), members);
  }

  lemma EdgeSplit(rows: Rows, r: Row)
    requires r.TopologyEdge?
    ensures r in rows <==> r in Others(rows) || r in VSPoolEdges(rows)
  {
    hide Rank;
  }
}
