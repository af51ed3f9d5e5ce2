/** What the drawn graph looks like: edges strictly climb in rank, and the edges between virtual services
    and pools are the ones the inventory calls for, all of them exactly if no two of their ids collide. */
module TopologyGraph {
  import opened Prelude
  import opened Inventory
  import opened Markers
  import opened Series
  import opened Topology

  // ---- ranks ----

  /** The rank a node id shows by its prefix. */
  function Rank(id: string): nat {
    match id[..IndexOf(id, ':')]
    case "vsvip" => 0
    case "vs" => 1
    case "poolgroup" => 2
    case "pool" => 3
    case "poolmember" => 4
    case _ => 0
  }

  function KindRank(kind: NodeKind): nat {
    match kind
    case VsVipNode => 0
    case VSNode => 1
    case PoolGroupNode => 2
    case PoolNode => 3
    case PoolMemberNode => 4
  }

  lemma NodeIDRank(kind: NodeKind, uuid: string)
    ensures NodeID(kind, uuid)[..IndexOf(NodeID(kind, uuid), ':')] == Prefix(kind)
    ensures Rank(NodeID(kind, uuid)) == KindRank(kind)
  {
    var id := NodeID(kind, uuid);
    var p := Prefix(kind);
    assert id[|p|] == ':' && id[..|p|] == p;
    forall k | 0 <= k < |p| ensures id[k] != ':' {
      assert id[k] == p[k];
    }
    assert IndexOf(id, ':') == |p|;
  }

  ghost predicate Ranked(rows: Rows) {
    forall r :: r in rows && r.TopologyEdge? ==> Rank(r.source) < Rank(r.target)
  }

  lemma RankedEdge(rows: Rows, from: NodeKind, a: string, to: NodeKind, b: string, chain: string)
    requires Ranked(rows) && KindRank(from) < KindRank(to)
    ensures Ranked(WithEdge(rows, NodeID(from, a), NodeID(to, b), chain))
  {
    NodeIDRank(from, a);
    NodeIDRank(to, b);
  }

  lemma NodeRanked(rows: Rows, id: string, title: string, kind: NodeKind, state: (string, real), chain: string)
    requires Ranked(rows)
    ensures Ranked(WithNode(rows, id, title, kind, state, chain))
  {
    hide Rank;
  }

  lemma {:induction false} VsVipEdgesRanked(rows: Rows, v: VsVipItem, refs: seq<VsRef>)
    requires Ranked(rows)
    ensures Ranked(VsVipEdges(rows, v, refs))
  {
    hide Ranked, NodeID, VsVipChain, WithEdge;
    if refs != [] {
      var n := |refs| - 1;
      VsVipEdgesRanked(rows, v, refs[..n]);
      RankedEdge(VsVipEdges(rows, v, refs[..n]), VsVipNode, v.uuid, VSNode, refs[n].uuid, VsVipChain(v));
    }
  }

  lemma {:induction false} VsVipRowsRanked(rows: Rows, items: seq<VsVipItem>)
    requires Ranked(rows)
    ensures Ranked(VsVipRows(rows, items))
  {
    hide Ranked, NodeID, VsVipChain, VsVipState, WithNode, VsVipEdges;
    if items != [] {
      var n := |items| - 1;
      var v := items[n];
      VsVipRowsRanked(rows, items[..n]);
      NodeRanked(VsVipRows(rows, items[..n]), NodeID(VsVipNode, v.uuid), v.name, VsVipNode, VsVipState(v.runtime), VsVipChain(v));
      VsVipEdgesRanked(
        WithNode(VsVipRows(rows, items[..n]), NodeID(VsVipNode, v.uuid), v.name, VsVipNode, VsVipState(v.runtime), VsVipChain(v)),
        v, v.virtualServices);
    }
  }

  lemma EmitRanked(d: Drawing, vs: string, pool: string, chain: string)
    requires Ranked(d.rows)
    ensures Ranked(EmitVSPoolEdge(d, vs, pool, chain).rows)
  {
    hide Ranked, NodeID, EdgeID, WithEdge;
    RankedEdge(d.rows, VSNode, vs, PoolNode, pool, chain);
  }

  lemma VSRowRanked(d: Drawing, vs: VSItem)
    requires Ranked(d.rows)
    ensures Ranked(VSRow(d, vs).rows)
  {
    hide Ranked, NodeID, VSChain, RefUUID, StateOf, WithNode, WithEdge, EmitVSPoolEdge;
    var id, group := NodeID(VSNode, vs.uuid), RefUUID(vs.poolGroupRef);
    var d1 := d.(rows := WithNode(d.rows, id, vs.name, VSNode, StateOf(vs.operState), VSChain(vs)));
    NodeRanked(d.rows, id, vs.name, VSNode, StateOf(vs.operState), VSChain(vs));
    EmitRanked(d1, vs.uuid, RefUUID(vs.poolRef), VSChain(vs));
    RankedEdge(EmitVSPoolEdge(d1, vs.uuid, RefUUID(vs.poolRef), VSChain(vs)).rows,
               VSNode, vs.uuid, PoolGroupNode, group, VSChain(vs));
  }

  lemma {:induction false} VSRowsRanked(d: Drawing, items: seq<VSItem>)
    requires Ranked(d.rows)
    ensures Ranked(VSRows(d, items).rows)
  {
    hide Ranked, VSRow;
    if items != [] {
      var n := |items| - 1;
      VSRowsRanked(d, items[..n]);
      VSRowRanked(VSRows(d, items[..n]), items[n]);
    }
  }

  lemma {:induction false} ReverseEdgesRanked(d: Drawing, pool: string, refs: seq<VsRef>,
                                              chains: map<string, string>, needs: map<string, bool>)
    requires Ranked(d.rows)
    ensures Ranked(ReverseEdges(d, pool, refs, chains, needs).rows)
  {
    hide Ranked, RefTarget, EmitVSPoolEdge;
    if refs != [] {
      var n := |refs| - 1;
      var vs := RefTarget(refs[n]);
      ReverseEdgesRanked(d, pool, refs[..n], chains, needs);
      if vs in chains {
        EmitRanked(ReverseEdges(d, pool, refs[..n], chains, needs), vs, pool, chains[vs]);
      }
    }
  }

  lemma {:induction false} PoolRowsRanked(d: Drawing, items: seq<PoolItem>,
                                          chains: map<string, string>, needs: map<string, bool>)
    requires Ranked(d.rows)
    ensures Ranked(PoolRows(d, items, chains, needs).rows)
  {
    hide Ranked, NodeID, PoolChain, StateOf, WithNode, ReverseEdges;
    if items != [] {
      var n := |items| - 1;
      var p := items[n];
      PoolRowsRanked(d, items[..n], chains, needs);
      var before := PoolRows(d, items[..n], chains, needs);
      NodeRanked(before.rows, NodeID(PoolNode, p.uuid), p.name, PoolNode, StateOf(p.operState), PoolChain(p));
      ReverseEdgesRanked(
        before.(rows := WithNode(before.rows, NodeID(PoolNode, p.uuid), p.name, PoolNode, StateOf(p.operState), PoolChain(p))),
        p.uuid, p.virtualServices, chains, needs);
    }
  }

  lemma {:induction false} GroupEdgesRanked(rows: Rows, g: PoolGroupItem, refs: seq<string>)
    requires Ranked(rows)
    ensures Ranked(GroupEdges(rows, g, refs))
  {
    hide Ranked, NodeID, GroupChain, RefUUID, WithEdge;
    if refs != [] {
      var n := |refs| - 1;
      GroupEdgesRanked(rows, g, refs[..n]);
      RankedEdge(GroupEdges(rows, g, refs[..n]), PoolGroupNode, g.uuid, PoolNode, RefUUID(refs[n]), GroupChain(g));
    }
  }

  lemma {:induction false} GroupRowsRanked(rows: Rows, items: seq<PoolGroupItem>)
    requires Ranked(rows)
    ensures Ranked(GroupRows(rows, items))
  {
    hide Ranked, NodeID, GroupChain, WithNode, GroupEdges;
    if items != [] {
      var n := |items| - 1;
      var g := items[n];
      GroupRowsRanked(rows, items[..n]);
      NodeRanked(GroupRows(rows, items[..n]), NodeID(PoolGroupNode, g.uuid), g.name, PoolGroupNode, ("UP", 1.0), GroupChain(g));
      GroupEdgesRanked(
        WithNode(GroupRows(rows, items[..n]), NodeID(PoolGroupNode, g.uuid), g.name, PoolGroupNode, ("UP", 1.0), GroupChain(g)),
        g, g.memberPoolRefs);
    }
  }

  lemma {:induction false} MemberRowsRanked(rows: Rows, members: seq<PoolMember>)
    requires Ranked(rows)
    ensures Ranked(MemberRows(rows, members))
  {
    hide Ranked, NodeID, PoolChain, WithNode, WithEdge;
    if members != [] {
      var n := |members| - 1;
      var m := members[n];
      var state := if m.server.operState == "OPER_UP" then ("UP", 1.0) else ("DOWN", 0.0);
      var title := m.server.address + ":" + m.server.port;
      MemberRowsRanked(rows, members[..n]);
      NodeRanked(MemberRows(rows, members[..n]), MemberID(m.server), title, PoolMemberNode, state, PoolChain(m.pool));
      RankedEdge(WithNode(MemberRows(rows, members[..n]), MemberID(m.server), title, PoolMemberNode, state, PoolChain(m.pool)),
                 PoolNode, m.pool.uuid, PoolMemberNode, title, PoolChain(m.pool));
    }
  }

  lemma EmptyRanked()
    ensures Ranked(map[])
  {
  }

  /** Every edge any renderer draws climbs strictly in the order
      vsvip, virtual service, pool group, pool, pool member. */
  lemma TopologyRanked(vsItems: seq<VSItem>, poolItems: seq<PoolItem>, vsvipItems: seq<VsVipItem>,
                       groups: seq<PoolGroupItem>, members: seq<PoolMember>)
    ensures Ranked(TopologyRows(vsItems, poolItems, vsvipItems, groups, members))
  {
    hide Ranked, VsVipRows, VSRows, PoolRows, GroupRows, MemberRows;
    assert Ranked(map[]) by { EmptyRanked(); }
    VsVipRowsRanked(map[], vsvipItems);
    VSRowsRanked(Drawing(VsVipRows(map[], vsvipItems), {}), vsItems);
    PoolRowsRanked(VSRows(Drawing(VsVipRows(map[], vsvipItems), {}), vsItems),
                   poolItems, ChainByUUID(vsItems), NeedsReverse(vsItems));
    GroupRowsRanked(InventoryRows(map[], vsItems, poolItems, vsvipItems), groups);
    MemberRowsRanked(GroupRows(InventoryRows(map[], vsItems, poolItems, vsvipItems), groups), members);
  }

  /** Consecutive edges of a graph, each starting where the one before ends. */
  ghost predicate Path(rows: Rows, path: seq<Row>) {
    && (forall i :: 0 <= i < |path| ==> path[i] in rows && path[i].TopologyEdge?)
    && (forall i :: 0 <= i < |path| - 1 ==> path[i].target == path[i + 1].source)
  }

  lemma {:induction false} PathClimbs(rows: Rows, path: seq<Row>)
    requires Ranked(rows) && Path(rows, path) && path != []
    ensures Rank(path[|path| - 1].target) >= Rank(path[0].source) + |path|
  {
    if |path| > 1 {
      PathClimbs(rows, path[..|path| - 1]);
    }
  }

  /** In any ranked graph no path has more than four edges and none returns to its start. */
  lemma GraphIsShallowAndAcyclic(rows: Rows, path: seq<Row>)
    requires Ranked(rows) && Path(rows, path) && path != []
    ensures |path| <= 4
    ensures path[|path| - 1].target != path[0].source
  {
    PathClimbs(rows, path);
  }

  // ---- edges between virtual services and pools ----

  /** One call of the edge emitter. */
  datatype Attempt = Attempt(vs: string, pool: string, chain: string)

  function AttemptID(a: Attempt): string {
    EdgeID(NodeID(VSNode, a.vs), NodeID(PoolNode, a.pool))
  }

  function AttemptEdge(a: Attempt): Row {
    TopologyEdge(AttemptID(a), NodeID(VSNode, a.vs), NodeID(PoolNode, a.pool), a.chain)
  }

  predicate Emits(a: Attempt) {
    a.vs != "" && a.pool != ""
  }

  function DirectAttempts(items: seq<VSItem>): set<Attempt> {
    if items == [] then {}
    else
      var n := |items| - 1;
      DirectAttempts(items[..n]) + {Attempt(items[n].uuid, RefUUID(items[n].poolRef), VSChain(items[n]))}
  }

  function RefAttempts(pool: string, refs: seq<VsRef>, chains: map<string, string>, needs: map<string, bool>): set<Attempt> {
    if refs == [] then {}
    else
      var n := |refs| - 1;
      var vs := RefTarget(refs[n]);
      RefAttempts(pool, refs[..n], chains, needs)
      + if vs in chains && vs in needs && needs[vs] then {Attempt(vs, pool, chains[vs])} else {}
  }

  function ReverseAttempts(items: seq<PoolItem>, chains: map<string, string>, needs: map<string, bool>): set<Attempt> {
    if items == [] then {}
    else
      var n := |items| - 1;
      ReverseAttempts(items[..n], chains, needs) + RefAttempts(items[n].uuid, items[n].virtualServices, chains, needs)
  }

  /** The edges in the drawing that join a virtual service to a pool. */
  ghost function VSPoolEdges(rows: Rows): set<Row> {
    set r | r in rows && r.TopologyEdge? && Rank(r.source) == 1 && Rank(r.target) == 3
  }

  /** Exactly the first attempt of each id was drawn. */
  ghost predicate Drawn(edges: set<Row>, emitted: set<string>, attempts: set<Attempt>) {
    && (forall a :: a in attempts && Emits(a) ==> AttemptID(a) in emitted)
    && (forall id :: id in emitted ==> exists r :: r in edges && r.TopologyEdge? && r.id == id)
    && (forall r :: r in edges ==> exists a :: a in attempts && Emits(a) && r == AttemptEdge(a))
    && (forall r1, r2 :: r1 in edges && r2 in edges && r1.TopologyEdge? && r2.TopologyEdge? && r1.id == r2.id ==> r1 == r2)
  }

  lemma VSPoolEdgesAdd(rows: Rows, from: NodeKind, a: string, to: NodeKind, b: string, chain: string)
    ensures var s, t := NodeID(from, a), NodeID(to, b);
            VSPoolEdges(WithEdge(rows, s, t, chain))
            == if from == VSNode && to == PoolNode then VSPoolEdges(rows) + {TopologyEdge(EdgeID(s, t), s, t, chain)}
               else VSPoolEdges(rows)
  {
    NodeIDRank(from, a);
    NodeIDRank(to, b);
  }

  lemma AddDrawn(edges: set<Row>, emitted: set<string>, attempts: set<Attempt>, a: Attempt)
    requires Drawn(edges, emitted, attempts) && Emits(a) && AttemptID(a) !in emitted
    ensures Drawn(edges + {AttemptEdge(a)}, emitted + {AttemptID(a)}, attempts + {a})
  {
    hide AttemptID;
    assert AttemptEdge(a) in edges + {AttemptEdge(a)};
  }

  lemma SkipDrawn(edges: set<Row>, emitted: set<string>, attempts: set<Attempt>, a: Attempt)
    requires Drawn(edges, emitted, attempts) && (Emits(a) ==> AttemptID(a) in emitted)
    ensures Drawn(edges, emitted, attempts + {a})
  {
    hide AttemptID, AttemptEdge;
  }

  lemma EmitDraws(d: Drawing, attempts: set<Attempt>, a: Attempt)
    requires Drawn(VSPoolEdges(d.rows), d.emitted, attempts)
    ensures var d' := EmitVSPoolEdge(d, a.vs, a.pool, a.chain);
            Drawn(VSPoolEdges(d'.rows), d'.emitted, attempts + {a})
  {
    hide Drawn, NodeID, EdgeID, WithEdge, VSPoolEdges;
    if Emits(a) && AttemptID(a) !in d.emitted {
      VSPoolEdgesAdd(d.rows, VSNode, a.vs, PoolNode, a.pool, a.chain);
      AddDrawn(VSPoolEdges(d.rows), d.emitted, attempts, a);
    } else {
      SkipDrawn(VSPoolEdges(d.rows), d.emitted, attempts, a);
    }
  }

  lemma NodeDrawsNothing(rows: Rows, id: string, title: string, kind: NodeKind, state: (string, real), chain: string)
    ensures VSPoolEdges(WithNode(rows, id, title, kind, state, chain)) == VSPoolEdges(rows)
  {
    hide Rank;
  }

  lemma VSRowDraws(d: Drawing, attempts: set<Attempt>, vs: VSItem)
    requires Drawn(VSPoolEdges(d.rows), d.emitted, attempts)
    ensures var d' := VSRow(d, vs);
            Drawn(VSPoolEdges(d'.rows), d'.emitted, attempts + {Attempt(vs.uuid, RefUUID(vs.poolRef), VSChain(vs))})
  {
    hide Drawn, VSChain, RefUUID, NodeID, EdgeID, Rank, StateOf, WithNode, WithEdge, EmitVSPoolEdge, VSPoolEdges;
    var id := NodeID(VSNode, vs.uuid);
    var d1 := d.(rows := WithNode(d.rows, id, vs.name, VSNode, StateOf(vs.operState), VSChain(vs)));
    NodeDrawsNothing(d.rows, id, vs.name, VSNode, StateOf(vs.operState), VSChain(vs));
    var a := Attempt(vs.uuid, RefUUID(vs.poolRef), VSChain(vs));
    EmitDraws(d1, attempts, a);
    var d2 := EmitVSPoolEdge(d1, a.vs, a.pool, a.chain);
    VSPoolEdgesAdd(d2.rows, VSNode, vs.uuid, PoolGroupNode, RefUUID(vs.poolGroupRef), VSChain(vs));
  }

  lemma {:induction false} VSRowsDraw(d: Drawing, items: seq<VSItem>)
    requires VSPoolEdges(d.rows) == {} && d.emitted == {}
    ensures var d' := VSRows(d, items); Drawn(VSPoolEdges(d'.rows), d'.emitted, DirectAttempts(items))
  {
    hide VSRow, VSChain, RefUUID, VSPoolEdges;
    if items != [] {
      var n := |items| - 1;
      VSRowsDraw(d, items[..n]);
      VSRowDraws(VSRows(d, items[..n]), DirectAttempts(items[..n]), items[n]);
    }
  }

  lemma {:induction false} ReverseEdgesDraw(d: Drawing, attempts: set<Attempt>, pool: string, refs: seq<VsRef>,
                                            chains: map<string, string>, needs: map<string, bool>)
    requires Drawn(VSPoolEdges(d.rows), d.emitted, attempts)
    ensures var d' := ReverseEdges(d, pool, refs, chains, needs);
            Drawn(VSPoolEdges(d'.rows), d'.emitted, attempts + RefAttempts(pool, refs, chains, needs))
  {
    hide Drawn, VSPoolEdges, EmitVSPoolEdge, RefTarget;
    if refs == [] {
      assert attempts + RefAttempts(pool, refs, chains, needs) == attempts;
    } else {
      var n := |refs| - 1;
      var vs := RefTarget(refs[n]);
      ReverseEdgesDraw(d, attempts, pool, refs[..n], chains, needs);
      var before := attempts + RefAttempts(pool, refs[..n], chains, needs);
      if vs in chains && vs in needs && needs[vs] {
        var a := Attempt(vs, pool, chains[vs]);
        EmitDraws(ReverseEdges(d, pool, refs[..n], chains, needs), before, a);
        assert before + {a} == attempts + RefAttempts(pool, refs, chains, needs);
      } else {
        assert before == attempts + RefAttempts(pool, refs, chains, needs);
      }
    }
  }

  lemma {:induction false} PoolRowsDraw(d: Drawing, attempts: set<Attempt>, items: seq<PoolItem>,
                                        chains: map<string, string>, needs: map<string, bool>)
    requires Drawn(VSPoolEdges(d.rows), d.emitted, attempts)
    ensures var d' := PoolRows(d, items, chains, needs);
            Drawn(VSPoolEdges(d'.rows), d'.emitted, attempts + ReverseAttempts(items, chains, needs))
  {
    hide Drawn, VSPoolEdges, WithNode, ReverseEdges, NodeID, StateOf, PoolChain, RefAttempts;
    if items == [] {
      assert attempts + ReverseAttempts(items, chains, needs) == attempts;
    } else {
      var n := |items| - 1;
      var p := items[n];
      PoolRowsDraw(d, attempts, items[..n], chains, needs);
      var before := PoolRows(d, items[..n], chains, needs);
      var d1 := before.(rows := WithNode(before.rows, NodeID(PoolNode, p.uuid), p.name, PoolNode, StateOf(p.operState), PoolChain(p)));
      NodeDrawsNothing(before.rows, NodeID(PoolNode, p.uuid), p.name, PoolNode, StateOf(p.operState), PoolChain(p));
      ReverseEdgesDraw(d1, attempts + ReverseAttempts(items[..n], chains, needs), p.uuid, p.virtualServices, chains, needs);
      assert attempts + ReverseAttempts(items[..n], chains, needs) + RefAttempts(p.uuid, p.virtualServices, chains, needs)
          == attempts + ReverseAttempts(items, chains, needs);
    }
  }

  lemma {:induction false} VsVipEdgesDrawNothing(rows: Rows, v: VsVipItem, refs: seq<VsRef>)
    ensures VSPoolEdges(VsVipEdges(rows, v, refs)) == VSPoolEdges(rows)
  {
    hide VSPoolEdges, WithEdge, NodeID, VsVipChain;
    if refs != [] {
      var n := |refs| - 1;
      VsVipEdgesDrawNothing(rows, v, refs[..n]);
      VSPoolEdgesAdd(VsVipEdges(rows, v, refs[..n]), VsVipNode, v.uuid, VSNode, refs[n].uuid, VsVipChain(v));
    }
  }

  lemma {:induction false} VsVipRowsDrawNothing(rows: Rows, items: seq<VsVipItem>)
    ensures VSPoolEdges(VsVipRows(rows, items)) == VSPoolEdges(rows)
  {
    hide VSPoolEdges, WithNode, VsVipEdges, NodeID, VsVipState, VsVipChain;
    if items != [] {
      var n := |items| - 1;
      var v := items[n];
      VsVipRowsDrawNothing(rows, items[..n]);
      var before, id := VsVipRows(rows, items[..n]), NodeID(VsVipNode, v.uuid);
      var drawn := WithNode(before, id, v.name, VsVipNode, VsVipState(v.runtime), VsVipChain(v));
      NodeDrawsNothing(before, id, v.name, VsVipNode, VsVipState(v.runtime), VsVipChain(v));
      VsVipEdgesDrawNothing(drawn, v, v.virtualServices);
    }
  }

  function Attempts(vsItems: seq<VSItem>, poolItems: seq<PoolItem>): set<Attempt> {
    DirectAttempts(vsItems) + ReverseAttempts(poolItems, ChainByUUID(vsItems), NeedsReverse(vsItems))
  }

  // What the inventory calls for, read off without any order.

  ghost predicate DirectRef(vsItems: seq<VSItem>, vs: string, pool: string) {
    exists x :: x in vsItems && x.uuid == vs && RefUUID(x.poolRef) == pool
  }

  ghost predicate ReverseRef(poolItems: seq<PoolItem>, vs: string, pool: string) {
    exists p, ref :: p in poolItems && p.uuid == pool && ref in p.virtualServices && RefTarget(ref) == vs
  }

  ghost predicate KnownWithoutForwardRef(vsItems: seq<VSItem>, vs: string) {
    exists x :: x in vsItems && x.uuid == vs && NoForwardRef(x)
  }

  ghost predicate CallsFor(vsItems: seq<VSItem>, poolItems: seq<PoolItem>, vs: string, pool: string) {
    && vs != "" && pool != ""
    && (DirectRef(vsItems, vs, pool)
        || (ReverseRef(poolItems, vs, pool) && KnownWithoutForwardRef(vsItems, vs)))
  }

  ghost predicate UniqueUUIDs(vsItems: seq<VSItem>) {
    forall x, y :: x in vsItems && y in vsItems && x.uuid == y.uuid ==> x == y
  }

  /** No UUID holds the '>' of the edge arrow, so that an edge id determines its ends. */
  ghost predicate ArrowFree(vsItems: seq<VSItem>) {
    forall x :: x in vsItems ==> '>' !in x.uuid
  }

  lemma {:induction false} DirectAttemptsAre(items: seq<VSItem>, a: Attempt)
    ensures a in DirectAttempts(items)
            <==> exists x :: x in items && a == Attempt(x.uuid, RefUUID(x.poolRef), VSChain(x))
  {
    hide VSChain, RefUUID;
    if items != [] {
      var n := |items| - 1;
      DirectAttemptsAre(items[..n], a);
      assert items == items[..n] + [items[n]];
      assert items[n] in items;
    }
  }

  lemma {:induction false} IndexesAre(items: seq<VSItem>, x: VSItem)
    requires UniqueUUIDs(items) && x in items
    ensures x.uuid in ChainByUUID(items) && ChainByUUID(items)[x.uuid] == VSChain(x)
    ensures x.uuid in NeedsReverse(items) && NeedsReverse(items)[x.uuid] == NoForwardRef(x)
  {
    var n := |items| - 1;
    assert items == items[..n] + [items[n]];
    if items[n].uuid != x.uuid {
      IndexesAre(items[..n], x);
    } else {
      assert items[n] in items;
    }
  }

  lemma {:induction false} IndexedAreItems(items: seq<VSItem>, uuid: string)
    requires uuid in ChainByUUID(items)
    ensures exists x :: x in items && x.uuid == uuid
  {
    var n := |items| - 1;
    assert items[n] in items;
    if items[n].uuid != uuid {
      IndexedAreItems(items[..n], uuid);
      var x :| x in items[..n] && x.uuid == uuid;
      assert x in items;
    }
  }

  lemma {:induction false} RefAttemptsAre(pool: string, refs: seq<VsRef>, chains: map<string, string>, needs: map<string, bool>, a: Attempt)
    ensures a in RefAttempts(pool, refs, chains, needs)
            <==> a.pool == pool && a.vs in chains && a.vs in needs && needs[a.vs] && a.chain == chains[a.vs]
                 && exists ref :: ref in refs && RefTarget(ref) == a.vs
  {
    if refs != [] {
      var n := |refs| - 1;
      RefAttemptsAre(pool, refs[..n], chains, needs, a);
      assert refs == refs[..n] + [refs[n]];
      assert refs[n] in refs;
    }
  }

  lemma {:induction false} ReverseAttemptsAre(items: seq<PoolItem>, chains: map<string, string>, needs: map<string, bool>, a: Attempt)
    ensures a in ReverseAttempts(items, chains, needs)
            <==> a.vs in chains && a.vs in needs && needs[a.vs] && a.chain == chains[a.vs] && ReverseRef(items, a.vs, a.pool)
  {
    if items != [] {
      var n := |items| - 1;
      ReverseAttemptsAre(items[..n], chains, needs, a);
      RefAttemptsAre(items[n].uuid, items[n].virtualServices, chains, needs, a);
      assert items == items[..n] + [items[n]];
      assert items[n] in items;
    }
  }

  /** Given unique UUIDs, the emitter is tried for exactly the pairs the inventory calls for,
      each time with the chain of that virtual service. */
  lemma AttemptsAre(vsItems: seq<VSItem>, poolItems: seq<PoolItem>, a: Attempt)
    requires UniqueUUIDs(vsItems)
    ensures a in Attempts(vsItems, poolItems) && Emits(a)
            <==> CallsFor(vsItems, poolItems, a.vs, a.pool)
                 && exists x :: x in vsItems && x.uuid == a.vs && a.chain == VSChain(x)
  {
    hide VSChain, RefUUID, RefTarget, DirectAttempts, ReverseAttempts, ChainByUUID, NeedsReverse, NoForwardRef, ReverseRef;
    var chains, needs := ChainByUUID(vsItems), NeedsReverse(vsItems);
    DirectAttemptsAre(vsItems, a);
    ReverseAttemptsAre(poolItems, chains, needs, a);
    if a.vs in chains {
      IndexedAreItems(vsItems, a.vs);
    }
    forall x | x in vsItems && x.uuid == a.vs
      ensures x.uuid in chains && chains[x.uuid] == VSChain(x) && x.uuid in needs && needs[x.uuid] == NoForwardRef(x)
    {
      IndexesAre(vsItems, x);
    }
  }

  lemma InventoryDraws(vsItems: seq<VSItem>, poolItems: seq<PoolItem>, vsvipItems: seq<VsVipItem>)
    returns (emitted: set<string>)
    ensures Drawn(VSPoolEdges(InventoryRows(map[], vsItems, poolItems, vsvipItems)), emitted, Attempts(vsItems, poolItems))
  {
    hide VSChain, RefUUID, NodeID, EdgeID, Rank, Drawn;
    var d0 := Drawing(VsVipRows(map[], vsvipItems), {});
    VsVipRowsDrawNothing(map[], vsvipItems);
    VSRowsDraw(d0, vsItems);
    PoolRowsDraw(VSRows(d0, vsItems), DirectAttempts(vsItems), poolItems, ChainByUUID(vsItems), NeedsReverse(vsItems));
    emitted := PoolRows(VSRows(d0, vsItems), poolItems, ChainByUUID(vsItems), NeedsReverse(vsItems)).emitted;
  }

  lemma EdgeIDDetermines(s1: string, t1: string, s2: string, t2: string)
    requires '>' !in s1 && '>' !in s2 && EdgeID(s1, t1) == EdgeID(s2, t2)
    ensures s1 == s2 && t1 == t2
  {
    var id := EdgeID(s1, t1);
    assert id[|s1| + 1] == '>' && id[..|s1|] == s1 && id[|s1| + 2..] == t1;
    assert id[|s2| + 1] == '>' && id[..|s2|] == s2 && id[|s2| + 2..] == t2;
    forall k | 0 <= k < |s1| + 1 ensures id[k] != '>' {
      assert k < |s1| ==> id[k] == s1[k];
    }
    forall k | 0 <= k < |s2| + 1 ensures id[k] != '>' {
      assert k < |s2| ==> id[k] == s2[k];
    }
  }

  lemma AttemptIDDetermines(a: Attempt, b: Attempt)
    requires '>' !in a.vs && '>' !in b.vs && AttemptID(a) == AttemptID(b)
    ensures a.vs == b.vs && a.pool == b.pool
  {
    EdgeIDDetermines(NodeID(VSNode, a.vs), NodeID(PoolNode, a.pool), NodeID(VSNode, b.vs), NodeID(PoolNode, b.pool));
    assert NodeID(VSNode, a.vs)[3..] == a.vs && NodeID(VSNode, b.vs)[3..] == b.vs;
    assert NodeID(PoolNode, a.pool)[5..] == a.pool && NodeID(PoolNode, b.pool)[5..] == b.pool;
  }

  /** No edge id is ever drawn twice between virtual services and pools, whatever the inventory. */
  lemma VSPoolEdgeIDsUnique(vsItems: seq<VSItem>, poolItems: seq<PoolItem>, vsvipItems: seq<VsVipItem>, r1: Row, r2: Row)
    requires r1 in VSPoolEdges(InventoryRows(map[], vsItems, poolItems, vsvipItems))
    requires r2 in VSPoolEdges(InventoryRows(map[], vsItems, poolItems, vsvipItems))
    requires r1.id == r2.id
    ensures r1 == r2
  {
    var _ := InventoryDraws(vsItems, poolItems, vsvipItems);
  }

  lemma DrawnEdgeIsCalledFor(vsItems: seq<VSItem>, poolItems: seq<PoolItem>, edges: set<Row>, emitted: set<string>, r: Row)
    requires UniqueUUIDs(vsItems)
    requires Drawn(edges, emitted, Attempts(vsItems, poolItems)) && r in edges
    ensures exists x, pool :: x in vsItems && CallsFor(vsItems, poolItems, x.uuid, pool)
                              && r == AttemptEdge(Attempt(x.uuid, pool, VSChain(x)))
  {
    hide VSChain, AttemptEdge, AttemptID, Attempts, CallsFor;
    var a :| a in Attempts(vsItems, poolItems) && Emits(a) && r == AttemptEdge(a);
    AttemptsAre(vsItems, poolItems, a);
    var x :| x in vsItems && x.uuid == a.vs && a.chain == VSChain(x);
    assert a == Attempt(x.uuid, a.pool, VSChain(x));
  }

  lemma EdgeOfAttempt(a: Attempt)
    ensures AttemptEdge(a).TopologyEdge? && AttemptEdge(a).id == AttemptID(a)
  {
  }

  lemma EdgeNamesItsEnds(a: Attempt, b: Attempt)
    requires AttemptEdge(a) == AttemptEdge(b)
    ensures a == b
  {
    assert NodeID(VSNode, a.vs)[3..] == a.vs && NodeID(VSNode, b.vs)[3..] == b.vs;
    assert NodeID(PoolNode, a.pool)[5..] == a.pool && NodeID(PoolNode, b.pool)[5..] == b.pool;
  }

  /** The edge id of a pair, whatever its chain. */
  function PairID(vs: string, pool: string): string {
    EdgeID(NodeID(VSNode, vs), NodeID(PoolNode, pool))
  }

  /** No two different pairs the inventory calls for have the same edge id. */
  ghost predicate DistinctIDs(vsItems: seq<VSItem>, poolItems: seq<PoolItem>) {
    forall u, p, v, q | CallsFor(vsItems, poolItems, u, p) && CallsFor(vsItems, poolItems, v, q) && PairID(u, p) == PairID(v, q) ::
      u == v && p == q
  }

  /** r is the edge of a pair the inventory calls for, with the chain of the virtual service. */
  ghost predicate CalledEdge(vsItems: seq<VSItem>, poolItems: seq<PoolItem>, r: Row) {
    exists x, pool :: x in vsItems && CallsFor(vsItems, poolItems, x.uuid, pool) && r == AttemptEdge(Attempt(x.uuid, pool, VSChain(x)))
  }

  /** With distinct ids every called-for edge is the one drawn under its id. */
  lemma CalledForEdgeIsDrawn(vsItems: seq<VSItem>, poolItems: seq<PoolItem>, edges: set<Row>, emitted: set<string>,
                             x: VSItem, pool: string)
    requires UniqueUUIDs(vsItems) && DistinctIDs(vsItems, poolItems)
    requires Drawn(edges, emitted, Attempts(vsItems, poolItems))
    requires x in vsItems && CallsFor(vsItems, poolItems, x.uuid, pool)
    ensures AttemptEdge(Attempt(x.uuid, pool, VSChain(x))) in edges
  {
    hide VSChain, Attempts, CallsFor, AttemptEdge, EdgeID, NodeID;
    var a := Attempt(x.uuid, pool, VSChain(x));
    AttemptsAre(vsItems, poolItems, a);
    var drawn :| drawn in edges && drawn.TopologyEdge? && drawn.id == AttemptID(a);
    var b :| b in Attempts(vsItems, poolItems) && Emits(b) && drawn == AttemptEdge(b);
    AttemptsAre(vsItems, poolItems, b);
    EdgeOfAttempt(b);
    assert PairID(a.vs, a.pool) == PairID(b.vs, b.pool);
  }

  lemma CalledVSIsKnown(vsItems: seq<VSItem>, poolItems: seq<PoolItem>, vs: string, pool: string) returns (x: VSItem)
    requires CallsFor(vsItems, poolItems, vs, pool)
    ensures x in vsItems && x.uuid == vs
  {
    hide RefUUID, NoForwardRef, ReverseRef;
    x :| x in vsItems && x.uuid == vs;
  }

  /** If all called-for edges are drawn, their ids differ, because no id is drawn twice. */
  lemma AllDrawnHaveDistinctIDs(vsItems: seq<VSItem>, poolItems: seq<PoolItem>, vsvipItems: seq<VsVipItem>)
    requires forall r :: CalledEdge(vsItems, poolItems, r) ==> r in VSPoolEdges(InventoryRows(map[], vsItems, poolItems, vsvipItems))
    ensures DistinctIDs(vsItems, poolItems)
  {
    hide VSChain, CallsFor, AttemptEdge, InventoryRows, VSPoolEdges, EdgeID, NodeID;
    forall u, p, v, q | CallsFor(vsItems, poolItems, u, p) && CallsFor(vsItems, poolItems, v, q) && PairID(u, p) == PairID(v, q)
      ensures u == v && p == q
    {
      var x := CalledVSIsKnown(vsItems, poolItems, u, p);
      var y := CalledVSIsKnown(vsItems, poolItems, v, q);
      var a, b := Attempt(u, p, VSChain(x)), Attempt(v, q, VSChain(y));
      assert CalledEdge(vsItems, poolItems, AttemptEdge(a)) && CalledEdge(vsItems, poolItems, AttemptEdge(b));
      EdgeOfAttempt(a);
      EdgeOfAttempt(b);
      VSPoolEdgeIDsUnique(vsItems, poolItems, vsvipItems, AttemptEdge(a), AttemptEdge(b));
      EdgeNamesItsEnds(a, b);
    }
  }

  /** Given unique UUIDs, every edge drawn between a virtual service and a pool is a direct pool
      reference, or a pool's reverse reference to a known service that has neither a pool nor a
      pool-group reference, labelled with the chain of the service; and all of these are drawn exactly
      when no two of them share an edge id. */
  lemma VSPoolEdgesExact(vsItems: seq<VSItem>, poolItems: seq<PoolItem>, vsvipItems: seq<VsVipItem>)
    requires UniqueUUIDs(vsItems)
    ensures forall r :: r in VSPoolEdges(InventoryRows(map[], vsItems, poolItems, vsvipItems)) ==> CalledEdge(vsItems, poolItems, r)
    ensures (forall r :: CalledEdge(vsItems, poolItems, r) ==> r in VSPoolEdges(InventoryRows(map[], vsItems, poolItems, vsvipItems)))
            <==> DistinctIDs(vsItems, poolItems)
  {
    hide VSChain, AttemptEdge, Attempts, CallsFor, Drawn, InventoryRows, VSPoolEdges, DistinctIDs;
    var edges := VSPoolEdges(InventoryRows(map[], vsItems, poolItems, vsvipItems));
    var emitted := InventoryDraws(vsItems, poolItems, vsvipItems);
    forall r | r in edges ensures CalledEdge(vsItems, poolItems, r) {
      DrawnEdgeIsCalledFor(vsItems, poolItems, edges, emitted, r);
    }
    if DistinctIDs(vsItems, poolItems) {
      forall r | CalledEdge(vsItems, poolItems, r) ensures r in edges {
        var x, pool :| x in vsItems && CallsFor(vsItems, poolItems, x.uuid, pool)
                       && r == AttemptEdge(Attempt(x.uuid, pool, VSChain(x)));
        CalledForEdgeIsDrawn(vsItems, poolItems, edges, emitted, x, pool);
      }
    } else if forall r :: CalledEdge(vsItems, poolItems, r) ==> r in edges {
      AllDrawnHaveDistinctIDs(vsItems, poolItems, vsvipItems);
    }
  }

  /** Ids can only collide when a UUID holds the '>' of the edge arrow. */
  lemma ArrowFreeIDsDistinct(vsItems: seq<VSItem>, poolItems: seq<PoolItem>)
    requires ArrowFree(vsItems)
    ensures DistinctIDs(vsItems, poolItems)
  {
    hide CallsFor, NodeID, EdgeID;
    forall u, p, v, q | CallsFor(vsItems, poolItems, u, p) && CallsFor(vsItems, poolItems, v, q) && PairID(u, p) == PairID(v, q)
      ensures u == v && p == q
    {
      var x := CalledVSIsKnown(vsItems, poolItems, u, p);
      var y := CalledVSIsKnown(vsItems, poolItems, v, q);
      AttemptIDDetermines(Attempt(u, p, ""), Attempt(v, q, ""));
    }
  }

  // ---- an inventory with colliding ids ----

  const PLAIN_VS := VSItem("", "", "", "", [], ServiceMetadata("", "", [], [], [], false), "", "", "", "", [], "")
  const LONG_VS := PLAIN_VS.(uuid := "a->pool:b", poolRef := "c")
  const SHORT_VS := PLAIN_VS.(uuid := "a", poolRef := "b->pool:c")

  lemma CollidingRefs()
    ensures RefUUID(LONG_VS.poolRef) == "c" && RefUUID(SHORT_VS.poolRef) == "b->pool:c"
  {
    hide RefUUID;
    assert LONG_VS.poolRef == "c" && SHORT_VS.poolRef == "b->pool:c";
    hide LONG_VS, SHORT_VS;
    RefUUIDUnchanged("c");
    RefUUIDUnchanged("b->pool:c");
  }

  lemma CollidingNames()
    ensures PairID(LONG_VS.uuid, "c") == PairID(SHORT_VS.uuid, "b->pool:c")
    ensures LONG_VS.uuid != SHORT_VS.uuid && LONG_VS.uuid != "" && SHORT_VS.uuid != ""
  {
  }

  lemma CollidingPairs()
    ensures LONG_VS.uuid != "" && SHORT_VS.uuid != "" && LONG_VS.uuid != SHORT_VS.uuid
    ensures RefUUID(LONG_VS.poolRef) != "" && RefUUID(SHORT_VS.poolRef) != ""
    ensures PairID(LONG_VS.uuid, RefUUID(LONG_VS.poolRef)) == PairID(SHORT_VS.uuid, RefUUID(SHORT_VS.poolRef))
  {
    hide RefUUID, PairID, LONG_VS, SHORT_VS;
    CollidingRefs();
    CollidingNames();
  }

  lemma DirectPairIsCalled(items: seq<VSItem>, x: VSItem)
    requires x in items && x.uuid != "" && RefUUID(x.poolRef) != ""
    ensures CallsFor(items, [], x.uuid, RefUUID(x.poolRef))
  {
    hide RefUUID;
  }

  lemma TwoUnique(x: VSItem, y: VSItem)
    requires x.uuid != y.uuid
    ensures UniqueUUIDs([x, y])
  {
  }

  /** Of two services whose direct pool references give the same edge id only one gets its edge. */
  lemma CollisionLosesAnEdge(x: VSItem, y: VSItem, vsvipItems: seq<VsVipItem>)
    requires x.uuid != "" && y.uuid != "" && x.uuid != y.uuid && RefUUID(x.poolRef) != "" && RefUUID(y.poolRef) != ""
    requires PairID(x.uuid, RefUUID(x.poolRef)) == PairID(y.uuid, RefUUID(y.poolRef))
    ensures UniqueUUIDs([x, y])
    ensures CallsFor([x, y], [], x.uuid, RefUUID(x.poolRef)) && CallsFor([x, y], [], y.uuid, RefUUID(y.poolRef))
    ensures exists r :: CalledEdge([x, y], [], r) && r !in VSPoolEdges(InventoryRows(map[], [x, y], [], vsvipItems))
  {
    hide RefUUID, PairID, CallsFor, UniqueUUIDs, DistinctIDs, CalledEdge, VSPoolEdges, InventoryRows;
    var items := [x, y];
    assert x in items && y in items;
    TwoUnique(x, y);
    DirectPairIsCalled(items, x);
    DirectPairIsCalled(items, y);
    CollisionIsNotDistinct(items, x.uuid, RefUUID(x.poolRef), y.uuid, RefUUID(y.poolRef));
    VSPoolEdgesExact(items, [], vsvipItems);
  }

  lemma CollisionIsNotDistinct(items: seq<VSItem>, u: string, p: string, v: string, q: string)
    requires CallsFor(items, [], u, p) && CallsFor(items, [], v, q) && PairID(u, p) == PairID(v, q) && u != v
    ensures !DistinctIDs(items, [])
  {
    hide CallsFor, PairID;
  }

  /** A concrete inventory of that kind: its UUIDs are unique, and one called-for edge is missing. */
  lemma CollidingEdgeIsLost(vsvipItems: seq<VsVipItem>)
    ensures UniqueUUIDs([LONG_VS, SHORT_VS])
    ensures exists r :: CalledEdge([LONG_VS, SHORT_VS], [], r)
                        && r !in VSPoolEdges(InventoryRows(map[], [LONG_VS, SHORT_VS], [], vsvipItems))
  {
    hide RefUUID, PairID, CallsFor, UniqueUUIDs, CalledEdge, VSPoolEdges, InventoryRows, LONG_VS, SHORT_VS;
    CollidingPairs();
    CollisionLosesAnEdge(LONG_VS, SHORT_VS, vsvipItems);
  }
}
