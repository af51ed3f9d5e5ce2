/** The three renderers that together draw one tenant's node graph
    (collector/topology.go, collector/poolgroup.go, collector/pool.go). */
module Topology {
  import opened Prelude
  import opened Inventory
  import opened Markers
  import opened Series

  // ---- node and edge names ----

  function Prefix(kind: NodeKind): string {
    match kind
    case VsVipNode => "vsvip"
    case VSNode => "vs"
    case PoolGroupNode => "poolgroup"
    case PoolNode => "pool"
    case PoolMemberNode => "poolmember"
  }

  function NodeID(kind: NodeKind, uuid: string): string {
    Prefix(kind) + ":" + uuid
  }

  function EdgeID(source: string, target: string): string {
    source + "->" + target
  }

  function MemberID(server: Server): string {
    NodeID(PoolMemberNode, server.address + ":" + server.port)
  }

  function ChainFor(mi: MarkerInfo, name: string): string {
    if mi.namespace != "" && mi.serviceName != "" then mi.namespace + "/" + mi.serviceName
    else if mi.namespace != "" && mi.ingressName != "" then mi.namespace + "/" + mi.ingressName
    else if mi.host != "" then mi.host
    else name
  }

  function VSChain(vs: VSItem): string {
    ChainFor(ObjectLabels(vs.markers, vs.metadata), vs.name)
  }

  function PoolChain(p: PoolItem): string {
    ChainFor(ObjectLabels(p.markers, p.metadata), p.name)
  }

  function VsVipChain(v: VsVipItem): string {
    ChainFor(ObjectLabels(v.markers, v.metadata), v.name)
  }

  /** Pool groups carry no service_metadata. */
  function GroupChain(g: PoolGroupItem): string {
    ChainFor(MarkerLabels(g.markers), g.name)
  }

  function RefTarget(r: VsRef): string {
    if r.uuid == "" then RefUUID(r.ref) else r.uuid
  }

  function StateOf(operState: string): (string, real) {
    if operState == "OPER_UP" then ("UP", 1.0)
    else if operState == "OPER_PARTIAL_UP" then ("PARTIAL", 0.5)
    else ("DOWN", 0.0)
  }

  function VsVipState(runtime: seq<string>): (string, real) {
    if "OPER_UP" !in runtime then ("DOWN", 0.0)
    else if forall k :: 0 <= k < |runtime| ==> runtime[k] == "OPER_UP" then ("UP", 1.0)
    else ("PARTIAL", 0.5)
  }

  // ---- what each loop adds ----

  function WithNode(rows: Rows, id: string, title: string, kind: NodeKind, state: (string, real), chain: string): Rows {
    rows[TopologyNode(id, title, kind, state.0, chain) := state.1][TopologyNodeState(id, kind, chain) := state.1]
  }

  function WithEdge(rows: Rows, source: string, target: string, chain: string): Rows {
    rows[TopologyEdge(EdgeID(source, target), source, target, chain) := 1.0]
  }

  function VsVipEdges(rows: Rows, v: VsVipItem, refs: seq<VsRef>): Rows {
    if refs == [] then rows
    else
      var n := |refs| - 1;
      WithEdge(VsVipEdges(rows, v, refs[..n]), NodeID(VsVipNode, v.uuid), NodeID(VSNode, refs[n].uuid), VsVipChain(v))
  }

  function VsVipRow(rows: Rows, v: VsVipItem): Rows {
    VsVipEdges(
      WithNode(rows, NodeID(VsVipNode, v.uuid), v.name, VsVipNode, VsVipState(v.runtime), VsVipChain(v)),
      v, v.virtualServices)
  }

  function VsVipRows(rows: Rows, items: seq<VsVipItem>): Rows {
    if items == [] then rows
    else
      var n := |items| - 1;
      VsVipRow(VsVipRows(rows, items[..n]), items[n])
  }

  /** The rows drawn so far and the VS-to-pool edge ids already used. */
  datatype Drawing = Drawing(rows: Rows, emitted: set<string>)

  function EmitVSPoolEdge(d: Drawing, vsUUID: string, poolUUID: string, chain: string): Drawing {
    var source, target := NodeID(VSNode, vsUUID), NodeID(PoolNode, poolUUID);
    if vsUUID == "" || poolUUID == "" || EdgeID(source, target) in d.emitted then d
    else Drawing(WithEdge(d.rows, source, target, chain), d.emitted + {EdgeID(source, target)})
  }

  function VSRow(d: Drawing, vs: VSItem): Drawing {
    var id := NodeID(VSNode, vs.uuid);
    var d1 := d.(rows := WithNode(d.rows, id, vs.name, VSNode, StateOf(vs.operState), VSChain(vs)));
    var d2 := EmitVSPoolEdge(d1, vs.uuid, RefUUID(vs.poolRef), VSChain(vs));
    var group := RefUUID(vs.poolGroupRef);
    if group == "" then d2
    else d2.(rows := WithEdge(d2.rows, id, NodeID(PoolGroupNode, group), VSChain(vs)))
  }

  function VSRows(d: Drawing, items: seq<VSItem>): Drawing {
    if items == [] then d
    else
      var n := |items| - 1;
      VSRow(VSRows(d, items[..n]), items[n])
  }

  /** Chain of each known virtual service, the last entry winning. */
  function ChainByUUID(items: seq<VSItem>): map<string, string> {
    if items == [] then map[]
    else
      var n := |items| - 1;
      ChainByUUID(items[..n])[items[n].uuid := VSChain(items[n])]
  }

  predicate NoForwardRef(vs: VSItem) {
    RefUUID(vs.poolRef) == "" && RefUUID(vs.poolGroupRef) == ""
  }

  function NeedsReverse(items: seq<VSItem>): map<string, bool> {
    if items == [] then map[]
    else
      var n := |items| - 1;
      NeedsReverse(items[..n])[items[n].uuid := NoForwardRef(items[n])]
  }

  function ReverseEdges(d: Drawing, pool: string, refs: seq<VsRef>, chains: map<string, string>, needs: map<string, bool>): Drawing {
    if refs == [] then d
    else
      var n := |refs| - 1;
      var before := ReverseEdges(d, pool, refs[..n], chains, needs);
      var vs := RefTarget(refs[n]);
      if vs in chains && vs in needs && needs[vs] then EmitVSPoolEdge(before, vs, pool, chains[vs]) else before
  }

  function PoolRow(d: Drawing, p: PoolItem, chains: map<string, string>, needs: map<string, bool>): Drawing {
    ReverseEdges(
      d.(rows := WithNode(d.rows, NodeID(PoolNode, p.uuid), p.name, PoolNode, StateOf(p.operState), PoolChain(p))),
      p.uuid, p.virtualServices, chains, needs)
  }

  function PoolRows(d: Drawing, items: seq<PoolItem>, chains: map<string, string>, needs: map<string, bool>): Drawing {
    if items == [] then d
    else
      var n := |items| - 1;
      PoolRow(PoolRows(d, items[..n], chains, needs), items[n], chains, needs)
  }

  function InventoryRows(rows: Rows, vsItems: seq<VSItem>, poolItems: seq<PoolItem>, vsvipItems: seq<VsVipItem>): Rows {
    PoolRows(VSRows(Drawing(VsVipRows(rows, vsvipItems), {}), vsItems),
             poolItems, ChainByUUID(vsItems), NeedsReverse(vsItems)).rows
  }

  function GroupEdges(rows: Rows, g: PoolGroupItem, refs: seq<string>): Rows {
    if refs == [] then rows
    else
      var n := |refs| - 1;
      var before := GroupEdges(rows, g, refs[..n]);
      var pool := RefUUID(refs[n]);
      if pool == "" then before
      else WithEdge(before, NodeID(PoolGroupNode, g.uuid), NodeID(PoolNode, pool), GroupChain(g))
  }

  function GroupRows(rows: Rows, items: seq<PoolGroupItem>): Rows {
    if items == [] then rows
    else
      var n := |items| - 1;
      var g := items[n];
      GroupEdges(
        WithNode(GroupRows(rows, items[..n]), NodeID(PoolGroupNode, g.uuid), g.name, PoolGroupNode, ("UP", 1.0), GroupChain(g)),
        g, g.memberPoolRefs)
  }

  function MemberRows(rows: Rows, members: seq<PoolMember>): Rows {
    if members == [] then rows
    else
      var n := |members| - 1;
      var m := members[n];
      var state := if m.server.operState == "OPER_UP" then ("UP", 1.0) else ("DOWN", 0.0);
      WithEdge(
        WithNode(MemberRows(rows, members[..n]), MemberID(m.server), m.server.address + ":" + m.server.port,
                 PoolMemberNode, state, PoolChain(m.pool)),
        NodeID(PoolNode, m.pool.uuid), MemberID(m.server), PoolChain(m.pool))
  }

  /** One tenant's whole topology slice. */
  function TopologyRows(vsItems: seq<VSItem>, poolItems: seq<PoolItem>, vsvipItems: seq<VsVipItem>,
                        groups: seq<PoolGroupItem>, members: seq<PoolMember>): Rows {
    MemberRows(GroupRows(InventoryRows(map[], vsItems, poolItems, vsvipItems), groups), members)
  }

  // ---- the renderers ----

  /** The topology gauges of one tenant while they are being drawn. */
  class TopologyGauges {
    var rows: Rows

    constructor ()
      ensures rows == map[]
    {
      rows := map[];
    }

    method SetNode(id: string, title: string, kind: NodeKind, state: string, value: real, chain: string)
      modifies this
      ensures rows == WithNode(old(rows), id, title, kind, (state, value), chain)
    {
      rows := rows[TopologyNode(id, title, kind, state, chain) := value];
      rows := rows[TopologyNodeState(id, kind, chain) := value];
    }

    method SetEdge(source: string, target: string, chain: string)
      modifies this
      ensures rows == WithEdge(old(rows), source, target, chain)
    {
      hide EdgeID;
      var edgeID := EdgeID(source, target);
      rows := rows[TopologyEdge(edgeID, source, target, chain) := 1.0];
    }

    method EmitEdge(emitted: set<string>, vsUUID: string, poolUUID: string, chain: string)
      returns (emitted': set<string>)
      modifies this
      ensures Drawing(rows, emitted') == EmitVSPoolEdge(Drawing(old(rows), emitted), vsUUID, poolUUID, chain)
    {
      hide NodeID, EdgeID, WithEdge;
      emitted' := emitted;
      if vsUUID == "" || poolUUID == "" {
        return;
      }
      var source := NodeID(VSNode, vsUUID);
      var target := NodeID(PoolNode, poolUUID);
      var edgeID := EdgeID(source, target);
      if edgeID in emitted {
        return;
      }
      emitted' := emitted + {edgeID};
      SetEdge(source, target, chain);
    }

    method RenderVsVip(v: VsVipItem)
      modifies this
      ensures rows == VsVipRow(old(rows), v)
    {
      hide NodeID, VsVipChain, WithNode, WithEdge;
      var anyUp, allUp := false, true;
      for i := 0 to |v.runtime|
        invariant anyUp <==> "OPER_UP" in v.runtime[..i]
        invariant allUp <==> forall k :: 0 <= k < i ==> v.runtime[k] == "OPER_UP"
        invariant rows == old(rows)
      {
        assert v.runtime[..i + 1] == v.runtime[..i] + [v.runtime[i]];
        if v.runtime[i] == "OPER_UP" {
          anyUp := true;
        } else {
          allUp := false;
        }
      }
      assert v.runtime[..|v.runtime|] == v.runtime;
      var state, value := "DOWN", 0.0;
      if anyUp && allUp {
        state, value := "UP", 1.0;
      } else if anyUp {
        state, value := "PARTIAL", 0.5;
      }
      var nodeID := NodeID(VsVipNode, v.uuid);
      SetNode(nodeID, v.name, VsVipNode, state, value, VsVipChain(v));
      ghost var drawn := rows;
      for i := 0 to |v.virtualServices|
        invariant rows == VsVipEdges(drawn, v, v.virtualServices[..i])
      {
        assert v.virtualServices[..i + 1][..i] == v.virtualServices[..i];
        SetEdge(nodeID, NodeID(VSNode, v.virtualServices[i].uuid), VsVipChain(v));
      }
      assert v.virtualServices[..|v.virtualServices|] == v.virtualServices;
    }

    method RenderReverseEdges(emitted: set<string>, p: PoolItem, chains: map<string, string>, needs: map<string, bool>)
      returns (emitted': set<string>)
      requires chains.Keys == needs.Keys
      modifies this
      ensures Drawing(rows, emitted')
              == ReverseEdges(Drawing(old(rows), emitted), p.uuid, p.virtualServices, chains, needs)
    {
      hide RefUUID, EmitVSPoolEdge;
      emitted' := emitted;
      for i := 0 to |p.virtualServices|
        invariant Drawing(rows, emitted')
                  == ReverseEdges(Drawing(old(rows), emitted), p.uuid, p.virtualServices[..i], chains, needs)
      {
        assert p.virtualServices[..i + 1][..i] == p.virtualServices[..i];
        var vsUUID := p.virtualServices[i].uuid;
        if vsUUID == "" {
          vsUUID := RefUUID(p.virtualServices[i].ref);
        }
        if vsUUID !in chains {
          continue;
        }
        if !needs[vsUUID] {
          continue;
        }
        emitted' := EmitEdge(emitted', vsUUID, p.uuid, chains[vsUUID]);
      }
      assert p.virtualServices[..|p.virtualServices|] == p.virtualServices;
    }

    method RenderVsVips(items: seq<VsVipItem>)
      modifies this
      ensures rows == VsVipRows(old(rows), items)
    {
      hide VsVipRow;
      for i := 0 to |items|
        invariant rows == VsVipRows(old(rows), items[..i])
      {
        assert items[..i + 1][..i] == items[..i];
        RenderVsVip(items[i]);
      }
      assert items[..|items|] == items;
    }

    method RenderVirtualServices(items: seq<VSItem>) returns (emitted: set<string>)
      modifies this
      ensures Drawing(rows, emitted) == VSRows(Drawing(old(rows), {}), items)
    {
      hide VSRow;
      emitted := {};
      for i := 0 to |items|
        invariant Drawing(rows, emitted) == VSRows(Drawing(old(rows), {}), items[..i])
      {
        assert items[..i + 1][..i] == items[..i];
        emitted := RenderVirtualService(emitted, items[i]);
      }
      assert items[..|items|] == items;
    }

    method RenderVirtualService(emitted: set<string>, vs: VSItem) returns (emitted': set<string>)
      modifies this
      ensures Drawing(rows, emitted') == VSRow(Drawing(old(rows), emitted), vs)
    {
      hide NodeID, RefUUID, VSChain, StateOf, WithNode, WithEdge;
      emitted' := emitted;
      var nodeID := NodeID(VSNode, vs.uuid);
      var (state, value) := StateOf(vs.operState);
      SetNode(nodeID, vs.name, VSNode, state, value, VSChain(vs));
      var poolUUID := RefUUID(vs.poolRef);
      if poolUUID != "" {
        emitted' := EmitEdge(emitted', vs.uuid, poolUUID, VSChain(vs));
      }
      var group := RefUUID(vs.poolGroupRef);
      if group != "" {
        SetEdge(nodeID, NodeID(PoolGroupNode, group), VSChain(vs));
      }
    }

    method RenderPools(emitted: set<string>, items: seq<PoolItem>, chains: map<string, string>, needs: map<string, bool>)
      returns (emitted': set<string>)
      requires chains.Keys == needs.Keys
      modifies this
      ensures Drawing(rows, emitted') == PoolRows(Drawing(old(rows), emitted), items, chains, needs)
    {
      hide NodeID, PoolChain, StateOf, WithNode, ReverseEdges;
      emitted' := emitted;
      for i := 0 to |items|
        invariant Drawing(rows, emitted') == PoolRows(Drawing(old(rows), emitted), items[..i], chains, needs)
      {
        assert items[..i + 1][..i] == items[..i];
        var p := items[i];
        var (state, value) := StateOf(p.operState);
        SetNode(NodeID(PoolNode, p.uuid), p.name, PoolNode, state, value, PoolChain(p));
        emitted' := RenderReverseEdges(emitted', p, chains, needs);
      }
      assert items[..|items|] == items;
    }

    static method IndexVirtualServices(vsItems: seq<VSItem>) returns (chains: map<string, string>, needs: map<string, bool>)
      ensures chains == ChainByUUID(vsItems) && needs == NeedsReverse(vsItems)
      ensures chains.Keys == needs.Keys
    {
      hide VSChain, NoForwardRef;
      chains, needs := map[], map[];
      for i := 0 to |vsItems|
        invariant chains == ChainByUUID(vsItems[..i]) && needs == NeedsReverse(vsItems[..i])
        invariant chains.Keys == needs.Keys
      {
        assert vsItems[..i + 1][..i] == vsItems[..i];
        var vs := vsItems[i];
        chains := chains[vs.uuid := VSChain(vs)];
        needs := needs[vs.uuid := NoForwardRef(vs)];
      }
      assert vsItems[..|vsItems|] == vsItems;
    }

    /** collectTopology: VsVips, virtual services, pools and the pools' reverse references. */
    method CollectTopology(vsItems: seq<VSItem>, poolItems: seq<PoolItem>, vsvipItems: seq<VsVipItem>)
      modifies this
      ensures rows == InventoryRows(old(rows), vsItems, poolItems, vsvipItems)
    {
      hide VsVipRows, VSRows, PoolRows, ChainByUUID, NeedsReverse;
      var chains, needs := IndexVirtualServices(vsItems);
      RenderVsVips(vsvipItems);
      var emitted := RenderVirtualServices(vsItems);
      emitted := RenderPools(emitted, poolItems, chains, needs);
    }

    method RenderPoolGroupTopology(items: seq<PoolGroupItem>)
      modifies this
      ensures rows == GroupRows(old(rows), items)
    {
      hide NodeID, RefUUID, GroupChain, WithNode, WithEdge;
      for i := 0 to |items|
        invariant rows == GroupRows(old(rows), items[..i])
      {
        assert items[..i + 1][..i] == items[..i];
        var g := items[i];
        var nodeID := NodeID(PoolGroupNode, g.uuid);
        SetNode(nodeID, g.name, PoolGroupNode, "UP", 1.0, GroupChain(g));
        ghost var drawn := rows;
        for k := 0 to |g.memberPoolRefs|
          invariant rows == GroupEdges(drawn, g, g.memberPoolRefs[..k])
        {
          assert g.memberPoolRefs[..k + 1][..k] == g.memberPoolRefs[..k];
          var poolUUID := RefUUID(g.memberPoolRefs[k]);
          if poolUUID == "" {
            continue;
          }
          SetEdge(nodeID, NodeID(PoolNode, poolUUID), GroupChain(g));
        }
        assert g.memberPoolRefs[..|g.memberPoolRefs|] == g.memberPoolRefs;
      }
      assert items[..|items|] == items;
    }

    method RenderPoolMemberTopology(members: seq<PoolMember>)
      modifies this
      ensures rows == MemberRows(old(rows), members)
    {
      hide NodeID, PoolChain, WithNode, WithEdge, MemberID;
      for i := 0 to |members|
        invariant rows == MemberRows(old(rows), members[..i])
      {
        assert members[..i + 1][..i] == members[..i];
        var pool, server := members[i].pool, members[i].server;
        var memberID := MemberID(server);
        var title := server.address + ":" + server.port;
        if server.operState == "OPER_UP" {
          SetNode(memberID, title, PoolMemberNode, "UP", 1.0, PoolChain(pool));
        } else {
          SetNode(memberID, title, PoolMemberNode, "DOWN", 0.0, PoolChain(pool));
        }
        SetEdge(NodeID(PoolNode, pool.uuid), memberID, PoolChain(pool));
      }
      assert members[..|members|] == members;
    }
  }
}
