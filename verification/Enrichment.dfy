/** Joining virtual services into each other and into the VsVips that serve them
    (collector/enrichment.go). The functions say what each pass computes; the classes and methods
    are the passes themselves. */
module Enrichment {
  import opened Prelude
  import opened Inventory
  import opened Markers

  function VSLabels(vs: VSItem): MarkerInfo {
    ObjectLabels(vs.markers, vs.metadata)
  }

  function VipLabels(v: VsVipItem): MarkerInfo {
    ObjectLabels(v.markers, v.metadata)
  }

  // ---- inheritParentVSNamespace ----

  /** The non-empty namespaces of the items that name `parent` as their parent. */
  ghost function ChildNamespaces(items: seq<VSItem>, parent: string): set<string> {
    set x | x in items && parent != "" && RefUUID(x.vhParentRef) == parent && VSLabels(x).namespace != ""
      :: VSLabels(x).namespace
  }

  /** What inheritance makes of one item, given all of them. */
  ghost function Inherited(items: seq<VSItem>, x: VSItem): VSItem {
    if VSLabels(x).namespace == "" && exists n :: ChildNamespaces(items, x.uuid) == {n}
    then var n :| ChildNamespaces(items, x.uuid) == {n}; x.(metadata := x.metadata.(namespace := n))
    else x
  }

  datatype ParentNamespace = ParentNamespace(namespace: string, mixed: bool)

  /** The index entry that stands for a set of child namespaces. */
  ghost predicate Summarizes(state: ParentNamespace, names: set<string>) {
    && (names == {} <==> state.namespace == "")
    && (names != {} ==> state.namespace in names)
    && (!state.mixed && names != {} ==> names == {state.namespace})
    && (state.mixed ==> exists a, b :: a in names && b in names && a != b)
  }

  function Entry(index: map<string, ParentNamespace>, uuid: string): ParentNamespace {
    if uuid in index then index[uuid] else ParentNamespace("", false)
  }

  ghost predicate IndexSummarizes(index: map<string, ParentNamespace>, items: seq<VSItem>) {
    forall u :: Summarizes(Entry(index, u), ChildNamespaces(items, u))
  }

  function NoteNamespace(state: ParentNamespace, namespace: string): ParentNamespace {
    if state.namespace == "" then state.(namespace := namespace)
    else if state.namespace != namespace then state.(mixed := true)
    else state
  }

  lemma AddChildNamespace(items: seq<VSItem>, x: VSItem, u: string)
    ensures ChildNamespaces(items + [x], u)
            == ChildNamespaces(items, u)
               + if u == RefUUID(x.vhParentRef) && u != "" && VSLabels(x).namespace != "" then {VSLabels(x).namespace} else {}
  {
    hide RefUUID, VSLabels;
  }

  lemma IndexStep(index: map<string, ParentNamespace>, items: seq<VSItem>, x: VSItem)
    requires IndexSummarizes(index, items)
    ensures var parent, namespace := RefUUID(x.vhParentRef), VSLabels(x).namespace;
            IndexSummarizes(
              if parent == "" || namespace == "" then index
              else index[parent := NoteNamespace(Entry(index, parent), namespace)],
              items + [x])
  {
    hide RefUUID, VSLabels, ChildNamespaces;
    forall u { AddChildNamespace(items, x, u); }
  }

  method IndexChildNamespaces(items: array<VSItem>) returns (index: map<string, ParentNamespace>)
    ensures IndexSummarizes(index, items[..])
  {
    hide RefUUID, ObjectLabels, ChildNamespaces, Summarizes;
    index := map[];
    assert IndexSummarizes(index, items[..0]) by { NoChildren(); }
    for i := 0 to items.Length
      invariant IndexSummarizes(index, items[..i])
    {
      var item := items[i];
      assert items[..i + 1] == items[..i] + [item];
      IndexStep(index, items[..i], item);
      var parent := RefUUID(item.vhParentRef);
      if parent == "" {
        continue;
      }
      var mi := ParseObjectMetadata(item.markers, item.metadata);
      if mi.namespace == "" {
        continue;
      }
      var state := Entry(index, parent);
      if state.namespace == "" {
        state := state.(namespace := mi.namespace);
      } else if state.namespace != mi.namespace {
        state := state.(mixed := true);
      }
      index := index[parent := state];
    }
    assert items[..items.Length] == items[..];
  }

  lemma NoChildren()
    ensures IndexSummarizes(map[], [])
  {
  }

  lemma InheritedBySummary(items: seq<VSItem>, x: VSItem, state: ParentNamespace)
    requires Summarizes(state, ChildNamespaces(items, x.uuid))
    ensures Inherited(items, x)
            == if VSLabels(x).namespace == "" && state.namespace != "" && !state.mixed
               then x.(metadata := x.metadata.(namespace := state.namespace)) else x
  {
    hide VSLabels, ChildNamespaces;
    var names := ChildNamespaces(items, x.uuid);
    if n :| names == {n} {
      assert n in names;
      assert state.namespace == n;
      assert state.mixed ==> forall a :: a in names ==> a == n;
    }
  }

  method InheritParentVSNamespace(items: array<VSItem>)
    modifies items
    ensures forall i :: 0 <= i < items.Length ==> items[i] == Inherited(old(items[..]), old(items[i]))
  {
    hide ObjectLabels, Inherited, Summarizes, ChildNamespaces;
    var index := IndexChildNamespaces(items);
    for i := 0 to items.Length
      invariant forall k :: 0 <= k < i ==> items[k] == Inherited(old(items[..]), old(items[k]))
      invariant forall k :: i <= k < items.Length ==> items[k] == old(items[k])
    {
      var x := items[i];
      var state := Entry(index, x.uuid);
      InheritedBySummary(old(items[..]), x, state);
      var mi := ParseObjectMetadata(x.markers, x.metadata);
      if mi.namespace != "" {
        continue;
      }
      if state.namespace != "" && !state.mixed {
        items[i] := x.(metadata := x.metadata.(namespace := state.namespace));
      }
    }
  }

  // ---- the link index of enrichVsVipInventory ----

  function AddLinked(s: seq<VSItem>, x: VSItem): seq<VSItem> {
    if x.uuid == "" || (exists y :: y in s && y.uuid == x.uuid) then s else s + [x]
  }

  function AddAll(s: seq<VSItem>, xs: seq<VSItem>): seq<VSItem> {
    if xs == [] then s
    else AddLinked(AddAll(s, xs[..|xs| - 1]), xs[|xs| - 1])
  }

  /** The items naming `parent` as their parent, in order. */
  function Children(items: seq<VSItem>, parent: string): seq<VSItem> {
    if items == [] then []
    else
      var n := |items| - 1;
      Children(items[..n], parent)
      + if parent != "" && RefUUID(items[n].vhParentRef) == parent then [items[n]] else []
  }

  /** The last item with this UUID. */
  function Lookup(items: seq<VSItem>, uuid: string): Option<VSItem> {
    if items == [] then None
    else
      var n := |items| - 1;
      if items[n].uuid == uuid && uuid != "" then Some(items[n]) else Lookup(items[..n], uuid)
  }

  function RuntimeChildren(items: seq<VSItem>, refs: seq<string>): seq<VSItem> {
    if refs == [] then []
    else
      var n := |refs| - 1;
      RuntimeChildren(items, refs[..n])
      + match Lookup(items, RefUUID(refs[n])) case Some(c) => [c] case None => []
  }

  /** What one virtual service links to its VsVip: itself, its children by parent reference, and the
      children its runtime names. */
  function Candidates(items: seq<VSItem>, vs: VSItem): seq<VSItem> {
    [vs] + Children(items, vs.uuid) + RuntimeChildren(items, vs.vhChildRefs)
  }

  /** The services linked to a VsVip after the first n items have been walked. */
  function LinksUpTo(items: seq<VSItem>, n: nat, vsvip: string): seq<VSItem>
    requires n <= |items|
  {
    if n == 0 then []
    else
      var before := LinksUpTo(items, n - 1, vsvip);
      if vsvip != "" && RefUUID(items[n - 1].vsvipRef) == vsvip then AddAll(before, Candidates(items, items[n - 1]))
      else before
  }

  function Links(items: seq<VSItem>, vsvip: string): seq<VSItem> {
    LinksUpTo(items, |items|, vsvip)
  }

  function UUIDs(items: seq<VSItem>): set<string> {
    set x | x in items :: x.uuid
  }

  /** byVsVip and seenByVsVip. */
  class LinkIndex {
    var byVsVip: map<string, seq<VSItem>>
    var seenByVsVip: map<string, set<string>>

    ghost predicate Valid()
      reads this
    {
      && byVsVip.Keys == seenByVsVip.Keys
      && forall v :: v in byVsVip ==> seenByVsVip[v] == UUIDs(byVsVip[v])
    }

    function Linked(vsvip: string): seq<VSItem>
      reads this
    {
      if vsvip in byVsVip then byVsVip[vsvip] else []
    }

    constructor ()
      ensures Valid() && forall v :: Linked(v) == []
    {
      byVsVip, seenByVsVip := map[], map[];
    }

    method AddLinkedVS(vsvip: string, vs: VSItem)
      requires Valid()
      modifies this
      ensures Valid()
      ensures forall v :: Linked(v) == if v == vsvip && v != "" then AddLinked(old(Linked(v)), vs) else old(Linked(v))
    {
      if vsvip == "" || vs.uuid == "" {
        return;
      }
      var seen := if vsvip in seenByVsVip then seenByVsVip[vsvip] else {};
      assert vs.uuid in seen <==> exists y :: y in Linked(vsvip) && y.uuid == vs.uuid;
      if vs.uuid in seen {
        return;
      }
      var linked := Linked(vsvip);
      byVsVip := byVsVip[vsvip := linked + [vs]];
      seenByVsVip := seenByVsVip[vsvip := seen + {vs.uuid}];
      assert UUIDs(linked + [vs]) == UUIDs(linked) + {vs.uuid};
    }

    method AddAllLinked(vsvip: string, candidates: seq<VSItem>)
      requires Valid() && vsvip != ""
      modifies this
      ensures Valid()
      ensures forall v :: Linked(v) == if v == vsvip then AddAll(old(Linked(v)), candidates) else old(Linked(v))
    {
      for i := 0 to |candidates|
        invariant Valid()
        invariant forall v :: Linked(v) == if v == vsvip then AddAll(old(Linked(v)), candidates[..i]) else old(Linked(v))
      {
        assert candidates[..i + 1][..i] == candidates[..i];
        AddLinkedVS(vsvip, candidates[i]);
      }
      assert candidates[..|candidates|] == candidates;
    }
  }

  ghost predicate IndexedByUUID(byUUID: map<string, VSItem>, items: seq<VSItem>) {
    forall u :: (if u in byUUID then Some(byUUID[u]) else None) == Lookup(items, u)
  }

  ghost predicate IndexedByParent(byParent: map<string, seq<VSItem>>, items: seq<VSItem>) {
    forall u :: (if u in byParent then byParent[u] else []) == Children(items, u)
  }

  lemma IndexedByUUIDStep(byUUID: map<string, VSItem>, items: seq<VSItem>, vs: VSItem)
    requires IndexedByUUID(byUUID, items)
    ensures IndexedByUUID(if vs.uuid != "" then byUUID[vs.uuid := vs] else byUUID, items + [vs])
  {
    assert (items + [vs])[..|items|] == items;
  }

  lemma IndexedByParentStep(byParent: map<string, seq<VSItem>>, items: seq<VSItem>, vs: VSItem)
    requires IndexedByParent(byParent, items)
    ensures var parent := RefUUID(vs.vhParentRef);
            IndexedByParent(
              if parent != "" then byParent[parent := (if parent in byParent then byParent[parent] else []) + [vs]] else byParent,
              items + [vs])
  {
    hide RefUUID;
    assert (items + [vs])[..|items|] == items;
    var parent := RefUUID(vs.vhParentRef);
    forall u ensures Children(items + [vs], u) == Children(items, u) + if u != "" && parent == u then [vs] else [] {
    }
  }

  method IndexChildren(items: seq<VSItem>) returns (byUUID: map<string, VSItem>, byParent: map<string, seq<VSItem>>)
    ensures IndexedByUUID(byUUID, items) && IndexedByParent(byParent, items)
  {
    byUUID, byParent := map[], map[];
    for i := 0 to |items|
      invariant IndexedByUUID(byUUID, items[..i]) && IndexedByParent(byParent, items[..i])
    {
      hide RefUUID, IndexedByUUID, IndexedByParent;
      assert items[..i + 1] == items[..i] + [items[i]];
      var vs := items[i];
      IndexedByUUIDStep(byUUID, items[..i], vs);
      IndexedByParentStep(byParent, items[..i], vs);
      if vs.uuid != "" {
        byUUID := byUUID[vs.uuid := vs];
      }
      var parent := RefUUID(vs.vhParentRef);
      if parent != "" {
        byParent := byParent[parent := (if parent in byParent then byParent[parent] else []) + [vs]];
      }
    }
    assert items[..|items|] == items;
  }

  /** Runtime child references resolved against the inventory. */
  method ResolveRuntimeChildren(items: seq<VSItem>, refs: seq<string>, byUUID: map<string, VSItem>) returns (r: seq<VSItem>)
    requires IndexedByUUID(byUUID, items)
    ensures r == RuntimeChildren(items, refs)
  {
    r := [];
    for k := 0 to |refs|
      invariant r == RuntimeChildren(items, refs[..k])
    {
      hide RefUUID, Lookup;
      assert refs[..k + 1][..k] == refs[..k];
      var uuid := RefUUID(refs[k]);
      assert (if uuid in byUUID then Some(byUUID[uuid]) else None) == Lookup(items, uuid);
      if uuid in byUUID {
        r := r + [byUUID[uuid]];
      }
    }
    assert refs[..|refs|] == refs;
  }

  method BuildLinkIndex(vsItems: seq<VSItem>) returns (index: LinkIndex)
    ensures fresh(index) && index.Valid()
    ensures forall v :: index.Linked(v) == Links(vsItems, v)
  {
    hide RefUUID, Lookup, Children, RuntimeChildren, AddAll;
    var byUUID, byParent := IndexChildren(vsItems);
    index := new LinkIndex();
    for i := 0 to |vsItems|
      invariant fresh(index) && index.Valid()
      invariant forall v :: index.Linked(v) == LinksUpTo(vsItems, i, v)
    {
      var vs := vsItems[i];
      var vsvipUUID := RefUUID(vs.vsvipRef);
      if vsvipUUID == "" {
        continue;
      }
      var children := if vs.uuid in byParent then byParent[vs.uuid] else [];
      var runtimeChildren := ResolveRuntimeChildren(vsItems, vs.vhChildRefs, byUUID);
      assert children == Children(vsItems, vs.uuid);
      index.AddAllLinked(vsvipUUID, [vs] + children + runtimeChildren);
    }
  }

  // ---- enrichVsVipConfigFromVS ----

  function FilledRef(r: VsRef): VsRef {
    if r.uuid == "" then r.(uuid := RefUUID(r.ref)) else r
  }

  function FilledRefs(refs: seq<VsRef>): (r: seq<VsRef>)
    ensures |r| == |refs|
  {
    if refs == [] then []
    else FilledRefs(refs[..|refs| - 1]) + [FilledRef(refs[|refs| - 1])]
  }

  function AppendMissing(refs: seq<VsRef>, linked: seq<VSItem>): seq<VsRef> {
    if linked == [] then refs
    else
      var n := |linked| - 1;
      var before := AppendMissing(refs, linked[..n]);
      if linked[n].uuid == "" || (exists r :: r in before && r.uuid == linked[n].uuid) then before
      else before + [VsRef(linked[n].uuid, linked[n].url)]
  }

  function MergedRefs(refs: seq<VsRef>, linked: seq<VSItem>): seq<VsRef> {
    AppendMissing(FilledRefs(refs), linked)
  }

  ghost function NamedUUIDs(refs: seq<VsRef>): set<string> {
    set r | r in refs && r.uuid != "" :: r.uuid
  }

  lemma {:induction false} FilledRefsAre(refs: seq<VsRef>, filled: seq<VsRef>)
    requires |filled| == |refs| && forall k :: 0 <= k < |refs| ==> filled[k] == FilledRef(refs[k])
    ensures filled == FilledRefs(refs)
  {
    hide FilledRef;
    if refs != [] {
      var n := |refs| - 1;
      FilledRefsAre(refs[..n], filled[..n]);
      assert filled == filled[..n] + [filled[n]];
    }
  }

  lemma NoNamedUUIDs()
    ensures NamedUUIDs([]) == {}
  {
  }

  lemma NamedUUIDsMember(refs: seq<VsRef>, uuid: string)
    requires uuid != ""
    ensures uuid in NamedUUIDs(refs) <==> exists r :: r in refs && r.uuid == uuid
  {
  }

  lemma NamedUUIDsStep(refs: seq<VsRef>, r: VsRef)
    ensures NamedUUIDs(refs + [r]) == NamedUUIDs(refs) + if r.uuid != "" then {r.uuid} else {}
  {
  }

  function FirstCreatedBy(items: seq<VSItem>, akoOnly: bool): string {
    if items == [] then ""
    else if (if akoOnly then IsAKOManaged(items[0].createdBy) else items[0].createdBy != "") then items[0].createdBy
    else FirstCreatedBy(items[1..], akoOnly)
  }

  function LinkedCreatedBy(items: seq<VSItem>): string {
    Or(FirstCreatedBy(items, true), FirstCreatedBy(items, false))
  }

  /** The creator taken over is the first managed one if there is any, else the first one named at all. */
  lemma {:induction false} FirstCreatedByIs(items: seq<VSItem>, akoOnly: bool, i: nat)
    requires i < |items|
    requires if akoOnly then IsAKOManaged(items[i].createdBy) else items[i].createdBy != ""
    requires forall k :: 0 <= k < i ==> if akoOnly then !IsAKOManaged(items[k].createdBy) else items[k].createdBy == ""
    ensures FirstCreatedBy(items, akoOnly) == items[i].createdBy
  {
    hide IsAKOManaged;
    if i > 0 {
      assert forall k :: 0 <= k < |items| - 1 ==> items[1..][k] == items[k + 1];
      assert !(if akoOnly then IsAKOManaged(items[0].createdBy) else items[0].createdBy != "");
      FirstCreatedByIs(items[1..], akoOnly, i - 1);
    }
  }

  lemma {:induction false} NobodyCreated(items: seq<VSItem>, akoOnly: bool)
    requires forall k :: 0 <= k < |items| ==> if akoOnly then !IsAKOManaged(items[k].createdBy) else items[k].createdBy == ""
    ensures FirstCreatedBy(items, akoOnly) == ""
  {
    hide IsAKOManaged;
    if items != [] {
      assert forall k :: 0 <= k < |items| - 1 ==> items[1..][k] == items[k + 1];
      assert !(if akoOnly then IsAKOManaged(items[0].createdBy) else items[0].createdBy != "");
      NobodyCreated(items[1..], akoOnly);
    }
  }

  /** Item i lends its creator: it is the first managed one, whose name starts with "ako-", or nobody is
      managed and it is the first named. */
  ghost predicate LendsCreator(items: seq<VSItem>, i: nat) {
    && i < |items|
    && if "ako-" <= items[i].createdBy then forall k :: 0 <= k < i ==> !("ako-" <= items[k].createdBy)
       else
         && items[i].createdBy != ""
         && (forall k :: 0 <= k < |items| ==> !("ako-" <= items[k].createdBy))
         && (forall k :: 0 <= k < i ==> items[k].createdBy == "")
  }

  lemma LinkedCreatedByIs(items: seq<VSItem>, i: nat)
    ensures LendsCreator(items, i) ==> LinkedCreatedBy(items) == items[i].createdBy
    ensures (forall k :: 0 <= k < |items| ==> items[k].createdBy == "") ==> LinkedCreatedBy(items) == ""
  {
    if LendsCreator(items, i) {
      if IsAKOManaged(items[i].createdBy) {
        FirstCreatedByIs(items, true, i);
      } else {
        NobodyCreated(items, true);
        FirstCreatedByIs(items, false, i);
      }
    }
    if forall k :: 0 <= k < |items| ==> items[k].createdBy == "" {
      NobodyCreated(items, true);
      NobodyCreated(items, false);
    }
    hide FirstCreatedBy;
  }

  function Score(mi: MarkerInfo): nat {
    (if mi.clusterName != "" then 1 else 0)
    + (if mi.host != "" then 2 else 0)
    + (if mi.ingressName != "" then 4 else 0)
    + (if mi.serviceName != "" then 8 else 0)
    + (if mi.namespace != "" then 16 else 0)
  }

  datatype LabelName = Namespace | Host | Service | Ingress

  function Get(mi: MarkerInfo, name: LabelName): string {
    match name
    case Namespace => mi.namespace
    case Host => mi.host
    case Service => mi.serviceName
    case Ingress => mi.ingressName
  }

  /** The one non-empty value the items agree on, or "". */
  function Shared(items: seq<VSItem>, name: LabelName): string {
    if items == [] then ""
    else
      var n := |items| - 1;
      var v := Get(VSLabels(items[n]), name);
      if v == "" then Shared(items[..n], name)
      else if forall k :: 0 <= k < n ==> Get(VSLabels(items[k]), name) in {"", v} then v
      else ""
  }

  function FillNamespace(v: VsVipItem, linked: seq<VSItem>): VsVipItem {
    if VipLabels(v).namespace != "" then v
    else v.(metadata := v.metadata.(namespace := Shared(linked, Namespace)))
  }

  function FillHost(v: VsVipItem, linked: seq<VSItem>): VsVipItem {
    if VipLabels(v).host != "" || Shared(linked, Host) == "" then v
    else v.(metadata := v.metadata.(hostnames := [Shared(linked, Host)]))
  }

  function FillService(v: VsVipItem, linked: seq<VSItem>): VsVipItem {
    if VipLabels(v).serviceName != "" || Shared(linked, Service) == "" then v
    else v.(metadata := v.metadata.(namespaceSvcName := [NamespacedValue(VipLabels(v).namespace, Shared(linked, Service))]))
  }

  function FillIngress(v: VsVipItem, linked: seq<VSItem>): VsVipItem {
    if VipLabels(v).ingressName != "" || Shared(linked, Ingress) == "" then v
    else v.(metadata := v.metadata.(namespaceIngressName := [NamespacedValue(VipLabels(v).namespace, Shared(linked, Ingress))]))
  }

  function FillUnique(v: VsVipItem, linked: seq<VSItem>): VsVipItem {
    FillIngress(FillService(FillHost(FillNamespace(v, linked), linked), linked), linked)
  }

  function AdoptCreatedBy(v: VsVipItem, linked: seq<VSItem>): VsVipItem {
    v.(createdBy := Or(v.createdBy, LinkedCreatedBy(linked)))
  }

  /** A sole virtual service lends its markers when they score higher, its metadata when there is none. */
  function Adopt(v: VsVipItem, src: VSItem): VsVipItem {
    var markers := if Score(VSLabels(src)) > Score(VipLabels(v)) then src.markers else v.markers;
    v.(markers := markers,
       metadata := if v.metadata.Empty() && !src.metadata.Empty() then src.metadata else v.metadata)
  }

  function Enriched(v: VsVipItem, linked: seq<VSItem>): VsVipItem {
    var v1 := v.(virtualServices := MergedRefs(v.virtualServices, linked));
    var v2 := if linked == [] then v1 else AdoptCreatedBy(v1, linked);
    FillUnique(if |linked| == 1 then Adopt(v2, linked[0]) else v2, linked)
  }

  function EnrichedItem(v: VsVipItem, vsItems: seq<VSItem>): VsVipItem {
    var linked := Links(vsItems, v.uuid);
    if linked == [] then v else Enriched(v, linked)
  }

  /** What enrichVsVipInventory makes of the whole inventory. */
  function EnrichedInventory(items: seq<VsVipItem>, vsItems: seq<VSItem>): (r: seq<VsVipItem>)
    ensures |r| == |items|
  {
    if items == [] then []
    else EnrichedInventory(items[..|items| - 1], vsItems) + [EnrichedItem(items[|items| - 1], vsItems)]
  }

  method UniqueVSMetadataValue(items: seq<VSItem>, name: LabelName) returns (unique: string)
    ensures unique == Shared(items, name)
  {
    hide ObjectLabels, Get;
    unique := "";
    for i := 0 to |items|
      invariant unique == Shared(items[..i], name)
      invariant forall k :: 0 <= k < i ==> Get(VSLabels(items[k]), name) in {"", unique}
    {
      assert items[..i + 1][..i] == items[..i];
      var mi := ParseObjectMetadata(items[i].markers, items[i].metadata);
      var v := Get(mi, name);
      if v == "" {
        continue;
      }
      if unique == "" {
        unique := v;
        continue;
      }
      if unique != v {
        SharedIsHeld(items[..i], name);
        var k :| 0 <= k < i && Get(VSLabels(items[..i][k]), name) == unique;
        SharedDiffers(items, k, i, name);
        unique := "";
        return;
      }
    }
    assert items[..|items|] == items;
  }

  lemma {:induction false} SharedIsHeld(items: seq<VSItem>, name: LabelName)
    requires Shared(items, name) != ""
    ensures exists k :: 0 <= k < |items| && Get(VSLabels(items[k]), name) == Shared(items, name)
  {
    hide VSLabels;
    var n := |items| - 1;
    if Get(VSLabels(items[n]), name) == "" {
      SharedIsHeld(items[..n], name);
      var k :| 0 <= k < n && Get(VSLabels(items[..n][k]), name) == Shared(items, name);
      assert items[k] == items[..n][k];
    }
  }

  /** Two different values anywhere leave nothing shared. */
  lemma {:induction false} SharedDiffers(items: seq<VSItem>, j: nat, k: nat, name: LabelName)
    requires j < k < |items|
    requires Get(VSLabels(items[j]), name) != "" && Get(VSLabels(items[k]), name) != ""
    requires Get(VSLabels(items[j]), name) != Get(VSLabels(items[k]), name)
    ensures Shared(items, name) == ""
  {
    hide VSLabels, Get;
    var last := |items| - 1;
    if Get(VSLabels(items[last]), name) == "" {
      SharedDiffers(items[..last], j, k, name);
    }
  }

  function SourceScore(x: VSItem): nat {
    Score(VSLabels(x)) + if IsAKOManaged(x.createdBy) then 1 else 0
  }

  /** The first item with the highest score. */
  method BestVsVipMetadataSource(items: seq<VSItem>) returns (best: int)
    ensures best == -1 <==> items == []
    ensures -1 <= best < |items|
    ensures best >= 0 ==> forall k :: 0 <= k < |items| ==> SourceScore(items[k]) <= SourceScore(items[best])
    ensures best >= 0 ==> forall k :: 0 <= k < best ==> SourceScore(items[k]) < SourceScore(items[best])
  {
    hide ObjectLabels, Score;
    best := -1;
    var bestScore: int := -1;
    for i := 0 to |items|
      invariant -1 <= best < i
      invariant best == -1 <==> i == 0
      invariant bestScore == if best == -1 then -1 else SourceScore(items[best])
      invariant forall k :: 0 <= k < i ==> SourceScore(items[k]) <= bestScore
      invariant forall k :: 0 <= k < best ==> SourceScore(items[k]) < bestScore
    {
      var mi := ParseObjectMetadata(items[i].markers, items[i].metadata);
      var score := Score(mi);
      if IsAKOManaged(items[i].createdBy) {
        score := score + 1;
      }
      if score > bestScore {
        best := i;
        bestScore := score;
      }
    }
  }

  /** One VsVip's configuration, enriched in place. */
  class VsVipConfig {
    const uuid: string
    const name: string
    const runtime: seq<string>
    var createdBy: string
    var markers: seq<Marker>
    var metadata: ServiceMetadata
    var virtualServices: seq<VsRef>

    function View(): VsVipItem
      reads this
    {
      VsVipItem(uuid, name, createdBy, markers, metadata, virtualServices, runtime)
    }

    constructor (v: VsVipItem)
      ensures View() == v
    {
      uuid, name, runtime := v.uuid, v.name, v.runtime;
      createdBy, markers, metadata, virtualServices := v.createdBy, v.markers, v.metadata, v.virtualServices;
    }

    method FillRefUUIDs() returns (seen: set<string>)
      modifies this`virtualServices
      ensures virtualServices == FilledRefs(old(virtualServices))
      ensures seen == NamedUUIDs(virtualServices)
    {
      hide RefUUID, NamedUUIDs, FilledRefs;
      seen := {};
      assert NamedUUIDs([]) == {} by { NoNamedUUIDs(); }
      var refs := virtualServices;
      for i := 0 to |refs|
        invariant |virtualServices| == |refs|
        invariant forall k :: 0 <= k < i ==> virtualServices[k] == FilledRef(refs[k])
        invariant forall k :: i <= k < |refs| ==> virtualServices[k] == refs[k]
        invariant seen == NamedUUIDs(virtualServices[..i])
      {
        ghost var before := virtualServices[..i];
        var uuid := virtualServices[i].uuid;
        if uuid == "" {
          uuid := RefUUID(virtualServices[i].ref);
          virtualServices := virtualServices[i := virtualServices[i].(uuid := uuid)];
        }
        assert virtualServices[..i + 1] == before + [virtualServices[i]];
        NamedUUIDsStep(before, virtualServices[i]);
        if uuid != "" {
          seen := seen + {uuid};
        }
      }
      assert virtualServices[..|refs|] == virtualServices;
      FilledRefsAre(refs, virtualServices);
    }

    method MergeVirtualServices(linked: seq<VSItem>)
      modifies this`virtualServices
      ensures virtualServices == MergedRefs(old(virtualServices), linked)
    {
      hide NamedUUIDs, FilledRefs;
      var seen := FillRefUUIDs();
      ghost var filled := virtualServices;
      for i := 0 to |linked|
        invariant virtualServices == AppendMissing(filled, linked[..i])
        invariant seen == NamedUUIDs(virtualServices)
      {
        assert linked[..i + 1][..i] == linked[..i];
        if linked[i].uuid != "" {
          NamedUUIDsMember(virtualServices, linked[i].uuid);
        }
        NamedUUIDsStep(virtualServices, VsRef(linked[i].uuid, linked[i].url));
        if linked[i].uuid == "" || linked[i].uuid in seen {
          continue;
        }
        virtualServices := virtualServices + [VsRef(linked[i].uuid, linked[i].url)];
        seen := seen + {linked[i].uuid};
      }
      assert linked[..|linked|] == linked;
    }

    method FillUniqueMetadata(linked: seq<VSItem>)
      modifies this`metadata
      ensures View() == FillUnique(old(View()), linked)
    {
      hide ObjectLabels, Shared;
      var mi := ParseObjectMetadata(markers, metadata);
      if mi.namespace == "" {
        var namespace := UniqueVSMetadataValue(linked, Namespace);
        metadata := metadata.(namespace := namespace);
        mi := ParseObjectMetadata(markers, metadata);
      }
      assert View() == FillNamespace(old(View()), linked);
      if mi.host == "" {
        var host := UniqueVSMetadataValue(linked, Host);
        if host != "" {
          metadata := metadata.(hostnames := [host]);
        }
        mi := ParseObjectMetadata(markers, metadata);
      }
      assert View() == FillHost(FillNamespace(old(View()), linked), linked);
      if mi.serviceName == "" {
        var service := UniqueVSMetadataValue(linked, Service);
        if service != "" {
          metadata := metadata.(namespaceSvcName := [NamespacedValue(mi.namespace, service)]);
        }
        mi := ParseObjectMetadata(markers, metadata);
      }
      assert View() == FillService(FillHost(FillNamespace(old(View()), linked), linked), linked);
      if mi.ingressName == "" {
        var ingress := UniqueVSMetadataValue(linked, Ingress);
        if ingress != "" {
          metadata := metadata.(namespaceIngressName := [NamespacedValue(mi.namespace, ingress)]);
        }
      }
    }

    method EnrichFromVS(linked: seq<VSItem>)
      modifies this
      ensures View() == Enriched(old(View()), linked)
    {
      hide ObjectLabels, Shared, FillUnique, MergedRefs, FirstCreatedBy, Score;
      MergeVirtualServices(linked);
      var best := BestVsVipMetadataSource(linked);
      if best >= 0 {
        if createdBy == "" {
          createdBy := LinkedCreatedBy(linked);
        }
        if |linked| == 1 {
          var src := linked[best];
          var srcLabels := ParseObjectMetadata(src.markers, src.metadata);
          var labels := ParseObjectMetadata(markers, metadata);
          if Score(srcLabels) > Score(labels) {
            markers := src.markers;
          }
          if metadata.Empty() && !src.metadata.Empty() {
            metadata := src.metadata;
          }
        }
      }
      FillUniqueMetadata(linked);
    }
  }

  lemma NothingLinked()
    ensures forall v :: Links([], v) == []
  {
  }

  /** The items are the entries of one slice, hence distinct objects. */
  method EnrichVsVipInventory(items: seq<VsVipConfig>, vsItems: seq<VSItem>)
    requires NoDuplicates(items)
    modifies items
    ensures forall i :: 0 <= i < |items| ==> items[i].View() == EnrichedItem(old(items[i].View()), vsItems)
  {
    hide Links, Enriched, LinkIndex.Linked;
    if |items| == 0 || |vsItems| == 0 {
      assert vsItems == [] ==> forall v :: Links(vsItems, v) == [] by { NothingLinked(); }
      return;
    }
    var index := BuildLinkIndex(vsItems);
    for i := 0 to |items|
      invariant fresh(index) && index.Valid()
      invariant forall v :: index.Linked(v) == Links(vsItems, v)
      invariant forall k :: 0 <= k < i ==> items[k].View() == EnrichedItem(old(items[k].View()), vsItems)
      invariant forall k :: i <= k < |items| ==> items[k].View() == old(items[k].View())
    {
      var linked := index.Linked(items[i].uuid);
      if |linked| == 0 {
        continue;
      }
      items[i].EnrichFromVS(linked);
    }
  }
}
