/** What the whole enrichment pass makes of each VsVip, read off the two inventories
    (collector/enrichment.go, enrichVsVipInventory). */
module EnrichmentItems {
  import opened Prelude
  import opened Inventory
  import opened Markers
  import opened Enrichment
  import opened EnrichmentLinks
  import opened EnrichmentLabels

  // ---- which services count ----

  /** The services linked to a VsVip: for each UUID that is reachable from it one service of the inventory
      with it, and no other. */
  ghost predicate Linkage(vsItems: seq<VSItem>, vsvip: string, linked: seq<VSItem>) {
    && (forall uuid :: HasUUID(linked, uuid) <==> Reachable(vsItems, vsvip, uuid))
    && DistinctUUIDs(linked)
    && forall x :: x in linked ==> x in vsItems
  }

  // ---- the list of services and the creator ----

  /** The old entries stay in order, with a missing UUID read off the reference; behind them, each once,
      come the reachable services that were not named. */
  ghost predicate ServicesMerged(vsItems: seq<VSItem>, v: VsVipItem, w: VsVipItem, linked: seq<VSItem>) {
    var n := |v.virtualServices|;
    && |w.virtualServices| >= n
    && (forall i :: 0 <= i < n ==>
          && w.virtualServices[i].ref == v.virtualServices[i].ref
          && w.virtualServices[i].uuid == (if v.virtualServices[i].uuid != "" then v.virtualServices[i].uuid
                                           else RefUUID(v.virtualServices[i].ref)))
    && (forall uuid :: Reachable(vsItems, v.uuid, uuid) ==> RefsHave(w.virtualServices, uuid))
    && (forall i, j :: 0 <= i < j < |w.virtualServices| && n <= j ==> w.virtualServices[i].uuid != w.virtualServices[j].uuid)
    && (forall j :: n <= j < |w.virtualServices| ==>
          exists x :: x in linked && w.virtualServices[j] == VsRef(x.uuid, x.url))
  }

  ghost predicate CreatorTaken(v: VsVipItem, w: VsVipItem, linked: seq<VSItem>) {
    && (v.createdBy != "" ==> w.createdBy == v.createdBy)
    && (v.createdBy == "" ==>
          && (forall i: nat :: LendsCreator(linked, i) ==> w.createdBy == linked[i].createdBy)
          && ((forall k :: 0 <= k < |linked| ==> linked[k].createdBy == "") ==> w.createdBy == ""))
  }

  // ---- the labels ----

  /** Some linked service has this value, and none has another. */
  ghost predicate SharedBy(linked: seq<VSItem>, name: LabelName, u: string) {
    && u != ""
    && (exists k :: 0 <= k < |linked| && Get(VSLabels(linked[k]), name) == u)
    && forall k :: 0 <= k < |linked| ==> Get(VSLabels(linked[k]), name) in {"", u}
  }

  /** A label that was there stays; a missing one becomes u exactly if the linked services share u. */
  ghost predicate LabelFilled(m: MarkerInfo, w: MarkerInfo, linked: seq<VSItem>, name: LabelName) {
    if Get(m, name) != "" then Get(w, name) == Get(m, name)
    else forall u :: u != "" ==> (Get(w, name) == u <==> SharedBy(linked, name, u))
  }

  ghost predicate LabelsFilled(m: MarkerInfo, w: MarkerInfo, linked: seq<VSItem>) {
    && w.clusterName == m.clusterName && w.gatewayName == m.gatewayName && w.path == m.path && w.infraSetting == m.infraSetting
    && forall name :: LabelFilled(m, w, linked, name)
  }

  /** The namespace there is before names are written. */
  ghost predicate NamespaceKnown(m: MarkerInfo, linked: seq<VSItem>, ns: string) {
    if m.namespace != "" then ns == m.namespace
    else if ns != "" then SharedBy(linked, Namespace, ns)
    else forall u :: !SharedBy(linked, Namespace, u)
  }

  /** No name that is to be written has a "/" without a namespace before it, nor a namespace with one. */
  ghost predicate NamesReadable(m: MarkerInfo, linked: seq<VSItem>) {
    forall ns, name, u :: NamespaceKnown(m, linked, ns) && (name == Service || name == Ingress) && Get(m, name) == ""
                          && SharedBy(linked, name, u)
                          ==> if ns == "" then '/' !in u else '/' !in ns
  }

  predicate NoMetadata(md: ServiceMetadata) {
    && md.namespace == "" && md.ingressName == "" && md.namespaceIngressName == [] && md.hostnames == []
    && md.namespaceSvcName == [] && !md.otherLabels
  }

  /** The markers and the metadata that count before labels are filled: a sole service lends its markers if
      it scores higher, and its metadata if the VsVip has none. */
  ghost predicate Lent(v: VsVipItem, linked: seq<VSItem>, markers: seq<Marker>, metadata: ServiceMetadata) {
    if |linked| == 1 then
      && markers == (if Score(VSLabels(linked[0])) > Score(VipLabels(v)) then linked[0].markers else v.markers)
      && metadata == (if NoMetadata(v.metadata) && !NoMetadata(linked[0].metadata) then linked[0].metadata else v.metadata)
    else markers == v.markers && metadata == v.metadata
  }

  lemma NoMetadataIs(md: ServiceMetadata)
    ensures NoMetadata(md) == md.Empty()
  {
  }

  /** The labels that scoring looks at, the weightiest first. */
  function Ranked(mi: MarkerInfo): seq<string> {
    [mi.namespace, mi.serviceName, mi.ingressName, mi.host, mi.clusterName]
  }

  /** Of two label records the one scores higher that has the weightiest label that only one of them has. */
  lemma ScoreIsByWeightiest(a: MarkerInfo, b: MarkerInfo)
    ensures Score(a) > Score(b) <==>
              exists k :: 0 <= k < 5 && Ranked(a)[k] != "" && Ranked(b)[k] == ""
                          && forall j :: 0 <= j < k ==> (Ranked(a)[j] == "" <==> Ranked(b)[j] == "")
  {
    var x, y := Ranked(a), Ranked(b);
    if Score(a) > Score(b) {
      var k := if (x[0] == "") != (y[0] == "") then 0 else if (x[1] == "") != (y[1] == "") then 1
               else if (x[2] == "") != (y[2] == "") then 2 else if (x[3] == "") != (y[3] == "") then 3 else 4;
      assert x[k] != "" && y[k] == "";
    }
    if k :| 0 <= k < 5 && x[k] != "" && y[k] == "" && forall j :: 0 <= j < k ==> (x[j] == "" <==> y[j] == "") {
      assert k > 0 ==> (x[0] == "" <==> y[0] == "");
      assert k > 1 ==> (x[1] == "" <==> y[1] == "");
      assert k > 2 ==> (x[2] == "" <==> y[2] == "");
      assert k > 3 ==> (x[3] == "" <==> y[3] == "");
      assert k == 0 || k == 1 || k == 2 || k == 3 || k == 4;
    }
  }

  ghost predicate LabelsTaken(v: VsVipItem, w: VsVipItem, linked: seq<VSItem>) {
    exists metadata ::
      && Lent(v, linked, w.markers, metadata)
      && var m := ObjectLabels(w.markers, metadata);
         LabelsFilled(m, VipLabels(w), linked) <==> NamesReadable(m, linked)
  }

  /** w is what the pass makes of v. */
  ghost predicate IsEnriched(vsItems: seq<VSItem>, v: VsVipItem, w: VsVipItem) {
    exists linked ::
      && Linkage(vsItems, v.uuid, linked)
      && (linked == [] ==> w == v)
      && w.uuid == v.uuid && w.name == v.name && w.runtime == v.runtime
      && (linked != [] ==>
            && ServicesMerged(vsItems, v, w, linked)
            && CreatorTaken(v, w, linked)
            && LabelsTaken(v, w, linked))
  }

  // ---- proofs ----

  lemma LinksAreLinkage(vsItems: seq<VSItem>, vsvip: string)
    ensures Linkage(vsItems, vsvip, Links(vsItems, vsvip))
  {
    hide Links, HasUUID, Reachable, DistinctUUIDs;
    forall uuid {
      LinksExact(vsItems, vsvip, uuid);
    }
    LinksExact(vsItems, vsvip, "");
  }

  lemma {:induction false} AppendedAre(refs: seq<VsRef>, linked: seq<VSItem>)
    ensures |AppendMissing(refs, linked)| >= |refs|
    ensures forall j :: |refs| <= j < |AppendMissing(refs, linked)| ==>
              exists x :: x in linked && AppendMissing(refs, linked)[j] == VsRef(x.uuid, x.url)
  {
    if linked != [] {
      var n := |linked| - 1;
      AppendedAre(refs, linked[..n]);
      assert linked[n] in linked;
      var before := AppendMissing(refs, linked[..n]);
      forall j | |refs| <= j < |before| ensures exists x :: x in linked && before[j] == VsRef(x.uuid, x.url) {
        var x :| x in linked[..n] && before[j] == VsRef(x.uuid, x.url);
        assert x in linked;
      }
    }
  }

  lemma MergedServices(vsItems: seq<VSItem>, v: VsVipItem, w: VsVipItem, linked: seq<VSItem>)
    requires Linkage(vsItems, v.uuid, linked) && w.virtualServices == MergedRefs(v.virtualServices, linked)
    ensures ServicesMerged(vsItems, v, w, linked)
  {
    hide RefUUID, Reachable, AppendMissing, DistinctUUIDs, HasUUID, RefsHave;
    MergeExact(v.virtualServices, linked, "x");
    AppendedAre(FilledRefs(v.virtualServices), linked);
    assert |w.virtualServices| >= |v.virtualServices|;
    assert forall i :: 0 <= i < |v.virtualServices| ==> w.virtualServices[i] == FilledRef(v.virtualServices[i]);
    assert forall j :: |v.virtualServices| <= j < |w.virtualServices| ==>
          exists x :: x in linked && w.virtualServices[j] == VsRef(x.uuid, x.url);
    assert (forall i, j :: 0 <= i < j < |w.virtualServices| && |v.virtualServices| <= j ==> w.virtualServices[i].uuid != w.virtualServices[j].uuid);
    forall uuid | Reachable(vsItems, v.uuid, uuid) ensures RefsHave(w.virtualServices, uuid) {
      ReachableNamed(vsItems, v.uuid, uuid);
      MergeExact(v.virtualServices, linked, uuid);
    }
  }

  lemma ReachableNamed(vsItems: seq<VSItem>, vsvip: string, uuid: string)
    requires Reachable(vsItems, vsvip, uuid)
    ensures uuid != ""
  {
  }

  lemma SharedIs(linked: seq<VSItem>, name: LabelName, u: string)
    requires u != ""
    ensures Shared(linked, name) == u <==> SharedBy(linked, name, u)
  {
    SharedExact(linked, name, u);
  }

  lemma SharedNothing(linked: seq<VSItem>, name: LabelName)
    ensures Shared(linked, name) == "" <==> forall u :: !SharedBy(linked, name, u)
  {
    hide Shared, VSLabels;
    if Shared(linked, name) != "" {
      SharedIs(linked, name, Shared(linked, name));
    }
    forall u | u != "" && SharedBy(linked, name, u) ensures Shared(linked, name) != "" {
      SharedIs(linked, name, u);
    }
  }

  lemma LabelFilledIs(m: MarkerInfo, w: MarkerInfo, linked: seq<VSItem>, name: LabelName)
    ensures LabelFilled(m, w, linked, name) <==> Get(w, name) == Or(Get(m, name), Shared(linked, name))
  {
    hide Shared, SharedBy, Get;
    forall u | u != "" ensures Shared(linked, name) == u <==> SharedBy(linked, name, u) {
      SharedIs(linked, name, u);
    }
    if Get(m, name) == "" && LabelFilled(m, w, linked, name) {
      var one, two := Get(w, name), Shared(linked, name);
      assert one != "" ==> SharedBy(linked, name, one);
      assert two != "" ==> SharedBy(linked, name, two);
    }
  }

  lemma LabelsFilledIs(m: MarkerInfo, w: MarkerInfo, linked: seq<VSItem>)
    ensures LabelsFilled(m, w, linked) <==> w == IdealLabels(m, FillOf(linked))
  {
    hide Shared, LabelFilled;
    LabelFilledIs(m, w, linked, Namespace);
    LabelFilledIs(m, w, linked, Host);
    LabelFilledIs(m, w, linked, Service);
    LabelFilledIs(m, w, linked, Ingress);
    if w == IdealLabels(m, FillOf(linked)) {
      forall name ensures LabelFilled(m, w, linked, name) {
        LabelFilledIs(m, w, linked, name);
      }
    }
  }

  lemma NamespaceKnownIs(m: MarkerInfo, linked: seq<VSItem>, ns: string)
    ensures NamespaceKnown(m, linked, ns) <==> ns == Or(m.namespace, Shared(linked, Namespace))
  {
    hide Shared, SharedBy;
    if ns != "" {
      SharedIs(linked, Namespace, ns);
    }
    SharedNothing(linked, Namespace);
  }

  lemma NamesReadableIs(m: MarkerInfo, linked: seq<VSItem>)
    ensures NamesReadable(m, linked) <==> Writable(m, FillOf(linked))
  {
    hide Shared, SharedBy, NamespaceKnown;
    var known := Or(m.namespace, Shared(linked, Namespace));
    forall ns ensures NamespaceKnown(m, linked, ns) <==> ns == known {
      NamespaceKnownIs(m, linked, ns);
    }
    forall name, u ensures SharedBy(linked, name, u) <==> u != "" && u == Shared(linked, name) {
      if u != "" {
        SharedIs(linked, name, u);
      } else {
        NothingIsShared(linked, name);
      }
    }
    assert NamespaceKnown(m, linked, known);
    if NamesReadable(m, linked) {
      var service, ingress := Shared(linked, Service), Shared(linked, Ingress);
      assert service != "" ==> SharedBy(linked, Service, service);
      assert ingress != "" ==> SharedBy(linked, Ingress, ingress);
    }
  }

  lemma NothingIsShared(linked: seq<VSItem>, name: LabelName)
    ensures !SharedBy(linked, name, "")
  {
  }

  lemma FillOnlyMetadata(v: VsVipItem, linked: seq<VSItem>)
    ensures FillUnique(v, linked) == v.(metadata := FillUnique(v, linked).metadata)
  {
    hide VipLabels, Shared, NamespacedValue;
  }

  lemma LinkedIsEnriched(vsItems: seq<VSItem>, v: VsVipItem, linked: seq<VSItem>)
    requires Linkage(vsItems, v.uuid, linked) && linked != []
    ensures var w := Enriched(v, linked);
            && w.uuid == v.uuid && w.name == v.name && w.runtime == v.runtime
            && ServicesMerged(vsItems, v, w, linked) && CreatorTaken(v, w, linked) && LabelsTaken(v, w, linked)
  {
    hide Linkage, FillUnique, Score, VipLabels, VSLabels, MergedRefs, LinkedCreatedBy, CreatorTaken, ServicesMerged, LabelsFilled, NamesReadable,
      ServiceMetadata.Empty, NoMetadata;
    var w := Enriched(v, linked);
    var v1 := v.(virtualServices := MergedRefs(v.virtualServices, linked));
    var v2 := AdoptCreatedBy(v1, linked);
    var v3 := if |linked| == 1 then Adopt(v2, linked[0]) else v2;
    FillOnlyMetadata(v3, linked);
    MergedServices(vsItems, v, w, linked);
    TakesCreator(v, w, linked);
    SameLabels(v, v2);
    NoMetadataIs(v.metadata);
    if |linked| == 1 {
      NoMetadataIs(linked[0].metadata);
    }
    assert Lent(v, linked, w.markers, v3.metadata);
    LabelsOfFill(v3, linked);
  }

  lemma TakesCreator(v: VsVipItem, w: VsVipItem, linked: seq<VSItem>)
    requires w.createdBy == Or(v.createdBy, LinkedCreatedBy(linked))
    ensures CreatorTaken(v, w, linked)
  {
    hide LinkedCreatedBy, IsAKOManaged;
    forall i: nat | LendsCreator(linked, i) ensures LinkedCreatedBy(linked) == linked[i].createdBy {
      LinkedCreatedByIs(linked, i);
    }
    LinkedCreatedByIs(linked, 0);
  }

  lemma SameLabels(v: VsVipItem, w: VsVipItem)
    requires v.markers == w.markers && v.metadata == w.metadata
    ensures VipLabels(v) == VipLabels(w)
  {
    hide ObjectLabels;
  }

  lemma LabelsOfFill(v: VsVipItem, linked: seq<VSItem>)
    ensures var m := ObjectLabels(v.markers, v.metadata);
            LabelsFilled(m, VipLabels(FillUnique(v, linked)), linked) <==> NamesReadable(m, linked)
  {
    hide ObjectLabels, FillUnique, LabelsFilled, NamesReadable, Writable, IdealLabels;
    FillExact(v, linked);
    LabelsFilledIs(VipLabels(v), VipLabels(FillUnique(v, linked)), linked);
    NamesReadableIs(VipLabels(v), linked);
  }

  /** Every element of the inventory is enriched from the reachable services, and only from them. */
  lemma ItemIsEnriched(vsItems: seq<VSItem>, v: VsVipItem)
    ensures IsEnriched(vsItems, v, EnrichedItem(v, vsItems))
  {
    hide Links, Enriched, Linkage, ServicesMerged, CreatorTaken, LabelsTaken;
    LinksAreLinkage(vsItems, v.uuid);
    var linked := Links(vsItems, v.uuid);
    if linked != [] {
      LinkedIsEnriched(vsItems, v, linked);
    }
  }

  lemma {:induction false} InventoryIsEnriched(items: seq<VsVipItem>, vsItems: seq<VSItem>, i: nat)
    requires i < |items|
    ensures IsEnriched(vsItems, items[i], EnrichedInventory(items, vsItems)[i])
  {
    hide EnrichedItem, IsEnriched;
    var n := |items| - 1;
    if i < n {
      InventoryIsEnriched(items[..n], vsItems, i);
    } else {
      ItemIsEnriched(vsItems, items[n]);
    }
  }
}
