/** Filling a VsVip's labels from its virtual services: a printer writes "namespace/name" pairs that
    the parser reads again. */
module EnrichmentLabels {
  import opened Prelude
  import opened Inventory
  import opened Markers
  import opened Enrichment
  import opened EnrichmentLinks

  // ---- the shared value ----

  /** The fill value is the one non-empty value all linked services share; "" when there is none. */
  lemma SharedExact(items: seq<VSItem>, name: LabelName, u: string)
    requires u != ""
    ensures Shared(items, name) == u
            <==> && (exists k :: 0 <= k < |items| && Get(VSLabels(items[k]), name) == u)
                 && (forall k :: 0 <= k < |items| ==> Get(VSLabels(items[k]), name) in {"", u})
  {
    hide VSLabels, Get;
    if items != [] {
      var n := |items| - 1;
      SharedExact(items[..n], name, u);
      assert forall k :: 0 <= k < n ==> items[..n][k] == items[k];
    }
  }

  // ---- what one write does when the object is parsed again ----

  lemma SplitParts(value: string)
    ensures '/' !in SplitNamespacedName(value).0
    ensures '/' !in value ==> SplitNamespacedName(value) == ("", value)
    ensures '/' in value ==> |SplitNamespacedName(value).1| < |value|
  {
  }

  lemma NameRereads(namespace: string, name: string)
    ensures SplitNamespacedName(NamespacedValue(namespace, name)).1 == name <==> Rereads(namespace, name)
  {
    NamespacedNameRoundTrip(namespace, name);
    var v := NamespacedValue(namespace, name);
    SplitParts(v);
    if namespace != "" && '/' in namespace {
      var i, k := IndexOf(v, '/'), IndexOf(namespace, '/');
      assert v[k] == namespace[k];
    }
  }

  lemma WriteHost(base: MarkerInfo, md: ServiceMetadata, h: string)
    requires Merged(base, md).host == ""
    ensures Merged(base, md.(hostnames := [h])) == Merged(base, md).(host := h)
  {
    hide SplitNamespacedName;
  }

  /** Writing the service leaves every other label alone, except that a missing namespace may be
      read off the written value. */
  lemma WriteService(base: MarkerInfo, md: ServiceMetadata, s: string)
    requires Merged(base, md).serviceName == "" && s != ""
    ensures var m := Merged(base, md);
            var value := NamespacedValue(m.namespace, s);
            var (ns, name) := SplitNamespacedName(value);
            Merged(base, md.(namespaceSvcName := [value])) == m.(serviceName := name, namespace := Or(m.namespace, ns))
  {
    hide SplitNamespacedName, NamespacedValue;
    var m := Merged(base, md);
    SplitParts(Head(md.namespaceSvcName));
    if m.namespace != "" {
      NamespaceSurvivesSplit(m.namespace, s);
    }
  }

  lemma WriteIngress(base: MarkerInfo, md: ServiceMetadata, s: string)
    requires Merged(base, md).ingressName == "" && s != ""
    ensures var m := Merged(base, md);
            var value := NamespacedValue(m.namespace, s);
            var (ns, name) := SplitNamespacedName(value);
            Merged(base, md.(namespaceIngressName := [value])) == m.(ingressName := name, namespace := Or(m.namespace, ns))
  {
    hide SplitNamespacedName, NamespacedValue;
    var m := Merged(base, md);
    SplitParts(Head(md.namespaceSvcName));
    SplitParts(Head(md.namespaceIngressName));
    if m.namespace != "" {
      NamespaceSurvivesSplit(m.namespace, s);
    }
  }

  // ---- the fill, seen on labels ----

  datatype Fill = Fill(namespace: string, host: string, service: string, ingress: string)

  function FillOf(linked: seq<VSItem>): Fill {
    Fill(Shared(linked, Namespace), Shared(linked, Host), Shared(linked, Service), Shared(linked, Ingress))
  }

  function AfterService(m: MarkerInfo, f: Fill): MarkerInfo {
    if m.serviceName != "" || f.service == "" then m
    else
      var (ns, name) := SplitNamespacedName(NamespacedValue(m.namespace, f.service));
      m.(serviceName := name, namespace := Or(m.namespace, ns))
  }

  function AfterIngress(m: MarkerInfo, f: Fill): MarkerInfo {
    if m.ingressName != "" || f.ingress == "" then m
    else
      var (ns, name) := SplitNamespacedName(NamespacedValue(m.namespace, f.ingress));
      m.(ingressName := name, namespace := Or(m.namespace, ns))
  }

  function FilledLabels(m: MarkerInfo, f: Fill): MarkerInfo {
    AfterIngress(AfterService(m.(namespace := Or(m.namespace, f.namespace), host := Or(m.host, f.host)), f), f)
  }

  /** Parsing the filled object again gives the labels the writes were meant to give. */
  lemma FillLabels(v: VsVipItem, linked: seq<VSItem>)
    ensures VipLabels(FillUnique(v, linked)) == FilledLabels(VipLabels(v), FillOf(linked))
  {
    hide MarkerLabels, Merged, Shared, SplitNamespacedName, NamespacedValue;
    var base := MarkerLabels(v.markers);
    if VipLabels(v).namespace == "" {
      WriteNamespace(base, v.metadata, Shared(linked, Namespace));
    }
    var v1 := FillNamespace(v, linked);
    if VipLabels(v1).host == "" {
      WriteHost(base, v1.metadata, Shared(linked, Host));
    }
    var v2 := FillHost(v1, linked);
    if VipLabels(v2).serviceName == "" && Shared(linked, Service) != "" {
      WriteService(base, v2.metadata, Shared(linked, Service));
    }
    var v3 := FillService(v2, linked);
    if VipLabels(v3).ingressName == "" && Shared(linked, Ingress) != "" {
      WriteIngress(base, v3.metadata, Shared(linked, Ingress));
    }
  }

  /** Each label keeps its value, or becomes the shared one. */
  function IdealLabels(m: MarkerInfo, f: Fill): MarkerInfo {
    m.(namespace := Or(m.namespace, f.namespace),
       host := Or(m.host, f.host),
       serviceName := Or(m.serviceName, f.service),
       ingressName := Or(m.ingressName, f.ingress))
  }

  /** The names about to be written contain no "/" that the parser would misplace. */
  predicate Writable(m: MarkerInfo, f: Fill) {
    var ns := Or(m.namespace, f.namespace);
    && (m.serviceName == "" && f.service != "" ==> Rereads(ns, f.service))
    && (m.ingressName == "" && f.ingress != "" ==> Rereads(ns, f.ingress))
  }

  lemma FilledLabelsIdeal(m: MarkerInfo, f: Fill)
    ensures FilledLabels(m, f) == IdealLabels(m, f) <==> Writable(m, f)
  {
    hide SplitNamespacedName, NamespacedValue, Rereads;
    var ns := Or(m.namespace, f.namespace);
    NameRereads(ns, f.service);
    NameRereads(ns, f.ingress);
    NamespacedNameRoundTrip(ns, f.service);
    NamespacedNameRoundTrip(ns, f.ingress);
  }

  /** fillVsVipUniqueMetadata gives every label its old value, or else the value all linked services
      share, exactly when no name to be written is misread because of a "/". */
  lemma FillExact(v: VsVipItem, linked: seq<VSItem>)
    ensures VipLabels(FillUnique(v, linked)) == IdealLabels(VipLabels(v), FillOf(linked))
            <==> Writable(VipLabels(v), FillOf(linked))
  {
    hide VipLabels, FillUnique, FilledLabels, IdealLabels, Writable;
    FillLabels(v, linked);
    FilledLabelsIdeal(VipLabels(v), FillOf(linked));
  }

  /** No write ever disturbs a label that had a value, whatever characters the names hold. */
  lemma FillKeepsLabels(v: VsVipItem, linked: seq<VSItem>, name: LabelName)
    requires Get(VipLabels(v), name) != ""
    ensures Get(VipLabels(FillUnique(v, linked)), name) == Get(VipLabels(v), name)
  {
    hide VipLabels, FillUnique, Shared, SplitNamespacedName, NamespacedValue;
    FillLabels(v, linked);
  }

  /** What a name reads back as: its namespace part and its name part. */
  function ReadNamespace(name: string): string {
    SplitNamespacedName(name).0
  }

  predicate ReadsEmpty(name: string) {
    SplitNamespacedName(name).1 == ""
  }

  predicate WritesService(m: MarkerInfo, f: Fill) {
    m.serviceName == "" && f.service != ""
  }

  predicate WritesIngress(m: MarkerInfo, f: Fill) {
    m.ingressName == "" && f.ingress != ""
  }

  /** A namespace is known before the names are written; or no written name is read back as empty while
      a written name brings up a namespace: neither the service, with a namespace from itself or from the
      ingress, nor the ingress with its own. */
  predicate Settles(m: MarkerInfo, f: Fill) {
    var serviceNs := if WritesService(m, f) then ReadNamespace(f.service) else "";
    var ingressNs := if WritesIngress(m, f) then ReadNamespace(f.ingress) else "";
    || Or(m.namespace, f.namespace) != ""
    || (&& !(WritesService(m, f) && ReadsEmpty(f.service) && (serviceNs != "" || ingressNs != ""))
        && !(serviceNs == "" && WritesIngress(m, f) && ReadsEmpty(f.ingress) && ingressNs != ""))
  }

  /** In terms of the filled labels: no name is lost, or no namespace has come up. */
  lemma SettledLabels(m: MarkerInfo, f: Fill)
    ensures var r := FilledLabels(m, f);
            Settles(m, f)
            <==> r.namespace == "" || ((f.service != "" ==> r.serviceName != "") && (f.ingress != "" ==> r.ingressName != ""))
  {
    hide SplitNamespacedName;
    var m1 := m.(namespace := Or(m.namespace, f.namespace), host := Or(m.host, f.host));
    var ns := AfterService(m1, f).namespace;
    if m1.namespace != "" {
      NamespaceSurvivesSplit(m1.namespace, f.service);
    }
    if ns != "" {
      NamespaceSurvivesSplit(ns, f.ingress);
    }
  }

  /** What the fill leaves in the two name lists. */
  lemma FillWrites(v: VsVipItem, linked: seq<VSItem>)
    ensures var m, f := VipLabels(v), FillOf(linked);
            var m1 := m.(namespace := Or(m.namespace, f.namespace), host := Or(m.host, f.host));
            var md := FillUnique(v, linked).metadata;
            && (m.serviceName == "" && f.service != "" ==> md.namespaceSvcName == [NamespacedValue(m1.namespace, f.service)])
            && (m.ingressName == "" && f.ingress != "" ==>
                  md.namespaceIngressName == [NamespacedValue(AfterService(m1, f).namespace, f.ingress)])
            && (m.namespace == "" ==> md.namespace == f.namespace)
  {
    hide MarkerLabels, Merged, Shared, SplitNamespacedName, NamespacedValue;
    var base := MarkerLabels(v.markers);
    if VipLabels(v).namespace == "" {
      WriteNamespace(base, v.metadata, Shared(linked, Namespace));
    }
    var v1 := FillNamespace(v, linked);
    if VipLabels(v1).host == "" {
      WriteHost(base, v1.metadata, Shared(linked, Host));
    }
    var v2 := FillHost(v1, linked);
    if VipLabels(v2).serviceName == "" && Shared(linked, Service) != "" {
      WriteService(base, v2.metadata, Shared(linked, Service));
    }
  }

  /** The first "/" can only swallow a name that was written without a namespace. */
  lemma LostWasBare(namespace: string, name: string)
    requires name != "" && SplitNamespacedName(NamespacedValue(namespace, name)).1 == ""
    ensures namespace == "" && NamespacedValue(namespace, name) == name
  {
    if namespace != "" {
      NamespaceSurvivesSplit(namespace, name);
    }
  }

  /** A name that is lost on reading back stands in its list as it is. */
  lemma LostNames(v: VsVipItem, linked: seq<VSItem>)
    ensures var w, f := FillUnique(v, linked), FillOf(linked);
            && (f.service != "" && VipLabels(w).serviceName == "" ==> w.metadata.namespaceSvcName == [f.service])
            && (f.ingress != "" && VipLabels(w).ingressName == "" ==> w.metadata.namespaceIngressName == [f.ingress])
            && (VipLabels(w).namespace == "" ==> f.namespace == "" && w.metadata.namespace == "")
            && (f.host != "" ==> VipLabels(w).host != "")
  {
    hide VipLabels, FillUnique, FillOf, SplitNamespacedName, NamespacedValue;
    FillLabels(v, linked);
    FillWrites(v, linked);
    var m, f := VipLabels(v), FillOf(linked);
    var m1 := m.(namespace := Or(m.namespace, f.namespace), host := Or(m.host, f.host));
    if m.serviceName == "" && f.service != "" && SplitNamespacedName(NamespacedValue(m1.namespace, f.service)).1 == "" {
      LostWasBare(m1.namespace, f.service);
    }
    var ns := AfterService(m1, f).namespace;
    if m.ingressName == "" && f.ingress != "" && SplitNamespacedName(NamespacedValue(ns, f.ingress)).1 == "" {
      LostWasBare(ns, f.ingress);
    }
  }

  /** Filling a second time changes nothing exactly when the fill settles; with slash-free names it always
      does. */
  lemma FillIdempotent(v: VsVipItem, linked: seq<VSItem>)
    ensures FillUnique(FillUnique(v, linked), linked) == FillUnique(v, linked) <==> Settles(VipLabels(v), FillOf(linked))
    ensures Writable(VipLabels(v), FillOf(linked)) ==> Settles(VipLabels(v), FillOf(linked))
  {
    hide VipLabels, FillUnique, FilledLabels, Writable, FillOf, NamespacedValue, Settles;
    FillLabels(v, linked);
    SettledLabels(VipLabels(v), FillOf(linked));
    LostNames(v, linked);
    FillExact(v, linked);
    SecondFill(FillUnique(v, linked), linked);
  }

  lemma SecondFill(w: VsVipItem, linked: seq<VSItem>)
    requires var f := FillOf(linked);
             && (f.service != "" && VipLabels(w).serviceName == "" ==> w.metadata.namespaceSvcName == [f.service])
             && (f.ingress != "" && VipLabels(w).ingressName == "" ==> w.metadata.namespaceIngressName == [f.ingress])
             && (VipLabels(w).namespace == "" ==> f.namespace == "" && w.metadata.namespace == "")
             && (f.host != "" ==> VipLabels(w).host != "")
    ensures var r, f := VipLabels(w), FillOf(linked);
            FillUnique(w, linked) == w
            <==> r.namespace == "" || ((f.service != "" ==> r.serviceName != "") && (f.ingress != "" ==> r.ingressName != ""))
  {
    hide VipLabels, Shared;
    var r, f := VipLabels(w), FillOf(linked);
    assert FillHost(FillNamespace(w, linked), linked) == w;
    var w1 := FillService(w, linked);
    PrefixedDiffers(r.namespace, f.service);
    PrefixedDiffers(r.namespace, f.ingress);
    if f.service != "" && r.serviceName == "" && r.namespace != "" {
      assert w1.metadata.namespaceSvcName != w.metadata.namespaceSvcName;
      assert FillUnique(w, linked).metadata.namespaceSvcName == w1.metadata.namespaceSvcName;
    } else {
      assert w1 == w;
      hide NamespacedValue;
    }
  }

  lemma PrefixedDiffers(namespace: string, name: string)
    ensures NamespacedValue(namespace, name) == name <==> namespace == ""
  {
    if namespace != "" {
      assert |NamespacedValue(namespace, name)| > |name|;
    }
  }

  const NO_METADATA := ServiceMetadata("", "", [], [], [], false)
  const BARE_VSVIP := VsVipItem("vip", "vip", "", [], NO_METADATA, [], [])
  const SLASHED_VS := VSItem("vs", "vs", "", "", [Marker("ServiceName", ["a/"])], NO_METADATA, "", "", "", "", [], "")

  lemma SlashedLabels()
    ensures VipLabels(BARE_VSVIP) == NO_LABELS
    ensures VSLabels(SLASHED_VS) == NO_LABELS.(serviceName := "a/")
    ensures FillOf([SLASHED_VS]) == Fill("", "", "a/", "")
  {
    hide Shared;
    EmptyMetadata(NO_LABELS, NO_METADATA);
    SoleServiceMarker("a/");
    EmptyMetadata(NO_LABELS.(serviceName := "a/"), NO_METADATA);
    SoleItemShares(SLASHED_VS);
  }

  lemma SlashedFill()
    ensures var f := Fill("", "", "a/", "");
            && FilledLabels(NO_LABELS, f) == NO_LABELS.(namespace := "a")
            && FilledLabels(NO_LABELS.(namespace := "a"), f).serviceName == "a/"
  {
    assert IndexOf("a/", '/') == 1;
    NameRereads("a", "a/");
  }

  /** Without the condition it fails: a service "a/" with no namespace is read back as namespace "a",
      its own label stays empty, and a second fill writes again. */
  lemma FillMisreadsSlash()
    ensures VSLabels(SLASHED_VS).serviceName == "a/"
    ensures var w := FillUnique(BARE_VSVIP, [SLASHED_VS]);
            && VipLabels(w).serviceName == "" && VipLabels(w).namespace == "a"
            && FillUnique(w, [SLASHED_VS]) != w
  {
    hide VipLabels, VSLabels, FillUnique, FilledLabels, FillOf;
    SlashedLabels();
    SlashedFill();
    FillLabels(BARE_VSVIP, [SLASHED_VS]);
    FillLabels(FillUnique(BARE_VSVIP, [SLASHED_VS]), [SLASHED_VS]);
  }

  lemma SoleMarkerValue(key: string, value: string, k: string)
    ensures MarkerValue([Marker(key, [value])], k) == if k == key then value else ""
  {
    var m := Marker(key, [value]);
    assert [m][|[m]| - 1] == m && [m][..0] == [];
    assert MarkerValue([m][..0], k) == "";
  }

  lemma SoleServiceMarker(value: string)
    ensures MarkerLabels([Marker("ServiceName", [value])]) == NO_LABELS.(serviceName := value)
  {
    hide MarkerValue;
    forall k { SoleMarkerValue("ServiceName", value, k); }
  }

  lemma EmptyMetadata(base: MarkerInfo, md: ServiceMetadata)
    requires md.Empty()
    ensures Merged(base, md) == base
  {
  }

  lemma SoleItemShares(vs: VSItem)
    ensures FillOf([vs]) == Fill(VSLabels(vs).namespace, VSLabels(vs).host, VSLabels(vs).serviceName, VSLabels(vs).ingressName)
  {
    SoleItemShared(vs, Namespace);
    SoleItemShared(vs, Host);
    SoleItemShared(vs, Service);
    SoleItemShared(vs, Ingress);
  }

  lemma SoleItemShared(vs: VSItem, name: LabelName)
    ensures Shared([vs], name) == Get(VSLabels(vs), name)
  {
    hide VSLabels;
    assert [vs][..0] == [];
    assert Shared([vs][..0], name) == "";
  }

  // ---- scores ----

  /** a has a value wherever b has one, among the labels that score. */
  predicate Covers(a: MarkerInfo, b: MarkerInfo) {
    && (b.clusterName != "" ==> a.clusterName != "")
    && (b.host != "" ==> a.host != "")
    && (b.ingressName != "" ==> a.ingressName != "")
    && (b.serviceName != "" ==> a.serviceName != "")
    && (b.namespace != "" ==> a.namespace != "")
  }

  lemma CoversScores(a: MarkerInfo, b: MarkerInfo)
    requires Covers(a, b)
    ensures Score(a) >= Score(b)
  {
  }

  lemma FilledCovers(m: MarkerInfo, f: Fill)
    ensures Covers(FilledLabels(m, f), m)
  {
    hide SplitNamespacedName, NamespacedValue;
  }

  /** A sole virtual service without a namespace lends no name that is read back as nothing at all. */
  predicate Lendable(src: MarkerInfo) {
    src.namespace != "" || (src.serviceName != "/" && src.ingressName != "/")
  }

  /** What a sole virtual service with these labels lends. */
  function LendOf(src: MarkerInfo): Fill {
    Fill(src.namespace, src.host, src.serviceName, src.ingressName)
  }

  lemma SplitKeepsSomething(name: string)
    requires name != "" && name != "/"
    ensures SplitNamespacedName(name).0 != "" || SplitNamespacedName(name).1 != ""
  {
    var i := IndexOf(name, '/');
    if i == 0 {
      assert name == ['/'] + name[1..];
    }
  }

  /** A written name is read back as a name, or as a namespace. */
  lemma WrittenSurvives(namespace: string, name: string)
    requires name != "" && (namespace != "" || name != "/")
    ensures var (ns, read) := SplitNamespacedName(NamespacedValue(namespace, name)); read != "" || Or(namespace, ns) != ""
    ensures namespace != "" ==> SplitNamespacedName(NamespacedValue(namespace, name)).1 != ""
  {
    if namespace != "" {
      NamespaceSurvivesSplit(namespace, name);
    } else {
      SplitKeepsSomething(name);
      hide SplitNamespacedName;
    }
  }

  /** The filled labels cover the source's, or have won a namespace that outweighs the rest. */
  lemma LendScores(m: MarkerInfo, src: MarkerInfo)
    requires m.clusterName == src.clusterName
    requires src.namespace != ""
             || ((src.serviceName == "/" ==> m.serviceName != "") && (src.ingressName == "/" ==> m.ingressName != ""))
    ensures Score(FilledLabels(m, LendOf(src))) >= Score(src)
  {
    hide SplitNamespacedName, NamespacedValue;
    var f := LendOf(src);
    var m1 := m.(namespace := Or(m.namespace, f.namespace), host := Or(m.host, f.host));
    var m2 := AfterService(m1, f);
    if m1.serviceName == "" && f.service != "" {
      WrittenSurvives(m1.namespace, f.service);
    }
    if m2.ingressName == "" && f.ingress != "" {
      WrittenSurvives(m2.namespace, f.ingress);
    }
  }

  lemma SlashIsLost()
    ensures SplitNamespacedName(NamespacedValue("", "/")) == ("", "")
  {
    assert IndexOf("/", '/') == 0;
  }

  /** Lending reaches the lender's score, whatever labels the borrower has, exactly when the lender has
      a namespace or neither of its names is a bare "/". */
  lemma LendableExact(src: MarkerInfo)
    ensures Lendable(src)
            <==> forall m: MarkerInfo :: m.clusterName == src.clusterName ==> Score(FilledLabels(m, LendOf(src))) >= Score(src)
  {
    if Lendable(src) {
      forall m: MarkerInfo | m.clusterName == src.clusterName ensures Score(FilledLabels(m, LendOf(src))) >= Score(src) {
        LendScores(m, src);
      }
    } else {
      hide SplitNamespacedName, NamespacedValue;
      SlashIsLost();
      var bare := NO_LABELS.(clusterName := src.clusterName);
      var m := if src.serviceName == "/" then bare.(ingressName := if src.ingressName != "" then "x" else "")
               else bare.(serviceName := if src.serviceName != "" then "x" else "");
      assert Score(FilledLabels(m, LendOf(src))) < Score(src);
    }
  }

  lemma MergedCoversBase(base: MarkerInfo, md: ServiceMetadata)
    ensures Covers(Merged(base, md), base)
    ensures Merged(base, md).clusterName == base.clusterName
  {
    hide SplitNamespacedName;
  }

  /** Borrowed markers may hide labels the VsVip's own markers had, but they bring the source's: what is
      left is at worst one fill away from the source. */
  lemma AdoptedLabels(v: VsVipItem, src: VSItem)
    ensures var m := VipLabels(Adopt(v, src));
            if Score(VSLabels(src)) > Score(VipLabels(v)) then
              m.clusterName == VSLabels(src).clusterName && Covers(m, MarkerLabels(src.markers))
            else Covers(m, VipLabels(v))
  {
    hide MarkerLabels, Merged, Score, Covers;
    MergedCoversBase(MarkerLabels(src.markers), src.metadata);
    MergedCoversBase(MarkerLabels(src.markers), Adopt(v, src).metadata);
    MergedCoversBase(MarkerLabels(v.markers), Adopt(v, src).metadata);
    CoversSelf(VipLabels(v));
    if v.metadata.Empty() {
      EmptyMetadata(MarkerLabels(v.markers), v.metadata);
    }
  }

  lemma CoversSelf(m: MarkerInfo)
    ensures Covers(m, m)
  {
  }

  /** A virtual service has a namespace, or each of its names that is a bare "/" comes from its markers,
      where adopting the markers keeps it. */
  predicate Lends(src: VSItem) {
    var all, own := VSLabels(src), MarkerLabels(src.markers);
    all.namespace != "" || ((all.serviceName == "/" ==> own.serviceName == "/") && (all.ingressName == "/" ==> own.ingressName == "/"))
  }

  /** The labels of the enriched VsVip before the fill. */
  function BeforeFill(v: VsVipItem, linked: seq<VSItem>): VsVipItem {
    var v1 := v.(virtualServices := MergedRefs(v.virtualServices, linked));
    var v2 := if linked == [] then v1 else AdoptCreatedBy(v1, linked);
    if |linked| == 1 then Adopt(v2, linked[0]) else v2
  }

  lemma MergingKeepsLabels(v: VsVipItem, linked: seq<VSItem>)
    ensures VipLabels(AdoptCreatedBy(v.(virtualServices := MergedRefs(v.virtualServices, linked)), linked)) == VipLabels(v)
  {
    hide ObjectLabels, LinkedCreatedBy, MergedRefs;
  }

  /** The labels of a VsVip with a sole linked service. */
  lemma SoleEnrichedLabels(v: VsVipItem, src: VSItem)
    ensures VipLabels(Enriched(v, [src])) == FilledLabels(VipLabels(Adopt(v, src)), LendOf(VSLabels(src)))
  {
    hide ObjectLabels, Score, FillUnique, FilledLabels, MergedRefs, LinkedCreatedBy, Shared;
    FillLabels(BeforeFill(v, [src]), [src]);
    SoleItemShares(src);
    assert [src][0] == src;
  }

  /** With a sole linked service that lends, enrichment lowers neither score. */
  lemma LendingNeverLowers(v: VsVipItem, src: VSItem)
    requires Lends(src)
    ensures Score(VipLabels(Enriched(v, [src]))) >= Score(VipLabels(v))
    ensures Score(VipLabels(Enriched(v, [src]))) >= Score(VSLabels(src))
  {
    hide ObjectLabels, MarkerLabels, Score, FilledLabels, Adopt, Enriched;
    SoleEnrichedLabels(v, src);
    AdoptedLabels(v, src);
    var m := VipLabels(Adopt(v, src));
    FilledCovers(m, LendOf(VSLabels(src)));
    CoversScores(FilledLabels(m, LendOf(VSLabels(src))), m);
    if Score(VSLabels(src)) > Score(VipLabels(v)) {
      LendScores(m, VSLabels(src));
    } else {
      CoversScores(m, VipLabels(v));
    }
  }

  /** Enrichment never lowers the metadata score of a VsVip with several linked services or none, nor of
      one whose sole linked service lends; and then it reaches at least that service's score, even when
      the markers are replaced wholesale. */
  lemma EnrichmentNeverLowersScore(v: VsVipItem, linked: seq<VSItem>)
    requires |linked| == 1 ==> Lends(linked[0])
    ensures Score(VipLabels(Enriched(v, linked))) >= Score(VipLabels(v))
    ensures |linked| == 1 ==> Score(VipLabels(Enriched(v, linked))) >= Score(VSLabels(linked[0]))
  {
    hide ObjectLabels, Score, FillUnique, FilledLabels, Lends, MergedRefs, AdoptCreatedBy, Adopt, FillOf;
    if |linked| == 1 {
      assert linked == [linked[0]];
      hide Enriched;
      LendingNeverLowers(v, linked[0]);
    } else {
      var w := BeforeFill(v, linked);
      FillLabels(w, linked);
      MergingKeepsLabels(v, linked);
      assert VipLabels(w) == VipLabels(v) by { hide Covers; }
      FilledCovers(VipLabels(w), FillOf(linked));
      CoversScores(FilledLabels(VipLabels(w), FillOf(linked)), VipLabels(w));
    }
  }

  // ---- a sole service that does not lend ----

  /** Markers with these four labels. */
  function MarkersWith(cluster: string, host: string, ingress: string, service: string): seq<Marker> {
    [Marker("clustername", [cluster]), Marker("Host", [host]), Marker("IngressName", [ingress]), Marker("ServiceName", [service])]
  }

  lemma MarkersWithLabels(cluster: string, host: string, ingress: string, service: string)
    ensures MarkerLabels(MarkersWith(cluster, host, ingress, service))
            == NO_LABELS.(clusterName := cluster, host := host, ingressName := ingress, serviceName := service)
  {
    hide MarkerValue, MarkersWith;
    FourMarkers(cluster, host, ingress, service, "clustername");
    FourMarkers(cluster, host, ingress, service, "Namespace");
    FourMarkers(cluster, host, ingress, service, "ServiceName");
    FourMarkers(cluster, host, ingress, service, "IngressName");
    FourMarkers(cluster, host, ingress, service, "GatewayName");
    FourMarkers(cluster, host, ingress, service, "Host");
    FourMarkers(cluster, host, ingress, service, "Path");
    FourMarkers(cluster, host, ingress, service, "InfrasettingName");
  }

  lemma FourMarkers(cluster: string, host: string, ingress: string, service: string, k: string)
    ensures MarkerValue(MarkersWith(cluster, host, ingress, service), k)
            == if k == "ServiceName" then service
               else if k == "IngressName" then ingress
               else if k == "Host" then host
               else if k == "clustername" then cluster
               else ""
  {
    var c, h, i, s := Marker("clustername", [cluster]), Marker("Host", [host]), Marker("IngressName", [ingress]), Marker("ServiceName", [service]);
    assert [c, h, i, s][..3] == [c, h, i] && [c, h, i][..2] == [c, h] && [c, h][..1] == [c] && [c][..0] == [];
    assert MarkerValue([c], k) == if k == "clustername" then cluster else "";
    assert MarkerValue([c, h], k) == if k == "Host" then host else MarkerValue([c], k);
    assert MarkerValue([c, h, i], k) == if k == "IngressName" then ingress else MarkerValue([c, h], k);
  }

  /** The service's lost name is its service name; otherwise it is the ingress. */
  predicate LosesService(src: VSItem) {
    VSLabels(src).serviceName == "/" && MarkerLabels(src.markers).serviceName != "/"
  }

  /** Metadata that keeps the source's from being adopted and brings a value for the other name. */
  function LosingMetadata(src: VSItem): ServiceMetadata {
    var md := ServiceMetadata("", "", [], [], [], true);
    if LosesService(src) then
      if VSLabels(src).ingressName != "" then md.(ingressName := "x") else md
    else if VSLabels(src).serviceName != "" then md.(namespaceSvcName := ["x"])
    else md
  }

  /** Markers that score less than the source and more than what is left of it. */
  function LosingMarkers(src: VSItem): seq<Marker> {
    var l := VSLabels(src);
    if LosesService(src) then
      if l.clusterName != "" && l.host != "" && l.ingressName != "" then MarkersWith("", "", "", "x") else MarkersWith("x", "x", "x", "")
    else if l.clusterName != "" && l.host != "" then MarkersWith("", "", "x", "")
    else MarkersWith("x", "x", "", "")
  }

  /** A VsVip whose score the source lowers. */
  function LosingVip(src: VSItem): VsVipItem {
    VsVipItem("", "", "", LosingMarkers(src), LosingMetadata(src), [], [])
  }

  lemma PlainNameReads()
    ensures SplitNamespacedName("x") == ("", "x") && SplitNamespacedName("") == ("", "")
  {
  }

  lemma MergedWithLosing(src: VSItem, base: MarkerInfo)
    ensures var md := LosingMetadata(src);
            var l := VSLabels(src);
            Merged(base, md)
            == if LosesService(src) then base.(ingressName := Or(base.ingressName, if l.ingressName != "" then "x" else ""))
               else base.(serviceName := Or(base.serviceName, if l.serviceName != "" then "x" else ""))
    ensures !LosingMetadata(src).Empty()
  {
    PlainNameReads();
    hide SplitNamespacedName, VSLabels, LosesService;
  }

  lemma OwnLabelsWin(src: VSItem)
    ensures var all, own := VSLabels(src), MarkerLabels(src.markers);
            && all.clusterName == own.clusterName
            && (own.serviceName != "" ==> all.serviceName == own.serviceName)
            && (own.ingressName != "" ==> all.ingressName == own.ingressName)
            && (own.host != "" ==> all.host == own.host)
            && (own.namespace != "" ==> all.namespace == own.namespace)
  {
    hide MarkerLabels, SplitNamespacedName;
  }

  /** Labels, markers and what the fill makes of them, for a source that does not lend. */
  lemma LosingLabels(own: MarkerInfo, all: MarkerInfo, byService: bool)
    requires own.clusterName == all.clusterName && all.namespace == "" && own.namespace == ""
    requires own.serviceName != "" ==> own.serviceName == all.serviceName
    requires own.ingressName != "" ==> own.ingressName == all.ingressName
    requires own.host != "" ==> own.host == all.host
    requires if byService then all.serviceName == "/" && own.serviceName == "" else all.ingressName == "/" && own.ingressName == ""
    ensures var m := if byService then own.(ingressName := Or(own.ingressName, if all.ingressName != "" then "x" else ""))
                     else own.(serviceName := Or(own.serviceName, if all.serviceName != "" then "x" else ""));
            Score(FilledLabels(m, LendOf(all))) == Score(all) - if byService then 8 else 4
  {
    hide SplitNamespacedName, NamespacedValue;
    SlashIsLost();
  }

  /** Such a service takes score away from that VsVip, which then has neither its own nor the service's. */
  lemma LosingScores(src: VSItem)
    requires !Lends(src)
    ensures Score(VipLabels(Enriched(LosingVip(src), [src]))) < Score(VipLabels(LosingVip(src))) < Score(VSLabels(src))
  {
    var v := LosingVip(src);
    var all, own := VSLabels(src), MarkerLabels(src.markers);
    OwnLabelsWin(src);
    MergedWithLosing(src, MarkerLabels(v.markers));
    MergedWithLosing(src, own);
    MarkersWithLabels("", "", "", "x");
    MarkersWithLabels("x", "x", "x", "");
    MarkersWithLabels("", "", "x", "");
    MarkersWithLabels("x", "x", "", "");
    hide MarkerLabels, Merged, VSLabels, MarkersWith, Enriched, FilledLabels, LosingMetadata;
    LosingLabels(own, all, LosesService(src));
    SoleEnrichedLabels(v, src);
  }

  /** For a sole linked service, both halves hold of every VsVip exactly when the service lends. */
  lemma EnrichmentScoreExact(src: VSItem)
    ensures (forall v :: Score(VipLabels(Enriched(v, [src]))) >= Score(VSLabels(src))) <==> Lends(src)
    ensures (forall v :: Score(VipLabels(Enriched(v, [src]))) >= Score(VipLabels(v))) <==> Lends(src)
  {
    hide VipLabels, VSLabels, Score, Enriched, Lends;
    if Lends(src) {
      forall v {
        LendingNeverLowers(v, src);
      }
    } else {
      hide LosingVip;
      LosingScores(src);
      var v := LosingVip(src);
      assert Score(VipLabels(Enriched(v, [src]))) < Score(VSLabels(src));
      assert Score(VipLabels(Enriched(v, [src]))) < Score(VipLabels(v));
    }
  }

  const SLASH_SRC := VSItem("vs", "vs", "", "", [], NO_METADATA.(namespaceSvcName := ["//"]), "", "", "", "", [], "")
  const LOWERED_VSVIP := VsVipItem("", "", "", MarkersWith("x", "x", "x", ""), NO_METADATA.(otherLabels := true), [], [])

  lemma SlashSrcLabels()
    ensures VSLabels(SLASH_SRC) == NO_LABELS.(serviceName := "/") && MarkerLabels(SLASH_SRC.markers) == NO_LABELS
  {
    assert IndexOf("//", '/') == 0;
    PlainNameReads();
  }

  /** A concrete one: a service that is only a "/" in the metadata takes all labels of a VsVip with a
      cluster, a host and an ingress. */
  lemma SlashServiceLowersScore()
    ensures Score(VSLabels(SLASH_SRC)) == 8
    ensures Score(VipLabels(LOWERED_VSVIP)) == 7
    ensures Score(VipLabels(Enriched(LOWERED_VSVIP, [SLASH_SRC]))) == 0
  {
    SlashSrcLabels();
    hide VSLabels, MarkerLabels;
    assert LosingVip(SLASH_SRC) == LOWERED_VSVIP;
    LosingScores(SLASH_SRC);
    MarkersWithLabels("x", "x", "x", "");
    MergedWithLosing(SLASH_SRC, NO_LABELS);
    MergedWithLosing(SLASH_SRC, MarkerLabels(LOWERED_VSVIP.markers));
    LosingLabels(NO_LABELS, VSLabels(SLASH_SRC), true);
    SoleEnrichedLabels(LOWERED_VSVIP, SLASH_SRC);
    hide Enriched, FilledLabels, Merged;
  }
}
