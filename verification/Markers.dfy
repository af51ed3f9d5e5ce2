/** AKO labels of an object: markers first, service_metadata as a fallback (avi/markers.go). */
module Markers {
  import opened Prelude
  import opened Inventory

  datatype MarkerInfo = MarkerInfo(
    clusterName: string,
    namespace: string,
    serviceName: string,
    ingressName: string,
    gatewayName: string,
    host: string,
    path: string,
    infraSetting: string)

  const NO_LABELS := MarkerInfo("", "", "", "", "", "", "", "")

  // ---- markers ----

  function JoinComma(values: seq<string>): string {
    if |values| == 0 then ""
    else if |values| == 1 then values[0]
    else values[0] + "," + JoinComma(values[1..])
  }

  /** Every value but the last is followed by a comma. */
  lemma {:induction false} JoinCommaIs(values: seq<string>, last: string)
    ensures JoinComma([]) == "" && JoinComma([last]) == last
    ensures values != [] ==> JoinComma(values + [last]) == JoinComma(values) + "," + last
  {
    if |values| > 1 {
      JoinCommaIs(values[1..], last);
      assert (values + [last])[1..] == values[1..] + [last];
    }
  }

  /** The joined values of the last marker with this key. */
  function MarkerValue(markers: seq<Marker>, key: string): string {
    if markers == [] then ""
    else if markers[|markers| - 1].key == key then JoinComma(markers[|markers| - 1].values)
    else MarkerValue(markers[..|markers| - 1], key)
  }

  function MarkerLabels(markers: seq<Marker>): MarkerInfo {
    MarkerInfo(
      MarkerValue(markers, "clustername"),
      MarkerValue(markers, "Namespace"),
      MarkerValue(markers, "ServiceName"),
      MarkerValue(markers, "IngressName"),
      MarkerValue(markers, "GatewayName"),
      MarkerValue(markers, "Host"),
      MarkerValue(markers, "Path"),
      MarkerValue(markers, "InfrasettingName"))
  }

  method ParseMarkers(markers: seq<Marker>) returns (mi: MarkerInfo)
    ensures mi == MarkerLabels(markers)
  {
    mi := NO_LABELS;
    for i := 0 to |markers|
      invariant mi == MarkerLabels(markers[..i])
    {
      var v := JoinComma(markers[i].values);
      assert markers[..i + 1][..i] == markers[..i];
      match markers[i].key {
        case "clustername" => mi := mi.(clusterName := v);
        case "Namespace" => mi := mi.(namespace := v);
        case "ServiceName" => mi := mi.(serviceName := v);
        case "IngressName" => mi := mi.(ingressName := v);
        case "GatewayName" => mi := mi.(gatewayName := v);
        case "Host" => mi := mi.(host := v);
        case "Path" => mi := mi.(path := v);
        case "InfrasettingName" => mi := mi.(infraSetting := v);
        case _ =>
      }
    }
    assert markers[..|markers|] == markers;
  }

  /** No later marker has the same key. */
  ghost predicate IsLastOfKey(markers: seq<Marker>, i: nat) {
    i < |markers| && forall j :: i < j < |markers| ==> markers[j].key != markers[i].key
  }

  lemma {:induction false} LastMarkerCounts(markers: seq<Marker>, i: nat)
    requires IsLastOfKey(markers, i)
    ensures MarkerValue(markers, markers[i].key) == JoinComma(markers[i].values)
  {
    hide JoinComma;
    var n := |markers| - 1;
    if i < n {
      assert markers[n].key != markers[i].key;
      LastMarkerCounts(markers[..n], i);
    }
  }

  lemma {:induction false} WithoutMarker(markers: seq<Marker>, key: string)
    requires forall i :: 0 <= i < |markers| ==> markers[i].key != key
    ensures MarkerValue(markers, key) == ""
  {
    if markers != [] {
      WithoutMarker(markers[..|markers| - 1], key);
    }
  }

  /** The label that a marker key stands for. */
  function LabelFor(mi: MarkerInfo, key: string): string {
    match key
    case "clustername" => mi.clusterName
    case "Namespace" => mi.namespace
    case "ServiceName" => mi.serviceName
    case "IngressName" => mi.ingressName
    case "GatewayName" => mi.gatewayName
    case "Host" => mi.host
    case "Path" => mi.path
    case "InfrasettingName" => mi.infraSetting
    case _ => ""
  }

  predicate IsLabelKey(key: string) {
    key in {"clustername", "Namespace", "ServiceName", "IngressName", "GatewayName", "Host", "Path", "InfrasettingName"}
  }

  lemma LabelIsMarkerValue(markers: seq<Marker>, key: string)
    requires IsLabelKey(key)
    ensures LabelFor(MarkerLabels(markers), key) == MarkerValue(markers, key)
  {
    hide MarkerValue;
  }

  /** Each of the eight labels is the comma-joined list of values of the last marker with its key, and
      empty without one. */
  lemma LabelsOfMarkers(markers: seq<Marker>, key: string)
    requires IsLabelKey(key)
    ensures (forall i :: 0 <= i < |markers| ==> markers[i].key != key) ==> LabelFor(MarkerLabels(markers), key) == ""
    ensures forall i: nat :: IsLastOfKey(markers, i) && markers[i].key == key ==>
              LabelFor(MarkerLabels(markers), key) == JoinComma(markers[i].values)
  {
    LabelIsMarkerValue(markers, key);
    hide IsLabelKey, LabelFor, MarkerLabels, JoinComma, MarkerValue;
    if forall i :: 0 <= i < |markers| ==> markers[i].key != key {
      WithoutMarker(markers, key);
    }
    forall i: nat | IsLastOfKey(markers, i) && markers[i].key == key
      ensures LabelFor(MarkerLabels(markers), key) == JoinComma(markers[i].values)
    {
      LastMarkerCounts(markers, i);
    }
  }

  // ---- the "namespace/name" notation ----

  /** Position of the first c, or the length. */
  function IndexOf(s: string, c: char): (i: nat)
    ensures i <= |s|
    ensures forall k :: 0 <= k < i ==> s[k] != c
    ensures i < |s| ==> s[i] == c
    ensures i == |s| <==> c !in s
  {
    if s == [] || s[0] == c then 0
    else
      assert s == [s[0]] + s[1..];
      1 + IndexOf(s[1..], c)
  }

  function SplitNamespacedName(value: string): (string, string) {
    var i := IndexOf(value, '/');
    if i == |value| then ("", value) else (value[..i], value[i + 1..])
  }

  function NamespacedValue(namespace: string, name: string): string {
    if namespace == "" then name else namespace + "/" + name
  }

  /** Reading back what was written gives the two parts exactly when the "/" cannot be misplaced. */
  predicate Rereads(namespace: string, name: string) {
    if namespace == "" then '/' !in name else '/' !in namespace
  }

  lemma NamespacedNameRoundTrip(namespace: string, name: string)
    ensures SplitNamespacedName(NamespacedValue(namespace, name)) == (namespace, name)
            <==> Rereads(namespace, name)
  {
    var v := NamespacedValue(namespace, name);
    var i := IndexOf(v, '/');
    if namespace != "" {
      assert v[|namespace|] == '/';
      assert v[..|namespace|] == namespace && v[|namespace| + 1..] == name;
    }
  }

  /** What a written pair reads back as, whatever the namespace contains. */
  lemma NamespaceSurvivesSplit(namespace: string, name: string)
    requires namespace != ""
    ensures SplitNamespacedName(NamespacedValue(namespace, name)).1 != "" || name == ""
    ensures '/' !in namespace ==> SplitNamespacedName(NamespacedValue(namespace, name)) == (namespace, name)
  {
    NamespacedNameRoundTrip(namespace, name);
    var v := NamespacedValue(namespace, name);
    var i := IndexOf(v, '/');
    assert v[|namespace|] == '/';
  }

  // ---- service_metadata ----

  function Or(first: string, fallback: string): string {
    if first != "" then first else fallback
  }

  function Head(values: seq<string>): string {
    if |values| > 0 then values[0] else ""
  }

  /** Labels after the fallback: for each one, the first non-empty source in precedence order. */
  function Merged(mi: MarkerInfo, md: ServiceMetadata): MarkerInfo {
    var (ingressNs, ingress) := SplitNamespacedName(Head(md.namespaceIngressName));
    var (serviceNs, service) := SplitNamespacedName(Head(md.namespaceSvcName));
    mi.(namespace := Or(mi.namespace, Or(md.namespace, Or(ingressNs, serviceNs))),
        ingressName := Or(mi.ingressName, Or(md.ingressName, ingress)),
        host := Or(mi.host, Head(md.hostnames)),
        serviceName := Or(mi.serviceName, service))
  }

  /** The first of the values, split at its first "/"; without one it is all name. */
  ghost predicate FirstReads(values: seq<string>, namespace: string, name: string) {
    if values == [] then namespace == "" && name == ""
    else if '/' in values[0] then '/' !in namespace && values[0] == namespace + "/" + name
    else namespace == "" && name == values[0]
  }

  lemma SplitOfFirst(values: seq<string>, namespace: string, name: string)
    requires FirstReads(values, namespace, name)
    ensures SplitNamespacedName(Head(values)) == (namespace, name)
  {
    if values != [] && '/' in values[0] {
      var v, i := values[0], IndexOf(values[0], '/');
      assert v[|namespace|] == '/' && v[..|namespace|] == namespace && v[|namespace| + 1..] == name;
      assert i == |namespace|;
    }
  }

  /** Labels that are there stay. A missing namespace is the metadata's, or that of its first ingress, or
      that of its first service; a missing ingress the metadata's, or the name of its first ingress; a
      missing host its first hostname; a missing service the name of its first service. */
  lemma MergedExactly(mi: MarkerInfo, md: ServiceMetadata, ingressNs: string, ingress: string, serviceNs: string, service: string)
    requires FirstReads(md.namespaceIngressName, ingressNs, ingress) && FirstReads(md.namespaceSvcName, serviceNs, service)
    ensures var r := Merged(mi, md);
            && r == mi.(namespace := r.namespace, ingressName := r.ingressName, host := r.host, serviceName := r.serviceName)
            && (mi.namespace != "" ==> r.namespace == mi.namespace)
            && (mi.namespace == "" && md.namespace != "" ==> r.namespace == md.namespace)
            && (mi.namespace == "" && md.namespace == "" && ingressNs != "" ==> r.namespace == ingressNs)
            && (mi.namespace == "" && md.namespace == "" && ingressNs == "" ==> r.namespace == serviceNs)
            && (mi.ingressName != "" ==> r.ingressName == mi.ingressName)
            && (mi.ingressName == "" && md.ingressName != "" ==> r.ingressName == md.ingressName)
            && (mi.ingressName == "" && md.ingressName == "" ==> r.ingressName == ingress)
            && (mi.host != "" ==> r.host == mi.host)
            && (mi.host == "" && md.hostnames != [] ==> r.host == md.hostnames[0])
            && (mi.host == "" && md.hostnames == [] ==> r.host == "")
            && (mi.serviceName != "" ==> r.serviceName == mi.serviceName)
            && (mi.serviceName == "" ==> r.serviceName == service)
  {
    hide SplitNamespacedName, FirstReads;
    SplitOfFirst(md.namespaceIngressName, ingressNs, ingress);
    SplitOfFirst(md.namespaceSvcName, serviceNs, service);
  }

  method MergeServiceMetadata(mi0: MarkerInfo, md: ServiceMetadata) returns (mi: MarkerInfo)
    ensures mi == Merged(mi0, md)
  {
    mi := mi0;
    if mi.namespace == "" {
      mi := mi.(namespace := md.namespace);
    }
    if mi.ingressName == "" {
      mi := mi.(ingressName := md.ingressName);
    }
    if mi.host == "" && |md.hostnames| > 0 {
      mi := mi.(host := md.hostnames[0]);
    }
    if |md.namespaceIngressName| > 0 {
      var (ns, ing) := SplitNamespacedName(md.namespaceIngressName[0]);
      if mi.namespace == "" {
        mi := mi.(namespace := ns);
      }
      if mi.ingressName == "" {
        mi := mi.(ingressName := ing);
      }
    }
    if |md.namespaceSvcName| > 0 {
      var (ns, svc) := SplitNamespacedName(md.namespaceSvcName[0]);
      if mi.namespace == "" {
        mi := mi.(namespace := ns);
      }
      if mi.serviceName == "" {
        mi := mi.(serviceName := svc);
      }
    }
  }

  function ObjectLabels(markers: seq<Marker>, md: ServiceMetadata): MarkerInfo {
    Merged(MarkerLabels(markers), md)
  }

  method ParseObjectMetadata(markers: seq<Marker>, md: ServiceMetadata) returns (mi: MarkerInfo)
    ensures mi == ObjectLabels(markers, md)
  {
    mi := ParseMarkers(markers);
    mi := MergeServiceMetadata(mi, md);
  }

  predicate IsAKOManaged(createdBy: string) {
    "ako-" <= createdBy
  }

  // ---- references ----

  function AfterLastSlash(s: string): (r: string)
    ensures '/' !in r
    ensures |r| <= |s| && r == s[|s| - |r|..]
    ensures '/' !in s ==> r == s
  {
    var i := IndexOf(s, '/');
    if i == |s| then s
    else
      var rest := s[i + 1..];
      var r := AfterLastSlash(rest);
      assert s[|s| - |r|..] == rest[|rest| - |r|..];
      r
  }

  function RefUUID(ref: string): string {
    var tail := AfterLastSlash(ref);
    tail[..IndexOf(tail, '#')]
  }

  function RefName(ref: string): string {
    var i := IndexOf(ref, '#');
    if i + 1 < |ref| then ref[i + 1..] else ""
  }

  lemma {:induction false} AfterLastSlashAppend(a: string, b: string)
    ensures AfterLastSlash(a + "/" + b) == AfterLastSlash(b)
    decreases |a|
  {
    var s := a + "/" + b;
    var i := IndexOf(s, '/');
    if i < |a| {
      assert s[i + 1..] == a[i + 1..] + "/" + b;
      AfterLastSlashAppend(a[i + 1..], b);
    } else {
      assert s[|a|] == '/';
      assert s[i + 1..] == b;
    }
  }

  lemma RefUUIDTail(base: string, tail: string)
    ensures RefUUID(base + "/" + tail) == RefUUID(tail)
  {
    AfterLastSlashAppend(base, tail);
  }

  /** Exactly the references without a "/" and without a "#" are returned as they are. */
  lemma RefUUIDUnchanged(ref: string)
    ensures RefUUID(ref) == ref <==> '/' !in ref && '#' !in ref
  {
    var tail := AfterLastSlash(ref);
    var i := IndexOf(tail, '#');
    if '/' in ref {
      assert '/' !in tail[..i];
    } else if '#' in ref {
      assert i < |ref|;
    } else {
      assert tail[..|tail|] == tail;
    }
  }

  /** A concrete reference without a "/" that is cut. */
  lemma RefUUIDCutsAtHash()
    ensures '/' !in "u#n" && RefUUID("u#n") == "u"
  {
    CutAtHash("u#n", "u");
    assert '#' !in "u" && "u" + "#" <= "u#n";
  }

  lemma NoRefName(ref: string)
    requires '#' !in ref
    ensures RefName(ref) == ""
  {
  }

  /** A reference written "base/uuid#name" reads back as uuid, unless the name itself holds a "/": then
      exactly if the name goes on after its last "/" with the same uuid, ended by a "#" or the name's end. */
  lemma RefUUIDRoundTrip(base: string, uuid: string, name: string)
    requires '/' !in uuid && '#' !in uuid
    ensures RefUUID(base + "/" + (uuid + "#" + name)) == uuid
            <==> ('/' !in name || AfterLastSlash(name) == uuid || uuid + "#" <= AfterLastSlash(name))
  {
    RefUUIDTail(base, uuid + "#" + name);
    NamedUUID(uuid, name);
    CutAtHash(AfterLastSlash(name), uuid);
  }

  lemma CutAtHash(s: string, uuid: string)
    requires '#' !in uuid
    ensures s[..IndexOf(s, '#')] == uuid <==> s == uuid || uuid + "#" <= s
  {
    var i := IndexOf(s, '#');
    if uuid + "#" <= s {
      assert s[|uuid|] == '#' && s[..|uuid|] == uuid;
      forall k | 0 <= k < |uuid| ensures s[k] != '#' {
        assert s[k] == uuid[k];
      }
    }
    if i < |s| {
      assert s[..i + 1] == s[..i] + "#";
    }
  }

  lemma NamedUUID(uuid: string, name: string)
    requires '/' !in uuid && '#' !in uuid
    ensures RefUUID(uuid + "#" + name) == if '/' in name then RefUUID(name) else uuid
  {
    var tail := uuid + "#" + name;
    var k := IndexOf(name, '/');
    if k < |name| {
      var before, after := name[..k], name[k + 1..];
      assert name == before + "/" + after;
      assert tail == (uuid + "#" + before) + "/" + after;
      RefUUIDTail(before, after);
      RefUUIDTail(uuid + "#" + before, after);
    } else {
      assert '/' !in tail;
      assert tail[|uuid|] == '#' && tail[..|uuid|] == uuid;
    }
  }

  lemma RefNameRoundTrip(path: string, name: string)
    requires '#' !in path
    ensures RefName(path + "#" + name) == name
  {
    var ref := path + "#" + name;
    assert ref[|path|] == '#' && ref[|path| + 1..] == name;
  }
}
