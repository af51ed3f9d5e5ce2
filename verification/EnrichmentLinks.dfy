/** What the enrichment passes achieve: namespaces inherited from children, the links of a VsVip,
    and the merged list of its virtual services. */
module EnrichmentLinks {
  import opened Prelude
  import opened Inventory
  import opened Markers
  import opened Enrichment

  // ---- namespace inheritance ----

  /** Some child names this namespace and no child names another. */
  ghost predicate OnlyChildNamespace(items: seq<VSItem>, parent: string, n: string) {
    && parent != "" && n != ""
    && (exists x :: x in items && RefUUID(x.vhParentRef) == parent && VSLabels(x).namespace == n)
    && (forall x :: x in items && RefUUID(x.vhParentRef) == parent ==> VSLabels(x).namespace in {"", n})
  }

  lemma OnlyChildNamespaceIs(items: seq<VSItem>, parent: string, n: string)
    ensures OnlyChildNamespace(items, parent, n) <==> ChildNamespaces(items, parent) == {n}
  {
    hide RefUUID, VSLabels;
    var names := ChildNamespaces(items, parent);
    if OnlyChildNamespace(items, parent, n) {
      assert n in names;
      assert forall m :: m in names ==> m == n;
    }
    if names == {n} {
      assert n in names;
      forall x | x in items && RefUUID(x.vhParentRef) == parent && VSLabels(x).namespace != ""
        ensures VSLabels(x).namespace in names
      {
      }
    }
  }

  lemma WriteNamespace(base: MarkerInfo, md: ServiceMetadata, n: string)
    requires Merged(base, md).namespace == ""
    ensures Merged(base, md.(namespace := n)) == Merged(base, md).(namespace := n)
  {
    hide SplitNamespacedName;
  }

  /** An item without a namespace gets exactly the one namespace its children agree on; its other
      labels, and every item that has a namespace, stay as they were. */
  lemma InheritanceExact(items: seq<VSItem>, x: VSItem, n: string)
    requires n != ""
    ensures VSLabels(x).namespace == "" ==>
              (VSLabels(Inherited(items, x)).namespace == n <==> OnlyChildNamespace(items, x.uuid, n))
    ensures VSLabels(Inherited(items, x)) == VSLabels(x).(namespace := VSLabels(Inherited(items, x)).namespace)
    ensures VSLabels(x).namespace != "" ==> Inherited(items, x) == x
  {
    hide MarkerLabels, Merged, ChildNamespaces, OnlyChildNamespace;
    OnlyChildNamespaceIs(items, x.uuid, n);
    var base := MarkerLabels(x.markers);
    if VSLabels(x).namespace == "" {
      forall m { WriteNamespace(base, x.metadata, m); }
    }
  }

  /** The order of the inventory does not matter to inheritance. */
  lemma InheritanceIgnoresOrder(a: seq<VSItem>, b: seq<VSItem>, x: VSItem)
    requires multiset(a) == multiset(b)
    ensures Inherited(a, x) == Inherited(b, x)
  {
    hide RefUUID, VSLabels;
    assert forall y :: y in a <==> y in multiset(a);
    assert forall y :: y in b <==> y in multiset(b);
    assert ChildNamespaces(a, x.uuid) == ChildNamespaces(b, x.uuid);
  }

  // ---- links ----

  /** uuid is reachable from the VsVip through virtual service vs. */
  ghost predicate Reaches(items: seq<VSItem>, vs: VSItem, uuid: string) {
    || uuid == vs.uuid
    || (vs.uuid != "" && exists c :: c in items && c.uuid == uuid && RefUUID(c.vhParentRef) == vs.uuid)
    || ((exists c :: c in items && c.uuid == uuid) && exists ref :: ref in vs.vhChildRefs && RefUUID(ref) == uuid)
  }

  ghost predicate Reachable(items: seq<VSItem>, vsvip: string, uuid: string) {
    uuid != "" && vsvip != "" && exists vs :: vs in items && RefUUID(vs.vsvipRef) == vsvip && Reaches(items, vs, uuid)
  }

  ghost predicate HasUUID(s: seq<VSItem>, uuid: string) {
    exists x :: x in s && x.uuid == uuid
  }

  ghost predicate DistinctUUIDs(s: seq<VSItem>) {
    forall i, j :: 0 <= i < j < |s| ==> s[i].uuid != s[j].uuid
  }

  lemma {:induction false} AddAllIs(s: seq<VSItem>, xs: seq<VSItem>, uuid: string)
    requires DistinctUUIDs(s)
    ensures DistinctUUIDs(AddAll(s, xs))
    ensures HasUUID(AddAll(s, xs), uuid) <==> HasUUID(s, uuid) || (uuid != "" && HasUUID(xs, uuid))
    ensures forall x :: x in AddAll(s, xs) ==> x in s || x in xs
  {
    if xs != [] {
      var n := |xs| - 1;
      AddAllIs(s, xs[..n], uuid);
      assert xs == xs[..n] + [xs[n]];
      var before := AddAll(s, xs[..n]);
      assert xs[n] in xs;
      assert forall x :: x in before + [xs[n]] <==> x in before || x == xs[n];
    }
  }

  lemma {:induction false} ChildrenAre(items: seq<VSItem>, parent: string, x: VSItem)
    ensures x in Children(items, parent) <==> parent != "" && x in items && RefUUID(x.vhParentRef) == parent
  {
    hide RefUUID;
    if items != [] {
      ChildrenAre(items[..|items| - 1], parent, x);
      assert items == items[..|items| - 1] + [items[|items| - 1]];
    }
  }

  lemma {:induction false} LookupFinds(items: seq<VSItem>, uuid: string)
    ensures Lookup(items, uuid).Some? <==> uuid != "" && HasUUID(items, uuid)
    ensures Lookup(items, uuid).Some? ==> Lookup(items, uuid).value in items && Lookup(items, uuid).value.uuid == uuid
  {
    if items != [] {
      LookupFinds(items[..|items| - 1], uuid);
      assert items == items[..|items| - 1] + [items[|items| - 1]];
    }
  }

  lemma {:induction false} RuntimeChildrenAre(items: seq<VSItem>, refs: seq<string>, uuid: string)
    requires uuid != ""
    ensures HasUUID(RuntimeChildren(items, refs), uuid)
            <==> HasUUID(items, uuid) && exists ref :: ref in refs && RefUUID(ref) == uuid
    ensures forall x :: x in RuntimeChildren(items, refs) ==> x in items
  {
    hide RefUUID, Lookup;
    if refs != [] {
      var n := |refs| - 1;
      RuntimeChildrenAre(items, refs[..n], uuid);
      LookupFinds(items, RefUUID(refs[n]));
      LookupFinds(items, uuid);
      assert refs == refs[..n] + [refs[n]];
      assert refs[n] in refs;
      var before := RuntimeChildren(items, refs[..n]);
      match Lookup(items, RefUUID(refs[n])) {
        case Some(c) => assert c in before + [c];
        case None =>
      }
    }
  }

  lemma CandidatesAre(items: seq<VSItem>, vs: VSItem, uuid: string)
    requires uuid != "" && vs in items
    ensures HasUUID(Candidates(items, vs), uuid) <==> Reaches(items, vs, uuid)
    ensures forall x :: x in Candidates(items, vs) ==> x in items
  {
    hide RefUUID, Children, RuntimeChildren;
    forall x { ChildrenAre(items, vs.uuid, x); }
    RuntimeChildrenAre(items, vs.vhChildRefs, uuid);
    var children, runtime := Children(items, vs.uuid), RuntimeChildren(items, vs.vhChildRefs);
    assert forall x :: x in Candidates(items, vs) <==> x == vs || x in children || x in runtime;
    assert HasUUID(Candidates(items, vs), uuid) <==> vs.uuid == uuid || HasUUID(children, uuid) || HasUUID(runtime, uuid);
  }

  lemma {:induction false} LinksUpToAre(items: seq<VSItem>, n: nat, vsvip: string, uuid: string)
    requires n <= |items| && uuid != "" && vsvip != ""
    ensures DistinctUUIDs(LinksUpTo(items, n, vsvip))
    ensures HasUUID(LinksUpTo(items, n, vsvip), uuid)
            <==> exists i :: 0 <= i < n && RefUUID(items[i].vsvipRef) == vsvip && Reaches(items, items[i], uuid)
    ensures forall x :: x in LinksUpTo(items, n, vsvip) ==> x in items && x.uuid != ""
  {
    hide RefUUID, Candidates, Reaches;
    if n > 0 {
      LinksUpToAre(items, n - 1, vsvip, uuid);
      var before := LinksUpTo(items, n - 1, vsvip);
      CandidatesAre(items, items[n - 1], uuid);
      AddAllIs(before, Candidates(items, items[n - 1]), uuid);
      AddAllIs(before, Candidates(items, items[n - 1]), "");
    }
  }

  /** The index links to a VsVip exactly the non-empty UUIDs reachable by vsvip_ref, by a child's
      parent reference, or by a runtime child reference present in the inventory, each once. */
  lemma LinksExact(items: seq<VSItem>, vsvip: string, uuid: string)
    ensures HasUUID(Links(items, vsvip), uuid) <==> Reachable(items, vsvip, uuid)
    ensures DistinctUUIDs(Links(items, vsvip))
    ensures forall x :: x in Links(items, vsvip) ==> x in items
  {
    hide RefUUID, Reaches;
    if vsvip == "" {
      NoVsVipNoLinks(items, |items|);
    } else {
      LinksUpToAre(items, |items|, vsvip, if uuid == "" then "x" else uuid);
    }
  }

  lemma {:induction false} NoVsVipNoLinks(items: seq<VSItem>, n: nat)
    requires n <= |items|
    ensures LinksUpTo(items, n, "") == []
  {
    if n > 0 {
      NoVsVipNoLinks(items, n - 1);
    }
  }

  // ---- the list of virtual services ----

  ghost predicate RefsHave(refs: seq<VsRef>, uuid: string) {
    exists r :: r in refs && r.uuid == uuid
  }

  lemma {:induction false} AppendMissingIs(refs: seq<VsRef>, linked: seq<VSItem>, uuid: string)
    requires uuid != ""
    ensures refs <= AppendMissing(refs, linked)
    ensures RefsHave(AppendMissing(refs, linked), uuid) <==> RefsHave(refs, uuid) || HasUUID(linked, uuid)
    ensures forall i, j :: 0 <= i < j < |AppendMissing(refs, linked)| && |refs| <= j
              ==> AppendMissing(refs, linked)[i].uuid != AppendMissing(refs, linked)[j].uuid
    ensures forall j :: |refs| <= j < |AppendMissing(refs, linked)| ==> HasUUID(linked, AppendMissing(refs, linked)[j].uuid)
  {
    if linked != [] {
      var n := |linked| - 1;
      AppendMissingIs(refs, linked[..n], uuid);
      assert linked == linked[..n] + [linked[n]];
      assert linked[n] in linked;
      var before := AppendMissing(refs, linked[..n]);
      forall j | |refs| <= j < |before| ensures HasUUID(linked, before[j].uuid) {
        var x :| x in linked[..n] && x.uuid == before[j].uuid;
        assert x in linked;
      }
      var r := VsRef(linked[n].uuid, linked[n].url);
      assert forall y :: y in before + [r] <==> y in before || y == r;
      if AppendMissing(refs, linked) == before + [r] {
        forall i | 0 <= i < |before| ensures before[i].uuid != r.uuid {
          assert before[i] in before;
        }
      }
    }
  }

  /** The merged list keeps the existing entries in order, with their UUIDs read off the reference
      where missing, and then names each missing linked service exactly once and nothing else. */
  lemma MergeExact(refs: seq<VsRef>, linked: seq<VSItem>, uuid: string)
    requires uuid != ""
    ensures var merged := MergedRefs(refs, linked);
            && |merged| >= |refs|
            && (forall i :: 0 <= i < |refs| ==> merged[i] == FilledRef(refs[i]))
            && (RefsHave(merged, uuid) <==> RefsHave(FilledRefs(refs), uuid) || HasUUID(linked, uuid))
            && (forall i, j :: 0 <= i < j < |merged| && |refs| <= j ==> merged[i].uuid != merged[j].uuid)
            && (forall j :: |refs| <= j < |merged| ==> HasUUID(linked, merged[j].uuid))
  {
    hide FilledRef;
    AppendMissingIs(FilledRefs(refs), linked, uuid);
    forall i | 0 <= i < |refs| ensures FilledRefs(refs)[i] == FilledRef(refs[i]) {
      FilledRefsAt(refs, i);
    }
  }

  lemma {:induction false} FilledRefsAt(refs: seq<VsRef>, i: nat)
    requires i < |refs|
    ensures FilledRefs(refs)[i] == FilledRef(refs[i])
  {
    hide FilledRef;
    if i < |refs| - 1 {
      FilledRefsAt(refs[..|refs| - 1], i);
    }
  }
}
