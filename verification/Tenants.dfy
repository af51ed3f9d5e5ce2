/** The tenant list: configuration, normalization (collector/cache.go). */
module Tenants {
  import opened Prelude

  /** Sorted, without duplicates and without the empty name. */
  function NormalizedNames(names: seq<string>): (r: seq<string>)
    ensures forall x :: x in r <==> x in names && x != ""
    ensures StrictlySorted(r)
  {
    if names == [] then []
    else
      var n := |names| - 1;
      var rest := NormalizedNames(names[..n]);
      assert names == names[..n] + [names[n]];
      if names[n] == "" then rest
      else
        InsertSorted(names[n], rest);
        Insert(names[n], rest)
  }

  /** Normalization depends on the set of names alone: neither order nor repetition counts. */
  lemma NormalizedNamesBySet(a: seq<string>, b: seq<string>)
    requires forall x :: x != "" ==> (x in a <==> x in b)
    ensures NormalizedNames(a) == NormalizedNames(b)
  {
    SortedUnique(NormalizedNames(a), NormalizedNames(b));
  }

  /** Go's sort.Strings, as insertion in byte order. */
  method SortStrings(names: seq<string>) returns (r: seq<string>)
    requires NoDuplicates(names)
    ensures StrictlySorted(r)
    ensures forall x :: x in r <==> x in names
  {
    r := [];
    for i := 0 to |names|
      invariant StrictlySorted(r)
      invariant forall x :: x in r <==> x in names[..i]
    {
      InsertSorted(names[i], r);
      r := Insert(names[i], r);
    }
    assert names[..|names|] == names;
  }

  method NormalizeTenantNames(names: seq<string>) returns (r: seq<string>)
    ensures r == NormalizedNames(names)
  {
    var seen: set<string> := {};
    var out: seq<string> := [];
    for i := 0 to |names|
      invariant forall x :: x in seen <==> x in names[..i] && x != ""
      invariant forall x :: x in out <==> x in seen
      invariant NoDuplicates(out)
    {
      if names[i] == "" || names[i] in seen {
        continue;
      }
      seen := seen + {names[i]};
      out := out + [names[i]];
    }
    assert names[..|names|] == names;
    r := SortStrings(out);
    SortedUnique(r, NormalizedNames(names));
  }

  // ---- configuredTenants ----

  predicate Wildcard(configured: seq<string>) {
    "*" in configured
  }

  /** A name that can be a tenant's. */
  predicate Usable(configured: seq<string>, x: string) {
    x in configured && x != "*" && x != ""
  }

  function WithoutStar(configured: seq<string>): (r: seq<string>)
    ensures forall x :: x in r <==> x in configured && x != "*"
  {
    if configured == [] then []
    else
      var n := |configured| - 1;
      assert configured == configured[..n] + [configured[n]];
      WithoutStar(configured[..n]) + if configured[n] == "*" then [] else [configured[n]]
  }

  /** The explicit names; `admin` when nothing usable is named. */
  function StaticTenants(configured: seq<string>): (r: seq<string>)
    ensures StrictlySorted(r) && "" !in r
    ensures !Wildcard(configured) ==> r != []
    ensures forall x :: Usable(configured, x) ==> x in r
  {
    var explicit := WithoutStar(configured);
    if explicit == [] && Wildcard(configured) then []
    else
      var names := NormalizedNames(if explicit == [] then ["admin"] else explicit);
      if names == [] then ["admin"] else names
  }

  /** The list is exactly the usable names; without one it is empty if there are only wildcards, and
      otherwise `admin` alone. */
  lemma StaticTenantsExactly(configured: seq<string>)
    ensures (exists x :: Usable(configured, x)) ==> forall x :: x in StaticTenants(configured) <==> Usable(configured, x)
    ensures (forall x :: !Usable(configured, x)) ==>
              StaticTenants(configured) == if configured != [] && (forall x :: x in configured ==> x == "*") then [] else ["admin"]
  {
    var explicit := WithoutStar(configured);
    var names := NormalizedNames(if explicit == [] then ["admin"] else explicit);
    assert NormalizedNames(["admin"]) == ["admin"] by { SortedUnique(NormalizedNames(["admin"]), ["admin"]); }
    if explicit == [] {
      assert configured != [] ==> configured[0] in configured;
    } else {
      assert explicit[0] in configured && explicit[0] != "*";
      assert names != [] ==> names[0] in names && Usable(configured, names[0]);
    }
  }

  method ConfiguredTenants(configured: seq<string>) returns (names: seq<string>, wildcard: bool)
    ensures names == StaticTenants(configured)
    ensures wildcard == Wildcard(configured)
  {
    names := [];
    wildcard := false;
    for i := 0 to |configured|
      invariant names == WithoutStar(configured[..i])
      invariant wildcard == Wildcard(configured[..i])
    {
      assert configured[..i + 1][..i] == configured[..i];
      if configured[i] == "*" {
        wildcard := true;
        continue;
      }
      names := names + [configured[i]];
    }
    assert configured[..|configured|] == configured;
    if names == [] && !wildcard {
      names := ["admin"];
    }
    if names == [] {
      return;
    }
    names := NormalizeTenantNames(names);
    if names == [] {
      names := ["admin"];
    }
  }

  /** A successful discovery keeps every explicit name, sorted with the discovered ones. */
  function Discovered(configured: seq<string>, found: seq<string>): (r: seq<string>)
    ensures StrictlySorted(r) && "" !in r
    ensures forall x :: x in r <==> x != "" && (x in StaticTenants(configured) || x in found)
  {
    NormalizedNames(StaticTenants(configured) + found)
  }
}
