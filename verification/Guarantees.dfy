/** What a scrape or a readiness check can rely on, in every reachable state. */
module Guarantees {
  import opened Prelude
  import opened Inventory
  import opened Series
  import opened Tenants
  import opened Cache
  import opened Refresh
  import opened Snapshots
  import opened RefreshInvariants
  import opened ReachableStates
  import Topology
  import TopologyGraph
  import Enrichment

  lemma ReachableInv(env: Env, s: Sys)
    requires Reachable(env, s)
    ensures SysInv(env, s)
  {
    hide SysInv, Reaches;
    var events :| Reaches(env, events, s);
    ReachesInv(env, events, s);
  }

  lemma ReachableStore(env: Env, s: Sys)
    requires Reachable(env, s)
    ensures StoreInv(env, s.run, s.cache, s.ledger, s.now)
  {
    hide StoreInv, PhaseInv, Reachable;
    ReachableInv(env, s);
  }

  /** Both attempt counters equal the recorded attempts and both error counters the recorded errors;
      errors never exceed attempts, no success is later than the last attempt, and exactly the recorded
      modules have counters. Dropping and rediscovering tenants does not break this. */
  lemma CountersMatchStates(env: Env, s: Sys, k: ModuleKey)
    requires Reachable(env, s)
    ensures KeyAgrees(s.cache, k)
    ensures s.cache.scrapeTotal.Keys == s.cache.states.Keys && s.cache.refreshTotal.Keys == s.cache.states.Keys
    ensures k in s.cache.states ==> s.cache.states[k].lastAttempt <= s.now
  {
    hide Reachable, Resident, Sourced, Agrees, GoodTenants, StateAgrees;
    ReachableStore(env, s);
    forall k ensures (k in s.cache.scrapeTotal <==> k in s.cache.states) && (k in s.cache.refreshTotal <==> k in s.cache.states) {
      assert KeyAgrees(s.cache, k);
    }
  }

  /** Every series shows what the last successful writer's answers render to, under the rows that raw
      admin analytics have left with other tenants, and no other series exists. */
  lemma SeriesAreLastRendering(env: Env, s: Sys, key: SeriesKey)
    requires Reachable(env, s)
    ensures At(s.cache.gauges, key) == Expected(env, s.ledger, key)
  {
    hide Reachable, CountersAgree, Resident, Sourced, GoodTenants, Expected, Attempted;
    ReachableStore(env, s);
  }

  /** What the last successful writer's answers render to; nothing without one. */
  function SliceBase(env: Env, l: Ledger, g: Group, t: string): Rows {
    var n := SliceName(g, t);
    if n in l.slices && Rendering(env, l.slices[n], g, t).Some? then Rendering(env, l.slices[n], g, t).value else map[]
  }

  /** The rows left by raw analytics are all in the rendering, with the same values. */
  ghost predicate StraysAgree(env: Env, l: Ledger, g: Group, t: string) {
    forall r :: StrayRow(env, l, g, Some(t), r).Some? ==> StrayRow(env, l, g, Some(t), r) == RowAt(SliceBase(env, l, g, t), r)
  }

  /** Where raw admin analytics are collected, if admin is not listed. */
  predicate CollectsRaw(env: Env) {
    Wildcard(env.configured) && On(env, VSMetrics) && On(env, AdminVSMetrics)
  }

  /** A tenant's slice of a gauge group is either empty or exactly one rendering of answers of one
      refresh: never half replaced, never a mix of two refreshes. The one exception is exactly the rows
      that raw admin analytics have left among a tenant's own since these were last replaced or dropped;
      only analytics of virtual services of tenants other than admin can have them, and only where raw
      analytics are collected. */
  lemma SliceIsOneSnapshot(env: Env, s: Sys, g: Group, t: string)
    requires Reachable(env, s) && PerTenant(g)
    ensures SliceName(g, t) in s.ledger.slices ==>
              s.ledger.slices[SliceName(g, t)].run <= s.run && Rendering(env, s.ledger.slices[SliceName(g, t)], g, t).Some?
    ensures Shows(s.cache.gauges, g, Some(t), SliceBase(env, s.ledger, g, t)) <==> StraysAgree(env, s.ledger, g, t)
    ensures forall r :: At(s.cache.gauges, SeriesKey(g, Some(t), r))
                        == Either(StrayRow(env, s.ledger, g, Some(t), r), RowAt(SliceBase(env, s.ledger, g, t), r))
    ensures g != GVSAnalytics || t == "admin" || !CollectsRaw(env) ==>
              Shows(s.cache.gauges, g, Some(t), SliceBase(env, s.ledger, g, t))
  {
    hide Reachable, Rendering, PerTenant, StrayRow, GoodRaws;
    SlicesAreGood(env, s);
    forall r ensures At(s.cache.gauges, SeriesKey(g, Some(t), r))
                     == Either(StrayRow(env, s.ledger, g, Some(t), r), RowAt(SliceBase(env, s.ledger, g, t), r))
    {
      SeriesAreLastRendering(env, s, SeriesKey(g, Some(t), r));
    }
    hide At, RowAt, SliceBase;
    if g != GVSAnalytics || t == "admin" || !CollectsRaw(env) {
      forall r ensures StrayRow(env, s.ledger, g, Some(t), r).None? {
        NoStrayRow(env, s.run, s.ledger, g, t, r);
      }
    }
  }

  lemma NoStrayRow(env: Env, run: nat, l: Ledger, g: Group, t: string, r: Row)
    requires GoodRaws(env, run, l) && (g != GVSAnalytics || t == "admin" || !CollectsRaw(env))
    ensures StrayRow(env, l, g, Some(t), r).None?
  {
    if g == GVSAnalytics {
      assert RawsSince(l, Some(t)) == [];
    }
  }

  /** A row has been left exactly if one of the raw answers since names it, and the last of those says
      its value. */
  lemma {:induction false} LastRawExact(env: Env, runs: seq<nat>, tenant: Option<string>, r: Row)
    ensures LastRaw(env, runs, tenant, r).None? <==>
              forall i :: 0 <= i < |runs| ==> OwnRowOf(env.controller.ownRows(runs[i], AdminVSMetrics), tenant, r).None?
    ensures LastRaw(env, runs, tenant, r).Some? ==>
              exists i :: 0 <= i < |runs|
                          && OwnRowOf(env.controller.ownRows(runs[i], AdminVSMetrics), tenant, r) == LastRaw(env, runs, tenant, r)
                          && forall j :: i < j < |runs| ==> OwnRowOf(env.controller.ownRows(runs[j], AdminVSMetrics), tenant, r).None?
  {
    hide OwnRowOf;
    if runs != [] {
      var n := |runs| - 1;
      LastRawExact(env, runs[..n], tenant, r);
      assert forall i :: 0 <= i < n ==> runs[..n][i] == runs[i];
    }
  }

  lemma SlicesAreGood(env: Env, s: Sys)
    requires Reachable(env, s)
    ensures forall n :: n in s.ledger.slices ==> GoodSlice(env, s.run, n, s.ledger.slices[n])
    ensures GoodRaws(env, s.run, s.ledger)
  {
    hide Reachable, GoodSlice, GoodRaws, CountersAgree, Resident, Agrees, GoodTenants, GoodGlobal, Attempted;
    ReachableStore(env, s);
  }

  /** A tenant that is not listed has no series in a per-tenant group, no module state, no counter and
      no up flag, however many refreshes and interleavings came after it was dropped. What it can have
      are analytics of virtual services: admin those of its raw analytics, any other tenant exactly the
      rows under its name in raw admin answers since it was last dropped or refreshed. */
  lemma UnlistedTenantHasNothing(env: Env, s: Sys, t: string)
    requires Reachable(env, s) && t !in s.cache.tenants && t != ""
    ensures forall g, r :: PerTenant(g) && g != GVSAnalytics ==> At(s.cache.gauges, SeriesKey(g, Some(t), r)) == None
    ensures t != "admin" ==>
              forall r :: At(s.cache.gauges, SeriesKey(GVSAnalytics, Some(t), r))
                          == LastRaw(env, RawsSince(s.ledger, Some(t)), Some(t), r)
    ensures !CollectsRaw(env) ==> forall g, r :: PerTenant(g) ==> At(s.cache.gauges, SeriesKey(g, Some(t), r)) == None
    ensures forall m :: ModuleKey(m, t) in s.cache.states ==> t == "admin" && m == AdminVSMetrics
    ensures t !in s.cache.up
  {
    hide Reachable, CountersAgree, Agrees, Sourced, GoodTenants, Attempted, LastRaw, RawsSince;
    ReachableStore(env, s);
    SlicesAreGood(env, s);
    assert PerTenant(GVSAnalytics) by { AnalyticsPerTenant(); }
    forall g, r | PerTenant(g) && (!(t == "admin" && g == GVSAnalytics) || !CollectsRaw(env))
      ensures At(s.cache.gauges, SeriesKey(g, Some(t), r)) == StrayRow(env, s.ledger, g, Some(t), r)
      ensures !CollectsRaw(env) ==> StrayRow(env, s.ledger, g, Some(t), r).None?
    {
      hide PerTenant, Resident, StrayRow, GoodRaws, GoodSlice, Rendering;
      SeriesAreLastRendering(env, s, SeriesKey(g, Some(t), r));
      NoSliceExpected(env, s.ledger, g, t, r) by { UnlistedHasNoSlice(env, s, g, t); }
      if !CollectsRaw(env) {
        NoStrayRow(env, s.run, s.ledger, g, t, r);
      }
    }
  }

  lemma UnlistedHasNoSlice(env: Env, s: Sys, g: Group, t: string)
    requires Reachable(env, s) && t !in s.cache.tenants && (!(t == "admin" && g == GVSAnalytics) || !CollectsRaw(env))
    ensures SliceName(g, t) !in s.ledger.slices
  {
    hide Reachable, CountersAgree, Agrees, Sourced, GoodTenants, Attempted, Wildcard, GoodRaws, CollectsRaw;
    ReachableStore(env, s);
    SlicesAreGood(env, s);
    assert !CollectsRaw(env) ==> s.ledger.raws == [] by { NoRaws(env, s.run, s.ledger); }
  }

  lemma NoRaws(env: Env, run: nat, l: Ledger)
    requires GoodRaws(env, run, l)
    ensures !CollectsRaw(env) ==> l.raws == []
  {
  }

  lemma NoSliceExpected(env: Env, l: Ledger, g: Group, t: string, r: Row)
    requires PerTenant(g) && SliceName(g, t) !in l.slices
    ensures Expected(env, l, SeriesKey(g, Some(t), r)) == StrayRow(env, l, g, Some(t), r)
  {
    hide PerTenant, StrayRow;
  }

  /** The tenant list is sorted and free of duplicates and of the empty name; from the moment a refresh
      has settled its tenants, it contains every explicitly configured one and the refresh works on
      exactly this list. At most `parallelism` tenants are refreshed at a time. */
  lemma TenantListIsSound(env: Env, s: Sys)
    requires Reachable(env, s)
    ensures StrictlySorted(s.cache.tenants) && NoDuplicates(s.cache.tenants) && "" !in s.cache.tenants
    ensures s.phase.Main? && s.phase.main.pc >= 2 ==>
              ExplicitListed(env, s.cache) && s.phase.main.local.tenants == s.cache.tenants
    ensures s.phase.Fan? ==>
              && ExplicitListed(env, s.cache)
              && s.phase.workers.Keys == (set t | t in s.cache.tenants)
              && |Holders(s.phase.workers)| <= env.parallelism
  {
    hide Reachable, CountersAgree, Resident, Agrees, Sourced, ExplicitListed, AgentInv, WorkerInv, Holders, Attempted;
    ReachableInv(env, s);
    SortedNoDuplicates(s.cache.tenants);
  }

  // ---- the topology ----

  /** All five answers of the tenant's topology come from one refresh. */
  ghost predicate TopologyOfRun(env: Env, run: nat, t: string, rows: Rows) {
    && env.controller.vsList(run, t).Some?
    && env.controller.poolList(run, t).Some?
    && env.controller.vsvipList(run, t).Some?
    && (On(env, PoolGroup) ==> env.controller.poolGroups(run, t).Some?)
    && (On(env, PoolMembers) ==> env.controller.poolMembers(run, t).Some?)
    && var vs := env.controller.vsList(run, t).value;
       rows == Topology.TopologyRows(
         vs,
         env.controller.poolList(run, t).value,
         Enrichment.EnrichedInventory(env.controller.vsvipList(run, t).value, vs),
         if On(env, PoolGroup) then env.controller.poolGroups(run, t).value else [],
         if On(env, PoolMembers) then env.controller.poolMembers(run, t).value else [])
  }

  lemma TopologyRenderingIsOfRun(env: Env, source: Source, t: string)
    requires Rendering(env, source, GTopology, t).Some? && (NeedVS(env) && NeedPools(env))
    ensures TopologyOfRun(env, source.run, t, Rendering(env, source, GTopology, t).value)
  {
    hide Topology.TopologyRows, Enrichment.EnrichedInventory;
  }

  /** The topology a scrape sees for a tenant is nothing, or the graph of virtual services, pools,
      VIPs, pool groups and members that one single refresh fetched, and that graph has only edges that
      strictly climb from vsvip over vs, poolgroup and pool to poolmember. */
  lemma TopologyIsOneRefresh(env: Env, s: Sys, t: string)
    requires Reachable(env, s) && On(env, Module.Topology)
    ensures Shows(s.cache.gauges, GTopology, Some(t), map[])
            || exists run: nat, rows :: run <= s.run && TopologyOfRun(env, run, t, rows)
                                   && Shows(s.cache.gauges, GTopology, Some(t), rows) && TopologyGraph.Ranked(rows)
  {
    hide Reachable, Rendering, Shows, TopologyOfRun, TopologyGraph.Ranked, PerTenant, StraysAgree, StrayRow;
    assert PerTenant(GTopology) by { TopologyPerTenant(); }
    SliceIsOneSnapshot(env, s, GTopology, t);
    var n := SliceName(GTopology, t);
    if n in s.ledger.slices {
      var run := s.ledger.slices[n].run;
      var rows := Rendering(env, s.ledger.slices[n], GTopology, t).value;
      TopologyRenderingIsOfRun(env, s.ledger.slices[n], t);
      OfRunIsRanked(env, run, t, rows);
      assert run <= s.run && TopologyOfRun(env, run, t, rows) && Shows(s.cache.gauges, GTopology, Some(t), rows)
             && TopologyGraph.Ranked(rows);
    }
  }

  lemma TopologyPerTenant()
    ensures PerTenant(GTopology)
  {
  }

  lemma OfRunIsRanked(env: Env, run: nat, t: string, rows: Rows)
    requires TopologyOfRun(env, run, t, rows)
    ensures TopologyGraph.Ranked(rows)
  {
    hide Topology.TopologyRows, Enrichment.EnrichedInventory, TopologyGraph.Ranked;
    var vs := env.controller.vsList(run, t).value;
    TopologyGraph.TopologyRanked(
      vs,
      env.controller.poolList(run, t).value,
      Enrichment.EnrichedInventory(env.controller.vsvipList(run, t).value, vs),
      if On(env, PoolGroup) then env.controller.poolGroups(run, t).value else [],
      if On(env, PoolMembers) then env.controller.poolMembers(run, t).value else []);
  }

  /** Edges a scrape sees for one tenant, each starting where the one before ends. */
  ghost predicate ServedPath(c: CacheState, t: string, path: seq<Row>) {
    && (forall i :: 0 <= i < |path| ==>
          path[i].TopologyEdge? && At(c.gauges, SeriesKey(GTopology, Some(t), path[i])).Some?)
    && (forall i :: 0 <= i < |path| - 1 ==> path[i].target == path[i + 1].source)
  }

  lemma NonEmptySlice(c: CacheState, g: Group, t: string, r: Row)
    requires At(c.gauges, SeriesKey(g, Some(t), r)).Some?
    ensures !Shows(c.gauges, g, Some(t), map[])
  {
    assert RowAt(map[], r) == None;
  }

  /** In every reachable state the served topology of a tenant has no cycle and no path of more than
      four edges. */
  lemma ServedTopologyIsShallow(env: Env, s: Sys, t: string, path: seq<Row>)
    requires Reachable(env, s) && On(env, Module.Topology)
    requires ServedPath(s.cache, t, path) && path != []
    ensures |path| <= 4
    ensures path[|path| - 1].target != path[0].source
  {
    hide Reachable, TopologyOfRun, TopologyGraph.Ranked, TopologyGraph.Rank;
    TopologyIsOneRefresh(env, s, t);
    NonEmptySlice(s.cache, GTopology, t, path[0]);
    var run: nat, rows :| run <= s.run && TopologyOfRun(env, run, t, rows)
                          && Shows(s.cache.gauges, GTopology, Some(t), rows) && TopologyGraph.Ranked(rows);
    forall i | 0 <= i < |path| ensures path[i] in rows {
      assert At(s.cache.gauges, SeriesKey(GTopology, Some(t), path[i])) == RowAt(rows, path[i]);
    }
    TopologyGraph.GraphIsShallowAndAcyclic(rows, path);
  }

  // ---- failures ----

  /** A module that fails leaves the cache alone in its first section and changes only its own state and
      counters in the second: no series, no up flag, no tenant. */
  lemma FailedModuleChangesNoSeries(env: Env, run: nat, a: Agent, c: CacheState, now: nat)
    requires StageOf(a).Run? && a.mid.None? && Attempts(env, StageOf(a).m, a.local)
    requires !Execute(env, run, a.owner, StageOf(a).m, a.local).ok
    ensures var b := AgentNext(env, run, a, c.tenants, now);
            && ApplyEffect(c, AgentEffect(env, run, a, c.tenants)) == c
            && b.mid == Some(Mid(false, now))
            && AgentEffect(env, run, b, c.tenants) == Books(KeyFor(a.owner, StageOf(a).m), false, now)
            && var d := ApplyEffect(c, AgentEffect(env, run, b, c.tenants));
               d.gauges == c.gauges && d.up == c.up && d.tenants == c.tenants
  {
    FailedFetchWritesNothing(env, run, a.owner, StageOf(a).m, a.local);
    BookKeepsGauges(c, KeyFor(a.owner, StageOf(a).m), false, now);
    hide Execute, Attempts, KeyFor, Book;
  }

  /** After a failed discovery, settling the tenants removes nothing: the cached list is kept, or the
      explicit one is taken up when there is none. */
  lemma FailedDiscoveryRemovesNothing(env: Env, run: nat, a: Agent, c: CacheState, now: nat)
    requires a.owner == "" && a.pc == 1 && a.mid.None? && Wildcard(env.configured) && !a.local.discovered
    ensures var d := ApplyEffect(c, AgentEffect(env, run, a, c.tenants));
            && d.gauges == c.gauges && d.states == c.states && d.up == c.up
            && d.tenants == (if c.tenants != [] then c.tenants else StaticTenants(env.configured))
  {
    var e := AgentEffect(env, run, a, c.tenants);
    if c.tenants == [] && e.Writes? {
      NothingToDrop(c, e.write.next);
    }
    hide StaticTenants, SetTenants;
  }

  lemma NothingToDrop(c: CacheState, next: seq<string>)
    requires c.tenants == []
    ensures SetTenants(c, next) == c.(tenants := next)
  {
    assert Dropped(c, next) == {};
    assert Drop(c, {}) == c;
  }
}
