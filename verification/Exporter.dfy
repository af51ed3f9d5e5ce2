/** The exporter's mutable state and the critical sections that update it in place (collector/cache.go,
    collector/collector.go), each proved against its specification on values. */
module Exporter {
  import opened Prelude
  import opened Series
  import opened Tenants
  import opened Cache
  import opened Refresh
  import opened Readiness
  import CleanRefresh
  import Guarantees
  import opened TenantRun

  const ALL_GROUPS: seq<Group> :=
    [GVSInventory, GVSAnalytics, GPoolInventory, GPoolAnalytics, GPoolMembers, GVsVip, GPoolGroup, GGslb, GTopology,
     GClusterState, GClusterNodes, GController, GSEIdentity, GSEInventory, GSEAnalytics]

  datatype ModuleStatus = ModuleStatus(
    age: int,
    maxStale: nat,
    stale: bool,
    required: bool,
    attempts: nat,
    errors: nat,
    failing: bool)

  function StatusOf(st: ModuleState, now: int): ModuleStatus {
    ModuleStatus(AgeOf(st, now), st.maxStale, st.IsStale(now), st.required, st.attempts, st.errors, st.failing)
  }

  /** What the report says of a module, field by field. */
  predicate Reports(status: ModuleStatus, st: ModuleState, now: int) {
    && status.age == (if st.lastSuccess.None? then 0 else now - st.lastSuccess.value)
    && status.maxStale == st.maxStale && status.stale == st.IsStale(now) && status.required == st.required
    && status.attempts == st.attempts && status.errors == st.errors && status.failing == st.failing
  }

  lemma StatusReports(st: ModuleState, now: int)
    ensures Reports(StatusOf(st, now), st, now)
  {
    hide ModuleState.IsStale;
  }

  lemma AllGroupsListed(g: Group)
    ensures g in ALL_GROUPS
  {
    assert ALL_GROUPS[0] == GVSInventory && ALL_GROUPS[1] == GVSAnalytics && ALL_GROUPS[2] == GPoolInventory
           && ALL_GROUPS[3] == GPoolAnalytics && ALL_GROUPS[4] == GPoolMembers && ALL_GROUPS[5] == GVsVip
           && ALL_GROUPS[6] == GPoolGroup && ALL_GROUPS[7] == GGslb && ALL_GROUPS[8] == GTopology
           && ALL_GROUPS[9] == GClusterState && ALL_GROUPS[10] == GClusterNodes && ALL_GROUPS[11] == GController
           && ALL_GROUPS[12] == GSEIdentity && ALL_GROUPS[13] == GSEInventory && ALL_GROUPS[14] == GSEAnalytics;
  }

  class Exporter {
    var tenants: seq<string>
    var gauges: Gauges
    var up: map<string, bool>
    var moduleStates: map<ModuleKey, ModuleState>
    var scrapeTotal: map<ModuleKey, nat>
    var refreshTotal: map<ModuleKey, nat>
    var scrapeErrors: map<ModuleKey, nat>
    var refreshErrors: map<ModuleKey, nat>
    var moduleAge: map<ModuleKey, int>
    var moduleStale: map<ModuleKey, bool>

    /** The whole state as a value. */
    function View(): CacheState
      reads this
    {
      CacheState(tenants, gauges, up, moduleStates, scrapeTotal, refreshTotal, scrapeErrors, refreshErrors, moduleAge, moduleStale)
    }

    constructor ()
      ensures View() == EMPTY_CACHE
    {
      tenants := [];
      gauges, up, moduleStates := map[], map[], map[];
      scrapeTotal, refreshTotal, scrapeErrors, refreshErrors := map[], map[], map[], map[];
      moduleAge, moduleStale := map[], map[];
    }

    // ---- gauge vectors ----

    method DeleteTenantGaugeVecs(tenant: string, groups: seq<Group>)
      modifies `gauges
      ensures gauges == DeleteTenant(old(gauges), tenant, set g | g in groups)
    {
      for i := 0 to |groups|
        invariant gauges == DeleteTenant(old(gauges), tenant, set g | g in groups[..i])
      {
        gauges := map s | s in gauges && !(s.group == groups[i] && s.tenant == Some(tenant)) :: gauges[s];
      }
      assert groups[..|groups|] == groups;
    }

    method ResetGaugeVecs(groups: seq<Group>)
      modifies `gauges
      ensures gauges == ResetGroups(old(gauges), set g | g in groups)
    {
      for i := 0 to |groups|
        invariant gauges == ResetGroups(old(gauges), set g | g in groups[..i])
      {
        gauges := map s | s in gauges && s.group != groups[i] :: gauges[s];
      }
      assert groups[..|groups|] == groups;
    }

    /** Renders rows under one tenant label, one series at a time in any order. */
    method Render(group: Group, tenant: Option<string>, rows: Rows)
      modifies `gauges
      ensures gauges == old(gauges) + Tagged(group, tenant, rows)
    {
      hide Rendered, Tagged;
      var todo := rows.Keys;
      ghost var done: set<Row> := {};
      RenderedNone(gauges, group, tenant, rows);
      while todo != {}
        invariant done + todo == rows.Keys
        invariant gauges == Rendered(old(gauges), group, tenant, rows, done)
        decreases |todo|
      {
        var r :| r in todo;
        assert r in rows.Keys;
        gauges := gauges[SeriesKey(group, tenant, r) := rows[r]];
        RenderedMore(old(gauges), group, tenant, rows, done, r);
        todo := todo - {r};
        done := done + {r};
      }
      assert done == rows.Keys;
      RenderedAll(old(gauges), group, tenant, rows);
    }

    /** Renders rows that bring their own tenant label. */
    method RenderOwn(group: Group, rows: TenantRows)
      modifies `gauges
      ensures gauges == old(gauges) + TaggedByRow(group, rows)
    {
      hide RenderedOwn, TaggedByRow;
      var todo := rows.Keys;
      ghost var done: set<TenantLabel> := {};
      RenderedOwnNone(gauges, group, rows);
      while todo != {}
        invariant done + todo == rows.Keys
        invariant gauges == RenderedOwn(old(gauges), group, rows, done)
        decreases |todo|
      {
        var r :| r in todo;
        assert r in rows.Keys;
        gauges := gauges[SeriesKey(group, r.tenant, r.row) := rows[r]];
        RenderedOwnMore(old(gauges), group, rows, done, r);
        todo := todo - {r};
        done := done + {r};
      }
      assert done == rows.Keys;
      RenderedOwnAll(old(gauges), group, rows);
    }

    /** The critical section of a per-tenant module: the tenant's slice is deleted and rendered anew. */
    method ReplaceTenantSlice(group: Group, tenant: string, rows: Rows)
      modifies this
      ensures View() == ApplyWrite(old(View()), WriteSlice(group, tenant, rows))
    {
      DeleteTenantGaugeVecs(tenant, [group]);
      assert (set g | g in [group]) == {group};
      Render(group, Some(tenant), rows);
    }

    /** The critical section of a controller-wide module: the whole group is reset and rendered anew. */
    method ReplaceGlobalGroup(group: Group, rows: TenantRows)
      modifies this
      ensures View() == ApplyWrite(old(View()), WriteGlobal(group, rows))
    {
      ResetGaugeVecs([group]);
      assert (set g | g in [group]) == {group};
      RenderOwn(group, rows);
    }

    /** The critical section of the raw analytics: only admin's slice is deleted, but every row is
        rendered under the tenant it names. */
    method ReplaceRawAnalytics(rows: TenantRows)
      modifies this
      ensures View() == ApplyWrite(old(View()), WriteRaw(rows))
    {
      DeleteTenantGaugeVecs("admin", [GVSAnalytics]);
      assert (set g | g in [GVSAnalytics]) == {GVSAnalytics};
      RenderOwn(GVSAnalytics, rows);
    }

    // ---- tenants ----

    method DeleteTenantCounterVecs(tenant: string)
      modifies `scrapeTotal, `refreshTotal, `scrapeErrors, `refreshErrors
      ensures scrapeTotal == Kept(old(scrapeTotal), {tenant})
      ensures refreshTotal == Kept(old(refreshTotal), {tenant})
      ensures scrapeErrors == Kept(old(scrapeErrors), {tenant})
      ensures refreshErrors == Kept(old(refreshErrors), {tenant})
    {
      scrapeErrors := map k | k in scrapeErrors && k.tenant != tenant :: scrapeErrors[k];
      scrapeTotal := map k | k in scrapeTotal && k.tenant != tenant :: scrapeTotal[k];
      refreshErrors := map k | k in refreshErrors && k.tenant != tenant :: refreshErrors[k];
      refreshTotal := map k | k in refreshTotal && k.tenant != tenant :: refreshTotal[k];
    }

    /** Forgets the tenant's module states, key by key. */
    method DeleteModuleStates(tenant: string)
      modifies `moduleStates
      ensures moduleStates == Kept(old(moduleStates), {tenant})
    {
      var keys := moduleStates.Keys;
      while keys != {}
        invariant moduleStates == map k | k in old(moduleStates) && (k in keys || k.tenant != tenant) :: old(moduleStates)[k]
        decreases |keys|
      {
        var key :| key in keys;
        if key.tenant == tenant {
          moduleStates := moduleStates - {key};
        }
        keys := keys - {key};
      }
    }

    method DeleteModuleGauges(tenant: string)
      modifies `up, `moduleAge, `moduleStale
      ensures up == old(up) - {tenant}
      ensures moduleAge == Kept(old(moduleAge), {tenant})
      ensures moduleStale == Kept(old(moduleStale), {tenant})
    {
      up := map t | t in up && t != tenant :: up[t];
      moduleAge := map k | k in moduleAge && k.tenant != tenant :: moduleAge[k];
      moduleStale := map k | k in moduleStale && k.tenant != tenant :: moduleStale[k];
    }

    method RemoveTenantCacheLocked(tenant: string)
      modifies this
      ensures View() == Drop(old(View()), {tenant})
    {
      hide ALL_GROUPS, DeleteTenant, Kept, KeptSeries;
      DeleteTenantGaugeVecs(tenant, ALL_GROUPS);
      DeletedEverywhere(old(gauges), tenant);
      DeleteModuleGauges(tenant);
      DeleteTenantCounterVecs(tenant);
      DeleteModuleStates(tenant);
    }

    /** The set that is filled with the current tenants and emptied of the next ones. */
    method StaleTenants(next: seq<string>) returns (current: set<string>)
      ensures current == Dropped(View(), next)
    {
      current := {};
      for i := 0 to |tenants|
        invariant current == set t | t in tenants[..i]
      {
        current := current + {tenants[i]};
      }
      assert tenants[..|tenants|] == tenants;
      for i := 0 to |next|
        invariant current == set t | t in tenants && t !in next[..i]
      {
        current := current - {next[i]};
      }
      assert next[..|next|] == next;
    }

    /** Drops the tenants that are not in the next list, in whatever order, and stores the list. */
    method SetTenantsLocked(next: seq<string>)
      modifies this
      ensures View() == SetTenants(old(View()), next)
    {
      hide Drop, Dropped;
      ghost var c := View();
      var current := StaleTenants(next);
      ghost var gone: set<string> := {};
      DropNothing(c);
      while current != {}
        invariant current + gone == Dropped(c, next)
        invariant View() == Drop(c, gone)
        decreases |current|
      {
        var tenant :| tenant in current;
        RemoveTenantCacheLocked(tenant);
        DropTwice(c, gone, {tenant});
        current := current - {tenant};
        gone := gone + {tenant};
      }
      assert gone == Dropped(c, next);
      tenants := next;
    }

    // ---- module bookkeeping ----

    method EnsureModuleStateLocked(key: ModuleKey) returns (st: ModuleState)
      modifies `moduleStates
      ensures st == if key in old(moduleStates) then old(moduleStates)[key] else NewState(key.name)
      ensures moduleStates == old(moduleStates)[key := st]
    {
      if key in moduleStates {
        st := moduleStates[key];
        assert moduleStates == moduleStates[key := st];
        return;
      }
      st := NewState(key.name);
      moduleStates := moduleStates[key := st];
    }

    method IncCounters(key: ModuleKey, ok: bool)
      modifies `scrapeTotal, `refreshTotal, `scrapeErrors, `refreshErrors
      ensures scrapeTotal == Inc(old(scrapeTotal), key) && refreshTotal == Inc(old(refreshTotal), key)
      ensures scrapeErrors == if ok then old(scrapeErrors) else Inc(old(scrapeErrors), key)
      ensures refreshErrors == if ok then old(refreshErrors) else Inc(old(refreshErrors), key)
    {
      scrapeTotal := scrapeTotal[key := (if key in scrapeTotal then scrapeTotal[key] else 0) + 1];
      refreshTotal := refreshTotal[key := (if key in refreshTotal then refreshTotal[key] else 0) + 1];
      if !ok {
        scrapeErrors := scrapeErrors[key := (if key in scrapeErrors then scrapeErrors[key] else 0) + 1];
        refreshErrors := refreshErrors[key := (if key in refreshErrors then refreshErrors[key] else 0) + 1];
      }
    }

    /** The state after a run of the module has ended. */
    static method RecordOutcome(before: ModuleState, policy: Policy, ok: bool, finished: nat) returns (st: ModuleState)
      ensures st == ModuleState(finished, if ok then Some(finished) else before.lastSuccess, before.attempts + 1,
                                before.errors + (if ok then 0 else 1), !ok, policy.maxStale, policy.required)
    {
      st := before.(lastAttempt := finished);
      st := st.(attempts := st.attempts + 1);
      st := st.(maxStale := policy.maxStale);
      st := st.(required := policy.required);
      if !ok {
        st := st.(errors := st.errors + 1);
        st := st.(failing := true);
      } else {
        st := st.(lastSuccess := Some(finished));
        st := st.(failing := false);
      }
    }

    method UpdateModuleState(key: ModuleKey, ok: bool, finished: nat)
      modifies `moduleStates
      ensures moduleStates == old(moduleStates)[key := BookedState(old(View()), key, ok, finished)]
    {
      hide PolicyFor, BookedState, NewState;
      ghost var c := View();
      var st := EnsureModuleStateLocked(key);
      BookedFrom(c, key, ok, finished, st);
      st := RecordOutcome(st, PolicyFor(key.name), ok, finished);
      moduleStates := moduleStates[key := st];
      assert moduleStates == c.states[key := st];
    }

    /** The second critical section of runModule. */
    method BookModule(key: ModuleKey, ok: bool, finished: nat)
      modifies this
      ensures View() == Book(old(View()), key, ok, finished)
    {
      hide Inc, BookedState;
      UpdateModuleState(key, ok, finished);
      IncCounters(key, ok);
    }

    method SetTenantUp(tenant: string, ok: bool)
      modifies `up
      ensures View() == SetUp(old(View()), tenant, ok)
    {
      var val := true;
      if !ok {
        val := false;
      }
      up := up[tenant := val];
    }

    // ---- scrapes ----

    method ObserveModule(key: ModuleKey, now: int)
      requires key in moduleStates
      modifies `moduleAge, `moduleStale
      ensures moduleAge == old(moduleAge)[key := AgeOf(moduleStates[key], now)]
      ensures moduleStale == old(moduleStale)[key := moduleStates[key].IsStale(now)]
    {
      var st := moduleStates[key];
      var age := 0;
      var stale := true;
      if st.lastSuccess.Some? {
        age := now - st.lastSuccess.value;
        if !st.IsStale(now) {
          stale := false;
        }
      }
      moduleAge := moduleAge[key := age];
      moduleStale := moduleStale[key := stale];
    }

    method UpdateDynamicSelfMetricsLocked(now: int)
      modifies `moduleAge, `moduleStale
      ensures View() == Observe(old(View()), now)
    {
      hide Recomputed, AgeOf, ModuleState.IsStale;
      ghost var ageOf := (st: ModuleState) => AgeOf(st, now);
      ghost var isStale := (st: ModuleState) => st.IsStale(now);
      var todo := moduleStates.Keys;
      ghost var done: set<ModuleKey> := {};
      RecomputedNone(moduleAge, moduleStates, ageOf);
      RecomputedNone(moduleStale, moduleStates, isStale);
      while todo != {}
        invariant done + todo == moduleStates.Keys
        invariant moduleAge == Recomputed(old(moduleAge), moduleStates, done, ageOf)
        invariant moduleStale == Recomputed(old(moduleStale), moduleStates, done, isStale)
        decreases |todo|
      {
        var key :| key in todo;
        assert key in moduleStates.Keys;
        ObserveModule(key, now);
        RecomputedMore(old(moduleAge), moduleStates, done, key, ageOf);
        RecomputedMore(old(moduleStale), moduleStates, done, key, isStale);
        todo := todo - {key};
        done := done + {key};
      }
      assert done == moduleStates.Keys;
    }

    // ---- readiness ----

    method ExpectedTenantsLocked(env: Env) returns (expected: seq<string>)
      ensures expected == ExpectedTenants(env, tenants)
    {
      if |tenants| > 0 {
        return tenants;
      }
      var explicit, wildcard := ConfiguredTenants(env.configured);
      if wildcard {
        return [];
      }
      return explicit;
    }

    /** Adds the key of the i-th module if it is switched on and its policy requires it. */
    static method AddKey(env: Env, owner: string, tenants: seq<string>, ghost i: nat, keys: seq<ModuleKey>, on: bool, m: Module)
      returns (more: seq<ModuleKey>)
      requires Guards(env, owner, tenants, i, on, m)
      requires Selected(env, owner, tenants, i, keys)
      ensures Selected(env, owner, tenants, i + 1, more)
    {
      more := keys;
      if on && PolicyFor(m).required {
        more := more + [KeyFor(owner, m)];
      }
      hide ModulesOf, WantedBy, PolicyFor, KeyFor, Select;
      SelectNext(env, owner, tenants, ModulesOf(owner), i);
    }

    static method ControllerKeys(env: Env, expected: seq<string>) returns (keys: seq<ModuleKey>)
      ensures keys == Select(env, "", expected, CONTROLLER_MODULES)
    {
      hide Selected, Guards, Select, On, ShouldCollectAdmin, Wildcard;
      ControllerGuards(env, expected);
      keys := [];
      SelectNone(env, "", expected);
      keys := AddKey(env, "", expected, 0, keys, Wildcard(env.configured), TenantDiscovery);
      keys := AddKey(env, "", expected, 1, keys, On(env, Cluster), Cluster);
      keys := AddKey(env, "", expected, 2, keys, On(env, ClusterInventory), ClusterInventory);
      keys := AddKey(env, "", expected, 3, keys, On(env, ControllerMetrics), ControllerMetrics);
      keys := AddKey(env, "", expected, 4, keys, On(env, SEInventory), SEList);
      keys := AddKey(env, "", expected, 5, keys, On(env, SEInventory), SEInventory);
      keys := AddKey(env, "", expected, 6, keys, On(env, SEConfig), SEConfig);
      keys := AddKey(env, "", expected, 7, keys, On(env, SEMetrics), SEMetrics);
      keys := AddKey(env, "", expected, 8, keys, ShouldCollectAdmin(env, expected), AdminVSMetrics);
      SelectedAll(env, "", expected, keys);
    }

    static method TenantKeys(env: Env, t: string) returns (keys: seq<ModuleKey>)
      requires t != ""
      ensures keys == Select(env, t, [], TENANT_MODULES)
    {
      hide Selected, Guards, Select, On, NeedVS, NeedPools, NeedVsVip;
      TenantGuards(env, t);
      keys := [];
      SelectNone(env, t, []);
      keys := AddKey(env, t, [], 0, keys, NeedVS(env), VSList);
      keys := AddKey(env, t, [], 1, keys, On(env, VSInventory), VSInventory);
      keys := AddKey(env, t, [], 2, keys, On(env, VSMetrics), VSMetrics);
      keys := AddKey(env, t, [], 3, keys, NeedPools(env), PoolList);
      keys := AddKey(env, t, [], 4, keys, On(env, PoolInventory), PoolInventory);
      keys := AddKey(env, t, [], 5, keys, On(env, PoolMetrics), PoolMetrics);
      keys := AddKey(env, t, [], 6, keys, On(env, PoolMembers), PoolMembers);
      keys := AddKey(env, t, [], 7, keys, NeedVsVip(env), VsVipList);
      keys := AddKey(env, t, [], 8, keys, On(env, VsVip), VsVip);
      keys := AddKey(env, t, [], 9, keys, On(env, PoolGroup), PoolGroup);
      keys := AddKey(env, t, [], 10, keys, On(env, Gslb), Gslb);
      keys := AddKey(env, t, [], 11, keys, On(env, Module.Topology), Module.Topology);
      SelectedAll(env, t, [], keys);
    }

    method RequiredModuleKeysLocked(env: Env) returns (keys: seq<ModuleKey>)
      requires "" !in tenants
      ensures keys == RequiredModuleKeys(env, tenants)
    {
      hide Select, TENANT_MODULES, CONTROLLER_MODULES;
      var expected := ExpectedTenantsLocked(env);
      ghost var controller := Select(env, "", expected, CONTROLLER_MODULES);
      keys := ControllerKeys(env, expected);
      for i := 0 to |expected|
        invariant keys == controller + AllTenantKeys(env, expected[..i])
      {
        var more := TenantKeys(env, expected[i]);
        CleanRefresh.SelectOwn(env, expected[i], [], expected[..i + 1], TENANT_MODULES);
        assert expected[..i + 1][..i] == expected[..i];
        keys := keys + more;
      }
      assert expected[..|expected|] == expected;
    }

    method AllFresh(keys: seq<ModuleKey>, now: int) returns (all: bool)
      ensures all <==> forall k :: k in keys ==> Fresh(View(), k, now)
    {
      hide ModuleState.IsStale;
      for i := 0 to |keys|
        invariant forall j :: 0 <= j < i ==> Fresh(View(), keys[j], now)
      {
        if keys[i] !in moduleStates || moduleStates[keys[i]].IsStale(now) {
          assert keys[i] in keys;
          return false;
        }
      }
      return true;
    }

    /** The readiness check passes exactly when some module is required, every required module is
        recorded and fresh, and no recorded required module is stale. */
    method IsReady(env: Env, now: int) returns (ready: bool)
      requires "" !in tenants
      ensures ready == Ready(env, View(), now)
    {
      hide RequiredModuleKeys, ModuleState.IsStale, Fresh;
      var expected := RequiredModuleKeysLocked(env);
      if |expected| == 0 {
        return false;
      }
      var all := AllFresh(expected, now);
      if !all {
        return false;
      }
      var todo := moduleStates.Keys;
      while todo != {}
        invariant todo <= moduleStates.Keys
        invariant NoneStale(View(), moduleStates.Keys - todo, now)
        decreases |todo|
      {
        var key :| key in todo;
        if moduleStates[key].required && moduleStates[key].IsStale(now) {
          return false;
        }
        todo := todo - {key};
      }
      assert moduleStates.Keys - {} == moduleStates.Keys;
      return true;
    }

    static method StatusEntry(st: ModuleState, now: int) returns (status: ModuleStatus)
      ensures status == StatusOf(st, now)
    {
      var age := 0;
      if st.lastSuccess.Some? {
        age := now - st.lastSuccess.value;
      }
      status := ModuleStatus(age, st.maxStale, st.IsStale(now), st.required, st.attempts, st.errors, st.failing);
    }

    /** The entries of the status report, and whether none of them speaks against readiness. */
    method ListModules(now: int) returns (fine: bool, modules: map<ModuleKey, ModuleStatus>)
      ensures modules.Keys == moduleStates.Keys
      ensures forall k :: k in modules ==> modules[k] == StatusOf(moduleStates[k], now)
      ensures fine == NoneStale(View(), moduleStates.Keys, now)
    {
      hide ModuleState.IsStale, StatusOf, NoneStale, Recomputed;
      ghost var statusOf := (st: ModuleState) => StatusOf(st, now);
      fine := true;
      modules := map[];
      var todo := moduleStates.Keys;
      ghost var done: set<ModuleKey> := {};
      ghost var c := View();
      NothingStale(c, now);
      RecomputedNone(modules, moduleStates, statusOf);
      while todo != {}
        invariant done + todo == moduleStates.Keys
        invariant modules == Recomputed(map[], moduleStates, done, statusOf)
        invariant fine == NoneStale(c, done, now)
        decreases |todo|
      {
        var key :| key in todo;
        assert key in moduleStates.Keys;
        var st := moduleStates[key];
        if st.required && st.IsStale(now) {
          fine := false;
        }
        var status := StatusEntry(st, now);
        NoneStaleMore(c, done, key, now);
        RecomputedMore(map[], moduleStates, done, key, statusOf);
        modules := modules[key := status];
        todo := todo - {key};
        done := done + {key};
      }
      assert done == moduleStates.Keys;
      RecomputedAll(moduleStates, statusOf);
    }

    /** The status report agrees with the readiness check and lists every recorded module. */
    method CacheStatus(env: Env, now: int) returns (ready: bool, listed: seq<string>, modules: map<ModuleKey, ModuleStatus>)
      requires "" !in tenants
      ensures ready == Ready(env, View(), now)
      ensures listed == tenants
      ensures modules.Keys == moduleStates.Keys
      ensures forall k :: k in modules ==> Reports(modules[k], moduleStates[k], now)
    {
      hide RequiredModuleKeys, ModuleState.IsStale, Fresh, StatusOf, NoneStale, Reports;
      var expected := RequiredModuleKeysLocked(env);
      ready := |expected| > 0;
      listed := tenants;
      var all := AllFresh(expected, now);
      if !all {
        ready := false;
      }
      var fine: bool;
      fine, modules := ListModules(now);
      if !fine {
        ready := false;
      }
      forall k | k in modules ensures Reports(modules[k], moduleStates[k], now) {
        StatusReports(moduleStates[k], now);
      }
    }

    // ---- refreshTenants ----

    /** The names a discovery yields, sorted, with every explicit one; None if the controller fails. */
    static method Discover(env: Env, run: nat, explicit: seq<string>) returns (names: Option<seq<string>>)
      requires explicit == StaticTenants(env.configured)
      ensures names == match Found(env, run) case None => None case Some(found) => Some(Discovered(env.configured, found))
    {
      hide StaticTenants;
      var listed := env.controller.login(run);
      if listed.None? {
        return None;
      }
      var all := explicit + listed.value;
      if |listed.value| == 0 {
        listed := env.controller.listTenants(run);
        if listed.None? {
          return None;
        }
        all := explicit + listed.value;
      }
      var sorted := NormalizeTenantNames(all);
      return Some(sorted);
    }

    /** Settles the tenants of a refresh. Without a wildcard they are the explicit ones. With it, a
        successful discovery replaces the list and is booked; a failed one is booked and keeps the list,
        or takes up the explicit names if there is none yet. Only a replacement drops tenants. */
    method RefreshTenants(env: Env, run: nat, finished: nat) returns (settled: seq<string>, ok: bool)
      modifies this
      ensures tenants == settled
      ensures !Wildcard(env.configured) ==>
                ok && settled == StaticTenants(env.configured) && View() == SetTenants(old(View()), settled)
      ensures Wildcard(env.configured) ==> ok == Found(env, run).Some?
      ensures Wildcard(env.configured) && ok ==>
                && settled == Discovered(env.configured, Found(env, run).value)
                && View() == Book(SetTenants(old(View()), settled), ModuleKey(TenantDiscovery, ""), true, finished)
      ensures Wildcard(env.configured) && !ok ==>
                && settled == (if old(tenants) != [] then old(tenants) else StaticTenants(env.configured))
                && View() == Book(old(View()), ModuleKey(TenantDiscovery, ""), false, finished).(tenants := settled)
    {
      hide StaticTenants, Wildcard, Found, Discovered, BookedState, Inc, Drop;
      var explicit, wildcard := ConfiguredTenants(env.configured);
      if !wildcard {
        SetTenantsLocked(explicit);
        return explicit, true;
      }
      var discovered := Discover(env, run, explicit);
      if discovered.Some? {
        SetTenantsLocked(discovered.value);
      }
      BookModule(ModuleKey(TenantDiscovery, ""), discovered.Some?, finished);
      if discovered.Some? {
        return discovered.value, true;
      }
      var cached := tenants;
      if |cached| > 0 {
        return cached, false;
      }
      if |explicit| > 0 {
        Guarantees.NothingToDrop(View(), explicit);
        SetTenantsLocked(explicit);
        return explicit, false;
      }
      return [], false;
    }

    // ---- refreshTenant ----

    /** The critical section in which a module's fetch leaves its rows. */
    method Commit(w: Write)
      modifies this
      ensures View() == ApplyWrite(old(View()), w)
    {
      hide ReplaceSlice, ReplaceRaw, ReplaceGroup, SetTenants;
      match w
      case NoWrite =>
      case WriteSlice(group, tenant, rows) => ReplaceTenantSlice(group, tenant, rows);
      case WriteRaw(rows) => ReplaceRawAnalytics(rows);
      case WriteGlobal(group, rows) => ReplaceGlobalGroup(group, rows);
      case WriteTenants(next) => SetTenantsLocked(next);
    }

    /** Runs a module if its guard holds: the fetch with its critical section, then the bookkeeping. The
        tenant's verdict is the conjunction of its modules' outcomes. */
    method RunModule(env: Env, run: nat, tenant: string, m: Module, on: bool, l: Local, finished: nat) returns (after: Local)
      requires on == Attempts(env, m, l)
      modifies this
      ensures after == ModuleRun(env, run, tenant, m, l, old(View()), finished).0
      ensures View() == ModuleRun(env, run, tenant, m, l, old(View()), finished).1
    {
      hide Execute, ApplyWrite, Book, KeyFor, Attempts;
      after := l;
      if on {
        var o := Execute(env, run, tenant, m, l);
        Commit(o.write);
        BookModule(KeyFor(tenant, m), o.ok, finished);
        after := o.local.(ok := l.ok && o.ok);
      }
    }

    /** The same, as the next stage of a tenant's chain. */
    method RunStage(env: Env, run: nat, tenant: string, ghost c: CacheState, clock: Module -> nat, ghost pc: nat, m: Module,
                    on: bool, l: Local) returns (after: Local)
      requires on == Attempts(env, m, l) && TenantStage(pc) == Run(m)
      requires Reached(env, run, tenant, c, clock, pc, l, View())
      modifies this
      ensures Reached(env, run, tenant, c, clock, pc + 1, after, View())
    {
      hide Reached, ModuleRun, Attempts, TenantStage;
      NextModule(env, run, tenant, c, clock, pc, m, l, View());
      after := RunModule(env, run, tenant, m, on, l, clock(m));
    }

    /** One tenant's chain of modules. Each later module waits for the lists it needs; the topology is
        attempted in any case and fails when one of its inputs is missing. */
    method RefreshTenant(env: Env, run: nat, tenant: string, clock: Module -> nat) returns (ok: bool)
      requires tenant != ""
      modifies this
      ensures View() == TenantRefreshed(env, run, tenant, old(View()), clock)
    {
      hide Reached, TenantRefreshed, Attempts, FreshLocal, On, NeedVS, NeedPools, NeedVsVip, TenantStage;
      StagesInOrder();
      ChainGuards(env);
      ghost var c := View();
      var l := FreshLocal(env);
      NoModulesYet(env, run, tenant, c, clock);
      l := RunStage(env, run, tenant, c, clock, 0, VSList, NeedVS(env), l);
      l := RunStage(env, run, tenant, c, clock, 1, VSInventory, On(env, VSInventory) && l.vs.Some?, l);
      l := RunStage(env, run, tenant, c, clock, 2, VSMetrics, On(env, VSMetrics) && l.vs.Some?, l);
      l := RunStage(env, run, tenant, c, clock, 3, PoolList, NeedPools(env), l);
      l := RunStage(env, run, tenant, c, clock, 4, PoolInventory, On(env, PoolInventory) && l.pools.Some?, l);
      l := RunStage(env, run, tenant, c, clock, 5, PoolMetrics, On(env, PoolMetrics) && l.pools.Some?, l);
      l := RunStage(env, run, tenant, c, clock, 6, PoolMembers, On(env, PoolMembers) && l.pools.Some?, l);
      l := RunStage(env, run, tenant, c, clock, 7, VsVipList, NeedVsVip(env), l);
      l := RunStage(env, run, tenant, c, clock, 8, VsVip, On(env, VsVip) && l.vsvips.Some?, l);
      l := RunStage(env, run, tenant, c, clock, 9, PoolGroup, On(env, PoolGroup), l);
      l := RunStage(env, run, tenant, c, clock, 10, Gslb, On(env, Gslb), l);
      l := RunStage(env, run, tenant, c, clock, 11, Module.Topology, On(env, Module.Topology), l);
      ReachedEnd(env, run, tenant, c, clock, l, View());
      ok := l.ok;
      SetTenantUp(tenant, ok);
    }
  }

  lemma NothingStale(c: CacheState, now: int)
    ensures NoneStale(c, {}, now)
  {
  }

  lemma NoneStaleMore(c: CacheState, keys: set<ModuleKey>, k: ModuleKey, now: int)
    requires k in c.states
    ensures NoneStale(c, keys + {k}, now) <==> NoneStale(c, keys, now) && !(c.states[k].required && c.states[k].IsStale(now))
  {
    hide ModuleState.IsStale;
  }

  function ModulesOf(owner: string): seq<Module> {
    if owner == "" then CONTROLLER_MODULES else TENANT_MODULES
  }

  /** The i-th module is m, and it is wanted exactly when `on` says so. */
  ghost predicate Guards(env: Env, owner: string, tenants: seq<string>, i: nat, on: bool, m: Module) {
    i < |ModulesOf(owner)| && m == ModulesOf(owner)[i] && on == WantedBy(env, owner, m, tenants)
  }

  lemma ControllerGuards(env: Env, expected: seq<string>)
    ensures Guards(env, "", expected, 0, Wildcard(env.configured), TenantDiscovery)
    ensures Guards(env, "", expected, 1, On(env, Cluster), Cluster)
    ensures Guards(env, "", expected, 2, On(env, ClusterInventory), ClusterInventory)
    ensures Guards(env, "", expected, 3, On(env, ControllerMetrics), ControllerMetrics)
    ensures Guards(env, "", expected, 4, On(env, SEInventory), SEList)
    ensures Guards(env, "", expected, 5, On(env, SEInventory), SEInventory)
    ensures Guards(env, "", expected, 6, On(env, SEConfig), SEConfig)
    ensures Guards(env, "", expected, 7, On(env, SEMetrics), SEMetrics)
    ensures Guards(env, "", expected, 8, ShouldCollectAdmin(env, expected), AdminVSMetrics)
  {
    hide On, ShouldCollectAdmin, Wildcard;
  }

  lemma TenantModulesAt()
    ensures |TENANT_MODULES| == 12
    ensures TENANT_MODULES[0] == VSList && TENANT_MODULES[1] == VSInventory && TENANT_MODULES[2] == VSMetrics
    ensures TENANT_MODULES[3] == PoolList && TENANT_MODULES[4] == PoolInventory && TENANT_MODULES[5] == PoolMetrics
    ensures TENANT_MODULES[6] == PoolMembers && TENANT_MODULES[7] == VsVipList && TENANT_MODULES[8] == VsVip
    ensures TENANT_MODULES[9] == PoolGroup && TENANT_MODULES[10] == Gslb && TENANT_MODULES[11] == Module.Topology
  {
  }

  lemma TenantGuards(env: Env, t: string)
    requires t != ""
    ensures Guards(env, t, [], 0, NeedVS(env), VSList)
    ensures Guards(env, t, [], 1, On(env, VSInventory), VSInventory)
    ensures Guards(env, t, [], 2, On(env, VSMetrics), VSMetrics)
    ensures Guards(env, t, [], 3, NeedPools(env), PoolList)
    ensures Guards(env, t, [], 4, On(env, PoolInventory), PoolInventory)
    ensures Guards(env, t, [], 5, On(env, PoolMetrics), PoolMetrics)
    ensures Guards(env, t, [], 6, On(env, PoolMembers), PoolMembers)
    ensures Guards(env, t, [], 7, NeedVsVip(env), VsVipList)
    ensures Guards(env, t, [], 8, On(env, VsVip), VsVip)
    ensures Guards(env, t, [], 9, On(env, PoolGroup), PoolGroup)
    ensures Guards(env, t, [], 10, On(env, Gslb), Gslb)
    ensures Guards(env, t, [], 11, On(env, Module.Topology), Module.Topology)
  {
    hide On, NeedVS, NeedPools, NeedVsVip, TENANT_MODULES;
    TenantModulesAt();
  }

  /** The keys are those of the wanted ones among the first i modules. */
  ghost predicate Selected(env: Env, owner: string, tenants: seq<string>, i: nat, keys: seq<ModuleKey>) {
    i <= |ModulesOf(owner)| && keys == Select(env, owner, tenants, ModulesOf(owner)[..i])
  }

  lemma SelectNone(env: Env, owner: string, tenants: seq<string>)
    ensures Selected(env, owner, tenants, 0, [])
  {
  }

  lemma SelectedAll(env: Env, owner: string, tenants: seq<string>, keys: seq<ModuleKey>)
    requires Selected(env, owner, tenants, |ModulesOf(owner)|, keys)
    ensures keys == Select(env, owner, tenants, ModulesOf(owner))
  {
    hide ModulesOf, Select;
    assert ModulesOf(owner)[..|ModulesOf(owner)|] == ModulesOf(owner);
  }

  lemma SelectNext(env: Env, owner: string, tenants: seq<string>, modules: seq<Module>, i: nat)
    requires i < |modules|
    ensures Select(env, owner, tenants, modules[..i + 1])
            == Select(env, owner, tenants, modules[..i])
               + if WantedBy(env, owner, modules[i], tenants) && PolicyFor(modules[i]).required then [KeyFor(owner, modules[i])] else []
  {
    hide WantedBy, KeyFor, PolicyFor;
    assert modules[..i + 1][..i] == modules[..i];
  }

  /** The gauges once the rows in `done` are rendered. */
  ghost function Rendered(g: Gauges, group: Group, tenant: Option<string>, rows: Rows, done: set<Row>): Gauges {
    g + map s | s in SeriesOf(group, tenant, rows) && s.row in done :: rows[s.row]
  }

  lemma RenderedNone(g: Gauges, group: Group, tenant: Option<string>, rows: Rows)
    ensures Rendered(g, group, tenant, rows, {}) == g
  {
  }

  lemma RenderedMore(g: Gauges, group: Group, tenant: Option<string>, rows: Rows, done: set<Row>, r: Row)
    requires r in rows
    ensures Rendered(g, group, tenant, rows, done + {r})
            == Rendered(g, group, tenant, rows, done)[SeriesKey(group, tenant, r) := rows[r]]
  {
    hide SeriesOf;
  }

  lemma RenderedAll(g: Gauges, group: Group, tenant: Option<string>, rows: Rows)
    ensures Rendered(g, group, tenant, rows, rows.Keys) == g + Tagged(group, tenant, rows)
  {
    hide SeriesOf;
    assert (map s | s in SeriesOf(group, tenant, rows) && s.row in rows.Keys :: rows[s.row]) == Tagged(group, tenant, rows);
  }

  ghost function RenderedOwn(g: Gauges, group: Group, rows: TenantRows, done: set<TenantLabel>): Gauges {
    g + map s | s in OwnSeriesOf(group, rows) && TenantLabel(s.tenant, s.row) in done :: rows[TenantLabel(s.tenant, s.row)]
  }

  lemma RenderedOwnNone(g: Gauges, group: Group, rows: TenantRows)
    ensures RenderedOwn(g, group, rows, {}) == g
  {
  }

  lemma RenderedOwnMore(g: Gauges, group: Group, rows: TenantRows, done: set<TenantLabel>, r: TenantLabel)
    requires r in rows
    ensures RenderedOwn(g, group, rows, done + {r})
            == RenderedOwn(g, group, rows, done)[SeriesKey(group, r.tenant, r.row) := rows[r]]
  {
    hide OwnSeriesOf;
    assert r == TenantLabel(r.tenant, r.row);
  }

  lemma RenderedOwnAll(g: Gauges, group: Group, rows: TenantRows)
    ensures RenderedOwn(g, group, rows, rows.Keys) == g + TaggedByRow(group, rows)
  {
    hide OwnSeriesOf;
    assert (map s | s in OwnSeriesOf(group, rows) && TenantLabel(s.tenant, s.row) in rows.Keys :: rows[TenantLabel(s.tenant, s.row)])
           == TaggedByRow(group, rows);
  }

  lemma DeletedEverywhere(g: Gauges, tenant: string)
    ensures DeleteTenant(g, tenant, set g | g in ALL_GROUPS) == KeptSeries(g, {tenant})
  {
    forall s: SeriesKey ensures s.group in ALL_GROUPS {
      AllGroupsListed(s.group);
    }
    hide ALL_GROUPS;
  }

  lemma RecomputedNone<V>(gauge: map<ModuleKey, V>, states: map<ModuleKey, ModuleState>, value: ModuleState -> V)
    ensures Recomputed(gauge, states, {}, value) == gauge
  {
  }

  lemma RecomputedAll<V>(states: map<ModuleKey, ModuleState>, value: ModuleState -> V)
    ensures var all := Recomputed(map[], states, states.Keys, value);
            all.Keys == states.Keys && forall k :: k in states ==> all[k] == value(states[k])
  {
  }

  lemma RecomputedMore<V>(gauge: map<ModuleKey, V>, states: map<ModuleKey, ModuleState>, done: set<ModuleKey>, k: ModuleKey,
                          value: ModuleState -> V)
    requires k in states
    ensures Recomputed(gauge, states, done + {k}, value) == Recomputed(gauge, states, done, value)[k := value(states[k])]
  {
  }

  lemma BookedFrom(c: CacheState, key: ModuleKey, ok: bool, finished: nat, before: ModuleState)
    requires before == if key in c.states then c.states[key] else NewState(key.name)
    ensures BookedState(c, key, ok, finished)
            == ModuleState(finished, if ok then Some(finished) else before.lastSuccess, before.attempts + 1,
                           before.errors + (if ok then 0 else 1), !ok, PolicyFor(key.name).maxStale, PolicyFor(key.name).required)
  {
    hide PolicyFor;
  }

  lemma DropNothing(c: CacheState)
    ensures Drop(c, {}) == c
  {
  }

  lemma KeptTwice<V>(m: map<ModuleKey, V>, a: set<string>, b: set<string>)
    ensures Kept(Kept(m, a), b) == Kept(m, a + b)
  {
  }

  lemma KeptSeriesTwice(g: Gauges, a: set<string>, b: set<string>)
    ensures KeptSeries(KeptSeries(g, a), b) == KeptSeries(g, a + b)
  {
  }

  lemma DropTwice(c: CacheState, a: set<string>, b: set<string>)
    ensures Drop(Drop(c, a), b) == Drop(c, a + b)
  {
    hide Kept, KeptSeries;
    KeptSeriesTwice(c.gauges, a, b);
    KeptTwice(c.states, a, b);
    KeptTwice(c.scrapeTotal, a, b);
    KeptTwice(c.refreshTotal, a, b);
    KeptTwice(c.scrapeErrors, a, b);
    KeptTwice(c.refreshErrors, a, b);
    KeptTwice(c.age, a, b);
    KeptTwice(c.stale, a, b);
    assert c.up - a - b == c.up - (a + b);
  }
}
