/** Which modules the readiness check waits for, and when it passes (collector/cache.go). */
module Readiness {
  import opened Prelude
  import opened Series
  import opened Tenants
  import opened Cache
  import opened Refresh

  function ExpectedTenants(env: Env, cached: seq<string>): seq<string> {
    if cached != [] then cached
    else if Wildcard(env.configured) then []
    else StaticTenants(env.configured)
  }

  /** The conditions under which a module of the main agent is required. */
  predicate WantedOfController(env: Env, m: Module, tenants: seq<string>) {
    match m
    case TenantDiscovery => Wildcard(env.configured)
    case SEList => On(env, SEInventory)
    case AdminVSMetrics => ShouldCollectAdmin(env, tenants)
    case Cluster => On(env, m)
    case ClusterInventory => On(env, m)
    case ControllerMetrics => On(env, m)
    case SEInventory => On(env, m)
    case SEConfig => On(env, m)
    case SEMetrics => On(env, m)
    case _ => false
  }

  predicate WantedOfTenant(env: Env, m: Module) {
    match m
    case VSList => NeedVS(env)
    case PoolList => NeedPools(env)
    case VsVipList => NeedVsVip(env)
    case VSInventory => On(env, m)
    case VSMetrics => On(env, m)
    case PoolInventory => On(env, m)
    case PoolMetrics => On(env, m)
    case PoolMembers => On(env, m)
    case VsVip => On(env, m)
    case PoolGroup => On(env, m)
    case Gslb => On(env, m)
    case Topology => On(env, m)
    case _ => false
  }

  predicate WantedBy(env: Env, owner: string, m: Module, tenants: seq<string>) {
    if owner == "" then WantedOfController(env, m, tenants) else WantedOfTenant(env, m)
  }

  /** In the order in which they are required. */
  const CONTROLLER_MODULES: seq<Module> :=
    [TenantDiscovery, Cluster, ClusterInventory, ControllerMetrics, SEList, SEInventory, SEConfig, SEMetrics, AdminVSMetrics]

  const TENANT_MODULES: seq<Module> :=
    [VSList, VSInventory, VSMetrics, PoolList, PoolInventory, PoolMetrics, PoolMembers, VsVipList, VsVip, PoolGroup, Gslb,
     Module.Topology]

  /** The keys of those modules that are wanted; every module's policy says required. */
  function Select(env: Env, owner: string, tenants: seq<string>, modules: seq<Module>): seq<ModuleKey> {
    if modules == [] then []
    else
      var n := |modules| - 1;
      Select(env, owner, tenants, modules[..n])
      + if WantedBy(env, owner, modules[n], tenants) && PolicyFor(modules[n]).required then [KeyFor(owner, modules[n])] else []
  }

  function AllTenantKeys(env: Env, tenants: seq<string>): seq<ModuleKey> {
    if tenants == [] then []
    else
      var n := |tenants| - 1;
      AllTenantKeys(env, tenants[..n]) + Select(env, tenants[n], tenants, TENANT_MODULES)
  }

  function RequiredModuleKeys(env: Env, cached: seq<string>): seq<ModuleKey> {
    var tenants := ExpectedTenants(env, cached);
    Select(env, "", tenants, CONTROLLER_MODULES) + AllTenantKeys(env, tenants)
  }

  predicate Fresh(c: CacheState, k: ModuleKey, now: int) {
    k in c.states && !c.states[k].IsStale(now)
  }

  /** None of these modules is required and stale. */
  predicate NoneStale(c: CacheState, keys: set<ModuleKey>, now: int) {
    forall k :: k in keys && k in c.states && c.states[k].required ==> !c.states[k].IsStale(now)
  }

  predicate Ready(env: Env, c: CacheState, now: int) {
    var expected := RequiredModuleKeys(env, c.tenants);
    && expected != []
    && (forall k :: k in expected ==> Fresh(c, k, now))
    && NoneStale(c, c.states.Keys, now)
  }

  // ---- the required keys, each once ----

  function Times<T(==)>(s: seq<T>, x: T): nat {
    multiset(s)[x]
  }

  lemma TimesAppend<T>(a: seq<T>, b: seq<T>, x: T)
    ensures Times(a + b, x) == Times(a, x) + Times(b, x)
  {
  }

  lemma TimesOne<T>(y: T, x: T)
    ensures Times([y], x) == if x == y then 1 else 0
    ensures Times([], x) == 0
  {
  }

  lemma {:induction false} SelectTimes(env: Env, owner: string, tenants: seq<string>, modules: seq<Module>, k: ModuleKey)
    ensures Times(Select(env, owner, tenants, modules), k)
            == if WantedBy(env, owner, k.name, tenants) && k == KeyFor(owner, k.name) then Times(modules, k.name) else 0
  {
    hide WantedBy, Times, KeyFor;
    if modules == [] {
      TimesOne(k, k);
      TimesOne(k.name, k.name);
    } else {
      var n := |modules| - 1;
      var m := modules[n];
      assert modules == modules[..n] + [m];
      SelectTimes(env, owner, tenants, modules[..n], k);
      TimesAppend(modules[..n], [m], k.name);
      TimesOne(m, k.name);
      AlwaysRequired(m);
      KeyNamesModule(owner, m);
      hide PolicyFor;
      var last := if WantedBy(env, owner, m, tenants) then [KeyFor(owner, m)] else [];
      TimesOne(KeyFor(owner, m), k);
      TimesAppend(Select(env, owner, tenants, modules[..n]), last, k);
    }
  }

  lemma AlwaysRequired(m: Module)
    ensures PolicyFor(m).required
  {
  }

  lemma KeyNamesModule(owner: string, m: Module)
    ensures KeyFor(owner, m).name == m
  {
  }

  lemma ControllerModulesAre()
    ensures multiset(CONTROLLER_MODULES)
            == multiset{TenantDiscovery, Cluster, ClusterInventory, ControllerMetrics, SEList, SEInventory, SEConfig, SEMetrics,
                        AdminVSMetrics}
  {
  }

  lemma ControllerModulesOnce(m: Module)
    ensures Times(CONTROLLER_MODULES, m) <= 1
  {
    hide CONTROLLER_MODULES;
    ControllerModulesAre();
  }

  lemma TenantModulesAre()
    ensures multiset(TENANT_MODULES)
            == multiset{VSList, VSInventory, VSMetrics, PoolList, PoolInventory, PoolMetrics, PoolMembers, VsVipList, VsVip,
                        PoolGroup, Gslb, Module.Topology}
  {
  }

  lemma TenantModulesOnce(m: Module)
    ensures Times(TENANT_MODULES, m) <= 1
  {
    hide TENANT_MODULES;
    TenantModulesAre();
  }

  predicate OfController(m: Module) {
    m in {TenantDiscovery, Cluster, ClusterInventory, ControllerMetrics, SEList, SEInventory, SEConfig, SEMetrics, AdminVSMetrics}
  }

  predicate OfTenant(m: Module) {
    m in {VSList, VSInventory, VSMetrics, PoolList, PoolInventory, PoolMetrics, PoolMembers, VsVipList, VsVip, PoolGroup, Gslb,
          Module.Topology}
  }

  lemma ControllerListed(m: Module)
    ensures m in CONTROLLER_MODULES <==> OfController(m)
  {
  }

  lemma TenantListed(m: Module)
    ensures m in TENANT_MODULES <==> OfTenant(m)
  {
    hide TENANT_MODULES;
    TenantModulesAre();
    assert m in TENANT_MODULES <==> m in multiset(TENANT_MODULES);
  }

  /** A module that is wanted of the controller, or of a tenant, is in the list. */
  lemma WantedIsListed(env: Env, m: Module, tenants: seq<string>)
    ensures WantedOfController(env, m, tenants) ==> m in CONTROLLER_MODULES && m !in TENANT_MODULES
    ensures WantedOfTenant(env, m) ==> m in TENANT_MODULES && m !in CONTROLLER_MODULES
  {
    hide CONTROLLER_MODULES, TENANT_MODULES;
    ControllerListed(m);
    TenantListed(m);
    hide On, NeedVS, NeedPools, NeedVsVip, ShouldCollectAdmin, Tenants.Wildcard;
  }

  lemma InTimes<T>(s: seq<T>, x: T)
    ensures x in s <==> Times(s, x) > 0
  {
  }

  lemma SelectedOnce(env: Env, owner: string, tenants: seq<string>, k: ModuleKey)
    ensures var modules := if owner == "" then CONTROLLER_MODULES else TENANT_MODULES;
            Times(Select(env, owner, tenants, modules), k)
            == if WantedBy(env, owner, k.name, tenants) && k == KeyFor(owner, k.name) then 1 else 0
  {
    WantedIsListed(env, k.name, tenants);
    ControllerModulesOnce(k.name);
    TenantModulesOnce(k.name);
    InTimes(CONTROLLER_MODULES, k.name);
    InTimes(TENANT_MODULES, k.name);
    hide WantedOfController, WantedOfTenant, KeyFor, Times, CONTROLLER_MODULES, TENANT_MODULES, Select;
    SelectTimes(env, owner, tenants, if owner == "" then CONTROLLER_MODULES else TENANT_MODULES, k);
  }

  /** The module is wanted of the controller, or of one of the tenants. */
  predicate Wanted(env: Env, k: ModuleKey, tenants: seq<string>) {
    || (WantedOfController(env, k.name, tenants) && k == KeyFor("", k.name))
    || (WantedOfTenant(env, k.name) && k.tenant in tenants)
  }

  lemma TenantKey(env: Env, m: Module, t: string)
    requires WantedOfTenant(env, m)
    ensures KeyFor(t, m) == ModuleKey(m, t)
  {
    hide On, NeedVS, NeedPools, NeedVsVip;
  }

  lemma {:induction false} AllTenantKeysTimes(env: Env, tenants: seq<string>, k: ModuleKey)
    requires NoDuplicates(tenants) && "" !in tenants
    ensures Times(AllTenantKeys(env, tenants), k) == if WantedOfTenant(env, k.name) && k.tenant in tenants then 1 else 0
  {
    hide WantedOfTenant, Times, KeyFor, Select, TENANT_MODULES;
    if tenants == [] {
      TimesOne(k, k);
    } else {
      var n := |tenants| - 1;
      assert tenants == tenants[..n] + [tenants[n]];
      AllTenantKeysTimes(env, tenants[..n], k);
      SelectedOnce(env, tenants[n], tenants, k);
      TimesAppend(AllTenantKeys(env, tenants[..n]), Select(env, tenants[n], tenants, TENANT_MODULES), k);
      if WantedOfTenant(env, k.name) {
        TenantKey(env, k.name, tenants[n]);
      }
    }
  }

  /** Each wanted module of the controller and of each expected tenant is required exactly once, and
      nothing else is. */
  lemma RequiredTimes(env: Env, cached: seq<string>, k: ModuleKey)
    requires StrictlySorted(cached) && "" !in cached
    ensures Times(RequiredModuleKeys(env, cached), k) == if Wanted(env, k, ExpectedTenants(env, cached)) then 1 else 0
  {
    var tenants := ExpectedTenants(env, cached);
    assert StrictlySorted(tenants) && "" !in tenants;
    SortedNoDuplicates(tenants);
    SelectedOnce(env, "", tenants, k);
    AllTenantKeysTimes(env, tenants, k);
    WantedIsListed(env, k.name, tenants);
    hide ExpectedTenants, WantedOfController, WantedOfTenant, KeyFor, Select, AllTenantKeys, Times, CONTROLLER_MODULES, TENANT_MODULES;
    TimesAppend(Select(env, "", tenants, CONTROLLER_MODULES), AllTenantKeys(env, tenants), k);
  }

  /** The required keys have no duplicates: they are exactly the wanted ones. */
  lemma RequiredOnce(env: Env, cached: seq<string>)
    requires StrictlySorted(cached) && "" !in cached
    ensures NoDuplicates(RequiredModuleKeys(env, cached))
    ensures forall k :: k in RequiredModuleKeys(env, cached) <==> Wanted(env, k, ExpectedTenants(env, cached))
  {
    var keys := RequiredModuleKeys(env, cached);
    forall k ensures Times(keys, k) == if Wanted(env, k, ExpectedTenants(env, cached)) then 1 else 0 {
      RequiredTimes(env, cached, k);
    }
    hide RequiredModuleKeys, Wanted, ExpectedTenants, Times;
    forall i, j | 0 <= i < j < |keys| ensures keys[i] != keys[j] {
      TwiceIsTwice(keys, i, j);
    }
    forall k ensures k in keys <==> Wanted(env, k, ExpectedTenants(env, cached)) {
      InTimes(keys, k);
    }
  }

  lemma TwiceIsTwice<T>(s: seq<T>, i: nat, j: nat)
    requires i < j < |s|
    ensures s[i] == s[j] ==> Times(s, s[i]) >= 2
  {
    assert s == s[..j] + s[j..];
    assert s[i] in s[..j] && s[j] in s[j..];
  }
}
