/** What a refresh without errors leaves behind: every required module fresh, and readiness but for one
    leftover. */
module CleanRefresh {
  import opened Prelude
  import opened Series
  import opened Tenants
  import opened Cache
  import opened Refresh
  import opened Snapshots
  import opened RefreshInvariants
  import opened ReachableStates
  import opened Guarantees
  import opened Readiness
  import opened Coverage

  ghost predicate StatesConceivable(env: Env, c: CacheState) {
    forall k :: k in c.states ==> Conceivable(env, k)
  }

  ghost predicate PhaseCovered(env: Env, s: Sys) {
    match s.phase
    case Idle => true
    case Main(a) => Covered(env, s.cache, a, s.started)
    case Fan(main, workers) =>
      && main.owner == "" && AgentDone(main)
      && Covered(env, s.cache, main, s.started)
      && forall t :: t in workers && workers[t].Active? ==> Covered(env, s.cache, workers[t].agent, s.started)
  }

  ghost predicate CoverInv(env: Env, s: Sys) {
    && s.started <= s.now
    && StatesConceivable(env, s.cache)
    && PhaseCovered(env, s)
  }

  lemma WorkerStepKeepsCovered(env: Env, run: nat, c: CacheState, a: Agent, now: nat, started: nat)
    requires a.owner != "" && FromThisRun(env, run, a) && Covered(env, c, a, started) && started <= now
    ensures Covered(env, ApplyEffect(c, AgentEffect(env, run, a, c.tenants)), AgentNext(env, run, a, c.tenants, now), started)
    ensures ApplyEffect(c, AgentEffect(env, run, a, c.tenants)).tenants == c.tenants
  {
    StepKeepsListed(env, run, a, c.tenants, now);
    StepKeepsMidConceivable(env, run, a, c.tenants, now, started);
    StepKeepsLogged(env, run, a, c.tenants, now);
    EffectShape(env, run, a, c.tenants);
    TenantsAfter(c, AgentEffect(env, run, a, c.tenants));
    StepKeepsLogSucceeded(env, run, c, a, now, started);
    hide Listed, AgentEffect, AgentNext, ApplyEffect, Select, StagesUpTo, Conceivable, FromThisRun, LogSucceeded, Logged, MidConceivable;
  }

  /** Another agent's record is not disturbed. */
  lemma StepKeepsOthersCovered(env: Env, run: nat, c: CacheState, a: Agent, b: Agent, started: nat)
    requires a.owner != "" && FromThisRun(env, run, a) && MidConceivable(env, a, started)
    requires Covered(env, c, b, started)
    ensures Covered(env, ApplyEffect(c, AgentEffect(env, run, a, c.tenants)), b, started)
  {
    var e := AgentEffect(env, run, a, c.tenants);
    EffectShape(env, run, a, c.tenants);
    TenantsAfter(c, e);
    hide Listed, AgentEffect, ApplyEffect, Select, StagesUpTo, Conceivable, FromThisRun, Logged;
    if b.local.ok {
      forall k | k in b.log ensures SucceededSince(ApplyEffect(c, e), k, started) {
        SuccessStays(c, e, k, started);
      }
    }
  }

  lemma StepKeepsConceivable(env: Env, run: nat, c: CacheState, a: Agent, started: nat)
    requires StatesConceivable(env, c) && MidConceivable(env, a, started)
    requires a.owner != "" ==> FromThisRun(env, run, a)
    ensures StatesConceivable(env, ApplyEffect(c, AgentEffect(env, run, a, c.tenants)))
  {
    var e := AgentEffect(env, run, a, c.tenants);
    EffectShape(env, run, a, c.tenants);
    forall k | k in ApplyEffect(c, e).states ensures Conceivable(env, k) {
      StatesAfter(c, e, k);
      hide AgentEffect, ApplyEffect, Conceivable, FromThisRun, PolicyFor, KeyFor;
    }
  }

  lemma MainStepCovers(env: Env, s: Sys, e: Event)
    requires SysInv(env, s) && CoverInv(env, s) && Enabled(env, s, e) && e.action.MainStep?
    ensures CoverInv(env, Next(env, s, e))
  {
    hide StoreInv, AgentInv, AgentEffect, AgentNext, ApplyEffect, LedgerEffect, AgentDone, StatesConceivable;
    var a := s.phase.main;
    StoreAttempted(env, s.run, s.cache, s.ledger, s.now);
    MainStepKeepsCovered(env, s.run, s.cache, a, e.at, s.started);
    StepKeepsConceivable(env, s.run, s.cache, a, s.started);
    hide Covered;
  }

  lemma WorkerStepCovers(env: Env, s: Sys, e: Event)
    requires SysInv(env, s) && CoverInv(env, s) && Enabled(env, s, e) && e.action.WorkerStep?
    ensures CoverInv(env, Next(env, s, e))
  {
    hide StoreInv, AgentInv, AgentEffect, AgentNext, ApplyEffect, LedgerEffect, AgentDone, StatesConceivable, Holders, Covered;
    var t := e.action.tenant;
    var a := s.phase.workers[t].agent;
    assert WorkerInv(env, s.run, s.cache, t, s.phase.workers[t], s.now);
    AgentFromThisRun(env, s.run, s.cache, a, s.now);
    StoreAttempted(env, s.run, s.cache, s.ledger, s.now);
    CoveredMid(env, s.cache, a, s.started);
    WorkerStepKeepsCovered(env, s.run, s.cache, a, e.at, s.started);
    StepKeepsConceivable(env, s.run, s.cache, a, s.started);
    StepKeepsOthersCovered(env, s.run, s.cache, a, s.phase.finished, s.started);
    var n := Next(env, s, e);
    forall u | u in n.phase.workers && n.phase.workers[u].Active?
      ensures Covered(env, n.cache, n.phase.workers[u].agent, s.started)
    {
      if u != t {
        StepKeepsOthersCovered(env, s.run, s.cache, a, s.phase.workers[u].agent, s.started);
      }
    }
  }

  lemma CoveredMid(env: Env, c: CacheState, a: Agent, started: nat)
    requires Covered(env, c, a, started)
    ensures MidConceivable(env, a, started)
  {
    hide Logged, Listed, MidConceivable, LogSucceeded;
  }

  lemma NewAgentCovered(env: Env, c: CacheState, owner: string, started: nat)
    ensures Covered(env, c, NewAgent(env, owner), started)
  {
    assert StagesUpTo(owner, 0) == [];
    hide NeedVS, NeedPools, NeedVsVip, On, Conceivable;
  }

  lemma ObserveKeepsCovered(env: Env, c: CacheState, a: Agent, started: nat, now: int)
    requires Covered(env, c, a, started)
    ensures Covered(env, Observe(c, now), a, started)
  {
    ObserveShape(c, now);
    hide Logged, Listed, MidConceivable, Observe;
    assert Logged(env, Observe(c, now).tenants, a);
  }

  lemma OtherStepsCover(env: Env, s: Sys, e: Event)
    requires SysInv(env, s) && CoverInv(env, s) && Enabled(env, s, e) && !e.action.MainStep? && !e.action.WorkerStep?
    ensures CoverInv(env, Next(env, s, e))
  {
    hide SysInv, AgentDone, Covered, Holders, Clean, NewAgent, Observe;
    if e.action.Start? {
      NewAgentCovered(env, s.cache, "", e.at);
    } else if e.action.Spawn? {
      assert PhaseInv(env, s) by { hide StoreInv, PhaseInv; PhaseOf(env, s); }
      assert s.phase.main.owner == "" by { hide AgentInv, TenantsKnown; }
    } else if e.action.Admit? {
      NewAgentCovered(env, s.cache, e.action.tenant, s.started);
    } else if e.action.Scrape? {
      ObserveShape(s.cache, e.at);
      match s.phase {
        case Idle =>
        case Main(a) => ObserveKeepsCovered(env, s.cache, a, s.started, e.at);
        case Fan(main, workers) =>
          ObserveKeepsCovered(env, s.cache, main, s.started, e.at);
          forall t | t in workers && workers[t].Active?
            ensures Covered(env, Observe(s.cache, e.at), workers[t].agent, s.started)
          {
            ObserveKeepsCovered(env, s.cache, workers[t].agent, s.started, e.at);
          }
      }
    }
  }

  lemma PhaseOf(env: Env, s: Sys)
    requires SysInv(env, s)
    ensures PhaseInv(env, s)
  {
    hide StoreInv, PhaseInv;
  }

  lemma {:induction false} ReachesCovered(env: Env, events: seq<Event>, s: Sys)
    requires Reaches(env, events, s)
    ensures SysInv(env, s) && CoverInv(env, s)
  {
    hide SysInv, CoverInv, Next, Enabled;
    ReachesInv(env, events, s);
    if events == [] {
      assert CoverInv(env, Initial()) by { InitialCovered(env); }
    } else {
      var n := |events| - 1;
      var before :| Reaches(env, events[..n], before) && Enabled(env, before, events[n]) && s == Next(env, before, events[n]);
      ReachesCovered(env, events[..n], before);
      match events[n].action {
        case MainStep => MainStepCovers(env, before, events[n]);
        case WorkerStep(_) => WorkerStepCovers(env, before, events[n]);
        case _ => OtherStepsCover(env, before, events[n]);
      }
    }
  }

  lemma InitialCovered(env: Env)
    ensures CoverInv(env, Initial())
  {
  }

  // ---- the end of a refresh without errors ----

  /** Every agent has finished and nothing has failed: Finish may come next. */
  ghost predicate CleanEnd(s: Sys) {
    && s.phase.Fan?
    && (forall t :: t in s.phase.workers ==> WorkerFinished(s.phase.workers[t]))
    && Clean(s.phase.finished, s.phase.workers)
  }

  /** The log of the tenants' goroutines, tenant by tenant. */
  ghost function WorkerLogs(workers: map<string, Worker>, tenants: seq<string>): seq<ModuleKey> {
    if tenants == [] then []
    else
      var n := |tenants| - 1;
      var t := tenants[n];
      WorkerLogs(workers, tenants[..n]) + if t in workers && workers[t].Active? then workers[t].agent.log else []
  }

  /** Every module run the refresh has booked. */
  ghost function BookedModules(s: Sys): seq<ModuleKey>
    requires s.phase.Fan?
  {
    s.phase.finished.log + WorkerLogs(s.phase.workers, s.cache.tenants)
  }

  /** The order in which the main agent runs its modules. */
  const MAIN_ORDER: seq<Module> :=
    [TenantDiscovery, Cluster, ClusterInventory, ControllerMetrics, SEConfig, SEList, SEInventory, SEMetrics, AdminVSMetrics]

  lemma MainStageIs(pc: nat)
    ensures StageAt("", pc) == MainStage(pc)
  {
  }

  lemma {:induction false} MainStages(pc: nat)
    requires pc >= 10
    ensures StagesUpTo("", pc) == MAIN_ORDER
  {
    hide StageAt;
    if pc > 10 {
      MainStages(pc - 1);
      MainStageIs(pc - 1);
    } else {
      assert StagesUpTo("", 0) == [];
      assert StagesUpTo("", 1) == [TenantDiscovery] by { MainStageIs(0); }
      assert StagesUpTo("", 2) == [TenantDiscovery] by { MainStageIs(1); }
      assert StagesUpTo("", 3) == MAIN_ORDER[..2] by { MainStageIs(2); }
      assert StagesUpTo("", 4) == MAIN_ORDER[..3] by { MainStageIs(3); }
      assert StagesUpTo("", 5) == MAIN_ORDER[..4] by { MainStageIs(4); }
      assert StagesUpTo("", 6) == MAIN_ORDER[..5] by { MainStageIs(5); }
      assert StagesUpTo("", 7) == MAIN_ORDER[..6] by { MainStageIs(6); }
      assert StagesUpTo("", 8) == MAIN_ORDER[..7] by { MainStageIs(7); }
      assert StagesUpTo("", 9) == MAIN_ORDER[..8] by { MainStageIs(8); }
      MainStageIs(9);
    }
  }

  lemma TenantStageIs(t: string, pc: nat)
    requires t != ""
    ensures StageAt(t, pc)
            == if pc < 12 then Run(TENANT_MODULES[pc]) else if pc == 12 then PublishUp else Done
  {
  }

  lemma {:induction false} TenantStages(t: string, pc: nat)
    requires t != ""
    ensures StagesUpTo(t, pc) == TENANT_MODULES[..if pc < 12 then pc else 12]
  {
    hide StageAt;
    if pc > 0 {
      TenantStages(t, pc - 1);
      TenantStageIs(t, pc - 1);
      assert |TENANT_MODULES| == 12;
      hide TENANT_MODULES;
      if pc - 1 < 12 {
        assert TENANT_MODULES[..pc] == TENANT_MODULES[..pc - 1] + [TENANT_MODULES[pc - 1]];
      }
    }
  }

  lemma MainOrderOnce(m: Module)
    ensures Times(MAIN_ORDER, m) == Times(CONTROLLER_MODULES, m)
  {
    assert multiset(MAIN_ORDER) == multiset(CONTROLLER_MODULES);
  }

  lemma {:induction false} SelectOwn(env: Env, owner: string, t1: seq<string>, t2: seq<string>, modules: seq<Module>)
    requires owner != ""
    ensures Select(env, owner, t1, modules) == Select(env, owner, t2, modules)
  {
    hide WantedOfController, WantedOfTenant, KeyFor, PolicyFor;
    if modules != [] {
      SelectOwn(env, owner, t1, t2, modules[..|modules| - 1]);
    }
  }

  lemma DoneAt(a: Agent)
    requires AgentDone(a)
    ensures a.pc >= if a.owner == "" then 10 else 13
  {
  }

  /** A tenant's goroutine that ended without errors has booked the tenant's required modules, in order. */
  lemma CleanWorkerLog(env: Env, c: CacheState, a: Agent, started: nat, tenants: seq<string>)
    requires Covered(env, c, a, started) && a.local.ok && AgentDone(a) && a.owner != ""
    ensures a.log == Select(env, a.owner, tenants, TENANT_MODULES)
  {
    hide Select, StagesUpTo, Listed, MidConceivable, LogSucceeded, AgentDone;
    DoneAt(a);
    TenantStages(a.owner, a.pc);
    assert TENANT_MODULES[..12] == TENANT_MODULES;
    SelectOwn(env, a.owner, c.tenants, tenants, TENANT_MODULES);
  }

  lemma CleanMainLog(env: Env, c: CacheState, a: Agent, started: nat)
    requires Covered(env, c, a, started) && a.local.ok && AgentDone(a) && a.owner == ""
    ensures a.log == Select(env, "", c.tenants, MAIN_ORDER)
  {
    hide Select, StagesUpTo, Listed, MidConceivable, LogSucceeded, AgentDone, MAIN_ORDER;
    DoneAt(a);
    MainStages(a.pc);
  }

  lemma {:induction false} CleanWorkerLogs(env: Env, s: Sys, tenants: seq<string>)
    requires SysInv(env, s) && CoverInv(env, s) && CleanEnd(s)
    requires forall t :: t in tenants ==> t in s.cache.tenants
    ensures WorkerLogs(s.phase.workers, tenants) == AllTenantKeys(env, tenants)
  {
    hide SysInv, CoverInv, Clean, WorkerFinished, Select, TENANT_MODULES;
    if tenants != [] {
      var n := |tenants| - 1;
      CleanWorkerLogs(env, s, tenants[..n]);
      CleanWorkerIs(env, s, tenants[n]);
      CleanWorkerLog(env, s.cache, s.phase.workers[tenants[n]].agent, s.started, tenants);
    }
  }

  lemma CleanWorkerIs(env: Env, s: Sys, t: string)
    requires SysInv(env, s) && CoverInv(env, s) && CleanEnd(s) && t in s.cache.tenants
    ensures t in s.phase.workers && s.phase.workers[t].Active?
    ensures var a := s.phase.workers[t].agent;
            a.owner == t && t != "" && a.local.ok && AgentDone(a) && Covered(env, s.cache, a, s.started)
  {
    hide AgentInv, Covered, AgentDone, Holders, StoreInv;
    StoreAttempted(env, s.run, s.cache, s.ledger, s.now);
    assert t in s.phase.workers.Keys;
    assert WorkerInv(env, s.run, s.cache, t, s.phase.workers[t], s.now);
  }

  lemma SettledTenantsAreExpected(env: Env, s: Sys)
    requires SysInv(env, s) && s.phase.Fan?
    ensures ExpectedTenants(env, s.cache.tenants) == s.cache.tenants
  {
    hide StoreInv, AgentInv, WorkerInv, Holders;
    assert ExplicitListed(env, s.cache);
    if !Wildcard(env.configured) {
      assert StaticTenants(env.configured)[0] in s.cache.tenants;
    }
  }

  /** A refresh that ends without errors has attempted exactly the modules that readiness then requires,
      each once, and every one of them has succeeded since the refresh started. */
  lemma CleanRefreshCoversRequired(env: Env, s: Sys)
    requires Reachable(env, s) && CleanEnd(s)
    ensures multiset(BookedModules(s)) == multiset(RequiredModuleKeys(env, s.cache.tenants))
    ensures NoDuplicates(BookedModules(s)) && NoDuplicates(RequiredModuleKeys(env, s.cache.tenants))
    ensures forall k :: k in RequiredModuleKeys(env, s.cache.tenants) ==> SucceededSince(s.cache, k, s.started)
  {
    hide Reachable, SysInv, CoverInv, Clean, WorkerFinished, RequiredModuleKeys;
    ReachableCovered(env, s);
    CleanMultiset(env, s);
    InvIsStore(env, s);
    StoreAttempted(env, s.run, s.cache, s.ledger, s.now) by { hide StoreInv; }
    hide StoreInv;
    RequiredOnce(env, s.cache.tenants);
    hide BookedModules, Wanted;
    SameMultisetNoDuplicates(RequiredModuleKeys(env, s.cache.tenants), BookedModules(s));
    forall k | k in RequiredModuleKeys(env, s.cache.tenants) ensures SucceededSince(s.cache, k, s.started) {
      assert k in multiset(BookedModules(s));
      assert k in BookedModules(s);
      BookedSucceeded(env, s, k);
    }
  }

  lemma ReachableCovered(env: Env, s: Sys)
    requires Reachable(env, s)
    ensures SysInv(env, s) && CoverInv(env, s)
  {
    hide Reaches, SysInv, CoverInv;
    var events :| Reaches(env, events, s);
    ReachesCovered(env, events, s);
  }

  lemma InvIsStore(env: Env, s: Sys)
    requires SysInv(env, s)
    ensures StoreInv(env, s.run, s.cache, s.ledger, s.now)
  {
    hide StoreInv, PhaseInv;
  }

  lemma SameMultisetNoDuplicates<T>(a: seq<T>, b: seq<T>)
    requires multiset(a) == multiset(b) && NoDuplicates(a)
    ensures NoDuplicates(b)
  {
    forall i, j | 0 <= i < j < |b| ensures b[i] != b[j] {
      if b[i] == b[j] {
        TwiceIsTwice(b, i, j);
        OnceIsOnce(a, b[i]);
        assert false;
      }
    }
  }

  lemma {:induction false} OnceIsOnce<T>(a: seq<T>, x: T)
    requires NoDuplicates(a)
    ensures Times(a, x) <= 1
  {
    if a != [] {
      var n := |a| - 1;
      assert a == a[..n] + [a[n]];
      OnceIsOnce(a[..n], x);
      InTimes(a[..n], x);
    }
  }

  lemma CleanMultiset(env: Env, s: Sys)
    requires SysInv(env, s) && CoverInv(env, s) && CleanEnd(s)
    ensures multiset(BookedModules(s)) == multiset(RequiredModuleKeys(env, s.cache.tenants))
  {
    var tenants := s.cache.tenants;
    SettledTenantsAreExpected(env, s);
    CleanWorkerLogs(env, s, tenants);
    assert s.phase.finished.owner == "" && AgentDone(s.phase.finished) && Covered(env, s.cache, s.phase.finished, s.started);
    CleanMainLog(env, s.cache, s.phase.finished, s.started);
    hide SysInv, CoverInv, CleanEnd, Select, AllTenantKeys, WorkerLogs, ExpectedTenants, MAIN_ORDER, CONTROLLER_MODULES, Covered, AgentDone;
    forall k ensures Times(Select(env, "", tenants, MAIN_ORDER), k) == Times(Select(env, "", tenants, CONTROLLER_MODULES), k) {
      SelectTimes(env, "", tenants, MAIN_ORDER, k);
      SelectTimes(env, "", tenants, CONTROLLER_MODULES, k);
      MainOrderOnce(k.name);
    }
    SameTimes(Select(env, "", tenants, MAIN_ORDER), Select(env, "", tenants, CONTROLLER_MODULES));
  }

  lemma SameTimes<T>(a: seq<T>, b: seq<T>)
    requires forall x :: Times(a, x) == Times(b, x)
    ensures multiset(a) == multiset(b)
  {
    forall x ensures multiset(a)[x] == multiset(b)[x] {
      assert Times(a, x) == Times(b, x);
    }
  }

  lemma BookedSucceeded(env: Env, s: Sys, k: ModuleKey)
    requires SysInv(env, s) && CoverInv(env, s) && CleanEnd(s) && k in BookedModules(s)
    ensures SucceededSince(s.cache, k, s.started)
  {
    if k in s.phase.finished.log {
      assert LogSucceeded(s.cache, s.phase.finished, s.started);
      hide SysInv, SucceededSince, Logged, Listed, MidConceivable, AgentDone;
    } else {
      var t := LoggedBy(s.phase.workers, s.cache.tenants, k);
      CleanWorkerIs(env, s, t);
      hide SysInv, CoverInv, SucceededSince, Logged, Listed, MidConceivable, AgentDone, CleanEnd;
    }
  }

  lemma {:induction false} LoggedBy(workers: map<string, Worker>, tenants: seq<string>, k: ModuleKey) returns (t: string)
    requires k in WorkerLogs(workers, tenants)
    ensures t in tenants && t in workers && workers[t].Active? && k in workers[t].agent.log
  {
    var n := |tenants| - 1;
    if k in WorkerLogs(workers, tenants[..n]) {
      t := LoggedBy(workers, tenants[..n], k);
    } else {
      t := tenants[n];
    }
  }

  // ---- readiness ----

  const ADMIN_KEY := ModuleKey(AdminVSMetrics, "admin")

  /** The state of the raw admin analytics has outlived its use, because admin is listed by now or no
      tenant is, and has gone stale. */
  predicate StaleLeftover(env: Env, c: CacheState, now: int) {
    && ADMIN_KEY in c.states && c.states[ADMIN_KEY].IsStale(now)
    && !ShouldCollectAdmin(env, ExpectedTenants(env, c.tenants))
  }

  lemma StateIsWanted(env: Env, c: CacheState, l: Ledger, k: ModuleKey)
    requires StatesConceivable(env, c) && Resident(c, l) && k in c.states && "" !in c.tenants
    ensures k == ADMIN_KEY || Wanted(env, k, c.tenants)
  {
    assert Conceivable(env, k) && LiveKey(c.tenants, k);
    if k != ADMIN_KEY && k.tenant == "" {
      ConceivableOfController(env, k.name, c.tenants);
    }
    hide WantedOfController, WantedOfTenant;
  }

  lemma ConceivableOfController(env: Env, m: Module, tenants: seq<string>)
    requires WantedOfController(env, m, [])
    ensures WantedOfController(env, m, tenants) && KeyFor("", m) == ModuleKey(m, "")
  {
    hide Wildcard, On;
  }

  lemma AdminIsWanted(env: Env, tenants: seq<string>)
    ensures Wanted(env, ADMIN_KEY, tenants) <==> ShouldCollectAdmin(env, tenants)
  {
  }

  lemma LongestPatience(m: Module)
    ensures PolicyFor(m).maxStale >= 10 * MINUTE
  {
  }

  lemma SucceededIsFresh(c: CacheState, k: ModuleKey, started: nat, now: int)
    requires KeyAgrees(c, k) && SucceededSince(c, k, started) && now <= started + 10 * MINUTE
    ensures Fresh(c, k, now)
  {
    LongestPatience(k.name);
    hide PolicyFor;
  }

  /** For up to ten minutes from the start of a refresh without errors the cache is ready, exactly
      unless no module is required at all or a stale leftover of the raw admin analytics is still
      recorded. */
  lemma ReadyAfterCleanRefresh(env: Env, s: Sys, now: int)
    requires Reachable(env, s) && CleanEnd(s) && now <= s.started + 10 * MINUTE
    ensures Ready(env, s.cache, now) <==>
              RequiredModuleKeys(env, s.cache.tenants) != [] && !StaleLeftover(env, s.cache, now)
  {
    hide Reachable, SysInv, CoverInv, CleanEnd, RequiredModuleKeys;
    CleanRefreshCoversRequired(env, s);
    ReachableCovered(env, s);
    SettledTenantsAreExpected(env, s) by { EndsInFan(s); }
    var c := s.cache;
    assert StatesConceivable(env, c) && Resident(c, s.ledger) && CountersAgree(c) && GoodTenants(c) by {
      InvIsStore(env, s);
      CoverIsConceivable(env, s);
      hide StatesConceivable, Resident, CountersAgree, Sourced, Agrees;
    }
    RequiredOnce(env, c.tenants);
    AdminIsWanted(env, c.tenants);
    hide Resident, Wanted, ShouldCollectAdmin, KeyAgrees, SucceededSince, ModuleState.IsStale, Conceivable, ExpectedTenants;
    forall k | k in RequiredModuleKeys(env, c.tenants) ensures Fresh(c, k, now) {
      assert KeyAgrees(c, k);
      SucceededIsFresh(c, k, s.started, now);
    }
    forall k | k in c.states ensures k == ADMIN_KEY || Fresh(c, k, now) {
      StateIsWanted(env, c, s.ledger, k);
    }
    if ADMIN_KEY in c.states {
      assert KeyAgrees(c, ADMIN_KEY);
      RequiredFlag(c, ADMIN_KEY);
    }
  }

  lemma EndsInFan(s: Sys)
    requires CleanEnd(s)
    ensures s.phase.Fan?
  {
  }

  lemma CoverIsConceivable(env: Env, s: Sys)
    requires CoverInv(env, s)
    ensures StatesConceivable(env, s.cache)
  {
    hide PhaseCovered, StatesConceivable;
  }

  lemma RequiredFlag(c: CacheState, k: ModuleKey)
    requires KeyAgrees(c, k) && k in c.states
    ensures c.states[k].required
  {
    AlwaysRequired(k.name);
    hide PolicyFor;
  }
}
