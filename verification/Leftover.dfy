/** What raw admin analytics can leave behind, in three refreshes of one run. In the first admin is not
    listed and its raw analytics fail; in the second, which has no error at all, admin is listed, so they
    are no longer attempted, and their stale state keeps the cache from being ready; in the third they
    succeed and leave a series with a tenant that was never listed. */
module Leftover {
  import opened Prelude
  import opened Series
  import opened Tenants
  import opened Cache
  import opened Refresh
  import opened RefreshInvariants
  import opened ReachableStates
  import opened Readiness
  import opened CleanRefresh
  import opened TenantRun
  import opened Stepping
  import Scheduler
  import Coverage
  import Guarantees

  const CONTROLLER := Controller(
    run => if run == 1 then Some(["admin"]) else Some(["t"]),
    run => None,
    (run, t) => Some([]),
    (run, t) => None,
    (run, t) => None,
    (run, t) => None,
    (run, t) => None,
    (run, t, m) => Some(map[]),
    (run, m) => if run == 2 then Some(STRAY) else None)

  const GHOST := TenantLabel(Some("ghost"), Plain([]))

  /** A raw answer with a row of a tenant that no discovery names. */
  const STRAY: TenantRows := map[GHOST := 1.0]

  const RENDERER := Renderer(_ => map[], _ => map[], _ => map[], _ => map[], _ => map[])

  /** Everything is switched off but the analytics of virtual services. */
  const ENV := Env(
    {Cluster, ClusterInventory, ControllerMetrics, SEConfig, SEList, SEInventory, SEMetrics, VSList, VSInventory, PoolList,
     PoolInventory, PoolMetrics, PoolMembers, VsVipList, VsVip, PoolGroup, Gslb, Module.Topology},
    ["*"], 1, CONTROLLER, RENDERER)

  function Name(run: nat): string {
    if run == 1 then "admin" else "t"
  }

  lemma FoundAlone(run: nat)
    ensures Found(ENV, run) == Some([Name(run)]) && Wildcard(ENV.configured) && ENV.configured == ["*"]
  {
    OnlyWildcard();
    hide Wildcard;
  }

  /** Modules that are off are passed over. */
  lemma Skipped(pc: nat, l: Local)
    requires 2 <= pc <= 9 && (pc == 9 ==> "admin" in l.tenants)
    ensures Passes(ENV, pc, l)
  {
    hide Wildcard;
  }

  lemma SkipUnused(s: Sys, n: nat) returns (t: Sys)
    requires Reachable(ENV, s) && AtStage(s, 2) && n <= 8 && (n == 8 ==> "admin" in s.phase.main.local.tenants)
    ensures Reachable(ENV, t) && AtStage(t, 2 + n) && t.run == s.run && t.now == s.now
    ensures t.phase.main.local == s.phase.main.local && t.cache == s.cache
  {
    hide Reachable, ENV, Passes;
    forall p | 2 <= p < 2 + n ensures Passes(ENV, p, s.phase.main.local) {
      Skipped(p, s.phase.main.local);
    }
    t := SkipStages(ENV, s, 2, n);
  }

  /** The raw admin analytics have been attempted, but never with success. */
  ghost predicate NeverSucceeded(c: CacheState) {
    ADMIN_KEY in c.states && c.states[ADMIN_KEY].lastSuccess.None?
  }

  lemma AdminIsCollected(tenants: seq<string>)
    requires tenants == ["t"]
    ensures ShouldCollectAdmin(ENV, tenants)
  {
    OnlyWildcard();
    hide Wildcard;
    assert "admin" != "t";
  }

  lemma AdminFails(l: Local, c: CacheState, now: nat)
    requires l.tenants == ["t"]
    ensures ModuleRun(ENV, 0, "", AdminVSMetrics, l, c, now).1 == Book(c, ADMIN_KEY, false, now)
  {
    hide Book, ShouldCollectAdmin;
    AdminIsCollected(l.tenants);
  }

  lemma AdminRunFails(l: Local, c: CacheState, now: nat)
    requires l.tenants == ["t"] && ADMIN_KEY !in c.states
    ensures NeverSucceeded(ModuleRun(ENV, 0, "", AdminVSMetrics, l, c, now).1)
    ensures ModuleRun(ENV, 0, "", AdminVSMetrics, l, c, now).1.tenants == c.tenants
  {
    hide ModuleRun, ENV;
    AdminFails(l, c, now);
    BookShape(c, ADMIN_KEY, false, now);
    hide Book, PolicyFor;
  }

  /** The first refresh ends with the failed state recorded and tenant t listed. */
  lemma FirstRefresh() returns (s: Sys)
    ensures Reachable(ENV, s) && s.phase.Idle? && s.run == 1 && s.cache.tenants == ["t"] && NeverSucceeded(s.cache)
  {
    hide Reachable, ModuleRun, NeverSucceeded, ENV, SetTenants, Book, Found;
    Scheduler.InitialReachable(ENV);
    s := Initial();
    FoundAlone(0);
    FirstDiscovery(s.cache, s.now);
    s := BeginWith(ENV, s, "t");
    s := SkipUnused(s, 7);
    AdminRunFails(s.phase.main.local, s.cache, s.now);
    s := PassStage(ENV, s, 9, AdminVSMetrics);
    s := GiveUp(ENV, s);
  }

  lemma FirstDiscovery(c: CacheState, now: nat)
    requires c == EMPTY_CACHE
    ensures var d := Book(SetTenants(c, ["t"]), ModuleKey(TenantDiscovery, ""), true, now);
            d.tenants == ["t"] && ADMIN_KEY !in d.states
  {
    SetTenantsShape(c, ["t"], ADMIN_KEY);
    BookShape(SetTenants(c, ["t"]), ModuleKey(TenantDiscovery, ""), true, now);
    hide SetTenants, Book, BookedState;
  }

  // ---- the second refresh ----

  lemma SecondDiscovery(c: CacheState, now: nat)
    requires c.tenants == ["t"] && NeverSucceeded(c)
    ensures var d := Book(SetTenants(c, ["admin"]), ModuleKey(TenantDiscovery, ""), true, now);
            d.tenants == ["admin"] && NeverSucceeded(d)
  {
    SetTenantsShape(c, ["admin"], ADMIN_KEY);
    assert "admin" !in Dropped(c, ["admin"]) by { assert "admin" != "t"; }
    BookShape(SetTenants(c, ["admin"]), ModuleKey(TenantDiscovery, ""), true, now);
    hide SetTenants, Book, BookedState, Dropped;
  }

  /** The goroutine of admin stands before a stage; nothing has failed so far. */
  ghost predicate AdminAt(s: Sys, pc: nat) {
    && s.phase.Fan? && s.phase.finished.local.ok
    && s.phase.workers.Keys == {"admin"}
    && s.phase.workers["admin"].Active?
    && var a := s.phase.workers["admin"].agent;
       a.owner == "admin" && a.pc == pc && a.mid.None? && a.local.ok
  }

  ghost predicate StillLeft(s: Sys) {
    s.cache.tenants == ["admin"] && NeverSucceeded(s.cache)
  }

  /** What admin's modules do leaves the leftover alone, and none of them fails. */
  lemma StageIsFine(run: nat, pc: nat, l: Local, c: CacheState, now: nat)
    requires pc < 12 && l.ok && c.tenants == ["admin"] && NeverSucceeded(c)
    ensures TenantStage(pc).Run?
    ensures var (after, d) := ModuleRun(ENV, run, "admin", TenantStage(pc).m, l, c, now);
            after.ok && d.tenants == ["admin"] && NeverSucceeded(d)
  {
    var m := TenantStage(pc).m;
    var o := Execute(ENV, run, "admin", m, l);
    OnlyAnalyticsRun(run, pc, l);
    hide TenantStage, Execute, Attempts, KeyFor;
    if Attempts(ENV, m, l) {
      WriteShape(c, o.write);
      BookShape(ApplyWrite(c, o.write), KeyFor("admin", m), o.ok, now);
      hide ApplyWrite, Book, BookedState;
    }
  }

  /** Only the list and the analytics of virtual services are on among a tenant's modules. */
  lemma OnlyAnalyticsOn(pc: nat, l: Local)
    requires pc < 12
    ensures Attempts(ENV, TenantStage(pc).m, l) ==> TenantStage(pc).m == VSList || TenantStage(pc).m == VSMetrics
  {
    hide CONTROLLER, RENDERER, Wildcard;
  }

  lemma AnalyticsOutcomes(run: nat, l: Local)
    ensures var o := Execute(ENV, run, "admin", VSList, l); o.ok && o.write == NoWrite
    ensures var o := Execute(ENV, run, "admin", VSMetrics, l); o.ok && o.write.WriteSlice?
    ensures KeyFor("admin", VSList) != ADMIN_KEY && KeyFor("admin", VSMetrics) != ADMIN_KEY
  {
    hide RENDERER, Wildcard;
  }

  lemma OnlyAnalyticsRun(run: nat, pc: nat, l: Local)
    requires pc < 12
    ensures var m := TenantStage(pc).m;
            var o := Execute(ENV, run, "admin", m, l);
            Attempts(ENV, m, l) ==> o.ok && !o.write.WriteTenants? && KeyFor("admin", m) != ADMIN_KEY
  {
    hide Execute, Attempts, KeyFor, TenantStage, ENV, ADMIN_KEY;
    OnlyAnalyticsOn(pc, l);
    AnalyticsOutcomes(run, l);
  }

  lemma PassAdminStage(s: Sys, pc: nat) returns (t: Sys)
    requires Reachable(ENV, s) && AdminAt(s, pc) && StillLeft(s) && pc < 12
    ensures Reachable(ENV, t) && AdminAt(t, pc + 1) && StillLeft(t) && t.run == s.run
  {
    hide Reachable, Execute, Attempts, KeyFor, ENV, TenantStage, NeverSucceeded, AgentEffect, AgentNext, AgentDone, Next, Enabled,
      ApplyWrite, Book;
    var a := s.phase.workers["admin"].agent;
    StageIsFine(s.run, pc, a.local, s.cache, s.now);
    var m := TenantStage(pc).m;
    Coverage.ExecuteKeepsOk(ENV, s.run, "admin", m, a.local);
    StageSteps(ENV, s.run, a, m, s.cache.tenants, s.now);
    WorkerMayStep(ENV, s, "admin", a, s.now);
    t := StepReaches(ENV, s, WorkerStep("admin"));
    if Attempts(ENV, m, a.local) {
      StageSteps(ENV, s.run, a, m, t.cache.tenants, s.now);
      WorkerMayStep(ENV, t, "admin", t.phase.workers["admin"].agent, s.now);
      t := StepReaches(ENV, t, WorkerStep("admin"));
    }
  }

  lemma {:induction false} AdminRuns(s: Sys, pc: nat) returns (t: Sys)
    requires Reachable(ENV, s) && AdminAt(s, pc) && StillLeft(s) && pc <= 12
    ensures Reachable(ENV, t) && AdminAt(t, 12) && StillLeft(t) && t.run == s.run
    decreases 12 - pc
  {
    hide Reachable, AdminAt, StillLeft;
    t := s;
    if pc < 12 {
      t := PassAdminStage(s, pc);
      t := AdminRuns(t, pc + 1);
    }
  }

  lemma PublishingAdmin(a: Agent, run: nat, cached: seq<string>, now: nat)
    requires a.owner == "admin" && a.pc == 12 && a.mid.None?
    ensures AgentEffect(ENV, run, a, cached) == PublishesUp("admin", a.local.ok)
    ensures AgentNext(ENV, run, a, cached, now) == a.(pc := 13)
    ensures !AgentDone(a) && AgentDone(a.(pc := 13))
  {
    hide ENV;
  }

  lemma Publish(s: Sys) returns (t: Sys)
    requires Reachable(ENV, s) && AdminAt(s, 12) && StillLeft(s)
    ensures Reachable(ENV, t) && StillLeft(t) && CleanEnd(t) && t.run == s.run
  {
    hide Reachable, ENV, AgentEffect, AgentNext, AgentDone, Next, Enabled, LedgerEffect;
    var a := s.phase.workers["admin"].agent;
    PublishingAdmin(a, s.run, s.cache.tenants, s.now);
    WorkerMayStep(ENV, s, "admin", a, s.now);
    t := StepReaches(ENV, s, WorkerStep("admin"));
    assert t.phase.workers.Keys == {"admin"};
  }

  lemma SpawnAdmin(s: Sys) returns (t: Sys)
    requires Reachable(ENV, s) && AtStage(s, 10) && s.phase.main.local.tenants == ["admin"] && s.phase.main.local.ok
    ensures Reachable(ENV, t) && AdminAt(t, 0) && t.cache == s.cache && t.run == s.run
  {
    hide Reachable;
    t := StepReaches(ENV, s, Spawn);
    assert t.phase.workers.Keys == {"admin"};
    assert Holders(t.phase.workers) == {};
    t := StepReaches(ENV, t, Admit("admin"));
  }

  lemma SecondRefresh() returns (s: Sys)
    ensures Reachable(ENV, s) && CleanEnd(s) && StillLeft(s) && s.run == 1
  {
    hide Reachable, ModuleRun, NeverSucceeded, ENV, SetTenants, Book, CleanEnd, AdminAt, Found;
    s := FirstRefresh();
    FoundAlone(1);
    SecondDiscovery(s.cache, s.now);
    s := BeginWith(ENV, s, "admin");
    s := SkipUnused(s, 8);
    s := SpawnAdmin(s);
    s := AdminRuns(s, 0);
    s := Publish(s);
  }

  /** At the end of the second refresh nothing has failed and every required module has just succeeded,
      and yet the cache is not ready. */
  lemma CleanRefreshNeedNotMakeReady() returns (s: Sys)
    ensures Reachable(ENV, s) && CleanEnd(s)
    ensures forall k :: k in RequiredModuleKeys(ENV, s.cache.tenants) ==> Coverage.SucceededSince(s.cache, k, s.started)
    ensures !Ready(ENV, s.cache, s.now)
  {
    hide Reachable, CleanEnd, RequiredModuleKeys, ENV;
    s := SecondRefresh();
    CleanRefreshCoversRequired(ENV, s);
    hide Coverage.SucceededSince;
    StaleAdminBlocks(s.cache, s.now);
    assert s.cache.states[ADMIN_KEY].required by {
      Guarantees.CountersMatchStates(ENV, s, ADMIN_KEY);
      RequiredFlag(s.cache, ADMIN_KEY);
    }
  }

  lemma StaleAdminBlocks(c: CacheState, now: int)
    requires NeverSucceeded(c)
    ensures c.states[ADMIN_KEY].required ==> !Ready(ENV, c, now)
  {
    hide RequiredModuleKeys, ENV;
    assert c.states[ADMIN_KEY].IsStale(now);
  }

  // ---- the third refresh ----

  lemma FinishSecond(s: Sys) returns (t: Sys)
    requires Reachable(ENV, s) && CleanEnd(s) && s.run == 1
    ensures Reachable(ENV, t) && t.phase.Idle? && t.run == 2 && t.cache == s.cache
  {
    hide Reachable, ENV, AgentDone, Clean;
    t := StepReaches(ENV, s, Finish);
  }

  lemma AdminSucceeds(l: Local, c: CacheState, now: nat)
    requires l.tenants == ["t"]
    ensures ModuleRun(ENV, 2, "", AdminVSMetrics, l, c, now).1 == Book(ApplyWrite(c, WriteRaw(STRAY)), ADMIN_KEY, true, now)
  {
    hide Book, ShouldCollectAdmin, ApplyWrite, STRAY;
    AdminIsCollected(l.tenants);
  }

  lemma StrayShows(c: CacheState, now: nat)
    ensures var d := Book(ApplyWrite(c, WriteRaw(STRAY)), ADMIN_KEY, true, now);
            d.tenants == c.tenants && At(d.gauges, SeriesKey(GVSAnalytics, Some("ghost"), Plain([]))) == Some(1.0)
  {
    var w := WriteRaw(STRAY);
    assert GHOST in STRAY;
    AtRaw(c.gauges, STRAY, SeriesKey(GVSAnalytics, Some("ghost"), Plain([])));
    BookKeepsGauges(ApplyWrite(c, w), ADMIN_KEY, true, now);
    hide Book, ReplaceRaw;
  }

  lemma NeverFound(run: nat)
    ensures Found(ENV, run).Some? && "ghost" !in Found(ENV, run).value
  {
    FoundAlone(run);
    assert |"ghost"| != |"t"| && "ghost" != "admin" by { assert "ghost"[0] != "admin"[0]; }
  }

  /** The third refresh lists t again and reads the raw analytics of admin, which name a tenant that no
      discovery ever finds: a series of that tenant is served. */
  lemma StrayRowsReachable() returns (s: Sys)
    ensures Reachable(ENV, s) && s.cache.tenants == ["t"]
    ensures At(s.cache.gauges, SeriesKey(GVSAnalytics, Some("ghost"), Plain([]))) == Some(1.0)
    ensures ENV.configured == ["*"] && forall run: nat :: Found(ENV, run).Some? && "ghost" !in Found(ENV, run).value
  {
    hide Reachable, ModuleRun, ENV, SetTenants, Book, CleanEnd, Found, At, ApplyWrite, STRAY;
    FoundAlone(0);
    forall run: nat ensures Found(ENV, run).Some? && "ghost" !in Found(ENV, run).value {
      NeverFound(run);
    }
    s := SecondRefresh();
    s := FinishSecond(s);
    FoundAlone(2);
    BookShape(SetTenants(s.cache, ["t"]), ModuleKey(TenantDiscovery, ""), true, s.now);
    SetTenantsShape(s.cache, ["t"], ADMIN_KEY);
    s := BeginWith(ENV, s, "t");
    s := SkipUnused(s, 7);
    AdminSucceeds(s.phase.main.local, s.cache, s.now);
    StrayShows(s.cache, s.now);
    s := PassStage(ENV, s, 9, AdminVSMetrics);
  }
}
