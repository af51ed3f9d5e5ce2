/** A controller-wide group that has lost a row with a dropped tenant: the first refresh lists tenant t and
    reads analytics of service engines, one of them t's; in the second t is gone and the analytics fail. */
module Vanished {
  import opened Prelude
  import opened Series
  import opened Tenants
  import opened Cache
  import opened Refresh
  import opened Snapshots
  import opened RefreshInvariants
  import opened TenantRun
  import opened Stepping
  import Scheduler
  import Guarantees
  import Backing

  const ENGINE := TenantLabel(Some("t"), Plain([]))

  const ENGINES: TenantRows := map[ENGINE := 1.0]

  const CONTROLLER := Controller(
    run => if run == 0 then Some(["t"]) else Some(["u"]),
    run => None,
    (run, t) => None,
    (run, t) => None,
    (run, t) => None,
    (run, t) => None,
    (run, t) => None,
    (run, t, m) => None,
    (run, m) => if run == 0 then Some(ENGINES) else None)

  const RENDERER := Renderer(_ => map[], _ => map[], _ => map[], _ => map[], _ => map[])

  /** Everything is switched off but the analytics of service engines. */
  const ENV := Env(
    {Cluster, ClusterInventory, ControllerMetrics, SEConfig, SEList, SEInventory, AdminVSMetrics, VSList, VSInventory, VSMetrics,
     PoolList, PoolInventory, PoolMetrics, PoolMembers, VsVipList, VsVip, PoolGroup, Gslb, Module.Topology},
    ["*"], 1, CONTROLLER, RENDERER)

  const ENGINES_KEY := ModuleKey(SEMetrics, "")

  function Name(run: nat): string {
    if run == 0 then "t" else "u"
  }

  lemma FoundAlone(run: nat)
    ensures Found(ENV, run) == Some([Name(run)]) && ENV.configured == ["*"]
  {
  }

  lemma Skipped(pc: nat, l: Local)
    requires 2 <= pc <= 9 && pc != 8
    ensures Passes(ENV, pc, l)
  {
    hide Wildcard;
  }

  lemma SkipUnused(s: Sys, pc: nat, n: nat) returns (t: Sys)
    requires Reachable(ENV, s) && AtStage(s, pc) && 2 <= pc && (pc + n <= 8 || (pc == 9 && n == 1))
    ensures Reachable(ENV, t) && AtStage(t, pc + n) && t.run == s.run && t.now == s.now
    ensures t.phase.main.local == s.phase.main.local && t.cache == s.cache
  {
    hide Reachable, ENV, Passes;
    forall p | pc <= p < pc + n ensures Passes(ENV, p, s.phase.main.local) {
      Skipped(p, s.phase.main.local);
    }
    t := SkipStages(ENV, s, pc, n);
  }

  lemma EnginesRun(run: nat, l: Local, c: CacheState, now: nat)
    ensures ModuleRun(ENV, run, "", SEMetrics, l, c, now).1
            == Book(if run == 0 then ApplyWrite(c, WriteGlobal(GSEAnalytics, ENGINES)) else c, ENGINES_KEY, run == 0, now)
  {
    hide Book, ENGINES, Wildcard, ReplaceGroup;
  }

  /** A refresh that discovers one tenant, runs the analytics of service engines and is given up. */
  lemma OneRefresh(s: Sys) returns (t: Sys)
    requires Reachable(ENV, s) && s.phase.Idle?
    ensures Reachable(ENV, t) && t.phase.Idle? && t.run == s.run + 1
    ensures var c := Book(SetTenants(s.cache, [Name(s.run)]), ModuleKey(TenantDiscovery, ""), true, s.now);
            t.cache == Book(if s.run == 0 then ApplyWrite(c, WriteGlobal(GSEAnalytics, ENGINES)) else c, ENGINES_KEY, s.run == 0, s.now)
  {
    hide Reachable, ENV, ModuleRun, SetTenants, Book, Found, ApplyWrite, ENGINES, ENGINES_KEY;
    FoundAlone(s.run);
    t := BeginWith(ENV, s, Name(s.run));
    t := SkipUnused(t, 2, 6);
    EnginesRun(t.run, t.phase.main.local, t.cache, t.now);
    t := PassStage(ENV, t, 8, SEMetrics);
    t := SkipUnused(t, 9, 1);
    t := GiveUp(ENV, t);
  }

  ghost predicate EnginesSucceeded(c: CacheState) {
    ENGINES_KEY in c.states && c.states[ENGINES_KEY].lastSuccess.Some?
  }

  lemma AfterFirst(c: CacheState, now: nat)
    ensures var d := Book(ApplyWrite(Book(SetTenants(c, ["t"]), ModuleKey(TenantDiscovery, ""), true, now),
                                     WriteGlobal(GSEAnalytics, ENGINES)), ENGINES_KEY, true, now);
            d.tenants == ["t"] && EnginesSucceeded(d) && At(d.gauges, SeriesKey(GSEAnalytics, Some("t"), Plain([]))) == Some(1.0)
  {
    hide Book, SetTenants, ReplaceGroup, PolicyFor;
    var b := Book(SetTenants(c, ["t"]), ModuleKey(TenantDiscovery, ""), true, now);
    var w := WriteGlobal(GSEAnalytics, ENGINES);
    BookKeepsGauges(SetTenants(c, ["t"]), ModuleKey(TenantDiscovery, ""), true, now);
    SetTenantsShape(c, ["t"], ENGINES_KEY);
    assert ENGINE in ENGINES;
    AtGlobal(b.gauges, GSEAnalytics, ENGINES, SeriesKey(GSEAnalytics, Some("t"), Plain([])));
    BookKeepsGauges(ApplyWrite(b, w), ENGINES_KEY, true, now);
    BookShape(ApplyWrite(b, w), ENGINES_KEY, true, now);
  }

  lemma AfterSecond(c: CacheState, now: nat)
    requires c.tenants == ["t"] && EnginesSucceeded(c)
    ensures var d := Book(Book(SetTenants(c, ["u"]), ModuleKey(TenantDiscovery, ""), true, now), ENGINES_KEY, false, now);
            d.tenants == ["u"] && EnginesSucceeded(d) && At(d.gauges, SeriesKey(GSEAnalytics, Some("t"), Plain([]))) == None
  {
    hide Book, Drop, PolicyFor;
    var b := SetTenants(c, ["u"]);
    var d := Book(b, ModuleKey(TenantDiscovery, ""), true, now);
    assert "t" in Dropped(c, ["u"]) && "" !in Dropped(c, ["u"]) by { assert "t" != "u"; }
    AtDropped(c, Dropped(c, ["u"]), SeriesKey(GSEAnalytics, Some("t"), Plain([])));
    SetTenantsShape(c, ["u"], ENGINES_KEY);
    BookKeepsGauges(b, ModuleKey(TenantDiscovery, ""), true, now);
    BookShape(b, ModuleKey(TenantDiscovery, ""), true, now);
    BookKeepsGauges(d, ENGINES_KEY, false, now);
    BookShape(d, ENGINES_KEY, false, now);
  }

  lemma OnlyFirstAnswers(run: nat)
    ensures GlobalRendering(ENV, run, GSEAnalytics) == if run == 0 then Some(ENGINES) else None
    ensures ENGINE in ENGINES
  {
  }

  lemma EnginesGroup()
    ensures Backing.GroupOf(ENGINES_KEY.name) == Some(GSEAnalytics) && !PerTenant(GSEAnalytics)
  {
  }

  /** A reachable state in which the analytics of service engines have succeeded, their last rendering has
      a row of tenant t, and the group no longer shows it. */
  lemma VanishedRowReachable() returns (s: Sys)
    ensures Reachable(ENV, s) && s.phase.Idle? && EnginesSucceeded(s.cache)
    ensures GSEAnalytics in s.ledger.globals
            && GlobalRendering(ENV, s.ledger.globals[GSEAnalytics].run, GSEAnalytics) == Some(ENGINES)
    ensures ENGINE in ENGINES && At(s.cache.gauges, SeriesKey(GSEAnalytics, ENGINE.tenant, ENGINE.row)) == None
  {
    hide Reachable, ENV, SetTenants, Book, ApplyWrite, At, GlobalRendering, Backing.GroupOf, PerTenant;
    Scheduler.InitialReachable(ENV);
    s := Initial();
    AfterFirst(s.cache, s.now);
    s := OneRefresh(s);
    AfterSecond(s.cache, s.now);
    s := OneRefresh(s);
    EnginesGroup();
    hide ENGINES;
    Backing.SucceededModuleIsRendered(ENV, s, ENGINES_KEY, GSEAnalytics);
    OnlyFirstAnswers(s.ledger.globals[GSEAnalytics].run);
  }
}
