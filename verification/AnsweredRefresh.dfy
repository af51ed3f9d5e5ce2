/** What a refresh leaves behind, read off the controller's answers: the tenant list, the groups shown, the
    up flags and whether it was clean. */
module AnsweredRefresh {
  import opened Prelude
  import opened Series
  import opened Tenants
  import opened Cache
  import opened Refresh
  import opened Snapshots
  import opened RefreshInvariants
  import opened ReachableStates
  import opened Guarantees
  import opened Backing
  import opened Answered
  import opened CleanRefresh
  import Enrichment

  // ---- the tenant list ----

  /** Sorted, and exactly the configured names and these. */
  ghost predicate ListsFound(env: Env, c: CacheState, names: seq<string>) {
    StrictlySorted(c.tenants) && forall x :: x in c.tenants <==> x != "" && (x in StaticTenants(env.configured) || x in names)
  }

  /** The list a refresh works on: the configured one without a wildcard; otherwise with the names of the
      login answer, or, if that is there but names none, with those of the tenant list. */
  lemma SettledTenants(env: Env, s: Sys)
    requires Reachable(env, s) && (s.phase.Fan? || (s.phase.Main? && s.phase.main.pc >= 2))
    ensures !Wildcard(env.configured) ==> s.cache.tenants == StaticTenants(env.configured)
    ensures Wildcard(env.configured) && env.controller.login(s.run).Some? && env.controller.login(s.run).value != [] ==>
              ListsFound(env, s.cache, env.controller.login(s.run).value)
    ensures Wildcard(env.configured) && env.controller.login(s.run) == Some([]) && env.controller.listTenants(s.run).Some? ==>
              ListsFound(env, s.cache, env.controller.listTenants(s.run).value)
  {
    hide Reachable, Discovered, StaticTenants, Wildcard;
    SettledFromThisRun(env, s);
  }

  lemma SettledFromThisRun(env: Env, s: Sys)
    requires Reachable(env, s) && (s.phase.Fan? || (s.phase.Main? && s.phase.main.pc >= 2))
    ensures var a := if s.phase.Main? then s.phase.main else s.phase.finished;
            && MainFromThisRun(env, s.run, a) && a.pc >= 2 && a.local.tenants == s.cache.tenants
  {
    ReachableShown(env, s);
    hide Reachable, StoreInv, MainShown, MidInv, ExplicitListed, MainFromThisRun, TenantFromThisRun, WorkerShown, WorkerInv, Holders;
  }

  // ---- answers, spelled out ----

  /** Everything that a refresh asks for a tenant is answered. */
  ghost predicate AnswersTenant(env: Env, run: nat, t: string) {
    var c, off := env.controller, env.disabled;
    && (VSInventory !in off || VSMetrics !in off || Module.Topology !in off ==> c.vsList(run, t).Some?)
    && (VSMetrics !in off ==> c.tenantRows(run, t, VSMetrics).Some?)
    && (PoolInventory !in off || PoolMetrics !in off || PoolMembers !in off || Module.Topology !in off ==> c.poolList(run, t).Some?)
    && (PoolMetrics !in off && c.poolList(run, t) != Some([]) ==> c.tenantRows(run, t, PoolMetrics).Some?)
    && (PoolMembers !in off ==> c.poolMembers(run, t).Some?)
    && (VsVip !in off || Module.Topology !in off ==> c.vsvipList(run, t).Some?)
    && (PoolGroup !in off ==> c.poolGroups(run, t).Some?)
    && (Gslb !in off ==> c.tenantRows(run, t, Gslb).Some?)
  }

  /** Everything that it asks for itself is. */
  ghost predicate AnswersMain(env: Env, run: nat, tenants: seq<string>) {
    var c, off := env.controller, env.disabled;
    && ("*" in env.configured ==> c.login(run).Some? && (c.login(run).value != [] || c.listTenants(run).Some?))
    && (forall m :: m in {Cluster, ClusterInventory, ControllerMetrics, SEConfig, SEMetrics} && m !in off ==> c.ownRows(run, m).Some?)
    && (SEInventory !in off ==> c.ownRows(run, SEList).Some?)
    && ("*" in env.configured && VSMetrics !in off && AdminVSMetrics !in off && tenants != [] && "admin" !in tenants ==>
          c.ownRows(run, AdminVSMetrics).Some?)
  }

  lemma TenantStagesAnswered(env: Env, run: nat, a: Agent)
    requires a.owner != "" && a.pc >= 12
    ensures (forall pc: nat :: Past(a, pc) ==> StageAnswered(env, run, a, pc)) <==> AnswersTenant(env, run, a.owner)
  {
    hide StageAnswered, AnswersTenant, TenantAnswered;
    StagesOfTenant(env, run, a);
    AnswersByModule(env, run, a.owner);
  }

  /** The stages at which a tenant's modules ask for something. */
  lemma StagesOfTenant(env: Env, run: nat, a: Agent)
    requires a.owner != "" && a.pc >= 12
    ensures (forall pc: nat :: Past(a, pc) ==> StageAnswered(env, run, a, pc)) <==>
              forall m :: m in {VSList, VSMetrics, PoolList, PoolMetrics, PoolMembers, VsVipList, PoolGroup, Gslb, Module.Topology} ==>
                TenantAnswered(env, run, a.owner, m)
  {
    hide VSOf, PoolsOf, VsVipsOf, MembersOf, GroupsOf, NeedVS, NeedPools, NeedVsVip, On;
    if forall pc: nat :: Past(a, pc) ==> StageAnswered(env, run, a, pc) {
      assert StageAnswered(env, run, a, 0) && StageAnswered(env, run, a, 2) && StageAnswered(env, run, a, 3) && StageAnswered(env, run, a, 5);
      assert StageAnswered(env, run, a, 6) && StageAnswered(env, run, a, 7) && StageAnswered(env, run, a, 9) && StageAnswered(env, run, a, 10);
      assert StageAnswered(env, run, a, 11);
    }
  }

  lemma AnswersByModule(env: Env, run: nat, t: string)
    ensures (forall m :: m in {VSList, VSMetrics, PoolList, PoolMetrics, PoolMembers, VsVipList, PoolGroup, Gslb, Module.Topology} ==>
               TenantAnswered(env, run, t, m))
            <==> AnswersTenant(env, run, t)
  {
    hide Enrichment.EnrichedInventory;
    if forall m :: m in {VSList, VSMetrics, PoolList, PoolMetrics, PoolMembers, VsVipList, PoolGroup, Gslb, Module.Topology} ==> TenantAnswered(env, run, t, m) {
      assert TenantAnswered(env, run, t, VSList) && TenantAnswered(env, run, t, VSMetrics) && TenantAnswered(env, run, t, PoolList);
      assert TenantAnswered(env, run, t, PoolMetrics) && TenantAnswered(env, run, t, PoolMembers) && TenantAnswered(env, run, t, VsVipList);
      assert TenantAnswered(env, run, t, PoolGroup) && TenantAnswered(env, run, t, Gslb);
    }
  }

  lemma MainStagesAnswered(env: Env, run: nat, a: Agent)
    requires a.owner == "" && a.pc >= 10
    ensures (forall pc: nat :: Past(a, pc) ==> StageAnswered(env, run, a, pc)) <==> AnswersMain(env, run, a.local.tenants)
  {
    if forall pc: nat :: Past(a, pc) ==> StageAnswered(env, run, a, pc) {
      assert StageAnswered(env, run, a, 0) && StageAnswered(env, run, a, 2) && StageAnswered(env, run, a, 3) && StageAnswered(env, run, a, 4);
      assert StageAnswered(env, run, a, 5) && StageAnswered(env, run, a, 6) && StageAnswered(env, run, a, 8) && StageAnswered(env, run, a, 9);
    }
  }

  // ---- what is shown ----

  /** The modules that replace a tenant's group. */
  predicate DrawsForTenant(m: Module, g: Group) {
    GroupOf(m) == Some(g) && PerTenant(g) && m != AdminVSMetrics
  }

  lemma StageOfModule(m: Module, g: Group) returns (pc: nat)
    requires DrawsForTenant(m, g)
    ensures pc < 12 && TenantStage(pc) == Run(m)
  {
    match m
    case VSInventory => pc := 1;
    case VSMetrics => pc := 2;
    case PoolInventory => pc := 4;
    case PoolMetrics => pc := 5;
    case PoolMembers => pc := 6;
    case VsVip => pc := 8;
    case PoolGroup => pc := 9;
    case Gslb => pc := 10;
    case Topology => pc := 11;
    case _ =>
  }

  /** A goroutine that is through: the invariant of its tenant. */
  lemma DoneWorker(env: Env, s: Sys, t: string)
    requires Reachable(env, s) && s.phase.Fan? && t in s.phase.workers && s.phase.workers[t].Active? && AgentDone(s.phase.workers[t].agent)
    ensures var a := s.phase.workers[t].agent;
            && a.owner == t && t != "" && a.pc >= 13 && a.mid.None?
            && VerdictExact(env, s.run, a) && TenantWrote(env, s.ledger, s.run, a)
            && t in s.cache.up && s.cache.up[t] == a.local.ok
  {
    hide SysInv, Reachable, FinishedMain, MainShown, VerdictExact, TenantWrote, FromThisRun;
    ReachableShown(env, s);
    WorkerFacts(env, s, t);
  }

  lemma SourceShows(env: Env, s: Sys, g: Group, t: string)
    requires Reachable(env, s) && PerTenant(g) && SliceName(g, t) in s.ledger.slices
    requires s.ledger.slices[SliceName(g, t)] == FromTenant(s.run) && TenantRendering(env, s.run, g, t).Some?
    requires g == GVSAnalytics ==> Since(s.ledger, Some(t)) == |s.ledger.raws|
    ensures Shows(s.cache.gauges, g, Some(t), TenantRendering(env, s.run, g, t).value)
  {
    hide Reachable, TenantRendering, PerTenant, At;
    forall r ensures At(s.cache.gauges, SeriesKey(g, Some(t), r)) == RowAt(TenantRendering(env, s.run, g, t).value, r) {
      SeriesAreLastRendering(env, s, SeriesKey(g, Some(t), r));
    }
  }

  /** Once a tenant's goroutine is through, whatever the others do: each of its groups that is on and whose
      answers came shows exactly what this refresh's answers render to, and the tenant is up exactly if
      everything that was asked for it was answered. */
  lemma FinishedTenantShowsAnswers(env: Env, s: Sys, t: string)
    requires Reachable(env, s) && s.phase.Fan? && t in s.phase.workers && s.phase.workers[t].Active? && AgentDone(s.phase.workers[t].agent)
    ensures forall m, g :: DrawsForTenant(m, g) && On(env, m) && TenantRendering(env, s.run, g, t).Some? ==>
              Shows(s.cache.gauges, g, Some(t), TenantRendering(env, s.run, g, t).value)
    ensures t in s.cache.up && (s.cache.up[t] <==> AnswersTenant(env, s.run, t))
  {
    hide Reachable, VerdictExact, TenantWrote, TenantRendering, AgentDone, Shows, On, AnswersTenant;
    DoneWorker(env, s, t);
    var a := s.phase.workers[t].agent;
    VerdictOfTenant(env, s.run, a);
    forall m, g | DrawsForTenant(m, g) && On(env, m) && TenantRendering(env, s.run, g, t).Some?
      ensures Shows(s.cache.gauges, g, Some(t), TenantRendering(env, s.run, g, t).value)
    {
      var pc := StageOfModule(m, g);
      WroteAt(env, s.ledger, s.run, a, pc);
      SourceShows(env, s, g, t);
    }
  }

  lemma WroteAt(env: Env, l: Ledger, run: nat, a: Agent, pc: nat)
    requires TenantWrote(env, l, run, a) && Past(a, pc) && TenantStage(pc).Run?
    ensures StageWrote(env, l, run, a.owner, TenantStage(pc).m)
  {
    hide StageWrote, TenantStage;
  }

  lemma VerdictOfTenant(env: Env, run: nat, a: Agent)
    requires VerdictExact(env, run, a) && a.owner != "" && a.pc >= 12 && a.mid.None?
    ensures a.local.ok <==> AnswersTenant(env, run, a.owner)
  {
    hide StageAnswered, AnswersTenant;
    TenantStagesAnswered(env, run, a);
  }

  /** Once the tenants' goroutines have started, until the refresh ends: each controller-wide group that is on
      and was answered shows exactly this answer, and the raw analytics that were read are shown for admin. */
  lemma FinishedMainShowsAnswers(env: Env, s: Sys)
    requires Reachable(env, s) && s.phase.Fan?
    ensures forall m, g, tenant, r :: GroupOf(m) == Some(g) && !PerTenant(g) && On(env, m) && GlobalRendering(env, s.run, g).Some? ==>
              At(s.cache.gauges, SeriesKey(g, tenant, r)) == OwnRowAt(GlobalRendering(env, s.run, g).value, tenant, r)
    ensures ShouldCollectAdmin(env, s.cache.tenants) && env.controller.ownRows(s.run, AdminVSMetrics).Some? ==>
              forall r :: At(s.cache.gauges, SeriesKey(GVSAnalytics, Some("admin"), r))
                          == OwnRowAt(env.controller.ownRows(s.run, AdminVSMetrics).value, Some("admin"), r)
  {
    hide Reachable, GlobalRendering, ShouldCollectAdmin, At, On;
    var a := s.phase.finished;
    ShownMain(env, s);
    forall m, g, tenant, r | GroupOf(m) == Some(g) && !PerTenant(g) && On(env, m) && GlobalRendering(env, s.run, g).Some?
      ensures At(s.cache.gauges, SeriesKey(g, tenant, r)) == OwnRowAt(GlobalRendering(env, s.run, g).value, tenant, r)
    {
      GlobalStageWrote(env, s.ledger, s.run, a, m, g);
      SeriesAreLastRendering(env, s, SeriesKey(g, tenant, r));
    }
    if ShouldCollectAdmin(env, s.cache.tenants) && env.controller.ownRows(s.run, AdminVSMetrics).Some? {
      AdminStageWrote(env, s.ledger, s.run, a);
      forall r ensures At(s.cache.gauges, SeriesKey(GVSAnalytics, Some("admin"), r))
                       == OwnRowAt(env.controller.ownRows(s.run, AdminVSMetrics).value, Some("admin"), r)
      {
        AdminShows(env, s, r);
      }
    }
  }

  lemma AdminShows(env: Env, s: Sys, r: Row)
    requires Reachable(env, s) && env.controller.ownRows(s.run, AdminVSMetrics).Some?
    requires SliceName(GVSAnalytics, "admin") in s.ledger.slices && s.ledger.slices[SliceName(GVSAnalytics, "admin")] == FromAdmin(s.run)
    ensures At(s.cache.gauges, SeriesKey(GVSAnalytics, Some("admin"), r))
            == OwnRowAt(env.controller.ownRows(s.run, AdminVSMetrics).value, Some("admin"), r)
  {
    hide Reachable, StrayRow, GoodRaws;
    SeriesAreLastRendering(env, s, SeriesKey(GVSAnalytics, Some("admin"), r));
    SlicesAreGood(env, s);
    NoStrayRow(env, s.run, s.ledger, GVSAnalytics, "admin", r);
    ShownRaw(env, s.run, env.controller.ownRows(s.run, AdminVSMetrics).value, r);
  }

  lemma ShownMain(env: Env, s: Sys)
    requires Reachable(env, s) && s.phase.Fan?
    ensures var a := s.phase.finished;
            && a.owner == "" && a.pc >= 10 && a.mid.None? && a.local.tenants == s.cache.tenants
            && VerdictExact(env, s.run, a) && MainWrote(env, s.ledger, s.run, a)
  {
    hide SysInv, Reachable, VerdictExact, MainWrote, FromThisRun, WorkerShown;
    ReachableShown(env, s);
  }

  lemma GlobalStageWrote(env: Env, l: Ledger, run: nat, a: Agent, m: Module, g: Group)
    requires MainWrote(env, l, run, a) && a.pc >= 10 && GroupOf(m) == Some(g) && !PerTenant(g)
    requires On(env, m) && GlobalRendering(env, run, g).Some?
    ensures g in l.globals && l.globals[g] == GlobalSource(run, {})
  {
    hide GlobalRendering, On, ShouldCollectAdmin;
    var pc: nat := if m == Cluster then 2 else if m == ClusterInventory then 3 else if m == ControllerMetrics then 4
                   else if m == SEConfig then 5 else if m == SEInventory then 7 else 8;
    assert Past(a, pc) && MainStage(pc) == Run(m);
    assert GlobalWrote(env, l, run, a.local.tenants, MainStage(pc).m);
  }

  lemma AdminStageWrote(env: Env, l: Ledger, run: nat, a: Agent)
    requires MainWrote(env, l, run, a) && a.pc >= 10
    requires ShouldCollectAdmin(env, a.local.tenants) && env.controller.ownRows(run, AdminVSMetrics).Some?
    ensures SliceName(GVSAnalytics, "admin") in l.slices && l.slices[SliceName(GVSAnalytics, "admin")] == FromAdmin(run)
  {
    hide ShouldCollectAdmin;
    assert Past(a, 9) && MainStage(9) == Run(AdminVSMetrics);
    assert GlobalWrote(env, l, run, a.local.tenants, MainStage(9).m);
  }

  // ---- a clean refresh ----

  /** When all goroutines have ended, the refresh is clean exactly if none was turned away and the controller
      answered everything that was asked for itself and for each tenant. */
  lemma CleanExactly(env: Env, s: Sys)
    requires Reachable(env, s) && s.phase.Fan? && forall t :: t in s.phase.workers ==> WorkerFinished(s.phase.workers[t])
    ensures CleanEnd(s) <==>
              && (forall t :: t in s.phase.workers ==> s.phase.workers[t].Active?)
              && AnswersMain(env, s.run, s.cache.tenants)
              && (forall t :: t in s.cache.tenants ==> AnswersTenant(env, s.run, t))
  {
    hide Reachable, VerdictExact, MainWrote, AgentDone, AnswersMain, AnswersTenant, TenantWrote;
    ShownMain(env, s);
    VerdictOfMain(env, s.run, s.phase.finished);
    WorkersAreListed(env, s);
    forall t | t in s.phase.workers && s.phase.workers[t].Active?
      ensures s.phase.workers[t].agent.local.ok <==> AnswersTenant(env, s.run, t)
    {
      DoneWorker(env, s, t);
      VerdictOfTenant(env, s.run, s.phase.workers[t].agent);
    }
  }

  lemma VerdictOfMain(env: Env, run: nat, a: Agent)
    requires VerdictExact(env, run, a) && a.owner == "" && a.pc >= 10 && a.mid.None?
    ensures a.local.ok <==> AnswersMain(env, run, a.local.tenants)
  {
    hide StageAnswered, AnswersMain;
    MainStagesAnswered(env, run, a);
  }

  lemma WorkersAreListed(env: Env, s: Sys)
    requires Reachable(env, s) && s.phase.Fan?
    ensures forall t :: t in s.phase.workers <==> t in s.cache.tenants
  {
    hide Reachable, Holders, ExplicitListed;
    TenantListIsSound(env, s);
    assert forall t :: t in s.phase.workers <==> t in s.phase.workers.Keys;
  }
}
