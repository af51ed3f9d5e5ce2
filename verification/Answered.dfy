/** What a refresh does with the answers it gets: a module succeeds exactly if its answers are there, its
    group then shows them, and a refresh is clean exactly if nobody was turned away and everything was
    answered (collector/cache.go). */
module Answered {
  import opened Prelude
  import opened Series
  import opened Tenants
  import opened Cache
  import opened Refresh
  import opened Snapshots
  import opened RefreshInvariants
  import opened ReachableStates
  import opened Guarantees
  import opened Backing
  import Coverage
  import Topology
  import Enrichment

  // ---- which answers a module needs ----

  /** Whatever the module of a tenant asks the controller for, if it comes to that, is answered. */
  ghost predicate TenantAnswered(env: Env, run: nat, t: string, m: Module) {
    var c := env.controller;
    match m
    case VSList => NeedVS(env) ==> c.vsList(run, t).Some?
    case VSMetrics => On(env, VSMetrics) && VSOf(env, run, t).Some? ==> c.tenantRows(run, t, VSMetrics).Some?
    case PoolList => NeedPools(env) ==> c.poolList(run, t).Some?
    case PoolMetrics =>
      On(env, PoolMetrics) && PoolsOf(env, run, t).Some? && PoolsOf(env, run, t).value != [] ==> c.tenantRows(run, t, PoolMetrics).Some?
    case PoolMembers => On(env, PoolMembers) && PoolsOf(env, run, t).Some? ==> c.poolMembers(run, t).Some?
    case VsVipList => NeedVsVip(env) ==> c.vsvipList(run, t).Some?
    case PoolGroup => On(env, PoolGroup) ==> c.poolGroups(run, t).Some?
    case Gslb => On(env, Gslb) ==> c.tenantRows(run, t, Gslb).Some?
    case Topology =>
      On(env, Module.Topology) ==>
        && VSOf(env, run, t).Some? && PoolsOf(env, run, t).Some? && VsVipsOf(env, run, t).Some?
        && GroupsOf(env, run, t).Some? && MembersOf(env, run, t).Some?
    case _ => true
  }

  /** The same for a module of the main agent. */
  ghost predicate MainAnswered(env: Env, run: nat, tenants: seq<string>, m: Module) {
    var c := env.controller;
    match m
    case TenantDiscovery => Wildcard(env.configured) ==> Found(env, run).Some?
    case Cluster => On(env, m) ==> c.ownRows(run, m).Some?
    case ClusterInventory => On(env, m) ==> c.ownRows(run, m).Some?
    case ControllerMetrics => On(env, m) ==> c.ownRows(run, m).Some?
    case SEConfig => On(env, m) ==> c.ownRows(run, m).Some?
    case SEMetrics => On(env, m) ==> c.ownRows(run, m).Some?
    case SEList => On(env, SEInventory) ==> c.ownRows(run, SEList).Some?
    case AdminVSMetrics => ShouldCollectAdmin(env, tenants) ==> c.ownRows(run, AdminVSMetrics).Some?
    case _ => true
  }

  // ---- a module succeeds exactly if its answers are there ----

  /** A tenant's module at its stage, with what this refresh has fetched: it succeeds exactly if it is
      answered, which for a module with a gauge group is if the group can be rendered; it then writes this
      rendering under the tenant's label, and otherwise nothing. */
  lemma TenantModuleExactly(env: Env, run: nat, a: Agent, m: Module)
    requires a.owner != "" && FromThisRun(env, run, a) && StageOf(a) == Run(m) && a.mid.None? && Attempts(env, m, a.local)
    ensures var o := Execute(env, run, a.owner, m, a.local);
            && (o.ok <==> TenantAnswered(env, run, a.owner, m))
            && match GroupOf(m)
               case None => o.write == NoWrite
               case Some(g) =>
                 && (o.ok <==> TenantRendering(env, run, g, a.owner).Some?)
                 && o.write == if o.ok then WriteSlice(g, a.owner, TenantRendering(env, run, g, a.owner).value) else NoWrite
  {
    hide Topology.TopologyRows, Enrichment.EnrichedInventory, Discovered, Found, NeedVsVip, MainFromThisRun, GlobalRendering, MainStage;
    if m.Topology? {
      hide Execute, TenantAnswered, TenantRendering, FromThisRun, GroupOf;
      TopologyModuleExactly(env, run, a);
    } else {
      hide On, NeedVS, NeedPools, VsVipsOf;
      VsVipsAnswered(env, run, a.owner);
    }
  }

  lemma VsVipsAnswered(env: Env, run: nat, t: string)
    ensures VsVipsOf(env, run, t).Some? <==> env.controller.vsvipList(run, t).Some?
  {
    hide Enrichment.EnrichedInventory;
  }

  lemma TopologyModuleExactly(env: Env, run: nat, a: Agent)
    requires a.owner != "" && FromThisRun(env, run, a) && StageOf(a) == Run(Module.Topology) && Attempts(env, Module.Topology, a.local)
    ensures var o := Execute(env, run, a.owner, Module.Topology, a.local);
            && GroupOf(Module.Topology) == Some(GTopology)
            && (o.ok <==> TenantAnswered(env, run, a.owner, Module.Topology))
            && (o.ok <==> TenantRendering(env, run, GTopology, a.owner).Some?)
            && o.write == if o.ok then WriteSlice(GTopology, a.owner, TenantRendering(env, run, GTopology, a.owner).value) else NoWrite
  {
    OptionalAnswers(env, run, a.owner);
    TopologyNeeds(env);
    hide VSOf, PoolsOf, VsVipsOf, MembersOf, GroupsOf, Topology.TopologyRows, MainFromThisRun, NeedVS, NeedPools, NeedVsVip;
  }

  lemma TopologyNeeds(env: Env)
    ensures On(env, Module.Topology) ==> NeedVS(env) && NeedPools(env) && NeedVsVip(env)
  {
  }

  /** A module of the main agent at its stage: the same with its controller-wide group, the raw analytics of
      admin, or the tenant list. */
  lemma MainModuleExactly(env: Env, run: nat, a: Agent, m: Module)
    requires a.owner == "" && FromThisRun(env, run, a) && StageOf(a) == Run(m) && a.mid.None? && Attempts(env, m, a.local)
    ensures var o := Execute(env, run, a.owner, m, a.local);
            && (o.ok <==> MainAnswered(env, run, a.local.tenants, m))
            && (!o.ok ==> o.write == NoWrite)
            && (o.ok ==>
                  if m == TenantDiscovery then o.write == WriteTenants(Discovered(env.configured, Found(env, run).value))
                  else if m == SEList then o.write == NoWrite
                  else if m == AdminVSMetrics then o.write == WriteRaw(env.controller.ownRows(run, AdminVSMetrics).value)
                  else
                    && GroupOf(m).Some? && GlobalRendering(env, run, GroupOf(m).value).Some?
                    && o.write == WriteGlobal(GroupOf(m).value, GlobalRendering(env, run, GroupOf(m).value).value))
            && (GroupOf(m).Some? && m != AdminVSMetrics ==> (o.ok <==> GlobalRendering(env, run, GroupOf(m).value).Some?))
  {
    hide Topology.TopologyRows, Enrichment.EnrichedInventory, Discovered, Found, Wildcard, ShouldCollectAdmin, TenantFromThisRun,
      TenantRendering, TenantAnswered, TenantStage, KeyFor;
    if m == SEInventory {
      hide Execute, MainAnswered, GlobalRendering, FromThisRun, GroupOf, Attempts;
      EnginesModuleExactly(env, run, a);
    } else {
      hide FromThisRun, MainStage;
      MainStageModules(a);
    }
  }

  lemma MainStageModules(a: Agent)
    requires a.owner == ""
    ensures StageOf(a).Run? ==>
              StageOf(a).m in {TenantDiscovery, Cluster, ClusterInventory, ControllerMetrics, SEConfig, SEList, SEInventory, SEMetrics, AdminVSMetrics}
  {
  }

  /** The service engines are drawn from the list fetched just before. */
  lemma EnginesModuleExactly(env: Env, run: nat, a: Agent)
    requires a.owner == "" && FromThisRun(env, run, a) && StageOf(a) == Run(SEInventory) && Attempts(env, SEInventory, a.local)
    ensures var o := Execute(env, run, a.owner, SEInventory, a.local);
            && GroupOf(SEInventory) == Some(GSEInventory) && MainAnswered(env, run, a.local.tenants, SEInventory)
            && o.ok && GlobalRendering(env, run, GSEInventory).Some?
            && o.write == WriteGlobal(GSEInventory, GlobalRendering(env, run, GSEInventory).value)
  {
    hide Discovered, Found, Wildcard, TenantFromThisRun;
  }

  /** A module that is not attempted asks for nothing. */
  lemma NotAttemptedIsAnswered(env: Env, run: nat, a: Agent, m: Module)
    requires FromThisRun(env, run, a) && StageOf(a) == Run(m) && a.mid.None? && !Attempts(env, m, a.local)
    ensures if a.owner == "" then MainAnswered(env, run, a.local.tenants, m) else TenantAnswered(env, run, a.owner, m)
  {
    hide Enrichment.EnrichedInventory, Discovered, Found, Wildcard, ShouldCollectAdmin;
  }

  // ---- the verdict ----

  ghost predicate StageAnswered(env: Env, run: nat, a: Agent, pc: nat) {
    match if a.owner == "" then MainStage(pc) else TenantStage(pc)
    case Run(m) => if a.owner == "" then MainAnswered(env, run, a.local.tenants, m) else TenantAnswered(env, run, a.owner, m)
    case _ => true
  }

  predicate Fine(a: Agent) {
    a.local.ok && (a.mid.Some? ==> a.mid.value.ok)
  }

  /** The agent has had no failure exactly if every stage that it is through with was answered. */
  ghost predicate VerdictExact(env: Env, run: nat, a: Agent) {
    Fine(a) <==> forall pc: nat :: Past(a, pc) ==> StageAnswered(env, run, a, pc)
  }

  /** The tenants are settled before raw analytics are in question. */
  lemma EarlierStagesAnswered(env: Env, run: nat, a: Agent, b: Agent, pc: nat)
    requires a.owner == b.owner && (a.local.tenants == b.local.tenants || pc != 9)
    ensures StageAnswered(env, run, a, pc) == StageAnswered(env, run, b, pc)
  {
    hide TenantAnswered, Found, On, ShouldCollectAdmin, Wildcard;
  }

  /** What a step makes of the agent's position and verdict. */
  lemma StepShape(env: Env, run: nat, a: Agent, cached: seq<string>, now: nat)
    requires FromThisRun(env, run, a) && (a.mid.Some? ==> StageOf(a).Run?)
    ensures var b := AgentNext(env, run, a, cached, now);
            && b.owner == a.owner
            && (b.local.tenants == a.local.tenants || (a.owner == "" && a.pc <= 1))
            && (if AgentDone(a) then b == a
                else if StageOf(a).Run? && a.mid.None? && Attempts(env, StageOf(a).m, a.local) then
                  b.pc == a.pc && b.local.ok == a.local.ok
                  && b.mid == Some(Mid(Execute(env, run, a.owner, StageOf(a).m, a.local).ok, now))
                else b.pc == a.pc + 1 && b.mid.None? && b.local.ok == Fine(a))
  {
    hide Execute, Attempts, Resolved, MainStage, TenantStage, KeyFor, FromThisRun;
    ResolvesAtOne(a);
    if StageOf(a).Run? {
      ExecuteKeeps(env, run, a, StageOf(a).m);
    }
  }

  lemma ResolvesAtOne(a: Agent)
    ensures StageOf(a).ResolveTenants? ==> a.owner == "" && a.pc == 1
  {
  }

  lemma ExecuteKeeps(env: Env, run: nat, a: Agent, m: Module)
    requires StageOf(a) == Run(m)
    ensures Execute(env, run, a.owner, m, a.local).local.ok == a.local.ok
    ensures Execute(env, run, a.owner, m, a.local).local.tenants == a.local.tenants || (a.owner == "" && a.pc <= 1)
  {
    hide Topology.TopologyRows, Enrichment.EnrichedInventory, Discovered, Found;
  }

  lemma VerdictStays(env: Env, run: nat, a: Agent, cached: seq<string>, now: nat)
    requires FromThisRun(env, run, a) && (a.mid.Some? ==> StageOf(a).Run?) && VerdictExact(env, run, a)
    ensures VerdictExact(env, run, AgentNext(env, run, a, cached, now))
  {
    hide FromThisRun, StageAnswered, AgentNext, Execute, Attempts, TenantAnswered, MainAnswered, StageOf;
    var b := AgentNext(env, run, a, cached, now);
    StepShape(env, run, a, cached, now);
    if a.mid.None? {
      CurrentAnswered(env, run, a);
    }
    forall pc: nat | Past(b, pc) ensures StageAnswered(env, run, b, pc) == StageAnswered(env, run, a, pc) {
      PastNine(env, run, a, b, pc);
    }
    assert !AgentDone(a) ==> forall pc: nat :: Past(b, pc) <==> Past(a, pc) || pc == a.pc;
  }

  lemma PastNine(env: Env, run: nat, a: Agent, b: Agent, pc: nat)
    requires a.owner == b.owner && Past(b, pc) && b.pc <= a.pc + 1
    requires b.local.tenants == a.local.tenants || (a.owner == "" && a.pc <= 1)
    ensures StageAnswered(env, run, b, pc) == StageAnswered(env, run, a, pc)
  {
    hide StageAnswered;
    EarlierStagesAnswered(env, run, a, b, pc);
  }

  /** How the stage that the agent stands at fares. */
  lemma CurrentAnswered(env: Env, run: nat, a: Agent)
    requires FromThisRun(env, run, a) && a.mid.None?
    ensures if StageOf(a).Run? && Attempts(env, StageOf(a).m, a.local) then
              Execute(env, run, a.owner, StageOf(a).m, a.local).ok == StageAnswered(env, run, a, a.pc)
            else StageAnswered(env, run, a, a.pc)
  {
    hide FromThisRun, Execute, Attempts, TenantAnswered, MainAnswered, MainStage, TenantStage;
    if StageOf(a).Run? {
      var m := StageOf(a).m;
      if !Attempts(env, m, a.local) {
        NotAttemptedIsAnswered(env, run, a, m);
      } else if a.owner == "" {
        MainModuleExactly(env, run, a, m);
      } else {
        TenantModuleExactly(env, run, a, m);
      }
    }
  }

  // ---- what is shown of this refresh ----

  /** If the module has a group of the tenant's and what it needs is there, the group's last source is this
      refresh, and no raw analytics came after it. */
  ghost predicate StageWrote(env: Env, l: Ledger, run: nat, t: string, m: Module) {
    match GroupOf(m)
    case None => true
    case Some(g) =>
      On(env, m) && TenantRendering(env, run, g, t).Some? ==>
        && SliceName(g, t) in l.slices && l.slices[SliceName(g, t)] == FromTenant(run)
        && (g == GVSAnalytics ==> Since(l, Some(t)) == |l.raws|)
  }

  ghost predicate TenantWrote(env: Env, l: Ledger, run: nat, a: Agent) {
    forall pc: nat :: Past(a, pc) && TenantStage(pc).Run? ==> StageWrote(env, l, run, a.owner, TenantStage(pc).m)
  }

  ghost predicate UpShown(c: CacheState, a: Agent) {
    AgentDone(a) ==> a.owner in c.up && c.up[a.owner] == a.local.ok
  }

  /** The same for the main agent: its groups were reset in this refresh and no tenant dropped since, and
      the raw analytics are those of this refresh. */
  ghost predicate GlobalWrote(env: Env, l: Ledger, run: nat, tenants: seq<string>, m: Module) {
    if m == AdminVSMetrics then
      ShouldCollectAdmin(env, tenants) && env.controller.ownRows(run, AdminVSMetrics).Some? ==>
        && SliceName(GVSAnalytics, "admin") in l.slices
        && l.slices[SliceName(GVSAnalytics, "admin")] == FromAdmin(run)
    else
      GroupOf(m).Some? && On(env, m) && GlobalRendering(env, run, GroupOf(m).value).Some? ==>
        && GroupOf(m).value in l.globals
        && l.globals[GroupOf(m).value] == GlobalSource(run, {})
  }

  ghost predicate MainWrote(env: Env, l: Ledger, run: nat, a: Agent) {
    forall pc: nat :: Past(a, pc) && MainStage(pc).Run? ==> GlobalWrote(env, l, run, a.local.tenants, MainStage(pc).m)
  }

  ghost predicate WorkerShown(env: Env, run: nat, c: CacheState, l: Ledger, a: Agent) {
    VerdictExact(env, run, a) && TenantWrote(env, l, run, a) && UpShown(c, a)
  }

  // ---- a tenant's step ----

  /** The tenant's write does not touch what another module has written, for it or for another. */
  lemma WroteStays(env: Env, l: Ledger, c: CacheState, e: Effect, run: nat, owner: string, t: string, m: Module)
    requires StageWrote(env, l, run, t, m)
    requires e.Writes? ==> e.write.NoWrite? || (e.write.WriteSlice? && e.write.tenant == owner)
    ensures StageWrote(env, LedgerEffect(l, c, e, run), run, t, m)
  {
    hide GroupOf, TenantRendering, On;
  }

  lemma SliceWrites(env: Env, l: Ledger, c: CacheState, run: nat, t: string, m: Module, rows: Rows)
    requires GroupOf(m).Some?
    ensures StageWrote(env, LedgerEffect(l, c, Writes(WriteSlice(GroupOf(m).value, t, rows)), run), run, t, m)
  {
    hide GroupOf, TenantRendering, On;
  }

  /** A module that is off, or whose list is missing, has nothing to show. */
  lemma UnattemptedWroteNothing(env: Env, l: Ledger, run: nat, a: Agent, m: Module)
    requires a.owner != "" && FromThisRun(env, run, a) && StageOf(a) == Run(m) && a.mid.None? && !Attempts(env, m, a.local)
    ensures StageWrote(env, l, run, a.owner, m)
  {
    hide Enrichment.EnrichedInventory, Topology.TopologyRows;
  }

  lemma CurrentWrote(env: Env, l: Ledger, c: CacheState, run: nat, a: Agent, m: Module)
    requires a.owner != "" && FromThisRun(env, run, a) && StageOf(a) == Run(m) && a.mid.None?
    ensures StageWrote(env, LedgerEffect(l, c, AgentEffect(env, run, a, c.tenants), run), run, a.owner, m)
  {
    hide FromThisRun, Execute, Attempts, TenantRendering, TenantAnswered, GroupOf, LedgerEffect, StageOf;
    if !Attempts(env, m, a.local) {
      UnattemptedWroteNothing(env, LedgerEffect(l, c, AgentEffect(env, run, a, c.tenants), run), run, a, m);
    } else {
      TenantModuleExactly(env, run, a, m);
      if GroupOf(m).Some? && Execute(env, run, a.owner, m, a.local).ok {
        SliceWrites(env, l, c, run, a.owner, m, TenantRendering(env, run, GroupOf(m).value, a.owner).value);
      }
    }
  }

  lemma TenantWroteStays(env: Env, run: nat, c: CacheState, l: Ledger, a: Agent, now: nat)
    requires a.owner != "" && FromThisRun(env, run, a) && (a.mid.Some? ==> StageOf(a).Run?) && TenantWrote(env, l, run, a)
    ensures var e := AgentEffect(env, run, a, c.tenants);
            TenantWrote(env, LedgerEffect(l, c, e, run), run, AgentNext(env, run, a, c.tenants, now))
  {
    hide FromThisRun, AgentEffect, AgentNext, Execute, Attempts, StageWrote, LedgerEffect, Rendering, PerTenant, TenantStage, MainStage;
    var e := AgentEffect(env, run, a, c.tenants);
    var b := AgentNext(env, run, a, c.tenants, now);
    StepShape(env, run, a, c.tenants, now);
    TenantWritesItsRendering(env, run, a, c.tenants);
    forall pc: nat | Past(b, pc) && TenantStage(pc).Run? ensures StageWrote(env, LedgerEffect(l, c, e, run), run, a.owner, TenantStage(pc).m) {
      if Past(a, pc) {
        WroteStays(env, l, c, e, run, a.owner, a.owner, TenantStage(pc).m);
      } else {
        assert pc == a.pc && a.mid.None?;
        CurrentWrote(env, l, c, run, a, TenantStage(pc).m);
      }
    }
  }

  lemma UpStays(env: Env, run: nat, c: CacheState, a: Agent, now: nat)
    requires a.owner != "" && FromThisRun(env, run, a) && (a.mid.Some? ==> StageOf(a).Run?) && UpShown(c, a)
    ensures UpShown(ApplyEffect(c, AgentEffect(env, run, a, c.tenants)), AgentNext(env, run, a, c.tenants, now))
  {
    var e := AgentEffect(env, run, a, c.tenants);
    LastStepPublishes(env, run, a, c.tenants, now);
    TenantWritesItsRendering(env, run, a, c.tenants);
    TenantsAfter(c, e);
    hide FromThisRun, AgentEffect, AgentNext, ApplyEffect, Rendering, PerTenant, AgentDone;
  }

  lemma LastStepPublishes(env: Env, run: nat, a: Agent, cached: seq<string>, now: nat)
    requires a.owner != "" && (a.mid.Some? ==> StageOf(a).Run?)
    ensures var e, b := AgentEffect(env, run, a, cached), AgentNext(env, run, a, cached, now);
            && b.owner == a.owner
            && (AgentDone(b) ==> if AgentDone(a) then b == a && e.Nothing? else e == PublishesUp(a.owner, b.local.ok))
  {
    hide Execute, Attempts, Resolved, KeyFor;
  }

  lemma WorkerStepShows(env: Env, run: nat, c: CacheState, l: Ledger, a: Agent, now: nat)
    requires a.owner != "" && FromThisRun(env, run, a) && (a.mid.Some? ==> StageOf(a).Run?) && WorkerShown(env, run, c, l, a)
    ensures var e := AgentEffect(env, run, a, c.tenants);
            WorkerShown(env, run, ApplyEffect(c, e), LedgerEffect(l, c, e, run), AgentNext(env, run, a, c.tenants, now))
  {
    hide FromThisRun, StageOf, AgentEffect, AgentNext, ApplyEffect, LedgerEffect, VerdictExact, TenantWrote, UpShown;
    VerdictStays(env, run, a, c.tenants, now);
    TenantWroteStays(env, run, c, l, a, now);
    UpStays(env, run, c, a, now);
  }

  lemma OtherStaysShown(env: Env, run: nat, c: CacheState, l: Ledger, a: Agent, b: Agent)
    requires a.owner != "" && b.owner != "" && a.owner != b.owner && FromThisRun(env, run, a) && WorkerShown(env, run, c, l, b)
    ensures var e := AgentEffect(env, run, a, c.tenants);
            WorkerShown(env, run, ApplyEffect(c, e), LedgerEffect(l, c, e, run), b)
  {
    hide FromThisRun, AgentEffect, ApplyEffect, LedgerEffect, VerdictExact, Rendering, PerTenant, StageWrote, TenantStage, AgentDone;
    var e := AgentEffect(env, run, a, c.tenants);
    TenantWritesItsRendering(env, run, a, c.tenants);
    TenantsAfter(c, e);
    forall pc: nat | Past(b, pc) && TenantStage(pc).Run? ensures StageWrote(env, LedgerEffect(l, c, e, run), run, b.owner, TenantStage(pc).m) {
      WroteStays(env, l, c, e, run, a.owner, b.owner, TenantStage(pc).m);
    }
  }

  /** A tenant's write leaves the main agent's alone: raw analytics are admin's only while admin is not
      listed. */
  lemma MainStaysShown(env: Env, run: nat, c: CacheState, l: Ledger, a: Agent, b: Agent)
    requires a.owner != "" && b.owner == "" && FromThisRun(env, run, a) && a.owner in b.local.tenants && MainWrote(env, l, run, b)
    ensures MainWrote(env, LedgerEffect(l, c, AgentEffect(env, run, a, c.tenants), run), run, b)
  {
    hide FromThisRun, AgentEffect, LedgerEffect, Rendering, PerTenant, GlobalWrote, MainStage;
    var e := AgentEffect(env, run, a, c.tenants);
    TenantWritesItsRendering(env, run, a, c.tenants);
    forall pc: nat | Past(b, pc) && MainStage(pc).Run? ensures GlobalWrote(env, LedgerEffect(l, c, e, run), run, b.local.tenants, MainStage(pc).m) {
      GlobalStays(env, l, c, e, run, a.owner, b.local.tenants, MainStage(pc).m);
    }
  }

  lemma GlobalStays(env: Env, l: Ledger, c: CacheState, e: Effect, run: nat, owner: string, tenants: seq<string>, m: Module)
    requires GlobalWrote(env, l, run, tenants, m) && owner in tenants
    requires e.Writes? ==> e.write.NoWrite? || (e.write.WriteSlice? && e.write.tenant == owner)
    ensures GlobalWrote(env, LedgerEffect(l, c, e, run), run, tenants, m)
  {
    hide GroupOf, GlobalRendering, On, Wildcard;
  }

  // ---- the main agent's step ----

  lemma GlobalKept(env: Env, l: Ledger, c: CacheState, w: Write, run: nat, tenants: seq<string>, m: Module)
    requires GlobalWrote(env, l, run, tenants, m)
    requires w.WriteSlice? ==> w.tenant != "admin"
    requires w.WriteTenants? ==> GroupOf(m).None?
    ensures GlobalWrote(env, LedgerWrite(l, c, w, run), run, tenants, m)
  {
    hide GlobalRendering, On, ShouldCollectAdmin, Dropped;
  }

  lemma GlobalWrites(env: Env, l: Ledger, c: CacheState, run: nat, tenants: seq<string>, m: Module, w: Write)
    requires if m == AdminVSMetrics then w.WriteRaw? else GroupOf(m).Some? ==> w.WriteGlobal? && w.group == GroupOf(m).value
    ensures GlobalWrote(env, LedgerWrite(l, c, w, run), run, tenants, m)
  {
    hide GroupOf, GlobalRendering, On, ShouldCollectAdmin, Dropped;
  }

  lemma UnattemptedGlobal(env: Env, l: Ledger, run: nat, a: Agent, m: Module)
    requires a.owner == "" && FromThisRun(env, run, a) && StageOf(a) == Run(m) && a.mid.None? && !Attempts(env, m, a.local)
    ensures GlobalWrote(env, l, run, a.local.tenants, m)
  {
    hide ShouldCollectAdmin, Found, Discovered, Wildcard;
  }

  lemma FailedGlobal(env: Env, l: Ledger, run: nat, tenants: seq<string>, m: Module)
    requires !MainAnswered(env, run, tenants, m)
    requires GroupOf(m).Some? && m != AdminVSMetrics ==> GlobalRendering(env, run, GroupOf(m).value).None?
    ensures GlobalWrote(env, l, run, tenants, m)
  {
    hide ShouldCollectAdmin, Found, Wildcard;
  }

  lemma CurrentGlobal(env: Env, l: Ledger, c: CacheState, run: nat, a: Agent, m: Module)
    requires a.owner == "" && FromThisRun(env, run, a) && StageOf(a) == Run(m) && a.mid.None?
    ensures GlobalWrote(env, LedgerEffect(l, c, AgentEffect(env, run, a, c.tenants), run), run, a.local.tenants, m)
  {
    hide FromThisRun, Execute, Attempts, GlobalRendering, MainAnswered, LedgerWrite, MainStage, GlobalWrote, Discovered, Found;
    if !Attempts(env, m, a.local) {
      UnattemptedGlobal(env, LedgerEffect(l, c, AgentEffect(env, run, a, c.tenants), run), run, a, m);
    } else {
      MainModuleExactly(env, run, a, m);
      var o := Execute(env, run, a.owner, m, a.local);
      if o.ok {
        GlobalWrites(env, l, c, run, a.local.tenants, m, o.write);
      } else {
        FailedGlobal(env, LedgerEffect(l, c, AgentEffect(env, run, a, c.tenants), run), run, a.local.tenants, m);
      }
    }
  }

  lemma LaterTenants(env: Env, l: Ledger, run: nat, before: seq<string>, after: seq<string>, pc: nat)
    requires MainStage(pc).Run? && pc != 9 && GlobalWrote(env, l, run, before, MainStage(pc).m)
    ensures GlobalWrote(env, l, run, after, MainStage(pc).m)
  {
    hide GlobalRendering, On;
  }

  /** The tenant list is only written at the first two stages, which have no group. */
  lemma TenantsAreWrittenFirst(env: Env, run: nat, a: Agent, cached: seq<string>)
    requires a.owner == "" && FromThisRun(env, run, a)
    ensures var e := AgentEffect(env, run, a, cached);
            && (e.Writes? && e.write.WriteTenants? ==> a.pc <= 1)
            && (e.Writes? ==> !e.write.WriteSlice?)
    ensures forall pc: nat :: pc <= 1 && MainStage(pc).Run? ==> GroupOf(MainStage(pc).m).None?
  {
    MainWritesItsRendering(env, run, a, cached);
    Coverage.EffectShape(env, run, a, cached);
    hide Execute, Attempts, Resolved, FromThisRun;
  }

  lemma MainWroteStays(env: Env, run: nat, c: CacheState, l: Ledger, a: Agent, now: nat)
    requires a.owner == "" && FromThisRun(env, run, a) && (a.mid.Some? ==> StageOf(a).Run?) && MainWrote(env, l, run, a)
    ensures var e := AgentEffect(env, run, a, c.tenants);
            MainWrote(env, LedgerEffect(l, c, e, run), run, AgentNext(env, run, a, c.tenants, now))
  {
    hide FromThisRun, AgentEffect, AgentNext, Execute, Attempts, GlobalWrote, MainStage, TenantStage, LedgerWrite, GroupOf;
    var e := AgentEffect(env, run, a, c.tenants);
    var b := AgentNext(env, run, a, c.tenants, now);
    StepShape(env, run, a, c.tenants, now);
    TenantsAreWrittenFirst(env, run, a, c.tenants);
    forall pc: nat | Past(b, pc) && MainStage(pc).Run?
      ensures GlobalWrote(env, LedgerEffect(l, c, e, run), run, b.local.tenants, MainStage(pc).m)
    {
      var m := MainStage(pc).m;
      if Past(a, pc) {
        if e.Writes? {
          GlobalKept(env, l, c, e.write, run, a.local.tenants, m);
        } else {
          SameSources(env, l, LedgerEffect(l, c, e, run), run, a.local.tenants, m);
        }
      } else {
        assert pc == a.pc && a.mid.None?;
        CurrentGlobal(env, l, c, run, a, m);
      }
      if b.local.tenants != a.local.tenants {
        LaterTenants(env, LedgerEffect(l, c, e, run), run, a.local.tenants, b.local.tenants, pc);
      }
    }
  }

  lemma SameSources(env: Env, l: Ledger, k: Ledger, run: nat, tenants: seq<string>, m: Module)
    requires GlobalWrote(env, l, run, tenants, m) && k.slices == l.slices && k.globals == l.globals
    ensures GlobalWrote(env, k, run, tenants, m)
  {
    hide GroupOf, GlobalRendering, On, ShouldCollectAdmin;
  }

  // ---- in every reachable state ----

  ghost predicate MainShown(env: Env, run: nat, l: Ledger, a: Agent) {
    VerdictExact(env, run, a) && MainWrote(env, l, run, a)
  }

  /** The main agent of a refresh whose tenants are under way. */
  ghost predicate FinishedMain(env: Env, run: nat, c: CacheState, a: Agent) {
    a.owner == "" && AgentDone(a) && a.mid.None? && FromThisRun(env, run, a) && a.local.tenants == c.tenants
  }

  ghost predicate PhaseShown(env: Env, s: Sys) {
    match s.phase
    case Idle => true
    case Main(a) => MainShown(env, s.run, s.ledger, a)
    case Fan(a, workers) =>
      && FinishedMain(env, s.run, s.cache, a) && MainShown(env, s.run, s.ledger, a)
      && forall t :: t in workers && workers[t].Active? ==> WorkerShown(env, s.run, s.cache, s.ledger, workers[t].agent)
  }

  lemma NewAgentShown(env: Env, run: nat, c: CacheState, l: Ledger, owner: string)
    ensures VerdictExact(env, run, NewAgent(env, owner)) && MainWrote(env, l, run, NewAgent(env, owner))
            && TenantWrote(env, l, run, NewAgent(env, owner)) && UpShown(c, NewAgent(env, owner))
  {
    hide FreshLocal, StageAnswered, StageWrote, GlobalWrote;
    assert FreshLocal(env).ok by { FreshIsOk(env); }
  }

  lemma FreshIsOk(env: Env)
    ensures FreshLocal(env).ok
  {
  }

  lemma MainStepShown(env: Env, s: Sys, e: Event)
    requires SysInv(env, s) && PhaseShown(env, s) && Enabled(env, s, e) && e.action.MainStep?
    ensures PhaseShown(env, Next(env, s, e))
  {
    var a := s.phase.main;
    assert a.owner == "" && FromThisRun(env, s.run, a) && (a.mid.Some? ==> StageOf(a).Run?) by {
      hide StoreInv, FromThisRun, TenantsKnown, StageOf, KeyFor;
    }
    hide SysInv, FromThisRun, StageOf, VerdictExact, MainWrote, AgentEffect, AgentNext, ApplyEffect, LedgerEffect, AgentDone;
    VerdictStays(env, s.run, a, s.cache.tenants, e.at);
    MainWroteStays(env, s.run, s.cache, s.ledger, a, e.at);
  }

  /** What the invariant says of a goroutine. */
  lemma WorkerFacts(env: Env, s: Sys, t: string)
    requires SysInv(env, s) && s.phase.Fan? && t in s.phase.workers && s.phase.workers[t].Active?
    ensures var a := s.phase.workers[t].agent;
            && a.owner == t && t != "" && t in s.cache.tenants && FromThisRun(env, s.run, a) && (a.mid.Some? ==> StageOf(a).Run?)
  {
    hide StoreInv, FromThisRun, StageOf, KeyFor, Holders, ExplicitListed;
    assert WorkerInv(env, s.run, s.cache, t, s.phase.workers[t], s.now);
    StoreAttempted(env, s.run, s.cache, s.ledger, s.now);
  }

  lemma WorkerStepShown(env: Env, s: Sys, e: Event)
    requires SysInv(env, s) && PhaseShown(env, s) && Enabled(env, s, e) && e.action.WorkerStep?
    ensures PhaseShown(env, Next(env, s, e))
  {
    hide SysInv, FromThisRun, StageOf, WorkerShown, MainWrote, VerdictExact, AgentEffect, AgentNext, ApplyEffect, LedgerEffect, AgentDone, Holders;
    var t := e.action.tenant;
    var a := s.phase.workers[t].agent;
    WorkerFacts(env, s, t);
    forall u | u in s.phase.workers && s.phase.workers[u].Active? && u != t
      ensures var b := s.phase.workers[u].agent; b.owner == u && u != ""
    {
      WorkerFacts(env, s, u);
    }
    WorkerKeepsList(env, s.run, s.cache, a);
    WorkerStepShows(env, s.run, s.cache, s.ledger, a, e.at);
    MainStaysShown(env, s.run, s.cache, s.ledger, a, s.phase.finished);
    var n := Next(env, s, e);
    forall u | u in n.phase.workers && n.phase.workers[u].Active?
      ensures WorkerShown(env, n.run, n.cache, n.ledger, n.phase.workers[u].agent)
    {
      if u != t {
        OtherStaysShown(env, s.run, s.cache, s.ledger, a, s.phase.workers[u].agent);
      }
    }
  }

  lemma WorkerKeepsList(env: Env, run: nat, c: CacheState, a: Agent)
    requires a.owner != "" && FromThisRun(env, run, a)
    ensures ApplyEffect(c, AgentEffect(env, run, a, c.tenants)).tenants == c.tenants
  {
    TenantWritesItsRendering(env, run, a, c.tenants);
    TenantsAfter(c, AgentEffect(env, run, a, c.tenants));
    hide FromThisRun, AgentEffect, Rendering, ApplyEffect, PerTenant;
  }

  lemma SpawnShown(env: Env, s: Sys, e: Event)
    requires SysInv(env, s) && PhaseShown(env, s) && Enabled(env, s, e) && e.action.Spawn?
    ensures PhaseShown(env, Next(env, s, e))
  {
    var a := s.phase.main;
    assert a.owner == "" && FromThisRun(env, s.run, a) && (a.mid.Some? ==> StageOf(a).Run?) && TenantsKnown(env, s.cache, a) by {
      hide StoreInv, FromThisRun, TenantsKnown, StageOf, KeyFor;
    }
    hide SysInv, FromThisRun, VerdictExact, MainWrote, ExplicitListed;
  }

  lemma OtherEventShown(env: Env, s: Sys, e: Event)
    requires SysInv(env, s) && PhaseShown(env, s) && Enabled(env, s, e)
    requires !e.action.MainStep? && !e.action.WorkerStep? && !e.action.Spawn?
    ensures PhaseShown(env, Next(env, s, e))
  {
    hide SysInv, FromThisRun, VerdictExact, MainWrote, TenantWrote, AgentDone, Holders, Clean, NewAgent, Observe;
    ObserveShape(s.cache, e.at);
    assert Observe(s.cache, e.at).up == s.cache.up by { ObserveKeepsUp(s.cache, e.at); }
    NewAgentShown(env, s.run, s.cache, s.ledger, "");
    if e.action.Admit? {
      NewAgentShown(env, s.run, s.cache, s.ledger, e.action.tenant);
    }
  }

  lemma ObserveKeepsUp(c: CacheState, at: int)
    ensures Observe(c, at).up == c.up
  {
  }

  lemma StepKeepsShown(env: Env, s: Sys, e: Event)
    requires SysInv(env, s) && PhaseShown(env, s) && Enabled(env, s, e)
    ensures PhaseShown(env, Next(env, s, e))
  {
    hide SysInv, PhaseShown, Next, Enabled;
    match e.action
    case MainStep => MainStepShown(env, s, e);
    case WorkerStep(_) => WorkerStepShown(env, s, e);
    case Spawn => SpawnShown(env, s, e);
    case _ => OtherEventShown(env, s, e);
  }

  lemma {:induction false} ReachesShown(env: Env, events: seq<Event>, s: Sys)
    requires Reaches(env, events, s)
    ensures PhaseShown(env, s)
  {
    hide SysInv, Next, Enabled;
    if events == [] {
      assert s == Initial();
    } else {
      hide PhaseShown;
      var n := |events| - 1;
      var before :| Reaches(env, events[..n], before) && Enabled(env, before, events[n]) && s == Next(env, before, events[n]);
      ReachesShown(env, events[..n], before);
      ReachesInv(env, events[..n], before);
      StepKeepsShown(env, before, events[n]);
    }
  }

  lemma ReachableShown(env: Env, s: Sys)
    requires Reachable(env, s)
    ensures PhaseShown(env, s) && SysInv(env, s)
  {
    hide PhaseShown, SysInv, Reaches;
    var events :| Reaches(env, events, s);
    ReachesShown(env, events, s);
    ReachesInv(env, events, s);
  }
}
