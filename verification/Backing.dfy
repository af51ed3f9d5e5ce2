/** A module that has succeeded is backed by its gauges: what a fresh module shows is the rendering of
    a successful fetch. */
module Backing {
  import opened Prelude
  import opened Series
  import opened Cache
  import opened Refresh
  import opened Snapshots
  import opened RefreshInvariants
  import opened ReachableStates
  import opened Guarantees
  import Topology
  import Enrichment
  import Tenants

  /** The gauge group a module replaces. */
  function GroupOf(m: Module): Option<Group> {
    match m
    case Cluster => Some(GClusterState)
    case ClusterInventory => Some(GClusterNodes)
    case ControllerMetrics => Some(GController)
    case SEConfig => Some(GSEIdentity)
    case SEInventory => Some(GSEInventory)
    case SEMetrics => Some(GSEAnalytics)
    case AdminVSMetrics => Some(GVSAnalytics)
    case VSInventory => Some(GVSInventory)
    case VSMetrics => Some(GVSAnalytics)
    case PoolInventory => Some(GPoolInventory)
    case PoolMetrics => Some(GPoolAnalytics)
    case PoolMembers => Some(GPoolMembers)
    case VsVip => Some(GVsVip)
    case PoolGroup => Some(GPoolGroup)
    case Gslb => Some(GGslb)
    case Topology => Some(GTopology)
    case _ => None
  }

  /** The module's group was last written in this refresh or a later one. */
  predicate KeyBacked(l: Ledger, k: ModuleKey, run: nat) {
    match GroupOf(k.name)
    case None => true
    case Some(g) =>
      if PerTenant(g) then SliceName(g, k.tenant) in l.slices && run <= l.slices[SliceName(g, k.tenant)].run
      else g in l.globals && run <= l.globals[g].run
  }

  ghost predicate SuccessBacked(l: Ledger, k: ModuleKey, run: nat) {
    k in l.successes && l.successes[k] <= run && KeyBacked(l, k, l.successes[k])
  }

  ghost predicate Backed(c: CacheState, l: Ledger, run: nat) {
    forall k :: k in c.states && c.states[k].lastSuccess.Some? ==> SuccessBacked(l, k, run)
  }

  /** A fetch that succeeded has written its group already. */
  ghost predicate AgentBacked(l: Ledger, a: Agent, run: nat) {
    a.mid.Some? && a.mid.value.ok && StageOf(a).Run? ==> KeyBacked(l, KeyFor(a.owner, StageOf(a).m), run)
  }

  lemma SuccessfulFetchWrites(env: Env, run: nat, a: Agent)
    requires StageOf(a).Run? && Execute(env, run, a.owner, StageOf(a).m, a.local).ok
    ensures var m := StageOf(a).m;
            GroupOf(m).Some? ==>
              match Execute(env, run, a.owner, m, a.local).write
              case WriteSlice(g, t, _) => GroupOf(m) == Some(g) && KeyFor(a.owner, m).tenant == t
              case WriteRaw(_) => GroupOf(m) == Some(GVSAnalytics) && KeyFor(a.owner, m).tenant == "admin"
              case WriteGlobal(g, _) => GroupOf(m) == Some(g) && !PerTenant(g)
              case _ => false
  {
    hide Topology.TopologyRows, Enrichment.EnrichedInventory, Tenants.Discovered, Found;
  }

  lemma WrittenIsBacked(l: Ledger, c: CacheState, w: Write, run: nat, k: ModuleKey)
    requires GroupOf(k.name).Some? ==>
               match w
               case WriteSlice(g, t, _) => GroupOf(k.name) == Some(g) && k.tenant == t
               case WriteRaw(_) => GroupOf(k.name) == Some(GVSAnalytics) && k.tenant == "admin"
               case WriteGlobal(g, _) => GroupOf(k.name) == Some(g) && !PerTenant(g)
               case _ => false
    requires w.WriteSlice? ==> PerTenant(w.group)
    ensures KeyBacked(LedgerWrite(l, c, w, run), k, run)
  {
    hide GroupOf;
  }

  lemma StepBacksAgent(env: Env, run: nat, c: CacheState, l: Ledger, a: Agent, now: nat)
    requires a.mid.Some? ==> StageOf(a).Run?
    ensures AgentBacked(LedgerEffect(l, c, AgentEffect(env, run, a, c.tenants), run), AgentNext(env, run, a, c.tenants, now), run)
  {
    if StageOf(a).Run? && a.mid.None? && Attempts(env, StageOf(a).m, a.local) {
      var m := StageOf(a).m;
      var o := Execute(env, run, a.owner, m, a.local);
      if o.ok {
        SuccessfulFetchWrites(env, run, a);
        SlicesArePerTenant(env, run, a);
        WrittenIsBacked(l, c, o.write, run, KeyFor(a.owner, m));
      }
    }
    hide Execute, KeyBacked, LedgerWrite, Attempts, Resolved, KeyFor;
  }

  lemma SlicesArePerTenant(env: Env, run: nat, a: Agent)
    requires StageOf(a).Run?
    ensures var w := Execute(env, run, a.owner, StageOf(a).m, a.local).write;
            w.WriteSlice? ==> PerTenant(w.group)
  {
    hide Topology.TopologyRows, Enrichment.EnrichedInventory, Tenants.Discovered, Found;
  }

  lemma KeyStaysBacked(l: Ledger, c: CacheState, e: Effect, run: nat, k: ModuleKey, since: nat)
    requires KeyBacked(l, k, since) && since <= run
    requires e.Writes? && e.write.WriteTenants? ==> k.tenant !in Dropped(c, e.write.next)
    ensures KeyBacked(LedgerEffect(l, c, e, run), k, since)
  {
    hide GroupOf, Dropped, PerTenant;
  }

  lemma EffectKeepsBacked(env: Env, run: nat, c: CacheState, l: Ledger, a: Agent)
    requires Backed(c, l, run) && AgentBacked(l, a, run)
    ensures var e := AgentEffect(env, run, a, c.tenants);
            Backed(ApplyEffect(c, e), LedgerEffect(l, c, e, run), run)
  {
    hide ApplyEffect, LedgerEffect, AgentEffect, KeyBacked, KeyFor, StageOf, Dropped;
    var e := AgentEffect(env, run, a, c.tenants);
    var d := ApplyEffect(c, e);
    BookingIsOwn(env, run, a, c.tenants);
    forall k | k in d.states && d.states[k].lastSuccess.Some? ensures SuccessBacked(LedgerEffect(l, c, e, run), k, run) {
      SuccessBefore(c, e, k);
      SuccessesAfter(l, c, e, run, k);
      if e.Books? && e.ok && e.key == k {
        KeyStaysBacked(l, c, e, run, k, run);
      } else {
        assert SuccessBacked(l, k, run);
        KeyStaysBacked(l, c, e, run, k, l.successes[k]);
      }
    }
  }

  /** A module that has succeeded has just booked it, or had already and was kept. */
  lemma SuccessBefore(c: CacheState, e: Effect, k: ModuleKey)
    requires k in ApplyEffect(c, e).states && ApplyEffect(c, e).states[k].lastSuccess.Some?
    ensures !(e.Books? && e.ok && e.key == k) ==> k in c.states && c.states[k].lastSuccess.Some?
    ensures e.Writes? && e.write.WriteTenants? ==> k.tenant !in Dropped(c, e.write.next)
  {
    StatesAfter(c, e, k);
    hide ApplyEffect, Dropped, PolicyFor;
  }

  lemma SuccessesAfter(l: Ledger, c: CacheState, e: Effect, run: nat, k: ModuleKey)
    ensures var m := LedgerEffect(l, c, e, run);
            if e.Books? && e.ok && e.key == k then k in m.successes && m.successes[k] == run
            else k in l.successes ==> k in m.successes && m.successes[k] == l.successes[k]
  {
    hide Dropped;
  }

  lemma BookingIsOwn(env: Env, run: nat, a: Agent, cached: seq<string>)
    ensures var e := AgentEffect(env, run, a, cached);
            e.Books? ==> StageOf(a).Run? && a.mid.Some? && e.ok == a.mid.value.ok && e.key == KeyFor(a.owner, StageOf(a).m)
  {
    hide Execute, Attempts, KeyFor, Resolved;
  }

  ghost predicate PhaseBacked(s: Sys) {
    match s.phase
    case Idle => true
    case Main(a) => AgentBacked(s.ledger, a, s.run)
    case Fan(_, workers) => forall t :: t in workers && workers[t].Active? ==> AgentBacked(s.ledger, workers[t].agent, s.run)
  }

  ghost predicate SysBacked(s: Sys) {
    Backed(s.cache, s.ledger, s.run) && PhaseBacked(s)
  }

  lemma AgentStepKeepsBacked(env: Env, s: Sys, e: Event, a: Agent)
    requires SysInv(env, s) && SysBacked(s)
    requires match e.action
             case MainStep => s.phase.Main? && a == s.phase.main
             case WorkerStep(t) => s.phase.Fan? && t in s.phase.workers && s.phase.workers[t] == Active(a)
             case _ => false
    ensures var f := AgentEffect(env, s.run, a, s.cache.tenants);
            && Backed(ApplyEffect(s.cache, f), LedgerEffect(s.ledger, s.cache, f, s.run), s.run)
            && AgentBacked(LedgerEffect(s.ledger, s.cache, f, s.run), AgentNext(env, s.run, a, s.cache.tenants, e.at), s.run)
  {
    assert a.mid.Some? ==> StageOf(a).Run? by {
      hide FromThisRun, StoreInv, StageOf, KeyFor;
      if e.action.WorkerStep? {
        assert WorkerInv(env, s.run, s.cache, e.action.tenant, s.phase.workers[e.action.tenant], s.now);
      }
    }
    hide SysInv, StageOf, Backed, AgentBacked, AgentEffect, AgentNext, ApplyEffect, LedgerEffect;
    EffectKeepsBacked(env, s.run, s.cache, s.ledger, a);
    StepBacksAgent(env, s.run, s.cache, s.ledger, a, e.at);
  }

  lemma OtherStaysBacked(env: Env, run: nat, c: CacheState, l: Ledger, a: Agent, b: Agent)
    requires a.owner != "" && FromThisRun(env, run, a) && AgentBacked(l, b, run)
    ensures AgentBacked(LedgerEffect(l, c, AgentEffect(env, run, a, c.tenants), run), b, run)
  {
    TenantWritesItsRendering(env, run, a, c.tenants);
    hide FromThisRun, AgentEffect, LedgerEffect, KeyBacked, KeyFor, StageOf, Rendering, PerTenant;
    if b.mid.Some? && b.mid.value.ok && StageOf(b).Run? {
      KeyStaysBacked(l, c, AgentEffect(env, run, a, c.tenants), run, KeyFor(b.owner, StageOf(b).m), run);
    }
  }

  lemma WorkerStepKeepsBacked(env: Env, s: Sys, e: Event)
    requires SysInv(env, s) && SysBacked(s) && Enabled(env, s, e) && e.action.WorkerStep?
    ensures SysBacked(Next(env, s, e))
  {
    hide AgentBacked, Backed, AgentEffect, AgentNext, ApplyEffect, LedgerEffect, StoreInv, AgentDone, Holders, AgentInv;
    var t := e.action.tenant;
    var a := s.phase.workers[t].agent;
    AgentStepKeepsBacked(env, s, e, a);
    assert WorkerInv(env, s.run, s.cache, t, s.phase.workers[t], s.now);
    AgentFromThisRun(env, s.run, s.cache, a, s.now);
    assert a.owner != "" by { WorkerIsNamed(env, s, t); }
    var n := Next(env, s, e);
    forall u | u in n.phase.workers && n.phase.workers[u].Active? ensures AgentBacked(n.ledger, n.phase.workers[u].agent, n.run) {
      if u != t {
        OtherStaysBacked(env, s.run, s.cache, s.ledger, a, s.phase.workers[u].agent);
      }
    }
  }

  lemma WorkerIsNamed(env: Env, s: Sys, t: string)
    requires SysInv(env, s) && s.phase.Fan? && t in s.phase.workers && s.phase.workers[t].Active?
    ensures s.phase.workers[t].agent.owner != ""
  {
    hide AgentInv, Resident, Agrees, CountersAgree, Sourced, Holders;
    assert WorkerInv(env, s.run, s.cache, t, s.phase.workers[t], s.now);
  }

  lemma StepKeepsBacked(env: Env, s: Sys, e: Event)
    requires SysInv(env, s) && SysBacked(s) && Enabled(env, s, e)
    ensures SysBacked(Next(env, s, e))
  {
    hide SysInv, AgentEffect, AgentNext, ApplyEffect, LedgerEffect, KeyBacked, StageOf, Holders, Clean;
    if e.action.WorkerStep? {
      WorkerStepKeepsBacked(env, s, e);
    } else {
      if e.action.MainStep? {
        AgentStepKeepsBacked(env, s, e, s.phase.main);
      }
      hide AgentDone;
    }
  }

  lemma {:induction false} ReachesBacked(env: Env, events: seq<Event>, s: Sys)
    requires Reaches(env, events, s)
    ensures SysBacked(s)
  {
    hide SysInv, SysBacked, Next, Enabled;
    if events == [] {
      assert SysBacked(Initial()) by { InitialBacked(); }
    } else {
      var n := |events| - 1;
      var before :| Reaches(env, events[..n], before) && Enabled(env, before, events[n]) && s == Next(env, before, events[n]);
      ReachesBacked(env, events[..n], before);
      ReachesInv(env, events[..n], before);
      StepKeepsBacked(env, before, events[n]);
    }
  }

  lemma InitialBacked()
    ensures SysBacked(Initial())
  {
  }

  /** Whenever a module that draws gauges has ever succeeded (as every required module has when the
      cache is ready), its group shows the rendering of a successful fetch, not leftovers, and of one no
      older than its last booked success: of the same refresh or of a later one. Only rows of raw admin
      analytics can be among them. */
  lemma SucceededModuleIsRendered(env: Env, s: Sys, k: ModuleKey, g: Group)
    requires Reachable(env, s)
    requires k in s.cache.states && s.cache.states[k].lastSuccess.Some? && GroupOf(k.name) == Some(g)
    ensures k in s.ledger.successes
    ensures PerTenant(g) ==>
              && SliceName(g, k.tenant) in s.ledger.slices
              && var source := s.ledger.slices[SliceName(g, k.tenant)];
                 && s.ledger.successes[k] <= source.run <= s.run
                 && Rendering(env, source, g, k.tenant).Some?
                 && forall r :: At(s.cache.gauges, SeriesKey(g, Some(k.tenant), r))
                                == Either(StrayRow(env, s.ledger, g, Some(k.tenant), r), RowAt(Rendering(env, source, g, k.tenant).value, r))
    ensures !PerTenant(g) ==>
              && g in s.ledger.globals
              && s.ledger.successes[k] <= s.ledger.globals[g].run <= s.run
              && GlobalRendering(env, s.ledger.globals[g].run, g).Some?
              && forall tenant, r :: At(s.cache.gauges, SeriesKey(g, tenant, r))
                                     == (if tenant.Some? && tenant.value in s.ledger.globals[g].dropped then None
                                         else OwnRowAt(GlobalRendering(env, s.ledger.globals[g].run, g).value, tenant, r))
  {
    hide GroupOf, PerTenant, Rendering, GlobalRendering, Reaches, Shows, StrayRow, StraysAgree;
    var events :| Reaches(env, events, s);
    ReachesBacked(env, events, s);
    hide Reachable;
    assert SuccessBacked(s.ledger, k, s.run);
    if PerTenant(g) {
      SliceIsOneSnapshot(env, s, g, k.tenant);
    } else {
      GlobalsAreGood(env, s);
      forall tenant, r {
        SeriesAreLastRendering(env, s, SeriesKey(g, tenant, r));
      }
      hide At;
    }
  }

  /** A controller-wide group still shows the whole of its last rendering exactly if none of the rows
      carries the label of a tenant dropped since. */
  lemma GroupIsIntactExactly(env: Env, s: Sys, g: Group)
    requires Reachable(env, s) && !PerTenant(g) && g in s.ledger.globals
    ensures GlobalRendering(env, s.ledger.globals[g].run, g).Some?
    ensures var rows := GlobalRendering(env, s.ledger.globals[g].run, g).value;
            (forall tenant, r :: At(s.cache.gauges, SeriesKey(g, tenant, r)) == OwnRowAt(rows, tenant, r))
            <==> forall l :: l in rows && l.tenant.Some? ==> l.tenant.value !in s.ledger.globals[g].dropped
  {
    hide Reachable, PerTenant, GlobalRendering;
    GlobalsAreGood(env, s);
    var rows, dropped := GlobalRendering(env, s.ledger.globals[g].run, g).value, s.ledger.globals[g].dropped;
    forall tenant: Option<string>, r
      ensures At(s.cache.gauges, SeriesKey(g, tenant, r))
              == if tenant.Some? && tenant.value in dropped then None else OwnRowAt(rows, tenant, r)
    {
      SeriesAreLastRendering(env, s, SeriesKey(g, tenant, r));
    }
    hide At;
    if l: TenantLabel :| l in rows && l.tenant.Some? && l.tenant.value in dropped {
      assert OwnRowAt(rows, l.tenant, l.row).Some?;
      assert At(s.cache.gauges, SeriesKey(g, l.tenant, l.row)) == None;
    }
  }

  lemma GlobalsAreGood(env: Env, s: Sys)
    requires Reachable(env, s)
    ensures forall g :: g in s.ledger.globals ==> GoodGlobal(env, s.run, g, s.ledger.globals[g].run)
  {
    hide Reachable, GoodSlice, CountersAgree, Resident, Agrees, GoodTenants, GoodGlobal, Attempted;
    ReachableStore(env, s);
  }
}
