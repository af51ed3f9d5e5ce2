/** The background scheduler (collector/cache.go, schedulerLoop): when refreshes start, and how old a
    cached module can get. */
module Scheduler {
  import opened Prelude
  import opened Series
  import opened Tenants
  import opened Cache
  import opened Refresh
  import opened Snapshots
  import opened RefreshInvariants
  import opened ReachableStates
  import opened Guarantees
  import opened Readiness
  import opened Coverage
  import opened CleanRefresh
  import Topology
  import Enrichment

  const INTERVAL: nat := 2 * MINUTE
  const TIMEOUT: nat := 120 * SECOND

  /** `tick` is the ticker's next expiry, once it exists; `buffered` is its channel of capacity one. */
  datatype Timed = Timed(sys: Sys, clock: nat, tick: Option<nat>, buffered: bool)

  datatype TimedEvent = Tick | Act(event: Event)

  /** Time may pass up to here without another event: ticks come on time, a refresh ends within its
      timeout, and the loop starts a refresh as soon as it waits and a tick is there. The first refresh
      needs no tick. */
  predicate MayReach(st: Timed, at: nat) {
    && st.clock <= at
    && (st.tick.Some? ==> at <= st.tick.value)
    && (!st.sys.phase.Idle? ==> at <= st.sys.started + TIMEOUT)
    && (st.sys.phase.Idle? && (st.buffered || st.tick.None?) ==> at == st.clock)
  }

  predicate TimedEnabled(env: Env, st: Timed, te: TimedEvent) {
    match te
    case Tick => st.tick.Some? && MayReach(st, st.tick.value)
    case Act(e) => MayReach(st, e.at) && Enabled(env, st.sys, e) && (e.action.Start? ==> st.buffered || st.tick.None?)
  }

  /** The ticker is created when the first refresh has ended; a tick that finds the channel full is
      dropped. */
  function TimedNext(env: Env, st: Timed, te: TimedEvent): Timed
    requires TimedEnabled(env, st, te)
  {
    match te
    case Tick => st.(clock := st.tick.value, tick := Some(st.tick.value + INTERVAL), buffered := true)
    case Act(e) =>
      Timed(Next(env, st.sys, e),
            e.at,
            if e.action.Finish? && st.tick.None? then Some(e.at + INTERVAL) else st.tick,
            st.buffered && !e.action.Start?)
  }

  /** Refreshes end without errors, and the tenant set stays as the first refresh found it. */
  ghost predicate Steady(env: Env, st: Timed, te: TimedEvent)
    requires TimedEnabled(env, st, te)
  {
    && (te.Act? && te.event.action.Finish? ==> CleanEnd(st.sys))
    && (st.sys.run >= 1 ==> TimedNext(env, st, te).sys.cache.tenants == st.sys.cache.tenants)
  }

  const START := Timed(Initial(), 0, None, false)

  ghost predicate SteadilyReaches(env: Env, events: seq<TimedEvent>, st: Timed) {
    if events == [] then st == START
    else
      var n := |events| - 1;
      exists before ::
        && SteadilyReaches(env, events[..n], before)
        && TimedEnabled(env, before, events[n]) && Steady(env, before, events[n])
        && st == TimedNext(env, before, events[n])
  }

  // ---- the clock ----

  /** How long after the start of one refresh the next one starts at the latest. */
  function Gap(run: nat): nat {
    if run == 1 then TIMEOUT + INTERVAL else if INTERVAL < TIMEOUT then TIMEOUT else INTERVAL
  }

  ghost predicate OnTime(st: Timed) {
    var s := st.sys;
    && s.now <= st.clock
    && s.started <= s.now
    && (s.run == 0 <==> st.tick.None?)
    && (s.run == 0 <==> s.last.None?)
    && (s.run == 0 ==> !st.buffered)
    && (st.tick.Some? ==> st.clock <= st.tick.value <= st.clock + INTERVAL)
    && (!s.phase.Idle? ==>
          && st.clock <= s.started + TIMEOUT
          && (s.run > 0 ==>
                && s.last.value.started <= s.started <= s.last.value.started + Gap(s.run)
                && (!st.buffered ==> st.tick.value <= s.started + INTERVAL)))
    && (s.phase.Idle? && s.run > 0 ==>
          && s.last.value.started <= st.clock
          && (if st.buffered then st.clock else st.tick.value) <= s.last.value.started + Gap(s.run))
  }

  /** What an event of the refresh protocol does to its clock. */
  lemma NextClock(env: Env, s: Sys, e: Event)
    requires Enabled(env, s, e)
    ensures var n := Next(env, s, e);
            && n.now == e.at
            && n.started == (if e.action.Start? then e.at else s.started)
            && n.run == (if e.action.Finish? then s.run + 1 else s.run)
            && (n.phase.Idle? <==> e.action.Finish? || (s.phase.Idle? && !e.action.Start?))
            && (if e.action.Finish? then n.last.Some? && n.last.value.started == s.started else n.last == s.last)
  {
    hide AgentDone, AgentNext, AgentEffect, ApplyEffect, LedgerEffect, Holders, NewAgent, Clean, Observe;
  }

  lemma StepOnTime(env: Env, st: Timed, te: TimedEvent)
    requires OnTime(st) && TimedEnabled(env, st, te)
    ensures OnTime(TimedNext(env, st, te))
  {
    if te.Act? {
      NextClock(env, st.sys, te.event);
      EnabledPhase(env, st.sys, te.event);
    }
    hide Next, Enabled;
  }

  lemma EnabledPhase(env: Env, s: Sys, e: Event)
    requires Enabled(env, s, e)
    ensures e.action.Finish? ==> !s.phase.Idle?
    ensures e.action.Start? ==> s.phase.Idle?
    ensures s.now <= e.at
  {
    hide AgentDone, Holders, WorkerFinished, InFlight;
  }

  lemma ReachableNext(env: Env, s: Sys, e: Event)
    requires Reachable(env, s) && Enabled(env, s, e)
    ensures Reachable(env, Next(env, s, e))
  {
    hide Next, Enabled;
    var events :| Reaches(env, events, s);
    var more := events + [e];
    assert more[..|more| - 1] == events;
    assert Reaches(env, more, Next(env, s, e));
  }

  lemma InitialReachable(env: Env)
    ensures Reachable(env, Initial())
  {
    assert Reaches(env, [], Initial());
  }

  // ---- every required module has succeeded since the last refresh started ----

  ghost predicate Held(env: Env, s: Sys) {
    s.last.Some? ==>
      forall k :: k in RequiredModuleKeys(env, s.cache.tenants) ==> SucceededSince(s.cache, k, s.last.value.started)
  }

  /** A success is not taken back while the tenants stay. */
  lemma SuccessRemains(c: CacheState, e: Effect, k: ModuleKey, started: nat)
    requires SucceededSince(c, k, started)
    requires ApplyEffect(c, e).tenants == c.tenants
    requires e.Books? ==> started <= e.finished
    ensures SucceededSince(ApplyEffect(c, e), k, started)
  {
    StatesAfter(c, e, k);
    TenantsAfter(c, e);
    assert Dropped(c, c.tenants) == {};
    hide ApplyEffect, PolicyFor, Dropped;
  }

  lemma AgentKeepsSuccess(env: Env, run: nat, c: CacheState, a: Agent, k: ModuleKey, since: nat, started: nat)
    requires SucceededSince(c, k, since) && since <= started && MidConceivable(env, a, started)
    requires a.owner != "" ==> FromThisRun(env, run, a)
    requires ApplyEffect(c, AgentEffect(env, run, a, c.tenants)).tenants == c.tenants
    ensures SucceededSince(ApplyEffect(c, AgentEffect(env, run, a, c.tenants)), k, since)
  {
    EffectShape(env, run, a, c.tenants);
    hide AgentEffect, ApplyEffect, FromThisRun, Conceivable, SucceededSince;
    SuccessRemains(c, AgentEffect(env, run, a, c.tenants), k, since);
  }

  /** The agent whose step it is. */
  predicate Steps(s: Sys, e: Event, a: Agent) {
    match e.action
    case MainStep => s.phase.Main? && s.phase.main == a
    case WorkerStep(t) => s.phase.Fan? && t in s.phase.workers && s.phase.workers[t] == Active(a)
    case _ => false
  }

  lemma SteppingAgent(env: Env, s: Sys, e: Event, a: Agent)
    requires SysInv(env, s) && CoverInv(env, s) && Steps(s, e, a)
    ensures MidConceivable(env, a, s.started) && FromThisRun(env, s.run, a)
    ensures e.action.MainStep? ==> a.owner == "" && TenantsKnown(env, s.cache, a)
    ensures e.action.WorkerStep? ==> a.owner == e.action.tenant && a.owner in s.cache.tenants && a.owner != ""
  {
    hide StoreInv, AgentInv, Covered, AgentDone, Holders, TenantsKnown;
    StoreAttempted(env, s.run, s.cache, s.ledger, s.now);
    if e.action.WorkerStep? {
      assert WorkerInv(env, s.run, s.cache, e.action.tenant, s.phase.workers[e.action.tenant], s.now);
    }
    CoveredMid(env, s.cache, a, s.started);
    AgentFromThisRun(env, s.run, s.cache, a, s.now);
  }

  /** The shared state after an event: an agent's effect, a scrape's, or the same. */
  lemma NextCache(env: Env, s: Sys, e: Event)
    requires Enabled(env, s, e)
    ensures var n := Next(env, s, e);
            match e.action
            case MainStep => n.cache == ApplyEffect(s.cache, AgentEffect(env, s.run, s.phase.main, s.cache.tenants))
            case WorkerStep(t) =>
              n.cache == ApplyEffect(s.cache, AgentEffect(env, s.run, s.phase.workers[t].agent, s.cache.tenants))
            case Scrape => n.cache == Observe(s.cache, e.at)
            case _ => n.cache == s.cache
  {
    hide AgentDone, AgentNext, AgentEffect, ApplyEffect, LedgerEffect, Holders, NewAgent, Clean, Observe;
  }

  lemma EventKeepsSuccess(env: Env, s: Sys, e: Event, k: ModuleKey, since: nat)
    requires SysInv(env, s) && CoverInv(env, s) && Enabled(env, s, e)
    requires SucceededSince(s.cache, k, since) && since <= s.started
    requires Next(env, s, e).cache.tenants == s.cache.tenants
    ensures SucceededSince(Next(env, s, e).cache, k, since)
  {
    NextCache(env, s, e);
    if e.action.MainStep? || e.action.WorkerStep? {
      var a := if e.action.MainStep? then s.phase.main else s.phase.workers[e.action.tenant].agent;
      assert Steps(s, e, a) by { hide SysInv, CoverInv, SucceededSince, Next; }
      hide Next, SysInv, CoverInv, SucceededSince, AgentEffect, ApplyEffect, FromThisRun, MidConceivable, Enabled;
      SteppingAgent(env, s, e, a);
      AgentKeepsSuccess(env, s.run, s.cache, a, k, since, s.started);
    } else {
      ObserveShape(s.cache, e.at);
      hide Next, SysInv, CoverInv, AgentEffect, ApplyEffect, Observe;
    }
  }

  // ---- the raw admin analytics fit the tenant set ----

  ghost predicate AdminFits(env: Env, c: CacheState) {
    ADMIN_KEY in c.states ==> ShouldCollectAdmin(env, c.tenants)
  }

  ghost predicate AdminMid(env: Env, a: Agent) {
    a.owner == "" && a.pc == 9 && a.mid.Some? ==> ShouldCollectAdmin(env, a.local.tenants)
  }

  /** In the first refresh nothing is known of admin before its turn comes. */
  ghost predicate AdminInv(env: Env, s: Sys) {
    && AdminFits(env, s.cache)
    && (s.phase.Main? ==> AdminMid(env, s.phase.main))
    && (s.run == 0 && (s.phase.Idle? || (s.phase.Main? && s.phase.main.pc < 10)) ==> ADMIN_KEY !in s.cache.states)
  }

  lemma StepKeepsAdminMid(env: Env, run: nat, a: Agent, cached: seq<string>, now: nat)
    requires AdminMid(env, a) && a.owner == ""
    ensures AdminMid(env, AgentNext(env, run, a, cached, now))
  {
    hide ShouldCollectAdmin, Topology.TopologyRows, Enrichment.EnrichedInventory, Discovered, Found, Resolved;
  }

  lemma AdminBooking(env: Env, run: nat, a: Agent, cached: seq<string>)
    requires AdminMid(env, a) && (a.owner != "" ==> FromThisRun(env, run, a))
    ensures var e := AgentEffect(env, run, a, cached);
            e.Books? && e.key == ADMIN_KEY ==> a.owner == "" && a.pc == 9 && a.mid.Some?
  {
    EffectShape(env, run, a, cached);
    hide AgentEffect, FromThisRun;
    if a.owner != "" && StageOf(a).Run? {
      TenantStagesAreTenants(a);
    }
  }

  lemma TenantStagesAreTenants(a: Agent)
    requires a.owner != "" && StageOf(a).Run?
    ensures StageOf(a).m != AdminVSMetrics && KeyFor(a.owner, StageOf(a).m).name == StageOf(a).m
  {
  }

  /** What the step's effect on the cache keeps. */
  lemma EffectKeepsAdmin(env: Env, run: nat, c: CacheState, a: Agent, now: nat)
    requires AdminFits(env, c) && AdminMid(env, a)
    requires if a.owner == "" then TenantsKnown(env, c, a) else FromThisRun(env, run, a)
    requires run == 0 && a.owner == "" && a.pc < 10 ==> ADMIN_KEY !in c.states
    requires run >= 1 ==> ApplyEffect(c, AgentEffect(env, run, a, c.tenants)).tenants == c.tenants
    ensures var d := ApplyEffect(c, AgentEffect(env, run, a, c.tenants));
            && AdminFits(env, d)
            && (run == 0 && a.owner == "" && AgentNext(env, run, a, c.tenants, now).pc < 10 ==> ADMIN_KEY !in d.states)
  {
    var f := AgentEffect(env, run, a, c.tenants);
    hide AgentEffect, AgentNext, ApplyEffect, FromThisRun, ShouldCollectAdmin, ExplicitListed, StageOf, KeyFor, Dropped;
    EffectShape(env, run, a, c.tenants);
    AdminBooking(env, run, a, c.tenants);
    StatesAfter(c, f, ADMIN_KEY);
    TenantsAfter(c, f);
    BookingAdvances(env, run, a, c.tenants, now);
  }

  lemma AgentKeepsAdmin(env: Env, s: Sys, e: Event, a: Agent)
    requires SysInv(env, s) && CoverInv(env, s) && AdminInv(env, s) && Enabled(env, s, e) && Steps(s, e, a)
    requires s.run >= 1 ==> Next(env, s, e).cache.tenants == s.cache.tenants
    ensures AdminFits(env, Next(env, s, e).cache)
    ensures s.run == 0 && s.phase.Main? && AgentNext(env, s.run, a, s.cache.tenants, e.at).pc < 10 ==>
              ADMIN_KEY !in Next(env, s, e).cache.states
  {
    hide Next, Enabled, SysInv, CoverInv, ApplyEffect, AgentEffect, AgentNext, FromThisRun, MidConceivable, ShouldCollectAdmin, AdminFits,
      TenantsKnown;
    NextCache(env, s, e);
    SteppingAgent(env, s, e, a);
    EffectKeepsAdmin(env, s.run, s.cache, a, e.at);
  }

  lemma BookingAdvances(env: Env, run: nat, a: Agent, cached: seq<string>, now: nat)
    ensures var b := AgentNext(env, run, a, cached, now);
            && a.pc <= b.pc
            && (AgentEffect(env, run, a, cached).Books? ==> b.pc == a.pc + 1)
  {
    hide Execute, Attempts, Resolved, KeyFor, MainStage, TenantStage;
  }

  lemma EventKeepsAdmin(env: Env, s: Sys, e: Event)
    requires SysInv(env, s) && CoverInv(env, s) && AdminInv(env, s) && Enabled(env, s, e)
    requires s.run >= 1 ==> Next(env, s, e).cache.tenants == s.cache.tenants
    ensures AdminInv(env, Next(env, s, e))
  {
    if e.action.MainStep? {
      var a := s.phase.main;
      assert a.owner == "" by { SteppingAgent(env, s, e, a); }
      StepKeepsAdminMid(env, s.run, a, s.cache.tenants, e.at);
      AgentKeepsAdmin(env, s, e, a);
      hide SysInv, CoverInv, AdminFits, AgentEffect, AgentNext, ApplyEffect, LedgerEffect, AgentDone, AdminMid;
    } else if e.action.WorkerStep? {
      var a := s.phase.workers[e.action.tenant].agent;
      AgentKeepsAdmin(env, s, e, a);
      hide SysInv, CoverInv, AdminFits, AgentEffect, AgentNext, ApplyEffect, LedgerEffect, AgentDone, AdminMid, Holders;
    } else {
      NextCache(env, s, e);
      ObserveShape(s.cache, e.at);
      hide SysInv, CoverInv, AgentDone, Holders, Observe, ShouldCollectAdmin, Clean;
    }
  }

  // ---- the bound ----

  ghost predicate SteadyInv(env: Env, st: Timed) {
    Reachable(env, st.sys) && OnTime(st) && Held(env, st.sys) && AdminInv(env, st.sys)
  }

  lemma StepKeepsHeld(env: Env, st: Timed, te: TimedEvent)
    requires Reachable(env, st.sys) && OnTime(st) && Held(env, st.sys)
    requires TimedEnabled(env, st, te) && Steady(env, st, te)
    ensures Held(env, TimedNext(env, st, te).sys)
  {
    hide Reachable, RequiredModuleKeys, SucceededSince, CleanEnd, SysInv, CoverInv, Enabled;
    if te.Act? {
      var s, e := st.sys, te.event;
      ReachableCovered(env, s);
      NextClock(env, s, e);
      NextCache(env, s, e);
      hide Next;
      if e.action.Finish? {
        CleanRefreshCoversRequired(env, s);
      } else if s.last.Some? {
        var n := Next(env, s, e);
        forall k | k in RequiredModuleKeys(env, n.cache.tenants)
          ensures SucceededSince(n.cache, k, s.last.value.started)
        {
          if s.phase.Idle? {
            IdleKeepsStates(env, s, e);
            SameStatesSameSuccess(s.cache, n.cache, k, s.last.value.started);
          } else {
            EventKeepsSuccess(env, s, e, k, s.last.value.started);
          }
        }
      }
    }
  }

  lemma IdleKeepsStates(env: Env, s: Sys, e: Event)
    requires s.phase.Idle? && Enabled(env, s, e)
    ensures Next(env, s, e).cache.states == s.cache.states
  {
    NextCache(env, s, e);
    ObserveShape(s.cache, e.at);
    hide Next, Observe;
  }

  lemma SameStatesSameSuccess(c: CacheState, d: CacheState, k: ModuleKey, since: nat)
    requires c.states == d.states && SucceededSince(c, k, since)
    ensures SucceededSince(d, k, since)
  {
  }

  lemma StepKeepsSteady(env: Env, st: Timed, te: TimedEvent)
    requires SteadyInv(env, st) && TimedEnabled(env, st, te) && Steady(env, st, te)
    ensures SteadyInv(env, TimedNext(env, st, te))
  {
    hide Reachable, Held, SysInv, CoverInv, CleanEnd;
    StepOnTime(env, st, te);
    StepKeepsHeld(env, st, te);
    if te.Act? {
      ReachableCovered(env, st.sys);
      ReachableNext(env, st.sys, te.event);
      EventKeepsAdmin(env, st.sys, te.event);
    }
    hide OnTime, AdminInv, Next, Enabled;
  }

  lemma StartIsSteady(env: Env)
    ensures SteadyInv(env, START)
  {
    InitialReachable(env);
    hide Reachable;
  }

  lemma {:induction false} SteadilyReachesInv(env: Env, events: seq<TimedEvent>, st: Timed)
    requires SteadilyReaches(env, events, st)
    ensures SteadyInv(env, st)
  {
    hide SteadyInv, TimedNext, TimedEnabled, Steady;
    if events == [] {
      StartIsSteady(env);
    } else {
      var n := |events| - 1;
      var before :| && SteadilyReaches(env, events[..n], before)
                    && TimedEnabled(env, before, events[n]) && Steady(env, before, events[n])
                    && st == TimedNext(env, before, events[n]);
      SteadilyReachesInv(env, events[..n], before);
      StepKeepsSteady(env, before, events[n]);
    }
  }

  /** Age limits: six minutes while the second refresh is due, four from then on. */
  function AgeLimit(run: nat): nat {
    Gap(run) + TIMEOUT
  }

  lemma AgeLimits(run: nat)
    requires run >= 1
    ensures AgeLimit(run) <= INTERVAL + 2 * TIMEOUT == 360 * SECOND
    ensures run >= 2 ==> AgeLimit(run) == 240 * SECOND
  {
  }

  /** With the tenants fixed and refreshes that end without errors within their timeout, no required
      module is ever older than the refresh interval plus twice the timeout: not at any event, and not at
      any time before the next one. */
  lemma RequiredModulesStayYoung(env: Env, events: seq<TimedEvent>, st: Timed, now: nat, k: ModuleKey)
    requires SteadilyReaches(env, events, st) && st.sys.run >= 1 && MayReach(st, now)
    requires k in RequiredModuleKeys(env, st.sys.cache.tenants)
    ensures k in st.sys.cache.states && st.sys.cache.states[k].lastSuccess.Some?
    ensures now - st.sys.cache.states[k].lastSuccess.value <= AgeLimit(st.sys.run) <= INTERVAL + 2 * TIMEOUT
  {
    hide SteadilyReaches, Reachable, RequiredModuleKeys, AdminInv;
    SteadilyReachesInv(env, events, st);
    assert SucceededSince(st.sys.cache, k, st.sys.last.value.started);
    AgeLimits(st.sys.run);
  }

  /** And so the cache, once the first refresh has ended, is ready for good. */
  lemma ReadyNeverLapses(env: Env, events: seq<TimedEvent>, st: Timed, now: nat)
    requires SteadilyReaches(env, events, st) && st.sys.run >= 1 && MayReach(st, now)
    requires RequiredModuleKeys(env, st.sys.cache.tenants) != []
    ensures Ready(env, st.sys.cache, now)
  {
    var c := st.sys.cache;
    hide SteadilyReaches, RequiredModuleKeys, Reachable, MayReach;
    SteadilyReachesInv(env, events, st);
    forall k | k in RequiredModuleKeys(env, c.tenants) ensures Fresh(c, k, now) {
      RequiredModulesStayYoung(env, events, st, now, k);
      assert KeyAgrees(c, k) by { CountersMatchStates(env, st.sys, k); }
      YoungIsFresh(c, k, now);
    }
    forall k | k in c.states ensures Fresh(c, k, now) {
      RecordedIsRequired(env, st, k);
    }
    hide Fresh, ModuleState.IsStale;
    FreshIsReady(env, c, now);
  }

  lemma FreshIsReady(env: Env, c: CacheState, now: int)
    requires RequiredModuleKeys(env, c.tenants) != []
    requires forall k :: k in RequiredModuleKeys(env, c.tenants) ==> Fresh(c, k, now)
    requires forall k :: k in c.states ==> Fresh(c, k, now)
    ensures Ready(env, c, now)
  {
    hide RequiredModuleKeys, ModuleState.IsStale;
  }

  lemma YoungIsFresh(c: CacheState, k: ModuleKey, now: int)
    requires KeyAgrees(c, k) && k in c.states && c.states[k].lastSuccess.Some?
    requires now - c.states[k].lastSuccess.value <= INTERVAL + 2 * TIMEOUT
    ensures Fresh(c, k, now)
  {
    LongestPatience(k.name);
    hide PolicyFor;
  }

  /** In a steady run only required modules are recorded. */
  lemma RecordedIsRequired(env: Env, st: Timed, k: ModuleKey)
    requires SteadyInv(env, st) && st.sys.run >= 1 && k in st.sys.cache.states
    ensures k in RequiredModuleKeys(env, st.sys.cache.tenants)
  {
    var s, c := st.sys, st.sys.cache;
    ReachableCovered(env, s);
    InvIsStore(env, s);
    CoverIsConceivable(env, s);
    hide Reachable, SysInv, CoverInv, OnTime, Held, RequiredModuleKeys;
    StateIsWanted(env, c, s.ledger, k);
    AdminIsWanted(env, c.tenants);
    RequiredOnce(env, c.tenants);
    StoreAttempted(env, s.run, c, s.ledger, s.now);
    if Wanted(env, k, c.tenants) {
      WantedIsExpected(env, k, c.tenants);
    }
    hide StatesConceivable, Wanted, ExpectedTenants, ShouldCollectAdmin, CountersAgree, Agrees, Sourced;
  }

  lemma WantedIsExpected(env: Env, k: ModuleKey, cached: seq<string>)
    requires Wanted(env, k, cached)
    ensures Wanted(env, k, ExpectedTenants(env, cached))
  {
    if cached == [] {
      ConceivableOfController(env, k.name, ExpectedTenants(env, cached));
    }
    hide WantedOfController, WantedOfTenant, KeyFor;
  }
}
