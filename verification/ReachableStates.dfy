/** The invariants hold in every reachable state of the system, whatever the controller answers, however
    the tenants' goroutines interleave and whenever a scrape comes. */
module ReachableStates {
  import opened Prelude
  import opened Series
  import opened Tenants
  import opened Cache
  import opened Refresh
  import opened Snapshots
  import opened RefreshInvariants
  import TopologyGraph

  /** Between a module's two sections its last booking is no later than the fetch it is about to book. */
  ghost predicate MidInv(c: CacheState, a: Agent, now: nat) {
    a.mid.Some? ==>
      && StageOf(a).Run?
      && a.mid.value.at <= now
      && var k := KeyFor(a.owner, StageOf(a).m);
         k in c.states ==> c.states[k].lastAttempt <= a.mid.value.at
  }

  ghost predicate AgentInv(env: Env, run: nat, c: CacheState, a: Agent, now: nat) {
    FromThisRun(env, run, a) && MidInv(c, a, now)
  }

  /** Every tenant configured by name is listed. */
  ghost predicate ExplicitListed(env: Env, c: CacheState) {
    forall t :: t in StaticTenants(env.configured) ==> t in c.tenants
  }

  /** Once the tenants are known they are the cached ones, with every explicit name among them. */
  ghost predicate TenantsKnown(env: Env, c: CacheState, a: Agent) {
    a.pc >= 2 || a.local.discovered ==> a.local.tenants == c.tenants && ExplicitListed(env, c)
  }

  ghost predicate MainInv(env: Env, run: nat, c: CacheState, a: Agent, now: nat) {
    a.owner == "" && AgentInv(env, run, c, a, now) && TenantsKnown(env, c, a)
  }

  ghost predicate WorkerInv(env: Env, run: nat, c: CacheState, t: string, w: Worker, now: nat) {
    t in c.tenants && (w.Active? ==> w.agent.owner == t && AgentInv(env, run, c, w.agent, now))
  }

  ghost predicate PhaseInv(env: Env, s: Sys) {
    match s.phase
    case Idle => true
    case Main(a) => MainInv(env, s.run, s.cache, a, s.now)
    case Fan(_, workers) =>
      && (forall t :: t in workers ==> WorkerInv(env, s.run, s.cache, t, workers[t], s.now))
      && workers.Keys == (set t | t in s.cache.tenants)
      && |Holders(workers)| <= env.parallelism
      && ExplicitListed(env, s.cache)
  }

  ghost predicate SysInv(env: Env, s: Sys) {
    && StoreInv(env, s.run, s.cache, s.ledger, s.now)
    && (s.cache.tenants != [] ==> ExplicitListed(env, s.cache))
    && PhaseInv(env, s)
  }

  // ---- an agent's step ----

  lemma WorkerAdmissible(env: Env, run: nat, c: CacheState, a: Agent, now: nat)
    requires AgentInv(env, run, c, a, now) && a.owner in c.tenants && a.owner != ""
    ensures Admissible(env, run, c, AgentEffect(env, run, a, c.tenants), now)
  {
    TenantWritesItsRendering(env, run, a, c.tenants);
    hide Execute, Rendering, FromThisRun, Attempts, PerTenant;
  }

  lemma MainAdmissible(env: Env, run: nat, c: CacheState, a: Agent, now: nat)
    requires AgentInv(env, run, c, a, now) && a.owner == ""
    ensures Admissible(env, run, c, AgentEffect(env, run, a, c.tenants), now)
  {
    MainWritesItsRendering(env, run, a, c.tenants);
    hide Execute, GlobalRendering, FromThisRun, Attempts, PerTenant, Resolved;
  }

  lemma StepKeepsMid(env: Env, run: nat, c: CacheState, a: Agent, now: nat)
    requires MidInv(c, a, now) && Attempted(c, now)
    requires Admissible(env, run, c, AgentEffect(env, run, a, c.tenants), now)
    ensures MidInv(ApplyEffect(c, AgentEffect(env, run, a, c.tenants)), AgentNext(env, run, a, c.tenants, now), now)
  {
    var e := AgentEffect(env, run, a, c.tenants);
    var b := AgentNext(env, run, a, c.tenants, now);
    AttemptedStays(env, run, c, e, now);
    hide ApplyEffect, AgentEffect, Admissible, Execute, Attempts, Resolved, KeyFor;
  }

  lemma StepKeepsAgent(env: Env, run: nat, c: CacheState, a: Agent, now: nat)
    requires AgentInv(env, run, c, a, now) && Attempted(c, now)
    requires Admissible(env, run, c, AgentEffect(env, run, a, c.tenants), now)
    ensures AgentInv(env, run, ApplyEffect(c, AgentEffect(env, run, a, c.tenants)), AgentNext(env, run, a, c.tenants, now), now)
  {
    hide FromThisRun, MidInv, ApplyEffect, AgentEffect, AgentNext, Admissible;
    StaysFromThisRun(env, run, a, c.tenants, now);
    StepKeepsMid(env, run, c, a, now);
  }

  lemma StageKeepsOwner(env: Env, run: nat, a: Agent, cached: seq<string>, now: nat)
    ensures AgentNext(env, run, a, cached, now).owner == a.owner
  {
    hide Execute, Attempts, Resolved;
  }

  lemma TenantKey(a: Agent)
    requires a.owner != "" && StageOf(a).Run?
    ensures KeyFor(a.owner, StageOf(a).m).tenant == a.owner
  {
  }

  /** Another tenant's step leaves an agent's expectations alone. */
  lemma StepKeepsOthers(env: Env, run: nat, c: CacheState, a: Agent, b: Agent, now: nat)
    requires a.owner != "" && b.owner != "" && a.owner != b.owner
    requires FromThisRun(env, run, a) && AgentInv(env, run, c, b, now)
    ensures AgentInv(env, run, ApplyEffect(c, AgentEffect(env, run, a, c.tenants)), b, now)
  {
    var e := AgentEffect(env, run, a, c.tenants);
    TenantWritesItsRendering(env, run, a, c.tenants);
    hide FromThisRun, AgentEffect, Rendering, KeyFor, StageOf, ApplyEffect, PerTenant;
    if b.mid.Some? && StageOf(b).Run? {
      TenantKey(b);
      StatesAfter(c, e, KeyFor(b.owner, StageOf(b).m));
    }
  }

  lemma StepKeepsTenantsKnown(env: Env, run: nat, c: CacheState, a: Agent, now: nat)
    requires a.owner == "" && TenantsKnown(env, c, a) && (c.tenants != [] ==> ExplicitListed(env, c))
    ensures var d := ApplyEffect(c, AgentEffect(env, run, a, c.tenants)); d.tenants != [] ==> ExplicitListed(env, d)
    ensures TenantsKnown(env, ApplyEffect(c, AgentEffect(env, run, a, c.tenants)), AgentNext(env, run, a, c.tenants, now))
  {
    var e := AgentEffect(env, run, a, c.tenants);
    TenantsAfter(c, e);
    hide ApplyEffect, Found, Discovered, Attempts;
  }

  // ---- a step of the system ----

  lemma LaterStore(env: Env, run: nat, later: nat, c: CacheState, l: Ledger, now: nat, at: nat)
    requires StoreInv(env, run, c, l, now) && now <= at && run <= later
    ensures StoreInv(env, later, c, l, at)
  {
    hide CountersAgree, Resident, Agrees, Rendering, GlobalRendering, PerTenant, Wildcard;
  }

  lemma LaterAgent(env: Env, run: nat, c: CacheState, a: Agent, now: nat, at: nat)
    requires AgentInv(env, run, c, a, now) && now <= at
    ensures AgentInv(env, run, c, a, at)
  {
    hide FromThisRun, KeyFor, StageOf;
  }

  lemma MainStepKeeps(env: Env, s: Sys, e: Event)
    requires SysInv(env, s) && Enabled(env, s, e) && e.action.MainStep?
    ensures SysInv(env, Next(env, s, e))
  {
    hide StoreInv, AgentInv, Admissible, AgentEffect, AgentNext, ApplyEffect, LedgerEffect, AgentDone, TenantsKnown, Attempted;
    var a := s.phase.main;
    var f := AgentEffect(env, s.run, a, s.cache.tenants);
    LaterStore(env, s.run, s.run, s.cache, s.ledger, s.now, e.at);
    LaterAgent(env, s.run, s.cache, a, s.now, e.at);
    MainAdmissible(env, s.run, s.cache, a, e.at);
    StoreStays(env, s.run, s.cache, s.ledger, f, e.at);
    StoreAttempted(env, s.run, s.cache, s.ledger, e.at);
    StepKeepsAgent(env, s.run, s.cache, a, e.at);
    StageKeepsOwner(env, s.run, a, s.cache.tenants, e.at);
    StepKeepsTenantsKnown(env, s.run, s.cache, a, e.at);
  }

  lemma StoreAttempted(env: Env, run: nat, c: CacheState, l: Ledger, now: nat)
    requires StoreInv(env, run, c, l, now)
    ensures Attempted(c, now) && GoodTenants(c)
  {
    hide CountersAgree, Resident, Agrees, Sourced;
  }

  lemma WorkerStepKeepsWorkers(env: Env, s: Sys, e: Event, u: string)
    requires SysInv(env, s) && Enabled(env, s, e) && e.action.WorkerStep? && u in s.phase.workers
    ensures var n := Next(env, s, e);
            && n.phase.Fan? && n.phase.workers.Keys == s.phase.workers.Keys
            && WorkerInv(env, n.run, n.cache, u, n.phase.workers[u], n.now)
            && n.cache.tenants == s.cache.tenants
  {
    hide StoreInv, AgentInv, Admissible, AgentEffect, AgentNext, ApplyEffect, LedgerEffect, AgentDone, Attempted, Holders;
    var t := e.action.tenant;
    var a := s.phase.workers[t].agent;
    assert WorkerInv(env, s.run, s.cache, t, s.phase.workers[t], s.now);
    assert WorkerInv(env, s.run, s.cache, u, s.phase.workers[u], s.now);
    StoreAttempted(env, s.run, s.cache, s.ledger, s.now);
    LaterAgent(env, s.run, s.cache, a, s.now, e.at);
    WorkerAdmissible(env, s.run, s.cache, a, e.at);
    assert Attempted(s.cache, e.at) by { LaterAttempted(s.cache, s.now, e.at); }
    WorkerKeepsTenants(env, s.run, s.cache, a, e.at);
    if u == t {
      StepKeepsAgent(env, s.run, s.cache, a, e.at);
      StageKeepsOwner(env, s.run, a, s.cache.tenants, e.at);
    } else if s.phase.workers[u].Active? {
      LaterAgent(env, s.run, s.cache, s.phase.workers[u].agent, s.now, e.at);
      AgentFromThisRun(env, s.run, s.cache, a, e.at);
      StepKeepsOthers(env, s.run, s.cache, a, s.phase.workers[u].agent, e.at);
    }
  }

  lemma LaterAttempted(c: CacheState, now: nat, at: nat)
    requires Attempted(c, now) && now <= at
    ensures Attempted(c, at)
  {
  }

  lemma AgentFromThisRun(env: Env, run: nat, c: CacheState, a: Agent, now: nat)
    requires AgentInv(env, run, c, a, now)
    ensures FromThisRun(env, run, a)
  {
    hide FromThisRun, MidInv;
  }

  lemma WorkerKeepsTenants(env: Env, run: nat, c: CacheState, a: Agent, now: nat)
    requires AgentInv(env, run, c, a, now) && a.owner != ""
    ensures ApplyEffect(c, AgentEffect(env, run, a, c.tenants)).tenants == c.tenants
  {
    TenantWritesItsRendering(env, run, a, c.tenants);
    TenantsAfter(c, AgentEffect(env, run, a, c.tenants));
    hide FromThisRun, AgentEffect, Rendering, ApplyEffect, PerTenant, MidInv;
  }

  lemma HoldersShrink(workers: map<string, Worker>, t: string, w: Worker)
    requires t in workers && InFlight(workers[t])
    ensures |Holders(workers[t := w])| <= |Holders(workers)|
  {
    hide AgentDone;
    assert Holders(workers[t := w]) <= Holders(workers);
    SubsetSize(Holders(workers[t := w]), Holders(workers));
  }

  lemma HoldersGrow(workers: map<string, Worker>, t: string, w: Worker)
    requires t in workers
    ensures |Holders(workers[t := w])| <= |Holders(workers)| + 1
  {
    hide AgentDone;
    assert Holders(workers[t := w]) <= Holders(workers) + {t};
    SubsetSize(Holders(workers[t := w]), Holders(workers) + {t});
  }

  lemma {:induction false} SubsetSize<T>(a: set<T>, b: set<T>)
    requires a <= b
    ensures |a| <= |b|
  {
    if a != {} {
      var x :| x in a;
      SubsetSize(a - {x}, b - {x});
    }
  }

  lemma WorkerStepKeeps(env: Env, s: Sys, e: Event)
    requires SysInv(env, s) && Enabled(env, s, e) && e.action.WorkerStep?
    ensures SysInv(env, Next(env, s, e))
  {
    hide StoreInv, WorkerInv, Admissible, AgentEffect, AgentNext, ApplyEffect, LedgerEffect, AgentDone, Attempted, Holders;
    var t := e.action.tenant;
    var a := s.phase.workers[t].agent;
    WorkerStoreStays(env, s, e);
    var n := Next(env, s, e);
    forall u | u in s.phase.workers ensures u in n.phase.workers && WorkerInv(env, n.run, n.cache, u, n.phase.workers[u], n.now) {
      WorkerStepKeepsWorkers(env, s, e, u);
    }
    WorkerStepKeepsWorkers(env, s, e, t);
    HoldersShrink(s.phase.workers, t, Active(AgentNext(env, s.run, a, s.cache.tenants, e.at)));
  }

  lemma WorkerStoreStays(env: Env, s: Sys, e: Event)
    requires SysInv(env, s) && Enabled(env, s, e) && e.action.WorkerStep?
    ensures var n := Next(env, s, e); StoreInv(env, n.run, n.cache, n.ledger, n.now)
  {
    hide StoreInv, AgentInv, Admissible, AgentEffect, AgentNext, ApplyEffect, LedgerEffect, AgentDone, Attempted, Holders;
    var t := e.action.tenant;
    var a := s.phase.workers[t].agent;
    assert WorkerInv(env, s.run, s.cache, t, s.phase.workers[t], s.now);
    LaterStore(env, s.run, s.run, s.cache, s.ledger, s.now, e.at);
    StoreAttempted(env, s.run, s.cache, s.ledger, s.now);
    LaterAgent(env, s.run, s.cache, a, s.now, e.at);
    WorkerAdmissible(env, s.run, s.cache, a, e.at);
    StoreStays(env, s.run, s.cache, s.ledger, AgentEffect(env, s.run, a, s.cache.tenants), e.at);
  }

  lemma SpawnKeeps(env: Env, s: Sys, e: Event)
    requires SysInv(env, s) && Enabled(env, s, e) && e.action.Spawn?
    ensures SysInv(env, Next(env, s, e))
  {
    hide StoreInv, AgentInv;
    LaterStore(env, s.run, s.run, s.cache, s.ledger, s.now, e.at);
    var workers := Next(env, s, e).phase.workers;
    assert Holders(workers) == {};
  }

  /** A tenant that is admitted or turned away. */
  lemma WorkerChangeKeeps(env: Env, s: Sys, e: Event)
    requires SysInv(env, s) && Enabled(env, s, e) && (e.action.Admit? || e.action.Cancel?)
    ensures SysInv(env, Next(env, s, e))
  {
    hide StoreInv, AgentInv, AgentDone, Holders, InFlight, NewAgent;
    var t := e.action.tenant;
    var n := Next(env, s, e);
    LaterStore(env, s.run, s.run, s.cache, s.ledger, s.now, e.at);
    NewAgentInv(env, s.run, s.cache, t, e.at);
    forall u | u in n.phase.workers ensures WorkerInv(env, n.run, n.cache, u, n.phase.workers[u], n.now) {
      assert WorkerInv(env, s.run, s.cache, u, s.phase.workers[u], s.now);
      if u != t && s.phase.workers[u].Active? {
        LaterAgent(env, s.run, s.cache, s.phase.workers[u].agent, s.now, e.at);
      }
    }
    assert n.phase.workers.Keys == s.phase.workers.Keys;
    if e.action.Admit? {
      HoldersGrow(s.phase.workers, t, Active(NewAgent(env, t)));
    } else {
      CancelHoldsNothing(s.phase.workers, t);
    }
  }

  lemma CancelHoldsNothing(workers: map<string, Worker>, t: string)
    requires t in workers && workers[t].Waiting?
    ensures Holders(workers[t := Cancelled]) == Holders(workers)
  {
    hide AgentDone;
  }

  lemma NewAgentInv(env: Env, run: nat, c: CacheState, owner: string, now: nat)
    ensures AgentInv(env, run, c, NewAgent(env, owner), now) && NewAgent(env, owner).owner == owner
    ensures TenantsKnown(env, c, NewAgent(env, owner))
  {
    NewAgentFromThisRun(env, run, owner);
    hide FromThisRun;
  }

  lemma ObserveKeepsStore(env: Env, run: nat, c: CacheState, l: Ledger, now: nat, at: nat)
    requires StoreInv(env, run, c, l, now) && now <= at
    ensures StoreInv(env, run, Observe(c, at), l, at)
  {
    LaterStore(env, run, run, c, l, now, at);
    CountersAgreeObserve(c, at);
    hide CountersAgree, Expected, Sourced, AgeOf, ModuleState.IsStale;
  }

  lemma ObserveShape(c: CacheState, at: int)
    ensures Observe(c, at).tenants == c.tenants && Observe(c, at).states == c.states
  {
  }

  lemma ScrapeKeeps(env: Env, s: Sys, e: Event)
    requires SysInv(env, s) && Enabled(env, s, e) && e.action.Scrape?
    ensures SysInv(env, Next(env, s, e))
  {
    hide StoreInv, FromThisRun, Holders, Observe, KeyFor, StageOf;
    ObserveKeepsStore(env, s.run, s.cache, s.ledger, s.now, e.at);
    ObserveShape(s.cache, e.at);
    if s.phase.Fan? {
      forall u | u in s.phase.workers ensures WorkerInv(env, s.run, Observe(s.cache, e.at), u, s.phase.workers[u], e.at) {
        assert WorkerInv(env, s.run, s.cache, u, s.phase.workers[u], s.now);
      }
    }
  }

  lemma StartOrFinishKeeps(env: Env, s: Sys, e: Event)
    requires SysInv(env, s) && Enabled(env, s, e) && (e.action.Start? || e.action.Finish?)
    ensures SysInv(env, Next(env, s, e))
  {
    hide StoreInv, AgentInv, TenantsKnown, Clean, NewAgent;
    NewAgentInv(env, s.run, s.cache, "", e.at);
    LaterStore(env, s.run, s.run, s.cache, s.ledger, s.now, e.at);
    LaterStore(env, s.run, s.run + 1, s.cache, s.ledger, s.now, e.at);
  }

  lemma StepKeepsInv(env: Env, s: Sys, e: Event)
    requires SysInv(env, s) && Enabled(env, s, e)
    ensures SysInv(env, Next(env, s, e))
  {
    hide SysInv, Next;
    match e.action
    case Start => StartOrFinishKeeps(env, s, e);
    case MainStep => MainStepKeeps(env, s, e);
    case Spawn => SpawnKeeps(env, s, e);
    case Admit(_) => WorkerChangeKeeps(env, s, e);
    case Cancel(_) => WorkerChangeKeeps(env, s, e);
    case WorkerStep(_) => WorkerStepKeeps(env, s, e);
    case Finish => StartOrFinishKeeps(env, s, e);
    case Scrape => ScrapeKeeps(env, s, e);
  }

  lemma InitialInv(env: Env)
    ensures SysInv(env, Initial())
  {
    forall k ensures KeyAgrees(EMPTY_CACHE, k) {
    }
  }

  lemma {:induction false} ReachesInv(env: Env, events: seq<Event>, s: Sys)
    requires Reaches(env, events, s)
    ensures SysInv(env, s)
  {
    hide SysInv, Next, Enabled;
    if events == [] {
      InitialInv(env);
    } else {
      var n := |events| - 1;
      var before :| Reaches(env, events[..n], before) && Enabled(env, before, events[n]) && s == Next(env, before, events[n]);
      ReachesInv(env, events[..n], before);
      StepKeepsInv(env, before, events[n]);
    }
  }
}
