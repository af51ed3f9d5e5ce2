/** One tenant's refresh without interference (collector/cache.go, refreshTenant and runModule). */
module TenantRun {
  import opened Prelude
  import opened Series
  import opened Cache
  import opened Refresh
  import opened Interleaving

  /** A module's two critical sections, one right after the other, if it is attempted. */
  function ModuleRun(env: Env, run: nat, t: string, m: Module, l: Local, c: CacheState, finished: nat): (Local, CacheState) {
    if Attempts(env, m, l) then
      var o := Execute(env, run, t, m, l);
      (o.local.(ok := l.ok && o.ok), Book(ApplyWrite(c, o.write), KeyFor(t, m), o.ok, finished))
    else (l, c)
  }

  /** The chain's variables and the cache after its first pc stages. */
  function AfterModules(env: Env, run: nat, t: string, c: CacheState, clock: Module -> nat, pc: nat): (Local, CacheState) {
    if pc == 0 then (FreshLocal(env), c)
    else
      var (l, d) := AfterModules(env, run, t, c, clock, pc - 1);
      match TenantStage(pc - 1)
      case Run(m) => ModuleRun(env, run, t, m, l, d, clock(m))
      case _ => (l, d)
  }

  /** The cache after the whole chain. */
  function TenantRefreshed(env: Env, run: nat, t: string, c: CacheState, clock: Module -> nat): CacheState {
    var (l, d) := AfterModules(env, run, t, c, clock, 12);
    SetUp(d, t, l.ok)
  }

  /** The chain has come this far, with these variables and this cache. */
  ghost predicate Reached(env: Env, run: nat, t: string, c: CacheState, clock: Module -> nat, pc: nat, l: Local, d: CacheState) {
    AfterModules(env, run, t, c, clock, pc) == (l, d)
  }

  lemma NoModulesYet(env: Env, run: nat, t: string, c: CacheState, clock: Module -> nat)
    ensures Reached(env, run, t, c, clock, 0, FreshLocal(env), c)
  {
    hide FreshLocal;
  }

  lemma NextModule(env: Env, run: nat, t: string, c: CacheState, clock: Module -> nat, pc: nat, m: Module, l: Local, d: CacheState)
    requires Reached(env, run, t, c, clock, pc, l, d) && TenantStage(pc) == Run(m)
    ensures Reached(env, run, t, c, clock, pc + 1,
                    ModuleRun(env, run, t, m, l, d, clock(m)).0, ModuleRun(env, run, t, m, l, d, clock(m)).1)
  {
    hide ModuleRun, FreshLocal, TenantStage;
  }

  lemma StagesInOrder()
    ensures TenantStage(0) == Run(VSList)
    ensures TenantStage(1) == Run(VSInventory)
    ensures TenantStage(2) == Run(VSMetrics)
    ensures TenantStage(3) == Run(PoolList)
    ensures TenantStage(4) == Run(PoolInventory)
    ensures TenantStage(5) == Run(PoolMetrics)
    ensures TenantStage(6) == Run(PoolMembers)
    ensures TenantStage(7) == Run(VsVipList)
    ensures TenantStage(8) == Run(VsVip)
    ensures TenantStage(9) == Run(PoolGroup)
    ensures TenantStage(10) == Run(Gslb)
    ensures TenantStage(11) == Run(Module.Topology)
  {
  }

  /** What an agent does at a stage that runs a module, in its own variables and in the cache: two steps, or
      one over a module that is not attempted. */
  lemma StageSteps(env: Env, run: nat, a: Agent, m: Module, cached: seq<string>, now: nat)
    requires StageOf(a) == Run(m) && a.mid.None?
    ensures !AgentDone(a)
    ensures if Attempts(env, m, a.local) then
              var o := Execute(env, run, a.owner, m, a.local);
              var b := a.(mid := Some(Mid(o.ok, now)), local := o.local);
              && AgentEffect(env, run, a, cached) == Writes(o.write) && AgentNext(env, run, a, cached, now) == b
              && AgentEffect(env, run, b, cached) == Books(KeyFor(a.owner, m), o.ok, now)
              && AgentNext(env, run, b, cached, now)
                 == a.(pc := a.pc + 1, log := a.log + [KeyFor(a.owner, m)], local := o.local.(ok := o.local.ok && o.ok))
              && !AgentDone(b)
            else
              AgentEffect(env, run, a, cached) == Nothing && AgentNext(env, run, a, cached, now) == a.(pc := a.pc + 1)
  {
    hide Attempts, Execute, KeyFor, MainStage, TenantStage;
  }

  /** What a goroutine's step makes of the system. */
  lemma WorkerStepShape(env: Env, s: Sys, e: Event)
    requires Enabled(env, s, e) && e.action.WorkerStep?
    ensures var t, n := e.action.tenant, Next(env, s, e);
            var a := s.phase.workers[t].agent;
            && n.phase == Fan(s.phase.finished, s.phase.workers[t := Active(AgentNext(env, s.run, a, s.cache.tenants, e.at))])
            && n.cache == ApplyEffect(s.cache, AgentEffect(env, s.run, a, s.cache.tenants))
            && n.run == s.run && n.now == e.at
  {
    hide AgentNext, AgentEffect, ApplyEffect, LedgerEffect, AgentDone, Holders;
  }

  /** An admitted goroutine that is not done may step. */
  lemma WorkerMayStep(env: Env, s: Sys, t: string, a: Agent, at: nat)
    requires s.now <= at && s.phase.Fan? && t in s.phase.workers && s.phase.workers[t] == Active(a) && !AgentDone(a)
    ensures Enabled(env, s, Event(at, WorkerStep(t)))
    ensures var n := Next(env, s, Event(at, WorkerStep(t)));
            && n.phase == Fan(s.phase.finished, s.phase.workers[t := Active(AgentNext(env, s.run, a, s.cache.tenants, at))])
            && n.cache == ApplyEffect(s.cache, AgentEffect(env, s.run, a, s.cache.tenants))
            && n.run == s.run && n.now == at
  {
    hide AgentEffect, AgentNext, AgentDone, ApplyEffect, LedgerEffect, Holders, Next;
    WorkerStepShape(env, s, Event(at, WorkerStep(t)));
  }

  /** When each module of the chain is attempted. */
  lemma ChainGuards(env: Env)
    ensures forall l :: Attempts(env, VSList, l) == (NeedVS(env))
    ensures forall l :: Attempts(env, VSInventory, l) == (On(env, VSInventory) && l.vs.Some?)
    ensures forall l :: Attempts(env, VSMetrics, l) == (On(env, VSMetrics) && l.vs.Some?)
    ensures forall l :: Attempts(env, PoolList, l) == (NeedPools(env))
    ensures forall l :: Attempts(env, PoolInventory, l) == (On(env, PoolInventory) && l.pools.Some?)
    ensures forall l :: Attempts(env, PoolMetrics, l) == (On(env, PoolMetrics) && l.pools.Some?)
    ensures forall l :: Attempts(env, PoolMembers, l) == (On(env, PoolMembers) && l.pools.Some?)
    ensures forall l :: Attempts(env, VsVipList, l) == (NeedVsVip(env))
    ensures forall l :: Attempts(env, VsVip, l) == (On(env, VsVip) && l.vsvips.Some?)
    ensures forall l :: Attempts(env, PoolGroup, l) == (On(env, PoolGroup))
    ensures forall l :: Attempts(env, Gslb, l) == (On(env, Gslb))
    ensures forall l :: Attempts(env, Module.Topology, l) == (On(env, Module.Topology))
  {
    hide On, NeedVS, NeedPools, NeedVsVip;
  }

  lemma ReachedEnd(env: Env, run: nat, t: string, c: CacheState, clock: Module -> nat, l: Local, d: CacheState)
    requires Reached(env, run, t, c, clock, 12, l, d)
    ensures TenantRefreshed(env, run, t, c, clock) == SetUp(d, t, l.ok)
  {
    hide AfterModules;
  }
}
