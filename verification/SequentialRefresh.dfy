/** Refreshing the tenants concurrently is refreshing them in turn with refreshTenant. */
module SequentialRefresh {
  import opened Prelude
  import opened Series
  import opened Cache
  import opened Refresh
  import opened Interleaving
  import opened TenantRun
  import opened FanPhase
  import Coverage
  import Guarantees
  import ReachableStates

  function NoClock(m: Module): nat { 0 }

  /** Tenant t's agent stands before its stage pc, alone has run so far, and its variables and the cache
      are those of the chain. */
  ghost predicate Stands(env: Env, run: nat, f: FanState, t: string, pc: nat, g: FanState) {
    && t in f.agents && t in g.agents
    && g.agents == f.agents[t := g.agents[t]]
    && g.agents[t].owner == t && g.agents[t].pc == pc && g.agents[t].mid.None?
    && AfterModules(env, run, t, f.cache, NoClock, pc) == (g.agents[t].local, g.cache)
  }

  lemma StandsNext(env: Env, run: nat, f: FanState, t: string, pc: nat, g: FanState, m: Module)
    requires Stands(env, run, f, t, pc, g) && t != "" && TenantStage(pc) == Run(m)
    ensures var h := FanStep(env, run, g, Turn(t, 0));
            if Attempts(env, m, g.agents[t].local) then Stands(env, run, f, t, pc + 1, FanStep(env, run, h, Turn(t, 0)))
            else Stands(env, run, f, t, pc + 1, h)
  {
    Coverage.ExecuteKeepsOk(env, run, t, m, g.agents[t].local);
    NextAfter(env, run, t, f.cache, pc, m);
    hide Execute, Attempts, ApplyWrite, Book, AfterModules, TenantStage, KeyFor;
    var h := FanStep(env, run, g, Turn(t, 0));
    if Attempts(env, m, g.agents[t].local) {
      var h2 := FanStep(env, run, h, Turn(t, 0));
      assert h2.agents == f.agents[t := h2.agents[t]];
    } else {
      assert h.agents == f.agents[t := h.agents[t]];
    }
  }

  lemma NextAfter(env: Env, run: nat, t: string, c: CacheState, pc: nat, m: Module)
    requires TenantStage(pc) == Run(m)
    ensures var (l, d) := AfterModules(env, run, t, c, NoClock, pc);
            AfterModules(env, run, t, c, NoClock, pc + 1) == ModuleRun(env, run, t, m, l, d, 0)
  {
    hide ModuleRun, TenantStage, FreshLocal;
  }

  lemma StandsAtFirst(env: Env, run: nat, f: FanState, t: string)
    requires t in f.agents && f.agents[t] == NewAgent(env, t)
    ensures Stands(env, run, f, t, 0, f)
  {
    hide FreshLocal;
    assert f.agents == f.agents[t := f.agents[t]];
  }

  /** Two more steps, or one if the module is not attempted. */
  lemma StageTurns(env: Env, run: nat, f: FanState, t: string, pc: nat, n: nat) returns (more: nat)
    requires Stands(env, run, f, t, pc, FanRun(env, run, f, Repeat(t, n))) && t != "" && pc < 12
    ensures n < more <= n + 2 && Stands(env, run, f, t, pc + 1, FanRun(env, run, f, Repeat(t, more)))
  {
    var m := RunStageOf(pc);
    var g := FanRun(env, run, f, Repeat(t, n));
    assert t in g.agents;
    hide Stands, FanRun, Repeat, Attempts, FanStep, TenantStage;
    StandsNext(env, run, f, t, pc, g, m);
    RepeatSteps(env, run, f, t, n + 1);
    RepeatSteps(env, run, f, t, n + 2);
    more := if Attempts(env, m, g.agents[t].local) then n + 2 else n + 1;
  }

  lemma {:induction false} AgentReaches(env: Env, run: nat, f: FanState, t: string, pc: nat) returns (n: nat)
    requires t in f.agents && f.agents[t] == NewAgent(env, t) && t != "" && pc <= 12
    ensures n <= 2 * pc && Stands(env, run, f, t, pc, FanRun(env, run, f, Repeat(t, n)))
  {
    hide FanStep, NewAgent, Stands, Repeat;
    if pc == 0 {
      n := 0;
      assert Repeat(t, 0) == [] by { NoRepeat(t); }
      StandsAtFirst(env, run, f, t);
    } else {
      hide FanRun;
      n := AgentReaches(env, run, f, t, pc - 1);
      n := StageTurns(env, run, f, t, pc - 1, n);
    }
  }

  lemma NoRepeat(t: string)
    ensures Repeat(t, 0) == []
  {
  }

  lemma RunStageOf(pc: nat) returns (m: Module)
    requires pc < 12
    ensures TenantStage(pc) == Run(m)
  {
    m := TenantStage(pc).m;
  }

  /** Left alone from its first step on, tenant t's agent leaves the cache that refreshTenant leaves, and
      nobody else's agent moves. */
  lemma AloneIsRefreshTenant(env: Env, run: nat, f: FanState, t: string)
    requires WellOwned(f) && t in f.agents && f.agents[t] == NewAgent(env, t) && t != ""
    ensures var g := FanRun(env, run, f, Repeat(t, ENOUGH));
            && g.cache == TenantRefreshed(env, run, t, f.cache, NoClock)
            && forall u :: u in f.agents && u != t ==> u in g.agents && g.agents[u] == f.agents[u]
  {
    var n := AgentReaches(env, run, f, t, 12);
    var g := FanRun(env, run, f, Repeat(t, n));
    var h := FanStep(env, run, g, Turn(t, 0));
    Published(env, run, f, t, g);
    RunWellOwned(env, run, f, Repeat(t, n));
    StepWellOwned(env, run, g, Turn(t, 0));
    RepeatSteps(env, run, f, t, n + 1);
    hide FanStep, FanRun, Repeat, WellOwned, Stands, AgentDone;
    RepeatAdds(t, n + 1, ENOUGH - (n + 1));
    FanRunAppend(env, run, f, Repeat(t, n + 1), Repeat(t, ENOUGH - (n + 1)));
    DoneStutters(env, run, h, t, ENOUGH - (n + 1));
  }

  lemma Published(env: Env, run: nat, f: FanState, t: string, g: FanState)
    requires Stands(env, run, f, t, 12, g) && t != ""
    ensures var h := FanStep(env, run, g, Turn(t, 0));
            && t in h.agents && AgentDone(h.agents[t])
            && h.cache == TenantRefreshed(env, run, t, f.cache, NoClock)
            && forall u :: u in f.agents && u != t ==> u in h.agents && h.agents[u] == f.agents[u]
  {
    hide AfterModules, Execute, Attempts;
  }

  /** The tenants refreshed one after another, each by refreshTenant. */
  function InTurn(env: Env, run: nat, c: CacheState, order: seq<string>): CacheState {
    if order == [] then c
    else TenantRefreshed(env, run, order[|order| - 1], InTurn(env, run, c, order[..|order| - 1]), NoClock)
  }

  lemma {:induction false} SequentialIsInTurn(env: Env, run: nat, f: FanState, order: seq<string>)
    requires WellOwned(f) && NoDuplicates(order) && "" !in order
    requires forall t :: t in order ==> t in f.agents && f.agents[t] == NewAgent(env, t)
    ensures var g := SequentialRun(env, run, f, order);
            && WellOwned(g) && g.cache == InTurn(env, run, f.cache, order)
            && forall u :: u in f.agents && u !in order ==> u in g.agents && g.agents[u] == f.agents[u]
  {
    hide WellOwned, FanRun, Repeat, TenantRefreshed, NewAgent;
    if order != [] {
      var k := |order| - 1;
      var t := order[k];
      assert order == order[..k] + [t];
      assert forall u :: u in order[..k] ==> u in order;
      SequentialIsInTurn(env, run, f, order[..k]);
      var g := SequentialRun(env, run, f, order[..k]);
      assert t !in order[..k] && t in order;
      AloneIsRefreshTenant(env, run, g, t);
      RunWellOwned(env, run, g, Repeat(t, ENOUGH));
    }
  }

  lemma NewAgentsErased(env: Env, s: Sys, keep: set<string>, u: string)
    requires s.phase.Fan? && u in keep && u in s.phase.workers && s.phase.workers[u].Waiting?
    ensures u in Erase(FanPhase.View(env, s, keep)).agents && Erase(FanPhase.View(env, s, keep)).agents[u] == NewAgent(env, u)
  {
    hide EraseCache, FreshLocal;
  }

  lemma ErasedViewOwned(env: Env, s: Sys, keep: set<string>)
    requires s.phase.Fan? && (forall u :: u in s.phase.workers ==> s.phase.workers[u].Waiting?) && "" !in s.phase.workers
    ensures WellOwned(Erase(FanPhase.View(env, s, keep)))
    ensures Erase(FanPhase.View(env, s, keep)).cache == EraseCache(s.cache)
  {
    hide EraseCache, FreshLocal;
  }

  /** In every refresh that can come about, whatever the interleaving of the tenants' goroutines and the
      scrapes and whoever the context turns away, the final cache is, up to timestamps, the one that
      calling refreshTenant for one admitted tenant after another leaves, in any order; when nobody is
      turned away these are all the tenants of the refresh. */
  lemma ConcurrentRefreshIsInTurn(env: Env, s: Sys, events: seq<Event>, t: Sys, order: seq<string>)
    requires Reachable(env, s)
    requires s.phase.Fan? && (forall u :: u in s.phase.workers ==> s.phase.workers[u].Waiting?)
    requires Follows(env, s, events, t) && forall e :: e in events ==> Fanning(e)
    requires t.phase.Fan? && forall u :: u in t.phase.workers ==> WorkerFinished(t.phase.workers[u])
    requires NoDuplicates(order) && forall u :: u in order <==> u in Admitted(t)
    ensures EraseCache(t.cache) == InTurn(env, s.run, EraseCache(s.cache), order)
    ensures Admitted(t) <= (set u | u in s.cache.tenants)
    ensures (forall e :: e in events ==> !e.action.Cancel?) ==> Admitted(t) == set u | u in s.cache.tenants
  {
    hide Reachable, Follows, WorkerFinished, EraseCache, Erase, SequentialRun, FanPhase.View, WellOwned, InTurn, NewAgent, Fanning;
    TenantsAreWorkers(env, s);
    StatusLasts(env, s, events, t);
    if forall e :: e in events ==> !e.action.Cancel? {
      NobodyCancelled(env, s, events, t);
    }
    FanOutIsSequential(env, s, events, t, order);
    forall u | u in order
      ensures u in Erase(FanPhase.View(env, s, Admitted(t))).agents
              && Erase(FanPhase.View(env, s, Admitted(t))).agents[u] == NewAgent(env, u)
    {
      NewAgentsErased(env, s, Admitted(t), u);
    }
    ErasedViewOwned(env, s, Admitted(t));
    SequentialIsInTurn(env, s.run, Erase(FanPhase.View(env, s, Admitted(t))), order);
  }

  lemma NobodyCancelledStep(env: Env, s: Sys, e: Event)
    requires s.phase.Fan? && Enabled(env, s, e) && Fanning(e) && !e.action.Cancel?
    requires forall u :: u in s.phase.workers ==> !s.phase.workers[u].Cancelled?
    ensures var n := Next(env, s, e); n.phase.Fan? && forall u :: u in n.phase.workers ==> !n.phase.workers[u].Cancelled?
  {
    hide AgentNext, AgentEffect, ApplyEffect, LedgerEffect, AgentDone, Holders, Observe, NewAgent;
  }

  lemma {:induction false} NobodyCancelled(env: Env, s: Sys, events: seq<Event>, t: Sys)
    requires s.phase.Fan? && Follows(env, s, events, t) && forall e :: e in events ==> Fanning(e) && !e.action.Cancel?
    requires forall u :: u in s.phase.workers ==> !s.phase.workers[u].Cancelled?
    ensures t.phase.Fan? && forall u :: u in t.phase.workers ==> !t.phase.workers[u].Cancelled?
    decreases |events|
  {
    hide Next, Fanning;
    if events != [] {
      assert events[0] in events;
      NobodyCancelledStep(env, s, events[0]);
      NobodyCancelled(env, Next(env, s, events[0]), events[1..], t);
    }
  }

  lemma TenantsAreWorkers(env: Env, s: Sys)
    requires Reachable(env, s) && s.phase.Fan?
    ensures forall u :: u in s.phase.workers <==> u in s.cache.tenants
    ensures "" !in s.cache.tenants
  {
    hide Reachable, Holders, ReachableStates.ExplicitListed;
    Guarantees.TenantListIsSound(env, s);
    assert forall u :: u in s.phase.workers <==> u in s.phase.workers.Keys;
  }
}
