/** The bound on the age of the cache is not vacuous: a steady run in which only one module is on. */
module SteadyRun {
  import opened Prelude
  import opened Series
  import opened Tenants
  import opened Cache
  import opened Refresh
  import opened RefreshInvariants
  import opened Readiness
  import opened CleanRefresh
  import opened TenantRun
  import opened Scheduler
  import Coverage
  import Guarantees

  const CONTROLLER := Controller(
    run => None, run => None, (run, t) => None, (run, t) => None, (run, t) => None, (run, t) => None, (run, t) => None,
    (run, t, m) => Some(map[]), (run, m) => None)

  const RENDERER := Renderer(_ => map[], _ => map[], _ => map[], _ => map[], _ => map[])

  /** One tenant, and of all modules only the global services. */
  const ENV := Env(
    {Cluster, ClusterInventory, ControllerMetrics, SEConfig, SEList, SEInventory, SEMetrics, AdminVSMetrics, VSList, VSInventory,
     VSMetrics, PoolList, PoolInventory, PoolMetrics, PoolMembers, VsVipList, VsVip, PoolGroup, Module.Topology},
    ["a"], 1, CONTROLLER, RENDERER)

  /** In the first refresh, all of it at time 0. */
  ghost predicate Going(s: Sys) {
    && s.run == 0 && s.now == 0 && s.started == 0 && s.last.None?
    && exists events :: SteadilyReaches(ENV, events, Timed(s, 0, None, false))
  }

  lemma Append(events: seq<TimedEvent>, before: Timed, te: TimedEvent) returns (more: seq<TimedEvent>)
    requires SteadilyReaches(ENV, events, before) && TimedEnabled(ENV, before, te) && Steady(ENV, before, te)
    ensures SteadilyReaches(ENV, more, TimedNext(ENV, before, te))
  {
    hide TimedEnabled, Steady, TimedNext;
    more := events + [te];
    assert more[..|more| - 1] == events;
  }

  lemma Step(s: Sys, a: Action) returns (t: Sys)
    requires Going(s) && Enabled(ENV, s, Event(0, a)) && !a.Finish?
    ensures t == Next(ENV, s, Event(0, a)) && Going(t)
  {
    hide Next, Enabled, SteadilyReaches, ENV;
    t := Next(ENV, s, Event(0, a));
    NextClock(ENV, s, Event(0, a));
    var events :| SteadilyReaches(ENV, events, Timed(s, 0, None, false));
    var _ := Append(events, Timed(s, 0, None, false), Act(Event(0, a)));
  }

  lemma NoStar()
    ensures WithoutStar(["a"]) == ["a"] && "*" !in ["a"]
  {
    assert ["a"][..0] == [];
    assert WithoutStar(["a"][..0]) == [];
  }

  lemma Normalized()
    ensures NormalizedNames(["a"]) == ["a"]
  {
    hide NormalizedNames;
    SortedUnique(NormalizedNames(["a"]), ["a"]);
  }

  lemma OnlyA()
    ensures !Wildcard(ENV.configured) && StaticTenants(ENV.configured) == ["a"]
  {
    assert ENV.configured == ["a"];
    hide WithoutStar, NormalizedNames, ENV;
    NoStar();
    Normalized();
  }

  /** The main agent stands before a stage; nothing has failed. */
  ghost predicate AtStage(s: Sys, pc: nat) {
    && s.phase.Main? && s.phase.main.owner == "" && s.phase.main.pc == pc && s.phase.main.mid.None? && s.phase.main.local.ok
    && (pc >= 2 ==> s.phase.main.local.tenants == ["a"] && s.cache.tenants == ["a"])
  }

  lemma NothingToRun(pc: nat, l: Local)
    requires pc < 10
    ensures MainStage(pc).Run? ==> !Attempts(ENV, MainStage(pc).m, l)
    ensures MainStage(pc).Run? || (pc == 1 && MainStage(pc).ResolveTenants?)
  {
    OnlyA();
    hide Wildcard, StaticTenants;
  }

  lemma SkipModule(s: Sys, pc: nat) returns (t: Sys)
    requires Going(s) && AtStage(s, pc) && pc < 10 && pc != 1
    ensures Going(t) && AtStage(t, pc + 1)
  {
    NothingToRun(pc, s.phase.main.local);
    assert s.now == 0 && (pc >= 2 || pc == 0);
    hide Going, ENV, Attempts, MainStage, LedgerEffect;
    t := Step(s, MainStep);
  }

  lemma Settling(a: Agent, cached: seq<string>)
    requires a.owner == "" && a.pc == 1 && a.mid.None? && a.local.ok
    ensures AgentEffect(ENV, 0, a, cached) == Writes(WriteTenants(["a"]))
    ensures AgentNext(ENV, 0, a, cached, 0) == a.(pc := 2, local := a.local.(tenants := ["a"]))
    ensures !AgentDone(a)
  {
    OnlyA();
    hide ENV, StaticTenants, Wildcard;
  }

  lemma SettleTenants(s: Sys) returns (t: Sys)
    requires Going(s) && AtStage(s, 1)
    ensures Going(t) && AtStage(t, 2)
  {
    assert s.now == 0 && s.run == 0;
    Settling(s.phase.main, s.cache.tenants);
    TenantsAfter(s.cache, Writes(WriteTenants(["a"])));
    hide Going, ENV, AgentEffect, AgentNext, AgentDone, ApplyEffect, LedgerEffect;
    t := Step(s, MainStep);
  }

  lemma {:induction false} MainRuns(s: Sys, pc: nat) returns (t: Sys)
    requires Going(s) && AtStage(s, pc) && pc <= 10
    ensures Going(t) && AtStage(t, 10)
    decreases 10 - pc
  {
    hide Going, AtStage;
    t := s;
    if pc < 10 {
      if pc == 1 {
        t := SettleTenants(s);
      } else {
        t := SkipModule(s, pc);
      }
      t := MainRuns(t, pc + 1);
    }
  }

  /** The tenant's goroutine stands before a stage; nothing has failed. */
  ghost predicate WorkerAt(s: Sys, pc: nat) {
    && s.phase.Fan? && s.phase.finished.local.ok && s.cache.tenants == ["a"]
    && s.phase.workers.Keys == {"a"}
    && s.phase.workers["a"].Active?
    && var a := s.phase.workers["a"].agent;
       a.owner == "a" && a.pc == pc && a.mid.None? && a.local.ok
  }

  lemma OnlyGslbRuns(pc: nat, l: Local)
    requires pc < 12
    ensures TenantStage(pc).Run?
    ensures var m := TenantStage(pc).m;
            Attempts(ENV, m, l) ==>
              m == Gslb && Execute(ENV, 0, "a", m, l) == Outcome(true, WriteSlice(GGslb, "a", map[]), l)
  {
  }

  /** The two sections of a stage, or the step over it, in the goroutine's variables and in the cache. */
  lemma StageShape(a: Agent, pc: nat, cached: seq<string>)
    requires a.owner == "a" && a.pc == pc < 12 && a.mid.None? && a.local.ok
    ensures !AgentDone(a) && TenantStage(pc).Run?
    ensures var m := TenantStage(pc).m;
            if Attempts(ENV, m, a.local) then
              var b := a.(mid := Some(Mid(true, 0)));
              && m == Gslb
              && AgentEffect(ENV, 0, a, cached) == Writes(WriteSlice(GGslb, "a", map[])) && AgentNext(ENV, 0, a, cached, 0) == b
              && AgentEffect(ENV, 0, b, cached) == Books(ModuleKey(Gslb, "a"), true, 0)
              && AgentNext(ENV, 0, b, cached, 0) == a.(pc := pc + 1, log := a.log + [ModuleKey(Gslb, "a")])
              && !AgentDone(b)
            else
              AgentEffect(ENV, 0, a, cached) == Nothing && AgentNext(ENV, 0, a, cached, 0) == a.(pc := pc + 1)
  {
    OnlyGslbRuns(pc, a.local);
    StageSteps(ENV, 0, a, TenantStage(pc).m, cached, 0);
    hide ENV, Attempts, Execute, TenantStage, AgentEffect, AgentNext, AgentDone;
  }

  lemma AtZero(s: Sys)
    requires Going(s)
    ensures s.now == 0 && s.run == 0
  {
    hide ENV, SteadilyReaches;
  }

  lemma PassWorkerStage(s: Sys, pc: nat) returns (t: Sys)
    requires Going(s) && WorkerAt(s, pc) && pc < 12
    ensures Going(t) && WorkerAt(t, pc + 1)
  {
    hide Going, ENV, Attempts, TenantStage, AgentEffect, AgentNext, AgentDone, ApplyEffect, Next, Enabled;
    var a := s.phase.workers["a"].agent;
    AtZero(s);
    StageShape(a, pc, s.cache.tenants);
    WorkerMayStep(ENV, s, "a", a, 0);
    TenantsAfter(s.cache, AgentEffect(ENV, 0, a, s.cache.tenants));
    t := Step(s, WorkerStep("a"));
    if Attempts(ENV, TenantStage(pc).m, a.local) {
      t := BookGslb(t, pc, a);
    }
  }

  lemma BookGslb(s: Sys, pc: nat, a: Agent) returns (t: Sys)
    requires Going(s) && s.phase.Fan? && s.phase.finished.local.ok && s.cache.tenants == ["a"] && s.phase.workers.Keys == {"a"}
    requires s.phase.workers["a"] == Active(a.(mid := Some(Mid(true, 0)))) && !AgentDone(a.(mid := Some(Mid(true, 0))))
    requires a.owner == "a" && a.pc == pc && a.local.ok
    requires AgentEffect(ENV, 0, a.(mid := Some(Mid(true, 0))), ["a"]) == Books(ModuleKey(Gslb, "a"), true, 0)
    requires AgentNext(ENV, 0, a.(mid := Some(Mid(true, 0))), ["a"], 0) == a.(pc := pc + 1, log := a.log + [ModuleKey(Gslb, "a")])
    requires a.mid.None?
    ensures Going(t) && WorkerAt(t, pc + 1)
  {
    hide Going, ENV, AgentEffect, AgentNext, AgentDone, ApplyEffect, Next, Enabled;
    AtZero(s);
    TenantsAfter(s.cache, Books(ModuleKey(Gslb, "a"), true, 0));
    WorkerMayStep(ENV, s, "a", a.(mid := Some(Mid(true, 0))), 0);
    t := Step(s, WorkerStep("a"));
  }

  lemma {:induction false} WorkerRuns(s: Sys, pc: nat) returns (t: Sys)
    requires Going(s) && WorkerAt(s, pc) && pc <= 12
    ensures Going(t) && WorkerAt(t, 12)
    decreases 12 - pc
  {
    hide Going, WorkerAt;
    t := s;
    if pc < 12 {
      t := PassWorkerStage(s, pc);
      t := WorkerRuns(t, pc + 1);
    }
  }

  lemma SpawnA(s: Sys) returns (t: Sys)
    requires Going(s) && AtStage(s, 10)
    ensures Going(t) && WorkerAt(t, 0)
  {
    assert s.now == 0;
    hide Going;
    t := Step(s, Spawn);
    assert t.phase.workers.Keys == {"a"};
    assert Holders(t.phase.workers) == {};
    t := Step(t, Admit("a"));
  }

  lemma Publishing(a: Agent, cached: seq<string>)
    requires a.owner == "a" && a.pc == 12 && a.mid.None?
    ensures AgentEffect(ENV, 0, a, cached) == PublishesUp("a", a.local.ok)
    ensures AgentNext(ENV, 0, a, cached, 0) == a.(pc := 13)
    ensures !AgentDone(a) && AgentDone(a.(pc := 13))
  {
    hide ENV;
  }

  lemma Publish(s: Sys) returns (t: Sys)
    requires Going(s) && WorkerAt(s, 12)
    ensures Going(t) && CleanEnd(t) && t.cache.tenants == ["a"]
  {
    assert s.now == 0 && s.run == 0;
    Publishing(s.phase.workers["a"].agent, s.cache.tenants);
    hide Going, ENV, AgentEffect, AgentNext, AgentDone, LedgerEffect;
    t := Step(s, WorkerStep("a"));
    assert t.phase.workers.Keys == {"a"};
  }

  lemma Begin() returns (s: Sys)
    ensures Going(s) && AtStage(s, 0)
  {
    assert SteadilyReaches(ENV, [], START);
    hide ENV, SteadilyReaches;
    s := Step(Initial(), Start);
  }

  lemma GslbWanted()
    ensures WantedOfTenant(ENV, Gslb)
  {
  }

  lemma GslbRequired()
    ensures ModuleKey(Gslb, "a") in RequiredModuleKeys(ENV, ["a"])
  {
    GslbWanted();
    hide ENV;
    RequiredOnce(ENV, ["a"]);
    hide RequiredModuleKeys, WantedOfTenant, WantedOfController;
  }

  /** There are steady runs with a finished refresh and a required module, and the cache is ready in them. */
  lemma SteadyRunsExist() returns (events: seq<TimedEvent>, st: Timed)
    ensures SteadilyReaches(ENV, events, st) && st.sys.run >= 1 && MayReach(st, st.clock)
    ensures RequiredModuleKeys(ENV, st.sys.cache.tenants) != []
    ensures Ready(ENV, st.sys.cache, st.clock)
  {
    hide Going, AtStage, WorkerAt, ENV, RequiredModuleKeys, Ready, CleanEnd;
    var s := Begin();
    s := MainRuns(s, 0);
    s := SpawnA(s);
    s := WorkerRuns(s, 0);
    s := Publish(s);
    events, st := FinishFirst(s);
    GslbRequired();
    ReadyNeverLapses(ENV, events, st, st.clock);
  }

  lemma FinishFirst(s: Sys) returns (events: seq<TimedEvent>, st: Timed)
    requires Going(s) && CleanEnd(s)
    ensures SteadilyReaches(ENV, events, st) && st.sys.run == 1 && st.sys.cache == s.cache && MayReach(st, st.clock)
  {
    hide ENV, SteadilyReaches, Clean;
    var before :| SteadilyReaches(ENV, before, Timed(s, 0, None, false));
    events := Append(before, Timed(s, 0, None, false), Act(Event(0, Finish)));
    st := TimedNext(ENV, Timed(s, 0, None, false), Act(Event(0, Finish)));
  }
}
