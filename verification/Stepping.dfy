/** Concrete runs of the refresh, built step by step: how the main agent passes its stages, and how a
    refresh is given up before any tenant is admitted. */
module Stepping {
  import opened Prelude
  import opened Series
  import opened Tenants
  import opened Cache
  import opened Refresh
  import opened TenantRun
  import Scheduler
  import Coverage

  /** The main agent stands before a stage. */
  ghost predicate AtStage(s: Sys, pc: nat) {
    s.phase.Main? && s.phase.main.owner == "" && s.phase.main.pc == pc && s.phase.main.mid.None?
  }

  lemma StepReaches(env: Env, s: Sys, e: Action) returns (t: Sys)
    requires Reachable(env, s) && Enabled(env, s, Event(s.now, e))
    ensures t == Next(env, s, Event(s.now, e)) && Reachable(env, t)
  {
    hide Reachable, Next, Enabled;
    t := Next(env, s, Event(s.now, e));
    Scheduler.ReachableNext(env, s, Event(s.now, e));
  }

  lemma StartRefresh(env: Env, s: Sys) returns (t: Sys)
    requires Reachable(env, s) && s.phase.Idle?
    ensures Reachable(env, t) && AtStage(t, 0) && t.run == s.run && t.now == s.now && t.cache == s.cache
    ensures t.phase.main.local.ok
  {
    hide Reachable;
    t := StepReaches(env, s, Start);
  }

  lemma PassStage(env: Env, s: Sys, pc: nat, m: Module) returns (t: Sys)
    requires Reachable(env, s) && AtStage(s, pc) && MainStage(pc) == Run(m)
    ensures Reachable(env, t) && AtStage(t, pc + 1) && t.run == s.run && t.now == s.now
    ensures (t.phase.main.local, t.cache) == ModuleRun(env, s.run, "", m, s.phase.main.local, s.cache, s.now)
  {
    hide Reachable, Execute, Attempts, ApplyWrite, Book, LedgerEffect, KeyFor, MainStage;
    Coverage.ExecuteKeepsOk(env, s.run, "", m, s.phase.main.local);
    t := StepReaches(env, s, MainStep);
    if Attempts(env, m, s.phase.main.local) {
      t := StepReaches(env, t, MainStep);
    }
  }

  /** Settling the tenants after a successful discovery does nothing. */
  lemma PassSettled(env: Env, s: Sys) returns (t: Sys)
    requires Reachable(env, s) && AtStage(s, 1) && Wildcard(env.configured) && s.phase.main.local.discovered
    ensures Reachable(env, t) && AtStage(t, 2) && t.run == s.run && t.now == s.now && t.cache == s.cache
    ensures t.phase.main.local == s.phase.main.local
  {
    hide Reachable, ApplyWrite, StaticTenants, Wildcard;
    t := StepReaches(env, s, MainStep);
  }

  /** A stage whose module is not attempted. */
  ghost predicate Passes(env: Env, pc: nat, l: Local) {
    MainStage(pc).Run? && !Attempts(env, MainStage(pc).m, l)
  }

  lemma {:induction false} SkipStages(env: Env, s: Sys, pc: nat, n: nat) returns (t: Sys)
    requires Reachable(env, s) && AtStage(s, pc) && forall p :: pc <= p < pc + n ==> Passes(env, p, s.phase.main.local)
    ensures Reachable(env, t) && AtStage(t, pc + n) && t.run == s.run && t.now == s.now
    ensures t.phase.main.local == s.phase.main.local && t.cache == s.cache
    decreases n
  {
    hide Reachable, MainStage, Attempts;
    t := s;
    if n > 0 {
      assert Passes(env, pc, s.phase.main.local);
      t := PassStage(env, s, pc, MainStage(pc).m);
      t := SkipStages(env, t, pc + 1, n - 1);
    }
  }

  /** The context is done before any tenant is admitted. */
  lemma GiveUp(env: Env, s: Sys) returns (t: Sys)
    requires Reachable(env, s) && AtStage(s, 10)
    ensures Reachable(env, t) && t.phase.Idle? && t.run == s.run + 1 && t.now == s.now && t.cache == s.cache
  {
    hide Reachable;
    t := StepReaches(env, s, Spawn);
    t := CancelAll(env, t, t.phase.workers.Keys);
    hide Clean;
    t := StepReaches(env, t, Finish);
  }

  lemma {:induction false} CancelAll(env: Env, s: Sys, todo: set<string>) returns (t: Sys)
    requires Reachable(env, s) && s.phase.Fan?
    requires forall u :: u in s.phase.workers ==> if u in todo then s.phase.workers[u].Waiting? else s.phase.workers[u].Cancelled?
    requires todo <= s.phase.workers.Keys
    ensures Reachable(env, t) && t.phase.Fan? && t.run == s.run && t.now == s.now && t.cache == s.cache
    ensures forall u :: u in t.phase.workers ==> t.phase.workers[u].Cancelled?
    decreases |todo|
  {
    hide Reachable;
    t := s;
    if todo != {} {
      var u :| u in todo;
      t := StepReaches(env, s, Cancel(u));
      t := CancelAll(env, t, todo - {u});
    }
  }

  // ---- discovering a single tenant ----

  lemma OnlyWildcard()
    ensures StaticTenants(["*"]) == [] && Wildcard(["*"])
  {
    assert ["*"][..0] == [];
    assert WithoutStar(["*"][..0]) == [];
    assert WithoutStar(["*"]) == [];
  }

  lemma DiscoveredAlone(name: string)
    requires name != ""
    ensures Discovered(["*"], [name]) == [name]
  {
    var found := Discovered(["*"], [name]);
    assert StaticTenants(["*"]) == [] by { OnlyWildcard(); }
    SortedUnique(found, [name]);
  }

  lemma DiscoveryOutcome(env: Env, run: nat, l: Local)
    requires Found(env, run).Some?
    ensures var next := Discovered(env.configured, Found(env, run).value);
            Execute(env, run, "", TenantDiscovery, l) == Outcome(true, WriteTenants(next), l.(tenants := next, discovered := true))
    ensures Attempts(env, TenantDiscovery, l) == Wildcard(env.configured)
    ensures KeyFor("", TenantDiscovery) == ModuleKey(TenantDiscovery, "")
  {
    hide Found, Discovered, Wildcard;
  }

  lemma DiscoveryRun(env: Env, run: nat, name: string, l: Local, c: CacheState, now: nat)
    requires env.configured == ["*"] && Found(env, run) == Some([name]) && name != "" && l.ok
    ensures ModuleRun(env, run, "", TenantDiscovery, l, c, now)
            == (l.(tenants := [name], discovered := true),
                Book(SetTenants(c, [name]), ModuleKey(TenantDiscovery, ""), true, now))
  {
    hide SetTenants, Book, Discovered, Wildcard, Found, Execute, Attempts, KeyFor, StaticTenants, ApplyWrite;
    OnlyWildcard();
    DiscoveredAlone(name);
    DiscoveryOutcome(env, run, l);
    SettingIsWriting(c, [name]);
  }

  lemma SettingIsWriting(c: CacheState, next: seq<string>)
    ensures ApplyWrite(c, WriteTenants(next)) == SetTenants(c, next)
  {
    hide SetTenants;
  }

  /** A refresh that discovers a single tenant stands before its first other module. */
  lemma BeginWith(env: Env, s: Sys, name: string) returns (t: Sys)
    requires Reachable(env, s) && s.phase.Idle?
    requires env.configured == ["*"] && Found(env, s.run) == Some([name]) && name != ""
    ensures Reachable(env, t) && AtStage(t, 2) && t.run == s.run && t.now == s.now
    ensures t.cache == Book(SetTenants(s.cache, [name]), ModuleKey(TenantDiscovery, ""), true, s.now)
    ensures t.phase.main.local.tenants == [name] && t.phase.main.local.ok
  {
    hide Reachable, ModuleRun, SetTenants, Book, Found, Wildcard, StaticTenants;
    OnlyWildcard();
    t := StartRefresh(env, s);
    DiscoveryRun(env, t.run, name, t.phase.main.local, t.cache, t.now);
    t := PassStage(env, t, 0, TenantDiscovery);
    t := PassSettled(env, t);
  }
}
