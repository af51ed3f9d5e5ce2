/** A refresh without errors attempts exactly the modules that readiness requires. */
module Coverage {
  import opened Prelude
  import opened Series
  import opened Tenants
  import opened Cache
  import opened Refresh
  import opened Snapshots
  import opened RefreshInvariants
  import opened ReachableStates
  import opened Guarantees
  import opened Readiness
  import Topology
  import Enrichment

  // ---- the modules of an agent's first stages ----

  function StageAt(owner: string, pc: nat): Stage {
    if owner == "" then MainStage(pc) else TenantStage(pc)
  }

  function StagesUpTo(owner: string, pc: nat): seq<Module> {
    if pc == 0 then []
    else StagesUpTo(owner, pc - 1) + if StageAt(owner, pc - 1).Run? then [StageAt(owner, pc - 1).m] else []
  }

  // ---- what an agent without errors has done so far ----

  ghost predicate Logged(env: Env, tenants: seq<string>, a: Agent) {
    a.local.ok ==>
      && a.log == Select(env, a.owner, tenants, StagesUpTo(a.owner, a.pc))
      && (a.mid.Some? && StageOf(a).Run? ==> WantedBy(env, a.owner, StageOf(a).m, tenants))
  }

  ghost predicate HasRun(a: Agent, pc: nat) {
    a.pc > pc || (a.pc == pc && a.mid.Some? && a.mid.value.ok)
  }

  /** The lists that later stages wait for are there. */
  ghost predicate Listed(env: Env, a: Agent) {
    a.local.ok ==>
      if a.owner == "" then
        HasRun(a, 6) && On(env, SEInventory) ==> a.local.seItems.Some?
      else
        && (HasRun(a, 0) && NeedVS(env) ==> a.local.vs.Some?)
        && (HasRun(a, 3) && NeedPools(env) ==> a.local.pools.Some?)
        && (HasRun(a, 7) && NeedVsVip(env) ==> a.local.vsvips.Some?)
  }

  /** Whether the module can be wanted at all, whatever the tenants. */
  ghost predicate Conceivable(env: Env, k: ModuleKey) {
    || k == ModuleKey(AdminVSMetrics, "admin")
    || (k.tenant == "" && WantedOfController(env, k.name, []))
    || (k.tenant != "" && WantedOfTenant(env, k.name))
  }

  ghost predicate MidConceivable(env: Env, a: Agent, started: nat) {
    a.mid.Some? ==>
      StageOf(a).Run? && Conceivable(env, KeyFor(a.owner, StageOf(a).m)) && started <= a.mid.value.at
  }

  /** The module has succeeded since then. */
  ghost predicate SucceededSince(c: CacheState, k: ModuleKey, started: nat) {
    k in c.states && c.states[k].lastSuccess.Some? && started <= c.states[k].lastSuccess.value
  }

  ghost predicate LogSucceeded(c: CacheState, a: Agent, started: nat) {
    a.local.ok ==> forall k :: k in a.log ==> SucceededSince(c, k, started)
  }

  ghost predicate Covered(env: Env, c: CacheState, a: Agent, started: nat) {
    && Logged(env, c.tenants, a)
    && Listed(env, a)
    && MidConceivable(env, a, started)
    && LogSucceeded(c, a, started)
  }

  // ---- one step ----

  /** A list module that succeeds leaves its list. */
  lemma FetchedIsListed(env: Env, run: nat, a: Agent, now: nat)
    requires Listed(env, a) && a.mid.None? && StageOf(a).Run?
    ensures var m := StageOf(a).m;
            var o := Execute(env, run, a.owner, m, a.local);
            Listed(env, a.(mid := Some(Mid(o.ok, now)), local := o.local))
  {
    hide Topology.TopologyRows, Enrichment.EnrichedInventory, Discovered, Found, NeedVS, NeedPools, NeedVsVip, On;
  }

  lemma StepKeepsListed(env: Env, run: nat, a: Agent, cached: seq<string>, now: nat)
    requires Listed(env, a) && (a.mid.Some? ==> StageOf(a).Run?)
    ensures Listed(env, AgentNext(env, run, a, cached, now))
  {
    if StageOf(a).Run? && a.mid.None? {
      FetchedIsListed(env, run, a, now);
    }
    hide Execute, Resolved;
  }

  lemma StepKeepsMidConceivable(env: Env, run: nat, a: Agent, cached: seq<string>, now: nat, started: nat)
    requires MidConceivable(env, a, started) && started <= now
    ensures MidConceivable(env, AgentNext(env, run, a, cached, now), started)
  {
    hide Execute, Resolved, On, NeedVS, NeedPools, NeedVsVip, Wildcard;
  }

  /** Without errors so far, a module is attempted exactly when it is wanted. */
  lemma AttemptsAreWanted(env: Env, a: Agent, tenants: seq<string>)
    requires StageOf(a).Run? && a.local.ok && Listed(env, a)
    requires a.owner == "" && a.pc >= 2 ==> a.local.tenants == tenants
    ensures Attempts(env, StageOf(a).m, a.local) == WantedBy(env, a.owner, StageOf(a).m, tenants)
  {
    hide ShouldCollectAdmin, Wildcard;
  }

  lemma EarlyStages(owner: string, pc: nat)
    requires owner == "" && pc <= 2
    ensures StagesUpTo(owner, pc) == if pc == 0 then [] else [TenantDiscovery]
  {
    assert StagesUpTo(owner, 0) == [];
    assert StagesUpTo(owner, 1) == [TenantDiscovery];
    if pc == 2 {
      assert StagesUpTo(owner, 2) == StagesUpTo(owner, 1) + [];
    }
  }

  lemma EarlySelection(env: Env, t1: seq<string>, t2: seq<string>, pc: nat)
    requires pc <= 2
    ensures Select(env, "", t1, StagesUpTo("", pc)) == Select(env, "", t2, StagesUpTo("", pc))
    ensures forall k :: k in Select(env, "", t1, StagesUpTo("", pc)) ==> k.tenant == ""
  {
    EarlyStages("", pc);
    hide StagesUpTo, ShouldCollectAdmin, Wildcard, PolicyFor;
    if pc > 0 {
      assert [TenantDiscovery][..0] == [];
    }
  }

  lemma SelectMore(env: Env, owner: string, tenants: seq<string>, pc: nat)
    ensures Select(env, owner, tenants, StagesUpTo(owner, pc + 1))
            == Select(env, owner, tenants, StagesUpTo(owner, pc))
               + if StageAt(owner, pc).Run? && WantedBy(env, owner, StageAt(owner, pc).m, tenants)
                 then [KeyFor(owner, StageAt(owner, pc).m)] else []
  {
    hide WantedBy, KeyFor, PolicyFor, MainStage, TenantStage;
    var before, after := StagesUpTo(owner, pc), StagesUpTo(owner, pc + 1);
    if StageAt(owner, pc).Run? {
      AlwaysRequired(StageAt(owner, pc).m);
      assert after[..|after| - 1] == before;
    } else {
      assert after == before;
    }
  }

  lemma ExecuteKeepsOk(env: Env, run: nat, owner: string, m: Module, l: Local)
    ensures Execute(env, run, owner, m, l).local.ok == l.ok
  {
    hide Topology.TopologyRows, Enrichment.EnrichedInventory, Discovered, Found;
  }

  lemma SkippedLog(env: Env, a: Agent, tenants: seq<string>)
    requires Logged(env, tenants, a) && a.mid.None?
    requires StageOf(a).Run? ==> !WantedBy(env, a.owner, StageOf(a).m, tenants)
    ensures Logged(env, tenants, a.(pc := a.pc + 1))
  {
    SelectMore(env, a.owner, tenants, a.pc);
    hide WantedBy, Select, StagesUpTo, MainStage, TenantStage, KeyFor;
  }

  lemma BookedLog(env: Env, a: Agent, tenants: seq<string>, l: Local)
    requires Logged(env, tenants, a) && a.mid.Some? && StageOf(a).Run? && (l.ok ==> a.local.ok)
    ensures Logged(env, tenants, a.(mid := None, pc := a.pc + 1, log := a.log + [KeyFor(a.owner, StageOf(a).m)], local := l))
  {
    SelectMore(env, a.owner, tenants, a.pc);
    hide WantedBy, Select, StagesUpTo, MainStage, TenantStage, KeyFor;
  }

  /** The log before and after a step that leaves the tenants alone. */
  lemma StepKeepsLogged(env: Env, run: nat, a: Agent, tenants: seq<string>, now: nat)
    requires Logged(env, tenants, a) && Listed(env, a) && (a.mid.Some? ==> StageOf(a).Run?)
    requires a.owner == "" && a.pc >= 2 ==> a.local.tenants == tenants
    ensures Logged(env, tenants, AgentNext(env, run, a, tenants, now))
  {
    hide Execute, Attempts, Resolved, WantedBy, KeyFor, Select, StagesUpTo, MainStage, TenantStage;
    if StageOf(a).Run? {
      var m := StageOf(a).m;
      if a.local.ok {
        AttemptsAreWanted(env, a, tenants);
      }
      hide Listed;
      ExecuteKeepsOk(env, run, a.owner, m, a.local);
      if a.mid.Some? {
        BookedLog(env, a, tenants, a.local.(ok := a.local.ok && a.mid.value.ok));
      } else if !Attempts(env, m, a.local) && a.local.ok {
        SkippedLog(env, a, tenants);
      }
    } else if a.local.ok {
      hide Listed;
      SkippedLog(env, a, tenants);
    }
  }

  // ---- what has been booked ----

  lemma SuccessStays(c: CacheState, e: Effect, k: ModuleKey, started: nat)
    requires SucceededSince(c, k, started)
    requires e.Writes? && e.write.WriteTenants? ==> k.tenant !in c.tenants
    requires e.Books? ==> started <= e.finished
    ensures SucceededSince(ApplyEffect(c, e), k, started)
  {
    StatesAfter(c, e, k);
    hide ApplyEffect, PolicyFor;
  }

  lemma StepKeepsLogSucceeded(env: Env, run: nat, c: CacheState, a: Agent, now: nat, started: nat)
    requires LogSucceeded(c, a, started) && MidConceivable(env, a, started)
    requires forall k :: k in a.log && a.owner == "" && a.pc < 2 ==> k.tenant !in c.tenants
    requires a.owner != "" ==> FromThisRun(env, run, a)
    ensures LogSucceeded(ApplyEffect(c, AgentEffect(env, run, a, c.tenants)), AgentNext(env, run, a, c.tenants, now), started)
  {
    var e := AgentEffect(env, run, a, c.tenants);
    var b := AgentNext(env, run, a, c.tenants, now);
    EffectShape(env, run, a, c.tenants);
    LogShape(env, run, a, c.tenants, now);
    hide AgentEffect, AgentNext, KeyFor, MainStage, TenantStage, FromThisRun, Conceivable;
    if b.local.ok {
      forall k | k in b.log ensures SucceededSince(ApplyEffect(c, e), k, started) {
        if k in a.log {
          hide ApplyEffect;
          SuccessStays(c, e, k, started);
        } else {
          StatesAfter(c, e, k);
          hide ApplyEffect, PolicyFor;
        }
      }
    }
  }

  /** Agents replace the tenant list only before their tenants are settled, and book their own runs. */
  lemma EffectShape(env: Env, run: nat, a: Agent, cached: seq<string>)
    requires a.owner != "" ==> FromThisRun(env, run, a)
    ensures var e := AgentEffect(env, run, a, cached);
            && (e.Writes? && e.write.WriteTenants? ==> a.owner == "" && a.pc < 2)
            && (e.Books? ==> StageOf(a).Run? && a.mid.Some? && e.key == KeyFor(a.owner, StageOf(a).m)
                             && e.ok == a.mid.value.ok && e.finished == a.mid.value.at)
            && (StageOf(a).Run? && a.mid.Some? ==> e.Books?)
  {
    if a.owner != "" {
      TenantWritesItsRendering(env, run, a, cached);
      hide Execute, Attempts, Resolved, KeyFor, Rendering, PerTenant, FromThisRun;
    } else {
      hide Discovered, Found, Topology.TopologyRows, Enrichment.EnrichedInventory, Attempts, Resolved;
    }
  }

  lemma LogShape(env: Env, run: nat, a: Agent, cached: seq<string>, now: nat)
    ensures var b := AgentNext(env, run, a, cached, now);
            && (b.local.ok ==> a.local.ok)
            && b.owner == a.owner
            && b.log == (if StageOf(a).Run? && a.mid.Some? then a.log + [KeyFor(a.owner, StageOf(a).m)] else a.log)
            && (StageOf(a).Run? && a.mid.Some? && b.local.ok ==> a.mid.value.ok)
            && (b.pc <= a.pc + 1)
            && (b.mid.Some? && StageOf(a).Run? ==> b.pc == a.pc)
  {
    if StageOf(a).Run? {
      ExecuteKeepsOk(env, run, a.owner, StageOf(a).m, a.local);
    }
    hide Execute, Attempts, Resolved, KeyFor, MainStage, TenantStage;
  }

  lemma EarlyLog(env: Env, tenants: seq<string>, a: Agent)
    requires a.owner == "" && a.pc < 2 && a.local.ok && Logged(env, tenants, a)
    ensures forall k :: k in a.log ==> k.tenant == ""
  {
    EarlySelection(env, tenants, tenants, a.pc);
    hide Select, StagesUpTo;
  }

  /** Early in a refresh the log does not depend on the tenants. */
  lemma EarlyLogged(env: Env, t1: seq<string>, t2: seq<string>, a: Agent)
    requires a.owner == "" && a.pc <= 2 && Logged(env, t1, a) && (a.mid.Some? ==> a.pc < 2)
    ensures Logged(env, t2, a)
  {
    EarlySelection(env, t1, t2, a.pc);
    hide Select, StagesUpTo;
  }

  lemma MainStepKeepsCovered(env: Env, run: nat, c: CacheState, a: Agent, now: nat, started: nat)
    requires a.owner == "" && Covered(env, c, a, started) && "" !in c.tenants && started <= now
    requires a.pc >= 2 ==> a.local.tenants == c.tenants
    ensures Covered(env, ApplyEffect(c, AgentEffect(env, run, a, c.tenants)), AgentNext(env, run, a, c.tenants, now), started)
  {
    var e := AgentEffect(env, run, a, c.tenants);
    var b := AgentNext(env, run, a, c.tenants, now);
    assert a.mid.Some? ==> StageOf(a).Run?;
    StepKeepsListed(env, run, a, c.tenants, now);
    StepKeepsMidConceivable(env, run, a, c.tenants, now, started);
    StepKeepsLogged(env, run, a, c.tenants, now);
    EffectShape(env, run, a, c.tenants);
    LogShape(env, run, a, c.tenants, now);
    TenantsAfter(c, e);
    assert e.Writes? && e.write.WriteTenants? ==> b.mid.Some? ==> b.pc < 2;
    hide Listed, AgentEffect, AgentNext, ApplyEffect, Select, StagesUpTo, Conceivable;
    if a.pc < 2 {
      if a.local.ok {
        EarlyLog(env, c.tenants, a);
      }
      if e.Writes? && e.write.WriteTenants? {
        hide Logged;
        EarlyLogged(env, c.tenants, e.write.next, b);
      }
    }
    if a.local.ok {
      hide Logged;
      StepKeepsLogSucceeded(env, run, c, a, now, started);
    }
  }
}
