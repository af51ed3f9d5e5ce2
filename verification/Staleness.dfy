/** Readiness and the self metrics in terms of the times at which modules last succeeded. */
module Staleness {
  import opened Prelude
  import opened Series
  import opened Cache
  import opened Refresh
  import opened RefreshInvariants
  import opened Readiness
  import opened Guarantees
  import Scheduler

  /** How many minutes a module's last success counts. */
  function FreshMinutes(m: Module): nat {
    match m
    case TenantDiscovery => 30
    case PoolMembers => 20
    case VSMetrics => 15
    case AdminVSMetrics => 15
    case PoolMetrics => 15
    case SEMetrics => 15
    case ControllerMetrics => 15
    case _ => 10
  }

  /** The module has a success on record that is not too old. */
  predicate SucceededLately(c: CacheState, k: ModuleKey, now: int) {
    && k in c.states && c.states[k].lastSuccess.Some?
    && now - c.states[k].lastSuccess.value <= FreshMinutes(k.name) * 60_000_000_000
  }

  lemma StaleExactly(c: CacheState, k: ModuleKey, now: int)
    requires KeyAgrees(c, k) && k in c.states
    ensures c.states[k].IsStale(now) <==> !SucceededLately(c, k, now)
    ensures c.states[k].required
  {
  }

  /** The cache is ready exactly if some module is required, every required module has succeeded lately,
      and so has every module on record. */
  lemma ReadyExactly(env: Env, c: CacheState, now: int)
    requires CountersAgree(c)
    ensures Ready(env, c, now) <==>
              && RequiredModuleKeys(env, c.tenants) != []
              && (forall k :: k in RequiredModuleKeys(env, c.tenants) ==> SucceededLately(c, k, now))
              && (forall k :: k in c.states ==> SucceededLately(c, k, now))
  {
    hide RequiredModuleKeys, KeyAgrees, SucceededLately, ModuleState.IsStale;
    forall k | k in c.states ensures c.states[k].required && (c.states[k].IsStale(now) <==> !SucceededLately(c, k, now)) {
      assert KeyAgrees(c, k);
      StaleExactly(c, k, now);
    }
    assert forall k :: k !in c.states ==> !SucceededLately(c, k, now) by {
      forall k | k !in c.states ensures !SucceededLately(c, k, now) {
        UnrecordedIsNotLate(c, k, now);
      }
    }
  }

  lemma UnrecordedIsNotLate(c: CacheState, k: ModuleKey, now: int)
    requires k !in c.states
    ensures !SucceededLately(c, k, now)
  {
  }

  /** In every reachable state, however often a module was attempted since: a scrape shows the age of its
      last success, and calls it stale exactly if it has not succeeded lately; and a module, required or on
      record, that has not keeps the cache from being ready. */
  lemma OldSuccessBlocks(env: Env, s: Sys, k: ModuleKey, now: nat)
    requires Reachable(env, s) && s.now <= now
    ensures k in s.cache.states ==>
              var n := Next(env, s, Event(now, Scrape));
              && k in n.cache.stale && n.cache.stale[k] == !SucceededLately(s.cache, k, now)
              && k in n.cache.age
              && n.cache.age[k] == if s.cache.states[k].lastSuccess.None? then 0 else now - s.cache.states[k].lastSuccess.value
    ensures (k in s.cache.states || k in RequiredModuleKeys(env, s.cache.tenants)) && !SucceededLately(s.cache, k, now) ==>
              !Ready(env, s.cache, now)
  {
    hide Reachable, RequiredModuleKeys, KeyAgrees, SucceededLately, ModuleState.IsStale, Ready;
    ReachableCounters(env, s);
    ReadyExactly(env, s.cache, now);
    if k in s.cache.states {
      assert KeyAgrees(s.cache, k);
      StaleExactly(s.cache, k, now);
      Scheduler.NextCache(env, s, Event(now, Scrape));
      ObservedExactly(s.cache, k, now);
    }
  }

  lemma ReachableCounters(env: Env, s: Sys)
    requires Reachable(env, s)
    ensures CountersAgree(s.cache)
  {
    hide Reachable, CountersAgree, Attempted, Resident, Sourced, Agrees, GoodTenants;
    ReachableStore(env, s);
  }

  lemma ObservedExactly(c: CacheState, k: ModuleKey, now: int)
    requires k in c.states
    ensures var d := Observe(c, now);
            && k in d.stale && d.stale[k] == c.states[k].IsStale(now)
            && k in d.age && d.age[k] == if c.states[k].lastSuccess.None? then 0 else now - c.states[k].lastSuccess.value
  {
    hide ModuleState.IsStale;
  }
}
