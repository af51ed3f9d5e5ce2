/** The fan-out phase of a refresh is such an interleaving: its outcome does not depend on how the
    tenants' goroutines were scheduled. */
module FanPhase {
  import opened Prelude
  import opened Series
  import opened Cache
  import opened Refresh
  import opened Interleaving
  import opened Guarantees
  import opened ReachableStates

  /** The events lead from s to t. */
  ghost predicate Follows(env: Env, s: Sys, events: seq<Event>, t: Sys)
    decreases |events|
  {
    if events == [] then s == t
    else Enabled(env, s, events[0]) && Follows(env, Next(env, s, events[0]), events[1..], t)
  }

  /** What happens while the tenants' goroutines are under way. */
  predicate Fanning(e: Event) {
    e.action.Admit? || e.action.Cancel? || e.action.WorkerStep? || e.action.Scrape?
  }

  /** The tenants whose goroutines were not turned away by the context. */
  function Admitted(t: Sys): set<string>
    requires t.phase.Fan?
  {
    set u | u in t.phase.workers && !t.phase.workers[u].Cancelled?
  }

  /** A goroutine that has not been admitted yet will start as a new agent. */
  function AgentOf(env: Env, t: string, w: Worker): Agent {
    if w.Active? then w.agent else NewAgent(env, t)
  }

  /** The fan-out as these tenants see it. */
  function View(env: Env, s: Sys, keep: set<string>): FanState
    requires s.phase.Fan?
  {
    FanState(map t | t in s.phase.workers && t in keep :: AgentOf(env, t, s.phase.workers[t]), s.cache)
  }

  /** The event is one of these tenants', or turns another away. */
  predicate Concerns(e: Event, keep: set<string>) {
    match e.action
    case Admit(t) => t in keep
    case WorkerStep(t) => t in keep
    case Cancel(t) => t !in keep
    case _ => e.action.Scrape?
  }

  function TurnsFor(e: Event): seq<Turn> {
    match e.action
    case WorkerStep(t) => [Turn(t, e.at)]
    case Scrape => [Look(e.at)]
    case _ => []
  }

  lemma FanRunOne(env: Env, run: nat, f: FanState, turn: Turn)
    ensures FanRun(env, run, f, [turn]) == FanStep(env, run, f, turn)
  {
    hide FanStep;
    assert [turn][..0] == [];
    assert FanRun(env, run, f, [turn][..0]) == f;
  }

  lemma WorkerStepIsTurn(env: Env, s: Sys, e: Event, keep: set<string>)
    requires s.phase.Fan? && WellOwned(View(env, s, keep)) && Enabled(env, s, e) && e.action.WorkerStep? && Concerns(e, keep)
    ensures var n := Next(env, s, e);
            && n.phase.Fan? && n.run == s.run
            && View(env, n, keep) == FanStep(env, s.run, View(env, s, keep), Turn(e.action.tenant, e.at))
  {
    hide AgentNext, AgentEffect, ApplyEffect, LedgerEffect, AgentDone, Holders;
    var t := e.action.tenant;
    var a := s.phase.workers[t].agent;
    assert View(env, s, keep).agents[t] == a;
    TenantEffects(env, s.run, a);
    var n := Next(env, s, e);
    var g := FanStep(env, s.run, View(env, s, keep), Turn(t, e.at));
    assert View(env, n, keep).cache == g.cache;
    assert View(env, n, keep).agents == g.agents;
  }

  lemma EventIsTurns(env: Env, s: Sys, e: Event, keep: set<string>)
    requires s.phase.Fan? && WellOwned(View(env, s, keep)) && Enabled(env, s, e) && Concerns(e, keep)
    ensures var n := Next(env, s, e);
            && n.phase.Fan? && n.run == s.run
            && View(env, n, keep) == FanRun(env, s.run, View(env, s, keep), TurnsFor(e))
            && WellOwned(View(env, n, keep)) && n.phase.workers.Keys == s.phase.workers.Keys
  {
    hide AgentNext, AgentEffect, ApplyEffect, LedgerEffect, AgentDone, Holders, FanStep, FanRun, Observe, NewAgent;
    RunWellOwned(env, s.run, View(env, s, keep), TurnsFor(e));
    var n := Next(env, s, e);
    if e.action.WorkerStep? {
      hide View;
      WorkerStepIsTurn(env, s, e, keep);
      FanRunOne(env, s.run, View(env, s, keep), Turn(e.action.tenant, e.at));
    } else if e.action.Scrape? {
      FanRunOne(env, s.run, View(env, s, keep), Look(e.at));
      assert View(env, n, keep) == FanStep(env, s.run, View(env, s, keep), Look(e.at)) by { ScrapeIsLook(env, s, e, keep); }
    } else {
      assert View(env, n, keep).agents == View(env, s, keep).agents;
      assert FanRun(env, s.run, View(env, s, keep), []) == View(env, s, keep) by { NoTurns(env, s.run, View(env, s, keep)); }
    }
  }

  lemma NoTurns(env: Env, run: nat, f: FanState)
    ensures FanRun(env, run, f, []) == f
  {
  }

  lemma ScrapeIsLook(env: Env, s: Sys, e: Event, keep: set<string>)
    requires s.phase.Fan? && e.action.Scrape? && Enabled(env, s, e)
    ensures View(env, Next(env, s, e), keep) == FanStep(env, s.run, View(env, s, keep), Look(e.at))
  {
    hide Observe;
  }

  function AllTurns(events: seq<Event>): seq<Turn> {
    if events == [] then [] else TurnsFor(events[0]) + AllTurns(events[1..])
  }

  /** Who is admitted stays so, and who is turned away too. */
  ghost predicate Lasts(s: Sys, t: Sys) {
    && s.phase.Fan? && t.phase.Fan? && s.phase.workers.Keys == t.phase.workers.Keys
    && forall u :: u in s.phase.workers ==>
         && (s.phase.workers[u].Active? ==> t.phase.workers[u].Active?)
         && (s.phase.workers[u].Cancelled? ==> t.phase.workers[u].Cancelled?)
  }

  lemma LastsStep(env: Env, s: Sys, e: Event)
    requires s.phase.Fan? && Enabled(env, s, e) && Fanning(e)
    ensures Lasts(s, Next(env, s, e))
    ensures e.action.Admit? ==> e.action.tenant in s.phase.workers && Next(env, s, e).phase.workers[e.action.tenant].Active?
    ensures e.action.Cancel? ==> e.action.tenant in s.phase.workers && Next(env, s, e).phase.workers[e.action.tenant].Cancelled?
    ensures e.action.WorkerStep? ==> e.action.tenant in s.phase.workers && s.phase.workers[e.action.tenant].Active?
  {
    hide AgentNext, AgentEffect, ApplyEffect, LedgerEffect, AgentDone, Holders, Observe, NewAgent;
  }

  lemma {:induction false} StatusLasts(env: Env, s: Sys, events: seq<Event>, t: Sys)
    requires s.phase.Fan? && Follows(env, s, events, t) && forall e :: e in events ==> Fanning(e)
    ensures Lasts(s, t)
    decreases |events|
  {
    hide Next, Enabled, Fanning;
    if events != [] {
      assert events[0] in events;
      LastsStep(env, s, events[0]);
      StatusLasts(env, Next(env, s, events[0]), events[1..], t);
    }
  }

  lemma EventConcernsAdmitted(env: Env, s: Sys, events: seq<Event>, t: Sys)
    requires s.phase.Fan? && events != [] && Follows(env, s, events, t) && forall e :: e in events ==> Fanning(e)
    ensures t.phase.Fan? && Concerns(events[0], Admitted(t)) && Next(env, s, events[0]).phase.Fan?
  {
    hide Next, Enabled;
    assert events[0] in events;
    LastsStep(env, s, events[0]);
    StatusLasts(env, Next(env, s, events[0]), events[1..], t);
    StatusLasts(env, s, events, t);
    match events[0].action
    case Admit(u) => assert t.phase.workers[u].Active?;
    case Cancel(u) => assert t.phase.workers[u].Cancelled?;
    case WorkerStep(u) => assert t.phase.workers[u].Active?;
    case _ =>
  }

  lemma {:induction false} EventsAreTurns(env: Env, s: Sys, events: seq<Event>, t: Sys)
    requires s.phase.Fan? && Follows(env, s, events, t) && (forall e :: e in events ==> Fanning(e))
    requires t.phase.Fan? && WellOwned(View(env, s, Admitted(t)))
    ensures t.run == s.run && t.phase.workers.Keys == s.phase.workers.Keys
    ensures View(env, t, Admitted(t)) == FanRun(env, s.run, View(env, s, Admitted(t)), AllTurns(events))
    ensures forall x :: x in AllTurns(events) && x.Turn? ==> x.tenant in Admitted(t)
    decreases |events|
  {
    hide Next, View, WellOwned, FanRun, Admitted, Fanning;
    var keep := Admitted(t);
    if events == [] {
      NoTurns(env, s.run, View(env, s, keep));
    } else {
      EventConcernsAdmitted(env, s, events, t);
      EventIsTurns(env, s, events[0], keep);
      EventsAreTurns(env, Next(env, s, events[0]), events[1..], t);
      FanRunAppend(env, s.run, View(env, s, keep), TurnsFor(events[0]), AllTurns(events[1..]));
    }
  }

  /** However the tenants' goroutines are scheduled, with scrapes anywhere in between and some turned away
      at any point, a fan-out ends with the cache that refreshing the admitted tenants one after another
      yields, in any order: the same gauges, up flags, counters and module states, up to timestamps. */
  lemma FanOutIsSequential(env: Env, s: Sys, events: seq<Event>, t: Sys, order: seq<string>)
    requires s.phase.Fan? && (forall u :: u in s.phase.workers ==> s.phase.workers[u].Waiting?)
    requires "" !in s.phase.workers
    requires Follows(env, s, events, t) && forall e :: e in events ==> Fanning(e)
    requires t.phase.Fan? && forall u :: u in t.phase.workers ==> WorkerFinished(t.phase.workers[u])
    requires NoDuplicates(order) && forall u :: u in order <==> u in Admitted(t)
    ensures EraseCache(t.cache) == SequentialRun(env, s.run, Erase(View(env, s, Admitted(t))), order).cache
  {
    hide SequentialRun, EraseCache, FanRun, AgentDone;
    StatusLasts(env, s, events, t);
    EventsAreTurns(env, s, events, t);
    assert AllDone(View(env, t, Admitted(t)));
    ScheduleIndependence(env, s.run, View(env, s, Admitted(t)), AllTurns(events), order);
  }
}
