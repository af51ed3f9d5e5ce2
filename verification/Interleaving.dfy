/** Tenants are refreshed concurrently, yet the outcome is that of refreshing them one after another,
    in any order: no step of one tenant's agent touches another tenant's part of the cache. */
module Interleaving {
  import opened Prelude
  import opened Series
  import opened Cache
  import opened Refresh

  /** The tenants' agents and the shared cache. */
  datatype FanState = FanState(agents: map<string, Agent>, cache: CacheState)

  /** One scheduled critical section, or a scrape. */
  datatype Turn = Turn(tenant: string, at: nat) | Look(now: nat)

  ghost predicate WellOwned(f: FanState) {
    forall t :: t in f.agents ==> f.agents[t].owner == t && t != ""
  }

  function FanStep(env: Env, run: nat, f: FanState, turn: Turn): FanState {
    match turn
    case Look(now) => f.(cache := Observe(f.cache, now))
    case Turn(t, at) =>
      if t !in f.agents then f
      else
        FanState(f.agents[t := AgentNext(env, run, f.agents[t], [], at)],
                 ApplyEffect(f.cache, AgentEffect(env, run, f.agents[t], [])))
  }

  function FanRun(env: Env, run: nat, f: FanState, turns: seq<Turn>): FanState {
    if turns == [] then f
    else FanStep(env, run, FanRun(env, run, f, turns[..|turns| - 1]), turns[|turns| - 1])
  }

  lemma {:induction false} FanRunAppend(env: Env, run: nat, f: FanState, a: seq<Turn>, b: seq<Turn>)
    ensures FanRun(env, run, f, a + b) == FanRun(env, run, FanRun(env, run, f, a), b)
  {
    hide FanStep;
    if b == [] {
      assert a + b == a;
    } else {
      var n := |b| - 1;
      FanRunAppend(env, run, f, a, b[..n]);
      assert (a + b)[..|a + b| - 1] == a + b[..n];
    }
  }

  // ---- one tenant's steps stay in that tenant's part ----

  /** The effect touches only series, states and flags of tenant t. */
  ghost predicate EffectOf(e: Effect, t: string) {
    match e
    case Nothing => true
    case Writes(w) => w.NoWrite? || (w.WriteSlice? && w.tenant == t)
    case Books(key, _, _) => key.tenant == t
    case PublishesUp(tenant, _) => tenant == t
  }

  lemma TenantEffects(env: Env, run: nat, a: Agent)
    requires a.owner != ""
    ensures EffectOf(AgentEffect(env, run, a, []), a.owner)
    ensures forall cached :: AgentEffect(env, run, a, cached) == AgentEffect(env, run, a, [])
    ensures forall cached, at :: AgentNext(env, run, a, cached, at) == AgentNext(env, run, a, [], at)
    ensures forall cached, at :: AgentNext(env, run, a, cached, at).owner == a.owner
  {
    hide Attempts;
  }

  lemma EffectsCommute(c: CacheState, e1: Effect, t1: string, e2: Effect, t2: string)
    requires t1 != t2 && EffectOf(e1, t1) && EffectOf(e2, t2)
    ensures ApplyEffect(ApplyEffect(c, e1), e2) == ApplyEffect(ApplyEffect(c, e2), e1)
  {
    hide Book, ReplaceSlice, ReplaceRaw, ReplaceGroup;
    if e1.Books? && e2.Books? {
      BooksCommute(c, e1.key, e1.ok, e1.finished, e2.key, e2.ok, e2.finished);
    } else if e1.Books? {
      BookTouchesOnlyStates(c, e1.key, e1.ok, e1.finished, e2);
    } else if e2.Books? {
      BookTouchesOnlyStates(c, e2.key, e2.ok, e2.finished, e1);
    } else if e1.Writes? && e2.Writes? && e1.write.WriteSlice? && e2.write.WriteSlice? {
      SlicesCommute(c.gauges, e1.write.group, t1, e1.write.rows, e2.write.group, t2, e2.write.rows);
    } else if e1.PublishesUp? && e2.PublishesUp? {
      UpdatesCommute(c.up, t1, e1.up, t2, e2.up);
    }
  }

  lemma BookTouchesOnlyStates(c: CacheState, key: ModuleKey, ok: bool, finished: nat, e: Effect)
    requires EffectOf(e, "") || exists t :: EffectOf(e, t)
    requires !e.Books?
    ensures ApplyEffect(Book(c, key, ok, finished), e) == Book(ApplyEffect(c, e), key, ok, finished)
  {
    hide BookedState, Inc, ReplaceSlice, ReplaceRaw, ReplaceGroup;
    assert BookedState(ApplyEffect(c, e), key, ok, finished) == BookedState(c, key, ok, finished) by {
      BookedStateReadsStates(c, ApplyEffect(c, e), key, ok, finished);
    }
  }

  lemma BookedStateReadsStates(c: CacheState, d: CacheState, key: ModuleKey, ok: bool, finished: nat)
    requires c.states == d.states
    ensures BookedState(c, key, ok, finished) == BookedState(d, key, ok, finished)
  {
  }

  lemma StepsCommute(env: Env, run: nat, f: FanState, x: Turn, y: Turn)
    requires WellOwned(f) && x.Turn? && y.Turn? && x.tenant != y.tenant
    ensures FanStep(env, run, FanStep(env, run, f, x), y) == FanStep(env, run, FanStep(env, run, f, y), x)
  {
    hide AgentNext, AgentEffect, ApplyEffect, EffectOf;
    if x.tenant in f.agents && y.tenant in f.agents {
      var a, b := f.agents[x.tenant], f.agents[y.tenant];
      TenantEffects(env, run, a);
      TenantEffects(env, run, b);
      EffectsCommute(f.cache, AgentEffect(env, run, a, []), x.tenant, AgentEffect(env, run, b, []), y.tenant);
      UpdatesCommute(f.agents, x.tenant, AgentNext(env, run, a, [], x.at), y.tenant, AgentNext(env, run, b, [], y.at));
    }
  }

  lemma StepWellOwned(env: Env, run: nat, f: FanState, x: Turn)
    requires WellOwned(f)
    ensures WellOwned(FanStep(env, run, f, x)) && FanStep(env, run, f, x).agents.Keys == f.agents.Keys
  {
    hide AgentNext, AgentEffect, ApplyEffect, Observe;
    if x.Turn? && x.tenant in f.agents {
      TenantEffects(env, run, f.agents[x.tenant]);
    }
  }

  lemma {:induction false} RunWellOwned(env: Env, run: nat, f: FanState, turns: seq<Turn>)
    requires WellOwned(f)
    ensures WellOwned(FanRun(env, run, f, turns)) && FanRun(env, run, f, turns).agents.Keys == f.agents.Keys
  {
    hide FanStep;
    if turns != [] {
      RunWellOwned(env, run, f, turns[..|turns| - 1]);
      StepWellOwned(env, run, FanRun(env, run, f, turns[..|turns| - 1]), turns[|turns| - 1]);
    }
  }

  // ---- reordering a schedule ----

  function Only(turns: seq<Turn>, t: string): seq<Turn> {
    if turns == [] then []
    else
      var n := |turns| - 1;
      Only(turns[..n], t) + if turns[n].Turn? && turns[n].tenant == t then [turns[n]] else []
  }

  function Without(turns: seq<Turn>, t: string): seq<Turn> {
    if turns == [] then []
    else
      var n := |turns| - 1;
      Without(turns[..n], t) + if turns[n].Turn? && turns[n].tenant == t then [] else [turns[n]]
  }

  /** The schedule that gives each tenant of `order` all of its turns before the next one starts. */
  function Serial(turns: seq<Turn>, order: seq<string>): seq<Turn> {
    if order == [] then []
    else Serial(turns, order[..|order| - 1]) + Only(turns, order[|order| - 1])
  }

  ghost predicate TurnsOf(turns: seq<Turn>, tenants: seq<string>) {
    forall i :: 0 <= i < |turns| ==> turns[i].Turn? && turns[i].tenant in tenants
  }

  lemma {:induction false} StepPast(env: Env, run: nat, f: FanState, turns: seq<Turn>, t: string, x: Turn)
    requires WellOwned(f) && x.Turn? && x.tenant != t
    requires forall i :: 0 <= i < |turns| ==> turns[i].Turn? && turns[i].tenant == t
    ensures FanStep(env, run, FanRun(env, run, f, turns), x) == FanRun(env, run, FanStep(env, run, f, x), turns)
  {
    hide FanStep, WellOwned;
    if turns != [] {
      var n := |turns| - 1;
      StepPast(env, run, f, turns[..n], t, x);
      RunWellOwned(env, run, f, turns[..n]);
      StepsCommute(env, run, FanRun(env, run, f, turns[..n]), turns[n], x);
    }
  }

  lemma {:induction false} OnlyHas(turns: seq<Turn>, t: string)
    ensures forall i :: 0 <= i < |Only(turns, t)| ==> Only(turns, t)[i].Turn? && Only(turns, t)[i].tenant == t
  {
    if turns != [] {
      OnlyHas(turns[..|turns| - 1], t);
    }
  }

  /** One tenant's turns can all be put off to the end. */
  lemma {:induction false} PutOff(env: Env, run: nat, f: FanState, turns: seq<Turn>, t: string)
    requires WellOwned(f) && forall i :: 0 <= i < |turns| ==> turns[i].Turn?
    ensures FanRun(env, run, f, turns) == FanRun(env, run, FanRun(env, run, f, Without(turns, t)), Only(turns, t))
  {
    hide FanStep, WellOwned;
    if turns != [] {
      var n := |turns| - 1;
      var x := turns[n];
      var w, o := Without(turns[..n], t), Only(turns[..n], t);
      PutOff(env, run, f, turns[..n], t);
      if x.tenant == t {
        assert (o + [x])[..|o|] == o;
        assert Without(turns, t) == w;
      } else {
        OnlyHas(turns[..n], t);
        RunWellOwned(env, run, f, w);
        StepPast(env, run, FanRun(env, run, f, w), o, t, x);
        assert (w + [x])[..|w|] == w;
        assert Only(turns, t) == o;
      }
    }
  }

  lemma {:induction false} OnlyWithout(turns: seq<Turn>, t: string, u: string)
    requires t != u
    ensures Only(Without(turns, t), u) == Only(turns, u)
  {
    if turns != [] {
      var n := |turns| - 1;
      OnlyWithout(turns[..n], t, u);
      var w := Without(turns[..n], t);
      assert (w + [turns[n]])[..|w|] == w;
      if turns[n].Turn? && turns[n].tenant == t {
        assert Without(turns, t) == w;
        assert Only(turns, u) == Only(turns[..n], u);
      }
    }
  }

  lemma {:induction false} SerialWithout(turns: seq<Turn>, t: string, order: seq<string>)
    requires t !in order
    ensures Serial(Without(turns, t), order) == Serial(turns, order)
  {
    if order != [] {
      var n := |order| - 1;
      SerialWithout(turns, t, order[..n]);
      OnlyWithout(turns, t, order[n]);
    }
  }

  lemma {:induction false} WithoutHas(turns: seq<Turn>, t: string)
    ensures forall x :: x in Without(turns, t) <==> x in turns && !(x.Turn? && x.tenant == t)
  {
    if turns != [] {
      WithoutHas(turns[..|turns| - 1], t);
      assert turns == turns[..|turns| - 1] + [turns[|turns| - 1]];
    }
  }

  lemma WithoutTurnsOf(turns: seq<Turn>, order: seq<string>, t: string)
    requires TurnsOf(turns, order + [t])
    ensures TurnsOf(Without(turns, t), order)
  {
    WithoutHas(turns, t);
    var rest := Without(turns, t);
    forall i | 0 <= i < |rest| ensures rest[i].Turn? && rest[i].tenant in order {
      assert rest[i] in rest;
    }
  }

  /** Whatever the interleaving, the cache and the agents end exactly as if the tenants had taken
      their turns one after another, in any order at all; even the timestamps agree. */
  lemma {:induction false} AnyInterleavingIsSerial(env: Env, run: nat, f: FanState, turns: seq<Turn>, order: seq<string>)
    requires WellOwned(f) && NoDuplicates(order) && TurnsOf(turns, order)
    ensures FanRun(env, run, f, turns) == FanRun(env, run, f, Serial(turns, order))
    decreases |order|
  {
    hide FanStep, WellOwned, Without, Only;
    if order == [] {
      assert turns == [];
    } else {
      var n := |order| - 1;
      var t := order[n];
      assert order == order[..n] + [t];
      PutOff(env, run, f, turns, t);
      WithoutTurnsOf(turns, order[..n], t);
      hide TurnsOf;
      AnyInterleavingIsSerial(env, run, f, Without(turns, t), order[..n]);
      SerialWithout(turns, t, order[..n]);
      FanRunAppend(env, run, f, Serial(turns, order[..n]), Only(turns, t));
    }
  }

  // ---- forgetting the clock ----

  function EraseState(st: ModuleState): ModuleState {
    st.(lastAttempt := 0, lastSuccess := if st.lastSuccess.Some? then Some(0) else None)
  }

  /** The cache without its timestamps and the gauges a scrape recomputes. */
  function EraseCache(c: CacheState): CacheState {
    c.(states := map k | k in c.states :: EraseState(c.states[k]), age := map[], stale := map[])
  }

  function EraseAgent(a: Agent): Agent {
    a.(mid := if a.mid.Some? then Some(Mid(a.mid.value.ok, 0)) else None)
  }

  function Erase(f: FanState): FanState {
    FanState(map t | t in f.agents :: EraseAgent(f.agents[t]), EraseCache(f.cache))
  }

  function EraseEffect(e: Effect): Effect {
    if e.Books? then e.(finished := 0) else e
  }

  lemma AgentErases(env: Env, run: nat, a: Agent, at: nat)
    ensures EraseAgent(AgentNext(env, run, a, [], at)) == AgentNext(env, run, EraseAgent(a), [], 0)
    ensures EraseEffect(AgentEffect(env, run, a, [])) == AgentEffect(env, run, EraseAgent(a), [])
  {
    hide Attempts, Execute, Resolved;
  }

  lemma BookErases(c: CacheState, key: ModuleKey, ok: bool, finished: nat)
    ensures EraseCache(Book(c, key, ok, finished)) == Book(EraseCache(c), key, ok, 0)
  {
    hide Inc;
    assert EraseState(BookedState(c, key, ok, finished)) == BookedState(EraseCache(c), key, ok, 0) by {
      hide PolicyFor;
    }
    hide BookedState, EraseState;
  }

  lemma EffectErases(c: CacheState, e: Effect, t: string)
    requires EffectOf(e, t)
    ensures EraseCache(ApplyEffect(c, e)) == ApplyEffect(EraseCache(c), EraseEffect(e))
  {
    if e.Books? {
      BookErases(c, e.key, e.ok, e.finished);
    } else {
      hide EraseState;
    }
  }

  function Untimed(turns: seq<Turn>): seq<Turn> {
    if turns == [] then []
    else
      var n := |turns| - 1;
      Untimed(turns[..n]) + if turns[n].Turn? then [Turn(turns[n].tenant, 0)] else []
  }

  lemma StepErases(env: Env, run: nat, f: FanState, turn: Turn)
    requires WellOwned(f)
    ensures Erase(FanStep(env, run, f, turn))
            == if turn.Look? then Erase(f) else FanStep(env, run, Erase(f), Turn(turn.tenant, 0))
  {
    hide AgentNext, AgentEffect, ApplyEffect, EraseAgent, EffectOf, EraseState;
    if turn.Turn? && turn.tenant in f.agents {
      hide EraseCache;
      var a := f.agents[turn.tenant];
      AgentErases(env, run, a, turn.at);
      TenantEffects(env, run, a);
      EffectErases(f.cache, AgentEffect(env, run, a, []), a.owner);
    }
  }

  lemma {:induction false} RunErases(env: Env, run: nat, f: FanState, turns: seq<Turn>)
    requires WellOwned(f)
    ensures Erase(FanRun(env, run, f, turns)) == FanRun(env, run, Erase(f), Untimed(turns))
  {
    hide FanStep, WellOwned, Erase;
    if turns != [] {
      var n := |turns| - 1;
      RunErases(env, run, f, turns[..n]);
      RunWellOwned(env, run, f, turns[..n]);
      StepErases(env, run, FanRun(env, run, f, turns[..n]), turns[n]);
      var u := Untimed(turns[..n]);
      if turns[n].Look? {
        assert Untimed(turns) == u;
      } else {
        assert Untimed(turns) == u + [Turn(turns[n].tenant, 0)];
        assert Untimed(turns)[..|u|] == u;
      }
    }
  }

  // ---- complete schedules ----

  function Repeat(t: string, n: nat): seq<Turn> {
    if n == 0 then [] else Repeat(t, n - 1) + [Turn(t, 0)]
  }

  /** No agent needs more steps than this: two for each of the twelve modules and one to publish. */
  const ENOUGH: nat := 26

  /** Each tenant in turn, from its first critical section to its last. */
  function SequentialRun(env: Env, run: nat, f: FanState, order: seq<string>): FanState {
    if order == [] then f
    else FanRun(env, run, SequentialRun(env, run, f, order[..|order| - 1]), Repeat(order[|order| - 1], ENOUGH))
  }

  ghost predicate AllDone(f: FanState) {
    forall t :: t in f.agents ==> AgentDone(f.agents[t])
  }

  function StepsLeft(a: Agent): int {
    if a.pc >= 13 then 0 else 2 * (13 - a.pc) - if a.mid.Some? then 1 else 0
  }

  lemma StepsDecrease(env: Env, run: nat, a: Agent)
    requires a.owner != ""
    ensures StepsLeft(AgentNext(env, run, a, [], 0)) <= if StepsLeft(a) > 0 then StepsLeft(a) - 1 else 0
    ensures StepsLeft(a) <= ENOUGH
    ensures StepsLeft(a) <= 0 <==> AgentDone(a)
    ensures AgentDone(a) ==> AgentNext(env, run, a, [], 0) == a && AgentEffect(env, run, a, []) == Nothing
  {
    hide Attempts, Execute;
  }

  /** At most n of tenant t's steps are left. */
  ghost predicate NearlyDone(f: FanState, t: string, n: int) {
    t in f.agents && StepsLeft(f.agents[t]) <= n
  }

  lemma TurnAdvances(env: Env, run: nat, f: FanState, t: string, n: nat)
    requires WellOwned(f) && NearlyDone(f, t, n)
    ensures NearlyDone(FanStep(env, run, f, Turn(t, 0)), t, if n > 0 then n - 1 else 0)
  {
    hide AgentNext, AgentEffect, ApplyEffect, StepsLeft;
    StepsDecrease(env, run, f.agents[t]);
  }

  lemma RepeatSteps(env: Env, run: nat, f: FanState, t: string, n: nat)
    requires n > 0
    ensures FanRun(env, run, f, Repeat(t, n)) == FanStep(env, run, FanRun(env, run, f, Repeat(t, n - 1)), Turn(t, 0))
  {
    hide FanStep;
    var before := Repeat(t, n - 1);
    assert (before + [Turn(t, 0)])[..|before|] == before;
  }

  lemma {:induction false} RepeatFinishes(env: Env, run: nat, f: FanState, t: string, n: nat)
    requires WellOwned(f) && NearlyDone(f, t, ENOUGH)
    ensures NearlyDone(FanRun(env, run, f, Repeat(t, n)), t, if n < ENOUGH then ENOUGH - n else 0)
  {
    hide FanStep, WellOwned, NearlyDone;
    if n > 0 {
      hide Repeat, FanRun;
      RepeatFinishes(env, run, f, t, n - 1);
      RunWellOwned(env, run, f, Repeat(t, n - 1));
      RepeatSteps(env, run, f, t, n);
      TurnAdvances(env, run, FanRun(env, run, f, Repeat(t, n - 1)), t, if n - 1 < ENOUGH then ENOUGH - (n - 1) else 0);
    }
  }

  lemma DoneIgnoresTurn(env: Env, run: nat, f: FanState, t: string)
    requires WellOwned(f) && (t in f.agents ==> AgentDone(f.agents[t]))
    ensures FanStep(env, run, f, Turn(t, 0)) == f
  {
    hide AgentNext, AgentEffect, AgentDone, StepsLeft;
    if t in f.agents {
      StepsDecrease(env, run, f.agents[t]);
      assert f.agents[t := f.agents[t]] == f.agents;
    }
  }

  /** A tenant that is done ignores further turns. */
  lemma {:induction false} DoneStutters(env: Env, run: nat, f: FanState, t: string, n: nat)
    requires WellOwned(f) && (t in f.agents ==> AgentDone(f.agents[t]))
    ensures FanRun(env, run, f, Repeat(t, n)) == f
  {
    hide AgentDone, FanStep, WellOwned;
    if n > 0 {
      hide Repeat, FanRun;
      DoneStutters(env, run, f, t, n - 1);
      RepeatSteps(env, run, f, t, n);
      DoneIgnoresTurn(env, run, f, t);
    }
  }

  function AllRepeated(order: seq<string>): seq<Turn> {
    if order == [] then [] else AllRepeated(order[..|order| - 1]) + Repeat(order[|order| - 1], ENOUGH)
  }

  lemma {:induction false} RepeatHas(t: string, n: nat)
    ensures forall x :: x in Repeat(t, n) ==> x == Turn(t, 0)
    ensures forall u :: Only(Repeat(t, n), u) == if u == t then Repeat(t, n) else []
  {
    if n > 0 {
      RepeatHas(t, n - 1);
      var before := Repeat(t, n - 1);
      assert (before + [Turn(t, 0)])[..|before|] == before;
    }
  }

  lemma {:induction false} OnlyAppend(a: seq<Turn>, b: seq<Turn>, t: string)
    ensures Only(a + b, t) == Only(a, t) + Only(b, t)
  {
    if b == [] {
      assert a + b == a;
    } else {
      var n := |b| - 1;
      OnlyAppend(a, b[..n], t);
      assert (a + b)[..|a + b| - 1] == a + b[..n];
    }
  }

  lemma {:induction false} OnlyOfAllRepeated(order: seq<string>, t: string)
    requires NoDuplicates(order)
    ensures Only(AllRepeated(order), t) == if t in order then Repeat(t, ENOUGH) else []
  {
    hide Only, Repeat;
    if order == [] {
      assert Only([], t) == [] by { NothingOnly(t); }
    } else {
      var n := |order| - 1;
      OnlyOfAllRepeated(order[..n], t);
      OnlyAppend(AllRepeated(order[..n]), Repeat(order[n], ENOUGH), t);
      RepeatHas(order[n], ENOUGH);
      assert order == order[..n] + [order[n]];
    }
  }

  lemma NothingOnly(t: string)
    ensures Only([], t) == []
  {
  }

  lemma {:induction false} AllRepeatedTurns(order: seq<string>)
    ensures TurnsOf(AllRepeated(order), order)
  {
    hide Repeat;
    if order != [] {
      var n := |order| - 1;
      AllRepeatedTurns(order[..n]);
      RepeatHas(order[n], ENOUGH);
      assert order == order[..n] + [order[n]];
      var first, last := AllRepeated(order[..n]), Repeat(order[n], ENOUGH);
      var whole := first + last;
      forall i | 0 <= i < |whole| ensures whole[i].Turn? && whole[i].tenant in order {
        assert i >= |first| ==> whole[i] in last;
      }
    }
  }

  /** An untimed turn list of one tenant is a repetition. */
  lemma {:induction false} OnlyIsRepeat(turns: seq<Turn>, t: string)
    requires forall x :: x in turns ==> x.Turn? && x.at == 0
    ensures Only(turns, t) == Repeat(t, |Only(turns, t)|)
  {
    if turns != [] {
      var n := |turns| - 1;
      assert forall x :: x in turns[..n] ==> x in turns;
      assert turns[n] in turns;
      OnlyIsRepeat(turns[..n], t);
    }
  }

  lemma {:induction false} UntimedHas(turns: seq<Turn>)
    ensures forall x :: x in Untimed(turns) ==> x.Turn? && x.at == 0 && exists y :: y in turns && y.Turn? && y.tenant == x.tenant
  {
    if turns != [] {
      var n := |turns| - 1;
      UntimedHas(turns[..n]);
      assert turns == turns[..n] + [turns[n]];
      assert turns[n] in turns;
    }
  }

  lemma {:induction false} RepeatAdds(t: string, m: nat, n: nat)
    ensures Repeat(t, m) + Repeat(t, n) == Repeat(t, m + n)
  {
    if n > 0 {
      RepeatAdds(t, m, n - 1);
    }
  }

  lemma {:induction false} AllRepeatedStutters(env: Env, run: nat, f: FanState, order: seq<string>)
    requires WellOwned(f) && AllDone(f)
    ensures FanRun(env, run, f, AllRepeated(order)) == f
  {
    hide WellOwned, AgentDone, FanStep;
    if order != [] {
      var n := |order| - 1;
      AllRepeatedStutters(env, run, f, order[..n]);
      FanRunAppend(env, run, f, AllRepeated(order[..n]), Repeat(order[n], ENOUGH));
      DoneStutters(env, run, f, order[n], ENOUGH);
    }
  }

  lemma EnoughTurnsFinish(env: Env, run: nat, f: FanState, t: string)
    requires WellOwned(f)
    ensures var g := FanRun(env, run, f, Repeat(t, ENOUGH));
            WellOwned(g) && (t in g.agents ==> AgentDone(g.agents[t]))
  {
    hide FanStep, AgentDone, StepsLeft, Repeat, FanRun, AgentNext, AgentEffect;
    var g := FanRun(env, run, f, Repeat(t, ENOUGH));
    RunWellOwned(env, run, f, Repeat(t, ENOUGH));
    if t in f.agents {
      StepsDecrease(env, run, f.agents[t]);
      RepeatFinishes(env, run, f, t, ENOUGH);
      StepsDecrease(env, run, g.agents[t]);
    }
  }

  /** A tenant's block of more than enough turns is a block of just enough. */
  lemma EnoughIsEnough(env: Env, run: nat, f: FanState, t: string, n: nat)
    requires WellOwned(f)
    ensures FanRun(env, run, f, Repeat(t, n + ENOUGH)) == FanRun(env, run, f, Repeat(t, ENOUGH))
  {
    hide FanStep, WellOwned, AgentDone, Repeat, FanRun;
    RepeatAdds(t, ENOUGH, n);
    FanRunAppend(env, run, f, Repeat(t, ENOUGH), Repeat(t, n));
    EnoughTurnsFinish(env, run, f, t);
    DoneStutters(env, run, FanRun(env, run, f, Repeat(t, ENOUGH)), t, n);
  }

  /** Among the turns followed by a full round, tenant t has a repetition of at least enough. */
  lemma OnlyOfPadded(turns: seq<Turn>, whole: seq<string>, t: string) returns (n: nat)
    requires NoDuplicates(whole) && t in whole
    requires forall x :: x in turns ==> x.Turn? && x.at == 0
    ensures Only(turns + AllRepeated(whole), t) == Repeat(t, n + ENOUGH)
  {
    hide Repeat, AllRepeated, Only;
    OnlyAppend(turns, AllRepeated(whole), t);
    OnlyOfAllRepeated(whole, t);
    OnlyIsRepeat(turns, t);
    n := |Only(turns, t)|;
    RepeatAdds(t, n, ENOUGH);
  }

  lemma {:induction false} SerialIsSequential(env: Env, run: nat, f: FanState, turns: seq<Turn>, whole: seq<string>, order: seq<string>)
    requires WellOwned(f) && NoDuplicates(whole)
    requires forall x :: x in turns ==> x.Turn? && x.at == 0
    requires forall t :: t in order ==> t in whole
    ensures FanRun(env, run, f, Serial(turns + AllRepeated(whole), order)) == SequentialRun(env, run, f, order)
    ensures WellOwned(SequentialRun(env, run, f, order))
  {
    hide FanStep, WellOwned, Repeat, AllRepeated, Only;
    if order != [] {
      hide FanRun;
      var k := |order| - 1;
      var t := order[k];
      assert t in order;
      SerialIsSequential(env, run, f, turns, whole, order[..k]);
      var before := SequentialRun(env, run, f, order[..k]);
      var all := turns + AllRepeated(whole);
      FanRunAppend(env, run, f, Serial(all, order[..k]), Only(all, t));
      var n := OnlyOfPadded(turns, whole, t);
      EnoughIsEnough(env, run, before, t, n);
      RunWellOwned(env, run, before, Repeat(t, ENOUGH));
    }
  }

  lemma EraseWellOwned(f: FanState)
    requires WellOwned(f)
    ensures WellOwned(Erase(f)) && Erase(f).agents.Keys == f.agents.Keys
    ensures AllDone(f) ==> AllDone(Erase(f))
  {
  }

  /** Every complete schedule, with scrapes anywhere in it, leaves the gauges, the up flags, the
      counters and the module states (up to timestamps) that refreshing the tenants one after another
      leaves, whatever the order of that sequential refresh. */
  lemma ScheduleIndependence(env: Env, run: nat, f: FanState, turns: seq<Turn>, order: seq<string>)
    requires WellOwned(f) && NoDuplicates(order)
    requires forall t :: t in order <==> t in f.agents
    requires forall x :: x in turns && x.Turn? ==> x.tenant in order
    requires AllDone(FanRun(env, run, f, turns))
    ensures Erase(FanRun(env, run, f, turns)) == SequentialRun(env, run, Erase(f), order)
  {
    hide FanStep, WellOwned, AllDone, Erase;
    var f0, untimed := Erase(f), Untimed(turns);
    var final := FanRun(env, run, f, turns);
    RunErases(env, run, f, turns);
    RunWellOwned(env, run, f, turns);
    EraseWellOwned(final);
    EraseWellOwned(f);
    AllRepeatedStutters(env, run, Erase(final), order);
    FanRunAppend(env, run, f0, untimed, AllRepeated(order));
    UntimedHas(turns);
    AllRepeatedTurns(order);
    var all := untimed + AllRepeated(order);
    forall i | 0 <= i < |all| ensures all[i].Turn? && all[i].tenant in order {
      assert i < |untimed| ==> all[i] in untimed;
      assert i >= |untimed| ==> all[i] == AllRepeated(order)[i - |untimed|];
    }
    AnyInterleavingIsSerial(env, run, f0, all, order);
    SerialIsSequential(env, run, f0, untimed, order, order);
  }
}
