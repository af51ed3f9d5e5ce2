/** Which answers a fan-out over a tenant's pools allows, and what that makes of the pool-member gauges
    (collector/pool.go). */
module FanOutAnswers {
  import opened Prelude
  import opened Inventory
  import FanOut
  import Series
  import Cache
  import Refresh
  import Snapshots
  import RefreshInvariants
  import Guarantees

  type Job = FanOut.Job
  type State = FanOut.State

  /** Some run of the fan-out ends with this answer. */
  ghost predicate FansOut(job: Job, answer: Option<seq<PoolMember>>) {
    exists s: State :: FanOut.Reachable(job, s) && FanOut.AllReturned(s) && answer == FanOut.Outcome(s)
  }

  /** The pools' members, pool by pool in this order. */
  function Blocks(job: Job, order: seq<nat>): seq<PoolMember>
    requires forall k :: 0 <= k < |order| ==> order[k] < |job.items|
  {
    if order == [] then []
    else
      var n := |order| - 1;
      Blocks(job, order[..n]) + FanOut.Contribution(job, order[n])
  }

  /** All numbers below n, each once. */
  ghost predicate Ordering(order: seq<nat>, n: nat) {
    && NoDuplicates(order)
    && (forall k :: 0 <= k < |order| ==> order[k] < n)
    && forall i: nat :: i < n ==> i in order
  }

  // ---- an answer without error is the pools' members in some order of the pools ----

  ghost predicate Appended(job: Job, s: State, order: seq<nat>) {
    && |s.workers| == |job.items|
    && NoDuplicates(order)
    && (forall k :: 0 <= k < |order| ==> order[k] < |s.workers| && s.workers[order[k]] == FanOut.Returned(true))
    && (forall i: nat :: i < |s.workers| && s.workers[i] == FanOut.Returned(true) ==> i in order)
    && s.members == Blocks(job, order)
  }

  lemma StepAppends(job: Job, s: State, e: FanOut.Event, before: seq<nat>) returns (order: seq<nat>)
    requires Appended(job, s, before) && FanOut.Enabled(job, s, e)
    ensures Appended(job, FanOut.Next(job, s, e), order)
  {
    hide FanOut.Contribution, FanOut.Holders, FanOut.Enabled, FanOut.Next, FanOut.Holding, FanOut.Counted;
    FanOut.MoveShape(job, s, e);
    var t := FanOut.Next(job, s, e);
    order := before;
    if FanOut.Moved(job, e).Some? {
      var (i, w) := FanOut.Moved(job, e).value;
      assert i !in before;
      if w == FanOut.Returned(true) {
        order := before + [i];
        assert order[..|order| - 1] == before;
      }
    }
  }

  lemma {:induction false} ReachesAppended(job: Job, events: seq<FanOut.Event>, s: State) returns (order: seq<nat>)
    requires FanOut.Reaches(job, events, s)
    ensures Appended(job, s, order)
  {
    hide Appended, FanOut.Next, FanOut.Enabled, FanOut.Initial;
    if events == [] {
      order := [];
      InitialAppended(job);
    } else {
      var n := |events| - 1;
      var before: State :| && FanOut.Reaches(job, events[..n], before) && |before.workers| == |job.items|
                           && FanOut.Enabled(job, before, events[n]) && s == FanOut.Next(job, before, events[n]);
      order := ReachesAppended(job, events[..n], before);
      order := StepAppends(job, before, events[n], order);
    }
  }

  lemma InitialAppended(job: Job)
    ensures Appended(job, FanOut.Initial(job), [])
  {
  }

  // ---- every order can come about ----

  lemma StepReaches(job: Job, s: State, e: FanOut.Event) returns (t: State)
    requires FanOut.Reachable(job, s) && |s.workers| == |job.items| && FanOut.Enabled(job, s, e)
    ensures t == FanOut.Next(job, s, e) && FanOut.Reachable(job, t)
  {
    hide FanOut.Reaches, FanOut.Next, FanOut.Enabled;
    t := FanOut.Next(job, s, e);
    var events :| FanOut.Reaches(job, events, s);
    ReachesNext(job, events, s, e);
  }

  lemma ReachesNext(job: Job, events: seq<FanOut.Event>, s: State, e: FanOut.Event)
    requires FanOut.Reaches(job, events, s) && |s.workers| == |job.items| && FanOut.Enabled(job, s, e)
    ensures FanOut.Reaches(job, events + [e], FanOut.Next(job, s, e))
  {
    hide FanOut.Next, FanOut.Enabled;
    assert (events + [e])[..|events + [e]| - 1] == events;
  }

  /** Nobody is under way. */
  ghost predicate Quiet(job: Job, s: State) {
    && FanOut.Reachable(job, s) && |s.workers| == |job.items|
    && forall i :: 0 <= i < |s.workers| ==> !FanOut.Holding(s.workers[i])
  }

  lemma ServePool(job: Job, s: State, i: nat) returns (t: State)
    requires Quiet(job, s) && job.parallelism > 0 && FanOut.In(s, i, FanOut.Waiting) && job.servers(i).Some?
    ensures Quiet(job, t) && t.cancelled == s.cancelled && t.failed == s.failed
    ensures t.workers == s.workers[i := FanOut.Returned(true)] && t.members == s.members + FanOut.Contribution(job, i)
  {
    hide FanOut.Reachable, FanOut.Contribution;
    assert FanOut.Holders(s.workers) == {};
    t := StepReaches(job, s, FanOut.Admit(i));
    t := StepReaches(job, t, FanOut.Answer(i));
    t := StepReaches(job, t, FanOut.AppendMembers(i));
    assert t.workers == s.workers[i := FanOut.Returned(true)];
  }

  lemma InitialQuiet(job: Job)
    ensures Quiet(job, FanOut.Initial(job))
  {
    assert FanOut.Reaches(job, [], FanOut.Initial(job));
  }

  lemma {:induction false} ServeAll(job: Job, order: seq<nat>) returns (s: State)
    requires job.parallelism > 0 && NoDuplicates(order)
    requires forall k :: 0 <= k < |order| ==> order[k] < |job.items| && job.servers(order[k]).Some?
    ensures Quiet(job, s) && !s.cancelled && s.failed == 0 && s.members == Blocks(job, order)
    ensures forall i: nat :: i < |job.items| ==> s.workers[i] == if i in order then FanOut.Returned(true) else FanOut.Waiting
  {
    if order == [] {
      s := FanOut.Initial(job);
      InitialQuiet(job);
    } else {
      hide Quiet, FanOut.Contribution;
      var n := |order| - 1;
      assert order == order[..n] + [order[n]];
      s := ServeAll(job, order[..n]);
      SizeOfQuiet(job, s);
      assert order[n] !in order[..n];
      s := ServePool(job, s, order[n]);
      forall i: nat | i < |job.items| ensures s.workers[i] == if i in order then FanOut.Returned(true) else FanOut.Waiting {
        assert i in order <==> i in order[..n] || i == order[n];
      }
    }
  }

  lemma SizeOfQuiet(job: Job, s: State)
    requires Quiet(job, s)
    ensures |s.workers| == |job.items|
  {
  }

  // ---- a cancelled fan-out is an error ----

  lemma {:induction false} TurnAll(job: Job, s: State, n: nat) returns (t: State)
    requires Quiet(job, s) && s.cancelled && n <= |s.workers|
    requires forall i :: 0 <= i < |s.workers| ==> s.workers[i] == if i < n then FanOut.Waiting else FanOut.TurnedAway
    ensures FanOut.Reachable(job, t) && FanOut.AllReturned(t) && t.cancelled
    decreases n
  {
    hide FanOut.Reachable;
    if n == 0 {
      t := s;
    } else {
      t := StepReaches(job, s, FanOut.TurnAway(n - 1));
      t := TurnAll(job, t, n - 1);
    }
  }

  /** A fan-out can always be cut short with an error; without an error it answers exactly the members of
      all pools, each pool's in the controller's order and the pools in any order whatever, and only if
      the controller answers for every pool. */
  lemma FanOutAnswersExactly(job: Job, answer: Option<seq<PoolMember>>)
    requires job.parallelism > 0
    ensures FansOut(job, answer) <==>
              answer.Some? ==>
                && (forall i: nat :: i < |job.items| ==> job.servers(i).Some?)
                && exists order: seq<nat> :: Ordering(order, |job.items|) && answer.value == Blocks(job, order)
  {
    hide FansOut, Blocks;
    if answer.None? {
      CancelledAnswers(job);
    } else if FansOut(job, answer) {
      CompletedAnswers(job, answer);
    } else if forall i: nat :: i < |job.items| ==> job.servers(i).Some? {
      forall order: seq<nat> | Ordering(order, |job.items|) ensures answer.value != Blocks(job, order) {
        ServedAnswers(job, order);
      }
    }
  }

  lemma ServedAnswers(job: Job, order: seq<nat>)
    requires job.parallelism > 0 && Ordering(order, |job.items|)
    requires forall i: nat :: i < |job.items| ==> job.servers(i).Some?
    ensures FansOut(job, Some(Blocks(job, order)))
  {
    var s := ServeAll(job, order);
    hide FanOut.Reachable, Blocks;
    assert FanOut.AllReturned(s) && FanOut.Outcome(s) == Some(Blocks(job, order));
  }

  lemma CancelledAnswers(job: Job)
    ensures FansOut(job, None)
  {
    hide FanOut.Reachable;
    InitialQuiet(job);
    var s := StepReaches(job, FanOut.Initial(job), FanOut.CancelContext);
    s := TurnAll(job, s, |s.workers|);
    assert FanOut.Outcome(s) == None;
  }

  lemma CompletedAnswers(job: Job, answer: Option<seq<PoolMember>>)
    requires FansOut(job, answer) && answer.Some?
    ensures forall i: nat :: i < |job.items| ==> job.servers(i).Some?
    ensures exists order: seq<nat> :: Ordering(order, |job.items|) && answer.value == Blocks(job, order)
    ensures multiset(answer.value) == FanOut.AllMembers(job, |job.items|)
  {
    hide FanOut.Reachable, FanOut.AllMembers, Blocks;
    var s: State :| FanOut.Reachable(job, s) && FanOut.AllReturned(s) && answer == FanOut.Outcome(s);
    FanOut.NoErrorMeansComplete(job, s);
    EveryoneReturned(job, s);
    var order := ReachableAppended(job, s);
    assert Ordering(order, |job.items|);
  }

  lemma ReachableAppended(job: Job, s: State) returns (order: seq<nat>)
    requires FanOut.Reachable(job, s)
    ensures Appended(job, s, order)
  {
    hide FanOut.Reaches, Appended;
    var events :| FanOut.Reaches(job, events, s);
    order := ReachesAppended(job, events, s);
  }

  lemma EveryoneReturned(job: Job, s: State)
    requires FanOut.Reachable(job, s) && FanOut.AllReturned(s) && FanOut.Outcome(s).Some?
    ensures |s.workers| == |job.items| && forall i: nat :: i < |s.workers| ==> s.workers[i] == FanOut.Returned(true)
  {
    hide FanOut.Reaches, FanOut.Collected, FanOut.Holders;
    var events :| FanOut.Reaches(job, events, s);
    FanOut.ReachesInv(job, events, s);
    assert FanOut.Failures(s.workers) == {};
    forall i: nat | i < |s.workers| ensures s.workers[i] == FanOut.Returned(true) {
      assert FanOut.WorkerInv(job, s, i);
      assert i !in FanOut.Failures(s.workers);
    }
  }

  // ---- in the refresh ----

  /** The fan-out over the pools that a refresh listed for a tenant. */
  function JobOf(env: Refresh.Env, servers: (nat, string, nat) -> Option<seq<Server>>, run: nat, t: string, pools: seq<PoolItem>): Job {
    FanOut.Job(pools, (i: nat) => servers(run, t, i), env.parallelism)
  }

  /** The refresh gets its pool members from fan-outs, over servers that the controller answers pool by
      pool. */
  ghost predicate MembersByFanOut(env: Refresh.Env, servers: (nat, string, nat) -> Option<seq<Server>>) {
    forall run: nat, t, pools :: Snapshots.PoolsOf(env, run, t) == Some(pools) ==>
      FansOut(JobOf(env, servers, run, t, pools), env.controller.poolMembers(run, t))
  }

  /** The rows of one refresh's pool members: every pool that it listed for the tenant was answered for,
      and all servers of all those pools are in, with multiplicity. */
  ghost predicate CompleteMembers(env: Refresh.Env, servers: (nat, string, nat) -> Option<seq<Server>>, run: nat, t: string,
                                  rows: Series.Rows) {
    exists pools, members ::
      && Snapshots.PoolsOf(env, run, t) == Some(pools)
      && (forall i: nat :: i < |pools| ==> servers(run, t, i).Some?)
      && multiset(members) == FanOut.AllMembers(JobOf(env, servers, run, t, pools), |pools|)
      && rows == env.renderer.memberRows(members)
  }

  lemma MembersRenderingIsComplete(env: Refresh.Env, servers: (nat, string, nat) -> Option<seq<Server>>, run: nat, t: string)
    requires MembersByFanOut(env, servers) && Refresh.On(env, Series.PoolMembers)
    requires Snapshots.TenantRendering(env, run, Series.GPoolMembers, t).Some?
    ensures CompleteMembers(env, servers, run, t, Snapshots.TenantRendering(env, run, Series.GPoolMembers, t).value)
  {
    hide FansOut, FanOut.AllMembers;
    var pools := Snapshots.PoolsOf(env, run, t).value;
    var members := env.controller.poolMembers(run, t);
    assert FansOut(JobOf(env, servers, run, t, pools), members);
    CompletedAnswers(JobOf(env, servers, run, t, pools), members);
    forall i: nat | i < |pools| ensures servers(run, t, i).Some? {
      assert JobOf(env, servers, run, t, pools).servers(i).Some?;
    }
  }

  /** In every reachable state the pool-member series of a tenant are none, or complete: those of all
      servers of all pools that one refresh listed for it, each of whose detail calls succeeded. */
  lemma ServedMembersAreComplete(env: Refresh.Env, servers: (nat, string, nat) -> Option<seq<Server>>, s: Refresh.Sys, t: string)
    requires Refresh.Reachable(env, s) && MembersByFanOut(env, servers) && Refresh.On(env, Series.PoolMembers)
    ensures Cache.Shows(s.cache.gauges, Series.GPoolMembers, Some(t), map[])
            || exists run: nat, rows :: run <= s.run && CompleteMembers(env, servers, run, t, rows)
                                        && Cache.Shows(s.cache.gauges, Series.GPoolMembers, Some(t), rows)
  {
    hide Refresh.Reachable, Snapshots.TenantRendering, Cache.Shows, MembersByFanOut, CompleteMembers, Refresh.On,
      Guarantees.StraysAgree, RefreshInvariants.StrayRow;
    Guarantees.SliceIsOneSnapshot(env, s, Series.GPoolMembers, t);
    var n := Refresh.SliceName(Series.GPoolMembers, t);
    if n in s.ledger.slices {
      var run := s.ledger.slices[n].run;
      MembersRenderingIsComplete(env, servers, run, t);
      assert CompleteMembers(env, servers, run, t, Snapshots.TenantRendering(env, run, Series.GPoolMembers, t).value);
    }
  }
}
