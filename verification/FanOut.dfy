/** The per-pool fan-out that collects pool members (collector/pool.go, collectPoolMemberDetails), as a
    transition system over its goroutines. */
module FanOut {
  import opened Prelude
  import opened Inventory

  /** A pool's goroutine. It holds the semaphore from its admission until it returns. */
  datatype Worker =
    | Waiting
    | TurnedAway
    | Fetching
    | GotError
    | CountedError
    | GotServers
    | Returned(ok: bool)

  /** What the controller answers for each pool; None is an error. */
  datatype Job = Job(items: seq<PoolItem>, servers: nat -> Option<seq<Server>>, parallelism: nat)

  datatype State = State(
    workers: seq<Worker>,
    failed: nat,
    firstErr: Option<nat>,
    members: seq<PoolMember>,
    cancelled: bool)

  datatype Event =
    | CancelContext
    | TurnAway(i: nat)
    | Admit(i: nat)
    | Answer(i: nat)
    | Abort(i: nat)
    | CountError(i: nat)
    | NoteError(i: nat)
    | AppendMembers(i: nat)

  function Initial(job: Job): State {
    State(seq(|job.items|, _ => Waiting), 0, None, [], false)
  }

  predicate Holding(w: Worker) {
    w.Fetching? || w.GotError? || w.CountedError? || w.GotServers?
  }

  function Holders(workers: seq<Worker>): set<nat> {
    set i: nat | i < |workers| && Holding(workers[i])
  }

  predicate In(s: State, i: nat, w: Worker) {
    i < |s.workers| && s.workers[i] == w
  }

  /** A goroutine may be turned away, and a fetch aborted, only once the context is done. */
  predicate Enabled(job: Job, s: State, e: Event) {
    match e
    case CancelContext => true
    case TurnAway(i) => s.cancelled && In(s, i, Waiting)
    case Admit(i) => In(s, i, Waiting) && |Holders(s.workers)| < job.parallelism
    case Answer(i) => In(s, i, Fetching)
    case Abort(i) => s.cancelled && In(s, i, Fetching)
    case CountError(i) => In(s, i, GotError)
    case NoteError(i) => In(s, i, CountedError)
    case AppendMembers(i) => In(s, i, GotServers)
  }

  function MembersOf(pool: PoolItem, servers: seq<Server>): seq<PoolMember> {
    seq(|servers|, k requires 0 <= k < |servers| => PoolMember(pool, servers[k]))
  }

  /** The members the i-th pool contributes. */
  function Contribution(job: Job, i: nat): seq<PoolMember>
    requires i < |job.items|
  {
    match job.servers(i)
    case None => []
    case Some(servers) => MembersOf(job.items[i], servers)
  }

  function Next(job: Job, s: State, e: Event): State
    requires |s.workers| == |job.items| && Enabled(job, s, e)
  {
    match e
    case CancelContext => s.(cancelled := true)
    case TurnAway(i) => s.(workers := s.workers[i := TurnedAway])
    case Admit(i) => s.(workers := s.workers[i := Fetching])
    case Answer(i) => s.(workers := s.workers[i := if job.servers(i).Some? then GotServers else GotError])
    case Abort(i) => s.(workers := s.workers[i := GotError])
    case CountError(i) => s.(workers := s.workers[i := CountedError], failed := s.failed + 1)
    case NoteError(i) =>
      s.(workers := s.workers[i := Returned(false)], firstErr := if s.firstErr.None? then Some(i) else s.firstErr)
    case AppendMembers(i) =>
      s.(workers := s.workers[i := Returned(true)], members := s.members + Contribution(job, i))
  }

  ghost predicate Reaches(job: Job, events: seq<Event>, s: State) {
    if events == [] then s == Initial(job)
    else
      var n := |events| - 1;
      exists before ::
        && Reaches(job, events[..n], before) && |before.workers| == |job.items|
        && Enabled(job, before, events[n]) && s == Next(job, before, events[n])
  }

  ghost predicate Reachable(job: Job, s: State) {
    exists events :: Reaches(job, events, s)
  }

  // ---- invariants ----

  /** The pools whose failure has been counted. */
  function Failures(workers: seq<Worker>): set<nat> {
    set i: nat | i < |workers| && (workers[i].CountedError? || workers[i] == Returned(false))
  }

  function Successes(workers: seq<Worker>): set<nat> {
    set i: nat | i < |workers| && workers[i] == Returned(true)
  }

  /** What the first n pools have contributed so far. */
  function Collected(job: Job, workers: seq<Worker>, n: nat): multiset<PoolMember>
    requires n <= |workers| == |job.items|
  {
    if n == 0 then multiset{}
    else Collected(job, workers, n - 1) + if workers[n - 1] == Returned(true) then multiset(Contribution(job, n - 1)) else multiset{}
  }

  /** All servers of all pools, with their pools. */
  function AllMembers(job: Job, n: nat): multiset<PoolMember>
    requires n <= |job.items|
  {
    if n == 0 then multiset{} else AllMembers(job, n - 1) + multiset(Contribution(job, n - 1))
  }

  ghost predicate WorkerInv(job: Job, s: State, i: nat)
    requires i < |s.workers|
  {
    match s.workers[i]
    case TurnedAway => s.cancelled
    case GotServers => job.servers(i).Some?
    case Returned(ok) => if ok then job.servers(i).Some? else s.cancelled || job.servers(i).None?
    case GotError => s.cancelled || job.servers(i).None?
    case CountedError => s.cancelled || job.servers(i).None?
    case _ => true
  }

  ghost predicate Inv(job: Job, s: State) {
    && |s.workers| == |job.items|
    && |Holders(s.workers)| <= job.parallelism
    && s.failed == |Failures(s.workers)|
    && multiset(s.members) == Collected(job, s.workers, |s.workers|)
    && (forall i: nat :: i < |s.workers| ==> WorkerInv(job, s, i))
    && (forall i: nat :: i < |s.workers| && s.workers[i] == Returned(false) ==> s.firstErr.Some?)
    && (s.firstErr.Some? ==> s.firstErr.value < |s.workers| && s.workers[s.firstErr.value] == Returned(false))
  }

  lemma {:induction false} CollectedElsewhere(job: Job, workers: seq<Worker>, i: nat, w: Worker, n: nat)
    requires n <= |workers| == |job.items| && i < |workers| && workers[i] != Returned(true)
    ensures Collected(job, workers[i := w], n)
            == Collected(job, workers, n)
               + if i < n && w == Returned(true) then multiset(Contribution(job, i)) else multiset{}
  {
    hide Contribution;
    if n > 0 {
      CollectedElsewhere(job, workers, i, w, n - 1);
    }
  }

  lemma InitialInv(job: Job)
    ensures Inv(job, Initial(job))
  {
    var s := Initial(job);
    assert Holders(s.workers) == {} && Failures(s.workers) == {};
    NothingCollected(job, s.workers, |s.workers|);
  }

  lemma {:induction false} NothingCollected(job: Job, workers: seq<Worker>, n: nat)
    requires n <= |workers| == |job.items| && forall i :: 0 <= i < |workers| ==> workers[i] == Waiting
    ensures Collected(job, workers, n) == multiset{}
  {
    if n > 0 {
      NothingCollected(job, workers, n - 1);
    }
  }

  lemma CountsAfter(workers: seq<Worker>, i: nat, w: Worker)
    requires i < |workers|
    ensures Holders(workers[i := w]) == (if Holding(w) then Holders(workers) + {i} else Holders(workers) - {i})
    ensures Failures(workers[i := w])
            == if w.CountedError? || w == Returned(false) then Failures(workers) + {i} else Failures(workers) - {i}
  {
  }

  /** The worker an event moves, and where to. */
  function Moved(job: Job, e: Event): Option<(nat, Worker)> {
    match e
    case CancelContext => None
    case TurnAway(i) => Some((i, TurnedAway))
    case Admit(i) => Some((i, Fetching))
    case Answer(i) => Some((i, if job.servers(i).Some? then GotServers else GotError))
    case Abort(i) => Some((i, GotError))
    case CountError(i) => Some((i, CountedError))
    case NoteError(i) => Some((i, Returned(false)))
    case AppendMembers(i) => Some((i, Returned(true)))
  }

  predicate Counted(w: Worker) {
    w.CountedError? || w == Returned(false)
  }

  /** The worker an event moves was not there yet, and only the counting and the appending moves touch
      what is shared. */
  lemma MoveShape(job: Job, s: State, e: Event)
    requires |s.workers| == |job.items| && Enabled(job, s, e)
    ensures var t := Next(job, s, e);
            match Moved(job, e)
            case None => t == s.(cancelled := true)
            case Some((i, w)) =>
              && i < |s.workers| && t.workers == s.workers[i := w] && t.cancelled == s.cancelled
              && s.workers[i] != Returned(true)
              && (Holding(w) && !Holding(s.workers[i]) ==> |Holders(s.workers)| < job.parallelism)
              && t.failed == s.failed + (if Counted(w) && !Counted(s.workers[i]) then 1 else 0)
              && (Counted(s.workers[i]) ==> Counted(w))
              && t.members == (if w == Returned(true) then s.members + Contribution(job, i) else s.members)
  {
    hide Holders, Contribution;
  }

  lemma StepKeepsCounts(job: Job, s: State, e: Event)
    requires Inv(job, s) && Enabled(job, s, e)
    ensures var t := Next(job, s, e);
            && |Holders(t.workers)| <= job.parallelism && t.failed == |Failures(t.workers)|
            && multiset(t.members) == Collected(job, t.workers, |t.workers|)
  {
    MoveShape(job, s, e);
    hide Next, Enabled, Holders, Failures, WorkerInv, Collected, Contribution, Holding, Moved;
    if Moved(job, e).Some? {
      var (i, w) := Moved(job, e).value;
      CountsAfter(s.workers, i, w);
      HoldersAre(s.workers, i);
      CollectedElsewhere(job, s.workers, i, w, |s.workers|);
    }
  }

  lemma HoldersAre(workers: seq<Worker>, i: nat)
    requires i < |workers|
    ensures i in Holders(workers) <==> Holding(workers[i])
    ensures i in Failures(workers) <==> workers[i].CountedError? || workers[i] == Returned(false)
  {
  }

  lemma StepKeepsInv(job: Job, s: State, e: Event)
    requires Inv(job, s) && Enabled(job, s, e)
    ensures Inv(job, Next(job, s, e))
  {
    StepKeepsCounts(job, s, e);
    StepKeepsWorkers(job, s, e);
    hide Next, Enabled, Holders, Failures, Collected, WorkerInv;
  }

  lemma StepKeepsWorkers(job: Job, s: State, e: Event)
    requires Inv(job, s) && Enabled(job, s, e)
    ensures var t := Next(job, s, e);
            && |t.workers| == |job.items|
            && (forall k: nat :: k < |t.workers| ==> WorkerInv(job, t, k))
            && (forall k: nat :: k < |t.workers| && t.workers[k] == Returned(false) ==> t.firstErr.Some?)
            && (t.firstErr.Some? ==> t.firstErr.value < |t.workers| && t.workers[t.firstErr.value] == Returned(false))
  {
    hide Holders, Failures, Collected, Contribution, Holding;
    var t := Next(job, s, e);
    forall k: nat | k < |t.workers| ensures WorkerInv(job, t, k) {
      assert WorkerInv(job, s, k);
    }
  }

  lemma {:induction false} ReachesInv(job: Job, events: seq<Event>, s: State)
    requires Reaches(job, events, s)
    ensures Inv(job, s)
  {
    hide Inv, Next, Enabled, Initial;
    if events == [] {
      InitialInv(job);
    } else {
      var n := |events| - 1;
      var before :| && Reaches(job, events[..n], before) && |before.workers| == |job.items|
                    && Enabled(job, before, events[n]) && s == Next(job, before, events[n]);
      ReachesInv(job, events[..n], before);
      StepKeepsInv(job, before, events[n]);
    }
  }

  /** In every interleaving at most `parallelism` fetches are in flight. */
  lemma BoundedFetches(job: Job, s: State)
    requires Reachable(job, s)
    ensures |Holders(s.workers)| <= job.parallelism
  {
    hide Reaches;
    var events :| Reaches(job, events, s);
    ReachesInv(job, events, s);
  }

  // ---- the outcome ----

  predicate AllReturned(s: State) {
    forall i :: 0 <= i < |s.workers| ==> s.workers[i].TurnedAway? || s.workers[i].Returned?
  }

  /** The members returned without an error; None for the context's error or the count of failed calls. */
  function Outcome(s: State): Option<seq<PoolMember>> {
    if s.cancelled then None else if s.failed > 0 then None else Some(s.members)
  }

  lemma {:induction false} AllCollected(job: Job, workers: seq<Worker>, n: nat)
    requires n <= |workers| == |job.items|
    requires forall i :: 0 <= i < n ==> workers[i] == Returned(true)
    ensures Collected(job, workers, n) == AllMembers(job, n)
  {
    if n > 0 {
      AllCollected(job, workers, n - 1);
    }
  }

  /** Once everyone has returned, no error is reported only if every pool's fetch succeeded, and then the
      members are exactly all servers of all pools, with multiplicity. */
  lemma NoErrorMeansComplete(job: Job, s: State)
    requires Reachable(job, s) && AllReturned(s) && Outcome(s).Some?
    ensures forall i: nat :: i < |job.items| ==> job.servers(i).Some?
    ensures multiset(Outcome(s).value) == AllMembers(job, |job.items|)
  {
    hide Reaches;
    var events :| Reaches(job, events, s);
    ReachesInv(job, events, s);
    assert Failures(s.workers) == {};
    forall i: nat | i < |s.workers| ensures s.workers[i] == Returned(true) && job.servers(i).Some? {
      assert WorkerInv(job, s, i);
      assert i !in Failures(s.workers);
    }
    AllCollected(job, s.workers, |s.workers|);
  }

  /** Without cancellation every pool ends as a success or a counted failure, the failures are exactly
      the pools the controller failed on, one of them is reported as the first, and the call reports an
      error exactly if there is one. */
  lemma UncancelledOutcome(job: Job, s: State)
    requires Reachable(job, s) && AllReturned(s) && !s.cancelled
    ensures s.failed + |Successes(s.workers)| == |job.items|
    ensures Failures(s.workers) == set i: nat | i < |job.items| && job.servers(i).None?
    ensures s.failed > 0 ==> s.firstErr.Some? && s.firstErr.value in Failures(s.workers)
    ensures Outcome(s).Some? <==> forall i: nat :: i < |job.items| ==> job.servers(i).Some?
  {
    hide Reaches, Collected;
    var events :| Reaches(job, events, s);
    ReachesInv(job, events, s);
    forall i: nat | i < |s.workers|
      ensures s.workers[i].Returned? && (s.workers[i] == Returned(true) <==> job.servers(i).Some?)
    {
      assert WorkerInv(job, s, i);
    }
    Partition(Failures(s.workers), Successes(s.workers), |s.workers|);
    if s.failed > 0 {
      var i :| i in Failures(s.workers);
    } else {
      assert Failures(s.workers) == {};
      forall i: nat | i < |job.items| ensures job.servers(i).Some? {
        assert i !in Failures(s.workers);
      }
    }
  }

  lemma {:induction false} Partition(a: set<nat>, b: set<nat>, n: nat)
    requires a !! b && forall i: nat :: i in a + b <==> i < n
    ensures |a| + |b| == n
  {
    if n > 0 {
      var m := n - 1;
      assert m in a + b;
      Partition(a - {m}, b - {m}, m);
    } else {
      assert a == {} && b == {} by {
        forall i: nat ensures i !in a && i !in b {
          assert i in a + b <==> i < 0;
        }
      }
    }
  }
}
