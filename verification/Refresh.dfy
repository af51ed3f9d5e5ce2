/** RefreshOnce as a transition system (collector/cache.go).

    One refresh is a main agent that runs the controller-wide modules in order and then one agent per
    tenant. A module takes two critical sections: its fetch, which on success writes its gauges, and
    the bookkeeping of runModule. Agents of different tenants interleave between any two sections, and
    scrapes may come anywhere. The controller is an oracle: what each fetch of each refresh returns is
    a parameter of every statement. */
module Refresh {
  import opened Prelude
  import opened Inventory
  import opened Series
  import opened Tenants
  import opened Cache
  import Topology
  import Enrichment

  // ---- environment ----

  /** What the controller answers, by refresh number and tenant; None is an error. Pool members are
      the outcome of the whole per-pool fan-out, virtual services and pools come metadata-enriched. */
  datatype Controller = Controller(
    login: nat -> Option<seq<string>>,
    listTenants: nat -> Option<seq<string>>,
    vsList: (nat, string) -> Option<seq<VSItem>>,
    poolList: (nat, string) -> Option<seq<PoolItem>>,
    poolMembers: (nat, string) -> Option<seq<PoolMember>>,
    vsvipList: (nat, string) -> Option<seq<VsVipItem>>,
    poolGroups: (nat, string) -> Option<seq<PoolGroupItem>>,
    tenantRows: (nat, string, Module) -> Option<Rows>,
    ownRows: (nat, Module) -> Option<TenantRows>)

  /** The per-field gauge setters. */
  datatype Renderer = Renderer(
    vsRows: seq<VSItem> -> Rows,
    poolRows: seq<PoolItem> -> Rows,
    memberRows: seq<PoolMember> -> Rows,
    vsvipRows: seq<VsVipItem> -> Rows,
    groupRows: seq<PoolGroupItem> -> Rows)

  datatype Env = Env(
    disabled: set<Module>,
    configured: seq<string>,
    parallelism: nat,
    controller: Controller,
    renderer: Renderer)

  predicate On(env: Env, m: Module) {
    m !in env.disabled
  }

  predicate NeedVS(env: Env) {
    On(env, VSInventory) || On(env, VSMetrics) || On(env, Module.Topology)
  }

  predicate NeedPools(env: Env) {
    On(env, PoolInventory) || On(env, PoolMetrics) || On(env, PoolMembers) || On(env, Module.Topology)
  }

  predicate NeedVsVip(env: Env) {
    On(env, VsVip) || On(env, Module.Topology)
  }

  predicate ShouldCollectAdmin(env: Env, tenants: seq<string>) {
    && On(env, VSMetrics) && On(env, AdminVSMetrics)
    && Wildcard(env.configured)
    && tenants != []
    && "admin" !in tenants
  }

  // ---- agents ----

  datatype Stage = Run(m: Module) | ResolveTenants | PublishUp | Done

  function MainStage(pc: nat): Stage {
    match pc
    case 0 => Run(TenantDiscovery)
    case 1 => ResolveTenants
    case 2 => Run(Cluster)
    case 3 => Run(ClusterInventory)
    case 4 => Run(ControllerMetrics)
    case 5 => Run(SEConfig)
    case 6 => Run(SEList)
    case 7 => Run(SEInventory)
    case 8 => Run(SEMetrics)
    case 9 => Run(AdminVSMetrics)
    case _ => Done
  }

  function TenantStage(pc: nat): Stage {
    match pc
    case 0 => Run(VSList)
    case 1 => Run(VSInventory)
    case 2 => Run(VSMetrics)
    case 3 => Run(PoolList)
    case 4 => Run(PoolInventory)
    case 5 => Run(PoolMetrics)
    case 6 => Run(PoolMembers)
    case 7 => Run(VsVipList)
    case 8 => Run(VsVip)
    case 9 => Run(PoolGroup)
    case 10 => Run(Gslb)
    case 11 => Run(Module.Topology)
    case 12 => PublishUp
    case _ => Done
  }

  /** The local variables of RefreshOnce and of refreshTenant. */
  datatype Local = Local(
    tenants: seq<string>,
    discovered: bool,
    seItems: Option<TenantRows>,
    vs: Option<seq<VSItem>>,
    pools: Option<seq<PoolItem>>,
    members: Option<seq<PoolMember>>,
    vsvips: Option<seq<VsVipItem>>,
    groups: Option<seq<PoolGroupItem>>,
    ok: bool)

  function FreshLocal(env: Env): Local {
    Local([], false, None, None, None,
          if On(env, PoolMembers) then None else Some([]),
          None,
          if On(env, PoolGroup) then None else Some([]),
          true)
  }

  /** Between a module's two critical sections: how the fetch ended, and when. */
  datatype Mid = Mid(ok: bool, at: nat)

  /** `owner` is "" for the main agent; `log` lists the modules booked so far. */
  datatype Agent = Agent(owner: string, pc: nat, mid: Option<Mid>, local: Local, log: seq<ModuleKey>)

  function NewAgent(env: Env, owner: string): Agent {
    Agent(owner, 0, None, FreshLocal(env), [])
  }

  function StageOf(a: Agent): Stage {
    if a.owner == "" then MainStage(a.pc) else TenantStage(a.pc)
  }

  predicate AgentDone(a: Agent) {
    StageOf(a).Done?
  }

  function KeyFor(owner: string, m: Module): ModuleKey {
    ModuleKey(m, if m == AdminVSMetrics then "admin" else owner)
  }

  function Items<T>(o: Option<seq<T>>): seq<T> {
    if o.Some? then o.value else []
  }

  /** Whether the module is run at all, given what the agent has fetched so far. */
  predicate Attempts(env: Env, m: Module, l: Local) {
    match m
    case TenantDiscovery => Wildcard(env.configured)
    case SEList => On(env, SEInventory)
    case SEInventory => On(env, SEInventory) && l.seItems.Some?
    case AdminVSMetrics => ShouldCollectAdmin(env, l.tenants)
    case VSList => NeedVS(env)
    case VSInventory => On(env, VSInventory) && l.vs.Some?
    case VSMetrics => On(env, VSMetrics) && l.vs.Some?
    case PoolList => NeedPools(env)
    case PoolInventory => On(env, PoolInventory) && l.pools.Some?
    case PoolMetrics => On(env, PoolMetrics) && l.pools.Some?
    case PoolMembers => On(env, PoolMembers) && l.pools.Some?
    case VsVipList => NeedVsVip(env)
    case VsVip => On(env, VsVip) && l.vsvips.Some?
    case _ => On(env, m)
  }

  datatype Outcome = Outcome(ok: bool, write: Write, local: Local)

  function Failed(l: Local): Outcome {
    Outcome(false, NoWrite, l)
  }

  function GlobalOutcome(env: Env, run: nat, m: Module, group: Group, l: Local): Outcome {
    match env.controller.ownRows(run, m)
    case None => Failed(l)
    case Some(rows) => Outcome(true, WriteGlobal(group, rows), l)
  }

  function SliceOutcome(rows: Option<Rows>, group: Group, owner: string, l: Local): Outcome {
    match rows
    case None => Failed(l)
    case Some(rows) => Outcome(true, WriteSlice(group, owner, rows), l)
  }

  /** The names a discovery finds: from the login response, else from the tenant list. */
  function Found(env: Env, run: nat): Option<seq<string>> {
    match env.controller.login(run)
    case None => None
    case Some(names) => if names != [] then Some(names) else env.controller.listTenants(run)
  }

  /** The fetch of one module and what it writes. */
  function Execute(env: Env, run: nat, owner: string, m: Module, l: Local): Outcome {
    match m
    case TenantDiscovery =>
      (match Found(env, run)
       case None => Failed(l)
       case Some(found) =>
         var next := Discovered(env.configured, found);
         Outcome(true, WriteTenants(next), l.(tenants := next, discovered := true)))
    case Cluster => GlobalOutcome(env, run, m, GClusterState, l)
    case ClusterInventory => GlobalOutcome(env, run, m, GClusterNodes, l)
    case ControllerMetrics => GlobalOutcome(env, run, m, GController, l)
    case SEConfig => GlobalOutcome(env, run, m, GSEIdentity, l)
    case SEList =>
      (match env.controller.ownRows(run, SEList)
       case None => Failed(l)
       case Some(rows) => Outcome(true, NoWrite, l.(seItems := Some(rows))))
    case SEInventory =>
      (match l.seItems
       case None => Failed(l)
       case Some(rows) => Outcome(true, WriteGlobal(GSEInventory, rows), l))
    case SEMetrics => GlobalOutcome(env, run, m, GSEAnalytics, l)
    case AdminVSMetrics =>
      (match env.controller.ownRows(run, AdminVSMetrics)
       case None => Failed(l)
       case Some(rows) => Outcome(true, WriteRaw(rows), l))
    case VSList =>
      var fetched := env.controller.vsList(run, owner);
      Outcome(fetched.Some?, NoWrite, l.(vs := fetched))
    case VSInventory => SliceOutcome(Some(env.renderer.vsRows(Items(l.vs))), GVSInventory, owner, l)
    case VSMetrics => SliceOutcome(env.controller.tenantRows(run, owner, VSMetrics), GVSAnalytics, owner, l)
    case PoolList =>
      var fetched := env.controller.poolList(run, owner);
      Outcome(fetched.Some?, NoWrite, l.(pools := fetched))
    case PoolInventory => SliceOutcome(Some(env.renderer.poolRows(Items(l.pools))), GPoolInventory, owner, l)
    case PoolMetrics =>
      SliceOutcome(if Items(l.pools) == [] then Some(map[]) else env.controller.tenantRows(run, owner, PoolMetrics),
                   GPoolAnalytics, owner, l)
    case PoolMembers =>
      (match env.controller.poolMembers(run, owner)
       case None => Failed(l)
       case Some(members) =>
         Outcome(true, WriteSlice(GPoolMembers, owner, env.renderer.memberRows(members)), l.(members := Some(members))))
    case VsVipList =>
      (match env.controller.vsvipList(run, owner)
       case None => Failed(l)
       case Some(items) => Outcome(true, NoWrite, l.(vsvips := Some(Enrichment.EnrichedInventory(items, Items(l.vs))))))
    case VsVip => SliceOutcome(Some(env.renderer.vsvipRows(Items(l.vsvips))), GVsVip, owner, l)
    case PoolGroup =>
      (match env.controller.poolGroups(run, owner)
       case None => Failed(l)
       case Some(groups) =>
         Outcome(true, WriteSlice(GPoolGroup, owner, env.renderer.groupRows(groups)), l.(groups := Some(groups))))
    case Gslb => SliceOutcome(env.controller.tenantRows(run, owner, Gslb), GGslb, owner, l)
    case Topology =>
      if l.vs.None? || l.pools.None? || l.vsvips.None? || l.groups.None? || l.members.None? then Failed(l)
      else
        Outcome(true,
                WriteSlice(GTopology, owner,
                           Topology.TopologyRows(l.vs.value, l.pools.value, l.vsvips.value, l.groups.value, l.members.value)),
                l)
  }

  /** What a critical section does to the shared cache. */
  datatype Effect =
    | Nothing
    | Writes(write: Write)
    | Books(key: ModuleKey, ok: bool, finished: nat)
    | PublishesUp(tenant: string, up: bool)

  function ApplyEffect(c: CacheState, e: Effect): CacheState {
    match e
    case Nothing => c
    case Writes(w) => ApplyWrite(c, w)
    case Books(key, ok, finished) => Book(c, key, ok, finished)
    case PublishesUp(tenant, up) => SetUp(c, tenant, up)
  }

  /** The tenant list a refresh works on, and whether it has to be stored first: the configured one
      without discovery, the discovered one, or after a failed discovery the cached one, failing that
      the configured one. */
  function Resolved(env: Env, l: Local, cached: seq<string>): (seq<string>, bool) {
    var explicit := StaticTenants(env.configured);
    if !Wildcard(env.configured) then (explicit, true)
    else if l.discovered then (l.tenants, false)
    else if cached != [] then (cached, false)
    else if explicit != [] then (explicit, true)
    else ([], false)
  }

  /** An agent's next step, in its own variables; only ResolveTenants looks at the cache. */
  function AgentNext(env: Env, run: nat, a: Agent, cached: seq<string>, now: nat): Agent {
    match StageOf(a)
    case Run(m) =>
      (match a.mid
       case None =>
         if !Attempts(env, m, a.local) then a.(pc := a.pc + 1)
         else
           var o := Execute(env, run, a.owner, m, a.local);
           a.(mid := Some(Mid(o.ok, now)), local := o.local)
       case Some(mid) =>
         a.(mid := None, pc := a.pc + 1, log := a.log + [KeyFor(a.owner, m)],
            local := a.local.(ok := a.local.ok && mid.ok)))
    case ResolveTenants => a.(pc := a.pc + 1, local := a.local.(tenants := Resolved(env, a.local, cached).0))
    case PublishUp => a.(pc := a.pc + 1)
    case Done => a
  }

  /** The same step, in the shared cache. */
  function AgentEffect(env: Env, run: nat, a: Agent, cached: seq<string>): Effect {
    match StageOf(a)
    case Run(m) =>
      (match a.mid
       case None =>
         if !Attempts(env, m, a.local) then Nothing else Writes(Execute(env, run, a.owner, m, a.local).write)
       case Some(mid) => Books(KeyFor(a.owner, m), mid.ok, mid.at))
    case ResolveTenants =>
      var (tenants, store) := Resolved(env, a.local, cached);
      if store then Writes(WriteTenants(tenants)) else Nothing
    case PublishUp => PublishesUp(a.owner, a.local.ok)
    case Done => Nothing
  }

  // ---- where the cached rows come from ----

  /** Who wrote a tenant's slice last: a tenant's own module or the raw admin analytics, and in which
      refresh. */
  datatype Source = FromTenant(run: nat) | FromAdmin(run: nat)

  /** The last reset of a controller-wide group, and the tenants dropped since. */
  datatype GlobalSource = GlobalSource(run: nat, dropped: set<string>)

  datatype SliceName = SliceName(group: Group, tenant: string)

  /** History of the successful writes; the system never reads it. `raws` are the refreshes that wrote
      raw admin analytics, in order; `cleared` is how many of them had been when a tenant's analytics were
      last deleted, so the later ones are those that may have left rows with it; `successes` is the
      refresh of a module's last booked success. */
  datatype Ledger = Ledger(
    slices: map<SliceName, Source>,
    globals: map<Group, GlobalSource>,
    raws: seq<nat>,
    cleared: map<string, nat>,
    successes: map<ModuleKey, nat>)

  const EMPTY_LEDGER := Ledger(map[], map[], [], map[], map[])

  function LedgerDrop(l: Ledger, gone: set<string>): Ledger {
    l.(slices := map n | n in l.slices && n.tenant !in gone :: l.slices[n],
       globals := map g | g in l.globals :: l.globals[g].(dropped := l.globals[g].dropped + gone),
       cleared := l.cleared + map t | t in gone :: |l.raws|)
  }

  function LedgerSlice(l: Ledger, group: Group, tenant: string, run: nat): Ledger {
    l.(slices := l.slices[SliceName(group, tenant) := FromTenant(run)],
       cleared := if group == GVSAnalytics then l.cleared[tenant := |l.raws|] else l.cleared)
  }

  function LedgerRaw(l: Ledger, run: nat): Ledger {
    l.(slices := l.slices[SliceName(GVSAnalytics, "admin") := FromAdmin(run)],
       raws := l.raws + [run],
       cleared := l.cleared["admin" := |l.raws| + 1])
  }

  function LedgerWrite(l: Ledger, c: CacheState, w: Write, run: nat): Ledger {
    match w
    case NoWrite => l
    case WriteSlice(group, tenant, _) => LedgerSlice(l, group, tenant, run)
    case WriteRaw(_) => LedgerRaw(l, run)
    case WriteGlobal(group, _) => l.(globals := l.globals[group := GlobalSource(run, {})])
    case WriteTenants(next) => LedgerDrop(l, Dropped(c, next))
  }

  function LedgerEffect(l: Ledger, c: CacheState, e: Effect, run: nat): Ledger {
    match e
    case Writes(w) => LedgerWrite(l, c, w, run)
    case Books(key, ok, _) => if ok then l.(successes := l.successes[key := run]) else l
    case _ => l
  }

  // ---- the system ----

  /** A tenant's goroutine: before the semaphore, turned away by the context, or running. */
  datatype Worker = Waiting | Cancelled | Active(agent: Agent)

  datatype Phase =
    | Idle
    | Main(main: Agent)
    | Fan(finished: Agent, workers: map<string, Worker>)

  datatype RefreshRecord = RefreshRecord(started: nat, finished: nat, clean: bool)

  datatype Sys = Sys(
    cache: CacheState,
    ledger: Ledger,
    phase: Phase,
    run: nat,
    now: nat,
    started: nat,
    last: Option<RefreshRecord>)

  function Initial(): Sys {
    Sys(EMPTY_CACHE, EMPTY_LEDGER, Idle, 0, 0, 0, None)
  }

  datatype Action =
    | Start
    | MainStep
    | Spawn
    | Admit(tenant: string)
    | Cancel(tenant: string)
    | WorkerStep(tenant: string)
    | Finish
    | Scrape

  datatype Event = Event(at: nat, action: Action)

  predicate InFlight(w: Worker) {
    w.Active? && !AgentDone(w.agent)
  }

  /** The tenants whose goroutines hold the semaphore. */
  function Holders(workers: map<string, Worker>): set<string> {
    set t | t in workers && InFlight(workers[t])
  }

  predicate WorkerFinished(w: Worker) {
    w.Cancelled? || (w.Active? && AgentDone(w.agent))
  }

  predicate Clean(main: Agent, workers: map<string, Worker>) {
    main.local.ok && forall t :: t in workers ==> workers[t].Active? && workers[t].agent.local.ok
  }

  predicate Enabled(env: Env, s: Sys, e: Event) {
    && s.now <= e.at
    && match e.action
       case Start => s.phase.Idle?
       case MainStep => s.phase.Main? && !AgentDone(s.phase.main)
       case Spawn => s.phase.Main? && AgentDone(s.phase.main)
       case Admit(t) =>
         && s.phase.Fan? && t in s.phase.workers && s.phase.workers[t].Waiting?
         && |Holders(s.phase.workers)| < env.parallelism
       case Cancel(t) => s.phase.Fan? && t in s.phase.workers && s.phase.workers[t].Waiting?
       case WorkerStep(t) => s.phase.Fan? && t in s.phase.workers && InFlight(s.phase.workers[t])
       case Finish => s.phase.Fan? && forall t :: t in s.phase.workers ==> WorkerFinished(s.phase.workers[t])
       case Scrape => true
  }

  /** The shared part of a step. */
  function WithEffect(s: Sys, e: Effect): Sys {
    s.(cache := ApplyEffect(s.cache, e), ledger := LedgerEffect(s.ledger, s.cache, e, s.run))
  }

  function Next(env: Env, s: Sys, e: Event): Sys
    requires Enabled(env, s, e)
  {
    var s := s.(now := e.at);
    match e.action
    case Start => s.(phase := Main(NewAgent(env, "")), started := e.at)
    case MainStep =>
      var a := s.phase.main;
      WithEffect(s, AgentEffect(env, s.run, a, s.cache.tenants))
        .(phase := Main(AgentNext(env, s.run, a, s.cache.tenants, e.at)))
    case Spawn =>
      var a := s.phase.main;
      s.(phase := Fan(a, map t | t in a.local.tenants :: Waiting))
    case Admit(t) => s.(phase := s.phase.(workers := s.phase.workers[t := Active(NewAgent(env, t))]))
    case Cancel(t) => s.(phase := s.phase.(workers := s.phase.workers[t := Cancelled]))
    case WorkerStep(t) =>
      var a := s.phase.workers[t].agent;
      WithEffect(s, AgentEffect(env, s.run, a, s.cache.tenants))
        .(phase := s.phase.(workers := s.phase.workers[t := Active(AgentNext(env, s.run, a, s.cache.tenants, e.at))]))
    case Finish =>
      s.(phase := Idle, run := s.run + 1,
         last := Some(RefreshRecord(s.started, e.at, Clean(s.phase.finished, s.phase.workers))))
    case Scrape => s.(cache := Observe(s.cache, e.at))
  }

  /** s can be reached from the empty cache by these events. */
  ghost predicate Reaches(env: Env, events: seq<Event>, s: Sys) {
    if events == [] then s == Initial()
    else
      var n := |events| - 1;
      exists before :: Reaches(env, events[..n], before) && Enabled(env, before, events[n]) && s == Next(env, before, events[n])
  }

  ghost predicate Reachable(env: Env, s: Sys) {
    exists events :: Reaches(env, events, s)
  }
}
