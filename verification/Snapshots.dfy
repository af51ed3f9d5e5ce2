/** Which controller answers the cached rows come from: every write of a refresh renders answers of
    that very refresh. */
module Snapshots {
  import opened Prelude
  import opened Inventory
  import opened Series
  import opened Tenants
  import opened Cache
  import opened Refresh
  import Topology
  import Enrichment

  // ---- what a refresh fetched for one tenant ----

  function VSOf(env: Env, run: nat, t: string): Option<seq<VSItem>> {
    if NeedVS(env) then env.controller.vsList(run, t) else None
  }

  function PoolsOf(env: Env, run: nat, t: string): Option<seq<PoolItem>> {
    if NeedPools(env) then env.controller.poolList(run, t) else None
  }

  function MembersOf(env: Env, run: nat, t: string): Option<seq<PoolMember>> {
    if On(env, PoolMembers) then env.controller.poolMembers(run, t) else Some([])
  }

  function GroupsOf(env: Env, run: nat, t: string): Option<seq<PoolGroupItem>> {
    if On(env, PoolGroup) then env.controller.poolGroups(run, t) else Some([])
  }

  function VsVipsOf(env: Env, run: nat, t: string): Option<seq<VsVipItem>> {
    match env.controller.vsvipList(run, t)
    case None => None
    case Some(items) => Some(Enrichment.EnrichedInventory(items, Items(VSOf(env, run, t))))
  }

  /** The rows of the raw analytics answer that are labelled with the tenant. */
  function RowsUnder(rows: TenantRows, tenant: string): Rows {
    map r | r in RowsLabelled(rows, tenant) :: rows[TenantLabel(Some(tenant), r)]
  }

  function RowsLabelled(rows: TenantRows, tenant: string): (keys: set<Row>)
    ensures forall r :: r in keys <==> TenantLabel(Some(tenant), r) in rows
  {
    set l | l in rows && l.tenant == Some(tenant) :: l.row
  }

  /** The rendering of a tenant's gauge group from the answers of one refresh; None if one of the
      answers it needs was an error. The topology needs five answers, all of the same refresh. */
  function Rendering(env: Env, source: Source, g: Group, t: string): Option<Rows> {
    match source
    case FromAdmin(run) =>
      (match env.controller.ownRows(run, AdminVSMetrics)
       case None => None
       case Some(rows) => if g == GVSAnalytics && t == "admin" then Some(RowsUnder(rows, "admin")) else None)
    case FromTenant(run) => TenantRendering(env, run, g, t)
  }

  function TenantRendering(env: Env, run: nat, g: Group, t: string): Option<Rows> {
    match g
    case GVSInventory => (match VSOf(env, run, t) case None => None case Some(items) => Some(env.renderer.vsRows(items)))
    case GVSAnalytics => if VSOf(env, run, t).None? then None else env.controller.tenantRows(run, t, VSMetrics)
    case GPoolInventory => (match PoolsOf(env, run, t) case None => None case Some(items) => Some(env.renderer.poolRows(items)))
    case GPoolAnalytics =>
      (match PoolsOf(env, run, t)
       case None => None
       case Some(items) => if items == [] then Some(map[]) else env.controller.tenantRows(run, t, PoolMetrics))
    case GPoolMembers =>
      if PoolsOf(env, run, t).None? then None
      else (match MembersOf(env, run, t) case None => None case Some(ms) => Some(env.renderer.memberRows(ms)))
    case GVsVip => (match VsVipsOf(env, run, t) case None => None case Some(items) => Some(env.renderer.vsvipRows(items)))
    case GPoolGroup => (match GroupsOf(env, run, t) case None => None case Some(gs) => Some(env.renderer.groupRows(gs)))
    case GGslb => env.controller.tenantRows(run, t, Gslb)
    case GTopology =>
      var vs, pools, vsvips := VSOf(env, run, t), PoolsOf(env, run, t), VsVipsOf(env, run, t);
      var groups, members := GroupsOf(env, run, t), MembersOf(env, run, t);
      if vs.None? || pools.None? || vsvips.None? || groups.None? || members.None? then None
      else Some(Topology.TopologyRows(vs.value, pools.value, vsvips.value, groups.value, members.value))
    case _ => None
  }

  /** The answer behind a controller-wide group. */
  function GlobalRendering(env: Env, run: nat, g: Group): Option<TenantRows> {
    match g
    case GClusterState => env.controller.ownRows(run, Cluster)
    case GClusterNodes => env.controller.ownRows(run, ClusterInventory)
    case GController => env.controller.ownRows(run, ControllerMetrics)
    case GSEIdentity => env.controller.ownRows(run, SEConfig)
    case GSEInventory => env.controller.ownRows(run, SEList)
    case GSEAnalytics => env.controller.ownRows(run, SEMetrics)
    case _ => None
  }

  // ---- an agent's variables hold the answers of its own refresh ----

  /** The agent is through with the fetch of a stage. */
  predicate Past(a: Agent, pc: nat) {
    a.pc > pc || (a.pc == pc && a.mid.Some?)
  }

  ghost predicate FromThisRun(env: Env, run: nat, a: Agent) {
    if a.owner == "" then MainFromThisRun(env, run, a) else TenantFromThisRun(env, run, a)
  }

  /** The service engines once they have been listed; the tenants of a discovery that succeeded, or without
      a wildcard the configured ones. */
  ghost predicate MainFromThisRun(env: Env, run: nat, a: Agent) {
    var l := a.local;
    && l.seItems == (if Past(a, 6) && On(env, SEInventory) then env.controller.ownRows(run, SEList) else None)
    && l.discovered == (Past(a, 0) && Wildcard(env.configured) && Found(env, run).Some?)
    && (l.discovered ==> l.tenants == Discovered(env.configured, Found(env, run).value))
    && (!Wildcard(env.configured) && a.pc >= 2 ==> l.tenants == StaticTenants(env.configured))
  }

  /** Each list once its stage is passed. */
  ghost predicate TenantFromThisRun(env: Env, run: nat, a: Agent) {
    var l := a.local;
    && l.vs == (if Past(a, 0) then VSOf(env, run, a.owner) else None)
    && l.pools == (if Past(a, 3) then PoolsOf(env, run, a.owner) else None)
    && l.members == (if Past(a, 6) && PoolsOf(env, run, a.owner).Some? then MembersOf(env, run, a.owner)
                     else if On(env, PoolMembers) then None else Some([]))
    && l.vsvips == (if Past(a, 7) && NeedVsVip(env) then VsVipsOf(env, run, a.owner) else None)
    && l.groups == (if Past(a, 9) then GroupsOf(env, run, a.owner) else if On(env, PoolGroup) then None else Some([]))
  }

  lemma NewAgentFromThisRun(env: Env, run: nat, owner: string)
    ensures FromThisRun(env, run, NewAgent(env, owner))
  {
  }

  /** What a fetch makes of the agent's variables. */
  lemma FetchedLocal(env: Env, run: nat, owner: string, m: Module, l: Local)
    ensures var c, r := env.controller, Execute(env, run, owner, m, l).local;
            && r.vs == (if m == VSList then c.vsList(run, owner) else l.vs)
            && r.pools == (if m == PoolList then c.poolList(run, owner) else l.pools)
            && r.members == (if m == PoolMembers && c.poolMembers(run, owner).Some? then c.poolMembers(run, owner) else l.members)
            && r.vsvips == (if m == VsVipList && c.vsvipList(run, owner).Some?
                            then Some(Enrichment.EnrichedInventory(c.vsvipList(run, owner).value, Items(l.vs))) else l.vsvips)
            && r.groups == (if m == PoolGroup && c.poolGroups(run, owner).Some? then c.poolGroups(run, owner) else l.groups)
            && r.seItems == (if m == SEList && c.ownRows(run, SEList).Some? then c.ownRows(run, SEList) else l.seItems)
            && (r.discovered, r.tenants)
               == (if m == TenantDiscovery && Found(env, run).Some?
                   then (true, Discovered(env.configured, Found(env, run).value)) else (l.discovered, l.tenants))
  {
    hide Topology.TopologyRows, Enrichment.EnrichedInventory, Discovered, Found;
  }

  lemma FetchStaysFromThisRun(env: Env, run: nat, a: Agent, m: Module, now: nat)
    requires FromThisRun(env, run, a) && a.mid.None? && StageOf(a) == Run(m)
    ensures Attempts(env, m, a.local) ==>
              var o := Execute(env, run, a.owner, m, a.local);
              FromThisRun(env, run, a.(mid := Some(Mid(o.ok, now)), local := o.local))
  {
    hide Execute, MainFromThisRun, TenantFromThisRun, Attempts, StageOf;
    if Attempts(env, m, a.local) {
      var o := Execute(env, run, a.owner, m, a.local);
      if a.owner == "" {
        MainFetchStays(env, run, a, m, Mid(o.ok, now));
      } else {
        TenantFetchStays(env, run, a, m, Mid(o.ok, now));
      }
    }
  }

  lemma MainFetchStays(env: Env, run: nat, a: Agent, m: Module, mid: Mid)
    requires a.owner == "" && MainFromThisRun(env, run, a) && a.mid.None? && StageOf(a) == Run(m) && Attempts(env, m, a.local)
    ensures MainFromThisRun(env, run, a.(mid := Some(mid), local := Execute(env, run, a.owner, m, a.local).local))
  {
    hide Execute, Enrichment.EnrichedInventory, Discovered, Found, StaticTenants, Wildcard, TenantStage, ShouldCollectAdmin;
    FetchedLocal(env, run, a.owner, m, a.local);
  }

  lemma TenantFetchStays(env: Env, run: nat, a: Agent, m: Module, mid: Mid)
    requires a.owner != "" && TenantFromThisRun(env, run, a) && a.mid.None? && StageOf(a) == Run(m) && Attempts(env, m, a.local)
    ensures TenantFromThisRun(env, run, a.(mid := Some(mid), local := Execute(env, run, a.owner, m, a.local).local))
  {
    hide Execute, Enrichment.EnrichedInventory, Discovered, Found, MainStage, Wildcard, ShouldCollectAdmin,
      VSOf, PoolsOf, MembersOf, GroupsOf, On, NeedVS, NeedPools, NeedVsVip;
    FetchedLocal(env, run, a.owner, m, a.local);
    AnswersAre(env, run, a.owner);
  }

  lemma AnswersAre(env: Env, run: nat, t: string)
    ensures NeedVS(env) ==> VSOf(env, run, t) == env.controller.vsList(run, t)
    ensures NeedPools(env) ==> PoolsOf(env, run, t) == env.controller.poolList(run, t)
    ensures On(env, PoolMembers) ==> MembersOf(env, run, t) == env.controller.poolMembers(run, t)
    ensures On(env, PoolGroup) ==> GroupsOf(env, run, t) == env.controller.poolGroups(run, t)
  {
  }

  lemma SkipStaysFromThisRun(env: Env, run: nat, a: Agent, m: Module)
    requires FromThisRun(env, run, a) && a.mid.None? && StageOf(a) == Run(m) && !Attempts(env, m, a.local)
    ensures FromThisRun(env, run, a.(pc := a.pc + 1))
  {
    hide VsVipsOf, Discovered, Found, Wildcard, ShouldCollectAdmin;
  }

  /** The other steps move on without fetching. */
  lemma MoveStaysFromThisRun(env: Env, run: nat, a: Agent, b: Agent, cached: seq<string>)
    requires FromThisRun(env, run, a) && b.owner == a.owner && b.pc == a.pc + 1
    requires if StageOf(a).Run? then a.mid.Some? && b.mid.None? else b.mid == a.mid
    requires b.local == a.local.(ok := b.local.ok)
             || (StageOf(a).ResolveTenants? && b.local == a.local.(tenants := Resolved(env, a.local, cached).0))
    requires StageOf(a).ResolveTenants? ==> b.local.tenants == Resolved(env, a.local, cached).0
    ensures FromThisRun(env, run, b)
  {
    hide VSOf, PoolsOf, MembersOf, VsVipsOf, GroupsOf, Discovered, Found, Wildcard, StaticTenants;
  }

  lemma StaysFromThisRun(env: Env, run: nat, a: Agent, cached: seq<string>, now: nat)
    requires FromThisRun(env, run, a)
    ensures FromThisRun(env, run, AgentNext(env, run, a, cached, now))
  {
    hide Execute, Resolved, Attempts, FromThisRun, MainStage, TenantStage, KeyFor;
    var b := AgentNext(env, run, a, cached, now);
    if StageOf(a).Run? && a.mid.None? {
      var m := StageOf(a).m;
      if Attempts(env, m, a.local) {
        FetchStaysFromThisRun(env, run, a, m, now);
      } else {
        SkipStaysFromThisRun(env, run, a, m);
      }
    } else if !StageOf(a).Done? {
      MoveStaysFromThisRun(env, run, a, b, cached);
    }
  }

  lemma TenantGroups()
    ensures PerTenant(GVSInventory) && PerTenant(GVSAnalytics) && PerTenant(GPoolInventory)
    ensures PerTenant(GPoolAnalytics) && PerTenant(GPoolMembers) && PerTenant(GVsVip)
    ensures PerTenant(GPoolGroup) && PerTenant(GGslb) && PerTenant(GTopology)
  {
  }

  /** The write is a rendering of this refresh's answers for the owner. */
  ghost predicate OwnRendering(env: Env, run: nat, owner: string, w: Write) {
    match w
    case WriteSlice(g, t, rows) => t == owner && PerTenant(g) && Rendering(env, FromTenant(run), g, t) == Some(rows)
    case _ => w.NoWrite?
  }

  lemma TopologyRenders(env: Env, run: nat, a: Agent)
    requires a.owner != "" && FromThisRun(env, run, a)
    ensures OwnRendering(env, run, a.owner, Execute(env, run, a.owner, Module.Topology, a.local).write)
  {
    OptionalAnswers(env, run, a.owner);
    hide Topology.TopologyRows, Enrichment.EnrichedInventory, PerTenant;
    TenantGroups();
    hide VSOf, PoolsOf, VsVipsOf, MembersOf, GroupsOf;
  }

  lemma OptionalAnswers(env: Env, run: nat, t: string)
    ensures !On(env, PoolMembers) ==> MembersOf(env, run, t) == Some([])
    ensures !On(env, PoolGroup) ==> GroupsOf(env, run, t) == Some([])
  {
  }

  lemma LocalsAreAnswers(env: Env, run: nat, a: Agent)
    requires a.owner != "" && FromThisRun(env, run, a)
    ensures var l := a.local;
            && (l.vs.Some? ==> l.vs == VSOf(env, run, a.owner))
            && (l.pools.Some? ==> l.pools == PoolsOf(env, run, a.owner))
            && (l.vsvips.Some? ==> l.vsvips == VsVipsOf(env, run, a.owner))
    ensures StageOf(a).Run? ==> StageOf(a).m !in {TenantDiscovery, Cluster, ClusterInventory, ControllerMetrics, SEConfig, SEList,
                                                  SEInventory, SEMetrics, AdminVSMetrics}
  {
    hide VSOf, PoolsOf, VsVipsOf, MembersOf, GroupsOf;
  }

  lemma FetchRenders(env: Env, run: nat, a: Agent, m: Module)
    requires a.owner != "" && FromThisRun(env, run, a) && StageOf(a) == Run(m) && Attempts(env, m, a.local)
    ensures OwnRendering(env, run, a.owner, Execute(env, run, a.owner, m, a.local).write)
  {
    hide Topology.TopologyRows, Enrichment.EnrichedInventory, Discovered, Found, PerTenant, NeedVS, NeedPools, NeedVsVip,
      MainFromThisRun, TenantFromThisRun, MainStage, TenantStage, GlobalRendering, Wildcard, ShouldCollectAdmin;
    TenantGroups();
    LocalsAreAnswers(env, run, a);
    if m.Topology? {
      hide Execute, Rendering;
      TopologyRenders(env, run, a);
    } else {
      hide VsVipsOf, VSOf, PoolsOf;
    }
  }

  /** Every write of a tenant's agent renders, under the tenant's own label, answers of this refresh. */
  lemma TenantWritesItsRendering(env: Env, run: nat, a: Agent, cached: seq<string>)
    requires a.owner != "" && FromThisRun(env, run, a)
    ensures match AgentEffect(env, run, a, cached)
            case Writes(WriteSlice(g, t, rows)) =>
              t == a.owner && PerTenant(g) && Rendering(env, FromTenant(run), g, t) == Some(rows)
            case Writes(w) => w.NoWrite?
            case Books(key, _, _) => key.tenant == a.owner
            case PublishesUp(t, _) => t == a.owner
            case Nothing => true
  {
    hide Execute, Rendering, FromThisRun, Attempts, PerTenant;
    if StageOf(a).Run? && a.mid.None? && Attempts(env, StageOf(a).m, a.local) {
      FetchRenders(env, run, a, StageOf(a).m);
    }
  }

  /** The main agent replaces controller-wide groups, the raw analytics of admin, or the tenant list. */
  lemma MainWritesItsRendering(env: Env, run: nat, a: Agent, cached: seq<string>)
    requires a.owner == "" && FromThisRun(env, run, a)
    ensures match AgentEffect(env, run, a, cached)
            case Writes(WriteSlice(_, _, _)) => false
            case Writes(WriteGlobal(g, rows)) => !PerTenant(g) && GlobalRendering(env, run, g) == Some(rows)
            case Writes(WriteRaw(rows)) =>
              && env.controller.ownRows(run, AdminVSMetrics) == Some(rows)
              && Wildcard(env.configured) && On(env, VSMetrics) && On(env, AdminVSMetrics)
            case Writes(WriteTenants(next)) => StrictlySorted(next) && "" !in next
            case Writes(NoWrite) => true
            case Books(key, _, _) => key.tenant == "" || key == ModuleKey(AdminVSMetrics, "admin")
            case PublishesUp(_, _) => false
            case Nothing => true
  {
    hide Topology.TopologyRows, Enrichment.EnrichedInventory, Found, Wildcard, TenantFromThisRun, TenantRendering, TenantStage;
    if StageOf(a).Run? && a.mid.None? && Attempts(env, StageOf(a).m, a.local) {
      MainFetchRenders(env, run, a, StageOf(a).m);
    }
    hide Execute, FromThisRun, PerTenant, GlobalRendering;
  }

  lemma MainFetchRenders(env: Env, run: nat, a: Agent, m: Module)
    requires a.owner == "" && FromThisRun(env, run, a) && StageOf(a) == Run(m) && Attempts(env, m, a.local)
    ensures match Execute(env, run, a.owner, m, a.local).write
            case WriteSlice(_, _, _) => false
            case WriteGlobal(g, rows) => !PerTenant(g) && GlobalRendering(env, run, g) == Some(rows)
            case WriteRaw(rows) =>
              && env.controller.ownRows(run, AdminVSMetrics) == Some(rows)
              && Wildcard(env.configured) && On(env, VSMetrics) && On(env, AdminVSMetrics)
            case WriteTenants(next) => StrictlySorted(next) && "" !in next
            case NoWrite => true
  {
    hide Topology.TopologyRows, Enrichment.EnrichedInventory, Found, Wildcard, TenantFromThisRun, TenantRendering, TenantStage, PerTenant,
      Discovered, KeyFor;
    GlobalGroups();
    SortedDiscovery(env, run);
    EnginesListed(env, run, a);
    hide MainFromThisRun, MainStage;
  }

  lemma GlobalGroups()
    ensures !PerTenant(GClusterState) && !PerTenant(GClusterNodes) && !PerTenant(GController)
    ensures !PerTenant(GSEIdentity) && !PerTenant(GSEInventory) && !PerTenant(GSEAnalytics)
  {
  }

  lemma SortedDiscovery(env: Env, run: nat)
    ensures Found(env, run).Some? ==>
              var next := Discovered(env.configured, Found(env, run).value); StrictlySorted(next) && "" !in next
  {
    hide Found;
  }

  lemma EnginesListed(env: Env, run: nat, a: Agent)
    requires a.owner == "" && FromThisRun(env, run, a)
    ensures a.local.seItems.Some? ==> a.local.seItems == env.controller.ownRows(run, SEList)
    ensures StageOf(a).Run? ==>
              StageOf(a).m in {TenantDiscovery, Cluster, ClusterInventory, ControllerMetrics, SEConfig, SEList, SEInventory, SEMetrics, AdminVSMetrics}
  {
    hide Found, Discovered, Wildcard;
  }

  /** A fetch that fails writes nothing. */
  lemma FailedFetchWritesNothing(env: Env, run: nat, owner: string, m: Module, l: Local)
    ensures !Execute(env, run, owner, m, l).ok ==> Execute(env, run, owner, m, l).write == NoWrite
  {
    hide Topology.TopologyRows, Enrichment.EnrichedInventory, Found, Discovered;
  }
}
