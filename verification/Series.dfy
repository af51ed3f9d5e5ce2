/** Names of the cache's contents: modules, gauge groups and the label tuples of a series. */
module Series {
  import opened Prelude

  datatype Module =
    | TenantDiscovery
    | Cluster
    | ClusterInventory
    | ControllerMetrics
    | SEConfig
    | SEList
    | SEInventory
    | SEMetrics
    | AdminVSMetrics
    | VSList
    | VSInventory
    | VSMetrics
    | PoolList
    | PoolInventory
    | PoolMetrics
    | PoolMembers
    | VsVipList
    | VsVip
    | PoolGroup
    | Gslb
    | Topology

  /** `tenant` is "" for the modules that serve the whole controller. */
  datatype ModuleKey = ModuleKey(name: Module, tenant: string)

  /** One constructor per *GaugeVecs() list; the first nine carry a tenant label on every series. */
  datatype Group =
    | GVSInventory
    | GVSAnalytics
    | GPoolInventory
    | GPoolAnalytics
    | GPoolMembers
    | GVsVip
    | GPoolGroup
    | GGslb
    | GTopology
    | GClusterState
    | GClusterNodes
    | GController
    | GSEIdentity
    | GSEInventory
    | GSEAnalytics

  predicate PerTenant(g: Group) {
    g in {GVSInventory, GVSAnalytics, GPoolInventory, GPoolAnalytics, GPoolMembers,
          GVsVip, GPoolGroup, GGslb, GTopology}
  }

  datatype NodeKind = VsVipNode | VSNode | PoolGroupNode | PoolNode | PoolMemberNode

  /** The label values of a series other than the base labels and the tenant. */
  datatype Row =
    | Plain(values: seq<string>)
    | TopologyNode(id: string, title: string, kind: NodeKind, state: string, chain: string)
    | TopologyNodeState(id: string, kind: NodeKind, chain: string)
    | TopologyEdge(id: string, source: string, target: string, chain: string)

  type Rows = map<Row, real>

  datatype TenantLabel = TenantLabel(tenant: Option<string>, row: Row)

  /** Rows that bring their own tenant label (service engines, raw analytics). */
  type TenantRows = map<TenantLabel, real>

  datatype SeriesKey = SeriesKey(group: Group, tenant: Option<string>, row: Row)

  type Gauges = map<SeriesKey, real>
}
