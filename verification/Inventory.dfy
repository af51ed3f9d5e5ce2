/** The decoded controller objects, cut down to the fields the model reads (avi/types.go). */
module Inventory {
  import opened Prelude

  datatype Marker = Marker(key: string, values: seq<string>)

  /** `otherLabels` stands for the label-worthy fields that only ServiceMetadata.Empty looks at. */
  datatype ServiceMetadata = ServiceMetadata(
    namespace: string,
    ingressName: string,
    namespaceIngressName: seq<string>,
    hostnames: seq<string>,
    namespaceSvcName: seq<string>,
    otherLabels: bool)
  {
    predicate Empty() {
      && namespace == ""
      && ingressName == ""
      && |namespaceIngressName| == 0
      && |hostnames| == 0
      && |namespaceSvcName| == 0
      && !otherLabels
    }
  }

  datatype VsRef = VsRef(uuid: string, ref: string)

  datatype VSItem = VSItem(
    uuid: string,
    name: string,
    url: string,
    createdBy: string,
    markers: seq<Marker>,
    metadata: ServiceMetadata,
    vsvipRef: string,
    poolRef: string,
    poolGroupRef: string,
    vhParentRef: string,
    vhChildRefs: seq<string>,
    operState: string)

  datatype PoolItem = PoolItem(
    uuid: string,
    name: string,
    markers: seq<Marker>,
    metadata: ServiceMetadata,
    virtualServices: seq<VsRef>,
    operState: string)

  /** `vipIPs` are the primary addresses, `runtime` the oper states of the VIPs. */
  datatype VsVipItem = VsVipItem(
    uuid: string,
    name: string,
    createdBy: string,
    markers: seq<Marker>,
    metadata: ServiceMetadata,
    virtualServices: seq<VsRef>,
    runtime: seq<string>)

  datatype PoolGroupItem = PoolGroupItem(
    uuid: string,
    name: string,
    markers: seq<Marker>,
    memberPoolRefs: seq<string>)

  datatype Server = Server(address: string, port: string, operState: string)

  /** One server of one pool, as the pool-member fetch returns it. */
  datatype PoolMember = PoolMember(pool: PoolItem, server: Server)
}
