/** The Kubernetes objects the controller watches, the Avi objects it posts, and the entries it caches. */
module Model {
  import opened Strings
  import opened Wrappers

  datatype NamespaceName = NamespaceName(ns: string, name: string)

  // ---------- Kubernetes ----------

  datatype TargetPort = Number(n: int) | Name(s: string)
  {
    function Text(): string {
      match this
      case Number(n) => if n < 0 then "-" + Itoa(-n) else Itoa(n)
      case Name(s) => s
    }
  }

  datatype ServicePort = ServicePort(name: string, protocol: string, port: int, targetPort: TargetPort)

  datatype Service = Service(ns: string, name: string, version: string, ports: seq<ServicePort>)
  {
    function Key(): NamespaceName { NamespaceName(ns, name) }
  }

  datatype EndpointPort = EndpointPort(name: string, protocol: string, port: int)

  datatype Address = Address(ip: string, node: Option<string>)

  /** A group of ready addresses sharing the same ports; addresses that are not ready play no part. */
  datatype Subset = Subset(addresses: seq<Address>, ports: seq<EndpointPort>)

  datatype Endpoints = Endpoints(ns: string, name: string, version: string, subsets: seq<Subset>)
  {
    function Key(): NamespaceName { NamespaceName(ns, name) }
  }

  /** Protocol in lower case, tcp when left out. */
  function Protocol(p: string): string {
    if p == "" then "tcp" else ToLower(p)
  }

  /** utils.CrudHashKey for a Service. */
  function CrudHashKey(k: NamespaceName): string {
    k.ns + ":" + k.name
  }

  // ---------- Avi ----------

  datatype Server = Server(ip: string, port: int, node: string)

  datatype Pool = Pool(name: string, cksum: string, tenant: string, crudHashKey: string, servers: seq<Server>,
      healthMonitor: string)

  datatype Listener = Listener(port: int, overrideProfile: Option<string>)

  datatype Selector = Selector(port: int, protocol: string, pool: string)

  datatype VirtualService = VirtualService(
    name: string, cksum: string, tenant: string, crudHashKey: string,
    networkProfile: string, applicationProfile: string, defaultPool: string,
    listeners: seq<Listener>, selectors: seq<Selector>)

  datatype Rule = Rule(name: string, index: int, port: int, pool: string)

  datatype HttpPolicySet = HttpPolicySet(name: string, cksum: string, tenant: string, rules: seq<Rule>)

  datatype Obj = PoolObj(pool: Pool) | VsObj(vs: VirtualService) | HpsObj(hps: HttpPolicySet)

  // ---------- caches ----------

  datatype PoolEntry = PoolEntry(name: string, tenant: string, uuid: string, lb: string, crudHashKey: string,
      cksum: string)

  datatype VsEntry = VsEntry(name: string, tenant: string, uuid: string, crudHashKey: string, cksum: string)
}
