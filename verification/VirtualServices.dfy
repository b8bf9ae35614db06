/** From a Service to its virtual service: profiles, listeners, pool references and the order of the operations. */
module VirtualServices {
  import opened Strings
  import opened Wrappers
  import opened Model
  import opened PoolNames
  import opened Rest
  import opened Pools

  const TCP_PROXY := "System-TCP-Proxy"
  const UDP_FAST := "System-UDP-Fast-Path"
  const HTTP_APP := "System-HTTP"
  const L4_APP := "System-L4-Application"

  /** A listener's port and protocol. */
  datatype ListenerKey = ListenerKey(port: int, protocol: string)

  datatype VsMeta = VsMeta(
    name: string, tenant: string, cksum: string, crudHashKey: string,
    networkProfile: string, applicationProfile: string,
    listeners: seq<ListenerKey>, poolMap: map<ListenerKey, string>, defaultPool: string)

  // ---------- what a Service asks for ----------

  predicate IsSvcHttp(name: string, port: int) {
    name == "http" || "http-" <= name || port == 80 || port == 443 || port == 8080 || port == 8443
  }

  function KeyOf(p: ServicePort): ListenerKey {
    ListenerKey(p.port, Protocol(p.protocol))
  }

  predicate HttpPort(p: ServicePort) {
    Protocol(p.protocol) == "tcp" && IsSvcHttp(p.name, p.port)
  }

  predicate AllHttp(ports: seq<ServicePort>) {
    forall i :: 0 <= i < |ports| ==> HttpPort(ports[i])
  }

  predicate NoTcp(ports: seq<ServicePort>) {
    forall i :: 0 <= i < |ports| ==> Protocol(ports[i].protocol) != "tcp"
  }

  /** The pool of each listener; a later port with the same listener key wins. */
  function PoolMapOf(name: string, ports: seq<ServicePort>): map<ListenerKey, string> {
    if ports == [] then map[]
    else
      var n := |ports| - 1;
      PoolMapOf(name,
          ports[..n])[KeyOf(ports[n]) := Print(name, ports[n].targetPort.Text(), Protocol(ports[n].protocol))]
  }

  function FirstPool(reqs: seq<Request>): string {
    if reqs != [] && reqs[0].obj.PoolObj? then reqs[0].obj.pool.name else ""
  }

  function Keys(ports: seq<ServicePort>): (r: seq<ListenerKey>)
    ensures |r| == |ports|
  {
    seq(|ports|, i requires 0 <= i < |ports| => KeyOf(ports[i]))
  }

  function MetaOf(svc: Service, poolReqs: seq<Request>): VsMeta {
    VsMeta(svc.name, svc.ns, svc.version, CrudHashKey(svc.Key()),
           if NoTcp(svc.ports) then UDP_FAST else TCP_PROXY,
           if AllHttp(svc.ports) then HTTP_APP else L4_APP,
           Keys(svc.ports),
           if |svc.ports| > 1 then PoolMapOf(svc.name, svc.ports) else map[],
           if |svc.ports| == 1 then FirstPool(poolReqs) else "")
  }

  /** One more port. */
  lemma {:induction false} FlagsSnoc(ports: seq<ServicePort>, i: nat)
    requires i < |ports|
    ensures AllHttp(ports[..i + 1]) <==> AllHttp(ports[..i]) && HttpPort(ports[i])
    ensures NoTcp(ports[..i + 1]) <==> NoTcp(ports[..i]) && Protocol(ports[i].protocol) != "tcp"
  {
    var now, before := ports[..i + 1], ports[..i];
    assert now[i] == ports[i] && forall j :: 0 <= j < i ==> now[j] == before[j];
  }

  lemma {:induction false} KeysSnoc(ports: seq<ServicePort>, i: nat)
    requires i < |ports|
    ensures Keys(ports[..i + 1]) == Keys(ports[..i]) + [KeyOf(ports[i])]
  {
  }

  lemma {:induction false} PoolMapSnoc(name: string, ports: seq<ServicePort>, i: nat)
    requires i < |ports|
    ensures var pool := Print(name, ports[i].targetPort.Text(), Protocol(ports[i].protocol));
      PoolMapOf(name, ports[..i + 1]) == PoolMapOf(name, ports[..i])[KeyOf(ports[i]) := pool]
  {
    assert ports[..i + 1][..i] == ports[..i];
  }

  /** The loop over the service ports, with its two flags and the map it fills. */
  method BuildMeta(svc: Service, poolReqs: seq<Request>) returns (meta: VsMeta)
    ensures meta == MetaOf(svc, poolReqs)
  {
    var isHttp, isUdp := true, true;
    var listeners: seq<ListenerKey> := [];
    var poolMap: map<ListenerKey, string> := map[];
    for i := 0 to |svc.ports|
      invariant isHttp == AllHttp(svc.ports[..i]) && isUdp == NoTcp(svc.ports[..i])
      invariant listeners == Keys(svc.ports[..i])
      invariant poolMap == if |svc.ports| > 1 then PoolMapOf(svc.name, svc.ports[..i]) else map[]
    {
      var p := svc.ports[i];
      FlagsSnoc(svc.ports, i);
      KeysSnoc(svc.ports, i);
      PoolMapSnoc(svc.name, svc.ports, i);
      var prot := Protocol(p.protocol);
      var pp := ListenerKey(p.port, prot);
      listeners := listeners + [pp];
      if prot != "tcp" {
        isHttp := false;
      } else {
        isUdp := false;
      }
      if |svc.ports| > 1 {
        poolMap := poolMap[pp := Print(svc.name, p.targetPort.Text(), prot)];
      }
      if !IsSvcHttp(p.name, p.port) {
        isHttp := false;
      }
    }
    assert svc.ports[..|svc.ports|] == svc.ports;
    assert isHttp == AllHttp(svc.ports) && isUdp == NoTcp(svc.ports);
    assert listeners == Keys(svc.ports);
    var defaultPool := "";
    if |svc.ports| == 1 {
      defaultPool := FirstPool(poolReqs);
    }
    meta := VsMeta(svc.name, svc.ns, svc.version, CrudHashKey(svc.Key()),
                   if isUdp then UDP_FAST else TCP_PROXY, if isHttp then HTTP_APP else L4_APP,
                   listeners, poolMap, defaultPool);
  }

  // ---------- the operations ----------

  function OverrideOf(protocol: string, networkProfile: string): Option<string> {
    if protocol == "tcp" && networkProfile == UDP_FAST then Some(TCP_PROXY)
    else if protocol == "udp" && networkProfile == TCP_PROXY then Some(UDP_FAST)
    else None
  }

  function Listeners(meta: VsMeta): (r: seq<Listener>)
    ensures |r| == |meta.listeners|
  {
    seq(|meta.listeners|, i requires 0 <= i < |meta.listeners| =>
      Listener(meta.listeners[i].port, OverrideOf(meta.listeners[i].protocol, meta.networkProfile)))
  }

  function SelectorOf(key: ListenerKey, pool: string): Selector {
    Selector(key.port, if key.protocol == "tcp" then "PROTOCOL_TYPE_TCP_PROXY" else "PROTOCOL_TYPE_UDP_PROXY", pool)
  }

  function Selectors(poolMap: map<ListenerKey, string>, order: seq<ListenerKey>): (r: seq<Selector>)
    ensures |r| == |order|
  {
    seq(|order|, i requires 0 <= i < |order| =>
      SelectorOf(order[i], if order[i] in poolMap then poolMap[order[i]] else ""))
  }

  /** The rules as the policy set holds them when it is sent: see `AviHttpPSBuild` below for the index. */
  function Rules(name: string, poolMap: map<ListenerKey, string>, order: seq<ListenerKey>): (r: seq<Rule>)
    ensures |r| == |order|
  {
    seq(|order|, i requires 0 <= i < |order| =>
      Rule(name + "-" + Itoa(i), |order|, order[i].port, if order[i] in poolMap then poolMap[order[i]] else ""))
  }

  function PolicyName(meta: VsMeta): string {
    meta.name + "-httppolicyset"
  }

  function VsOf(meta: VsMeta, order: seq<ListenerKey>): VirtualService {
    VirtualService(meta.name, meta.cksum, meta.tenant, meta.crudHashKey, meta.networkProfile, meta.applicationProfile,
                   meta.defaultPool, Listeners(meta),
                   if |meta.listeners| > 1
                     && meta.applicationProfile == L4_APP then Selectors(meta.poolMap, order) else [])
  }

  /** The virtual service, preceded by an HTTP policy set for several all-HTTP listeners. */
  function VsOps(meta: VsMeta, order: seq<ListenerKey>): (ops: seq<Request>)
    ensures 1 <= |ops| <= 2
  {
    var vsOp := Request(Post, MACRO, meta.tenant, "VirtualService", VsObj(VsOf(meta, order)));
    if |meta.listeners| > 1 && meta.applicationProfile == HTTP_APP then
      [Request(Post, MACRO, meta.tenant, "HTTPRequestPolicy",
               HpsObj(HttpPolicySet(PolicyName(meta), meta.cksum, meta.tenant,
                   Rules(PolicyName(meta), meta.poolMap, order)))),
       vsOp]
    else [vsOp]
  }

  // ---------- the policy set, as its rules are built ----------

  /** The variable whose address every rule stores. */
  class IndexCell {
    var v: int

    constructor ()
      ensures v == 0
    {
      v := 0;
    }
  }

  class RequestRule {
    const name: string
    const index: IndexCell
    const port: int
    const pool: string

    constructor (name: string, index: IndexCell, port: int, pool: string)
      ensures this.name == name && this.index == index && this.port == port && this.pool == pool
    {
      this.name := name;
      this.index := index;
      this.port := port;
      this.pool := pool;
    }
  }

  function Read(r: RequestRule): Rule
    reads r, r.index
  {
    Rule(r.name, r.index.v, r.port, r.pool)
  }

  /** The rule loop: all rules share one index cell, which ends at the number of rules. */
  method AviHttpPSBuild(name: string, poolMap: map<ListenerKey, string>, order: seq<ListenerKey>)
    returns (rules: seq<RequestRule>)
    ensures |rules| == |order|
    ensures forall i :: 0 <= i < |rules| ==> Read(rules[i]) == Rules(name, poolMap, order)[i]
    ensures forall i :: 0 <= i < |rules| ==> rules[i].index.v == |rules|
  {
    var idx := new IndexCell();
    rules := [];
    for i := 0 to |order|
      invariant idx.v == i == |rules|
      invariant forall j :: 0 <= j < i ==> rules[j].index == idx && rules[j].name == name + "-" + Itoa(j)
                                           && rules[j].port == order[j].port
                                           && rules[j].pool == if order[j] in poolMap then poolMap[order[j]] else ""
    {
      var rule := new RequestRule(name + "-" + Itoa(idx.v), idx, order[i].port,
          if order[i] in poolMap then poolMap[order[i]] else "");
      rules := rules + [rule];
      idx.v := idx.v + 1;
    }
  }

  /** Rule names are pairwise distinct; rule indices are all the same, so distinct only for a single rule. */
  lemma {:induction false} RuleNamesAndIndices(name: string, poolMap: map<ListenerKey, string>, order: seq<ListenerKey>)
    ensures var rules := Rules(name, poolMap, order);
      && (forall i, j :: 0 <= i < j < |rules| ==> rules[i].name != rules[j].name)
      && ((forall i :: 0 <= i < |rules| ==> rules[i].index == i) <==> rules == [])
      && ((forall i, j :: 0 <= i < j < |rules| ==> rules[i].index != rules[j].index) <==> |rules| <= 1)
  {
    var rules := Rules(name, poolMap, order);
    forall i, j | 0 <= i < j < |rules|
      ensures rules[i].name != rules[j].name
    {
      ItoaInjective(i, j);
      var dashed := name + "-";
      assert Itoa(i) == rules[i].name[|dashed|..] && Itoa(j) == rules[j].name[|dashed|..];
    }
    if |rules| > 1 {
      assert rules[0].index == rules[1].index;
    }
    if rules != [] {
      assert rules[0].index == |rules| != 0;
    }
  }

  // ---------- listener profiles ----------

  /** The network profile a listener ends up with. */
  function Effective(l: Listener, networkProfile: string): string {
    match l.overrideProfile
    case Some(p) => p
    case None => networkProfile
  }

  /**
   * For every port list: a tcp listener runs on the TCP proxy and a udp listener on the UDP fast path, and
   * no listener is ever overridden to the TCP proxy.
   */
  lemma {:induction false} ListenerProfiles(svc: Service, poolReqs: seq<Request>, i: nat)
    requires i < |svc.ports|
    ensures var meta := MetaOf(svc, poolReqs);
      var l := Listeners(meta)[i];
      && (Protocol(svc.ports[i].protocol) == "tcp" ==> Effective(l, meta.networkProfile) == TCP_PROXY)
      && (Protocol(svc.ports[i].protocol) == "udp" ==> Effective(l, meta.networkProfile) == UDP_FAST)
      && l.overrideProfile != Some(TCP_PROXY)
  {
    var meta := MetaOf(svc, poolReqs);
    ProfilesDiffer();
    assert meta.listeners[i] == KeyOf(svc.ports[i]);
  }

  lemma {:induction false} ProfilesDiffer()
    ensures TCP_PROXY != UDP_FAST && HTTP_APP != L4_APP && "tcp" != "udp"
  {
    assert |TCP_PROXY| != |UDP_FAST| && |HTTP_APP| != |L4_APP| && "tcp"[0] != "udp"[0];
  }
}
