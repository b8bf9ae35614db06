/** The virtual service that a service sync sends, and its policy set, told in terms of the Service alone. */
module PostedServices {
  import opened Strings
  import opened Wrappers
  import opened Model
  import opened Rest
  import opened Pools
  import opened VirtualServices
  import opened Sync
  import opened References
  import opened Batches

  // ---------- the ports of the Service ----------

  ghost predicate IsTcp(p: ServicePort) {
    Called(p.protocol, "tcp")
  }

  /** An HTTP port: tcp, and called http or http-something, or at one of the four well-known numbers. */
  ghost predicate IsWeb(p: ServicePort) {
    && IsTcp(p)
    && (p.name == "http" || (|p.name| >= 5 && p.name[..5] == "http-") || p.port in {80, 443, 8080, 8443})
  }

  ghost predicate SomeTcp(ports: seq<ServicePort>) {
    exists i :: 0 <= i < |ports| && IsTcp(ports[i])
  }

  ghost predicate AllWeb(ports: seq<ServicePort>) {
    forall i :: 0 <= i < |ports| ==> IsWeb(ports[i])
  }

  lemma {:induction false} WebExactly(p: ServicePort)
    ensures HttpPort(p) <==> IsWeb(p)
    ensures Protocol(p.protocol) == "tcp" <==> IsTcp(p)
  {
    ProtocolIsCalled(p.protocol, "tcp");
  }

  lemma {:induction false} FlagsExactly(ports: seq<ServicePort>)
    ensures AllHttp(ports) <==> AllWeb(ports)
    ensures NoTcp(ports) <==> !SomeTcp(ports)
  {
    forall i | 0 <= i < |ports|
      ensures HttpPort(ports[i]) <==> IsWeb(ports[i])
      ensures Protocol(ports[i].protocol) == "tcp" <==> IsTcp(ports[i])
    {
      WebExactly(ports[i]);
    }
    if SomeTcp(ports) {
      var i :| 0 <= i < |ports| && IsTcp(ports[i]);
      assert Protocol(ports[i].protocol) == "tcp";
    }
    if AllWeb(ports) {
      assert forall i :: 0 <= i < |ports| ==> IsWeb(ports[i]);
    }
    if AllHttp(ports) {
      assert forall i :: 0 <= i < |ports| ==> HttpPort(ports[i]);
    }
  }

  // ---------- the virtual service ----------

  /** What one port of the Service gives as a listener. */
  ghost predicate IsListener(ports: seq<ServicePort>, p: ServicePort, l: Listener) {
    && l.port == p.port
    && l.overrideProfile == if Called(p.protocol, "udp") && SomeTcp(ports) then Some("System-UDP-Fast-Path") else None
  }

  lemma {:induction false} ListenerExactly(svc: Service, reqs: seq<Request>, i: nat)
    requires i < |svc.ports|
    ensures IsListener(svc.ports, svc.ports[i], Listeners(MetaOf(svc, reqs))[i])
  {
    var meta := MetaOf(svc, reqs);
    FlagsExactly(svc.ports);
    ProfilesDiffer();
    ProtocolIsCalled(svc.ports[i].protocol, "udp");
    WebExactly(svc.ports[i]);
    assert meta.listeners[i] == KeyOf(svc.ports[i]);
  }

  /** The name of the first pool of a batch, "" when it has none. */
  ghost predicate IsFirstPool(ops: seq<Request>, name: string) {
    if ops != [] && ops[0].obj.PoolObj? then name == ops[0].obj.pool.name else name == ""
  }

  /** The virtual service of the last operation, but for its default pool and its selectors. */
  ghost predicate IsServiceOf(svc: Service, vs: VirtualService) {
    && vs.name == svc.name && vs.cksum == svc.version && vs.tenant == svc.ns
    && vs.crudHashKey == svc.ns + ":" + svc.name
    && vs.networkProfile == (if SomeTcp(svc.ports) then "System-TCP-Proxy" else "System-UDP-Fast-Path")
    && vs.applicationProfile == (if AllWeb(svc.ports) then "System-HTTP" else "System-L4-Application")
    && |vs.listeners| == |svc.ports|
    && forall i :: 0 <= i < |svc.ports| ==> IsListener(svc.ports, svc.ports[i], vs.listeners[i])
  }

  lemma {:induction false} ServiceOfMeta(svc: Service, reqs: seq<Request>, order2: seq<ListenerKey>)
    ensures IsServiceOf(svc, VsOf(MetaOf(svc, reqs), order2))
  {
    FlagsExactly(svc.ports);
    forall i | 0 <= i < |svc.ports|
      ensures IsListener(svc.ports, svc.ports[i], Listeners(MetaOf(svc, reqs))[i])
    {
      ListenerExactly(svc, reqs, i);
    }
  }

  lemma {:induction false} FirstOfBatch(svc: Service, part: seq<Request>, order2: seq<ListenerKey>)
    ensures var ops, pool := part + VsOps(MetaOf(svc, part), order2), MetaOf(svc, part).defaultPool;
      if |svc.ports| == 1 then IsFirstPool(ops, pool) else pool == ""
  {
    var vs := VsOps(MetaOf(svc, part), order2);
    NoPoolAfter(svc, part, order2);
    assert !vs[0].obj.PoolObj?;
    assert (part + vs)[0] == if part == [] then vs[0] else part[0];
  }

  lemma {:induction false} LastOperation(svc: Service, part: seq<Request>, order2: seq<ListenerKey>)
    ensures var ops, meta := VsOps(MetaOf(svc, part), order2), MetaOf(svc, part);
      ops[|ops| - 1] == Request(Post, "/api/macro", svc.ns, "VirtualService", VsObj(VsOf(meta, order2)))
  {
  }

  /**
   * The last operation of every service sync posts the virtual service of that name, tenant, version and metadata. Its
   * network profile is for tcp as soon as one port is, its application profile is for HTTP exactly when all ports are;
   * there is one listener for each port, in order, and a Service with one port gets the first pool of the batch.
   */
  lemma {:induction false} VirtualServiceSent(pools: PoolMap, svc: Service, ep: Endpoints, listed: Option<Service>,
                                              order: seq<PortProtocol>, order2: seq<ListenerKey>, ops: seq<Request>)
    returns (vs: VirtualService)
    requires ServiceOps(pools, svc, ep, listed, order, order2) == Ops(ops)
    ensures ops != [] && ops[|ops| - 1] == Request(Post, "/api/macro", svc.ns, "VirtualService", VsObj(vs))
    ensures IsServiceOf(svc, vs)
    ensures if |svc.ports| == 1 then IsFirstPool(ops, vs.defaultPool) else vs.defaultPool == ""
  {
    var part := PoolPart(pools, svc, ep, listed, order).reqs;
    vs := VsOf(MetaOf(svc, part), order2);
    ServiceOfMeta(svc, part, order2);
    FirstOfBatch(svc, part, order2);
    LastOperation(svc, part, order2);
  }

  // ---------- pool references ----------

  /** No later port has the number and the protocol of port `i`. */
  ghost predicate KeepsListener(ports: seq<ServicePort>, i: int) {
    && 0 <= i < |ports|
    && forall j :: i < j < |ports| ==>
         ports[j].port != ports[i].port || Protocol(ports[j].protocol) != Protocol(ports[i].protocol)
  }

  /** `name` is the pool of a port of the service. */
  ghost predicate PoolNamed(service: string, p: ServicePort, name: string) {
    exists port, protocol :: Written(p.targetPort, port) && Called(p.protocol, protocol)
                             && name == service + "-pool-" + port + "-" + protocol
  }

  lemma {:induction false} PoolNamedExactly(service: string, p: ServicePort, name: string)
    ensures PoolNamed(service, p, name) <==> name == PoolNameOf(service, p)
  {
    forall port
      ensures Written(p.targetPort, port) <==> port == p.targetPort.Text()
    {
      TextIsWritten(p.targetPort, port);
    }
    forall protocol
      ensures Called(p.protocol, protocol) <==> protocol == Protocol(p.protocol)
    {
      ProtocolIsCalled(p.protocol, protocol);
    }
    assert Written(p.targetPort, p.targetPort.Text()) && Called(p.protocol, Protocol(p.protocol));
    assert PoolNameOf(service, p) == service + "-pool-" + p.targetPort.Text() + "-" + Protocol(p.protocol);
  }

  /** The last port with a listener key. */
  ghost function LastOf(ports: seq<ServicePort>, key: ListenerKey): int {
    if ports == [] then -1
    else if KeyOf(ports[|ports| - 1]) == key then |ports| - 1
    else LastOf(ports[..|ports| - 1], key)
  }

  lemma {:induction false} LastOfExactly(ports: seq<ServicePort>, key: ListenerKey)
    ensures var i := LastOf(ports, key);
      if 0 <= i < |ports| then KeepsListener(ports, i) && KeyOf(ports[i]) == key
      else i == -1 && forall j :: 0 <= j < |ports| ==> KeyOf(ports[j]) != key
  {
    if ports != [] && KeyOf(ports[|ports| - 1]) != key {
      var n := |ports| - 1;
      var i := LastOf(ports[..n], key);
      LastOfExactly(ports[..n], key);
      if 0 <= i < n {
        StillKeeps(ports, i);
      } else {
        assert forall j :: 0 <= j < n ==> ports[..n][j] == ports[j];
      }
    }
  }

  /** A port at the end with another key takes nothing over. */
  lemma {:induction false} StillKeeps(ports: seq<ServicePort>, i: int)
    requires ports != [] && KeepsListener(ports[..|ports| - 1], i)
    requires KeyOf(ports[|ports| - 1]) != KeyOf(ports[i])
    ensures KeepsListener(ports, i)
  {
    assert forall j :: i < j < |ports| - 1 ==> ports[..|ports| - 1][j] == ports[j];
  }

  /** The pool map has the pool of the last port with each key. */
  lemma {:induction false} MapOfLast(name: string, ports: seq<ServicePort>, key: ListenerKey)
    ensures var i, pm := LastOf(ports, key), PoolMapOf(name, ports);
      if 0 <= i < |ports| then key in pm && pm[key] == PoolNameOf(name, ports[i]) else key !in pm
  {
    LastOfExactly(ports, key);
    if ports != [] && KeyOf(ports[|ports| - 1]) != key {
      MapOfLast(name, ports[..|ports| - 1], key);
    }
  }

  /** For each key of the pool map the port that keeps it, every such port once. */
  ghost predicate Keepers(ports: seq<ServicePort>, from: seq<int>) {
    && NoDup(from) && (forall x :: 0 <= x < |from| ==> KeepsListener(ports, from[x]))
    && forall i :: KeepsListener(ports, i) ==> i in from
  }

  lemma {:induction false} KeysAreKept(name: string, ports: seq<ServicePort>, order: seq<ListenerKey>)
    returns (from: seq<int>)
    requires Enumerates(order, PoolMapOf(name, ports).Keys)
    ensures |from| == |order| && Keepers(ports, from)
    ensures forall x :: 0 <= x < |from| ==>
      && KeyOf(ports[from[x]]) == order[x] && order[x] in PoolMapOf(name, ports)
      && PoolMapOf(name, ports)[order[x]] == PoolNameOf(name, ports[from[x]])
  {
    from := seq(|order|, x requires 0 <= x < |order| => LastOf(ports, order[x]));
    forall x | 0 <= x < |from|
      ensures KeepsListener(ports, from[x]) && KeyOf(ports[from[x]]) == order[x] && order[x] in PoolMapOf(name, ports)
      ensures PoolMapOf(name, ports)[order[x]] == PoolNameOf(name, ports[from[x]])
    {
      assert order[x] in order;
      LastOfExactly(ports, order[x]);
      MapOfLast(name, ports, order[x]);
    }
    forall i | KeepsListener(ports, i)
      ensures i in from
    {
      var key := KeyOf(ports[i]);
      LastOfExactly(ports, key);
      MapOfLast(name, ports, key);
      assert key in order;
      var x :| 0 <= x < |order| && order[x] == key;
      OneKeeper(ports, i, from[x]);
      assert from[x] == i;
    }
  }

  lemma {:induction false} OneKeeper(ports: seq<ServicePort>, i: int, j: int)
    requires KeepsListener(ports, i) && KeepsListener(ports, j) && KeyOf(ports[i]) == KeyOf(ports[j])
    ensures i == j
  {
  }

  /** What one port gives as a selector. */
  ghost predicate IsSelector(service: string, p: ServicePort, s: Selector) {
    && s.port == p.port && PoolNamed(service, p, s.pool)
    && s.protocol == if IsTcp(p) then "PROTOCOL_TYPE_TCP_PROXY" else "PROTOCOL_TYPE_UDP_PROXY"
  }

  /** What one port gives as a rule, at position `x` of `n`. */
  ghost predicate IsRule(service: string, p: ServicePort, x: nat, n: nat, r: Rule) {
    && r.port == p.port && PoolNamed(service, p, r.pool) && r.index == n
    && exists digits :: Decimal(digits, x) && r.name == service + "-httppolicyset-" + digits
  }

  /** A selector for each port that keeps its listener. */
  ghost predicate Selected(svc: Service, from: seq<int>, selectors: seq<Selector>) {
    && |from| == |selectors| && Keepers(svc.ports, from)
    && forall x :: 0 <= x < |from| ==> IsSelector(svc.name, svc.ports[from[x]], selectors[x])
  }

  /** A rule for each port that keeps its listener. */
  ghost predicate Routed(svc: Service, from: seq<int>, rules: seq<Rule>) {
    && |from| == |rules| && Keepers(svc.ports, from)
    && forall x :: 0 <= x < |from| ==> IsRule(svc.name, svc.ports[from[x]], x, |rules|, rules[x])
  }

  lemma {:induction false} SelectorsAreSelected(svc: Service, order2: seq<ListenerKey>) returns (from: seq<int>)
    requires Enumerates(order2, PoolMapOf(svc.name, svc.ports).Keys)
    ensures Selected(svc, from, Selectors(PoolMapOf(svc.name, svc.ports), order2))
  {
    from := KeysAreKept(svc.name, svc.ports, order2);
    var selectors := Selectors(PoolMapOf(svc.name, svc.ports), order2);
    forall x | 0 <= x < |from|
      ensures IsSelector(svc.name, svc.ports[from[x]], selectors[x])
    {
      var p := svc.ports[from[x]];
      WebExactly(p);
      PoolNamedExactly(svc.name, p, selectors[x].pool);
    }
  }

  lemma {:induction false} RulesAreRouted(svc: Service, order2: seq<ListenerKey>) returns (from: seq<int>)
    requires Enumerates(order2, PoolMapOf(svc.name, svc.ports).Keys)
    ensures Routed(svc, from, Rules(svc.name + "-httppolicyset", PoolMapOf(svc.name, svc.ports), order2))
  {
    from := KeysAreKept(svc.name, svc.ports, order2);
    var rules := Rules(svc.name + "-httppolicyset", PoolMapOf(svc.name, svc.ports), order2);
    forall x | 0 <= x < |from|
      ensures IsRule(svc.name, svc.ports[from[x]], x, |rules|, rules[x])
    {
      RuleNamed(svc.name, x);
      RuleExactly(svc.name, svc.ports[from[x]], x, |rules|, rules[x]);
    }
  }

  lemma {:induction false} RuleNamed(service: string, x: nat)
    ensures (service + "-httppolicyset") + "-" + Itoa(x) == service + "-httppolicyset-" + Itoa(x)
  {
  }

  lemma {:induction false} RuleExactly(service: string, p: ServicePort, x: nat, n: nat, r: Rule)
    requires r.name == service + "-httppolicyset-" + Itoa(x) && r.index == n && r.port == p.port
      && r.pool == PoolNameOf(service, p)
    ensures IsRule(service, p, x, n, r)
  {
    PoolNamedExactly(service, p, r.pool);
    ItoaDecimal(x);
  }

  // ---------- where the references go ----------

  lemma {:induction false} NoPolicyBefore(pools: PoolMap, svc: Service, ep: Endpoints, listed: Option<Service>,
                                          order: seq<PortProtocol>)
    requires PoolPart(pools, svc, ep, listed, order).Ops?
    ensures forall r :: r in PoolPart(pools, svc, ep, listed, order).reqs ==> r.obj.PoolObj?
  {
    if listed.Some? && Resolve(listed.value, ReadyPorts(ep.subsets)).Found? {
      BuildOpsNames(pools, ep, CrudHashKey(svc.Key()), NamesOf(svc.name, order));
    }
  }

  /** The operations after the pools: one, or two with the policy set first. */
  lemma {:induction false} TailOfBatch(svc: Service, part: seq<Request>, order2: seq<ListenerKey>)
    ensures var tail, meta := VsOps(MetaOf(svc, part), order2), MetaOf(svc, part);
      && tail[|tail| - 1].obj == VsObj(VsOf(meta, order2))
      && (if |svc.ports| > 1 && AllWeb(svc.ports)
          then |tail| == 2 && tail[0] == Request(Post, "/api/macro", svc.ns, "HTTPRequestPolicy",
              HpsObj(HttpPolicySet(svc.name + "-httppolicyset", svc.version, svc.ns,
                                   Rules(svc.name + "-httppolicyset", PoolMapOf(svc.name, svc.ports), order2))))
          else |tail| == 1)
  {
    FlagsExactly(svc.ports);
    ProfilesDiffer();
  }

  lemma {:induction false} SelectorsOfMeta(svc: Service, part: seq<Request>, order2: seq<ListenerKey>)
    ensures VsOf(MetaOf(svc, part), order2).selectors ==
            if |svc.ports| > 1 && !AllWeb(svc.ports) then Selectors(PoolMapOf(svc.name, svc.ports), order2) else []
  {
    FlagsExactly(svc.ports);
    ProfilesDiffer();
  }

  /**
   * The virtual service of a Service with several ports, not all HTTP, selects the pool of each port whose listener no
   * later port takes over, once, under the number and the protocol of that port. Any other selects nothing.
   */
  lemma {:induction false} SelectorsSent(pools: PoolMap, svc: Service, ep: Endpoints, listed: Option<Service>,
                                         order: seq<PortProtocol>, order2: seq<ListenerKey>, ops: seq<Request>)
    returns (vs: VirtualService, from: seq<int>)
    requires ServiceOps(pools, svc, ep, listed, order, order2) == Ops(ops)
    requires Enumerates(order2, MetaOf(svc, []).poolMap.Keys)
    ensures ops != [] && ops[|ops| - 1].obj == VsObj(vs)
    ensures if |svc.ports| > 1 && !AllWeb(svc.ports) then Selected(svc, from, vs.selectors) else vs.selectors == []
  {
    var part := PoolPart(pools, svc, ep, listed, order).reqs;
    vs := VsOf(MetaOf(svc, part), order2);
    LastOperation(svc, part, order2);
    SelectorsOfMeta(svc, part, order2);
    from := [];
    if |svc.ports| > 1 && !AllWeb(svc.ports) {
      from := SelectorsAreSelected(svc, order2);
    }
  }

  /**
   * With several ports, all HTTP, a policy set goes right before the virtual service, and its rules route to the pools
   * of those ports. Any other Service gets no policy set.
   */
  lemma {:induction false} PolicySent(pools: PoolMap, svc: Service, ep: Endpoints, listed: Option<Service>,
                                      order: seq<PortProtocol>, order2: seq<ListenerKey>, ops: seq<Request>)
    returns (from: seq<int>, rules: seq<Rule>)
    requires ServiceOps(pools, svc, ep, listed, order, order2) == Ops(ops)
    requires Enumerates(order2, MetaOf(svc, []).poolMap.Keys)
    ensures if |svc.ports| > 1 && AllWeb(svc.ports)
            then
              && Routed(svc, from, rules) && |ops| > 1
              && ops[|ops| - 2] == Request(Post, "/api/macro", svc.ns, "HTTPRequestPolicy",
                                           HpsObj(HttpPolicySet(svc.name + "-httppolicyset", svc.version, svc.ns,
                                               rules)))
            else forall r :: r in ops ==> !r.obj.HpsObj?
  {
    var part := PoolPart(pools, svc, ep, listed, order).reqs;
    TailOfBatch(svc, part, order2);
    from, rules := [], [];
    if |svc.ports| > 1 && AllWeb(svc.ports) {
      from := RulesAreRouted(svc, order2);
      rules := Rules(svc.name + "-httppolicyset", PoolMapOf(svc.name, svc.ports), order2);
    } else {
      NoPolicyBefore(pools, svc, ep, listed, order);
    }
  }
}
