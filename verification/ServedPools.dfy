/** Whether the pools that the virtual service of a Service with several ports refers to are there to serve. */
module ServedPools {
  import opened Wrappers
  import opened Model
  import opened PoolNames
  import opened Rest
  import opened Pools
  import opened VirtualServices
  import opened Sync
  import opened Effects
  import opened Runs
  import opened Guarantees
  import opened Convergence
  import opened References

  /** The pool called `x` is linked to the service and on the far side. */
  ghost predicate CanServe(st: State, k: NamespaceName, x: string) {
    (k, Link(x)) in st.links && NamespaceName(k.ns, x) in st.net.remote.pools
  }

  /** A Service port with the pool `x` has a ready endpoint port. */
  ghost predicate HasReady(svc: Service, ports: seq<EndpointPort>, x: string) {
    exists i, e :: 0 <= i < |svc.ports| && 0 <= e < |ports| && svc.ports[i].name == ports[e].name
                   && PoolNameOf(svc.name, svc.ports[i]) == x
  }

  // ---------- ready ports are resolved ports ----------

  lemma {:induction false} FoundResolvesAll(svc: Service, ports: seq<EndpointPort>, e: nat)
    requires Resolve(svc, ports).Found? && e < |ports|
    ensures ResolveOne(svc, ports[e]).Port?
  {
    var n := |ports| - 1;
    if e < n {
      FoundResolvesAll(svc, ports[..n], e);
    }
  }

  ghost predicate ResolvedName(svc: Service, pps: set<PortProtocol>, x: string) {
    exists pp :: pp in pps && Print(svc.name, pp.port, pp.protocol) == x
  }

  lemma {:induction false} ReadyIsResolved(svc: Service, ports: seq<EndpointPort>, i: nat, e: nat)
    requires ProperPorts(svc) && Agrees(svc, ports) && Resolve(svc, ports).Found?
    requires i < |svc.ports| && e < |ports| && svc.ports[i].name == ports[e].name
    ensures ResolvedName(svc, Resolve(svc, ports).pps, PoolNameOf(svc.name, svc.ports[i]))
  {
    var j :| 0 <= j < |svc.ports| && svc.ports[j].name == ports[e].name != ""
             && Protocol(svc.ports[j].protocol) == Protocol(ports[e].protocol);
    assert i == j;
    TargetOfPort(svc.ports, i);
    FoundResolvesAll(svc, ports, e);
    var pp := ResolveOne(svc, ports[e]).pp;
    ResolveExact(svc, ports, pp);
    assert Print(svc.name, pp.port, pp.protocol) == PoolNameOf(svc.name, svc.ports[i]);
  }

  lemma {:induction false} ReadyExactly(svc: Service, ports: seq<EndpointPort>, x: string)
    requires ProperPorts(svc) && Agrees(svc, ports) && Resolve(svc, ports).Found?
    ensures HasReady(svc, ports, x) <==> ResolvedName(svc, Resolve(svc, ports).pps, x)
  {
    if HasReady(svc, ports, x) {
      var i, e :| 0 <= i < |svc.ports| && 0 <= e < |ports| && svc.ports[i].name == ports[e].name
                  && PoolNameOf(svc.name, svc.ports[i]) == x;
      ReadyIsResolved(svc, ports, i, e);
    }
    if ResolvedName(svc, Resolve(svc, ports).pps, x) {
      var pp :| pp in Resolve(svc, ports).pps && Print(svc.name, pp.port, pp.protocol) == x;
      var i, e := ResolvedIsServicePort(svc, ports, pp);
    }
  }

  // ---------- what a batch adds ----------

  /** Filling the caches links no other pools than those of the batch. */
  lemma {:induction false} FillLinksOnly(st: State, k: NamespaceName, ops: seq<Request>, results: seq<Result>, n: nat,
                                         x: string)
    requires n <= |ops| == |results| && Fill(st, k, ops[..n], results[..n]).Some?
    requires forall i :: 0 <= i < n ==> Echoed(ops[i], results[i]) && (ops[i].model == "Pool" <==> ops[i].obj.PoolObj?)
    ensures (k, Link(x)) in Fill(st, k, ops[..n], results[..n]).value.links ==>
      (k, Link(x)) in st.links || Posts(ops[..n], x)
  {
    if n > 0 {
      FillTurn(st, k, ops, results, n - 1);
      FillLinksOnly(st, k, ops, results, n - 1, x);
      FillOneLink(Fill(st, k, ops[..n - 1], results[..n - 1]).value, k, ops[n - 1], results[n - 1], x);
      PostsMore(ops, n - 1, x);
    }
  }

  lemma {:induction false} FillOneLink(s: State, k: NamespaceName, req: Request, r: Result, x: string)
    requires Echoed(req, r) && (req.model == "Pool" <==> req.obj.PoolObj?) && FillOne(s, k, req, r).Some?
    ensures (k, Link(x)) in FillOne(s, k, req, r).value.links ==>
              (k, Link(x)) in s.links || (req.obj.PoolObj? && req.obj.pool.name == x)
  {
    if req.model == "Pool" {
      var entry := EchoedPool(req, r, s.pools, s.links, k);
      LinkTail(x);
      LinkTail(req.obj.pool.name);
    }
  }

  lemma {:induction false} PostsMore(ops: seq<Request>, n: nat, x: string)
    requires n < |ops|
    ensures Posts(ops[..n + 1], x) <==> Posts(ops[..n], x) || (ops[n].obj.PoolObj? && ops[n].obj.pool.name == x)
  {
    if Posts(ops[..n], x) {
      var i :| 0 <= i < n && ops[..n][i].obj.PoolObj? && ops[..n][i].obj.pool.name == x;
      assert ops[..n + 1][i] == ops[i];
    }
    if Posts(ops[..n + 1], x) {
      var i :| 0 <= i <= n && ops[..n + 1][i].obj.PoolObj? && ops[..n + 1][i].obj.pool.name == x;
      assert i < n ==> ops[..n][i] == ops[i];
    }
    assert ops[..n + 1][n] == ops[n];
  }

  /** A successful service sync links and posts the pools of its batch, and no other. */
  lemma {:induction false} BatchAdds(oracle: Oracle, w: World, k: NamespaceName, order: seq<PortProtocol>,
                                     order2: seq<ListenerKey>, ran: Ran, x: string)
    requires Reachable(oracle, w) && Inv(oracle, w) && k in w.cluster.svcs && k in w.cluster.eps
    requires ServiceStep(oracle, w, k, order, order2, ran) && ran.Ran? && ran.err == NoError
    requires !UpToDate(w.st.vss, w.cluster.svcs[k])
    ensures CanServe(w.st, k, x) ==> CanServe(ran.st, k, x)
    ensures CanServe(ran.st, k, x) ==> CanServe(w.st, k, x) || Posts(ran.ops, x)
  {
    var svc, ep := w.cluster.svcs[k], w.cluster.eps[k];
    ServiceRan(oracle, w, k, order, order2, ran);
    var reqs := PoolPart(w.st.pools, svc, ep, Some(svc), order).reqs;
    ServiceOpsShape(w.st.pools, ep, svc, reqs, order2);
    var b := Operate(oracle, w.st.net, ran.ops);
    BatchLanded(oracle, w.st.pools, ep, w.st.net, k, reqs, ran.ops);
    ServiceLinks(w.st.(net := b.net), k, ran.ops, b.results, |reqs|);
    AllLinks(w.st.(net := b.net), k, ran.ops, b.results, |reqs|, x);
    FillNet(w.st.(net := b.net), k, ran.ops, b.results);
    OperateGrows(oracle, w.st.net, ran.ops);
    if !Posts(ran.ops, x) {
      assert Avoids(ran.ops, NamespaceName(k.ns, x));
      OperateFrame(oracle, w.st.net, ran.ops, NamespaceName(k.ns, x));
    }
  }

  lemma {:induction false} AllLinks(st: State, k: NamespaceName, ops: seq<Request>, results: seq<Result>, pools: nat,
                                    x: string)
    requires ServiceBatch(ops, pools) && |results| == |ops| && Fill(st, k, ops, results).Some?
    requires forall i :: 0 <= i < |ops| ==> Echoed(ops[i], results[i])
    ensures (k, Link(x)) in Fill(st, k, ops, results).value.links ==> (k, Link(x)) in st.links || Posts(ops, x)
  {
    assert ops[..|ops|] == ops && results[..|ops|] == results;
    assert |"Pool"| != |"VirtualService"| && |"Pool"| != |"HTTPRequestPolicy"|;
    FillLinksOnly(st, k, ops, results, |ops|, x);
  }

  /** Filling the caches sends nothing. */
  lemma {:induction false} FillNet(st: State, k: NamespaceName, ops: seq<Request>, results: seq<Result>)
    requires |ops| == |results| && Fill(st, k, ops, results).Some?
    ensures Fill(st, k, ops, results).value.net == st.net
    decreases |ops|
  {
    if ops != [] {
      FillNet(st, k, ops[..|ops| - 1], results[..|ops| - 1]);
    }
  }

  /** The pools of a batch are those of ready ports. */
  lemma {:induction false} PostedIsResolved(pools: PoolMap, svc: Service, ep: Endpoints, order: seq<PortProtocol>,
                                            order2: seq<ListenerKey>, ops: seq<Request>, x: string)
    requires var r := Resolve(svc, ReadyPorts(ep.subsets)); r.Found? && Enumerates(order, r.pps)
    requires ServiceOps(pools, svc, ep, Some(svc), order, order2) == Ops(ops) && Posts(ops, x)
    ensures ResolvedName(svc, Resolve(svc, ReadyPorts(ep.subsets)).pps, x)
  {
    var i :| 0 <= i < |ops| && ops[i].obj.PoolObj? && ops[i].obj.pool.name == x;
    var reqs := PoolPart(pools, svc, ep, Some(svc), order).reqs;
    VsOpsShape(svc, reqs, order2);
    assert i < |reqs| && ops[i] in reqs;
    var n := BuiltNames(pools, svc, ep, order, reqs, ops[i]);
    assert order[n] in order;
  }

  /**
   * After a successful service sync, a pool of the service is linked and on the far side if and only if one of its
   * Service ports has a ready endpoint port, or it was linked and there before.
   */
  lemma {:induction false} ServesExactly(oracle: Oracle, w: World, k: NamespaceName, order: seq<PortProtocol>,
                                         order2: seq<ListenerKey>, ran: Ran, x: string)
    requires Reachable(oracle, w) && k in w.cluster.svcs && k in w.cluster.eps
    requires ServiceStep(oracle, w, k, order, order2, ran) && ran.Ran? && ran.err == NoError
    requires !UpToDate(w.st.vss, w.cluster.svcs[k]) && ProperPorts(w.cluster.svcs[k])
    requires var ports := ReadyPorts(w.cluster.eps[k].subsets);
      Agrees(w.cluster.svcs[k], ports) && Resolve(w.cluster.svcs[k], ports).Found?
    ensures CanServe(ran.st, k, x) <==>
      HasReady(w.cluster.svcs[k], ReadyPorts(w.cluster.eps[k].subsets), x) || CanServe(w.st, k, x)
  {
    var svc, ep := w.cluster.svcs[k], w.cluster.eps[k];
    var ports := ReadyPorts(ep.subsets);
    ReachableInv(oracle, w);
    ReadyExactly(svc, ports, x);
    BatchAdds(oracle, w, k, order, order2, ran, x);
    if ResolvedName(svc, Resolve(svc, ports).pps, x) {
      var pp :| pp in Resolve(svc, ports).pps && Print(svc.name, pp.port, pp.protocol) == x;
      ServiceConverge(oracle, w, k, order, order2, ran, pp);
    }
    if Posts(ran.ops, x) {
      ServiceRan(oracle, w, k, order, order2, ran);
      PostedIsResolved(w.st.pools, svc, ep, order, order2, ran.ops, x);
    }
  }

  // ---------- all references ----------

  /** With proper ports, the pool map names the pool of every port. */
  lemma {:induction false} EveryPortIsReferenced(svc: Service, x: string)
    requires ProperPorts(svc)
    ensures Referenced(PoolMapOf(svc.name, svc.ports), x)
        <==> exists i :: 0 <= i < |svc.ports| && PoolNameOf(svc.name, svc.ports[i]) == x
  {
    ReferencedExactly(svc.name, svc.ports, x);
    if exists i :: 0 <= i < |svc.ports| && PoolNameOf(svc.name, svc.ports[i]) == x {
      var i :| 0 <= i < |svc.ports| && PoolNameOf(svc.name, svc.ports[i]) == x;
      assert Gives(svc.name, svc.ports, i, x);
    }
  }

  /** Every pool that the selectors, or the rules of the policy set, of a Service name can serve. */
  ghost predicate ReferencesServe(st: State, svc: Service) {
    forall x :: Referenced(PoolMapOf(svc.name, svc.ports), x) ==> CanServe(st, svc.Key(), x)
  }

  /**
   * After a successful service sync, every pool that a Service with several ports refers to can serve if and only if
   * every Service port has a ready endpoint port, its own or that of another port with the same pool, or its pool could
   * serve before.
   */
  lemma {:induction false} ReferencesServeExactly(oracle: Oracle, w: World, k: NamespaceName, order: seq<PortProtocol>,
                                                  order2: seq<ListenerKey>, ran: Ran)
    requires Reachable(oracle, w) && k in w.cluster.svcs && k in w.cluster.eps
    requires ServiceStep(oracle, w, k, order, order2, ran) && ran.Ran? && ran.err == NoError
    requires !UpToDate(w.st.vss, w.cluster.svcs[k]) && ProperPorts(w.cluster.svcs[k])
    requires var ports := ReadyPorts(w.cluster.eps[k].subsets);
      Agrees(w.cluster.svcs[k], ports) && Resolve(w.cluster.svcs[k], ports).Found?
    ensures var svc, ports := w.cluster.svcs[k], ReadyPorts(w.cluster.eps[k].subsets);
      ReferencesServe(ran.st, svc) <==>
      forall i :: 0 <= i < |svc.ports| ==>
        var x := PoolNameOf(svc.name, svc.ports[i]); HasReady(svc, ports, x) || CanServe(w.st, k, x)
  {
    var svc, ports := w.cluster.svcs[k], ReadyPorts(w.cluster.eps[k].subsets);
    ReachableInv(oracle, w);
    forall x
      ensures Referenced(PoolMapOf(svc.name, svc.ports), x)
          <==> exists i :: 0 <= i < |svc.ports| && PoolNameOf(svc.name, svc.ports[i]) == x
      ensures CanServe(ran.st, k, x) <==> HasReady(svc, ports, x) || CanServe(w.st, k, x)
    {
      EveryPortIsReferenced(svc, x);
      ServesExactly(oracle, w, k, order, order2, ran, x);
    }
    ByPort(ran.st, w.st, svc, ports);
  }

  lemma {:induction false} ByPort(t: State, st: State, svc: Service, ports: seq<EndpointPort>)
    requires forall x :: Referenced(PoolMapOf(svc.name, svc.ports), x)
               <==> exists i :: 0 <= i < |svc.ports| && PoolNameOf(svc.name, svc.ports[i]) == x
    requires forall x :: CanServe(t, svc.Key(), x) <==> HasReady(svc, ports, x) || CanServe(st, svc.Key(), x)
    ensures ReferencesServe(t, svc) <==>
      forall i :: 0 <= i < |svc.ports| ==>
        var x := PoolNameOf(svc.name, svc.ports[i]); HasReady(svc, ports, x) || CanServe(st, svc.Key(), x)
  {
    if ReferencesServe(t, svc) {
      forall i | 0 <= i < |svc.ports|
        ensures var x := PoolNameOf(svc.name, svc.ports[i]); HasReady(svc, ports, x) || CanServe(st, svc.Key(), x)
      {
        assert Referenced(PoolMapOf(svc.name, svc.ports), PoolNameOf(svc.name, svc.ports[i]));
      }
    }
  }

  // ---------- a Service that fails it ----------

  /** A Service with a web port and a database port, and Endpoints of which only the web port is ready. */
  function TwoPorts(version: string): Service {
    Service("d", "s", version,
            [ServicePort("web", "TCP", 80, Name("web")), ServicePort("db", "TCP", 5432, Name("db"))])
  }

  function OnlyWeb(version: string, ip: string): Endpoints {
    Endpoints("d", "s", version, [Subset([Address(ip, None)], [EndpointPort("web", "TCP", 8080)])])
  }

  lemma {:induction false} OnlyWebReady(version: string, ip: string)
    ensures ReadyPorts(OnlyWeb(version, ip).subsets) == [EndpointPort("web", "TCP", 8080)]
  {
    var ep := OnlyWeb(version, ip);
    assert ep.subsets[..0] == [];
    assert [] + ep.subsets[0].ports == ep.subsets[0].ports;
  }

  lemma {:induction false} TwoPortsProper(version: string, port: EndpointPort)
    requires port == EndpointPort("web", "TCP", 8080)
    ensures ProperPorts(TwoPorts(version)) && Agrees(TwoPorts(version), [port])
      && Resolve(TwoPorts(version), [port]).Found?
    ensures !AllHttp(TwoPorts(version).ports)
  {
    var svc := TwoPorts(version);
    assert |"web"| != |"db"|;
    assert svc.ports[0].name == port.name;
    assert !HttpPort(svc.ports[1]);
    assert [port][..0] == [];
    assert ResolveOne(svc, port).Port? && Resolve(svc, []) == Found({});
  }

  /** The pool of the database port is referred to, and no ready port gives it. */
  lemma {:induction false} DbIsNotReady(version: string, port: EndpointPort)
    requires port == EndpointPort("web", "TCP", 8080)
    ensures var svc := TwoPorts(version);
      !HasReady(svc, [port], PoolNameOf(svc.name, svc.ports[1]))
  {
    var svc := TwoPorts(version);
    var db := PoolNameOf(svc.name, svc.ports[1]);
    assert |"web"| != |"db"|;
    assert |PoolNameOf(svc.name, svc.ports[0])| == |db| + 1;
  }

  /**
   * However often it is synced, until the database port has been ready once, the selectors of this Service name a pool
   * that is not there.
   */
  lemma {:induction false} UnservedSelector(oracle: Oracle, w: World, version: string, epVersion: string, ip: string,
                                            order: seq<PortProtocol>, order2: seq<ListenerKey>, ran: Ran)
    requires var svc, ep := TwoPorts(version), OnlyWeb(epVersion, ip);
      var k := svc.Key();
      && Reachable(oracle, w) && k in w.cluster.svcs && w.cluster.svcs[k] == svc && k in w.cluster.eps
      && w.cluster.eps[k] == ep && !UpToDate(w.st.vss, svc)
      && !CanServe(w.st, k, PoolNameOf(svc.name, svc.ports[1]))
      && ServiceStep(oracle, w, k, order, order2, ran) && ran.Ran? && ran.err == NoError
    ensures var svc := TwoPorts(version);
      var db := PoolNameOf(svc.name, svc.ports[1]);
      && !AllHttp(svc.ports) && Referenced(PoolMapOf(svc.name, svc.ports), db)
      && !CanServe(ran.st, svc.Key(), db) && !ReferencesServe(ran.st, svc)
  {
    var svc, port := TwoPorts(version), EndpointPort("web", "TCP", 8080);
    var db := PoolNameOf(svc.name, svc.ports[1]);
    OnlyWebReady(epVersion, ip);
    TwoPortsProper(version, port);
    DbIsNotReady(version, port);
    EveryPortIsReferenced(svc, db);
    ServesExactly(oracle, w, svc.Key(), order, order2, ran, db);
  }
}
