/** Which pools a virtual service refers to, next to the pools that are built for it. */
module References {
  import opened Wrappers
  import opened Model
  import opened PoolNames
  import opened Rest
  import opened Pools
  import opened VirtualServices
  import opened Sync

  // ---------- several ports ----------

  function PoolNameOf(name: string, p: ServicePort): string {
    Print(name, p.targetPort.Text(), Protocol(p.protocol))
  }

  /** Port `i` gives its listener key a pool that no later port overwrites. */
  ghost predicate Gives(name: string, ports: seq<ServicePort>, i: nat, x: string)
    requires i < |ports|
  {
    PoolNameOf(name, ports[i]) == x && forall j :: i < j < |ports| ==> KeyOf(ports[j]) != KeyOf(ports[i])
  }

  /** Some port gives `key` the pool `x`. */
  ghost predicate Given(name: string, ports: seq<ServicePort>, key: ListenerKey, x: string) {
    exists i :: 0 <= i < |ports| && KeyOf(ports[i]) == key && Gives(name, ports, i, x)
  }

  /** The pool map holds the pool of the last port with each listener key, and nothing else. */
  lemma {:induction false} PoolMapExact(name: string, ports: seq<ServicePort>, key: ListenerKey, x: string)
    ensures key in PoolMapOf(name, ports) && PoolMapOf(name, ports)[key] == x
        <==> Given(name, ports, key, x)
  {
    if ports != [] {
      var n := |ports| - 1;
      PoolMapExact(name, ports[..n], key, x);
      if KeyOf(ports[n]) == key {
        assert Gives(name, ports, n, PoolNameOf(name, ports[n]));
      } else {
        GivesSnoc(name, ports, key, x);
      }
    }
  }

  lemma {:induction false} GivesSnoc(name: string, ports: seq<ServicePort>, key: ListenerKey, x: string)
    requires ports != [] && KeyOf(ports[|ports| - 1]) != key
    ensures Given(name, ports, key, x) <==> Given(name, ports[..|ports| - 1], key, x)
  {
    var n := |ports| - 1;
    var init := ports[..n];
    if Given(name, ports, key, x) {
      var i :| 0 <= i < |ports| && KeyOf(ports[i]) == key && Gives(name, ports, i, x);
      GivesBefore(name, ports, i, x);
      assert KeyOf(init[i]) == key;
    }
    if Given(name, init, key, x) {
      var i :| 0 <= i < n && KeyOf(init[i]) == key && Gives(name, init, i, x);
      GivesBefore(name, ports, i, x);
      assert KeyOf(ports[i]) == key;
    }
  }

  /** A last port with another listener key does not matter. */
  lemma {:induction false} GivesBefore(name: string, ports: seq<ServicePort>, i: nat, x: string)
    requires i < |ports| - 1 && KeyOf(ports[|ports| - 1]) != KeyOf(ports[i])
    ensures Gives(name, ports, i, x) <==> Gives(name, ports[..|ports| - 1], i, x)
  {
    var init := ports[..|ports| - 1];
    assert forall j :: 0 <= j < |init| ==> init[j] == ports[j];
  }

  /** No two ports of the Service share a name, nor a listener. */
  ghost predicate ProperPorts(svc: Service) {
    forall i, j :: 0 <= i < j < |svc.ports| ==>
      svc.ports[i].name != svc.ports[j].name && KeyOf(svc.ports[i]) != KeyOf(svc.ports[j])
  }

  /** Every ready endpoint port is one of the Service's ports: same name, same protocol. */
  ghost predicate Agrees(svc: Service, ports: seq<EndpointPort>) {
    forall e :: 0 <= e < |ports| ==>
      exists i :: 0 <= i < |svc.ports| && svc.ports[i].name == ports[e].name != ""
        && Protocol(svc.ports[i].protocol) == Protocol(ports[e].protocol)
  }

  lemma {:induction false} TargetOfPort(ports: seq<ServicePort>, i: nat)
    requires i < |ports| && forall j :: 0 <= j < i ==> ports[j].name != ports[i].name
    ensures TargetOf(ports, ports[i].name) == ports[i].targetPort.Text()
  {
    if i > 0 {
      TargetOfPort(ports[1..], i - 1);
    }
  }

  /** What a ready port of agreeing Endpoints resolves to is what the Service prints for one of its ports. */
  lemma {:induction false} ResolvedIsServicePort(svc: Service, ports: seq<EndpointPort>, pp: PortProtocol)
    returns (i: nat, e: nat)
    requires ProperPorts(svc) && Agrees(svc, ports) && Resolve(svc, ports).Found? && pp in Resolve(svc, ports).pps
    ensures i < |svc.ports| && PoolNameOf(svc.name, svc.ports[i]) == Print(svc.name, pp.port, pp.protocol)
    ensures e < |ports| && ports[e].name == svc.ports[i].name
  {
    ResolveExact(svc, ports, pp);
    e :| 0 <= e < |ports| && ResolveOne(svc, ports[e]) == Port(pp);
    i :| 0 <= i < |svc.ports| && svc.ports[i].name == ports[e].name != ""
      && Protocol(svc.ports[i].protocol) == Protocol(ports[e].protocol);
    TargetOfPort(svc.ports, i);
  }

  /** Some entry of the pool map names the pool `x`. */
  ghost predicate Referenced(pm: map<ListenerKey, string>, x: string) {
    exists key :: key in pm && pm[key] == x
  }

  lemma {:induction false} ResolvedIsReferenced(svc: Service, ports: seq<EndpointPort>, pp: PortProtocol)
    requires ProperPorts(svc) && Agrees(svc, ports) && Resolve(svc, ports).Found? && pp in Resolve(svc, ports).pps
    ensures Referenced(PoolMapOf(svc.name, svc.ports), Print(svc.name, pp.port, pp.protocol))
  {
    var i, e := ResolvedIsServicePort(svc, ports, pp);
    assert Gives(svc.name, svc.ports, i, Print(svc.name, pp.port, pp.protocol));
    PoolMapExact(svc.name, svc.ports, KeyOf(svc.ports[i]), Print(svc.name, pp.port, pp.protocol));
  }

  /** Every pool that is built is one of the names. */
  lemma {:induction false} BuiltNames(pools: PoolMap, svc: Service, ep: Endpoints, order: seq<PortProtocol>,
                                      poolReqs: seq<Request>, r: Request) returns (n: nat)
    requires PoolPart(pools, svc, ep, Some(svc), order) == Ops(poolReqs) && r in poolReqs
    ensures Resolve(svc, ReadyPorts(ep.subsets)).Found? && n < |order|
    ensures r.obj.PoolObj? && r.obj.pool.name == Print(svc.name, order[n].port, order[n].protocol)
  {
    var names := NamesOf(svc.name, order);
    BuildOpsExact(pools, ep, CrudHashKey(svc.Key()), names);
    var i :| 0 <= i < |poolReqs| && poolReqs[i] == r;
    n :| 0 <= n < |names| && names[n] == r.obj.pool.name;
  }

  /** For a Service with several ports and agreeing Endpoints, every pool that is built is in the pool map. */
  lemma {:induction false} BuiltPoolsAreReferenced(pools: PoolMap, svc: Service, ep: Endpoints,
                                                   order: seq<PortProtocol>, poolReqs: seq<Request>, r: Request)
    requires |svc.ports| > 1 && ProperPorts(svc) && Agrees(svc, ReadyPorts(ep.subsets))
    requires var ports := Resolve(svc, ReadyPorts(ep.subsets)); ports.Found? ==> Enumerates(order, ports.pps)
    requires PoolPart(pools, svc, ep, Some(svc), order) == Ops(poolReqs) && r in poolReqs
    ensures r.obj.PoolObj? && Referenced(MetaOf(svc, poolReqs).poolMap, r.obj.pool.name)
  {
    var n := BuiltNames(pools, svc, ep, order, poolReqs, r);
    assert order[n] in order;
    ResolvedIsReferenced(svc, ReadyPorts(ep.subsets), order[n]);
  }

  /** A pool name is in the map exactly when some port prints it whose listener key no later port takes over. */
  lemma {:induction false} ReferencedExactly(name: string, ports: seq<ServicePort>, x: string)
    ensures Referenced(PoolMapOf(name, ports), x) <==> exists i :: 0 <= i < |ports| && Gives(name, ports, i, x)
  {
    if Referenced(PoolMapOf(name, ports), x) {
      var key :| key in PoolMapOf(name, ports) && PoolMapOf(name, ports)[key] == x;
      PoolMapExact(name, ports, key, x);
    }
    if exists i :: 0 <= i < |ports| && Gives(name, ports, i, x) {
      var i :| 0 <= i < |ports| && Gives(name, ports, i, x);
      assert Given(name, ports, KeyOf(ports[i]), x);
      PoolMapExact(name, ports, KeyOf(ports[i]), x);
    }
  }

  /** A pool all of whose ports lose their listener to a later port is in the map no longer. */
  lemma {:induction false} OverwrittenListener(name: string, ports: seq<ServicePort>, x: string)
    requires forall i :: 0 <= i < |ports| && PoolNameOf(name, ports[i]) == x ==>
               exists j :: i < j < |ports| && KeyOf(ports[j]) == KeyOf(ports[i])
    ensures !Referenced(PoolMapOf(name, ports), x)
  {
    ReferencedExactly(name, ports, x);
  }

  lemma {:induction false} SelectorsCarry(pm: map<ListenerKey, string>, order: seq<ListenerKey>, x: string)
    requires Enumerates(order, pm.Keys)
    ensures Referenced(pm, x) <==> exists i :: 0 <= i < |order| && Selectors(pm, order)[i].pool == x
  {
    assert forall i :: 0 <= i < |order| ==> order[i] in order && Selectors(pm, order)[i].pool == pm[order[i]];
    if Referenced(pm, x) {
      var key :| key in pm && pm[key] == x;
      assert key in order;
      var i :| 0 <= i < |order| && order[i] == key;
    }
  }

  lemma {:induction false} RulesCarry(name: string, pm: map<ListenerKey, string>, order: seq<ListenerKey>, x: string)
    requires Enumerates(order, pm.Keys)
    ensures Referenced(pm, x) <==> exists i :: 0 <= i < |order| && Rules(name, pm, order)[i].pool == x
  {
    assert forall i :: 0 <= i < |order| ==> order[i] in order && Rules(name, pm, order)[i].pool == pm[order[i]];
    if Referenced(pm, x) {
      var key :| key in pm && pm[key] == x;
      assert key in order;
      var i :| 0 <= i < |order| && order[i] == key;
    }
  }

  /**
   * Where the pool map goes. Several listeners, not all HTTP: the virtual service selects every pool of the map.
   * Several, all HTTP: the routes are in a policy set of their own, and the virtual service refers to no pool at all.
   */
  lemma {:induction false} WhereReferencesGo(svc: Service, poolReqs: seq<Request>, order: seq<ListenerKey>, x: string)
    requires |svc.ports| > 1 && Enumerates(order, MetaOf(svc, poolReqs).poolMap.Keys)
    ensures var meta := MetaOf(svc, poolReqs);
      var ops := VsOps(meta, order);
      var last := ops[|ops| - 1];
      && last.obj.VsObj? && last.obj.vs.defaultPool == ""
      && (if AllHttp(svc.ports)
          then |ops| == 2 && ops[0].obj.HpsObj? && last.obj.vs.selectors == []
               && (Referenced(meta.poolMap, x)
                  <==> exists i :: 0 <= i < |ops[0].obj.hps.rules| && ops[0].obj.hps.rules[i].pool == x)
          else |ops| == 1
               && (Referenced(meta.poolMap, x)
                  <==> exists i :: 0 <= i < |last.obj.vs.selectors| && last.obj.vs.selectors[i].pool == x))
  {
    ProfilesDiffer();
    var meta := MetaOf(svc, poolReqs);
    if AllHttp(svc.ports) {
      RulesCarry(PolicyName(meta), meta.poolMap, order, x);
    } else {
      SelectorsCarry(meta.poolMap, order, x);
    }
  }

  // ---------- a single port ----------

  lemma {:induction false} ReadyPortsNonEmpty(subsets: seq<Subset>)
    ensures ReadyPorts(subsets) != []
      <==> exists i :: 0 <= i < |subsets| && subsets[i].addresses != [] && subsets[i].ports != []
  {
    if subsets != [] {
      var n := |subsets| - 1;
      ReadyPortsNonEmpty(subsets[..n]);
      if exists i :: 0 <= i < n && subsets[..n][i].addresses != [] && subsets[..n][i].ports != [] {
        var i :| 0 <= i < n && subsets[..n][i].addresses != [] && subsets[..n][i].ports != [];
        assert subsets[i].addresses != [] && subsets[i].ports != [];
      }
      if exists i :: 0 <= i <= n && subsets[i].addresses != [] && subsets[i].ports != [] {
        var i :| 0 <= i <= n && subsets[i].addresses != [] && subsets[i].ports != [];
        assert i < n ==> subsets[..n][i].addresses != [] && subsets[..n][i].ports != [];
      }
    }
  }

  /** Some resolved port has a pool that is not cached at this version of the Endpoints. */
  ghost predicate SomeStale(pools: PoolMap, svc: Service, ep: Endpoints, pps: set<PortProtocol>) {
    exists pp :: pp in pps && Stale(pools, ep, Print(svc.name, pp.port, pp.protocol))
  }

  lemma {:induction false} RequestsIffStale(pools: PoolMap, svc: Service, ep: Endpoints, order: seq<PortProtocol>,
                                            poolReqs: seq<Request>)
    requires var ports := Resolve(svc, ReadyPorts(ep.subsets)); ports.Found? && Enumerates(order, ports.pps)
    requires PoolPart(pools, svc, ep, Some(svc), order) == Ops(poolReqs)
    ensures poolReqs != [] <==> SomeStale(pools, svc, ep, Resolve(svc, ReadyPorts(ep.subsets)).pps)
    ensures poolReqs != [] ==> poolReqs[0].obj.PoolObj? && poolReqs[0].obj.pool.name in NamesOf(svc.name, order)
  {
    var pps := Resolve(svc, ReadyPorts(ep.subsets)).pps;
    var names, hash := NamesOf(svc.name, order), CrudHashKey(svc.Key());
    BuildOpsExact(pools, ep, hash, names);
    if poolReqs != [] {
      assert poolReqs[0] in poolReqs;
      assert Requested(pools, ep, hash, names, poolReqs[0]);
      var i :| 0 <= i < |names| && Stale(pools, ep, names[i]) && PoolOf(ep, hash, names[i]).Some?;
      assert order[i] in order;
    }
    if SomeStale(pools, svc, ep, pps) {
      var pp :| pp in pps && Stale(pools, ep, Print(svc.name, pp.port, pp.protocol));
      assert pp in order;
      var i :| 0 <= i < |order| && order[i] == pp;
      assert names[i] == Print(svc.name, pp.port, pp.protocol);
      assert !Unreadable(pools, ep, names);
      assert Requested(pools, ep, hash, names, PoolRequest(PoolOf(ep, hash, names[i]).value));
    }
  }

  /**
   * The virtual service of a single-port Service names a default pool if and only if some subset has both a ready
   * address and a port, and one of the resolved pools is not already cached at this version of the Endpoints.
   */
  lemma {:induction false} DefaultPoolIffStale(pools: PoolMap, svc: Service, ep: Endpoints, order: seq<PortProtocol>,
                                               poolReqs: seq<Request>)
    requires |svc.ports| == 1
    requires var ports := Resolve(svc, ReadyPorts(ep.subsets)); ports.Found? ==> Enumerates(order, ports.pps)
    requires PoolPart(pools, svc, ep, Some(svc), order) == Ops(poolReqs)
    ensures var ports := Resolve(svc, ReadyPorts(ep.subsets));
      MetaOf(svc, poolReqs).defaultPool != "" <==>
      && (exists i :: 0 <= i < |ep.subsets| && ep.subsets[i].addresses != [] && ep.subsets[i].ports != [])
      && ports.Found? && SomeStale(pools, svc, ep, ports.pps)
  {
    var ports := Resolve(svc, ReadyPorts(ep.subsets));
    ReadyPortsNonEmpty(ep.subsets);
    if ports.Found? {
      RequestsIffStale(pools, svc, ep, order, poolReqs);
      if poolReqs != [] {
        var i :| 0 <= i < |order| && poolReqs[0].obj.pool.name == NamesOf(svc.name, order)[i];
        assert |Print(svc.name, order[i].port, order[i].protocol)| > 0;
      }
    }
  }
}
