/** Services with a single port and one ready pool: what their syncs post, in full. */
module SinglePort {
  import opened Strings
  import opened Wrappers
  import opened Model
  import opened PoolNames
  import opened Rest
  import opened Pools
  import opened VirtualServices
  import opened Sync
  import opened Runs

  /** The next `n` requests succeed and are echoed. */
  ghost predicate Echoing(oracle: Oracle, from: nat, n: nat) {
    from + n <= |oracle| && forall t :: from <= t < from + n ==> oracle[t].verdict.Echo?
  }

  /** A single-port Service whose ready endpoints all resolve to `pp`, and whose pool name can be read back. */
  ghost predicate Simple(svc: Service, ep: Endpoints, pp: PortProtocol) {
    && |svc.ports| == 1 && svc.Key() == ep.Key() && CleanService(svc) && CleanEndpoints(ep)
    && Resolve(svc, ReadyPorts(ep.subsets)) == Found({pp}) && Parse(NameOf(svc, pp)).Ok?
  }

  function NameOf(svc: Service, pp: PortProtocol): string {
    Print(svc.name, pp.port, pp.protocol)
  }

  /** The pool the Endpoints give under that name, as the service sync and the endpoints sync post it. */
  function PoolAt(ep: Endpoints, name: string): Option<Pool> {
    PoolOf(ep, CrudHashKey(ep.Key()), name)
  }

  /** A batch of one pool and the virtual service of `svc`. */
  ghost predicate Pair(svc: Service, pool: Request, vs: Request) {
    && pool.verb == Post && pool.model == "Pool" && pool.obj.PoolObj? && pool.tenant == svc.ns
    && OnlyVsOf(svc, vs) && vs.obj.vs.defaultPool == pool.obj.pool.name
  }

  ghost predicate OnlyVsOf(svc: Service, vs: Request) {
    && vs.verb == Post && vs.model == "VirtualService" && vs.obj.VsObj?
    && NamespaceName(vs.tenant, vs.obj.vs.name) == svc.Key() && vs.obj.vs.cksum == svc.version
  }

  lemma {:induction false} SingleName(pools: PoolMap, ep: Endpoints, hash: string, name: string)
    requires Stale(pools, ep, name) && Parse(name).Ok?
    ensures var p := PoolOf(ep, hash, name);
      && p.Some? && p.value.name == name && p.value.tenant == ep.ns
      && p.value.cksum == ep.version && p.value.crudHashKey == hash
      && BuildOps(pools, ep, hash, [name]) == Ops([PoolRequest(p.value)])
  {
    assert [name][..0] == [];
    assert BuildOps(pools, ep, hash, []) == Ops([]);
  }

  lemma {:induction false} CachedName(pools: PoolMap, ep: Endpoints, hash: string, name: string)
    requires !Stale(pools, ep, name)
    ensures BuildOps(pools, ep, hash, [name]) == Ops([])
  {
    assert [name][..0] == [];
    assert BuildOps(pools, ep, hash, []) == Ops([]);
  }

  lemma {:induction false} OnlyPart(pools: PoolMap, svc: Service, ep: Endpoints, pp: PortProtocol)
    requires Resolve(svc, ReadyPorts(ep.subsets)).Found?
    ensures PoolPart(pools, svc, ep, Some(svc), [pp]) == BuildOps(pools, ep, CrudHashKey(svc.Key()), [NameOf(svc, pp)])
  {
    assert NamesOf(svc.name, [pp]) == [NameOf(svc, pp)];
  }

  lemma {:induction false} OnlyVs(svc: Service, reqs: seq<Request>) returns (vs: Request)
    requires |svc.ports| == 1
    ensures VsOps(MetaOf(svc, reqs), []) == [vs] && OnlyVsOf(svc, vs) && vs.obj.vs.defaultPool == FirstPool(reqs)
  {
    VsOpsShape(svc, reqs, []);
    vs := VsOps(MetaOf(svc, reqs), [])[0];
  }

  /** A pool not cached at this version: one pool, then the virtual service that names it. */
  lemma {:induction false} TwoOps(pools: PoolMap, svc: Service, ep: Endpoints, pp: PortProtocol)
    returns (pool: Request, vs: Request)
    requires Simple(svc, ep, pp) && Stale(pools, ep, NameOf(svc, pp))
    ensures PoolAt(ep, NameOf(svc, pp)).Some? && pool == PoolRequest(PoolAt(ep, NameOf(svc, pp)).value)
    ensures pool.obj.pool.name == NameOf(svc, pp) && Pair(svc, pool, vs)
    ensures ServiceOps(pools, svc, ep, Some(svc), [pp], []) == Ops([pool, vs])
  {
    SingleName(pools, ep, CrudHashKey(ep.Key()), NameOf(svc, pp));
    OnlyPart(pools, svc, ep, pp);
    pool := PoolRequest(PoolAt(ep, NameOf(svc, pp)).value);
    vs := OnlyVs(svc, [pool]);
    assert [pool] + [vs] == [pool, vs];
  }

  /** A pool cached at this version: the virtual service alone, and without a default pool. */
  lemma {:induction false} OneOp(pools: PoolMap, svc: Service, ep: Endpoints, pp: PortProtocol) returns (vs: Request)
    requires Simple(svc, ep, pp) && !Stale(pools, ep, NameOf(svc, pp))
    ensures OnlyVsOf(svc, vs) && vs.obj.vs.defaultPool == ""
    ensures ServiceOps(pools, svc, ep, Some(svc), [pp], []) == Ops([vs])
  {
    CachedName(pools, ep, CrudHashKey(ep.Key()), NameOf(svc, pp));
    OnlyPart(pools, svc, ep, pp);
    vs := OnlyVs(svc, []);
    assert [] + [vs] == [vs];
  }

  lemma {:induction false} SimpleOrders(svc: Service, ep: Endpoints, pp: PortProtocol)
    requires Simple(svc, ep, pp)
    ensures ServiceOrders(svc, ep, [pp], [])
  {
    assert MetaOf(svc, []).poolMap == map[];
  }

  lemma {:induction false} SimpleOwned(svc: Service, ep: Endpoints, pp: PortProtocol)
    requires Simple(svc, ep, pp)
    ensures OwnedBy(svc.name, NameOf(svc, pp)) && Free(svc.name, '/')
  {
    ResolvedClean(svc, ep, pp);
  }

  /** There are such Services and Endpoints, of any version. */
  lemma {:induction false} SimpleExists(version: string, epVersion: string, ip: string)
    ensures var svc := Service("d", "s", version, [ServicePort("web", "TCP", 80, Name("web"))]);
      var ep := Endpoints("d", "s", epVersion, [Subset([Address(ip, None)], [EndpointPort("web", "TCP", 8080)])]);
      Simple(svc, ep, PortProtocol("web", "tcp"))
  {
    var svc := Service("d", "s", version, [ServicePort("web", "TCP", 80, Name("web"))]);
    var ep := Endpoints("d", "s", epVersion, [Subset([Address(ip, None)], [EndpointPort("web", "TCP", 8080)])]);
    var pp, port := PortProtocol("web", "tcp"), EndpointPort("web", "TCP", 8080);
    LowerTcp();
    assert ep.subsets[..0] == [];
    assert ReadyPorts(ep.subsets) == [port] && [port][..0] == [];
    assert ResolveOne(svc, port) == Port(pp) && {} + {pp} == {pp};
    WordsAreMarkerFree("web");
    assert CleanPort("web") && CleanWord("tcp") && CleanPrefix("s");
    RoundTrip("s", "web", "tcp");
  }
}
