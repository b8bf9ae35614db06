/** Exactly when a sync takes the process down, in every world of every run. */
module Crashes {
  import opened Strings
  import opened Wrappers
  import opened Model
  import opened PoolNames
  import opened Rest
  import opened Pools
  import opened VirtualServices
  import opened Caches
  import opened Sync
  import opened Runs
  import opened Guarantees

  /** A Service without ports, asked about an endpoint port without a name. */
  ghost predicate NoPortToTake(svc: Service, ep: Endpoints) {
    svc.ports == [] && ReadyPorts(ep.subsets) != [] && ReadyPorts(ep.subsets)[0].name == ""
  }

  /** One of the ready ports gives a pool name that cannot be read back. */
  ghost predicate UnreadableName(svc: Service, ep: Endpoints) {
    var r := Resolve(svc, ReadyPorts(ep.subsets));
    r.Found? && exists pp :: pp in r.pps && Panics(svc.name, pp.port, pp.protocol)
  }

  // ---------- endpoints ----------

  /** The operations of an endpoints sync can always be built: every linked name can be read back. */
  lemma {:induction false} LinkedNamesAreReadable(st: State, ep: Endpoints, k: NamespaceName, order: seq<string>)
    requires LinksInv(st.links) && Enumerates(order, ValuesOf(st.links, k))
    ensures PoolsIn(order).Some? && !Unreadable(st.pools, ep, PoolsIn(order).value)
  {
    EnumeratedLinks(st, k, order);
    LinkedNames(st, k, order);
    var names := PoolsIn(order).value;
    forall i | 0 <= i < |names|
      ensures Parse(names[i]) != Panic
    {
      assert GoodLink((k, order[i]));
    }
  }

  lemma {:induction false} FreeOfSlash(st: State, k: NamespaceName, links: seq<string>)
    requires LinksInv(st.links) && links != [] && Enumerates(links, ValuesOf(st.links, k))
    ensures Free(k.name, '/')
  {
    assert links[0] in links;
    assert GoodLink((k, links[0]));
  }

  lemma {:induction false} EndpointsSurvive(oracle: Oracle, w: World, k: NamespaceName, links: seq<string>)
    requires Reachable(oracle, w) && k in w.cluster.eps && links != [] && Enumerates(links, ValuesOf(w.st.links, k))
    ensures Update(oracle, w.st, w.cluster.eps[k], links).Ran?
  {
    var c, st := w.cluster, w.st;
    ReachableInv(oracle, w);
    LinkedNamesAreReadable(st, c.eps[k], k, links);
    EndpointsReqs(c, st, k, links);
    BuildOpsExact(st.pools, c.eps[k], CrudHashKey(k), PoolsIn(links).value);
    var ops := EndpointsOps(st, c.eps[k], links).reqs;
    forall i | 0 <= i < |ops|
      ensures (k, Link(ops[i].obj.pool.name)) in st.links && Free(k.name, '/')
    {
      assert ops[i] in ops;
      RequestedLinked(st, k, c.eps[k], links, ops[i]);
      assert GoodLink((k, Link(ops[i].obj.pool.name)));
    }
    FreeOfSlash(st, k, links);
    EndpointsBatch(oracle, c, st, k, ops);
  }

  /** An endpoints sync dies if and only if its Service has no ports and its first ready port has no name. */
  lemma {:induction false} EndpointsDieExactly(oracle: Oracle, w: World, k: NamespaceName, links: seq<string>)
    requires Reachable(oracle, w) && k in w.cluster.eps && Enumerates(links, ValuesOf(w.st.links, k))
    ensures SyncEndpoints(oracle, w.st, w.cluster.eps[k], Lister(w.cluster.svcs, k), links).Died?
        <==> k in w.cluster.svcs && NoPortToTake(w.cluster.svcs[k], w.cluster.eps[k])
  {
    if k in w.cluster.svcs {
      ResolveCrashes(w.cluster.svcs[k], ReadyPorts(w.cluster.eps[k].subsets));
      if links != [] {
        EndpointsSurvive(oracle, w, k, links);
      }
    }
  }

  // ---------- services ----------

  /** A pool whose name cannot be read back is never cached, so it is always posted anew, and panics. */
  lemma {:induction false} UnreadableIsStale(c: Cluster, st: State, ep: Endpoints, name: string)
    requires StateInv(c, st) && Parse(name) == Panic
    ensures Stale(st.pools, ep, name)
  {
    if NamespaceName(ep.ns, name) in st.pools {
      CachedIsReadable(c, st, NamespaceName(ep.ns, name));
    }
  }

  lemma {:induction false} CachedIsReadable(c: Cluster, st: State, q: NamespaceName)
    requires StateInv(c, st) && q in st.pools
    ensures Parse(q.name).Ok?
  {
    var l :| l in st.links && Target(l) == q;
    assert GoodLink(l);
  }

  /** The batch of a service sync cannot be built if and only if a ready port gives an unreadable name. */
  lemma {:induction false} ServiceUnbuildable(c: Cluster, st: State, svc: Service, ep: Endpoints,
                                              order: seq<PortProtocol>, order2: seq<ListenerKey>)
    requires StateInv(c, st) && ServiceOrders(svc, ep, order, order2)
    ensures ServiceOps(st.pools, svc, ep, Some(svc), order, order2).Panicked?
        <==> Resolve(svc, ReadyPorts(ep.subsets)).Crashed? || UnreadableName(svc, ep)
  {
    var r := Resolve(svc, ReadyPorts(ep.subsets));
    if r.Found? {
      BuildOpsPanics(st.pools, ep, CrudHashKey(svc.Key()), NamesOf(svc.name, order));
      UnreadableNames(c, st, svc, ep, order, r.pps);
    }
  }

  lemma {:induction false} UnreadableNames(c: Cluster, st: State, svc: Service, ep: Endpoints, order: seq<PortProtocol>,
                                           pps: set<PortProtocol>)
    requires StateInv(c, st) && Enumerates(order, pps)
    ensures Unreadable(st.pools, ep, NamesOf(svc.name, order))
        <==> exists pp :: pp in pps && Panics(svc.name, pp.port, pp.protocol)
  {
    var names := NamesOf(svc.name, order);
    if Unreadable(st.pools, ep, names) {
      var i :| 0 <= i < |names| && Stale(st.pools, ep, names[i]) && Parse(names[i]) == Panic;
      assert order[i] in order;
      PanicsExactly(svc.name, order[i].port, order[i].protocol);
    }
    if exists pp :: pp in pps && Panics(svc.name, pp.port, pp.protocol) {
      var pp :| pp in pps && Panics(svc.name, pp.port, pp.protocol);
      assert pp in order;
      var i :| 0 <= i < |order| && order[i] == pp;
      PanicsExactly(svc.name, pp.port, pp.protocol);
      UnreadableIsStale(c, st, ep, names[i]);
    }
  }

  /** A batch that was built is sent, undone or cached without a panic. */
  lemma {:induction false} BatchSurvives(oracle: Oracle, w: World, k: NamespaceName, order: seq<PortProtocol>,
                                         order2: seq<ListenerKey>, ops: seq<Request>)
    requires Reachable(oracle, w) && k in w.cluster.svcs && k in w.cluster.eps && !UpToDate(w.st.vss, w.cluster.svcs[k])
    requires ServiceOrders(w.cluster.svcs[k], w.cluster.eps[k], order, order2)
    requires ServiceOps(w.st.pools, w.cluster.svcs[k], w.cluster.eps[k], Some(w.cluster.svcs[k]), order, order2)
      == Ops(ops)
    ensures var ran := Batched(oracle, w.st, k, ops);
      ran.Ran? && (ran.err == NoError <==> Operate(oracle, w.st.net, ops).err.None?)
  {
    var svc, ep := w.cluster.svcs[k], w.cluster.eps[k];
    ReachableInv(oracle, w);
    ServiceReqs(w.st.pools, svc, ep, order, order2);
    var reqs := PoolPart(w.st.pools, svc, ep, Some(svc), order).reqs;
    ServiceOpsShape(w.st.pools, ep, svc, reqs, order2);
    if Operate(oracle, w.st.net, ops).err.None? {
      ServiceVsBuilt(svc, reqs, order2);
      ServiceCommit(oracle, w.cluster, w.st, k, reqs, ops);
    } else {
      var stop := RollbackPlan(oracle, w.st.net, ops, |reqs|);
    }
  }

  /**
   * A service sync dies if and only if it is not skipped and a ready port finds no port to take, or gives a pool name
   * that cannot be read back. Neither the caches nor the far side have a say in it.
   */
  lemma {:induction false} ServiceDiesExactly(oracle: Oracle, w: World, k: NamespaceName, order: seq<PortProtocol>,
                                              order2: seq<ListenerKey>)
    requires Reachable(oracle, w) && k in w.cluster.svcs && k in w.cluster.eps
    requires ServiceOrders(w.cluster.svcs[k], w.cluster.eps[k], order, order2)
    ensures var svc, ep := w.cluster.svcs[k], w.cluster.eps[k];
      SyncService(oracle, w.st, svc, Some(ep), Some(svc), order, order2).Died?
      <==> !UpToDate(w.st.vss, svc) && (NoPortToTake(svc, ep) || UnreadableName(svc, ep))
  {
    var svc, ep := w.cluster.svcs[k], w.cluster.eps[k];
    ReachableInv(oracle, w);
    ResolveCrashes(svc, ReadyPorts(ep.subsets));
    ServiceUnbuildable(w.cluster, w.st, svc, ep, order, order2);
    var built := ServiceOps(w.st.pools, svc, ep, Some(svc), order, order2);
    if !UpToDate(w.st.vss, svc) && built.Ops? {
      BatchSurvives(oracle, w, k, order, order2, built.reqs);
      SyncIsBatch(oracle, w.st, svc, ep, order, order2, built.reqs);
    }
  }

  /** A service sync with a batch to run is that batch. */
  lemma {:induction false} SyncIsBatch(oracle: Oracle, st: State, svc: Service, ep: Endpoints, order: seq<PortProtocol>,
                                       order2: seq<ListenerKey>, ops: seq<Request>)
    requires !UpToDate(st.vss, svc) && ServiceOps(st.pools, svc, ep, Some(svc), order, order2) == Ops(ops)
    ensures var ran := SyncService(oracle, st, svc, Some(ep), Some(svc), order, order2);
      ran == Batched(oracle, st, svc.Key(), ops) && (ran.Ran? ==> ran.ops == ops)
  {
  }

  /** One that neither dies nor is skipped ends without error exactly when every request succeeds. */
  lemma {:induction false} ServiceGoesThrough(oracle: Oracle, w: World, k: NamespaceName, order: seq<PortProtocol>,
                                              order2: seq<ListenerKey>)
    requires Reachable(oracle, w) && k in w.cluster.svcs && k in w.cluster.eps && !UpToDate(w.st.vss, w.cluster.svcs[k])
    requires ServiceOrders(w.cluster.svcs[k], w.cluster.eps[k], order, order2)
    requires !NoPortToTake(w.cluster.svcs[k], w.cluster.eps[k]) && !UnreadableName(w.cluster.svcs[k], w.cluster.eps[k])
    ensures var svc, ep := w.cluster.svcs[k], w.cluster.eps[k];
      var built := ServiceOps(w.st.pools, svc, ep, Some(svc), order, order2);
      var ran := SyncService(oracle, w.st, svc, Some(ep), Some(svc), order, order2);
      built.Ops? && ran.Ran? && ran.ops == built.reqs
        && (ran.err == NoError <==> Operate(oracle, w.st.net, built.reqs).err.None?)
  {
    var svc, ep := w.cluster.svcs[k], w.cluster.eps[k];
    ReachableInv(oracle, w);
    ResolveCrashes(svc, ReadyPorts(ep.subsets));
    ServiceUnbuildable(w.cluster, w.st, svc, ep, order, order2);
    var built := ServiceOps(w.st.pools, svc, ep, Some(svc), order, order2);
    BatchSurvives(oracle, w, k, order, order2, built.reqs);
    SyncIsBatch(oracle, w.st, svc, ep, order, order2, built.reqs);
  }

  /** A deletion never dies. */
  lemma {:induction false} DeletionNeverDies(oracle: Oracle, w: World, k: NamespaceName)
    requires Reachable(oracle, w)
    ensures DeleteService(oracle, w.st, k).Ran?
  {
    ReachableInv(oracle, w);
    assert (k, "service") in w.st.links ==> GoodLink((k, "service"));
    assert |Link("")| == 8;
  }
}
