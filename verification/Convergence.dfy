/** What a service sync that goes through achieves, and what a deleted and re-created Service gets. */
module Convergence {
  import opened Wrappers
  import opened Model
  import opened PoolNames
  import opened Rest
  import opened Pools
  import opened VirtualServices
  import opened Caches
  import opened Sync
  import opened Runs
  import opened Guarantees

  ghost predicate Posts(reqs: seq<Request>, name: string) {
    exists i :: 0 <= i < |reqs| && reqs[i].obj.PoolObj? && reqs[i].obj.pool.name == name
  }

  /** One turn of the fill loop makes the pool it caches current, and no other. */
  lemma {:induction false} FillTurnStale(s: State, k: NamespaceName, ep: Endpoints, req: Request, r: Result,
                                         name: string)
    requires Answered(ep, req, r) && r.Succeeded? && req.model == "Pool" && k.ns == ep.ns
    ensures var f := FillOne(s, k, req, r);
      && f.Some? && (Stale(f.value.pools, ep, name) <==> Stale(s.pools, ep, name) && req.obj.pool.name != name)
  {
    StaleTurn(s.pools, ep, req, r, name);
  }

  lemma {:induction false} FillStale(st: State, k: NamespaceName, ep: Endpoints, ops: seq<Request>,
                                     results: seq<Result>, n: nat, name: string)
    requires n <= |ops| == |results| && k.ns == ep.ns
    requires forall i :: 0 <= i < n ==>
      Answered(ep, ops[i], results[i]) && results[i].Succeeded? && ops[i].model == "Pool"
    ensures var f := Fill(st, k, ops[..n], results[..n]);
      f.Some? && (Stale(f.value.pools, ep, name) <==> Stale(st.pools, ep, name) && Missed(ops, results, n, name))
  {
    if n > 0 {
      FillStale(st, k, ep, ops, results, n - 1, name);
      FillTurn(st, k, ops, results, n - 1);
      MissedTurn(ops, results, n - 1, name);
      FillTurnStale(Fill(st, k, ops[..n - 1], results[..n - 1]).value, k, ep, ops[n - 1], results[n - 1], name);
    }
  }

  /** The operations after the pools do not touch the pool cache. */
  lemma {:induction false} FillRest(st: State, k: NamespaceName, ops: seq<Request>, results: seq<Result>, pools: nat)
    requires ServiceBatch(ops, pools) && |results| == |ops| && Fill(st, k, ops, results).Some?
    ensures Fill(st, k, ops[..pools], results[..pools]).Some?
    ensures Fill(st, k, ops, results).value.pools == Fill(st, k, ops[..pools], results[..pools]).value.pools
  {
    var n := |ops|;
    assert ops[..n] == ops && results[..n] == results;
    FillTurn(st, k, ops, results, n - 1);
    NotPools(ops[n - 1].model);
    if n == pools + 2 {
      FillTurn(st, k, ops, results, pools);
      NotPools(ops[pools].model);
    }
  }

  lemma {:induction false} NotPools(model: string)
    requires model == "VirtualService" || model == "HTTPRequestPolicy"
    ensures model != "Pool"
  {
    assert |"Pool"| != |"VirtualService"| && |"Pool"| != |"HTTPRequestPolicy"|;
  }

  /** A service batch that went through, and the caches filled from it. */
  lemma {:induction false} CommitStale(oracle: Oracle, st: State, k: NamespaceName, ep: Endpoints, reqs: seq<Request>,
                                       ops: seq<Request>, name: string)
    requires Faithful(oracle) && ep.Key() == k && GoodReqs(st.pools, ep, k, reqs) && ServiceBatch(ops, |reqs|)
    requires forall i :: 0 <= i < |reqs| ==> ops[i] == reqs[i]
    requires Operate(oracle, st.net, ops).err.None?
    requires Fill(st.(net := Operate(oracle, st.net, ops).net), k, ops, Operate(oracle, st.net, ops).results).Some?
    ensures var b := Operate(oracle, st.net, ops);
      var f := Fill(st.(net := b.net), k, ops, b.results).value;
      Stale(f.pools, ep, name) <==> Stale(st.pools, ep, name) && !Posts(reqs, name)
  {
    var b := Operate(oracle, st.net, ops);
    AllSucceeded(oracle, st.net, ops);
    forall i | 0 <= i < |reqs|
      ensures Answered(ep, ops[i], b.results[i]) && ops[i].model == "Pool"
    {
      GoodReqFields(ep, k, reqs[i]);
      FaithfulResults(oracle, st.net, ops, i);
    }
    FillStale(st.(net := b.net), k, ep, ops, b.results, |reqs|, name);
    FillRest(st.(net := b.net), k, ops, b.results, |reqs|);
  }

  /** The parts of a service sync that went through. */
  lemma {:induction false} ServiceRan(oracle: Oracle, w: World, k: NamespaceName, order: seq<PortProtocol>,
                                      order2: seq<ListenerKey>, ran: Ran)
    requires Inv(oracle, w) && k in w.cluster.svcs && k in w.cluster.eps
    requires ServiceStep(oracle, w, k, order, order2, ran) && ran.Ran? && ran.err == NoError
      && !UpToDate(w.st.vss, w.cluster.svcs[k])
    ensures var svc, ep := w.cluster.svcs[k], w.cluster.eps[k];
      var part := PoolPart(w.st.pools, svc, ep, Some(svc), order);
      && part.Ops? && GoodReqs(w.st.pools, ep, k, part.reqs)
      && ran.ops == part.reqs + VsOps(MetaOf(svc, part.reqs), order2)
      && var b := Operate(oracle, w.st.net, ran.ops);
         b.err.None? && Fill(w.st.(net := b.net), k, ran.ops, b.results) == Some(ran.st)
  {
    var svc, ep := w.cluster.svcs[k], w.cluster.eps[k];
    ServiceReqs(w.st.pools, svc, ep, order, order2);
  }

  /** A successful service sync leaves its version in the cache, and every pool it resolves is current there. */
  lemma {:induction false} ServiceCurrent(oracle: Oracle, w: World, k: NamespaceName, order: seq<PortProtocol>,
                                          order2: seq<ListenerKey>, ran: Ran)
    requires Reachable(oracle, w) && Inv(oracle, w) && k in w.cluster.svcs && k in w.cluster.eps
    requires ServiceStep(oracle, w, k, order, order2, ran) && ran.Ran? && ran.err == NoError
      && !UpToDate(w.st.vss, w.cluster.svcs[k])
    ensures UpToDate(ran.st.vss, w.cluster.svcs[k])
    ensures var svc, ep := w.cluster.svcs[k], w.cluster.eps[k];
      var reqs := PoolPart(w.st.pools, svc, ep, Some(svc), order).reqs;
      forall name :: Stale(ran.st.pools, ep, name) <==> Stale(w.st.pools, ep, name) && !Posts(reqs, name)
  {
    var svc, ep := w.cluster.svcs[k], w.cluster.eps[k];
    ServiceRan(oracle, w, k, order, order2, ran);
    var reqs := PoolPart(w.st.pools, svc, ep, Some(svc), order).reqs;
    ServiceOpsShape(w.st.pools, ep, svc, reqs, order2);
    ServiceVsBuilt(svc, reqs, order2);
    ServiceCommit(oracle, w.cluster, w.st, k, reqs, ran.ops);
    forall name
      ensures Stale(ran.st.pools, ep, name) <==> Stale(w.st.pools, ep, name) && !Posts(reqs, name)
    {
      CommitStale(oracle, w.st, k, ep, reqs, ran.ops, name);
    }
  }

  /** Every stale name of a list is requested. */
  lemma {:induction false} StaleIsRequested(pools: PoolMap, ep: Endpoints, hash: string, names: seq<string>,
                                            reqs: seq<Request>, name: string)
    requires BuildOps(pools, ep, hash, names) == Ops(reqs) && name in names && Stale(pools, ep, name)
    ensures Posts(reqs, name)
  {
    BuildOpsExact(pools, ep, hash, names);
    var i :| 0 <= i < |names| && names[i] == name;
    var r := PoolRequest(PoolOf(ep, hash, name).value);
    assert Requested(pools, ep, hash, names, r);
    var j :| 0 <= j < |reqs| && reqs[j] == r;
  }

  /**
   * After a service sync that went through, the far side has the virtual service that the Service gives
   * and, for every ready port, the pool exactly as the current Endpoints give it; the pool is linked to the service.
   */
  lemma {:induction false} ServiceConverge(oracle: Oracle, w: World, k: NamespaceName, order: seq<PortProtocol>,
                                           order2: seq<ListenerKey>, ran: Ran, pp: PortProtocol)
    requires Reachable(oracle, w) && k in w.cluster.svcs && k in w.cluster.eps
    requires ServiceStep(oracle, w, k, order, order2, ran) && ran.Ran? && ran.err == NoError
      && !UpToDate(w.st.vss, w.cluster.svcs[k])
    ensures VsPosted(w.cluster.svcs[k], ran.st, k)
    ensures var ports := Resolve(w.cluster.svcs[k], ReadyPorts(w.cluster.eps[k].subsets));
      var name := Print(k.name, pp.port, pp.protocol);
      ports.Found? && pp in ports.pps ==>
        (k, Link(name)) in ran.st.links && Posted(ran.st.net.remote, w.cluster.eps[k], k, name)
  {
    var svc, ep := w.cluster.svcs[k], w.cluster.eps[k];
    ReachableInv(oracle, w);
    ServiceSyncKeeps(oracle, w, k, order, order2, ran);
    ServiceRan(oracle, w, k, order, order2, ran);
    ServiceCurrent(oracle, w, k, order, order2, ran);
    assert VsSound(w.cluster, ran.st, k);
    var ports := Resolve(svc, ReadyPorts(ep.subsets));
    if ports.Found? && pp in ports.pps {
      var name := Print(k.name, pp.port, pp.protocol);
      assert pp in order;
      var i :| 0 <= i < |order| && order[i] == pp;
      assert NamesOf(svc.name, order)[i] == name;
      var reqs := PoolPart(w.st.pools, svc, ep, Some(svc), order).reqs;
      if Stale(w.st.pools, ep, name) {
        StaleIsRequested(w.st.pools, ep, CrudHashKey(k), NamesOf(svc.name, order), reqs, name);
      }
      assert !Stale(ran.st.pools, ep, name);
      CurrentIsPosted(w.cluster, ran.st, k, name);
    }
  }

  /** In every state that keeps the invariant, a pool cached at the current version is linked and posted. */
  lemma {:induction false} CurrentIsPosted(c: Cluster, st: State, k: NamespaceName, name: string)
    requires ClusterInv(c) && StateInv(c, st) && k in c.eps && !Stale(st.pools, c.eps[k], name)
    ensures (k, Link(name)) in st.links && Posted(st.net.remote, c.eps[k], k, name)
  {
    var l :| l in st.links && Target(l) == NamespaceName(k.ns, name);
    assert Sound(c, st, l.0, Tail(l.1));
    assert l == (k, Link(name));
  }

  /** The next sync of the same version of the Service issues nothing, whatever the Endpoints are by then. */
  lemma {:induction false} ServiceIdempotent(oracle: Oracle, w: World, k: NamespaceName, order: seq<PortProtocol>,
                                             order2: seq<ListenerKey>, ran: Ran, ep: Endpoints,
                                             listed: Option<Service>, other: seq<PortProtocol>,
                                             other2: seq<ListenerKey>)
    requires Reachable(oracle, w) && k in w.cluster.svcs && ServiceStep(oracle, w, k, order, order2, ran) && ran.Ran?
      && ran.err == NoError
    ensures SyncService(oracle, ran.st, w.cluster.svcs[k], Some(ep), listed, other, other2) == Ran(ran.st, NoError, [])
  {
    ReachableInv(oracle, w);
    assert k in w.cluster.eps;
    if !UpToDate(w.st.vss, w.cluster.svcs[k]) {
      ServiceCurrent(oracle, w, k, order, order2, ran);
    }
  }

  // ---------- deleted and re-created ----------

  /** After a deletion nothing of the service is left in the caches. */
  lemma {:induction false} DeletedIsForgotten(oracle: Oracle, w: World, k: NamespaceName, ran: Ran, name: string)
    requires Reachable(oracle, w) && ran == DeleteService(oracle, w.st, k) && ran.Ran? && ran.err == NoError
    ensures k !in ran.st.vss && ValuesOf(ran.st.links, k) == {}
    ensures OwnedBy(k.name, name) ==> NamespaceName(k.ns, name) !in ran.st.pools
  {
    ReachableInv(oracle, w);
    ForgetLinks(w.st, k);
    assert ran.st.links == Forget(w.st, k).links && ran.st.pools == Forget(w.st, k).pools;
    var q := NamespaceName(k.ns, name);
    if OwnedBy(k.name, name) && q in w.st.pools {
      var l :| l in w.st.links && Target(l) == q;
      OneOwner(l.0.name, k.name, name);
      assert l.0 == k;
    }
  }

  /** After a deletion, one pool is posted for every ready port. */
  lemma {:induction false} RecreatedPools(oracle: Oracle, w: World, k: NamespaceName, ran: Ran, svc: Service,
                                          ep: Endpoints, order: seq<PortProtocol>)
    requires Reachable(oracle, w) && ran == DeleteService(oracle, w.st, k) && ran.Ran? && ran.err == NoError
    requires svc.Key() == k == ep.Key() && CleanService(svc) && CleanEndpoints(ep)
    requires var r := Resolve(svc, ReadyPorts(ep.subsets)); r.Found? && Enumerates(order, r.pps)
    ensures var part := PoolPart(ran.st.pools, svc, ep, Some(svc), order);
      part.Ops? ==> PostsInOrder(k.name, order, part.reqs)
  {
    CleanNames(svc, ep, order);
    var names := NamesOf(svc.name, order);
    forall i | 0 <= i < |names|
      ensures Stale(ran.st.pools, ep, names[i])
    {
      DeletedIsForgotten(oracle, w, k, ran, names[i]);
    }
    AllStale(ran.st.pools, ep, CrudHashKey(k), names);
  }

  /** One request per port, in order, for the pool of that port. */
  ghost predicate PostsInOrder(name: string, order: seq<PortProtocol>, reqs: seq<Request>) {
    && |reqs| == |order|
    && forall i :: 0 <= i < |order| ==>
         reqs[i].obj.PoolObj? && reqs[i].obj.pool.name == Print(name, order[i].port, order[i].protocol)
  }

  /** A re-created Service is not skipped; its pools are all posted, and its virtual service last. */
  lemma {:induction false} RecreatedPostsAll(oracle: Oracle, w: World, k: NamespaceName, ran: Ran, svc: Service,
                                             ep: Endpoints, order: seq<PortProtocol>, order2: seq<ListenerKey>)
    requires Reachable(oracle, w) && ran == DeleteService(oracle, w.st, k) && ran.Ran? && ran.err == NoError
    requires svc.Key() == k == ep.Key() && CleanService(svc) && CleanEndpoints(ep)
    requires var r := Resolve(svc, ReadyPorts(ep.subsets)); r.Found? && Enumerates(order, r.pps)
    ensures !UpToDate(ran.st.vss, svc)
    ensures var ops := ServiceOps(ran.st.pools, svc, ep, Some(svc), order, order2);
      ops.Ops? ==>
        && |ops.reqs| > |order| && PostsInOrder(k.name, order, ops.reqs[..|order|])
        && var last := ops.reqs[|ops.reqs| - 1];
           last.obj.VsObj? && NamespaceName(last.tenant, last.obj.vs.name) == k && last.obj.vs.cksum == svc.version
  {
    DeletedIsForgotten(oracle, w, k, ran, "");
    RecreatedPools(oracle, w, k, ran, svc, ep, order);
    var part := PoolPart(ran.st.pools, svc, ep, Some(svc), order);
    if part.Ops? {
      VsOpsShape(svc, part.reqs, order2);
      assert (part.reqs + VsOps(MetaOf(svc, part.reqs), order2))[..|order|] == part.reqs;
    }
  }

  /** One pool for each name, in order. */
  ghost predicate PostsEach(reqs: seq<Request>, names: seq<string>) {
    && |reqs| == |names|
    && forall i :: 0 <= i < |names| ==> reqs[i].obj.PoolObj? && reqs[i].obj.pool.name == names[i]
  }

  lemma {:induction false} PostsEachMore(reqs: seq<Request>, names: seq<string>, r: Request)
    requires names != [] && PostsEach(reqs, names[..|names| - 1])
    requires r.obj.PoolObj? && r.obj.pool.name == names[|names| - 1]
    ensures PostsEach(reqs + [r], names)
  {
    var n := |names| - 1;
    assert forall i :: 0 <= i < n ==> names[..n][i] == names[i];
  }

  lemma {:induction false} AllStale(pools: PoolMap, ep: Endpoints, hash: string, names: seq<string>)
    requires forall i :: 0 <= i < |names| ==> Stale(pools, ep, names[i])
    ensures var ops := BuildOps(pools, ep, hash, names); ops.Ops? ==> PostsEach(ops.reqs, names)
  {
    if names != [] && BuildOps(pools, ep, hash, names).Ops? {
      var n := |names| - 1;
      AllStale(pools, ep, hash, names[..n]);
      var r := LastIsPosted(pools, ep, hash, names);
      PostsEachMore(BuildOps(pools, ep, hash, names[..n]).reqs, names, r);
    }
  }

  lemma {:induction false} LastIsPosted(pools: PoolMap, ep: Endpoints, hash: string, names: seq<string>)
    returns (r: Request)
    requires names != [] && Stale(pools, ep, names[|names| - 1]) && BuildOps(pools, ep, hash, names).Ops?
    ensures BuildOps(pools, ep, hash, names[..|names| - 1]).Ops?
    ensures BuildOps(pools, ep, hash, names).reqs == BuildOps(pools, ep, hash, names[..|names| - 1]).reqs + [r]
    ensures r.obj.PoolObj? && r.obj.pool.name == names[|names| - 1]
  {
    r := PoolRequest(PoolOf(ep, hash, names[|names| - 1]).value);
  }
}
