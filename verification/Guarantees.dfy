/** What holds in every world of every run: agreement, skips that are never stale, convergence, safe retries. */
module Guarantees {
  import opened Wrappers
  import opened Model
  import opened PoolNames
  import opened Rest
  import opened Pools
  import opened VirtualServices
  import opened Caches
  import opened Sync
  import opened Effects
  import opened Runs

  /** A world of some run with faithful answers and unique uuids. */
  ghost predicate Reachable(oracle: Oracle, w: World) {
    && Faithful(oracle) && FreshUuids(oracle)
    && exists ws, es, i :: Run(oracle, ws, es) && 0 <= i < |ws| && ws[i] == w
  }

  lemma {:induction false} ReachableInv(oracle: Oracle, w: World)
    requires Reachable(oracle, w)
    ensures Inv(oracle, w)
  {
    var ws, es, i :| Run(oracle, ws, es) && 0 <= i < |ws| && ws[i] == w;
    RunInv(oracle, ws, es, i);
  }

  // ---------- agreement of the caches ----------

  /**
   * A pool is cached exactly when it is linked under some service of its namespace; that service is the only
   * one, prints that pool name for a marker-free port and a hyphen-free protocol, and has its
   * metadata in the entry.
   */
  lemma {:induction false} CacheAgreement(oracle: Oracle, w: World, ns: string, p: string)
    requires Reachable(oracle, w)
    ensures var q, links := NamespaceName(ns, p), w.st.links;
      && (q in w.st.pools <==> exists n :: (NamespaceName(ns, n), Link(p)) in links)
      && (forall n, m :: (NamespaceName(ns, n), Link(p)) in links && (NamespaceName(ns, m), Link(p)) in links ==>
         n == m)
      && (forall n :: (NamespaceName(ns, n), Link(p)) in links ==>
         w.st.pools[q].crudHashKey == CrudHashKey(NamespaceName(ns, n)))
      && (forall n :: (NamespaceName(ns, n), Link(p)) in links ==> OwnedBy(n, p))
      && (forall l :: l in links ==> l.1 == Link(Tail(l.1)))
  {
    ReachableInv(oracle, w);
    var q, links := NamespaceName(ns, p), w.st.links;
    LinkTail(p);
    forall n, m | (NamespaceName(ns, n), Link(p)) in links && (NamespaceName(ns, m), Link(p)) in links
      ensures n == m
    {
      OneOwner(n, m, p);
    }
    forall n | (NamespaceName(ns, n), Link(p)) in links
      ensures q in w.st.pools && w.st.pools[q].crudHashKey == CrudHashKey(NamespaceName(ns, n))
    {
      assert Target((NamespaceName(ns, n), Link(p))) == q;
    }
    if q in w.st.pools {
      var l :| l in links && Target(l) == q;
      assert l == (NamespaceName(ns, l.0.name), Link(p));
    }
  }

  /** Processing the key of a service that is gone leaves the entries of every other service untouched. */
  lemma {:induction false} DeletionIsLocal(oracle: Oracle, w: World, k: NamespaceName, order: seq<PortProtocol>,
                                           order2: seq<ListenerKey>, t: World, j: NamespaceName)
    requires Reachable(oracle, w) && k !in w.cluster.svcs && Next(oracle, w, ServiceKey(k, order, order2), t) && j != k
    ensures ValuesOf(t.st.links, j) == ValuesOf(w.st.links, j)
    ensures forall e :: (j, e) in w.st.links ==> SameAt(w.st.pools, t.st.pools, Target((j, e)))
    ensures SameAt(w.st.vss, t.st.vss, j)
  {
    ReachableInv(oracle, w);
    var ran :| ServiceStep(oracle, w, k, order, order2, ran) && ran.Ran? && t == w.(st := ran.st);
    if Fate(oracle, w.st.net.clock).verdict.Failure? {
      assert t.st == w.st.(net := t.st.net);
    } else {
      assert t.st == Forget(w.st, k).(net := t.st.net);
      ForgettingIsLocal(w.st, k, j);
    }
  }

  lemma {:induction false} ForgettingIsLocal(st: State, k: NamespaceName, j: NamespaceName)
    requires LinksInv(st.links) && Agreement(st) && j != k
    ensures var t := Forget(st, k);
      && ValuesOf(t.links, j) == ValuesOf(st.links, j) && SameAt(st.vss, t.vss, j)
      && forall e :: (j, e) in st.links ==> SameAt(st.pools, t.pools, Target((j, e)))
  {
    var t := Forget(st, k);
    ForgetLinks(st, k);
    forall e | (j, e) in st.links
      ensures SameAt(st.pools, t.pools, Target((j, e)))
    {
      DeleteLeavesOthers(st, k, (j, e));
    }
  }

  // ---------- skips ----------

  /**
   * Every cached pool belongs to some key and was checksummed with a version `v` its Endpoints had: the far side
   * holds the pool built from `v`, or the Endpoints have moved past it.
   */
  lemma {:induction false} CachedPoolIsSound(oracle: Oracle, w: World, q: NamespaceName)
    requires Reachable(oracle, w) && q in w.st.pools
    ensures var v := w.st.pools[q].cksum;
      v in w.cluster.epLog && w.cluster.epLog[v].version == v &&
      var ep := w.cluster.epLog[v];
      && (ep.Key(), Link(q.name)) in w.st.links && ep.ns == q.ns
      && ((q in w.st.net.remote.pools
         && PoolOf(ep, CrudHashKey(ep.Key()), q.name) == Some(w.st.net.remote.pools[q].pool))
          || ep.Key() !in w.cluster.eps || w.cluster.eps[ep.Key()].version != v)
  {
    ReachableInv(oracle, w);
    var l :| l in w.st.links && Target(l) == q;
    assert Sound(w.cluster, w.st, l.0, Tail(l.1));
  }

  /** A pool that the checksum comparison skips is on the far side exactly as the current Endpoints give it. */
  lemma {:induction false} SkippedPoolIsCurrent(oracle: Oracle, w: World, k: NamespaceName, p: string)
    requires Reachable(oracle, w) && k in w.cluster.eps && !Stale(w.st.pools, w.cluster.eps[k], p)
    ensures var q := NamespaceName(k.ns, p);
      && (k, Link(p)) in w.st.links
      && q in w.st.net.remote.pools
      && PoolOf(w.cluster.eps[k], CrudHashKey(k), p) == Some(w.st.net.remote.pools[q].pool)
  {
    ReachableInv(oracle, w);
    CachedPoolIsSound(oracle, w, NamespaceName(k.ns, p));
  }

  /**
   * A Service that the version comparison skips has its virtual service on the far side, built from that version; its
   * default pool, if it names one, is linked to the service and on the far side too.
   */
  lemma {:induction false} SkippedServiceIsCurrent(oracle: Oracle, w: World, k: NamespaceName)
    requires Reachable(oracle, w) && k in w.cluster.svcs && UpToDate(w.st.vss, w.cluster.svcs[k])
    ensures VsPosted(w.cluster.svcs[k], w.st, k)
  {
    ReachableInv(oracle, w);
    assert VsSound(w.cluster, w.st, k);
  }

  // ---------- endpoints syncs ----------

  /**
   * The order in which the links are ranged over, and hence the pool whose metadata is used for all, does not matter.
   */
  lemma {:induction false} MetadataStability(oracle: Oracle, w: World, k: NamespaceName, s: seq<string>, t: seq<string>)
    requires Reachable(oracle, w) && k in w.cluster.eps
    requires Enumerates(s, ValuesOf(w.st.links, k)) && Enumerates(t, ValuesOf(w.st.links, k)) && s != []
    ensures var a, b := EndpointsOps(w.st, w.cluster.eps[k], s), EndpointsOps(w.st, w.cluster.eps[k], t);
      && (a.Panicked? <==> b.Panicked?)
      && (a.Ops? && b.Ops? ==> multiset(a.reqs) == multiset(b.reqs))
      && (a.Ops? ==> forall r :: r in a.reqs ==> r.obj.PoolObj? && r.obj.pool.crudHashKey == CrudHashKey(k))
  {
    assert s[0] in s && s[0] in t;
    BuiltWithHash(oracle, w, k, s);
    BuiltWithHash(oracle, w, k, t);
    ReachableInv(oracle, w);
    SameTails(w.st, k, s, t);
    SameTails(w.st, k, t, s);
    BuildOpsAnyOrder(w.st.pools, w.cluster.eps[k], CrudHashKey(k), PoolsIn(s).value, PoolsIn(t).value);
  }

  /** Whatever the order of the links, the operations are those built with the metadata "ns:name". */
  lemma {:induction false} BuiltWithHash(oracle: Oracle, w: World, k: NamespaceName, s: seq<string>)
    requires Reachable(oracle, w) && k in w.cluster.eps && s != [] && Enumerates(s, ValuesOf(w.st.links, k))
    ensures PoolsIn(s).Some?
    ensures var ops := EndpointsOps(w.st, w.cluster.eps[k], s);
      && ops == BuildOps(w.st.pools, w.cluster.eps[k], CrudHashKey(k), PoolsIn(s).value)
      && (ops.Ops? ==> forall r :: r in ops.reqs ==> r.obj.PoolObj? && r.obj.pool.crudHashKey == CrudHashKey(k))
  {
    ReachableInv(oracle, w);
    EndpointsReqs(w.cluster, w.st, k, s);
  }

  lemma {:induction false} SameTails(st: State, k: NamespaceName, s: seq<string>, t: seq<string>)
    requires LinksInv(st.links) && Enumerates(s, ValuesOf(st.links, k)) && Enumerates(t, ValuesOf(st.links, k))
    ensures PoolsIn(s).Some? && PoolsIn(t).Some?
    ensures NoDup(PoolsIn(s).value)
    ensures forall x :: x in PoolsIn(s).value ==> x in PoolsIn(t).value
  {
    EnumeratedLinks(st, k, s);
    EnumeratedLinks(st, k, t);
    LinkedNames(st, k, s);
    LinkedNames(st, k, t);
    forall x | x in PoolsIn(s).value
      ensures x in PoolsIn(t).value
    {
      var i :| 0 <= i < |s| && PoolsIn(s).value[i] == x;
      assert s[i] in s && s[i] in t;
      var j :| 0 <= j < |t| && t[j] == s[i];
      assert PoolsIn(t).value[j] == x;
    }
  }

  lemma {:induction false} EnumeratedLinks(st: State, k: NamespaceName, s: seq<string>)
    requires Enumerates(s, ValuesOf(st.links, k))
    ensures forall i :: 0 <= i < |s| ==> (k, s[i]) in st.links
  {
    forall i | 0 <= i < |s|
      ensures (k, s[i]) in st.links
    {
      assert s[i] in s;
    }
  }

  /** None of the operations that post `name` went through. */
  ghost predicate Missed(ops: seq<Request>, results: seq<Result>, n: nat, name: string)
    requires n <= |ops| == |results|
  {
    forall i :: 0 <= i < n && ops[i].obj.PoolObj? && ops[i].obj.pool.name == name ==> results[i].Failed?
  }

  /** An operation that posts a pool at the version of `ep`, and a faithful outcome. */
  ghost predicate Answered(ep: Endpoints, req: Request, r: Result) {
    && req.obj.PoolObj? && req.tenant == ep.ns && req.obj.pool.cksum == ep.version
    && (r.Succeeded? ==> Echoed(req, r))
  }

  lemma {:induction false} StaleTurn(pools: PoolMap, ep: Endpoints, req: Request, r: Result, name: string)
    requires Answered(ep, req, r) && r.Succeeded?
    ensures var f := AddPools(pools, req.tenant, Elems(r.resp, "pool"));
      f.Some? && (Stale(f.value, ep, name) <==> Stale(pools, ep, name) && req.obj.pool.name != name)
  {
    var entry := EchoedPool(req, r, pools, {}, NamespaceName("", ""));
  }

  lemma {:induction false} MissedTurn(ops: seq<Request>, results: seq<Result>, n: nat, name: string)
    requires n < |ops| == |results| && ops[n].obj.PoolObj?
    ensures Missed(ops, results, n + 1, name)
      <==> Missed(ops, results, n, name) && (ops[n].obj.pool.name == name ==> results[n].Failed?)
  {
  }

  /** The cache fill after an endpoints batch makes exactly the pools that went through current. */
  lemma {:induction false} RefreshStale(pools: PoolMap, ep: Endpoints, ops: seq<Request>, results: seq<Result>, n: nat,
                                        name: string)
    requires n <= |ops| == |results| && forall i :: 0 <= i < n ==> Answered(ep, ops[i], results[i])
    ensures var f := Refresh(pools, ops[..n], results[..n]);
      f.Some? && (Stale(f.value, ep, name) <==> Stale(pools, ep, name) && Missed(ops, results, n, name))
  {
    if n > 0 {
      RefreshStale(pools, ep, ops, results, n - 1, name);
      RefreshTurn(pools, ops, results, n - 1);
      MissedTurn(ops, results, n - 1, name);
      if results[n - 1].Succeeded? {
        StaleTurn(Refresh(pools, ops[..n - 1], results[..n - 1]).value, ep, ops[n - 1], results[n - 1], name);
      }
    }
  }

  lemma {:induction false} BatchStale(pools: PoolMap, ep: Endpoints, ops: seq<Request>, results: seq<Result>,
                                      name: string)
    requires |ops| == |results| && forall i :: 0 <= i < |ops| ==> Answered(ep, ops[i], results[i])
    ensures var f := Refresh(pools, ops, results);
      f.Some? && (Stale(f.value, ep, name) <==> Stale(pools, ep, name) && Missed(ops, results, |ops|, name))
  {
    RefreshStale(pools, ep, ops, results, |ops|, name);
    assert ops[..|ops|] == ops && results[..|ops|] == results;
  }

  /** The first steps of what an endpoints sync did, when it got as far as a batch. */
  lemma {:induction false} EndpointsRan(oracle: Oracle, w: World, k: NamespaceName, links: seq<string>, ran: Ran)
    requires Reachable(oracle, w) && k in w.cluster.eps && k in w.cluster.svcs && links != []
    requires Resolve(w.cluster.svcs[k], ReadyPorts(w.cluster.eps[k].subsets)).Found?
    requires EndpointsStep(oracle, w, k, links, ran) && ran.Ran?
    ensures var b := Operate(oracle, w.st.net, ran.ops);
      && EndpointsOps(w.st, w.cluster.eps[k], links) == Ops(ran.ops)
      && GoodReqs(w.st.pools, w.cluster.eps[k], k, ran.ops)
      && Refresh(w.st.pools, ran.ops, b.results) == Some(ran.st.pools)
      && ran.st == w.st.(pools := ran.st.pools, net := b.net)
      && forall i :: 0 <= i < |ran.ops| ==> Answered(w.cluster.eps[k], ran.ops[i], b.results[i])
  {
    ReachableInv(oracle, w);
    EndpointsReqs(w.cluster, w.st, k, links);
    var b := Operate(oracle, w.st.net, ran.ops);
    forall i | 0 <= i < |ran.ops|
      ensures Answered(w.cluster.eps[k], ran.ops[i], b.results[i])
    {
      GoodReqFields(w.cluster.eps[k], k, ran.ops[i]);
      FaithfulResults(oracle, w.st.net, ran.ops, i);
    }
  }

  /** What is stale after an endpoints sync: what was stale before and did not go through. */
  lemma {:induction false} EndpointsStale(oracle: Oracle, w: World, k: NamespaceName, links: seq<string>, ran: Ran,
                                          name: string)
    requires Reachable(oracle, w) && k in w.cluster.eps && k in w.cluster.svcs && links != []
    requires Resolve(w.cluster.svcs[k], ReadyPorts(w.cluster.eps[k].subsets)).Found?
    requires EndpointsStep(oracle, w, k, links, ran) && ran.Ran?
    ensures Stale(ran.st.pools, w.cluster.eps[k], name) <==>
            Stale(w.st.pools, w.cluster.eps[k], name)
              && Missed(ran.ops, Operate(oracle, w.st.net, ran.ops).results, |ran.ops|, name)
  {
    EndpointsRan(oracle, w, k, links, ran);
    BatchStale(w.st.pools, w.cluster.eps[k], ran.ops, Operate(oracle, w.st.net, ran.ops).results, name);
  }

  /**
   * Syncing the same Endpoints again, in whatever order, requests exactly the pools whose operation
   * failed or was aborted; after a sync in which everything went through it requests nothing.
   */
  lemma {:induction false} EndpointsRetry(oracle: Oracle, w: World, k: NamespaceName, links: seq<string>, ran: Ran,
                                          again: seq<string>, r: Request)
    requires Reachable(oracle, w) && k in w.cluster.eps && k in w.cluster.svcs && links != []
    requires Resolve(w.cluster.svcs[k], ReadyPorts(w.cluster.eps[k].subsets)).Found?
    requires EndpointsStep(oracle, w, k, links, ran) && ran.Ran? && Enumerates(again, ValuesOf(ran.st.links, k))
    ensures var b, next := Operate(oracle, w.st.net, ran.ops), EndpointsOps(ran.st, w.cluster.eps[k], again);
      && next.Ops?
      && (r in next.reqs <==> FailedIn(ran.ops, b.results, r))
  {
    var st, ep := w.st, w.cluster.eps[k];
    ReachableInv(oracle, w);
    EndpointsRan(oracle, w, k, links, ran);
    assert w.(st := ran.st).st == ran.st;
    EndpointsSyncKeeps(oracle, w, k, links, ran);
    assert links[0] in links && links[0] in again;
    EndpointsReqs(w.cluster, st, k, links);
    EndpointsReqs(w.cluster, ran.st, k, again);
    SameTails(st, k, links, again);
    SameTails(st, k, again, links);
    var s, t := PoolsIn(links).value, PoolsIn(again).value;
    forall name
      ensures Stale(ran.st.pools, ep, name) <==>
              Stale(st.pools, ep, name) && Missed(ran.ops, Operate(oracle, st.net, ran.ops).results, |ran.ops|, name)
    {
      EndpointsStale(oracle, w, k, links, ran, name);
    }
    RetryExact(st.pools, ran.st.pools, ep, CrudHashKey(k), s, t, ran.ops, Operate(oracle, st.net, ran.ops).results, r);
  }

  /** The request for `r` among the operations of one pass, and what became of it. */
  ghost predicate FailedIn(ops: seq<Request>, results: seq<Result>, r: Request)
    requires |ops| == |results|
  {
    exists i :: 0 <= i < |ops| && ops[i] == r && results[i].Failed?
  }

  lemma {:induction false} RetryExact(pools: PoolMap, later: PoolMap, ep: Endpoints, hash: string, s: seq<string>,
                                      t: seq<string>,
                   ops: seq<Request>, results: seq<Result>, r: Request)
    requires BuildOps(pools, ep, hash, s) == Ops(ops) && |results| == |ops| && NoDup(s)
    requires forall x :: x in s <==> x in t
    requires forall name :: Stale(later, ep, name) <==> Stale(pools, ep, name) && Missed(ops, results, |ops|, name)
    ensures var next := BuildOps(later, ep, hash, t);
      next.Ops? && (r in next.reqs <==> FailedIn(ops, results, r))
  {
    BuildOpsExact(pools, ep, hash, s);
    BuildOpsExact(later, ep, hash, t);
    StillReadable(pools, later, ep, s, t);
    if FailedIn(ops, results, r) {
      FailedIsRequested(pools, later, ep, hash, s, t, ops, results, r);
    }
    if Requested(later, ep, hash, t, r) {
      RequestedHasFailed(pools, later, ep, hash, s, t, ops, results, r);
    }
  }

  lemma {:induction false} StillReadable(pools: PoolMap, later: PoolMap, ep: Endpoints, s: seq<string>, t: seq<string>)
    requires forall x :: x in t ==> x in s
    requires forall name :: Stale(later, ep, name) ==> Stale(pools, ep, name)
    ensures Unreadable(later, ep, t) ==> Unreadable(pools, ep, s)
  {
    if Unreadable(later, ep, t) {
      var j :| 0 <= j < |t| && Stale(later, ep, t[j]) && Parse(t[j]) == Panic;
      assert t[j] in s;
      var i :| 0 <= i < |s| && s[i] == t[j];
    }
  }

  /** Two requests for the same name are the same operation. */
  lemma {:induction false} OneRequestEach(pools: PoolMap, ep: Endpoints, hash: string, names: seq<string>,
                                          ops: seq<Request>, i: nat, j: nat)
    requires BuildOps(pools, ep, hash, names) == Ops(ops) && NoDup(names) && i < |ops| && j < |ops|
    requires ops[i].obj.PoolObj? && ops[j].obj.PoolObj? && ops[i].obj.pool.name == ops[j].obj.pool.name
    ensures i == j
  {
    BuildOpsExact(pools, ep, hash, names);
    assert ops[i] in ops && ops[j] in ops;
    assert Requested(pools, ep, hash, names, ops[i]) && Requested(pools, ep, hash, names, ops[j]);
  }

  lemma {:induction false} FailedIsRequested(pools: PoolMap, later: PoolMap, ep: Endpoints, hash: string,
                                             s: seq<string>, t: seq<string>,
                          ops: seq<Request>, results: seq<Result>, r: Request)
    requires BuildOps(pools, ep, hash, s) == Ops(ops) && |results| == |ops| && NoDup(s)
    requires forall x :: x in s <==> x in t
    requires forall name :: Stale(later, ep, name) <==> Stale(pools, ep, name) && Missed(ops, results, |ops|, name)
    requires FailedIn(ops, results, r)
    ensures Requested(later, ep, hash, t, r)
  {
    BuildOpsExact(pools, ep, hash, s);
    var i :| 0 <= i < |ops| && ops[i] == r && results[i].Failed?;
    assert Requested(pools, ep, hash, s, ops[i]);
    var name := r.obj.pool.name;
    forall j | 0 <= j < |ops| && ops[j].obj.PoolObj? && ops[j].obj.pool.name == name
      ensures results[j].Failed?
    {
      OneRequestEach(pools, ep, hash, s, ops, i, j);
    }
    assert Missed(ops, results, |ops|, name);
    assert name in t;
    var j :| 0 <= j < |t| && t[j] == name;
    assert Stale(later, ep, t[j]);
  }

  lemma {:induction false} RequestedHasFailed(pools: PoolMap, later: PoolMap, ep: Endpoints, hash: string,
                                              s: seq<string>, t: seq<string>,
                           ops: seq<Request>, results: seq<Result>, r: Request)
    requires BuildOps(pools, ep, hash, s) == Ops(ops) && |results| == |ops|
    requires forall x :: x in s <==> x in t
    requires forall name :: Stale(later, ep, name) <==> Stale(pools, ep, name) && Missed(ops, results, |ops|, name)
    requires Requested(later, ep, hash, t, r)
    ensures FailedIn(ops, results, r)
  {
    BuildOpsExact(pools, ep, hash, s);
    var j :| 0 <= j < |t| && Stale(later, ep, t[j]) && PoolOf(ep, hash, t[j]).Some?
             && r == PoolRequest(PoolOf(ep, hash, t[j]).value);
    assert t[j] in s;
    var i :| 0 <= i < |s| && s[i] == t[j];
    assert Stale(pools, ep, s[i]);
    assert Requested(pools, ep, hash, s, r);
    var n :| 0 <= n < |ops| && ops[n] == r;
    assert Missed(ops, results, |ops|, t[j]);
  }

  /** A name that was stale and whose operations all went through is stale no longer. */
  lemma {:induction false} NothingMissed(pools: PoolMap, ep: Endpoints, hash: string, names: seq<string>,
                                         ops: seq<Request>, results: seq<Result>, name: string)
    requires BuildOps(pools, ep, hash, names) == Ops(ops) && |results| == |ops| && name in names
    requires forall i :: 0 <= i < |results| ==> results[i].Succeeded?
    ensures Stale(pools, ep, name) ==> !Missed(ops, results, |ops|, name)
  {
    BuildOpsExact(pools, ep, hash, names);
    if Stale(pools, ep, name) {
      var i :| 0 <= i < |names| && names[i] == name;
      var r := PoolRequest(PoolOf(ep, hash, name).value);
      assert Requested(pools, ep, hash, names, r);
      var j :| 0 <= j < |ops| && ops[j] == r;
      assert results[j].Succeeded?;
    }
  }

  lemma {:induction false} AllSucceeded(oracle: Oracle, net: Net, reqs: seq<Request>)
    requires forall i :: 0 <= i < |reqs| ==> reqs[i].verb == Post
    requires Operate(oracle, net, reqs).err.None?
    ensures forall i :: 0 <= i < |reqs| ==> Operate(oracle, net, reqs).results[i].Succeeded?
  {
    var stop := BatchStops(oracle, net, reqs);
  }

  lemma {:induction false} AllPoolsSucceeded(oracle: Oracle, net: Net, pools: PoolMap, ep: Endpoints, k: NamespaceName,
                                             ops: seq<Request>)
    requires ep.Key() == k && GoodReqs(pools, ep, k, ops) && Operate(oracle, net, ops).err.None?
    ensures forall i :: 0 <= i < |ops| ==> Operate(oracle, net, ops).results[i].Succeeded?
  {
    forall i | 0 <= i < |ops|
      ensures ops[i].verb == Post
    {
      GoodReqFields(ep, k, ops[i]);
    }
    AllSucceeded(oracle, net, ops);
  }

  lemma {:induction false} NoneStaleAfter(oracle: Oracle, w: World, k: NamespaceName, links: seq<string>, ran: Ran,
                                          e: string)
    requires Reachable(oracle, w) && k in w.cluster.eps && k in w.cluster.svcs
    requires Resolve(w.cluster.svcs[k], ReadyPorts(w.cluster.eps[k].subsets)).Found?
    requires EndpointsStep(oracle, w, k, links, ran) && ran.Ran? && Operate(oracle, w.st.net, ran.ops).err.None?
    requires (k, e) in w.st.links
    ensures ran.st.links == w.st.links && !Stale(ran.st.pools, w.cluster.eps[k], Tail(e))
  {
    var ep, results := w.cluster.eps[k], Operate(oracle, w.st.net, ran.ops).results;
    ReachableInv(oracle, w);
    NameOf(w.st, k, links, e);
    EndpointsRan(oracle, w, k, links, ran);
    AllPoolsSucceeded(oracle, w.st.net, w.st.pools, ep, k, ran.ops);
    EndpointsReqs(w.cluster, w.st, k, links);
    NothingMissed(w.st.pools, ep, CrudHashKey(k), PoolsIn(links).value, ran.ops, results, Tail(e));
    EndpointsStale(oracle, w, k, links, ran, Tail(e));
  }

  /** After an endpoints sync in which everything went through, every pool of the service is current on the far side. */
  lemma {:induction false} EndpointsConverge(oracle: Oracle, w: World, k: NamespaceName, links: seq<string>, ran: Ran,
                                             e: string)
    requires Reachable(oracle, w) && k in w.cluster.eps && k in w.cluster.svcs
    requires Resolve(w.cluster.svcs[k], ReadyPorts(w.cluster.eps[k].subsets)).Found?
    requires EndpointsStep(oracle, w, k, links, ran) && ran.Ran? && Operate(oracle, w.st.net, ran.ops).err.None?
    requires (k, e) in ran.st.links
    ensures !Stale(ran.st.pools, w.cluster.eps[k], Tail(e)) && Posted(ran.st.net.remote, w.cluster.eps[k], k, Tail(e))
  {
    ReachableInv(oracle, w);
    EndpointsSyncKeeps(oracle, w, k, links, ran);
    NoneStaleAfter(oracle, w, k, links, ran, e);
    assert Sound(w.cluster, ran.st, k, Tail(e));
  }

  lemma {:induction false} NameOf(st: State, k: NamespaceName, links: seq<string>, e: string)
    requires LinksInv(st.links) && Enumerates(links, ValuesOf(st.links, k)) && (k, e) in st.links
    ensures e in links && PoolsIn(links).Some? && Tail(e) in PoolsIn(links).value
  {
    EnumeratedLinks(st, k, links);
    LinkedNames(st, k, links);
    assert e in ValuesOf(st.links, k);
    var i :| 0 <= i < |links| && links[i] == e;
    assert PoolsIn(links).value[i] == Tail(e);
  }

  /** And the next sync of the same Endpoints does nothing at all. */
  lemma {:induction false} EndpointsIdempotent(oracle: Oracle, w: World, k: NamespaceName, links: seq<string>,
                                               ran: Ran, again: seq<string>)
    requires Reachable(oracle, w) && k in w.cluster.eps && k in w.cluster.svcs
    requires EndpointsStep(oracle, w, k, links, ran) && ran.Ran? && Operate(oracle, w.st.net, ran.ops).err.None?
    requires Enumerates(again, ValuesOf(ran.st.links, k))
    ensures SyncEndpoints(oracle, ran.st, w.cluster.eps[k], Some(w.cluster.svcs[k]), again) == Ran(ran.st, NoError, [])
  {
    if Resolve(w.cluster.svcs[k], ReadyPorts(w.cluster.eps[k].subsets)).Found? && again != [] {
      ReachableInv(oracle, w);
      EndpointsSyncKeeps(oracle, w, k, links, ran);
      EnumeratedLinks(ran.st, k, again);
      LinkedNames(ran.st, k, again);
      EndpointsReqs(w.cluster, ran.st, k, again);
      var names := PoolsIn(again).value;
      forall i | 0 <= i < |names|
        ensures !Stale(ran.st.pools, w.cluster.eps[k], names[i])
      {
        EndpointsConverge(oracle, w, k, links, ran, again[i]);
      }
      NothingStale(ran.st.pools, w.cluster.eps[k], CrudHashKey(k), names);
      NothingToDo(oracle, ran.st, w.cluster.eps[k], w.cluster.svcs[k], again);
    }
  }

  lemma {:induction false} NothingToDo(oracle: Oracle, st: State, ep: Endpoints, svc: Service, order: seq<string>)
    requires Resolve(svc, ReadyPorts(ep.subsets)).Found? && EndpointsOps(st, ep, order) == Ops([])
    ensures SyncEndpoints(oracle, st, ep, Some(svc), order) == Ran(st, NoError, [])
  {
    assert Operate(oracle, st.net, []) == Batch([], st.net, None);
    assert Refresh(st.pools, [], []) == Some(st.pools);
  }

  lemma {:induction false} NothingStale(pools: PoolMap, ep: Endpoints, hash: string, names: seq<string>)
    requires forall i :: 0 <= i < |names| ==> !Stale(pools, ep, names[i])
    ensures BuildOps(pools, ep, hash, names) == Ops([])
  {
    if names != [] {
      NothingStale(pools, ep, hash, names[..|names| - 1]);
    }
  }
}
