/** Whole runs: the cluster changes, keys are synced one at a time, requests fail as they please. */
module Runs {
  import opened Strings
  import opened Wrappers
  import opened Model
  import opened PoolNames
  import opened Rest
  import opened Pools
  import opened VirtualServices
  import opened Caches
  import opened Sync
  import opened Effects

  // ---------- the cluster ----------

  /** What the listers show, and every version they have ever shown. */
  datatype Cluster = Cluster(svcs: map<NamespaceName, Service>, eps: map<NamespaceName, Endpoints>,
                             svcLog: map<string, Service>, epLog: map<string, Endpoints>)

  datatype World = World(cluster: Cluster, st: State)

  ghost predicate CleanWord(s: string) {
    Free(s, '-') && Free(s, '/')
  }

  /** A port that cannot be cut into the name of another service: hyphens are fine, the marker is not. */
  ghost predicate CleanPort(s: string) {
    MarkerFree(s) && Free(s, '/')
  }

  ghost predicate CleanService(svc: Service) {
    && Free(svc.name, '/')
    && forall i :: 0 <= i < |svc.ports| ==> CleanPort(svc.ports[i].targetPort.Text())
  }

  ghost predicate CleanEndpoints(ep: Endpoints) {
    forall i, j :: 0 <= i < |ep.subsets| && 0 <= j < |ep.subsets[i].ports| ==>
      CleanWord(Protocol(ep.subsets[i].ports[j].protocol))
  }

  // ---------- steps ----------

  datatype Event =
    | PutService(svc: Service)
    | DropService(k: NamespaceName)
    | PutEndpoints(ep: Endpoints)
    | DropEndpoints(k: NamespaceName)
    | ServiceKey(k: NamespaceName, order: seq<PortProtocol>, order2: seq<ListenerKey>)
    | EndpointsKey(k: NamespaceName, links: seq<string>)

  function Lister<K, V>(m: map<K, V>, k: K): Option<V> {
    if k in m then Some(m[k]) else None
  }

  /** The orders chosen by ranging over the port map and over the pool map. */
  ghost predicate ServiceOrders(svc: Service, ep: Endpoints, order: seq<PortProtocol>, order2: seq<ListenerKey>) {
    && (var r := Resolve(svc, ReadyPorts(ep.subsets)); r.Found? ==> Enumerates(order, r.pps))
    && Enumerates(order2, MetaOf(svc, []).poolMap.Keys)
  }

  /** What the handler runs for a Service key: a sync of the listed Service, or the deletion of one that is gone. */
  ghost predicate ServiceStep(oracle: Oracle, w: World, k: NamespaceName, order: seq<PortProtocol>,
                              order2: seq<ListenerKey>, ran: Ran) {
    if k in w.cluster.svcs then
      var svc := w.cluster.svcs[k];
      && (k in w.cluster.eps ==> ServiceOrders(svc, w.cluster.eps[k], order, order2))
      && ran == SyncService(oracle, w.st, svc, Lister(w.cluster.eps, k), Some(svc), order, order2)
    else
      ran == DeleteService(oracle, w.st, k)
  }

  ghost predicate EndpointsStep(oracle: Oracle, w: World, k: NamespaceName, links: seq<string>, ran: Ran) {
    if k in w.cluster.eps then
      && Enumerates(links, ValuesOf(w.st.links, k))
      && ran == SyncEndpoints(oracle, w.st, w.cluster.eps[k], Lister(w.cluster.svcs, k), links)
    else
      ran == Ran(w.st, NoError, [])
  }

  ghost predicate Next(oracle: Oracle, w: World, e: Event, t: World) {
    var c := w.cluster;
    match e
    case PutService(svc) =>
      CleanService(svc) && svc.version !in c.svcLog
      && t == w.(cluster := c.(svcs := c.svcs[svc.Key() := svc], svcLog := c.svcLog[svc.version := svc]))
    case DropService(k) => t == w.(cluster := c.(svcs := c.svcs - {k}))
    case PutEndpoints(ep) =>
      CleanEndpoints(ep) && ep.version !in c.epLog
      && t == w.(cluster := c.(eps := c.eps[ep.Key() := ep], epLog := c.epLog[ep.version := ep]))
    case DropEndpoints(k) => t == w.(cluster := c.(eps := c.eps - {k}))
    case ServiceKey(k, order, order2) =>
      exists ran :: ServiceStep(oracle, w, k, order, order2, ran) && ran.Ran? && t == w.(st := ran.st)
    case EndpointsKey(k, links) =>
      exists ran :: EndpointsStep(oracle, w, k, links, ran) && ran.Ran? && t == w.(st := ran.st)
  }

  ghost predicate Init(w: World) {
    w == World(Cluster(map[], map[], map[], map[]), State(map[], map[], {}, Net(Remote(map[], map[]), 0)))
  }

  // ---------- the invariant ----------

  /** `p` is a pool name of the service `n`. */
  ghost predicate OwnedBy(n: string, p: string) {
    exists port, protocol :: CleanPort(port) && CleanWord(protocol) && p == Print(n, port, protocol)
  }

  ghost predicate ClusterInv(c: Cluster) {
    && (forall k :: k in c.svcs ==> c.svcs[k].Key() == k && CleanService(c.svcs[k])
                                    && c.svcs[k].version in c.svcLog && c.svcLog[c.svcs[k].version] == c.svcs[k])
    && (forall k :: k in c.eps ==> c.eps[k].Key() == k && CleanEndpoints(c.eps[k])
                                   && c.eps[k].version in c.epLog && c.epLog[c.eps[k].version] == c.eps[k])
  }

  /** The pool name in a link "service/<pool>". */
  function Tail(e: string): string {
    if |e| >= 8 then e[8..] else ""
  }

  /** The cache key of the pool a link stands for. */
  function Target(l: (NamespaceName, string)): NamespaceName {
    NamespaceName(l.0.ns, Tail(l.1))
  }

  /** A link is the link of a pool of the service it is under, and the name of that pool can be read back. */
  ghost predicate GoodLink(l: (NamespaceName, string)) {
    && Free(l.0.name, '/') && l.1 == Link(Tail(l.1))
    && OwnedBy(l.0.name, Tail(l.1)) && Parse(Tail(l.1)).Ok?
  }

  ghost predicate LinksInv(links: Relation) {
    forall l :: l in links ==> GoodLink(l)
  }

  /** Links and pool entries go together, and an entry carries the metadata of the service it is linked to. */
  ghost predicate Agreement(st: State) {
    && (forall l :: l in st.links ==> Target(l) in st.pools && st.pools[Target(l)].crudHashKey == CrudHashKey(l.0))
    && (forall q :: q in st.pools ==> exists l :: l in st.links && Target(l) == q)
  }

  /** The Endpoints of `k` are no longer at version `v`. */
  ghost predicate Moved(c: Cluster, k: NamespaceName, v: string) {
    k !in c.eps || c.eps[k].version != v
  }

  /** The far side holds the pool that `ep` gives under the name `p`. */
  ghost predicate Posted(remote: Remote, ep: Endpoints, k: NamespaceName, p: string) {
    var q := NamespaceName(k.ns, p);
    q in remote.pools && PoolOf(ep, CrudHashKey(k), p) == Some(remote.pools[q].pool)
  }

  /** The cached checksum is a version the Endpoints had; the remote pool was built from it, or they have moved on. */
  ghost predicate Sound(c: Cluster, st: State, k: NamespaceName, p: string) {
    var q := NamespaceName(k.ns, p);
    && q in st.pools
    && var v := st.pools[q].cksum;
       && v in c.epLog && c.epLog[v].Key() == k && c.epLog[v].version == v
       && (Posted(st.net.remote, c.epLog[v], k, p) || Moved(c, k, v))
  }

  ghost predicate SkipInv(c: Cluster, st: State) {
    forall l :: l in st.links ==> Sound(c, st, l.0, Tail(l.1))
  }

  /** A virtual service as some sync of `svc` builds it; syncs differ in the default pool and the order of selectors. */
  ghost predicate BuiltFrom(svc: Service, vs: VirtualService) {
    exists reqs, order :: Enumerates(order, MetaOf(svc, []).poolMap.Keys) && VsOf(MetaOf(svc, reqs), order) == vs
  }

  /** No default pool, or one that is linked to the service and on the far side. */
  ghost predicate Served(st: State, k: NamespaceName, pool: string) {
    pool == "" || ((k, Link(pool)) in st.links && NamespaceName(k.ns, pool) in st.net.remote.pools)
  }

  /** The far side has a virtual service that `svc` gives, with a default pool that can serve. */
  ghost predicate VsPosted(svc: Service, st: State, k: NamespaceName) {
    && k in st.net.remote.vss && BuiltFrom(svc, st.net.remote.vss[k].vs)
    && Served(st, k, st.net.remote.vss[k].vs.defaultPool)
  }

  /** The same for virtual services and the versions of their Service. */
  ghost predicate VsSound(c: Cluster, st: State, k: NamespaceName)
    requires k in st.vss
  {
    var v := st.vss[k].cksum;
    && v in c.svcLog && c.svcLog[v].version == v && c.svcLog[v].Key() == k
    && (VsPosted(c.svcLog[v], st, k) || k !in c.svcs || c.svcs[k].version != v)
  }

  ghost predicate VsInv(c: Cluster, st: State) {
    forall k :: k in st.vss ==> VsSound(c, st, k)
  }

  /** What the caches and the far side keep. */
  ghost predicate StateInv(c: Cluster, st: State) {
    LinksInv(st.links) && Agreement(st) && SkipInv(c, st)
  }

  ghost predicate Inv(oracle: Oracle, w: World) {
    && ClusterInv(w.cluster) && NetInv(oracle, w.st.net)
    && StateInv(w.cluster, w.st) && VsInv(w.cluster, w.st)
  }

  // ---------- links ----------

  lemma {:induction false} LinkTail(p: string)
    ensures Tail(Link(p)) == p
  {
  }

  lemma {:induction false} LinkParts(n: string, p: string)
    requires Free(n, '/') && OwnedBy(n, p)
    ensures Prefix(Link(p)) == "service" && PoolIn(Link(p)) == Some(p)
  {
    var port, protocol :| CleanPort(port) && CleanWord(protocol) && p == Print(n, port, protocol);
    assert Free(p, '/');
    assert Link(p) == "service" + ['/'] + p;
    SplitAtChar("service", '/', p);
    SplitFree(p, '/');
  }

  /** A pool has one owner. */
  lemma {:induction false} OneOwner(n: string, m: string, p: string)
    requires OwnedBy(n, p) && OwnedBy(m, p)
    ensures n == m
  {
    var port, protocol :| CleanPort(port) && CleanWord(protocol) && p == Print(n, port, protocol);
    var port', protocol' :| CleanPort(port') && CleanWord(protocol') && p == Print(m, port', protocol');
    Injective(n, port, protocol, m, port', protocol');
  }

  // ---------- the far side changes ----------

  /** Changes on the far side are harmless where the cached checksum is already out of date. */
  lemma {:induction false} RemoteKeeps(c: Cluster, st: State, net: Net)
    requires StateInv(c, st)
    requires forall l :: l in st.links ==>
               SameAt(st.net.remote.pools, net.remote.pools, Target(l)) || Moved(c, l.0, st.pools[Target(l)].cksum)
    ensures StateInv(c, st.(net := net))
  {
    forall l | l in st.links
      ensures Sound(c, st.(net := net), l.0, Tail(l.1))
    {
      assert Sound(c, st, l.0, Tail(l.1));
    }
  }

  // ---------- a pool is cached ----------

  /** The state after a pool of service `k` has been cached and linked. */
  ghost function CachePool(st: State, k: NamespaceName, p: string, entry: PoolEntry): State {
    st.(pools := st.pools[NamespaceName(k.ns, p) := entry], links := st.links + {(k, Link(p))})
  }

  /** What a link of the state after the caching of pool `p` needs. */
  ghost predicate LinkKept(c: Cluster, t: State, l: (NamespaceName, string)) {
    && GoodLink(l) && Target(l) in t.pools && t.pools[Target(l)].crudHashKey == CrudHashKey(l.0)
    && Sound(c, t, l.0, Tail(l.1))
  }

  /** The new link, and any old link to the same pool, which can only be the same one. */
  lemma {:induction false} CacheNewLink(c: Cluster, st: State, k: NamespaceName, p: string, entry: PoolEntry,
                                        l: (NamespaceName, string))
    requires ClusterInv(c) && k in c.eps && Free(k.name, '/') && OwnedBy(k.name, p)
    requires entry.crudHashKey == CrudHashKey(k) && entry.cksum == c.eps[k].version
    requires Posted(st.net.remote, c.eps[k], k, p)
    requires l == (k, Link(p)) || (GoodLink(l) && Target(l) == NamespaceName(k.ns, p))
    ensures LinkKept(c, CachePool(st, k, p, entry), l)
  {
    LinkTail(p);
    OneOwner(l.0.name, k.name, p);
    assert l == (k, Link(p));
  }

  lemma {:induction false} CacheOldLink(c: Cluster, st: State, k: NamespaceName, p: string, entry: PoolEntry,
                                        l: (NamespaceName, string))
    requires LinkKept(c, st, l) && Target(l) != NamespaceName(k.ns, p)
    ensures LinkKept(c, CachePool(st, k, p, entry), l)
  {
  }

  /** Caching a pool that was just posted from the current Endpoints. */
  lemma {:induction false} CachePoolKeeps(c: Cluster, st: State, k: NamespaceName, p: string, entry: PoolEntry)
    requires ClusterInv(c) && StateInv(c, st) && k in c.eps
    requires Free(k.name, '/') && OwnedBy(k.name, p)
    requires entry.crudHashKey == CrudHashKey(k) && entry.cksum == c.eps[k].version
    requires Posted(st.net.remote, c.eps[k], k, p)
    ensures StateInv(c, CachePool(st, k, p, entry))
  {
    var t := CachePool(st, k, p, entry);
    var q := NamespaceName(k.ns, p);
    forall l | l in t.links
      ensures LinkKept(c, t, l)
    {
      if l == (k, Link(p)) || Target(l) == q {
        CacheNewLink(c, st, k, p, entry, l);
      } else {
        CacheOldLink(c, st, k, p, entry, l);
      }
    }
    forall s | s in t.pools
      ensures exists l :: l in t.links && Target(l) == s
    {
      if s == q {
        LinkTail(p);
        assert (k, Link(p)) in t.links && Target((k, Link(p))) == s;
      } else {
        var l :| l in st.links && Target(l) == s;
        assert l in t.links;
      }
    }
  }

  // ---------- the requests of a sync ----------

  /** A request to post the pool that `ep` gives under one of the names of service `k`. */
  ghost predicate GoodReq(ep: Endpoints, k: NamespaceName, r: Request) {
    && r.obj.PoolObj? && r == PoolRequest(r.obj.pool)
    && PoolOf(ep, CrudHashKey(k), r.obj.pool.name) == Some(r.obj.pool)
    && OwnedBy(k.name, r.obj.pool.name)
  }

  ghost predicate GoodReqs(pools: PoolMap, ep: Endpoints, k: NamespaceName, reqs: seq<Request>) {
    && (forall i :: 0 <= i < |reqs| ==> GoodReq(ep, k, reqs[i]) && Stale(pools, ep, reqs[i].obj.pool.name))
    && (forall i, j :: 0 <= i < j < |reqs| ==> PoolKey(reqs[i]) != PoolKey(reqs[j]))
  }

  lemma {:induction false} BuiltReqs(pools: PoolMap, ep: Endpoints, k: NamespaceName, names: seq<string>)
    requires ep.Key() == k && NoDup(names) && forall i :: 0 <= i < |names| ==> OwnedBy(k.name, names[i])
    ensures var ops := BuildOps(pools, ep, CrudHashKey(k), names);
      ops.Ops? ==> GoodReqs(pools, ep, k, ops.reqs)
  {
    BuildOpsExact(pools, ep, CrudHashKey(k), names);
    var ops := BuildOps(pools, ep, CrudHashKey(k), names);
    if ops.Ops? {
      forall i | 0 <= i < |ops.reqs|
        ensures GoodReq(ep, k, ops.reqs[i]) && Stale(pools, ep, ops.reqs[i].obj.pool.name)
      {
        assert ops.reqs[i] in ops.reqs;
        assert Requested(pools, ep, CrudHashKey(k), names, ops.reqs[i]);
      }
      forall i, j | 0 <= i < j < |ops.reqs|
        ensures PoolKey(ops.reqs[i]) != PoolKey(ops.reqs[j])
      {
        assert GoodReq(ep, k, ops.reqs[i]) && GoodReq(ep, k, ops.reqs[j]);
      }
    }
  }

  // ---------- names come out clean ----------

  lemma {:induction false} ReadyPortsClean(subsets: seq<Subset>, i: nat)
    requires forall s, j :: 0 <= s < |subsets| && 0 <= j < |subsets[s].ports| ==>
      CleanWord(Protocol(subsets[s].ports[j].protocol))
    requires i < |ReadyPorts(subsets)|
    ensures CleanWord(Protocol(ReadyPorts(subsets)[i].protocol))
  {
    var n := |subsets| - 1;
    if i < |ReadyPorts(subsets[..n])| {
      ReadyPortsClean(subsets[..n], i);
    }
  }

  lemma {:induction false} TargetClean(ports: seq<ServicePort>, name: string)
    requires forall i :: 0 <= i < |ports| ==> CleanPort(ports[i].targetPort.Text())
    ensures CleanPort(TargetOf(ports, name))
  {
    WordsAreMarkerFree("");
    if ports != [] && ports[0].name != name {
      TargetClean(ports[1..], name);
    }
  }

  lemma {:induction false} ResolvedClean(svc: Service, ep: Endpoints, pp: PortProtocol)
    requires CleanService(svc) && CleanEndpoints(ep)
    requires Resolve(svc, ReadyPorts(ep.subsets)).Found? && pp in Resolve(svc, ReadyPorts(ep.subsets)).pps
    ensures CleanPort(pp.port) && CleanWord(pp.protocol)
  {
    var ports := ReadyPorts(ep.subsets);
    ResolveExact(svc, ports, pp);
    var i :| 0 <= i < |ports| && ResolveOne(svc, ports[i]) == Port(pp);
    ReadyPortsClean(ep.subsets, i);
    TargetClean(svc.ports, ports[i].name);
  }

  lemma {:induction false} CleanNames(svc: Service, ep: Endpoints, order: seq<PortProtocol>)
    requires CleanService(svc) && CleanEndpoints(ep)
    requires Resolve(svc, ReadyPorts(ep.subsets)).Found? && Enumerates(order, Resolve(svc, ReadyPorts(ep.subsets)).pps)
    ensures var names := NamesOf(svc.name, order);
      NoDup(names) && forall i :: 0 <= i < |names| ==> OwnedBy(svc.name, names[i])
  {
    var names := NamesOf(svc.name, order);
    forall i | 0 <= i < |order|
      ensures CleanPort(order[i].port) && CleanWord(order[i].protocol) && OwnedBy(svc.name, names[i])
    {
      assert order[i] in order;
      ResolvedClean(svc, ep, order[i]);
    }
    forall i, j | 0 <= i < j < |names|
      ensures names[i] != names[j]
    {
      if names[i] == names[j] {
        Injective(svc.name, order[i].port, order[i].protocol, svc.name, order[j].port, order[j].protocol);
      }
    }
  }

  /** The pool requests of a service sync. */
  lemma {:induction false} ServiceReqs(pools: PoolMap, svc: Service, ep: Endpoints, order: seq<PortProtocol>,
                                       order2: seq<ListenerKey>)
    requires CleanService(svc) && CleanEndpoints(ep) && ep.Key() == svc.Key() && ServiceOrders(svc, ep, order, order2)
    ensures var part := PoolPart(pools, svc, ep, Some(svc), order);
      part.Ops? ==> GoodReqs(pools, ep, svc.Key(), part.reqs)
  {
    if Resolve(svc, ReadyPorts(ep.subsets)).Found? {
      CleanNames(svc, ep, order);
      BuiltReqs(pools, ep, svc.Key(), NamesOf(svc.name, order));
    }
  }

  // ---------- a batch of pool requests, and what comes after it ----------

  /** The net after a batch, or after its rollback, differs only at pools whose cached checksum is out of date. */
  lemma {:induction false} ReqsKeep(c: Cluster, st: State, k: NamespaceName, reqs: seq<Request>, ops: seq<Request>,
                                    net: Net)
    requires ClusterInv(c) && StateInv(c, st) && k in c.eps && GoodReqs(st.pools, c.eps[k], k, reqs)
    requires forall i :: 0 <= i < |ops| && ops[i].obj.PoolObj? ==> i < |reqs| && ops[i] == reqs[i]
    requires forall q :: Avoids(ops, q) ==> SameAt(st.net.remote.pools, net.remote.pools, q)
    ensures StateInv(c, st.(net := net))
  {
    forall l | l in st.links
      ensures SameAt(st.net.remote.pools, net.remote.pools, Target(l)) || Moved(c, l.0, st.pools[Target(l)].cksum)
    {
      if !Avoids(ops, Target(l)) {
        var i :| 0 <= i < |ops| && ops[i].obj.PoolObj? && PoolKey(ops[i]) == Target(l);
        RequestedIsStale(c, st, k, reqs[i], l);
      }
    }
    RemoteKeeps(c, st, net);
  }

  /** A requested pool is cached, if at all, at a version the Endpoints have left behind. */
  lemma {:induction false} RequestedIsStale(c: Cluster, st: State, k: NamespaceName, req: Request, l: (NamespaceName,
                                            string))
    requires ClusterInv(c) && LinksInv(st.links) && Agreement(st) && k in c.eps && l in st.links
    requires GoodReq(c.eps[k], k, req) && Stale(st.pools, c.eps[k], req.obj.pool.name) && PoolKey(req) == Target(l)
    ensures Moved(c, l.0, st.pools[Target(l)].cksum)
  {
    GoodReqFields(c.eps[k], k, req);
    OneOwner(l.0.name, k.name, Tail(l.1));
  }

  // ---------- filling the caches ----------

  lemma {:induction false} OneElem(e: Elem, kind: string)
    requires e.Elem? && e.kind == Some(kind)
    ensures Elems(Array([e]), kind) == [e]
  {
    assert [e][..0] == [];
    assert OfKind([e], kind) == OfKind([], kind) + [e];
  }

  /** What a faithful answer to a pool request puts in the caches. */
  lemma {:induction false} EchoedPool(req: Request, r: Result, pools: PoolMap, links: Relation, k: NamespaceName)
    returns (entry: PoolEntry)
    requires req.obj.PoolObj? && Echoed(req, r)
    ensures entry.cksum == req.obj.pool.cksum && entry.crudHashKey == req.obj.pool.crudHashKey
    ensures AddPools(pools, req.tenant, Elems(r.resp, "pool")) == Some(pools[PoolKey(req) := entry])
    ensures AddLinks(links, k, Elems(r.resp, "pool")) == links + {(k, Link(req.obj.pool.name))}
  {
    var uuid, lb :| r.resp == EchoOf(req, uuid, lb);
    var p := req.obj.pool;
    var e := Elem(Some("pool"), Some(p.name), Some(uuid), Some(lb), Some(p.cksum), Hash(p.crudHashKey));
    OneElem(e, "pool");
    entry := PoolEntry(p.name, req.tenant, uuid, lb, p.crudHashKey, p.cksum);
    assert [e][..0] == [];
    assert AddPools(pools, req.tenant, []) == Some(pools);
    assert AddLinks(links, k, []) == links;
  }

  lemma {:induction false} FillPool(s: State, k: NamespaceName, req: Request, r: Result) returns (entry: PoolEntry)
    requires req.model == "Pool" && req.obj.PoolObj? && req.tenant == k.ns && Echoed(req, r)
    ensures entry.cksum == req.obj.pool.cksum && entry.crudHashKey == req.obj.pool.crudHashKey
    ensures FillOne(s, k, req, r) == Some(CachePool(s, k, req.obj.pool.name, entry))
  {
    entry := EchoedPool(req, r, s.pools, s.links, k);
  }

  /** A pool request that went through, seen on the far side. */
  ghost predicate Landed(net: Net, req: Request)
    requires req.obj.PoolObj?
  {
    PoolKey(req) in net.remote.pools && net.remote.pools[PoolKey(req)].pool == req.obj.pool
  }

  lemma {:induction false} GoodReqFields(ep: Endpoints, k: NamespaceName, r: Request)
    requires GoodReq(ep, k, r) && ep.Key() == k
    ensures r.model == "Pool" && r.tenant == k.ns && r.obj.pool.cksum == ep.version
      && r.obj.pool.crudHashKey == CrudHashKey(k)
    ensures r.verb == Post && PoolKey(r) == NamespaceName(k.ns, r.obj.pool.name)
  {
  }

  /** One turn of the fill loop on a pool request that went through. */
  lemma {:induction false} FillPoolKeeps(c: Cluster, s: State, k: NamespaceName, req: Request, r: Result)
    requires ClusterInv(c) && StateInv(c, s) && k in c.eps && Free(k.name, '/')
    requires GoodReq(c.eps[k], k, req) && Landed(s.net, req) && Echoed(req, r)
    ensures var f := FillOne(s, k, req, r);
      f.Some? && StateInv(c, f.value) && f.value.net == s.net && f.value.vss == s.vss
  {
    GoodReqFields(c.eps[k], k, req);
    var entry := FillPool(s, k, req, r);
    CachePoolKeeps(c, s, k, req.obj.pool.name, entry);
  }

  lemma {:induction false} FillPools(c: Cluster, st: State, k: NamespaceName, ops: seq<Request>, results: seq<Result>,
                                     n: nat)
    requires ClusterInv(c) && StateInv(c, st) && k in c.eps && Free(k.name, '/')
    requires n <= |ops| == |results|
    requires forall i :: 0 <= i < n ==>
      GoodReq(c.eps[k], k, ops[i]) && Landed(st.net, ops[i]) && Echoed(ops[i], results[i])
    ensures var f := Fill(st, k, ops[..n], results[..n]);
      f.Some? && StateInv(c, f.value) && f.value.net == st.net && f.value.vss == st.vss
  {
    if n > 0 {
      FillPools(c, st, k, ops, results, n - 1);
      FillTurn(st, k, ops, results, n - 1);
      FillPoolKeeps(c, Fill(st, k, ops[..n - 1], results[..n - 1]).value, k, ops[n - 1], results[n - 1]);
    }
  }

  /** What a faithful answer to a virtual service request puts in the cache. */
  lemma {:induction false} FillVs(s: State, k: NamespaceName, req: Request, r: Result) returns (entry: VsEntry)
    requires req.model == "VirtualService" && req.obj.VsObj? && Echoed(req, r)
    ensures entry.cksum == req.obj.vs.cksum
    ensures FillOne(s, k, req, r) == Some(s.(vss := s.vss[NamespaceName(req.tenant, req.obj.vs.name) := entry]))
  {
    var uuid, lb :| r.resp == EchoOf(req, uuid, lb);
    var v := req.obj.vs;
    var e := Elem(Some("virtualservice"), Some(v.name), Some(uuid), None, Some(v.cksum), Hash(v.crudHashKey));
    OneElem(e, "virtualservice");
    entry := VsEntry(v.name, req.tenant, uuid, v.crudHashKey, v.cksum);
    assert |"Pool"| != |"VirtualService"|;
    assert [e][1..] == [];
    var vss := s.vss[NamespaceName(req.tenant, v.name) := entry];
    assert AddVss(s.vss, req.tenant, [e]) == AddVss(vss, req.tenant, []) == Some(vss);
  }

  lemma {:induction false} FillHps(s: State, k: NamespaceName, req: Request, r: Result)
    requires req.model == "HTTPRequestPolicy"
    ensures FillOne(s, k, req, r) == Some(s)
  {
    assert |"HTTPRequestPolicy"| != |"Pool"| && |"HTTPRequestPolicy"| != |"VirtualService"|;
  }

  /** The whole fill loop of a successful service batch. */
  lemma {:induction false} FillService(c: Cluster, st: State, k: NamespaceName, ops: seq<Request>,
                                       results: seq<Result>, pools: nat)
    requires ClusterInv(c) && StateInv(c, st) && k in c.eps && Free(k.name, '/')
    requires ServiceBatch(ops, pools) && |results| == |ops|
    requires forall i :: 0 <= i < |ops| ==> Echoed(ops[i], results[i])
    requires forall i :: 0 <= i < pools ==> GoodReq(c.eps[k], k, ops[i]) && Landed(st.net, ops[i])
    ensures var f := Fill(st, k, ops, results);
      var last := ops[|ops| - 1];
      && f.Some? && StateInv(c, f.value) && f.value.net == st.net
      && exists entry: VsEntry :: entry.cksum == last.obj.vs.cksum
           && f.value.vss == st.vss[NamespaceName(last.tenant, last.obj.vs.name) := entry]
  {
    var n := |ops|;
    FillPools(c, st, k, ops, results, pools);
    var s := Fill(st, k, ops[..pools], results[..pools]).value;
    if n == pools + 2 {
      FillTurn(st, k, ops, results, pools);
      FillHps(s, k, ops[pools], results[pools]);
    }
    FillTurn(st, k, ops, results, n - 1);
    assert ops[..n] == ops && results[..n] == results;
    var entry := FillVs(s, k, ops[n - 1], results[n - 1]);
    var last := ops[n - 1];
    StateInvVss(c, s, s.vss[NamespaceName(last.tenant, last.obj.vs.name) := entry]);
  }

  lemma {:induction false} StateInvVss(c: Cluster, s: State, vss: VsMap)
    requires StateInv(c, s)
    ensures StateInv(c, s.(vss := vss))
  {
    forall l | l in s.links
      ensures Sound(c, s.(vss := vss), l.0, Tail(l.1))
    {
      assert Sound(c, s, l.0, Tail(l.1));
    }
  }

  // ---------- a service sync ----------

  /** The operations of a service sync: pools first, the virtual service of that version last. */
  lemma {:induction false} VsOpsShape(svc: Service, poolReqs: seq<Request>, order2: seq<ListenerKey>)
    ensures var ops := VsOps(MetaOf(svc, poolReqs), order2);
      var last := ops[|ops| - 1];
      && (forall i :: 0 <= i < |ops| ==> ops[i].verb == Post && !ops[i].obj.PoolObj?)
      && (|ops| == 2 ==> ops[0].model == "HTTPRequestPolicy" && ops[0].obj.HpsObj?)
      && last.model == "VirtualService" && last.obj.VsObj? && last.obj.vs.cksum == svc.version
      && NamespaceName(last.tenant, last.obj.vs.name) == svc.Key()
  {
  }

  lemma {:induction false} ServiceOpsShape(pools: PoolMap, ep: Endpoints, svc: Service, reqs: seq<Request>,
                                           order2: seq<ListenerKey>)
    requires GoodReqs(pools, ep, svc.Key(), reqs) && ep.Key() == svc.Key()
    ensures var ops := reqs + VsOps(MetaOf(svc, reqs), order2);
      var last := ops[|ops| - 1];
      && ServiceBatch(ops, |reqs|)
      && (forall i :: 0 <= i < |ops| && ops[i].obj.PoolObj? ==> i < |reqs| && ops[i] == reqs[i])
      && (forall i :: 0 <= i < |ops| && ops[i].obj.VsObj? ==>
         NamespaceName(ops[i].tenant, ops[i].obj.vs.name) == svc.Key())
      && last.obj.vs.cksum == svc.version && NamespaceName(last.tenant, last.obj.vs.name) == svc.Key()
  {
    VsOpsShape(svc, reqs, order2);
    forall i | 0 <= i < |reqs|
      ensures reqs[i].verb == Post && reqs[i].model == "Pool" && reqs[i].obj.PoolObj?
    {
      GoodReqFields(ep, svc.Key(), reqs[i]);
    }
    JoinedShape(svc, reqs, VsOps(MetaOf(svc, reqs), order2));
  }

  lemma {:induction false} JoinedShape(svc: Service, reqs: seq<Request>, vs: seq<Request>)
    requires forall i :: 0 <= i < |reqs| ==> reqs[i].verb == Post && reqs[i].model == "Pool" && reqs[i].obj.PoolObj?
    requires 1 <= |vs| <= 2 && forall i :: 0 <= i < |vs| ==> vs[i].verb == Post && !vs[i].obj.PoolObj?
    requires |vs| == 2 ==> vs[0].model == "HTTPRequestPolicy" && vs[0].obj.HpsObj?
    requires var last := vs[|vs| - 1];
      last.model == "VirtualService" && last.obj.VsObj? && last.obj.vs.cksum == svc.version
        && NamespaceName(last.tenant, last.obj.vs.name) == svc.Key()
    ensures var ops := reqs + vs;
      var last := ops[|ops| - 1];
      && ServiceBatch(ops, |reqs|)
      && (forall i :: 0 <= i < |ops| && ops[i].obj.PoolObj? ==> i < |reqs| && ops[i] == reqs[i])
      && (forall i :: 0 <= i < |ops| && ops[i].obj.VsObj? ==>
         NamespaceName(ops[i].tenant, ops[i].obj.vs.name) == svc.Key())
      && last.obj.vs.cksum == svc.version && NamespaceName(last.tenant, last.obj.vs.name) == svc.Key()
  {
  }

  /** A default pool as a batch gives it: none, or the first pool posted. */
  ghost predicate DefaultOf(reqs: seq<Request>, pool: string) {
    pool == "" || (reqs != [] && reqs[0].obj.PoolObj? && pool == reqs[0].obj.pool.name)
  }

  lemma {:induction false} ServiceVsBuilt(svc: Service, reqs: seq<Request>, order2: seq<ListenerKey>)
    requires Enumerates(order2, MetaOf(svc, []).poolMap.Keys)
    ensures var ops := reqs + VsOps(MetaOf(svc, reqs), order2);
      var last := ops[|ops| - 1];
      && last.obj.VsObj? && BuiltFrom(svc, last.obj.vs)
      && DefaultOf(reqs, last.obj.vs.defaultPool)
  {
    var ops := reqs + VsOps(MetaOf(svc, reqs), order2);
    assert ops[|ops| - 1].obj == VsObj(VsOf(MetaOf(svc, reqs), order2));
  }

  /** Between `s` and `t` the virtual service of `j` and the pools behind its links stay. */
  ghost predicate SparesVs(s: State, t: State, j: NamespaceName) {
    && SameAt(s.vss, t.vss, j) && SameAt(s.net.remote.vss, t.net.remote.vss, j)
    && forall e :: (j, e) in s.links ==>
         (j, e) in t.links && (Target((j, e)) in s.net.remote.pools ==> Target((j, e)) in t.net.remote.pools)
  }

  lemma {:induction false} VsFrame(c: Cluster, s: State, t: State, j: NamespaceName)
    requires j in s.vss && VsSound(c, s, j) && SparesVs(s, t, j)
    ensures VsSound(c, t, j)
  {
    if VsPosted(c.svcLog[s.vss[j].cksum], s, j) {
      var pool := s.net.remote.vss[j].vs.defaultPool;
      LinkTail(pool);
      assert pool != "" ==> Target((j, Link(pool))) == NamespaceName(j.ns, pool);
    }
  }

  /** A batch of `k`, undone or not, spares the pools of every other service. */
  lemma {:induction false} OthersSpared(st: State, ep: Endpoints, k: NamespaceName, reqs: seq<Request>,
                                        ops: seq<Request>, net: Net,
                                        l: (NamespaceName, string))
    requires LinksInv(st.links) && ep.Key() == k && GoodReqs(st.pools, ep, k, reqs) && l in st.links && l.0 != k
    requires forall i :: 0 <= i < |ops| && ops[i].obj.PoolObj? ==> i < |reqs| && ops[i] == reqs[i]
    requires forall q :: Avoids(ops, q) ==> SameAt(st.net.remote.pools, net.remote.pools, q)
    ensures SameAt(st.net.remote.pools, net.remote.pools, Target(l))
  {
    forall i | 0 <= i < |ops| && ops[i].obj.PoolObj?
      ensures PoolKey(ops[i]) != Target(l)
    {
      GoodReqFields(ep, k, reqs[i]);
      if PoolKey(ops[i]) == Target(l) {
        OneOwner(l.0.name, k.name, Tail(l.1));
      }
    }
    assert Avoids(ops, Target(l));
  }

  /** The virtual services of all services but `k`, whose cached version is out of date, come through its batch. */
  lemma {:induction false} VsKeeps(c: Cluster, st: State, k: NamespaceName, reqs: seq<Request>, ops: seq<Request>,
                                   net: Net, t: State, j: NamespaceName)
    requires ClusterInv(c) && LinksInv(st.links) && VsInv(c, st) && k in c.eps && GoodReqs(st.pools, c.eps[k], k, reqs)
    requires forall i :: 0 <= i < |ops| && ops[i].obj.PoolObj? ==> i < |reqs| && ops[i] == reqs[i]
    requires forall q :: Avoids(ops, q) ==> SameAt(st.net.remote.pools, net.remote.pools, q)
    requires j != k && j in st.vss && SameAt(st.net.remote.vss, net.remote.vss, j)
    requires t.net == net && SameAt(st.vss, t.vss, j) && st.links <= t.links
    ensures VsSound(c, t, j)
  {
    forall e | (j, e) in st.links
      ensures SameAt(st.net.remote.pools, net.remote.pools, Target((j, e)))
    {
      OthersSpared(st, c.eps[k], k, reqs, ops, net, (j, e));
    }
    VsFrame(c, st, t, j);
  }

  /** The far side after a failed batch and its rollback. */
  lemma {:induction false} ServiceRollback(oracle: Oracle, c: Cluster, st: State, k: NamespaceName, reqs: seq<Request>,
                                           ops: seq<Request>)
    requires Faithful(oracle) && FreshUuids(oracle) && ClusterInv(c) && NetInv(oracle, st.net) && StateInv(c, st)
      && VsInv(c, st)
    requires k in c.svcs && k in c.eps && !UpToDate(st.vss, c.svcs[k]) && GoodReqs(st.pools, c.eps[k], k, reqs)
    requires ServiceBatch(ops, |reqs|)
    requires forall i :: 0 <= i < |ops| && ops[i].obj.PoolObj? ==> i < |reqs| && ops[i] == reqs[i]
    requires forall i :: 0 <= i < |ops| && ops[i].obj.VsObj? ==> NamespaceName(ops[i].tenant, ops[i].obj.vs.name) == k
    requires Operate(oracle, st.net, ops).err.Some?
    ensures var b := Operate(oracle, st.net, ops);
      var net := UndoAll(oracle, b.net, ops, b.results).net;
      NetInv(oracle, net) && StateInv(c, st.(net := net)) && VsInv(c, st.(net := net))
  {
    var b := Operate(oracle, st.net, ops);
    var net := UndoAll(oracle, b.net, ops, b.results).net;
    OperateNetInv(oracle, st.net, ops);
    UndoNetInv(oracle, b.net, ops, b.results);
    ServiceUndoAimed(oracle, st.net, ops, |reqs|);
    forall q | Avoids(ops, q)
      ensures SameAt(st.net.remote.pools, net.remote.pools, q)
    {
      OperateFrame(oracle, st.net, ops, q);
      UndoFrame(oracle, b.net, ops, b.results, q);
    }
    ReqsKeep(c, st, k, reqs, ops, net);
    var stop := BatchStops(oracle, st.net, ops);
    VsOnlyLast(ops, |reqs|);
    UndoVsFrame(oracle, b.net, ops, b.results);
    forall j | j != k
      ensures SameAt(st.net.remote.vss, net.remote.vss, j)
    {
      OperateVsFrame(oracle, st.net, ops, j);
    }
    forall j | j in st.vss
      ensures VsSound(c, st.(net := net), j)
    {
      if j != k {
        VsKeeps(c, st, k, reqs, ops, net, st.(net := net), j);
      } else {
        assert VsSound(c, st, j);
      }
    }
  }

  lemma {:induction false} VsOnlyLast(ops: seq<Request>, pools: nat)
    requires ServiceBatch(ops, pools)
    ensures forall i :: 0 <= i < |ops| - 1 ==> ops[i].model != "VirtualService"
  {
    assert |"VirtualService"| != |"Pool"| && |"VirtualService"| != |"HTTPRequestPolicy"|;
  }

  /** The answers to a batch that went through, and its pools on the far side. */
  lemma {:induction false} BatchLanded(oracle: Oracle, pools: PoolMap, ep: Endpoints, net: Net, k: NamespaceName,
                                       reqs: seq<Request>, ops: seq<Request>)
    requires Faithful(oracle) && ep.Key() == k && GoodReqs(pools, ep, k, reqs) && ServiceBatch(ops, |reqs|)
    requires forall i :: 0 <= i < |ops| && ops[i].obj.PoolObj? ==> i < |reqs| && ops[i] == reqs[i]
    requires Operate(oracle, net, ops).err.None?
    ensures var b := Operate(oracle, net, ops);
      && (forall i :: 0 <= i < |ops| ==> Echoed(ops[i], b.results[i]))
      && (forall i :: 0 <= i < |reqs| ==> GoodReq(ep, k, ops[i]) && Landed(b.net, ops[i]))
  {
    var b := Operate(oracle, net, ops);
    var stop := BatchStops(oracle, net, ops);
    forall i | 0 <= i < |ops|
      ensures Echoed(ops[i], b.results[i])
    {
      FaithfulResults(oracle, net, ops, i);
    }
    forall i | 0 <= i < |reqs|
      ensures GoodReq(ep, k, ops[i]) && Landed(b.net, ops[i])
    {
      OperateWrites(oracle, net, ops, i);
    }
  }

  /** Filling the caches drops no link and adds one for every pool of the batch. */
  lemma {:induction false} FillLinks(st: State, k: NamespaceName, ops: seq<Request>, results: seq<Result>, n: nat)
    requires n <= |ops| == |results| && Fill(st, k, ops[..n], results[..n]).Some?
    requires forall i :: 0 <= i < n ==> Echoed(ops[i], results[i]) && (ops[i].model == "Pool" <==> ops[i].obj.PoolObj?)
    ensures var t := Fill(st, k, ops[..n], results[..n]).value;
      && st.links <= t.links
      && forall i :: 0 <= i < n && ops[i].obj.PoolObj? ==> (k, Link(ops[i].obj.pool.name)) in t.links
  {
    if n > 0 {
      FillTurn(st, k, ops, results, n - 1);
      FillLinks(st, k, ops, results, n - 1);
      var s, t := Fill(st, k, ops[..n - 1], results[..n - 1]).value, Fill(st, k, ops[..n], results[..n]).value;
      FillOneLinks(s, k, ops[n - 1], results[n - 1]);
      forall i | 0 <= i < n && ops[i].obj.PoolObj?
        ensures (k, Link(ops[i].obj.pool.name)) in t.links
      {
        assert i < n - 1 ==> (k, Link(ops[i].obj.pool.name)) in s.links;
      }
    }
  }

  lemma {:induction false} FillOneLinks(s: State, k: NamespaceName, req: Request, r: Result)
    requires Echoed(req, r) && (req.model == "Pool" <==> req.obj.PoolObj?) && FillOne(s, k, req, r).Some?
    ensures var t := FillOne(s, k, req, r).value;
      s.links <= t.links && (req.obj.PoolObj? ==> (k, Link(req.obj.pool.name)) in t.links)
  {
    if req.model == "Pool" {
      var entry := EchoedPool(req, r, s.pools, s.links, k);
    }
  }

  /** All links of a service batch are there at the end. */
  lemma {:induction false} ServiceLinks(st: State, k: NamespaceName, ops: seq<Request>, results: seq<Result>,
                                        pools: nat)
    requires ServiceBatch(ops, pools) && |results| == |ops| && Fill(st, k, ops, results).Some?
    requires forall i :: 0 <= i < |ops| ==> Echoed(ops[i], results[i])
    ensures var t := Fill(st, k, ops, results).value;
      && st.links <= t.links
      && forall i :: 0 <= i < pools ==> (k, Link(ops[i].obj.pool.name)) in t.links
  {
    assert ops[..|ops|] == ops && results[..|ops|] == results;
    assert |"Pool"| != |"VirtualService"| && |"Pool"| != |"HTTPRequestPolicy"|;
    FillLinks(st, k, ops, results, |ops|);
  }

  /** The far side and the caches after a batch that went through. */
  lemma {:induction false} ServiceCommit(oracle: Oracle, c: Cluster, st: State, k: NamespaceName, reqs: seq<Request>,
                                         ops: seq<Request>)
    requires Faithful(oracle) && FreshUuids(oracle) && ClusterInv(c) && NetInv(oracle, st.net) && StateInv(c, st)
      && VsInv(c, st)
    requires k in c.svcs && k in c.eps && !UpToDate(st.vss, c.svcs[k]) && GoodReqs(st.pools, c.eps[k], k, reqs)
    requires ServiceBatch(ops, |reqs|)
    requires forall i :: 0 <= i < |ops| && ops[i].obj.PoolObj? ==> i < |reqs| && ops[i] == reqs[i]
    requires forall i :: 0 <= i < |ops| && ops[i].obj.VsObj? ==> NamespaceName(ops[i].tenant, ops[i].obj.vs.name) == k
    requires ops[|ops| - 1].obj.vs.cksum == c.svcs[k].version && BuiltFrom(c.svcs[k], ops[|ops| - 1].obj.vs)
    requires DefaultOf(reqs, ops[|ops| - 1].obj.vs.defaultPool)
    requires Operate(oracle, st.net, ops).err.None?
    ensures var b := Operate(oracle, st.net, ops);
      var f := Fill(st.(net := b.net), k, ops, b.results);
      && f.Some? && NetInv(oracle, f.value.net) && StateInv(c, f.value) && VsInv(c, f.value)
      && k in f.value.vss && f.value.vss[k].cksum == c.svcs[k].version
  {
    var b := Operate(oracle, st.net, ops);
    var st1 := st.(net := b.net);
    OperateNetInv(oracle, st.net, ops);
    forall q | Avoids(ops, q)
      ensures SameAt(st.net.remote.pools, b.net.remote.pools, q)
    {
      OperateFrame(oracle, st.net, ops, q);
    }
    ReqsKeep(c, st, k, reqs, ops, b.net);
    BatchLanded(oracle, st.pools, c.eps[k], st.net, k, reqs, ops);
    FillService(c, st1, k, ops, b.results, |reqs|);
    OperateWritesVs(oracle, st.net, ops);
    forall j | j != k
      ensures SameAt(st.net.remote.vss, b.net.remote.vss, j)
    {
      OperateVsFrame(oracle, st.net, ops, j);
    }
    var t := Fill(st1, k, ops, b.results).value;
    var entry: VsEntry :| entry.cksum == ops[|ops| - 1].obj.vs.cksum && t.vss == st1.vss[k := entry];
    ServiceLinks(st1, k, ops, b.results, |reqs|);
    forall j | j in t.vss
      ensures VsSound(c, t, j)
    {
      if j != k {
        VsKeeps(c, st, k, reqs, ops, b.net, t, j);
      } else {
        DefaultServed(c.eps[k], k, reqs, ops, t, b.net.remote.vss[k].vs.defaultPool);
      }
    }
  }

  lemma {:induction false} DefaultServed(ep: Endpoints, k: NamespaceName, reqs: seq<Request>, ops: seq<Request>,
                                         t: State, pool: string)
    requires ep.Key() == k && DefaultOf(reqs, pool) && |reqs| <= |ops|
    requires forall i :: 0 <= i < |reqs| ==> ops[i] == reqs[i] && GoodReq(ep, k, ops[i]) && Landed(t.net, ops[i])
                                             && (k, Link(ops[i].obj.pool.name)) in t.links
    ensures Served(t, k, pool)
  {
    if pool != "" {
      GoodReqFields(ep, k, reqs[0]);
    }
  }

  lemma {:induction false} ServiceSyncKeeps(oracle: Oracle, w: World, k: NamespaceName, order: seq<PortProtocol>,
                                            order2: seq<ListenerKey>, ran: Ran)
    requires Faithful(oracle) && FreshUuids(oracle) && Inv(oracle, w)
    requires k in w.cluster.svcs && ServiceStep(oracle, w, k, order, order2, ran) && ran.Ran?
    ensures Inv(oracle, w.(st := ran.st))
  {
    var c, st := w.cluster, w.st;
    var svc := c.svcs[k];
    if k in c.eps && !UpToDate(st.vss, svc) {
      var ep := c.eps[k];
      ServiceReqs(st.pools, svc, ep, order, order2);
      var reqs := PoolPart(st.pools, svc, ep, Some(svc), order).reqs;
      var ops := reqs + VsOps(MetaOf(svc, reqs), order2);
      ServiceOpsShape(st.pools, ep, svc, reqs, order2);
      if Operate(oracle, st.net, ops).err.Some? {
        ServiceRollback(oracle, c, st, k, reqs, ops);
      } else {
        ServiceVsBuilt(svc, reqs, order2);
        ServiceCommit(oracle, c, st, k, reqs, ops);
      }
    }
  }

  // ---------- an endpoints sync ----------

  /** The pool names ranged over are the targets of the links of that key. */
  lemma {:induction false} LinkedNames(st: State, k: NamespaceName, order: seq<string>)
    requires LinksInv(st.links) && NoDup(order) && forall i :: 0 <= i < |order| ==> (k, order[i]) in st.links
    ensures PoolsIn(order).Some?
    ensures var names := PoolsIn(order).value;
      |names| == |order| && NoDup(names) && forall i :: 0 <= i < |names| ==>
        names[i] == Tail(order[i]) && OwnedBy(k.name, names[i])
  {
    forall i | 0 <= i < |order|
      ensures PoolIn(order[i]) == Some(Tail(order[i])) && OwnedBy(k.name, Tail(order[i]))
        && order[i] == Link(Tail(order[i]))
    {
      LinkOf(st, k, order[i]);
    }
    LinkedTails(order);
    var names := PoolsIn(order).value;
    forall i, j | 0 <= i < j < |names|
      ensures names[i] != names[j]
    {
      assert order[i] == Link(names[i]) && order[j] == Link(names[j]);
    }
  }

  lemma {:induction false} LinkedTails(order: seq<string>)
    requires forall i :: 0 <= i < |order| ==> PoolIn(order[i]) == Some(Tail(order[i]))
    ensures PoolsIn(order).Some?
    ensures var names := PoolsIn(order).value;
      |names| == |order| && forall i :: 0 <= i < |names| ==> names[i] == Tail(order[i])
  {
    if order != [] {
      LinkedTails(order[..|order| - 1]);
    }
  }

  lemma {:induction false} LinkOf(st: State, k: NamespaceName, e: string)
    requires LinksInv(st.links) && (k, e) in st.links
    ensures PoolIn(e) == Some(Tail(e)) && OwnedBy(k.name, Tail(e)) && e == Link(Tail(e))
  {
    LinkParts(k.name, Tail(e));
  }

  /** Whatever pool is ranged over last, its metadata is that of the service. */
  lemma {:induction false} LastHashStable(st: State, k: NamespaceName, names: seq<string>)
    requires names != []
    requires forall i :: 0 <= i < |names| ==> NamespaceName(k.ns, names[i]) in st.pools
                                              && st.pools[NamespaceName(k.ns, names[i])].crudHashKey == CrudHashKey(k)
    ensures LastHash(st.pools, k.ns, names) == CrudHashKey(k)
  {
    var q := NamespaceName(k.ns, names[|names| - 1]);
    assert q in st.pools;
  }

  /** The requests of an endpoints sync. */
  lemma {:induction false} EndpointsReqs(c: Cluster, st: State, k: NamespaceName, order: seq<string>)
    requires ClusterInv(c) && StateInv(c, st) && k in c.eps && order != [] && Enumerates(order, ValuesOf(st.links, k))
    ensures var ops := EndpointsOps(st, c.eps[k], order);
      ops.Ops? ==> GoodReqs(st.pools, c.eps[k], k, ops.reqs)
    ensures PoolsIn(order).Some?
      && EndpointsOps(st, c.eps[k], order) == BuildOps(st.pools, c.eps[k], CrudHashKey(k), PoolsIn(order).value)
  {
    forall i | 0 <= i < |order|
      ensures (k, order[i]) in st.links && Target((k, order[i])) in st.pools
        && st.pools[Target((k, order[i]))].crudHashKey == CrudHashKey(k)
    {
      assert order[i] in order;
    }
    LinkedNames(st, k, order);
    var names := PoolsIn(order).value;
    forall i | 0 <= i < |names|
      ensures NamespaceName(k.ns, names[i]) in st.pools
        && st.pools[NamespaceName(k.ns, names[i])].crudHashKey == CrudHashKey(k)
    {
      assert Target((k, order[i])) == NamespaceName(k.ns, names[i]);
    }
    LastHashStable(st, k, names);
    BuiltReqs(st.pools, c.eps[k], k, names);
  }

  /** A finished operation of an endpoints sync: its pool is linked, and if it went through the far side has it. */
  ghost predicate Finished(ep: Endpoints, links: Relation, net: Net, k: NamespaceName, req: Request, r: Result) {
    && GoodReq(ep, k, req) && (k, Link(req.obj.pool.name)) in links
    && (r.Succeeded? ==> Landed(net, req) && Echoed(req, r))
  }

  /** The state with refreshed pools; links and virtual services are not touched. */
  lemma {:induction false} RefreshKeeps(c: Cluster, st: State, k: NamespaceName, ops: seq<Request>,
                                        results: seq<Result>, n: nat)
    requires ClusterInv(c) && StateInv(c, st) && k in c.eps && Free(k.name, '/')
    requires n <= |ops| == |results|
    requires forall i :: 0 <= i < n ==> Finished(c.eps[k], st.links, st.net, k, ops[i], results[i])
    ensures Refresh(st.pools, ops[..n], results[..n]).Some?
    ensures StateInv(c, st.(pools := Refresh(st.pools, ops[..n], results[..n]).value))
  {
    if n == 0 {
      assert st.(pools := st.pools) == st;
    } else {
      RefreshKeeps(c, st, k, ops, results, n - 1);
      RefreshTurn(st.pools, ops, results, n - 1);
      RefreshStep(c, st.(pools := Refresh(st.pools, ops[..n - 1], results[..n - 1]).value), k, ops[n - 1],
          results[n - 1]);
    }
  }

  lemma {:induction false} RefreshStep(c: Cluster, s: State, k: NamespaceName, req: Request, r: Result)
    requires ClusterInv(c) && StateInv(c, s) && k in c.eps && Free(k.name, '/')
      && Finished(c.eps[k], s.links, s.net, k, req, r)
    ensures var f := if r.Failed? then Some(s.pools) else AddPools(s.pools, req.tenant, Elems(r.resp, "pool"));
      f.Some? && StateInv(c, s.(pools := f.value))
  {
    if r.Succeeded? {
      RefreshOne(c, s, k, req, r);
    } else {
      assert s.(pools := s.pools) == s;
    }
  }

  lemma {:induction false} RefreshAll(c: Cluster, st: State, k: NamespaceName, ops: seq<Request>, results: seq<Result>)
    requires ClusterInv(c) && StateInv(c, st) && k in c.eps && Free(k.name, '/') && |ops| == |results|
    requires forall i :: 0 <= i < |ops| ==> Finished(c.eps[k], st.links, st.net, k, ops[i], results[i])
    ensures Refresh(st.pools, ops, results).Some?
    ensures StateInv(c, st.(pools := Refresh(st.pools, ops, results).value))
  {
    RefreshKeeps(c, st, k, ops, results, |ops|);
    assert ops[..|ops|] == ops && results[..|ops|] == results;
  }

  lemma {:induction false} RefreshOne(c: Cluster, s: State, k: NamespaceName, req: Request, r: Result)
    requires ClusterInv(c) && StateInv(c, s) && k in c.eps && Free(k.name, '/')
    requires GoodReq(c.eps[k], k, req) && (k, Link(req.obj.pool.name)) in s.links && Landed(s.net, req)
      && Echoed(req, r)
    ensures var f := AddPools(s.pools, req.tenant, Elems(r.resp, "pool"));
      f.Some? && StateInv(c, s.(pools := f.value))
  {
    GoodReqFields(c.eps[k], k, req);
    var entry := EchoedPool(req, r, s.pools, s.links, k);
    CachePoolKeeps(c, s, k, req.obj.pool.name, entry);
    CacheLinkedPool(s, k, req.obj.pool.name, entry);
  }

  lemma {:induction false} CacheLinkedPool(s: State, k: NamespaceName, p: string, entry: PoolEntry)
    requires (k, Link(p)) in s.links
    ensures CachePool(s, k, p, entry) == s.(pools := s.pools[NamespaceName(k.ns, p) := entry])
  {
    assert s.links + {(k, Link(p))} == s.links;
  }

  lemma {:induction false} RequestedLinked(st: State, k: NamespaceName, ep: Endpoints, order: seq<string>, r: Request)
    requires LinksInv(st.links) && Enumerates(order, ValuesOf(st.links, k)) && PoolsIn(order).Some?
    requires Requested(st.pools, ep, CrudHashKey(k), PoolsIn(order).value, r)
    ensures r.obj.PoolObj? && (k, Link(r.obj.pool.name)) in st.links && Free(k.name, '/')
  {
    forall i | 0 <= i < |order|
      ensures (k, order[i]) in st.links
    {
      assert order[i] in order;
    }
    LinkedNames(st, k, order);
    var names := PoolsIn(order).value;
    var i :| 0 <= i < |names| && PoolOf(ep, CrudHashKey(k), names[i]).Some?
      && r == PoolRequest(PoolOf(ep, CrudHashKey(k), names[i]).value);
    assert (k, order[i]) in st.links && order[i] == Link(names[i]);
  }

  lemma {:induction false} EndpointsFinished(oracle: Oracle, st: State, ep: Endpoints, k: NamespaceName,
                                             ops: seq<Request>, i: nat)
    requires Faithful(oracle) && ep.Key() == k && GoodReqs(st.pools, ep, k, ops) && i < |ops|
    requires (k, Link(ops[i].obj.pool.name)) in st.links
    ensures var b := Operate(oracle, st.net, ops);
      Finished(ep, st.links, b.net, k, ops[i], b.results[i])
  {
    GoodReqFields(ep, k, ops[i]);
    if Operate(oracle, st.net, ops).results[i].Succeeded? {
      FaithfulResults(oracle, st.net, ops, i);
      OperateWrites(oracle, st.net, ops, i);
    }
  }

  lemma {:induction false} PoolsOnlyVsFrame(oracle: Oracle, net: Net, ops: seq<Request>)
    requires forall i :: 0 <= i < |ops| ==> ops[i].obj.PoolObj?
    ensures Operate(oracle, net, ops).net.remote.vss == net.remote.vss
  {
    var vss := Operate(oracle, net, ops).net.remote.vss;
    forall j
      ensures SameAt(net.remote.vss, vss, j)
    {
      OperateVsFrame(oracle, net, ops, j);
    }
    SameEverywhere(net.remote.vss, vss);
  }

  lemma {:induction false} EndpointsBatch(oracle: Oracle, c: Cluster, st: State, k: NamespaceName, ops: seq<Request>)
    requires Faithful(oracle) && ClusterInv(c) && StateInv(c, st)
    requires k in c.eps && Free(k.name, '/') && GoodReqs(st.pools, c.eps[k], k, ops)
    requires forall i :: 0 <= i < |ops| ==> (k, Link(ops[i].obj.pool.name)) in st.links
    ensures var b := Operate(oracle, st.net, ops);
      var f := Refresh(st.pools, ops, b.results);
      f.Some? && StateInv(c, st.(pools := f.value, net := b.net))
  {
    var b := Operate(oracle, st.net, ops);
    forall q | Avoids(ops, q)
      ensures SameAt(st.net.remote.pools, b.net.remote.pools, q)
    {
      OperateFrame(oracle, st.net, ops, q);
    }
    ReqsKeep(c, st, k, ops, ops, b.net);
    forall i | 0 <= i < |ops|
      ensures Finished(c.eps[k], st.links, b.net, k, ops[i], b.results[i])
    {
      EndpointsFinished(oracle, st, c.eps[k], k, ops, i);
    }
    RefreshAll(c, st.(net := b.net), k, ops, b.results);
  }

  lemma {:induction false} SameEverywhere<K(!new), V>(m: map<K, V>, n: map<K, V>)
    requires forall k :: SameAt(m, n, k)
    ensures m == n
  {
    assert forall k :: k in m ==> SameAt(m, n, k);
    assert forall k :: k in n ==> SameAt(m, n, k);
  }

  lemma {:induction false} EndpointsSyncKeeps(oracle: Oracle, w: World, k: NamespaceName, links: seq<string>, ran: Ran)
    requires Faithful(oracle) && FreshUuids(oracle) && Inv(oracle, w)
    requires EndpointsStep(oracle, w, k, links, ran) && ran.Ran?
    ensures Inv(oracle, w.(st := ran.st))
  {
    var c, st := w.cluster, w.st;
    if k in c.eps && k in c.svcs && Resolve(c.svcs[k], ReadyPorts(c.eps[k].subsets)).Found? && links != [] {
      EndpointsReqs(c, st, k, links);
      var ops := EndpointsOps(st, c.eps[k], links).reqs;
      BuildOpsExact(st.pools, c.eps[k], CrudHashKey(k), PoolsIn(links).value);
      forall i | 0 <= i < |ops|
        ensures (k, Link(ops[i].obj.pool.name)) in st.links
      {
        assert ops[i] in ops;
        RequestedLinked(st, k, c.eps[k], links, ops[i]);
      }
      EndpointsBatch(oracle, c, st, k, ops);
      OperateNetInv(oracle, st.net, ops);
      PoolsOnlyVsFrame(oracle, st.net, ops);
      OperateGrows(oracle, st.net, ops);
      forall j | j in ran.st.vss
        ensures VsSound(c, ran.st, j)
      {
        VsFrame(c, st, ran.st, j);
      }
    }
  }

  // ---------- a deleted service ----------

  /** The pools `Owns` recognises are those the service prints for marker-free ports and hyphen-free protocols. */
  lemma {:induction false} OwnsOnly(n: string, m: string, p: string)
    requires Owns(n, p) && OwnedBy(m, p)
    ensures n == m
  {
    var a, b := OwnsPrints(n, p);
    var port, protocol :| CleanPort(port) && CleanWord(protocol) && p == Print(m, port, protocol);
    Injective(n, a, b, m, port, protocol);
  }

  lemma {:induction false} OwnsPrints(n: string, p: string) returns (a: string, b: string)
    requires Owns(n, p)
    ensures MarkerFree(a) && Free(b, '-') && p == Print(n, a, b)
  {
    var rest := p[|n| + 6..];
    a := BeforeLast(rest);
    b := LastWord(rest);
    assert p == (n + POOL) + (a + "-" + b);
  }

  lemma {:induction false} LastWord(s: string) returns (b: string)
    requires '-' in s
    ensures Free(b, '-') && s == BeforeLast(s) + "-" + b
  {
    var n := |s| - 1;
    if s[n] == '-' {
      b := "";
    } else {
      assert s == s[..n] + [s[n]];
      var c := LastWord(s[..n]);
      b := c + [s[n]];
    }
  }

  /** The links of other keys, and of no other, survive; so do their pools. */
  lemma {:induction false} ForgetLinks(st: State, key: NamespaceName)
    requires LinksInv(st.links)
    ensures Forget(st, key).links == set l | l in st.links && l.0 != key
    ensures Linked(st.links, key) == set l | l in st.links && l.0 == key :: Target(l)
  {
    forall l | l in st.links
      ensures Prefix(l.1) == "service" && PoolIn(l.1) == Some(Tail(l.1))
    {
      LinkParts(l.0.name, Tail(l.1));
    }
  }

  /** Deleting one service leaves the links and the cached pools of every other service untouched. */
  lemma {:induction false} DeleteLeavesOthers(st: State, key: NamespaceName, l: (NamespaceName, string))
    requires LinksInv(st.links) && Agreement(st) && l in st.links && l.0 != key
    ensures var t := Forget(st, key);
      l in t.links && Target(l) in t.pools && t.pools[Target(l)] == st.pools[Target(l)]
  {
    ForgetLinks(st, key);
    forall m | m in st.links && m.0 == key
      ensures Target(m) != Target(l)
    {
      if Target(m) == Target(l) {
        OneOwner(m.0.name, l.0.name, Tail(l.1));
      }
    }
  }

  lemma {:induction false} ForgetKeeps(c: Cluster, st: State, key: NamespaceName)
    requires StateInv(c, st)
    ensures StateInv(c, Forget(st, key))
  {
    var t := Forget(st, key);
    ForgetLinks(st, key);
    forall l | l in t.links
      ensures LinkKept(c, t, l)
    {
      DeleteLeavesOthers(st, key, l);
      assert Sound(c, st, l.0, Tail(l.1));
    }
    forall q | q in t.pools
      ensures exists l :: l in t.links && Target(l) == q
    {
      var l :| l in st.links && Target(l) == q;
      assert l.0 != key;
    }
  }

  /** What the far side may lose with a virtual service belongs to no other service. */
  lemma {:induction false} EraseServiceFrame(remote: Remote, key: NamespaceName, gone: set<string>, q: NamespaceName,
                                             n: string)
    requires OwnedBy(n, q.name) && NamespaceName(q.ns, n) != key
    ensures SameAt(remote.pools, EraseService(remote, key, gone).pools, q)
  {
    if q.ns == key.ns && Owns(key.name, q.name) {
      OwnsOnly(key.name, n, q.name);
    }
  }

  lemma {:induction false} DeleteKeeps(oracle: Oracle, w: World, k: NamespaceName, ran: Ran)
    requires Inv(oracle, w) && k !in w.cluster.svcs && ran == DeleteService(oracle, w.st, k) && ran.Ran?
    ensures Inv(oracle, w.(st := ran.st))
  {
    var c, st := w.cluster, w.st;
    var get, del := Fate(oracle, st.net.clock), Fate(oracle, st.net.clock + 1);
    forall q | q in st.net.remote.pools
      ensures Used(oracle, st.net.clock + 1, st.net.remote.pools[q].uuid)
        && Used(oracle, st.net.clock + 2, st.net.remote.pools[q].uuid)
    {
      UsedLater(oracle, st.net.clock, st.net.clock + 1, st.net.remote.pools[q].uuid);
      UsedLater(oracle, st.net.clock, st.net.clock + 2, st.net.remote.pools[q].uuid);
    }
    if get.verdict.Failure? {
      RemoteKeeps(c, st, ran.st.net);
      forall j | j in ran.st.vss
        ensures VsSound(c, ran.st, j)
      {
        VsFrame(c, st, ran.st, j);
      }
    } else {
      var remote := if del.Applied() then EraseService(st.net.remote, k, del.gone) else st.net.remote;
      var net := Net(remote, st.net.clock + 2);
      ForgetKeeps(c, st, k);
      var t := Forget(st, k);
      ForgetLinks(st, k);
      forall l | l in t.links
        ensures SameAt(t.net.remote.pools, net.remote.pools, Target(l))
      {
        assert OwnedBy(l.0.name, Tail(l.1));
        EraseServiceFrame(st.net.remote, k, del.gone, Target(l), l.0.name);
      }
      RemoteKeeps(c, t, net);
      assert ran.st == t.(net := net);
      forall j | j in ran.st.vss
        ensures VsSound(c, ran.st, j)
      {
        assert forall e :: (j, e) in st.links ==> (j, e) in t.links;
        VsFrame(c, st, ran.st, j);
      }
    }
  }

  // ---------- the cluster changes ----------

  /** A cluster that keeps its log, and whose new Endpoints have new versions, takes nothing away. */
  lemma {:induction false} ClusterKeeps(c: Cluster, d: Cluster, st: State)
    requires StateInv(c, st) && VsInv(c, st)
    requires forall v :: v in c.epLog ==> v in d.epLog && d.epLog[v] == c.epLog[v]
    requires forall v :: v in c.svcLog ==> v in d.svcLog && d.svcLog[v] == c.svcLog[v]
    requires forall k :: k in d.eps ==> (k in c.eps && d.eps[k] == c.eps[k]) || d.eps[k].version !in c.epLog
    requires forall k :: k in d.svcs ==> (k in c.svcs && d.svcs[k] == c.svcs[k]) || d.svcs[k].version !in c.svcLog
    ensures StateInv(d, st) && VsInv(d, st)
  {
    forall l | l in st.links
      ensures Sound(d, st, l.0, Tail(l.1))
    {
      assert Sound(c, st, l.0, Tail(l.1));
    }
    forall k | k in st.vss
      ensures VsSound(d, st, k)
    {
      assert VsSound(c, st, k);
    }
  }

  /** Every step of the system keeps the invariant. */
  lemma {:induction false} StepKeeps(oracle: Oracle, w: World, e: Event, t: World)
    requires Faithful(oracle) && FreshUuids(oracle) && Inv(oracle, w) && Next(oracle, w, e, t)
    ensures Inv(oracle, t)
  {
    match e
    case ServiceKey(k, order, order2) =>
      var ran :| ServiceStep(oracle, w, k, order, order2, ran) && ran.Ran? && t == w.(st := ran.st);
      if k in w.cluster.svcs {
        ServiceSyncKeeps(oracle, w, k, order, order2, ran);
      } else {
        DeleteKeeps(oracle, w, k, ran);
      }
    case EndpointsKey(k, links) =>
      var ran :| EndpointsStep(oracle, w, k, links, ran) && ran.Ran? && t == w.(st := ran.st);
      EndpointsSyncKeeps(oracle, w, k, links, ran);
    case _ =>
      ClusterKeeps(w.cluster, t.cluster, w.st);
  }

  // ---------- runs ----------

  /** A run: the worlds it passes through and the events between them. */
  ghost predicate Run(oracle: Oracle, ws: seq<World>, es: seq<Event>) {
    && |ws| == |es| + 1 && Init(ws[0])
    && forall i :: 0 <= i < |es| ==> Next(oracle, ws[i], es[i], ws[i + 1])
  }

  /** Every world of every run keeps the invariant. */
  lemma {:induction false} RunInv(oracle: Oracle, ws: seq<World>, es: seq<Event>, i: nat)
    requires Faithful(oracle) && FreshUuids(oracle) && Run(oracle, ws, es) && i < |ws|
    ensures Inv(oracle, ws[i])
  {
    if i > 0 {
      RunInv(oracle, ws, es, i - 1);
      StepKeeps(oracle, ws[i - 1], es[i - 1], ws[i]);
    }
  }
}
