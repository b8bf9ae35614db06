/** The handlers as they run: loops over responses, names and operations, updating the shared caches in place. */
module Reconciler {
  import opened Strings
  import opened Wrappers
  import opened Model
  import opened PoolNames
  import opened Rest
  import opened Pools
  import opened VirtualServices
  import opened Caches
  import opened Sync

  // ---------- caches filled from responses ----------

  method RestRespArrToObjByType(op: RestOp, kind: string) returns (es: seq<Elem>)
    ensures es == Elems(op.response, kind)
  {
    es := [];
    if !op.response.Array? {
      return;
    }
    var arr := op.response.elems;
    for i := 0 to |arr|
      invariant es == OfKind(arr[..i], kind)
    {
      assert arr[..i + 1][..i] == arr[..i];
      if arr[i].Elem? && arr[i].kind == Some(kind) {
        es := es + [arr[i]];
      }
    }
    assert arr[..|arr|] == arr;
  }

  /** Nothing can be read from an operation that failed or has no response. */
  ghost function Readable(op: RestOp, kind: string): (r: seq<Elem>)
    reads op
    ensures forall i :: 0 <= i < |r| ==> r[i].Elem?
  {
    if op.err.Some? then [] else Elems(op.response, kind)
  }

  method AviPoolCacheAdd(poolCache: AviCache<PoolEntry>, op: RestOp) returns (panicked: bool)
    modifies poolCache
    ensures var added := AddPools(old(poolCache.cache), op.req.tenant, Readable(op, "pool"));
      panicked == added.None? && (!panicked ==> poolCache.cache == added.value)
  {
    panicked := false;
    if op.err.Some? {
      return;
    }
    var es := RestRespArrToObjByType(op, "pool");
    ghost var was := poolCache.cache;
    for i := 0 to |es|
      invariant AddPools(was, op.req.tenant, es[..i]) == Some(poolCache.cache)
      invariant op.err.None? && es == Elems(op.response, "pool")
    {
      assert es[..i + 1][..i] == es[..i];
      var e := es[i];
      if e.name.Some? && e.uuid.Some? {
        if e.lb.None? || e.cksum.None? || e.mdata.Missing? {
          PanicStays(was, op.req.tenant, es, i + 1);
          return true;
        }
        poolCache.AviCacheAdd(NamespaceName(op.req.tenant, e.name.value),
                              PoolEntry(e.name.value, op.req.tenant, e.uuid.value, e.lb.value, HashOf(e.mdata),
                                  e.cksum.value));
      }
    }
    assert es[..|es|] == es;
  }

  lemma {:induction false} PanicStays(pools: PoolMap, tenant: string, es: seq<Elem>, i: nat)
    requires i <= |es| && (forall j :: 0 <= j < |es| ==> es[j].Elem?) && AddPools(pools, tenant, es[..i]).None?
    ensures AddPools(pools, tenant, es).None?
    decreases |es|
  {
    if i < |es| {
      assert es[..|es| - 1][..i] == es[..i];
      PanicStays(pools, tenant, es[..|es| - 1], i);
    } else {
      assert es[..i] == es;
    }
  }

  method AviSvcToPoolCacheAdd(links: AviMultiCache, op: RestOp, key: NamespaceName)
    requires links.Valid()
    modifies links, links.Inners()
    ensures links.Valid() && fresh(links.Inners() - old(links.Inners()))
    ensures links.Rel() == AddLinks(old(links.Rel()), key, Readable(op, "pool"))
  {
    if op.err.Some? {
      return;
    }
    var es := RestRespArrToObjByType(op, "pool");
    ghost var was := links.Rel();
    for i := 0 to |es|
      invariant links.Valid() && fresh(links.Inners() - old(links.Inners()))
      invariant links.Rel() == AddLinks(was, key, es[..i])
      invariant op.err.None? && es == Elems(op.response, "pool")
    {
      assert es[..i + 1][..i] == es[..i];
      if es[i].name.Some? {
        links.AviMultiCacheAdd(key, "service" + "/" + es[i].name.value);
      }
    }
    assert es[..|es|] == es;
  }

  method AviVsCacheAdd(vsCache: AviCache<VsEntry>, op: RestOp) returns (panicked: bool)
    modifies vsCache
    ensures var added := AddVss(old(vsCache.cache), op.req.tenant, Readable(op, "virtualservice"));
      panicked == added.None? && (!panicked ==> vsCache.cache == added.value)
  {
    panicked := false;
    if op.err.Some? {
      return;
    }
    var es := RestRespArrToObjByType(op, "virtualservice");
    ghost var whole := AddVss(vsCache.cache, op.req.tenant, es);
    assert es[0..] == es;
    for i := 0 to |es|
      invariant whole == AddVss(vsCache.cache, op.req.tenant, es[i..])
      invariant op.err.None? && es == Elems(op.response, "virtualservice")
    {
      assert es[i..][1..] == es[i + 1..];
      var e := es[i];
      if e.name.None? || e.uuid.None? {
        return;
      }
      if e.cksum.None? || e.mdata.Missing? {
        return true;
      }
      vsCache.AviCacheAdd(NamespaceName(op.req.tenant, e.name.value),
                          VsEntry(e.name.value, op.req.tenant, e.uuid.value, HashOf(e.mdata), e.cksum.value));
    }
  }

  // ---------- building the pool operations ----------

  ghost predicate NewOps(ops: seq<RestOp>)
    reads ops
  {
    NoDup(ops) && forall i :: 0 <= i < |ops| ==> ops[i].err == None && ops[i].response == NoResponse
  }

  /** Read port and protocol back from the pool name and collect the servers; None is an index panic. */
  method BuildPool(ep: Endpoints, hash: string, name: string) returns (pool: Option<Pool>)
    ensures pool == PoolOf(ep, hash, name)
  {
    var parsed := Parse(name);
    if parsed.Panic? {
      return None;
    }
    var servers := SelectServers(ep.subsets, parsed.port, parsed.protocol);
    pool := Some(Pool(name, ep.version, ep.ns, hash, servers,
        if parsed.protocol == "udp" then UDP_MONITOR else TCP_MONITOR));
  }

  lemma {:induction false} BuildOpsTurn(pools: PoolMap, ep: Endpoints, hash: string, names: seq<string>, i: nat,
                                        reqs: seq<Request>)
    requires i < |names| && BuildOps(pools, ep, hash, names[..i]) == Ops(reqs)
    ensures BuildOps(pools, ep, hash, names[..i + 1]) ==
            if !Stale(pools, ep, names[i]) then Ops(reqs)
            else match PoolOf(ep, hash, names[i])
              case None => Panicked
              case Some(pool) => Ops(reqs + [PoolRequest(pool)])
  {
    assert names[..i + 1][..i] == names[..i];
  }

  /** One more operation at the end of a batch. */
  method AppendOp(ops: seq<RestOp>, req: Request) returns (more: seq<RestOp>)
    requires NewOps(ops)
    ensures NewOps(more) && |more| == |ops| + 1 && more[..|ops|] == ops && fresh(more[|ops|])
    ensures Requests(more) == Requests(ops) + [req]
  {
    var op := new RestOp(req);
    more := ops + [op];
  }

  /** The loop over pool names: skip what is cached at this version, build the rest. */
  method BuildPoolOps(poolCache: AviCache<PoolEntry>, ep: Endpoints, hash: string, names: seq<string>)
    returns (ops: seq<RestOp>, panicked: bool)
    ensures fresh(ops) && NewOps(ops)
    ensures var built := BuildOps(poolCache.cache, ep, hash, names);
      panicked == built.Panicked? && (!panicked ==> Requests(ops) == built.reqs)
  {
    ops, panicked := [], false;
    for i := 0 to |names|
      invariant fresh(ops) && NewOps(ops)
      invariant BuildOps(poolCache.cache, ep, hash, names[..i]) == Ops(Requests(ops))
    {
      BuildOpsTurn(poolCache.cache, ep, hash, names, i, Requests(ops));
      var cached := poolCache.AviCacheGet(NamespaceName(ep.ns, names[i]));
      if cached.Some? && cached.value.cksum == ep.version {
        continue;
      }
      var pool := BuildPool(ep, hash, names[i]);
      if pool.None? {
        StillPanicked(poolCache.cache, ep, hash, names, i + 1);
        return [], true;
      }
      ops := AppendOp(ops, PoolRequest(pool.value));
    }
    assert names[..|names|] == names;
  }

  lemma {:induction false} StillPanicked(pools: PoolMap, ep: Endpoints, hash: string, names: seq<string>, i: nat)
    requires i <= |names| && BuildOps(pools, ep, hash, names[..i]).Panicked?
    ensures BuildOps(pools, ep, hash, names).Panicked?
    decreases |names|
  {
    if i < |names| {
      assert names[..|names| - 1][..i] == names[..i];
      StillPanicked(pools, ep, hash, names[..|names| - 1], i);
    } else {
      assert names[..i] == names;
    }
  }

  // ---------- the cache fill of an endpoints sync ----------

  /** What reading an operation finds is what the fill functions read in its outcome. */
  lemma {:induction false} ReadableOutcome(op: RestOp, kind: string)
    ensures op.Outcome().Succeeded? ==> Readable(op, kind) == Elems(op.Outcome().resp, kind)
    ensures op.err.Some? <==> op.Outcome().Failed?
  {
  }

  lemma {:induction false} RefreshNone(pools: PoolMap, reqs: seq<Request>, results: seq<Result>, i: nat)
    requires i <= |reqs| == |results| && Refresh(pools, reqs[..i], results[..i]).None?
    ensures Refresh(pools, reqs, results).None?
    decreases |reqs|
  {
    if i < |reqs| {
      var n := |reqs| - 1;
      assert reqs[..n][..i] == reqs[..i] && results[..n][..i] == results[..i];
      RefreshNone(pools, reqs[..n], results[..n], i);
    } else {
      assert reqs[..i] == reqs && results[..i] == results;
    }
  }

  method RefreshPools(poolCache: AviCache<PoolEntry>, ops: seq<RestOp>) returns (panicked: bool)
    modifies poolCache
    ensures var r := Refresh(old(poolCache.cache), Requests(ops), Outcomes(ops));
      panicked == r.None? && (!panicked ==> poolCache.cache == r.value)
    ensures Outcomes(ops) == old(Outcomes(ops))
  {
    panicked := false;
    ghost var reqs, rs, was := Requests(ops), Outcomes(ops), poolCache.cache;
    for i := 0 to |ops|
      invariant Refresh(was, reqs[..i], rs[..i]) == Some(poolCache.cache)
      invariant Outcomes(ops) == rs
    {
      assert reqs[..i + 1][..i] == reqs[..i] && rs[..i + 1][..i] == rs[..i];
      assert rs[i] == ops[i].Outcome() && reqs[i] == ops[i].req;
      if ops[i].err.None? {
        ReadableOutcome(ops[i], "pool");
        panicked := AviPoolCacheAdd(poolCache, ops[i]);
        if panicked {
          RefreshNone(was, reqs, rs, i + 1);
          return;
        }
      }
    }
    assert reqs[..|ops|] == reqs && rs[..|ops|] == rs;
  }

  lemma {:induction false} JoinedRequests(a: seq<RestOp>, b: seq<RestOp>)
    ensures Requests(a + b) == Requests(a) + Requests(b)
  {
  }

  lemma {:induction false} MetaPoolMap(svc: Service, a: seq<Request>, b: seq<Request>)
    ensures MetaOf(svc, a).poolMap == MetaOf(svc, b).poolMap
  {
  }

  // ---------- the endpoints handler ----------

  /** The pool operations under names with a given prefix. */
  ghost function NamedOps(pools: PoolMap, ep: Endpoints, prefix: string, hash: string, listed: Option<Service>,
                          order: seq<PortProtocol>): Ops {
    if listed.None? then Ops([])
    else match Resolve(listed.value, ReadyPorts(ep.subsets))
      case NotFound => Ops([])
      case Crashed => Panicked
      case Found(_) => BuildOps(pools, ep, hash, NamesOf(prefix, order))
  }

  /** With the name of a Service as prefix, these are the pool operations of its sync. */
  lemma {:induction false} NamedForService(pools: PoolMap, svc: Service, ep: Endpoints, listed: Option<Service>,
                                           order: seq<PortProtocol>, order2: seq<ListenerKey>)
    ensures var part := NamedOps(pools, ep, svc.name, CrudHashKey(svc.Key()), listed, order);
      ServiceOps(pools, svc, ep, listed, order, order2) ==
      if part.Panicked? then Panicked else Ops(part.reqs + VsOps(MetaOf(svc, part.reqs), order2))
  {
  }

  class K8sEp {
    const vsCache: AviCache<VsEntry>
    const poolCache: AviCache<PoolEntry>
    const links: AviMultiCache
    const session: Session

    constructor (vsCache: AviCache<VsEntry>, poolCache: AviCache<PoolEntry>, links: AviMultiCache, session: Session)
      ensures this.vsCache == vsCache && this.poolCache == poolCache && this.links == links && this.session == session
    {
      this.vsCache := vsCache;
      this.poolCache := poolCache;
      this.links := links;
      this.session := session;
    }

    ghost predicate Valid()
      reads links, links.Inners()
    {
      links.Valid()
    }

    /** The caches and the far side. */
    ghost function Now(): State
      reads vsCache, poolCache, links, links.Inners(), session
    {
      State(vsCache.cache, poolCache.cache, links.Rel(), session.net)
    }

    /** The loop over the links of a key: the pool names, and the metadata of the last one that is cached. */
    method LinkedPools(key: NamespaceName)
      returns (names: seq<string>, hash: string, panicked: bool, ghost order: seq<string>)
      requires Valid()
      ensures Enumerates(order, ValuesOf(links.Rel(), key))
      ensures panicked == PoolsIn(order).None?
      ensures !panicked ==>
        PoolsIn(order) == Some(names) && |names| == |order| && hash == LastHash(poolCache.cache, key.ns, names)
    {
      names, hash, panicked, order := [], "", false, [];
      links.KeyPresent(key);
      var found := links.AviMultiCacheGetKey(key);
      if found.None? {
        assert ValuesOf(links.Rel(), key) == {};
        return;
      }
      var ranged := Range(found.value.vals);
      order := ranged;
      for i := 0 to |ranged|
        invariant PoolsIn(ranged[..i]) == Some(names) && |names| == i
          && hash == LastHash(poolCache.cache, key.ns, names)
      {
        LinkedTurn(poolCache.cache, key.ns, ranged, i, names);
        var elems := Split(ranged[i], "/");
        if |elems| < 2 {
          PoolsInNone(ranged, i + 1);
          panicked := true;
          return;
        }
        var cached := poolCache.AviCacheGet(NamespaceName(key.ns, elems[1]));
        names := names + [elems[1]];
        if cached.Some? {
          hash := cached.value.crudHashKey;
        }
      }
      assert ranged[..|ranged|] == ranged;
    }

    /** The pool operations of a service sync: named after the service, and left to the caller to send. */
    method ForService(ep: Endpoints, prefix: string, hash: string, listed: Option<Service>)
      returns (ops: seq<RestOp>, panicked: bool, ghost order: seq<PortProtocol>)
      ensures fresh(ops) && NewOps(ops)
      ensures listed.Some? ==> var r := Resolve(listed.value, ReadyPorts(ep.subsets)); r.Found? ==>
        Enumerates(order, r.pps)
      ensures var built := NamedOps(poolCache.cache, ep, prefix, hash, listed, order);
        panicked == built.Panicked? && (!panicked ==> Requests(ops) == built.reqs)
    {
      ops, panicked, order := [], false, [];
      if listed.None? {
        return;
      }
      var ports := ResolvePorts(listed.value, ep);
      if !ports.Found? {
        panicked := ports.Crashed?;
        return;
      }
      var ranged := Range(ports.pps);
      order := ranged;
      var names: seq<string> := [];
      for i := 0 to |ranged|
        invariant names == NamesOf(prefix, ranged[..i])
      {
        names := names + [Print(prefix, ranged[i].port, ranged[i].protocol)];
      }
      assert ranged[..|ranged|] == ranged;
      ops, panicked := BuildPoolOps(poolCache, ep, hash, names);
    }

    /** Build, post, and cache what went through. */
    method PostPools(ep: Endpoints, hash: string, names: seq<string>) returns (panicked: bool)
      modifies poolCache, session
      ensures var built := BuildOps(old(poolCache.cache), ep, hash, names);
        if built.Panicked? then panicked
        else
          var b := Operate(session.oracle, old(session.net), built.reqs);
          var r := Refresh(old(poolCache.cache), built.reqs, b.results);
          panicked == r.None? && (!panicked ==> poolCache.cache == r.value && session.net == b.net)
    {
      var ops;
      ops, panicked := BuildPoolOps(poolCache, ep, hash, names);
      if panicked {
        return;
      }
      var _ := AviRestOperate(session, ops);
      panicked := RefreshPools(poolCache, ops);
    }

    /** Bring the pools linked to a key up to date. */
    method UpdateLinked(ep: Endpoints) returns (panicked: bool, ghost order: seq<string>)
      requires Valid()
      modifies poolCache, session
      ensures Valid() && Enumerates(order, ValuesOf(links.Rel(), ep.Key()))
      ensures var ran := Update(session.oracle, old(Now()), ep, order);
        panicked == ran.Died? && (!panicked ==> Now() == ran.st && ran.err == NoError)
    {
      var names, hash;
      names, hash, panicked, order := LinkedPools(ep.Key());
      if panicked || names == [] {
        return;
      }
      UpdatePosts(session.oracle, Now(), ep, order, names);
      panicked := PostPools(ep, hash, names);
      assert links.Rel() == old(links.Rel()) && vsCache.cache == old(vsCache.cache);
    }

    /** An Endpoints was created or updated. */
    method OnEndpoints(ep: Endpoints, listed: Option<Service>)
      returns (err: SyncError, panicked: bool, ghost order: seq<string>)
      requires Valid()
      modifies poolCache, session
      ensures Valid()
      ensures listed.Some? && Resolve(listed.value, ReadyPorts(ep.subsets)).Found? ==>
        Enumerates(order, ValuesOf(links.Rel(), ep.Key()))
      ensures var ran := SyncEndpoints(session.oracle, old(Now()), ep, listed, order);
        panicked == ran.Died? && (!panicked ==> Now() == ran.st && err == ran.err)
    {
      err, panicked, order := NoError, false, [];
      if listed.None? {
        err := SkipSync;
        return;
      }
      var ports := ResolvePorts(listed.value, ep);
      if !ports.Found? {
        panicked := ports.Crashed?;
        return;
      }
      panicked, order := UpdateLinked(ep);
    }
  }

  lemma {:induction false} UpdatePosts(oracle: Oracle, st: State, ep: Endpoints, order: seq<string>, names: seq<string>)
    requires PoolsIn(order) == Some(names) && order != []
    ensures var built := BuildOps(st.pools, ep, LastHash(st.pools, ep.ns, names), names);
      var ran := Update(oracle, st, ep, order);
      if built.Panicked? then ran.Died?
      else
        var b := Operate(oracle, st.net, built.reqs);
        var r := Refresh(st.pools, built.reqs, b.results);
        ran == if r.None? then Died else Ran(st.(pools := r.value, net := b.net), NoError, built.reqs)
  {
  }

  lemma {:induction false} LinkedTurn(pools: PoolMap, ns: string, order: seq<string>, i: nat, names: seq<string>)
    requires i < |order| && PoolsIn(order[..i]) == Some(names)
    ensures match PoolIn(order[i])
      case None => PoolsIn(order[..i + 1]).None?
      case Some(p) =>
        var k := NamespaceName(ns, p);
        && PoolsIn(order[..i + 1]) == Some(names + [p])
        && LastHash(pools, ns, names + [p]) == if k in pools then pools[k].crudHashKey else LastHash(pools, ns, names)
  {
    assert order[..i + 1][..i] == order[..i];
    assert forall p :: (names + [p])[..|names|] == names;
  }

  lemma {:induction false} PoolsInNone(order: seq<string>, i: nat)
    requires i <= |order| && PoolsIn(order[..i]).None?
    ensures PoolsIn(order).None?
    decreases |order|
  {
    if i < |order| {
      assert order[..|order| - 1][..i] == order[..i];
      PoolsInNone(order[..|order| - 1], i);
    } else {
      assert order[..i] == order;
    }
  }

  // ---------- the virtual service operations ----------

  method BuildListeners(meta: VsMeta) returns (listeners: seq<Listener>)
    ensures listeners == Listeners(meta)
  {
    listeners := [];
    for i := 0 to |meta.listeners|
      invariant |listeners| == i && forall j :: 0 <= j < i ==> listeners[j] == Listeners(meta)[j]
    {
      var pp := meta.listeners[i];
      var override := None;
      if pp.protocol == "tcp" && meta.networkProfile == UDP_FAST {
        override := Some(TCP_PROXY);
      } else if pp.protocol == "udp" && meta.networkProfile == TCP_PROXY {
        override := Some(UDP_FAST);
      }
      listeners := listeners + [Listener(pp.port, override)];
    }
  }

  method BuildSelectors(poolMap: map<ListenerKey, string>, order: seq<ListenerKey>) returns (selectors: seq<Selector>)
    requires forall i :: 0 <= i < |order| ==> order[i] in poolMap
    ensures selectors == Selectors(poolMap, order)
  {
    selectors := [];
    for i := 0 to |order|
      invariant |selectors| == i && forall j :: 0 <= j < i ==> selectors[j] == Selectors(poolMap, order)[j]
    {
      var proto := if order[i].protocol == "tcp" then "PROTOCOL_TYPE_TCP_PROXY" else "PROTOCOL_TYPE_UDP_PROXY";
      selectors := selectors + [Selector(order[i].port, proto, poolMap[order[i]])];
    }
  }

  /** The rules as they read when the policy set is sent. */
  method ReadRules(rules: seq<RequestRule>) returns (r: seq<Rule>)
    ensures |r| == |rules| && forall i :: 0 <= i < |r| ==> r[i] == Read(rules[i])
  {
    r := [];
    for i := 0 to |rules|
      invariant |r| == i && forall j :: 0 <= j < i ==> r[j] == Read(rules[j])
    {
      r := r + [Read(rules[i])];
    }
  }

  method AviVsBuild(meta: VsMeta) returns (ops: seq<RestOp>, ghost order: seq<ListenerKey>)
    ensures fresh(ops) && NewOps(ops)
    ensures Enumerates(order, meta.poolMap.Keys) && Requests(ops) == VsOps(meta, order)
  {
    var listeners := BuildListeners(meta);
    var ranged := Range(meta.poolMap.Keys);
    order := ranged;
    assert forall i :: 0 <= i < |ranged| ==> ranged[i] in ranged;
    ops := [];
    var selectors: seq<Selector> := [];
    ProfilesDiffer();
    if |meta.listeners| > 1 {
      if meta.applicationProfile == L4_APP {
        selectors := BuildSelectors(meta.poolMap, ranged);
      } else if meta.applicationProfile == HTTP_APP {
        var built := AviHttpPSBuild(PolicyName(meta), meta.poolMap, ranged);
        var rules := ReadRules(built);
        assert rules == Rules(PolicyName(meta), meta.poolMap, ranged);
        var hps := new RestOp(Request(Post, MACRO, meta.tenant, "HTTPRequestPolicy",
                                      HpsObj(HttpPolicySet(PolicyName(meta), meta.cksum, meta.tenant, rules))));
        ops := [hps];
      }
    }
    var vs := VirtualService(meta.name, meta.cksum, meta.tenant, meta.crudHashKey, meta.networkProfile,
        meta.applicationProfile,
                             meta.defaultPool, listeners, selectors);
    var op := new RestOp(Request(Post, MACRO, meta.tenant, "VirtualService", VsObj(vs)));
    ops := ops + [op];
  }

  // ---------- the service handler ----------

  lemma {:induction false} FillNone(st: State, key: NamespaceName, reqs: seq<Request>, results: seq<Result>, i: nat)
    requires i <= |reqs| == |results| && Fill(st, key, reqs[..i], results[..i]).None?
    ensures Fill(st, key, reqs, results).None?
    decreases |reqs|
  {
    if i < |reqs| {
      var n := |reqs| - 1;
      assert reqs[..n][..i] == reqs[..i] && results[..n][..i] == results[..i];
      FillNone(st, key, reqs[..n], results[..n], i);
    } else {
      assert reqs[..i] == reqs && results[..i] == results;
    }
  }

  /** The one "service" link without a second segment is "service" itself. */
  lemma {:induction false} SegmentsOf(e: string)
    ensures Prefix(e) == "service" && PoolIn(e).None? <==> e == "service"
  {
    if '/' in e {
      var h, t := SplitHead(e, '/');
      assert '/' !in "service";
    } else {
      SplitFree(e, '/');
    }
  }

  class K8sSvc {
    const eps: K8sEp

    constructor (eps: K8sEp)
      ensures this.eps == eps
    {
      this.eps := eps;
    }

    /** The pool goes into its cache, then its link. */
    method FillPool(key: NamespaceName, op: RestOp) returns (panicked: bool)
      requires eps.Valid()
      modifies eps.poolCache, eps.links, eps.links.Inners()
      ensures eps.Valid() && fresh(eps.links.Inners() - old(eps.links.Inners()))
      ensures var added := AddPools(old(eps.poolCache.cache), op.req.tenant, Readable(op, "pool"));
        panicked == added.None? && (!panicked ==> eps.poolCache.cache == added.value)
      ensures !panicked ==> eps.links.Rel() == AddLinks(old(eps.links.Rel()), key, Readable(op, "pool"))
    {
      panicked := AviPoolCacheAdd(eps.poolCache, op);
      if !panicked {
        AviSvcToPoolCacheAdd(eps.links, op, key);
      }
    }

    /** One turn of the fill loop. */
    method FillNext(key: NamespaceName, op: RestOp) returns (panicked: bool)
      requires eps.Valid()
      modifies eps.vsCache, eps.poolCache, eps.links, eps.links.Inners()
      ensures eps.Valid() && fresh(eps.links.Inners() - old(eps.links.Inners()))
      ensures var f := FillOne(old(eps.Now()), key, op.req, op.Outcome());
        panicked == f.None? && (!panicked ==> eps.Now() == f.value)
    {
      panicked := false;
      if op.err.None? {
        ReadableOutcome(op, "pool");
        ReadableOutcome(op, "virtualservice");
        if op.req.model == "Pool" {
          panicked := FillPool(key, op);
        } else if op.req.model == "VirtualService" {
          panicked := AviVsCacheAdd(eps.vsCache, op);
          assert eps.links.Rel() == old(eps.links.Rel());
        }
      }
    }

    /** The fill loop of a batch that went through. */
    method FillCaches(key: NamespaceName, ops: seq<RestOp>) returns (panicked: bool)
      requires eps.Valid()
      modifies eps.vsCache, eps.poolCache, eps.links, eps.links.Inners()
      ensures eps.Valid() && fresh(eps.links.Inners() - old(eps.links.Inners()))
      ensures var f := Fill(old(eps.Now()), key, Requests(ops), old(Outcomes(ops)));
        panicked == f.None? && (!panicked ==> eps.Now() == f.value)
    {
      panicked := false;
      ghost var reqs, rs, was := Requests(ops), Outcomes(ops), eps.Now();
      for i := 0 to |ops|
        invariant eps.Valid() && fresh(eps.links.Inners() - old(eps.links.Inners()))
        invariant Fill(was, key, reqs[..i], rs[..i]) == Some(eps.Now())
        invariant Outcomes(ops) == rs
      {
        FillTurn(was, key, reqs, rs, i);
        assert rs[i] == ops[i].Outcome() && reqs[i] == ops[i].req;
        panicked := FillNext(key, ops[i]);
        if panicked {
          FillNone(was, key, reqs, rs, i + 1);
          return;
        }
      }
      assert reqs[..|ops|] == reqs && rs[..|ops|] == rs;
    }

    /** Sending a batch leaves the caches alone. */
    method SendBatch(ops: seq<RestOp>) returns (failed: Option<string>)
      requires eps.Valid() && NoDup(ops)
      modifies eps.session, ops
      ensures eps.Valid() && eps.links.Inners() == old(eps.links.Inners())
      ensures var b := Operate(eps.session.oracle, old(eps.session.net), Requests(ops));
        Outcomes(ops) == b.results && failed == b.err && eps.Now() == old(eps.Now()).(net := b.net)
    {
      failed := AviRestOperate(eps.session, ops);
      assert eps.links.Rel() == old(eps.links.Rel());
    }

    /** So does undoing it. */
    method UndoBatch(ops: seq<RestOp>) returns (panicked: bool)
      requires eps.Valid()
      modifies eps.session
      ensures eps.Valid() && eps.links.Inners() == old(eps.links.Inners())
      ensures var u := UndoAll(eps.session.oracle, old(eps.session.net), Requests(ops), old(Outcomes(ops)));
        panicked == u.crashed && eps.Now() == old(eps.Now()).(net := u.net)
    {
      var deleted;
      deleted, panicked := RollBack(eps.session, ops);
      assert eps.links.Rel() == old(eps.links.Rel());
    }

    /** Send the batch; undo it if it fails, cache it if it does not. */
    method RunBatch(key: NamespaceName, ops: seq<RestOp>) returns (err: SyncError, panicked: bool)
      requires eps.Valid() && NoDup(ops)
      modifies eps.vsCache, eps.poolCache, eps.links, eps.links.Inners(), eps.session, ops
      ensures eps.Valid() && fresh(eps.links.Inners() - old(eps.links.Inners()))
      ensures var ran := Batched(eps.session.oracle, old(eps.Now()), key, Requests(ops));
        panicked == ran.Died? && (!panicked ==> eps.Now() == ran.st && err == ran.err)
    {
      err, panicked := NoError, false;
      var failed := SendBatch(ops);
      if failed.Some? {
        panicked := UndoBatch(ops);
        err := Transient(failed.value);
      } else {
        panicked := FillCaches(key, ops);
      }
    }

    /** Pools first, then the virtual service. */
    method BuildBatch(svc: Service, ep: Endpoints, listed: Option<Service>)
      returns (ops: seq<RestOp>, panicked: bool, ghost order: seq<PortProtocol>, ghost order2: seq<ListenerKey>)
      ensures fresh(ops) && NoDup(ops)
      ensures var built := ServiceOps(eps.poolCache.cache, svc, ep, listed, order, order2);
        panicked == built.Panicked? && (!panicked ==> Requests(ops) == built.reqs)
      ensures listed.Some? ==> var r := Resolve(listed.value, ReadyPorts(ep.subsets)); r.Found? ==>
        Enumerates(order, r.pps)
      ensures !panicked ==> Enumerates(order2, MetaOf(svc, []).poolMap.Keys)
    {
      ops, order2 := [], [];
      var pools;
      pools, panicked, order := eps.ForService(ep, svc.name, CrudHashKey(svc.Key()), listed);
      NamedForService(eps.poolCache.cache, svc, ep, listed, order, order2);
      if panicked {
        return;
      }
      var meta := BuildMeta(svc, Requests(pools));
      var vs;
      vs, order2 := AviVsBuild(meta);
      NamedForService(eps.poolCache.cache, svc, ep, listed, order, order2);
      MetaPoolMap(svc, Requests(pools), []);
      ops := pools + vs;
      JoinedRequests(pools, vs);
    }

    /** Build the batch and run it. */
    method Rebuild(svc: Service, ep: Endpoints, listed: Option<Service>)
      returns (err: SyncError, panicked: bool, ghost order: seq<PortProtocol>, ghost order2: seq<ListenerKey>)
      requires eps.Valid()
      modifies eps.vsCache, eps.poolCache, eps.links, eps.links.Inners(), eps.session
      ensures eps.Valid() && fresh(eps.links.Inners() - old(eps.links.Inners()))
      ensures var ran := Resync(eps.session.oracle, old(eps.Now()), svc, ep, listed, order, order2);
        panicked == ran.Died? && (!panicked ==> eps.Now() == ran.st && err == ran.err)
      ensures listed.Some? ==> var r := Resolve(listed.value, ReadyPorts(ep.subsets)); r.Found? ==>
        Enumerates(order, r.pps)
      ensures !panicked ==> Enumerates(order2, MetaOf(svc, []).poolMap.Keys)
    {
      err := NoError;
      var ops;
      ops, panicked, order, order2 := BuildBatch(svc, ep, listed);
      if panicked {
        return;
      }
      err, panicked := RunBatch(svc.Key(), ops);
    }

    /** A Service was created or updated. */
    method OnService(svc: Service, ep: Option<Endpoints>, listed: Option<Service>)
      returns (err: SyncError, panicked: bool, ghost order: seq<PortProtocol>, ghost order2: seq<ListenerKey>)
      requires eps.Valid()
      modifies eps.vsCache, eps.poolCache, eps.links, eps.links.Inners(), eps.session
      ensures eps.Valid() && fresh(eps.links.Inners() - old(eps.links.Inners()))
      ensures var ran := SyncService(eps.session.oracle, old(eps.Now()), svc, ep, listed, order, order2);
        panicked == ran.Died? && (!panicked ==> eps.Now() == ran.st && err == ran.err)
      ensures ep.Some? && listed.Some? && !UpToDate(old(eps.vsCache.cache), svc) ==>
        var r := Resolve(listed.value, ReadyPorts(ep.value.subsets)); r.Found? ==> Enumerates(order, r.pps)
      ensures ep.Some? && !UpToDate(old(eps.vsCache.cache), svc) && !panicked ==>
        Enumerates(order2, MetaOf(svc, []).poolMap.Keys)
    {
      err, panicked, order, order2 := NoError, false, [], [];
      if ep.None? {
        err := Transient("Svc ep not found");
        return;
      }
      var cached := eps.vsCache.AviCacheGet(svc.Key());
      if cached.None? || cached.value.cksum != svc.version {
        err, panicked, order, order2 := Rebuild(svc, ep.value, listed);
      }
    }

    /** The loop over the live map of links, deleting the pool behind each "service" link. */
    method DropPools(key: NamespaceName) returns (panicked: bool)
      requires eps.Valid()
      modifies eps.poolCache
      ensures eps.Valid() && panicked == ((key, "service") in eps.links.Rel())
      ensures !panicked ==> eps.poolCache.cache == old(eps.poolCache.cache) - Linked(eps.links.Rel(), key)
    {
      panicked := false;
      eps.links.KeyPresent(key);
      var found := eps.links.AviMultiCacheGetKey(key);
      if found.None? {
        NoLinks(eps.links.Rel(), key);
        return;
      }
      var ranged := Range(found.value.vals);
      BehindAll(eps.links.Rel(), key, ranged);
      panicked := DropEach(eps.poolCache, key, ranged);
    }

    /** Forget everything cached for a service. */
    method ForgetService(key: NamespaceName) returns (panicked: bool)
      requires eps.Valid()
      modifies eps.vsCache, eps.poolCache, eps.links, eps.links.Inners()
      ensures eps.Valid() && eps.links.Inners() <= old(eps.links.Inners())
      ensures panicked == ((key, "service") in old(eps.links.Rel()))
      ensures !panicked ==> eps.Now() == Forget(old(eps.Now()), key)
    {
      panicked := DropPools(key);
      if panicked {
        return;
      }
      ForgetParts(eps.Now(), old(eps.Now()), key);
      AviSvcToPoolCacheDel(eps.links, "service", key);
      eps.vsCache.AviCacheDelete(key);
    }

    /** A Service is gone. */
    method OnDelete(key: NamespaceName) returns (err: SyncError, panicked: bool)
      requires eps.Valid()
      modifies eps.vsCache, eps.poolCache, eps.links, eps.links.Inners(), eps.session
      ensures eps.Valid() && eps.links.Inners() <= old(eps.links.Inners())
      ensures var ran := DeleteService(eps.session.oracle, old(eps.Now()), key);
        panicked == ran.Died? && (!panicked ==> eps.Now() == ran.st && err == ran.err)
    {
      err, panicked := NoError, false;
      var missing := eps.session.GetObjectByName();
      if missing.Some? {
        err := Transient(missing.value);
        assert eps.links.Rel() == old(eps.links.Rel());
        return;
      }
      DeleteMacro(eps.session, key);
      assert eps.links.Rel() == old(eps.links.Rel());
      panicked := ForgetService(key);
    }
  }

  /** Deleting a virtual service through the macro API; a failure is logged and ignored. */
  method DeleteMacro(session: Session, key: NamespaceName)
    modifies session
    ensures var o := Fate(session.oracle, old(session.net.clock));
      var was := old(session.net);
      session.net == Net(if o.Applied() then EraseService(was.remote, key, o.gone) else was.remote, was.clock + 1)
  {
    var o := Fate(session.oracle, session.net.clock);
    var was := session.net;
    session.net := Net(if o.Applied() then EraseService(was.remote, key, o.gone) else was.remote, was.clock + 1);
  }

  method DropEach(poolCache: AviCache<PoolEntry>, key: NamespaceName, ranged: seq<string>) returns (panicked: bool)
    modifies poolCache
    ensures panicked == ("service" in ranged)
    ensures !panicked ==> poolCache.cache == old(poolCache.cache) - Behind(key, ranged)
  {
    panicked := false;
    for i := 0 to |ranged|
      invariant poolCache.cache == old(poolCache.cache) - Behind(key, ranged[..i])
      invariant "service" !in ranged[..i]
    {
      assert ranged[..i + 1] == ranged[..i] + [ranged[i]];
      BehindSnoc(key, ranged[..i], ranged[i]);
      SegmentsOf(ranged[i]);
      var elems := Split(ranged[i], "/");
      if elems[0] == "service" {
        if |elems| < 2 {
          return true;
        }
        poolCache.AviCacheDelete(NamespaceName(key.ns, elems[1]));
      }
    }
    assert ranged[..|ranged|] == ranged;
  }

  lemma {:induction false} NoLinks(rel: Relation, key: NamespaceName)
    requires !HasKey(rel, key)
    ensures Linked(rel, key) == {} && (key, "service") !in rel
  {
    forall p | p in rel
      ensures p.0 != key
    {
      assert p == (p.0, p.1);
    }
  }

  lemma {:induction false} ForgetParts(s: State, st: State, key: NamespaceName)
    requires s == st.(pools := st.pools - Linked(st.links, key))
    ensures Forget(st, key) == State(s.vss - {key}, s.pools, Without(s.links, key, "service"), s.net)
  {
  }

  /** The cache keys of the pools behind the "service" links among `order`. */
  ghost function Behind(key: NamespaceName, order: seq<string>): set<NamespaceName> {
    set e | e in order && Prefix(e) == "service" && PoolIn(e).Some? :: NamespaceName(key.ns, PoolIn(e).value)
  }

  lemma {:induction false} BehindSnoc(key: NamespaceName, order: seq<string>, e: string)
    ensures Behind(key, order + [e]) == Behind(key, order)
              + (if Prefix(e) == "service" && PoolIn(e).Some? then {NamespaceName(key.ns, PoolIn(e).value)} else {})
  {
  }

  lemma {:induction false} BehindAll(rel: Relation, key: NamespaceName, order: seq<string>)
    requires Enumerates(order, ValuesOf(rel, key))
    ensures Behind(key, order) == Linked(rel, key)
    ensures "service" in order <==> (key, "service") in rel
  {
    forall e
      ensures e in order <==> (key, e) in rel
    {
      assert e in ValuesOf(rel, key) <==> (key, e) in rel;
    }
  }
}
