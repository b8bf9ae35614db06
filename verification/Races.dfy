/** Two interleavings in which both workers hold the same key, and what comes of them. */
module Races {
  import opened Strings
  import opened Wrappers
  import opened Model
  import opened PoolNames
  import opened Rest
  import opened Pools
  import opened VirtualServices
  import opened Caches
  import opened Sync
  import opened Effects
  import opened Runs
  import opened Interleaving
  import opened SinglePort
  import opened Separation

  // ---------- building a run turn by turn ----------

  ghost predicate Leads(oracle: Oracle, es: seq<Turn>, t: Sys) {
    Exec(oracle, START, es) == Some(t)
  }

  lemma {:induction false} Then(oracle: Oracle, es: seq<Turn>, t: Sys, e: Turn, u: Sys)
    requires Leads(oracle, es, t) && Step(oracle, t, e) == Some(u)
    ensures Leads(oracle, es + [e], u)
  {
    assert (es + [e])[..|es|] == es;
  }

  /** What sending `req` gives when it is echoed: the result, and the far side afterwards. */
  lemma {:induction false} Sent(oracle: Oracle, net: Net, req: Request)
    requires Echoing(oracle, net.clock, 1) && req.verb == Post
    ensures var (r, net1) := SendOne(oracle, net, req);
      && Echoed(req, r) && net1.clock == net.clock + 1
      && (req.obj.PoolObj? ==> Landed(net1, req))
      && (!req.obj.PoolObj? ==> net1.remote.pools == net.remote.pools)
  {
    var o := Fate(oracle, net.clock);
    assert SendOne(oracle, net, req).0.resp == EchoOf(req, UuidOf(net.remote, req, o.uuid), o.verdict.lb);
  }

  // ---------- the Service worker ----------

  /** From the queue to a batch of one pool and the virtual service. */
  lemma {:induction false} SvcPrepares(oracle: Oracle, es: seq<Turn>, t: Sys, svc: Service, e: Endpoints,
                                       pp: PortProtocol)
    returns (more: seq<Turn>, pool: Request, vs: Request)
    requires !t.ep.Ranging?
    requires Leads(oracle, es, t) && t.svc == Idle && Simple(svc, e, pp) && Stale(t.st.pools, e, NameOf(svc, pp))
    requires var k := svc.Key(); k in t.c.svcs && t.c.svcs[k] == svc && k in t.c.eps && t.c.eps[k] == e
    requires !UpToDate(t.st.vss, svc)
    ensures PoolAt(e, NameOf(svc, pp)).Some? && pool == PoolRequest(PoolAt(e, NameOf(svc, pp)).value)
    ensures pool.obj.pool.name == NameOf(svc, pp) && Pair(svc, pool, vs)
    ensures Leads(oracle, more, t.(svc := Sending(svc, e, [pool, vs], 1, [])))
  {
    var k, name := svc.Key(), NameOf(svc, pp);
    SimpleOrders(svc, e, pp);
    SingleName(t.st.pools, e, CrudHashKey(k), name);
    pool := PoolRequest(PoolAt(e, name).value);
    vs := OnlyVs(svc, [pool]);
    SvcReaches(oracle, es, t, svc, e, pp);
    more := es + [SvcTake(k)] + [SvcLook] + [SvcCheck] + [SvcNames([pp])];
    BuildsOne(oracle, t, svc, e, name, pool);
    Then(oracle, more, t.(svc := Naming(svc, e, [name], 0, [])), SvcBuild,
        t.(svc := Naming(svc, e, [name], 1, [pool])));
    more := more + [SvcBuild];
    BuildsVs(oracle, t, svc, e, name, pool, vs);
    Then(oracle, more, t.(svc := Naming(svc, e, [name], 1, [pool])), SvcVs([]),
        t.(svc := Sending(svc, e, [pool, vs], 1, [])));
    more := more + [SvcVs([])];
  }

  lemma {:induction false} BuildsOne(oracle: Oracle, t: Sys, svc: Service, e: Endpoints, name: string, pool: Request)
    requires !t.ep.Ranging?
    requires Stale(t.st.pools, e, name) && PoolOf(e, CrudHashKey(svc.Key()), name).Some?
    requires pool == PoolRequest(PoolOf(e, CrudHashKey(svc.Key()), name).value)
    ensures Step(oracle, t.(svc := Naming(svc, e, [name], 0, [])), SvcBuild)
      == Some(t.(svc := Naming(svc, e, [name], 1, [pool])))
  {
    assert [] + [pool] == [pool];
  }

  lemma {:induction false} BuildsVs(oracle: Oracle, t: Sys, svc: Service, e: Endpoints, name: string, pool: Request,
                                    vs: Request)
    requires !t.ep.Ranging?
    requires VsOps(MetaOf(svc, [pool]), []) == [vs] && Enumerates([], MetaOf(svc, []).poolMap.Keys)
    ensures Step(oracle, t.(svc := Naming(svc, e, [name], 1, [pool])), SvcVs([]))
         == Some(t.(svc := Sending(svc, e, [pool, vs], 1, [])))
  {
    assert [pool] + [vs] == [pool, vs];
  }

  lemma {:induction false} SvcReaches(oracle: Oracle, es: seq<Turn>, t: Sys, svc: Service, e: Endpoints,
                                      pp: PortProtocol)
    requires !t.ep.Ranging?
    requires Leads(oracle, es, t) && t.svc == Idle && Simple(svc, e, pp) && !UpToDate(t.st.vss, svc)
    requires var k := svc.Key(); k in t.c.svcs && t.c.svcs[k] == svc && k in t.c.eps && t.c.eps[k] == e
    ensures Leads(oracle, es + [SvcTake(svc.Key())] + [SvcLook] + [SvcCheck] + [SvcNames([pp])],
                  t.(svc := Naming(svc, e, [NameOf(svc, pp)], 0, [])))
  {
    var k := svc.Key();
    Then(oracle, es, t, SvcTake(k), t.(svc := Chosen(svc)));
    Then(oracle, es + [SvcTake(k)], t.(svc := Chosen(svc)), SvcLook, t.(svc := Looked(svc, e)));
    Then(oracle, es + [SvcTake(k)] + [SvcLook], t.(svc := Looked(svc, e)), SvcCheck, t.(svc := Checked(svc, e)));
    assert NamesOf(svc.name, [pp]) == [NameOf(svc, pp)];
    Then(oracle, es + [SvcTake(k)] + [SvcLook] + [SvcCheck], t.(svc := Checked(svc, e)), SvcNames([pp]),
         t.(svc := Naming(svc, e, [NameOf(svc, pp)], 0, [])));
  }

  /** The Service worker sends its pool. */
  lemma {:induction false} SendFirst(oracle: Oracle, es: seq<Turn>, t: Sys, svc: Service, e: Endpoints, pool: Request,
                                     vs: Request)
    returns (u: Sys)
    requires !t.ep.Ranging?
    requires Leads(oracle, es, t) && t.svc == Sending(svc, e, [pool, vs], 1, []) && Pair(svc, pool, vs)
    requires Echoing(oracle, t.st.net.clock, 1)
    ensures Leads(oracle, es + [SvcSend], u) && u.c == t.c && u.ep == t.ep && u.st == t.st.(net := u.st.net)
    ensures u.svc.Sending? && u.svc == Sending(svc, e, [pool, vs], 1, u.svc.results)
    ensures |u.svc.results| == 1 && Echoed(pool, u.svc.results[0])
    ensures u.st.net.clock == t.st.net.clock + 1 && Landed(u.st.net, pool)
  {
    Sent(oracle, t.st.net, pool);
    u := Step(oracle, t, SvcSend).value;
    Then(oracle, es, t, SvcSend, u);
  }

  /** ... and the virtual service. */
  lemma {:induction false} SendSecond(oracle: Oracle, es: seq<Turn>, t: Sys, svc: Service, e: Endpoints, pool: Request,
                                      vs: Request)
    returns (u: Sys)
    requires !t.ep.Ranging?
    requires Leads(oracle, es, t) && t.svc.Sending? && t.svc == Sending(svc, e, [pool, vs], 1, t.svc.results)
    requires |t.svc.results| == 1 && Echoed(pool, t.svc.results[0]) && Pair(svc, pool, vs)
    requires Echoing(oracle, t.st.net.clock, 1) && Landed(t.st.net, pool)
    ensures Leads(oracle, es + [SvcSend], u) && u.c == t.c && u.ep == t.ep && u.st == t.st.(net := u.st.net)
    ensures u.svc.Filling? && u.svc == Filling(svc, e, [pool, vs], 1, u.svc.results, 0, false) && |u.svc.results| == 2
    ensures Echoed(pool, u.svc.results[0]) && Echoed(vs, u.svc.results[1])
    ensures u.st.net.clock == t.st.net.clock + 1 && Landed(u.st.net, pool)
  {
    Sent(oracle, t.st.net, vs);
    u := Step(oracle, t, SvcSend).value;
    Then(oracle, es, t, SvcSend, u);
  }

  /** `after` is `before` with the pool of that request cached. */
  ghost predicate Cached(before: PoolMap, after: PoolMap, req: Request)
    requires req.obj.PoolObj?
  {
    && PoolKey(req) in after && after == before[PoolKey(req) := after[PoolKey(req)]]
    && after[PoolKey(req)].cksum == req.obj.pool.cksum && after[PoolKey(req)].crudHashKey == req.obj.pool.crudHashKey
  }

  /** The pool is cached, then linked. */
  lemma {:induction false} FillFirst(oracle: Oracle, es: seq<Turn>, t: Sys, svc: Service, e: Endpoints, pool: Request,
                                     vs: Request)
    returns (u: Sys)
    requires !t.ep.Ranging?
    requires Leads(oracle, es, t) && t.svc.Filling? && t.svc == Filling(svc, e, [pool, vs], 1, t.svc.results, 0, false)
    requires |t.svc.results| == 2 && Pair(svc, pool, vs) && Echoed(pool, t.svc.results[0])
    ensures Leads(oracle, es + [SvcFill] + [SvcFill], u) && u.c == t.c && u.ep == t.ep
    ensures u.svc == Filling(svc, e, [pool, vs], 1, t.svc.results, 1, false)
    ensures u.st == t.st.(pools := u.st.pools, links := t.st.links + {(svc.Key(), Link(pool.obj.pool.name))})
    ensures Cached(t.st.pools, u.st.pools, pool)
  {
    var k, results := svc.Key(), t.svc.results;
    var entry := EchoedPool(pool, results[0], t.st.pools, t.st.links, k);
    var pools := t.st.pools[PoolKey(pool) := entry];
    var half := t.(st := t.st.(pools := pools), svc := Filling(svc, e, [pool, vs], 1, results, 0, true));
    Then(oracle, es, t, SvcFill, half);
    u := t.(st := half.st.(links := t.st.links + {(k, Link(pool.obj.pool.name))}),
            svc := Filling(svc, e, [pool, vs], 1, results, 1, false));
    Then(oracle, es + [SvcFill], half, SvcFill, u);
  }

  /** The virtual service is cached, and the Service worker is done. */
  lemma {:induction false} FillSecond(oracle: Oracle, es: seq<Turn>, t: Sys, svc: Service, e: Endpoints, pool: Request,
                                      vs: Request)
    returns (u: Sys)
    requires !t.ep.Ranging?
    requires Leads(oracle, es, t) && t.svc.Filling? && t.svc == Filling(svc, e, [pool, vs], 1, t.svc.results, 1, false)
    requires |t.svc.results| == 2 && Pair(svc, pool, vs) && Echoed(vs, t.svc.results[1])
    ensures Leads(oracle, es + [SvcFill] + [SvcFill], u) && u.c == t.c && u.ep == t.ep
    ensures u.svc == Idle && u.st == t.st.(vss := u.st.vss)
    ensures svc.Key() in u.st.vss && u.st.vss[svc.Key()].cksum == svc.version
  {
    assert |"Pool"| != |"VirtualService"|;
    var k, results := svc.Key(), t.svc.results;
    var entry := FillVs(t.st, k, vs, results[1]);
    var done := t.(st := t.st.(vss := t.st.vss[k := entry]), svc := Filling(svc, e, [pool, vs], 1, results, 2, false));
    Then(oracle, es, t, SvcFill, done);
    u := done.(svc := Idle);
    Then(oracle, es + [SvcFill], done, SvcFill, u);
  }

  /** A batch from its first request to its last cache operation. */
  lemma {:induction false} BatchRuns(oracle: Oracle, es: seq<Turn>, t: Sys, svc: Service, e: Endpoints, pool: Request,
                                     vs: Request)
    returns (more: seq<Turn>, u: Sys)
    requires !t.ep.Ranging?
    requires Leads(oracle, es, t) && t.svc == Sending(svc, e, [pool, vs], 1, []) && Pair(svc, pool, vs)
    requires Echoing(oracle, t.st.net.clock, 2)
    ensures Leads(oracle, more, u) && u.c == t.c && u.svc == Idle && u.ep == t.ep
    ensures u.st.net.clock == t.st.net.clock + 2 && Landed(u.st.net, pool)
    ensures u.st.links == t.st.links + {(svc.Key(), Link(pool.obj.pool.name))} && Cached(t.st.pools, u.st.pools, pool)
    ensures svc.Key() in u.st.vss && u.st.vss[svc.Key()].cksum == svc.version
  {
    var a := SendFirst(oracle, es, t, svc, e, pool, vs);
    var b := SendSecond(oracle, es + [SvcSend], a, svc, e, pool, vs);
    more := es + [SvcSend] + [SvcSend];
    var d := FillFirst(oracle, more, b, svc, e, pool, vs);
    more := more + [SvcFill] + [SvcFill];
    u := FillSecond(oracle, more, d, svc, e, pool, vs);
    more := more + [SvcFill] + [SvcFill];
  }

  // ---------- the Endpoints worker ----------

  /** From the queue to the links. */
  lemma {:induction false} EpReaches(oracle: Oracle, es: seq<Turn>, t: Sys, svc: Service, e: Endpoints,
                                     pp: PortProtocol, link: string)
    returns (more: seq<Turn>)
    requires Leads(oracle, es, t) && t.ep == Resting && Simple(svc, e, pp) && t.st.links == {(e.Key(), link)}
    requires var k := e.Key(); k in t.c.svcs && t.c.svcs[k] == svc && k in t.c.eps && t.c.eps[k] == e
    ensures Leads(oracle, more, t.(ep := Ranging(e, {link}, {}, [], "")))
  {
    var k := e.Key();
    Then(oracle, es, t, EpTake(k), t.(ep := Taken(e)));
    Then(oracle, es + [EpTake(k)], t.(ep := Taken(e)), EpLook, t.(ep := Ready(e)));
    assert ValuesOf(t.st.links, k) == {link};
    Then(oracle, es + [EpTake(k)] + [EpLook], t.(ep := Ready(e)), EpRange, t.(ep := Ranging(e, {link}, {}, [], "")));
    more := es + [EpTake(k)] + [EpLook] + [EpRange];
  }

  /** Through the one link to the names. */
  lemma {:induction false} EpVisits(oracle: Oracle, es: seq<Turn>, t: Sys, e: Endpoints, name: string)
    returns (more: seq<Turn>)
    requires t.ep == Ranging(e, {Link(name)}, {}, [], "") && Leads(oracle, es, t)
      && t.st.links == {(e.Key(), Link(name))}
    requires OwnedBy(e.name, name) && Free(e.name, '/')
    requires var q := NamespaceName(e.ns, name);
      q in t.st.pools && t.st.pools[q].crudHashKey == CrudHashKey(e.Key())
    ensures Leads(oracle, more, t.(ep := Building(e, [name], CrudHashKey(e.Key()), 0, [])))
  {
    var link, hash := Link(name), CrudHashKey(e.Key());
    LinkParts(e.name, name);
    assert {} + {link} == {link} && [] + [name] == [name];
    Then(oracle, es, t, EpLink(link), t.(ep := Ranging(e, {link}, {link}, [name], hash)));
    Then(oracle, es + [EpLink(link)], t.(ep := Ranging(e, {link}, {link}, [name], hash)), EpRanged,
         t.(ep := Building(e, [name], hash, 0, [])));
    more := es + [EpLink(link)] + [EpRanged];
  }

  /** To the batch of one pool. */
  lemma {:induction false} EpBuilds(oracle: Oracle, es: seq<Turn>, t: Sys, e: Endpoints, name: string, pool: Request)
    returns (more: seq<Turn>)
    requires t.ep == Building(e, [name], CrudHashKey(e.Key()), 0, []) && Leads(oracle, es, t)
    requires Stale(t.st.pools, e, name) && PoolAt(e, name).Some? && pool == PoolRequest(PoolAt(e, name).value)
    ensures Leads(oracle, more, t.(ep := Posting(e, [pool], [])))
  {
    var hash := CrudHashKey(e.Key());
    EpBuildsOne(oracle, t, e, name, pool);
    Then(oracle, es, t, EpBuild, t.(ep := Building(e, [name], hash, 1, [pool])));
    Then(oracle, es + [EpBuild], t.(ep := Building(e, [name], hash, 1, [pool])), EpPost,
        t.(ep := Posting(e, [pool], [])));
    more := es + [EpBuild] + [EpPost];
  }

  lemma {:induction false} EpBuildsOne(oracle: Oracle, t: Sys, e: Endpoints, name: string, pool: Request)
    requires Stale(t.st.pools, e, name) && PoolAt(e, name).Some? && pool == PoolRequest(PoolAt(e, name).value)
    ensures var hash := CrudHashKey(e.Key());
      Step(oracle, t.(ep := Building(e, [name], hash, 0, [])), EpBuild)
      == Some(t.(ep := Building(e, [name], hash, 1, [pool])))
  {
    assert [] + [pool] == [pool];
  }

  /** From the queue to the pool on the far side. */
  lemma {:induction false} EpPosts(oracle: Oracle, es: seq<Turn>, t: Sys, svc: Service, e: Endpoints, pp: PortProtocol)
    returns (more: seq<Turn>, pool: Request, u: Sys)
    requires Leads(oracle, es, t) && t.ep == Resting && Simple(svc, e, pp) && Echoing(oracle, t.st.net.clock, 1)
    requires var k := e.Key(); k in t.c.svcs && t.c.svcs[k] == svc && k in t.c.eps && t.c.eps[k] == e
    requires t.st.links == {(e.Key(), Link(NameOf(svc, pp)))} && Stale(t.st.pools, e, NameOf(svc, pp))
    requires var q := NamespaceName(e.ns, NameOf(svc, pp));
      q in t.st.pools && t.st.pools[q].crudHashKey == CrudHashKey(e.Key())
    ensures PoolAt(e, NameOf(svc, pp)).Some? && pool == PoolRequest(PoolAt(e, NameOf(svc, pp)).value)
    ensures pool.obj.pool.name == NameOf(svc, pp) && pool.tenant == e.ns && pool.obj.pool.cksum == e.version
    ensures Leads(oracle, more, u) && u.c == t.c && u.svc == t.svc && u.st == t.st.(net := u.st.net)
    ensures u.st.net.clock == t.st.net.clock + 1
    ensures u.ep.Posting? && u.ep == Posting(e, [pool], u.ep.results) && |u.ep.results| == 1
      && Echoed(pool, u.ep.results[0])
  {
    var name := NameOf(svc, pp);
    SimpleOwned(svc, e, pp);
    SingleName(t.st.pools, e, CrudHashKey(e.Key()), name);
    pool := PoolRequest(PoolAt(e, name).value);
    more := EpReaches(oracle, es, t, svc, e, pp, Link(name));
    more := EpVisits(oracle, more, t.(ep := Ranging(e, {Link(name)}, {}, [], "")), e, name);
    more := EpBuilds(oracle, more, t.(ep := Building(e, [name], CrudHashKey(e.Key()), 0, [])), e, name, pool);
    u := EpSends(oracle, more, t.(ep := Posting(e, [pool], [])), e, pool);
    more := more + [EpSend];
  }

  lemma {:induction false} EpSends(oracle: Oracle, es: seq<Turn>, t: Sys, e: Endpoints, pool: Request) returns (u: Sys)
    requires Leads(oracle, es, t) && t.ep == Posting(e, [pool], []) && pool.verb == Post && pool.obj.PoolObj?
    requires Echoing(oracle, t.st.net.clock, 1)
    ensures Leads(oracle, es + [EpSend], u) && u.c == t.c && u.svc == t.svc && u.st == t.st.(net := u.st.net)
    ensures u.st.net.clock == t.st.net.clock + 1
    ensures u.ep.Posting? && u.ep == Posting(e, [pool], u.ep.results) && |u.ep.results| == 1
      && Echoed(pool, u.ep.results[0])
  {
    Sent(oracle, t.st.net, pool);
    u := Step(oracle, t, EpSend).value;
    Then(oracle, es, t, EpSend, u);
  }

  /** It caches what it posted, however late. */
  lemma {:induction false} EpFinishes(oracle: Oracle, es: seq<Turn>, t: Sys, e: Endpoints, pool: Request)
    returns (more: seq<Turn>, u: Sys)
    requires Leads(oracle, es, t) && pool.obj.PoolObj?
    requires t.ep.Posting? && t.ep == Posting(e, [pool], t.ep.results) && |t.ep.results| == 1
      && Echoed(pool, t.ep.results[0])
    ensures Leads(oracle, more, u) && u.c == t.c && u.svc == t.svc && u.ep == Resting
    ensures u.st == t.st.(pools := u.st.pools) && Cached(t.st.pools, u.st.pools, pool)
  {
    var results := t.ep.results;
    var a := t.(ep := Caching(e, [pool], results, 0));
    Then(oracle, es, t, EpSend, a);
    var entry := EchoedPool(pool, results[0], t.st.pools, {}, e.Key());
    var b := a.(st := t.st.(pools := t.st.pools[PoolKey(pool) := entry]), ep := Caching(e, [pool], results, 1));
    Then(oracle, es + [EpSend], a, EpCache, b);
    u := b.(ep := Resting);
    Then(oracle, es + [EpSend] + [EpCache], b, EpCache, u);
    more := es + [EpSend] + [EpCache] + [EpCache];
  }

  // ---------- a deletion ----------

  /** The requests of a deletion. */
  lemma {:induction false} Deletes(oracle: Oracle, es: seq<Turn>, t: Sys, k: NamespaceName)
    returns (more: seq<Turn>, u: Sys)
    requires !t.ep.Ranging?
    requires Leads(oracle, es, t) && t.svc == Idle && k !in t.c.svcs && Echoing(oracle, t.st.net.clock, 1)
    ensures Leads(oracle, more, u) && u.c == t.c && u.ep == t.ep && u.svc == Erased(k) && u.st == t.st.(net := u.st.net)
    ensures var del := Fate(oracle, t.st.net.clock + 1);
      del.Applied() ==> u.st.net.remote == EraseService(t.st.net.remote, k, del.gone)
  {
    Then(oracle, es, t, SvcTake(k), t.(svc := Absent(k)));
    var a := t.(st := t.st.(net := t.st.net.(clock := t.st.net.clock + 1)), svc := Doomed(k));
    LooksItUp(oracle, t, k);
    Then(oracle, es + [SvcTake(k)], t.(svc := Absent(k)), SvcGet, a);
    u := AsksForDeletion(oracle, a, k);
    Then(oracle, es + [SvcTake(k)] + [SvcGet], a, SvcMacro, u);
    more := es + [SvcTake(k)] + [SvcGet] + [SvcMacro];
  }

  lemma {:induction false} LooksItUp(oracle: Oracle, t: Sys, k: NamespaceName)
    requires !t.ep.Ranging? && Echoing(oracle, t.st.net.clock, 1)
    ensures Step(oracle, t.(svc := Absent(k)), SvcGet)
         == Some(t.(st := t.st.(net := t.st.net.(clock := t.st.net.clock + 1)), svc := Doomed(k)))
  {
  }

  lemma {:induction false} AsksForDeletion(oracle: Oracle, a: Sys, k: NamespaceName) returns (u: Sys)
    requires !a.ep.Ranging? && a.svc == Doomed(k)
    ensures Step(oracle, a, SvcMacro) == Some(u) && u == a.(st := a.st.(net := u.st.net), svc := Erased(k))
    ensures u.st.net.clock == a.st.net.clock + 1
    ensures var del := Fate(oracle, a.st.net.clock);
      del.Applied() ==> u.st.net.remote == EraseService(a.st.net.remote, k, del.gone)
  {
    u := Step(oracle, a, SvcMacro).value;
  }

  /** And what follows them, for a service with a single link. */
  lemma {:induction false} Forgets(oracle: Oracle, es: seq<Turn>, t: Sys, k: NamespaceName, p: string)
    returns (more: seq<Turn>, u: Sys)
    requires !t.ep.Ranging?
    requires Leads(oracle, es, t) && t.svc == Erased(k) && t.st.links == {(k, Link(p))}
    requires Free(k.name, '/') && OwnedBy(k.name, p)
    ensures Leads(oracle, more, u) && u.c == t.c && u.svc == Idle && u.ep == t.ep && u.st.links == {}
  {
    var e, pools := Link(p), t.st.pools - {NamespaceName(k.ns, p)};
    LinkParts(k.name, p);
    assert ValuesOf(t.st.links, k) == {e} && {e} - {e} == {};
    Then(oracle, es, t, SvcRange, t.(svc := Dropping(k, {e})));
    var a := t.(st := t.st.(pools := pools), svc := Dropping(k, {}));
    Then(oracle, es + [SvcRange], t.(svc := Dropping(k, {e})), SvcDrop(e), a);
    Then(oracle, es + [SvcRange] + [SvcDrop(e)], a, SvcDropped, a.(svc := Unlinking(k, {e})));
    more, u := Unlinks(oracle, es + [SvcRange] + [SvcDrop(e)] + [SvcDropped], a.(svc := Unlinking(k, {e})), k, e);
  }

  lemma {:induction false} Unlinks(oracle: Oracle, es: seq<Turn>, t: Sys, k: NamespaceName, e: string)
    returns (more: seq<Turn>, u: Sys)
    requires !t.ep.Ranging?
    requires Leads(oracle, es, t) && t.svc == Unlinking(k, {e}) && t.st.links == {(k, e)} && Prefix(e) == "service"
    ensures Leads(oracle, more, u) && u.c == t.c && u.svc == Idle && u.ep == t.ep && u.st.links == {}
  {
    assert {e} - {e} == {} && t.st.links - {(k, e)} == {};
    var b := t.(st := t.st.(links := {}), svc := Unlinking(k, {}));
    Then(oracle, es, t, SvcUnlink(e), b);
    u := b.(st := b.st.(vss := b.st.vss - {k}), svc := Idle);
    Then(oracle, es + [SvcUnlink(e)], b, SvcForget, u);
    more := es + [SvcUnlink(e)] + [SvcForget];
  }

  // ---------- the cluster ----------

  lemma {:induction false} Changes(oracle: Oracle, es: seq<Turn>, t: Sys, e: Event)
    requires Leads(oracle, es, t) && Changed(t.c, e).Some?
    ensures Leads(oracle, es + [Change(e)], t.(c := Changed(t.c, e).value))
  {
    Then(oracle, es, t, Change(e), t.(c := Changed(t.c, e).value));
  }

  /** A Service and its Endpoints appear. */
  lemma {:induction false} BothListed(oracle: Oracle, svc: Service, e: Endpoints) returns (es: seq<Turn>, t: Sys)
    requires CleanService(svc) && CleanEndpoints(e)
    ensures Leads(oracle, es, t) && t == START.(c := t.c)
    ensures t.c == Cluster(map[svc.Key() := svc], map[e.Key() := e], map[svc.version := svc], map[e.version := e])
  {
    assert Leads(oracle, [], START);
    Changes(oracle, [], START, PutService(svc));
    var a := START.(c := Changed(START.c, PutService(svc)).value);
    Changes(oracle, [] + [Change(PutService(svc))], a, PutEndpoints(e));
    es := [] + [Change(PutService(svc))] + [Change(PutEndpoints(e))];
    t := a.(c := Changed(a.c, PutEndpoints(e)).value);
  }

  /** A Service and its Endpoints appear and are synced: one pool cached, linked and on the far side. */
  lemma {:induction false} FirstSync(oracle: Oracle, svc: Service, e: Endpoints, pp: PortProtocol)
    returns (es: seq<Turn>, t: Sys)
    requires Echoing(oracle, 0, 2) && Simple(svc, e, pp)
    ensures Leads(oracle, es, t) && t.svc == Idle && t.ep == Resting && t.st.net.clock == 2
    ensures t.c.svcs == map[svc.Key() := svc] && t.c.eps == map[svc.Key() := e]
    ensures t.c.svcLog == map[svc.version := svc] && t.c.epLog == map[e.version := e]
    ensures t.st.links == {(svc.Key(), Link(NameOf(svc, pp)))}
    ensures var q := NamespaceName(svc.ns, NameOf(svc, pp));
      q in t.st.pools && t.st.pools[q].cksum == e.version && t.st.pools[q].crudHashKey == CrudHashKey(svc.Key())
    ensures svc.Key() in t.st.vss && t.st.vss[svc.Key()].cksum == svc.version
  {
    var b;
    es, b := BothListed(oracle, svc, e);
    SingleName(b.st.pools, e, CrudHashKey(e.Key()), NameOf(svc, pp));
    var pool, vs;
    es, pool, vs := SvcPrepares(oracle, es, b, svc, e, pp);
    es, t := BatchRuns(oracle, es, b.(svc := Sending(svc, e, [pool, vs], 1, [])), svc, e, pool, vs);
  }

  // ---------- two races ----------

  /** Synced once, and the next Endpoints are posted, but not cached yet. */
  lemma {:induction false} SecondPosted(oracle: Oracle, svc: Service, e0: Endpoints, e1: Endpoints, pp: PortProtocol)
    returns (es: seq<Turn>, pool: Request, t: Sys)
    requires Echoing(oracle, 0, 3) && Simple(svc, e0, pp) && Simple(svc, e1, pp) && e0.version != e1.version
    ensures Leads(oracle, es, t) && t.svc == Idle && t.st.net.clock == 3
    ensures svc.Key() in t.c.svcs && t.st.links == {(svc.Key(), Link(NameOf(svc, pp)))}
    ensures pool.obj.PoolObj? && PoolKey(pool) == NamespaceName(svc.ns, NameOf(svc, pp))
    ensures t.ep.Posting? && t.ep == Posting(e1, [pool], t.ep.results) && |t.ep.results| == 1
      && Echoed(pool, t.ep.results[0])
  {
    var es0, s := FirstSync(oracle, svc, e0, pp);
    Changes(oracle, es0, s, PutEndpoints(e1));
    var a := s.(c := Changed(s.c, PutEndpoints(e1)).value);
    es, pool, t := EpPosts(oracle, es0 + [Change(PutEndpoints(e1))], a, svc, e1, pp);
  }

  /**
   * The reverse of the inclusion fails. The Endpoints worker has posted the pool of a linked service when the service
   * is deleted; its cache operation comes after the deletion. Both workers are done, nothing is linked, and the pool
   * is cached.
   */
  lemma {:induction false} ReverseBroken(oracle: Oracle, svc: Service, e0: Endpoints, e1: Endpoints, pp: PortProtocol)
    returns (es: seq<Turn>, t: Sys)
    requires Echoing(oracle, 0, 4) && Simple(svc, e0, pp) && Simple(svc, e1, pp) && e0.version != e1.version
    ensures Leads(oracle, es, t) && t.svc == Idle && t.ep == Resting
    ensures t.st.links == {} && NamespaceName(svc.ns, NameOf(svc, pp)) in t.st.pools
  {
    var k, name := svc.Key(), NameOf(svc, pp);
    SimpleOwned(svc, e0, pp);
    var es1, pool, b := SecondPosted(oracle, svc, e0, e1, pp);
    Changes(oracle, es1, b, DropService(k));
    var d := b.(c := Changed(b.c, DropService(k)).value);
    var es2, f := Deletes(oracle, es1 + [Change(DropService(k))], d, k);
    var es3, g := Forgets(oracle, es2, f, k, name);
    es, t := EpFinishes(oracle, es3, g, e1, pool);
  }

  /**
   * An overlap that ends stale. The Service worker has built its pool from Endpoints `e1` when `e2` arrives; the
   * Endpoints worker posts first and caches last. Both workers are done, the current Endpoints are `e2`, the cache has
   * their version, so the pool is skipped from now on, and the far side has the pool of `e1`.
   */
  lemma {:induction false} StaleOverlap(oracle: Oracle, s1: Service, s2: Service, e0: Endpoints, e1: Endpoints,
                                        e2: Endpoints, pp: PortProtocol)
    returns (es: seq<Turn>, t: Sys)
    requires Echoing(oracle, 0, 5) && Simple(s1, e0, pp) && Simple(s2, e1, pp) && Simple(s2, e2, pp)
    requires s1.Key() == s2.Key() && s1.version != s2.version
    requires e0.version != e1.version && e0.version != e2.version && e1.version != e2.version
    ensures Leads(oracle, es, t) && t.svc == Idle && t.ep == Resting
    ensures var k, name := s2.Key(), NameOf(s2, pp);
      var q := NamespaceName(k.ns, name);
      && k in t.c.eps && t.c.eps[k] == e2 && !Stale(t.st.pools, e2, name) && (k, Link(name)) in t.st.links
      && q in t.st.net.remote.pools && Some(t.st.net.remote.pools[q].pool) == PoolAt(e1, name) != PoolAt(e2, name)
  {
    var k, name := s2.Key(), NameOf(s2, pp);
    var es0, s := FirstSync(oracle, s1, e0, pp);
    Changes(oracle, es0, s, PutService(s2));
    var a := s.(c := Changed(s.c, PutService(s2)).value);
    var es1 := es0 + [Change(PutService(s2))];
    Changes(oracle, es1, a, PutEndpoints(e1));
    var b := a.(c := Changed(a.c, PutEndpoints(e1)).value);
    var es2, r1, vs := SvcPrepares(oracle, es1 + [Change(PutEndpoints(e1))], b, s2, e1, pp);
    var d := b.(svc := Sending(s2, e1, [r1, vs], 1, []));
    Changes(oracle, es2, d, PutEndpoints(e2));
    var f := d.(c := Changed(d.c, PutEndpoints(e2)).value);
    var es3, r2, g := EpPosts(oracle, es2 + [Change(PutEndpoints(e2))], f, s2, e2, pp);
    var es4, h := BatchRuns(oracle, es3, g, s2, e1, r1, vs);
    es, t := EpFinishes(oracle, es4, h, e2, r2);
  }

  /** Such endings come from nothing else: in every run that ends like either of the two, both workers held one key. */
  lemma {:induction false} OnlySharedKeysRace(oracle: Oracle, es: seq<Turn>, t: Sys, k: NamespaceName, p: string)
    requires Faithful(oracle) && FreshUuids(oracle) && Leads(oracle, es, t) && t.svc == Idle && t.ep == Resting
    requires OwnedBy(k.name, p)
    requires
      || (NamespaceName(k.ns, p) in t.st.pools && (k, Link(p)) !in t.st.links)
      || (k in t.c.eps && !Stale(t.st.pools, t.c.eps[k], p) && !Posted(t.st.net.remote, t.c.eps[k], k, p))
    ensures !StayApart(oracle, es)
  {
    if StayApart(oracle, es) {
      CachesAgree(oracle, es, k, p);
      SkipsStaySound(oracle, es, k, p);
    }
  }

  // ---------- while a service is being deleted ----------

  lemma {:induction false} BeforeLastWord(a: string, b: string)
    requires Free(b, '-')
    ensures BeforeLast(a + "-" + b) == a
  {
    var s := a + "-" + b;
    if b == "" {
      assert s[..|s| - 1] == a;
    } else {
      assert s[|s| - 1] == b[|b| - 1];
      assert s[..|s| - 1] == a + "-" + b[..|b| - 1];
      BeforeLastWord(a, b[..|b| - 1]);
    }
  }

  lemma {:induction false} OwnedIsOwns(n: string, p: string)
    requires OwnedBy(n, p)
    ensures Owns(n, p)
  {
    var port, protocol :| CleanPort(port) && CleanWord(protocol) && p == Print(n, port, protocol);
    var rest := port + "-" + protocol;
    assert p == (n + POOL) + rest && p[|n| + 6..] == rest && rest[|port|] == '-';
    BeforeLastWord(port, protocol);
  }

  /** A Service is synced, and then it is gone. */
  lemma {:induction false} SyncedAndDropped(oracle: Oracle, svc: Service, e: Endpoints, pp: PortProtocol)
    returns (es: seq<Turn>, t: Sys)
    requires Echoing(oracle, 0, 2) && Simple(svc, e, pp)
    ensures Leads(oracle, es, t) && t.svc == Idle && t.ep == Resting && t.st.net.clock == 2
    ensures svc.Key() !in t.c.svcs && svc.Key() in t.c.eps && t.c.eps[svc.Key()] == e
    ensures !Stale(t.st.pools, e, NameOf(svc, pp))
  {
    var es0, s := FirstSync(oracle, svc, e, pp);
    Changes(oracle, es0, s, DropService(svc.Key()));
    es := es0 + [Change(DropService(svc.Key()))];
    t := s.(c := Changed(s.c, DropService(svc.Key())).value);
  }

  /**
   * The exception for a service being deleted is needed: once its virtual service is deleted, and its pool with it, the
   * pool is still cached at the current version until the Service worker gets to it.
   */
  lemma {:induction false} DeletionExposes(oracle: Oracle, svc: Service, e: Endpoints, pp: PortProtocol)
    returns (es: seq<Turn>, t: Sys)
    requires Echoing(oracle, 0, 4) && Simple(svc, e, pp) && NameOf(svc, pp) in oracle[3].gone
    ensures Leads(oracle, es, t) && t.ep == Resting && Deleting(t, svc.Key())
    ensures svc.Key() in t.c.eps && !Stale(t.st.pools, t.c.eps[svc.Key()], NameOf(svc, pp))
    ensures NamespaceName(svc.ns, NameOf(svc, pp)) !in t.st.net.remote.pools
  {
    var k, name := svc.Key(), NameOf(svc, pp);
    SimpleOwned(svc, e, pp);
    OwnedIsOwns(svc.name, name);
    var es1, a := SyncedAndDropped(oracle, svc, e, pp);
    es, t := Deletes(oracle, es1, a, k);
    ErasesOwn(a.st.net.remote, k, oracle[3].gone, name);
  }

  lemma {:induction false} ErasesOwn(remote: Remote, k: NamespaceName, gone: set<string>, p: string)
    requires Owns(k.name, p) && p in gone
    ensures NamespaceName(k.ns, p) !in EraseService(remote, k, gone).pools
  {
  }
}
