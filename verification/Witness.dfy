/** Runs that show what the theorems speak about, and two that show what the code does not promise. */
module Witness {
  import opened Wrappers
  import opened Model
  import opened Rest
  import opened Pools
  import opened Sync
  import opened Effects
  import opened Runs
  import opened Compensation
  import opened SinglePort

  const NOTHING := World(Cluster(map[], map[], map[], map[]), State(map[], map[], {}, Net(Remote(map[], map[]), 0)))

  // ---------- building a run step by step ----------

  /** A run that ends in `w`. */
  ghost predicate Ends(oracle: Oracle, ws: seq<World>, es: seq<Event>, w: World) {
    Run(oracle, ws, es) && ws[|es|] == w
  }

  lemma {:induction false} Then(oracle: Oracle, ws: seq<World>, es: seq<Event>, w: World, e: Event, t: World)
    requires Ends(oracle, ws, es, w) && Next(oracle, w, e, t)
    ensures Ends(oracle, ws + [t], es + [e], t)
  {
    var us, fs := ws + [t], es + [e];
    forall i | 0 <= i < |fs|
      ensures Next(oracle, us[i], fs[i], us[i + 1])
    {
      if i < |es| {
        assert us[i] == ws[i] && us[i + 1] == ws[i + 1] && fs[i] == es[i];
      }
    }
  }

  /** A Service key is processed. */
  lemma {:induction false} ThenSync(oracle: Oracle, ws: seq<World>, es: seq<Event>, w: World, k: NamespaceName,
                                    pp: PortProtocol, ran: Ran)
    requires Ends(oracle, ws, es, w) && k in w.cluster.svcs && k in w.cluster.eps
    requires ServiceOrders(w.cluster.svcs[k], w.cluster.eps[k], [pp], [])
    requires ran == SyncService(oracle, w.st, w.cluster.svcs[k], Some(w.cluster.eps[k]), Some(w.cluster.svcs[k]), [pp],
        [])
    requires ran.Ran?
    ensures Ends(oracle, ws + [w.(st := ran.st)], es + [ServiceKey(k, [pp], [])], w.(st := ran.st))
  {
    assert ServiceStep(oracle, w, k, [pp], [], ran);
    Then(oracle, ws, es, w, ServiceKey(k, [pp], []), w.(st := ran.st));
  }

  function WithService(w: World, svc: Service): World {
    w.(cluster := w.cluster.(svcs := w.cluster.svcs[svc.Key() := svc], svcLog := w.cluster.svcLog[svc.version := svc]))
  }

  function WithEndpoints(w: World, ep: Endpoints): World {
    w.(cluster := w.cluster.(eps := w.cluster.eps[ep.Key() := ep], epLog := w.cluster.epLog[ep.version := ep]))
  }

  lemma {:induction false} ThenService(oracle: Oracle, ws: seq<World>, es: seq<Event>, w: World, svc: Service)
    requires Ends(oracle, ws, es, w) && CleanService(svc) && svc.version !in w.cluster.svcLog
    ensures Ends(oracle, ws + [WithService(w, svc)], es + [PutService(svc)], WithService(w, svc))
  {
    Then(oracle, ws, es, w, PutService(svc), WithService(w, svc));
  }

  lemma {:induction false} ThenEndpoints(oracle: Oracle, ws: seq<World>, es: seq<Event>, w: World, ep: Endpoints)
    requires Ends(oracle, ws, es, w) && CleanEndpoints(ep) && ep.version !in w.cluster.epLog
    ensures Ends(oracle, ws + [WithEndpoints(w, ep)], es + [PutEndpoints(ep)], WithEndpoints(w, ep))
  {
    Then(oracle, ws, es, w, PutEndpoints(ep), WithEndpoints(w, ep));
  }

  // ---------- what the syncs of a single-port Service do ----------

  /** What a state holds once the service has been synced with `ep`. */
  ghost predicate Synced(st: State, svc: Service, ep: Endpoints, name: string) {
    var k, q := svc.Key(), NamespaceName(svc.ns, name);
    && UpToDate(st.vss, svc) && st.links == {(k, Link(name))}
    && q in st.pools && st.pools[q].cksum == ep.version
    && k in st.net.remote.vss && st.net.remote.vss[k].vs.defaultPool == name
    && q in st.net.remote.pools && PoolAt(ep, name) == Some(st.net.remote.pools[q].pool)
  }

  /** One echoed request. */
  lemma {:induction false} SendEchoed(oracle: Oracle, net: Net, req: Request)
    requires Echoing(oracle, net.clock, 1) && req.verb == Post
    ensures var (r, net1) := SendOne(oracle, net, req);
      && Echoed(req, r) && net1 == Net(Write(net.remote, req, Fate(oracle, net.clock).uuid), net.clock + 1)
  {
    var o := Fate(oracle, net.clock);
    assert SendOne(oracle, net, req).0.resp == EchoOf(req, UuidOf(net.remote, req, o.uuid), o.verdict.lb);
  }

  /** A batch of the virtual service alone. */
  lemma {:induction false} VsAloneCommits(oracle: Oracle, st: State, svc: Service, vs: Request)
    requires OnlyVsOf(svc, vs) && Echoing(oracle, st.net.clock, 1)
    ensures var ran := Batched(oracle, st, svc.Key(), [vs]);
      && ran.Ran? && ran.err == NoError && ran.ops == [vs]
      && ran.st.pools == st.pools && ran.st.links == st.links && UpToDate(ran.st.vss, svc)
      && ran.st.net.remote.pools == st.net.remote.pools
      && svc.Key() in ran.st.net.remote.vss && ran.st.net.remote.vss[svc.Key()].vs == vs.obj.vs
  {
    SendEchoed(oracle, st.net, vs);
    var (r, net) := SendOne(oracle, st.net, vs);
    assert [vs][1..] == [] && [vs][..0] == [] && [r][..0] == [];
    assert Operate(oracle, net, []) == Batch([], net, None);
    assert Operate(oracle, st.net, [vs]) == Batch([r], net, None);
    var s := st.(net := net);
    var entry := FillVs(s, svc.Key(), vs, r);
    assert Fill(s, svc.Key(), [], []) == Some(s);
    assert Fill(s, svc.Key(), [vs], [r]) == FillOne(s, svc.Key(), vs, r);
  }

  /** A batch of one pool and the virtual service, both echoed. */
  lemma {:induction false} PairSent(oracle: Oracle, net: Net, pool: Request, vs: Request) returns (r: Result, s: Result)
    requires pool.verb == Post && vs.verb == Post && pool.obj.PoolObj? && vs.obj.VsObj? && Echoing(oracle, net.clock, 2)
    ensures var b := Operate(oracle, net, [pool, vs]);
      var q, k := PoolKey(pool), NamespaceName(vs.tenant, vs.obj.vs.name);
      && b.results == [r, s] && b.err == None && Echoed(pool, r) && Echoed(vs, s) && b.net.clock == net.clock + 2
      && q in b.net.remote.pools && b.net.remote.pools[q].pool == pool.obj.pool
      && k in b.net.remote.vss && b.net.remote.vss[k].vs == vs.obj.vs
  {
    SendEchoed(oracle, net, pool);
    r := SendOne(oracle, net, pool).0;
    var net1 := SendOne(oracle, net, pool).1;
    SendEchoed(oracle, net1, vs);
    s := SendOne(oracle, net1, vs).0;
    var net2 := SendOne(oracle, net1, vs).1;
    assert [pool, vs][1..] == [vs] && [vs][1..] == [];
    assert Operate(oracle, net2, []) == Batch([], net2, None);
    assert Operate(oracle, net1, [vs]) == Batch([s], net2, None);
    assert [r] + [s] == [r, s];
  }

  lemma {:induction false} PairFilled(st: State, svc: Service, pool: Request, vs: Request, r: Result, s: Result)
    returns (t: State)
    requires Pair(svc, pool, vs) && Echoed(pool, r) && Echoed(vs, s)
    ensures Fill(st, svc.Key(), [pool, vs], [r, s]) == Some(t)
    ensures t.net == st.net && t.links == st.links + {(svc.Key(), Link(pool.obj.pool.name))} && UpToDate(t.vss, svc)
    ensures PoolKey(pool) in t.pools && t.pools[PoolKey(pool)].cksum == pool.obj.pool.cksum
  {
    var k := svc.Key();
    assert [pool, vs][..1] == [pool] && [r, s][..1] == [r] && [pool][..0] == [] && [r][..0] == [];
    assert Fill(st, k, [], []) == Some(st);
    var entry := FillPool(st, k, pool, r);
    var mid := FillOne(st, k, pool, r).value;
    assert Fill(st, k, [pool], [r]) == Some(mid);
    var entry2 := FillVs(mid, k, vs, s);
    t := FillOne(mid, k, vs, s).value;
  }

  lemma {:induction false} PairCommits(oracle: Oracle, st: State, svc: Service, pool: Request, vs: Request)
    requires Pair(svc, pool, vs) && Echoing(oracle, st.net.clock, 2)
    ensures var ran := Batched(oracle, st, svc.Key(), [pool, vs]);
      && ran.Ran? && ran.err == NoError && ran.ops == [pool, vs] && ran.st.net.clock == st.net.clock + 2
      && ran.st.links == st.links + {(svc.Key(), Link(pool.obj.pool.name))} && UpToDate(ran.st.vss, svc)
      && PoolKey(pool) in ran.st.pools && ran.st.pools[PoolKey(pool)].cksum == pool.obj.pool.cksum
      && PoolKey(pool) in ran.st.net.remote.pools && ran.st.net.remote.pools[PoolKey(pool)].pool == pool.obj.pool
      && svc.Key() in ran.st.net.remote.vss && ran.st.net.remote.vss[svc.Key()].vs == vs.obj.vs
  {
    var r, s := PairSent(oracle, st.net, pool, vs);
    var t := PairFilled(st.(net := Operate(oracle, st.net, [pool, vs]).net), svc, pool, vs, r, s);
  }

  /** The first sync of a Service. */
  lemma {:induction false} FirstSync(oracle: Oracle, st: State, svc: Service, ep: Endpoints, pp: PortProtocol)
    returns (ran: Ran)
    requires Simple(svc, ep, pp) && Echoing(oracle, st.net.clock, 2) && st.vss == map[] && st.pools == map[]
      && st.links == {}
    ensures ran == SyncService(oracle, st, svc, Some(ep), Some(svc), [pp], []) && ran.Ran?
    ensures Synced(ran.st, svc, ep, NameOf(svc, pp)) && ran.st.net.clock == st.net.clock + 2
  {
    var pool, vs := TwoOps(st.pools, svc, ep, pp);
    SingleName(st.pools, ep, CrudHashKey(ep.Key()), NameOf(svc, pp));
    PairCommits(oracle, st, svc, pool, vs);
    ran := Batched(oracle, st, svc.Key(), [pool, vs]);
    assert Resync(oracle, st, svc, ep, Some(svc), [pp], []) == ran;
  }

  // ---------- the runs ----------

  function Both(svc: Service, ep: Endpoints): World {
    WithEndpoints(WithService(NOTHING, svc), ep)
  }

  lemma {:induction false} BothListed(oracle: Oracle, svc: Service, ep: Endpoints)
    returns (ws: seq<World>, es: seq<Event>)
    requires CleanService(svc) && CleanEndpoints(ep)
    ensures Ends(oracle, ws, es, Both(svc, ep))
  {
    assert Ends(oracle, [NOTHING], [], NOTHING);
    ThenService(oracle, [NOTHING], [], NOTHING, svc);
    ThenEndpoints(oracle, [NOTHING] + [WithService(NOTHING, svc)], [] + [PutService(svc)], WithService(NOTHING, svc),
        ep);
    ws := [NOTHING] + [WithService(NOTHING, svc)] + [Both(svc, ep)];
    es := [] + [PutService(svc)] + [PutEndpoints(ep)];
  }

  /** A run that ends with the Service synced: linked, cached, and on the far side. */
  lemma {:induction false} SyncedRunExists(oracle: Oracle, svc: Service, ep: Endpoints, pp: PortProtocol)
    returns (ws: seq<World>, es: seq<Event>, w: World)
    requires Echoing(oracle, 0, 2) && Simple(svc, ep, pp)
    ensures Ends(oracle, ws, es, w) && w == Both(svc, ep).(st := w.st)
    ensures Synced(w.st, svc, ep, NameOf(svc, pp)) && w.st.net.clock == 2
  {
    var b := Both(svc, ep);
    var ws0, es0 := BothListed(oracle, svc, ep);
    SimpleOrders(svc, ep, pp);
    var ran := FirstSync(oracle, b.st, svc, ep, pp);
    ThenSync(oracle, ws0, es0, b, svc.Key(), pp, ran);
    w := b.(st := ran.st);
    ws, es := ws0 + [w], es0 + [ServiceKey(svc.Key(), [pp], [])];
  }

  /**
   * A default pool is lost. The Service gets a new version while its Endpoints stay the same; the pool is skipped, and
   * the virtual service is posted without it, although it named it before and the pool is still on the far side.
   */
  lemma {:induction false} DefaultPoolLost(oracle: Oracle, s1: Service, s2: Service, ep: Endpoints, pp: PortProtocol)
    returns (ws: seq<World>, es: seq<Event>, before: World, after: World)
    requires Echoing(oracle, 0, 3) && Simple(s1, ep, pp) && Simple(s2, ep, pp) && s1.version != s2.version
    ensures Ends(oracle, ws, es, after) && |ws| >= 2 && ws[|ws| - 2] == before
    ensures var k, q, name := s2.Key(), NamespaceName(s2.ns, NameOf(s2, pp)), NameOf(s2, pp);
      && es[|es| - 1] == ServiceKey(k, [pp], []) && before.cluster == after.cluster && name != ""
      && k in before.st.net.remote.vss && before.st.net.remote.vss[k].vs.defaultPool == name
      && k in after.st.net.remote.vss && after.st.net.remote.vss[k].vs.defaultPool == ""
      && UpToDate(after.st.vss, s2) && q in after.st.net.remote.pools
  {
    var k := s2.Key();
    var ws0, es0, w := SyncedRunExists(oracle, s1, ep, pp);
    ThenService(oracle, ws0, es0, w, s2);
    before := WithService(w, s2);
    ws, es := ws0 + [before], es0 + [PutService(s2)];
    var vs := OneOp(w.st.pools, s2, ep, pp);
    VsAloneCommits(oracle, w.st, s2, vs);
    SimpleOrders(s2, ep, pp);
    var ran := Batched(oracle, w.st, k, [vs]);
    assert Resync(oracle, w.st, s2, ep, Some(s2), [pp], []) == ran;
    ThenSync(oracle, ws, es, before, k, pp, ran);
    after := before.(st := ran.st);
    ws, es := ws + [after], es + [ServiceKey(k, [pp], [])];
    assert |NameOf(s2, pp)| > 0;
  }

  // ---------- a pool lost to a rollback ----------

  /** The next requests: one echoed, one failing, and a delete that takes effect. */
  ghost predicate FailsAtVs(oracle: Oracle, from: nat) {
    && from + 3 <= |oracle| && oracle[from].verdict.Echo? && oracle[from + 1].verdict.Failure?
    && oracle[from + 2].Applied()
  }

  lemma {:induction false} PairFails(oracle: Oracle, net: Net, pool: Request, vs: Request)
    requires pool.verb == Post && vs.verb == Post && pool.obj.PoolObj? && FailsAtVs(oracle, net.clock)
    ensures var b := Operate(oracle, net, [pool, vs]);
      b.err.Some? && b.results[0].Succeeded? && b.results[1].Failed? && b.net.clock == net.clock + 2
  {
    var net1 := SendOne(oracle, net, pool).1;
    assert [pool, vs][1..] == [vs];
    assert net1.clock == net.clock + 1;
  }

  /** The rollback of such a batch sends one delete. */
  lemma {:induction false} PairUndone(oracle: Oracle, net: Net, pool: Request, vs: Request, results: seq<Result>)
    requires |results| == 2 && results[1].Failed?
    ensures UndoAll(oracle, net, [pool, vs], results).net.clock <= net.clock + 1
  {
    var u := UndoOf(pool, results[0]);
    assert [pool, vs][..1] == [pool] && [pool][..0] == [] && results[..1][..0] == [];
    UndoSkipsLast(oracle, net, [pool, vs], results);
  }

  /** A batch that replaces an existing pool and then fails loses that pool. */
  lemma {:induction false} PairRolledBack(oracle: Oracle, st: State, svc: Service, pool: Request, vs: Request)
    requires Faithful(oracle) && Pair(svc, pool, vs) && FailsAtVs(oracle, st.net.clock)
    ensures var ran := Batched(oracle, st, svc.Key(), [pool, vs]);
      && ran.Ran? && ran.err.Transient? && ran.st == st.(net := ran.st.net)
      && PoolKey(pool) !in ran.st.net.remote.pools
  {
    PairFails(oracle, st.net, pool, vs);
    var b := Operate(oracle, st.net, [pool, vs]);
    PairUndone(oracle, b.net, pool, vs, b.results);
    assert ServiceBatch([pool, vs], 1);
    var stop := RollbackPlan(oracle, st.net, [pool, vs], 1);
    RollbackRemoves(oracle, st.net, [pool, vs], 1, 0);
  }

  /**
   * An existing pool is lost. Service and Endpoints have moved on; the pool is replaced, the virtual service fails, and
   * the rollback deletes the pool that was there before. It is still in the pool cache.
   */
  lemma {:induction false} PoolLostToRollback(oracle: Oracle, s1: Service, s2: Service, e0: Endpoints, e1: Endpoints,
                                              pp: PortProtocol)
    returns (ws: seq<World>, es: seq<Event>, before: World, after: World)
    requires Faithful(oracle) && Echoing(oracle, 0, 2) && FailsAtVs(oracle, 2)
    requires Simple(s1, e0, pp) && Simple(s2, e1, pp) && s1.Key() == s2.Key()
    requires s1.version != s2.version && e0.version != e1.version
    ensures Ends(oracle, ws, es, after) && |ws| >= 2 && ws[|ws| - 2] == before
    ensures var q := NamespaceName(s2.ns, NameOf(s2, pp));
      && es[|es| - 1] == ServiceKey(s2.Key(), [pp], [])
      && q in before.st.net.remote.pools && q !in after.st.net.remote.pools && q in after.st.pools
  {
    var k := s2.Key();
    var ws0, es0, w := SyncedRunExists(oracle, s1, e0, pp);
    ThenService(oracle, ws0, es0, w, s2);
    var w1 := WithService(w, s2);
    ws, es := ws0 + [w1], es0 + [PutService(s2)];
    ThenEndpoints(oracle, ws, es, w1, e1);
    before := WithEndpoints(w1, e1);
    ws, es := ws + [before], es + [PutEndpoints(e1)];
    var pool, vs := TwoOps(w.st.pools, s2, e1, pp);
    SingleName(w.st.pools, e1, CrudHashKey(e1.Key()), NameOf(s2, pp));
    PairRolledBack(oracle, w.st, s2, pool, vs);
    SimpleOrders(s2, e1, pp);
    var ran := Batched(oracle, w.st, k, [pool, vs]);
    assert Resync(oracle, w.st, s2, e1, Some(s2), [pp], []) == ran;
    ThenSync(oracle, ws, es, before, k, pp, ran);
    after := before.(st := ran.st);
    ws, es := ws + [after], es + [ServiceKey(k, [pp], [])];
  }
}
