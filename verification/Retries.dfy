/** A failed service sync and its retry: nothing is cached, and map orders do not change what is asked for. */
module Retries {
  import opened Strings
  import opened Wrappers
  import opened Model
  import opened PoolNames
  import opened Rest
  import opened Pools
  import opened VirtualServices
  import opened Sync
  import opened Runs

  // ---------- lists that differ by their order only ----------

  /** A list looked up element by element. */
  function Through<A, B>(m: map<A, B>, s: seq<A>): (r: seq<B>)
    requires forall x :: x in s ==> x in m
    ensures |r| == |s| && forall i :: 0 <= i < |s| ==> r[i] == m[s[i]]
  {
    seq(|s|, i requires 0 <= i < |s| => assert s[i] in s; m[s[i]])
  }

  function Dropped<A>(s: seq<A>, j: nat): seq<A>
    requires j < |s|
  {
    s[..j] + s[j + 1..]
  }

  lemma {:induction false} DroppedOnce<A>(s: seq<A>, j: nat)
    requires j < |s|
    ensures multiset(Dropped(s, j)) == multiset(s) - multiset{s[j]}
  {
    assert s == s[..j] + [s[j]] + s[j + 1..];
  }

  lemma {:induction false} ThroughDropped<A, B>(m: map<A, B>, s: seq<A>, j: nat)
    requires j < |s| && forall x :: x in s ==> x in m
    ensures multiset(Through(m, s)) == multiset(Through(m, Dropped(s, j))) + multiset{m[s[j]]}
  {
    var r := Through(m, s);
    assert Dropped(r, j) == Through(m, Dropped(s, j));
    DroppedOnce(r, j);
    assert r[j] in multiset(r);
  }

  lemma {:induction false} ThroughPermuted<A, B>(m: map<A, B>, s: seq<A>, t: seq<A>)
    requires multiset(s) == multiset(t) && forall x :: x in s || x in t ==> x in m
    ensures multiset(Through(m, s)) == multiset(Through(m, t))
    decreases |s|
  {
    if s == [] {
      assert |multiset(t)| == |t|;
    } else {
      assert s[0] in multiset(t);
      var j :| 0 <= j < |t| && t[j] == s[0];
      DroppedOnce(s, 0);
      DroppedOnce(t, j);
      ThroughPermuted(m, Dropped(s, 0), Dropped(t, j));
      ThroughDropped(m, s, 0);
      ThroughDropped(m, t, j);
    }
  }

  /** Port and pool of each rule. */
  function Routes(rules: seq<Rule>): seq<(int, string)> {
    seq(|rules|, i requires 0 <= i < |rules| => (rules[i].port, rules[i].pool))
  }

  /** Two requests that differ at most in the order of their pool selectors or of their rules' routes. */
  ghost predicate SameRequest(a: Request, b: Request) {
    match a.obj
    case VsObj(v) =>
      && b.obj.VsObj? && a == b.(obj := VsObj(b.obj.vs.(selectors := v.selectors)))
      && multiset(v.selectors) == multiset(b.obj.vs.selectors)
    case HpsObj(h) =>
      && b.obj.HpsObj? && a == b.(obj := HpsObj(b.obj.hps.(rules := h.rules)))
      && |h.rules| == |b.obj.hps.rules| && multiset(Routes(h.rules)) == multiset(Routes(b.obj.hps.rules))
      && forall i :: 0 <= i < |h.rules| ==>
         h.rules[i].name == b.obj.hps.rules[i].name && h.rules[i].index == b.obj.hps.rules[i].index
    case PoolObj(_) => a == b
  }

  ghost predicate SameRequests(a: seq<Request>, b: seq<Request>) {
    |a| == |b| && forall i :: 0 <= i < |a| ==> SameRequest(a[i], b[i])
  }

  lemma {:induction false} SelectorsPermuted(pm: map<ListenerKey, string>, s: seq<ListenerKey>, t: seq<ListenerKey>)
    requires Enumerates(s, pm.Keys) && Enumerates(t, pm.Keys)
    ensures multiset(Selectors(pm, s)) == multiset(Selectors(pm, t))
  {
    SamePermutation(s, t);
    var m := map k | k in pm :: SelectorOf(k, pm[k]);
    ThroughPermuted(m, s, t);
    SelectorsThrough(pm, m, s);
    SelectorsThrough(pm, m, t);
  }

  lemma {:induction false} SelectorsThrough(pm: map<ListenerKey, string>, m: map<ListenerKey, Selector>,
                                            s: seq<ListenerKey>)
    requires Enumerates(s, pm.Keys)
    requires m == map k | k in pm :: SelectorOf(k, pm[k])
    ensures Selectors(pm, s) == Through(m, s)
  {
    assert forall i :: 0 <= i < |s| ==> s[i] in s;
  }

  lemma {:induction false} RoutesPermuted(name: string, pm: map<ListenerKey, string>, s: seq<ListenerKey>,
                                          t: seq<ListenerKey>)
    requires Enumerates(s, pm.Keys) && Enumerates(t, pm.Keys)
    ensures |s| == |t| && multiset(Routes(Rules(name, pm, s))) == multiset(Routes(Rules(name, pm, t)))
  {
    SamePermutation(s, t);
    assert |multiset(s)| == |s| && |multiset(t)| == |t|;
    var m := map k | k in pm :: (k.port, pm[k]);
    ThroughPermuted(m, s, t);
    RoutesThrough(name, pm, m, s);
    RoutesThrough(name, pm, m, t);
  }

  lemma {:induction false} RoutesThrough(name: string, pm: map<ListenerKey, string>, m: map<ListenerKey, (int,
                                         string)>, s: seq<ListenerKey>)
    requires Enumerates(s, pm.Keys) && m == map k | k in pm :: (k.port, pm[k])
    ensures Routes(Rules(name, pm, s)) == Through(m, s)
  {
    assert forall i :: 0 <= i < |s| ==> s[i] in s;
  }

  /** The order in which the pool map is ranged over shows only in the order of selectors and routes. */
  lemma {:induction false} VsOpsPermuted(meta: VsMeta, s: seq<ListenerKey>, t: seq<ListenerKey>)
    requires Enumerates(s, meta.poolMap.Keys) && Enumerates(t, meta.poolMap.Keys)
    ensures SameRequests(VsOps(meta, s), VsOps(meta, t))
  {
    SelectorsPermuted(meta.poolMap, s, t);
    RoutesPermuted(PolicyName(meta), meta.poolMap, s, t);
  }

  // ---------- the same requests, whatever the orders ----------

  lemma {:induction false} NamesIncluded(prefix: string, s: seq<PortProtocol>, t: seq<PortProtocol>, x: string)
    requires (forall pp :: pp in s ==> pp in t) && x in NamesOf(prefix, s)
    ensures x in NamesOf(prefix, t)
  {
    var i :| 0 <= i < |s| && NamesOf(prefix, s)[i] == x;
    assert s[i] in t;
    var j :| 0 <= j < |t| && t[j] == s[i];
    assert NamesOf(prefix, t)[j] == x;
  }

  /** The pool requests of a service sync do not depend on the order in which the port map is ranged over. */
  lemma {:induction false} PoolPartAnyOrder(pools: PoolMap, svc: Service, ep: Endpoints, order: seq<PortProtocol>,
                                            other: seq<PortProtocol>)
    requires CleanService(svc) && CleanEndpoints(ep)
    requires var r := Resolve(svc, ReadyPorts(ep.subsets)); r.Found? ==>
      Enumerates(order, r.pps) && Enumerates(other, r.pps)
    ensures var a, b := PoolPart(pools, svc, ep, Some(svc), order), PoolPart(pools, svc, ep, Some(svc), other);
      (a.Panicked? <==> b.Panicked?) && (a.Ops? && b.Ops? ==> multiset(a.reqs) == multiset(b.reqs))
  {
    if Resolve(svc, ReadyPorts(ep.subsets)).Found? {
      CleanNames(svc, ep, order);
      CleanNames(svc, ep, other);
      var s, t := NamesOf(svc.name, order), NamesOf(svc.name, other);
      forall x
        ensures x in s <==> x in t
      {
        if x in s { NamesIncluded(svc.name, order, other, x); }
        if x in t { NamesIncluded(svc.name, other, order, x); }
      }
      BuildOpsAnyOrder(pools, ep, CrudHashKey(svc.Key()), s, t);
    }
  }

  /** The default pool is the same unless a single-port Service has several pools to choose from. */
  lemma {:induction false} DefaultPoolAnyOrder(svc: Service, a: seq<Request>, b: seq<Request>)
    requires multiset(a) == multiset(b) && (|svc.ports| != 1 || |a| <= 1)
    ensures MetaOf(svc, a) == MetaOf(svc, b)
  {
    assert |multiset(a)| == |a| && |multiset(b)| == |b|;
    if |a| == 1 {
      assert a[0] in multiset(a) && a[0] in b;
    }
  }

  /** The whole batch of a service sync under two choices of map orders. */
  lemma {:induction false} ServiceOpsAnyOrder(pools: PoolMap, svc: Service, ep: Endpoints, order: seq<PortProtocol>,
                                              order2: seq<ListenerKey>,
                           other: seq<PortProtocol>, other2: seq<ListenerKey>)
    requires CleanService(svc) && CleanEndpoints(ep)
    requires ServiceOrders(svc, ep, order, order2) && ServiceOrders(svc, ep, other, other2)
    ensures var a, b := PoolPart(pools, svc, ep, Some(svc), order), PoolPart(pools, svc, ep, Some(svc), other);
      && (a.Ops? <==> b.Ops?)
      && (a.Ops? && b.Ops? ==>
          && multiset(a.reqs) == multiset(b.reqs)
          && (|svc.ports| != 1 || |a.reqs| <= 1 ==>
             SameRequests(VsOps(MetaOf(svc, a.reqs), order2), VsOps(MetaOf(svc, b.reqs), other2))))
  {
    PoolPartAnyOrder(pools, svc, ep, order, other);
    var a, b := PoolPart(pools, svc, ep, Some(svc), order), PoolPart(pools, svc, ep, Some(svc), other);
    if a.Ops? && b.Ops? && (|svc.ports| != 1 || |a.reqs| <= 1) {
      DefaultPoolAnyOrder(svc, a.reqs, b.reqs);
      VsOpsPermuted(MetaOf(svc, a.reqs), order2, other2);
    }
  }

  /** A service sync that ends in an error has changed none of the caches. */
  lemma {:induction false} FailureKeepsCaches(oracle: Oracle, st: State, svc: Service, ep: Option<Endpoints>,
                                              listed: Option<Service>,
                           order: seq<PortProtocol>, order2: seq<ListenerKey>, ran: Ran)
    requires ran == SyncService(oracle, st, svc, ep, listed, order, order2) && ran.Ran? && ran.err != NoError
    ensures Requeues(ran.err) && ran.st == st.(net := ran.st.net)
    ensures ep.Some? ==>
      !UpToDate(ran.st.vss, svc) && ServiceOps(st.pools, svc, ep.value, listed, order, order2) == Ops(ran.ops)
  {
    if ep.Some? {
      var built := ServiceOps(st.pools, svc, ep.value, listed, order, order2);
      assert ran == Resync(oracle, st, svc, ep.value, listed, order, order2);
      FailedBatch(oracle, st, svc.Key(), built.reqs);
    }
  }

  lemma {:induction false} FailedBatch(oracle: Oracle, st: State, key: NamespaceName, ops: seq<Request>)
    ensures var ran := Batched(oracle, st, key, ops);
      ran.Ran? ==> ran.ops == ops && (ran.err != NoError ==> Requeues(ran.err) && ran.st == st.(net := ran.st.net))
  {
  }

  /**
   * A service sync whose batch fails changes none of the caches and puts the key back on its queue, so that
   * the retry, whatever the map orders it happens to see, asks for the same pools and, up to the order of
   * selectors and routes, for the same virtual service.
   */
  lemma {:induction false} RetrySafety(oracle: Oracle, st: State, svc: Service, ep: Endpoints,
                    order: seq<PortProtocol>, order2: seq<ListenerKey>, ran: Ran,
                    other: seq<PortProtocol>, other2: seq<ListenerKey>)
    requires CleanService(svc) && CleanEndpoints(ep)
    requires ServiceOrders(svc, ep, order, order2) && ServiceOrders(svc, ep, other, other2)
    requires ran == SyncService(oracle, st, svc, Some(ep), Some(svc), order, order2) && ran.Ran? && ran.err != NoError
    ensures Requeues(ran.err) && ran.st == st.(net := ran.st.net) && !UpToDate(ran.st.vss, svc)
    ensures var next := ServiceOps(ran.st.pools, svc, ep, Some(svc), other, other2);
      var part := PoolPart(st.pools, svc, ep, Some(svc), order);
      next.Ops? && |next.reqs| == |ran.ops| && part.Ops? &&
      var n := |part.reqs|;
      && n < |ran.ops| && part.reqs == ran.ops[..n]
      && multiset(ran.ops[..n]) == multiset(next.reqs[..n])
      && (|svc.ports| != 1 || n <= 1 ==> SameRequests(ran.ops[n..], next.reqs[n..]))
  {
    FailureKeepsCaches(oracle, st, svc, Some(ep), Some(svc), order, order2, ran);
    ServiceOpsAnyOrder(st.pools, svc, ep, order, order2, other, other2);
    var a, b := PoolPart(st.pools, svc, ep, Some(svc), order).reqs, PoolPart(st.pools, svc, ep, Some(svc), other).reqs;
    SameShape(svc, a, b, order2, other2);
  }

  lemma {:induction false} VsOpsLength(svc: Service, a: seq<Request>, b: seq<Request>, s: seq<ListenerKey>,
                                       t: seq<ListenerKey>)
    ensures |VsOps(MetaOf(svc, a), s)| == |VsOps(MetaOf(svc, b), t)|
  {
  }

  lemma {:induction false} SameShape(svc: Service, a: seq<Request>, b: seq<Request>, order2: seq<ListenerKey>,
                                     other2: seq<ListenerKey>)
    requires multiset(a) == multiset(b)
    requires |svc.ports| != 1 || |a| <= 1 ==> SameRequests(VsOps(MetaOf(svc, a), order2), VsOps(MetaOf(svc, b), other2))
    ensures var s, t := a + VsOps(MetaOf(svc, a), order2), b + VsOps(MetaOf(svc, b), other2);
      var n := |a|;
      && n < |s| == |t| && s[..n] == a
      && multiset(s[..n]) == multiset(t[..n]) && (|svc.ports| != 1 || n <= 1 ==> SameRequests(s[n..], t[n..]))
  {
    assert |multiset(a)| == |a| && |multiset(b)| == |b|;
    VsOpsLength(svc, a, b, order2, other2);
    var s, t := a + VsOps(MetaOf(svc, a), order2), b + VsOps(MetaOf(svc, b), other2);
    assert s[..|a|] == a && t[..|a|] == b;
    assert s[|a|..] == VsOps(MetaOf(svc, a), order2) && t[|a|..] == VsOps(MetaOf(svc, b), other2);
  }

  // ---------- when the default pool depends on the order ----------

  function Backwards<T>(s: seq<T>): (r: seq<T>)
    ensures |r| == |s| && forall i :: 0 <= i < |s| ==> r[i] == s[|s| - 1 - i]
  {
    seq(|s|, i requires 0 <= i < |s| => s[|s| - 1 - i])
  }

  /** The operations of two lists of names, one after the other. */
  function Join(a: Ops, b: Ops): Ops {
    if a.Panicked? || b.Panicked? then Panicked else Ops(a.reqs + b.reqs)
  }

  lemma {:induction false} BuildOpsLast(pools: PoolMap, ep: Endpoints, hash: string, s: seq<string>)
    requires s != []
    ensures var n := |s| - 1;
      BuildOps(pools, ep, hash, s) == Join(BuildOps(pools, ep, hash, s[..n]), BuildOps(pools, ep, hash, [s[n]]))
  {
    var n := |s| - 1;
    assert [s[n]][..0] == [];
    assert BuildOps(pools, ep, hash, []) == Ops([]);
    var a := BuildOps(pools, ep, hash, s[..n]);
    if a.Ops? {
      assert a.reqs + [] == a.reqs;
    }
  }

  /** The last name of a list that ends in `t`. */
  lemma {:induction false} BuildOpsLastOf(pools: PoolMap, ep: Endpoints, hash: string, s: seq<string>, t: seq<string>)
    requires t != []
    ensures var n := |t| - 1;
      BuildOps(pools, ep, hash, s + t) == Join(BuildOps(pools, ep, hash, s + t[..n]), BuildOps(pools, ep, hash, [t[n]]))
  {
    LastOf(s, t);
    BuildOpsLast(pools, ep, hash, s + t);
  }

  lemma {:induction false} LastOf<T>(s: seq<T>, t: seq<T>)
    requires t != []
    ensures (s + t)[..|s + t| - 1] == s + t[..|t| - 1] && (s + t)[|s + t| - 1] == t[|t| - 1]
  {
  }

  lemma {:induction false} BuildOpsAppendNone(pools: PoolMap, ep: Endpoints, hash: string, s: seq<string>)
    ensures BuildOps(pools, ep, hash, s + []) == Join(BuildOps(pools, ep, hash, s), BuildOps(pools, ep, hash, []))
  {
    assert s + [] == s;
    var a := BuildOps(pools, ep, hash, s);
    if a.Ops? {
      assert a.reqs + [] == a.reqs;
    }
  }

  lemma {:induction false} BuildOpsAppend(pools: PoolMap, ep: Endpoints, hash: string, s: seq<string>, t: seq<string>)
    ensures BuildOps(pools, ep, hash, s + t) == Join(BuildOps(pools, ep, hash, s), BuildOps(pools, ep, hash, t))
    decreases |t|
  {
    if t == [] {
      BuildOpsAppendNone(pools, ep, hash, s);
    } else {
      var n := |t| - 1;
      BuildOpsAppend(pools, ep, hash, s, t[..n]);
      BuildOpsLast(pools, ep, hash, t);
      BuildOpsLastOf(pools, ep, hash, s, t);
      JoinAssociative(BuildOps(pools, ep, hash, s), BuildOps(pools, ep, hash, t[..n]),
          BuildOps(pools, ep, hash, [t[n]]));
    }
  }

  lemma {:induction false} JoinAssociative(a: Ops, b: Ops, c: Ops)
    ensures Join(Join(a, b), c) == Join(a, Join(b, c))
  {
    if a.Ops? && b.Ops? && c.Ops? {
      assert (a.reqs + b.reqs) + c.reqs == a.reqs + (b.reqs + c.reqs);
    }
  }

  /** The same operations in the opposite order. */
  function Turned(a: Ops): Ops {
    if a.Panicked? then Panicked else Ops(Backwards(a.reqs))
  }

  lemma {:induction false} TurnedJoin(a: Ops, b: Ops)
    requires b.Ops? ==> |b.reqs| <= 1
    ensures Turned(Join(a, b)) == Join(b, Turned(a))
  {
    if a.Ops? && b.Ops? {
      assert Backwards(a.reqs + b.reqs) == b.reqs + Backwards(a.reqs);
    }
  }

  lemma {:induction false} BuildOpsBackwards(pools: PoolMap, ep: Endpoints, hash: string, s: seq<string>)
    ensures BuildOps(pools, ep, hash, Backwards(s)) == Turned(BuildOps(pools, ep, hash, s))
  {
    if s == [] {
      assert Backwards(s) == [] && Backwards<Request>([]) == [];
    } else {
      var n := |s| - 1;
      BuildOpsBackwards(pools, ep, hash, s[..n]);
      BuildOpsFirst(pools, ep, hash, s);
      BuildOpsLast(pools, ep, hash, s);
      OneName(pools, ep, hash, s[n]);
      TurnedJoin(BuildOps(pools, ep, hash, s[..n]), BuildOps(pools, ep, hash, [s[n]]));
    }
  }

  lemma {:induction false} BuildOpsFirst(pools: PoolMap, ep: Endpoints, hash: string, s: seq<string>)
    requires s != []
    ensures var n := |s| - 1;
      BuildOps(pools, ep, hash, Backwards(s))
        == Join(BuildOps(pools, ep, hash, [s[n]]), BuildOps(pools, ep, hash, Backwards(s[..n])))
  {
    var n := |s| - 1;
    assert Backwards(s) == [s[n]] + Backwards(s[..n]);
    BuildOpsAppend(pools, ep, hash, [s[n]], Backwards(s[..n]));
  }

  lemma {:induction false} OneName(pools: PoolMap, ep: Endpoints, hash: string, x: string)
    ensures BuildOps(pools, ep, hash, [x]).Ops? ==> |BuildOps(pools, ep, hash, [x]).reqs| <= 1
  {
    assert [x][..0] == [];
  }

  /** Ranging the other way round posts the same pools the other way round. */
  lemma {:induction false} PartBackwards(pools: PoolMap, svc: Service, ep: Endpoints, order: seq<PortProtocol>)
    requires Resolve(svc, ReadyPorts(ep.subsets)).Found? && PoolPart(pools, svc, ep, Some(svc), order).Ops?
    ensures PoolPart(pools, svc, ep, Some(svc), Backwards(order))
      == Ops(Backwards(PoolPart(pools, svc, ep, Some(svc), order).reqs))
  {
    assert NamesOf(svc.name, Backwards(order)) == Backwards(NamesOf(svc.name, order));
    BuildOpsBackwards(pools, ep, CrudHashKey(svc.Key()), NamesOf(svc.name, order));
  }

  /** Some order of the port map leads to another default pool. */
  ghost predicate DefaultPoolVaries(pools: PoolMap, svc: Service, ep: Endpoints, reqs: seq<Request>,
                                    pps: set<PortProtocol>) {
    exists other :: Enumerates(other, pps) &&
      var b := PoolPart(pools, svc, ep, Some(svc), other);
      b.Ops? && MetaOf(svc, b.reqs).defaultPool != MetaOf(svc, reqs).defaultPool
  }

  lemma {:induction false} EnumeratesBackwards<T>(s: seq<T>, S: set<T>)
    requires Enumerates(s, S)
    ensures Enumerates(Backwards(s), S)
  {
    var r := Backwards(s);
    forall x | x in S
      ensures x in r
    {
      assert x in s;
      var i :| 0 <= i < |s| && s[i] == x;
      assert r[|s| - 1 - i] == x;
    }
  }

  /** The resolved ports whose pool is not cached at this version of the Endpoints. */
  ghost function StalePorts(pools: PoolMap, svc: Service, ep: Endpoints, pps: set<PortProtocol>): set<PortProtocol> {
    set pp | pp in pps && Stale(pools, ep, Print(svc.name, pp.port, pp.protocol))
  }

  /** One request is built for each of them. */
  lemma {:induction false} StaleCount(pools: PoolMap, svc: Service, ep: Endpoints, hash: string,
                                      order: seq<PortProtocol>)
    requires NoDup(order) && BuildOps(pools, ep, hash, NamesOf(svc.name, order)).Ops?
    ensures |BuildOps(pools, ep, hash, NamesOf(svc.name, order)).reqs|
      == |StalePorts(pools, svc, ep, set pp | pp in order)|
  {
    var names := NamesOf(svc.name, order);
    if order == [] {
      assert StalePorts(pools, svc, ep, set pp | pp in order) == {};
    } else {
      var n := |order| - 1;
      assert NamesOf(svc.name, order[..n]) == names[..n];
      StaleCount(pools, svc, ep, hash, order[..n]);
      StaleMore(pools, svc, ep, order);
    }
  }

  lemma {:induction false} StaleMore(pools: PoolMap, svc: Service, ep: Endpoints, order: seq<PortProtocol>)
    requires NoDup(order) && order != []
    ensures var n := |order| - 1;
      |StalePorts(pools, svc, ep, set pp | pp in order)| == |StalePorts(pools, svc, ep, set pp | pp in order[..n])|
        + (if Stale(pools, ep, Print(svc.name, order[n].port, order[n].protocol)) then 1 else 0)
  {
    var n := |order| - 1;
    var init := StalePorts(pools, svc, ep, set pp | pp in order[..n]);
    assert order == order[..n] + [order[n]];
    assert StalePorts(pools, svc, ep, set pp | pp in order) == init
      + (if Stale(pools, ep, Print(svc.name, order[n].port, order[n].protocol)) then {order[n]} else {});
    assert order[n] !in init;
  }

  /**
   * For a single-port Service, the default pool depends on the order of the port map if and only if more than one of
   * the resolved ports has a pool that is not cached at this version of the Endpoints.
   */
  lemma {:induction false} DefaultPoolStable(pools: PoolMap, svc: Service, ep: Endpoints, order: seq<PortProtocol>)
    requires CleanService(svc) && CleanEndpoints(ep) && ep.Key() == svc.Key() && |svc.ports| == 1
    requires var r := Resolve(svc, ReadyPorts(ep.subsets)); r.Found? && Enumerates(order, r.pps)
    requires PoolPart(pools, svc, ep, Some(svc), order).Ops?
    ensures var pps := Resolve(svc, ReadyPorts(ep.subsets)).pps;
      DefaultPoolVaries(pools, svc, ep, PoolPart(pools, svc, ep, Some(svc), order).reqs, pps)
      <==> |StalePorts(pools, svc, ep, pps)| > 1
  {
    var pps := Resolve(svc, ReadyPorts(ep.subsets)).pps;
    StaleCount(pools, svc, ep, CrudHashKey(svc.Key()), order);
    assert (set pp | pp in order) == pps;
    if |StalePorts(pools, svc, ep, pps)| > 1 {
      OrderMatters(pools, svc, ep, order, pps);
    } else {
      var a := PoolPart(pools, svc, ep, Some(svc), order).reqs;
      forall other | Enumerates(other, pps) && PoolPart(pools, svc, ep, Some(svc), other).Ops?
        ensures MetaOf(svc, PoolPart(pools, svc, ep, Some(svc), other).reqs) == MetaOf(svc, a)
      {
        PoolPartAnyOrder(pools, svc, ep, order, other);
        DefaultPoolAnyOrder(svc, a, PoolPart(pools, svc, ep, Some(svc), other).reqs);
      }
    }
  }

  lemma {:induction false} OrderMatters(pools: PoolMap, svc: Service, ep: Endpoints, order: seq<PortProtocol>,
                                        pps: set<PortProtocol>)
    requires CleanService(svc) && CleanEndpoints(ep) && ep.Key() == svc.Key() && |svc.ports| == 1
    requires Resolve(svc, ReadyPorts(ep.subsets)) == Found(pps) && Enumerates(order, pps)
    requires PoolPart(pools, svc, ep, Some(svc), order).Ops? && |PoolPart(pools, svc, ep, Some(svc), order).reqs| > 1
    ensures DefaultPoolVaries(pools, svc, ep, PoolPart(pools, svc, ep, Some(svc), order).reqs, pps)
  {
    var a := PoolPart(pools, svc, ep, Some(svc), order).reqs;
    EnumeratesBackwards(order, pps);
    PartBackwards(pools, svc, ep, order);
    CleanNames(svc, ep, order);
    BuiltReqs(pools, ep, svc.Key(), NamesOf(svc.name, order));
    DifferentFirst(pools, ep, svc.Key(), a);
    var b := PoolPart(pools, svc, ep, Some(svc), Backwards(order));
    assert MetaOf(svc, b.reqs).defaultPool != MetaOf(svc, a).defaultPool;
  }

  lemma {:induction false} DifferentFirst(pools: PoolMap, ep: Endpoints, k: NamespaceName, a: seq<Request>)
    requires ep.Key() == k && GoodReqs(pools, ep, k, a) && |a| > 1
    ensures FirstPool(a) != FirstPool(Backwards(a))
  {
    var n := |a| - 1;
    GoodReqFields(ep, k, a[0]);
    GoodReqFields(ep, k, a[n]);
    assert Backwards(a)[0] == a[n];
  }

  /** A Service with one port, served on tcp and on udp: its default pool is whichever the map yields first. */
  lemma {:induction false} TcpAndUdp(version: string, epVersion: string, ip: string)
    ensures var svc := Service("d", "s", version, [ServicePort("web", "TCP", 80, Name("web"))]);
      var ports := [EndpointPort("web", "TCP", 8080), EndpointPort("web", "UDP", 8080)];
      var ep := Endpoints("d", "s", epVersion, [Subset([Address(ip, None)], ports)]);
      var tcp, udp := PortProtocol("web", "tcp"), PortProtocol("web", "udp");
      var part := PoolPart(map[], svc, ep, Some(svc), [tcp, udp]);
      && Resolve(svc, ReadyPorts(ep.subsets)) == Found({tcp, udp})
      && part.Ops? && DefaultPoolVaries(map[], svc, ep, part.reqs, {tcp, udp})
  {
    var svc := Service("d", "s", version, [ServicePort("web", "TCP", 80, Name("web"))]);
    var ports := [EndpointPort("web", "TCP", 8080), EndpointPort("web", "UDP", 8080)];
    var ep := Endpoints("d", "s", epVersion, [Subset([Address(ip, None)], ports)]);
    var tcp, udp := PortProtocol("web", "tcp"), PortProtocol("web", "udp");
    ProfilesDiffer();
    TcpAndUdpResolved(svc, ep, ports);
    TcpAndUdpClean(svc, ep, ports);
    TcpAndUdpReadable();
    TwoStale(map[], svc, ep, tcp, udp);
  }

  /** Any two resolved ports whose pools are readable and not cached. */
  lemma {:induction false} TwoStale(pools: PoolMap, svc: Service, ep: Endpoints, a: PortProtocol, b: PortProtocol)
    requires CleanService(svc) && CleanEndpoints(ep) && ep.Key() == svc.Key() && |svc.ports| == 1 && a != b
    requires Resolve(svc, ReadyPorts(ep.subsets)) == Found({a, b})
    requires Parse(Print(svc.name, a.port, a.protocol)).Ok? && Parse(Print(svc.name, b.port, b.protocol)).Ok?
    requires Stale(pools, ep, Print(svc.name, a.port, a.protocol))
      && Stale(pools, ep, Print(svc.name, b.port, b.protocol))
    ensures var part := PoolPart(pools, svc, ep, Some(svc), [a, b]);
      part.Ops? && DefaultPoolVaries(pools, svc, ep, part.reqs, {a, b})
  {
    var names := NamesOf(svc.name, [a, b]);
    BuildOpsPanics(pools, ep, CrudHashKey(svc.Key()), names);
    assert Enumerates([a, b], {a, b});
    DefaultPoolStable(pools, svc, ep, [a, b]);
    BothStale(pools, svc, ep, a, b);
  }

  lemma {:induction false} BothStale(pools: PoolMap, svc: Service, ep: Endpoints, a: PortProtocol, b: PortProtocol)
    requires Stale(pools, ep, Print(svc.name, a.port, a.protocol))
      && Stale(pools, ep, Print(svc.name, b.port, b.protocol))
    ensures StalePorts(pools, svc, ep, {a, b}) == {a, b}
  {
  }

  lemma {:induction false} LowerUdp()
    ensures ToLower("UDP") == "udp"
  {
    assert "UDP"[..2] == "UD" && "UD"[..1] == "U" && "U"[..0] == "";
  }

  lemma {:induction false} ResolveTwo(svc: Service, p: EndpointPort, q: EndpointPort, a: PortProtocol, b: PortProtocol)
    requires ResolveOne(svc, p) == Port(a) && ResolveOne(svc, q) == Port(b)
    ensures Resolve(svc, [p, q]) == Found({a, b})
  {
    assert [p, q][..1] == [p] && [p][..0] == [];
    assert Resolve(svc, []) == Found({}) && Resolve(svc, [p]) == Found({a});
    assert {a} + {b} == {a, b};
  }

  lemma {:induction false} OneSubset(subsets: seq<Subset>)
    requires |subsets| == 1 && subsets[0].addresses != []
    ensures ReadyPorts(subsets) == subsets[0].ports
  {
    assert subsets[..0] == [] && [] + subsets[0].ports == subsets[0].ports;
  }

  lemma {:induction false} TcpAndUdpResolved(svc: Service, ep: Endpoints, ports: seq<EndpointPort>)
    requires svc.ports == [ServicePort("web", "TCP", 80, Name("web"))]
    requires ports == [EndpointPort("web", "TCP", 8080), EndpointPort("web", "UDP", 8080)]
    requires |ep.subsets| == 1 && ep.subsets[0].addresses != [] && ep.subsets[0].ports == ports
    ensures Resolve(svc, ReadyPorts(ep.subsets)) == Found({PortProtocol("web", "tcp"), PortProtocol("web", "udp")})
  {
    LowerTcp();
    LowerUdp();
    OneSubset(ep.subsets);
    ResolveTwo(svc, ports[0], ports[1], PortProtocol("web", "tcp"), PortProtocol("web", "udp"));
  }

  lemma {:induction false} WordsReadable(prefix: string, port: string, protocol: string)
    requires CleanPrefix(prefix) && Free(port, '-') && Free(protocol, '-')
    ensures Parse(Print(prefix, port, protocol)).Ok?
  {
    RoundTrip(prefix, port, protocol);
  }

  lemma {:induction false} TcpAndUdpReadable()
    ensures Parse(Print("s", "web", "tcp")).Ok? && Parse(Print("s", "web", "udp")).Ok?
  {
    assert CleanPrefix("s");
    WordsReadable("s", "web", "tcp");
    WordsReadable("s", "web", "udp");
  }

  lemma {:induction false} TcpAndUdpClean(svc: Service, ep: Endpoints, ports: seq<EndpointPort>)
    requires svc.name == "s" && svc.ports == [ServicePort("web", "TCP", 80, Name("web"))]
    requires ports == [EndpointPort("web", "TCP", 8080), EndpointPort("web", "UDP", 8080)]
    requires |ep.subsets| == 1 && ep.subsets[0].ports == ports
    ensures CleanService(svc) && CleanEndpoints(ep)
  {
    LowerTcp();
    LowerUdp();
    WordsAreMarkerFree("web");
    assert CleanPort("web") && CleanWord("tcp") && CleanWord("udp");
  }
}
