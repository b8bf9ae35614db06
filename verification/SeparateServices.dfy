/** Virtual services while the two workers never hold the same key: a skipped Service is always a current one. */
module SeparateServices {
  import opened Wrappers
  import opened Model
  import opened Rest
  import opened Pools
  import opened VirtualServices
  import opened Sync
  import opened Effects
  import opened Runs
  import opened Interleaving
  import opened Separation

  // ---------- what the Service worker knows ----------

  /** A Service that the listers have shown. */
  ghost predicate Seen(c: Cluster, svc: Service) {
    svc.version in c.svcLog && c.svcLog[svc.version] == svc
  }

  /** The virtual service of `k` is not cached, or at a version its Service has left for good. */
  ghost predicate VsLeft(c: Cluster, st: State, k: NamespaceName) {
    k in st.vss ==>
      var v := st.vss[k].cksum;
      && v in c.svcLog && c.svcLog[v].version == v && c.svcLog[v].Key() == k
      && (k !in c.svcs || c.svcs[k].version != v)
  }

  ghost predicate VsSettled(c: Cluster, st: State, svc: Service) {
    UpToDate(st.vss, svc) || VsLeft(c, st, svc.Key())
  }

  /** The virtual service of a batch: its last operation, and what `svc` and its pools give. */
  ghost predicate VsBatch(svc: Service, ops: seq<Request>, m: nat) {
    && 0 <= m < |ops| && (forall i :: 0 <= i < |ops| - 1 ==> !ops[i].obj.VsObj?)
    && var last := ops[|ops| - 1];
       && last.verb == Post && last.obj.VsObj? && NamespaceName(last.tenant, last.obj.vs.name) == svc.Key()
       && last.obj.vs.cksum == svc.version && BuiltFrom(svc, last.obj.vs)
       && DefaultOf(ops[..m], last.obj.vs.defaultPool)
  }

  ghost predicate VsOnFarSide(remote: Remote, k: NamespaceName, vs: VirtualService) {
    k in remote.vss && remote.vss[k].vs == vs
  }

  /** The links of the pools of a batch cached so far. */
  ghost predicate LinkedSoFar(st: State, k: NamespaceName, ops: seq<Request>, m: nat, n: nat) {
    m <= |ops| && forall i :: 0 <= i < m && i < n ==> ops[i].obj.PoolObj? && (k, Link(ops[i].obj.pool.name)) in st.links
  }

  ghost predicate FillingVs(c: Cluster, st: State, svc: Service, ops: seq<Request>, m: nat, n: nat) {
    && Seen(c, svc) && VsBatch(svc, ops, m) && (n < |ops| ==> VsLeft(c, st, svc.Key()))
    && VsOnFarSide(st.net.remote, svc.Key(), ops[|ops| - 1].obj.vs) && LinkedSoFar(st, svc.Key(), ops, m, n)
  }

  ghost predicate VsFacts(c: Cluster, st: State, job: SvcJob) {
    match job
    case Idle => true
    case Chosen(svc) => Seen(c, svc) && VsSettled(c, st, svc)
    case Looked(svc, _) => Seen(c, svc) && VsSettled(c, st, svc)
    case Checked(svc, _) => Seen(c, svc) && VsLeft(c, st, svc.Key())
    case Naming(svc, _, _, _, _) => Seen(c, svc) && VsLeft(c, st, svc.Key())
    case Sending(svc, _, ops, m, _) => Seen(c, svc) && VsLeft(c, st, svc.Key()) && VsBatch(svc, ops, m)
    case Undoing(svc, _, _, _) => VsLeft(c, st, svc.Key())
    case Filling(svc, _, ops, m, _, n, _) => FillingVs(c, st, svc, ops, m, n)
    case Absent(k) => VsLeft(c, st, k)
    case Doomed(k) => VsLeft(c, st, k)
    case Erased(k) => VsLeft(c, st, k)
    case Dropping(k, _) => VsLeft(c, st, k)
    case Unlinking(k, _) => VsLeft(c, st, k)
  }

  ghost predicate VsGood(s: Sys) {
    VsInv(s.c, s.st) && VsFacts(s.c, s.st, s.svc)
  }

  lemma {:induction false} LeftIsSound(c: Cluster, st: State, k: NamespaceName)
    requires VsLeft(c, st, k) && k in st.vss
    ensures VsSound(c, st, k)
  {
  }

  /** A Service just read from the listers settles its virtual service. */
  lemma {:induction false} TakeSettles(c: Cluster, st: State, k: NamespaceName)
    requires ClusterInv(c) && VsInv(c, st)
    ensures k in c.svcs ==> Seen(c, c.svcs[k]) && VsSettled(c, st, c.svcs[k])
    ensures k !in c.svcs ==> VsLeft(c, st, k)
  {
    if k in st.vss {
      assert VsSound(c, st, k);
    }
  }

  // ---------- the cluster moves on ----------

  lemma {:induction false} LeftLater(c: Cluster, d: Cluster, st: State, k: NamespaceName)
    requires Later(c, d) && VsLeft(c, st, k)
    ensures VsLeft(d, st, k)
  {
  }

  lemma {:induction false} SoundLater(c: Cluster, d: Cluster, st: State, k: NamespaceName)
    requires Later(c, d) && k in st.vss && VsSound(c, st, k)
    ensures VsSound(d, st, k)
  {
    var v := st.vss[k].cksum;
    if k !in c.svcs || c.svcs[k].version != v {
      assert VsLeft(c, st, k);
      LeftLater(c, d, st, k);
    }
  }

  lemma {:induction false} FactsLater(c: Cluster, d: Cluster, st: State, job: SvcJob)
    requires Later(c, d) && VsFacts(c, st, job)
    ensures VsFacts(d, st, job)
  {
    if job.Key().Some? && VsLeft(c, st, job.Key().value) {
      LeftLater(c, d, st, job.Key().value);
    }
  }

  lemma {:induction false} ChangeKeepsVs(s: Sys, e: Event)
    requires ClusterInv(s.c) && VsGood(s) && Changed(s.c, e).Some?
    ensures VsGood(s.(c := Changed(s.c, e).value))
  {
    var d := Changed(s.c, e).value;
    ChangeIsLater(s.c, e);
    FactsLater(s.c, d, s.st, s.svc);
    forall k | k in s.st.vss
      ensures VsSound(d, s.st, k)
    {
      SoundLater(s.c, d, s.st, k);
    }
  }

  // ---------- the Endpoints worker ----------

  /** Virtual services and links are as they were, and no pool is gone from the far side. */
  ghost predicate OnlyMorePools(st: State, t: State) {
    && t.vss == st.vss && t.links == st.links && t.net.remote.vss == st.net.remote.vss
    && st.net.remote.pools.Keys <= t.net.remote.pools.Keys
  }

  lemma {:induction false} PoolPostAddsOnly(oracle: Oracle, net: Net, req: Request)
    requires req.obj.PoolObj?
    ensures var net1 := SendOne(oracle, net, req).1;
      net1.remote.vss == net.remote.vss && net.remote.pools.Keys <= net1.remote.pools.Keys
  {
  }

  lemma {:induction false} EpSendAddsOnly(oracle: Oracle, c: Cluster, st: State, job: EpJob)
    requires EpFacts(c, st, job) && EpSendTurn(oracle, st, job).Some?
    ensures OnlyMorePools(st, EpSendTurn(oracle, st, job).value.0)
  {
    if |job.results| < |job.ops| {
      assert GoodReq(job.e, job.e.Key(), job.ops[|job.results|]);
      PoolPostAddsOnly(oracle, st.net, job.ops[|job.results|]);
    }
  }

  lemma {:induction false} EpAddsOnly(oracle: Oracle, c: Cluster, st: State, job: EpJob, e: Turn)
    requires EpFacts(c, st, job) && EpStep(oracle, c, st, job, e).Some?
    ensures OnlyMorePools(st, EpStep(oracle, c, st, job, e).value.0)
  {
    if e.EpSend? {
      EpSendAddsOnly(oracle, c, st, job);
    }
  }

  lemma {:induction false} MorePoolsKeepVs(c: Cluster, st: State, t: State, job: SvcJob)
    requires VsInv(c, st) && VsFacts(c, st, job) && OnlyMorePools(st, t)
    ensures VsInv(c, t) && VsFacts(c, t, job)
  {
    forall k | k in t.vss
      ensures VsSound(c, t, k)
    {
      VsFrame(c, st, t, k);
    }
  }

  // ---------- the Service worker ----------

  /** Nothing about the virtual services of other keys changes. */
  ghost predicate SparesOtherVs(st: State, t: State, k: NamespaceName) {
    forall j :: j != k ==> SameAt(st.vss, t.vss, j) && SameAt(st.net.remote.vss, t.net.remote.vss, j)
  }

  /** What is sound for other keys stays so. */
  lemma {:induction false} OthersStay(c: Cluster, st: State, t: State, k: NamespaceName, j: NamespaceName)
    requires LinksInv(st.links) && VsInv(c, st) && j != k && j in t.vss
    requires SparesOthers(st, t, k) && SparesOtherVs(st, t, k)
    ensures VsSound(c, t, j)
  {
    assert Spares(st, t, j) && SameAt(st.vss, t.vss, j) && SameAt(st.net.remote.vss, t.net.remote.vss, j);
    forall e | (j, e) in st.links
      ensures (j, e) in t.links && SameAt(st.net.remote.pools, t.net.remote.pools, Target((j, e)))
    {
      assert GoodLink((j, e)) && Owned(j, Target((j, e)));
    }
    assert SparesVs(st, t, j);
    VsFrame(c, st, t, j);
  }

  /** A turn after which the virtual service of `k` is still left behind. */
  lemma {:induction false} LeftKeeps(c: Cluster, st: State, t: State, k: NamespaceName)
    requires LinksInv(st.links) && VsInv(c, st) && VsLeft(c, st, k) && SameAt(st.vss, t.vss, k)
    requires SparesOthers(st, t, k) && SparesOtherVs(st, t, k)
    ensures VsInv(c, t) && VsLeft(c, t, k)
  {
    forall j | j in t.vss
      ensures VsSound(c, t, j)
    {
      if j == k {
        LeftIsSound(c, t, k);
      } else {
        OthersStay(c, st, t, k, j);
      }
    }
  }

  /** Turns that change no state. */
  lemma {:induction false} ReadsVs(oracle: Oracle, c: Cluster, st: State, job: SvcJob, e: Turn)
    requires SvcOk(c, job) && VsFacts(c, st, job) && Reads(e) && SvcStep(oracle, c, st, job, e).Some?
    ensures var p := SvcStep(oracle, c, st, job, e).value; p.0 == st && VsFacts(c, st, p.1)
  {
    if e.SvcVs? {
      BatchVs(job.svc, job.e, job.ops, e.order2);
    }
  }

  lemma {:induction false} BatchVs(svc: Service, e: Endpoints, ops: seq<Request>, order2: seq<ListenerKey>)
    requires Enumerates(order2, MetaOf(svc, []).poolMap.Keys) && forall i :: 0 <= i < |ops| ==>
      GoodReq(e, svc.Key(), ops[i])
    ensures VsBatch(svc, ops + VsOps(MetaOf(svc, ops), order2), |ops|)
  {
    VsOpsShape(svc, ops, order2);
    ServiceVsBuilt(svc, ops, order2);
    var vs := VsOps(MetaOf(svc, ops), order2);
    assert (ops + vs)[..|ops|] == ops;
    forall i | 0 <= i < |ops|
      ensures ops[i].obj.PoolObj?
    {
      assert GoodReq(e, svc.Key(), ops[i]);
    }
    OneVs(ops, vs);
  }

  lemma {:induction false} OneVs(ops: seq<Request>, vs: seq<Request>)
    requires forall i :: 0 <= i < |ops| ==> ops[i].obj.PoolObj?
    requires 1 <= |vs| <= 2 && (|vs| == 2 ==> vs[0].obj.HpsObj?)
    ensures forall i :: 0 <= i < |ops + vs| - 1 ==> !(ops + vs)[i].obj.VsObj?
  {
  }

  // ---------- requests ----------

  lemma {:induction false} SendSparesVs(oracle: Oracle, net: Net, req: Request, j: NamespaceName)
    requires req.obj.VsObj? ==> NamespaceName(req.tenant, req.obj.vs.name) != j
    ensures SameAt(net.remote.vss, SendOne(oracle, net, req).1.remote.vss, j)
  {
  }

  lemma {:induction false} VsSent(oracle: Oracle, net: Net, req: Request)
    requires req.verb == Post && req.obj.VsObj? && SendOne(oracle, net, req).0.Succeeded?
    ensures VsOnFarSide(SendOne(oracle, net, req).1.remote, NamespaceName(req.tenant, req.obj.vs.name), req.obj.vs)
  {
  }

  lemma {:induction false} SentSparesVs(oracle: Oracle, st: State, svc: Service, ops: seq<Request>, m: nat, i: nat)
    requires VsBatch(svc, ops, m) && i < |ops|
    ensures SparesOtherVs(st, st.(net := SendOne(oracle, st.net, ops[i]).1), svc.Key())
  {
    var k, t := svc.Key(), st.(net := SendOne(oracle, st.net, ops[i]).1);
    forall j | j != k
      ensures SameAt(st.net.remote.vss, t.net.remote.vss, j)
    {
      SendSparesVs(oracle, st.net, ops[i], j);
    }
  }

  /** The last request of the batch went through. */
  lemma {:induction false} LastSentVs(oracle: Oracle, c: Cluster, st: State, job: SvcJob, r: Result)
    requires job.Sending? && VsFacts(c, st, job) && |job.results| + 1 == |job.ops|
    requires SendOne(oracle, st.net, job.ops[|job.results|]).0.Succeeded?
    ensures var t := st.(net := SendOne(oracle, st.net, job.ops[|job.results|]).1);
      VsLeft(c, t, job.svc.Key()) ==>
        VsFacts(c, t, Filling(job.svc, job.e, job.ops, job.pools, job.results + [r], 0, false))
  {
    VsSent(oracle, st.net, job.ops[|job.results|]);
  }

  lemma {:induction false} SendVs(oracle: Oracle, c: Cluster, st: State, job: SvcJob, k: NamespaceName)
    requires job.Key() == Some(k) && VsFacts(c, st, job) && SendTurn(oracle, st, job).Some?
    ensures var p := SendTurn(oracle, st, job).value;
      && SparesOtherVs(st, p.0, k) && SameAt(st.vss, p.0.vss, k)
      && (VsLeft(c, p.0, k) ==> VsFacts(c, p.0, p.1))
  {
    var r := SendOne(oracle, st.net, job.ops[|job.results|]).0;
    SentSparesVs(oracle, st, job.svc, job.ops, job.pools, |job.results|);
    if r.Succeeded? && |job.results| + 1 == |job.ops| {
      LastSentVs(oracle, c, st, job, r);
    }
  }

  lemma {:induction false} EraseKeepsVss(oracle: Oracle, net: Net, req: Request, r: Result)
    requires UndoOf(req, r).DeleteAt? && req.model != "VirtualService"
    ensures EraseOne(oracle, net, UndoOf(req, r).url).remote.vss == net.remote.vss
  {
    OnlyVsUrl(req.model);
  }

  lemma {:induction false} NotAVs(e: Endpoints, k: NamespaceName, req: Request)
    requires GoodReq(e, k, req) || req.model == "HTTPRequestPolicy"
    ensures req.model != "VirtualService"
  {
    assert |"VirtualService"| != |"Pool"| && |"VirtualService"| != |"HTTPRequestPolicy"|;
  }

  lemma {:induction false} UndoVs(oracle: Oracle, c: Cluster, st: State, job: SvcJob, k: NamespaceName)
    requires job.Key() == Some(k) && SvcOk(c, job) && VsFacts(c, st, job) && UnsendTurn(oracle, st, job).Some?
    ensures var p := UnsendTurn(oracle, st, job).value;
      && p.0.vss == st.vss && p.0.net.remote.vss == st.net.remote.vss
      && (VsLeft(c, p.0, k) ==> VsFacts(c, p.0, p.1))
  {
    if job.ops != [] {
      var n := |job.ops| - 1;
      NotAVs(job.e, k, job.ops[n]);
      if UndoOf(job.ops[n], job.results[n]).DeleteAt? {
        EraseKeepsVss(oracle, st.net, job.ops[n], job.results[n]);
      }
    }
  }

  // ---------- cache operations ----------

  /** The virtual service is cached: at this version, with its pools behind it. */
  lemma {:induction false} FilledVs(c: Cluster, st: State, t: State, svc: Service, ops: seq<Request>, m: nat)
    requires Seen(c, svc) && VsBatch(svc, ops, m) && AllLanded(st.net, ops, m)
    requires forall i :: 0 <= i < m ==> ops[i].tenant == svc.ns
    requires VsOnFarSide(st.net.remote, svc.Key(), ops[|ops| - 1].obj.vs)
      && LinkedSoFar(st, svc.Key(), ops, m, |ops| - 1)
    requires t == st.(vss := t.vss) && svc.Key() in t.vss && t.vss[svc.Key()].cksum == svc.version
    ensures VsSound(c, t, svc.Key())
  {
    var pool := ops[|ops| - 1].obj.vs.defaultPool;
    if pool != "" {
      assert ops[..m][0] == ops[0];
      assert Landed(st.net, ops[0]) && PoolKey(ops[0]) == NamespaceName(svc.ns, pool);
    }
  }

  /** The turn that caches the virtual service. */
  lemma {:induction false} FillVsTurn(c: Cluster, st: State, job: SvcJob, k: NamespaceName) returns (entry: VsEntry)
    requires job.Filling? && job.Key() == Some(k) && SvcOk(c, job) && VsFacts(c, st, job)
    requires job.n == |job.ops| - 1
    ensures entry.cksum == job.svc.version
    ensures CacheTurn(st, job) == Some((st.(vss := st.vss[k := entry]),
                                        Filling(job.svc, job.e, job.ops, job.pools, job.results, job.n + 1, false)))
  {
    var req, r := job.ops[job.n], job.results[job.n];
    assert |"Pool"| != |"VirtualService"|;
    entry := FillVs(st, k, req, r);
  }

  /** The pool cache and the links: virtual services are left alone. */
  lemma {:induction false} CachePoolTurn(c: Cluster, st: State, job: SvcJob, k: NamespaceName) returns (pools: PoolMap)
    requires job.Filling? && job.Key() == Some(k) && SvcOk(c, job) && job.n < job.pools && !job.half
    ensures CacheTurn(st, job) == Some((st.(pools := pools),
                                        Filling(job.svc, job.e, job.ops, job.pools, job.results, job.n, true)))
  {
    var req, r := job.ops[job.n], job.results[job.n];
    PoolModelOnly(job.e, k, job.ops, job.pools, job.n);
    var entry := EchoedPool(req, r, st.pools, st.links, k);
    pools := st.pools[PoolKey(req) := entry];
  }

  lemma {:induction false} HalfTurn(st: State, job: SvcJob)
    requires job.Filling? && job.half && job.n < |job.ops| && job.n < |job.results|
    requires job.results[job.n].Succeeded? && job.ops[job.n].model == "Pool"
    ensures CacheTurn(st, job) ==
      Some((st.(links := AddLinks(st.links, job.svc.Key(), Elems(job.results[job.n].resp, "pool"))),
            Filling(job.svc, job.e, job.ops, job.pools, job.results, job.n + 1, false)))
  {
  }

  lemma {:induction false} CacheLinkTurn(c: Cluster, st: State, job: SvcJob, k: NamespaceName)
    requires job.Filling? && job.Key() == Some(k) && SvcOk(c, job) && job.n < job.pools && job.half
    ensures job.ops[job.n].obj.PoolObj?
    ensures CacheTurn(st, job) == Some((st.(links := st.links + {(k, Link(job.ops[job.n].obj.pool.name))}),
                                        Filling(job.svc, job.e, job.ops, job.pools, job.results, job.n + 1, false)))
  {
    PoolModelOnly(job.e, k, job.ops, job.pools, job.n);
    HalfTurn(st, job);
    var entry := EchoedPool(job.ops[job.n], job.results[job.n], st.pools, st.links, k);
  }

  lemma {:induction false} FillPoolTurn(c: Cluster, st: State, job: SvcJob, k: NamespaceName, t: State, next: SvcJob)
    requires job.Filling? && job.Key() == Some(k) && SvcOk(c, job) && job.n < job.pools
    requires FillingVs(c, st, job.svc, job.ops, job.pools, job.n) && CacheTurn(st, job) == Some((t, next))
    ensures t.vss == st.vss && t.net == st.net
    ensures next.Filling? && next.svc == job.svc && next.ops == job.ops && next.pools == job.pools
    ensures FillingVs(c, t, job.svc, job.ops, job.pools, next.n)
  {
    if job.half {
      CacheLinkTurn(c, st, job, k);
      MoreLinks(st, k, job.ops, job.pools, job.n);
    } else {
      var pools := CachePoolTurn(c, st, job, k);
    }
  }

  lemma {:induction false} MoreLinks(st: State, k: NamespaceName, ops: seq<Request>, m: nat, n: nat)
    requires LinkedSoFar(st, k, ops, m, n) && n < m && ops[n].obj.PoolObj?
    ensures LinkedSoFar(st.(links := st.links + {(k, Link(ops[n].obj.pool.name))}), k, ops, m, n + 1)
  {
  }

  /** The policy set, or the end of the loop. */
  lemma {:induction false} SkipTurn(st: State, job: SvcJob)
    requires job.Filling? && CacheTurn(st, job).Some?
    requires job.n < |job.ops| ==> job.ops[job.n].model != "Pool" && job.ops[job.n].model != "VirtualService"
    ensures var p := CacheTurn(st, job).value;
      && p.0 == st
      && (p.1 == Idle || p.1 == Filling(job.svc, job.e, job.ops, job.pools, job.results, job.n + 1, false))
  {
  }

  lemma {:induction false} FillRestTurn(c: Cluster, st: State, job: SvcJob, k: NamespaceName, t: State, next: SvcJob)
    requires job.Filling? && job.Key() == Some(k) && BatchFor(job.e, k, job.ops, job.pools)
    requires FillingVs(c, st, job.svc, job.ops, job.pools, job.n)
    requires job.n >= job.pools && job.n != |job.ops| - 1 && CacheTurn(st, job) == Some((t, next))
    ensures t == st && VsFacts(c, st, next)
  {
    if job.n < |job.ops| {
      PolicyModel(job.e, k, job.ops, job.pools);
    }
    SkipTurn(st, job);
    if next.Filling? {
      PastPools(c, st, job.svc, job.ops, job.pools, job.n);
    }
  }

  /** Past the pools, an operation other than the virtual service changes nothing. */
  lemma {:induction false} PastPools(c: Cluster, st: State, svc: Service, ops: seq<Request>, m: nat, n: nat)
    requires FillingVs(c, st, svc, ops, m, n) && m <= n && n != |ops| - 1
    ensures FillingVs(c, st, svc, ops, m, n + 1)
  {
  }

  lemma {:induction false} PolicyModel(e: Endpoints, k: NamespaceName, ops: seq<Request>, m: nat)
    requires BatchFor(e, k, ops, m) && |ops| == m + 2
    ensures ops[m].model != "Pool" && ops[m].model != "VirtualService"
  {
    assert |"HTTPRequestPolicy"| != |"Pool"| && |"HTTPRequestPolicy"| != |"VirtualService"|;
  }

  lemma {:induction false} OwnCached(c: Cluster, st: State, t: State, job: SvcJob, k: NamespaceName)
    requires job.Filling? && job.Key() == Some(k) && job.n == |job.ops| - 1 && job.e.Key() == k
    requires BatchFor(job.e, k, job.ops, job.pools) && AllLanded(st.net, job.ops, job.pools)
    requires FillingVs(c, st, job.svc, job.ops, job.pools, job.n)
    requires t == st.(vss := t.vss) && k in t.vss && t.vss[k].cksum == job.svc.version
    ensures VsSound(c, t, k)
  {
    forall i | 0 <= i < job.pools
      ensures job.ops[i].tenant == job.svc.ns
    {
      GoodReqFields(job.e, k, job.ops[i]);
    }
    FilledVs(c, st, t, job.svc, job.ops, job.pools);
  }

  lemma {:induction false} VsCached(oracle: Oracle, c: Cluster, st: State, t: State, job: SvcJob, k: NamespaceName)
    requires job.Filling? && job.Key() == Some(k) && SvcGood(oracle, c, st, job, k) && VsInv(c, st)
      && VsFacts(c, st, job)
    requires job.n == |job.ops| - 1 && SparesOthers(st, t, k) && SparesOtherVs(st, t, k)
    requires t == st.(vss := t.vss) && k in t.vss && t.vss[k].cksum == job.svc.version
    ensures VsInv(c, t)
  {
    OwnCached(c, st, t, job, k);
    forall j | j in t.vss
      ensures VsSound(c, t, j)
    {
      if j != k {
        OthersStay(c, st, t, k, j);
      }
    }
  }

  lemma {:induction false} FillKeepsVs(oracle: Oracle, c: Cluster, st: State, job: SvcJob, k: NamespaceName, t: State,
                                       next: SvcJob)
    requires job.Key() == Some(k) && SvcGood(oracle, c, st, job, k) && VsInv(c, st) && VsFacts(c, st, job)
    requires CacheTurn(st, job) == Some((t, next)) && SparesOthers(st, t, k)
    ensures VsInv(c, t) && VsFacts(c, t, next)
  {
    if job.n == |job.ops| - 1 {
      FillVsKeeps(oracle, c, st, job, k, t, next);
    } else if job.n < job.pools {
      FillPoolTurn(c, st, job, k, t, next);
      LeftKeeps(c, st, t, k);
    } else {
      FillRestTurn(c, st, job, k, t, next);
    }
  }

  lemma {:induction false} FillVsKeeps(oracle: Oracle, c: Cluster, st: State, job: SvcJob, k: NamespaceName, t: State,
                                       next: SvcJob)
    requires job.Filling? && job.Key() == Some(k) && SvcGood(oracle, c, st, job, k) && VsInv(c, st)
      && VsFacts(c, st, job)
    requires CacheTurn(st, job) == Some((t, next)) && SparesOthers(st, t, k) && job.n == |job.ops| - 1
    ensures VsInv(c, t) && VsFacts(c, t, next)
  {
    var entry := FillVsTurn(c, st, job, k);
    VsCached(oracle, c, st, t, job, k);
  }

  // ---------- deletions ----------

  lemma {:induction false} EraseSparesVs(remote: Remote, k: NamespaceName, gone: set<string>, j: NamespaceName)
    requires j != k
    ensures SameAt(remote.vss, EraseService(remote, k, gone).vss, j)
  {
  }

  lemma {:induction false} MacroVs(oracle: Oracle, c: Cluster, st: State, job: SvcJob, k: NamespaceName)
    requires job.Key() == Some(k) && VsFacts(c, st, job) && MacroTurn(oracle, st, job).Some?
    ensures var p := MacroTurn(oracle, st, job).value;
      SparesOtherVs(st, p.0, k) && p.0.vss == st.vss && (VsLeft(c, p.0, k) ==> VsFacts(c, p.0, p.1))
  {
    forall j | j != k
      ensures SameAt(st.net.remote.vss, MacroTurn(oracle, st, job).value.0.net.remote.vss, j)
    {
      EraseSparesVs(st.net.remote, k, Fate(oracle, st.net.clock).gone, j);
    }
  }

  /** The cache operations of a deletion. */
  ghost predicate Deletes(e: Turn) {
    e.SvcGet? || e.SvcRange? || e.SvcDrop? || e.SvcDropped? || e.SvcUnlink? || e.SvcForget?
  }

  lemma {:induction false} DeleteVs(oracle: Oracle, c: Cluster, st: State, job: SvcJob, e: Turn, k: NamespaceName,
                                    t: State, next: SvcJob)
    requires job.Key() == Some(k) && VsFacts(c, st, job) && Deletes(e)
      && SvcStep(oracle, c, st, job, e) == Some((t, next))
    ensures t.vss == (if e.SvcForget? then st.vss - {k} else st.vss) && t.net.remote.vss == st.net.remote.vss
    ensures VsLeft(c, st, k) && (VsLeft(c, t, k) ==> VsFacts(c, t, next))
  {
  }

  /** Turns that leave the virtual service of the key as outdated as it was. */
  lemma {:induction false} OutdatedTurns(oracle: Oracle, c: Cluster, st: State, job: SvcJob, e: Turn, k: NamespaceName,
                                         t: State, next: SvcJob)
    requires e.SvcSend? || e.SvcUndo? || e.SvcMacro?
    requires job.Key() == Some(k) && SvcOk(c, job) && VsFacts(c, st, job)
    requires SvcStep(oracle, c, st, job, e) == Some((t, next))
    ensures VsLeft(c, st, k) && SparesOtherVs(st, t, k) && SameAt(st.vss, t.vss, k)
    ensures VsLeft(c, t, k) ==> VsFacts(c, t, next)
  {
    if e.SvcSend? {
      SendVs(oracle, c, st, job, k);
    } else if e.SvcUndo? {
      UndoVs(oracle, c, st, job, k);
    } else {
      MacroVs(oracle, c, st, job, k);
    }
  }

  /** A turn of the Service worker on the key it holds. */
  lemma {:induction false} DeletesKeepVs(oracle: Oracle, c: Cluster, st: State, job: SvcJob, e: Turn, k: NamespaceName,
                                         t: State, next: SvcJob)
    requires Deletes(e) && job.Key() == Some(k) && LinksInv(st.links) && VsInv(c, st) && VsFacts(c, st, job)
    requires SvcStep(oracle, c, st, job, e) == Some((t, next)) && SparesOthers(st, t, k)
    ensures VsInv(c, t) && VsFacts(c, t, next)
  {
    DeleteVs(oracle, c, st, job, e, k, t, next);
    DeletedVs(c, st, t, k);
  }

  lemma {:induction false} OutdatedKeepsVs(oracle: Oracle, c: Cluster, st: State, job: SvcJob, e: Turn,
                                           k: NamespaceName, t: State, next: SvcJob)
    requires e.SvcSend? || e.SvcUndo? || e.SvcMacro?
    requires job.Key() == Some(k) && SvcOk(c, job) && LinksInv(st.links) && VsInv(c, st) && VsFacts(c, st, job)
    requires SvcStep(oracle, c, st, job, e) == Some((t, next)) && SparesOthers(st, t, k)
    ensures VsInv(c, t) && VsFacts(c, t, next)
  {
    OutdatedTurns(oracle, c, st, job, e, k, t, next);
    LeftKeeps(c, st, t, k);
  }

  lemma {:induction false} SvcTurnKeepsVs(oracle: Oracle, c: Cluster, st: State, job: SvcJob, e: Turn, k: NamespaceName,
                                          t: State, next: SvcJob)
    requires job.Key() == Some(k) && SvcGood(oracle, c, st, job, k) && VsInv(c, st) && VsFacts(c, st, job)
    requires SvcStep(oracle, c, st, job, e) == Some((t, next)) && SparesOthers(st, t, k)
    ensures VsInv(c, t) && VsFacts(c, t, next)
  {
    if Reads(e) {
      ReadsVs(oracle, c, st, job, e);
    } else if e.SvcFill? {
      assert CacheTurn(st, job) == Some((t, next));
      FillKeepsVs(oracle, c, st, job, k, t, next);
    } else if Deletes(e) {
      DeletesKeepVs(oracle, c, st, job, e, k, t, next);
    } else {
      OutdatedKeepsVs(oracle, c, st, job, e, k, t, next);
    }
  }

  lemma {:induction false} DeletedVs(c: Cluster, st: State, t: State, k: NamespaceName)
    requires LinksInv(st.links) && VsInv(c, st) && VsLeft(c, st, k) && SparesOthers(st, t, k)
    requires (t.vss == st.vss || t.vss == st.vss - {k}) && t.net.remote.vss == st.net.remote.vss
    ensures VsInv(c, t) && VsLeft(c, t, k)
  {
    forall j | j in t.vss
      ensures VsSound(c, t, j)
    {
      if j == k {
        LeftIsSound(c, t, k);
      } else {
        OthersStay(c, st, t, k, j);
      }
    }
  }

  // ---------- all runs in which the workers stay apart ----------

  lemma {:induction false} VsKeepsOk(oracle: Oracle, s: Sys, e: Turn)
    requires Faithful(oracle) && FreshUuids(oracle) && SepInv(oracle, s) && VsGood(s) && Step(oracle, s, e).Some?
    ensures VsGood(Step(oracle, s, e).value)
  {
    if e.Change? {
      ChangeKeepsVs(s, e.e);
    } else if SvcStep(oracle, s.c, s.st, s.svc, e).Some? {
      if s.svc.Idle? {
        assert e.SvcTake?;
        TakeSettles(s.c, s.st, e.k);
      } else {
        var k := s.svc.Key().value;
        OpenIsHeld(s.svc);
        var p := SvcStep(oracle, s.c, s.st, s.svc, e).value;
        SvcTurnKeeps(oracle, s.c, s.st, s.svc, e, k, p);
        SvcTurnKeepsVs(oracle, s.c, s.st, s.svc, e, k, p.0, p.1);
      }
    } else {
      EpAddsOnly(oracle, s.c, s.st, s.ep, e);
      MorePoolsKeepVs(s.c, s.st, EpStep(oracle, s.c, s.st, s.ep, e).value.0, s.svc);
    }
  }

  lemma {:induction false} ExecVs(oracle: Oracle, es: seq<Turn>)
    requires Faithful(oracle) && FreshUuids(oracle) && StayApart(oracle, es) && Exec(oracle, START, es).Some?
    ensures VsGood(Exec(oracle, START, es).value)
  {
    if es != [] {
      var n := |es| - 1;
      ApartSoFar(oracle, es);
      ExecVs(oracle, es[..n]);
      ExecSeparate(oracle, es[..n]);
      VsKeepsOk(oracle, Exec(oracle, START, es[..n]).value, es[n]);
    }
  }

  /**
   * While the two workers never hold the same key, at every turn: a Service that the version comparison would skip has
   * on the far side a virtual service built from that version, whose default pool, if any, is linked and there.
   */
  lemma {:induction false} SkippedServicesStayCurrent(oracle: Oracle, es: seq<Turn>, k: NamespaceName)
    requires Faithful(oracle) && FreshUuids(oracle) && StayApart(oracle, es) && Exec(oracle, START, es).Some?
    ensures var s := Exec(oracle, START, es).value;
      k in s.c.svcs && UpToDate(s.st.vss, s.c.svcs[k]) ==> VsPosted(s.c.svcs[k], s.st, k)
  {
    ExecVs(oracle, es);
    ExecSeparate(oracle, es);
    var s := Exec(oracle, START, es).value;
    if k in s.c.svcs && UpToDate(s.st.vss, s.c.svcs[k]) {
      assert VsSound(s.c, s.st, k);
    }
  }
}
