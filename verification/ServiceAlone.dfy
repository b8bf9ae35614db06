/** A Service worker that is left alone does what the sync of its key does: its turns refine the sync. */
module ServiceAlone {
  import opened Strings
  import opened Wrappers
  import opened Model
  import opened Rest
  import opened Pools
  import opened VirtualServices
  import opened Caches
  import opened Sync
  import opened Runs
  import opened Interleaving

  // ---------- batches, one request at a time ----------

  lemma {:induction false} OperateConcat(oracle: Oracle, net: Net, a: seq<Request>, b: seq<Request>)
    requires Operate(oracle, net, a).err.None?
    ensures var x := Operate(oracle, net, a);
      var y := Operate(oracle, x.net, b);
      Operate(oracle, net, a + b) == Batch(x.results + y.results, y.net, y.err)
    decreases |a|
  {
    var x := Operate(oracle, net, a);
    var y := Operate(oracle, x.net, b);
    if a == [] {
      assert a + b == b && x.results + y.results == y.results;
    } else {
      var (r, net1) := SendOne(oracle, net, a[0]);
      OperateConcat(oracle, net1, a[1..], b);
      assert (a + b)[0] == a[0] && (a + b)[1..] == a[1..] + b;
      var rest := Operate(oracle, net1, a[1..]);
      assert x.results == [r] + rest.results;
      assert [r] + (rest.results + y.results) == x.results + y.results;
    }
  }

  /** Sending one more request of a batch whose first `n` went through. */
  lemma {:induction false} OneMoreSent(oracle: Oracle, net: Net, ops: seq<Request>, n: nat)
    requires n < |ops| && Operate(oracle, net, ops[..n]).err.None?
    ensures var x := Operate(oracle, net, ops[..n]);
      var (r, net1) := SendOne(oracle, x.net, ops[n]);
      if r.Succeeded? then Operate(oracle, net, ops[..n + 1]) == Batch(x.results + [r], net1, None)
      else
        var b := Operate(oracle, net, ops);
        && b.net == net1 && b.err == Some(r.msg) && b.results[..n] == x.results
        && forall i :: n <= i < |ops| ==> b.results[i].Failed?
  {
    var x := Operate(oracle, net, ops[..n]);
    var (r, net1) := SendOne(oracle, x.net, ops[n]);
    if r.Succeeded? {
      OperateConcat(oracle, net, ops[..n], [ops[n]]);
      assert ops[..n + 1] == ops[..n] + [ops[n]];
      assert [ops[n]][1..] == [];
      assert Operate(oracle, x.net, [ops[n]]) == Batch([r] + [], net1, None);
    } else {
      OperateConcat(oracle, net, ops[..n], ops[n..]);
      assert ops == ops[..n] + ops[n..];
    }
  }

  /** Operations that failed are passed over by the rollback. */
  lemma {:induction false} UndoOnlySent(oracle: Oracle, net: Net, reqs: seq<Request>, results: seq<Result>, n: nat)
    requires n <= |reqs| == |results| && forall i :: n <= i < |reqs| ==> results[i].Failed?
    ensures UndoAll(oracle, net, reqs, results) == UndoAll(oracle, net, reqs[..n], results[..n])
    decreases |reqs|
  {
    if n == |reqs| {
      assert reqs[..n] == reqs && results[..n] == results;
    } else {
      var l := |reqs| - 1;
      UndoOnlySent(oracle, net, reqs[..l], results[..l], n);
      assert reqs[..l][..n] == reqs[..n] && results[..l][..n] == results[..n];
    }
  }

  /** And by the refreshing of the pool cache. */
  lemma {:induction false} RefreshOnlySent(pools: PoolMap, reqs: seq<Request>, results: seq<Result>, n: nat)
    requires n <= |reqs| == |results| && forall i :: n <= i < |reqs| ==> results[i].Failed?
    ensures Refresh(pools, reqs, results) == Refresh(pools, reqs[..n], results[..n])
    decreases |reqs|
  {
    if n == |reqs| {
      assert reqs[..n] == reqs && results[..n] == results;
    } else {
      var l := |reqs| - 1;
      RefreshTurn(pools, reqs, results, l);
      assert reqs[..l + 1] == reqs && results[..l + 1] == results;
      RefreshOnlySent(pools, reqs[..l], results[..l], n);
      assert reqs[..l][..n] == reqs[..n] && results[..l][..n] == results[..n];
    }
  }

  // ---------- the Service worker, syncing ----------

  /** The batch of the sync that started in `st`. */
  function BatchOf(c: Cluster, st: State, svc: Service, e: Endpoints, order: seq<PortProtocol>,
                   order2: seq<ListenerKey>): Ops {
    ServiceOps(st.pools, svc, e, Lister(c.svcs, svc.Key()), order, order2)
  }

  /** The Endpoints were found and the version comparison did not end the sync. */
  ghost predicate Past(c: Cluster, st: State, svc: Service, e: Endpoints) {
    svc.Key() in c.eps && e == c.eps[svc.Key()] && !UpToDate(st.vss, svc)
  }

  ghost predicate OrderOk(c: Cluster, svc: Service, e: Endpoints, order: seq<PortProtocol>) {
    svc.Key() in c.svcs ==>
      var r := Resolve(c.svcs[svc.Key()], ReadyPorts(e.subsets)); r.Found? ==> Enumerates(order, r.pps)
  }

  ghost predicate Order2Ok(svc: Service, order2: seq<ListenerKey>) {
    Enumerates(order2, MetaOf(svc, []).poolMap.Keys)
  }

  /** The sync has come to its batch. */
  ghost predicate Batching(c: Cluster, was: State, svc: Service, e: Endpoints, order: seq<PortProtocol>,
                           order2: seq<ListenerKey>, ops: seq<Request>) {
    && Past(c, was, svc, e) && OrderOk(c, svc, e, order) && Order2Ok(svc, order2)
    && BatchOf(c, was, svc, e, order, order2) == Ops(ops)
  }

  /** Half way through a batch: the first `|results|` requests went through. */
  ghost predicate SentSoFar(oracle: Oracle, was: State, ops: seq<Request>, results: seq<Result>, now: State) {
    && |results| < |ops| && now == was.(net := now.net)
    && Operate(oracle, was.net, ops[..|results|]) == Batch(results, now.net, None)
  }

  /** Half way through a rollback: what is left of it ends as the whole of it. */
  ghost predicate UndoneSoFar(oracle: Oracle, was: State, ops: seq<Request>, done: seq<Request>, results: seq<Result>,
                              now: State) {
    && |done| == |results| && now == was.(net := now.net)
    && var b := Operate(oracle, was.net, ops);
       && b.err.Some?
       && var u, v := UndoAll(oracle, b.net, ops, b.results), UndoAll(oracle, now.net, done, results);
          u.net == v.net && u.crashed == v.crashed
  }

  /** Half way through the filling of the caches; `half` when the next pool is in its cache but not linked yet. */
  ghost predicate FilledSoFar(oracle: Oracle, was: State, key: NamespaceName, ops: seq<Request>, results: seq<Result>,
                              n: nat, half: bool, now: State) {
    var b := Operate(oracle, was.net, ops);
    && b.err.None? && results == b.results && n <= |ops|
    && var f := Fill(was.(net := b.net), key, ops[..n], results[..n]);
       && f.Some?
       && if !half then now == f.value
          else
            && n < |ops| && results[n].Succeeded? && ops[n].model == "Pool"
            && AddPools(f.value.pools, ops[n].tenant, Elems(results[n].resp, "pool")) == Some(now.pools)
            && now == f.value.(pools := now.pools)
  }

  /** How far the sync of `svc` that started in `was` has come, when the worker is at `job` and the state is `now`. */
  ghost predicate SyncedSoFar(oracle: Oracle, c: Cluster, was: State, svc: Service, order: seq<PortProtocol>,
                              order2: seq<ListenerKey>, now: State, job: SvcJob) {
    match job
    case Chosen(s) => s == svc && now == was
    case Looked(s, e) => s == svc && now == was && svc.Key() in c.eps && e == c.eps[svc.Key()]
    case Checked(s, e) => s == svc && now == was && Past(c, was, svc, e)
    case Naming(s, e, names, n, ops) =>
      && s == svc && now == was && Past(c, was, svc, e) && OrderOk(c, svc, e, order)
      && PoolPart(was.pools, svc, e, Lister(c.svcs, svc.Key()), order)
         == BuildOps(was.pools, e, CrudHashKey(svc.Key()), names)
      && n <= |names| && BuildOps(was.pools, e, CrudHashKey(svc.Key()), names[..n]) == Ops(ops)
    case Sending(s, e, ops, _, results) =>
      s == svc && Batching(c, was, svc, e, order, order2, ops) && SentSoFar(oracle, was, ops, results, now)
    case Undoing(s, e, done, results) =>
      && s == svc
      && exists ops :: Batching(c, was, svc, e, order, order2, ops) && UndoneSoFar(oracle, was, ops, done, results, now)
    case Filling(s, e, ops, _, results, n, half) =>
      && s == svc && Batching(c, was, svc, e, order, order2, ops)
      && FilledSoFar(oracle, was, svc.Key(), ops, results, n, half, now)
    case Idle =>
      && SyncEnds(oracle, c, was, svc, order, order2, now)
      && (svc.Key() in c.eps && !UpToDate(was.vss, svc) ==>
           OrderOk(c, svc, c.eps[svc.Key()], order) && Order2Ok(svc, order2))
    case _ => false
  }

  /** The sync does not die, and leaves the state as it is now. */
  ghost predicate SyncEnds(oracle: Oracle, c: Cluster, was: State, svc: Service, order: seq<PortProtocol>,
                           order2: seq<ListenerKey>, now: State) {
    var k := svc.Key();
    var ran := SyncService(oracle, was, svc, Lister(c.eps, k), Lister(c.svcs, k), order, order2);
    ran.Ran? && ran.st == now
  }

  /** The batch decides how the sync ends. */
  lemma {:induction false} BatchEnds(oracle: Oracle, c: Cluster, was: State, svc: Service, e: Endpoints,
                                     order: seq<PortProtocol>, order2: seq<ListenerKey>, ops: seq<Request>, now: State)
    requires Batching(c, was, svc, e, order, order2, ops)
    ensures SyncService(oracle, was, svc, Lister(c.eps, svc.Key()), Lister(c.svcs, svc.Key()), order, order2)
         == Batched(oracle, was, svc.Key(), ops)
    ensures var ran := Batched(oracle, was, svc.Key(), ops);
      ran.Ran? && ran.st == now ==> SyncedSoFar(oracle, c, was, svc, order, order2, now, Idle)
  {
  }

  lemma {:induction false} NamesTracked(oracle: Oracle, c: Cluster, st: State, svc: Service,
                                        order: seq<PortProtocol>, order2: seq<ListenerKey>, e: Endpoints)
    requires Past(c, st, svc, e) && NamesTurn(c, st, Checked(svc, e), order).Some?
    ensures var p := NamesTurn(c, st, Checked(svc, e), order).value;
      SyncedSoFar(oracle, c, st, svc, order, order2, p.0, p.1)
  {
    var p := NamesTurn(c, st, Checked(svc, e), order).value;
    assert p.1.names[..0] == [];
  }

  /** One more name: the operations built so far, or a panic for all of them. */
  lemma {:induction false} NamedMore(pools: PoolMap, e: Endpoints, hash: string, names: seq<string>, n: nat,
                                     ops: seq<Request>)
    requires n < |names| && BuildOps(pools, e, hash, names[..n]) == Ops(ops)
    ensures match BuildOne(pools, e, hash, names[n], ops)
      case Some(more) => BuildOps(pools, e, hash, names[..n + 1]) == Ops(more)
      case None => BuildOps(pools, e, hash, names).Panicked?
  {
    assert names[..n + 1][..n] == names[..n];
    if BuildOne(pools, e, hash, names[n], ops).None? {
      StillPanicked(pools, e, hash, names, n + 1);
    }
  }

  lemma {:induction false} BuildTracked(oracle: Oracle, c: Cluster, was: State, svc: Service,
                                        order: seq<PortProtocol>, order2: seq<ListenerKey>, now: State, job: SvcJob)
    requires SyncedSoFar(oracle, c, was, svc, order, order2, now, job) && BuildTurn(now, job).Some?
    ensures var p := BuildTurn(now, job).value; SyncedSoFar(oracle, c, was, svc, order, order2, p.0, p.1)
  {
    NamedMore(was.pools, job.e, CrudHashKey(svc.Key()), job.names, job.n, job.ops);
  }

  lemma {:induction false} VsTracked(oracle: Oracle, c: Cluster, was: State, svc: Service, order: seq<PortProtocol>,
                                     order2: seq<ListenerKey>, now: State, job: SvcJob)
    requires SyncedSoFar(oracle, c, was, svc, order, order2, now, job) && job.Naming? && job.n >= |job.names|
    requires Order2Ok(svc, order2)
    ensures var next := Sending(job.svc, job.e, job.ops + VsOps(MetaOf(job.svc, job.ops), order2), |job.ops|, []);
      SyncedSoFar(oracle, c, was, svc, order, order2, now, next)
  {
    assert job.names[..job.n] == job.names;
    var ops := job.ops + VsOps(MetaOf(job.svc, job.ops), order2);
    assert ops[..0] == [];
  }

  /** One request. */
  lemma {:induction false} SentMore(oracle: Oracle, was: State, now: State, job: SvcJob)
    requires job.Sending? && SendTurn(oracle, now, job).Some?
    requires SentSoFar(oracle, was, job.ops, job.results, now)
    ensures var (t, next) := SendTurn(oracle, now, job).value;
      && (next.Sending? ==> next == Sending(job.svc, job.e, job.ops, job.pools, next.results)
                            && SentSoFar(oracle, was, job.ops, next.results, t))
      && (next.Undoing? ==> next == Undoing(job.svc, job.e, next.ops, next.results)
                            && UndoneSoFar(oracle, was, job.ops, next.ops, next.results, t))
      && (next.Filling? ==> next == Filling(job.svc, job.e, job.ops, job.pools, next.results, 0, false)
                            && FilledSoFar(oracle, was, job.svc.Key(), job.ops, next.results, 0, false, t))
      && (next.Sending? || next.Undoing? || next.Filling?)
  {
    var ops, n := job.ops, |job.results|;
    var r := SendOne(oracle, now.net, ops[n]).0;
    OneMoreSent(oracle, was.net, ops, n);
    if r.Failed? {
      var b := Operate(oracle, was.net, ops);
      UndoOnlySent(oracle, b.net, ops, b.results, n);
    } else if n + 1 == |ops| {
      assert ops[..n + 1] == ops && ops[..0] == [];
    }
  }

  lemma {:induction false} SendTracked(oracle: Oracle, c: Cluster, was: State, svc: Service, order: seq<PortProtocol>,
                                       order2: seq<ListenerKey>, now: State, job: SvcJob)
    requires SyncedSoFar(oracle, c, was, svc, order, order2, now, job) && SendTurn(oracle, now, job).Some?
    ensures var p := SendTurn(oracle, now, job).value; SyncedSoFar(oracle, c, was, svc, order, order2, p.0, p.1)
  {
    SentMore(oracle, was, now, job);
  }

  /** One operation of the rollback. */
  lemma {:induction false} UndoneMore(oracle: Oracle, was: State, ops: seq<Request>, now: State, job: SvcJob)
    requires job.Undoing? && job.ops != [] && UnsendTurn(oracle, now, job).Some?
    requires UndoneSoFar(oracle, was, ops, job.ops, job.results, now)
    ensures var (t, next) := UnsendTurn(oracle, now, job).value;
      && next == Undoing(job.svc, job.e, next.ops, next.results)
      && UndoneSoFar(oracle, was, ops, next.ops, next.results, t)
  {
  }

  /** Nothing is left to undo, and the sync is over. */
  lemma {:induction false} UndoneAll(oracle: Oracle, was: State, key: NamespaceName, ops: seq<Request>, now: State)
    requires UndoneSoFar(oracle, was, ops, [], [], now)
    ensures var ran := Batched(oracle, was, key, ops); ran.Ran? && ran.st == now && ran.err.Transient?
  {
  }

  lemma {:induction false} UndoTracked(oracle: Oracle, c: Cluster, was: State, svc: Service, order: seq<PortProtocol>,
                                       order2: seq<ListenerKey>, now: State, job: SvcJob)
    requires SyncedSoFar(oracle, c, was, svc, order, order2, now, job) && UnsendTurn(oracle, now, job).Some?
    ensures var p := UnsendTurn(oracle, now, job).value; SyncedSoFar(oracle, c, was, svc, order, order2, p.0, p.1)
  {
    var ops :| Batching(c, was, svc, job.e, order, order2, ops)
      && UndoneSoFar(oracle, was, ops, job.ops, job.results, now);
    if job.ops != [] {
      UndoneMore(oracle, was, ops, now, job);
    } else {
      UndoneAll(oracle, was, svc.Key(), ops, now);
      BatchEnds(oracle, c, was, svc, job.e, order, order2, ops, now);
    }
  }

  /** One cache operation. */
  lemma {:induction false} FilledMore(oracle: Oracle, was: State, now: State, job: SvcJob)
    requires job.Filling? && job.n < |job.ops| && CacheTurn(now, job).Some?
    requires FilledSoFar(oracle, was, job.svc.Key(), job.ops, job.results, job.n, job.half, now)
    ensures var (t, next) := CacheTurn(now, job).value;
      && next == Filling(job.svc, job.e, job.ops, job.pools, job.results, next.n, next.half)
      && FilledSoFar(oracle, was, job.svc.Key(), job.ops, job.results, next.n, next.half, t)
  {
    FillTurn(was.(net := Operate(oracle, was.net, job.ops).net), job.svc.Key(), job.ops, job.results, job.n);
  }

  /** The caches are filled, and the sync is over. */
  lemma {:induction false} FilledAll(oracle: Oracle, was: State, key: NamespaceName, ops: seq<Request>,
                                     results: seq<Result>, now: State)
    requires FilledSoFar(oracle, was, key, ops, results, |ops|, false, now)
    ensures Batched(oracle, was, key, ops) == Ran(now, NoError, ops)
  {
    assert ops[..|ops|] == ops && results[..|ops|] == results;
  }

  lemma {:induction false} FillTracked(oracle: Oracle, c: Cluster, was: State, svc: Service, order: seq<PortProtocol>,
                                       order2: seq<ListenerKey>, now: State, job: SvcJob)
    requires SyncedSoFar(oracle, c, was, svc, order, order2, now, job) && CacheTurn(now, job).Some?
    ensures var p := CacheTurn(now, job).value; SyncedSoFar(oracle, c, was, svc, order, order2, p.0, p.1)
  {
    if job.n < |job.ops| {
      FilledMore(oracle, was, now, job);
    } else {
      FilledAll(oracle, was, svc.Key(), job.ops, job.results, now);
      BatchEnds(oracle, c, was, svc, job.e, order, order2, job.ops, now);
    }
  }

  // ---------- the Service worker, deleting ----------

  /** The pools behind the "service" links among `es`. */
  ghost function PoolsBehind(k: NamespaceName, es: set<string>): set<NamespaceName> {
    set e | e in es && Prefix(e) == "service" && PoolIn(e).Some? :: NamespaceName(k.ns, PoolIn(e).value)
  }

  lemma {:induction false} PoolsBehindMore(k: NamespaceName, es: set<string>, e: string)
    ensures PoolsBehind(k, es + {e}) == PoolsBehind(k, es)
              + (if Prefix(e) == "service" && PoolIn(e).Some? then {NamespaceName(k.ns, PoolIn(e).value)} else {})
  {
  }

  lemma {:induction false} BehindAllLinks(links: Relation, k: NamespaceName)
    ensures PoolsBehind(k, ValuesOf(links, k)) == Linked(links, k)
  {
    forall e
      ensures e in ValuesOf(links, k) <==> (k, e) in links
    {
    }
    forall q | q in PoolsBehind(k, ValuesOf(links, k))
      ensures q in Linked(links, k)
    {
      var e :| e in ValuesOf(links, k) && Prefix(e) == "service" && PoolIn(e).Some?
        && q == NamespaceName(k.ns, PoolIn(e).value);
      assert (k, e) in links;
    }
  }

  lemma {:induction false} BareService()
    ensures Prefix("service") == "service" && PoolIn("service").None?
  {
    SplitFree("service", '/');
  }

  /** The far side once the virtual service of `k` was looked up and its deletion requested. */
  ghost function NetAfter(oracle: Oracle, was: State, k: NamespaceName): Net {
    var del := Fate(oracle, was.net.clock + 1);
    Net(if del.Applied() then EraseService(was.net.remote, k, del.gone) else was.net.remote, was.net.clock + 2)
  }

  /** How far the deletion of `k` that started in `was` has come. */
  ghost predicate DeletedSoFar(oracle: Oracle, was: State, k: NamespaceName, now: State, job: SvcJob) {
    var all := ValuesOf(was.links, k);
    match job
    case Absent(j) => j == k && now == was
    case Doomed(j) => j == k && LooksUp(oracle, was) && now == was.(net := Net(was.net.remote, was.net.clock + 1))
    case Erased(j) => j == k && LooksUp(oracle, was) && now == was.(net := NetAfter(oracle, was, k))
    case Dropping(j, todo) =>
      && j == k && LooksUp(oracle, was) && todo <= all && "service" !in all - todo
      && now == was.(net := NetAfter(oracle, was, k), pools := was.pools - PoolsBehind(k, all - todo))
    case Unlinking(j, todo) =>
      && j == k && LooksUp(oracle, was) && todo <= all && "service" !in all
      && now == was.(net := NetAfter(oracle, was, k), pools := was.pools - PoolsBehind(k, all),
                     links := Pruned(was.links, k, "service", all - todo))
    case Idle => var ran := DeleteService(oracle, was, k); ran.Ran? && ran.st == now
    case _ => false
  }

  /** The lookup of the virtual service goes through. */
  ghost predicate LooksUp(oracle: Oracle, was: State) {
    !Fate(oracle, was.net.clock).verdict.Failure?
  }

  lemma {:induction false} GetTracked(oracle: Oracle, was: State, k: NamespaceName, now: State, job: SvcJob)
    requires DeletedSoFar(oracle, was, k, now, job) && GetTurn(oracle, now, job).Some?
    ensures var p := GetTurn(oracle, now, job).value; DeletedSoFar(oracle, was, k, p.0, p.1)
  {
  }

  lemma {:induction false} MacroTracked(oracle: Oracle, was: State, k: NamespaceName, now: State, job: SvcJob)
    requires DeletedSoFar(oracle, was, k, now, job) && MacroTurn(oracle, now, job).Some?
    ensures var p := MacroTurn(oracle, now, job).value; DeletedSoFar(oracle, was, k, p.0, p.1)
  {
  }

  lemma {:induction false} DropTracked(oracle: Oracle, was: State, k: NamespaceName, now: State, job: SvcJob,
                                       link: string)
    requires DeletedSoFar(oracle, was, k, now, job) && DropTurn(now, job, link).Some?
    ensures var p := DropTurn(now, job, link).value; DeletedSoFar(oracle, was, k, p.0, p.1)
  {
    var all := ValuesOf(was.links, k);
    BareService();
    assert all - (job.todo - {link}) == (all - job.todo) + {link};
    PoolsBehindMore(k, all - job.todo, link);
  }

  lemma {:induction false} UnlinkTracked(oracle: Oracle, was: State, k: NamespaceName, now: State, job: SvcJob,
                                         link: string)
    requires DeletedSoFar(oracle, was, k, now, job) && UnlinkTurn(now, job, link).Some?
    ensures var p := UnlinkTurn(now, job, link).value; DeletedSoFar(oracle, was, k, p.0, p.1)
  {
    var all := ValuesOf(was.links, k);
    assert all - (job.todo - {link}) == (all - job.todo) + {link};
    PrunedMore(was.links, k, "service", all - job.todo, link);
  }

  /** Between the loops of a deletion. */
  lemma {:induction false} RangesTracked(oracle: Oracle, was: State, k: NamespaceName, now: State, job: SvcJob)
    requires DeletedSoFar(oracle, was, k, now, job)
    ensures job.Erased? ==> DeletedSoFar(oracle, was, k, now, Dropping(k, ValuesOf(now.links, k)))
    ensures job.Dropping? && job.todo == {} ==>
      DeletedSoFar(oracle, was, k, now, Unlinking(k, ValuesOf(now.links, k)))
    ensures job.Unlinking? && job.todo == {} ==> DeletedSoFar(oracle, was, k, now.(vss := now.vss - {k}), Idle)
  {
    var all := ValuesOf(was.links, k);
    assert all - all == {} && all - {} == all;
    BehindAllLinks(was.links, k);
    assert PoolsBehind(k, {}) == {} && was.pools - {} == was.pools;
    assert Pruned(was.links, k, "service", {}) == was.links;
    assert forall e :: (k, e) in was.links ==> e in all;
    assert Pruned(was.links, k, "service", all) == Forget(was, k).links;
  }

  lemma {:induction false} DeleteTracked(oracle: Oracle, c: Cluster, was: State, k: NamespaceName, now: State,
                                         job: SvcJob, e: Turn)
    requires DeletedSoFar(oracle, was, k, now, job) && !e.SvcTake? && SvcStep(oracle, c, now, job, e).Some?
    ensures var p := SvcStep(oracle, c, now, job, e).value; DeletedSoFar(oracle, was, k, p.0, p.1)
  {
    match e
    case SvcDrop(link) => DropTracked(oracle, was, k, now, job, link);
    case SvcUnlink(link) => UnlinkTracked(oracle, was, k, now, job, link);
    case SvcGet => GetTracked(oracle, was, k, now, job);
    case SvcMacro => MacroTracked(oracle, was, k, now, job);
    case _ => RangesTracked(oracle, was, k, now, job);
  }

  // ---------- the Service worker alone ----------

  /** How far the worker has come with the key `k` that it took in world `w`. */
  ghost predicate ServiceSoFar(oracle: Oracle, w: World, k: NamespaceName, order: seq<PortProtocol>,
                               order2: seq<ListenerKey>, now: State, job: SvcJob) {
    if k in w.cluster.svcs
    then SyncedSoFar(oracle, w.cluster, w.st, w.cluster.svcs[k], order, order2, now, job)
    else DeletedSoFar(oracle, w.st, k, now, job)
  }

  /** The map orders that have come up after one more turn. */
  function OrderAfter(e: Turn, order: seq<PortProtocol>): seq<PortProtocol> {
    if e.SvcNames? then e.order else order
  }

  function Order2After(e: Turn, order2: seq<ListenerKey>): seq<ListenerKey> {
    if e.SvcVs? then e.order2 else order2
  }

  /** The reading turns before the batch. */
  lemma {:induction false} ReadTracked(oracle: Oracle, c: Cluster, was: State, svc: Service, order: seq<PortProtocol>,
                                       order2: seq<ListenerKey>, now: State, job: SvcJob, e: Turn)
    requires SyncedSoFar(oracle, c, was, svc, order, order2, now, job) && (e.SvcLook? || e.SvcCheck?)
      && SvcStep(oracle, c, now, job, e).Some?
    ensures var p := SvcStep(oracle, c, now, job, e).value;
      SyncedSoFar(oracle, c, was, svc, order, order2, p.0, p.1)
  {
  }

  /** A worker that is deleting. */
  predicate Deleting(job: SvcJob) {
    job.Absent? || job.Doomed? || job.Erased? || job.Dropping? || job.Unlinking?
  }

  /** What is left are turns of a deletion, and of the other worker. */
  lemma {:induction false} NoSyncTurn(oracle: Oracle, c: Cluster, now: State, job: SvcJob, e: Turn)
    requires !Deleting(job) && SvcStep(oracle, c, now, job, e).Some?
    ensures e.SvcTake? || e.SvcLook? || e.SvcCheck? || e.SvcNames? || e.SvcBuild? || e.SvcVs? || e.SvcSend?
      || e.SvcUndo? || e.SvcFill?
  {
  }

  lemma {:induction false} SyncTracked(oracle: Oracle, c: Cluster, was: State, svc: Service, order: seq<PortProtocol>,
                                       order2: seq<ListenerKey>, now: State, job: SvcJob, e: Turn)
    requires SyncedSoFar(oracle, c, was, svc, order, order2, now, job) && !e.SvcTake?
      && SvcStep(oracle, c, now, job, e).Some?
    ensures var p := SvcStep(oracle, c, now, job, e).value;
      SyncedSoFar(oracle, c, was, svc, OrderAfter(e, order), Order2After(e, order2), p.0, p.1)
  {
    NoSyncTurn(oracle, c, now, job, e);
    match e
    case SvcLook => ReadTracked(oracle, c, was, svc, order, order2, now, job, e);
    case SvcCheck => ReadTracked(oracle, c, was, svc, order, order2, now, job, e);
    case SvcNames(o) => NamesTracked(oracle, c, was, svc, o, order2, job.e);
    case SvcBuild => BuildTracked(oracle, c, was, svc, order, order2, now, job);
    case SvcVs(o) => VsTracked(oracle, c, was, svc, order, o, now, job);
    case SvcSend => SendTracked(oracle, c, was, svc, order, order2, now, job);
    case SvcUndo => UndoTracked(oracle, c, was, svc, order, order2, now, job);
    case SvcFill => FillTracked(oracle, c, was, svc, order, order2, now, job);
  }

  lemma {:induction false} ServiceTracked(oracle: Oracle, w: World, k: NamespaceName, order: seq<PortProtocol>,
                                          order2: seq<ListenerKey>, now: State, job: SvcJob, e: Turn)
    requires ServiceSoFar(oracle, w, k, order, order2, now, job) && !e.SvcTake?
      && SvcStep(oracle, w.cluster, now, job, e).Some?
    ensures var p := SvcStep(oracle, w.cluster, now, job, e).value;
      ServiceSoFar(oracle, w, k, OrderAfter(e, order), Order2After(e, order2), p.0, p.1)
  {
    if k in w.cluster.svcs {
      SyncTracked(oracle, w.cluster, w.st, w.cluster.svcs[k], order, order2, now, job, e);
    } else {
      DeleteTracked(oracle, w.cluster, w.st, k, now, job, e);
    }
  }

  /** A worker that is done has done what the handler of the key does. */
  lemma {:induction false} ServiceDone(oracle: Oracle, w: World, k: NamespaceName, order: seq<PortProtocol>,
                                       order2: seq<ListenerKey>, now: State)
    returns (o: seq<PortProtocol>, o2: seq<ListenerKey>)
    requires ClusterInv(w.cluster) && ServiceSoFar(oracle, w, k, order, order2, now, Idle)
    ensures Next(oracle, w, ServiceKey(k, o, o2), w.(st := now))
  {
    o, o2 := order, order2;
    var ran: Ran;
    if k in w.cluster.svcs {
      var svc := w.cluster.svcs[k];
      if k in w.cluster.eps && UpToDate(w.st.vss, svc) {
        var r := Resolve(svc, ReadyPorts(w.cluster.eps[k].subsets));
        o := SomeOrder(if r.Found? then r.pps else {});
        o2 := SomeOrder(MetaOf(svc, []).poolMap.Keys);
      }
      ran := SyncService(oracle, w.st, svc, Lister(w.cluster.eps, k), Some(svc), o, o2);
    } else {
      ran := DeleteService(oracle, w.st, k);
    }
    assert ServiceStep(oracle, w, k, o, o2, ran);
  }

  // ---------- it gets to the end ----------

  /** What the worker does next. */
  ghost function NextTurn(job: SvcJob, order: seq<PortProtocol>, order2: seq<ListenerKey>): Turn
    requires !job.Idle?
  {
    match job
    case Chosen(_) => SvcLook
    case Looked(_, _) => SvcCheck
    case Checked(_, _) => SvcNames(order)
    case Naming(_, _, names, n, _) => if n < |names| then SvcBuild else SvcVs(order2)
    case Sending(_, _, _, _, _) => SvcSend
    case Undoing(_, _, _, _) => SvcUndo
    case Filling(_, _, _, _, _, _, _) => SvcFill
    case Absent(_) => SvcGet
    case Doomed(_) => SvcMacro
    case Erased(_) => SvcRange
    case Dropping(_, todo) => if todo == {} then SvcDropped else var e :| e in todo; SvcDrop(e)
    case Unlinking(_, todo) => if todo == {} then SvcForget else var e :| e in todo; SvcUnlink(e)
  }

  /** How many kinds of turns are ahead. */
  function Phase(job: SvcJob): nat {
    match job
    case Idle => 0
    case Chosen(_) => 7
    case Looked(_, _) => 6
    case Checked(_, _) => 5
    case Naming(_, _, _, _, _) => 4
    case Sending(_, _, _, _, _) => 3
    case Undoing(_, _, _, _) => 2
    case Filling(_, _, _, _, _, _, _) => 1
    case Absent(_) => 5
    case Doomed(_) => 4
    case Erased(_) => 3
    case Dropping(_, _) => 2
    case Unlinking(_, _) => 1
  }

  /** How many turns of one kind are ahead. */
  function Ahead(job: SvcJob): nat {
    match job
    case Naming(_, _, names, n, _) => if n < |names| then |names| - n else 0
    case Sending(_, _, ops, _, results) => if |results| < |ops| then |ops| - |results| else 0
    case Undoing(_, _, ops, _) => |ops|
    case Filling(_, _, ops, _, _, n, half) => if n < |ops| then 2 * (|ops| - n) - (if half then 1 else 0) else 0
    case Dropping(_, todo) => |todo|
    case Unlinking(_, todo) => |todo|
    case _ => 0
  }

  ghost predicate Nearer(job: SvcJob, next: SvcJob) {
    Phase(next) < Phase(job) || (Phase(next) == Phase(job) && Ahead(next) < Ahead(job))
  }

  /** The turn `e` can be taken, and brings the worker nearer to its end. */
  ghost predicate Advances(oracle: Oracle, c: Cluster, now: State, job: SvcJob, e: Turn) {
    var p := SvcStep(oracle, c, now, job, e);
    p.Some? && Nearer(job, p.value.1)
  }

  /** A batch that cannot be built from its first names cannot be built. */
  lemma {:induction false} StillPanicked(pools: PoolMap, e: Endpoints, hash: string, names: seq<string>, n: nat)
    requires n <= |names| && BuildOps(pools, e, hash, names[..n]).Panicked?
    ensures BuildOps(pools, e, hash, names).Panicked?
    decreases |names|
  {
    if n < |names| {
      assert names[..|names| - 1][..n] == names[..n];
      StillPanicked(pools, e, hash, names[..|names| - 1], n);
    } else {
      assert names[..n] == names;
    }
  }

  lemma {:induction false} StillUnfilled(st: State, key: NamespaceName, reqs: seq<Request>, results: seq<Result>,
                                         n: nat)
    requires n <= |reqs| == |results| && Fill(st, key, reqs[..n], results[..n]).None?
    ensures Fill(st, key, reqs, results).None?
    decreases |reqs|
  {
    if n < |reqs| {
      var l := |reqs| - 1;
      assert reqs[..l][..n] == reqs[..n] && results[..l][..n] == results[..n];
      StillUnfilled(st, key, reqs[..l], results[..l], n);
    } else {
      assert reqs[..n] == reqs && results[..n] == results;
    }
  }

  /** Pools that cannot be built are the death of a sync that has come so far. */
  lemma {:induction false} PanickedPart(oracle: Oracle, c: Cluster, was: State, svc: Service, e: Endpoints,
                                        order: seq<PortProtocol>, order2: seq<ListenerKey>)
    requires Past(c, was, svc, e) && PoolPart(was.pools, svc, e, Lister(c.svcs, svc.Key()), order).Panicked?
    ensures SyncService(oracle, was, svc, Lister(c.eps, svc.Key()), Lister(c.svcs, svc.Key()), order, order2).Died?
  {
  }

  lemma {:induction false} CheckedAdvances(oracle: Oracle, c: Cluster, was: State, svc: Service, e: Endpoints,
                                           order: seq<PortProtocol>, order2: seq<ListenerKey>)
    requires Past(c, was, svc, e) && OrderOk(c, svc, e, order)
    requires SyncService(oracle, was, svc, Lister(c.eps, svc.Key()), Lister(c.svcs, svc.Key()), order, order2).Ran?
    ensures Advances(oracle, c, was, Checked(svc, e), SvcNames(order))
  {
    if NamesTurn(c, was, Checked(svc, e), order).None? {
      PanickedPart(oracle, c, was, svc, e, order, order2);
    }
  }

  lemma {:induction false} BuildAdvances(was: State, job: SvcJob, ops: Ops)
    requires job.Naming? && job.n < |job.names|
    requires ops == BuildOps(was.pools, job.e, CrudHashKey(job.svc.Key()), job.names)
    requires BuildOps(was.pools, job.e, CrudHashKey(job.svc.Key()), job.names[..job.n]) == Ops(job.ops)
    ensures ops.Ops? ==> BuildTurn(was, job).Some?
  {
    NamedMore(was.pools, job.e, CrudHashKey(job.svc.Key()), job.names, job.n, job.ops);
  }

  /** Taking a turn over a name brings the worker on. */
  lemma {:induction false} NamedAdvances(oracle: Oracle, c: Cluster, now: State, job: SvcJob)
    requires job.Naming? && job.n < |job.names| && BuildTurn(now, job).Some?
    ensures Advances(oracle, c, now, job, SvcBuild)
  {
    assert SvcStep(oracle, c, now, job, SvcBuild) == BuildTurn(now, job);
    var next := BuildTurn(now, job).value.1;
    assert next.Naming? && next.names == job.names && next.n == job.n + 1;
  }

  /** So does building the virtual service. */
  lemma {:induction false} VsAdvances(oracle: Oracle, c: Cluster, now: State, job: SvcJob, order2: seq<ListenerKey>)
    requires job.Naming? && job.n >= |job.names| && Order2Ok(job.svc, order2)
    ensures Advances(oracle, c, now, job, SvcVs(order2))
  {
    var p := SvcStep(oracle, c, now, job, SvcVs(order2));
    assert p.Some? && p.value.1.Sending?;
  }

  /** The names of a sync that does not die are all turned into operations. */
  lemma {:induction false} PartBuilds(oracle: Oracle, c: Cluster, was: State, svc: Service, order: seq<PortProtocol>,
                                      order2: seq<ListenerKey>, now: State, job: SvcJob)
    requires SyncedSoFar(oracle, c, was, svc, order, order2, now, job) && job.Naming? && job.n < |job.names|
    requires SyncService(oracle, was, svc, Lister(c.eps, svc.Key()), Lister(c.svcs, svc.Key()), order, order2).Ran?
    ensures BuildTurn(now, job).Some?
  {
    var part := PoolPart(was.pools, svc, job.e, Lister(c.svcs, svc.Key()), order);
    if part.Panicked? {
      PanickedPart(oracle, c, was, svc, job.e, order, order2);
    }
    BuildAdvances(was, job, part);
  }

  lemma {:induction false} NamingAdvances(oracle: Oracle, c: Cluster, was: State, svc: Service,
                                          order: seq<PortProtocol>, order2: seq<ListenerKey>, now: State, job: SvcJob)
    requires SyncedSoFar(oracle, c, was, svc, order, order2, now, job) && job.Naming? && Order2Ok(svc, order2)
    requires SyncService(oracle, was, svc, Lister(c.eps, svc.Key()), Lister(c.svcs, svc.Key()), order, order2).Ran?
    ensures Advances(oracle, c, now, job, NextTurn(job, order, order2))
  {
    if job.n < |job.names| {
      PartBuilds(oracle, c, was, svc, order, order2, now, job);
      NamedAdvances(oracle, c, now, job);
    } else {
      VsAdvances(oracle, c, now, job, order2);
    }
  }

  lemma {:induction false} UndoAdvances(oracle: Oracle, c: Cluster, was: State, key: NamespaceName, ops: seq<Request>,
                                        now: State, job: SvcJob)
    requires job.Undoing? && UndoneSoFar(oracle, was, ops, job.ops, job.results, now)
      && Batched(oracle, was, key, ops).Ran?
    ensures Advances(oracle, c, now, job, SvcUndo)
  {
  }

  lemma {:induction false} FillAdvances(oracle: Oracle, c: Cluster, was: State, now: State, job: SvcJob)
    requires job.Filling? && FilledSoFar(oracle, was, job.svc.Key(), job.ops, job.results, job.n, job.half, now)
      && Batched(oracle, was, job.svc.Key(), job.ops).Ran?
    ensures Advances(oracle, c, now, job, SvcFill)
  {
    var ops, results, n := job.ops, job.results, job.n;
    var st, key := was.(net := Operate(oracle, was.net, ops).net), job.svc.Key();
    if n < |ops| {
      FillTurn(st, key, ops, results, n);
      if CacheTurn(now, job).None? {
        StillUnfilled(st, key, ops, results, n + 1);
      }
    }
  }

  lemma {:induction false} FirstAdvances(oracle: Oracle, c: Cluster, now: State, job: SvcJob)
    ensures job.Chosen? ==> Advances(oracle, c, now, job, SvcLook)
    ensures job.Looked? ==> Advances(oracle, c, now, job, SvcCheck)
    ensures job.Sending? && |job.results| < |job.ops| ==> Advances(oracle, c, now, job, SvcSend)
  {
  }

  /** A sync that does not die always has a next turn. */
  lemma {:induction false} SyncAdvances(oracle: Oracle, c: Cluster, was: State, svc: Service,
                                        order: seq<PortProtocol>, order2: seq<ListenerKey>, now: State, job: SvcJob)
    requires SyncedSoFar(oracle, c, was, svc, order, order2, now, job) && !job.Idle?
    requires SyncService(oracle, was, svc, Lister(c.eps, svc.Key()), Lister(c.svcs, svc.Key()), order, order2).Ran?
    requires svc.Key() in c.eps ==> OrderOk(c, svc, c.eps[svc.Key()], order) && Order2Ok(svc, order2)
    ensures Advances(oracle, c, now, job, NextTurn(job, order, order2))
  {
    match job
    case Checked(_, e) => CheckedAdvances(oracle, c, was, svc, e, order, order2);
    case Naming(_, _, _, _, _) => NamingAdvances(oracle, c, was, svc, order, order2, now, job);
    case Undoing(_, _, _, _) =>
      var ops :| Batching(c, was, svc, job.e, order, order2, ops)
        && UndoneSoFar(oracle, was, ops, job.ops, job.results, now);
      BatchEnds(oracle, c, was, svc, job.e, order, order2, ops, now);
      UndoAdvances(oracle, c, was, svc.Key(), ops, now, job);
    case Filling(_, _, _, _, _, _, _) =>
      BatchEnds(oracle, c, was, svc, job.e, order, order2, job.ops, now);
      FillAdvances(oracle, c, was, now, job);
    case _ => FirstAdvances(oracle, c, now, job);
  }

  lemma {:induction false} NoSecondSegment(e: string)
    ensures Prefix(e) == "service" && PoolIn(e).None? ==> e == "service"
  {
    if '/' in e {
      var h, t := SplitHead(e, '/');
    } else {
      SplitFree(e, '/');
    }
  }

  lemma {:induction false} DropAdvances(oracle: Oracle, c: Cluster, was: State, k: NamespaceName, now: State,
                                        todo: set<string>, order: seq<PortProtocol>, order2: seq<ListenerKey>)
    requires todo <= ValuesOf(was.links, k) && (k, "service") !in was.links
    ensures Advances(oracle, c, now, Dropping(k, todo), NextTurn(Dropping(k, todo), order, order2))
  {
    if todo != {} {
      var e := NextTurn(Dropping(k, todo), order, order2).link;
      NoSecondSegment(e);
      assert e in ValuesOf(was.links, k) && |todo - {e}| < |todo|;
    }
  }

  lemma {:induction false} UnlinkAdvances(oracle: Oracle, c: Cluster, now: State, k: NamespaceName, todo: set<string>,
                                          order: seq<PortProtocol>, order2: seq<ListenerKey>)
    ensures Advances(oracle, c, now, Unlinking(k, todo), NextTurn(Unlinking(k, todo), order, order2))
  {
    if todo != {} {
      var e := NextTurn(Unlinking(k, todo), order, order2).link;
      assert |todo - {e}| < |todo|;
    }
  }

  /** Nor does a deletion that does not die ever get stuck. */
  lemma {:induction false} DeleteAdvances(oracle: Oracle, c: Cluster, was: State, k: NamespaceName, now: State,
                                          job: SvcJob, order: seq<PortProtocol>, order2: seq<ListenerKey>)
    requires DeletedSoFar(oracle, was, k, now, job) && !job.Idle? && DeleteService(oracle, was, k).Ran?
    ensures Advances(oracle, c, now, job, NextTurn(job, order, order2))
  {
    match job
    case Dropping(_, todo) => DropAdvances(oracle, c, was, k, now, todo, order, order2);
    case Unlinking(_, todo) => UnlinkAdvances(oracle, c, now, k, todo, order, order2);
    case _ =>
  }
}
