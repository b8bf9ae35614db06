/** An Endpoints worker that is left alone does what the sync of its key does: its turns refine the sync. */
module EndpointsAlone {
  import opened Wrappers
  import opened Model
  import opened Rest
  import opened Pools
  import opened Caches
  import opened Sync
  import opened Runs
  import opened Interleaving
  import opened ServiceAlone

  // ---------- how far it has come ----------

  /** The Service was found and its ports resolved. */
  ghost predicate PortsFound(c: Cluster, e: Endpoints) {
    e.Key() in c.svcs && Resolve(c.svcs[e.Key()], ReadyPorts(e.subsets)).Found?
  }

  /** The links were visited in this order, and these are the names and the metadata they gave. */
  ghost predicate Visited(was: State, e: Endpoints, order: seq<string>, names: seq<string>, hash: string) {
    && NoDup(order) && (forall x :: x in order ==> x in ValuesOf(was.links, e.Key()))
    && PoolsIn(order) == Some(names) && hash == LastHash(was.pools, e.ns, names)
  }

  /** All links were visited. */
  ghost predicate AllVisited(was: State, e: Endpoints, order: seq<string>) {
    order != [] && Enumerates(order, ValuesOf(was.links, e.Key()))
  }

  /** Half way through caching: the operations that failed or were never sent are not among `done`. */
  ghost predicate CachedSoFar(oracle: Oracle, was: State, ops: seq<Request>, done: seq<Request>, results: seq<Result>,
                              n: nat, now: State) {
    var b := Operate(oracle, was.net, ops);
    && |done| == |results| <= |ops| && n <= |done| && done == ops[..|done|] && results == b.results[..|done|]
    && (forall i :: |done| <= i < |ops| ==> b.results[i].Failed?)
    && Refresh(was.pools, done[..n], results[..n]) == Some(now.pools)
    && now == was.(net := b.net, pools := now.pools)
  }

  /** The requests that went through, while more may follow. */
  ghost predicate PostedSoFar(oracle: Oracle, was: State, ops: seq<Request>, results: seq<Result>, now: State) {
    && |results| <= |ops| && now == was.(net := now.net)
    && Operate(oracle, was.net, ops[..|results|]) == Batch(results, now.net, None)
  }

  /** How far the sync of `e` that started in `was` has come; `order` is how the links were visited. */
  ghost predicate EpSoFar(oracle: Oracle, c: Cluster, was: State, e: Endpoints, order: seq<string>, now: State,
                          job: EpJob) {
    match job
    case Taken(f) => f == e && now == was
    case Ready(f) => f == e && now == was && PortsFound(c, e)
    case Ranging(f, start, seen, names, hash) =>
      && f == e && now == was && PortsFound(c, e) && start == ValuesOf(was.links, e.Key()) && start != {}
      && Visited(was, e, order, names, hash) && forall x :: x in seen <==> x in order
    case Building(f, names, hash, n, ops) =>
      && f == e && now == was && PortsFound(c, e) && AllVisited(was, e, order) && Visited(was, e, order, names, hash)
      && n <= |names| && BuildOps(was.pools, e, hash, names[..n]) == Ops(ops)
    case Posting(f, ops, results) =>
      && f == e && PortsFound(c, e) && AllVisited(was, e, order) && EndpointsOps(was, e, order) == Ops(ops)
      && PostedSoFar(oracle, was, ops, results, now)
    case Caching(f, done, results, n) =>
      && f == e && PortsFound(c, e) && AllVisited(was, e, order)
      && exists ops :: EndpointsOps(was, e, order) == Ops(ops) && CachedSoFar(oracle, was, ops, done, results, n, now)
    case Resting =>
      && (var ran := SyncEndpoints(oracle, was, e, Lister(c.svcs, e.Key()), order); ran.Ran? && ran.st == now)
      && (PortsFound(c, e) ==> Enumerates(order, ValuesOf(was.links, e.Key())))
  }

  // ---------- turns ----------

  lemma {:induction false} LookTracked(oracle: Oracle, c: Cluster, was: State, e: Endpoints, order: seq<string>,
                                       t: Turn, job: EpJob)
    requires EpSoFar(oracle, c, was, e, order, was, job) && (t.EpLook? || t.EpRange?)
    requires EpStep(oracle, c, was, job, t).Some?
    ensures var p := EpStep(oracle, c, was, job, t).value; EpSoFar(oracle, c, was, e, [], p.0, p.1)
  {
  }

  lemma {:induction false} LinkTracked(oracle: Oracle, c: Cluster, was: State, e: Endpoints, order: seq<string>,
                                       now: State, job: EpJob, link: string)
    requires EpSoFar(oracle, c, was, e, order, now, job) && LinkTurn(now, job, link).Some?
    ensures var p := LinkTurn(now, job, link).value; EpSoFar(oracle, c, was, e, order + [link], p.0, p.1)
  {
    var more := order + [link];
    var name := PoolIn(link).value;
    assert more[..|order|] == order;
    assert (job.names + [name])[..|job.names|] == job.names;
  }

  lemma {:induction false} RangedTracked(oracle: Oracle, c: Cluster, was: State, e: Endpoints, order: seq<string>,
                                         now: State, job: EpJob)
    requires EpSoFar(oracle, c, was, e, order, now, job) && job.Ranging? && job.start <= job.seen
    ensures EpSoFar(oracle, c, was, e, order, now, Building(job.e, job.names, job.hash, 0, []))
  {
    assert job.names[..0] == [];
    var x :| x in job.start;
    assert x in order;
  }

  lemma {:induction false} EpBuildTracked(oracle: Oracle, c: Cluster, was: State, e: Endpoints, order: seq<string>,
                                          now: State, job: EpJob, ops: seq<Request>)
    requires EpSoFar(oracle, c, was, e, order, now, job) && job.Building? && job.n < |job.names|
    requires BuildOne(now.pools, job.e, job.hash, job.names[job.n], job.ops) == Some(ops)
    ensures EpSoFar(oracle, c, was, e, order, now, Building(job.e, job.names, job.hash, job.n + 1, ops))
  {
    NamedMore(was.pools, e, job.hash, job.names, job.n, job.ops);
  }

  lemma {:induction false} PostTracked(oracle: Oracle, c: Cluster, was: State, e: Endpoints, order: seq<string>,
                                       now: State, job: EpJob)
    requires EpSoFar(oracle, c, was, e, order, now, job) && job.Building? && job.n >= |job.names|
    ensures EpSoFar(oracle, c, was, e, order, now, Posting(job.e, job.ops, []))
  {
    assert job.names[..job.n] == job.names && job.ops[..0] == [];
  }

  /** One request, or the end of them. */
  lemma {:induction false} PostedMore(oracle: Oracle, was: State, now: State, job: EpJob)
    requires job.Posting? && PostedSoFar(oracle, was, job.ops, job.results, now)
    ensures EpSendTurn(oracle, now, job).Some?
    ensures var (t, next) := EpSendTurn(oracle, now, job).value;
      && (next.Posting? ==> next == Posting(job.e, job.ops, next.results)
                            && PostedSoFar(oracle, was, job.ops, next.results, t))
      && (next.Caching? ==> next == Caching(job.e, next.ops, next.results, 0)
                            && CachedSoFar(oracle, was, job.ops, next.ops, next.results, 0, t))
      && (next.Posting? || next.Caching?)
  {
    var ops, n := job.ops, |job.results|;
    if n < |ops| {
      OneMoreSent(oracle, was.net, ops, n);
      assert ops[..n][..0] == [] && job.results[..0] == [];
    } else {
      assert ops[..n] == ops && ops[..0] == [] && job.results[..0] == [];
    }
  }

  lemma {:induction false} EpSendTracked(oracle: Oracle, c: Cluster, was: State, e: Endpoints, order: seq<string>,
                                         now: State, job: EpJob)
    requires EpSoFar(oracle, c, was, e, order, now, job) && EpSendTurn(oracle, now, job).Some?
    ensures var p := EpSendTurn(oracle, now, job).value; EpSoFar(oracle, c, was, e, order, p.0, p.1)
  {
    PostedMore(oracle, was, now, job);
  }

  /** One cache operation. */
  lemma {:induction false} CachedMore(oracle: Oracle, was: State, ops: seq<Request>, now: State, job: EpJob)
    requires job.Caching? && job.n < |job.ops| && EpCacheTurn(now, job).Some?
    requires CachedSoFar(oracle, was, ops, job.ops, job.results, job.n, now)
    ensures var (t, next) := EpCacheTurn(now, job).value;
      && next == Caching(job.e, job.ops, job.results, job.n + 1)
      && CachedSoFar(oracle, was, ops, job.ops, job.results, job.n + 1, t)
  {
    RefreshTurn(was.pools, job.ops, job.results, job.n);
  }

  lemma {:induction false} CachedAll(oracle: Oracle, was: State, e: Endpoints, order: seq<string>, ops: seq<Request>,
                                     done: seq<Request>, results: seq<Result>, now: State)
    requires order != [] && EndpointsOps(was, e, order) == Ops(ops)
    requires CachedSoFar(oracle, was, ops, done, results, |done|, now)
    ensures Update(oracle, was, e, order) == Ran(now, NoError, ops)
  {
    var b := Operate(oracle, was.net, ops);
    RefreshOnlySent(was.pools, ops, b.results, |done|);
    assert done[..|done|] == done && results[..|done|] == results;
  }

  lemma {:induction false} EpCacheTracked(oracle: Oracle, c: Cluster, was: State, e: Endpoints, order: seq<string>,
                                          now: State, job: EpJob)
    requires EpSoFar(oracle, c, was, e, order, now, job) && EpCacheTurn(now, job).Some?
    ensures var p := EpCacheTurn(now, job).value; EpSoFar(oracle, c, was, e, order, p.0, p.1)
  {
    var ops :| EndpointsOps(was, e, order) == Ops(ops)
      && CachedSoFar(oracle, was, ops, job.ops, job.results, job.n, now);
    if job.n < |job.ops| {
      CachedMore(oracle, was, ops, now, job);
    } else {
      CachedAll(oracle, was, e, order, ops, job.ops, job.results, now);
    }
  }

  /** The links that have been visited after one more turn. */
  function LinksAfter(t: Turn, order: seq<string>): seq<string> {
    if t.EpLook? || t.EpRange? then [] else if t.EpLink? then order + [t.link] else order
  }

  lemma {:induction false} EpTracked(oracle: Oracle, c: Cluster, was: State, e: Endpoints, order: seq<string>,
                                     now: State, job: EpJob, t: Turn)
    requires EpSoFar(oracle, c, was, e, order, now, job) && !t.EpTake? && EpStep(oracle, c, now, job, t).Some?
    ensures var p := EpStep(oracle, c, now, job, t).value;
      EpSoFar(oracle, c, was, e, LinksAfter(t, order), p.0, p.1)
  {
    match t
    case EpLook => LookTracked(oracle, c, was, e, order, t, job);
    case EpRange => LookTracked(oracle, c, was, e, order, t, job);
    case EpLink(link) => LinkTracked(oracle, c, was, e, order, now, job, link);
    case EpRanged => RangedTracked(oracle, c, was, e, order, now, job);
    case EpBuild =>
      var ops := BuildOne(now.pools, job.e, job.hash, job.names[job.n], job.ops).value;
      EpBuildTracked(oracle, c, was, e, order, now, job, ops);
    case EpPost => PostTracked(oracle, c, was, e, order, now, job);
    case EpSend => EpSendTracked(oracle, c, was, e, order, now, job);
    case EpCache => EpCacheTracked(oracle, c, was, e, order, now, job);
  }

  /** A worker that is done has done what the handler of the key does. */
  lemma {:induction false} EpDone(oracle: Oracle, w: World, e: Endpoints, order: seq<string>, now: State)
    returns (links: seq<string>)
    requires ClusterInv(w.cluster) && e.Key() in w.cluster.eps && w.cluster.eps[e.Key()] == e
    requires EpSoFar(oracle, w.cluster, w.st, e, order, now, Resting)
    ensures Next(oracle, w, EndpointsKey(e.Key(), links), w.(st := now))
  {
    links := order;
    if !PortsFound(w.cluster, e) {
      links := SomeOrder(ValuesOf(w.st.links, e.Key()));
    }
    var ran := SyncEndpoints(oracle, w.st, e, Lister(w.cluster.svcs, e.Key()), links);
    assert EndpointsStep(oracle, w, e.Key(), links, ran);
  }

  // ---------- it gets to the end ----------

  /** What the worker does next, when it visits the links in this order. */
  function EpNextTurn(job: EpJob, links: seq<string>): Turn
    requires !job.Resting?
  {
    match job
    case Taken(_) => EpLook
    case Ready(_) => EpRange
    case Ranging(_, _, _, names, _) => if |names| < |links| then EpLink(links[|names|]) else EpRanged
    case Building(_, names, _, n, _) => if n < |names| then EpBuild else EpPost
    case Posting(_, _, _) => EpSend
    case Caching(_, _, _, _) => EpCache
  }

  function EpPhase(job: EpJob): nat {
    match job
    case Resting => 0
    case Taken(_) => 6
    case Ready(_) => 5
    case Ranging(_, _, _, _, _) => 4
    case Building(_, _, _, _, _) => 3
    case Posting(_, _, _) => 2
    case Caching(_, _, _, _) => 1
  }

  function EpAhead(job: EpJob, links: seq<string>): nat {
    match job
    case Ranging(_, _, _, names, _) => if |names| < |links| then |links| - |names| else 0
    case Building(_, names, _, n, _) => if n < |names| then |names| - n else 0
    case Posting(_, ops, results) => if |results| < |ops| then |ops| - |results| else 0
    case Caching(_, done, _, n) => if n < |done| then |done| - n else 0
    case _ => 0
  }

  /** The turn `t` can be taken, and brings the worker nearer to its end. */
  ghost predicate EpAdvances(oracle: Oracle, c: Cluster, now: State, job: EpJob, links: seq<string>, t: Turn) {
    var p := EpStep(oracle, c, now, job, t);
    && p.Some?
    && var next := p.value.1;
       EpPhase(next) < EpPhase(job) || (EpPhase(next) == EpPhase(job) && EpAhead(next, links) < EpAhead(job, links))
  }

  /** So far the worker has visited the links in this order. */
  ghost predicate OnCourse(job: EpJob, order: seq<string>, links: seq<string>) {
    match job
    case Ranging(_, _, _, names, _) => |names| <= |links| && order == links[..|names|]
    case Building(_, _, _, _, _) => order == links
    case Posting(_, _, _) => order == links
    case Caching(_, _, _, _) => order == links
    case Resting => order == links
    case _ => true
  }

  lemma {:induction false} StillNoPools(order: seq<string>, n: nat)
    requires n < |order| && PoolIn(order[n]).None?
    ensures PoolsIn(order).None?
    decreases |order|
  {
    if n < |order| - 1 {
      StillNoPools(order[..|order| - 1], n);
    }
  }

  lemma {:induction false} StillUnrefreshed(pools: PoolMap, reqs: seq<Request>, results: seq<Result>, n: nat)
    requires n <= |reqs| == |results| && Refresh(pools, reqs[..n], results[..n]).None?
    ensures Refresh(pools, reqs, results).None?
    decreases |reqs|
  {
    if n < |reqs| {
      var l := |reqs| - 1;
      assert reqs[..l][..n] == reqs[..n] && results[..l][..n] == results[..n];
      RefreshTurn(pools, reqs, results, l);
      assert reqs[..l + 1] == reqs && results[..l + 1] == results;
      StillUnrefreshed(pools, reqs[..l], results[..l], n);
    } else {
      assert reqs[..n] == reqs && results[..n] == results;
    }
  }

  lemma {:induction false} LinkedAdvances(oracle: Oracle, c: Cluster, now: State, job: EpJob, links: seq<string>)
    requires job.Ranging? && |job.names| < |links| && LinkTurn(now, job, links[|job.names|]).Some?
    ensures EpAdvances(oracle, c, now, job, links, EpLink(links[|job.names|]))
  {
  }

  lemma {:induction false} RangedAdvances(oracle: Oracle, c: Cluster, now: State, job: EpJob, links: seq<string>)
    requires job.Ranging? && job.start <= job.seen
    ensures EpAdvances(oracle, c, now, job, links, EpRanged)
  {
  }

  lemma {:induction false} LinkAdvances(oracle: Oracle, c: Cluster, was: State, e: Endpoints, order: seq<string>,
                                        links: seq<string>, job: EpJob)
    requires EpSoFar(oracle, c, was, e, order, was, job) && job.Ranging? && OnCourse(job, order, links)
    requires Enumerates(links, ValuesOf(was.links, e.Key())) && PoolsIn(links).Some?
    ensures EpAdvances(oracle, c, was, job, links, EpNextTurn(job, links))
  {
    var n := |job.names|;
    assert |order| == n;
    if n < |links| {
      if PoolIn(links[n]).None? {
        StillNoPools(links, n);
      }
      assert links[n] in links;
      assert links[n] !in order;
      LinkedAdvances(oracle, c, was, job, links);
    } else {
      assert order == links;
      RangedAdvances(oracle, c, was, job, links);
    }
  }

  lemma {:induction false} NameAdvances(oracle: Oracle, c: Cluster, now: State, job: EpJob, links: seq<string>)
    requires job.Building? && job.n < |job.names|
    requires BuildOne(now.pools, job.e, job.hash, job.names[job.n], job.ops).Some?
    ensures EpAdvances(oracle, c, now, job, links, EpBuild)
  {
  }

  lemma {:induction false} NamesDoneAdvances(oracle: Oracle, c: Cluster, now: State, job: EpJob, links: seq<string>)
    requires job.Building? && job.n >= |job.names|
    ensures EpAdvances(oracle, c, now, job, links, EpPost)
  {
  }

  lemma {:induction false} EpBuildAdvances(oracle: Oracle, c: Cluster, was: State, job: EpJob, links: seq<string>)
    requires job.Building? && BuildOps(was.pools, job.e, job.hash, job.names).Ops?
    requires job.n <= |job.names| && BuildOps(was.pools, job.e, job.hash, job.names[..job.n]) == Ops(job.ops)
    ensures EpAdvances(oracle, c, was, job, links, EpNextTurn(job, links))
  {
    if job.n < |job.names| {
      NamedMore(was.pools, job.e, job.hash, job.names, job.n, job.ops);
      NameAdvances(oracle, c, was, job, links);
    } else {
      NamesDoneAdvances(oracle, c, was, job, links);
    }
  }

  lemma {:induction false} EpPostAdvances(oracle: Oracle, c: Cluster, was: State, now: State, job: EpJob,
                                          links: seq<string>)
    requires job.Posting? && PostedSoFar(oracle, was, job.ops, job.results, now)
    ensures EpAdvances(oracle, c, now, job, links, EpSend)
  {
    PostedMore(oracle, was, now, job);
  }

  lemma {:induction false} EntryAdvances(oracle: Oracle, c: Cluster, now: State, job: EpJob, links: seq<string>)
    requires job.Caching? && EpCacheTurn(now, job).Some?
    ensures EpAdvances(oracle, c, now, job, links, EpCache)
  {
  }

  /** A response that cannot be cached is the death of the sync. */
  lemma {:induction false} EntriesAreCached(oracle: Oracle, was: State, e: Endpoints, links: seq<string>,
                                            ops: seq<Request>, now: State, job: EpJob)
    requires job.Caching? && CachedSoFar(oracle, was, ops, job.ops, job.results, job.n, now)
    requires links != [] && EndpointsOps(was, e, links) == Ops(ops) && Update(oracle, was, e, links).Ran?
    ensures EpCacheTurn(now, job).Some?
  {
    var b := Operate(oracle, was.net, ops);
    RefreshOnlySent(was.pools, ops, b.results, |job.ops|);
    if job.n < |job.ops| {
      RefreshTurn(was.pools, job.ops, job.results, job.n);
      if EpCacheTurn(now, job).None? {
        StillUnrefreshed(was.pools, job.ops, job.results, job.n + 1);
      }
    }
  }

  lemma {:induction false} EpCacheAdvances(oracle: Oracle, c: Cluster, was: State, e: Endpoints, links: seq<string>,
                                           now: State, job: EpJob)
    requires EpSoFar(oracle, c, was, e, links, now, job) && job.Caching? && Update(oracle, was, e, links).Ran?
    ensures EpAdvances(oracle, c, now, job, links, EpCache)
  {
    var ops :| EndpointsOps(was, e, links) == Ops(ops)
      && CachedSoFar(oracle, was, ops, job.ops, job.results, job.n, now);
    EntriesAreCached(oracle, was, e, links, ops, now, job);
    EntryAdvances(oracle, c, now, job, links);
  }

  /** A sync that has found its ports and has links, and does not die, builds its batch. */
  lemma {:induction false} UpdateRuns(oracle: Oracle, c: Cluster, was: State, e: Endpoints, links: seq<string>)
    requires PortsFound(c, e) && links != [] && SyncEndpoints(oracle, was, e, Lister(c.svcs, e.Key()), links).Ran?
    ensures Update(oracle, was, e, links).Ran? && EndpointsOps(was, e, links).Ops? && PoolsIn(links).Some?
  {
  }

  lemma {:induction false} EpFirstAdvances(oracle: Oracle, c: Cluster, was: State, e: Endpoints, links: seq<string>,
                                           job: EpJob)
    requires (job == Taken(e) || job == Ready(e)) && SyncEndpoints(oracle, was, e, Lister(c.svcs, e.Key()), links).Ran?
    ensures EpAdvances(oracle, c, was, job, links, EpNextTurn(job, links))
  {
  }

  /** A sync that does not die always has a next turn, whatever the order of the links. */
  lemma {:induction false} EpSyncAdvances(oracle: Oracle, c: Cluster, was: State, e: Endpoints, order: seq<string>,
                                          links: seq<string>, now: State, job: EpJob)
    requires EpSoFar(oracle, c, was, e, order, now, job) && !job.Resting? && OnCourse(job, order, links)
    requires Enumerates(links, ValuesOf(was.links, e.Key()))
    requires SyncEndpoints(oracle, was, e, Lister(c.svcs, e.Key()), links).Ran?
    ensures EpAdvances(oracle, c, now, job, links, EpNextTurn(job, links))
  {
    match job
    case Ranging(_, start, _, _, _) =>
      var x :| x in start;
      assert x in links;
      UpdateRuns(oracle, c, was, e, links);
      LinkAdvances(oracle, c, was, e, order, links, job);
    case Building(_, _, _, _, _) =>
      UpdateRuns(oracle, c, was, e, links);
      EpBuildAdvances(oracle, c, was, job, links);
    case Posting(_, _, _) => EpPostAdvances(oracle, c, was, now, job, links);
    case Caching(_, _, _, _) =>
      UpdateRuns(oracle, c, was, e, links);
      EpCacheAdvances(oracle, c, was, e, links, now, job);
    case _ => EpFirstAdvances(oracle, c, was, e, links, job);
  }

  lemma {:induction false} LinkOnCourse(was: State, e: Endpoints, order: seq<string>, links: seq<string>, job: EpJob)
    requires job.Ranging? && OnCourse(job, order, links) && |job.names| < |links|
    requires LinkTurn(was, job, links[|job.names|]).Some?
    ensures var next := LinkTurn(was, job, links[|job.names|]).value.1; OnCourse(next, order + [links[|job.names|]],
        links)
  {
    assert links[..|job.names|] + [links[|job.names|]] == links[..|job.names| + 1];
  }

  /** Once all links are visited the order is fixed. */
  lemma {:induction false} OffRange(oracle: Oracle, c: Cluster, now: State, job: EpJob, order: seq<string>,
                                    links: seq<string>)
    requires !job.Ranging? && !job.Resting? && OnCourse(job, order, links)
    requires EpStep(oracle, c, now, job, EpNextTurn(job, links)).Some?
    ensures var next := EpStep(oracle, c, now, job, EpNextTurn(job, links)).value.1;
      next.Resting? || OnCourse(next, LinksAfter(EpNextTurn(job, links), order), links)
  {
  }

  /** And it stays on course. */
  lemma {:induction false} StaysOnCourse(oracle: Oracle, c: Cluster, was: State, e: Endpoints, order: seq<string>,
                                         links: seq<string>, now: State, job: EpJob)
    requires EpSoFar(oracle, c, was, e, order, now, job) && !job.Resting? && OnCourse(job, order, links)
    requires EpStep(oracle, c, now, job, EpNextTurn(job, links)).Some?
    ensures var next := EpStep(oracle, c, now, job, EpNextTurn(job, links)).value.1;
      next.Resting? || OnCourse(next, LinksAfter(EpNextTurn(job, links), order), links)
  {
    if !job.Ranging? {
      OffRange(oracle, c, now, job, order, links);
    } else if |job.names| < |links| {
      LinkOnCourse(now, e, order, links, job);
    } else {
      assert order == links;
    }
  }
}
