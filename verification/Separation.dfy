/**
 * Two workers that never hold the same key. Whatever else they interleave, and however the cluster changes meanwhile,
 * a cached pool is never mistaken for a current one, and links and pool cache agree for every key not being worked on.
 */
module Separation {
  import opened Strings
  import opened Wrappers
  import opened Model
  import opened Rest
  import opened Pools
  import opened Caches
  import opened Sync
  import opened Effects
  import opened Runs
  import opened Interleaving

  // ---------- one key at a time ----------

  /** The pool at `q` belongs to the service `k`. */
  ghost predicate Owned(k: NamespaceName, q: NamespaceName) {
    q.ns == k.ns && OwnedBy(k.name, q.name)
  }

  lemma {:induction false} OwnedOnce(k: NamespaceName, j: NamespaceName, q: NamespaceName)
    requires Owned(k, q) && Owned(j, q)
    ensures k == j
  {
    OneOwner(k.name, j.name, q.name);
  }

  /** A pool entry of `k` with its metadata, sound as to its checksum. */
  ghost predicate Entry(c: Cluster, st: State, k: NamespaceName, p: string) {
    var q := NamespaceName(k.ns, p);
    q in st.pools && st.pools[q].crudHashKey == CrudHashKey(k) && Sound(c, st, k, p)
  }

  ghost predicate LinkedEntries(c: Cluster, st: State, k: NamespaceName) {
    forall e :: (k, e) in st.links ==> Entry(c, st, k, Tail(e))
  }

  ghost predicate EntriesLinked(pools: PoolMap, links: Relation, k: NamespaceName) {
    forall q :: q in pools && Owned(k, q) ==> (k, Link(q.name)) in links
  }

  /** Links and pool entries of `k` go together, and every entry is sound. */
  ghost predicate KeyInv(c: Cluster, st: State, k: NamespaceName) {
    LinkedEntries(c, st, k) && EntriesLinked(st.pools, st.links, k)
  }

  /** Between `s` and `t` nothing that belongs to `k` changes. */
  ghost predicate Spares(s: State, t: State, k: NamespaceName) {
    && (forall q :: Owned(k, q) ==> SameAt(s.pools, t.pools, q) && SameAt(s.net.remote.pools, t.net.remote.pools, q))
    && (forall e :: (k, e) in s.links <==> (k, e) in t.links)
  }

  lemma {:induction false} EntryFrame(c: Cluster, s: State, t: State, k: NamespaceName, p: string)
    requires Entry(c, s, k, p) && Spares(s, t, k) && OwnedBy(k.name, p)
    ensures Entry(c, t, k, p)
  {
    assert Owned(k, NamespaceName(k.ns, p));
  }

  lemma {:induction false} KeyFrame(c: Cluster, s: State, t: State, k: NamespaceName)
    requires LinksInv(s.links) && KeyInv(c, s, k) && Spares(s, t, k)
    ensures KeyInv(c, t, k)
  {
    forall e | (k, e) in t.links
      ensures Entry(c, t, k, Tail(e))
    {
      assert (k, e) in s.links && GoodLink((k, e));
      EntryFrame(c, s, t, k, Tail(e));
    }
    forall q | q in t.pools && Owned(k, q)
      ensures (k, Link(q.name)) in t.links
    {
      assert q in s.pools;
    }
  }

  // ---------- what a worker knows about the pools it is about to post ----------

  /** The pool of `k` called `p` is not cached, or at a version the Endpoints have left for good. */
  ghost predicate Outdated(c: Cluster, st: State, k: NamespaceName, p: string) {
    var q := NamespaceName(k.ns, p);
    q in st.pools ==> st.pools[q].cksum in c.epLog && Moved(c, k, st.pools[q].cksum)
  }

  /** Every cached pool of `k` is at the version of `e`, or at one the Endpoints have left for good. */
  ghost predicate Settled(c: Cluster, st: State, k: NamespaceName, e: Endpoints) {
    forall p :: OwnedBy(k.name, p) ==> !Stale(st.pools, e, p) || Outdated(c, st, k, p)
  }

  /** Endpoints just read from the listers settle their key. */
  lemma {:induction false} ReadSettles(c: Cluster, st: State, k: NamespaceName)
    requires ClusterInv(c) && k in c.eps && KeyInv(c, st, k)
    ensures Shown(c, k, c.eps[k]) && Settled(c, st, k, c.eps[k])
  {
    forall p | OwnedBy(k.name, p)
      ensures !Stale(st.pools, c.eps[k], p) || Outdated(c, st, k, p)
    {
      var q := NamespaceName(k.ns, p);
      if q in st.pools {
        assert Owned(k, q);
        LinkTail(p);
        assert Entry(c, st, k, Tail(Link(p)));
      }
    }
  }

  lemma {:induction false} OutdatedFrame(c: Cluster, s: State, t: State, k: NamespaceName, p: string)
    requires Outdated(c, s, k, p) && Spares(s, t, k) && OwnedBy(k.name, p)
    ensures Outdated(c, t, k, p)
  {
    assert Owned(k, NamespaceName(k.ns, p));
  }

  lemma {:induction false} SettledFrame(c: Cluster, s: State, t: State, k: NamespaceName, e: Endpoints)
    requires Settled(c, s, k, e) && Spares(s, t, k) && e.ns == k.ns
    ensures Settled(c, t, k, e)
  {
    forall p | OwnedBy(k.name, p)
      ensures !Stale(t.pools, e, p) || Outdated(c, t, k, p)
    {
      assert Owned(k, NamespaceName(k.ns, p));
      if Outdated(c, s, k, p) {
        OutdatedFrame(c, s, t, k, p);
      }
    }
  }

  // ---------- the cluster moves on ----------

  /** A version the Endpoints have left is never current again. */
  lemma {:induction false} MovedForGood(c: Cluster, d: Cluster, k: NamespaceName, v: string)
    requires Later(c, d) && v in c.epLog && Moved(c, k, v)
    ensures v in d.epLog && Moved(d, k, v)
  {
  }

  lemma {:induction false} EntryLater(c: Cluster, d: Cluster, st: State, k: NamespaceName, p: string)
    requires Later(c, d) && Entry(c, st, k, p)
    ensures Entry(d, st, k, p)
  {
    var v := st.pools[NamespaceName(k.ns, p)].cksum;
    if Moved(c, k, v) {
      MovedForGood(c, d, k, v);
    }
  }

  lemma {:induction false} KeyLater(c: Cluster, d: Cluster, st: State, k: NamespaceName)
    requires Later(c, d) && KeyInv(c, st, k)
    ensures KeyInv(d, st, k)
  {
    forall e | (k, e) in st.links
      ensures Entry(d, st, k, Tail(e))
    {
      EntryLater(c, d, st, k, Tail(e));
    }
  }

  lemma {:induction false} OutdatedLater(c: Cluster, d: Cluster, st: State, k: NamespaceName, p: string)
    requires Later(c, d) && Outdated(c, st, k, p)
    ensures Outdated(d, st, k, p)
  {
  }

  lemma {:induction false} SettledLater(c: Cluster, d: Cluster, st: State, k: NamespaceName, e: Endpoints)
    requires Later(c, d) && Settled(c, st, k, e)
    ensures Settled(d, st, k, e)
  {
    forall p | OwnedBy(k.name, p)
      ensures !Stale(st.pools, e, p) || Outdated(d, st, k, p)
    {
      if Outdated(c, st, k, p) {
        OutdatedLater(c, d, st, k, p);
      }
    }
  }

  // ---------- the far side changes ----------

  /** The far side may change where the cache is outdated, and nowhere else. */
  lemma {:induction false} OutdatedKeeps(c: Cluster, st: State, net: Net, k: NamespaceName, p: string)
    requires KeyInv(c, st, k) && Outdated(c, st, k, p)
    requires forall q :: q != NamespaceName(k.ns, p) ==> SameAt(st.net.remote.pools, net.remote.pools, q)
    ensures KeyInv(c, st.(net := net), k)
  {
    forall e | (k, e) in st.links
      ensures Entry(c, st.(net := net), k, Tail(e))
    {
      EntryKeeps(c, st, net, k, p, Tail(e));
    }
  }

  lemma {:induction false} EntryKeeps(c: Cluster, st: State, net: Net, k: NamespaceName, p: string, r: string)
    requires Entry(c, st, k, r) && Outdated(c, st, k, p)
    requires r != p ==> SameAt(st.net.remote.pools, net.remote.pools, NamespaceName(k.ns, r))
    ensures Entry(c, st.(net := net), k, r)
  {
    if r == p {
      assert Moved(c, k, st.pools[NamespaceName(k.ns, p)].cksum);
    }
  }

  lemma {:induction false} ElsewhereSpares(st: State, net: Net, k: NamespaceName, p: string, j: NamespaceName)
    requires OwnedBy(k.name, p) && j != k
    requires forall q :: q != NamespaceName(k.ns, p) ==> SameAt(st.net.remote.pools, net.remote.pools, q)
    ensures Spares(st, st.(net := net), j)
  {
    var mine := NamespaceName(k.ns, p);
    forall q | Owned(j, q)
      ensures SameAt(st.net.remote.pools, net.remote.pools, q)
    {
      if q == mine {
        OwnedOnce(j, k, q);
      }
    }
  }

  lemma {:induction false} SendElsewhere(oracle: Oracle, net: Net, req: Request, q: NamespaceName)
    requires req.obj.PoolObj? ==> PoolKey(req) != q
    ensures SameAt(net.remote.pools, SendOne(oracle, net, req).1.remote.pools, q)
  {
  }

  /** A pool operation of `k` is sent. */
  lemma {:induction false} PoolSent(oracle: Oracle, c: Cluster, st: State, k: NamespaceName, e: Endpoints, req: Request)
    requires FreshUuids(oracle) && NetInv(oracle, st.net) && e.Key() == k && GoodReq(e, k, req)
    requires KeyInv(c, st, k) && Outdated(c, st, k, req.obj.pool.name)
    ensures var t := st.(net := SendOne(oracle, st.net, req).1);
      KeyInv(c, t, k) && NetInv(oracle, t.net) && forall j :: j != k ==> Spares(st, t, j)
  {
    var net := SendOne(oracle, st.net, req).1;
    GoodReqFields(e, k, req);
    SendNetInv(oracle, st.net, req);
    forall q | q != NamespaceName(k.ns, req.obj.pool.name)
      ensures SameAt(st.net.remote.pools, net.remote.pools, q)
    {
      SendElsewhere(oracle, st.net, req, q);
    }
    OutdatedKeeps(c, st, net, k, req.obj.pool.name);
    forall j | j != k
      ensures Spares(st, st.(net := net), j)
    {
      ElsewhereSpares(st, net, k, req.obj.pool.name, j);
    }
  }

  /** The uuid in a response belongs to no other pool than the one posted. */
  ghost predicate Tracked(oracle: Oracle, net: Net, req: Request, r: Result)
    requires req.obj.PoolObj?
  {
    Used(oracle, net.clock, RespUuid(r)) && Only(net, RespUuid(r), PoolKey(req))
  }

  /** A pool operation that went through is on the far side, and its uuid is known. */
  lemma {:induction false} PoolLanded(oracle: Oracle, net: Net, req: Request)
    requires Faithful(oracle) && FreshUuids(oracle) && NetInv(oracle, net) && req.verb == Post && req.obj.PoolObj?
    requires SendOne(oracle, net, req).0.Succeeded?
    ensures var (r, net1) := SendOne(oracle, net, req);
      Landed(net1, req) && Tracked(oracle, net1, req, r)
  {
    var (r, net1) := SendOne(oracle, net, req);
    SendNetInv(oracle, net, req);
    assert net1.remote.pools[PoolKey(req)].uuid == RespUuid(r);
  }

  /** What has landed stays while other pools are posted. */
  lemma {:induction false} LandedStays(oracle: Oracle, net: Net, req: Request, other: Request)
    requires req.obj.PoolObj? && Landed(net, req) && (other.obj.PoolObj? ==> PoolKey(other) != PoolKey(req))
    ensures Landed(SendOne(oracle, net, other).1, req)
  {
    SendElsewhere(oracle, net, other, PoolKey(req));
  }

  lemma {:induction false} TrackedStays(oracle: Oracle, net: Net, req: Request, r: Result, other: Request)
    requires FreshUuids(oracle) && req.obj.PoolObj? && Tracked(oracle, net, req, r)
    ensures Tracked(oracle, SendOne(oracle, net, other).1, req, r)
  {
    SendOnly(oracle, net, other, RespUuid(r), PoolKey(req));
  }

  // ---------- the jobs ----------

  /** The key whose links and entries the Service worker has opened up. */
  function Open(job: SvcJob): Option<NamespaceName> {
    match job
    case Filling(svc, _, _, _, _, _, half) => if half then Some(svc.Key()) else None
    case Erased(k) => Some(k)
    case Dropping(k, _) => Some(k)
    case Unlinking(k, _) => Some(k)
    case _ => None
  }

  /** The pool of an operation is cached but not linked yet. */
  ghost predicate HalfDone(c: Cluster, st: State, k: NamespaceName, req: Request)
    requires req.obj.PoolObj?
  {
    && LinkedEntries(c, st, k) && EntriesLinked(st.pools - {PoolKey(req)}, st.links, k)
    && Entry(c, st, k, req.obj.pool.name)
  }

  ghost predicate AllOutdated(c: Cluster, st: State, k: NamespaceName, ops: seq<Request>, m: nat) {
    m <= |ops| && forall i :: 0 <= i < m ==> ops[i].obj.PoolObj? && Outdated(c, st, k, ops[i].obj.pool.name)
  }

  ghost predicate AllLanded(net: Net, ops: seq<Request>, m: nat) {
    m <= |ops| && forall i :: 0 <= i < m ==> ops[i].obj.PoolObj? && Landed(net, ops[i])
  }

  /** The lesser of the number of pools and of results: the pools that have been sent. */
  function SentPools(m: nat, results: seq<Result>): nat {
    if m < |results| then m else |results|
  }

  /** The pools of `k` that are still cached are those behind the links still to be visited. */
  ghost predicate StillLinked(pools: PoolMap, links: Relation, k: NamespaceName, todo: set<string>) {
    && (forall q :: q in pools && Owned(k, q) ==> (k, Link(q.name)) in links && Link(q.name) in todo)
    && (forall e :: e in todo ==> (k, e) in links)
  }

  ghost predicate SvcFacts(oracle: Oracle, c: Cluster, st: State, job: SvcJob)
    requires SvcOk(c, job)
  {
    match job
    case Looked(svc, e) => Settled(c, st, svc.Key(), e)
    case Checked(svc, e) => Settled(c, st, svc.Key(), e)
    case Naming(svc, e, names, n, ops) =>
      Settled(c, st, svc.Key(), e) && AllOutdated(c, st, svc.Key(), ops, |ops|)
    case Sending(svc, e, ops, m, results) =>
      && AllOutdated(c, st, svc.Key(), ops, m) && AllLanded(st.net, ops, SentPools(m, results))
      && forall i :: 0 <= i < SentPools(m, results) ==> Tracked(oracle, st.net, ops[i], results[i])
    case Undoing(svc, e, ops, results) =>
      forall i :: 0 <= i < |ops| && GoodReq(e, svc.Key(), ops[i]) ==>
        Outdated(c, st, svc.Key(), ops[i].obj.pool.name) && Tracked(oracle, st.net, ops[i], results[i])
    case Filling(svc, e, ops, m, results, n, half) =>
      && AllLanded(st.net, ops, m)
      && (half ==> HalfDone(c, st, svc.Key(), ops[n]))
    case Erased(k) => EntriesLinked(st.pools, st.links, k)
    case Dropping(k, todo) => StillLinked(st.pools, st.links, k, todo)
    case Unlinking(k, todo) =>
      (forall q :: q in st.pools ==> !Owned(k, q)) && forall e :: (k, e) in st.links ==> e in todo
    case _ => true
  }

  ghost predicate NamesLinked(st: State, k: NamespaceName, names: seq<string>) {
    forall i :: 0 <= i < |names| ==> (k, Link(names[i])) in st.links
  }

  /** Operations of an endpoints sync: distinct pools of `k`, all of them linked. */
  ghost predicate EpBatch(st: State, k: NamespaceName, e: Endpoints, ops: seq<Request>) {
    && (forall i :: 0 <= i < |ops| ==> GoodReq(e, k, ops[i]) && (k, Link(ops[i].obj.pool.name)) in st.links)
    && DistinctPools(ops, |ops|)
  }

  ghost predicate EpFacts(c: Cluster, st: State, job: EpJob) {
    match job
    case Resting => true
    case Taken(e) => Shown(c, e.Key(), e) && Settled(c, st, e.Key(), e)
    case Ready(e) => Shown(c, e.Key(), e) && Settled(c, st, e.Key(), e)
    case Ranging(e, start, seen, names, hash) =>
      && Shown(c, e.Key(), e) && Settled(c, st, e.Key(), e) && NamesLinked(st, e.Key(), names) && NoDup(names)
      && (forall i :: 0 <= i < |names| ==> Link(names[i]) in seen)
      && (names != [] ==> hash == CrudHashKey(e.Key()))
    case Building(e, names, hash, n, ops) =>
      && Shown(c, e.Key(), e) && Settled(c, st, e.Key(), e) && NamesLinked(st, e.Key(), names)
      && BuiltFor(e, e.Key(), names, n, ops) && (names != [] ==> hash == CrudHashKey(e.Key()))
      && AllOutdated(c, st, e.Key(), ops, |ops|)
    case Posting(e, ops, results) =>
      && Shown(c, e.Key(), e) && EpBatch(st, e.Key(), e, ops) && AllEchoed(ops, results)
      && AllOutdated(c, st, e.Key(), ops, |ops|) && AllLanded(st.net, ops, |results|)
    case Caching(e, ops, results, n) =>
      && Shown(c, e.Key(), e) && EpBatch(st, e.Key(), e, ops) && AllEchoed(ops, results) && |ops| == |results|
      && AllLanded(st.net, ops, |ops|)
  }

  ghost predicate Apart(s: Sys) {
    s.svc.Key().None? || s.ep.Key().None? || s.svc.Key() != s.ep.Key()
  }

  /** What all interleavings keep in which the two workers never hold the same key. */
  ghost predicate SepInv(oracle: Oracle, s: Sys) {
    && ClusterInv(s.c) && NetInv(oracle, s.st.net) && LinksInv(s.st.links)
    && Apart(s) && SvcOk(s.c, s.svc) && SvcFacts(oracle, s.c, s.st, s.svc) && EpFacts(s.c, s.st, s.ep)
    && forall k :: Open(s.svc) != Some(k) ==> KeyInv(s.c, s.st, k)
  }

  // ---------- one worker's facts while the other works ----------

  lemma {:induction false} LandedFrame(s: State, t: State, k: NamespaceName, e: Endpoints, req: Request)
    requires e.Key() == k && GoodReq(e, k, req) && Spares(s, t, k) && Landed(s.net, req)
    ensures Landed(t.net, req)
  {
    GoodReqFields(e, k, req);
    assert Owned(k, PoolKey(req));
  }

  lemma {:induction false} AllOutdatedFrame(c: Cluster, s: State, t: State, k: NamespaceName, e: Endpoints,
                                            ops: seq<Request>, m: nat)
    requires Spares(s, t, k) && AllOutdated(c, s, k, ops, m) && forall i :: 0 <= i < m ==> GoodReq(e, k, ops[i])
    ensures AllOutdated(c, t, k, ops, m)
  {
    forall i | 0 <= i < m
      ensures Outdated(c, t, k, ops[i].obj.pool.name)
    {
      OutdatedFrame(c, s, t, k, ops[i].obj.pool.name);
    }
  }

  lemma {:induction false} AllLandedFrame(s: State, t: State, k: NamespaceName, e: Endpoints, ops: seq<Request>, m: nat)
    requires e.Key() == k && Spares(s, t, k) && AllLanded(s.net, ops, m) && forall i :: 0 <= i < m ==>
      GoodReq(e, k, ops[i])
    ensures AllLanded(t.net, ops, m)
  {
    forall i | 0 <= i < m
      ensures Landed(t.net, ops[i])
    {
      LandedFrame(s, t, k, e, ops[i]);
    }
  }

  lemma {:induction false} EpFactsFrame(c: Cluster, s: State, t: State, job: EpJob)
    requires EpFacts(c, s, job) && (job.Resting? || Spares(s, t, job.e.Key()))
    ensures EpFacts(c, t, job)
  {
    match job
    case Resting =>
    case Taken(e) => SettledFrame(c, s, t, e.Key(), e);
    case Ready(e) => SettledFrame(c, s, t, e.Key(), e);
    case Ranging(e, _, _, _, _) => SettledFrame(c, s, t, e.Key(), e);
    case Building(e, _, _, _, ops) =>
      SettledFrame(c, s, t, e.Key(), e);
      AllOutdatedFrame(c, s, t, e.Key(), e, ops, |ops|);
    case Posting(e, ops, results) =>
      AllOutdatedFrame(c, s, t, e.Key(), e, ops, |ops|);
      AllLandedFrame(s, t, e.Key(), e, ops, |results|);
    case Caching(e, ops, results, _) =>
      AllLandedFrame(s, t, e.Key(), e, ops, |ops|);
  }

  /** Uuids handed out stay with their pools. */
  ghost predicate KeepsUuids(oracle: Oracle, m: Net, n: Net) {
    forall u, q :: Used(oracle, m.clock, u) && Only(m, u, q) ==> Used(oracle, n.clock, u) && Only(n, u, q)
  }

  lemma {:induction false} SendKeepsUuids(oracle: Oracle, net: Net, req: Request)
    requires FreshUuids(oracle)
    ensures KeepsUuids(oracle, net, SendOne(oracle, net, req).1)
  {
    forall u, q | Used(oracle, net.clock, u) && Only(net, u, q)
      ensures Used(oracle, SendOne(oracle, net, req).1.clock, u) && Only(SendOne(oracle, net, req).1, u, q)
    {
      SendOnly(oracle, net, req, u, q);
    }
  }

  lemma {:induction false} HalfFrame(c: Cluster, s: State, t: State, k: NamespaceName, e: Endpoints, req: Request)
    requires e.Key() == k && GoodReq(e, k, req) && LinksInv(s.links) && HalfDone(c, s, k, req) && Spares(s, t, k)
    ensures HalfDone(c, t, k, req)
  {
    forall f | (k, f) in t.links
      ensures Entry(c, t, k, Tail(f))
    {
      assert (k, f) in s.links && GoodLink((k, f));
      EntryFrame(c, s, t, k, Tail(f));
    }
    EntryFrame(c, s, t, k, req.obj.pool.name);
    forall q | q in t.pools - {PoolKey(req)} && Owned(k, q)
      ensures (k, Link(q.name)) in t.links
    {
      assert q in s.pools - {PoolKey(req)};
    }
  }

  lemma {:induction false} UndoFrameFacts(oracle: Oracle, c: Cluster, s: State, t: State, job: SvcJob, i: nat)
    requires job.Undoing? && SvcOk(c, job) && SvcFacts(oracle, c, s, job) && i < |job.ops|
    requires Spares(s, t, job.svc.Key()) && KeepsUuids(oracle, s.net, t.net)
      && GoodReq(job.e, job.svc.Key(), job.ops[i])
    ensures Outdated(c, t, job.svc.Key(), job.ops[i].obj.pool.name)
      && Tracked(oracle, t.net, job.ops[i], job.results[i])
  {
    OutdatedFrame(c, s, t, job.svc.Key(), job.ops[i].obj.pool.name);
  }

  lemma {:induction false} SvcFactsFrame(oracle: Oracle, c: Cluster, s: State, t: State, job: SvcJob)
    requires LinksInv(s.links) && SvcOk(c, job) && SvcFacts(oracle, c, s, job) && KeepsUuids(oracle, s.net, t.net)
    requires job.Key().None? || Spares(s, t, job.Key().value)
    ensures SvcFacts(oracle, c, t, job)
  {
    match job
    case Looked(svc, e) => SettledFrame(c, s, t, svc.Key(), e);
    case Checked(svc, e) => SettledFrame(c, s, t, svc.Key(), e);
    case Naming(svc, e, _, _, ops) =>
      SettledFrame(c, s, t, svc.Key(), e);
      AllOutdatedFrame(c, s, t, svc.Key(), e, ops, |ops|);
    case Sending(svc, e, ops, m, results) =>
      AllOutdatedFrame(c, s, t, svc.Key(), e, ops, m);
      AllLandedFrame(s, t, svc.Key(), e, ops, SentPools(m, results));
    case Undoing(svc, e, ops, results) =>
      forall i | 0 <= i < |ops| && GoodReq(e, svc.Key(), ops[i])
        ensures Outdated(c, t, svc.Key(), ops[i].obj.pool.name) && Tracked(oracle, t.net, ops[i], results[i])
      {
        UndoFrameFacts(oracle, c, s, t, job, i);
      }
    case Filling(svc, e, ops, m, results, n, half) =>
      AllLandedFrame(s, t, svc.Key(), e, ops, m);
      if half {
        HalfFrame(c, s, t, svc.Key(), e, ops[n]);
      }
    case _ =>
  }

  // ---------- both workers' facts while the cluster changes ----------

  lemma {:induction false} AllOutdatedLater(c: Cluster, d: Cluster, st: State, k: NamespaceName, ops: seq<Request>,
                                            m: nat)
    requires Later(c, d) && AllOutdated(c, st, k, ops, m)
    ensures AllOutdated(d, st, k, ops, m)
  {
    forall i | 0 <= i < m
      ensures Outdated(d, st, k, ops[i].obj.pool.name)
    {
      OutdatedLater(c, d, st, k, ops[i].obj.pool.name);
    }
  }

  lemma {:induction false} EpFactsLater(c: Cluster, d: Cluster, st: State, job: EpJob)
    requires Later(c, d) && EpFacts(c, st, job)
    ensures EpFacts(d, st, job)
  {
    match job
    case Resting =>
    case Taken(e) => SettledLater(c, d, st, e.Key(), e);
    case Ready(e) => SettledLater(c, d, st, e.Key(), e);
    case Ranging(e, _, _, _, _) => SettledLater(c, d, st, e.Key(), e);
    case Building(e, _, _, _, ops) =>
      SettledLater(c, d, st, e.Key(), e);
      AllOutdatedLater(c, d, st, e.Key(), ops, |ops|);
    case Posting(e, ops, _) => AllOutdatedLater(c, d, st, e.Key(), ops, |ops|);
    case Caching(_, _, _, _) =>
  }

  lemma {:induction false} HalfLater(c: Cluster, d: Cluster, st: State, k: NamespaceName, req: Request)
    requires Later(c, d) && req.obj.PoolObj? && HalfDone(c, st, k, req)
    ensures HalfDone(d, st, k, req)
  {
    forall f | (k, f) in st.links
      ensures Entry(d, st, k, Tail(f))
    {
      EntryLater(c, d, st, k, Tail(f));
    }
    EntryLater(c, d, st, k, req.obj.pool.name);
  }

  lemma {:induction false} SvcFactsLater(oracle: Oracle, c: Cluster, d: Cluster, st: State, job: SvcJob)
    requires Later(c, d) && SvcOk(c, job) && SvcOk(d, job) && SvcFacts(oracle, c, st, job)
    ensures SvcFacts(oracle, d, st, job)
  {
    match job
    case Looked(svc, e) => SettledLater(c, d, st, svc.Key(), e);
    case Checked(svc, e) => SettledLater(c, d, st, svc.Key(), e);
    case Naming(svc, e, _, _, ops) =>
      SettledLater(c, d, st, svc.Key(), e);
      AllOutdatedLater(c, d, st, svc.Key(), ops, |ops|);
    case Sending(svc, e, ops, m, _) => AllOutdatedLater(c, d, st, svc.Key(), ops, m);
    case Undoing(svc, e, ops, _) =>
      forall i | 0 <= i < |ops| && GoodReq(e, svc.Key(), ops[i])
        ensures Outdated(d, st, svc.Key(), ops[i].obj.pool.name)
      {
        OutdatedLater(c, d, st, svc.Key(), ops[i].obj.pool.name);
      }
    case Filling(svc, e, ops, m, _, n, half) =>
      if half {
        HalfLater(c, d, st, svc.Key(), ops[n]);
      }
    case _ =>
  }

  lemma {:induction false} ChangeKeeps(oracle: Oracle, s: Sys, e: Event)
    requires SepInv(oracle, s) && Changed(s.c, e).Some?
    ensures SepInv(oracle, s.(c := Changed(s.c, e).value))
  {
    var d := Changed(s.c, e).value;
    ChangeIsLater(s.c, e);
    SvcOkLater(s.c, d, s.svc);
    SvcFactsLater(oracle, s.c, d, s.st, s.svc);
    EpFactsLater(s.c, d, s.st, s.ep);
    forall k | Open(s.svc) != Some(k)
      ensures KeyInv(d, s.st, k)
    {
      KeyLater(s.c, d, s.st, k);
    }
  }

  // ---------- turns of the Service worker ----------

  /** What the Service worker and the state have in order while it works on `k`. */
  ghost predicate SvcGood(oracle: Oracle, c: Cluster, st: State, job: SvcJob, k: NamespaceName) {
    && NetInv(oracle, st.net) && LinksInv(st.links)
    && SvcOk(c, job) && SvcFacts(oracle, c, st, job) && (Open(job) != Some(k) ==> KeyInv(c, st, k))
  }

  ghost predicate SparesOthers(s: State, t: State, k: NamespaceName) {
    forall j :: j != k ==> Spares(s, t, j)
  }

  /** The new state and job are in order, and the other keys are spared. */
  ghost predicate Settles(oracle: Oracle, c: Cluster, st: State, p: (State, SvcJob), k: NamespaceName) {
    SvcGood(oracle, c, p.0, p.1, k) && SparesOthers(st, p.0, k)
  }

  lemma {:induction false} SameCachesSpare(s: State, t: State, k: NamespaceName)
    requires s.pools == t.pools && s.links == t.links && s.net.remote.pools == t.net.remote.pools
    ensures Spares(s, t, k)
  {
  }

  /** Reading turns. */
  lemma {:induction false} ReadTurns(oracle: Oracle, c: Cluster, st: State, job: SvcJob, e: Turn, k: NamespaceName)
    requires ClusterInv(c) && SvcGood(oracle, c, st, job, k) && SvcStep(oracle, c, st, job, e).Some?
    requires job.Key() == Some(k) && (e.SvcLook? || e.SvcCheck? || e.SvcNames?)
    requires SvcOk(c, SvcStep(oracle, c, st, job, e).value.1)
    ensures var p := SvcStep(oracle, c, st, job, e).value; p.0 == st && SvcGood(oracle, c, st, p.1, k)
  {
    if e.SvcLook? && k in c.eps {
      ReadSettles(c, st, k);
    }
  }

  lemma {:induction false} BuildOutdated(c: Cluster, st: State, k: NamespaceName, e: Endpoints, names: seq<string>,
                                         n: nat, ops: seq<Request>)
    requires e.Key() == k && n < |names| && OwnedBy(k.name, names[n])
    requires Settled(c, st, k, e) && AllOutdated(c, st, k, ops, |ops|)
    ensures var f := BuildOne(st.pools, e, CrudHashKey(k), names[n], ops);
      f.Some? ==> AllOutdated(c, st, k, f.value, |f.value|)
  {
  }

  lemma {:induction false} BuildKeeps(oracle: Oracle, c: Cluster, st: State, job: SvcJob, k: NamespaceName, p: (State,
                                      SvcJob))
    requires SvcGood(oracle, c, st, job, k) && job.Key() == Some(k) && BuildTurn(st, job) == Some(p) && SvcOk(c, p.1)
    ensures p.0 == st && SvcGood(oracle, c, st, p.1, k)
  {
    BuildOutdated(c, st, k, job.e, job.names, job.n, job.ops);
  }

  lemma {:induction false} OutdatedPrefix(c: Cluster, st: State, k: NamespaceName, ops: seq<Request>, all: seq<Request>)
    requires AllOutdated(c, st, k, ops, |ops|) && ops <= all
    ensures AllOutdated(c, st, k, all, |ops|)
  {
    assert forall i :: 0 <= i < |ops| ==> all[i] == ops[i];
  }

  lemma {:induction false} VsKeepsGood(oracle: Oracle, c: Cluster, st: State, job: SvcJob, k: NamespaceName,
                                       ops: seq<Request>)
    requires job.Naming? && SvcGood(oracle, c, st, job, k) && job.Key() == Some(k) && job.ops <= ops
    requires SvcOk(c, Sending(job.svc, job.e, ops, |job.ops|, []))
    ensures SvcGood(oracle, c, st, Sending(job.svc, job.e, ops, |job.ops|, []), k)
  {
    var next := Sending(job.svc, job.e, ops, |job.ops|, []);
    OutdatedPrefix(c, st, k, job.ops, ops);
    assert SvcFacts(oracle, c, st, next);
    assert Open(next) == None;
  }

  lemma {:induction false} BuildTurns(oracle: Oracle, c: Cluster, st: State, job: SvcJob, e: Turn, k: NamespaceName,
                                      p: (State, SvcJob))
    requires SvcGood(oracle, c, st, job, k) && SvcStep(oracle, c, st, job, e) == Some(p)
    requires job.Key() == Some(k) && (e.SvcBuild? || e.SvcVs?) && SvcOk(c, p.1)
    ensures p.0 == st && SvcGood(oracle, c, st, p.1, k)
  {
    if e.SvcBuild? {
      BuildKeeps(oracle, c, st, job, k, p);
    } else {
      VsKeepsGood(oracle, c, st, job, k, p.1.ops);
    }
  }

  // ---------- a request of the batch ----------

  lemma {:induction false} AllLandedStays(oracle: Oracle, net: Net, ops: seq<Request>, m: nat, other: Request)
    requires AllLanded(net, ops, m)
    requires other.obj.PoolObj? ==> forall i :: 0 <= i < m ==> PoolKey(other) != PoolKey(ops[i])
    ensures AllLanded(SendOne(oracle, net, other).1, ops, m)
  {
    forall i | 0 <= i < m
      ensures Landed(SendOne(oracle, net, other).1, ops[i])
    {
      LandedStays(oracle, net, ops[i], other);
    }
  }

  lemma {:induction false} AllTrackedStays(oracle: Oracle, net: Net, ops: seq<Request>, results: seq<Result>, m: nat,
                                           other: Request)
    requires FreshUuids(oracle) && m <= |ops| && m <= |results|
    requires forall i :: 0 <= i < m ==> ops[i].obj.PoolObj? && Tracked(oracle, net, ops[i], results[i])
    ensures forall i :: 0 <= i < m ==>
      ops[i].obj.PoolObj? && Tracked(oracle, SendOne(oracle, net, other).1, ops[i], results[i])
  {
    forall i | 0 <= i < m
      ensures Tracked(oracle, SendOne(oracle, net, other).1, ops[i], results[i])
    {
      TrackedStays(oracle, net, ops[i], results[i], other);
    }
  }

  /** The far side after a request: the key is in order, the others are spared. */
  lemma {:induction false} RequestKeeps(oracle: Oracle, c: Cluster, st: State, job: SvcJob, k: NamespaceName)
    requires FreshUuids(oracle) && job.Sending? && job.Key() == Some(k) && SvcGood(oracle, c, st, job, k)
    requires |job.results| < |job.ops|
    ensures var t := st.(net := SendOne(oracle, st.net, job.ops[|job.results|]).1);
      NetInv(oracle, t.net) && KeyInv(c, t, k) && SparesOthers(st, t, k)
  {
    var i := |job.results|;
    var t := st.(net := SendOne(oracle, st.net, job.ops[i]).1);
    if i < job.pools {
      PoolSent(oracle, c, st, k, job.e, job.ops[i]);
    } else {
      SendNetInv(oracle, st.net, job.ops[i]);
      assert t.net.remote.pools == st.net.remote.pools;
      forall j
        ensures Spares(st, t, j)
      {
        SameCachesSpare(st, t, j);
      }
      KeyFrame(c, st, t, k);
    }
  }

  /** The pools sent so far are on the far side under known uuids. */
  ghost predicate SentOk(oracle: Oracle, net: Net, ops: seq<Request>, m: nat, results: seq<Result>) {
    var n := SentPools(m, results);
    AllLanded(net, ops, n) && forall i :: 0 <= i < n ==> Tracked(oracle, net, ops[i], results[i])
  }

  lemma {:induction false} SentStays(oracle: Oracle, net: Net, ops: seq<Request>, m: nat, results: seq<Result>)
    requires FreshUuids(oracle) && SentOk(oracle, net, ops, m, results) && |results| < |ops|
    requires m <= |ops| && (forall i :: 0 <= i < m ==> ops[i].obj.PoolObj?) && DistinctPools(ops, m)
    requires ops[|results|].obj.PoolObj? ==> |results| < m
    ensures SentOk(oracle, SendOne(oracle, net, ops[|results|]).1, ops, m, results)
  {
    var n, req := SentPools(m, results), ops[|results|];
    AllLandedStays(oracle, net, ops, n, req);
    AllTrackedStays(oracle, net, ops, results, n, req);
  }

  lemma {:induction false} SentMore(oracle: Oracle, net: Net, ops: seq<Request>, m: nat, results: seq<Result>,
                                    r: Result)
    requires SentOk(oracle, net, ops, m, results) && |results| < |ops|
    requires |results| < m ==>
      ops[|results|].obj.PoolObj? && Landed(net, ops[|results|]) && Tracked(oracle, net, ops[|results|], r)
    ensures SentOk(oracle, net, ops, m, results + [r])
  {
    var n, more := SentPools(m, results), SentPools(m, results + [r]);
    assert forall i :: 0 <= i < n ==> (results + [r])[i] == results[i];
    assert more == if |results| < m then n + 1 else n;
  }

  /** What has been sent has landed and is tracked. */
  lemma {:induction false} RequestTracked(oracle: Oracle, net: Net, e: Endpoints, k: NamespaceName, ops: seq<Request>,
                                          m: nat, results: seq<Result>)
    requires Faithful(oracle) && FreshUuids(oracle) && NetInv(oracle, net)
    requires BatchFor(e, k, ops, m) && |results| < |ops| && SentOk(oracle, net, ops, m, results)
    ensures var (r, net1) := SendOne(oracle, net, ops[|results|]);
      SentOk(oracle, net1, ops, m, results) && (r.Succeeded? ==> SentOk(oracle, net1, ops, m, results + [r]))
  {
    SentStays(oracle, net, ops, m, results);
    var (r, net1) := SendOne(oracle, net, ops[|results|]);
    if r.Succeeded? {
      if |results| < m {
        PoolLanded(oracle, net, ops[|results|]);
      }
      SentMore(oracle, net1, ops, m, results, r);
    }
  }

  lemma {:induction false} SendKeeps(oracle: Oracle, c: Cluster, st: State, job: SvcJob, k: NamespaceName)
    requires Faithful(oracle) && FreshUuids(oracle) && job.Key() == Some(k) && SvcGood(oracle, c, st, job, k)
    requires SendTurn(oracle, st, job).Some? && SvcOk(c, SendTurn(oracle, st, job).value.1)
    ensures var p := SendTurn(oracle, st, job).value; SvcGood(oracle, c, p.0, p.1, k) && SparesOthers(st, p.0, k)
  {
    RequestKeeps(oracle, c, st, job, k);
    RequestTracked(oracle, st.net, job.e, k, job.ops, job.pools, job.results);
    var (r, net) := SendOne(oracle, st.net, job.ops[|job.results|]);
    var t := st.(net := net);
    if r.Failed? {
      UndoFacts(oracle, c, t, job, k);
    } else {
      SentFacts(oracle, c, t, job, k, job.results + [r]);
    }
  }

  lemma {:induction false} UndoFacts(oracle: Oracle, c: Cluster, t: State, job: SvcJob, k: NamespaceName)
    requires job.Sending? && job.Key() == Some(k) && BatchFor(job.e, k, job.ops, job.pools) && |job.results| < |job.ops|
    requires AllOutdated(c, t, k, job.ops, job.pools) && SentOk(oracle, t.net, job.ops, job.pools, job.results)
    requires SvcOk(c, Undoing(job.svc, job.e, job.ops[..|job.results|], job.results))
    ensures SvcFacts(oracle, c, t, Undoing(job.svc, job.e, job.ops[..|job.results|], job.results))
  {
    var ops := job.ops[..|job.results|];
    forall i | 0 <= i < |ops| && GoodReq(job.e, k, ops[i])
      ensures Outdated(c, t, k, ops[i].obj.pool.name) && Tracked(oracle, t.net, ops[i], job.results[i])
    {
      assert ops[i] == job.ops[i];
      PoolsFirst(job.ops, job.pools, i);
    }
  }

  lemma {:induction false} PoolsFirst(ops: seq<Request>, m: nat, i: nat)
    requires ServiceBatch(ops, m) && i < |ops| && ops[i].obj.PoolObj?
    ensures i < m
  {
  }

  lemma {:induction false} SentFacts(oracle: Oracle, c: Cluster, t: State, job: SvcJob, k: NamespaceName,
                                     results: seq<Result>)
    requires job.Sending? && job.Key() == Some(k) && BatchFor(job.e, k, job.ops, job.pools) && |results| <= |job.ops|
    requires AllOutdated(c, t, k, job.ops, job.pools) && SentOk(oracle, t.net, job.ops, job.pools, results)
    ensures SvcOk(c, Sending(job.svc, job.e, job.ops, job.pools, results)) ==>
              SvcFacts(oracle, c, t, Sending(job.svc, job.e, job.ops, job.pools, results))
    ensures |results| == |job.ops| && SvcOk(c, Filling(job.svc, job.e, job.ops, job.pools, results, 0, false)) ==>
              SvcFacts(oracle, c, t, Filling(job.svc, job.e, job.ops, job.pools, results, 0, false))
  {
  }

  // ---------- an operation is undone ----------

  lemma {:induction false} EraseElsewhere(oracle: Oracle, net: Net, url: Url, q: NamespaceName, mine: NamespaceName)
    requires url.base == POOL_URL ==> Only(net, url.uuid, mine)
    requires q != mine || url.base != POOL_URL
    ensures SameAt(net.remote.pools, EraseOne(oracle, net, url).remote.pools, q)
  {
  }

  lemma {:induction false} EraseNetInv(oracle: Oracle, net: Net, url: Url)
    requires NetInv(oracle, net)
    ensures NetInv(oracle, EraseOne(oracle, net, url)) && KeepsUuids(oracle, net, EraseOne(oracle, net, url))
  {
    var net1 := EraseOne(oracle, net, url);
    forall u | Used(oracle, net.clock, u)
      ensures Used(oracle, net1.clock, u)
    {
      UsedLater(oracle, net.clock, net1.clock, u);
    }
  }

  /** What is left to undo stays aimed. */
  lemma {:induction false} UndoRest(oracle: Oracle, c: Cluster, st: State, t: State, job: SvcJob, k: NamespaceName)
    requires job.Undoing? && job.Key() == Some(k) && SvcOk(c, job) && SvcFacts(oracle, c, st, job) && job.ops != []
    requires t.pools == st.pools && KeepsUuids(oracle, st.net, t.net)
    ensures var n := |job.ops| - 1;
      var rest := Undoing(job.svc, job.e, job.ops[..n], job.results[..n]);
      SvcOk(c, rest) && SvcFacts(oracle, c, t, rest)
  {
    var n := |job.ops| - 1;
    forall i | 0 <= i < n && GoodReq(job.e, k, job.ops[..n][i])
      ensures Outdated(c, t, k, job.ops[..n][i].obj.pool.name)
        && Tracked(oracle, t.net, job.ops[..n][i], job.results[..n][i])
    {
      assert job.ops[..n][i] == job.ops[i] && job.results[..n][i] == job.results[i];
    }
  }

  lemma {:induction false} PolicyUndo(req: Request, r: Result)
    requires req.model == "HTTPRequestPolicy"
    ensures UndoOf(req, r).DeleteAt? ==> UndoOf(req, r).url.base == ""
  {
    UnknownModel();
  }

  lemma {:induction false} SameRemotePools(c: Cluster, st: State, t: State, k: NamespaceName)
    requires LinksInv(st.links) && KeyInv(c, st, k) && st.pools == t.pools && st.links == t.links
    requires st.net.remote.pools == t.net.remote.pools
    ensures KeyInv(c, t, k) && SparesOthers(st, t, k)
  {
    SameCachesSpare(st, t, k);
    KeyFrame(c, st, t, k);
    forall j | j != k
      ensures Spares(st, t, j)
    {
      SameCachesSpare(st, t, j);
    }
  }

  /** The delete of one operation. */
  lemma {:induction false} UndoOneKeeps(oracle: Oracle, c: Cluster, st: State, job: SvcJob, k: NamespaceName, url: Url)
    requires job.Undoing? && job.Key() == Some(k) && SvcGood(oracle, c, st, job, k) && job.ops != []
    requires UndoOf(job.ops[|job.ops| - 1], job.results[|job.ops| - 1]) == DeleteAt(url)
    ensures var t := st.(net := EraseOne(oracle, st.net, url));
      KeyInv(c, t, k) && SparesOthers(st, t, k)
  {
    var n := |job.ops| - 1;
    var req, r := job.ops[n], job.results[n];
    var net := EraseOne(oracle, st.net, url);
    if GoodReq(job.e, k, req) {
      GoodReqFields(job.e, k, req);
      UndoEchoed(req, r);
      var p := req.obj.pool.name;
      forall q | q != NamespaceName(k.ns, p)
        ensures SameAt(st.net.remote.pools, net.remote.pools, q)
      {
        EraseElsewhere(oracle, st.net, url, q, PoolKey(req));
      }
      OutdatedKeeps(c, st, net, k, p);
      forall j | j != k
        ensures Spares(st, st.(net := net), j)
      {
        ElsewhereSpares(st, net, k, p, j);
      }
    } else {
      PolicyUndo(req, r);
      assert "" != POOL_URL;
      SameRemotePools(c, st, st.(net := net), k);
    }
  }

  lemma {:induction false} UndoKeeps(oracle: Oracle, c: Cluster, st: State, job: SvcJob, k: NamespaceName)
    requires job.Key() == Some(k) && SvcGood(oracle, c, st, job, k) && UnsendTurn(oracle, st, job).Some?
    ensures var p := UnsendTurn(oracle, st, job).value; SvcGood(oracle, c, p.0, p.1, k) && SparesOthers(st, p.0, k)
  {
    var t := UnsendTurn(oracle, st, job).value.0;
    if job.ops == [] {
      SameRemotePools(c, st, t, k);
    } else {
      var n := |job.ops| - 1;
      var u := UndoOf(job.ops[n], job.results[n]);
      if u.DeleteAt? {
        UndoOneKeeps(oracle, c, st, job, k, u.url);
        EraseNetInv(oracle, st.net, u.url);
      } else {
        SameRemotePools(c, st, t, k);
      }
      UndoRest(oracle, c, st, t, job, k);
    }
  }

  // ---------- a pool is cached ----------

  /** The entry a faithful answer puts into the cache for a pool that has landed. */
  lemma {:induction false} LandedEntry(c: Cluster, st: State, k: NamespaceName, e: Endpoints, req: Request,
                                       entry: PoolEntry)
    requires Shown(c, k, e) && GoodReq(e, k, req) && Landed(st.net, req)
    requires entry.cksum == req.obj.pool.cksum && entry.crudHashKey == req.obj.pool.crudHashKey
    ensures Entry(c, st.(pools := st.pools[PoolKey(req) := entry]), k, req.obj.pool.name)
  {
    GoodReqFields(e, k, req);
  }

  lemma {:induction false} CachedKeeps(c: Cluster, st: State, k: NamespaceName, e: Endpoints, req: Request,
                                       entry: PoolEntry)
    requires Shown(c, k, e) && GoodReq(e, k, req) && Landed(st.net, req) && KeyInv(c, st, k)
    requires entry.cksum == req.obj.pool.cksum && entry.crudHashKey == req.obj.pool.crudHashKey
    ensures var t := st.(pools := st.pools[PoolKey(req) := entry]);
      && HalfDone(c, t, k, req) && SparesOthers(st, t, k)
      && ((k, Link(req.obj.pool.name)) in st.links ==> KeyInv(c, t, k))
  {
    var t := st.(pools := st.pools[PoolKey(req) := entry]);
    GoodReqFields(e, k, req);
    LandedEntry(c, st, k, e, req, entry);
    forall f | (k, f) in t.links
      ensures Entry(c, t, k, Tail(f))
    {
      assert Entry(c, st, k, Tail(f));
    }
    forall j | j != k
      ensures Spares(st, t, j)
    {
      CachedSpares(st, k, req, entry, j);
    }
  }

  lemma {:induction false} CachedSpares(st: State, k: NamespaceName, req: Request, entry: PoolEntry, j: NamespaceName)
    requires req.obj.PoolObj? && Owned(k, PoolKey(req)) && j != k
    ensures Spares(st, st.(pools := st.pools[PoolKey(req) := entry]), j)
  {
    forall q | Owned(j, q)
      ensures q != PoolKey(req)
    {
      if q == PoolKey(req) {
        OwnedOnce(j, k, q);
      }
    }
  }

  /** The link of a cached pool is added. */
  lemma {:induction false} LinkedKeeps(c: Cluster, st: State, k: NamespaceName, e: Endpoints, req: Request)
    requires Free(k.name, '/') && e.Key() == k && GoodReq(e, k, req) && HalfDone(c, st, k, req) && LinksInv(st.links)
    ensures var t := st.(links := st.links + {(k, Link(req.obj.pool.name))});
      KeyInv(c, t, k) && LinksInv(t.links) && SparesOthers(st, t, k)
  {
    var p := req.obj.pool.name;
    var t := st.(links := st.links + {(k, Link(p))});
    GoodReqFields(e, k, req);
    LinkTail(p);
    assert GoodLink((k, Link(p)));
    forall f | (k, f) in t.links
      ensures Entry(c, t, k, Tail(f))
    {
      assert (k, f) in st.links ==> Entry(c, st, k, Tail(f));
    }
  }

  lemma {:induction false} FillKeeps(oracle: Oracle, c: Cluster, st: State, job: SvcJob, k: NamespaceName)
    requires job.Key() == Some(k) && SvcGood(oracle, c, st, job, k) && CacheTurn(st, job).Some?
    requires SvcOk(c, CacheTurn(st, job).value.1)
    ensures var p := CacheTurn(st, job).value; SvcGood(oracle, c, p.0, p.1, k) && SparesOthers(st, p.0, k)
  {
    if job.n < |job.ops| && job.ops[job.n].model == "Pool" {
      PoolModelOnly(job.e, k, job.ops, job.pools, job.n);
      if job.half {
        FillLinkKeeps(oracle, c, st, job, k);
      } else {
        FillPoolCacheKeeps(oracle, c, st, job, k);
      }
    } else {
      FillOtherKeeps(oracle, c, st, job, k);
    }
  }

  lemma {:induction false} FillNextGood(oracle: Oracle, c: Cluster, st: State, t: State, job: SvcJob, next: SvcJob,
                                        k: NamespaceName)
    requires job.Filling? && job.Key() == Some(k) && SvcGood(oracle, c, st, job, k) && !job.half
    requires t == st.(vss := t.vss) && KeyInv(c, t, k) && SvcOk(c, next)
    requires next == Idle || next == Filling(job.svc, job.e, job.ops, job.pools, job.results, job.n + 1, false)
    ensures SvcGood(oracle, c, t, next, k)
  {
  }

  lemma {:induction false} FillOtherKeeps(oracle: Oracle, c: Cluster, st: State, job: SvcJob, k: NamespaceName)
    requires job.Filling? && job.Key() == Some(k) && SvcGood(oracle, c, st, job, k) && CacheTurn(st, job).Some?
    requires SvcOk(c, CacheTurn(st, job).value.1) && (job.n >= |job.ops| || job.ops[job.n].model != "Pool")
    ensures var p := CacheTurn(st, job).value; SvcGood(oracle, c, p.0, p.1, k) && SparesOthers(st, p.0, k)
  {
    if job.n < |job.ops| {
      PoolModelOnly(job.e, k, job.ops, job.pools, job.n);
    }
    OtherTurn(st, job);
    var p := CacheTurn(st, job).value;
    SameRemotePools(c, st, p.0, k);
    FillNextGood(oracle, c, st, p.0, job, p.1, k);
  }

  lemma {:induction false} FillPoolCacheKeeps(oracle: Oracle, c: Cluster, st: State, job: SvcJob, k: NamespaceName)
    requires job.Filling? && job.Key() == Some(k) && SvcGood(oracle, c, st, job, k) && CacheTurn(st, job).Some?
    requires job.n < job.pools && job.ops[job.n].model == "Pool" && !job.half
    ensures var p := CacheTurn(st, job).value; SvcGood(oracle, c, p.0, p.1, k) && SparesOthers(st, p.0, k)
  {
    var req, r := job.ops[job.n], job.results[job.n];
    GoodReqFields(job.e, k, req);
    var entry := EchoedPool(req, r, st.pools, {}, k);
    CachedKeeps(c, st, k, job.e, req, entry);
  }

  lemma {:induction false} FillLinkKeeps(oracle: Oracle, c: Cluster, st: State, job: SvcJob, k: NamespaceName)
    requires job.Filling? && job.Key() == Some(k) && SvcGood(oracle, c, st, job, k) && CacheTurn(st, job).Some?
    requires job.n < job.pools && job.ops[job.n].model == "Pool" && job.half
    ensures var p := CacheTurn(st, job).value; SvcGood(oracle, c, p.0, p.1, k) && SparesOthers(st, p.0, k)
  {
    var req, r := job.ops[job.n], job.results[job.n];
    GoodReqFields(job.e, k, req);
    var entry := EchoedPool(req, r, st.pools, st.links, k);
    LinkedKeeps(c, st, k, job.e, req);
  }

  // ---------- a deletion ----------

  lemma {:induction false} FewerPools(oracle: Oracle, net: Net, net1: Net)
    requires NetInv(oracle, net) && net.clock <= net1.clock
    requires forall q :: q in net1.remote.pools ==> q in net.remote.pools && net1.remote.pools[q] == net.remote.pools[q]
    ensures NetInv(oracle, net1)
  {
    forall q | q in net1.remote.pools
      ensures Used(oracle, net1.clock, net1.remote.pools[q].uuid)
    {
      UsedLater(oracle, net.clock, net1.clock, net.remote.pools[q].uuid);
    }
  }

  lemma {:induction false} GetKeeps(oracle: Oracle, c: Cluster, st: State, job: SvcJob, k: NamespaceName)
    requires job.Key() == Some(k) && SvcGood(oracle, c, st, job, k) && GetTurn(oracle, st, job).Some?
    ensures var p := GetTurn(oracle, st, job).value; SvcGood(oracle, c, p.0, p.1, k) && SparesOthers(st, p.0, k)
  {
    var t := GetTurn(oracle, st, job).value.0;
    SameRemotePools(c, st, t, k);
    FewerPools(oracle, st.net, t.net);
  }

  lemma {:induction false} MacroSpares(st: State, net: Net, k: NamespaceName, gone: set<string>, j: NamespaceName)
    requires j != k && (net.remote == st.net.remote || net.remote == EraseService(st.net.remote, k, gone))
    ensures Spares(st, st.(net := net), j)
  {
    forall q | Owned(j, q)
      ensures SameAt(st.net.remote.pools, net.remote.pools, q)
    {
      if net.remote == EraseService(st.net.remote, k, gone) {
        EraseServiceFrame(st.net.remote, k, gone, q, j.name);
      }
    }
  }

  lemma {:induction false} EraseShrinks(remote: Remote, k: NamespaceName, gone: set<string>)
    ensures forall q :: q in EraseService(remote, k, gone).pools ==>
              q in remote.pools && EraseService(remote, k, gone).pools[q] == remote.pools[q]
  {
  }

  /** The far side after the macro delete. */
  lemma {:induction false} MacroNet(oracle: Oracle, st: State, k: NamespaceName, net: Net)
    requires NetInv(oracle, st.net) && net.clock == st.net.clock + 1
    requires net.remote == st.net.remote
      || net.remote == EraseService(st.net.remote, k, Fate(oracle, st.net.clock).gone)
    ensures NetInv(oracle, net) && SparesOthers(st, st.(net := net), k)
  {
    var gone := Fate(oracle, st.net.clock).gone;
    EraseShrinks(st.net.remote, k, gone);
    FewerPools(oracle, st.net, net);
    forall j | j != k
      ensures Spares(st, st.(net := net), j)
    {
      MacroSpares(st, net, k, gone, j);
    }
  }

  lemma {:induction false} ErasedGood(oracle: Oracle, c: Cluster, st: State, k: NamespaceName, net: Net)
    requires SvcGood(oracle, c, st, Doomed(k), k) && NetInv(oracle, net)
    ensures SvcGood(oracle, c, st.(net := net), Erased(k), k)
  {
    assert EntriesLinked(st.pools, st.links, k);
    OpenGood(oracle, c, st.(net := net), k);
  }

  /** With its pools erased, a key owes no more than links for its entries. */
  lemma {:induction false} OpenGood(oracle: Oracle, c: Cluster, st: State, k: NamespaceName)
    requires NetInv(oracle, st.net) && LinksInv(st.links) && EntriesLinked(st.pools, st.links, k)
    ensures SvcGood(oracle, c, st, Erased(k), k)
  {
  }

  lemma {:induction false} MacroKeeps(oracle: Oracle, c: Cluster, st: State, k: NamespaceName)
    requires SvcGood(oracle, c, st, Doomed(k), k)
    ensures var p := SvcStep(oracle, c, st, Doomed(k), SvcMacro);
      p.Some? && SvcGood(oracle, c, p.value.0, p.value.1, k) && SparesOthers(st, p.value.0, k)
  {
    var del := Fate(oracle, st.net.clock);
    var remote := if del.Applied() then EraseService(st.net.remote, k, del.gone) else st.net.remote;
    var net := Net(remote, st.net.clock + 1);
    MacroNet(oracle, st, k, net);
    ErasedGood(oracle, c, st, k, net);
    assert SvcStep(oracle, c, st, Doomed(k), SvcMacro) == Some((st.(net := net), Erased(k)));
  }

  /** Dropping a pool of `k` from the cache. */
  lemma {:induction false} DroppedSpares(st: State, k: NamespaceName, mine: NamespaceName)
    requires Owned(k, mine)
    ensures SparesOthers(st, st.(pools := st.pools - {mine}), k)
  {
    forall j, q | j != k && Owned(j, q)
      ensures q != mine
    {
      if q == mine {
        OwnedOnce(j, k, q);
      }
    }
  }

  lemma {:induction false} DroppedTodo(q: NamespaceName, k: NamespaceName, link: string, todo: set<string>)
    requires GoodLink((k, link)) && q.ns == k.ns && q != NamespaceName(k.ns, Tail(link)) && Link(q.name) in todo
    ensures Link(q.name) in todo - {link}
  {
    LinkTail(q.name);
  }

  lemma {:induction false} DroppedLinks(pools: PoolMap, links: Relation, k: NamespaceName, todo: set<string>,
                                        link: string)
    requires StillLinked(pools, links, k, todo) && GoodLink((k, link))
    ensures StillLinked(pools - {NamespaceName(k.ns, Tail(link))}, links, k, todo - {link})
  {
    forall q | q in pools - {NamespaceName(k.ns, Tail(link))} && Owned(k, q)
      ensures Link(q.name) in todo - {link}
    {
      DroppedTodo(q, k, link, todo);
    }
  }

  lemma {:induction false} DroppingGood(oracle: Oracle, c: Cluster, st: State, k: NamespaceName, todo: set<string>)
    requires NetInv(oracle, st.net) && LinksInv(st.links) && StillLinked(st.pools, st.links, k, todo)
    ensures SvcGood(oracle, c, st, Dropping(k, todo), k)
  {
    assert SvcFacts(oracle, c, st, Dropping(k, todo));
    assert Open(Dropping(k, todo)) == Some(k);
  }

  lemma {:induction false} DroppedGood(oracle: Oracle, c: Cluster, st: State, k: NamespaceName, todo: set<string>,
                                       link: string, mine: NamespaceName)
    requires NetInv(oracle, st.net) && LinksInv(st.links) && StillLinked(st.pools, st.links, k, todo)
    requires GoodLink((k, link)) && mine == NamespaceName(k.ns, Tail(link))
    ensures SvcGood(oracle, c, st.(pools := st.pools - {mine}), Dropping(k, todo - {link}), k)
  {
    DroppedLinks(st.pools, st.links, k, todo, link);
    DroppingGood(oracle, c, st.(pools := st.pools - {mine}), k, todo - {link});
  }

  lemma {:induction false} DropKeeps(oracle: Oracle, c: Cluster, st: State, k: NamespaceName, todo: set<string>,
                                     link: string)
    requires SvcGood(oracle, c, st, Dropping(k, todo), k) && link in todo
    ensures var p := DropTurn(st, Dropping(k, todo), link); p.Some? && Settles(oracle, c, st, p.value, k)
  {
    assert (k, link) in st.links && GoodLink((k, link));
    LinkParts(k.name, Tail(link));
    var mine := NamespaceName(k.ns, Tail(link));
    DroppedSpares(st, k, mine);
    DroppedGood(oracle, c, st, k, todo, link, mine);
  }

  /** Links have the prefix the deletion looks for. */
  lemma {:induction false} ServiceLink(st: State, k: NamespaceName, link: string)
    requires LinksInv(st.links) && (k, link) in st.links
    ensures Prefix(link) == "service"
  {
    LinkOf(st, k, link);
    assert GoodLink((k, link));
    LinkParts(k.name, Tail(link));
  }

  lemma {:induction false} UnlinkedGood(oracle: Oracle, c: Cluster, st: State, t: State, k: NamespaceName,
                                        todo: set<string>, link: string)
    requires SvcGood(oracle, c, st, Unlinking(k, todo), k)
    requires t == st.(links := st.links - {(k, link)})
    ensures SvcGood(oracle, c, t, Unlinking(k, todo - {link}), k) && SparesOthers(st, t, k)
  {
  }

  lemma {:induction false} UnlinkKeeps(oracle: Oracle, c: Cluster, st: State, k: NamespaceName, todo: set<string>,
                                       link: string)
    requires SvcGood(oracle, c, st, Unlinking(k, todo), k) && link in todo
    ensures var p := UnlinkTurn(st, Unlinking(k, todo), link);
      p.Some? && SvcGood(oracle, c, p.value.0, p.value.1, k) && SparesOthers(st, p.value.0, k)
  {
    if (k, link) in st.links {
      ServiceLink(st, k, link);
    }
    var t := st.(links := st.links - {(k, link)});
    assert (k, link) !in st.links ==> t == st;
    UnlinkedGood(oracle, c, st, t, k, todo, link);
  }

  /** The turns between the two loops, and the last one. */
  lemma {:induction false} RangeKeeps(oracle: Oracle, c: Cluster, st: State, k: NamespaceName)
    requires SvcGood(oracle, c, st, Erased(k), k)
    ensures SvcGood(oracle, c, st, Dropping(k, ValuesOf(st.links, k)), k)
  {
  }

  lemma {:induction false} DroppedKeeps(oracle: Oracle, c: Cluster, st: State, k: NamespaceName)
    requires SvcGood(oracle, c, st, Dropping(k, {}), k)
    ensures SvcGood(oracle, c, st, Unlinking(k, ValuesOf(st.links, k)), k)
  {
    NoneLeft(st, k);
  }

  lemma {:induction false} NoneLeft(st: State, k: NamespaceName)
    requires forall q :: q in st.pools && Owned(k, q) ==> Link(q.name) in {}
    ensures (forall q :: q in st.pools ==> !Owned(k, q)) && forall f :: (k, f) in st.links ==>
      f in ValuesOf(st.links, k)
  {
  }

  lemma {:induction false} ForgottenKeeps(oracle: Oracle, c: Cluster, st: State, t: State, k: NamespaceName)
    requires SvcGood(oracle, c, st, Unlinking(k, {}), k) && t == st.(vss := t.vss)
    ensures SvcGood(oracle, c, t, Idle, k)
  {
  }

  lemma {:induction false} SparesSelf(st: State, k: NamespaceName)
    ensures SparesOthers(st, st, k)
  {
    forall j
      ensures Spares(st, st, j)
    {
      SameCachesSpare(st, st, j);
    }
  }

  /** Turns that only read the caches and the listers. */
  ghost predicate Reads(e: Turn) {
    e.SvcLook? || e.SvcCheck? || e.SvcNames? || e.SvcBuild? || e.SvcVs?
  }

  lemma {:induction false} SvcReads(oracle: Oracle, c: Cluster, st: State, job: SvcJob, e: Turn, k: NamespaceName,
                                    p: (State, SvcJob))
    requires Faithful(oracle) && ClusterInv(c) && Reads(e)
    requires job.Key() == Some(k) && SvcGood(oracle, c, st, job, k) && SvcStep(oracle, c, st, job, e) == Some(p)
    ensures Settles(oracle, c, st, p, k)
  {
    SvcOkKeeps(oracle, c, st, job, e);
    SparesSelf(st, k);
    if e.SvcBuild? || e.SvcVs? {
      BuildTurns(oracle, c, st, job, e, k, p);
    } else {
      ReadTurns(oracle, c, st, job, e, k);
    }
  }

  lemma {:induction false} SvcSendTurn(oracle: Oracle, c: Cluster, st: State, job: SvcJob, k: NamespaceName,
                                       p: (State, SvcJob))
    requires Faithful(oracle) && FreshUuids(oracle) && ClusterInv(c)
    requires job.Key() == Some(k) && SvcGood(oracle, c, st, job, k) && SendTurn(oracle, st, job) == Some(p)
    ensures Settles(oracle, c, st, p, k)
  {
    SendOk(oracle, c, st, job);
    SendKeeps(oracle, c, st, job, k);
  }

  lemma {:induction false} SvcUndoTurn(oracle: Oracle, c: Cluster, st: State, job: SvcJob, k: NamespaceName,
                                       p: (State, SvcJob))
    requires job.Key() == Some(k) && SvcGood(oracle, c, st, job, k) && UnsendTurn(oracle, st, job) == Some(p)
    ensures Settles(oracle, c, st, p, k)
  {
    UndoKeeps(oracle, c, st, job, k);
  }

  lemma {:induction false} SvcFillTurn(oracle: Oracle, c: Cluster, st: State, job: SvcJob, k: NamespaceName,
                                       p: (State, SvcJob))
    requires job.Key() == Some(k) && SvcGood(oracle, c, st, job, k) && CacheTurn(st, job) == Some(p)
    ensures Settles(oracle, c, st, p, k)
  {
    FillOk(c, st, job);
    FillKeeps(oracle, c, st, job, k);
  }

  lemma {:induction false} SvcEraseTurns(oracle: Oracle, c: Cluster, st: State, job: SvcJob, e: Turn, k: NamespaceName,
                                         p: (State, SvcJob))
    requires e.SvcGet? || e.SvcMacro?
    requires job.Key() == Some(k) && SvcGood(oracle, c, st, job, k) && SvcStep(oracle, c, st, job, e) == Some(p)
    ensures Settles(oracle, c, st, p, k)
  {
    if e.SvcGet? {
      GetKeeps(oracle, c, st, job, k);
    } else {
      assert job == Doomed(k);
      MacroKeeps(oracle, c, st, k);
    }
  }

  lemma {:induction false} SvcRangeTurn(oracle: Oracle, c: Cluster, st: State, job: SvcJob, k: NamespaceName,
                                        p: (State, SvcJob))
    requires job.Key() == Some(k) && SvcGood(oracle, c, st, job, k) && SvcStep(oracle, c, st, job, SvcRange) == Some(p)
    ensures Settles(oracle, c, st, p, k)
  {
    assert job == Erased(k) && p == (st, Dropping(k, ValuesOf(st.links, k)));
    RangeKeeps(oracle, c, st, k);
    SparesSelf(st, k);
  }

  lemma {:induction false} SvcDropTurn(oracle: Oracle, c: Cluster, st: State, job: SvcJob, k: NamespaceName,
                                       link: string,
                                       p: (State, SvcJob))
    requires job.Key() == Some(k) && SvcGood(oracle, c, st, job, k)
      && SvcStep(oracle, c, st, job, SvcDrop(link)) == Some(p)
    ensures Settles(oracle, c, st, p, k)
  {
    assert job == Dropping(k, job.todo) && DropTurn(st, job, link) == Some(p);
    DropKeeps(oracle, c, st, k, job.todo, link);
  }

  lemma {:induction false} SvcDroppedTurn(oracle: Oracle, c: Cluster, st: State, job: SvcJob, k: NamespaceName,
                                          p: (State, SvcJob))
    requires job.Key() == Some(k) && SvcGood(oracle, c, st, job, k)
      && SvcStep(oracle, c, st, job, SvcDropped) == Some(p)
    ensures Settles(oracle, c, st, p, k)
  {
    assert job == Dropping(k, {}) && p == (st, Unlinking(k, ValuesOf(st.links, k)));
    DroppedKeeps(oracle, c, st, k);
    SparesSelf(st, k);
  }

  lemma {:induction false} SvcUnlinkTurn(oracle: Oracle, c: Cluster, st: State, job: SvcJob, k: NamespaceName,
                                         link: string,
                                         p: (State, SvcJob))
    requires job.Key() == Some(k) && SvcGood(oracle, c, st, job, k)
      && SvcStep(oracle, c, st, job, SvcUnlink(link)) == Some(p)
    ensures Settles(oracle, c, st, p, k)
  {
    assert job == Unlinking(k, job.todo) && UnlinkTurn(st, job, link) == Some(p);
    UnlinkKeeps(oracle, c, st, k, job.todo, link);
  }

  lemma {:induction false} ForgetSettles(oracle: Oracle, c: Cluster, st: State, k: NamespaceName)
    requires SvcGood(oracle, c, st, Unlinking(k, {}), k)
    ensures Settles(oracle, c, st, (st.(vss := st.vss - {k}), Idle), k)
  {
    var t := st.(vss := st.vss - {k});
    ForgottenKeeps(oracle, c, st, t, k);
    forall j
      ensures Spares(st, t, j)
    {
      SameCachesSpare(st, t, j);
    }
  }

  lemma {:induction false} SvcForgetTurn(oracle: Oracle, c: Cluster, st: State, job: SvcJob, k: NamespaceName,
                                         p: (State, SvcJob))
    requires job.Key() == Some(k) && SvcGood(oracle, c, st, job, k) && SvcStep(oracle, c, st, job, SvcForget) == Some(p)
    ensures Settles(oracle, c, st, p, k)
  {
    assert job == Unlinking(k, {}) && p == (st.(vss := st.vss - {k}), Idle);
    ForgetSettles(oracle, c, st, k);
  }

  lemma {:induction false} SvcBatchTurns(oracle: Oracle, c: Cluster, st: State, job: SvcJob, e: Turn, k: NamespaceName,
                                         p: (State, SvcJob))
    requires Faithful(oracle) && FreshUuids(oracle) && ClusterInv(c) && (e.SvcSend? || e.SvcUndo? || e.SvcFill?)
    requires job.Key() == Some(k) && SvcGood(oracle, c, st, job, k) && SvcStep(oracle, c, st, job, e) == Some(p)
    ensures Settles(oracle, c, st, p, k)
  {
    match e
    case SvcSend => SvcSendTurn(oracle, c, st, job, k, p);
    case SvcUndo => SvcUndoTurn(oracle, c, st, job, k, p);
    case SvcFill => SvcFillTurn(oracle, c, st, job, k, p);
  }

  /** The turns of a deletion's two loops. */
  ghost predicate Loops(e: Turn) {
    e.SvcRange? || e.SvcDrop? || e.SvcDropped? || e.SvcUnlink? || e.SvcForget?
  }

  lemma {:induction false} SvcLoopTurns(oracle: Oracle, c: Cluster, st: State, job: SvcJob, e: Turn, k: NamespaceName,
                                        p: (State, SvcJob))
    requires Loops(e)
    requires job.Key() == Some(k) && SvcGood(oracle, c, st, job, k) && SvcStep(oracle, c, st, job, e) == Some(p)
    ensures Settles(oracle, c, st, p, k)
  {
    match e
    case SvcRange => SvcRangeTurn(oracle, c, st, job, k, p);
    case SvcDrop(link) => SvcDropTurn(oracle, c, st, job, k, link, p);
    case SvcDropped => SvcDroppedTurn(oracle, c, st, job, k, p);
    case SvcUnlink(link) => SvcUnlinkTurn(oracle, c, st, job, k, link, p);
    case SvcForget => SvcForgetTurn(oracle, c, st, job, k, p);
  }

  lemma {:induction false} HeldTurns(oracle: Oracle, c: Cluster, st: State, job: SvcJob, e: Turn)
    requires job.Key().Some? && SvcStep(oracle, c, st, job, e).Some?
    ensures Reads(e) || e.SvcSend? || e.SvcUndo? || e.SvcFill? || Loops(e) || e.SvcGet? || e.SvcMacro?
  {
  }

  /** Any turn of the Service worker on the key it holds. */
  lemma {:induction false} SvcTurnKeeps(oracle: Oracle, c: Cluster, st: State, job: SvcJob, e: Turn, k: NamespaceName,
                                        p: (State, SvcJob))
    requires Faithful(oracle) && FreshUuids(oracle) && ClusterInv(c)
    requires job.Key() == Some(k) && SvcGood(oracle, c, st, job, k) && SvcStep(oracle, c, st, job, e) == Some(p)
    ensures Settles(oracle, c, st, p, k)
  {
    HeldTurns(oracle, c, st, job, e);
    if Reads(e) {
      SvcReads(oracle, c, st, job, e, k, p);
    } else if Loops(e) {
      SvcLoopTurns(oracle, c, st, job, e, k, p);
    } else if e.SvcGet? || e.SvcMacro? {
      SvcEraseTurns(oracle, c, st, job, e, k, p);
    } else {
      SvcBatchTurns(oracle, c, st, job, e, k, p);
    }
  }

  lemma {:induction false} SyncKeyStays(oracle: Oracle, c: Cluster, st: State, job: SvcJob, e: Turn)
    requires Reads(e) && SvcStep(oracle, c, st, job, e).Some?
    ensures var next := SvcStep(oracle, c, st, job, e).value.1;
      (next.Key() == None || next.Key() == job.Key()) && Open(next) == None
  {
  }

  lemma {:induction false} BatchKeyStays(oracle: Oracle, c: Cluster, st: State, job: SvcJob, e: Turn)
    requires (e.SvcSend? || e.SvcUndo? || e.SvcFill?) && SvcStep(oracle, c, st, job, e).Some?
    ensures var next := SvcStep(oracle, c, st, job, e).value.1;
      (next.Key() == None || next.Key() == job.Key()) && (Open(next) == None || Open(next) == job.Key())
  {
  }

  lemma {:induction false} SvcKeyStays(oracle: Oracle, c: Cluster, st: State, job: SvcJob, e: Turn)
    requires job.Key().Some? && SvcStep(oracle, c, st, job, e).Some?
    ensures var next := SvcStep(oracle, c, st, job, e).value.1;
      (next.Key() == None || next.Key() == job.Key()) && (Open(next) == None || Open(next) == job.Key())
  {
    if Reads(e) {
      SyncKeyStays(oracle, c, st, job, e);
    } else if e.SvcSend? || e.SvcUndo? || e.SvcFill? {
      BatchKeyStays(oracle, c, st, job, e);
    }
  }

  lemma {:induction false} OpenIsHeld(job: SvcJob)
    ensures Open(job).Some? ==> Open(job) == job.Key()
  {
  }

  /** While the links of its key stay, a range loses nothing. */
  lemma {:induction false} RangeFacts(c: Cluster, st: State, job: EpJob)
    requires EpFacts(c, st, job)
    ensures EpFacts(c, st, StillThere(st.links, job)) && StillThere(st.links, job).Key() == job.Key()
  {
  }

  /** A key is taken. */
  lemma {:induction false} TakeSepKeeps(oracle: Oracle, s: Sys, e: Turn)
    requires Faithful(oracle) && SepInv(oracle, s) && s.svc.Idle? && SvcStep(oracle, s.c, s.st, s.svc, e).Some?
    requires var p := SvcStep(oracle, s.c, s.st, s.svc, e).value; Apart(s.(st := p.0, svc := p.1))
    ensures var p := SvcStep(oracle, s.c, s.st, s.svc, e).value;
      SepInv(oracle, s.(st := p.0, svc := p.1, ep := StillThere(p.0.links, s.ep)))
  {
    var p := SvcStep(oracle, s.c, s.st, s.svc, e).value;
    assert e.SvcTake? && p.0 == s.st && Open(p.1) == None;
    RangeFacts(s.c, s.st, s.ep);
    SvcOkKeeps(oracle, s.c, s.st, s.svc, e);
  }

  lemma {:induction false} SvcSepKeeps(oracle: Oracle, s: Sys, e: Turn)
    requires Faithful(oracle) && FreshUuids(oracle) && SepInv(oracle, s) && SvcStep(oracle, s.c, s.st, s.svc, e).Some?
    requires var p := SvcStep(oracle, s.c, s.st, s.svc, e).value; Apart(s.(st := p.0, svc := p.1))
    ensures var p := SvcStep(oracle, s.c, s.st, s.svc, e).value;
      SepInv(oracle, s.(st := p.0, svc := p.1, ep := StillThere(p.0.links, s.ep)))
  {
    var p := SvcStep(oracle, s.c, s.st, s.svc, e).value;
    if s.svc.Idle? {
      TakeSepKeeps(oracle, s, e);
    } else {
      var k := s.svc.Key().value;
      OpenIsHeld(s.svc);
      SvcTurnKeeps(oracle, s.c, s.st, s.svc, e, k, p);
      SvcKeyStays(oracle, s.c, s.st, s.svc, e);
      EpFactsFrame(s.c, s.st, p.0, s.ep);
      RangeFacts(s.c, p.0, s.ep);
      forall j | Open(p.1) != Some(j)
        ensures KeyInv(s.c, p.0, j)
      {
        if j != k {
          KeyFrame(s.c, s.st, p.0, j);
        }
      }
    }
  }

  // ---------- turns of the Endpoints worker ----------

  ghost predicate EpGood(oracle: Oracle, c: Cluster, st: State, job: EpJob, k: NamespaceName) {
    NetInv(oracle, st.net) && LinksInv(st.links) && EpFacts(c, st, job) && KeyInv(c, st, k)
  }

  lemma {:induction false} NewName(names: seq<string>, seen: set<string>, p: string)
    requires NoDup(names) && (forall i :: 0 <= i < |names| ==> Link(names[i]) in seen) && Link(p) !in seen
    ensures NoDup(names + [p]) && forall i :: 0 <= i < |names| + 1 ==> Link((names + [p])[i]) in seen + {Link(p)}
  {
  }

  lemma {:induction false} LinkFacts(c: Cluster, st: State, job: EpJob, link: string, k: NamespaceName)
    requires job.Key() == Some(k) && LinksInv(st.links) && KeyInv(c, st, k) && EpFacts(c, st, job)
    requires LinkTurn(st, job, link).Some?
    ensures EpFacts(c, st, LinkTurn(st, job, link).value.1)
  {
    LinkOf(st, k, link);
    assert Entry(c, st, k, Tail(link));
    NewName(job.names, job.seen, Tail(link));
    VisitedFacts(c, st, job, k, Tail(link));
  }

  lemma {:induction false} VisitedFacts(c: Cluster, st: State, job: EpJob, k: NamespaceName, p: string)
    requires job.Ranging? && job.Key() == Some(k) && EpFacts(c, st, job) && (k, Link(p)) in st.links
    requires NoDup(job.names + [p])
    requires forall i :: 0 <= i < |job.names| + 1 ==> Link((job.names + [p])[i]) in job.seen + {Link(p)}
    ensures EpFacts(c, st, Ranging(job.e, job.start, job.seen + {Link(p)}, job.names + [p], CrudHashKey(k)))
  {
  }

  lemma {:induction false} RangedFacts(c: Cluster, st: State, job: EpJob, k: NamespaceName)
    requires job.Ranging? && job.Key() == Some(k) && LinksInv(st.links) && EpFacts(c, st, job)
    ensures EpFacts(c, st, Building(job.e, job.names, job.hash, 0, []))
  {
    forall i | 0 <= i < |job.names|
      ensures OwnedBy(k.name, job.names[i])
    {
      assert GoodLink((k, Link(job.names[i])));
      LinkTail(job.names[i]);
    }
  }

  lemma {:induction false} EpBuildFacts(c: Cluster, st: State, job: EpJob, k: NamespaceName, ops: seq<Request>)
    requires job.Building? && job.Key() == Some(k) && EpFacts(c, st, job) && job.n < |job.names|
    requires BuildOne(st.pools, job.e, job.hash, job.names[job.n], job.ops) == Some(ops)
    ensures EpFacts(c, st, Building(job.e, job.names, job.hash, job.n + 1, ops))
  {
    BuildOneOk(st.pools, job.e, k, job.names, job.n, job.ops);
    BuildOutdated(c, st, k, job.e, job.names, job.n, job.ops);
  }

  lemma {:induction false} EpPostFacts(c: Cluster, st: State, job: EpJob, k: NamespaceName)
    requires job.Building? && job.Key() == Some(k) && EpFacts(c, st, job)
    ensures EpFacts(c, st, Posting(job.e, job.ops, []))
  {
    forall i | 0 <= i < |job.ops|
      ensures (k, Link(job.ops[i].obj.pool.name)) in st.links
    {
      assert GoodReq(job.e, k, job.ops[i]) && job.ops[i].obj.pool.name in job.names[..job.n];
      var j :| 0 <= j < job.n && job.names[..job.n][j] == job.ops[i].obj.pool.name;
      assert job.names[j] == job.ops[i].obj.pool.name;
    }
  }

  /** Turns that only read. */
  lemma {:induction false} EpReads(oracle: Oracle, c: Cluster, st: State, job: EpJob, e: Turn, k: NamespaceName)
    requires job.Key() == Some(k) && EpGood(oracle, c, st, job, k) && EpStep(oracle, c, st, job, e).Some?
    requires !e.EpSend? && !e.EpCache?
    ensures var p := EpStep(oracle, c, st, job, e).value; p.0 == st && EpFacts(c, st, p.1)
  {
    match e
    case EpLink(link) => LinkFacts(c, st, job, link, k);
    case EpRanged => RangedFacts(c, st, job, k);
    case EpBuild => EpBuildFacts(c, st, job, k, EpStep(oracle, c, st, job, e).value.1.ops);
    case EpPost => EpPostFacts(c, st, job, k);
    case _ =>
  }

  lemma {:induction false} EpSendFacts(oracle: Oracle, c: Cluster, st: State, job: EpJob, k: NamespaceName)
    requires Faithful(oracle) && FreshUuids(oracle) && NetInv(oracle, st.net)
    requires job.Posting? && job.Key() == Some(k) && EpFacts(c, st, job) && |job.results| < |job.ops|
    ensures var (r, net) := SendOne(oracle, st.net, job.ops[|job.results|]);
      && AllLanded(net, job.ops, |job.results|)
      && (r.Succeeded? ==> Landed(net, job.ops[|job.results|]) && Echoed(job.ops[|job.results|], r))
  {
    var i := |job.results|;
    var req := job.ops[i];
    GoodReqFields(job.e, k, req);
    AllLandedStays(oracle, st.net, job.ops, i, req);
    if SendOne(oracle, st.net, req).0.Succeeded? {
      EchoedSend(oracle, st.net, req);
      PoolLanded(oracle, st.net, req);
    }
  }

  /** The job after a request of an endpoints sync. */
  lemma {:induction false} EpSentJob(oracle: Oracle, c: Cluster, st: State, job: EpJob, k: NamespaceName)
    requires job.Posting? && job.Key() == Some(k) && EpFacts(c, st, job) && |job.results| < |job.ops|
    requires var (r, net) := SendOne(oracle, st.net, job.ops[|job.results|]);
      && AllLanded(net, job.ops, |job.results|)
      && (r.Succeeded? ==> Landed(net, job.ops[|job.results|]) && Echoed(job.ops[|job.results|], r))
    ensures var p := EpSendTurn(oracle, st, job).value; EpFacts(c, p.0, p.1)
  {
    var (r, net) := SendOne(oracle, st.net, job.ops[|job.results|]);
    if r.Succeeded? {
      EchoedMore(job.ops, job.results, r);
    } else {
      var ops := job.ops[..|job.results|];
      assert forall i :: 0 <= i < |ops| ==> ops[i] == job.ops[i];
    }
  }

  lemma {:induction false} EpSendKeeps(oracle: Oracle, c: Cluster, st: State, job: EpJob, k: NamespaceName)
    requires Faithful(oracle) && FreshUuids(oracle) && job.Key() == Some(k) && EpGood(oracle, c, st, job, k)
    requires EpSendTurn(oracle, st, job).Some?
    ensures var p := EpSendTurn(oracle, st, job).value;
      EpGood(oracle, c, p.0, p.1, k) && SparesOthers(st, p.0, k) && KeepsUuids(oracle, st.net, p.0.net)
  {
    if |job.results| < |job.ops| {
      var req := job.ops[|job.results|];
      PoolSent(oracle, c, st, k, job.e, req);
      SendKeepsUuids(oracle, st.net, req);
      EpSendFacts(oracle, c, st, job, k);
      EpSentJob(oracle, c, st, job, k);
    } else {
      SparesSelf(st, k);
    }
  }

  lemma {:induction false} EpCacheKeeps(oracle: Oracle, c: Cluster, st: State, job: EpJob, k: NamespaceName)
    requires job.Key() == Some(k) && EpGood(oracle, c, st, job, k) && EpCacheTurn(st, job).Some?
    ensures var p := EpCacheTurn(st, job).value;
      EpGood(oracle, c, p.0, p.1, k) && SparesOthers(st, p.0, k) && p.0.net == st.net
  {
    if job.n < |job.ops| {
      var req, r := job.ops[job.n], job.results[job.n];
      GoodReqFields(job.e, k, req);
      var entry := EchoedPool(req, r, st.pools, {}, k);
      CachedKeeps(c, st, k, job.e, req, entry);
    } else {
      SameRemotePools(c, st, st, k);
    }
  }

  lemma {:induction false} EpSepKeeps(oracle: Oracle, s: Sys, e: Turn)
    requires Faithful(oracle) && FreshUuids(oracle) && SepInv(oracle, s) && EpStep(oracle, s.c, s.st, s.ep, e).Some?
    requires var p := EpStep(oracle, s.c, s.st, s.ep, e).value; Apart(s.(st := p.0, ep := p.1))
    ensures var p := EpStep(oracle, s.c, s.st, s.ep, e).value; SepInv(oracle, s.(st := p.0, ep := p.1))
  {
    var p := EpStep(oracle, s.c, s.st, s.ep, e).value;
    OpenIsHeld(s.svc);
    if s.ep.Resting? {
      assert p.0 == s.st;
      if p.1.Taken? {
        assert Open(s.svc) != Some(e.k);
        ReadSettles(s.c, s.st, e.k);
      }
    } else {
      var k := s.ep.Key().value;
      assert Open(s.svc) != Some(k) && KeyInv(s.c, s.st, k);
      if e.EpSend? {
        EpSendKeeps(oracle, s.c, s.st, s.ep, k);
      } else if e.EpCache? {
        EpCacheKeeps(oracle, s.c, s.st, s.ep, k);
      } else {
        EpReads(oracle, s.c, s.st, s.ep, e, k);
        SameRemotePools(s.c, s.st, s.st, k);
      }
      EpFrames(oracle, s, p.0, k);
    }
  }

  /** The rest of the system while the Endpoints worker works on `k`. */
  lemma {:induction false} EpFrames(oracle: Oracle, s: Sys, t: State, k: NamespaceName)
    requires SepInv(oracle, s) && s.ep.Key() == Some(k) && SparesOthers(s.st, t, k) && KeyInv(s.c, t, k)
    requires KeepsUuids(oracle, s.st.net, t.net)
    ensures SvcFacts(oracle, s.c, t, s.svc) && forall j :: Open(s.svc) != Some(j) ==> KeyInv(s.c, t, j)
  {
    SvcFactsFrame(oracle, s.c, s.st, t, s.svc);
    forall j | Open(s.svc) != Some(j)
      ensures KeyInv(s.c, t, j)
    {
      if j != k {
        KeyFrame(s.c, s.st, t, j);
      }
    }
  }

  // ---------- all runs in which the workers stay apart ----------

  /** The system after the first `n` turns. */
  ghost function SoFar(oracle: Oracle, es: seq<Turn>, n: nat): Option<Sys>
    requires n <= |es|
  {
    Exec(oracle, START, es[..n])
  }

  /** At no point of the run do both workers hold the same key. */
  ghost predicate StayApart(oracle: Oracle, es: seq<Turn>) {
    forall n :: 0 <= n <= |es| && SoFar(oracle, es, n).Some? ==> Apart(SoFar(oracle, es, n).value)
  }

  lemma {:induction false} SepKeeps(oracle: Oracle, s: Sys, e: Turn)
    requires Faithful(oracle) && FreshUuids(oracle) && SepInv(oracle, s)
    requires Step(oracle, s, e).Some? && Apart(Step(oracle, s, e).value)
    ensures SepInv(oracle, Step(oracle, s, e).value)
  {
    if e.Change? {
      ChangeKeeps(oracle, s, e.e);
    } else if SvcStep(oracle, s.c, s.st, s.svc, e).Some? {
      SvcSepKeeps(oracle, s, e);
    } else {
      EpSepKeeps(oracle, s, e);
    }
  }

  lemma {:induction false} ApartSoFar(oracle: Oracle, es: seq<Turn>)
    requires es != [] && StayApart(oracle, es)
    ensures StayApart(oracle, es[..|es| - 1])
  {
    var init := es[..|es| - 1];
    forall n | 0 <= n <= |init| && SoFar(oracle, init, n).Some?
      ensures Apart(SoFar(oracle, init, n).value)
    {
      assert init[..n] == es[..n];
      assert SoFar(oracle, es, n) == SoFar(oracle, init, n);
    }
  }

  lemma {:induction false} ExecSeparate(oracle: Oracle, es: seq<Turn>)
    requires Faithful(oracle) && FreshUuids(oracle) && StayApart(oracle, es) && Exec(oracle, START, es).Some?
    ensures SepInv(oracle, Exec(oracle, START, es).value)
  {
    assert es[..|es|] == es;
    assert SoFar(oracle, es, |es|) == Exec(oracle, START, es);
    if es != [] {
      var n := |es| - 1;
      ApartSoFar(oracle, es);
      ExecSeparate(oracle, es[..n]);
      SepKeeps(oracle, Exec(oracle, START, es[..n]).value, es[n]);
    }
  }

  /** The Service worker has asked for the virtual service of `k`, and perhaps its pools, to be deleted. */
  ghost predicate Deleting(s: Sys, k: NamespaceName) {
    s.svc == Erased(k) || (s.svc.Dropping? && s.svc.k == k) || (s.svc.Unlinking? && s.svc.k == k)
  }

  /** Entries are in order unless their service is being deleted. */
  lemma {:induction false} EntriesInOrder(oracle: Oracle, s: Sys, k: NamespaceName, p: string)
    requires SepInv(oracle, s) && OwnedBy(k.name, p) && NamespaceName(k.ns, p) in s.st.pools && !Deleting(s, k)
    ensures Entry(s.c, s.st, k, p)
  {
    var q := NamespaceName(k.ns, p);
    assert Owned(k, q);
    LinkTail(p);
    if Open(s.svc) != Some(k) {
      assert KeyInv(s.c, s.st, k);
      assert Entry(s.c, s.st, k, Tail(Link(p)));
    } else {
      var req := s.svc.ops[s.svc.n];
      GoodReqFields(s.svc.e, k, req);
      if q != PoolKey(req) {
        assert Entry(s.c, s.st, k, Tail(Link(p)));
      }
    }
  }

  /**
   * Checksum soundness under interleaving. While the two workers never hold the same key, every cached pool, at every
   * turn, carries a version its Endpoints had, and the far side has the pool built from that version or the Endpoints
   * have left it for good; the one exception is a service whose deletion has been requested and is not finished.
   */
  lemma {:induction false} CachedPoolsStaySound(oracle: Oracle, es: seq<Turn>, k: NamespaceName, p: string)
    requires Faithful(oracle) && FreshUuids(oracle) && StayApart(oracle, es) && Exec(oracle, START, es).Some?
    requires OwnedBy(k.name, p) && !Deleting(Exec(oracle, START, es).value, k)
    ensures var s := Exec(oracle, START, es).value;
      NamespaceName(k.ns, p) in s.st.pools ==> Sound(s.c, s.st, k, p)
  {
    ExecSeparate(oracle, es);
    var s := Exec(oracle, START, es).value;
    if NamespaceName(k.ns, p) in s.st.pools {
      EntriesInOrder(oracle, s, k, p);
    }
  }

  /** Every cached pool belongs to some service. */
  ghost predicate PoolsOwned(pools: PoolMap) {
    forall q :: q in pools ==> exists n :: OwnedBy(n, q.name)
  }

  lemma {:induction false} OwnedMore(pools: PoolMap, e: Endpoints, k: NamespaceName, req: Request, r: Result)
    requires PoolsOwned(pools) && GoodReq(e, k, req) && Echoed(req, r)
    ensures var f := AddPools(pools, req.tenant, Elems(r.resp, "pool")); f.Some? && PoolsOwned(f.value)
  {
    var entry := EchoedPool(req, r, pools, {}, k);
    assert OwnedBy(k.name, PoolKey(req).name);
  }

  lemma {:induction false} SvcFillOwned(c: Cluster, st: State, job: SvcJob)
    requires SvcOk(c, job) && PoolsOwned(st.pools) && CacheTurn(st, job).Some?
    ensures PoolsOwned(CacheTurn(st, job).value.0.pools)
  {
    if job.n < |job.ops| {
      PoolModelOnly(job.e, job.svc.Key(), job.ops, job.pools, job.n);
      if job.n < job.pools {
        OwnedMore(st.pools, job.e, job.svc.Key(), job.ops[job.n], job.results[job.n]);
      }
    }
  }

  lemma {:induction false} EpCacheOwned(c: Cluster, st: State, job: EpJob)
    requires EpFacts(c, st, job) && PoolsOwned(st.pools) && EpCacheTurn(st, job).Some?
    ensures PoolsOwned(EpCacheTurn(st, job).value.0.pools)
  {
    if job.n < |job.ops| {
      OwnedMore(st.pools, job.e, job.e.Key(), job.ops[job.n], job.results[job.n]);
    }
  }

  lemma {:induction false} SvcOwnedKeeps(oracle: Oracle, c: Cluster, st: State, job: SvcJob, e: Turn)
    requires SvcOk(c, job) && PoolsOwned(st.pools) && SvcStep(oracle, c, st, job, e).Some?
    ensures PoolsOwned(SvcStep(oracle, c, st, job, e).value.0.pools)
  {
    if e.SvcFill? {
      SvcFillOwned(c, st, job);
    } else if Quiet(e) {
      QuietTurns(oracle, c, st, job, e);
    }
  }

  lemma {:induction false} OwnedKeeps(oracle: Oracle, s: Sys, e: Turn)
    requires SepInv(oracle, s) && PoolsOwned(s.st.pools) && Step(oracle, s, e).Some?
    ensures PoolsOwned(Step(oracle, s, e).value.st.pools)
  {
    if !e.Change? && SvcStep(oracle, s.c, s.st, s.svc, e).Some? {
      SvcOwnedKeeps(oracle, s.c, s.st, s.svc, e);
    } else if e.EpCache? {
      EpCacheOwned(s.c, s.st, s.ep);
    }
  }

  /** Every cached pool is one of those: it belongs to some service. */
  lemma {:induction false} CachedPoolsAreOwned(oracle: Oracle, es: seq<Turn>)
    requires Faithful(oracle) && FreshUuids(oracle) && StayApart(oracle, es) && Exec(oracle, START, es).Some?
    ensures PoolsOwned(Exec(oracle, START, es).value.st.pools)
  {
    if es != [] {
      var n := |es| - 1;
      ApartSoFar(oracle, es);
      CachedPoolsAreOwned(oracle, es[..n]);
      ExecSeparate(oracle, es[..n]);
      OwnedKeeps(oracle, Exec(oracle, START, es[..n]).value, es[n]);
    }
  }

  /** A pool that the checksum comparison skips is on the far side exactly as the current Endpoints give it. */
  lemma {:induction false} SkipsStaySound(oracle: Oracle, es: seq<Turn>, k: NamespaceName, p: string)
    requires Faithful(oracle) && FreshUuids(oracle) && StayApart(oracle, es) && Exec(oracle, START, es).Some?
    requires OwnedBy(k.name, p) && !Deleting(Exec(oracle, START, es).value, k)
    ensures var s := Exec(oracle, START, es).value;
      k in s.c.eps && !Stale(s.st.pools, s.c.eps[k], p) ==> Posted(s.st.net.remote, s.c.eps[k], k, p)
  {
    ExecSeparate(oracle, es);
    CachedPoolsStaySound(oracle, es, k, p);
  }

  /** Links and pool cache agree, metadata included, for every key that no worker holds. */
  lemma {:induction false} CachesAgree(oracle: Oracle, es: seq<Turn>, k: NamespaceName, p: string)
    requires Faithful(oracle) && FreshUuids(oracle) && StayApart(oracle, es) && Exec(oracle, START, es).Some?
    requires var s := Exec(oracle, START, es).value; s.svc.Key() != Some(k) && s.ep.Key() != Some(k)
    requires OwnedBy(k.name, p)
    ensures var s, q := Exec(oracle, START, es).value, NamespaceName(k.ns, p);
      && ((k, Link(p)) in s.st.links <==> q in s.st.pools)
      && (q in s.st.pools ==> s.st.pools[q].crudHashKey == CrudHashKey(k))
      && (forall e :: (k, e) in s.st.links ==> OwnedBy(k.name, Tail(e)) && e == Link(Tail(e)))
  {
    ExecSeparate(oracle, es);
    var s, q := Exec(oracle, START, es).value, NamespaceName(k.ns, p);
    OpenIsHeld(s.svc);
    assert KeyInv(s.c, s.st, k) && Owned(k, q);
    LinkTail(p);
    assert (k, Link(p)) in s.st.links ==> Entry(s.c, s.st, k, Tail(Link(p)));
    assert forall e :: (k, e) in s.st.links ==> GoodLink((k, e));
  }
}
