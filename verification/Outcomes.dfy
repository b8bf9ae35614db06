/** How a sync ends: which keys go back on their queue, and what a failed service sync leaves on the far side. */
module Outcomes {
  import opened Wrappers
  import opened Model
  import opened Rest
  import opened Pools
  import opened VirtualServices
  import opened Sync
  import opened Effects
  import opened Runs
  import opened Guarantees
  import opened Compensation
  import opened Crashes

  // ---------- which keys are retried ----------

  /** One of the next `n` requests fails. */
  ghost predicate SomeFails(oracle: Oracle, from: nat, n: nat) {
    exists t: nat :: from <= t < from + n && Fate(oracle, t).verdict.Failure?
  }

  /** A batch ends in an error exactly when one of as many requests as it has operations would fail. */
  lemma {:induction false} BatchFailsExactly(oracle: Oracle, net: Net, reqs: seq<Request>)
    requires forall i :: 0 <= i < |reqs| ==> !reqs[i].verb.Unknown?
    ensures Operate(oracle, net, reqs).err.Some? <==> SomeFails(oracle, net.clock, |reqs|)
  {
    var stop := BatchStops(oracle, net, reqs);
    if stop < |reqs| {
      assert Fate(oracle, net.clock + stop).verdict.Failure?;
    }
  }

  /** All operations of a service sync are posts. */
  lemma {:induction false} AllPosts(pools: PoolMap, svc: Service, ep: Endpoints, listed: Option<Service>,
                                    order: seq<PortProtocol>, order2: seq<ListenerKey>, ops: seq<Request>)
    requires ServiceOps(pools, svc, ep, listed, order, order2) == Ops(ops)
    ensures forall i :: 0 <= i < |ops| ==> ops[i].verb == Post
  {
    var part := PoolPart(pools, svc, ep, listed, order).reqs;
    VsOpsShape(svc, part, order2);
    forall i | 0 <= i < |part|
      ensures part[i].verb == Post
    {
      var names, hash := NamesOf(svc.name, order), CrudHashKey(svc.Key());
      BuildOpsExact(pools, ep, hash, names);
      assert part[i] in part;
      assert Requested(pools, ep, hash, names, part[i]);
    }
  }

  lemma {:induction false} BatchRetriedExactly(oracle: Oracle, st: State, key: NamespaceName, ops: seq<Request>)
    requires forall i :: 0 <= i < |ops| ==> ops[i].verb == Post
    ensures var ran := Batched(oracle, st, key, ops);
      ran.Ran? ==> ran.err == NoError || Requeues(ran.err)
    ensures var ran := Batched(oracle, st, key, ops);
      ran.Ran? ==> (Requeues(ran.err) <==> SomeFails(oracle, st.net.clock, |ops|))
  {
    BatchFailsExactly(oracle, st.net, ops);
  }

  /**
   * A service sync that does not die goes back on its queue if and only if the Endpoints of the Service are not listed,
   * or it is not skipped and one of the requests of its batch fails.
   */
  lemma {:induction false} ServiceRetriedExactly(oracle: Oracle, st: State, svc: Service, ep: Option<Endpoints>,
                                                 listed: Option<Service>, order: seq<PortProtocol>,
                                                 order2: seq<ListenerKey>, ran: Ran)
    requires ran == SyncService(oracle, st, svc, ep, listed, order, order2) && ran.Ran?
    ensures Requeues(ran.err) <==>
            ep.None? || (!UpToDate(st.vss, svc) && SomeFails(oracle, st.net.clock, |ran.ops|))
    ensures !Requeues(ran.err) ==> ran.err == NoError
  {
    if ep.Some? && !UpToDate(st.vss, svc) {
      AllPosts(st.pools, svc, ep.value, listed, order, order2, ran.ops);
      BatchRetriedExactly(oracle, st, svc.Key(), ran.ops);
    }
  }

  /** An endpoints sync is never retried, whatever fails; it is passed over when its Service is not listed. */
  lemma {:induction false} EndpointsNeverRetried(oracle: Oracle, st: State, ep: Endpoints, listed: Option<Service>,
                                                 order: seq<string>, ran: Ran)
    requires ran == SyncEndpoints(oracle, st, ep, listed, order) && ran.Ran?
    ensures ran.err == (if listed.None? then SkipSync else NoError) && !Requeues(ran.err)
  {
  }

  // ---------- a failed service sync ----------

  lemma {:induction false} FailedBatch(oracle: Oracle, st: State, k: NamespaceName, ops: seq<Request>, ran: Ran)
    requires ran == Batched(oracle, st, k, ops) && ran.Ran? && Requeues(ran.err)
    ensures var b := Operate(oracle, st.net, ops);
      ran.ops == ops && b.err.Some? && ran.st == st.(net := UndoAll(oracle, b.net, ops, b.results).net)
  {
  }

  /** The batch of a sync that is retried although its Endpoints are listed. */
  lemma {:induction false} BatchOfFailed(oracle: Oracle, w: World, k: NamespaceName, order: seq<PortProtocol>,
                                         order2: seq<ListenerKey>, ran: Ran) returns (reqs: seq<Request>)
    requires Inv(oracle, w) && k in w.cluster.svcs && k in w.cluster.eps
    requires ServiceStep(oracle, w, k, order, order2, ran) && ran.Ran? && Requeues(ran.err)
    ensures ran == Batched(oracle, w.st, k, ran.ops) && ServiceBatch(ran.ops, |reqs|)
    ensures GoodReqs(w.st.pools, w.cluster.eps[k], k, reqs) && ran.ops[..|reqs|] == reqs
  {
    var svc, ep := w.cluster.svcs[k], w.cluster.eps[k];
    reqs := PoolPart(w.st.pools, svc, ep, Some(svc), order).reqs;
    ServiceReqs(w.st.pools, svc, ep, order, order2);
    ServiceOpsShape(w.st.pools, ep, svc, reqs, order2);
    SyncIsBatch(oracle, w.st, svc, ep, order, order2, reqs + VsOps(MetaOf(svc, reqs), order2));
  }

  lemma {:induction false} DistinctIsLast(reqs: seq<Request>, ops: seq<Request>, i: nat)
    requires |reqs| <= |ops| && ops[..|reqs|] == reqs && i < |reqs| && ServiceBatch(ops, |reqs|)
    requires forall x, y :: 0 <= x < y < |reqs| ==> PoolKey(reqs[x]) != PoolKey(reqs[y])
    ensures LastFor(ops, i)
  {
    forall j | i < j < |ops| && ops[j].obj.PoolObj?
      ensures PoolKey(ops[j]) != PoolKey(ops[i])
    {
      assert ops[i] == reqs[i];
      assert j < |reqs| ==> ops[j] == reqs[j];
    }
  }

  lemma {:induction false} PoolAmong(reqs: seq<Request>, ops: seq<Request>, i: nat)
    requires i < |ops| && ServiceBatch(ops, |reqs|) && ops[i].obj.PoolObj?
    ensures i < |reqs|
  {
  }

  /**
   * A service sync that fails leaves the caches as they were; if the deletes of its rollback take effect, no pool it
   * had posted is on the far side, and no other pool has changed there.
   */
  lemma {:induction false} FailedSyncUndone(oracle: Oracle, w: World, k: NamespaceName, order: seq<PortProtocol>,
                                            order2: seq<ListenerKey>, ran: Ran, i: nat)
    requires Reachable(oracle, w) && k in w.cluster.svcs && k in w.cluster.eps
    requires ServiceStep(oracle, w, k, order, order2, ran) && ran.Ran? && Requeues(ran.err)
    requires i < |ran.ops| && ran.ops[i].obj.PoolObj?
    requires var b := Operate(oracle, w.st.net, ran.ops);
      b.results[i].Succeeded? && DeletesApply(oracle, b.net.clock, ran.st.net.clock)
    ensures ran.st == w.st.(net := ran.st.net)
    ensures PoolKey(ran.ops[i]) !in ran.st.net.remote.pools
    ensures forall q :: Avoids(ran.ops, q) ==> SameAt(w.st.net.remote.pools, ran.st.net.remote.pools, q)
  {
    ReachableInv(oracle, w);
    var reqs := BatchOfFailed(oracle, w, k, order, order2, ran);
    FailedBatch(oracle, w.st, k, ran.ops, ran);
    PoolAmong(reqs, ran.ops, i);
    DistinctIsLast(reqs, ran.ops, i);
    RollbackRemoves(oracle, w.st.net, ran.ops, |reqs|, i);
    forall q | Avoids(ran.ops, q)
      ensures SameAt(w.st.net.remote.pools, ran.st.net.remote.pools, q)
    {
      RollbackSparesOthers(oracle, w.st.net, ran.ops, |reqs|, q);
    }
  }
}
