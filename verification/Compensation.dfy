/** What the rollback of a failed service batch undoes on the far side, and what it does not. */
module Compensation {
  import opened Model
  import opened Rest
  import opened Effects

  /** The uuid in the response is that of the pool on the far side. */
  lemma {:induction false} OperateUuidAt(oracle: Oracle, net: Net, reqs: seq<Request>, i: nat)
    requires Faithful(oracle) && i < |reqs| && reqs[i].verb == Post && reqs[i].obj.PoolObj? && LastFor(reqs, i)
    requires Operate(oracle, net, reqs).results[i].Succeeded?
    ensures var b := Operate(oracle, net, reqs);
      PoolKey(reqs[i]) in b.net.remote.pools && b.net.remote.pools[PoolKey(reqs[i])].uuid == RespUuid(b.results[i])
    decreases |reqs|
  {
    var net1 := SendOne(oracle, net, reqs[0]).1;
    assert SendOne(oracle, net, reqs[0]).0.Succeeded?;
    if i == 0 {
      OperateFrame(oracle, net1, reqs[1..], PoolKey(reqs[0]));
    } else {
      assert forall j :: 0 <= j < |reqs| - 1 ==> reqs[1..][j] == reqs[j + 1];
      OperateUuidAt(oracle, net1, reqs[1..], i - 1);
    }
  }

  /** Every delete sent between two clock readings takes effect. */
  ghost predicate DeletesApply(oracle: Oracle, from: nat, to: nat) {
    forall t: nat :: from <= t < to ==> Fate(oracle, t).Applied()
  }

  lemma {:induction false} UndoClock(oracle: Oracle, net: Net, reqs: seq<Request>, results: seq<Result>)
    requires |reqs| == |results|
    ensures net.clock <= UndoAll(oracle, net, reqs, results).net.clock
    decreases |reqs|
  {
    if reqs != [] {
      var n := |reqs| - 1;
      var u := UndoOf(reqs[n], results[n]);
      UndoClock(oracle, if u.DeleteAt? then EraseOne(oracle, net, u.url) else net, reqs[..n], results[..n]);
    }
  }

  /** The pool at `q` is gone, or still has uuid `u`. */
  ghost predicate GoneOr(net: Net, q: NamespaceName, u: string) {
    q in net.remote.pools ==> net.remote.pools[q].uuid == u
  }

  lemma {:induction false} EraseGoneOr(oracle: Oracle, net: Net, url: Url, q: NamespaceName, u: string)
    requires GoneOr(net, q, u)
    ensures GoneOr(EraseOne(oracle, net, url), q, u)
    ensures q !in net.remote.pools ==> q !in EraseOne(oracle, net, url).remote.pools
    ensures Fate(oracle, net.clock).Applied() && url == Url(POOL_URL, u) ==>
      q !in EraseOne(oracle, net, url).remote.pools
  {
  }

  lemma {:induction false} StaysGone(oracle: Oracle, net: Net, reqs: seq<Request>, results: seq<Result>,
                                     q: NamespaceName)
    requires |reqs| == |results| && q !in net.remote.pools
    ensures q !in UndoAll(oracle, net, reqs, results).net.remote.pools
    decreases |reqs|
  {
    if reqs != [] {
      var n := |reqs| - 1;
      var u := UndoOf(reqs[n], results[n]);
      StaysGone(oracle, if u.DeleteAt? then EraseOne(oracle, net, u.url) else net, reqs[..n], results[..n], q);
    }
  }

  lemma {:induction false} UndoRemoves(oracle: Oracle, net: Net, reqs: seq<Request>, results: seq<Result>, i: nat,
                                       q: NamespaceName, u: string)
    requires |reqs| == |results| && i < |reqs| && GoneOr(net, q, u)
    requires UndoOf(reqs[i], results[i]) == DeleteAt(Url(POOL_URL, u))
    requires !UndoAll(oracle, net, reqs, results).crashed
    requires DeletesApply(oracle, net.clock, UndoAll(oracle, net, reqs, results).net.clock)
    ensures q !in UndoAll(oracle, net, reqs, results).net.remote.pools
    decreases |reqs|
  {
    var n := |reqs| - 1;
    var undo := UndoOf(reqs[n], results[n]);
    var net1 := if undo.DeleteAt? then EraseOne(oracle, net, undo.url) else net;
    UndoClock(oracle, net1, reqs[..n], results[..n]);
    if undo.DeleteAt? {
      EraseGoneOr(oracle, net, undo.url, q, u);
    }
    if i == n {
      StaysGone(oracle, net1, reqs[..n], results[..n], q);
    } else {
      UndoRemoves(oracle, net1, reqs[..n], results[..n], i, q, u);
    }
  }

  /** A rollback whose deletes all take effect removes every pool the batch had posted. */
  lemma {:induction false} RollbackRemoves(oracle: Oracle, net: Net, reqs: seq<Request>, pools: nat, i: nat)
    requires Faithful(oracle) && ServiceBatch(reqs, pools) && i < pools && LastFor(reqs, i)
    requires Operate(oracle, net, reqs).err.Some? && Operate(oracle, net, reqs).results[i].Succeeded?
    requires var b := Operate(oracle, net, reqs);
      DeletesApply(oracle, b.net.clock, UndoAll(oracle, b.net, reqs, b.results).net.clock)
    ensures var b := Operate(oracle, net, reqs);
      PoolKey(reqs[i]) !in UndoAll(oracle, b.net, reqs, b.results).net.remote.pools
  {
    var b := Operate(oracle, net, reqs);
    var stop := RollbackPlan(oracle, net, reqs, pools);
    OperateUuidAt(oracle, net, reqs, i);
    FaithfulResults(oracle, net, reqs, i);
    UndoEchoed(reqs[i], b.results[i]);
    PoolModel();
    UndoRemoves(oracle, b.net, reqs, b.results, i, PoolKey(reqs[i]), RespUuid(b.results[i]));
  }

  /**
   * Compensation is exact only for creations: with every delete taking effect, a failed batch leaves a pool it
   * had posted as it was before if and only if there was none before. A pool that existed is lost, not restored.
   */
  lemma {:induction false} RollbackRestoresOnlyAbsence(oracle: Oracle, net: Net, reqs: seq<Request>, pools: nat, i: nat)
    requires Faithful(oracle) && ServiceBatch(reqs, pools) && i < pools && LastFor(reqs, i)
    requires Operate(oracle, net, reqs).err.Some? && Operate(oracle, net, reqs).results[i].Succeeded?
    requires var b := Operate(oracle, net, reqs);
      DeletesApply(oracle, b.net.clock, UndoAll(oracle, b.net, reqs, b.results).net.clock)
    ensures var b := Operate(oracle, net, reqs);
      SameAt(net.remote.pools, UndoAll(oracle, b.net, reqs, b.results).net.remote.pools, PoolKey(reqs[i]))
      <==> PoolKey(reqs[i]) !in net.remote.pools
  {
    RollbackRemoves(oracle, net, reqs, pools, i);
  }

  /** A pool the batch does not name comes through the batch and its rollback untouched. */
  lemma {:induction false} RollbackSparesOthers(oracle: Oracle, net: Net, reqs: seq<Request>, pools: nat,
                                                q: NamespaceName)
    requires Faithful(oracle) && FreshUuids(oracle) && NetInv(oracle, net) && ServiceBatch(reqs, pools)
      && Avoids(reqs, q)
    ensures var b := Operate(oracle, net, reqs);
      SameAt(net.remote.pools, UndoAll(oracle, b.net, reqs, b.results).net.remote.pools, q)
  {
    var b := Operate(oracle, net, reqs);
    ServiceUndoAimed(oracle, net, reqs, pools);
    OperateFrame(oracle, net, reqs, q);
    UndoFrame(oracle, b.net, reqs, b.results, q);
  }
}
