/** What a batch, and the rollback of a failed one, do to the objects on the far side. */
module Effects {
  import opened Model
  import opened Rest

  /** Two maps agree at one key. */
  ghost predicate SameAt<K, V>(m: map<K, V>, n: map<K, V>, k: K) {
    (k in m <==> k in n) && (k in m ==> m[k] == n[k])
  }

  function PoolKey(r: Request): NamespaceName
    requires r.obj.PoolObj?
  {
    NamespaceName(r.tenant, r.obj.pool.name)
  }

  /** No request names the pool at `q`. */
  ghost predicate Avoids(reqs: seq<Request>, q: NamespaceName) {
    forall i :: 0 <= i < |reqs| && reqs[i].obj.PoolObj? ==> PoolKey(reqs[i]) != q
  }

  /** No request names the virtual service at `k`. */
  ghost predicate AvoidsVs(reqs: seq<Request>, k: NamespaceName) {
    forall i :: 0 <= i < |reqs| && reqs[i].obj.VsObj? ==> NamespaceName(reqs[i].tenant, reqs[i].obj.vs.name) != k
  }

  // ---------- the batch ----------

  /** A batch leaves every pool it does not name as it was. */
  lemma {:induction false} OperateFrame(oracle: Oracle, net: Net, reqs: seq<Request>, q: NamespaceName)
    requires Avoids(reqs, q)
    ensures SameAt(net.remote.pools, Operate(oracle, net, reqs).net.remote.pools, q)
    decreases |reqs|
  {
    if reqs != [] {
      OperateFrame(oracle, SendOne(oracle, net, reqs[0]).1, reqs[1..], q);
    }
  }

  /** A batch leaves every virtual service it does not name as it was. */
  lemma {:induction false} OperateVsFrame(oracle: Oracle, net: Net, reqs: seq<Request>, k: NamespaceName)
    requires AvoidsVs(reqs, k)
    ensures SameAt(net.remote.vss, Operate(oracle, net, reqs).net.remote.vss, k)
    decreases |reqs|
  {
    if reqs != [] {
      OperateVsFrame(oracle, SendOne(oracle, net, reqs[0]).1, reqs[1..], k);
    }
  }

  /** A batch removes no pool. */
  lemma {:induction false} OperateGrows(oracle: Oracle, net: Net, reqs: seq<Request>)
    ensures net.remote.pools.Keys <= Operate(oracle, net, reqs).net.remote.pools.Keys
    decreases |reqs|
  {
    if reqs != [] {
      OperateGrows(oracle, SendOne(oracle, net, reqs[0]).1, reqs[1..]);
    }
  }

  /** No later request of the batch names the same pool. */
  ghost predicate LastFor(reqs: seq<Request>, i: nat)
    requires i < |reqs| && reqs[i].obj.PoolObj?
  {
    forall j :: i < j < |reqs| && reqs[j].obj.PoolObj? ==> PoolKey(reqs[j]) != PoolKey(reqs[i])
  }

  /** A pool request that went through is what the far side holds after the batch. */
  lemma {:induction false} OperateWrites(oracle: Oracle, net: Net, reqs: seq<Request>, i: nat)
    requires i < |reqs| && reqs[i].verb == Post && reqs[i].obj.PoolObj? && LastFor(reqs, i)
    requires Operate(oracle, net, reqs).results[i].Succeeded?
    ensures var remote := Operate(oracle, net, reqs).net.remote;
      PoolKey(reqs[i]) in remote.pools && remote.pools[PoolKey(reqs[i])].pool == reqs[i].obj.pool
    decreases |reqs|
  {
    var net1 := SendOne(oracle, net, reqs[0]).1;
    assert SendOne(oracle, net, reqs[0]).0.Succeeded?;
    if i == 0 {
      var q := PoolKey(reqs[0]);
      OperateFrame(oracle, net1, reqs[1..], q);
    } else {
      assert forall j :: 0 <= j < |reqs| - 1 ==> reqs[1..][j] == reqs[j + 1];
      OperateWrites(oracle, net1, reqs[1..], i - 1);
    }
  }

  /** Likewise for the virtual service at the end of a batch. */
  lemma {:induction false} OperateWritesVs(oracle: Oracle, net: Net, reqs: seq<Request>)
    requires reqs != [] && reqs[|reqs| - 1].verb == Post && reqs[|reqs| - 1].obj.VsObj?
    requires Operate(oracle, net, reqs).results[|reqs| - 1].Succeeded?
    ensures var last := reqs[|reqs| - 1];
      var k := NamespaceName(last.tenant, last.obj.vs.name);
      var remote := Operate(oracle, net, reqs).net.remote;
      k in remote.vss && remote.vss[k].vs == last.obj.vs
    decreases |reqs|
  {
    var net1 := SendOne(oracle, net, reqs[0]).1;
    if |reqs| == 1 {
      assert reqs[1..] == [];
    } else {
      OperateWritesVs(oracle, net1, reqs[1..]);
    }
  }

  // ---------- uuids ----------

  /** New objects never share a uuid. */
  ghost predicate FreshUuids(oracle: Oracle) {
    forall s, t :: 0 <= s < t < |oracle| ==> oracle[s].uuid != oracle[t].uuid
  }

  ghost predicate Used(oracle: Oracle, clock: nat, u: string) {
    exists t :: 0 <= t < clock && t < |oracle| && oracle[t].uuid == u
  }

  /** Every pool on the far side has a uuid handed out before, and no two have the same. */
  ghost predicate NetInv(oracle: Oracle, net: Net) {
    && (forall q :: q in net.remote.pools ==> Used(oracle, net.clock, net.remote.pools[q].uuid))
    && (forall q, r :: q in net.remote.pools && r in net.remote.pools && q != r ==>
       net.remote.pools[q].uuid != net.remote.pools[r].uuid)
  }

  /** At most the pool at `q` has uuid `u`. */
  ghost predicate Only(net: Net, u: string, q: NamespaceName) {
    forall r :: r in net.remote.pools && net.remote.pools[r].uuid == u ==> r == q
  }

  lemma {:induction false} UsedLater(oracle: Oracle, clock: nat, later: nat, u: string)
    requires clock <= later && Used(oracle, clock, u)
    ensures Used(oracle, later, u)
  {
  }

  lemma {:induction false} SendNetInv(oracle: Oracle, net: Net, req: Request)
    requires FreshUuids(oracle) && NetInv(oracle, net)
    ensures NetInv(oracle, SendOne(oracle, net, req).1)
    ensures net.clock <= SendOne(oracle, net, req).1.clock
  {
    var net1 := SendOne(oracle, net, req).1;
    if !req.verb.Unknown? && net.clock < |oracle| {
      var o := oracle[net.clock];
      assert Used(oracle, net1.clock, o.uuid);
      forall q | q in net.remote.pools
        ensures Used(oracle, net1.clock, net.remote.pools[q].uuid) && net.remote.pools[q].uuid != o.uuid
      {
        UsedLater(oracle, net.clock, net1.clock, net.remote.pools[q].uuid);
      }
    }
  }

  lemma {:induction false} OperateNetInv(oracle: Oracle, net: Net, reqs: seq<Request>)
    requires FreshUuids(oracle) && NetInv(oracle, net)
    ensures NetInv(oracle, Operate(oracle, net, reqs).net) && net.clock <= Operate(oracle, net, reqs).net.clock
    decreases |reqs|
  {
    if reqs != [] {
      SendNetInv(oracle, net, reqs[0]);
      OperateNetInv(oracle, SendOne(oracle, net, reqs[0]).1, reqs[1..]);
    }
  }

  /** A uuid already handed out stays with its pool through later requests. */
  lemma {:induction false} SendOnly(oracle: Oracle, net: Net, req: Request, u: string, q: NamespaceName)
    requires FreshUuids(oracle) && Used(oracle, net.clock, u) && Only(net, u, q)
    ensures var net1 := SendOne(oracle, net, req).1;
      Only(net1, u, q) && Used(oracle, net1.clock, u)
  {
    UsedLater(oracle, net.clock, net.clock + 1, u);
  }

  lemma {:induction false} OperateOnly(oracle: Oracle, net: Net, reqs: seq<Request>, u: string, q: NamespaceName)
    requires FreshUuids(oracle) && Used(oracle, net.clock, u) && Only(net, u, q)
    ensures Only(Operate(oracle, net, reqs).net, u, q)
    decreases |reqs|
  {
    if reqs != [] {
      SendOnly(oracle, net, reqs[0], u, q);
      OperateOnly(oracle, SendOne(oracle, net, reqs[0]).1, reqs[1..], u, q);
    }
  }

  /** The uuid a faithful response carries belongs, after the batch, to no other pool than the one posted. */
  lemma {:induction false} OperateUuid(oracle: Oracle, net: Net, reqs: seq<Request>, i: nat)
    requires FreshUuids(oracle) && Faithful(oracle) && NetInv(oracle, net)
    requires i < |reqs| && reqs[i].verb == Post && reqs[i].obj.PoolObj?
      && Operate(oracle, net, reqs).results[i].Succeeded?
    ensures var b := Operate(oracle, net, reqs);
      Only(b.net, RespUuid(b.results[i]), PoolKey(reqs[i]))
    decreases |reqs|
  {
    var (r, net1) := SendOne(oracle, net, reqs[0]);
    SendNetInv(oracle, net, reqs[0]);
    assert r.Succeeded?;
    if i == 0 {
      var q := PoolKey(reqs[0]);
      assert net1.remote.pools[q].uuid == RespUuid(r);
      OperateOnly(oracle, net1, reqs[1..], RespUuid(r), q);
    } else {
      OperateUuid(oracle, net1, reqs[1..], i - 1);
    }
  }

  // ---------- the rollback ----------

  /** Every delete the rollback would issue at a pool url hits no pool but the one that request posted. */
  ghost predicate Aimed(net: Net, reqs: seq<Request>, results: seq<Result>)
    requires |reqs| == |results|
  {
    forall i :: 0 <= i < |reqs| ==>
      var u := UndoOf(reqs[i], results[i]);
      u.DeleteAt? && u.url.base == POOL_URL ==> reqs[i].obj.PoolObj? && Only(net, u.url.uuid, PoolKey(reqs[i]))
  }

  lemma {:induction false} EraseAimed(net: Net, net1: Net, reqs: seq<Request>, results: seq<Result>)
    requires |reqs| == |results| && Aimed(net, reqs, results)
    requires forall q :: q in net1.remote.pools ==> q in net.remote.pools && net1.remote.pools[q] == net.remote.pools[q]
    ensures forall n :: 0 <= n <= |reqs| ==> Aimed(net1, reqs[..n], results[..n])
  {
    forall n, i | 0 <= n <= |reqs| && 0 <= i < n
      ensures var u := UndoOf(reqs[..n][i], results[..n][i]);
        u.DeleteAt? && u.url.base == POOL_URL ==>
          reqs[..n][i].obj.PoolObj? && Only(net1, u.url.uuid, PoolKey(reqs[..n][i]))
    {
      assert reqs[..n][i] == reqs[i] && results[..n][i] == results[i];
    }
  }

  /** A rollback leaves every pool its batch does not name as it was, keeps uuids apart, and removes only. */
  lemma {:induction false} UndoFrame(oracle: Oracle, net: Net, reqs: seq<Request>, results: seq<Result>,
                                     q: NamespaceName)
    requires |reqs| == |results| && Aimed(net, reqs, results) && Avoids(reqs, q)
    ensures SameAt(net.remote.pools, UndoAll(oracle, net, reqs, results).net.remote.pools, q)
    decreases |reqs|
  {
    if reqs != [] {
      var n := |reqs| - 1;
      var u := UndoOf(reqs[n], results[n]);
      var net1 := if u.DeleteAt? then EraseOne(oracle, net, u.url) else net;
      EraseAimed(net, net1, reqs, results);
      assert SameAt(net.remote.pools, net1.remote.pools, q) by {
        if u.DeleteAt? && u.url.base == POOL_URL {
          assert Only(net, u.url.uuid, PoolKey(reqs[n]));
          assert PoolKey(reqs[n]) != q;
        }
      }
      UndoFrame(oracle, net1, reqs[..n], results[..n], q);
    }
  }

  lemma {:induction false} UndoNetInv(oracle: Oracle, net: Net, reqs: seq<Request>, results: seq<Result>)
    requires |reqs| == |results| && NetInv(oracle, net)
    ensures NetInv(oracle, UndoAll(oracle, net, reqs, results).net)
    decreases |reqs|
  {
    if reqs != [] {
      var n := |reqs| - 1;
      var u := UndoOf(reqs[n], results[n]);
      var net1 := if u.DeleteAt? then EraseOne(oracle, net, u.url) else net;
      forall q | q in net1.remote.pools
        ensures Used(oracle, net1.clock, net1.remote.pools[q].uuid)
      {
        UsedLater(oracle, net.clock, net1.clock, net.remote.pools[q].uuid);
      }
      UndoNetInv(oracle, net1, reqs[..n], results[..n]);
    }
  }

  /** A rollback that has no virtual service to undo leaves all virtual services alone. */
  lemma {:induction false} UndoVsFrame(oracle: Oracle, net: Net, reqs: seq<Request>, results: seq<Result>)
    requires |reqs| == |results|
    requires forall i :: 0 <= i < |reqs| && reqs[i].model == "VirtualService" ==> results[i].Failed?
    ensures UndoAll(oracle, net, reqs, results).net.remote.vss == net.remote.vss
    decreases |reqs|
  {
    if reqs != [] {
      var n := |reqs| - 1;
      var u := UndoOf(reqs[n], results[n]);
      var net1 := if u.DeleteAt? then EraseOne(oracle, net, u.url) else net;
      OnlyVsUrl(reqs[n].model);
      UndoVsFrame(oracle, net1, reqs[..n], results[..n]);
    }
  }

  lemma {:induction false} OnlyVsUrl(model: string)
    ensures AviModelToUrl(model) == VS_URL ==> model == "VirtualService"
    ensures AviModelToUrl(model) == POOL_URL ==> model == "Pool"
  {
    assert |VS_URL| != |POOL_URL| && |VS_URL| != 0 && |POOL_URL| != 0;
  }

  lemma {:induction false} AimedAt(oracle: Oracle, net: Net, reqs: seq<Request>, i: nat)
    requires FreshUuids(oracle) && Faithful(oracle) && NetInv(oracle, net)
    requires i < |reqs| && reqs[i].verb == Post && reqs[i].obj.PoolObj?
    ensures var b := Operate(oracle, net, reqs);
      var u := UndoOf(reqs[i], b.results[i]);
      u.DeleteAt? ==> Only(b.net, u.url.uuid, PoolKey(reqs[i]))
  {
    var b := Operate(oracle, net, reqs);
    if b.results[i].Succeeded? {
      FaithfulResults(oracle, net, reqs, i);
      UndoEchoed(reqs[i], b.results[i]);
      OperateUuid(oracle, net, reqs, i);
    }
  }

  lemma {:induction false} NotAPoolUrl(req: Request, r: Result)
    requires req.model == "HTTPRequestPolicy" || req.model == "VirtualService"
    ensures UndoOf(req, r).DeleteAt? ==> UndoOf(req, r).url.base != POOL_URL
  {
    OnlyVsUrl(req.model);
    assert |"Pool"| != |"VirtualService"| && |"Pool"| != |"HTTPRequestPolicy"|;
  }

  /** The rollback of a failed service batch is aimed, because responses are faithful and uuids are unique. */
  lemma {:induction false} ServiceUndoAimed(oracle: Oracle, net: Net, reqs: seq<Request>, pools: nat)
    requires FreshUuids(oracle) && Faithful(oracle) && NetInv(oracle, net) && ServiceBatch(reqs, pools)
    ensures var b := Operate(oracle, net, reqs);
      Aimed(b.net, reqs, b.results)
  {
    var b := Operate(oracle, net, reqs);
    forall i | 0 <= i < |reqs|
      ensures var u := UndoOf(reqs[i], b.results[i]);
        u.DeleteAt? && u.url.base == POOL_URL ==> reqs[i].obj.PoolObj? && Only(b.net, u.url.uuid, PoolKey(reqs[i]))
    {
      if i < pools {
        AimedAt(oracle, net, reqs, i);
      } else {
        NotAPoolUrl(reqs[i], b.results[i]);
      }
    }
  }
}
