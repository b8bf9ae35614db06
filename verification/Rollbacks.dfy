/** The rollback of a failed batch while the other worker and the cluster go on. */
module Rollbacks {
  import opened Wrappers
  import opened Model
  import opened Rest
  import opened Sync
  import opened Effects
  import opened Runs
  import opened Compensation
  import opened Interleaving
  import opened Separation

  // ---------- the pools a batch has posted ----------

  /** A posted pool is gone from the far side, or has the uuid its response gave. */
  ghost predicate Pinned(net: Net, ops: seq<Request>, results: seq<Result>) {
    && |results| <= |ops|
    && forall i :: 0 <= i < |results| && ops[i].model == "Pool" && ops[i].obj.PoolObj? ==>
         GoneOr(net, PoolKey(ops[i]), RespUuid(results[i]))
  }

  ghost predicate JobPinned(net: Net, job: SvcJob) {
    match job
    case Sending(_, _, ops, _, results) => Pinned(net, ops, results)
    case Undoing(_, _, ops, results) => Pinned(net, ops, results)
    case _ => true
  }

  lemma {:induction false} PostedIsOwned(c: Cluster, job: SvcJob, i: nat)
    requires SvcOk(c, job) && (job.Sending? || job.Undoing?) && i < |job.ops|
    requires job.ops[i].model == "Pool" && job.ops[i].obj.PoolObj?
    ensures Owned(job.svc.Key(), PoolKey(job.ops[i]))
  {
    var k := job.svc.Key();
    assert |"Pool"| != |"HTTPRequestPolicy"|;
    if job.Sending? {
      PoolsFirst(job.ops, job.pools, i);
    }
    GoodReqFields(job.e, k, job.ops[i]);
  }

  /** What the Endpoints worker does for another key leaves the pools of this one. */
  lemma {:induction false} EpSparesService(oracle: Oracle, s: Sys, e: Turn, k: NamespaceName)
    requires Faithful(oracle) && FreshUuids(oracle) && SepInv(oracle, s) && EpStep(oracle, s.c, s.st, s.ep, e).Some?
    requires s.svc.Key() == Some(k)
    ensures var t := EpStep(oracle, s.c, s.st, s.ep, e).value.0;
      forall q :: Owned(k, q) ==> SameAt(s.st.net.remote.pools, t.net.remote.pools, q)
  {
    OpenIsHeld(s.svc);
    if !s.ep.Resting? {
      var j := s.ep.Key().value;
      assert KeyInv(s.c, s.st, j);
      if e.EpSend? {
        EpSendKeeps(oracle, s.c, s.st, s.ep, j);
        var t := EpStep(oracle, s.c, s.st, s.ep, e).value.0;
        assert Spares(s.st, t, k);
      } else if e.EpCache? {
        EpCacheKeeps(oracle, s.c, s.st, s.ep, j);
      } else {
        EpReads(oracle, s.c, s.st, s.ep, e, j);
      }
    }
  }

  lemma {:induction false} PinnedByOthers(oracle: Oracle, s: Sys, e: Turn)
    requires Faithful(oracle) && FreshUuids(oracle) && SepInv(oracle, s) && EpStep(oracle, s.c, s.st, s.ep, e).Some?
    requires JobPinned(s.st.net, s.svc)
    ensures JobPinned(EpStep(oracle, s.c, s.st, s.ep, e).value.0.net, s.svc)
  {
    if s.svc.Sending? || s.svc.Undoing? {
      var ops, results := s.svc.ops, s.svc.results;
      var t := EpStep(oracle, s.c, s.st, s.ep, e).value.0;
      EpSparesService(oracle, s, e, s.svc.svc.Key());
      forall i | 0 <= i < |results| && ops[i].model == "Pool" && ops[i].obj.PoolObj?
        ensures GoneOr(t.net, PoolKey(ops[i]), RespUuid(results[i]))
      {
        PostedIsOwned(s.c, s.svc, i);
      }
    }
  }

  /** The response to a pool that was posted gives its uuid. */
  lemma {:induction false} PinnedByPosting(oracle: Oracle, net: Net, req: Request)
    requires Faithful(oracle) && req.verb == Post && req.obj.PoolObj? && SendOne(oracle, net, req).0.Succeeded?
    ensures var (r, net1) := SendOne(oracle, net, req); GoneOr(net1, PoolKey(req), RespUuid(r))
  {
  }

  /** Posting something else leaves a pool. */
  lemma {:induction false} PostedElsewhere(oracle: Oracle, net: Net, req: Request, q: NamespaceName)
    requires req.obj.PoolObj? ==> PoolKey(req) != q
    ensures SameAt(net.remote.pools, SendOne(oracle, net, req).1.remote.pools, q)
  {
  }

  /** Sending the next operation leaves the pools before it. */
  lemma {:induction false} StillPinned(oracle: Oracle, e: Endpoints, k: NamespaceName, ops: seq<Request>, m: nat,
                                       net: Net, results: seq<Result>)
    requires BatchFor(e, k, ops, m) && |results| < |ops| && Pinned(net, ops, results)
    ensures Pinned(SendOne(oracle, net, ops[|results|]).1, ops, results)
  {
    var n := |results|;
    forall i | 0 <= i < n && ops[i].model == "Pool" && ops[i].obj.PoolObj?
      ensures GoneOr(SendOne(oracle, net, ops[n]).1, PoolKey(ops[i]), RespUuid(results[i]))
    {
      PoolsFirst(ops, m, i);
      if ops[n].obj.PoolObj? {
        PoolsFirst(ops, m, n);
        assert PoolKey(ops[i]) != PoolKey(ops[n]);
      }
      PostedElsewhere(oracle, net, ops[n], PoolKey(ops[i]));
    }
  }

  lemma {:induction false} OneMorePinned(net: Net, ops: seq<Request>, results: seq<Result>, r: Result)
    requires Pinned(net, ops, results) && |results| < |ops|
    requires ops[|results|].obj.PoolObj? ==> GoneOr(net, PoolKey(ops[|results|]), RespUuid(r))
    ensures Pinned(net, ops, results + [r])
  {
  }

  lemma {:induction false} SendPinned(oracle: Oracle, c: Cluster, st: State, job: SvcJob)
    requires Faithful(oracle) && SvcOk(c, job) && SendTurn(oracle, st, job).Some? && JobPinned(st.net, job)
    ensures var p := SendTurn(oracle, st, job).value; JobPinned(p.0.net, p.1)
  {
    var ops, results, n := job.ops, job.results, |job.results|;
    var (r, net) := SendOne(oracle, st.net, ops[n]);
    StillPinned(oracle, job.e, job.svc.Key(), ops, job.pools, st.net, results);
    if r.Succeeded? {
      if ops[n].obj.PoolObj? {
        PinnedByPosting(oracle, st.net, ops[n]);
      }
      OneMorePinned(net, ops, results, r);
    }
  }

  lemma {:induction false} UndoPinned(oracle: Oracle, st: State, job: SvcJob)
    requires UnsendTurn(oracle, st, job).Some? && JobPinned(st.net, job)
    ensures var p := UnsendTurn(oracle, st, job).value; JobPinned(p.0.net, p.1)
  {
    if job.ops != [] {
      var n := |job.ops| - 1;
      var net := UnsendTurn(oracle, st, job).value.0.net;
      var undo := UndoOf(job.ops[n], job.results[n]);
      forall i | 0 <= i < n && job.ops[i].model == "Pool" && job.ops[i].obj.PoolObj?
        ensures GoneOr(net, PoolKey(job.ops[i]), RespUuid(job.results[i]))
      {
        if undo.DeleteAt? {
          EraseGoneOr(oracle, st.net, undo.url, PoolKey(job.ops[i]), RespUuid(job.results[i]));
        }
      }
    }
  }

  lemma {:induction false} OwnTurnPinned(oracle: Oracle, s: Sys, e: Turn)
    requires Faithful(oracle) && SepInv(oracle, s) && SvcStep(oracle, s.c, s.st, s.svc, e).Some?
    requires JobPinned(s.st.net, s.svc)
    ensures var p := SvcStep(oracle, s.c, s.st, s.svc, e).value; JobPinned(p.0.net, p.1)
  {
    if e.SvcSend? {
      SendPinned(oracle, s.c, s.st, s.svc);
    } else if e.SvcUndo? {
      UndoPinned(oracle, s.st, s.svc);
    } else {
      NotSentYet(oracle, s.c, s.st, s.svc, e);
    }
  }

  /** A batch that has just been built has posted nothing. */
  lemma {:induction false} NotSentYet(oracle: Oracle, c: Cluster, st: State, job: SvcJob, e: Turn)
    requires !e.SvcSend? && !e.SvcUndo? && SvcStep(oracle, c, st, job, e).Some?
    ensures var next := SvcStep(oracle, c, st, job, e).value.1;
      !next.Undoing? && (next.Sending? ==> next.results == [])
  {
  }

  lemma {:induction false} StepPinned(oracle: Oracle, s: Sys, e: Turn)
    requires Faithful(oracle) && FreshUuids(oracle) && SepInv(oracle, s) && Step(oracle, s, e).Some?
    requires JobPinned(s.st.net, s.svc)
    ensures var t := Step(oracle, s, e).value; JobPinned(t.st.net, t.svc)
  {
    if !e.Change? {
      if SvcStep(oracle, s.c, s.st, s.svc, e).Some? {
        OwnTurnPinned(oracle, s, e);
      } else {
        PinnedByOthers(oracle, s, e);
      }
    }
  }

  /** In every interleaving in which the workers never hold one key, the pools of a batch are known by their uuids. */
  lemma {:induction false} ExecPinned(oracle: Oracle, es: seq<Turn>)
    requires Faithful(oracle) && FreshUuids(oracle) && StayApart(oracle, es) && Exec(oracle, START, es).Some?
    ensures var s := Exec(oracle, START, es).value; JobPinned(s.st.net, s.svc)
  {
    if es != [] {
      var n := |es| - 1;
      ApartSoFar(oracle, es);
      ExecPinned(oracle, es[..n]);
      ExecSeparate(oracle, es[..n]);
      StepPinned(oracle, Exec(oracle, START, es[..n]).value, es[n]);
    }
  }

  // ---------- a batch that fails ----------

  /** The pools among the operations from `j` on are not on the far side. */
  ghost predicate GoneFrom(net: Net, sent: seq<Request>, j: nat) {
    forall i :: j <= i < |sent| && sent[i].model == "Pool" && sent[i].obj.PoolObj? ==>
      PoolKey(sent[i]) !in net.remote.pools
  }

  ghost predicate PostedFor(k: NamespaceName, sent: seq<Request>) {
    forall i :: 0 <= i < |sent| && sent[i].model == "Pool" && sent[i].obj.PoolObj? ==> Owned(k, PoolKey(sent[i]))
  }

  /** The rollback of the operations `sent` has come down to the first `j`. */
  ghost predicate RolledTo(s: Sys, k: NamespaceName, sent: seq<Request>, results: seq<Result>, j: nat) {
    && |sent| == |results| && j <= |sent| && s.svc.Undoing? && s.svc.svc.Key() == k && s.svc.ops == sent[..j]
    && s.svc.results == results[..j]
    && GoneFrom(s.st.net, sent, j)
  }

  lemma {:induction false} OneUndone(oracle: Oracle, s: Sys, k: NamespaceName, sent: seq<Request>,
                                     results: seq<Result>, j: nat)
    requires RolledTo(s, k, sent, results, j) && j > 0 && Pinned(s.st.net, sent[..j], results[..j])
    requires UnsendTurn(oracle, s.st, s.svc).Some? && Fate(oracle, s.st.net.clock).Applied()
    requires sent[j - 1].model == "Pool" ==> Echoed(sent[j - 1], results[j - 1])
    ensures var p := UnsendTurn(oracle, s.st, s.svc).value; RolledTo(s.(st := p.0, svc := p.1), k, sent, results, j - 1)
  {
    var n := j - 1;
    var req, r := sent[n], results[n];
    var net := UnsendTurn(oracle, s.st, s.svc).value.0.net;
    assert sent[..j][..n] == sent[..n] && results[..j][..n] == results[..n];
    var undo := UndoOf(req, r);
    forall i | n <= i < |sent| && sent[i].model == "Pool" && sent[i].obj.PoolObj?
      ensures PoolKey(sent[i]) !in net.remote.pools
    {
      if i == n {
        UndoEchoed(req, r);
        PoolModel();
        assert sent[..j][n] == req && results[..j][n] == r;
        EraseGoneOr(oracle, s.st.net, undo.url, PoolKey(req), RespUuid(r));
      } else if undo.DeleteAt? {
        EraseGoneOr(oracle, s.st.net, undo.url, PoolKey(sent[i]), "");
      }
    }
  }

  /** A turn of anyone else leaves the rollback where it is. */
  lemma {:induction false} NoneComesBack(oracle: Oracle, s: Sys, e: Turn, k: NamespaceName, sent: seq<Request>,
                                         results: seq<Result>, j: nat)
    requires Faithful(oracle) && FreshUuids(oracle) && SepInv(oracle, s) && Step(oracle, s, e).Some? && !e.SvcUndo?
    requires RolledTo(s, k, sent, results, j)
    requires PostedFor(k, sent)
    ensures RolledTo(Step(oracle, s, e).value, k, sent, results, j)
  {
    if !e.Change? {
      OnlyUndoing(oracle, s, e);
      EpSparesService(oracle, s, e, k);
    }
  }

  lemma {:induction false} OnlyUndoing(oracle: Oracle, s: Sys, e: Turn)
    requires s.svc.Undoing? && !e.SvcUndo?
    ensures SvcStep(oracle, s.c, s.st, s.svc, e).None?
  {
  }

  /** The turns `n` up to `m` of a run, in which a failed batch is being undone: each delete takes effect. */
  ghost predicate Undoes(oracle: Oracle, es: seq<Turn>, n: nat, m: nat)
    requires m <= |es|
  {
    forall i :: n <= i < m ==>
      && SoFar(oracle, es, i).Some? && SoFar(oracle, es, i).value.svc.Undoing?
      && (es[i].SvcUndo? ==> Fate(oracle, SoFar(oracle, es, i).value.st.net.clock).Applied())
  }

  lemma {:induction false} SoFarNext(oracle: Oracle, es: seq<Turn>, i: nat)
    requires i < |es| && SoFar(oracle, es, i + 1).Some?
    ensures SoFar(oracle, es, i).Some?
    ensures SoFar(oracle, es, i + 1) == Step(oracle, SoFar(oracle, es, i).value, es[i])
  {
    assert es[..i + 1][..i] == es[..i];
  }

  lemma {:induction false} ApartBefore(oracle: Oracle, es: seq<Turn>, i: nat)
    requires StayApart(oracle, es) && i <= |es|
    ensures StayApart(oracle, es[..i])
  {
    forall n | 0 <= n <= i && SoFar(oracle, es[..i], n).Some?
      ensures Apart(SoFar(oracle, es[..i], n).value)
    {
      assert es[..i][..n] == es[..n];
      assert SoFar(oracle, es, n) == SoFar(oracle, es[..i], n);
    }
  }

  /** The rollback is under way, or it is over and all pools are gone. */
  ghost predicate Rolled(t: Sys, k: NamespaceName, sent: seq<Request>, results: seq<Result>, j: nat) {
    if t.svc.Undoing? then RolledTo(t, k, sent, results, j) else t.svc == Idle && GoneFrom(t.st.net, sent, 0)
  }

  /** One turn of a run while the batch is being undone. */
  lemma {:induction false} RollsOn(oracle: Oracle, s: Sys, e: Turn, k: NamespaceName, sent: seq<Request>,
                                   results: seq<Result>, j: nat) returns (l: nat)
    requires Faithful(oracle) && FreshUuids(oracle) && SepInv(oracle, s) && JobPinned(s.st.net, s.svc)
    requires RolledTo(s, k, sent, results, j) && PostedFor(k, sent) && AllEchoed(sent, results)
    requires Step(oracle, s, e).Some? && (e.SvcUndo? ==> Fate(oracle, s.st.net.clock).Applied())
    ensures Rolled(Step(oracle, s, e).value, k, sent, results, l)
  {
    l := j;
    if !e.SvcUndo? {
      NoneComesBack(oracle, s, e, k, sent, results, j);
    } else if j > 0 {
      assert SvcStep(oracle, s.c, s.st, s.svc, e) == UnsendTurn(oracle, s.st, s.svc);
      NotTheOther(oracle, s);
      OneUndone(oracle, s, k, sent, results, j);
      l := j - 1;
    }
  }

  lemma {:induction false} NotTheOther(oracle: Oracle, s: Sys)
    ensures EpStep(oracle, s.c, s.st, s.ep, SvcUndo).None?
  {
  }

  lemma {:induction false} GoodSoFar(oracle: Oracle, es: seq<Turn>, m: nat)
    requires Faithful(oracle) && FreshUuids(oracle) && StayApart(oracle, es) && m <= |es|
    requires SoFar(oracle, es, m).Some?
    ensures var s := SoFar(oracle, es, m).value; SepInv(oracle, s) && JobPinned(s.st.net, s.svc)
  {
    ApartBefore(oracle, es, m);
    ExecSeparate(oracle, es[..m]);
    ExecPinned(oracle, es[..m]);
  }

  lemma {:induction false} UndoesLess(oracle: Oracle, es: seq<Turn>, n: nat, m: nat)
    requires n < m <= |es| && Undoes(oracle, es, n, m)
    ensures Undoes(oracle, es, n, m - 1)
    ensures SoFar(oracle, es, m - 1).Some? && SoFar(oracle, es, m - 1).value.svc.Undoing?
    ensures es[m - 1].SvcUndo? ==> Fate(oracle, SoFar(oracle, es, m - 1).value.st.net.clock).Applied()
  {
  }

  lemma {:induction false} Rolling(oracle: Oracle, es: seq<Turn>, n: nat, m: nat, k: NamespaceName,
                                   sent: seq<Request>, results: seq<Result>) returns (j: nat)
    requires Faithful(oracle) && FreshUuids(oracle) && StayApart(oracle, es) && n <= m <= |es|
    requires SoFar(oracle, es, n).Some? && RolledTo(SoFar(oracle, es, n).value, k, sent, results, |sent|)
    requires PostedFor(k, sent) && AllEchoed(sent, results)
    requires SoFar(oracle, es, m).Some? && Undoes(oracle, es, n, m)
    ensures Rolled(SoFar(oracle, es, m).value, k, sent, results, j)
    decreases m
  {
    if m == n {
      j := |sent|;
    } else {
      SoFarNext(oracle, es, m - 1);
      UndoesLess(oracle, es, n, m);
      var i := Rolling(oracle, es, n, m - 1, k, sent, results);
      GoodSoFar(oracle, es, m - 1);
      j := RollsOn(oracle, SoFar(oracle, es, m - 1).value, es[m - 1], k, sent, results, i);
    }
  }

  /** A request that fails starts the rollback of those before it. */
  lemma {:induction false} FailureRollsBack(oracle: Oracle, s: Sys)
    requires SepInv(oracle, s) && s.svc.Sending? && |s.svc.results| < |s.svc.ops|
    requires SendOne(oracle, s.st.net, s.svc.ops[|s.svc.results|]).0.Failed?
    ensures var t, sent := Step(oracle, s, SvcSend), s.svc.ops[..|s.svc.results|];
      && t.Some? && RolledTo(t.value, s.svc.svc.Key(), sent, s.svc.results, |sent|)
      && PostedFor(s.svc.svc.Key(), sent) && AllEchoed(sent, s.svc.results)
  {
    var job, sent := s.svc, s.svc.ops[..|s.svc.results|];
    assert sent[..|sent|] == sent && job.results[..|sent|] == job.results;
    forall i | 0 <= i < |sent| && sent[i].model == "Pool" && sent[i].obj.PoolObj?
      ensures Owned(job.svc.Key(), PoolKey(sent[i]))
    {
      PostedIsOwned(s.c, job, i);
    }
  }

  /**
   * In every interleaving in which the two workers never hold one key: when a request of a service sync fails and the
   * deletes of its rollback take effect, then by the time the worker is idle no pool that the batch had posted is on
   * the far side, whatever the other worker and the cluster did meanwhile.
   */
  lemma {:induction false} FailedBatchUndone(oracle: Oracle, es: seq<Turn>, n: nat, i: nat)
    requires Faithful(oracle) && FreshUuids(oracle) && StayApart(oracle, es) && n < |es|
    requires SoFar(oracle, es, n).Some? && SoFar(oracle, es, n).value.svc.Sending? && es[n] == SvcSend
    requires var s := SoFar(oracle, es, n).value;
      && i < |s.svc.results| < |s.svc.ops| && s.svc.ops[i].obj.PoolObj?
      && SendOne(oracle, s.st.net, s.svc.ops[|s.svc.results|]).0.Failed?
    requires Undoes(oracle, es, n + 1, |es|) && Exec(oracle, START, es).Some?
    requires Exec(oracle, START, es).value.svc == Idle
    ensures PoolKey(SoFar(oracle, es, n).value.svc.ops[i]) !in Exec(oracle, START, es).value.st.net.remote.pools
  {
    var s := SoFar(oracle, es, n).value;
    var job := s.svc;
    var k, sent := job.svc.Key(), job.ops[..|job.results|];
    GoodSoFar(oracle, es, n);
    FailureRollsBack(oracle, s);
    assert es[..n + 1][..n] == es[..n];
    assert SoFar(oracle, es, n + 1) == Step(oracle, s, SvcSend);
    assert es[..|es|] == es;
    var j := Rolling(oracle, es, n + 1, |es|, k, sent, job.results);
    PoolsFirst(job.ops, job.pools, i);
    assert sent[i] == job.ops[i];
  }
}
