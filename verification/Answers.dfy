/** What the far side can do to a sync by what it answers: no answer is assumed to be faithful here. */
module Answers {
  import opened Wrappers
  import opened Model
  import opened Rest
  import opened Pools
  import opened Caches
  import opened Sync
  import opened Effects

  // ---------- response elements ----------

  /** The elements of a type, in order: those of the parts of a response, one part after the other. */
  lemma {:induction false} OfKindConcat(a: seq<Elem>, b: seq<Elem>, kind: string)
    ensures OfKind(a + b, kind) == OfKind(a, kind) + OfKind(b, kind)
  {
    if b == [] {
      assert a + b == a && OfKind(a, kind) + [] == OfKind(a, kind);
    } else {
      var n := |b| - 1;
      OfKindConcat(a, b[..n], kind);
      assert (a + b)[..|a + b| - 1] == a + b[..n];
    }
  }

  lemma {:induction false} OfKindExactly(es: seq<Elem>, kind: string, e: Elem)
    ensures e in OfKind(es, kind) <==> e in es && e.Elem? && e.kind == Some(kind)
  {
    if es != [] {
      var n := |es| - 1;
      OfKindExactly(es[..n], kind, e);
      assert es == es[..n] + [es[n]];
    }
  }

  ghost predicate AllElems(es: seq<Elem>) {
    forall i :: 0 <= i < |es| ==> es[i].Elem?
  }

  /** An element is cached under its name, if it has one, and a uuid. */
  ghost predicate Cacheable(e: Elem) {
    e.Elem? && e.name.Some? && e.uuid.Some?
  }

  // ---------- the pool cache ----------

  /** A field that the cache entry of a pool needs is not there. */
  ghost predicate PoolIncomplete(e: Elem) {
    Cacheable(e) && (e.lb.None? || e.cksum.None? || e.mdata.Missing?)
  }

  lemma {:induction false} AddPoolsPanicsExactly(pools: PoolMap, tenant: string, es: seq<Elem>)
    requires AllElems(es)
    ensures AddPools(pools, tenant, es).None? <==> exists e :: e in es && PoolIncomplete(e)
  {
    if es != [] {
      var n := |es| - 1;
      AddPoolsPanicsExactly(pools, tenant, es[..n]);
      assert forall e :: e in es <==> e in es[..n] || e == es[n];
      assert PoolIncomplete(es[n]) ==> exists e :: e in es && PoolIncomplete(e);
    }
  }

  /** Element `i` is the last that is cached under its name. */
  ghost predicate LastNamed(es: seq<Elem>, i: int, name: string) {
    && 0 <= i < |es| && Cacheable(es[i]) && es[i].name.value == name
    && forall j :: i < j < |es| && Cacheable(es[j]) ==> es[j].name.value != name
  }

  /** The entry of an element that is complete. */
  ghost predicate IsPoolEntry(entry: PoolEntry, tenant: string, e: Elem) {
    && Cacheable(e) && !PoolIncomplete(e)
    && entry.name == e.name.value && entry.tenant == tenant && entry.uuid == e.uuid.value && entry.lb == e.lb.value
    && entry.cksum == e.cksum.value && entry.crudHashKey == match e.mdata case Hash(h) => h case _ => ""
  }

  /** What a response leaves at one place of the pool cache. */
  ghost predicate PoolCachedAt(was: PoolMap, now: PoolMap, tenant: string, es: seq<Elem>, q: NamespaceName) {
    if exists i :: q.ns == tenant && LastNamed(es, i, q.name)
    then q in now && exists i :: LastNamed(es, i, q.name) && IsPoolEntry(now[q], tenant, es[i])
    else SameAt(was, now, q)
  }

  lemma {:induction false} LastNamedSnoc(es: seq<Elem>, i: int, name: string)
    requires es != []
    ensures var n := |es| - 1;
      LastNamed(es, i, name) <==>
      if Cacheable(es[n]) && es[n].name.value == name then i == n else LastNamed(es[..n], i, name)
  {
    var n := |es| - 1;
    assert forall j :: 0 <= j < n ==> es[..n][j] == es[j];
  }

  /** The pool cache gets the last complete element of each name, and nothing else. */
  lemma {:induction false} AddPoolsExactly(pools: PoolMap, tenant: string, es: seq<Elem>, q: NamespaceName)
    requires AllElems(es) && AddPools(pools, tenant, es).Some?
    ensures PoolCachedAt(pools, AddPools(pools, tenant, es).value, tenant, es, q)
  {
    if es != [] {
      var n := |es| - 1;
      var e, init, now := es[n], es[..n], AddPools(pools, tenant, es).value;
      AddPoolsExactly(pools, tenant, init, q);
      forall i
        ensures LastNamed(es, i, q.name) <==>
                if Cacheable(e) && e.name.value == q.name then i == n else LastNamed(init, i, q.name)
      {
        LastNamedSnoc(es, i, q.name);
      }
      if Cacheable(e) && q == NamespaceName(tenant, e.name.value) {
        assert LastNamed(es, n, q.name) && IsPoolEntry(now[q], tenant, es[n]);
      } else {
        assert SameAt(AddPools(pools, tenant, init).value, now, q);
        EarlierStays(pools, tenant, es, q);
      }
    }
  }

  /** An element of another name leaves the place as the earlier ones made it. */
  lemma {:induction false} EarlierStays(pools: PoolMap, tenant: string, es: seq<Elem>, q: NamespaceName)
    requires es != [] && AllElems(es) && AddPools(pools, tenant, es).Some?
    requires !(Cacheable(es[|es| - 1]) && q == NamespaceName(tenant, es[|es| - 1].name.value))
    requires var init := es[..|es| - 1];
      var mid := AddPools(pools, tenant, init);
      && mid.Some? && PoolCachedAt(pools, mid.value, tenant, init, q)
      && SameAt(mid.value, AddPools(pools, tenant, es).value, q)
    ensures PoolCachedAt(pools, AddPools(pools, tenant, es).value, tenant, es, q)
  {
    var n := |es| - 1;
    var init := es[..n];
    if q.ns == tenant {
      forall i
        ensures LastNamed(es, i, q.name) <==> LastNamed(init, i, q.name)
      {
        LastNamedSnoc(es, i, q.name);
      }
      if i :| LastNamed(init, i, q.name) {
        var mid, now := AddPools(pools, tenant, init).value, AddPools(pools, tenant, es).value;
        var j :| LastNamed(init, j, q.name) && IsPoolEntry(mid[q], tenant, init[j]);
        assert LastNamed(es, j, q.name) && es[j] == init[j] && now[q] == mid[q];
      }
    }
  }

  // ---------- the links ----------

  /** Every element with a name is linked, whatever else it lacks. */
  lemma {:induction false} AddLinksExactly(links: Relation, key: NamespaceName, es: seq<Elem>,
                                           l: (NamespaceName, string))
    requires AllElems(es)
    ensures l in AddLinks(links, key, es) <==>
            l in links || (l.0 == key && exists e :: e in es && e.name.Some? && l.1 == "service/" + e.name.value)
  {
    if es != [] {
      var n := |es| - 1;
      AddLinksExactly(links, key, es[..n], l);
      assert forall e :: e in es <==> e in es[..n] || e == es[n];
      if es[n].name.Some? {
        assert "service/" + es[n].name.value == Link(es[n].name.value);
        assert es[n] in es;
      }
    }
  }

  // ---------- the virtual services ----------

  ghost predicate VsIncomplete(e: Elem) {
    Cacheable(e) && (e.cksum.None? || e.mdata.Missing?)
  }

  /** Nothing before `i` ends the loop. */
  ghost predicate Comes(es: seq<Elem>, i: int) {
    0 <= i < |es| && forall j :: 0 <= j < i ==> Cacheable(es[j]) && !VsIncomplete(es[j])
  }

  /** Caching the elements panics at the first incomplete one, unless one without a name or a uuid ends it before. */
  lemma {:induction false} AddVssPanicsExactly(vss: VsMap, tenant: string, es: seq<Elem>)
    requires AllElems(es)
    ensures AddVss(vss, tenant, es).None? <==> exists i :: Comes(es, i) && VsIncomplete(es[i])
    decreases |es|
  {
    if es != [] {
      var e := es[0];
      if VsIncomplete(e) {
        assert Comes(es, 0);
      } else if Cacheable(e) {
        var more := vss[NamespaceName(tenant, e.name.value) :=
          VsEntry(e.name.value, tenant, e.uuid.value, HashOf(e.mdata), e.cksum.value)];
        AddVssPanicsExactly(more, tenant, es[1..]);
        forall i
          ensures Comes(es[1..], i) <==> i >= 0 && Comes(es, i + 1)
        {
          ComesLater(es, i);
        }
        if i :| Comes(es[1..], i) && VsIncomplete(es[1..][i]) {
          assert Comes(es, i + 1) && VsIncomplete(es[i + 1]);
        }
        if i :| Comes(es, i) && VsIncomplete(es[i]) {
          assert Comes(es[1..], i - 1) && VsIncomplete(es[1..][i - 1]);
        }
      }
    }
  }

  lemma {:induction false} ComesLater(es: seq<Elem>, i: int)
    requires es != [] && Cacheable(es[0]) && !VsIncomplete(es[0])
    ensures Comes(es[1..], i) <==> i >= 0 && Comes(es, i + 1)
  {
    if Comes(es[1..], i) {
      forall j | 0 <= j < i + 1
        ensures Cacheable(es[j]) && !VsIncomplete(es[j])
      {
        assert j > 0 ==> es[j] == es[1..][j - 1];
      }
    }
    if i >= 0 && Comes(es, i + 1) {
      forall j | 0 <= j < i
        ensures Cacheable(es[1..][j]) && !VsIncomplete(es[1..][j])
      {
        assert es[1..][j] == es[j + 1];
      }
    }
  }

  ghost predicate IsVsEntry(entry: VsEntry, tenant: string, e: Elem) {
    && Cacheable(e) && !VsIncomplete(e)
    && entry.name == e.name.value && entry.tenant == tenant && entry.uuid == e.uuid.value
    && entry.cksum == e.cksum.value && entry.crudHashKey == match e.mdata case Hash(h) => h case _ => ""
  }

  /** The loop reaches element `i` and caches it at `q`. */
  ghost predicate Reaches(es: seq<Elem>, i: int, tenant: string, q: NamespaceName) {
    Comes(es, i) && Cacheable(es[i]) && q == NamespaceName(tenant, es[i].name.value)
  }

  /** The virtual service cache gets what the loop reaches, and nothing else. */
  lemma {:induction false} AddVssExactly(vss: VsMap, tenant: string, es: seq<Elem>, q: NamespaceName)
    requires AllElems(es) && AddVss(vss, tenant, es).Some?
    ensures var now := AddVss(vss, tenant, es).value;
      if exists i :: Reaches(es, i, tenant, q)
      then q in now && exists i :: Reaches(es, i, tenant, q) && IsVsEntry(now[q], tenant, es[i])
      else SameAt(vss, now, q)
    decreases |es|
  {
    if es != [] && Cacheable(es[0]) {
      var e, now := es[0], AddVss(vss, tenant, es).value;
      var entry := VsEntry(e.name.value, tenant, e.uuid.value, HashOf(e.mdata), e.cksum.value);
      AddVssExactly(vss[NamespaceName(tenant, e.name.value) := entry], tenant, es[1..], q);
      forall i
        ensures Reaches(es[1..], i, tenant, q) <==> i >= 0 && Reaches(es, i + 1, tenant, q)
      {
        ComesLater(es, i);
      }
      if exists i :: Reaches(es[1..], i, tenant, q) {
        var i :| Reaches(es[1..], i, tenant, q) && IsVsEntry(now[q], tenant, es[1..][i]);
        assert Reaches(es, i + 1, tenant, q) && es[i + 1] == es[1..][i];
      } else if Reaches(es, 0, tenant, q) {
        assert IsVsEntry(now[q], tenant, es[0]);
      } else if i :| Reaches(es, i, tenant, q) {
        assert Reaches(es[1..], i - 1, tenant, q);
      }
    }
  }

  // ---------- the rollback ----------

  /** The rollback panics exactly when an operation that went through was answered with an empty list. */
  lemma {:induction false} UndoCrashesExactly(oracle: Oracle, net: Net, reqs: seq<Request>, results: seq<Result>)
    requires |reqs| == |results|
    ensures UndoAll(oracle, net, reqs, results).crashed <==> Succeeded(Array([])) in results
    decreases |reqs|
  {
    if reqs != [] {
      var n := |reqs| - 1;
      var u := UndoOf(reqs[n], results[n]);
      UndoCrashesExactly(oracle, if u.DeleteAt? then EraseOne(oracle, net, u.url) else net, reqs[..n], results[..n]);
      assert results == results[..n] + [results[n]];
    }
  }

  /** The uuid of the first object in an answer. */
  ghost predicate AnsweredUuid(r: Result, uuid: string) {
    && r.Succeeded? && r.resp.Array? && r.resp.elems != [] && r.resp.elems[0].Elem?
    && r.resp.elems[0].uuid == Some(uuid)
  }

  /** Where the objects of a model are deleted. */
  function DeletePath(model: string): string {
    if model == "Pool" then "/api/pool" else if model == "VirtualService" then "/api/virtualservice" else ""
  }

  /** Some operation was answered with the uuid in `url`, whose path is that of its model. */
  ghost predicate Answered(reqs: seq<Request>, results: seq<Result>, url: Url)
    requires |reqs| == |results|
  {
    exists i :: 0 <= i < |reqs| && AnsweredUuid(results[i], url.uuid) && url.base == DeletePath(reqs[i].model)
  }

  /** One that does not panic deletes what answers with a uuid name, each at the path of its model, and nothing else. */
  lemma {:induction false} UndoDeletesExactly(oracle: Oracle, net: Net, reqs: seq<Request>, results: seq<Result>,
                                              url: Url)
    requires |reqs| == |results| && !UndoAll(oracle, net, reqs, results).crashed
    ensures url in UndoAll(oracle, net, reqs, results).deleted <==> Answered(reqs, results, url)
    decreases |reqs|
  {
    if reqs != [] {
      var n := |reqs| - 1;
      var u := UndoOf(reqs[n], results[n]);
      UndoDeletesExactly(oracle, if u.DeleteAt? then EraseOne(oracle, net, u.url)
        else net, reqs[..n], results[..n], url);
      AnsweredSnoc(reqs, results, url);
      assert AviModelToUrl(reqs[n].model) == DeletePath(reqs[n].model);
      assert u == DeleteAt(url) <==> AnsweredUuid(results[n], url.uuid) && url.base == DeletePath(reqs[n].model);
    }
  }

  lemma {:induction false} AnsweredSnoc(reqs: seq<Request>, results: seq<Result>, url: Url)
    requires |reqs| == |results| && reqs != []
    ensures var n := |reqs| - 1;
      Answered(reqs, results, url) <==>
      Answered(reqs[..n], results[..n], url)
      || (AnsweredUuid(results[n], url.uuid) && url.base == DeletePath(reqs[n].model))
  {
    var n := |reqs| - 1;
    if Answered(reqs[..n], results[..n], url) {
      var i :| 0 <= i < n && AnsweredUuid(results[..n][i], url.uuid) && url.base == DeletePath(reqs[..n][i].model);
      assert AnsweredUuid(results[i], url.uuid) && url.base == DeletePath(reqs[i].model);
    }
    if Answered(reqs, results, url) {
      var i :| 0 <= i < |reqs| && AnsweredUuid(results[i], url.uuid) && url.base == DeletePath(reqs[i].model);
      assert i < n ==> AnsweredUuid(results[..n][i], url.uuid) && url.base == DeletePath(reqs[..n][i].model);
    }
  }

  // ---------- a batch ----------

  /** An answer that cannot be cached. */
  ghost predicate Uncacheable(req: Request, r: Result) {
    && r.Succeeded?
    && (|| (req.model == "Pool" && exists e :: e in Elems(r.resp, "pool") && PoolIncomplete(e))
        || (req.model == "VirtualService" && var es := Elems(r.resp, "virtualservice");
              exists i :: Comes(es, i) && VsIncomplete(es[i])))
  }

  lemma {:induction false} FillOnePanicsExactly(s: State, key: NamespaceName, req: Request, r: Result)
    ensures FillOne(s, key, req, r).None? <==> Uncacheable(req, r)
  {
    if r.Succeeded? {
      AddPoolsPanicsExactly(s.pools, req.tenant, Elems(r.resp, "pool"));
      AddVssPanicsExactly(s.vss, req.tenant, Elems(r.resp, "virtualservice"));
    }
  }

  lemma {:induction false} FillPanicsExactly(st: State, key: NamespaceName, reqs: seq<Request>, results: seq<Result>)
    requires |reqs| == |results|
    ensures Fill(st, key, reqs, results).None? <==> exists i :: 0 <= i < |reqs| && Uncacheable(reqs[i], results[i])
    decreases |reqs|
  {
    if reqs != [] {
      var n := |reqs| - 1;
      FillPanicsExactly(st, key, reqs[..n], results[..n]);
      if Fill(st, key, reqs[..n], results[..n]).Some? {
        FillOnePanicsExactly(Fill(st, key, reqs[..n], results[..n]).value, key, reqs[n], results[n]);
      }
      if i :| 0 <= i < n && Uncacheable(reqs[..n][i], results[..n][i]) {
        assert Uncacheable(reqs[i], results[i]);
      }
      if i :| 0 <= i < |reqs| && Uncacheable(reqs[i], results[i]) {
        assert i < n ==> Uncacheable(reqs[..n][i], results[..n][i]);
      }
    }
  }

  /**
   * With any answers at all, the batch of a service sync takes the process down if and only if it fails after an
   * operation was answered with an empty list, or goes through with an answer that cannot be cached.
   */
  lemma {:induction false} BatchDiesExactly(oracle: Oracle, st: State, key: NamespaceName, ops: seq<Request>)
    ensures var b := Operate(oracle, st.net, ops);
      Batched(oracle, st, key, ops).Died? <==>
      if b.err.Some? then Succeeded(Array([])) in b.results
      else exists i :: 0 <= i < |ops| && Uncacheable(ops[i], b.results[i])
  {
    var b := Operate(oracle, st.net, ops);
    UndoCrashesExactly(oracle, b.net, ops, b.results);
    FillPanicsExactly(st.(net := b.net), key, ops, b.results);
  }
}
