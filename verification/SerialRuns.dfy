/** Workers that never overlap: their runs, turn by turn, are exactly the runs of one sync after another. */
module SerialRuns {
  import opened Wrappers
  import opened Model
  import opened Rest
  import opened Pools
  import opened VirtualServices
  import opened Caches
  import opened Sync
  import opened Runs
  import opened Interleaving
  import opened ServiceAlone
  import opened EndpointsAlone

  // ---------- whose turns ----------

  /** Turns of the Endpoints worker on the key it holds. */
  ghost predicate OfEndpoints(e: Turn) {
    e.EpLook? || e.EpRange? || e.EpLink? || e.EpRanged? || e.EpBuild? || e.EpPost? || e.EpSend? || e.EpCache?
  }

  /** Turns of the Service worker on the key it holds. */
  ghost predicate OfService(e: Turn) {
    !e.Change? && !e.SvcTake? && !e.EpTake? && !OfEndpoints(e)
  }

  lemma {:induction false} NotTheOthers(oracle: Oracle, s: Sys, e: Turn)
    ensures OfService(e) || e.SvcTake? ==> EpStep(oracle, s.c, s.st, s.ep, e).None?
    ensures OfEndpoints(e) || e.EpTake? ==> SvcStep(oracle, s.c, s.st, s.svc, e).None?
  {
  }

  lemma {:induction false} ExecConcat(oracle: Oracle, s: Sys, a: seq<Turn>, b: seq<Turn>)
    ensures Exec(oracle, s, a + b) ==
            match Exec(oracle, s, a) case None => None case Some(t) => Exec(oracle, t, b)
    decreases |b|
  {
    if b == [] {
      assert a + b == a;
    } else {
      var n := |b| - 1;
      ExecConcat(oracle, s, a, b[..n]);
      assert (a + b)[..|a + b| - 1] == a + b[..n];
    }
  }

  lemma {:induction false} ExecOne(oracle: Oracle, s: Sys, e: Turn)
    ensures Exec(oracle, s, [e]) == Step(oracle, s, e)
  {
    assert [e][..0] == [];
  }

  // ---------- the Service worker alone ----------

  lemma {:induction false} ServiceFollows(oracle: Oracle, w: World, k: NamespaceName, s: Sys, es: seq<Turn>)
    returns (order: seq<PortProtocol>, order2: seq<ListenerKey>)
    requires s.c == w.cluster && s.ep == Resting && ServiceSoFar(oracle, w, k, [], [], s.st, s.svc)
    requires (forall i :: 0 <= i < |es| ==> OfService(es[i])) && Exec(oracle, s, es).Some?
    ensures var t := Exec(oracle, s, es).value;
      t.c == w.cluster && t.ep == Resting && ServiceSoFar(oracle, w, k, order, order2, t.st, t.svc)
  {
    if es == [] {
      order, order2 := [], [];
    } else {
      var n := |es| - 1;
      var t := Exec(oracle, s, es[..n]).value;
      var o, o2 := ServiceFollows(oracle, w, k, s, es[..n]);
      NotTheOthers(oracle, t, es[n]);
      ServiceTracked(oracle, w, k, o, o2, t.st, t.svc, es[n]);
      order, order2 := OrderAfter(es[n], o), Order2After(es[n], o2);
    }
  }

  lemma {:induction false} ServiceTaken(oracle: Oracle, s: Sys, k: NamespaceName)
    requires ClusterInv(s.c) && s.svc == Idle && s.ep == Resting
    ensures var t := Step(oracle, s, SvcTake(k));
      && t.Some? && t.value == s.(svc := t.value.svc)
      && forall order, order2 :: ServiceSoFar(oracle, World(s.c, s.st), k, order, order2, s.st, t.value.svc)
  {
  }

  /**
   * Whatever a Service worker does between taking a key and being idle again, while nobody else has a turn, is what the
   * handler does with that key, for some order of the maps it ranges over.
   */
  lemma {:induction false} ServiceTurnsAreASync(oracle: Oracle, s: Sys, k: NamespaceName, es: seq<Turn>, t: Sys)
    returns (order: seq<PortProtocol>, order2: seq<ListenerKey>)
    requires ClusterInv(s.c) && s.svc == Idle && s.ep == Resting && forall i :: 0 <= i < |es| ==> OfService(es[i])
    requires Exec(oracle, s, [SvcTake(k)] + es) == Some(t) && t.svc == Idle
    ensures t == s.(st := t.st) && Next(oracle, World(s.c, s.st), ServiceKey(k, order, order2), World(s.c, t.st))
  {
    ExecConcat(oracle, s, [SvcTake(k)], es);
    ExecOne(oracle, s, SvcTake(k));
    ServiceTaken(oracle, s, k);
    var u := Step(oracle, s, SvcTake(k)).value;
    var w := World(s.c, s.st);
    var o, o2 := ServiceFollows(oracle, w, k, u, es);
    order, order2 := ServiceDone(oracle, w, k, o, o2, t.st);
  }

  lemma {:induction false} ServiceFinishes(oracle: Oracle, w: World, k: NamespaceName, order: seq<PortProtocol>,
                                           order2: seq<ListenerKey>, ran: Ran, s: Sys) returns (es: seq<Turn>)
    requires ClusterInv(w.cluster) && s.c == w.cluster && s.ep == Resting
    requires ServiceSoFar(oracle, w, k, order, order2, s.st, s.svc)
    requires ServiceStep(oracle, w, k, order, order2, ran) && ran.Ran?
    ensures (forall i :: 0 <= i < |es| ==> OfService(es[i]))
      && Exec(oracle, s, es) == Some(s.(st := ran.st, svc := Idle))
    decreases Phase(s.svc), Ahead(s.svc)
  {
    if s.svc.Idle? {
      es := [];
    } else {
      var e := NextTurn(s.svc, order, order2);
      NextIsOfService(s.svc, order, order2);
      ServiceAdvances(oracle, w, k, order, order2, ran, s.st, s.svc);
      var p := SvcStep(oracle, w.cluster, s.st, s.svc, e).value;
      ServiceTracked(oracle, w, k, order, order2, s.st, s.svc, e);
      var u := s.(st := p.0, svc := p.1);
      var rest := ServiceFinishes(oracle, w, k, order, order2, ran, u);
      es := [e] + rest;
      ExecOne(oracle, s, e);
      ExecConcat(oracle, s, [e], rest);
    }
  }

  lemma {:induction false} NextIsOfService(job: SvcJob, order: seq<PortProtocol>, order2: seq<ListenerKey>)
    requires !job.Idle?
    ensures var e := NextTurn(job, order, order2);
      OfService(e) && OrderAfter(e, order) == order && Order2After(e, order2) == order2
  {
  }

  lemma {:induction false} ServiceAdvances(oracle: Oracle, w: World, k: NamespaceName, order: seq<PortProtocol>,
                                           order2: seq<ListenerKey>, ran: Ran, now: State, job: SvcJob)
    requires ClusterInv(w.cluster) && ServiceSoFar(oracle, w, k, order, order2, now, job) && !job.Idle?
    requires ServiceStep(oracle, w, k, order, order2, ran) && ran.Ran?
    ensures Advances(oracle, w.cluster, now, job, NextTurn(job, order, order2))
  {
    if k in w.cluster.svcs {
      SyncAdvances(oracle, w.cluster, w.st, w.cluster.svcs[k], order, order2, now, job);
    } else {
      DeleteAdvances(oracle, w.cluster, w.st, k, now, job, order, order2);
    }
  }

  /** And whatever the handler can do with the key, some such turns do. */
  lemma {:induction false} EverySyncIsServiceTurns(oracle: Oracle, s: Sys, k: NamespaceName, order: seq<PortProtocol>,
                                                   order2: seq<ListenerKey>, st: State) returns (es: seq<Turn>)
    requires ClusterInv(s.c) && s.svc == Idle && s.ep == Resting
    requires Next(oracle, World(s.c, s.st), ServiceKey(k, order, order2), World(s.c, st))
    ensures (forall i :: 0 <= i < |es| ==> OfService(es[i]))
      && Exec(oracle, s, [SvcTake(k)] + es) == Some(s.(st := st))
  {
    var w := World(s.c, s.st);
    var ran :| ServiceStep(oracle, w, k, order, order2, ran) && ran.Ran? && World(s.c, st) == w.(st := ran.st);
    ServiceTaken(oracle, s, k);
    var u := Step(oracle, s, SvcTake(k)).value;
    es := ServiceFinishes(oracle, w, k, order, order2, ran, u);
    ExecOne(oracle, s, SvcTake(k));
    ExecConcat(oracle, s, [SvcTake(k)], es);
  }

  // ---------- the Endpoints worker alone ----------

  lemma {:induction false} EndpointsFollow(oracle: Oracle, w: World, e: Endpoints, s: Sys, es: seq<Turn>)
    returns (order: seq<string>)
    requires s.c == w.cluster && s.svc == Idle && EpSoFar(oracle, w.cluster, w.st, e, [], s.st, s.ep)
    requires (forall i :: 0 <= i < |es| ==> OfEndpoints(es[i])) && Exec(oracle, s, es).Some?
    ensures var t := Exec(oracle, s, es).value;
      t.c == w.cluster && t.svc == Idle && EpSoFar(oracle, w.cluster, w.st, e, order, t.st, t.ep)
  {
    if es == [] {
      order := [];
    } else {
      var n := |es| - 1;
      var t := Exec(oracle, s, es[..n]).value;
      var o := EndpointsFollow(oracle, w, e, s, es[..n]);
      NotTheOthers(oracle, t, es[n]);
      EpTracked(oracle, w.cluster, w.st, e, o, t.st, t.ep, es[n]);
      order := LinksAfter(es[n], o);
    }
  }

  /** A key whose Endpoints are gone is dropped at once. */
  lemma {:induction false} EndpointsTaken(oracle: Oracle, s: Sys, k: NamespaceName)
    requires ClusterInv(s.c) && s.svc == Idle && s.ep == Resting
    ensures Step(oracle, s, EpTake(k)) == Some(s.(ep := if k in s.c.eps then Taken(s.c.eps[k]) else Resting))
  {
  }

  lemma {:induction false} NoEndpoints(oracle: Oracle, w: World, k: NamespaceName) returns (links: seq<string>)
    requires k !in w.cluster.eps
    ensures Next(oracle, w, EndpointsKey(k, links), w)
  {
    links := [];
    var ran := Ran(w.st, NoError, []);
    assert EndpointsStep(oracle, w, k, links, ran);
  }

  lemma {:induction false} RestingHasNoTurn(oracle: Oracle, s: Sys, es: seq<Turn>)
    requires s.ep == Resting && forall i :: 0 <= i < |es| ==> OfEndpoints(es[i])
    requires Exec(oracle, s, es).Some?
    ensures es == []
  {
    if es != [] {
      ExecConcat(oracle, s, [es[0]], es[1..]);
      assert es == [es[0]] + es[1..];
      ExecOne(oracle, s, es[0]);
      NotTheOthers(oracle, s, es[0]);
    }
  }

  /** The same for an Endpoints worker: left alone, it does what the handler does with the key it has taken. */
  lemma {:induction false} EndpointsTurnsAreASync(oracle: Oracle, s: Sys, k: NamespaceName, es: seq<Turn>, t: Sys)
    returns (links: seq<string>)
    requires ClusterInv(s.c) && s.svc == Idle && s.ep == Resting && forall i :: 0 <= i < |es| ==> OfEndpoints(es[i])
    requires Exec(oracle, s, [EpTake(k)] + es) == Some(t) && t.ep == Resting
    ensures t == s.(st := t.st) && Next(oracle, World(s.c, s.st), EndpointsKey(k, links), World(s.c, t.st))
  {
    ExecConcat(oracle, s, [EpTake(k)], es);
    ExecOne(oracle, s, EpTake(k));
    EndpointsTaken(oracle, s, k);
    var w := World(s.c, s.st);
    if k in s.c.eps {
      var order := EndpointsFollow(oracle, w, s.c.eps[k], s.(ep := Taken(s.c.eps[k])), es);
      links := EpDone(oracle, w, s.c.eps[k], order, t.st);
    } else {
      RestingHasNoTurn(oracle, s, es);
      links := NoEndpoints(oracle, w, k);
    }
  }

  lemma {:induction false} NextIsOfEndpoints(job: EpJob, links: seq<string>)
    requires !job.Resting?
    ensures OfEndpoints(EpNextTurn(job, links))
  {
  }

  lemma {:induction false} EndpointsFinish(oracle: Oracle, w: World, e: Endpoints, order: seq<string>,
                                           links: seq<string>, s: Sys) returns (es: seq<Turn>)
    requires s.c == w.cluster && s.svc == Idle && EpSoFar(oracle, w.cluster, w.st, e, order, s.st, s.ep)
    requires Enumerates(links, ValuesOf(w.st.links, e.Key()))
    requires SyncEndpoints(oracle, w.st, e, Lister(w.cluster.svcs, e.Key()), links).Ran?
    requires s.ep.Resting? ==> s.st == SyncEndpoints(oracle, w.st, e, Lister(w.cluster.svcs, e.Key()), links).st
    requires OnCourse(s.ep, order, links) || s.ep.Resting?
    ensures var ran := SyncEndpoints(oracle, w.st, e, Lister(w.cluster.svcs, e.Key()), links);
      && (forall i :: 0 <= i < |es| ==> OfEndpoints(es[i]))
      && Exec(oracle, s, es) == Some(s.(st := ran.st, ep := Resting))
    decreases EpPhase(s.ep), EpAhead(s.ep, links)
  {
    if s.ep.Resting? {
      es := [];
    } else {
      var t := EpNextTurn(s.ep, links);
      NextIsOfEndpoints(s.ep, links);
      NotTheOthers(oracle, s, t);
      EpSyncAdvances(oracle, w.cluster, w.st, e, order, links, s.st, s.ep);
      StaysOnCourse(oracle, w.cluster, w.st, e, order, links, s.st, s.ep);
      var p := EpStep(oracle, w.cluster, s.st, s.ep, t).value;
      EpTracked(oracle, w.cluster, w.st, e, order, s.st, s.ep, t);
      EndsAsIntended(oracle, w, e, order, links, s);
      var u := s.(st := p.0, ep := p.1);
      var rest := EndpointsFinish(oracle, w, e, LinksAfter(t, order), links, u);
      es := [t] + rest;
      ExecOne(oracle, s, t);
      ExecConcat(oracle, s, [t], rest);
    }
  }

  lemma {:induction false} FirstIsListed(links: seq<string>, all: set<string>)
    requires Enumerates(links, all)
    ensures links == [] || links[0] in all
  {
    assert links == [] || links[0] in links;
  }

  /** A worker that comes to rest has done the sync with the links in the intended order. */
  lemma {:induction false} EndsAsIntended(oracle: Oracle, w: World, e: Endpoints, order: seq<string>,
                                          links: seq<string>, s: Sys)
    requires EpSoFar(oracle, w.cluster, w.st, e, order, s.st, s.ep) && !s.ep.Resting? && OnCourse(s.ep, order, links)
    requires Enumerates(links, ValuesOf(w.st.links, e.Key()))
    requires EpStep(oracle, w.cluster, s.st, s.ep, EpNextTurn(s.ep, links)).Some?
    requires SyncEndpoints(oracle, w.st, e, Lister(w.cluster.svcs, e.Key()), links).Ran?
    ensures var p := EpStep(oracle, w.cluster, s.st, s.ep, EpNextTurn(s.ep, links)).value;
      p.1.Resting? ==> p.0 == SyncEndpoints(oracle, w.st, e, Lister(w.cluster.svcs, e.Key()), links).st
  {
    EpTracked(oracle, w.cluster, w.st, e, order, s.st, s.ep, EpNextTurn(s.ep, links));
    if s.ep.Ready? && ValuesOf(w.st.links, e.Key()) == {} {
      FirstIsListed(links, {});
    }
  }

  /** And whatever the handler can do with the key, some such turns do. */
  lemma {:induction false} EverySyncIsEndpointsTurns(oracle: Oracle, s: Sys, k: NamespaceName, links: seq<string>,
                                                     st: State) returns (es: seq<Turn>)
    requires ClusterInv(s.c) && s.svc == Idle && s.ep == Resting
    requires Next(oracle, World(s.c, s.st), EndpointsKey(k, links), World(s.c, st))
    ensures (forall i :: 0 <= i < |es| ==> OfEndpoints(es[i]))
      && Exec(oracle, s, [EpTake(k)] + es) == Some(s.(st := st))
  {
    var w := World(s.c, s.st);
    var ran :| EndpointsStep(oracle, w, k, links, ran) && ran.Ran? && World(s.c, st) == w.(st := ran.st);
    EndpointsTaken(oracle, s, k);
    es := [];
    if k in s.c.eps {
      es := EndpointsFinish(oracle, w, s.c.eps[k], [], links, s.(ep := Taken(s.c.eps[k])));
    }
    ExecOne(oracle, s, EpTake(k));
    ExecConcat(oracle, s, [EpTake(k)], es);
  }

  // ---------- whole runs ----------

  /** A change of the cluster, or all turns of one worker from taking a key to being done with it. */
  datatype Block =
    | Changing(e: Event)
    | Syncing(k: NamespaceName, es: seq<Turn>)
    | Refreshing(k: NamespaceName, es: seq<Turn>)
  {
    function Turns(): seq<Turn> {
      match this
      case Changing(e) => [Change(e)]
      case Syncing(k, es) => [SvcTake(k)] + es
      case Refreshing(k, es) => [EpTake(k)] + es
    }

    ghost predicate OneWorker() {
      match this
      case Changing(_) => true
      case Syncing(_, es) => forall i :: 0 <= i < |es| ==> OfService(es[i])
      case Refreshing(_, es) => forall i :: 0 <= i < |es| ==> OfEndpoints(es[i])
    }
  }

  /** The block takes one system with idle workers to another. */
  ghost predicate Passes(oracle: Oracle, s: Sys, b: Block, t: Sys) {
    b.OneWorker() && Exec(oracle, s, b.Turns()) == Some(t) && t.svc == Idle && t.ep == Resting
  }

  /** A run, block by block, in which no two syncs overlap. */
  ghost predicate Serially(oracle: Oracle, bs: seq<Block>, t: Sys) {
    if bs == [] then t == START
    else
      var before, last := bs[..|bs| - 1], bs[|bs| - 1];
      exists u :: Serially(oracle, before, u) && Passes(oracle, u, last, t)
  }

  function Flat(bs: seq<Block>): seq<Turn> {
    if bs == [] then [] else Flat(bs[..|bs| - 1]) + bs[|bs| - 1].Turns()
  }

  /** Such a run is a run of the two workers. */
  lemma {:induction false} SeriallyIsExec(oracle: Oracle, bs: seq<Block>, t: Sys)
    requires Serially(oracle, bs, t)
    ensures Exec(oracle, START, Flat(bs)) == Some(t)
  {
    if bs != [] {
      var n := |bs| - 1;
      var u :| Serially(oracle, bs[..n], u) && Passes(oracle, u, bs[n], t);
      SeriallyIsExec(oracle, bs[..n], u);
      ExecConcat(oracle, START, Flat(bs[..n]), bs[n].Turns());
    }
  }

  ghost predicate RunsTo(oracle: Oracle, w: World) {
    exists ws, es :: Run(oracle, ws, es) && ws[|ws| - 1] == w
  }

  lemma {:induction false} RunsOn(oracle: Oracle, w: World, e: Event, t: World)
    requires RunsTo(oracle, w) && Next(oracle, w, e, t)
    ensures RunsTo(oracle, t)
  {
    var ws, es :| Run(oracle, ws, es) && ws[|ws| - 1] == w;
    var ws', es' := ws + [t], es + [e];
    forall i | 0 <= i < |es'|
      ensures Next(oracle, ws'[i], es'[i], ws'[i + 1])
    {
      assert i < |es| ==> Next(oracle, ws[i], es[i], ws[i + 1]);
    }
    assert Run(oracle, ws', es');
  }

  /** The cluster changes alike in both. */
  lemma {:induction false} ChangesAlike(oracle: Oracle, s: Sys, e: Event, t: Sys)
    requires ClusterInv(s.c) && Step(oracle, s, Change(e)) == Some(t)
    ensures ClusterInv(t.c) && t == s.(c := t.c) && Next(oracle, World(s.c, s.st), e, World(t.c, t.st))
  {
    ChangeIsLater(s.c, e);
  }

  /** A block is a step. */
  lemma {:induction false} BlockIsStep(oracle: Oracle, s: Sys, b: Block, t: Sys) returns (e: Event)
    requires ClusterInv(s.c) && s.svc == Idle && s.ep == Resting && Passes(oracle, s, b, t)
    ensures ClusterInv(t.c) && Next(oracle, World(s.c, s.st), e, World(t.c, t.st))
  {
    match b
    case Changing(change) =>
      ExecOne(oracle, s, Change(change));
      ChangesAlike(oracle, s, change, t);
      e := change;
    case Syncing(k, es) =>
      var order, order2 := ServiceTurnsAreASync(oracle, s, k, es, t);
      e := ServiceKey(k, order, order2);
    case Refreshing(k, es) =>
      var links := EndpointsTurnsAreASync(oracle, s, k, es, t);
      e := EndpointsKey(k, links);
  }

  lemma {:induction false} StartRuns(oracle: Oracle)
    ensures ClusterInv(START.c) && RunsTo(oracle, World(START.c, START.st))
  {
    assert Run(oracle, [World(START.c, START.st)], []);
  }

  lemma {:induction false} SerialIsRun(oracle: Oracle, bs: seq<Block>, t: Sys)
    requires Serially(oracle, bs, t)
    ensures t.svc == Idle && t.ep == Resting && ClusterInv(t.c) && RunsTo(oracle, World(t.c, t.st))
  {
    if bs == [] {
      StartRuns(oracle);
    } else {
      var n := |bs| - 1;
      var u :| Serially(oracle, bs[..n], u) && Passes(oracle, u, bs[n], t);
      SerialIsRun(oracle, bs[..n], u);
      var e := BlockIsStep(oracle, u, bs[n], t);
      RunsOn(oracle, World(u.c, u.st), e, World(t.c, t.st));
    }
  }

  /** Every change that a step makes to the cluster is one the listers can show. */
  lemma {:induction false} ChangeIsTurn(oracle: Oracle, s: Sys, e: Event, t: World)
    requires ClusterInv(s.c) && Next(oracle, World(s.c, s.st), e, t) && !e.ServiceKey? && !e.EndpointsKey?
    ensures Step(oracle, s, Change(e)) == Some(s.(c := t.cluster)) && t.st == s.st
  {
  }

  /** A step is a block. */
  lemma {:induction false} StepIsBlock(oracle: Oracle, s: Sys, e: Event, t: World) returns (b: Block)
    requires ClusterInv(s.c) && s.svc == Idle && s.ep == Resting && Next(oracle, World(s.c, s.st), e, t)
    ensures Passes(oracle, s, b, Sys(t.cluster, t.st, Idle, Resting))
  {
    match e
    case ServiceKey(k, order, order2) =>
      var es := EverySyncIsServiceTurns(oracle, s, k, order, order2, t.st);
      b := Syncing(k, es);
    case EndpointsKey(k, links) =>
      var es := EverySyncIsEndpointsTurns(oracle, s, k, links, t.st);
      b := Refreshing(k, es);
    case _ =>
      b := Changing(e);
      ChangeIsTurn(oracle, s, e, t);
      ExecOne(oracle, s, Change(e));
  }

  lemma {:induction false} RunIsSerial(oracle: Oracle, ws: seq<World>, es: seq<Event>, i: nat) returns (bs: seq<Block>)
    requires Run(oracle, ws, es) && i < |ws|
    ensures Serially(oracle, bs, Sys(ws[i].cluster, ws[i].st, Idle, Resting)) && ClusterInv(ws[i].cluster)
  {
    if i == 0 {
      bs := [];
      StartRuns(oracle);
    } else {
      var before := RunIsSerial(oracle, ws, es, i - 1);
      var u := Sys(ws[i - 1].cluster, ws[i - 1].st, Idle, Resting);
      var t := Sys(ws[i].cluster, ws[i].st, Idle, Resting);
      assert Next(oracle, ws[i - 1], es[i - 1], ws[i - 1 + 1]);
      var b := StepIsBlock(oracle, u, es[i - 1], ws[i]);
      bs := before + [b];
      assert bs[..|bs| - 1] == before;
      SerialIsRun(oracle, bs, t);
    }
  }

  /** The two workers come to that world without two syncs ever overlapping. */
  ghost predicate WorkersReach(oracle: Oracle, w: World) {
    exists bs :: Serially(oracle, bs, Sys(w.cluster, w.st, Idle, Resting))
  }

  /**
   * The worlds that sequential runs come to are exactly those that the two workers come to when no two of their syncs
   * overlap: each theorem about sequential runs holds of such runs of the workers, and tells of nothing else.
   */
  lemma {:induction false} SequentialExactly(oracle: Oracle, w: World)
    ensures RunsTo(oracle, w) <==> WorkersReach(oracle, w)
  {
    if RunsTo(oracle, w) {
      var ws, es :| Run(oracle, ws, es) && ws[|ws| - 1] == w;
      var bs := RunIsSerial(oracle, ws, es, |ws| - 1);
    }
    if WorkersReach(oracle, w) {
      var bs :| Serially(oracle, bs, Sys(w.cluster, w.st, Idle, Resting));
      SerialIsRun(oracle, bs, Sys(w.cluster, w.st, Idle, Resting));
      assert World(w.cluster, w.st) == w;
    }
  }
}
