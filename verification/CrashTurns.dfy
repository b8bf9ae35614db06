/** Which turns can take the process down while the two workers never hold the same key, and on what input. */
module CrashTurns {
  import opened Wrappers
  import opened Model
  import opened PoolNames
  import opened Rest
  import opened Pools
  import opened VirtualServices
  import opened Sync
  import opened Effects
  import opened Runs
  import opened Crashes
  import opened Interleaving
  import opened Separation

  // ---------- whose turn it is ----------

  /** The Service worker is at the point where `e` is what it does next. */
  ghost predicate SvcReady(c: Cluster, job: SvcJob, e: Turn) {
    match e
    case SvcTake(_) => job.Idle?
    case SvcLook => job.Chosen?
    case SvcCheck => job.Looked?
    case SvcNames(order) =>
      job.Checked? && (job.svc.Key() in c.svcs ==>
                         var r := Resolve(c.svcs[job.svc.Key()], ReadyPorts(job.e.subsets));
                         r.Found? ==> Enumerates(order, r.pps))
    case SvcBuild => job.Naming? && job.n < |job.names|
    case SvcVs(order2) => job.Naming? && job.n >= |job.names| && Enumerates(order2, MetaOf(job.svc, []).poolMap.Keys)
    case SvcSend => job.Sending? && |job.results| < |job.ops|
    case SvcUndo => job.Undoing? && |job.ops| == |job.results|
    case SvcFill => job.Filling?
    case SvcGet => job.Absent?
    case SvcMacro => job.Doomed?
    case SvcRange => job.Erased?
    case SvcDrop(link) => job.Dropping? && link in job.todo
    case SvcDropped => job.Dropping? && job.todo == {}
    case SvcUnlink(link) => job.Unlinking? && link in job.todo
    case SvcForget => job.Unlinking? && job.todo == {}
    case _ => false
  }

  /** The Endpoints worker is at the point where `e` is what it does next. */
  ghost predicate EpReady(st: State, job: EpJob, e: Turn) {
    match e
    case EpTake(_) => job.Resting?
    case EpLook => job.Taken?
    case EpRange => job.Ready?
    case EpLink(link) => job.Ranging? && link !in job.seen && (job.e.Key(), link) in st.links
    case EpRanged => job.Ranging? && job.start <= job.seen
    case EpBuild => job.Building? && job.n < |job.names|
    case EpPost => job.Building? && job.n >= |job.names|
    case EpSend => job.Posting?
    case EpCache => job.Caching?
    case _ => false
  }

  // ---------- the input that trips it ----------

  /** A name printed for the service on which the parser panics. */
  ghost predicate TripsOn(service: string, name: string) {
    exists port, protocol :: name == Print(service, port, protocol) && Panics(service, port, protocol)
  }

  ghost predicate SvcTrips(c: Cluster, job: SvcJob, e: Turn)
    requires SvcReady(c, job, e)
  {
    || (e.SvcNames? && job.svc.Key() in c.svcs && NoPortToTake(c.svcs[job.svc.Key()], job.e))
    || (e.SvcBuild? && TripsOn(job.svc.name, job.names[job.n]))
  }

  ghost predicate EpTrips(c: Cluster, st: State, job: EpJob, e: Turn)
    requires EpReady(st, job, e)
  {
    e.EpLook? && job.e.Key() in c.svcs && NoPortToTake(c.svcs[job.e.Key()], job.e)
  }

  /** For a name of the service, tripping is the parser's panic. */
  lemma {:induction false} TripsIsPanic(service: string, name: string)
    requires OwnedBy(service, name)
    ensures TripsOn(service, name) <==> Parse(name) == Panic
  {
    var port, protocol :| CleanPort(port) && CleanWord(protocol) && name == Print(service, port, protocol);
    PanicsExactly(service, port, protocol);
    if TripsOn(service, name) {
      var port', protocol' :| name == Print(service, port', protocol') && Panics(service, port', protocol');
      PanicsExactly(service, port', protocol');
    }
  }

  // ---------- the Service worker ----------

  lemma {:induction false} NamesTurns(c: Cluster, st: State, job: SvcJob, order: seq<PortProtocol>)
    requires SvcReady(c, job, SvcNames(order))
    ensures NamesTurn(c, st, job, order).None? <==> SvcTrips(c, job, SvcNames(order))
  {
    if job.svc.Key() in c.svcs {
      ResolveCrashes(c.svcs[job.svc.Key()], ReadyPorts(job.e.subsets));
    }
  }

  /** A pool of a key in order whose name cannot be read back is not cached. */
  lemma {:induction false} UnreadableNotCached(c: Cluster, st: State, k: NamespaceName, e: Endpoints, name: string)
    requires LinksInv(st.links) && KeyInv(c, st, k) && e.ns == k.ns && OwnedBy(k.name, name) && Parse(name) == Panic
    ensures Stale(st.pools, e, name)
  {
    if NamespaceName(k.ns, name) in st.pools {
      CachedCanBeRead(c, st, k, name);
    }
  }

  lemma {:induction false} CachedCanBeRead(c: Cluster, st: State, k: NamespaceName, name: string)
    requires LinksInv(st.links) && KeyInv(c, st, k) && OwnedBy(k.name, name) && NamespaceName(k.ns, name) in st.pools
    ensures Parse(name).Ok?
  {
    assert Owned(k, NamespaceName(k.ns, name));
    LinkTail(name);
    assert GoodLink((k, Link(name)));
  }

  lemma {:induction false} BuildPanics(pools: PoolMap, e: Endpoints, hash: string, name: string, ops: seq<Request>)
    ensures BuildOne(pools, e, hash, name, ops).None? <==> Stale(pools, e, name) && Parse(name) == Panic
  {
  }

  lemma {:induction false} BuildTurnPanics(c: Cluster, st: State, job: SvcJob)
    requires SvcReady(c, job, SvcBuild) && SvcOk(c, job) && LinksInv(st.links) && KeyInv(c, st, job.svc.Key())
    ensures BuildTurn(st, job).None? <==> SvcTrips(c, job, SvcBuild)
  {
    var k, name := job.svc.Key(), job.names[job.n];
    BuildPanics(st.pools, job.e, CrudHashKey(k), name, job.ops);
    TripsIsPanic(k.name, name);
    if Parse(name) == Panic {
      UnreadableNotCached(c, st, k, job.e, name);
    }
  }

  lemma {:induction false} UndoSurvives(oracle: Oracle, c: Cluster, st: State, job: SvcJob)
    requires SvcReady(c, job, SvcUndo) && SvcOk(c, job)
    ensures UnsendTurn(oracle, st, job).Some?
  {
    if job.ops != [] {
      UndoEchoed(job.ops[|job.ops| - 1], job.results[|job.ops| - 1]);
    }
  }

  lemma {:induction false} VsAdds(st: State, k: NamespaceName, req: Request, r: Result)
    requires req.model == "VirtualService" && req.obj.VsObj? && Echoed(req, r)
    ensures AddVss(st.vss, req.tenant, Elems(r.resp, "virtualservice")).Some?
  {
    var entry := FillVs(st, k, req, r);
    assert |"Pool"| != |"VirtualService"|;
  }

  lemma {:induction false} FillSurvives(c: Cluster, st: State, job: SvcJob)
    requires SvcReady(c, job, SvcFill) && SvcOk(c, job)
    ensures CacheTurn(st, job).Some?
  {
    if job.n < |job.ops| {
      var k, req, r := job.svc.Key(), job.ops[job.n], job.results[job.n];
      PoolModelOnly(job.e, k, job.ops, job.pools, job.n);
      if req.model == "Pool" {
        var entry := EchoedPool(req, r, st.pools, st.links, k);
      } else if req.model == "VirtualService" {
        OnlyVsModel(job.e, k, job.ops, job.pools, job.n);
        VsAdds(st, k, req, r);
      }
    }
  }

  lemma {:induction false} OnlyVsModel(e: Endpoints, k: NamespaceName, ops: seq<Request>, m: nat, n: nat)
    requires BatchFor(e, k, ops, m) && n < |ops| && ops[n].model == "VirtualService"
    ensures ops[n].obj.VsObj?
  {
    assert |"VirtualService"| != |"Pool"| && |"VirtualService"| != |"HTTPRequestPolicy"|;
  }

  lemma {:induction false} DropSurvives(oracle: Oracle, c: Cluster, st: State, job: SvcJob, link: string)
    requires SvcReady(c, job, SvcDrop(link)) && SvcOk(c, job) && LinksInv(st.links) && SvcFacts(oracle, c, st, job)
    ensures DropTurn(st, job, link).Some?
  {
    assert (job.k, link) in st.links;
    LinkOf(st, job.k, link);
  }

  /** Every turn of the Service worker but these two succeeds, whatever the other worker does. */
  lemma {:induction false} SvcPanicsExactly(oracle: Oracle, s: Sys, e: Turn)
    requires SepInv(oracle, s) && SvcReady(s.c, s.svc, e)
    ensures SvcStep(oracle, s.c, s.st, s.svc, e).None? <==> SvcTrips(s.c, s.svc, e)
  {
    match e
    case SvcNames(order) => NamesTurns(s.c, s.st, s.svc, order);
    case SvcBuild => BuildTurnPanics(s.c, s.st, s.svc);
    case SvcUndo => UndoSurvives(oracle, s.c, s.st, s.svc);
    case SvcFill => FillSurvives(s.c, s.st, s.svc);
    case SvcDrop(link) => DropSurvives(oracle, s.c, s.st, s.svc, link);
    case _ =>
  }

  // ---------- the Endpoints worker ----------

  lemma {:induction false} LookPanics(oracle: Oracle, c: Cluster, st: State, job: EpJob)
    requires EpReady(st, job, EpLook)
    ensures EpStep(oracle, c, st, job, EpLook).None? <==> EpTrips(c, st, job, EpLook)
  {
    if job.e.Key() in c.svcs {
      ResolveCrashes(c.svcs[job.e.Key()], ReadyPorts(job.e.subsets));
    }
  }

  lemma {:induction false} EpBuildSurvives(c: Cluster, st: State, job: EpJob)
    requires EpReady(st, job, EpBuild) && LinksInv(st.links) && EpFacts(c, st, job)
    ensures BuildOne(st.pools, job.e, job.hash, job.names[job.n], job.ops).Some?
  {
    var name := job.names[job.n];
    BuildPanics(st.pools, job.e, job.hash, name, job.ops);
    LinkTail(name);
    assert GoodLink((job.e.Key(), Link(name)));
  }

  lemma {:induction false} EpCacheSurvives(c: Cluster, st: State, job: EpJob)
    requires EpReady(st, job, EpCache) && EpFacts(c, st, job)
    ensures EpCacheTurn(st, job).Some?
  {
    if job.n < |job.ops| {
      var req := job.ops[job.n];
      assert GoodReq(job.e, job.e.Key(), req);
      var entry := EchoedPool(req, job.results[job.n], st.pools, {}, job.e.Key());
    }
  }

  /** Every turn of the Endpoints worker but one succeeds. */
  lemma {:induction false} EpPanicsExactly(oracle: Oracle, s: Sys, e: Turn)
    requires SepInv(oracle, s) && EpReady(s.st, s.ep, e)
    ensures EpStep(oracle, s.c, s.st, s.ep, e).None? <==> EpTrips(s.c, s.st, s.ep, e)
  {
    match e
    case EpLook => LookPanics(oracle, s.c, s.st, s.ep);
    case EpLink(link) => LinkOf(s.st, s.ep.e.Key(), link);
    case EpBuild => EpBuildSurvives(s.c, s.st, s.ep);
    case EpCache => EpCacheSurvives(s.c, s.st, s.ep);
    case _ =>
  }

  // ---------- in every run ----------

  /** A worker takes only turns it is ready for. */
  lemma {:induction false} SvcTakesReady(oracle: Oracle, c: Cluster, st: State, job: SvcJob, e: Turn)
    ensures SvcStep(oracle, c, st, job, e).Some? ==> SvcReady(c, job, e)
  {
  }

  lemma {:induction false} EpTakesReady(oracle: Oracle, c: Cluster, st: State, job: EpJob, e: Turn)
    ensures EpStep(oracle, c, st, job, e).Some? ==> EpReady(st, job, e)
  {
  }

  lemma {:induction false} OneWorker(oracle: Oracle, s: Sys, e: Turn)
    ensures SvcReady(s.c, s.svc, e) ==> !e.Change? && EpStep(oracle, s.c, s.st, s.ep, e).None?
    ensures EpReady(s.st, s.ep, e) ==> !e.Change? && SvcStep(oracle, s.c, s.st, s.svc, e).None?
  {
  }

  /**
   * While the two workers never hold the same key, a turn that a worker is ready for takes the process down if and only
   * if it resolves an unnamed endpoint port against a Service without ports, or, on the Service worker, reads back a
   * pool name on which the parser panics. Workers take no other turns than those they are ready for.
   */
  lemma {:induction false} TurnsPanicExactly(oracle: Oracle, es: seq<Turn>, e: Turn)
    requires Faithful(oracle) && FreshUuids(oracle) && StayApart(oracle, es) && Exec(oracle, START, es).Some?
    ensures var s := Exec(oracle, START, es).value;
      && (SvcReady(s.c, s.svc, e) ==> (Step(oracle, s, e).None? <==> SvcTrips(s.c, s.svc, e)))
      && (EpReady(s.st, s.ep, e) ==> (Step(oracle, s, e).None? <==> EpTrips(s.c, s.st, s.ep, e)))
      && (Step(oracle, s, e).Some? ==> e.Change? || SvcReady(s.c, s.svc, e) || EpReady(s.st, s.ep, e))
  {
    ExecSeparate(oracle, es);
    var s := Exec(oracle, START, es).value;
    OneWorker(oracle, s, e);
    SvcTakesReady(oracle, s.c, s.st, s.svc, e);
    EpTakesReady(oracle, s.c, s.st, s.ep, e);
    if SvcReady(s.c, s.svc, e) {
      SvcPanicsExactly(oracle, s, e);
    } else if EpReady(s.st, s.ep, e) {
      EpPanicsExactly(oracle, s, e);
    }
  }
}
