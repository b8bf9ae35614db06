/**
 * Services on one worker, Endpoints on the other. Every lister read, every cache operation and every request is a turn
 * of its own, and the cluster may change between any two turns.
 */
module Interleaving {
  import opened Wrappers
  import opened Model
  import opened Rest
  import opened Pools
  import opened VirtualServices
  import opened Caches
  import opened Sync
  import opened Effects
  import opened Runs

  // ---------- the two workers ----------

  /** What the Service worker is doing; `results` are those of the operations sent so far. */
  datatype SvcJob =
    | Idle
    | Chosen(svc: Service)
    | Looked(svc: Service, e: Endpoints)
    | Checked(svc: Service, e: Endpoints)
    | Naming(svc: Service, e: Endpoints, names: seq<string>, n: nat, ops: seq<Request>)
    | Sending(svc: Service, e: Endpoints, ops: seq<Request>, pools: nat, results: seq<Result>)
    | Undoing(svc: Service, e: Endpoints, ops: seq<Request>, results: seq<Result>)
    | Filling(svc: Service, e: Endpoints, ops: seq<Request>, pools: nat, results: seq<Result>, n: nat, half: bool)
    | Absent(k: NamespaceName)
    | Doomed(k: NamespaceName)
    | Erased(k: NamespaceName)
    | Dropping(k: NamespaceName, todo: set<string>)
    | Unlinking(k: NamespaceName, todo: set<string>)
  {
    /** The key the worker holds. */
    function Key(): Option<NamespaceName> {
      match this
      case Idle => None
      case Absent(k) => Some(k)
      case Doomed(k) => Some(k)
      case Erased(k) => Some(k)
      case Dropping(k, _) => Some(k)
      case Unlinking(k, _) => Some(k)
      case _ => Some(svc.Key())
    }
  }

  datatype EpJob =
    | Resting
    | Taken(e: Endpoints)
    | Ready(e: Endpoints)
    | Ranging(e: Endpoints, start: set<string>, seen: set<string>, names: seq<string>, hash: string)
    | Building(e: Endpoints, names: seq<string>, hash: string, n: nat, ops: seq<Request>)
    | Posting(e: Endpoints, ops: seq<Request>, results: seq<Result>)
    | Caching(e: Endpoints, ops: seq<Request>, results: seq<Result>, n: nat)
  {
    function Key(): Option<NamespaceName> {
      if Resting? then None else Some(e.Key())
    }
  }

  datatype Sys = Sys(c: Cluster, st: State, svc: SvcJob, ep: EpJob)

  datatype Turn =
    | Change(e: Event)                   // the listers see a change
    | SvcTake(k: NamespaceName)          // a Service key comes off the queue and is looked up
    | SvcLook                            // its Endpoints are looked up
    | SvcCheck                           // its version is compared with the cached virtual service
    | SvcNames(order: seq<PortProtocol>) // the Service is looked up again and its ready ports are named
    | SvcBuild                           // one pool name: the pool cache is read, an operation may be built
    | SvcVs(order2: seq<ListenerKey>)    // the operations of the virtual service are built
    | SvcSend                            // one request of the batch
    | SvcUndo                            // one operation of a failed batch is undone
    | SvcFill                            // one cache operation after a batch that went through
    | SvcGet                             // the virtual service of a missing Service is looked up by name
    | SvcMacro                           // and deleted
    | SvcRange                           // the links of the key are read
    | SvcDrop(link: string)              // the pool behind one of them is dropped from the pool cache
    | SvcDropped                         // all of them have been visited; the links are read again
    | SvcUnlink(link: string)            // one link is deleted
    | SvcForget                          // the virtual service entry is deleted
    | EpTake(k: NamespaceName)           // an Endpoints key comes off the queue and is looked up
    | EpLook                             // its Service is looked up and its ready ports are resolved
    | EpRange                            // the links of the key are read
    | EpLink(link: string)               // one of them is visited, and the pool behind it looked up
    | EpRanged                           // all of them have been visited
    | EpBuild                            // one pool name: the pool cache is read, an operation may be built
    | EpPost                             // the batch is complete
    | EpSend                             // one request of the batch
    | EpCache                            // one cache operation

  // ---------- turns of the Service worker ----------

  ghost function SvcStep(oracle: Oracle, c: Cluster, st: State, job: SvcJob, e: Turn): Option<(State, SvcJob)> {
    match e
    case SvcTake(k) =>
      if !job.Idle? then None else if k in c.svcs then Some((st, Chosen(c.svcs[k]))) else Some((st, Absent(k)))
    case SvcLook =>
      if !job.Chosen? then None
      else if job.svc.Key() in c.eps then Some((st, Looked(job.svc, c.eps[job.svc.Key()])))
      else Some((st, Idle))
    case SvcCheck =>
      if !job.Looked? then None
      else Some((st, if UpToDate(st.vss, job.svc) then Idle else Checked(job.svc, job.e)))
    case SvcNames(order) => NamesTurn(c, st, job, order)
    case SvcBuild => BuildTurn(st, job)
    case SvcVs(order2) =>
      if !job.Naming? || job.n < |job.names| || !Enumerates(order2, MetaOf(job.svc, []).poolMap.Keys) then None
      else Some((st, Sending(job.svc, job.e, job.ops + VsOps(MetaOf(job.svc, job.ops), order2), |job.ops|, [])))
    case SvcSend => SendTurn(oracle, st, job)
    case SvcUndo => UnsendTurn(oracle, st, job)
    case SvcFill => CacheTurn(st, job)
    case SvcGet => GetTurn(oracle, st, job)
    case SvcMacro => MacroTurn(oracle, st, job)
    case SvcRange => if job.Erased? then Some((st, Dropping(job.k, ValuesOf(st.links, job.k)))) else None
    case SvcDrop(link) => DropTurn(st, job, link)
    case SvcDropped =>
      if job.Dropping? && job.todo == {} then Some((st, Unlinking(job.k, ValuesOf(st.links, job.k)))) else None
    case SvcUnlink(link) => UnlinkTurn(st, job, link)
    case SvcForget =>
      if job.Unlinking? && job.todo == {} then Some((st.(vss := st.vss - {job.k}), Idle)) else None
    case _ => None
  }

  /** A Service that is no longer listed, or whose ports do not match, has no pools; one without ports panics. */
  ghost function NamesTurn(c: Cluster, st: State, job: SvcJob, order: seq<PortProtocol>): Option<(State, SvcJob)> {
    if !job.Checked? then None
    else
      var k := job.svc.Key();
      if k !in c.svcs then Some((st, Naming(job.svc, job.e, [], 0, [])))
      else match Resolve(c.svcs[k], ReadyPorts(job.e.subsets))
        case Crashed => None
        case NotFound => Some((st, Naming(job.svc, job.e, [], 0, [])))
        case Found(pps) =>
          if Enumerates(order, pps) then Some((st, Naming(job.svc, job.e, NamesOf(job.svc.name, order), 0, [])))
            else None
  }

  /** One pool name: skipped, or turned into an operation; None is an index panic. */
  function BuildOne(pools: PoolMap, e: Endpoints, hash: string, name: string, ops: seq<Request>): Option<seq<Request>> {
    if !Stale(pools, e, name) then Some(ops)
    else match PoolOf(e, hash, name)
      case None => None
      case Some(pool) => Some(ops + [PoolRequest(pool)])
  }

  ghost function BuildTurn(st: State, job: SvcJob): Option<(State, SvcJob)> {
    if !job.Naming? || job.n >= |job.names| then None
    else match BuildOne(st.pools, job.e, CrudHashKey(job.svc.Key()), job.names[job.n], job.ops)
      case None => None
      case Some(ops) => Some((st, Naming(job.svc, job.e, job.names, job.n + 1, ops)))
  }

  ghost function SendTurn(oracle: Oracle, st: State, job: SvcJob): Option<(State, SvcJob)> {
    if !job.Sending? || |job.results| >= |job.ops| then None
    else
      var (r, net) := SendOne(oracle, st.net, job.ops[|job.results|]);
      var results := job.results + [r];
      if r.Failed? then
        Some((st.(net := net), Undoing(job.svc, job.e, job.ops[..|job.results|], job.results)))
      else if |results| == |job.ops| then
        Some((st.(net := net), Filling(job.svc, job.e, job.ops, job.pools, results, 0, false)))
      else Some((st.(net := net), Sending(job.svc, job.e, job.ops, job.pools, results)))
  }

  ghost function UnsendTurn(oracle: Oracle, st: State, job: SvcJob): Option<(State, SvcJob)> {
    if !job.Undoing? || |job.ops| != |job.results| then None
    else if job.ops == [] then Some((st, Idle))
    else
      var n := |job.ops| - 1;
      var rest := Undoing(job.svc, job.e, job.ops[..n], job.results[..n]);
      match UndoOf(job.ops[n], job.results[n])
      case Crash => None
      case Skip => Some((st, rest))
      case DeleteAt(url) => Some((st.(net := EraseOne(oracle, st.net, url)), rest))
  }

  /** The pool goes into its cache first; the link follows in a turn of its own. */
  ghost function CacheTurn(st: State, job: SvcJob): Option<(State, SvcJob)> {
    if !job.Filling? then None
    else if job.n >= |job.ops| || job.n >= |job.results| then Some((st, Idle))
    else
      var req, r := job.ops[job.n], job.results[job.n];
      var next := Filling(job.svc, job.e, job.ops, job.pools, job.results, job.n + 1, false);
      if r.Failed? then Some((st, next))
      else if req.model == "Pool" then
        if job.half then Some((st.(links := AddLinks(st.links, job.svc.Key(), Elems(r.resp, "pool"))), next))
        else match AddPools(st.pools, req.tenant, Elems(r.resp, "pool"))
          case None => None
          case Some(pools) =>
            Some((st.(pools := pools), Filling(job.svc, job.e, job.ops, job.pools, job.results, job.n, true)))
      else if req.model == "VirtualService" then
        match AddVss(st.vss, req.tenant, Elems(r.resp, "virtualservice"))
        case None => None
        case Some(vss) => Some((st.(vss := vss), next))
      else Some((st, next))
  }

  ghost function GetTurn(oracle: Oracle, st: State, job: SvcJob): Option<(State, SvcJob)> {
    if !job.Absent? then None
    else
      var t := st.(net := st.net.(clock := st.net.clock + 1));
      Some((t, if Fate(oracle, st.net.clock).verdict.Failure? then Idle else Doomed(job.k)))
  }

  ghost function MacroTurn(oracle: Oracle, st: State, job: SvcJob): Option<(State, SvcJob)> {
    if !job.Doomed? then None
    else
      var del := Fate(oracle, st.net.clock);
      var remote := if del.Applied() then EraseService(st.net.remote, job.k, del.gone) else st.net.remote;
      Some((st.(net := Net(remote, st.net.clock + 1)), Erased(job.k)))
  }

  ghost function DropTurn(st: State, job: SvcJob, link: string): Option<(State, SvcJob)> {
    if !job.Dropping? || link !in job.todo then None
    else
      var rest := Dropping(job.k, job.todo - {link});
      if Prefix(link) != "service" then Some((st, rest))
      else match PoolIn(link)
        case None => None
        case Some(p) => Some((st.(pools := st.pools - {NamespaceName(job.k.ns, p)}), rest))
  }

  ghost function UnlinkTurn(st: State, job: SvcJob, link: string): Option<(State, SvcJob)> {
    if !job.Unlinking? || link !in job.todo then None
    else
      var rest := Unlinking(job.k, job.todo - {link});
      Some((if Prefix(link) == "service" then st.(links := st.links - {(job.k, link)}) else st, rest))
  }

  // ---------- turns of the Endpoints worker ----------

  ghost function EpStep(oracle: Oracle, c: Cluster, st: State, job: EpJob, e: Turn): Option<(State, EpJob)> {
    match e
    case EpTake(k) =>
      if !job.Resting? then None else Some((st, if k in c.eps then Taken(c.eps[k]) else Resting))
    case EpLook =>
      if !job.Taken? then None
      else if job.e.Key() !in c.svcs then Some((st, Resting))
      else (match Resolve(c.svcs[job.e.Key()], ReadyPorts(job.e.subsets))
        case Crashed => None
        case NotFound => Some((st, Resting))
        case Found(_) => Some((st, Ready(job.e))))
    case EpRange =>
      if !job.Ready? then None
      else
        var start := ValuesOf(st.links, job.e.Key());
        Some((st, if start == {} then Resting else Ranging(job.e, start, {}, [], "")))
    case EpLink(link) => LinkTurn(st, job, link)
    case EpRanged =>
      if !job.Ranging? || !(job.start <= job.seen) then None
      else Some((st, Building(job.e, job.names, job.hash, 0, [])))
    case EpBuild =>
      if !job.Building? || job.n >= |job.names| then None
      else (match BuildOne(st.pools, job.e, job.hash, job.names[job.n], job.ops)
        case None => None
        case Some(ops) => Some((st, Building(job.e, job.names, job.hash, job.n + 1, ops))))
    case EpPost =>
      if !job.Building? || job.n < |job.names| then None else Some((st, Posting(job.e, job.ops, [])))
    case EpSend => EpSendTurn(oracle, st, job)
    case EpCache => EpCacheTurn(st, job)
    case _ => None
  }

  ghost function LinkTurn(st: State, job: EpJob, link: string): Option<(State, EpJob)> {
    if !job.Ranging? || link in job.seen || (job.e.Key(), link) !in st.links then None
    else match PoolIn(link)
      case None => None
      case Some(p) =>
        var q := NamespaceName(job.e.ns, p);
        Some((st, Ranging(job.e, job.start, job.seen + {link}, job.names + [p],
                          if q in st.pools then st.pools[q].crudHashKey else job.hash)))
  }

  ghost function EpSendTurn(oracle: Oracle, st: State, job: EpJob): Option<(State, EpJob)> {
    if !job.Posting? then None
    else if |job.results| >= |job.ops| then Some((st, Caching(job.e, job.ops, job.results, 0)))
    else
      var (r, net) := SendOne(oracle, st.net, job.ops[|job.results|]);
      if r.Failed? then Some((st.(net := net), Caching(job.e, job.ops[..|job.results|], job.results, 0)))
      else Some((st.(net := net), Posting(job.e, job.ops, job.results + [r])))
  }

  ghost function EpCacheTurn(st: State, job: EpJob): Option<(State, EpJob)> {
    if !job.Caching? then None
    else if job.n >= |job.ops| || job.n >= |job.results| then Some((st, Resting))
    else if job.results[job.n].Failed? then Some((st, Caching(job.e, job.ops, job.results, job.n + 1)))
    else match AddPools(st.pools, job.ops[job.n].tenant, Elems(job.results[job.n].resp, "pool"))
      case None => None
      case Some(pools) => Some((st.(pools := pools), Caching(job.e, job.ops, job.results, job.n + 1)))
  }

  // ---------- runs ----------

  /** A change of the cluster; versions are never used twice. */
  ghost function Changed(c: Cluster, e: Event): Option<Cluster> {
    match e
    case PutService(svc) =>
      if !CleanService(svc) || svc.version in c.svcLog then None
      else Some(c.(svcs := c.svcs[svc.Key() := svc], svcLog := c.svcLog[svc.version := svc]))
    case DropService(k) => Some(c.(svcs := c.svcs - {k}))
    case PutEndpoints(ep) =>
      if !CleanEndpoints(ep) || ep.version in c.epLog then None
      else Some(c.(eps := c.eps[ep.Key() := ep], epLog := c.epLog[ep.version := ep]))
    case DropEndpoints(k) => Some(c.(eps := c.eps - {k}))
    case _ => None
  }

  /**
   * A range over a live map has to visit the entries that are there all along. One that is deleted meanwhile need not
   * be
   * visited, and if it is added again, it may be skipped or visited, once more even.
   */
  ghost function StillThere(links: Relation, job: EpJob): EpJob {
    if job.Ranging? then
      var now := ValuesOf(links, job.e.Key());
      Ranging(job.e, job.start * now, job.seen * now, job.names, job.hash)
    else job
  }

  /** One turn of anyone; None when it is not its turn to do this, or it panics. */
  ghost function Step(oracle: Oracle, s: Sys, e: Turn): Option<Sys> {
    if e.Change? then
      match Changed(s.c, e.e)
      case None => None
      case Some(c) => Some(s.(c := c))
    else
      match SvcStep(oracle, s.c, s.st, s.svc, e)
      case Some(p) => Some(s.(st := p.0, svc := p.1, ep := StillThere(p.0.links, s.ep)))
      case None =>
        match EpStep(oracle, s.c, s.st, s.ep, e)
        case Some(p) => Some(s.(st := p.0, ep := p.1))
        case None => None
  }

  /** The system after a list of turns. */
  ghost function Exec(oracle: Oracle, s: Sys, es: seq<Turn>): Option<Sys> {
    if es == [] then Some(s)
    else
      var n := |es| - 1;
      match Exec(oracle, s, es[..n])
      case None => None
      case Some(t) => Step(oracle, t, es[n])
  }

  const START :=
    Sys(Cluster(map[], map[], map[], map[]), State(map[], map[], {}, Net(Remote(map[], map[]), 0)), Idle, Resting)

  // ---------- what the Service worker carries ----------

  /** Endpoints of `k` that the listers have shown. */
  ghost predicate Shown(c: Cluster, k: NamespaceName, e: Endpoints) {
    e.Key() == k && CleanEndpoints(e) && e.version in c.epLog && c.epLog[e.version] == e
  }

  ghost predicate DistinctPools(ops: seq<Request>, m: nat)
    requires m <= |ops| && forall i :: 0 <= i < m ==> ops[i].obj.PoolObj?
  {
    forall i, j :: 0 <= i < j < m ==> PoolKey(ops[i]) != PoolKey(ops[j])
  }

  /** Operations built from the first names. */
  ghost predicate BuiltFor(e: Endpoints, k: NamespaceName, names: seq<string>, n: nat, ops: seq<Request>) {
    && n <= |names| && NoDup(names) && (forall i :: 0 <= i < |names| ==> OwnedBy(k.name, names[i]))
    && (forall i :: 0 <= i < |ops| ==> GoodReq(e, k, ops[i]) && ops[i].obj.pool.name in names[..n])
    && DistinctPools(ops, |ops|)
  }

  /** A batch with its pools first. */
  ghost predicate BatchFor(e: Endpoints, k: NamespaceName, ops: seq<Request>, m: nat) {
    && ServiceBatch(ops, m) && (forall i :: 0 <= i < m ==> GoodReq(e, k, ops[i]))
    && DistinctPools(ops, m)
  }

  ghost predicate AllEchoed(ops: seq<Request>, results: seq<Result>) {
    |results| <= |ops| && forall i :: 0 <= i < |results| ==> Echoed(ops[i], results[i])
  }

  /** The part of a batch that is undone: pools, and possibly a policy set. */
  ghost predicate UndoFor(e: Endpoints, k: NamespaceName, ops: seq<Request>) {
    forall i :: 0 <= i < |ops| ==> GoodReq(e, k, ops[i]) || ops[i].model == "HTTPRequestPolicy"
  }

  ghost predicate SvcOk(c: Cluster, job: SvcJob) {
    match job
    case Chosen(svc) => CleanService(svc)
    case Looked(svc, e) => CleanService(svc) && Shown(c, svc.Key(), e)
    case Checked(svc, e) => CleanService(svc) && Shown(c, svc.Key(), e)
    case Naming(svc, e, names, n, ops) =>
      CleanService(svc) && Shown(c, svc.Key(), e) && BuiltFor(e, svc.Key(), names, n, ops)
    case Sending(svc, e, ops, m, results) =>
      CleanService(svc) && Shown(c, svc.Key(), e) && BatchFor(e, svc.Key(), ops, m) && AllEchoed(ops, results)
    case Undoing(svc, e, ops, results) =>
      && CleanService(svc) && Shown(c, svc.Key(), e) && UndoFor(e, svc.Key(), ops)
      && |ops| == |results| && AllEchoed(ops, results)
    case Filling(svc, e, ops, m, results, n, half) =>
      && CleanService(svc) && Shown(c, svc.Key(), e) && BatchFor(e, svc.Key(), ops, m)
      && |ops| == |results| && AllEchoed(ops, results) && (half ==> n < m)
    case _ => true
  }

  lemma {:induction false} NamesOk(c: Cluster, st: State, job: SvcJob, order: seq<PortProtocol>)
    requires ClusterInv(c) && SvcOk(c, job) && NamesTurn(c, st, job, order).Some?
    ensures SvcOk(c, NamesTurn(c, st, job, order).value.1)
  {
    var k := job.svc.Key();
    if k in c.svcs && Resolve(c.svcs[k], ReadyPorts(job.e.subsets)).Found? {
      CleanNames(c.svcs[k], job.e, order);
    }
  }

  lemma {:induction false} BuildOneOk(pools: PoolMap, e: Endpoints, k: NamespaceName, names: seq<string>, n: nat,
                                      ops: seq<Request>)
    requires e.Key() == k && n < |names| && BuiltFor(e, k, names, n, ops)
    ensures var f := BuildOne(pools, e, CrudHashKey(k), names[n], ops);
      f.Some? ==> BuiltFor(e, k, names, n + 1, f.value)
  {
    assert names[..n + 1] == names[..n] + [names[n]];
    forall i | 0 <= i < |ops|
      ensures ops[i].obj.pool.name != names[n]
    {
      var j :| 0 <= j < n && names[..n][j] == ops[i].obj.pool.name;
      assert names[j] != names[n];
    }
  }

  lemma {:induction false} VsOk(svc: Service, e: Endpoints, names: seq<string>, n: nat, ops: seq<Request>,
                                order2: seq<ListenerKey>)
    requires e.Key() == svc.Key() && BuiltFor(e, svc.Key(), names, n, ops)
    ensures BatchFor(e, svc.Key(), ops + VsOps(MetaOf(svc, ops), order2), |ops|)
  {
    VsOpsShape(svc, ops, order2);
    forall i | 0 <= i < |ops|
      ensures ops[i].verb == Post && ops[i].model == "Pool" && ops[i].obj.PoolObj?
    {
      GoodReqFields(e, svc.Key(), ops[i]);
    }
    JoinedShape(svc, ops, VsOps(MetaOf(svc, ops), order2));
  }

  lemma {:induction false} EchoedSend(oracle: Oracle, net: Net, req: Request)
    requires Faithful(oracle) && SendOne(oracle, net, req).0.Succeeded?
    ensures Echoed(req, SendOne(oracle, net, req).0)
  {
    var o := Fate(oracle, net.clock);
    assert SendOne(oracle, net, req).0.resp == EchoOf(req, UuidOf(net.remote, req, o.uuid), o.verdict.lb);
  }

  lemma {:induction false} SendOk(oracle: Oracle, c: Cluster, st: State, job: SvcJob)
    requires Faithful(oracle) && SvcOk(c, job) && SendTurn(oracle, st, job).Some?
    ensures SvcOk(c, SendTurn(oracle, st, job).value.1)
  {
    var i := |job.results|;
    var r := SendOne(oracle, st.net, job.ops[i]).0;
    if r.Succeeded? {
      EchoedSend(oracle, st.net, job.ops[i]);
      EchoedMore(job.ops, job.results, r);
    } else {
      UndoPart(job.e, job.svc.Key(), job.ops, job.pools, job.results);
    }
  }

  lemma {:induction false} EchoedMore(ops: seq<Request>, results: seq<Result>, r: Result)
    requires AllEchoed(ops, results) && |results| < |ops| && Echoed(ops[|results|], r)
    ensures AllEchoed(ops, results + [r])
  {
  }

  /** What has been sent of a batch that fails has no virtual service in it. */
  lemma {:induction false} UndoPart(e: Endpoints, k: NamespaceName, ops: seq<Request>, m: nat, results: seq<Result>)
    requires BatchFor(e, k, ops, m) && AllEchoed(ops, results) && |results| < |ops|
    ensures UndoFor(e, k, ops[..|results|]) && AllEchoed(ops[..|results|], results)
  {
  }

  lemma {:induction false} BuildOk(c: Cluster, st: State, job: SvcJob)
    requires SvcOk(c, job) && BuildTurn(st, job).Some?
    ensures SvcOk(c, BuildTurn(st, job).value.1)
  {
    BuildOneOk(st.pools, job.e, job.svc.Key(), job.names, job.n, job.ops);
  }

  lemma {:induction false} UnsendOk(oracle: Oracle, c: Cluster, st: State, job: SvcJob)
    requires SvcOk(c, job) && UnsendTurn(oracle, st, job).Some?
    ensures SvcOk(c, UnsendTurn(oracle, st, job).value.1)
  {
  }

  /** Turns that leave no batch behind. */
  ghost predicate Plain(e: Turn) {
    !e.SvcNames? && !e.SvcBuild? && !e.SvcVs? && !e.SvcSend? && !e.SvcUndo? && !e.SvcFill?
  }

  lemma {:induction false} PlainOk(oracle: Oracle, c: Cluster, st: State, job: SvcJob, e: Turn)
    requires ClusterInv(c) && SvcOk(c, job) && Plain(e) && SvcStep(oracle, c, st, job, e).Some?
    ensures SvcOk(c, SvcStep(oracle, c, st, job, e).value.1)
  {
  }

  /** Every turn leaves the Service worker with well-formed work. */
  lemma {:induction false} SvcOkKeeps(oracle: Oracle, c: Cluster, st: State, job: SvcJob, e: Turn)
    requires Faithful(oracle) && ClusterInv(c) && SvcOk(c, job) && SvcStep(oracle, c, st, job, e).Some?
    ensures SvcOk(c, SvcStep(oracle, c, st, job, e).value.1)
  {
    if Plain(e) {
      PlainOk(oracle, c, st, job, e);
    } else {
      match e
      case SvcNames(order) => NamesOk(c, st, job, order);
      case SvcBuild => BuildOk(c, st, job);
      case SvcVs(order2) => VsOk(job.svc, job.e, job.names, job.n, job.ops, order2);
      case SvcSend => SendOk(oracle, c, st, job);
      case SvcUndo => UnsendOk(oracle, c, st, job);
      case SvcFill => FillOk(c, st, job);
    }
  }

  lemma {:induction false} FillOk(c: Cluster, st: State, job: SvcJob)
    requires SvcOk(c, job) && CacheTurn(st, job).Some?
    ensures SvcOk(c, CacheTurn(st, job).value.1)
  {
    assert |"Pool"| != |"VirtualService"| && |"Pool"| != |"HTTPRequestPolicy"|;
  }

  // ---------- the cluster moves on ----------

  /** Nothing is forgotten, and what is new has a new version. */
  ghost predicate Later(c: Cluster, d: Cluster) {
    && (forall v :: v in c.epLog ==> v in d.epLog && d.epLog[v] == c.epLog[v])
    && (forall k :: k in d.eps ==> (k in c.eps && d.eps[k] == c.eps[k]) || d.eps[k].version !in c.epLog)
    && (forall v :: v in c.svcLog ==> v in d.svcLog && d.svcLog[v] == c.svcLog[v])
    && (forall k :: k in d.svcs ==> (k in c.svcs && d.svcs[k] == c.svcs[k]) || d.svcs[k].version !in c.svcLog)
  }

  lemma {:induction false} ChangeIsLater(c: Cluster, e: Event)
    requires ClusterInv(c) && Changed(c, e).Some?
    ensures ClusterInv(Changed(c, e).value) && Later(c, Changed(c, e).value)
  {
  }

  lemma {:induction false} SvcOkLater(c: Cluster, d: Cluster, job: SvcJob)
    requires Later(c, d) && SvcOk(c, job)
    ensures SvcOk(d, job)
  {
  }

  // ---------- links have their pools ----------

  ghost predicate Covered(st: State, l: (NamespaceName, string)) {
    Target(l) in st.pools
  }

  ghost predicate AllCovered(st: State) {
    forall l :: l in st.links ==> Covered(st, l)
  }

  /** Links outside the service being deleted have their pool cached. */
  ghost predicate CoveredExcept(st: State, k: NamespaceName) {
    forall l :: l in st.links && l.0 != k ==> Covered(st, l)
  }

  ghost predicate Covering(st: State, job: SvcJob) {
    match job
    case Filling(svc, e, ops, m, results, n, half) =>
      AllCovered(st) && (half && n < |ops| && ops[n].obj.PoolObj? ==> PoolKey(ops[n]) in st.pools)
    case Dropping(k, todo) => CoveredExcept(st, k) && forall e :: e in todo ==> (k, e) in st.links
    case Unlinking(k, todo) => CoveredExcept(st, k) && forall e :: (k, e) in st.links ==> e in todo
    case _ => AllCovered(st)
  }

  ghost predicate Forward(s: Sys) {
    ClusterInv(s.c) && SvcOk(s.c, s.svc) && LinksInv(s.st.links) && Covering(s.st, s.svc)
  }

  /** A larger pool cache covers no less. */
  lemma {:induction false} MorePools(st: State, t: State, job: SvcJob)
    requires Covering(st, job) && t.links == st.links && st.pools.Keys <= t.pools.Keys
    ensures Covering(t, job)
  {
    assert forall l :: Covered(st, l) ==> Covered(t, l);
  }

  lemma {:induction false} AddPoolsGrows(pools: PoolMap, tenant: string, es: seq<Elem>)
    requires forall i :: 0 <= i < |es| ==> es[i].Elem?
    ensures var f := AddPools(pools, tenant, es); f.Some? ==> pools.Keys <= f.value.Keys
  {
    if es != [] {
      AddPoolsGrows(pools, tenant, es[..|es| - 1]);
    }
  }

  /** The Endpoints worker only ever adds to the pool cache. */
  lemma {:induction false} EpCovers(oracle: Oracle, c: Cluster, st: State, svc: SvcJob, job: EpJob, e: Turn)
    requires Covering(st, svc) && EpStep(oracle, c, st, job, e).Some?
    ensures var t := EpStep(oracle, c, st, job, e).value.0; t.links == st.links && Covering(t, svc)
  {
    var t := EpStep(oracle, c, st, job, e).value.0;
    if e.EpCache? && job.n < |job.ops| && job.n < |job.results| && job.results[job.n].Succeeded? {
      AddPoolsGrows(st.pools, job.ops[job.n].tenant, Elems(job.results[job.n].resp, "pool"));
    }
    MorePools(st, t, svc);
  }

  lemma {:induction false} FillCovers(c: Cluster, st: State, job: SvcJob)
    requires SvcOk(c, job) && LinksInv(st.links) && Covering(st, job) && CacheTurn(st, job).Some?
    ensures var p := CacheTurn(st, job).value; LinksInv(p.0.links) && Covering(p.0, p.1)
  {
    var t := CacheTurn(st, job).value.0;
    if job.n < |job.ops| && job.ops[job.n].model == "Pool" {
      PoolFillCovers(c, st, job);
    } else {
      OtherTurn(st, job);
      SameCaches(st, t);
    }
  }

  /** A cache operation on the virtual service, or none. */
  lemma {:induction false} OtherTurn(st: State, job: SvcJob)
    requires job.Filling? && CacheTurn(st, job).Some? && (job.n >= |job.ops| || job.ops[job.n].model != "Pool")
    ensures var p := CacheTurn(st, job).value;
      && p.0 == st.(vss := p.0.vss)
      && (p.1 == Idle || p.1 == Filling(job.svc, job.e, job.ops, job.pools, job.results, job.n + 1, false))
  {
  }

  lemma {:induction false} PoolModelOnly(e: Endpoints, k: NamespaceName, ops: seq<Request>, m: nat, n: nat)
    requires BatchFor(e, k, ops, m) && n < |ops|
    ensures ops[n].model == "Pool" <==> n < m
  {
    assert |"Pool"| != |"VirtualService"| && |"Pool"| != |"HTTPRequestPolicy"|;
  }

  lemma {:induction false} PoolFillCovers(c: Cluster, st: State, job: SvcJob)
    requires SvcOk(c, job) && LinksInv(st.links) && Covering(st, job) && job.Filling? && CacheTurn(st, job).Some?
    requires job.n < |job.ops| && job.ops[job.n].model == "Pool"
    ensures var p := CacheTurn(st, job).value; LinksInv(p.0.links) && Covering(p.0, p.1)
  {
    var k, req, r := job.svc.Key(), job.ops[job.n], job.results[job.n];
    var t := CacheTurn(st, job).value.0;
    PoolModelOnly(job.e, k, job.ops, job.pools, job.n);
    GoodReqFields(job.e, k, req);
    var p := req.obj.pool.name;
    var entry := EchoedPool(req, r, st.pools, st.links, k);
    LinkTail(p);
    assert forall l :: Covered(st, l) ==> Covered(t, l);
    if job.half {
      assert GoodLink((k, Link(p)));
      assert Target((k, Link(p))) == PoolKey(req);
    }
  }

  /** Dropping a pool of the service being deleted uncovers no link of any other. */
  lemma {:induction false} DropCovers(st: State, job: SvcJob, link: string)
    requires LinksInv(st.links) && Covering(st, job) && DropTurn(st, job, link).Some?
    ensures var p := DropTurn(st, job, link).value; Covering(p.0, p.1)
  {
    var k, t := job.k, DropTurn(st, job, link).value.0;
    assert GoodLink((k, link));
    LinkParts(k.name, Tail(link));
    forall l | l in t.links && l.0 != k
      ensures Covered(t, l)
    {
      assert Covered(st, l) && GoodLink(l);
      if Target(l) == NamespaceName(k.ns, Tail(link)) {
        OneOwner(l.0.name, k.name, Tail(link));
      }
    }
  }

  lemma {:induction false} UnlinkCovers(st: State, job: SvcJob, link: string)
    requires LinksInv(st.links) && Covering(st, job) && UnlinkTurn(st, job, link).Some?
    ensures var p := UnlinkTurn(st, job, link).value; LinksInv(p.0.links) && Covering(p.0, p.1)
  {
    var k, t := job.k, UnlinkTurn(st, job, link).value.0;
    assert forall l :: Covered(st, l) ==> Covered(t, l);
    if (k, link) in st.links {
      assert GoodLink((k, link));
      LinkParts(k.name, Tail(link));
    }
  }

  /** Turns that change neither the links nor the pool cache. */
  ghost predicate Quiet(e: Turn) {
    !e.SvcFill? && !e.SvcDrop? && !e.SvcUnlink?
  }

  lemma {:induction false} QuietTurns(oracle: Oracle, c: Cluster, st: State, job: SvcJob, e: Turn)
    requires Quiet(e) && SvcStep(oracle, c, st, job, e).Some?
    ensures var t := SvcStep(oracle, c, st, job, e).value.0; t.links == st.links && t.pools == st.pools
  {
  }

  lemma {:induction false} SameCaches(st: State, t: State)
    requires AllCovered(st) && t.links == st.links && t.pools == st.pools
    ensures AllCovered(t)
  {
    assert forall l :: Covered(st, l) ==> Covered(t, l);
  }

  /** The turns between the two loops of a deletion. */
  lemma {:induction false} DeleteCovers(oracle: Oracle, c: Cluster, st: State, job: SvcJob, e: Turn)
    requires Covering(st, job) && (e.SvcRange? || e.SvcDropped? || e.SvcForget?) && SvcStep(oracle, c, st, job, e).Some?
    ensures var p := SvcStep(oracle, c, st, job, e).value; Covering(p.0, p.1)
  {
    var t := SvcStep(oracle, c, st, job, e).value.0;
    assert forall l :: Covered(st, l) ==> Covered(t, l);
    assert forall l :: l in st.links ==> l.1 in ValuesOf(st.links, l.0);
  }

  lemma {:induction false} QuietCovers(oracle: Oracle, c: Cluster, st: State, job: SvcJob, e: Turn)
    requires Covering(st, job) && Quiet(e) && SvcStep(oracle, c, st, job, e).Some?
    ensures var p := SvcStep(oracle, c, st, job, e).value; Covering(p.0, p.1)
  {
    QuietTurns(oracle, c, st, job, e);
    if e.SvcRange? || e.SvcDropped? || e.SvcForget? {
      DeleteCovers(oracle, c, st, job, e);
    } else {
      SameCaches(st, SvcStep(oracle, c, st, job, e).value.0);
    }
  }

  lemma {:induction false} SvcCovers(oracle: Oracle, c: Cluster, st: State, job: SvcJob, e: Turn)
    requires SvcOk(c, job) && LinksInv(st.links) && Covering(st, job) && SvcStep(oracle, c, st, job, e).Some?
    ensures var p := SvcStep(oracle, c, st, job, e).value; LinksInv(p.0.links) && Covering(p.0, p.1)
  {
    if Quiet(e) {
      QuietTurns(oracle, c, st, job, e);
      QuietCovers(oracle, c, st, job, e);
    } else {
      match e
      case SvcFill => FillCovers(c, st, job);
      case SvcDrop(link) => DropCovers(st, job, link);
      case SvcUnlink(link) => UnlinkCovers(st, job, link);
    }
  }

  lemma {:induction false} ForwardKeeps(oracle: Oracle, s: Sys, e: Turn)
    requires Faithful(oracle) && Forward(s) && Step(oracle, s, e).Some?
    ensures Forward(Step(oracle, s, e).value)
  {
    if e.Change? {
      ChangeIsLater(s.c, e.e);
      SvcOkLater(s.c, Changed(s.c, e.e).value, s.svc);
    } else if SvcStep(oracle, s.c, s.st, s.svc, e).Some? {
      SvcOkKeeps(oracle, s.c, s.st, s.svc, e);
      SvcCovers(oracle, s.c, s.st, s.svc, e);
    } else {
      EpCovers(oracle, s.c, s.st, s.svc, s.ep, e);
    }
  }

  lemma {:induction false} ExecForward(oracle: Oracle, es: seq<Turn>)
    requires Faithful(oracle) && Exec(oracle, START, es).Some?
    ensures Forward(Exec(oracle, START, es).value)
  {
    if es != [] {
      var n := |es| - 1;
      ExecForward(oracle, es[..n]);
      ForwardKeeps(oracle, Exec(oracle, START, es[..n]).value, es[n]);
    }
  }

  /**
   * In every interleaving of the two workers and the cluster, whenever the Service worker is between items, every link
   * "service/p" under (ns, n) has a pool cache entry (ns, p).
   */
  lemma {:induction false} ForwardInclusion(oracle: Oracle, es: seq<Turn>, ns: string, n: string, p: string)
    requires Faithful(oracle) && Exec(oracle, START, es).Some? && Exec(oracle, START, es).value.svc == Idle
    ensures var st := Exec(oracle, START, es).value.st;
      (NamespaceName(ns, n), Link(p)) in st.links ==> NamespaceName(ns, p) in st.pools
  {
    ExecForward(oracle, es);
    var st := Exec(oracle, START, es).value.st;
    LinkTail(p);
    var l := (NamespaceName(ns, n), Link(p));
    assert l in st.links ==> Covered(st, l);
  }
}
