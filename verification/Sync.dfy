/**
 * What one sync of a Service, of an Endpoints, or of a deleted Service does to the caches and to the Avi controller.
 */
module Sync {
  import opened Strings
  import opened Wrappers
  import opened Model
  import opened PoolNames
  import opened Rest
  import opened Pools
  import opened VirtualServices
  import opened Caches

  type VsMap = map<NamespaceName, VsEntry>

  /** The three caches and the far side. */
  datatype State = State(vss: VsMap, pools: PoolMap, links: Relation, net: Net)

  /** How the handler sees a sync end: a transient error puts the key back on its queue. */
  datatype SyncError = NoError | SkipSync | Transient(msg: string)

  predicate Requeues(e: SyncError) {
    e.Transient?
  }

  /** A finished sync with the operations it built, or a panic, which takes the whole process down. */
  datatype Ran = Died | Ran(st: State, err: SyncError, ops: seq<Request>)

  // ---------- filling the caches from responses ----------

  /** The response objects of one type; a missing or malformed response has none. */
  function OfKind(es: seq<Elem>, kind: string): (r: seq<Elem>)
    ensures forall i :: 0 <= i < |r| ==> r[i].Elem?
  {
    if es == [] then []
    else
      var n := |es| - 1;
      OfKind(es[..n], kind) + (if es[n].Elem? && es[n].kind == Some(kind) then [es[n]] else [])
  }

  function Elems(resp: Response, kind: string): (r: seq<Elem>)
    ensures forall i :: 0 <= i < |r| ==> r[i].Elem?
  {
    if resp.Array? then OfKind(resp.elems, kind) else []
  }

  function HashOf(m: Metadata): string {
    if m.Hash? then m.crudHashKey else ""
  }

  /** aviobjects.AviPoolCacheAdd; None is the panic of an unchecked type assertion. */
  function AddPools(pools: PoolMap, tenant: string, es: seq<Elem>): Option<PoolMap>
    requires forall i :: 0 <= i < |es| ==> es[i].Elem?
  {
    if es == [] then Some(pools)
    else
      var n := |es| - 1;
      match AddPools(pools, tenant, es[..n])
      case None => None
      case Some(p) =>
        var e := es[n];
        if e.name.None? || e.uuid.None? then Some(p)
        else if e.lb.None? || e.cksum.None? || e.mdata.Missing? then None
        else Some(p[NamespaceName(tenant, e.name.value) :=
                    PoolEntry(e.name.value, tenant, e.uuid.value, e.lb.value, HashOf(e.mdata), e.cksum.value)])
  }

  /** aviobjects.AviSvcToPoolCacheAdd */
  function AddLinks(links: Relation, key: NamespaceName, es: seq<Elem>): Relation
    requires forall i :: 0 <= i < |es| ==> es[i].Elem?
  {
    if es == [] then links
    else
      var n := |es| - 1;
      AddLinks(links, key, es[..n]) + (if es[n].name.Some? then {(key, Link(es[n].name.value))} else {})
  }

  function Link(pool: string): string {
    "service" + "/" + pool
  }

  /** aviobjects.AviVsCacheAdd, which gives up at the first element without a name or a uuid. */
  function AddVss(vss: VsMap, tenant: string, es: seq<Elem>): Option<VsMap>
    requires forall i :: 0 <= i < |es| ==> es[i].Elem?
    decreases |es|
  {
    if es == [] then Some(vss)
    else
      var e := es[0];
      if e.name.None? || e.uuid.None? then Some(vss)
      else if e.cksum.None? || e.mdata.Missing? then None
      else AddVss(vss[NamespaceName(tenant, e.name.value) :=
                      VsEntry(e.name.value, tenant, e.uuid.value, HashOf(e.mdata), e.cksum.value)], tenant, es[1..])
  }

  /** The fill loop of a successful service sync. */
  function Fill(st: State, key: NamespaceName, reqs: seq<Request>, results: seq<Result>): Option<State>
    requires |reqs| == |results|
    decreases |reqs|
  {
    if reqs == [] then Some(st)
    else
      var n := |reqs| - 1;
      match Fill(st, key, reqs[..n], results[..n])
      case None => None
      case Some(s) => FillOne(s, key, reqs[n], results[n])
  }

  function FillOne(s: State, key: NamespaceName, req: Request, r: Result): Option<State> {
    if r.Failed? then Some(s)
    else if req.model == "Pool" then
      match AddPools(s.pools, req.tenant, Elems(r.resp, "pool"))
      case None => None
      case Some(pools) => Some(s.(pools := pools, links := AddLinks(s.links, key, Elems(r.resp, "pool"))))
    else if req.model == "VirtualService" then
      match AddVss(s.vss, req.tenant, Elems(r.resp, "virtualservice"))
      case None => None
      case Some(vss) => Some(s.(vss := vss))
    else Some(s)
  }

  /** The fill loop of an endpoints sync: pools only, and only those that went through. */
  function Refresh(pools: PoolMap, reqs: seq<Request>, results: seq<Result>): Option<PoolMap>
    requires |reqs| == |results|
    decreases |reqs|
  {
    if reqs == [] then Some(pools)
    else
      var n := |reqs| - 1;
      match Refresh(pools, reqs[..n], results[..n])
      case None => None
      case Some(p) =>
        if results[n].Failed? then Some(p)
        else AddPools(p, reqs[n].tenant, Elems(results[n].resp, "pool"))
  }

  /** One turn of each fill loop. */
  lemma {:induction false} FillTurn(st: State, key: NamespaceName, reqs: seq<Request>, results: seq<Result>, n: nat)
    requires n < |reqs| == |results|
    ensures Fill(st, key, reqs[..n + 1], results[..n + 1]) ==
            match Fill(st, key, reqs[..n], results[..n])
            case None => None
            case Some(s) => FillOne(s, key, reqs[n], results[n])
  {
    assert reqs[..n + 1][..n] == reqs[..n] && results[..n + 1][..n] == results[..n];
  }

  lemma {:induction false} RefreshTurn(pools: PoolMap, reqs: seq<Request>, results: seq<Result>, n: nat)
    requires n < |reqs| == |results|
    ensures Refresh(pools, reqs[..n + 1], results[..n + 1]) ==
            match Refresh(pools, reqs[..n], results[..n])
            case None => None
            case Some(p) =>
              if results[n].Failed? then Some(p) else AddPools(p, reqs[n].tenant, Elems(results[n].resp, "pool"))
  {
    assert reqs[..n + 1][..n] == reqs[..n] && results[..n + 1][..n] == results[..n];
  }

  // ---------- a Service was created or updated ----------

  function NamesOf(prefix: string, order: seq<PortProtocol>): (r: seq<string>)
    ensures |r| == |order|
  {
    seq(|order|, i requires 0 <= i < |order| => Print(prefix, order[i].port, order[i].protocol))
  }

  /** The pool operations of a service sync; `order` is how the port map happened to be ranged over. */
  function PoolPart(pools: PoolMap, svc: Service, ep: Endpoints, listed: Option<Service>,
                    order: seq<PortProtocol>): Ops {
    match listed
    case None => Ops([])
    case Some(s) =>
      match Resolve(s, ReadyPorts(ep.subsets))
      case NotFound => Ops([])
      case Crashed => Panicked
      case Found(_) => BuildOps(pools, ep, CrudHashKey(svc.Key()), NamesOf(svc.name, order))
  }

  function ServiceOps(pools: PoolMap, svc: Service, ep: Endpoints, listed: Option<Service>, order: seq<PortProtocol>,
                      order2: seq<ListenerKey>): Ops {
    match PoolPart(pools, svc, ep, listed, order)
    case Panicked => Panicked
    case Ops(reqs) => Ops(reqs + VsOps(MetaOf(svc, reqs), order2))
  }

  /** The virtual service is cached at this very version of the Service. */
  predicate UpToDate(vss: VsMap, svc: Service) {
    svc.Key() in vss && vss[svc.Key()].cksum == svc.version
  }

  function SyncService(oracle: Oracle, st: State, svc: Service, ep: Option<Endpoints>, listed: Option<Service>,
                       order: seq<PortProtocol>, order2: seq<ListenerKey>): Ran
  {
    if ep.None? then Ran(st, Transient("Svc ep not found"), [])
    else if UpToDate(st.vss, svc) then Ran(st, NoError, [])
    else Resync(oracle, st, svc, ep.value, listed, order, order2)
  }

  /** A service sync from the building of its batch on. */
  function Resync(oracle: Oracle, st: State, svc: Service, ep: Endpoints, listed: Option<Service>,
                  order: seq<PortProtocol>, order2: seq<ListenerKey>): Ran
  {
    match ServiceOps(st.pools, svc, ep, listed, order, order2)
    case Panicked => Died
    case Ops(ops) => Batched(oracle, st, svc.Key(), ops)
  }

  /** A batch is sent, then undone if it failed and cached if it did not. */
  function Batched(oracle: Oracle, st: State, key: NamespaceName, ops: seq<Request>): Ran {
    var b := Operate(oracle, st.net, ops);
    match b.err
    case Some(msg) =>
      var u := UndoAll(oracle, b.net, ops, b.results);
      if u.crashed then Died else Ran(st.(net := u.net), Transient(msg), ops)
    case None =>
      match Fill(st.(net := b.net), key, ops, b.results)
      case None => Died
      case Some(s) => Ran(s, NoError, ops)
  }

  // ---------- an Endpoints was created or updated ----------

  /** The pool name in a link; None when there is no second segment to index. */
  function PoolIn(link: string): Option<string> {
    var s := Split(link, "/");
    if |s| < 2 then None else Some(s[1])
  }

  /** The pool names of the links in the order they were ranged over; None is an index panic. */
  function PoolsIn(order: seq<string>): Option<seq<string>> {
    if order == [] then Some([])
    else
      var n := |order| - 1;
      match (PoolsIn(order[..n]), PoolIn(order[n]))
      case (Some(names), Some(name)) => Some(names + [name])
      case _ => None
  }

  /** The metadata used for every pool: that of the last cached pool ranged over. */
  function LastHash(pools: PoolMap, ns: string, names: seq<string>): string {
    if names == [] then ""
    else
      var n := |names| - 1;
      var k := NamespaceName(ns, names[n]);
      if k in pools then pools[k].crudHashKey else LastHash(pools, ns, names[..n])
  }

  function EndpointsOps(st: State, ep: Endpoints, order: seq<string>): Ops {
    match PoolsIn(order)
    case None => Panicked
    case Some(names) => BuildOps(st.pools, ep, LastHash(st.pools, ep.ns, names), names)
  }

  function SyncEndpoints(oracle: Oracle, st: State, ep: Endpoints, listed: Option<Service>, order: seq<string>): Ran {
    if listed.None? then Ran(st, SkipSync, [])
    else match Resolve(listed.value, ReadyPorts(ep.subsets))
      case Crashed => Died
      case NotFound => Ran(st, NoError, [])
      case Found(_) => Update(oracle, st, ep, order)
  }

  /** An endpoints sync from the links on. */
  function Update(oracle: Oracle, st: State, ep: Endpoints, order: seq<string>): Ran {
    if order == [] then Ran(st, NoError, [])
    else match EndpointsOps(st, ep, order)
      case Panicked => Died
      case Ops(ops) =>
        var b := Operate(oracle, st.net, ops);
        match Refresh(st.pools, ops, b.results)
        case None => Died
        case Some(pools) => Ran(st.(pools := pools, net := b.net), NoError, ops)
  }

  // ---------- a Service is gone ----------

  /** A text up to its last hyphen. */
  function BeforeLast(s: string): string {
    if s == "" then ""
    else if s[|s| - 1] == '-' then s[..|s| - 1]
    else BeforeLast(s[..|s| - 1])
  }

  /** A pool name that the service `name` prints for some marker-free port and hyphen-free protocol. */
  predicate Owns(name: string, pool: string) {
    name + POOL <= pool &&
    var rest := pool[|name| + 6..];
    '-' in rest && MarkerFree(BeforeLast(rest))
  }

  /** What deleting the virtual service takes with it on the far side: at most the pools of that service. */
  function EraseService(remote: Remote, key: NamespaceName, gone: set<string>): Remote {
    Remote(map k | k in remote.pools
      && !(k.ns == key.ns && k.name in gone && Owns(key.name, k.name)) :: remote.pools[k],
           remote.vss - {key})
  }

  /** The cached pools named by the "service" links of a key. */
  function Linked(links: Relation, key: NamespaceName): set<NamespaceName> {
    set p | p in links && p.0 == key && Prefix(p.1) == "service"
      && PoolIn(p.1).Some? :: NamespaceName(key.ns, PoolIn(p.1).value)
  }

  function Forget(st: State, key: NamespaceName): State {
    State(st.vss - {key}, st.pools - Linked(st.links, key),
          (set p | p in st.links && !(p.0 == key && Prefix(p.1) == "service")), st.net)
  }

  function DeleteService(oracle: Oracle, st: State, key: NamespaceName): Ran {
    var get := Fate(oracle, st.net.clock);
    if get.verdict.Failure? then Ran(st.(net := st.net.(clock := st.net.clock + 1)), Transient(get.verdict.msg), [])
    else
      var del := Fate(oracle, st.net.clock + 1);
      var remote := if del.Applied() then EraseService(st.net.remote, key, del.gone) else st.net.remote;
      if (key, "service") in st.links then Died
      else Ran(Forget(st.(net := Net(remote, st.net.clock + 2)), key), NoError, [])
  }
}
