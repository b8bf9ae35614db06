/** The REST session with the Avi controller: one request at a time, an ordered batch, and its compensation. */
module Rest {
  import opened Wrappers
  import opened Model

  // ---------- requests and replies ----------

  datatype Verb = Post | Put | Get | Patch | Delete | Unknown(text: string)

  datatype Request = Request(verb: Verb, path: string, tenant: string, model: string, obj: Obj)

  /** The service_metadata field of a returned object. */
  datatype Metadata = Missing | Malformed | Hash(crudHashKey: string)

  /** One element of a response array. `kind` is the object type named by its url, when it has one. */
  datatype Elem =
    | NotAnObject
    | Elem(kind: Option<string>, name: Option<string>, uuid: Option<string>, lb: Option<string>, cksum: Option<string>,
        mdata: Metadata)

  datatype Response = NoResponse | NotAnArray | Array(elems: seq<Elem>)

  /** What a sent operation holds afterwards: its response, or the error recorded on it. */
  datatype Result = Succeeded(resp: Response) | Failed(msg: string)

  const ABORTED := "Aborted due to prev error"

  datatype Url = Url(base: string, uuid: string)

  const POOL_URL := "/api/pool"
  const VS_URL := "/api/virtualservice"

  function AviModelToUrl(model: string): string {
    match model
    case "Pool" => POOL_URL
    case "VirtualService" => VS_URL
    case _ => ""
  }

  // ---------- the Avi controller, as far as the client can tell ----------

  datatype RemotePool = RemotePool(uuid: string, pool: Pool)
  datatype RemoteVs = RemoteVs(uuid: string, vs: VirtualService)
  datatype Remote = Remote(pools: map<NamespaceName, RemotePool>, vss: map<NamespaceName, RemoteVs>)

  /**
   * How the far side treats one request. A failing request may still have taken effect; a successful one
   * is echoed faithfully or answered in any way at all. `uuid` is what a newly created object gets, and
   * `gone` the pools that deleting a virtual service takes with it.
   */
  datatype Verdict = Echo(lb: string) | Answer(resp: Response) | Failure(msg: string, applied: bool)
  datatype Outcome = Outcome(uuid: string, verdict: Verdict, gone: set<string>)
  {
    predicate Applied() {
      verdict.Failure? ==> verdict.applied
    }
  }

  /** What happens to each request of a run, in order; past the end the far side is unreachable. */
  type Oracle = seq<Outcome>

  function Fate(oracle: Oracle, t: nat): Outcome {
    if t < |oracle| then oracle[t] else Outcome("", Failure("unreachable", false), {})
  }

  /** The far side and the number of requests it has seen. */
  datatype Net = Net(remote: Remote, clock: nat)

  /** The uuid of the object a request writes: kept by an update, fresh for a creation. */
  function UuidOf(remote: Remote, req: Request, newUuid: string): string {
    match req.obj
    case PoolObj(p) =>
      var k := NamespaceName(req.tenant, p.name);
      if k in remote.pools then remote.pools[k].uuid else newUuid
    case VsObj(v) =>
      var k := NamespaceName(req.tenant, v.name);
      if k in remote.vss then remote.vss[k].uuid else newUuid
    case HpsObj(_) => newUuid
  }

  /** Posting a macro creates the object or replaces the one of the same tenant and name. */
  function Write(remote: Remote, req: Request, newUuid: string): Remote {
    if req.verb != Post then remote
    else
      var uuid := UuidOf(remote, req, newUuid);
      match req.obj
      case PoolObj(p) => remote.(pools := remote.pools[NamespaceName(req.tenant, p.name) := RemotePool(uuid, p)])
      case VsObj(v) => remote.(vss := remote.vss[NamespaceName(req.tenant, v.name) := RemoteVs(uuid, v)])
      case HpsObj(_) => remote
  }

  /** A faithful answer: a single object with the name, uuid, checksum and metadata that were posted. */
  function EchoOf(req: Request, uuid: string, lb: string): Response {
    match req.obj
    case PoolObj(p) => Array([Elem(Some("pool"), Some(p.name), Some(uuid), Some(lb), Some(p.cksum),
        Hash(p.crudHashKey))])
    case VsObj(v) => Array([Elem(Some("virtualservice"), Some(v.name), Some(uuid), None, Some(v.cksum),
        Hash(v.crudHashKey))])
    case HpsObj(h) => Array([Elem(Some("httppolicyset"), Some(h.name), Some(uuid), None, Some(h.cksum), Missing)])
  }

  function Reply(remote: Remote, req: Request, o: Outcome): Result {
    match o.verdict
    case Echo(lb) => Succeeded(EchoOf(req, UuidOf(remote, req, o.uuid), lb))
    case Answer(resp) => Succeeded(resp)
    case Failure(msg, _) => Failed(msg)
  }

  /** One operation of a batch: an unknown method is an error that never leaves the client. */
  function SendOne(oracle: Oracle, net: Net, req: Request): (Result, Net) {
    if req.verb.Unknown? then (Failed("Unknown RestOp " + req.verb.text), net)
    else
      var o := Fate(oracle, net.clock);
      (Reply(net.remote, req, o),
       Net(if o.Applied() then Write(net.remote, req, o.uuid) else net.remote, net.clock + 1))
  }

  /** Deleting by url removes the object of that type and uuid, if there is one. */
  function Erase(remote: Remote, url: Url): Remote {
    if url.base == POOL_URL then
      remote.(pools := map k | k in remote.pools && remote.pools[k].uuid != url.uuid :: remote.pools[k])
    else if url.base == VS_URL then
      remote.(vss := map k | k in remote.vss && remote.vss[k].uuid != url.uuid :: remote.vss[k])
    else remote
  }

  function EraseOne(oracle: Oracle, net: Net, url: Url): Net {
    Net(if Fate(oracle, net.clock).Applied() then Erase(net.remote, url) else net.remote, net.clock + 1)
  }

  // ---------- the batch ----------

  datatype Batch = Batch(results: seq<Result>, net: Net, err: Option<string>)

  function Aborted(n: nat): (rs: seq<Result>)
    ensures |rs| == n && forall i :: 0 <= i < n ==> rs[i] == Failed(ABORTED)
  {
    if n == 0 then [] else [Failed(ABORTED)] + Aborted(n - 1)
  }

  /** Send in order until one fails; the rest are marked aborted and never sent. */
  function Operate(oracle: Oracle, net: Net, reqs: seq<Request>): (b: Batch)
    ensures |b.results| == |reqs|
    decreases |reqs|
  {
    if reqs == [] then Batch([], net, None)
    else
      var (r, net1) := SendOne(oracle, net, reqs[0]);
      match r
      case Failed(msg) => Batch([r] + Aborted(|reqs| - 1), net1, Some(msg))
      case Succeeded(_) =>
        var rest := Operate(oracle, net1, reqs[1..]);
        Batch([r] + rest.results, rest.net, rest.err)
  }

  /** An operation of the client, with the fields the batch writes on it. */
  class RestOp {
    const req: Request
    var err: Option<string>
    var response: Response

    constructor (req: Request)
      ensures this.req == req && err == None && response == NoResponse
    {
      this.req := req;
      err := None;
      response := NoResponse;
    }

    function Outcome(): Result
      reads this
    {
      if err.None? then Succeeded(response) else Failed(err.value)
    }
  }

  class Session {
    const oracle: Oracle
    var net: Net

    constructor (oracle: Oracle, remote: Remote)
      ensures this.oracle == oracle && net == Net(remote, 0)
    {
      this.oracle := oracle;
      net := Net(remote, 0);
    }

    method Send(op: RestOp)
      modifies this, op
      ensures (op.Outcome(), net) == SendOne(oracle, old(net), op.req)
    {
      var (r, net1) := SendOne(oracle, net, op.req);
      match r {
        case Succeeded(resp) => op.err, op.response := None, resp;
        case Failed(msg) => op.err := Some(msg);
      }
      net := net1;
    }

    /** Looking an object up by name changes nothing on the far side. */
    method GetObjectByName() returns (err: Option<string>)
      modifies this
      ensures net == old(net).(clock := old(net).clock + 1)
      ensures var v := Fate(oracle, old(net).clock).verdict; err == if v.Failure? then Some(v.msg) else None
    {
      var v := Fate(oracle, net.clock).verdict;
      err := if v.Failure? then Some(v.msg) else None;
      net := net.(clock := net.clock + 1);
    }

    method DeleteUrl(url: Url) returns (err: Option<string>)
      modifies this
      ensures net == EraseOne(oracle, old(net), url)
    {
      var o := Fate(oracle, net.clock);
      err := if o.verdict.Failure? then Some(o.verdict.msg) else None;
      net := EraseOne(oracle, net, url);
    }
  }

  function Requests(ops: seq<RestOp>): seq<Request> {
    seq(|ops|, i requires 0 <= i < |ops| => ops[i].req)
  }

  function Outcomes(ops: seq<RestOp>): seq<Result>
    reads ops
  {
    seq(|ops|, i requires 0 <= i < |ops| reads ops => ops[i].Outcome())
  }

  /** The inner loop of a failing batch. */
  method MarkAborted(ops: seq<RestOp>, start: nat)
    requires NoDup(ops) && start <= |ops|
    modifies ops
    ensures forall j :: start <= j < |ops| ==> ops[j].Outcome() == Failed(ABORTED)
    ensures forall j :: 0 <= j < start ==> ops[j].Outcome() == old(ops[j].Outcome())
  {
    var j := start;
    while j < |ops|
      invariant start <= j <= |ops|
      invariant forall k :: start <= k < j ==> ops[k].Outcome() == Failed(ABORTED)
      invariant forall k :: 0 <= k < start ==> ops[k].Outcome() == old(ops[k].Outcome())
    {
      ops[j].err := Some(ABORTED);
      j := j + 1;
    }
  }

  /** `whole` is what remains to be done after its first `i` operations. */
  ghost predicate Remains(whole: Batch, i: nat, rest: Batch) {
    && whole.net == rest.net && whole.err == rest.err
    && |whole.results| == i + |rest.results|
    && forall j :: i <= j < |whole.results| ==> whole.results[j] == rest.results[j - i]
  }

  lemma {:induction false} RemainsStep(oracle: Oracle, whole: Batch, i: nat, net: Net, reqs: seq<Request>)
    requires i < |reqs| && Remains(whole, i, Operate(oracle, net, reqs[i..]))
    ensures var (r, net1) := SendOne(oracle, net, reqs[i]);
      && whole.results[i] == r
      && (r.Succeeded? ==> Remains(whole, i + 1, Operate(oracle, net1, reqs[i + 1..])))
      && (r.Failed? ==> whole.net == net1 && whole.err == Some(r.msg)
                        && forall j :: i < j < |whole.results| ==> whole.results[j] == Failed(ABORTED))
  {
    assert reqs[i..][1..] == reqs[i + 1..] && reqs[i..][0] == reqs[i];
  }

  /** The batch as the client runs it, writing the outcome on each operation. */
  method AviRestOperate(c: Session, ops: seq<RestOp>) returns (err: Option<string>)
    requires NoDup(ops)
    modifies c, ops
    ensures Batch(Outcomes(ops), c.net, err) == Operate(c.oracle, old(c.net), Requests(ops))
  {
    ghost var reqs := Requests(ops);
    ghost var whole := Operate(c.oracle, c.net, reqs);
    var i := 0;
    assert reqs[0..] == reqs;
    while i < |ops|
      invariant 0 <= i <= |ops|
      invariant forall j :: 0 <= j < i ==> ops[j].Outcome() == whole.results[j]
      invariant Remains(whole, i, Operate(c.oracle, c.net, reqs[i..]))
    {
      RemainsStep(c.oracle, whole, i, c.net, reqs);
      c.Send(ops[i]);
      if ops[i].err.Some? {
        err := ops[i].err;
        MarkAborted(ops, i + 1);
        assert Outcomes(ops) == whole.results;
        return;
      }
      i := i + 1;
    }
    assert Outcomes(ops) == whole.results;
    err := None;
  }

  // ---------- what a batch leaves behind ----------

  /**
   * A failing batch stops at one operation: everything before it succeeded, it carries the returned
   * error, everything after it is marked aborted, and exactly the operations up to it were sent.
   */
  lemma {:induction false} BatchStops(oracle: Oracle, net: Net, reqs: seq<Request>) returns (stop: nat)
    requires forall i :: 0 <= i < |reqs| ==> !reqs[i].verb.Unknown?
    ensures var b := Operate(oracle, net, reqs);
      && stop <= |reqs| && (b.err.None? <==> stop == |reqs|)
      && (forall i :: 0 <= i < stop ==> b.results[i].Succeeded?)
      && (stop < |reqs| ==> b.results[stop] == Failed(b.err.value))
      && (forall i :: stop < i < |reqs| ==> b.results[i] == Failed(ABORTED))
      && b.net.clock == net.clock + (if stop < |reqs| then stop + 1 else stop)
      && (forall t: nat :: net.clock <= t < net.clock + stop ==> !Fate(oracle, t).verdict.Failure?)
      && (stop < |reqs| ==> Fate(oracle, net.clock + stop).verdict.Failure?)
    decreases |reqs|
  {
    if reqs == [] {
      stop := 0;
    } else {
      var (r, net1) := SendOne(oracle, net, reqs[0]);
      if r.Failed? {
        stop := 0;
      } else {
        var s := BatchStops(oracle, net1, reqs[1..]);
        stop := s + 1;
      }
    }
  }

  // ---------- compensation ----------

  /** What the rollback loop does about one operation. */
  datatype Undo = Skip | Crash | DeleteAt(url: Url)

  function UndoOf(req: Request, r: Result): Undo {
    match r
    case Failed(_) => Skip
    case Succeeded(resp) =>
      match resp
      case NoResponse => Skip
      case NotAnArray => Skip
      case Array(es) =>
        if es == [] then Crash
        else if es[0].NotAnObject? || es[0].uuid.None? then Skip
        else DeleteAt(Url(AviModelToUrl(req.model), es[0].uuid.value))
  }

  datatype Undone = Undone(net: Net, deleted: seq<Url>, crashed: bool)

  /** The rollback: last operation first, one delete for each operation that succeeded. */
  function UndoAll(oracle: Oracle, net: Net, reqs: seq<Request>, results: seq<Result>): Undone
    requires |reqs| == |results|
    decreases |reqs|
  {
    if reqs == [] then Undone(net, [], false)
    else
      var n := |reqs| - 1;
      match UndoOf(reqs[n], results[n])
      case Crash => Undone(net, [], true)
      case Skip => UndoAll(oracle, net, reqs[..n], results[..n])
      case DeleteAt(url) =>
        var rest := UndoAll(oracle, EraseOne(oracle, net, url), reqs[..n], results[..n]);
        rest.(deleted := [url] + rest.deleted)
  }

  /** `whole` is what has been deleted so far, followed by what `rest` still does. */
  ghost predicate LeftToUndo(whole: Undone, deleted: seq<Url>, rest: Undone) {
    whole.net == rest.net && whole.crashed == rest.crashed && whole.deleted == deleted + rest.deleted
  }

  lemma {:induction false} UndoOne(oracle: Oracle, net: Net, reqs: seq<Request>, results: seq<Result>, n: nat,
                                   whole: Undone, deleted: seq<Url>)
    requires n < |reqs| == |results|
      && LeftToUndo(whole, deleted, UndoAll(oracle, net, reqs[..n + 1], results[..n + 1]))
    ensures match UndoOf(reqs[n], results[n])
      case Crash => whole == Undone(net, deleted, true)
      case Skip => LeftToUndo(whole, deleted, UndoAll(oracle, net, reqs[..n], results[..n]))
      case DeleteAt(url) => LeftToUndo(whole, deleted + [url],
          UndoAll(oracle, EraseOne(oracle, net, url), reqs[..n], results[..n]))
  {
    assert reqs[..n + 1][..n] == reqs[..n] && results[..n + 1][..n] == results[..n];
    var u := UndoOf(reqs[n], results[n]);
    if u.DeleteAt? {
      var rest := UndoAll(oracle, EraseOne(oracle, net, u.url), reqs[..n], results[..n]);
      assert deleted + ([u.url] + rest.deleted) == (deleted + [u.url]) + rest.deleted;
    } else if u.Crash? {
      assert deleted + [] == deleted;
    }
  }

  /** The rollback loop as the client runs it, over the operations the failed batch has written on. */
  method RollBack(c: Session, ops: seq<RestOp>) returns (deleted: seq<Url>, crashed: bool)
    requires forall i :: 0 <= i < |ops| ==> c as object != ops[i]
    modifies c
    ensures Undone(c.net, deleted, crashed) == UndoAll(c.oracle, old(c.net), Requests(ops), Outcomes(ops))
  {
    deleted, crashed := [], false;
    var i := |ops|;
    ghost var reqs, rs := Requests(ops), Outcomes(ops);
    ghost var whole := UndoAll(c.oracle, c.net, reqs, rs);
    assert reqs[..i] == reqs && rs[..i] == rs;
    while i > 0
      invariant 0 <= i <= |ops| && !crashed
      invariant Outcomes(ops) == rs
      invariant LeftToUndo(whole, deleted, UndoAll(c.oracle, c.net, reqs[..i], rs[..i]))
    {
      i := i - 1;
      UndoOne(c.oracle, c.net, reqs, rs, i, whole, deleted);
      match UndoOf(ops[i].req, ops[i].Outcome()) {
        case Skip =>
        case Crash =>
          crashed := true;
          return;
        case DeleteAt(url) =>
          var _ := c.DeleteUrl(url);
          deleted := deleted + [url];
      }
    }
  }

  /** A batch as a service sync builds it: pools first, then possibly an HTTP policy set, the virtual service last. */
  ghost predicate ServiceBatch(reqs: seq<Request>, pools: nat) {
    && pools < |reqs| <= pools + 2
    && (forall i :: 0 <= i < |reqs| ==> reqs[i].verb == Post)
    && (forall i :: 0 <= i < pools ==> reqs[i].model == "Pool" && reqs[i].obj.PoolObj?)
    && (|reqs| == pools + 2 ==> reqs[pools].model == "HTTPRequestPolicy" && reqs[pools].obj.HpsObj?)
    && reqs[|reqs| - 1].model == "VirtualService" && reqs[|reqs| - 1].obj.VsObj?
  }

  /** Every successful request is answered with the object that was posted. */
  ghost predicate Faithful(oracle: Oracle) {
    forall i :: 0 <= i < |oracle| ==> !oracle[i].verdict.Answer?
  }

  /** The uuid a faithful response carries. */
  function RespUuid(r: Result): string {
    if r.Succeeded? && r.resp.Array? && r.resp.elems != [] && r.resp.elems[0].Elem? && r.resp.elems[0].uuid.Some?
    then r.resp.elems[0].uuid.value else ""
  }

  ghost predicate Echoed(req: Request, r: Result) {
    r.Succeeded? && exists uuid, lb :: r.resp == EchoOf(req, uuid, lb)
  }

  lemma {:induction false} FaithfulResults(oracle: Oracle, net: Net, reqs: seq<Request>, i: nat)
    requires Faithful(oracle) && i < |reqs|
    ensures var r := Operate(oracle, net, reqs).results[i];
      r.Succeeded? ==> Echoed(reqs[i], r)
    decreases |reqs|
  {
    var (r, net1) := SendOne(oracle, net, reqs[0]);
    if r.Succeeded? {
      if i == 0 {
        assert r.resp == EchoOf(reqs[0], UuidOf(net.remote, reqs[0], Fate(oracle, net.clock).uuid),
            Fate(oracle, net.clock).verdict.lb);
      } else {
        FaithfulResults(oracle, net1, reqs[1..], i - 1);
      }
    }
  }

  /** The deletes for the first `n` pool operations of a batch, last first. */
  function PoolDeletes(results: seq<Result>, n: nat): seq<Url>
    requires n <= |results|
  {
    if n == 0 then [] else [Url(POOL_URL, RespUuid(results[n - 1]))] + PoolDeletes(results, n - 1)
  }

  lemma {:induction false} UndoPools(oracle: Oracle, net: Net, reqs: seq<Request>, results: seq<Result>, n: nat,
                                     stop: nat)
    requires n <= |reqs| == |results|
    requires forall i :: 0 <= i < n ==> reqs[i].model == "Pool" && reqs[i].obj.PoolObj?
    requires forall i :: 0 <= i < n ==> (results[i].Succeeded? <==> i < stop)
    requires forall i :: 0 <= i < n && i < stop ==> Echoed(reqs[i], results[i])
    ensures var u := UndoAll(oracle, net, reqs[..n], results[..n]);
      !u.crashed && u.deleted == PoolDeletes(results, if n < stop then n else stop)
    decreases n
  {
    if n > 0 {
      UndoTurn(oracle, net, reqs, results, n - 1);
      if n - 1 < stop {
        UndoEchoed(reqs[n - 1], results[n - 1]);
        PoolModel();
        UndoPools(oracle, EraseOne(oracle, net, Url(POOL_URL, RespUuid(results[n - 1]))), reqs, results, n - 1, stop);
      } else {
        UndoPools(oracle, net, reqs, results, n - 1, stop);
      }
    }
  }

  /**
   * Rolling back a failed service batch under faithful answers: one delete per created pool, at that pool's
   * own url, in reverse order of creation; no virtual service is ever deleted. The only other delete is the
   * one for the HTTP policy set, addressed to no API path at all, and it is issued exactly when the batch has
   * a policy set and failed at the virtual service.
   */
  lemma {:induction false} RollbackPlan(oracle: Oracle, net: Net, reqs: seq<Request>, pools: nat) returns (stop: nat)
    requires ServiceBatch(reqs, pools) && Faithful(oracle) && Operate(oracle, net, reqs).err.Some?
    ensures var b := Operate(oracle, net, reqs);
      var u := UndoAll(oracle, b.net, reqs, b.results);
      && stop < |reqs| && b.results[stop] == Failed(b.err.value)
      && !u.crashed
      && (if |reqs| == pools + 2 && stop == pools + 1
          then u.deleted == [Url("", RespUuid(b.results[pools]))] + PoolDeletes(b.results, pools)
          else u.deleted == PoolDeletes(b.results, if stop < pools then stop else pools))
      && forall url :: url in u.deleted ==> url.base != VS_URL
  {
    stop := BatchStops(oracle, net, reqs);
    var b := Operate(oracle, net, reqs);
    forall i | 0 <= i < stop
      ensures Echoed(reqs[i], b.results[i])
    {
      FaithfulResults(oracle, net, reqs, i);
    }
    UndoTail(oracle, b.net, reqs, b.results, pools, stop);
    PoolDeletesBase(b.results, if stop < pools then stop else pools);
  }

  /** One turn of the rollback loop. */
  lemma {:induction false} UndoTurn(oracle: Oracle, net: Net, reqs: seq<Request>, results: seq<Result>, n: nat)
    requires n < |reqs| == |results|
    ensures var u := UndoAll(oracle, net, reqs[..n + 1], results[..n + 1]);
      match UndoOf(reqs[n], results[n])
      case Crash => u.crashed
      case Skip => u == UndoAll(oracle, net, reqs[..n], results[..n])
      case DeleteAt(url) =>
        var rest := UndoAll(oracle, EraseOne(oracle, net, url), reqs[..n], results[..n]);
        u == rest.(deleted := [url] + rest.deleted)
  {
    assert reqs[..n + 1][..n] == reqs[..n] && results[..n + 1][..n] == results[..n];
  }

  lemma {:induction false} UndoEchoed(req: Request, r: Result)
    requires Echoed(req, r)
    ensures UndoOf(req, r) == DeleteAt(Url(AviModelToUrl(req.model), RespUuid(r)))
  {
  }

  lemma {:induction false} PoolModel()
    ensures AviModelToUrl("Pool") == POOL_URL
  {
  }

  lemma {:induction false} UnknownModel()
    ensures AviModelToUrl("HTTPRequestPolicy") == ""
  {
  }

  /** The turns before the loop reaches the pools. */
  lemma {:induction false} UndoTail(oracle: Oracle, net: Net, reqs: seq<Request>, results: seq<Result>, pools: nat,
                                    stop: nat)
    requires ServiceBatch(reqs, pools) && |results| == |reqs| && stop < |reqs|
    requires forall i :: 0 <= i < |reqs| ==> (results[i].Succeeded? <==> i < stop)
    requires forall i :: 0 <= i < stop ==> Echoed(reqs[i], results[i])
    ensures var u := UndoAll(oracle, net, reqs, results);
      var deletes := PoolDeletes(results, if stop < pools then stop else pools);
      && !u.crashed
      && u.deleted == if |reqs| == pools + 2
      && stop == pools + 1 then [Url("", RespUuid(results[pools]))] + deletes else deletes
  {
    UndoSkipsLast(oracle, net, reqs, results);
    if |reqs| == pools + 2 {
      UndoPolicy(oracle, net, reqs, results, pools, stop);
    } else {
      UndoPools(oracle, net, reqs, results, pools, stop);
    }
  }

  lemma {:induction false} UndoSkipsLast(oracle: Oracle, net: Net, reqs: seq<Request>, results: seq<Result>)
    requires reqs != [] && |reqs| == |results| && results[|reqs| - 1].Failed?
    ensures UndoAll(oracle, net, reqs, results) == UndoAll(oracle, net, reqs[..|reqs| - 1], results[..|reqs| - 1])
  {
  }

  /** The turn for the policy set, and those for the pools before it. */
  lemma {:induction false} UndoPolicy(oracle: Oracle, net: Net, reqs: seq<Request>, results: seq<Result>, pools: nat,
                                      stop: nat)
    requires ServiceBatch(reqs, pools) && |results| == |reqs| == pools + 2 && stop < |reqs|
    requires forall i :: 0 <= i < |reqs| ==> (results[i].Succeeded? <==> i < stop)
    requires forall i :: 0 <= i < stop ==> Echoed(reqs[i], results[i])
    ensures var u := UndoAll(oracle, net, reqs[..pools + 1], results[..pools + 1]);
      var deletes := PoolDeletes(results, if stop < pools then stop else pools);
      !u.crashed && u.deleted == if stop == pools + 1 then [Url("", RespUuid(results[pools]))] + deletes else deletes
  {
    UndoTurn(oracle, net, reqs, results, pools);
    if stop == pools + 1 {
      UndoEchoed(reqs[pools], results[pools]);
      UnknownModel();
      UndoPools(oracle, EraseOne(oracle, net, Url("", RespUuid(results[pools]))), reqs, results, pools, stop);
    } else {
      UndoPools(oracle, net, reqs, results, pools, stop);
    }
  }

  lemma {:induction false} PoolDeletesBase(results: seq<Result>, n: nat)
    requires n <= |results|
    ensures |PoolDeletes(results, n)| == n
    ensures forall url :: url in PoolDeletes(results, n) ==> url.base == POOL_URL
  {
    if n > 0 {
      PoolDeletesBase(results, n - 1);
    }
  }
}
