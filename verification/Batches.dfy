/** What a service sync sends, told in terms of the Service and the Endpoints alone. */
module Batches {
  import opened Strings
  import opened Wrappers
  import opened Model
  import opened PoolNames
  import opened Rest
  import opened Pools
  import opened VirtualServices
  import opened Sync
  import opened References

  // ---------- texts ----------

  /** The decimal text of an integer, without leading zeros. */
  ghost predicate Decimal(s: string, n: int) {
    if n < 0 then s != "" && s[0] == '-' && Decimal(s[1..], -n)
    else
      && (forall i :: 0 <= i < |s| ==> IsDigit(s[i]))
      && DigitsValue(s) == n && s != "" && (|s| > 1 ==> s[0] != '0')
  }

  lemma {:induction false} ItoaDecimal(n: nat)
    ensures Decimal(Itoa(n), n) && (n > 0 ==> Itoa(n)[0] != '0')
  {
    ItoaValue(n);
    if n >= 10 {
      ItoaDecimal(n / 10);
      assert Itoa(n)[0] == Itoa(n / 10)[0];
    }
  }

  /** There is one decimal text for each number. */
  lemma {:induction false} DecimalIsItoa(s: string, n: nat)
    requires Decimal(s, n)
    ensures s == Itoa(n)
    decreases |s|
  {
    var l := |s| - 1;
    assert s == s[..l] + [s[l]];
    assert IsDigit(s[l]);
    assert DigitsValue(s) == 10 * DigitsValue(s[..l]) + (s[l] as int - '0' as int);
    if l == 0 {
      assert DigitsValue(s[..0]) == 0;
    } else {
      LeadingDigit(s[..l]);
      DecimalIsItoa(s[..l], n / 10);
    }
  }

  /** A text that does not begin with a zero has a positive value. */
  lemma {:induction false} LeadingDigit(s: string)
    requires s != "" && s[0] != '0' && forall i :: 0 <= i < |s| ==> IsDigit(s[i])
    ensures DigitsValue(s) > 0
  {
    var l := |s| - 1;
    if l > 0 {
      LeadingDigit(s[..l]);
    } else {
      assert IsDigit(s[0]);
    }
  }

  /** `s` is how a target port is written: the decimal text of a number, or the name itself. */
  ghost predicate Written(tp: TargetPort, s: string) {
    match tp
    case Number(n) => Decimal(s, n)
    case Name(name) => s == name
  }

  lemma {:induction false} TextIsWritten(tp: TargetPort, s: string)
    ensures Written(tp, s) <==> s == tp.Text()
  {
    if tp.Number? {
      var n := if tp.n < 0 then -tp.n else tp.n;
      ItoaDecimal(n);
      var t := tp.Text();
      assert tp.n < 0 ==> t[1..] == Itoa(n);
      if Decimal(s, tp.n) {
        var digits := if tp.n < 0 then s[1..] else s;
        DecimalIsItoa(digits, n);
        assert tp.n < 0 ==> s == [s[0]] + s[1..];
      }
    }
  }

  /** `r` is `s` with every capital letter made small. */
  ghost predicate Lowered(s: string, r: string) {
    |r| == |s| && forall i :: 0 <= i < |s| ==> r[i] == if 'A' <= s[i] <= 'Z' then s[i] + 32 as char else s[i]
  }

  lemma {:induction false} LowerAt(s: string, i: nat)
    requires i < |s|
    ensures ToLower(s)[i] == if 'A' <= s[i] <= 'Z' then s[i] + 32 as char else s[i]
  {
    if i < |s| - 1 {
      LowerAt(s[..|s| - 1], i);
    }
  }

  lemma {:induction false} ToLowerIsLowered(s: string, r: string)
    ensures Lowered(s, r) <==> r == ToLower(s)
  {
    forall i | 0 <= i < |s|
      ensures ToLower(s)[i] == if 'A' <= s[i] <= 'Z' then s[i] + 32 as char else s[i]
    {
      LowerAt(s, i);
    }
  }

  /** `r` is what a protocol is called: in small letters, "tcp" when it is left out. */
  ghost predicate Called(protocol: string, r: string) {
    if protocol == "" then r == "tcp" else Lowered(protocol, r)
  }

  lemma {:induction false} ProtocolIsCalled(protocol: string, r: string)
    ensures Called(protocol, r) <==> r == Protocol(protocol)
  {
    ToLowerIsLowered(protocol, r);
  }

  // ---------- which service port a ready endpoint port stands for ----------

  /** An endpoint port stands for the first service port of its name; without a name, for the very first one. */
  ghost predicate StandsFor(ports: seq<ServicePort>, i: int, p: EndpointPort) {
    && 0 <= i < |ports|
    && if p.name == "" then i == 0
       else ports[i].name == p.name && forall j :: 0 <= j < i ==> ports[j].name != p.name
  }

  /** A port of a subset that has a ready address. */
  ghost predicate IsReady(subsets: seq<Subset>, p: EndpointPort) {
    exists i :: 0 <= i < |subsets| && subsets[i].addresses != [] && p in subsets[i].ports
  }

  /** An endpoint port asks for the pool of this port and protocol. */
  ghost predicate Asks(ports: seq<ServicePort>, p: EndpointPort, port: string, protocol: string) {
    && Called(p.protocol, protocol) && (p.name != "" ==> port != "")
    && exists i :: StandsFor(ports, i, p) && Written(ports[i].targetPort, port)
  }

  /** The first service port of a name, if there is one. */
  lemma {:induction false} FirstOfName(ports: seq<ServicePort>, p: EndpointPort)
    requires p.name != ""
    ensures TargetOf(ports, p.name) == "" || exists i :: StandsFor(ports, i, p)
    ensures forall i :: StandsFor(ports, i, p) ==> TargetOf(ports, p.name) == ports[i].targetPort.Text()
  {
    forall i | StandsFor(ports, i, p)
      ensures TargetOf(ports, p.name) == ports[i].targetPort.Text()
    {
      TargetOfPort(ports, i);
    }
    if ports != [] && ports[0].name == p.name {
      assert StandsFor(ports, 0, p);
    } else if ports != [] {
      FirstOfName(ports[1..], p);
      if TargetOf(ports, p.name) != "" {
        var i :| StandsFor(ports[1..], i, p);
        assert forall j :: 0 < j <= i ==> ports[j] == ports[1..][j - 1];
        assert StandsFor(ports, i + 1, p);
      }
    }
  }

  /** An endpoint port resolves to a port and protocol if and only if those are what it asks for. */
  lemma {:induction false} ResolvesExactly(svc: Service, p: EndpointPort, port: string, protocol: string)
    ensures ResolveOne(svc, p) == Port(PortProtocol(port, protocol)) <==> Asks(svc.ports, p, port, protocol)
  {
    ProtocolIsCalled(p.protocol, protocol);
    forall i | 0 <= i < |svc.ports|
      ensures Written(svc.ports[i].targetPort, port) <==> port == svc.ports[i].targetPort.Text()
    {
      TextIsWritten(svc.ports[i].targetPort, port);
    }
    if p.name != "" {
      FirstOfName(svc.ports, p);
    } else if svc.ports != [] {
      assert StandsFor(svc.ports, 0, p);
    }
  }

  lemma {:induction false} ReadyPortsExactly(subsets: seq<Subset>, p: EndpointPort)
    ensures p in ReadyPorts(subsets) <==> IsReady(subsets, p)
  {
    if subsets != [] {
      var n := |subsets| - 1;
      ReadyPortsExactly(subsets[..n], p);
      assert forall i :: 0 <= i < n ==> subsets[..n][i] == subsets[i];
    }
  }

  /** Some port and protocol that it asks for. */
  ghost predicate Answerable(ports: seq<ServicePort>, p: EndpointPort) {
    exists port, protocol :: Asks(ports, p, port, protocol)
  }

  lemma {:induction false} AnswerableExactly(svc: Service, p: EndpointPort)
    ensures ResolveOne(svc, p).Port? <==> Answerable(svc.ports, p)
  {
    if ResolveOne(svc, p).Port? {
      var pp := ResolveOne(svc, p).pp;
      ResolvesExactly(svc, p, pp.port, pp.protocol);
    }
    if Answerable(svc.ports, p) {
      var port, protocol :| Asks(svc.ports, p, port, protocol);
      ResolvesExactly(svc, p, port, protocol);
    }
  }

  lemma {:induction false} FoundExactly(svc: Service, ports: seq<EndpointPort>)
    ensures Resolve(svc, ports).Found? <==> forall p :: p in ports ==> ResolveOne(svc, p).Port?
  {
    if ports != [] {
      var n := |ports| - 1;
      FoundExactly(svc, ports[..n]);
      assert ports == ports[..n] + [ports[n]];
    }
  }

  /** Every ready endpoint port finds the service port it stands for. */
  ghost predicate AllAnswered(ports: seq<ServicePort>, ep: Endpoints) {
    forall p :: IsReady(ep.subsets, p) ==> Answerable(ports, p)
  }

  lemma {:induction false} AllAnsweredExactly(svc: Service, ep: Endpoints)
    ensures Resolve(svc, ReadyPorts(ep.subsets)).Found? <==> AllAnswered(svc.ports, ep)
  {
    var ports := ReadyPorts(ep.subsets);
    FoundExactly(svc, ports);
    forall p
      ensures p in ports <==> IsReady(ep.subsets, p)
      ensures ResolveOne(svc, p).Port? <==> Answerable(svc.ports, p)
    {
      ReadyPortsExactly(ep.subsets, p);
      AnswerableExactly(svc, p);
    }
  }

  /** Some ready endpoint port asks for a port and protocol that the pool `name` of the service is named after. */
  ghost predicate Wanted(service: string, ports: seq<ServicePort>, ep: Endpoints, name: string) {
    exists p, port, protocol :: IsReady(ep.subsets, p) && Asks(ports, p, port, protocol)
                                && name == service + "-pool-" + port + "-" + protocol
  }

  lemma {:induction false} WantedExactly(service: string, svc: Service, ep: Endpoints, order: seq<PortProtocol>,
                                         name: string)
    requires var r := Resolve(svc, ReadyPorts(ep.subsets)); r.Found? && Enumerates(order, r.pps)
    ensures name in NamesOf(service, order) <==> Wanted(service, svc.ports, ep, name)
  {
    var ports := ReadyPorts(ep.subsets);
    if name in NamesOf(service, order) {
      var n :| 0 <= n < |order| && NamesOf(service, order)[n] == name;
      var pp := order[n];
      assert pp in order;
      ResolveExact(svc, ports, pp);
      var i :| 0 <= i < |ports| && ResolveOne(svc, ports[i]) == Port(pp);
      assert ports[i] in ports;
      ReadyPortsExactly(ep.subsets, ports[i]);
      ResolvesExactly(svc, ports[i], pp.port, pp.protocol);
    }
    if Wanted(service, svc.ports, ep, name) {
      var p, port, protocol :| IsReady(ep.subsets, p) && Asks(svc.ports, p, port, protocol)
        && name == service + "-pool-" + port + "-" + protocol;
      ReadyPortsExactly(ep.subsets, p);
      ResolvesExactly(svc, p, port, protocol);
      var i :| 0 <= i < |ports| && ports[i] == p;
      var pp := PortProtocol(port, protocol);
      ResolveExact(svc, ports, pp);
      assert pp in order;
      var n :| 0 <= n < |order| && order[n] == pp;
      assert NamesOf(service, order)[n] == name;
    }
  }

  // ---------- the pools of a batch ----------

  /** The pool cache has the pool at this version of the Endpoints. */
  ghost predicate CachedAt(pools: PoolMap, ep: Endpoints, name: string) {
    NamespaceName(ep.ns, name) in pools && pools[NamespaceName(ep.ns, name)].cksum == ep.version
  }

  /** The posting of a pool. */
  ghost predicate PostsPool(r: Request, name: string) {
    && r.obj.PoolObj? && r.obj.pool.name == name
    && r == Request(Post, "/api/macro", r.obj.pool.tenant, "Pool", r.obj)
  }

  ghost predicate SomePosts(ops: seq<Request>, name: string) {
    exists r :: r in ops && PostsPool(r, name)
  }

  /** Of a list of names, those are posted that are not cached at this version. */
  lemma {:induction false} PostedExactly(pools: PoolMap, ep: Endpoints, hash: string, names: seq<string>,
                                         ops: seq<Request>, name: string)
    requires BuildOps(pools, ep, hash, names) == Ops(ops)
    ensures SomePosts(ops, name) <==> name in names && !CachedAt(pools, ep, name)
  {
    BuildOpsExact(pools, ep, hash, names);
    if SomePosts(ops, name) {
      var r :| r in ops && PostsPool(r, name);
      assert Requested(pools, ep, hash, names, r);
    }
    if name in names && !CachedAt(pools, ep, name) {
      var i :| 0 <= i < |names| && names[i] == name;
      assert Stale(pools, ep, name) && !Unreadable(pools, ep, names);
      var r := PoolRequest(PoolOf(ep, hash, name).value);
      assert Requested(pools, ep, hash, names, r);
      assert PostsPool(r, name);
    }
  }

  /**
   * A service sync posts exactly the pools that ready endpoint ports ask of the listed Service and that are not cached
   * at this version of the Endpoints: all named after the Service, its port as the Service writes it, and the protocol
   * of the endpoint port. A single ready port that finds no service port, or no listed Service, and no pool is posted.
   */
  lemma {:induction false} PoolsSent(pools: PoolMap, svc: Service, ep: Endpoints, listed: Option<Service>,
                                     order: seq<PortProtocol>, order2: seq<ListenerKey>, ops: seq<Request>,
                                     name: string)
    requires listed.Some? ==>
      var r := Resolve(listed.value, ReadyPorts(ep.subsets)); r.Found? ==> Enumerates(order, r.pps)
    requires ServiceOps(pools, svc, ep, listed, order, order2) == Ops(ops)
    ensures SomePosts(ops, name) <==>
            && listed.Some? && AllAnswered(listed.value.ports, ep)
            && Wanted(svc.name, listed.value.ports, ep, name) && !CachedAt(pools, ep, name)
  {
    var part := PoolPart(pools, svc, ep, listed, order).reqs;
    assert ops == part + VsOps(MetaOf(svc, part), order2);
    NoPoolAfter(svc, part, order2);
    assert SomePosts(ops, name) <==> SomePosts(part, name);
    if listed.Some? {
      AllAnsweredExactly(listed.value, ep);
      if AllAnswered(listed.value.ports, ep) {
        WantedExactly(svc.name, listed.value, ep, order, name);
        PostedExactly(pools, ep, CrudHashKey(svc.Key()), NamesOf(svc.name, order), part, name);
      }
    }
  }

  /** An unnamed ready port gets the pool of the first service port, in its own protocol. */
  lemma {:induction false} UnnamedPort(pools: PoolMap, svc: Service, ep: Endpoints, order: seq<PortProtocol>,
                                       order2: seq<ListenerKey>, ops: seq<Request>, p: EndpointPort, port: string,
                                       protocol: string)
    requires var r := Resolve(svc, ReadyPorts(ep.subsets)); r.Found? ==> Enumerates(order, r.pps)
    requires ServiceOps(pools, svc, ep, Some(svc), order, order2) == Ops(ops) && AllAnswered(svc.ports, ep)
    requires IsReady(ep.subsets, p) && p.name == "" && Called(p.protocol, protocol)
    requires svc.ports != [] && Written(svc.ports[0].targetPort, port)
    ensures ResolveOne(svc, p) == Port(PortProtocol(port, protocol))
    ensures var name := svc.name + "-pool-" + port + "-" + protocol;
      CachedAt(pools, ep, name) || SomePosts(ops, name)
  {
    assert StandsFor(svc.ports, 0, p);
    ResolvesExactly(svc, p, port, protocol);
    var name := svc.name + "-pool-" + port + "-" + protocol;
    PoolsSent(pools, svc, ep, Some(svc), order, order2, ops, name);
    assert Wanted(svc.name, svc.ports, ep, name);
  }

  lemma {:induction false} NoPoolAfter(svc: Service, part: seq<Request>, order2: seq<ListenerKey>)
    ensures forall r :: r in VsOps(MetaOf(svc, part), order2) ==> !r.obj.PoolObj?
  {
  }

  /** Whatever a service sync posts as a pool is this one. */
  lemma {:induction false} PoolSent(pools: PoolMap, svc: Service, ep: Endpoints, listed: Option<Service>,
                                    order: seq<PortProtocol>, order2: seq<ListenerKey>, ops: seq<Request>, r: Request)
    requires ServiceOps(pools, svc, ep, listed, order, order2) == Ops(ops) && r in ops && r.obj.PoolObj?
    ensures PoolOf(ep, svc.ns + ":" + svc.name, r.obj.pool.name) == Some(r.obj.pool)
    ensures PostsPool(r, r.obj.pool.name) && r.tenant == ep.ns
  {
    var part := PoolPart(pools, svc, ep, listed, order).reqs;
    NoPoolAfter(svc, part, order2);
    BuildOpsExact(pools, ep, CrudHashKey(svc.Key()), NamesOf(svc.name, order));
    assert Requested(pools, ep, CrudHashKey(svc.Key()), NamesOf(svc.name, order), r);
  }

  /** One of the links is that of the pool `name`. */
  ghost predicate LinkedTo(links: seq<string>, name: string) {
    exists i :: 0 <= i < |links| && PoolIn(links[i]) == Some(name)
  }

  lemma {:induction false} PoolsInExactly(links: seq<string>, name: string)
    requires PoolsIn(links).Some?
    ensures name in PoolsIn(links).value <==> LinkedTo(links, name)
  {
    if links != [] {
      var n := |links| - 1;
      PoolsInExactly(links[..n], name);
      if LinkedTo(links[..n], name) {
        var i :| 0 <= i < n && PoolIn(links[..n][i]) == Some(name);
        assert PoolIn(links[i]) == Some(name);
      }
      if LinkedTo(links, name) {
        var i :| 0 <= i < |links| && PoolIn(links[i]) == Some(name);
        assert i < n ==> PoolIn(links[..n][i]) == Some(name);
      }
    }
  }

  /** The Service is listed, and every ready endpoint port finds a port of it. */
  ghost predicate Goes(listed: Option<Service>, ep: Endpoints) {
    listed.Some? && AllAnswered(listed.value.ports, ep)
  }

  /**
   * An endpoints sync posts exactly the pools behind the links of its service that are not cached at this version of
   * the
   * Endpoints. When the Service is not listed, or a ready port finds no service port, it sends and changes nothing.
   */
  lemma {:induction false} EndpointsSent(oracle: Oracle, st: State, ep: Endpoints, listed: Option<Service>,
                                         links: seq<string>, ran: Ran, name: string)
    requires ran == SyncEndpoints(oracle, st, ep, listed, links) && ran.Ran?
    ensures !Goes(listed, ep) || links == [] ==> ran.ops == [] && ran.st == st
    ensures SomePosts(ran.ops, name) <==> Goes(listed, ep) && LinkedTo(links, name) && !CachedAt(st.pools, ep, name)
  {
    if listed.Some? {
      AllAnsweredExactly(listed.value, ep);
      if Goes(listed, ep) && links != [] {
        var names := PoolsIn(links).value;
        PoolsInExactly(links, name);
        PostedExactly(st.pools, ep, LastHash(st.pools, ep.ns, names), names, ran.ops, name);
      }
    }
  }

  // ---------- the contents of a pool ----------

  /** A port of a subset that the target port stands for: by number or by name, in the same protocol. */
  ghost predicate IsTarget(p: EndpointPort, tp: TargetPort, protocol: string) {
    && Lowered(p.protocol, protocol)
    && (Written(tp, p.name) || p.port == if tp.Number? then tp.n else 0)
  }

  /** Section 5.1 of RFC 6335: a port name has a letter in it. A port number has 32 bits. */
  ghost predicate ProperTarget(tp: TargetPort) {
    match tp
    case Number(n) => -0x8000_0000 <= n < 0x8000_0000
    case Name(s) => exists i :: 0 <= i < |s| && ('a' <= s[i] <= 'z' || 'A' <= s[i] <= 'Z')
  }

  /** What is not a number converts to zero. */
  lemma {:induction false} AtoiName(s: string, i: nat)
    requires i < |s| && !IsDigit(s[i]) && s[i] != '-' && s[i] != '+'
    ensures Atoi(s) == 0
  {
    if s[0] == '-' || s[0] == '+' {
      assert !IsDigit(s[1..][i - 1]);
    }
  }

  lemma {:induction false} AtoiNegative(k: int)
    requires 0 <= k <= MAX_INT64
    ensures Atoi("-" + Itoa(k)) == -k
  {
    ItoaValue(k);
    assert ("-" + Itoa(k))[1..] == Itoa(k);
  }

  lemma {:induction false} InRange(n: int)
    requires -0x8000_0000 <= n < 0x8000_0000
    ensures Int32(n) == n
  {
    if n < 0 {
      assert (n + 0x1_0000_0000) % 0x1_0000_0000 == n + 0x1_0000_0000;
    }
  }

  /** The number a target port is compared by: zero for a name, which has none. */
  lemma {:induction false} TargetNumber(tp: TargetPort)
    requires ProperTarget(tp)
    ensures Int32(Atoi(tp.Text())) == if tp.Number? then tp.n else 0
  {
    match tp
    case Number(n) =>
      InRange(n);
      if n < 0 {
        AtoiNegative(-n);
      } else {
        AtoiItoa(n);
      }
    case Name(s) =>
      InRange(0);
      var i: nat :| i < |s| && ('a' <= s[i] <= 'z' || 'A' <= s[i] <= 'Z');
      AtoiName(s, i);
  }

  lemma {:induction false} MatchesExactly(p: EndpointPort, tp: TargetPort, protocol: string)
    requires ProperTarget(tp)
    ensures Matches(p, tp.Text(), protocol) <==> IsTarget(p, tp, protocol)
  {
    TargetNumber(tp);
    TextIsWritten(tp, p.name);
    ToLowerIsLowered(p.protocol, protocol);
  }

  /** A subset one of whose ports the target port stands for. */
  ghost predicate Offers(s: Subset, tp: TargetPort, protocol: string) {
    exists j :: 0 <= j < |s.ports| && IsTarget(s.ports[j], tp, protocol)
  }

  /** `port` is the number of the first of them. */
  ghost predicate OffersAt(ports: seq<EndpointPort>, tp: TargetPort, protocol: string, port: int) {
    exists j :: 0 <= j < |ports| && IsTarget(ports[j], tp, protocol) && ports[j].port == port
                && forall i :: 0 <= i < j ==> !IsTarget(ports[i], tp, protocol)
  }

  lemma {:induction false} FirstMatchExactly(ports: seq<EndpointPort>, tp: TargetPort, protocol: string)
    requires ProperTarget(tp)
    ensures var m := FirstMatch(ports, tp.Text(), protocol);
      && (m.Some? ==> OffersAt(ports, tp, protocol, m.value))
      && (m.None? ==> forall j :: 0 <= j < |ports| ==> !IsTarget(ports[j], tp, protocol))
  {
    if ports != [] {
      MatchesExactly(ports[0], tp, protocol);
      if IsTarget(ports[0], tp, protocol) {
        assert OffersAt(ports, tp, protocol, ports[0].port);
      } else {
        var m := FirstMatch(ports[1..], tp.Text(), protocol);
        FirstMatchExactly(ports[1..], tp, protocol);
        assert forall j :: 0 < j < |ports| ==> ports[j] == ports[1..][j - 1];
        if m.Some? {
          var j :| 0 <= j < |ports| - 1 && IsTarget(ports[1..][j], tp, protocol) && ports[1..][j].port == m.value
            && forall i :: 0 <= i < j ==> !IsTarget(ports[1..][i], tp, protocol);
          assert ports[j + 1] == ports[1..][j];
        }
      }
    }
  }

  lemma {:induction false} OffersExactly(s: Subset, tp: TargetPort, protocol: string)
    requires ProperTarget(tp)
    ensures FirstMatch(s.ports, tp.Text(), protocol).Some? <==> Offers(s, tp, protocol)
  {
    FirstMatchExactly(s.ports, tp, protocol);
  }

  /** Where a server of a pool comes from: an address of a subset. */
  datatype Place = Place(subset: int, address: int)

  ghost predicate IsPlace(subsets: seq<Subset>, tp: TargetPort, protocol: string, at: Place) {
    && 0 <= at.subset < |subsets| && Offers(subsets[at.subset], tp, protocol)
    && 0 <= at.address < |subsets[at.subset].addresses|
  }

  ghost predicate Before(a: Place, b: Place) {
    a.subset < b.subset || (a.subset == b.subset && a.address < b.address)
  }

  /** The server has the address and the node at that place. */
  ghost predicate HeldAt(subsets: seq<Subset>, at: Place, s: Server) {
    && 0 <= at.subset < |subsets| && 0 <= at.address < |subsets[at.subset].addresses|
    && var a := subsets[at.subset].addresses[at.address];
       s.ip == a.ip && s.node == match a.node case Some(node) => node case None => ""
  }

  /** The servers are, in order, the ready addresses of the subsets that offer the target port, each once. */
  ghost predicate InOrder(subsets: seq<Subset>, tp: TargetPort, protocol: string, servers: seq<Server>,
                          places: seq<Place>) {
    && |places| == |servers|
    && (forall x :: 0 <= x < |places| ==> IsPlace(subsets, tp, protocol, places[x])
                                          && HeldAt(subsets, places[x], servers[x]))
    && (forall x, y :: 0 <= x < y < |places| ==> Before(places[x], places[y]))
    && (forall at :: IsPlace(subsets, tp, protocol, at) ==> at in places)
  }

  /** The places in one more subset at the end. */
  lemma {:induction false} PlacesSnoc(subsets: seq<Subset>, tp: TargetPort, protocol: string, at: Place)
    requires subsets != []
    ensures var n := |subsets| - 1;
      IsPlace(subsets, tp, protocol, at) <==>
      IsPlace(subsets[..n], tp, protocol, at)
      || (at.subset == n && Offers(subsets[n], tp, protocol) && 0 <= at.address < |subsets[n].addresses|)
  {
  }

  lemma {:induction false} ServersInOrder(subsets: seq<Subset>, tp: TargetPort, protocol: string, port: int)
    returns (places: seq<Place>)
    requires ProperTarget(tp)
    ensures InOrder(subsets, tp, protocol, WithPort(Addresses(Matching(subsets, tp.Text(), protocol)), port), places)
  {
    if subsets == [] {
      places := [];
    } else {
      var n := |subsets| - 1;
      var before := ServersInOrder(subsets[..n], tp, protocol, port);
      OffersExactly(subsets[n], tp, protocol);
      AddressesSnoc(subsets, tp.Text(), protocol);
      forall at
        ensures IsPlace(subsets, tp, protocol, at) <==>
                IsPlace(subsets[..n], tp, protocol, at)
                || (at.subset == n && Offers(subsets[n], tp, protocol) && 0 <= at.address < |subsets[n].addresses|)
      {
        PlacesSnoc(subsets, tp, protocol, at);
      }
      var last := if Offers(subsets[n], tp, protocol) then subsets[n].addresses else [];
      places := before + PlacesOf(n, |last|);
      JoinInOrder(subsets, tp, protocol, port, before, Addresses(Matching(subsets[..n], tp.Text(), protocol)), last);
    }
  }

  function PlacesOf(n: nat, m: nat): (r: seq<Place>)
    ensures |r| == m && forall j :: 0 <= j < m ==> r[j] == Place(n, j)
  {
    seq(m, j => Place(n, j))
  }

  lemma {:induction false} JoinInOrder(subsets: seq<Subset>, tp: TargetPort, protocol: string, port: int,
                                       before: seq<Place>, a: seq<Address>, b: seq<Address>)
    requires subsets != []
    requires var n := |subsets| - 1;
      && InOrder(subsets[..n], tp, protocol, WithPort(a, port), before)
      && b == (if Offers(subsets[n], tp, protocol) then subsets[n].addresses else [])
      && forall at :: IsPlace(subsets, tp, protocol, at) <==>
           IsPlace(subsets[..n], tp, protocol, at)
           || (at.subset == n && Offers(subsets[n], tp, protocol) && 0 <= at.address < |subsets[n].addresses|)
    ensures InOrder(subsets, tp, protocol, WithPort(a + b, port), before + PlacesOf(|subsets| - 1, |b|))
  {
    var n := |subsets| - 1;
    var places, servers := before + PlacesOf(n, |b|), WithPort(a + b, port);
    forall x | 0 <= x < |places|
      ensures IsPlace(subsets, tp, protocol, places[x]) && HeldAt(subsets, places[x], servers[x])
    {
      if x < |before| {
        assert IsPlace(subsets[..n], tp, protocol, before[x]) && HeldAt(subsets[..n], before[x], WithPort(a, port)[x]);
      }
    }
    forall at | IsPlace(subsets, tp, protocol, at)
      ensures at in places
    {
      if IsPlace(subsets[..n], tp, protocol, at) {
        assert at in before;
      } else {
        assert at == PlacesOf(n, |b|)[at.address];
      }
    }
  }

  /** `port` is the number that the last subset to offer the target port has for it. */
  ghost predicate OfferedLast(subsets: seq<Subset>, tp: TargetPort, protocol: string, port: int) {
    exists i :: 0 <= i < |subsets| && OffersAt(subsets[i].ports, tp, protocol, port)
                && forall j :: i < j < |subsets| ==> !Offers(subsets[j], tp, protocol)
  }

  lemma {:induction false} OfferedByLast(subsets: seq<Subset>, tp: TargetPort, protocol: string, port: int)
    requires subsets != [] && OffersAt(subsets[|subsets| - 1].ports, tp, protocol, port)
    ensures OfferedLast(subsets, tp, protocol, port)
  {
    assert OffersAt(subsets[|subsets| - 1].ports, tp, protocol, port);
  }

  lemma {:induction false} OfferedBefore(subsets: seq<Subset>, tp: TargetPort, protocol: string, port: int)
    requires subsets != [] && !Offers(subsets[|subsets| - 1], tp, protocol)
    requires OfferedLast(subsets[..|subsets| - 1], tp, protocol, port)
    ensures OfferedLast(subsets, tp, protocol, port)
  {
    var init := subsets[..|subsets| - 1];
    var i :| 0 <= i < |init| && OffersAt(init[i].ports, tp, protocol, port)
      && forall j :: i < j < |init| ==> !Offers(init[j], tp, protocol);
    forall j | i < j < |subsets|
      ensures !Offers(subsets[j], tp, protocol)
    {
      assert j < |init| ==> init[j] == subsets[j];
    }
    assert OffersAt(subsets[i].ports, tp, protocol, port);
  }

  /** A matching subset at the end decides the number; any other leaves it. */
  lemma {:induction false} LastPortSnoc(subsets: seq<Subset>, port: string, protocol: string)
    requires subsets != []
    ensures var n := |subsets| - 1;
      match FirstMatch(subsets[n].ports, port, protocol)
      case Some(p) => LastPort(subsets, port, protocol) == p
      case None =>
        && Matching(subsets, port, protocol) == Matching(subsets[..n], port, protocol)
        && LastPort(subsets, port, protocol) == LastPort(subsets[..n], port, protocol)
  {
  }

  lemma {:induction false} LastPortExactly(subsets: seq<Subset>, tp: TargetPort, protocol: string)
    requires ProperTarget(tp) && Matching(subsets, tp.Text(), protocol) != []
    ensures OfferedLast(subsets, tp, protocol, LastPort(subsets, tp.Text(), protocol))
  {
    var n, text := |subsets| - 1, tp.Text();
    var port := LastPort(subsets, text, protocol);
    LastPortSnoc(subsets, text, protocol);
    OffersExactly(subsets[n], tp, protocol);
    if FirstMatch(subsets[n].ports, text, protocol).Some? {
      FirstMatchExactly(subsets[n].ports, tp, protocol);
      OfferedByLast(subsets, tp, protocol, port);
    } else {
      LastPortExactly(subsets[..n], tp, protocol);
      OfferedBefore(subsets, tp, protocol, port);
    }
  }

  /** The servers of a target port, and the number they are given. */
  lemma {:induction false} ServersExactly(subsets: seq<Subset>, tp: TargetPort, protocol: string)
    returns (places: seq<Place>)
    requires ProperTarget(tp)
    ensures var servers := Servers(subsets, tp.Text(), protocol);
      && InOrder(subsets, tp, protocol, servers, places)
      && forall s :: s in servers ==> OfferedLast(subsets, tp, protocol, s.port)
  {
    var text := tp.Text();
    places := ServersInOrder(subsets, tp, protocol, LastPort(subsets, text, protocol));
    if Matching(subsets, text, protocol) != [] {
      LastPortExactly(subsets, tp, protocol);
    }
  }

  /** A pool whose name can be read back. */
  lemma {:induction false} PoolReadBack(ep: Endpoints, hash: string, service: string, port: string, protocol: string,
                                        pool: Pool)
    requires Recoverable(service, port, protocol)
    requires PoolOf(ep, hash, service + "-pool-" + port + "-" + protocol) == Some(pool)
    ensures pool == Pool(service + "-pool-" + port + "-" + protocol, ep.version, ep.ns, hash,
                         Servers(ep.subsets, port, protocol),
                         "/api/healthmonitor/?name=" + if protocol == "udp" then "System-UDP" else "System-TCP")
  {
    assert service + "-pool-" + port + "-" + protocol == Print(service, port, protocol);
    RoundTrip(service, port, protocol);
  }

  /**
   * The pool of a service, target port and protocol whose name can be read back holds, in order, the ready addresses of
   * the subsets that list the target port in that protocol, each with its node, all at the number that the last such
   * subset has for it. It is watched by the udp monitor exactly when the protocol is udp.
   */
  lemma {:induction false} PoolContents(ep: Endpoints, hash: string, service: string, tp: TargetPort, protocol: string,
                                        pool: Pool) returns (places: seq<Place>)
    requires ProperTarget(tp) && Recoverable(service, tp.Text(), protocol)
    requires PoolOf(ep, hash, service + "-pool-" + tp.Text() + "-" + protocol) == Some(pool)
    ensures pool.name == service + "-pool-" + tp.Text() + "-" + protocol
    ensures pool.cksum == ep.version && pool.tenant == ep.ns && pool.crudHashKey == hash
    ensures pool.healthMonitor ==
            "/api/healthmonitor/?name=" + if protocol == "udp" then "System-UDP" else "System-TCP"
    ensures InOrder(ep.subsets, tp, protocol, pool.servers, places)
    ensures forall s :: s in pool.servers ==> OfferedLast(ep.subsets, tp, protocol, s.port)
  {
    PoolReadBack(ep, hash, service, tp.Text(), protocol, pool);
    places := ServersExactly(ep.subsets, tp, protocol);
  }

  /**
   * An endpoint port that leaves its protocol out asks for a tcp pool, but serves none: where all ports do so, the pool
   * is posted without servers.
   */
  lemma {:induction false} UnsaidProtocol(ep: Endpoints, hash: string, service: string, tp: TargetPort, pool: Pool)
    requires ProperTarget(tp) && Recoverable(service, tp.Text(), "tcp")
    requires forall i, j :: 0 <= i < |ep.subsets| && 0 <= j < |ep.subsets[i].ports| ==>
               ep.subsets[i].ports[j].protocol == ""
    requires PoolOf(ep, hash, service + "-pool-" + tp.Text() + "-" + "tcp") == Some(pool)
    ensures Called("", "tcp") && pool.servers == []
  {
    var places := PoolContents(ep, hash, service, tp, "tcp", pool);
    SomeOffer(ep.subsets, tp, "tcp", pool.servers, places);
  }

  lemma {:induction false} SomeOffer(subsets: seq<Subset>, tp: TargetPort, protocol: string, servers: seq<Server>,
                                     places: seq<Place>)
    requires InOrder(subsets, tp, protocol, servers, places)
    ensures servers == [] || exists i :: 0 <= i < |subsets| && Offers(subsets[i], tp, protocol)
  {
    if places != [] {
      assert IsPlace(subsets, tp, protocol, places[0]);
    }
  }
}
