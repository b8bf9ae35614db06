/** From Endpoints to pools: which ports are served, what the pools are called, and which servers they hold. */
module Pools {
  import opened Strings
  import opened Wrappers
  import opened Model
  import opened PoolNames
  import opened Rest

  datatype PortProtocol = PortProtocol(port: string, protocol: string)

  // ---------- which ports have ready endpoints ----------

  /** The target port of the first service port of that name, or "" when there is none. */
  function TargetOf(ports: seq<ServicePort>, name: string): string {
    if ports == [] then ""
    else if ports[0].name == name then ports[0].targetPort.Text()
    else TargetOf(ports[1..], name)
  }

  datatype Resolved = Port(pp: PortProtocol) | Unmatched | NoPorts

  /** One endpoint port: matched by name, or the first service port when it has no name. */
  function ResolveOne(svc: Service, p: EndpointPort): Resolved {
    if p.name != "" then
      var target := TargetOf(svc.ports, p.name);
      if target == "" then Unmatched else Port(PortProtocol(target, Protocol(p.protocol)))
    else if svc.ports == [] then NoPorts
    else Port(PortProtocol(svc.ports[0].targetPort.Text(), Protocol(p.protocol)))
  }

  /** The ports of the subsets that have a ready address, in order. */
  function ReadyPorts(subsets: seq<Subset>): seq<EndpointPort> {
    if subsets == [] then []
    else
      var n := |subsets| - 1;
      ReadyPorts(subsets[..n]) + (if subsets[n].addresses == [] then [] else subsets[n].ports)
  }

  datatype Ports = Found(pps: set<PortProtocol>) | NotFound | Crashed

  /** All of them, or the first failure. */
  function Resolve(svc: Service, ports: seq<EndpointPort>): Ports {
    if ports == [] then Found({})
    else
      var n := |ports| - 1;
      match Resolve(svc, ports[..n])
      case Found(pps) => (
        match ResolveOne(svc, ports[n])
        case Port(pp) => Found(pps + {pp})
        case Unmatched => NotFound
        case NoPorts => Crashed
      )
      case bad => bad
  }

  lemma {:induction false} ResolveFailsEarly(svc: Service, a: seq<EndpointPort>, b: seq<EndpointPort>)
    requires !Resolve(svc, a).Found?
    ensures Resolve(svc, a + b) == Resolve(svc, a)
    decreases |b|
  {
    if b == [] {
      assert a + b == a;
    } else {
      var n := |b| - 1;
      ResolveFailsEarly(svc, a, b[..n]);
      assert (a + b)[..|a + b| - 1] == a + b[..n];
    }
  }

  /** The found set holds exactly what the ready ports resolve to, one by one. */
  lemma {:induction false} ResolveExact(svc: Service, ports: seq<EndpointPort>, pp: PortProtocol)
    requires Resolve(svc, ports).Found?
    ensures pp in Resolve(svc, ports).pps <==> exists i :: 0 <= i < |ports| && ResolveOne(svc, ports[i]) == Port(pp)
  {
    if ports != [] {
      var n := |ports| - 1;
      ResolveExact(svc, ports[..n], pp);
      if exists i :: 0 <= i < n && ResolveOne(svc, ports[..n][i]) == Port(pp) {
        var i :| 0 <= i < n && ResolveOne(svc, ports[..n][i]) == Port(pp);
        assert ResolveOne(svc, ports[i]) == Port(pp);
      }
      if exists i :: 0 <= i <= n && ResolveOne(svc, ports[i]) == Port(pp) {
        var i :| 0 <= i <= n && ResolveOne(svc, ports[i]) == Port(pp);
        assert i < n ==> ResolveOne(svc, ports[..n][i]) == Port(pp);
      }
    }
  }

  /** The lookup crashes exactly for a Service without ports whose first ready endpoint port has no name. */
  lemma {:induction false} ResolveCrashes(svc: Service, ports: seq<EndpointPort>)
    ensures Resolve(svc, ports).Crashed? <==> svc.ports == [] && ports != [] && ports[0].name == ""
    ensures svc.ports == [] && ports != [] && ports[0].name != "" ==> Resolve(svc, ports).NotFound?
  {
    if ports != [] {
      var n := |ports| - 1;
      ResolveCrashes(svc, ports[..n]);
      assert n > 0 ==> ports[..n][0] == ports[0];
    }
  }

  /** The lookup as the source runs it. */
  method FindTarget(ports: seq<ServicePort>, name: string) returns (target: string)
    ensures target == TargetOf(ports, name)
  {
    assert ports[0..] == ports;
    for i := 0 to |ports|
      invariant TargetOf(ports, name) == TargetOf(ports[i..], name)
    {
      assert ports[i..][1..] == ports[i + 1..];
      if ports[i].name == name {
        return ports[i].targetPort.Text();
      }
    }
    return "";
  }

  lemma {:induction false} ResolveSnoc(svc: Service, before: seq<EndpointPort>, ports: seq<EndpointPort>, j: nat,
                                       pps: set<PortProtocol>)
    requires j < |ports| && Resolve(svc, before + ports[..j]) == Found(pps)
    ensures Resolve(svc, before + ports[..j + 1]) ==
            match ResolveOne(svc, ports[j])
            case Port(pp) => Found(pps + {pp})
            case Unmatched => NotFound
            case NoPorts => Crashed
  {
    var upto := before + ports[..j + 1];
    assert upto[..|upto| - 1] == before + ports[..j] && upto[|upto| - 1] == ports[j];
  }

  lemma {:induction false} SubsetFailsEarly(svc: Service, before: seq<EndpointPort>, ports: seq<EndpointPort>, j: nat)
    requires j <= |ports| && !Resolve(svc, before + ports[..j]).Found?
    ensures Resolve(svc, before + ports) == Resolve(svc, before + ports[..j])
  {
    assert before + ports == (before + ports[..j]) + ports[j..];
    ResolveFailsEarly(svc, before + ports[..j], ports[j..]);
  }

  /** The inner loop over the ports of one subset. */
  method ResolveSubset(svc: Service, ghost before: seq<EndpointPort>, ports: seq<EndpointPort>,
                       start: set<PortProtocol>) returns (r: Ports)
    requires Resolve(svc, before) == Found(start)
    ensures r == Resolve(svc, before + ports)
  {
    var pps := start;
    assert before + ports[..0] == before;
    for j := 0 to |ports|
      invariant Resolve(svc, before + ports[..j]) == Found(pps)
    {
      var one := ResolvePort(svc, ports[j]);
      ResolveSnoc(svc, before, ports, j, pps);
      if !one.Port? {
        SubsetFailsEarly(svc, before, ports, j + 1);
        return if one.Unmatched? then NotFound else Crashed;
      }
      pps := pps + {one.pp};
    }
    assert ports[..|ports|] == ports;
    r := Found(pps);
  }

  /** The nested loops that fill the port map; the first endpoint port without a match ends them. */
  method ResolvePorts(svc: Service, ep: Endpoints) returns (r: Ports)
    ensures r == Resolve(svc, ReadyPorts(ep.subsets))
  {
    r := Found({});
    for i := 0 to |ep.subsets|
      invariant r.Found? && r == Resolve(svc, ReadyPorts(ep.subsets[..i]))
    {
      var ss := ep.subsets[i];
      ReadySnoc(ep.subsets, i);
      if |ss.addresses| > 0 {
        r := ResolveSubset(svc, ReadyPorts(ep.subsets[..i]), ss.ports, r.pps);
        if !r.Found? {
          ReadyFailsEarly(svc, ep.subsets, i + 1);
          return;
        }
      }
    }
    assert ep.subsets[..|ep.subsets|] == ep.subsets;
  }

  lemma {:induction false} ReadySnoc(subsets: seq<Subset>, i: nat)
    requires i < |subsets|
    ensures ReadyPorts(subsets[..i + 1]) ==
            if subsets[i].addresses == [] then ReadyPorts(subsets[..i]) else ReadyPorts(subsets[..i]) + subsets[i].ports
  {
    assert subsets[..i + 1][..i] == subsets[..i];
    assert ReadyPorts(subsets[..i]) + [] == ReadyPorts(subsets[..i]);
  }

  /** A failure among the first subsets is the result for all of them. */
  lemma {:induction false} ReadyFailsEarly(svc: Service, subsets: seq<Subset>, i: nat)
    requires i <= |subsets| && !Resolve(svc, ReadyPorts(subsets[..i])).Found?
    ensures Resolve(svc, ReadyPorts(subsets)) == Resolve(svc, ReadyPorts(subsets[..i]))
    decreases |subsets|
  {
    if i == |subsets| {
      assert subsets[..i] == subsets;
    } else {
      var n := |subsets| - 1;
      assert subsets[..n][..i] == subsets[..i] && subsets[..n + 1] == subsets;
      ReadyFailsEarly(svc, subsets[..n], i);
      ReadySnoc(subsets, n);
      ResolveFailsEarly(svc, ReadyPorts(subsets[..n]), subsets[n].ports);
    }
  }

  method ResolvePort(svc: Service, p: EndpointPort) returns (r: Resolved)
    ensures r == ResolveOne(svc, p)
  {
    var target;
    if p.name != "" {
      target := FindTarget(svc.ports, p.name);
      if target == "" {
        return Unmatched;
      }
    } else if |svc.ports| == 0 {
      return NoPorts;
    } else {
      target := svc.ports[0].targetPort.Text();
    }
    r := Port(PortProtocol(target, Protocol(p.protocol)));
  }

  // ---------- which servers a pool holds ----------

  predicate Matches(p: EndpointPort, port: string, protocol: string) {
    (Int32(Atoi(port)) == p.port || port == p.name) && protocol == ToLower(p.protocol)
  }

  /** The number of the first port of a subset that matches. */
  function FirstMatch(ports: seq<EndpointPort>, port: string, protocol: string): Option<int> {
    if ports == [] then None
    else if Matches(ports[0], port, protocol) then Some(ports[0].port)
    else FirstMatch(ports[1..], port, protocol)
  }

  /** The subsets with a matching port, in order. */
  function Matching(subsets: seq<Subset>, port: string, protocol: string): seq<Subset> {
    if subsets == [] then []
    else
      var n := |subsets| - 1;
      Matching(subsets[..n], port, protocol)
        + (if FirstMatch(subsets[n].ports, port, protocol).Some? then [subsets[n]] else [])
  }

  /** The ready addresses of a list of subsets, in order. */
  function Addresses(subsets: seq<Subset>): seq<Address> {
    if subsets == [] then []
    else Addresses(subsets[..|subsets| - 1]) + subsets[|subsets| - 1].addresses
  }

  /** The port number of the last subset that matches, zero when none does. */
  function LastPort(subsets: seq<Subset>, port: string, protocol: string): int {
    var m := Matching(subsets, port, protocol);
    if m == [] then 0
    else match FirstMatch(m[|m| - 1].ports, port, protocol)
      case Some(n) => n
      case None => 0
  }

  function NodeOf(a: Address): string {
    match a.node
    case Some(n) => n
    case None => ""
  }

  /** Every collected address, each with the same port number. */
  function WithPort(addresses: seq<Address>, port: int): (r: seq<Server>)
    ensures |r| == |addresses|
  {
    seq(|addresses|, i requires 0 <= i < |addresses| => Server(addresses[i].ip, port, NodeOf(addresses[i])))
  }

  /** The servers of a pool: the ready addresses of exactly the matching subsets, all with the last match's port. */
  function Servers(subsets: seq<Subset>, port: string, protocol: string): seq<Server> {
    WithPort(Addresses(Matching(subsets, port, protocol)), LastPort(subsets, port, protocol))
  }

  method MatchPort(ports: seq<EndpointPort>, port: string, protocol: string) returns (r: Option<int>)
    ensures r == FirstMatch(ports, port, protocol)
  {
    var number := Int32(Atoi(port));
    assert ports[0..] == ports;
    for i := 0 to |ports|
      invariant FirstMatch(ports, port, protocol) == FirstMatch(ports[i..], port, protocol)
    {
      assert ports[i..][1..] == ports[i + 1..];
      if (number == ports[i].port || port == ports[i].name) && protocol == ToLower(ports[i].protocol) {
        return Some(ports[i].port);
      }
    }
    return None;
  }

  /** The loops over subsets and addresses, with the port number overwritten at every match. */
  method SelectServers(subsets: seq<Subset>, port: string, protocol: string) returns (servers: seq<Server>)
    ensures servers == Servers(subsets, port, protocol)
  {
    var poolPort := 0;
    var chosen: seq<Address> := [];
    for i := 0 to |subsets|
      invariant chosen == Addresses(Matching(subsets[..i], port, protocol))
      invariant poolPort == LastPort(subsets[..i], port, protocol)
    {
      assert subsets[..i + 1][..i] == subsets[..i];
      var m := MatchPort(subsets[i].ports, port, protocol);
      ghost var before := Matching(subsets[..i], port, protocol);
      if m.Some? {
        assert (before + [subsets[i]])[..|before|] == before;
        poolPort := m.value;
        chosen := chosen + subsets[i].addresses;
      } else {
        assert before + [] == before;
      }
    }
    assert subsets[..|subsets|] == subsets;
    servers := [];
    for i := 0 to |chosen|
      invariant servers == WithPort(chosen[..i], poolPort)
    {
      servers := servers + [Server(chosen[i].ip, poolPort, NodeOf(chosen[i]))];
    }
    assert chosen[..|chosen|] == chosen;
  }

  // ---------- what port a server really gets ----------

  /** What one would expect: each address with the port its own subset matched. */
  function OwnServers(subsets: seq<Subset>, port: string, protocol: string): seq<Server> {
    if subsets == [] then []
    else
      var n := |subsets| - 1;
      OwnServers(subsets[..n], port, protocol) +
        (match FirstMatch(subsets[n].ports, port, protocol)
         case Some(p) => WithPort(subsets[n].addresses, p)
         case None => [])
  }

  /** Every matching subset with a ready address matches at the port number `p`. */
  ghost predicate SamePort(subsets: seq<Subset>, port: string, protocol: string, p: int) {
    forall i :: 0 <= i < |subsets| && subsets[i].addresses != [] && FirstMatch(subsets[i].ports, port, protocol).Some?
                ==> FirstMatch(subsets[i].ports, port, protocol) == Some(p)
  }

  lemma {:induction false} SamePortSnoc(subsets: seq<Subset>, port: string, protocol: string, p: int)
    requires subsets != []
    ensures var n := |subsets| - 1;
      var m := FirstMatch(subsets[n].ports, port, protocol);
      SamePort(subsets, port, protocol, p) <==>
      SamePort(subsets[..n], port, protocol, p) && (subsets[n].addresses != [] && m.Some? ==> m == Some(p))
  {
    var n := |subsets| - 1;
    assert forall i :: 0 <= i < n ==> subsets[..n][i] == subsets[i];
  }

  lemma {:induction false} AddressesSnoc(subsets: seq<Subset>, port: string, protocol: string)
    requires subsets != []
    ensures var n := |subsets| - 1;
      Addresses(Matching(subsets, port, protocol)) == Addresses(Matching(subsets[..n], port, protocol))
        + (if FirstMatch(subsets[n].ports, port, protocol).Some? then subsets[n].addresses else [])
  {
    var n := |subsets| - 1;
    var m := Matching(subsets[..n], port, protocol);
    assert (m + [subsets[n]])[..|m|] == m;
    assert m + [] == m;
  }

  lemma {:induction false} OwnServersSamePort(subsets: seq<Subset>, port: string, protocol: string, p: int)
    ensures OwnServers(subsets, port, protocol) == WithPort(Addresses(Matching(subsets, port, protocol)), p)
        <==> SamePort(subsets, port, protocol, p)
    ensures |OwnServers(subsets, port, protocol)| == |Addresses(Matching(subsets, port, protocol))|
  {
    if subsets != [] {
      var n := |subsets| - 1;
      OwnServersSamePort(subsets[..n], port, protocol, p);
      SamePortSnoc(subsets, port, protocol, p);
      AddressesSnoc(subsets, port, protocol);
      var own, a := OwnServers(subsets[..n], port, protocol), Addresses(Matching(subsets[..n], port, protocol));
      match FirstMatch(subsets[n].ports, port, protocol)
      case Some(q) => AppendPort(own, a, subsets[n].addresses, q, p);
      case None => AppendPort(own, a, [], p, p);
    }
  }

  lemma {:induction false} AppendPort(own: seq<Server>, a: seq<Address>, b: seq<Address>, q: int, p: int)
    requires |own| == |a|
    ensures own + WithPort(b, q) == WithPort(a + b, p) <==> own == WithPort(a, p) && (b == [] || q == p)
  {
    var l, r := own + WithPort(b, q), WithPort(a + b, p);
    assert r == WithPort(a, p) + WithPort(b, p);
    if l == r {
      assert own == l[..|a|] == r[..|a|] == WithPort(a, p);
      assert b != [] ==> l[|a|].port == q && r[|a|].port == p;
    }
  }

  /**
   * Each server carries the port its own subset matched if and only if all matching subsets with a ready
   * address match at one number, the one of the last matching subset.
   */
  lemma {:induction false} ServersKeepTheirPort(subsets: seq<Subset>, port: string, protocol: string)
    ensures Servers(subsets, port, protocol) == OwnServers(subsets, port, protocol)
        <==> SamePort(subsets, port, protocol, LastPort(subsets, port, protocol))
  {
    OwnServersSamePort(subsets, port, protocol, LastPort(subsets, port, protocol));
  }

  // ---------- numeric and named target ports ----------

  lemma {:induction false} AtoiItoa(k: nat)
    requires k <= MAX_INT64
    ensures Atoi(Itoa(k)) == k
  {
    var s := Itoa(k);
    ItoaValue(k);
    assert IsDigit(s[0]);
  }

  /** Section 5.1 of RFC 6335: a port name holds at least one letter, so it is never the text of a number. */
  predicate NotANumber(name: string) {
    name == "" || exists i :: 0 <= i < |name| && !IsDigit(name[i])
  }

  ghost predicate ProperNames(subsets: seq<Subset>) {
    forall i, j :: 0 <= i < |subsets| && 0 <= j < |subsets[i].ports| ==> NotANumber(subsets[i].ports[j].name)
  }

  /** Some port of the subset has that number and protocol. */
  ghost predicate Lists(ports: seq<EndpointPort>, k: nat, protocol: string) {
    exists j :: 0 <= j < |ports| && ports[j].port == k && ToLower(ports[j].protocol) == protocol
  }

  lemma {:induction false} NumericMatch(ports: seq<EndpointPort>, k: nat, protocol: string)
    requires 0 < k < 0x8000_0000 && forall j :: 0 <= j < |ports| ==> NotANumber(ports[j].name)
    ensures var m := FirstMatch(ports, Itoa(k), protocol);
      m.Some? ==> m == Some(k) && Lists(ports, k, protocol)
  {
    if ports != [] {
      if Matches(ports[0], Itoa(k), protocol) {
        NumericMatches(ports[0], k, protocol);
      } else {
        NumericMatch(ports[1..], k, protocol);
        if Lists(ports[1..], k, protocol) {
          var j :| 0 <= j < |ports[1..]| && ports[1..][j].port == k && ToLower(ports[1..][j].protocol) == protocol;
          assert ports[j + 1] == ports[1..][j];
        }
      }
    }
  }

  lemma {:induction false} NumericMatches(p: EndpointPort, k: nat, protocol: string)
    requires 0 < k < 0x8000_0000 && NotANumber(p.name) && Matches(p, Itoa(k), protocol)
    ensures p.port == k && ToLower(p.protocol) == protocol
  {
    AtoiItoa(k);
    ItoaValue(k);
  }

  /**
   * For a positive numeric target port every server is built with the port its own subset lists: the
   * target port itself.
   */
  lemma {:induction false} NumericPortServers(subsets: seq<Subset>, k: nat, protocol: string)
    requires 0 < k < 0x8000_0000 && ProperNames(subsets)
    ensures Servers(subsets, Itoa(k), protocol) == OwnServers(subsets, Itoa(k), protocol)
    ensures forall i :: 0 <= i < |subsets| && FirstMatch(subsets[i].ports, Itoa(k), protocol).Some? ==>
              Lists(subsets[i].ports, k, protocol)
    ensures forall s :: s in Servers(subsets, Itoa(k), protocol) ==> s.port == k
  {
    forall i | 0 <= i < |subsets|
      ensures var m := FirstMatch(subsets[i].ports, Itoa(k), protocol);
        m.Some? ==> m == Some(k) && Lists(subsets[i].ports, k, protocol)
    {
      NumericMatch(subsets[i].ports, k, protocol);
    }
    LastPortOf(subsets, Itoa(k), protocol, k);
    ServersKeepTheirPort(subsets, Itoa(k), protocol);
  }

  /** When every match is at `k`, the last one is too, and with no match there are no servers. */
  lemma {:induction false} LastPortOf(subsets: seq<Subset>, port: string, protocol: string, k: int)
    requires forall i :: 0 <= i < |subsets| && FirstMatch(subsets[i].ports, port, protocol).Some? ==>
      FirstMatch(subsets[i].ports, port, protocol) == Some(k)
    ensures if Matching(subsets, port, protocol) == [] then SamePort(subsets, port, protocol, 0)
      && Addresses(Matching(subsets, port, protocol)) == []
            else LastPort(subsets, port, protocol) == k
  {
    if subsets != [] {
      var n := |subsets| - 1;
      assert forall i :: 0 <= i < n ==> subsets[..n][i] == subsets[i];
      LastPortOf(subsets[..n], port, protocol, k);
      SamePortSnoc(subsets, port, protocol, 0);
    }
  }

  /** A named port that stands for two numbers: the first subset's server gets a port its subset does not list. */
  lemma {:induction false} NamedPortCrossed()
    ensures var s1 := Subset([Address("10.0.0.1", None)], [EndpointPort("web", "TCP", 8080)]);
      var s2 := Subset([Address("10.0.0.2", None)], [EndpointPort("web", "TCP", 9090)]);
      FirstMatch(s1.ports, "web", "tcp") == Some(8080)
        && WithPort(s1.addresses, 9090) <= Servers([s1, s2], "web", "tcp")
  {
    var s1 := Subset([Address("10.0.0.1", None)], [EndpointPort("web", "TCP", 8080)]);
    var s2 := Subset([Address("10.0.0.2", None)], [EndpointPort("web", "TCP", 9090)]);
    LowerTcp();
    assert Matches(s1.ports[0], "web", "tcp") && Matches(s2.ports[0], "web", "tcp");
    TwoSubsets(s1, s2, "web", "tcp");
  }

  /** Two matching subsets: every server gets the port of the second. */
  lemma {:induction false} TwoSubsets(s1: Subset, s2: Subset, port: string, protocol: string)
    requires FirstMatch(s1.ports, port, protocol).Some? && FirstMatch(s2.ports, port, protocol).Some?
    ensures var p := FirstMatch(s2.ports, port, protocol).value;
      Servers([s1, s2], port, protocol) == WithPort(s1.addresses, p) + WithPort(s2.addresses, p)
  {
    assert [s1, s2][..1] == [s1] && [s1][..0] == [];
    assert Matching([s1], port, protocol) == [s1];
    assert Matching([s1, s2], port, protocol) == [s1, s2];
    assert Addresses([s1]) == s1.addresses;
    assert Addresses([s1, s2]) == s1.addresses + s2.addresses;
  }

  lemma {:induction false} LowerTcp()
    ensures ToLower("TCP") == "tcp"
  {
    assert "TCP"[..2] == "TC" && "TC"[..1] == "T" && "T"[..0] == "";
  }

  // ---------- pool operations ----------

  const MACRO := "/api/macro"
  const TCP_MONITOR := "/api/healthmonitor/?name=System-TCP"
  const UDP_MONITOR := "/api/healthmonitor/?name=System-UDP"

  /** The pool an Endpoints object gives under a pool name; None when the name cannot be read back. */
  function PoolOf(ep: Endpoints, crudHashKey: string, name: string): Option<Pool> {
    match Parse(name)
    case Panic => None
    case Ok(port, protocol) =>
      Some(Pool(name, ep.version, ep.ns, crudHashKey, Servers(ep.subsets, port, protocol),
                if protocol == "udp" then UDP_MONITOR else TCP_MONITOR))
  }

  function PoolRequest(pool: Pool): Request {
    Request(Post, MACRO, pool.tenant, "Pool", PoolObj(pool))
  }

  type PoolMap = map<NamespaceName, PoolEntry>

  /** The pool is not cached at this version of the Endpoints, so it has to be posted. */
  predicate Stale(pools: PoolMap, ep: Endpoints, name: string) {
    var k := NamespaceName(ep.ns, name);
    k !in pools || pools[k].cksum != ep.version
  }

  datatype Ops = Ops(reqs: seq<Request>) | Panicked

  function BuildOps(pools: PoolMap, ep: Endpoints, crudHashKey: string, names: seq<string>): Ops {
    if names == [] then Ops([])
    else
      var n := |names| - 1;
      match BuildOps(pools, ep, crudHashKey, names[..n])
      case Panicked => Panicked
      case Ops(reqs) =>
        if !Stale(pools, ep, names[n]) then Ops(reqs)
        else match PoolOf(ep, crudHashKey, names[n])
          case None => Panicked
          case Some(pool) => Ops(reqs + [PoolRequest(pool)])
  }

  /** The request for one of the names. */
  ghost predicate Requested(pools: PoolMap, ep: Endpoints, crudHashKey: string, names: seq<string>, r: Request) {
    exists i :: 0 <= i < |names| && Stale(pools, ep, names[i]) && PoolOf(ep, crudHashKey, names[i]).Some?
                && r == PoolRequest(PoolOf(ep, crudHashKey, names[i]).value)
  }

  ghost predicate Unreadable(pools: PoolMap, ep: Endpoints, names: seq<string>) {
    exists i :: 0 <= i < |names| && Stale(pools, ep, names[i]) && Parse(names[i]) == Panic
  }

  /** A batch is refused exactly when a stale name cannot be read back. */
  lemma {:induction false} BuildOpsPanics(pools: PoolMap, ep: Endpoints, crudHashKey: string, names: seq<string>)
    ensures BuildOps(pools, ep, crudHashKey, names) == Panicked <==> Unreadable(pools, ep, names)
  {
    if names != [] {
      BuildOpsPanics(pools, ep, crudHashKey, names[..|names| - 1]);
      UnreadableSnoc(pools, ep, names);
    }
  }

  lemma {:induction false} BuildOpsMember(pools: PoolMap, ep: Endpoints, crudHashKey: string, names: seq<string>,
                                          r: Request)
    requires BuildOps(pools, ep, crudHashKey, names).Ops?
    ensures r in BuildOps(pools, ep, crudHashKey, names).reqs <==> Requested(pools, ep, crudHashKey, names, r)
  {
    if names != [] {
      BuildOpsMember(pools, ep, crudHashKey, names[..|names| - 1], r);
      RequestedSnoc(pools, ep, crudHashKey, names, r);
    }
  }

  lemma {:induction false} BuildOpsNames(pools: PoolMap, ep: Endpoints, crudHashKey: string, names: seq<string>)
    requires BuildOps(pools, ep, crudHashKey, names).Ops?
    ensures var reqs := BuildOps(pools, ep, crudHashKey, names).reqs;
      && (forall i :: 0 <= i < |reqs| ==> reqs[i].obj.PoolObj? && reqs[i].obj.pool.name in names)
      && (NoDup(names) ==> NoDup(reqs))
  {
    if names != [] {
      var n := |names| - 1;
      BuildOpsNames(pools, ep, crudHashKey, names[..n]);
      assert names == names[..n] + [names[n]];
      var init := BuildOps(pools, ep, crudHashKey, names[..n]).reqs;
      if NoDup(names) {
        forall i | 0 <= i < |init|
          ensures init[i].obj.pool.name != names[n]
        {
          var j :| 0 <= j < n && names[..n][j] == init[i].obj.pool.name;
          assert names[j] != names[n];
        }
      }
    }
  }

  /** One request per stale name and no other, unless a stale name cannot be read back. */
  lemma {:induction false} BuildOpsExact(pools: PoolMap, ep: Endpoints, crudHashKey: string, names: seq<string>)
    ensures var ops := BuildOps(pools, ep, crudHashKey, names);
      && (ops == Panicked <==> Unreadable(pools, ep, names))
      && (ops.Ops? ==>
          && (forall r :: r in ops.reqs <==> Requested(pools, ep, crudHashKey, names, r))
          && (forall i :: 0 <= i < |ops.reqs| ==> ops.reqs[i].obj.PoolObj? && ops.reqs[i].obj.pool.name in names)
          && (NoDup(names) ==> NoDup(ops.reqs)))
  {
    BuildOpsPanics(pools, ep, crudHashKey, names);
    if BuildOps(pools, ep, crudHashKey, names).Ops? {
      BuildOpsNames(pools, ep, crudHashKey, names);
      forall r
        ensures r in BuildOps(pools, ep, crudHashKey, names).reqs <==> Requested(pools, ep, crudHashKey, names, r)
      {
        BuildOpsMember(pools, ep, crudHashKey, names, r);
      }
    }
  }

  lemma {:induction false} UnreadableSnoc(pools: PoolMap, ep: Endpoints, names: seq<string>)
    requires names != []
    ensures var n := |names| - 1;
      Unreadable(pools, ep, names) <==>
      Unreadable(pools, ep, names[..n]) || (Stale(pools, ep, names[n]) && Parse(names[n]) == Panic)
  {
    var n := |names| - 1;
    if Unreadable(pools, ep, names[..n]) {
      var i :| 0 <= i < n && Stale(pools, ep, names[..n][i]) && Parse(names[..n][i]) == Panic;
      assert names[i] == names[..n][i];
    }
    if Unreadable(pools, ep, names) {
      var i :| 0 <= i <= n && Stale(pools, ep, names[i]) && Parse(names[i]) == Panic;
      assert i < n ==> names[i] == names[..n][i];
    }
  }

  lemma {:induction false} RequestedSnoc(pools: PoolMap, ep: Endpoints, crudHashKey: string, names: seq<string>,
                                         r: Request)
    requires names != []
    ensures var n := |names| - 1;
      Requested(pools, ep, crudHashKey, names, r) <==>
      Requested(pools, ep, crudHashKey, names[..n], r)
      || (Stale(pools, ep, names[n]) && PoolOf(ep, crudHashKey, names[n]).Some?
         && r == PoolRequest(PoolOf(ep, crudHashKey, names[n]).value))
  {
    var n := |names| - 1;
    assert forall i :: 0 <= i < n ==> names[..n][i] == names[i];
    if Requested(pools, ep, crudHashKey, names[..n], r) {
      var i :| 0 <= i < n && Stale(pools, ep, names[..n][i]) && PoolOf(ep, crudHashKey, names[..n][i]).Some?
               && r == PoolRequest(PoolOf(ep, crudHashKey, names[..n][i]).value);
      assert names[i] == names[..n][i];
    }
  }

  /** Whatever order the names come in, the same requests are made. */
  lemma {:induction false} BuildOpsAnyOrder(pools: PoolMap, ep: Endpoints, crudHashKey: string, s: seq<string>,
                                            t: seq<string>)
    requires NoDup(s) && NoDup(t) && forall x :: x in s <==> x in t
    ensures var a, b := BuildOps(pools, ep, crudHashKey, s), BuildOps(pools, ep, crudHashKey, t);
      (a == Panicked <==> b == Panicked) && (a.Ops? && b.Ops? ==> multiset(a.reqs) == multiset(b.reqs))
  {
    BuildOpsExact(pools, ep, crudHashKey, s);
    BuildOpsExact(pools, ep, crudHashKey, t);
    SameNames(pools, ep, crudHashKey, s, t);
    SameNames(pools, ep, crudHashKey, t, s);
    var a, b := BuildOps(pools, ep, crudHashKey, s), BuildOps(pools, ep, crudHashKey, t);
    if a.Ops? && b.Ops? {
      SamePermutation(a.reqs, b.reqs);
    }
  }

  lemma {:induction false} SameNames(pools: PoolMap, ep: Endpoints, crudHashKey: string, s: seq<string>, t: seq<string>)
    requires forall x :: x in s ==> x in t
    ensures Unreadable(pools, ep, s) ==> Unreadable(pools, ep, t)
    ensures forall r :: Requested(pools, ep, crudHashKey, s, r) ==> Requested(pools, ep, crudHashKey, t, r)
  {
    if Unreadable(pools, ep, s) {
      var i :| 0 <= i < |s| && Stale(pools, ep, s[i]) && Parse(s[i]) == Panic;
      assert s[i] in t;
      var j :| 0 <= j < |t| && t[j] == s[i];
    }
    forall r | Requested(pools, ep, crudHashKey, s, r)
      ensures Requested(pools, ep, crudHashKey, t, r)
    {
      var i :| 0 <= i < |s| && Stale(pools, ep, s[i]) && PoolOf(ep, crudHashKey, s[i]).Some?
               && r == PoolRequest(PoolOf(ep, crudHashKey, s[i]).value);
      assert s[i] in t;
      var j :| 0 <= j < |t| && t[j] == s[i];
    }
  }
}
