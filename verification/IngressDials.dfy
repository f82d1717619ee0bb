/** What a rendered entry dials and which policy inspects it, in terms of the addresses the renderer was given. */
module IngressDials {
  import opened Prelude
  import opened IngressSpec
  import opened IngressRender

  /** A backend is dialled at its configured address, or at an address of its resolved list. */
  predicate DialedBy(i: Input, b: Backend, d: Dial) {
    if b.External? then d == Listed(b.address) else b in i.backends && d in i.backends[b]
  }

  predicate DialedByAny(i: Input, bs: seq<Backend>, d: Dial) {
    exists k :: 0 <= k < |bs| && DialedBy(i, bs[k], d)
  }

  predicate HasAddress(i: Input, b: Backend) {
    b.External? || (b in i.backends && i.backends[b] != [])
  }

  /** Backends are dialled at all their addresses and nowhere else; one without an address is an error. */
  lemma {:induction false} DialsAre(i: Input, route: string, bs: seq<Backend>)
    ensures Dials(i, route, bs).Fine? <==> forall k :: 0 <= k < |bs| ==> HasAddress(i, bs[k])
    ensures Dials(i, route, bs).Fine? ==> forall d :: d in Dials(i, route, bs).value <==> DialedByAny(i, bs, d)
    decreases bs
  {
    if bs != [] {
      DialsAre(i, route, bs[1..]);
      assert forall k :: 0 < k < |bs| ==> bs[k] == bs[1..][k - 1];
      if Dials(i, route, bs).Fine? {
        forall d ensures d in Dials(i, route, bs).value <==> DialedByAny(i, bs, d) {
          OneMore(i, bs, d);
          assert d in ResolveDials(i, route, bs[0]).value <==> DialedBy(i, bs[0], d);
        }
      }
    }
  }

  lemma OneMore(i: Input, bs: seq<Backend>, d: Dial)
    requires bs != []
    ensures DialedByAny(i, bs, d) <==> DialedBy(i, bs[0], d) || DialedByAny(i, bs[1..], d)
  {
    assert forall k :: 0 < k < |bs| ==> bs[k] == bs[1..][k - 1];
  }

  /** The dials are those of the backends. */
  ghost predicate DialsExactly(i: Input, bs: seq<Backend>, dials: set<Dial>) {
    forall d :: d in dials <==> DialedByAny(i, bs, d)
  }

  /** The policy that inspects a route: its own, else the gateway's, unless inspection is off. */
  predicate InspectedBy(i: Input, r: Route, waf: Option<string>) {
    match waf
    case None => r.waf.off || (r.waf.policy.None? && i.gateway.defaultPolicy.None?)
    case Some(p) => !r.waf.off && p in i.policies && if r.waf.policy.Some? then r.waf.policy == Some(p) else i.gateway.defaultPolicy == Some(p)
  }

  /** The entry of a path: its route, prefix and hosts, the policy of the route, and exactly the addresses of the path's backends. */
  ghost predicate EntryOf(i: Input, r: Route, p: Path, e: Entry) {
    && e.route == r.name && e.prefix == p.prefix && e.hosts == Lowers(r.hosts)
    && InspectedBy(i, r, e.waf) && DialsExactly(i, p.backends, e.dials)
  }

  lemma RenderedPathIs(i: Input, r: Route, p: Path)
    requires RenderPath(i, r, p).Fine?
    ensures EntryOf(i, r, p, RenderPath(i, r, p).value)
  {
    DialsAre(i, r.name, p.backends);
  }

  // ---- TCP servers ---------------------------------------------------------------

  predicate OnTcpPort(routes: seq<Route>, r: Route, port: int) {
    r in routes && r.kind == Tcp && r.port == Some(port)
  }

  /** The server of a port has an entry for each TCP route on it and for no other, those with SNI names first, dialling exactly its backends. */
  ghost predicate ServerOf(i: Input, routes: seq<Route>, server: Server, users: seq<Route>) {
    && |users| == |server.routes|
    && (forall r :: r in users <==> OnTcpPort(routes, r, server.port))
    && (forall a, b :: 0 <= a < b < |users| && users[b].hosts != [] ==> users[a].hosts != [])
    && (forall k :: 0 <= k < |users| ==> server.routes[k].0 == users[k].name && DialsExactly(i, users[k].backends, server.routes[k].1))
  }

  lemma {:induction false} UsersAre(i: Input, users: seq<Route>, k: nat)
    requires RenderUsers(i, users).Fine? && k < |users|
    ensures var pairs := RenderUsers(i, users).value;
            |pairs| == |users| && pairs[k].0 == users[k].name && DialsExactly(i, users[k].backends, pairs[k].1)
    decreases users
  {
    DialsAre(i, users[0].name, users[0].backends);
    if |users| > 1 {
      UsersAre(i, users[1..], if k > 0 then k - 1 else 0);
    }
  }

  lemma {:induction false} WithNamesMembers(users: seq<Route>, named: bool, r: Route)
    ensures r in WithNames(users, named) <==> r in users && (r.hosts != []) == named
  {
    if users != [] {
      WithNamesMembers(users[1..], named, r);
      assert users == [users[0]] + users[1..];
    }
  }

  lemma {:induction false} OnPortMembers(tcp: seq<Route>, p: int, r: Route)
    ensures r in OnPort(tcp, p) <==> r in tcp && r.port == Some(p)
  {
    if tcp != [] {
      OnPortMembers(tcp[1..], p, r);
      assert tcp == [tcp[0]] + tcp[1..];
    }
  }

  lemma {:induction false} OfKindMembers(routes: seq<Route>, kind: Kind, r: Route)
    ensures r in OfKind(routes, kind) <==> r in routes && r.kind == kind
  {
    if routes != [] {
      OfKindMembers(routes[1..], kind, r);
      assert routes == [routes[0]] + routes[1..];
    }
  }

  lemma NamedComeFirst(users: seq<Route>)
    ensures var sorted := NamedFirst(users);
            && (forall r :: r in sorted <==> r in users)
            && (forall a, b :: 0 <= a < b < |sorted| && sorted[b].hosts != [] ==> sorted[a].hosts != [])
  {
    var named, bare := WithNames(users, true), WithNames(users, false);
    forall r ensures r in named + bare <==> r in users {
      WithNamesMembers(users, true, r);
      WithNamesMembers(users, false, r);
    }
    forall k | 0 <= k < |named| ensures named[k].hosts != [] {
      WithNamesMembers(users, true, named[k]);
    }
    forall k | 0 <= k < |bare| ensures bare[k].hosts == [] {
      WithNamesMembers(users, false, bare[k]);
    }
  }

  lemma {:induction false} ServersAre(i: Input, ports: seq<int>, tcp: seq<Route>, k: nat)
    requires RenderServers(i, ports, tcp).Fine? && k < |ports|
    ensures var servers := RenderServers(i, ports, tcp).value;
            |servers| == |ports| && servers[k].port == ports[k] && Heard(i.gateway, ports[k])
            && RenderUsers(i, NamedFirst(OnPort(tcp, ports[k]))) == Fine(servers[k].routes)
    decreases ports
  {
    if |ports| > 1 {
      ServersAre(i, ports[1..], tcp, if k > 0 then k - 1 else 0);
    }
  }

  /** Each rendered TCP server is the one of its port. */
  lemma TcpServersAre(i: Input, routes: seq<Route>, k: nat)
    requires Render(i, routes).Fine? && k < |Render(i, routes).value.servers|
    ensures exists users :: ServerOf(i, routes, Render(i, routes).value.servers[k], users)
  {
    var tcp, server := OfKind(routes, Tcp), Render(i, routes).value.servers[k];
    ServersCount(i, Ports(tcp), tcp);
    ServersAre(i, Ports(tcp), tcp, k);
    var on := OnPort(tcp, server.port);
    var users := NamedFirst(on);
    NamedComeFirst(on);
    forall r ensures r in users <==> OnTcpPort(routes, r, server.port) {
      OnPortMembers(tcp, server.port, r);
      OfKindMembers(routes, Tcp, r);
    }
    PairsAre(i, users, server.routes);
    assert ServerOf(i, routes, server, users);
  }

  lemma PairsAre(i: Input, users: seq<Route>, pairs: seq<(string, set<Dial>)>)
    requires RenderUsers(i, users) == Fine(pairs)
    ensures |pairs| == |users|
    ensures forall k :: 0 <= k < |users| ==> pairs[k].0 == users[k].name && DialsExactly(i, users[k].backends, pairs[k].1)
  {
    forall k | 0 <= k < |users| ensures |pairs| == |users| && pairs[k].0 == users[k].name && DialsExactly(i, users[k].backends, pairs[k].1) {
      UsersAre(i, users, k);
    }
  }

  lemma {:induction false} ServersCount(i: Input, ports: seq<int>, tcp: seq<Route>)
    requires RenderServers(i, ports, tcp).Fine?
    ensures |RenderServers(i, ports, tcp).value| == |ports|
    decreases ports
  {
    if ports != [] {
      ServersCount(i, ports[1..], tcp);
    }
  }

  /** Every TCP port in use has a server. */
  lemma TcpPortsAreServed(i: Input, routes: seq<Route>, r: Route)
    requires Render(i, routes).Fine? && r in routes && r.kind == Tcp
    ensures r.port.Some? && exists k :: 0 <= k < |Render(i, routes).value.servers| && Render(i, routes).value.servers[k].port == r.port.value
  {
    var tcp := OfKind(routes, Tcp);
    OfKindMembers(routes, Tcp, r);
    PortsAreGiven(tcp, r);
    OnPortMembers(tcp, r.port.value, r);
    UnlistedPortIsUnused(tcp, r.port.value);
    ServersCount(i, Ports(tcp), tcp);
    var k :| 0 <= k < |Ports(tcp)| && Ports(tcp)[k] == r.port.value;
    ServersAre(i, Ports(tcp), tcp, k);
  }

  lemma {:induction false} PortsAreGiven(tcp: seq<Route>, r: Route)
    requires Portless(tcp).None? && r in tcp
    ensures r.port.Some?
  {
    if tcp[0] != r {
      PortsAreGiven(tcp[1..], r);
    }
  }

  // ---- certificates ----------------------------------------------------------------

  lemma {:induction false} SubjectsMembers(http: seq<Route>, h: string)
    ensures h in Subjects(http) <==> exists k :: 0 <= k < |http| && h in Lowers(http[k].hosts)
  {
    if http != [] {
      SubjectsMembers(http[1..], h);
      assert forall k :: 0 < k < |http| ==> http[k] == http[1..][k - 1];
    }
  }

  /** A host gets a certificate exactly on the node that issues them, for the hosts of HTTP routes. */
  lemma CertificatesIff(i: Input, routes: seq<Route>, h: string)
    requires Render(i, routes).Fine?
    ensures h in Render(i, routes).value.certificates
       <==> i.issue && exists r :: r in routes && r.kind == Http && h in Lowers(r.hosts)
  {
    var http := OfKind(routes, Http);
    SubjectsMembers(http, h);
    forall r ensures r in http <==> r in routes && r.kind == Http {
      OfKindMembers(routes, Http, r);
    }
  }
}
