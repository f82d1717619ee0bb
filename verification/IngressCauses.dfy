/** What each error of a plan stands for, and how the standby node differs from the active one. */
module IngressCauses {
  import opened Prelude
  import opened IngressSpec
  import opened IngressRender
  import opened IngressPlan
  import opened IngressTheorems
  import opened IngressBackends
  import opened IngressChecks

  // ---- errors one by one -----------------------------------------------------------

  predicate Kept(routes: seq<Route>, r: Route, name: string) {
    r in routes && r.name == name
  }

  /** The policy is named by the gateway, or by an HTTP route that is inspected. */
  predicate Asked(g: Gateway, routes: seq<Route>, p: string) {
    g.defaultPolicy == Some(p) || exists r :: r in routes && r.kind == Http && !r.waf.off && r.waf.policy == Some(p)
  }

  /** An error is reported for this reason. */
  ghost predicate Caused(st: State, g: Gateway, routes: seq<Route>, e: Error) {
    match e
    case Corrupt(document) => document in st.corrupt
    case NodeMissing(node) => node in g.nodes && node !in st.registered
    case RouteInvalid(name) => exists r :: Kept(routes, r, name) && !FitRoute(r)
    case WildcardNeedsDns(name) =>
      !g.dns01 && exists r :: Kept(routes, r, name) && r.kind == Http && exists k :: 0 <= k < |r.hosts| && "*." <= r.hosts[k]
    case NoListener(name, port) =>
      !ListensOn(g, port) && exists r :: Kept(routes, r, name) && r.kind == Tcp && port == if r.port.Some? then r.port.value else 0
    case PolicyMissing(p) => Asked(g, routes, p) && p !in st.policies
    case PolicyInvalid(p) => Asked(g, routes, p) && p in st.policies && !st.policies[p]
    case BackendFailed(name, b) => (exists r :: Kept(routes, r, name) && b in BackendsOf(r)) && !HasOffer(st, g, b)
    case _ => HostConflict(routes) == Some(e)
  }

  lemma {:induction false} NodeErrorsAre(st: State, nodes: seq<string>, e: Error)
    ensures e in NodeErrors(st, nodes) <==> e.NodeMissing? && e.node in nodes && e.node !in st.registered
  {
    if nodes != [] {
      NodeErrorsAre(st, nodes[1..], e);
    }
  }

  lemma CorruptErrorsAre(st: State, e: Error)
    ensures e in CorruptErrors(st) <==> e.Corrupt? && e.document in st.corrupt
  {
    if e.Corrupt? && e.document in st.corrupt {
      var k :| 0 <= k < |st.corrupt| && st.corrupt[k] == e.document;
      assert CorruptErrors(st)[k] == e;
    }
  }

  lemma {:induction false} RouteErrorsAre(routes: seq<Route>, e: Error)
    ensures e in RouteErrors(routes) <==> e.RouteInvalid? && exists r :: Kept(routes, r, e.route) && !FitRoute(r)
  {
    if routes != [] {
      RouteErrorsAre(routes[1..], e);
      ValidRouteIff(routes[0]);
      assert forall r :: r in routes <==> r == routes[0] || r in routes[1..];
      if e.RouteInvalid? {
        assert Kept(routes, routes[0], routes[0].name);
        assert forall r :: Kept(routes, r, e.route) <==> (r == routes[0] && r.name == e.route) || Kept(routes[1..], r, e.route);
      }
    }
  }

  /** The error of a single route's kind. */
  predicate KindCause(g: Gateway, r: Route, e: Error) {
    match r.kind
    case Http => e == WildcardNeedsDns(r.name) && !g.dns01 && exists k :: 0 <= k < |r.hosts| && "*." <= r.hosts[k]
    case Tcp => var port := if r.port.Some? then r.port.value else 0; e == NoListener(r.name, port) && !ListensOn(g, port)
  }

  lemma {:induction false} KindErrorsAre(g: Gateway, routes: seq<Route>, e: Error)
    ensures e in KindErrors(g, routes) <==> exists r :: r in routes && KindCause(g, r, e)
  {
    if routes != [] {
      KindErrorsAre(g, routes[1..], e);
      WildcardIff(routes[0]);
      assert e in KindError(g, routes[0]) <==> KindCause(g, routes[0], e);
      assert forall r :: r in routes <==> r == routes[0] || r in routes[1..];
    }
  }

  lemma {:induction false} PolicyErrorsAre(st: State, names: seq<string>, e: Error)
    ensures e in PolicyErrors(st, names) <==>
              || (e.PolicyMissing? && e.policy in names && e.policy !in st.policies)
              || (e.PolicyInvalid? && e.policy in names && e.policy in st.policies && !st.policies[e.policy])
  {
    if names != [] {
      PolicyErrorsAre(st, names[1..], e);
    }
  }

  lemma AskedIff(g: Gateway, routes: seq<Route>, p: string)
    ensures p in UsedPolicies(g, routes) <==> Asked(g, routes, p)
  {
    UsedMembers(g, routes, p);
    if Names(routes, p) {
      var k :| 0 <= k < |routes| && NamedPolicy(routes[k]) == Some(p);
      assert routes[k] in routes;
    }
  }

  lemma {:induction false} FailedAre(st: State, ids: set<string>, route: string, bs: seq<Backend>, e: Error)
    ensures e in FailedBackends(st, ids, route, bs) <==> e.BackendFailed? && e.route == route && e.backend in bs && Resolve(st, ids, e.backend).None?
  {
    if bs != [] {
      FailedAre(st, ids, route, bs[1..], e);
    }
  }

  predicate Fails(st: State, ids: set<string>, r: Route, e: Error) {
    e.BackendFailed? && e.route == r.name && e.backend in BackendsOf(r) && Resolve(st, ids, e.backend).None?
  }

  lemma {:induction false} BackendErrorsAre(st: State, ids: set<string>, routes: seq<Route>, e: Error)
    ensures e in BackendErrors(st, ids, routes) <==> exists r :: r in routes && Fails(st, ids, r, e)
  {
    if routes != [] {
      BackendErrorsAre(st, ids, routes[1..], e);
      FailedAre(st, ids, routes[0].name, BackendsOf(routes[0]), e);
      assert e in FailedBackends(st, ids, routes[0].name, BackendsOf(routes[0])) <==> Fails(st, ids, routes[0], e);
      assert forall r :: r in routes <==> r == routes[0] || r in routes[1..];
    }
  }

  lemma {:induction false} ConflictKinds(routes: seq<Route>)
    ensures HostConflict(routes).Some? ==> var e := HostConflict(routes).value; e.HostTwice? || e.CatchAllShared? || e.SniTwice?
  {
    OnlyTwice([], Claims(OfKind(routes, Http)));
    OnlyPorts(Ports(OfKind(routes, Tcp)), OfKind(routes, Tcp));
  }

  lemma {:induction false} OnlyTwice(seen: seq<Claim>, rest: seq<Claim>)
    ensures FirstTwice(seen, rest).Some? ==> FirstTwice(seen, rest).value.HostTwice?
    decreases rest
  {
    if rest != [] {
      OnlyTwice(seen + [rest[0]], rest[1..]);
    }
  }

  lemma {:induction false} OnlySni(port: int, seen: set<string>, hosts: seq<string>)
    ensures ScanHosts(port, seen, hosts).Some? ==> ScanHosts(port, seen, hosts).value.SniTwice?
    decreases hosts
  {
    if hosts != [] {
      OnlySni(port, seen + {Lower(hosts[0])}, hosts[1..]);
    }
  }

  lemma {:induction false} OnlyUsers(port: int, shared: bool, seen: set<string>, users: seq<Route>)
    ensures var e := ScanPort(port, shared, seen, users); e.Some? ==> e.value.CatchAllShared? || e.value.SniTwice?
    decreases users
  {
    if users != [] {
      OnlySni(port, seen, users[0].hosts);
      OnlyUsers(port, shared, seen + LowerSet(users[0].hosts), users[1..]);
    }
  }

  lemma {:induction false} OnlyPorts(ports: seq<int>, tcp: seq<Route>)
    ensures var e := ScanPorts(ports, tcp); e.Some? ==> e.value.CatchAllShared? || e.value.SniTwice?
    decreases ports
  {
    if ports != [] {
      var users := OnPort(tcp, ports[0]);
      OnlyUsers(ports[0], |users| > 1, {}, users);
      OnlyPorts(ports[1..], tcp);
    }
  }

  /** The checks whose errors name a route, each on its own. */
  lemma RouteCauses(st: State, g: Gateway, routes: seq<Route>, e: Error)
    requires e.RouteInvalid? || e.WildcardNeedsDns? || e.NoListener?
    ensures Caused(st, g, routes, e) <==> e in RouteErrors(routes) || e in KindErrors(g, routes)
  {
    RouteErrorsAre(routes, e);
    KindErrorsAre(g, routes, e);
    if e.WildcardNeedsDns? || e.NoListener? {
      assert forall r :: r in routes && KindCause(g, r, e) ==> Kept(routes, r, e.route);
      assert forall r :: Kept(routes, r, e.route) ==> r in routes;
    }
  }

  lemma BackendCauses(st: State, g: Gateway, routes: seq<Route>, e: Error)
    requires e.BackendFailed?
    ensures Caused(st, g, routes, e) <==> e in BackendErrors(st, NodeIds(st, g.nodes), routes)
  {
    var ids := NodeIds(st, g.nodes);
    BackendErrorsAre(st, ids, routes, e);
    ResolvesIffOffered(st, ids, e.backend);
    assert forall r :: r in routes && Fails(st, ids, r, e) ==> Kept(routes, r, e.route);
  }

  lemma ErrorParts(st: State, g: Gateway, routes: seq<Route>, e: Error)
    ensures e in PreErrors(st, g, routes) <==>
              || e in CorruptErrors(st) || e in NodeErrors(st, g.nodes) || e in RouteErrors(routes) || HostConflict(routes) == Some(e)
              || e in KindErrors(g, routes) || e in PolicyErrors(st, UsedPolicies(g, routes))
              || e in BackendErrors(st, NodeIds(st, g.nodes), routes)
  {
  }

  lemma OtherParts(st: State, g: Gateway, routes: seq<Route>, e: Error)
    ensures e in CorruptErrors(st) ==> e.Corrupt?
    ensures e in NodeErrors(st, g.nodes) ==> e.NodeMissing?
    ensures e in RouteErrors(routes) ==> e.RouteInvalid?
    ensures HostConflict(routes) == Some(e) ==> e.HostTwice? || e.CatchAllShared? || e.SniTwice?
    ensures e in KindErrors(g, routes) ==> e.WildcardNeedsDns? || e.NoListener?
    ensures e in PolicyErrors(st, UsedPolicies(g, routes)) ==> e.PolicyMissing? || e.PolicyInvalid?
    ensures e in BackendErrors(st, NodeIds(st, g.nodes), routes) ==> e.BackendFailed?
  {
    CorruptErrorsAre(st, e);
    NodeErrorsAre(st, g.nodes, e);
    RouteErrorsAre(routes, e);
    ConflictKinds(routes);
    KindErrorsAre(g, routes, e);
    PolicyErrorsAre(st, UsedPolicies(g, routes), e);
    BackendErrorsAre(st, NodeIds(st, g.nodes), routes, e);
  }

  lemma PolicyCauses(st: State, g: Gateway, routes: seq<Route>, e: Error)
    requires e.PolicyMissing? || e.PolicyInvalid?
    ensures Caused(st, g, routes, e) <==> e in PolicyErrors(st, UsedPolicies(g, routes))
  {
    PolicyErrorsAre(st, UsedPolicies(g, routes), e);
    AskedIff(g, routes, e.policy);
  }

  lemma StartCauses(st: State, g: Gateway, routes: seq<Route>, e: Error)
    requires e.Corrupt? || e.NodeMissing?
    ensures Caused(st, g, routes, e) <==> e in CorruptErrors(st) || e in NodeErrors(st, g.nodes)
  {
    CorruptErrorsAre(st, e);
    NodeErrorsAre(st, g.nodes, e);
  }

  lemma PartsAreCauses(st: State, g: Gateway, routes: seq<Route>, e: Error)
    ensures e in PreErrors(st, g, routes) <==> Caused(st, g, routes, e)
  {
    ErrorParts(st, g, routes, e);
    OtherParts(st, g, routes, e);
    if e.Corrupt? || e.NodeMissing? {
      StartCauses(st, g, routes, e);
    } else if e.RouteInvalid? || e.WildcardNeedsDns? || e.NoListener? {
      RouteCauses(st, g, routes, e);
    } else if e.PolicyMissing? || e.PolicyInvalid? {
      PolicyCauses(st, g, routes, e);
    } else if e.BackendFailed? {
      BackendCauses(st, g, routes, e);
    }
  }

  /** A valid gateway's plan reports exactly the errors that have a cause among the rows and the kept routes. */
  lemma ErrorsAreCaused(st: State, g: Gateway, all: seq<Route>, e: Error)
    requires ValidGateway(g)
    ensures e in PlanOf(st, g, all).errors <==> Caused(st, g, Filter(st, NodeIds(st, g.nodes), [], all), e)
  {
    PlanErrorsAre(st, g, all);
    PartsAreCauses(st, g, Filter(st, NodeIds(st, g.nodes), [], all), e);
  }

  // ---- the standby node ------------------------------------------------------------

  /** The renderer's input for the other node. */
  function Standby(i: Input): (j: Input) {
    i.(issue := false)
  }

  lemma {:induction false} SameDials(i: Input, route: string, bs: seq<Backend>)
    ensures Dials(Standby(i), route, bs) == Dials(i, route, bs)
    decreases bs
  {
    if bs != [] {
      SameDials(i, route, bs[1..]);
    }
  }

  lemma {:induction false} SamePaths(i: Input, r: Route, paths: seq<Path>)
    ensures RenderPaths(Standby(i), r, paths) == RenderPaths(i, r, paths)
    decreases paths
  {
    if paths != [] {
      SameDials(i, r.name, paths[0].backends);
      assert RenderPath(Standby(i), r, paths[0]) == RenderPath(i, r, paths[0]);
      SamePaths(i, r, paths[1..]);
    }
  }

  lemma {:induction false} SameHttp(i: Input, http: seq<Route>)
    ensures RenderHttp(Standby(i), http) == RenderHttp(i, http)
    decreases http
  {
    if http != [] {
      SamePaths(i, http[0], SortPaths(http[0].paths));
      SameHttp(i, http[1..]);
    }
  }

  lemma {:induction false} SameUsers(i: Input, users: seq<Route>)
    ensures RenderUsers(Standby(i), users) == RenderUsers(i, users)
    decreases users
  {
    if users != [] {
      SameDials(i, users[0].name, users[0].backends);
      SameUsers(i, users[1..]);
    }
  }

  lemma {:induction false} SameServers(i: Input, ports: seq<int>, tcp: seq<Route>)
    ensures RenderServers(Standby(i), ports, tcp) == RenderServers(i, ports, tcp)
    decreases ports
  {
    if ports != [] {
      SameUsers(i, NamedFirst(OnPort(tcp, ports[0])));
      SameServers(i, ports[1..], tcp);
    }
  }

  /** The standby serves what the active node serves and obtains no certificate. */
  lemma StandbyIsTheSame(st: State, g: Gateway, all: seq<Route>)
    requires PlanOf(st, g, all).standby.Some?
    ensures var p := PlanOf(st, g, all);
            && p.rendered.Some?
            && p.standby.value.entries == p.rendered.value.entries && p.standby.value.servers == p.rendered.value.servers
            && p.standby.value.certificates == []
  {
    ErrorFreePlansRender(st, g, all);
    var routes := Filter(st, NodeIds(st, g.nodes), [], all);
    var i := RenderInput(st, g, routes, true);
    assert RenderInput(st, g, routes, false) == Standby(i);
    SameHttp(i, OfKind(routes, Http));
    var tcp := OfKind(routes, Tcp);
    SameServers(i, Ports(tcp), tcp);
  }
}
