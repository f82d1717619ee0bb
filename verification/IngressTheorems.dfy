/** A plan without errors renders. */
module IngressTheorems {
  import opened Prelude
  import opened IngressSpec
  import opened IngressRender
  import opened IngressDials
  import opened IngressRouting
  import opened IngressPlan

  // ---- what the absence of errors says ------------------------------------------

  lemma {:induction false} NoRouteErrors(routes: seq<Route>)
    ensures RouteErrors(routes) == [] <==> forall k :: 0 <= k < |routes| ==> ValidRoute(routes[k])
  {
    if routes != [] {
      NoRouteErrors(routes[1..]);
      assert forall k :: 0 < k < |routes| ==> routes[k] == routes[1..][k - 1];
    }
  }

  lemma {:induction false} NoKindErrors(g: Gateway, routes: seq<Route>)
    ensures KindErrors(g, routes) == [] <==> forall k :: 0 <= k < |routes| ==> KindError(g, routes[k]) == []
  {
    if routes != [] {
      NoKindErrors(g, routes[1..]);
      assert forall k :: 0 < k < |routes| ==> routes[k] == routes[1..][k - 1];
    }
  }

  lemma {:induction false} NoPolicyErrors(st: State, names: seq<string>)
    ensures PolicyErrors(st, names) == [] <==> forall k :: 0 <= k < |names| ==> GoodPolicy(st, names[k])
  {
    if names != [] {
      NoPolicyErrors(st, names[1..]);
      assert forall k :: 0 < k < |names| ==> names[k] == names[1..][k - 1];
    }
  }

  lemma {:induction false} NoFailedBackends(st: State, ids: set<string>, route: string, bs: seq<Backend>)
    ensures FailedBackends(st, ids, route, bs) == [] <==> AllResolve(st, ids, bs)
  {
    if bs != [] {
      NoFailedBackends(st, ids, route, bs[1..]);
      assert forall k :: 0 < k < |bs| ==> bs[k] == bs[1..][k - 1];
    }
  }

  lemma {:induction false} NoBackendErrors(st: State, ids: set<string>, routes: seq<Route>)
    ensures BackendErrors(st, ids, routes) == [] <==> forall k :: 0 <= k < |routes| ==> AllResolve(st, ids, BackendsOf(routes[k]))
  {
    if routes != [] {
      NoFailedBackends(st, ids, routes[0].name, BackendsOf(routes[0]));
      NoBackendErrors(st, ids, routes[1..]);
      assert forall k :: 0 < k < |routes| ==> routes[k] == routes[1..][k - 1];
    }
  }

  lemma {:induction false} InsertNameMembers(names: seq<string>, p: string)
    ensures forall q :: q in InsertName(names, p) <==> q in names || q == p
  {
    if names != [] && !Less(p, names[0]) && p != names[0] {
      InsertNameMembers(names[1..], p);
    }
  }

  predicate Names(routes: seq<Route>, p: string) {
    exists k :: 0 <= k < |routes| && NamedPolicy(routes[k]) == Some(p)
  }

  lemma {:induction false} UsedMembers(g: Gateway, routes: seq<Route>, p: string)
    ensures p in UsedPolicies(g, routes) <==> g.defaultPolicy == Some(p) || Names(routes, p)
    decreases |routes|
  {
    if routes != [] {
      var front, last := routes[..|routes| - 1], routes[|routes| - 1];
      UsedMembers(g, front, p);
      assert Names(routes, p) <==> Names(front, p) || NamedPolicy(last) == Some(p) by {
        assert forall k :: 0 <= k < |front| ==> routes[k] == front[k];
      }
      if NamedPolicy(last).Some? {
        InsertNameMembers(UsedPolicies(g, front), NamedPolicy(last).value);
      }
    }
  }

  lemma {:induction false} AllBackendsMembers(routes: seq<Route>, k: nat, b: Backend)
    requires k < |routes| && b in BackendsOf(routes[k])
    ensures b in AllBackends(routes)
  {
    if k > 0 {
      AllBackendsMembers(routes[1..], k - 1, b);
    }
  }

  // ---- rendering succeeds on what it is fed --------------------------------------------

  /** The renderer has an address for each of these backends. */
  predicate Feeds(i: Input, bs: seq<Backend>) {
    forall k :: 0 <= k < |bs| ==> HasAddress(i, bs[k])
  }

  predicate FeedsPaths(i: Input, paths: seq<Path>) {
    forall k :: 0 <= k < |paths| ==> Feeds(i, paths[k].backends)
  }

  lemma {:induction false} PathsFine(i: Input, r: Route, paths: seq<Path>)
    requires RouteWaf(i, r).Fine? && FeedsPaths(i, paths)
    ensures RenderPaths(i, r, paths).Fine?
    decreases paths
  {
    if paths != [] {
      DialsAre(i, r.name, paths[0].backends);
      PathsFine(i, r, paths[1..]);
    }
  }

  predicate Fed(i: Input, http: seq<Route>) {
    forall k :: 0 <= k < |http| ==> RouteWaf(i, http[k]).Fine? && FeedsPaths(i, http[k].paths)
  }

  lemma SortedIsFed(i: Input, paths: seq<Path>)
    requires FeedsPaths(i, paths)
    ensures FeedsPaths(i, SortPaths(paths))
  {
    var sorted := SortPaths(paths);
    SortSorted(paths);
    forall k | 0 <= k < |sorted| ensures Feeds(i, sorted[k].backends) {
      SameMembers(sorted, paths, sorted[k]);
    }
  }

  lemma {:induction false} HttpFine(i: Input, http: seq<Route>)
    requires Fed(i, http)
    ensures RenderHttp(i, http).Fine?
    decreases http
  {
    if http != [] {
      SortedIsFed(i, http[0].paths);
      PathsFine(i, http[0], SortPaths(http[0].paths));
      HttpFine(i, http[1..]);
    }
  }

  predicate FedUsers(i: Input, users: seq<Route>) {
    forall k :: 0 <= k < |users| ==> Feeds(i, users[k].backends)
  }

  lemma {:induction false} UsersFine(i: Input, users: seq<Route>)
    requires FedUsers(i, users)
    ensures RenderUsers(i, users).Fine?
    decreases users
  {
    if users != [] {
      DialsAre(i, users[0].name, users[0].backends);
      UsersFine(i, users[1..]);
    }
  }

  lemma PortIsFed(i: Input, tcp: seq<Route>, p: int)
    requires FedUsers(i, tcp)
    ensures FedUsers(i, NamedFirst(OnPort(tcp, p)))
  {
    var users := NamedFirst(OnPort(tcp, p));
    forall k | 0 <= k < |users| ensures Feeds(i, users[k].backends) {
      NamedComeFirst(OnPort(tcp, p));
      OnPortMembers(tcp, p, users[k]);
    }
  }

  predicate AllHeard(g: Gateway, ports: seq<int>) {
    forall k :: 0 <= k < |ports| ==> Heard(g, ports[k])
  }

  lemma {:induction false} ServersFine(i: Input, ports: seq<int>, tcp: seq<Route>)
    requires FedUsers(i, tcp) && AllHeard(i.gateway, ports)
    ensures RenderServers(i, ports, tcp).Fine?
    decreases ports
  {
    if ports != [] {
      PortIsFed(i, tcp, ports[0]);
      UsersFine(i, NamedFirst(OnPort(tcp, ports[0])));
      ServersFine(i, ports[1..], tcp);
    }
  }

  // ---- an error-free plan feeds the renderer -------------------------------------------

  lemma {:induction false} PathBackend(paths: seq<Path>, b: Backend)
    ensures b in BackendsOfPaths(paths) <==> exists k :: 0 <= k < |paths| && b in paths[k].backends
  {
    if paths != [] {
      PathBackend(paths[1..], b);
      assert forall k :: 0 < k < |paths| ==> paths[k] == paths[1..][k - 1];
    }
  }

  lemma BackendIsFed(st: State, g: Gateway, routes: seq<Route>, issue: bool, r: Route, b: Backend)
    requires PreErrors(st, g, routes) == [] && r in routes && b in BackendsOf(r)
    ensures var i := RenderInput(st, g, routes, issue); HasAddress(i, b)
  {
    NoBackendErrors(st, NodeIds(st, g.nodes), routes);
    var k :| 0 <= k < |routes| && routes[k] == r;
    AllBackendsMembers(routes, k, b);
  }

  lemma WafIsFine(st: State, g: Gateway, routes: seq<Route>, issue: bool, r: Route)
    requires PreErrors(st, g, routes) == [] && r in routes && r.kind == Http
    ensures RouteWaf(RenderInput(st, g, routes, issue), r).Fine?
  {
    var used := UsedPolicies(g, routes);
    NoPolicyErrors(st, used);
    var policy := if r.waf.policy.Some? then r.waf.policy else g.defaultPolicy;
    if !r.waf.off && policy.Some? {
      UsedMembers(g, routes, policy.value);
      assert policy.value in used;
    }
  }

  lemma HttpIsFed(st: State, g: Gateway, routes: seq<Route>, issue: bool)
    requires PreErrors(st, g, routes) == []
    ensures Fed(RenderInput(st, g, routes, issue), OfKind(routes, Http))
  {
    var http, i := OfKind(routes, Http), RenderInput(st, g, routes, issue);
    forall k | 0 <= k < |http| ensures RouteWaf(i, http[k]).Fine? && FeedsPaths(i, http[k].paths) {
      OfKindMembers(routes, Http, http[k]);
      WafIsFine(st, g, routes, issue, http[k]);
      PathsAreFed(st, g, routes, issue, http[k]);
    }
  }

  lemma PathsAreFed(st: State, g: Gateway, routes: seq<Route>, issue: bool, r: Route)
    requires PreErrors(st, g, routes) == [] && r in routes
    ensures FeedsPaths(RenderInput(st, g, routes, issue), r.paths)
  {
    var i := RenderInput(st, g, routes, issue);
    forall k | 0 <= k < |r.paths| ensures Feeds(i, r.paths[k].backends) {
      var bs := r.paths[k].backends;
      forall n | 0 <= n < |bs| ensures HasAddress(i, bs[n]) {
        PathBackend(r.paths, bs[n]);
        BackendIsFed(st, g, routes, issue, r, bs[n]);
      }
    }
  }

  lemma TcpIsFed(st: State, g: Gateway, routes: seq<Route>, issue: bool)
    requires PreErrors(st, g, routes) == []
    ensures FedUsers(RenderInput(st, g, routes, issue), OfKind(routes, Tcp))
  {
    var tcp, i := OfKind(routes, Tcp), RenderInput(st, g, routes, issue);
    forall k | 0 <= k < |tcp| ensures Feeds(i, tcp[k].backends) {
      var r := tcp[k];
      OfKindMembers(routes, Tcp, r);
      forall n | 0 <= n < |r.backends| ensures HasAddress(i, r.backends[n]) {
        BackendIsFed(st, g, routes, issue, r, r.backends[n]);
      }
    }
  }

  lemma TcpRouteIsHeard(st: State, g: Gateway, routes: seq<Route>, r: Route)
    requires PreErrors(st, g, routes) == [] && r in OfKind(routes, Tcp)
    ensures r.port.Some? && Heard(g, r.port.value) && r.paths == []
  {
    OfKindMembers(routes, Tcp, r);
    NoRouteErrors(routes);
    NoKindErrors(g, routes);
    var k :| 0 <= k < |routes| && routes[k] == r;
    assert ValidRoute(routes[k]) && KindError(g, routes[k]) == [];
  }

  lemma TcpIsHeard(st: State, g: Gateway, routes: seq<Route>)
    requires PreErrors(st, g, routes) == []
    ensures var tcp := OfKind(routes, Tcp); AllHeard(g, Ports(tcp)) && Portless(tcp).None?
  {
    var tcp := OfKind(routes, Tcp);
    forall k | 0 <= k < |Ports(tcp)| ensures Heard(g, Ports(tcp)[k]) {
      var p := Ports(tcp)[k];
      UnlistedPortIsUnused(tcp, p);
      var r := OnPort(tcp, p)[0];
      OnPortMembers(tcp, p, r);
      TcpRouteIsHeard(st, g, routes, r);
    }
    forall r | r in tcp ensures r.port.Some? {
      TcpRouteIsHeard(st, g, routes, r);
    }
    PortlessNone(tcp);
  }

  lemma {:induction false} PortlessNone(tcp: seq<Route>)
    requires forall r :: r in tcp ==> r.port.Some?
    ensures Portless(tcp).None?
  {
    if tcp != [] {
      assert tcp[0] in tcp;
      PortlessNone(tcp[1..]);
    }
  }

  /** Routes that pass the checks render, for issuing and standby nodes alike. */
  lemma CheckedRoutesRender(st: State, g: Gateway, routes: seq<Route>, issue: bool)
    requires PreErrors(st, g, routes) == []
    ensures Render(RenderInput(st, g, routes, issue), routes).Fine?
  {
    var i, tcp := RenderInput(st, g, routes, issue), OfKind(routes, Tcp);
    HttpIsFed(st, g, routes, issue);
    HttpFine(i, OfKind(routes, Http));
    TcpIsFed(st, g, routes, issue);
    TcpIsHeard(st, g, routes);
    ServersFine(i, Ports(tcp), tcp);
  }

  /** A plan without errors is rendered, and so is its standby where there is one; a plan with errors is not. */
  lemma ErrorFreePlansRender(st: State, g: Gateway, all: seq<Route>)
    ensures var p := PlanOf(st, g, all);
            && (p.rendered.Some? <==> p.errors == [])
            && (p.standby.Some? <==> p.errors == [] && g.replicated)
  {
    var routes := Filter(st, NodeIds(st, g.nodes), [], all);
    if ValidGateway(g) && PreErrors(st, g, routes) == [] {
      CheckedRoutesRender(st, g, routes, true);
      CheckedRoutesRender(st, g, routes, false);
    }
  }

  /** The errors of a plan are those of its checks: rendering adds none. */
  lemma PlanErrorsAre(st: State, g: Gateway, all: seq<Route>)
    ensures PlanOf(st, g, all).errors
         == if ValidGateway(g) then PreErrors(st, g, Filter(st, NodeIds(st, g.nodes), [], all)) else CorruptErrors(st) + [GatewayInvalid]
  {
    var routes := Filter(st, NodeIds(st, g.nodes), [], all);
    if ValidGateway(g) && PreErrors(st, g, routes) == [] {
      CheckedRoutesRender(st, g, routes, true);
      CheckedRoutesRender(st, g, routes, false);
    }
  }
}
