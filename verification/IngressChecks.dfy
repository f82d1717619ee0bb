/** What passes the checks of a gateway, by the fields of its routes and the stored rows. */
module IngressChecks {
  import opened Prelude
  import opened IngressSpec
  import opened IngressRender
  import opened IngressDials
  import opened IngressPlan
  import opened IngressTheorems
  import opened IngressMirrors
  import opened IngressErrors
  import opened IngressBackends

  // ---- hosts ---------------------------------------------------------------------

  /** Equal, or the two cases of one ASCII letter. */
  predicate SameLetter(c: char, d: char) {
    || c == d
    || ('A' <= c <= 'Z' && d as int == c as int + 32)
    || ('A' <= d <= 'Z' && c as int == d as int + 32)
  }

  predicate SameHost(a: string, b: string) {
    |a| == |b| && forall k :: 0 <= k < |a| ==> SameLetter(a[k], b[k])
  }

  lemma SameHostIff(a: string, b: string)
    ensures SameHost(a, b) <==> Lower(a) == Lower(b)
  {
    if Lower(a) == Lower(b) {
      forall k | 0 <= k < |a| ensures SameLetter(a[k], b[k]) {
        assert Lower(a)[k] == Lower(b)[k];
      }
    }
  }

  predicate HostsApart(hosts: seq<string>) {
    forall i, j :: 0 <= i < j < |hosts| ==> !SameHost(hosts[i], hosts[j])
  }

  /** Some host of `a` is a host of `b`. */
  predicate Meets(a: Route, b: Route) {
    exists i, j :: 0 <= i < |a.hosts| && 0 <= j < |b.hosts| && SameHost(a.hosts[i], b.hosts[j])
  }

  lemma HostsApartIff(hosts: seq<string>)
    ensures HostsApart(hosts) <==> Distinct(Lowers(hosts))
  {
    forall i, j | 0 <= i < j < |hosts| ensures SameHost(hosts[i], hosts[j]) <==> Lowers(hosts)[i] == Lowers(hosts)[j] {
      SameHostIff(hosts[i], hosts[j]);
    }
  }

  lemma MeetsIff(a: Route, b: Route)
    ensures Meets(a, b) <==> SharesHost(a, b)
  {
    if SharesHost(a, b) {
      var h :| h in LowerSet(a.hosts) && h in LowerSet(b.hosts);
      var i :| 0 <= i < |a.hosts| && Lower(a.hosts[i]) == h;
      var j :| 0 <= j < |b.hosts| && Lower(b.hosts[j]) == h;
      SameHostIff(a.hosts[i], b.hosts[j]);
    }
    if Meets(a, b) {
      var i, j :| 0 <= i < |a.hosts| && 0 <= j < |b.hosts| && SameHost(a.hosts[i], b.hosts[j]);
      SameHostIff(a.hosts[i], b.hosts[j]);
      assert Lower(a.hosts[i]) in LowerSet(a.hosts) && Lower(a.hosts[i]) in LowerSet(b.hosts);
    }
  }

  // ---- one route -----------------------------------------------------------------

  /** Starts with a slash and holds no wildcard, query, fragment or space. */
  predicate FitPrefix(p: string) {
    |p| > 0 && p[0] == '/' && forall k :: 0 <= k < |p| ==> p[k] != '*' && p[k] != '?' && p[k] != '#' && p[k] != ' '
  }

  predicate FitHttp(r: Route) {
    && |r.hosts| > 0 && |r.paths| > 0 && r.port == None && r.backends == []
    && (forall k :: 0 <= k < |r.paths| ==>
          FitPrefix(r.paths[k].prefix) && |r.paths[k].backends| > 0 && r.paths[k].settingsOk)
    && (forall i, j :: 0 <= i < j < |r.paths| ==> r.paths[i].prefix != r.paths[j].prefix)
  }

  /** A port that HTTP does not use, backends of its own, and nothing that only HTTP understands. */
  predicate FitTcp(r: Route) {
    && r.port.Some? && r.port.value !in {0, 80, 443} && |r.backends| > 0
    && r.paths == [] && r.waf.policy == None && !r.waf.off
  }

  predicate FitRoute(r: Route) {
    r.settingsOk && HostsApart(r.hosts) && if r.kind == Http then FitHttp(r) else FitTcp(r)
  }

  lemma PrefixesApartIff(paths: seq<Path>)
    ensures Distinct(Prefixes(paths)) <==> forall i, j :: 0 <= i < j < |paths| ==> paths[i].prefix != paths[j].prefix
  {
    assert forall i :: 0 <= i < |paths| ==> Prefixes(paths)[i] == paths[i].prefix;
  }

  lemma FitPrefixIff(p: string)
    ensures FitPrefix(p) <==> PlainPrefix(p)
  {
  }

  /** A route is valid exactly when its fields fit. */
  lemma ValidRouteIff(r: Route)
    ensures ValidRoute(r) <==> FitRoute(r)
  {
    HostsApartIff(r.hosts);
    PrefixesApartIff(r.paths);
    forall k | 0 <= k < |r.paths| ensures FitPrefix(r.paths[k].prefix) <==> PlainPrefix(r.paths[k].prefix) {
      FitPrefixIff(r.paths[k].prefix);
    }
  }

  // ---- routes beside each other ----------------------------------------------------

  predicate Apart(routes: seq<Route>) {
    forall a, b :: 0 <= a < b < |routes| ==> !Meets(routes[a], routes[b])
  }

  lemma {:induction false} ClaimListed(routes: seq<Route>, k: nat, i: nat) returns (c: Claim)
    requires k < |routes| && i < |routes[k].hosts|
    ensures c in Claims(routes) && c.key == Lower(routes[k].hosts[i])
  {
    if k == 0 {
      c := ClaimsOf(routes[0])[i];
      assert c in ClaimsOf(routes[0]);
    } else {
      c := ClaimListed(routes[1..], k - 1, i);
    }
  }

  lemma OwnKeysIff(r: Route)
    ensures KeysDistinct(ClaimsOf(r)) <==> HostsApart(r.hosts)
  {
    HostsApartIff(r.hosts);
    assert forall i :: 0 <= i < |r.hosts| ==> ClaimsOf(r)[i].key == Lowers(r.hosts)[i];
  }

  predicate NoSharedKey(xs: seq<Claim>, ys: seq<Claim>) {
    forall i, j :: 0 <= i < |xs| && 0 <= j < |ys| ==> xs[i].key != ys[j].key
  }

  lemma JoinedKeysIff(xs: seq<Claim>, ys: seq<Claim>)
    ensures KeysDistinct(xs + ys) <==> KeysDistinct(xs) && KeysDistinct(ys) && NoSharedKey(xs, ys)
  {
    var all := xs + ys;
    assert forall i :: 0 <= i < |xs| ==> all[i] == xs[i];
    assert forall j :: 0 <= j < |ys| ==> all[|xs| + j] == ys[j];
    if KeysDistinct(all) {
      forall i, j | 0 <= i < j < |ys| ensures ys[i].key != ys[j].key {
        assert all[|xs| + i].key != all[|xs| + j].key;
      }
      forall i, j | 0 <= i < |xs| && 0 <= j < |ys| ensures xs[i].key != ys[j].key {
        assert all[i].key != all[|xs| + j].key;
      }
    }
    if KeysDistinct(xs) && KeysDistinct(ys) && NoSharedKey(xs, ys) {
      forall i, j | 0 <= i < j < |all| ensures all[i].key != all[j].key {
        if i >= |xs| {
          assert all[i] == ys[i - |xs|] && all[j] == ys[j - |xs|];
        } else if j >= |xs| {
          assert all[j] == ys[j - |xs|];
        }
      }
    }
  }

  lemma NoSharedKeyIff(r: Route, rest: seq<Route>)
    ensures NoSharedKey(ClaimsOf(r), Claims(rest)) <==> forall k :: 0 <= k < |rest| ==> !Meets(r, rest[k])
  {
    var xs, ys := ClaimsOf(r), Claims(rest);
    if NoSharedKey(xs, ys) {
      forall k | 0 <= k < |rest| ensures !Meets(r, rest[k]) {
        forall i, j | 0 <= i < |r.hosts| && 0 <= j < |rest[k].hosts| ensures !SameHost(r.hosts[i], rest[k].hosts[j]) {
          var c := ClaimListed(rest, k, j);
          SameHostIff(r.hosts[i], rest[k].hosts[j]);
          assert xs[i].key == Lower(r.hosts[i]);
        }
      }
    }
    if forall k :: 0 <= k < |rest| ==> !Meets(r, rest[k]) {
      forall i, j | 0 <= i < |xs| && 0 <= j < |ys| ensures xs[i].key != ys[j].key {
        assert ys[j] in ys;
        var k := ClaimSource(rest, ys[j]);
        MeetsIff(r, rest[k]);
        assert xs[i].key in LowerSet(r.hosts);
      }
    }
  }

  lemma {:induction false} ClaimsApartIff(routes: seq<Route>)
    requires forall k :: 0 <= k < |routes| ==> HostsApart(routes[k].hosts)
    ensures KeysDistinct(Claims(routes)) <==> Apart(routes)
  {
    if routes != [] {
      var r, rest := routes[0], routes[1..];
      assert forall k :: 0 <= k < |rest| ==> rest[k] == routes[k + 1];
      ClaimsApartIff(rest);
      OwnKeysIff(r);
      JoinedKeysIff(ClaimsOf(r), Claims(rest));
      NoSharedKeyIff(r, rest);
      ConsApart(r, rest);
      assert routes == [r] + rest;
    }
  }

  lemma ConsApart(r: Route, rest: seq<Route>)
    ensures Apart([r] + rest) <==> Apart(rest) && forall k :: 0 <= k < |rest| ==> !Meets(r, rest[k])
  {
    var all := [r] + rest;
    assert forall k :: 0 <= k < |rest| ==> all[k + 1] == rest[k];
    if Apart(all) {
      forall a, b | 0 <= a < b < |rest| ensures !Meets(rest[a], rest[b]) {
        assert !Meets(all[a + 1], all[b + 1]);
      }
      forall k | 0 <= k < |rest| ensures !Meets(r, rest[k]) {
        assert !Meets(all[0], all[k + 1]);
      }
    }
  }

  /** No two HTTP routes have a host in common. */
  predicate HttpHostsApart(routes: seq<Route>) {
    forall a, b :: 0 <= a < b < |routes| && routes[a].kind == Http && routes[b].kind == Http ==> !Meets(routes[a], routes[b])
  }

  lemma {:induction false} MeetsNoneIff(r: Route, rest: seq<Route>)
    ensures var http := OfKind(rest, Http);
            (forall k :: 0 <= k < |rest| && rest[k].kind == Http ==> !Meets(r, rest[k])) <==> forall k :: 0 <= k < |http| ==> !Meets(r, http[k])
  {
    var http := OfKind(rest, Http);
    forall k | 0 <= k < |rest| ensures rest[k] in http <==> rest[k].kind == Http {
      OfKindMembers(rest, Http, rest[k]);
    }
    forall k | 0 <= k < |http| ensures http[k] in rest && http[k].kind == Http {
      OfKindMembers(rest, Http, http[k]);
    }
  }

  lemma {:induction false} HttpHostsApartIff(routes: seq<Route>)
    ensures HttpHostsApart(routes) <==> Apart(OfKind(routes, Http))
  {
    if routes != [] {
      var r, rest := routes[0], routes[1..];
      HttpHostsApartIff(rest);
      HttpHostsApartStep(routes);
      var http := OfKind(rest, Http);
      if r.kind == Http {
        ConsApart(r, http);
        MeetsNoneIff(r, rest);
      } else {
        assert [] + http == http;
      }
    }
  }

  lemma HttpHostsApartStep(routes: seq<Route>)
    requires routes != []
    ensures var r, rest := routes[0], routes[1..];
            HttpHostsApart(routes) <==> HttpHostsApart(rest) && (r.kind == Http ==> forall k :: 0 <= k < |rest| && rest[k].kind == Http ==> !Meets(r, rest[k]))
  {
    var r, rest := routes[0], routes[1..];
    assert forall k :: 0 <= k < |rest| ==> rest[k] == routes[k + 1];
    if HttpHostsApart(routes) {
      forall a, b | 0 <= a < b < |rest| && rest[a].kind == Http && rest[b].kind == Http ensures !Meets(rest[a], rest[b]) {
        assert !Meets(routes[a + 1], routes[b + 1]);
      }
      forall k | 0 <= k < |rest| && r.kind == Http && rest[k].kind == Http ensures !Meets(r, rest[k]) {
        assert !Meets(routes[0], routes[k + 1]);
      }
    }
  }

  /** Two routes may share a port: both list names, and none in common. */
  predicate Share(a: Route, b: Route) {
    a.hosts != [] && b.hosts != [] && !Meets(a, b)
  }

  predicate On(r: Route, port: int) {
    r.kind == Tcp && r.port == Some(port)
  }

  predicate PortApart(routes: seq<Route>, port: int) {
    forall a, b :: 0 <= a < b < |routes| && On(routes[a], port) && On(routes[b], port) ==> Share(routes[a], routes[b])
  }

  predicate AllShare(users: seq<Route>) {
    forall a, b :: 0 <= a < b < |users| ==> Share(users[a], users[b])
  }

  predicate SharesAll(r: Route, users: seq<Route>) {
    forall k :: 0 <= k < |users| ==> Share(r, users[k])
  }

  predicate SharesOn(r: Route, routes: seq<Route>, port: int) {
    forall k :: 0 <= k < |routes| && On(routes[k], port) ==> Share(r, routes[k])
  }

  lemma AllShareIff(users: seq<Route>)
    requires forall k :: 0 <= k < |users| ==> HostsApart(users[k].hosts)
    ensures AllShare(users) <==> PortIsFair(users)
  {
    ClaimsApartIff(users);
    if PortIsFair(users) {
      assert forall a, b :: 0 <= a < b < |users| ==> Share(users[a], users[b]);
    }
    if AllShare(users) {
      assert Apart(users);
      forall k | 0 <= k < |users| && |users| > 1 ensures users[k].hosts != [] {
        assert if k == 0 then Share(users[0], users[1]) else Share(users[0], users[k]);
      }
    }
  }

  lemma ConsShare(r: Route, rest: seq<Route>)
    ensures AllShare([r] + rest) <==> AllShare(rest) && SharesAll(r, rest)
  {
    var all := [r] + rest;
    assert forall k :: 0 <= k < |rest| ==> all[k + 1] == rest[k];
    if AllShare(all) {
      forall a, b | 0 <= a < b < |rest| ensures Share(rest[a], rest[b]) {
        assert Share(all[a + 1], all[b + 1]);
      }
      forall k | 0 <= k < |rest| ensures Share(r, rest[k]) {
        assert Share(all[0], all[k + 1]);
      }
    }
  }

  lemma PortApartStep(routes: seq<Route>, port: int)
    requires routes != []
    ensures var r, rest := routes[0], routes[1..];
            PortApart(routes, port) <==> PortApart(rest, port) && (On(r, port) ==> SharesOn(r, rest, port))
  {
    var r, rest := routes[0], routes[1..];
    assert forall k :: 0 <= k < |rest| ==> rest[k] == routes[k + 1];
    if PortApart(routes, port) {
      forall a, b | 0 <= a < b < |rest| && On(rest[a], port) && On(rest[b], port) ensures Share(rest[a], rest[b]) {
        assert Share(routes[a + 1], routes[b + 1]);
      }
      forall k | 0 <= k < |rest| && On(r, port) && On(rest[k], port) ensures Share(r, rest[k]) {
        assert Share(routes[0], routes[k + 1]);
      }
    }
  }

  lemma UsersOf(routes: seq<Route>, port: int)
    requires routes != []
    ensures var r, rest := routes[0], routes[1..];
            OnPort(OfKind(routes, Tcp), port) == (if On(r, port) then [r] else []) + OnPort(OfKind(rest, Tcp), port)
  {
    var r, rest := routes[0], routes[1..];
    if r.kind == Tcp {
      assert OfKind(routes, Tcp)[1..] == OfKind(rest, Tcp);
    } else {
      assert [] + OfKind(rest, Tcp) == OfKind(rest, Tcp);
      assert [] + OnPort(OfKind(rest, Tcp), port) == OnPort(OfKind(rest, Tcp), port);
    }
  }

  lemma {:induction false} SharesAllIff(r: Route, rest: seq<Route>, port: int)
    ensures var users := OnPort(OfKind(rest, Tcp), port);
            SharesOn(r, rest, port) <==> SharesAll(r, users)
  {
    var users := OnPort(OfKind(rest, Tcp), port);
    if SharesOn(r, rest, port) {
      forall k | 0 <= k < |users| ensures Share(r, users[k]) {
        OnPortMembers(OfKind(rest, Tcp), port, users[k]);
        OfKindMembers(rest, Tcp, users[k]);
        var n :| 0 <= n < |rest| && rest[n] == users[k];
        assert On(rest[n], port);
      }
    }
    if SharesAll(r, users) {
      forall k | 0 <= k < |rest| && On(rest[k], port) ensures Share(r, rest[k]) {
        OnPortMembers(OfKind(rest, Tcp), port, rest[k]);
        OfKindMembers(rest, Tcp, rest[k]);
      }
    }
  }

  lemma {:induction false} PortApartIff(routes: seq<Route>, port: int)
    ensures PortApart(routes, port) <==> AllShare(OnPort(OfKind(routes, Tcp), port))
  {
    if routes != [] {
      var r, rest := routes[0], routes[1..];
      PortApartIff(rest, port);
      PortApartStep(routes, port);
      UsersOf(routes, port);
      var users := OnPort(OfKind(rest, Tcp), port);
      if On(r, port) {
        ConsShare(r, users);
        SharesAllIff(r, rest, port);
      } else {
        assert [] + users == users;
      }
    }
  }

  /** No host is served twice: among HTTP routes anywhere, among TCP routes on a port. */
  ghost predicate RoutesApart(routes: seq<Route>) {
    HttpHostsApart(routes) && forall port :: PortApart(routes, port)
  }

  lemma CompatibleIff(routes: seq<Route>)
    requires forall k :: 0 <= k < |routes| ==> HostsApart(routes[k].hosts)
    ensures Compatible(routes) <==> RoutesApart(routes)
  {
    var http, tcp := OfKind(routes, Http), OfKind(routes, Tcp);
    forall k | 0 <= k < |http| ensures HostsApart(http[k].hosts) {
      OfKindMembers(routes, Http, http[k]);
    }
    HttpHostsApartIff(routes);
    ClaimsApartIff(http);
    forall port ensures PortApart(routes, port) <==> FairOn(tcp, port) {
      var users := OnPort(tcp, port);
      forall k | 0 <= k < |users| ensures HostsApart(users[k].hosts) {
        OnPortMembers(tcp, port, users[k]);
        OfKindMembers(routes, Tcp, users[k]);
      }
      PortApartIff(routes, port);
      AllShareIff(users);
    }
  }

  // ---- the rows ----------------------------------------------------------------------

  /** One node or two different ones, all registered, and every setting in order. */
  predicate FitGateway(st: State, g: Gateway) {
    && g.settingsOk && (|g.nodes| == 1 || (|g.nodes| == 2 && g.nodes[0] != g.nodes[1]))
    && forall k :: 0 <= k < |g.nodes| ==> g.nodes[k] in st.registered
  }

  predicate HasPolicy(st: State, policy: Option<string>) {
    policy.Some? ==> policy.value in st.policies && st.policies[policy.value]
  }

  predicate ListensOn(g: Gateway, port: int) {
    exists k :: 0 <= k < |g.listeners| && port in g.listeners[k]
  }

  ghost predicate HasOffer(st: State, g: Gateway, b: Backend) {
    exists d :: Offered(st, NodeIds(st, g.nodes), b, d)
  }

  ghost predicate Usable(st: State, g: Gateway, bs: seq<Backend>) {
    forall k :: 0 <= k < |bs| ==> HasOffer(st, g, bs[k])
  }

  /** A wildcard host needs DNS-01 certificates, a checked policy exists, a TCP port is listened on, and every backend has an address. */
  ghost predicate Served(st: State, g: Gateway, r: Route) {
    match r.kind
    case Http =>
      && ((exists k :: 0 <= k < |r.hosts| && "*." <= r.hosts[k]) ==> g.dns01)
      && (!r.waf.off ==> HasPolicy(st, r.waf.policy))
      && (forall k :: 0 <= k < |r.paths| ==> Usable(st, g, r.paths[k].backends))
    case Tcp => r.port.Some? && ListensOn(g, r.port.value) && Usable(st, g, r.backends)
  }

  lemma {:induction false} NoNodeErrors(st: State, nodes: seq<string>)
    ensures NodeErrors(st, nodes) == [] <==> forall k :: 0 <= k < |nodes| ==> nodes[k] in st.registered
  {
    if nodes != [] {
      NoNodeErrors(st, nodes[1..]);
      assert forall k :: 0 < k < |nodes| ==> nodes[k] == nodes[1..][k - 1];
    }
  }

  lemma UsableIff(st: State, g: Gateway, bs: seq<Backend>)
    ensures Usable(st, g, bs) <==> AllResolve(st, NodeIds(st, g.nodes), bs)
  {
    forall k | 0 <= k < |bs| ensures Resolve(st, NodeIds(st, g.nodes), bs[k]).Some? <==> HasOffer(st, g, bs[k]) {
      ResolvesIffOffered(st, NodeIds(st, g.nodes), bs[k]);
    }
  }

  lemma PathsUsableIff(st: State, g: Gateway, paths: seq<Path>)
    ensures AllResolve(st, NodeIds(st, g.nodes), BackendsOfPaths(paths)) <==> forall k :: 0 <= k < |paths| ==> Usable(st, g, paths[k].backends)
  {
    var ids, bs := NodeIds(st, g.nodes), BackendsOfPaths(paths);
    forall k | 0 <= k < |paths| ensures Usable(st, g, paths[k].backends) <==> AllResolve(st, ids, paths[k].backends) {
      UsableIff(st, g, paths[k].backends);
    }
    forall b ensures b in bs <==> exists k :: 0 <= k < |paths| && b in paths[k].backends {
      PathBackend(paths, b);
    }
    if AllResolve(st, ids, bs) {
      forall k, n | 0 <= k < |paths| && 0 <= n < |paths[k].backends| ensures Resolve(st, ids, paths[k].backends[n]).Some? {
        assert paths[k].backends[n] in bs;
      }
    }
    if PathsResolve(st, ids, paths) {
      PathsResolveAll(st, ids, paths);
    }
  }

  lemma WildcardIff(r: Route)
    ensures AnyWildcard(r.hosts) <==> exists k :: 0 <= k < |r.hosts| && "*." <= r.hosts[k]
  {
    forall k | 0 <= k < |r.hosts| ensures IsWildcard(r.hosts[k]) <==> "*." <= r.hosts[k] {
    }
  }

  /** What the checks ask of one kept route. */
  predicate Passes(st: State, g: Gateway, r: Route) {
    && ValidRoute(r) && KindError(g, r) == [] && AllResolve(st, NodeIds(st, g.nodes), BackendsOf(r))
    && (NamedPolicy(r).Some? ==> GoodPolicy(st, NamedPolicy(r).value))
  }

  lemma PassesIff(st: State, g: Gateway, r: Route)
    ensures Passes(st, g, r) <==> FitRoute(r) && Served(st, g, r)
  {
    ValidRouteIff(r);
    WildcardIff(r);
    if ValidRoute(r) {
      if r.kind == Http {
        PathsUsableIff(st, g, r.paths);
        assert BackendsOf(r) == BackendsOfPaths(r.paths);
      } else {
        UsableIff(st, g, r.backends);
        assert BackendsOf(r) == r.backends;
      }
    }
  }

  lemma ChecksSplit(st: State, g: Gateway, routes: seq<Route>)
    ensures PreErrors(st, g, routes) == [] <==>
              && st.corrupt == [] && NodeErrors(st, g.nodes) == [] && HostConflict(routes).None?
              && HasPolicy(st, g.defaultPolicy)
              && forall k :: 0 <= k < |routes| ==> Passes(st, g, routes[k])
  {
    NoRouteErrors(routes);
    NoKindErrors(g, routes);
    NoBackendErrors(st, NodeIds(st, g.nodes), routes);
    PoliciesIff(st, g, routes);
  }

  lemma NamedAreUsed(g: Gateway, routes: seq<Route>, k: nat)
    requires k < |routes| && NamedPolicy(routes[k]).Some?
    ensures NamedPolicy(routes[k]).value in UsedPolicies(g, routes)
  {
    UsedMembers(g, routes, NamedPolicy(routes[k]).value);
  }

  lemma UsedAreNamed(g: Gateway, routes: seq<Route>, n: nat)
    requires n < |UsedPolicies(g, routes)|
    ensures var p := UsedPolicies(g, routes)[n];
            g.defaultPolicy == Some(p) || exists k :: 0 <= k < |routes| && NamedPolicy(routes[k]) == Some(p)
  {
    UsedMembers(g, routes, UsedPolicies(g, routes)[n]);
  }

  lemma PoliciesIff(st: State, g: Gateway, routes: seq<Route>)
    ensures PolicyErrors(st, UsedPolicies(g, routes)) == [] <==>
              && HasPolicy(st, g.defaultPolicy)
              && forall k :: 0 <= k < |routes| && NamedPolicy(routes[k]).Some? ==> GoodPolicy(st, NamedPolicy(routes[k]).value)
  {
    var used := UsedPolicies(g, routes);
    NoPolicyErrors(st, used);
    if g.defaultPolicy.Some? {
      UsedMembers(g, routes, g.defaultPolicy.value);
    }
    forall k | 0 <= k < |routes| && NamedPolicy(routes[k]).Some? ensures NamedPolicy(routes[k]).value in used {
      NamedAreUsed(g, routes, k);
    }
    forall n | 0 <= n < |used|
      ensures g.defaultPolicy == Some(used[n]) || exists k :: 0 <= k < |routes| && NamedPolicy(routes[k]) == Some(used[n])
    {
      UsedAreNamed(g, routes, n);
    }
  }

  /**
   A plan has no errors exactly when nothing stored is unreadable, the gateway
   and its default policy are in order, every kept route fits and is served, and
   no host is served twice.
   */
  lemma ErrorFreeIff(st: State, g: Gateway, all: seq<Route>)
    ensures var kept := Filter(st, NodeIds(st, g.nodes), [], all);
            PlanOf(st, g, all).errors == [] <==>
              && st.corrupt == [] && FitGateway(st, g) && HasPolicy(st, g.defaultPolicy)
              && (forall k :: 0 <= k < |kept| ==> FitRoute(kept[k]) && Served(st, g, kept[k]))
              && RoutesApart(kept)
  {
    PlanErrorsAre(st, g, all);
    GatewayIff(st, g);
    RoutesPassIff(st, g, Filter(st, NodeIds(st, g.nodes), [], all));
  }

  lemma GatewayIff(st: State, g: Gateway)
    ensures FitGateway(st, g) <==> ValidGateway(g) && NodeErrors(st, g.nodes) == []
  {
    NoNodeErrors(st, g.nodes);
  }

  lemma RoutesPassIff(st: State, g: Gateway, kept: seq<Route>)
    ensures PreErrors(st, g, kept) == [] <==>
              && st.corrupt == [] && NodeErrors(st, g.nodes) == [] && HasPolicy(st, g.defaultPolicy)
              && (forall k :: 0 <= k < |kept| ==> FitRoute(kept[k]) && Served(st, g, kept[k]))
              && RoutesApart(kept)
  {
    ChecksSplit(st, g, kept);
    NoConflictIffCompatible(kept);
    forall k | 0 <= k < |kept| ensures Passes(st, g, kept[k]) <==> FitRoute(kept[k]) && Served(st, g, kept[k]) {
      PassesIff(st, g, kept[k]);
    }
    if forall k :: 0 <= k < |kept| ==> FitRoute(kept[k]) && Served(st, g, kept[k]) {
      assert forall k :: 0 <= k < |kept| ==> HostsApart(kept[k].hosts);
      CompatibleIff(kept);
    }
  }

  /** Some route in force stands in the way of a mirrored one: the operator's, or a mirrored one with a smaller name. */
  predicate InTheWay(routes: seq<Route>, r: Route) {
    exists k :: 0 <= k < |routes| && routes[k].name != r.name && Meets(routes[k], r)
             && (routes[k].mirrored ==> Less(routes[k].name, r.name))
  }

  /** A mirrored route is kept exactly when its fields fit, its backends have addresses, its policy exists and no kept route is in its way. */
  lemma MirrorKeptByFields(st: State, g: Gateway, all: seq<Route>, r: Route)
    requires NameOrder(all) && r in all && r.mirrored
    ensures var kept := Filter(st, NodeIds(st, g.nodes), [], all);
            r in kept <==>
              && FitRoute(r) && (forall k :: 0 <= k < |r.paths| ==> Usable(st, g, r.paths[k].backends))
              && (r.waf.policy.Some? ==> r.waf.policy.value in st.policies)
              && !InTheWay(kept, r)
  {
    var ids := NodeIds(st, g.nodes);
    var kept := Filter(st, ids, [], all);
    assert [] + all == all;
    MirrorKeptIff(st, ids, [], all, r);
    ValidRouteIff(r);
    forall k | 0 <= k < |r.paths| ensures Usable(st, g, r.paths[k].backends) <==> AllResolve(st, ids, r.paths[k].backends) {
      UsableIff(st, g, r.paths[k].backends);
    }
    forall k | 0 <= k < |kept| ensures Meets(kept[k], r) <==> SharesHost(kept[k], r) {
      MeetsIff(kept[k], r);
    }
  }
}
