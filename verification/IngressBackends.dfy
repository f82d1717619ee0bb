/** Which backends a gateway can use, by the stored rows, and where the requests of an error-free plan end up. */
module IngressBackends {
  import opened Prelude
  import opened IngressSpec
  import opened IngressRender
  import opened IngressDials
  import opened IngressKubernetes
  import opened IngressPlan
  import opened IngressRouting
  import opened IngressTheorems

  // ---- one backend -----------------------------------------------------------------

  /** Row `k` is the first VM of that name. */
  predicate FirstVm(vms: seq<VmRow>, name: string, k: nat) {
    k < |vms| && vms[k].name == name && forall j :: 0 <= j < k ==> vms[j].name != name
  }

  /** Row `k` is the first network of that name. */
  predicate FirstNetwork(networks: seq<NetRow>, name: string, k: nat) {
    k < |networks| && networks[k].name == name && forall j :: 0 <= j < k ==> networks[j].name != name
  }

  predicate OfType(networks: seq<NetRow>, name: string, kind: NetKind) {
    exists k: nat :: k < |networks| && FirstNetwork(networks, name, k) && networks[k].kind == kind
  }

  predicate Joined(networks: seq<NetRow>, name: string, node: string) {
    exists k :: 0 <= k < |networks| && networks[k].name == name && networks[k].node == node
  }

  /** An overlay that every gateway node joined, a bridge, or a VM on a gateway node itself. */
  predicate InReach(st: State, ids: set<string>, vm: VmRow) {
    if OfType(st.networks, vm.network, Vxlan) then forall id :: id in ids ==> Joined(st.networks, vm.network, id)
    else OfType(st.networks, vm.network, Bridge) || vm.node in ids
  }

  /** The VM a backend means has an address that the gateway nodes can reach. */
  predicate UsableVm(st: State, ids: set<string>, name: string, vm: VmRow) {
    && (exists k: nat :: k < |st.vms| && FirstVm(st.vms, name, k) && st.vms[k] == vm)
    && vm.ip != [] && InReach(st, ids, vm)
  }

  lemma {:induction false} FindVmIs(vms: seq<VmRow>, name: string, vm: VmRow)
    ensures FindVm(vms, name) == Some(vm) <==> exists k: nat :: k < |vms| && FirstVm(vms, name, k) && vms[k] == vm
  {
    if vms != [] {
      FindVmIs(vms[1..], name, vm);
      if vms[0].name == name {
        assert FirstVm(vms, name, 0);
      } else {
        if k: nat :| k < |vms[1..]| && FirstVm(vms[1..], name, k) && vms[1..][k] == vm {
          assert forall j :: 0 < j <= k ==> vms[j] == vms[1..][j - 1];
          assert FirstVm(vms, name, k + 1) && vms[k + 1] == vm;
        }
        if k: nat :| k < |vms| && FirstVm(vms, name, k) && vms[k] == vm {
          assert forall j :: 0 <= j < k ==> vms[1..][j] == vms[j + 1];
          assert FirstVm(vms[1..], name, k - 1) && vms[1..][k - 1] == vm;
        }
      }
    }
  }

  lemma {:induction false} KindIs(networks: seq<NetRow>, name: string, kind: NetKind)
    requires !kind.Nat?
    ensures NetworkKind(networks, name) == kind <==> OfType(networks, name, kind)
  {
    if networks != [] {
      KindIs(networks[1..], name, kind);
      if networks[0].name == name {
        assert FirstNetwork(networks, name, 0);
      } else {
        if k: nat :| k < |networks[1..]| && FirstNetwork(networks[1..], name, k) && networks[1..][k].kind == kind {
          assert forall j :: 0 < j <= k ==> networks[j] == networks[1..][j - 1];
          assert FirstNetwork(networks, name, k + 1) && networks[k + 1].kind == kind;
        }
        if k: nat :| k < |networks| && FirstNetwork(networks, name, k) && networks[k].kind == kind {
          assert forall j :: 0 <= j < k ==> networks[1..][j] == networks[j + 1];
          assert FirstNetwork(networks[1..], name, k - 1) && networks[1..][k - 1].kind == kind;
        }
      }
    }
  }

  /** A VM backend resolves exactly when its VM has an address the gateway nodes can reach, and to that address and the port asked for. */
  lemma VmResolvesIff(st: State, ids: set<string>, name: string, port: int, dials: seq<Dial>)
    ensures Resolve(st, ids, Vm(name, port)) == Some(dials)
       <==> exists vm :: UsableVm(st, ids, name, vm) && dials == [HostPort(vm.ip, port)]
  {
    forall vm ensures UsableVm(st, ids, name, vm) <==> FindVm(st.vms, name) == Some(vm) && vm.ip != [] && Reaches(st, ids, vm) {
      FindVmIs(st.vms, name, vm);
      KindIs(st.networks, vm.network, Vxlan);
      KindIs(st.networks, vm.network, Bridge);
      assert forall id :: OnNetwork(st.networks, vm.network, id) <==> Joined(st.networks, vm.network, id);
    }
  }

  /** A gateway can use the backend at this address. */
  predicate Offered(st: State, ids: set<string>, b: Backend, d: Dial) {
    match b
    case External(address) => d == Listed(address)
    case Kubernetes(key) => key in st.k8s && Offers(st.k8s[key], d)
    case Container(_, _) => false
    case Vm(name, port) => d.HostPort? && d.port == port && exists k: nat :: k < |st.vms| && UsableVm(st, ids, name, st.vms[k]) && st.vms[k].ip == d.address
  }

  lemma VmOffered(st: State, ids: set<string>, name: string, port: int, d: Dial)
    ensures Offered(st, ids, Vm(name, port), d) <==> Resolve(st, ids, Vm(name, port)) == Some([d])
  {
    VmResolvesIff(st, ids, name, port, [d]);
    if vm :| UsableVm(st, ids, name, vm) && [d] == [HostPort(vm.ip, port)] {
      var k: nat :| k < |st.vms| && FirstVm(st.vms, name, k) && st.vms[k] == vm;
      assert [d][0] == [HostPort(vm.ip, port)][0];
      assert UsableVm(st, ids, name, st.vms[k]);
    }
    if Offered(st, ids, Vm(name, port), d) {
      var k: nat :| k < |st.vms| && UsableVm(st, ids, name, st.vms[k]) && st.vms[k].ip == d.address;
      assert [d] == [HostPort(st.vms[k].ip, port)];
    }
  }

  /** Backends other than external ones resolve to exactly the addresses they offer. */
  lemma ResolvesToOffered(st: State, ids: set<string>, b: Backend, d: Dial)
    requires !b.External?
    ensures Offered(st, ids, b, d) <==> Resolve(st, ids, b).Some? && d in Resolve(st, ids, b).value
  {
    match b
    case Kubernetes(key) =>
      if key in st.k8s {
        DialsWhatIsOffered(st.k8s[key], d);
      }
    case Container(_, _) =>
    case Vm(name, port) =>
      VmOffered(st, ids, name, port, d);
      var r := Resolve(st, ids, b);
      assert r.Some? ==> |r.value| == 1;
      if r.Some? && d in r.value {
        assert r.value == [d];
      }
  }

  /** A backend is a problem exactly when it offers no address; an external one never is. */
  lemma ResolvesIffOffered(st: State, ids: set<string>, b: Backend)
    ensures Resolve(st, ids, b).Some? <==> exists d :: Offered(st, ids, b, d)
  {
    if b.External? {
      assert Offered(st, ids, b, Listed(b.address));
    } else {
      if Resolve(st, ids, b).Some? {
        var d := Resolve(st, ids, b).value[0];
        ResolvesToOffered(st, ids, b, d);
      }
      if d :| Offered(st, ids, b, d) {
        ResolvesToOffered(st, ids, b, d);
      }
    }
  }

  // ---- whole plans -----------------------------------------------------------------

  predicate OfferedByAny(st: State, ids: set<string>, bs: seq<Backend>, d: Dial) {
    exists k :: 0 <= k < |bs| && Offered(st, ids, bs[k], d)
  }

  /** What the renderer of checked routes dials for a backend is what the backend offers. */
  lemma DialedIsOffered(st: State, g: Gateway, routes: seq<Route>, issue: bool, r: Route, b: Backend, d: Dial)
    requires PreErrors(st, g, routes) == [] && r in routes && b in BackendsOf(r)
    ensures DialedBy(RenderInput(st, g, routes, issue), b, d) <==> Offered(st, NodeIds(st, g.nodes), b, d)
  {
    var ids := NodeIds(st, g.nodes);
    NoBackendErrors(st, ids, routes);
    var k :| 0 <= k < |routes| && routes[k] == r;
    AllBackendsMembers(routes, k, b);
    if !b.External? {
      ResolvesToOffered(st, ids, b, d);
    }
  }

  /** A plan without errors uses no backend that offers no address. */
  lemma ErrorFreePlansAreUsable(st: State, g: Gateway, all: seq<Route>, r: Route, b: Backend)
    requires PlanOf(st, g, all).errors == [] && r in Filter(st, NodeIds(st, g.nodes), [], all) && b in BackendsOf(r)
    ensures exists d :: Offered(st, NodeIds(st, g.nodes), b, d)
  {
    var routes := Filter(st, NodeIds(st, g.nodes), [], all);
    PlanErrorsAre(st, g, all);
    NoBackendErrors(st, NodeIds(st, g.nodes), routes);
    var k :| 0 <= k < |routes| && routes[k] == r;
    ResolvesIffOffered(st, NodeIds(st, g.nodes), b);
  }

  /** A kept route with such a backend is an error that names both. */
  lemma UnusableBackendIsAnError(st: State, g: Gateway, all: seq<Route>, r: Route, b: Backend)
    requires ValidGateway(g) && r in Filter(st, NodeIds(st, g.nodes), [], all) && b in BackendsOf(r)
    requires forall d :: !Offered(st, NodeIds(st, g.nodes), b, d)
    ensures BackendFailed(r.name, b) in PlanOf(st, g, all).errors
  {
    var ids := NodeIds(st, g.nodes);
    PlanErrorsAre(st, g, all);
    ResolvesIffOffered(st, ids, b);
    BackendErrorMember(st, ids, Filter(st, ids, [], all), r, b);
  }

  lemma {:induction false} BackendErrorMember(st: State, ids: set<string>, routes: seq<Route>, r: Route, b: Backend)
    requires r in routes && b in BackendsOf(r) && Resolve(st, ids, b).None?
    ensures BackendFailed(r.name, b) in BackendErrors(st, ids, routes)
  {
    if routes[0] == r {
      FailedMember(st, ids, r.name, BackendsOf(r), b);
    } else {
      BackendErrorMember(st, ids, routes[1..], r, b);
    }
  }

  lemma {:induction false} FailedMember(st: State, ids: set<string>, route: string, bs: seq<Backend>, b: Backend)
    requires b in bs && Resolve(st, ids, b).None?
    ensures BackendFailed(route, b) in FailedBackends(st, ids, route, bs)
  {
    if bs[0] != b {
      FailedMember(st, ids, route, bs[1..], b);
    }
  }

  /** The entry that serves a request dials exactly what the backends of the longest covering path offer. */
  ghost predicate Delivers(st: State, ids: set<string>, r: Route, host: string, path: string, e: Entry) {
    && OwnsHost(r, host) && e.route == r.name
    && exists j :: 0 <= j < |r.paths| && IsLongest(r.paths, path, j) && forall d :: d in e.dials <==> OfferedByAny(st, ids, r.paths[j].backends, d)
  }

  lemma ServedIsDelivered(st: State, g: Gateway, routes: seq<Route>, issue: bool, r: Route, host: string, path: string, e: Entry)
    requires PreErrors(st, g, routes) == [] && r in routes && Serves(RenderInput(st, g, routes, issue), r, host, path, e)
    ensures Delivers(st, NodeIds(st, g.nodes), r, host, path, e)
  {
    var i, ids := RenderInput(st, g, routes, issue), NodeIds(st, g.nodes);
    var j :| 0 <= j < |r.paths| && IsLongest(r.paths, path, j) && EntryOf(i, r, r.paths[j], e);
    var bs := r.paths[j].backends;
    forall d ensures DialedByAny(i, bs, d) <==> OfferedByAny(st, ids, bs, d) {
      forall k | 0 <= k < |bs| ensures DialedBy(i, bs[k], d) <==> Offered(st, ids, bs[k], d) {
        PathBackend(r.paths, bs[k]);
        DialedIsOffered(st, g, routes, issue, r, bs[k], d);
      }
    }
  }

  /** The match of a request delivers it; without one no route has a prefix for it. */
  ghost predicate Delivered(st: State, ids: set<string>, http: seq<Route>, host: string, path: string, m: Option<Entry>) {
    match m
    case None => forall k :: 0 <= k < |http| ==> Unserved(http[k], host, path)
    case Some(e) => exists k :: 0 <= k < |http| && Delivers(st, ids, http[k], host, path, e)
  }

  lemma CheckedRoutesDeliver(st: State, g: Gateway, routes: seq<Route>, issue: bool, host: string, path: string)
    requires PreErrors(st, g, routes) == [] && AllNested(OfKind(routes, Http)) && Rooted(path)
    ensures Render(RenderInput(st, g, routes, issue), routes).Fine?
    ensures Delivered(st, NodeIds(st, g.nodes), OfKind(routes, Http), host, path,
                      FirstMatch(Render(RenderInput(st, g, routes, issue), routes).value.entries, host, path))
  {
    var http, i := OfKind(routes, Http), RenderInput(st, g, routes, issue);
    CheckedAreCompatible(st, g, routes, issue);
    var m := FirstMatch(Render(i, routes).value.entries, host, path);
    NestedServe(i, routes, host, path);
    if m.Some? {
      var k :| 0 <= k < |http| && Serves(i, http[k], host, path, m.value) && OnlyOwner(http, host, k);
      OfKindMembers(routes, Http, http[k]);
      ServedIsDelivered(st, g, routes, issue, http[k], host, path, m.value);
    }
  }

  lemma NestedServe(i: Input, routes: seq<Route>, host: string, path: string)
    requires Render(i, routes).Fine? && Compatible(routes) && ValidHttp(OfKind(routes, Http)) && AllNested(OfKind(routes, Http)) && Rooted(path)
    ensures Expected(i, OfKind(routes, Http), host, path, FirstMatch(Render(i, routes).value.entries, host, path))
  {
    NestedRoutesServeLongest(i, OfKind(routes, Http), host, path);
  }

  /**
   A plan without errors whose prefixes are nested in order: every request to a
   host of one of its routes under one of its prefixes is dialled at exactly the
   addresses that the backends of the longest such prefix offer, on the active and
   on the standby node.
   */
  lemma RequestsReachTheirBackends(st: State, g: Gateway, all: seq<Route>, host: string, path: string)
    requires PlanOf(st, g, all).errors == [] && Rooted(path)
    requires AllNested(OfKind(Filter(st, NodeIds(st, g.nodes), [], all), Http))
    ensures var p, ids := PlanOf(st, g, all), NodeIds(st, g.nodes);
            var http := OfKind(Filter(st, ids, [], all), Http);
            && p.rendered.Some? && Delivered(st, ids, http, host, path, FirstMatch(p.rendered.value.entries, host, path))
            && (p.standby.Some? <==> g.replicated)
            && (p.standby.Some? ==> Delivered(st, ids, http, host, path, FirstMatch(p.standby.value.entries, host, path)))
  {
    var routes := Filter(st, NodeIds(st, g.nodes), [], all);
    PlanErrorsAre(st, g, all);
    CheckedRoutesDeliver(st, g, routes, true, host, path);
    CheckedRoutesDeliver(st, g, routes, false, host, path);
  }

  lemma CheckedAreCompatible(st: State, g: Gateway, routes: seq<Route>, issue: bool)
    requires PreErrors(st, g, routes) == []
    ensures Compatible(routes) && ValidHttp(OfKind(routes, Http)) && Render(RenderInput(st, g, routes, issue), routes).Fine?
  {
    NoRouteErrors(routes);
    var http := OfKind(routes, Http);
    forall k | 0 <= k < |http| ensures http[k].kind == Http && ValidRoute(http[k]) {
      OfKindMembers(routes, Http, http[k]);
    }
    assert ConflictErrors(routes) == [];
    NoConflictIffCompatible(routes);
    CheckedRoutesRender(st, g, routes, issue);
  }
}
