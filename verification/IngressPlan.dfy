/**
 Planning one gateway (crates/controller/src/ingress_reconciler.rs,
 `plan_gateway`): mirrored routes with a problem are left out, everything else
 with a problem is an error, and a plan without errors is rendered.
 */
module IngressPlan {
  import opened Prelude
  import opened IngressSpec
  import opened IngressRender
  import opened IngressKubernetes

  datatype NetKind = Vxlan | Bridge | Nat

  datatype VmRow = VmRow(name: string, ip: string, network: string, node: string)

  datatype NetRow = NetRow(name: string, node: string, kind: NetKind)

  /** Stored state: unreadable documents, node names to ids, VMs, networks, what the clusters answered for Kubernetes backends, policies with their validity. */
  datatype State = State(corrupt: seq<string>, registered: map<string, string>, vms: seq<VmRow>, networks: seq<NetRow>,
                         k8s: map<string, Answer>, policies: map<string, bool>)

  datatype Plan = Plan(errors: seq<Error>, rendered: Option<Rendered>, standby: Option<Rendered>)

  // ---- backends ----------------------------------------------------------------

  function FindVm(vms: seq<VmRow>, name: string): (vm: Option<VmRow>) {
    if vms == [] then None else if vms[0].name == name then Some(vms[0]) else FindVm(vms[1..], name)
  }

  /** The kind of the first network of that name; NAT when there is none. */
  function NetworkKind(networks: seq<NetRow>, name: string): (kind: NetKind) {
    if networks == [] then Nat
    else if networks[0].name == name then networks[0].kind
    else NetworkKind(networks[1..], name)
  }

  predicate OnNetwork(networks: seq<NetRow>, name: string, node: string) {
    exists k :: 0 <= k < |networks| && networks[k].name == name && networks[k].node == node
  }

  predicate Reaches(st: State, ids: set<string>, vm: VmRow) {
    match NetworkKind(st.networks, vm.network)
    case Vxlan => forall id :: id in ids ==> OnNetwork(st.networks, vm.network, id)
    case Bridge => true
    case Nat => vm.node in ids
  }

  /** The addresses of a backend seen from the gateway nodes `ids`, or a problem. */
  function Resolve(st: State, ids: set<string>, b: Backend): (dials: Option<seq<Dial>>)
    ensures !b.External? ==> dials != Some([])
  {
    match b
    case External(_) => Some([])
    case Kubernetes(key) => if key in st.k8s then AddressesOf(st.k8s[key]) else None
    case Container(_, _) => None
    case Vm(name, port) =>
      match FindVm(st.vms, name)
      case None => None
      case Some(vm) => if vm.ip == [] || !Reaches(st, ids, vm) then None else Some([HostPort(vm.ip, port)])
  }

  // ---- leaving out mirrored routes -----------------------------------------------

  predicate SharesHost(a: Route, b: Route) {
    exists h :: h in LowerSet(a.hosts) && h in LowerSet(b.hosts)
  }

  /** Another route serves one of the hosts of `r`: an operator's, or a mirrored one with a smaller name. */
  predicate Clashes(routes: seq<Route>, r: Route) {
    exists k :: 0 <= k < |routes| && routes[k].name != r.name && SharesHost(routes[k], r)
             && (!routes[k].mirrored || Less(routes[k].name, r.name))
  }

  predicate AllResolve(st: State, ids: set<string>, backs: seq<Backend>) {
    forall k :: 0 <= k < |backs| ==> Resolve(st, ids, backs[k]).Some?
  }

  predicate PathsResolve(st: State, ids: set<string>, paths: seq<Path>) {
    forall k :: 0 <= k < |paths| ==> AllResolve(st, ids, paths[k].backends)
  }

  /** No problem of its own. */
  predicate Clean(st: State, ids: set<string>, r: Route) {
    ValidRoute(r) && PathsResolve(st, ids, r.paths) && (r.waf.policy.Some? ==> r.waf.policy.value in st.policies)
  }

  predicate Stays(st: State, ids: set<string>, routes: seq<Route>, r: Route) {
    !r.mirrored || (Clean(st, ids, r) && !Clashes(routes, r))
  }

  /** Goes through `rest` in name order with `kept` already decided. */
  function Filter(st: State, ids: set<string>, kept: seq<Route>, rest: seq<Route>): (r: seq<Route>)
    decreases rest
  {
    if rest == [] then kept
    else if Stays(st, ids, kept + rest, rest[0]) then Filter(st, ids, kept + [rest[0]], rest[1..])
    else Filter(st, ids, kept, rest[1..])
  }

  // ---- errors ----------------------------------------------------------------------

  function NodeIds(st: State, nodes: seq<string>): (ids: set<string>) {
    set k | 0 <= k < |nodes| && nodes[k] in st.registered :: st.registered[nodes[k]]
  }

  function NodeErrors(st: State, nodes: seq<string>): (es: seq<Error>) {
    if nodes == [] then []
    else (if nodes[0] in st.registered then [] else [NodeMissing(nodes[0])]) + NodeErrors(st, nodes[1..])
  }

  function CorruptErrors(st: State): (es: seq<Error>)
    ensures |es| == |st.corrupt|
  {
    seq(|st.corrupt|, k requires 0 <= k < |st.corrupt| => Corrupt(st.corrupt[k]))
  }

  /** What is wrong before any route is looked at. */
  function StartErrors(st: State, g: Gateway): (es: seq<Error>) {
    CorruptErrors(st) + NodeErrors(st, g.nodes)
  }

  function RouteErrors(routes: seq<Route>): (es: seq<Error>) {
    if routes == [] then []
    else (if ValidRoute(routes[0]) then [] else [RouteInvalid(routes[0].name)]) + RouteErrors(routes[1..])
  }

  function ConflictErrors(routes: seq<Route>): (es: seq<Error>) {
    match HostConflict(routes)
    case None => []
    case Some(e) => [e]
  }

  predicate AnyWildcard(hosts: seq<string>) {
    exists k :: 0 <= k < |hosts| && IsWildcard(hosts[k])
  }

  function KindError(g: Gateway, r: Route): (es: seq<Error>) {
    match r.kind
    case Http => if AnyWildcard(r.hosts) && !g.dns01 then [WildcardNeedsDns(r.name)] else []
    case Tcp =>
      var port := if r.port.Some? then r.port.value else 0;
      if Heard(g, port) then [] else [NoListener(r.name, port)]
  }

  function KindErrors(g: Gateway, routes: seq<Route>): (es: seq<Error>) {
    if routes == [] then [] else KindError(g, routes[0]) + KindErrors(g, routes[1..])
  }

  /** The policy a route makes the gateway check. */
  function NamedPolicy(r: Route): (p: Option<string>) {
    if r.kind == Http && !r.waf.off then r.waf.policy else None
  }

  function InsertName(names: seq<string>, p: string): (r: seq<string>) {
    if names == [] || Less(p, names[0]) then [p] + names
    else if p == names[0] then names
    else [names[0]] + InsertName(names[1..], p)
  }

  /** Policies named by the gateway or a route, ascending and without repetition. */
  function UsedPolicies(g: Gateway, routes: seq<Route>): (names: seq<string>) {
    if routes == [] then (if g.defaultPolicy.Some? then [g.defaultPolicy.value] else [])
    else
      var before, p := UsedPolicies(g, routes[..|routes| - 1]), NamedPolicy(routes[|routes| - 1]);
      if p.Some? then InsertName(before, p.value) else before
  }

  predicate GoodPolicy(st: State, p: string) {
    p in st.policies && st.policies[p]
  }

  function PolicyError(st: State, p: string): (e: Error) {
    if p in st.policies then PolicyInvalid(p) else PolicyMissing(p)
  }

  function PolicyErrors(st: State, names: seq<string>): (es: seq<Error>) {
    if names == [] then []
    else (if GoodPolicy(st, names[0]) then [] else [PolicyError(st, names[0])]) + PolicyErrors(st, names[1..])
  }

  function BackendsOfPaths(paths: seq<Path>): (bs: seq<Backend>) {
    if paths == [] then [] else paths[0].backends + BackendsOfPaths(paths[1..])
  }

  function BackendsOf(r: Route): (bs: seq<Backend>) {
    BackendsOfPaths(r.paths) + (if r.kind == Tcp then r.backends else [])
  }

  function FailedBackends(st: State, ids: set<string>, route: string, bs: seq<Backend>): (es: seq<Error>) {
    if bs == [] then []
    else if Resolve(st, ids, bs[0]).Some? then FailedBackends(st, ids, route, bs[1..])
    else [BackendFailed(route, bs[0])] + FailedBackends(st, ids, route, bs[1..])
  }

  function BackendErrors(st: State, ids: set<string>, routes: seq<Route>): (es: seq<Error>) {
    if routes == [] then []
    else FailedBackends(st, ids, routes[0].name, BackendsOf(routes[0])) + BackendErrors(st, ids, routes[1..])
  }

  /** The errors found before anything is rendered. */
  function PreErrors(st: State, g: Gateway, routes: seq<Route>): (es: seq<Error>) {
    var ids := NodeIds(st, g.nodes);
    StartErrors(st, g) + RouteErrors(routes) + ConflictErrors(routes) + KindErrors(g, routes)
    + PolicyErrors(st, UsedPolicies(g, routes)) + BackendErrors(st, ids, routes)
  }

  // ---- rendering -------------------------------------------------------------------

  function Known(st: State, names: seq<string>): (r: set<string>) {
    set p | p in names && p in st.policies
  }

  function AllBackends(routes: seq<Route>): (bs: set<Backend>) {
    if routes == [] then {} else (set b | b in BackendsOf(routes[0])) + AllBackends(routes[1..])
  }

  function Addresses(st: State, ids: set<string>, routes: seq<Route>): (m: map<Backend, seq<Dial>>) {
    map b | b in AllBackends(routes) && Resolve(st, ids, b).Some? :: Resolve(st, ids, b).value
  }

  function RenderInput(st: State, g: Gateway, routes: seq<Route>, issue: bool): (i: Input) {
    Input(g, Known(st, UsedPolicies(g, routes)), Addresses(st, NodeIds(st, g.nodes), routes), issue)
  }

  function Failure<T>(o: Outcome<T>): (es: seq<Error>) {
    if o.Failed? then [o.error] else []
  }

  function Success<T>(o: Outcome<T>): (r: Option<T>) {
    if o.Fine? then Some(o.value) else None
  }

  /** One or two different nodes, and every setting in order. */
  predicate ValidGateway(g: Gateway) {
    0 < |g.nodes| <= 2 && Distinct(g.nodes) && g.settingsOk
  }

  /** The plan of a gateway for the routes attached to it, in name order; an unknown gateway counts as not valid. */
  function PlanOf(st: State, g: Gateway, all: seq<Route>): (p: Plan) {
    if !ValidGateway(g) then Plan(CorruptErrors(st) + [GatewayInvalid], None, None)
    else
      var routes := Filter(st, NodeIds(st, g.nodes), [], all);
      var pre := PreErrors(st, g, routes);
      if pre != [] then Plan(pre, None, None)
      else
        var active := Render(RenderInput(st, g, routes, true), routes);
        var standby := Render(RenderInput(st, g, routes, false), routes);
        if g.replicated then Plan(Failure(active) + Failure(standby), Success(active), Success(standby))
        else Plan(Failure(active), Success(active), None)
  }
}
