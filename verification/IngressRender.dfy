/**
 Rendering a gateway (crates/controller/src/ingress_render.rs): HTTP routes become
 a list of entries of which the proxy takes the first that matches, TCP routes
 become one server per port. The configuration text is left out: an entry keeps
 what decides matching and where it dials.
 */
module IngressRender {
  import opened Prelude
  import opened IngressSpec

  /** Where a request is sent: an address as configured, or a host and its port. */
  datatype Dial = Listed(address: string) | HostPort(address: string, port: int)

  /** `settingsOk` is the outcome of the checks on listeners, high availability, TLS and the other single settings. */
  datatype Gateway = Gateway(settingsOk: bool, nodes: seq<string>, dns01: bool, listeners: seq<seq<int>>,
                             defaultPolicy: Option<string>, replicated: bool)

  /** What the renderer is given; `issue` is false on a standby node. */
  datatype Input = Input(gateway: Gateway, policies: set<string>, backends: map<Backend, seq<Dial>>, issue: bool)

  datatype Pattern = Exact(path: string) | Under(path: string)

  datatype Entry = Entry(route: string, prefix: string, hosts: seq<string>, patterns: seq<Pattern>,
                         waf: Option<string>, dials: set<Dial>)

  datatype Server = Server(port: int, routes: seq<(string, set<Dial>)>)

  /** `certificates` are the hosts to obtain certificates for. */
  datatype Rendered = Rendered(entries: seq<Entry>, servers: seq<Server>, certificates: seq<string>)

  datatype Outcome<+T> = Fine(value: T) | Failed(error: Error)

  // ---- order of paths --------------------------------------------------------

  /** Longer prefixes first, ties by text. */
  predicate Ahead(a: Path, b: Path) {
    |a.prefix| > |b.prefix| || (|a.prefix| == |b.prefix| && Less(a.prefix, b.prefix))
  }

  function InsertPath(paths: seq<Path>, p: Path): (r: seq<Path>) {
    if paths == [] || Ahead(p, paths[0]) then [p] + paths else [paths[0]] + InsertPath(paths[1..], p)
  }

  function SortPaths(paths: seq<Path>): (r: seq<Path>) {
    if paths == [] then [] else InsertPath(SortPaths(paths[..|paths| - 1]), paths[|paths| - 1])
  }

  function TrimFrom(s: string, n: nat): (r: nat)
    requires n <= |s|
    ensures r <= n
  {
    if n > 0 && s[n - 1] == '/' then TrimFrom(s, n - 1) else n
  }

  /** Without trailing slashes. */
  function Trim(s: string): (t: string)
    ensures t <= s && (t != [] ==> t[|t| - 1] != '/')
  {
    TrimEnd(s, |s|);
    s[..TrimFrom(s, |s|)]
  }

  lemma {:induction false} TrimEnd(s: string, n: nat)
    requires n <= |s|
    ensures TrimFrom(s, n) > 0 ==> s[TrimFrom(s, n) - 1] != '/'
  {
    if n > 0 && s[n - 1] == '/' {
      TrimEnd(s, n - 1);
    }
  }

  function Patterns(prefix: string): (ps: seq<Pattern>) {
    if prefix == "/" then [Under([])] else [Exact(Trim(prefix)), Under(Trim(prefix))]
  }

  // ---- rendering as a function ------------------------------------------------

  function ResolveDials(i: Input, route: string, b: Backend): (o: Outcome<set<Dial>>) {
    if b.External? then Fine({Listed(b.address)})
    else if b in i.backends && i.backends[b] != [] then Fine(set d | d in i.backends[b])
    else Failed(NoAddress(route, b))
  }

  function Dials(i: Input, route: string, backs: seq<Backend>): (o: Outcome<set<Dial>>)
    decreases backs
  {
    if backs == [] then Fine({})
    else match ResolveDials(i, route, backs[0])
         case Failed(e) => Failed(e)
         case Fine(ds) =>
           match Dials(i, route, backs[1..])
           case Failed(e) => Failed(e)
           case Fine(more) => Fine(ds + more)
  }

  /** The WAF policy that inspects a route, if any. */
  function RouteWaf(i: Input, r: Route): (o: Outcome<Option<string>>) {
    var policy := if r.waf.policy.Some? then r.waf.policy else i.gateway.defaultPolicy;
    if r.waf.off || policy.None? then Fine(None)
    else if policy.value in i.policies then Fine(policy)
    else Failed(RoutePolicyMissing(r.name, policy.value))
  }

  function RenderPath(i: Input, r: Route, p: Path): (o: Outcome<Entry>) {
    match RouteWaf(i, r)
    case Failed(e) => Failed(e)
    case Fine(waf) =>
      match Dials(i, r.name, p.backends)
      case Failed(e) => Failed(e)
      case Fine(dials) => Fine(Entry(r.name, p.prefix, Lowers(r.hosts), Patterns(p.prefix), waf, dials))
  }

  function RenderPaths(i: Input, r: Route, paths: seq<Path>): (o: Outcome<seq<Entry>>)
    decreases paths
  {
    if paths == [] then Fine([])
    else match RenderPath(i, r, paths[0])
         case Failed(e) => Failed(e)
         case Fine(entry) =>
           match RenderPaths(i, r, paths[1..])
           case Failed(e) => Failed(e)
           case Fine(more) => Fine([entry] + more)
  }

  function RenderHttp(i: Input, http: seq<Route>): (o: Outcome<seq<Entry>>)
    decreases http
  {
    if http == [] then Fine([])
    else match RenderPaths(i, http[0], SortPaths(http[0].paths))
         case Failed(e) => Failed(e)
         case Fine(entries) =>
           match RenderHttp(i, http[1..])
           case Failed(e) => Failed(e)
           case Fine(more) => Fine(entries + more)
  }

  /** Routes with SNI names before the catch-all, each part in name order. */
  function NamedFirst(users: seq<Route>): (r: seq<Route>) {
    WithNames(users, true) + WithNames(users, false)
  }

  function WithNames(users: seq<Route>, named: bool): (r: seq<Route>) {
    if users == [] then []
    else (if (users[0].hosts != []) == named then [users[0]] else []) + WithNames(users[1..], named)
  }

  function RenderUsers(i: Input, users: seq<Route>): (o: Outcome<seq<(string, set<Dial>)>>)
    decreases users
  {
    if users == [] then Fine([])
    else match Dials(i, users[0].name, users[0].backends)
         case Failed(e) => Failed(e)
         case Fine(dials) =>
           match RenderUsers(i, users[1..])
           case Failed(e) => Failed(e)
           case Fine(more) => Fine([(users[0].name, dials)] + more)
  }

  predicate Heard(g: Gateway, port: int) {
    exists k :: 0 <= k < |g.listeners| && port in g.listeners[k]
  }

  function RenderServers(i: Input, ports: seq<int>, tcp: seq<Route>): (o: Outcome<seq<Server>>)
    decreases ports
  {
    if ports == [] then Fine([])
    else if !Heard(i.gateway, ports[0]) then Failed(PortUnheard(ports[0]))
    else match RenderUsers(i, NamedFirst(OnPort(tcp, ports[0])))
         case Failed(e) => Failed(e)
         case Fine(routes) =>
           match RenderServers(i, ports[1..], tcp)
           case Failed(e) => Failed(e)
           case Fine(more) => Fine([Server(ports[0], routes)] + more)
  }

  function Portless(tcp: seq<Route>): (e: Option<Error>) {
    if tcp == [] then None
    else if tcp[0].port.None? then Some(PortMissing(tcp[0].name))
    else Portless(tcp[1..])
  }

  function RenderLayer4(i: Input, tcp: seq<Route>): (o: Outcome<seq<Server>>) {
    match Portless(tcp)
    case Some(e) => Failed(e)
    case None => RenderServers(i, Ports(tcp), tcp)
  }

  function Subjects(http: seq<Route>): (r: seq<string>) {
    if http == [] then [] else Lowers(http[0].hosts) + Subjects(http[1..])
  }

  function Render(i: Input, routes: seq<Route>): (o: Outcome<Rendered>) {
    var http := OfKind(routes, Http);
    match RenderHttp(i, http)
    case Failed(e) => Failed(e)
    case Fine(entries) =>
      match RenderLayer4(i, OfKind(routes, Tcp))
      case Failed(e) => Failed(e)
      case Fine(servers) => Fine(Rendered(entries, servers, if i.issue then Subjects(http) else []))
  }
}
