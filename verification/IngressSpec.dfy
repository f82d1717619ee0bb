/**
 Ingress routes and what makes a set of them acceptable on one gateway
 (crates/controller/src/ingress_spec.rs). Routes are listed in name order, as
 the controller's sorted map iterates them.
 */
module IngressSpec {
  import opened Prelude

  /** A backend stands for its own resolution key; Kubernetes backends carry the key as text. */
  datatype Backend =
    | External(address: string)
    | Kubernetes(key: string)
    | Container(name: string, port: int)
    | Vm(name: string, port: int)

  /** `settingsOk` is the outcome of the checks on single settings: backend fields, load balancing, health check, TLS. */
  datatype Path = Path(prefix: string, backends: seq<Backend>, settingsOk: bool)

  datatype Kind = Http | Tcp

  datatype Waf = Waf(policy: Option<string>, off: bool)

  /** `mirrored` routes are owned by a Kubernetes cluster; `settingsOk` covers host names, headers, TLS issuer, exclusions. */
  datatype Route = Route(name: string, mirrored: bool, kind: Kind, hosts: seq<string>, paths: seq<Path>,
                         port: Option<int>, backends: seq<Backend>, waf: Waf, settingsOk: bool)

  datatype Error =
    | Corrupt(document: string)
    | GatewayInvalid
    | NodeMissing(node: string)
    | RouteInvalid(route: string)
    | HostTwice(host: string, first: string, second: string)
    | CatchAllShared(route: string, port: int)
    | SniTwice(host: string, port: int)
    | WildcardNeedsDns(route: string)
    | NoListener(route: string, port: int)
    | PolicyInvalid(policy: string)
    | PolicyMissing(policy: string)
    | BackendFailed(route: string, backend: Backend)
    | NoAddress(route: string, backend: Backend)
    | RoutePolicyMissing(route: string, policy: string)
    | PortMissing(route: string)
    | PortUnheard(port: int)

  function LowerChar(c: char): (r: char) {
    if 'A' <= c <= 'Z' then (c as int + 32) as char else c
  }

  /** ASCII lower case. */
  function Lower(s: string): (r: string)
    ensures |r| == |s|
  {
    seq(|s|, i requires 0 <= i < |s| => LowerChar(s[i]))
  }

  predicate IsWildcard(h: string) {
    |h| >= 2 && h[0] == '*' && h[1] == '.'
  }

  predicate Distinct<T(==)>(xs: seq<T>) {
    forall i, j :: 0 <= i < j < |xs| ==> xs[i] != xs[j]
  }

  function Lowers(hosts: seq<string>): (r: seq<string>)
    ensures |r| == |hosts|
  {
    seq(|hosts|, i requires 0 <= i < |hosts| => Lower(hosts[i]))
  }

  function Prefixes(paths: seq<Path>): (r: seq<string>)
    ensures |r| == |paths|
  {
    seq(|paths|, i requires 0 <= i < |paths| => paths[i].prefix)
  }

  predicate PlainPrefix(p: string) {
    p != [] && p[0] == '/' && '*' !in p && '?' !in p && '#' !in p && ' ' !in p
  }

  predicate ValidPath(p: Path) {
    PlainPrefix(p.prefix) && p.backends != [] && p.settingsOk
  }

  predicate ValidPaths(paths: seq<Path>) {
    Distinct(Prefixes(paths)) && forall i :: 0 <= i < |paths| ==> ValidPath(paths[i])
  }

  predicate ValidRoute(r: Route) {
    && r.settingsOk && Distinct(Lowers(r.hosts))
    && match r.kind
       case Http => r.hosts != [] && r.port.None? && r.backends == [] && r.paths != [] && ValidPaths(r.paths)
       case Tcp =>
         && r.port.Some? && r.port.value != 0 && r.port.value != 80 && r.port.value != 443
         && r.paths == [] && r.waf == Waf(None, false) && r.backends != []
  }

  /** Validation with its running sets of hosts and prefixes, returning at the first problem. */
  method ValidateRoute(r: Route) returns (ok: bool)
    ensures ok == ValidRoute(r)
  {
    var lowers := Lowers(r.hosts);
    var seen: set<string>, i := {}, 0;
    while i < |lowers|
      invariant 0 <= i <= |lowers| && Distinct(lowers[..i])
      invariant forall h :: h in seen <==> h in lowers[..i]
    {
      if lowers[i] in seen {
        assert exists k :: 0 <= k < i && lowers[k] == lowers[i];
        return false;
      }
      seen := seen + {lowers[i]};
      i := i + 1;
    }
    assert lowers[..|lowers|] == lowers;
    if !r.settingsOk {
      return false;
    }
    match r.kind {
      case Http => ok := ValidateHttpRoute(r);
      case Tcp =>
        if r.port.None? || r.port.value == 0 || r.port.value == 80 || r.port.value == 443 {
          return false;
        }
        ok := r.paths == [] && r.waf.policy.None? && !r.waf.off && r.backends != [];
    }
  }

  method ValidateHttpRoute(r: Route) returns (ok: bool)
    ensures ok <==> r.hosts != [] && r.port.None? && r.backends == [] && r.paths != [] && ValidPaths(r.paths)
  {
    if r.hosts == [] || r.port.Some? || r.backends != [] || r.paths == [] {
      return false;
    }
    var prefixes := Prefixes(r.paths);
    var seen: set<string>, i := {}, 0;
    while i < |prefixes|
      invariant 0 <= i <= |prefixes| && Distinct(prefixes[..i])
      invariant forall p :: p in seen <==> p in prefixes[..i]
      invariant forall k :: 0 <= k < i ==> ValidPath(r.paths[k])
    {
      if !ValidPath(r.paths[i]) {
        return false;
      }
      if prefixes[i] in seen {
        assert exists k :: 0 <= k < i && prefixes[k] == prefixes[i];
        return false;
      }
      seen := seen + {prefixes[i]};
      i := i + 1;
    }
    assert prefixes[..|prefixes|] == prefixes;
    return true;
  }

  // ---- host conflicts --------------------------------------------------------

  /** A route's claim to a host. */
  datatype Claim = Claim(key: string, host: string, route: string, mirrored: bool)

  function ClaimsOf(r: Route): (cs: seq<Claim>)
    ensures |cs| == |r.hosts|
  {
    seq(|r.hosts|, i requires 0 <= i < |r.hosts| => Claim(Lower(r.hosts[i]), r.hosts[i], r.name, r.mirrored))
  }

  /** All claims in the order the check meets them. */
  function Claims(routes: seq<Route>): (cs: seq<Claim>) {
    if routes == [] then [] else ClaimsOf(routes[0]) + Claims(routes[1..])
  }

  function OfKind(routes: seq<Route>, kind: Kind): (rs: seq<Route>) {
    if routes == [] then []
    else (if routes[0].kind == kind then [routes[0]] else []) + OfKind(routes[1..], kind)
  }

  /** The route that first claimed `key`. */
  function Owner(seen: seq<Claim>, key: string): (route: Option<string>) {
    if seen == [] then None
    else if seen[0].key == key then Some(seen[0].route)
    else Owner(seen[1..], key)
  }

  /** The first claim to a host already claimed. */
  function FirstTwice(seen: seq<Claim>, rest: seq<Claim>): (e: Option<Error>)
    decreases rest
  {
    if rest == [] then None
    else match Owner(seen, rest[0].key)
         case Some(prev) => Some(HostTwice(rest[0].host, prev, rest[0].route))
         case None => FirstTwice(seen + [rest[0]], rest[1..])
  }

  predicate KeysDistinct(cs: seq<Claim>) {
    forall i, j :: 0 <= i < j < |cs| ==> cs[i].key != cs[j].key
  }

  lemma {:induction false} OwnerIff(seen: seq<Claim>, key: string)
    ensures Owner(seen, key).Some? <==> exists i :: 0 <= i < |seen| && seen[i].key == key
  {
    if seen != [] {
      OwnerIff(seen[1..], key);
      if i :| 0 <= i < |seen| && seen[i].key == key {
        if i > 0 {
          assert seen[1..][i - 1].key == key;
        }
      }
    }
  }

  lemma {:induction false} NoneTwiceIff(seen: seq<Claim>, rest: seq<Claim>)
    requires KeysDistinct(seen)
    ensures FirstTwice(seen, rest).None? <==> KeysDistinct(seen + rest)
    decreases rest
  {
    if rest == [] {
      assert seen + rest == seen;
    } else {
      OwnerIff(seen, rest[0].key);
      var all := seen + rest;
      assert all[|seen|] == rest[0];
      if i :| 0 <= i < |seen| && seen[i].key == rest[0].key {
        assert all[i].key == all[|seen|].key;
      } else {
        NoneTwiceIff(seen + [rest[0]], rest[1..]);
        assert (seen + [rest[0]]) + rest[1..] == all;
      }
    }
  }

  // ---- TCP ports -------------------------------------------------------------

  function InsertPort(ports: seq<int>, p: int): (r: seq<int>) {
    if ports == [] || p < ports[0] then [p] + ports
    else if p == ports[0] then ports
    else [ports[0]] + InsertPort(ports[1..], p)
  }

  /** The ports of TCP routes, ascending and without repetition. */
  function Ports(tcp: seq<Route>): (r: seq<int>) {
    if tcp == [] then []
    else
      var before := Ports(tcp[..|tcp| - 1]);
      match tcp[|tcp| - 1].port
      case None => before
      case Some(p) => InsertPort(before, p)
  }

  function OnPort(tcp: seq<Route>, p: int): (users: seq<Route>) {
    if tcp == [] then [] else (if tcp[0].port == Some(p) then [tcp[0]] else []) + OnPort(tcp[1..], p)
  }

  function ScanHosts(port: int, seen: set<string>, hosts: seq<string>): (e: Option<Error>)
    decreases hosts
  {
    if hosts == [] then None
    else if Lower(hosts[0]) in seen then Some(SniTwice(hosts[0], port))
    else ScanHosts(port, seen + {Lower(hosts[0])}, hosts[1..])
  }

  function LowerSet(hosts: seq<string>): (r: set<string>) {
    set i | 0 <= i < |hosts| :: Lower(hosts[i])
  }

  /** The first problem among the users of one port; `shared` when there is more than one. */
  function ScanPort(port: int, shared: bool, seen: set<string>, users: seq<Route>): (e: Option<Error>)
    decreases users
  {
    if users == [] then None
    else if shared && users[0].hosts == [] then Some(CatchAllShared(users[0].name, port))
    else match ScanHosts(port, seen, users[0].hosts)
         case Some(e) => Some(e)
         case None => ScanPort(port, shared, seen + LowerSet(users[0].hosts), users[1..])
  }

  function ScanPorts(ports: seq<int>, tcp: seq<Route>): (e: Option<Error>)
    decreases ports
  {
    if ports == [] then None
    else
      var users := OnPort(tcp, ports[0]);
      match ScanPort(ports[0], |users| > 1, {}, users)
      case Some(e) => Some(e)
      case None => ScanPorts(ports[1..], tcp)
  }

  /** The first conflict: HTTP hosts across all routes, then SNI names port by port. */
  function HostConflict(routes: seq<Route>): (e: Option<Error>) {
    match FirstTwice([], Claims(OfKind(routes, Http)))
    case Some(e) => Some(e)
    case None => var tcp := OfKind(routes, Tcp); ScanPorts(Ports(tcp), tcp)
  }

  /** HTTP hosts claimed once; on a port, SNI names claimed once and no catch-all beside another route. */
  ghost predicate Compatible(routes: seq<Route>) {
    && KeysDistinct(Claims(OfKind(routes, Http)))
    && forall p :: FairOn(OfKind(routes, Tcp), p)
  }

  predicate PortIsFair(users: seq<Route>) {
    && (|users| > 1 ==> AllNamed(users))
    && KeysDistinct(Claims(users))
  }

  predicate KeysAre(cs: seq<Claim>, keys: set<string>) {
    && (forall i :: 0 <= i < |cs| ==> cs[i].key in keys)
    && (forall k :: k in keys ==> exists i :: 0 <= i < |cs| && cs[i].key == k)
  }

  lemma {:induction false} ScanHostsIff(port: int, seen: set<string>, cs: seq<Claim>, r: Route, n: nat)
    requires n <= |r.hosts| && KeysDistinct(cs) && KeysAre(cs, seen)
    ensures ScanHosts(port, seen, r.hosts[n..]).None? <==> KeysDistinct(cs + ClaimsOf(r)[n..])
    decreases |r.hosts| - n
  {
    var mine := ClaimsOf(r);
    if n == |r.hosts| {
      assert cs + mine[n..] == cs;
    } else {
      var hosts, all := r.hosts[n..], cs + mine[n..];
      assert hosts[0] == r.hosts[n] && hosts[1..] == r.hosts[n + 1..];
      assert all[|cs|] == mine[n];
      if mine[n].key in seen {
        var i :| 0 <= i < |cs| && cs[i].key == mine[n].key;
        assert all[i].key == all[|cs|].key;
      } else {
        var more := cs + [mine[n]];
        assert KeysAre(more, seen + {mine[n].key}) by {
          assert more[|cs|] == mine[n];
          forall k | k in seen ensures exists i :: 0 <= i < |more| && more[i].key == k {
            var i :| 0 <= i < |cs| && cs[i].key == k;
            assert more[i].key == k;
          }
        }
        ScanHostsIff(port, seen + {mine[n].key}, more, r, n + 1);
        assert more + mine[n + 1..] == all;
      }
    }
  }

  lemma KeysJoin(cs: seq<Claim>, seen: set<string>, r: Route)
    requires KeysAre(cs, seen)
    ensures KeysAre(cs + ClaimsOf(r), seen + LowerSet(r.hosts))
  {
    var mine := ClaimsOf(r);
    var all := cs + mine;
    forall k | k in seen + LowerSet(r.hosts) ensures exists i :: 0 <= i < |all| && all[i].key == k {
      if k in seen {
        var i :| 0 <= i < |cs| && cs[i].key == k;
        assert all[i].key == k;
      } else {
        var i :| 0 <= i < |r.hosts| && Lower(r.hosts[i]) == k;
        assert all[|cs| + i] == mine[i];
      }
    }
  }

  predicate AllNamed(users: seq<Route>) {
    forall i :: 0 <= i < |users| ==> users[i].hosts != []
  }

  lemma {:induction false} ScanPortIff(port: int, shared: bool, seen: set<string>, cs: seq<Claim>, users: seq<Route>)
    requires KeysDistinct(cs) && KeysAre(cs, seen)
    ensures ScanPort(port, shared, seen, users).None? <==> (shared ==> AllNamed(users)) && KeysDistinct(cs + Claims(users))
    decreases users
  {
    if users == [] {
      assert cs + Claims(users) == cs;
    } else {
      var r, rest := users[0], users[1..];
      ScanHostsIff(port, seen, cs, r, 0);
      assert r.hosts[0..] == r.hosts && ClaimsOf(r)[0..] == ClaimsOf(r);
      var mid := cs + ClaimsOf(r);
      assert cs + Claims(users) == mid + Claims(rest);
      if KeysDistinct(mid) {
        KeysJoin(cs, seen, r);
        ScanPortIff(port, shared, seen + LowerSet(r.hosts), mid, rest);
      } else {
        DistinctPrefix(mid, Claims(rest));
      }
    }
  }

  lemma DistinctPrefix(xs: seq<Claim>, ys: seq<Claim>)
    ensures KeysDistinct(xs + ys) ==> KeysDistinct(xs)
  {
    assert forall i :: 0 <= i < |xs| ==> (xs + ys)[i] == xs[i];
  }

  lemma {:induction false} InsertPortMembers(ports: seq<int>, p: int)
    ensures forall q :: q in InsertPort(ports, p) <==> q in ports || q == p
  {
    if ports != [] && p > ports[0] {
      InsertPortMembers(ports[1..], p);
    }
  }

  lemma {:induction false} UnlistedPortIsUnused(tcp: seq<Route>, p: int)
    ensures p in Ports(tcp) <==> OnPort(tcp, p) != []
    decreases |tcp|
  {
    if tcp != [] {
      var front, last := tcp[..|tcp| - 1], tcp[|tcp| - 1];
      UnlistedPortIsUnused(front, p);
      OnPortConcat(front, [last], p);
      assert front + [last] == tcp;
      if last.port.Some? {
        InsertPortMembers(Ports(front), last.port.value);
      }
    }
  }

  lemma {:induction false} OnPortConcat(xs: seq<Route>, ys: seq<Route>, p: int)
    ensures OnPort(xs + ys, p) == OnPort(xs, p) + OnPort(ys, p)
  {
    if xs == [] {
      assert xs + ys == ys;
    } else {
      OnPortConcat(xs[1..], ys, p);
      assert (xs + ys)[1..] == xs[1..] + ys && (xs + ys)[0] == xs[0];
      Assoc(if xs[0].port == Some(p) then [xs[0]] else [], OnPort(xs[1..], p), OnPort(ys, p));
    }
  }

  lemma FairIff(port: int, users: seq<Route>)
    ensures ScanPort(port, |users| > 1, {}, users).None? <==> PortIsFair(users)
  {
    ScanPortIff(port, |users| > 1, {}, [], users);
    assert [] + Claims(users) == Claims(users);
  }

  predicate FairOn(tcp: seq<Route>, p: int) {
    PortIsFair(OnPort(tcp, p))
  }

  lemma {:induction false} ScanPortsIff(ports: seq<int>, tcp: seq<Route>)
    ensures ScanPorts(ports, tcp).None? <==> forall p :: p in ports ==> FairOn(tcp, p)
    decreases ports
  {
    if ports != [] {
      FairIff(ports[0], OnPort(tcp, ports[0]));
      ScanPortsIff(ports[1..], tcp);
      assert ScanPorts(ports, tcp).None? <==> FairOn(tcp, ports[0]) && ScanPorts(ports[1..], tcp).None?;
      assert forall p :: p in ports <==> p == ports[0] || p in ports[1..];
    }
  }

  /** The check passes exactly when the routes are compatible. */
  lemma NoConflictIffCompatible(routes: seq<Route>)
    ensures HostConflict(routes).None? <==> Compatible(routes)
  {
    var http, tcp := Claims(OfKind(routes, Http)), OfKind(routes, Tcp);
    NoneTwiceIff([], http);
    assert [] + http == http;
    ScanPortsIff(Ports(tcp), tcp);
    forall p ensures p !in Ports(tcp) ==> FairOn(tcp, p) {
      UnlistedPortIsUnused(tcp, p);
    }
  }

  // ---- the check as it runs --------------------------------------------------

  /** `owner` maps each claimed host to the route that claimed it. */
  ghost predicate Owns(owner: map<string, string>, seen: seq<Claim>) {
    forall key :: (key in owner <==> Owner(seen, key).Some?) && (key in owner ==> Owner(seen, key) == Some(owner[key]))
  }

  lemma {:induction false} OwnerAppend(seen: seq<Claim>, c: Claim, key: string)
    ensures Owner(seen + [c], key)
         == if Owner(seen, key).Some? then Owner(seen, key) else if c.key == key then Some(c.route) else None
  {
    if seen == [] {
      assert seen + [c] == [c] && [c][1..] == [];
    } else {
      OwnerAppend(seen[1..], c, key);
      assert (seen + [c])[1..] == seen[1..] + [c];
    }
  }

  /** Claims the hosts of one HTTP route, stopping at a host already owned; `rest` are the claims still to come. */
  method ClaimHosts(owner: map<string, string>, r: Route, ghost seen: seq<Claim>, ghost rest: seq<Claim>)
    returns (owner': map<string, string>, e: Option<Error>)
    requires Owns(owner, seen)
    ensures FirstTwice(seen, ClaimsOf(r) + rest) == if e.Some? then e else FirstTwice(seen + ClaimsOf(r), rest)
    ensures e.None? ==> Owns(owner', seen + ClaimsOf(r))
  {
    ghost var mine := ClaimsOf(r);
    owner', e := owner, None;
    var i := 0;
    assert seen + mine[..0] == seen && mine[0..] == mine;
    while i < |r.hosts|
      invariant 0 <= i <= |r.hosts|
      invariant Owns(owner', seen + mine[..i])
      invariant FirstTwice(seen, mine + rest) == FirstTwice(seen + mine[..i], mine[i..] + rest)
    {
      ghost var now, next := seen + mine[..i], mine[i..] + rest;
      var key := Lower(r.hosts[i]);
      assert next[0] == mine[i] && next[1..] == mine[i + 1..] + rest;
      assert now + [mine[i]] == seen + mine[..i + 1];
      if key in owner' {
        e := Some(HostTwice(r.hosts[i], owner'[key], r.name));
        return;
      }
      OwnsAppend(owner', now, mine[i]);
      owner' := owner'[key := r.name];
      i := i + 1;
    }
    assert mine[..|r.hosts|] == mine && mine[|r.hosts|..] + rest == rest;
  }

  lemma OwnsAppend(owner: map<string, string>, seen: seq<Claim>, c: Claim)
    requires Owns(owner, seen) && c.key !in owner
    ensures Owns(owner[c.key := c.route], seen + [c])
  {
    forall key ensures Owner(seen + [c], key)
         == if Owner(seen, key).Some? then Owner(seen, key) else if c.key == key then Some(c.route) else None {
      OwnerAppend(seen, c, key);
    }
  }

  /** The TCP routes met so far, by port. */
  ghost predicate Grouped(tcp: map<int, seq<Route>>, ports: seq<int>, routes: seq<Route>) {
    && ports == Ports(routes)
    && (forall p :: p in ports ==> p in tcp)
    && (forall p :: OnPort(routes, p) == if p in tcp then tcp[p] else [])
  }

  lemma OnPortAppend(routes: seq<Route>, r: Route, p: int)
    ensures OnPort(routes + [r], p) == if r.port == Some(p) then OnPort(routes, p) + [r] else OnPort(routes, p)
  {
    OnPortConcat(routes, [r], p);
    assert [r][1..] == [] && OnPort([], p) == [];
  }

  lemma PortsAppend(routes: seq<Route>, r: Route)
    ensures Ports(routes + [r]) == if r.port.None? then Ports(routes) else InsertPort(Ports(routes), r.port.value)
  {
    var all := routes + [r];
    assert all[..|all| - 1] == routes && all[|all| - 1] == r;
  }

  lemma SkipPortless(tcp: map<int, seq<Route>>, ports: seq<int>, routes: seq<Route>, r: Route)
    requires Grouped(tcp, ports, routes) && r.port.None?
    ensures Grouped(tcp, ports, routes + [r])
  {
    PortsAppend(routes, r);
    forall p ensures OnPort(routes + [r], p) == OnPort(routes, p) {
      OnPortAppend(routes, r, p);
    }
  }

  lemma GroupAppend(tcp: map<int, seq<Route>>, ports: seq<int>, routes: seq<Route>, r: Route, p: int)
    requires Grouped(tcp, ports, routes) && r.port == Some(p)
    ensures Grouped(tcp[p := (if p in tcp then tcp[p] else []) + [r]], InsertPort(ports, p), routes + [r])
  {
    var more := tcp[p := (if p in tcp then tcp[p] else []) + [r]];
    PortsAppend(routes, r);
    InsertPortMembers(ports, p);
    forall q ensures OnPort(routes + [r], q) == if q in more then more[q] else [] {
      OnPortAppend(routes, r, q);
      assert OnPort(routes, q) == if q in tcp then tcp[q] else [];
    }
  }

  lemma {:induction false} OfKindConcat(xs: seq<Route>, ys: seq<Route>, kind: Kind)
    ensures OfKind(xs + ys, kind) == OfKind(xs, kind) + OfKind(ys, kind)
  {
    if xs == [] {
      assert xs + ys == ys;
    } else {
      OfKindConcat(xs[1..], ys, kind);
      assert (xs + ys)[1..] == xs[1..] + ys && (xs + ys)[0] == xs[0];
      Assoc(if xs[0].kind == kind then [xs[0]] else [], OfKind(xs[1..], kind), OfKind(ys, kind));
    }
  }

  lemma KindSplit(routes: seq<Route>, i: nat, kind: Kind)
    requires i < |routes|
    ensures OfKind(routes[..i + 1], kind)
         == if routes[i].kind == kind then OfKind(routes[..i], kind) + [routes[i]] else OfKind(routes[..i], kind)
    ensures OfKind(routes[i..], kind)
         == if routes[i].kind == kind then [routes[i]] + OfKind(routes[i + 1..], kind) else OfKind(routes[i + 1..], kind)
  {
    assert routes[..i + 1] == routes[..i] + [routes[i]];
    OfKindConcat(routes[..i], [routes[i]], kind);
    assert [routes[i]][1..] == [];
    assert routes[i..][0] == routes[i] && routes[i..][1..] == routes[i + 1..];
  }

  method CheckSni(port: int, seen: set<string>, hosts: seq<string>) returns (e: Option<Error>, sni: set<string>)
    ensures e == ScanHosts(port, seen, hosts)
    ensures e.None? ==> sni == seen + LowerSet(hosts)
  {
    e, sni := None, seen;
    var j := 0;
    assert hosts[0..] == hosts && LowerSet(hosts[..0]) == {};
    while j < |hosts|
      invariant 0 <= j <= |hosts|
      invariant sni == seen + LowerSet(hosts[..j])
      invariant ScanHosts(port, seen, hosts) == ScanHosts(port, sni, hosts[j..])
    {
      assert hosts[j..][0] == hosts[j] && hosts[j..][1..] == hosts[j + 1..];
      if Lower(hosts[j]) in sni {
        e := Some(SniTwice(hosts[j], port));
        return;
      }
      LowerSetGrows(hosts, j);
      sni := sni + {Lower(hosts[j])};
      j := j + 1;
    }
    assert hosts[..|hosts|] == hosts;
  }

  method CheckPort(port: int, users: seq<Route>) returns (e: Option<Error>)
    ensures e == ScanPort(port, |users| > 1, {}, users)
  {
    e := None;
    var sni: set<string>, i := {}, 0;
    assert users[0..] == users;
    while i < |users|
      invariant 0 <= i <= |users|
      invariant ScanPort(port, |users| > 1, {}, users) == ScanPort(port, |users| > 1, sni, users[i..])
    {
      assert users[i..][0] == users[i] && users[i..][1..] == users[i + 1..];
      if |users| > 1 && users[i].hosts == [] {
        return Some(CatchAllShared(users[i].name, port));
      }
      e, sni := CheckSni(port, sni, users[i].hosts);
      if e.Some? {
        return;
      }
      i := i + 1;
    }
    return None;
  }

  lemma LowerSetGrows(hosts: seq<string>, j: nat)
    requires j < |hosts|
    ensures LowerSet(hosts[..j + 1]) == LowerSet(hosts[..j]) + {Lower(hosts[j])}
  {
    forall k | k in LowerSet(hosts[..j + 1]) ensures k in LowerSet(hosts[..j]) + {Lower(hosts[j])} {
      var i :| 0 <= i < j + 1 && Lower(hosts[..j + 1][i]) == k;
      assert i < j ==> hosts[..j][i] == hosts[i];
    }
    forall k | k in LowerSet(hosts[..j]) ensures k in LowerSet(hosts[..j + 1]) {
      var i :| 0 <= i < j && Lower(hosts[..j][i]) == k;
      assert hosts[..j + 1][i] == hosts[i];
    }
    assert hosts[..j + 1][j] == hosts[j];
  }

  method AddTcp(tcp: map<int, seq<Route>>, ports: seq<int>, r: Route, ghost routes: seq<Route>)
    returns (tcp': map<int, seq<Route>>, ports': seq<int>)
    requires Grouped(tcp, ports, routes)
    ensures Grouped(tcp', ports', routes + [r])
  {
    if r.port.Some? {
      var p := r.port.value;
      GroupAppend(tcp, ports, routes, r, p);
      tcp' := tcp[p := (if p in tcp then tcp[p] else []) + [r]];
      ports' := InsertPort(ports, p);
    } else {
      SkipPortless(tcp, ports, routes, r);
      tcp', ports' := tcp, ports;
    }
  }

  lemma ClaimsFirst(r: Route, rest: seq<Route>)
    ensures Claims([r] + rest) == ClaimsOf(r) + Claims(rest)
  {
    assert ([r] + rest)[1..] == rest;
  }

  /** One pass over the routes, then one over the TCP ports. */
  method CheckHostConflicts(routes: seq<Route>) returns (e: Option<Error>)
    ensures e == HostConflict(routes)
  {
    var owner: map<string, string>, tcp: map<int, seq<Route>>, ports: seq<int> := map[], map[], [];
    ghost var seen: seq<Claim>, met: seq<Route> := [], [];
    var i := 0;
    assert routes[0..] == routes && routes[..0] == [];
    while i < |routes|
      invariant 0 <= i <= |routes|
      invariant Owns(owner, seen) && met == OfKind(routes[..i], Tcp) && Grouped(tcp, ports, met)
      invariant FirstTwice([], Claims(OfKind(routes, Http))) == FirstTwice(seen, Claims(OfKind(routes[i..], Http)))
    {
      var r := routes[i];
      KindSplit(routes, i, Tcp);
      KindSplit(routes, i, Http);
      if r.kind == Tcp {
        tcp, ports := AddTcp(tcp, ports, r, met);
        met := met + [r];
      } else {
        ghost var later := OfKind(routes[i + 1..], Http);
        ClaimsFirst(r, later);
        owner, e := ClaimHosts(owner, r, seen, Claims(later));
        if e.Some? {
          return;
        }
        seen := seen + ClaimsOf(r);
      }
      i := i + 1;
    }
    assert routes[..|routes|] == routes;
    e := CheckPorts(tcp, ports, met);
  }

  method CheckPorts(tcp: map<int, seq<Route>>, ports: seq<int>, ghost routes: seq<Route>) returns (e: Option<Error>)
    requires Grouped(tcp, ports, routes)
    ensures e == ScanPorts(Ports(routes), routes)
  {
    var j := 0;
    while j < |ports|
      invariant 0 <= j <= |ports|
      invariant ScanPorts(ports, routes) == ScanPorts(ports[j..], routes)
    {
      assert ports[j..][0] == ports[j] && ports[j..][1..] == ports[j + 1..];
      assert ports[j] in tcp && OnPort(routes, ports[j]) == tcp[ports[j]];
      e := CheckPort(ports[j], tcp[ports[j]]);
      if e.Some? {
        return;
      }
      j := j + 1;
    }
    return None;
  }
}
