/** What a reported host conflict says is so. */
module IngressConflicts {
  import opened Prelude
  import opened IngressSpec
  import opened IngressChecks

  /** Host `n` of route `y`. */
  predicate HostAt(routes: seq<Route>, y: nat, n: nat, host: string) {
    y < |routes| && n < |routes[y].hosts| && routes[y].hosts[n] == host
  }

  /** Host `n` of route `y` is listed once more, as host `m` of route `x`. */
  predicate Again(routes: seq<Route>, x: nat, m: nat, y: nat, n: nat, host: string) {
    && HostAt(routes, y, n, host) && x < |routes| && m < |routes[x].hosts| && SameHost(routes[x].hosts[m], host)
    && (x, m) != (y, n)
  }

  // ---- from claims to routes -------------------------------------------------------

  /** How many hosts the first `x` routes list. */
  function Listed(routes: seq<Route>, x: nat): (n: nat) {
    if x == 0 || routes == [] then 0 else |routes[0].hosts| + Listed(routes[1..], x - 1)
  }

  lemma {:induction false} ClaimPlace(routes: seq<Route>, p: nat) returns (x: nat, m: nat)
    requires p < |Claims(routes)|
    ensures x < |routes| && m < |routes[x].hosts| && p == Listed(routes, x) + m
    ensures Claims(routes)[p] == Claim(Lower(routes[x].hosts[m]), routes[x].hosts[m], routes[x].name, routes[x].mirrored)
  {
    var own := |routes[0].hosts|;
    if p < own {
      x, m := 0, p;
    } else {
      x, m := ClaimPlace(routes[1..], p - own);
      x := x + 1;
    }
  }

  /** Claim `q` is to the host of an earlier claim. */
  predicate Repeats(cs: seq<Claim>, p: nat, q: nat) {
    p < q < |cs| && cs[p].key == cs[q].key
  }

  /** Two listings of a host, one by `first` and one, spelled like this, by `second`. */
  ghost predicate ListedTwice(routes: seq<Route>, host: string, first: string, second: string) {
    exists x: nat, m: nat, y: nat, n: nat :: Again(routes, x, m, y, n, host) && routes[x].name == first && routes[y].name == second
  }

  ghost predicate NamedTwice(routes: seq<Route>, host: string) {
    exists first, second :: ListedTwice(routes, host, first, second)
  }

  lemma RepeatsIsTwice(routes: seq<Route>, p: nat, q: nat)
    requires Repeats(Claims(routes), p, q)
    ensures var first, second := Claims(routes)[p], Claims(routes)[q]; ListedTwice(routes, second.host, first.route, second.route)
  {
    var x, m := ClaimPlace(routes, p);
    var y, n := ClaimPlace(routes, q);
    SameHostIff(routes[x].hosts[m], routes[y].hosts[n]);
    assert Again(routes, x, m, y, n, routes[y].hosts[n]);
  }

  // ---- HTTP hosts ------------------------------------------------------------------

  lemma {:induction false} OwnerPlace(seen: seq<Claim>, key: string) returns (p: nat)
    requires Owner(seen, key).Some?
    ensures p < |seen| && seen[p].key == key && Owner(seen, key) == Some(seen[p].route)
  {
    if seen[0].key == key {
      p := 0;
    } else {
      p := OwnerPlace(seen[1..], key);
      p := p + 1;
    }
  }

  lemma {:induction false} FirstTwiceIs(seen: seq<Claim>, rest: seq<Claim>) returns (p: nat, q: nat)
    requires FirstTwice(seen, rest).Some?
    ensures var all := seen + rest; Repeats(all, p, q) && FirstTwice(seen, rest) == Some(HostTwice(all[q].host, all[p].route, all[q].route))
    decreases rest
  {
    var c := rest[0];
    if Owner(seen, c.key).Some? {
      p := OwnerPlace(seen, c.key);
      q := |seen|;
    } else {
      p, q := FirstTwiceIs(seen + [c], rest[1..]);
      assert (seen + [c]) + rest[1..] == seen + rest;
    }
  }

  // ---- one port --------------------------------------------------------------------

  ghost predicate RepeatsHost(cs: seq<Claim>, host: string) {
    exists p: nat, q: nat :: Repeats(cs, p, q) && cs[q].host == host
  }

  lemma {:induction false} ScanHostsIs(port: int, seen: set<string>, cs: seq<Claim>, r: Route, n: nat)
    requires n <= |r.hosts| && KeysAre(cs, seen) && ScanHosts(port, seen, r.hosts[n..]).Some?
    ensures var e := ScanHosts(port, seen, r.hosts[n..]).value;
            e.SniTwice? && e.port == port && RepeatsHost(cs + ClaimsOf(r)[n..], e.host)
    decreases |r.hosts| - n
  {
    var hosts, mine := r.hosts[n..], ClaimsOf(r);
    var all := cs + mine[n..];
    assert all[|cs|] == mine[n] && hosts[0] == r.hosts[n] && hosts[1..] == r.hosts[n + 1..];
    if mine[n].key in seen {
      var p :| 0 <= p < |cs| && cs[p].key == mine[n].key;
      assert Repeats(all, p, |cs|);
    } else {
      var more := cs + [mine[n]];
      OneMoreKey(cs, seen, mine[n]);
      ScanHostsIs(port, seen + {mine[n].key}, more, r, n + 1);
      assert more + mine[n + 1..] == all;
    }
  }

  lemma OneMoreKey(cs: seq<Claim>, seen: set<string>, c: Claim)
    requires KeysAre(cs, seen)
    ensures KeysAre(cs + [c], seen + {c.key})
  {
    var more := cs + [c];
    assert more[|cs|] == c;
    forall k | k in seen ensures exists i :: 0 <= i < |more| && more[i].key == k {
      var i :| 0 <= i < |cs| && cs[i].key == k;
      assert more[i].key == k;
    }
  }

  lemma RepeatsInLonger(xs: seq<Claim>, ys: seq<Claim>, host: string)
    requires RepeatsHost(xs, host)
    ensures RepeatsHost(xs + ys, host)
  {
    var p: nat, q: nat :| Repeats(xs, p, q) && xs[q].host == host;
    assert Repeats(xs + ys, p, q);
  }

  /** A catch-all beside another route, or a name listed twice. */
  ghost predicate PortProblem(port: int, shared: bool, users: seq<Route>, cs: seq<Claim>, e: Error) {
    || (e.CatchAllShared? && e.port == port && shared && exists k :: 0 <= k < |users| && users[k].hosts == [] && users[k].name == e.route)
    || (e.SniTwice? && e.port == port && RepeatsHost(cs, e.host))
  }

  lemma {:induction false} ScanPortIs(port: int, shared: bool, seen: set<string>, cs: seq<Claim>, users: seq<Route>)
    requires KeysAre(cs, seen) && ScanPort(port, shared, seen, users).Some?
    ensures PortProblem(port, shared, users, cs + Claims(users), ScanPort(port, shared, seen, users).value)
    decreases users
  {
    var r, rest := users[0], users[1..];
    var mid := cs + ClaimsOf(r);
    assert cs + Claims(users) == mid + Claims(rest);
    if !(shared && r.hosts == []) {
      assert r.hosts[0..] == r.hosts && ClaimsOf(r)[0..] == ClaimsOf(r);
      var e := ScanHosts(port, seen, r.hosts);
      if e.Some? {
        ScanHostsIs(port, seen, cs, r, 0);
        RepeatsInLonger(mid, Claims(rest), e.value.host);
      } else {
        KeysJoin(cs, seen, r);
        ScanPortIs(port, shared, seen + LowerSet(r.hosts), mid, rest);
        assert forall k :: 0 <= k < |rest| ==> rest[k] == users[k + 1];
      }
    }
  }

  lemma {:induction false} ScanPortsIs(ports: seq<int>, tcp: seq<Route>)
    requires ScanPorts(ports, tcp).Some?
    ensures exists port :: port in ports && PortProblem(port, |OnPort(tcp, port)| > 1, OnPort(tcp, port), Claims(OnPort(tcp, port)), ScanPorts(ports, tcp).value)
    decreases ports
  {
    var users := OnPort(tcp, ports[0]);
    if ScanPort(ports[0], |users| > 1, {}, users).Some? {
      ScanPortIs(ports[0], |users| > 1, {}, [], users);
      assert [] + Claims(users) == Claims(users);
    } else {
      ScanPortsIs(ports[1..], tcp);
    }
  }

  // ---- the report ------------------------------------------------------------------

  /**
   A conflict names a host as its second route spells it and the route that has it
   too, or the TCP route without names on a port used twice, or a name listed twice
   on a port.
   */
  lemma ConflictIsReal(routes: seq<Route>)
    requires HostConflict(routes).Some?
    ensures var http, tcp := OfKind(routes, Http), OfKind(routes, Tcp);
            match HostConflict(routes).value
            case HostTwice(host, first, second) => ListedTwice(http, host, first, second)
            case CatchAllShared(route, port) =>
              && |OnPort(tcp, port)| > 1
              && exists k :: 0 <= k < |OnPort(tcp, port)| && OnPort(tcp, port)[k].hosts == [] && OnPort(tcp, port)[k].name == route
            case SniTwice(host, port) => NamedTwice(OnPort(tcp, port), host)
            case _ => false
  {
    var http, tcp := OfKind(routes, Http), OfKind(routes, Tcp);
    var cs := Claims(http);
    if FirstTwice([], cs).Some? {
      var p, q := FirstTwiceIs([], cs);
      assert [] + cs == cs;
      RepeatsIsTwice(http, p, q);
    } else {
      ScanPortsIs(Ports(tcp), tcp);
      var port :| port in Ports(tcp) && PortProblem(port, |OnPort(tcp, port)| > 1, OnPort(tcp, port), Claims(OnPort(tcp, port)), HostConflict(routes).value);
      if HostConflict(routes).value.SniTwice? {
        var users, host := OnPort(tcp, port), HostConflict(routes).value.host;
        var p: nat, q: nat :| Repeats(Claims(users), p, q) && Claims(users)[q].host == host;
        RepeatsIsTwice(users, p, q);
      }
    }
  }
}
