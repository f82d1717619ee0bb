/** The renderer as it runs: vectors filled in loops, returning at the first error. */
module IngressRenderer {
  import opened Prelude
  import opened IngressSpec
  import opened IngressRender

  /** What a loop has built so far, followed by the outcome of what is left. */
  function Followed<T>(done: seq<T>, o: Outcome<seq<T>>): (r: Outcome<seq<T>>) {
    match o
    case Failed(e) => Failed(e)
    case Fine(more) => Fine(done + more)
  }

  lemma FollowedOne<T>(done: seq<T>, x: seq<T>, o: Outcome<seq<T>>)
    ensures Followed(done, Followed(x, o)) == Followed(done + x, o)
  {
    if o.Fine? {
      assert done + (x + o.value) == (done + x) + o.value;
    }
  }

  function Joined(done: set<Dial>, o: Outcome<set<Dial>>): (r: Outcome<set<Dial>>) {
    match o
    case Failed(e) => Failed(e)
    case Fine(more) => Fine(done + more)
  }

  method CollectDials(i: Input, route: string, backs: seq<Backend>) returns (o: Outcome<set<Dial>>)
    ensures o == Dials(i, route, backs)
  {
    var dials: set<Dial>, k := {}, 0;
    assert backs[0..] == backs;
    assert Joined({}, Dials(i, route, backs)) == Dials(i, route, backs) by {
      assert Dials(i, route, backs).Fine? ==> {} + Dials(i, route, backs).value == Dials(i, route, backs).value;
    }
    while k < |backs|
      invariant 0 <= k <= |backs|
      invariant Dials(i, route, backs) == Joined(dials, Dials(i, route, backs[k..]))
    {
      assert backs[k..][0] == backs[k] && backs[k..][1..] == backs[k + 1..];
      var one := ResolveDials(i, route, backs[k]);
      if one.Failed? {
        return Failed(one.error);
      }
      ghost var rest := Dials(i, route, backs[k + 1..]);
      assert rest.Fine? ==> dials + (one.value + rest.value) == (dials + one.value) + rest.value;
      dials := dials + one.value;
      k := k + 1;
    }
    assert dials + {} == dials;
    return Fine(dials);
  }

  method RenderRoute(i: Input, r: Route, p: Path) returns (o: Outcome<Entry>)
    ensures o == RenderPath(i, r, p)
  {
    var patterns: seq<Pattern>;
    if p.prefix == "/" {
      patterns := [Under([])];
    } else {
      var t := Trim(p.prefix);
      patterns := [Exact(t), Under(t)];
    }
    var waf := RouteWaf(i, r);
    if waf.Failed? {
      return Failed(waf.error);
    }
    var dials := CollectDials(i, r.name, p.backends);
    if dials.Failed? {
      return Failed(dials.error);
    }
    return Fine(Entry(r.name, p.prefix, Lowers(r.hosts), patterns, waf.value, dials.value));
  }

  method RenderSorted(i: Input, r: Route, paths: seq<Path>) returns (o: Outcome<seq<Entry>>)
    ensures o == RenderPaths(i, r, paths)
  {
    var entries: seq<Entry>, k := [], 0;
    assert paths[0..] == paths;
    EmptyFollowed(RenderPaths(i, r, paths));
    while k < |paths|
      invariant 0 <= k <= |paths|
      invariant RenderPaths(i, r, paths) == Followed(entries, RenderPaths(i, r, paths[k..]))
    {
      assert paths[k..][0] == paths[k] && paths[k..][1..] == paths[k + 1..];
      var one := RenderRoute(i, r, paths[k]);
      if one.Failed? {
        return Failed(one.error);
      }
      FollowedOne(entries, [one.value], RenderPaths(i, r, paths[k + 1..]));
      entries := entries + [one.value];
      k := k + 1;
    }
    assert entries + [] == entries;
    return Fine(entries);
  }

  lemma EmptyFollowed<T>(o: Outcome<seq<T>>)
    ensures Followed([], o) == o
  {
    if o.Fine? {
      assert [] + o.value == o.value;
    }
  }

  lemma HttpFirst(i: Input, r: Route, later: seq<Route>)
    ensures var some := RenderPaths(i, r, SortPaths(r.paths));
            RenderHttp(i, [r] + later) == if some.Failed? then Failed(some.error) else Followed(some.value, RenderHttp(i, later))
  {
    assert ([r] + later)[1..] == later;
  }

  lemma SubjectsFirst(subjects: seq<string>, r: Route, later: seq<Route>)
    ensures subjects + Subjects([r] + later) == (subjects + Lowers(r.hosts)) + Subjects(later)
  {
    assert ([r] + later)[1..] == later;
    assert subjects + (Lowers(r.hosts) + Subjects(later)) == (subjects + Lowers(r.hosts)) + Subjects(later);
  }

  /** The first loop: HTTP routes become entries and certificate subjects, TCP routes are set aside. */
  method RenderEntries(i: Input, routes: seq<Route>)
    returns (o: Outcome<seq<Entry>>, tcp: seq<Route>, subjects: seq<string>)
    ensures o == RenderHttp(i, OfKind(routes, Http))
    ensures o.Fine? ==> tcp == OfKind(routes, Tcp) && subjects == Subjects(OfKind(routes, Http))
  {
    var entries: seq<Entry>, k := [], 0;
    tcp, subjects := [], [];
    ghost var http := OfKind(routes, Http);
    assert routes[0..] == routes && routes[..0] == [];
    EmptyFollowed(RenderHttp(i, http));
    while k < |routes|
      invariant 0 <= k <= |routes|
      invariant tcp == OfKind(routes[..k], Tcp)
      invariant Subjects(http) == subjects + Subjects(OfKind(routes[k..], Http))
      invariant RenderHttp(i, http) == Followed(entries, RenderHttp(i, OfKind(routes[k..], Http)))
    {
      var r := routes[k];
      KindSplit(routes, k, Tcp);
      KindSplit(routes, k, Http);
      if r.kind == Tcp {
        tcp := tcp + [r];
      } else {
        ghost var later := OfKind(routes[k + 1..], Http);
        HttpFirst(i, r, later);
        SubjectsFirst(subjects, r, later);
        subjects := subjects + Lowers(r.hosts);
        var some := RenderSorted(i, r, SortPaths(r.paths));
        if some.Failed? {
          o := Failed(some.error);
          return;
        }
        FollowedOne(entries, some.value, RenderHttp(i, later));
        entries := entries + some.value;
      }
      k := k + 1;
    }
    assert routes[..|routes|] == routes;
    assert entries + [] == entries && subjects + [] == subjects;
    o := Fine(entries);
  }

  method RenderPort(i: Input, users: seq<Route>) returns (o: Outcome<seq<(string, set<Dial>)>>)
    ensures o == RenderUsers(i, users)
  {
    var rendered: seq<(string, set<Dial>)>, k := [], 0;
    assert users[0..] == users;
    EmptyFollowed(RenderUsers(i, users));
    while k < |users|
      invariant 0 <= k <= |users|
      invariant RenderUsers(i, users) == Followed(rendered, RenderUsers(i, users[k..]))
    {
      assert users[k..][0] == users[k] && users[k..][1..] == users[k + 1..];
      var dials := CollectDials(i, users[k].name, users[k].backends);
      if dials.Failed? {
        return Failed(dials.error);
      }
      FollowedOne(rendered, [(users[k].name, dials.value)], RenderUsers(i, users[k + 1..]));
      rendered := rendered + [(users[k].name, dials.value)];
      k := k + 1;
    }
    assert rendered + [] == rendered;
    return Fine(rendered);
  }

  method GroupByPort(routes: seq<Route>) returns (e: Option<Error>, tcp: map<int, seq<Route>>, ports: seq<int>)
    ensures e == Portless(routes)
    ensures e.None? ==> Grouped(tcp, ports, routes)
  {
    tcp, ports := map[], [];
    var k := 0;
    assert routes[..0] == [] && routes[0..] == routes;
    while k < |routes|
      invariant 0 <= k <= |routes|
      invariant Grouped(tcp, ports, routes[..k]) && Portless(routes) == Portless(routes[k..])
    {
      assert routes[k..][0] == routes[k] && routes[k..][1..] == routes[k + 1..];
      if routes[k].port.None? {
        e := Some(PortMissing(routes[k].name));
        return;
      }
      tcp, ports := AddTcp(tcp, ports, routes[k], routes[..k]);
      assert routes[..k + 1] == routes[..k] + [routes[k]];
      k := k + 1;
    }
    assert routes[..|routes|] == routes;
    e := None;
  }

  method RenderTcp(i: Input, routes: seq<Route>) returns (o: Outcome<seq<Server>>)
    ensures o == RenderLayer4(i, routes)
  {
    var e, tcp, ports := GroupByPort(routes);
    if e.Some? {
      return Failed(e.value);
    }
    var servers: seq<Server>, k := [], 0;
    assert ports[0..] == ports;
    EmptyFollowed(RenderServers(i, ports, routes));
    while k < |ports|
      invariant 0 <= k <= |ports|
      invariant RenderServers(i, ports, routes) == Followed(servers, RenderServers(i, ports[k..], routes))
    {
      var port := ports[k];
      assert ports[k..][0] == port && ports[k..][1..] == ports[k + 1..];
      if !Heard(i.gateway, port) {
        return Failed(PortUnheard(port));
      }
      assert port in tcp && OnPort(routes, port) == tcp[port];
      var rendered := RenderPort(i, NamedFirst(tcp[port]));
      if rendered.Failed? {
        return Failed(rendered.error);
      }
      FollowedOne(servers, [Server(port, rendered.value)], RenderServers(i, ports[k + 1..], routes));
      servers := servers + [Server(port, rendered.value)];
      k := k + 1;
    }
    assert servers + [] == servers;
    return Fine(servers);
  }

  method RenderCaddy(i: Input, routes: seq<Route>) returns (o: Outcome<Rendered>)
    ensures o == Render(i, routes)
  {
    var entries, tcp, subjects := RenderEntries(i, routes);
    if entries.Failed? {
      return Failed(entries.error);
    }
    var servers: Outcome<seq<Server>> := Fine([]);
    if tcp != [] {
      servers := RenderTcp(i, tcp);
      if servers.Failed? {
        return Failed(servers.error);
      }
    }
    return Fine(Rendered(entries.value, servers.value, if i.issue then subjects else []));
  }
}
