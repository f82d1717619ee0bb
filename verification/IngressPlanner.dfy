/** `plan_gateway` as it runs: one pass after another, filling the plan's errors and the maps given to the renderer. */
module IngressPlanner {
  import opened Prelude
  import opened IngressSpec
  import opened IngressRender
  import opened IngressRenderer
  import opened IngressPlan

  method RegisterNodes(st: State, nodes: seq<string>) returns (ids: set<string>, errors: seq<Error>)
    ensures ids == NodeIds(st, nodes) && errors == NodeErrors(st, nodes)
  {
    ids, errors := {}, [];
    var i := 0;
    while i < |nodes|
      invariant 0 <= i <= |nodes|
      invariant ids == NodeIds(st, nodes[..i])
      invariant NodeErrors(st, nodes) == errors + NodeErrors(st, nodes[i..])
    {
      assert nodes[i..][0] == nodes[i] && nodes[i..][1..] == nodes[i + 1..];
      NodeIdsGrow(st, nodes, i);
      if nodes[i] in st.registered {
        ids := ids + {st.registered[nodes[i]]};
      } else {
        errors := errors + [NodeMissing(nodes[i])];
      }
      i := i + 1;
    }
    assert nodes[..|nodes|] == nodes;
  }

  lemma NodeIdsGrow(st: State, nodes: seq<string>, i: nat)
    requires i < |nodes|
    ensures NodeIds(st, nodes[..i + 1])
         == NodeIds(st, nodes[..i]) + if nodes[i] in st.registered then {st.registered[nodes[i]]} else {}
  {
    var more, fewer := nodes[..i + 1], nodes[..i];
    forall id | id in NodeIds(st, more)
      ensures id in NodeIds(st, fewer) + if nodes[i] in st.registered then {st.registered[nodes[i]]} else {}
    {
      var k :| 0 <= k < |more| && more[k] in st.registered && st.registered[more[k]] == id;
      assert k < i ==> fewer[k] == more[k];
    }
    forall id | id in NodeIds(st, fewer) ensures id in NodeIds(st, more) {
      var k :| 0 <= k < |fewer| && fewer[k] in st.registered && st.registered[fewer[k]] == id;
      assert more[k] == fewer[k];
    }
    assert more[i] == nodes[i];
  }

  /** Looks for a problem of one mirrored route among the routes still in the plan. */
  method HasProblem(st: State, ids: set<string>, routes: seq<Route>, r: Route) returns (bad: bool)
    ensures bad <==> !Clean(st, ids, r) || Clashes(routes, r)
  {
    var ok := ValidateRoute(r);
    bad := !ok;
    var i := 0;
    while i < |r.paths|
      invariant 0 <= i <= |r.paths|
      invariant bad <==> !ok || exists k :: 0 <= k < i && !AllResolve(st, ids, r.paths[k].backends)
    {
      var all := Resolves(st, ids, r.paths[i].backends);
      bad := bad || !all;
      i := i + 1;
    }
    assert bad <==> !ok || !PathsResolve(st, ids, r.paths);
    if r.waf.policy.Some? && r.waf.policy.value !in st.policies {
      bad := true;
    }
    if Clashes(routes, r) {
      bad := true;
    }
  }

  method Resolves(st: State, ids: set<string>, backs: seq<Backend>) returns (all: bool)
    ensures all == AllResolve(st, ids, backs)
  {
    all := true;
    var i := 0;
    while i < |backs|
      invariant 0 <= i <= |backs|
      invariant all <==> forall k :: 0 <= k < i ==> Resolve(st, ids, backs[k]).Some?
    {
      all := all && Resolve(st, ids, backs[i]).Some?;
      i := i + 1;
    }
  }

  /** Removes mirrored routes with a problem from the plan's routes, in name order. */
  method DropTroubled(st: State, ids: set<string>, all: seq<Route>) returns (routes: seq<Route>)
    ensures routes == Filter(st, ids, [], all)
  {
    routes := all;
    ghost var kept: seq<Route> := [];
    var i, at := 0, 0;
    assert all[0..] == all;
    while i < |all|
      invariant 0 <= i <= |all| && at == |kept|
      invariant routes == kept + all[i..]
      invariant Filter(st, ids, [], all) == Filter(st, ids, kept, all[i..])
    {
      var r := all[i];
      FilterStep(st, ids, kept, all, i);
      var bad := false;
      if r.mirrored {
        bad := HasProblem(st, ids, routes, r);
      }
      assert bad == !Stays(st, ids, kept + all[i..], r);
      if bad {
        routes := routes[..at] + routes[at + 1..];
      } else {
        kept := kept + [r];
        at := at + 1;
      }
      i := i + 1;
    }
    assert kept + [] == kept;
  }

  lemma FilterStep(st: State, ids: set<string>, kept: seq<Route>, all: seq<Route>, i: nat)
    requires i < |all|
    ensures Filter(st, ids, kept, all[i..])
         == if Stays(st, ids, kept + all[i..], all[i]) then Filter(st, ids, kept + [all[i]], all[i + 1..])
            else Filter(st, ids, kept, all[i + 1..])
    ensures var now := kept + all[i..];
            now[..|kept|] + now[|kept| + 1..] == kept + all[i + 1..] && now == (kept + [all[i]]) + all[i + 1..]
  {
    assert all[i..][0] == all[i] && all[i..][1..] == all[i + 1..];
  }

  method CheckRoutes(routes: seq<Route>) returns (errors: seq<Error>)
    ensures errors == RouteErrors(routes)
  {
    errors := [];
    var i := 0;
    while i < |routes|
      invariant 0 <= i <= |routes|
      invariant RouteErrors(routes) == errors + RouteErrors(routes[i..])
    {
      assert routes[i..][0] == routes[i] && routes[i..][1..] == routes[i + 1..];
      Assoc(errors, [RouteInvalid(routes[i].name)], RouteErrors(routes[i + 1..]));
      var ok := ValidateRoute(routes[i]);
      assert ok ==> RouteErrors(routes[i..]) == RouteErrors(routes[i + 1..]);
      if !ok {
        errors := errors + [RouteInvalid(routes[i].name)];
      }
      i := i + 1;
    }
  }

  method CheckKind(g: Gateway, r: Route) returns (errors: seq<Error>)
    ensures errors == KindError(g, r)
  {
    errors := [];
    match r.kind {
      case Http =>
        if AnyWildcard(r.hosts) && !g.dns01 {
          errors := [WildcardNeedsDns(r.name)];
        }
      case Tcp =>
        var port := if r.port.Some? then r.port.value else 0;
        if !Heard(g, port) {
          errors := [NoListener(r.name, port)];
        }
    }
  }

  method CheckKinds(g: Gateway, routes: seq<Route>) returns (errors: seq<Error>)
    ensures errors == KindErrors(g, routes)
  {
    errors := [];
    var i := 0;
    while i < |routes|
      invariant 0 <= i <= |routes|
      invariant KindErrors(g, routes) == errors + KindErrors(g, routes[i..])
    {
      assert routes[i..][0] == routes[i] && routes[i..][1..] == routes[i + 1..];
      var more := CheckKind(g, routes[i]);
      errors := errors + more;
      i := i + 1;
    }
  }

  method CollectPolicies(g: Gateway, routes: seq<Route>) returns (used: seq<string>)
    ensures used == UsedPolicies(g, routes)
  {
    used := if g.defaultPolicy.Some? then [g.defaultPolicy.value] else [];
    var i := 0;
    assert routes[..0] == [];
    while i < |routes|
      invariant 0 <= i <= |routes|
      invariant used == UsedPolicies(g, routes[..i])
    {
      var r, some := routes[i], routes[..i + 1];
      assert some[..|some| - 1] == routes[..i] && some[|some| - 1] == r;
      if r.kind == Http && !r.waf.off && r.waf.policy.Some? {
        used := InsertName(used, r.waf.policy.value);
      }
      i := i + 1;
    }
    assert routes[..|routes|] == routes;
  }

  method CheckPolicies(st: State, used: seq<string>) returns (errors: seq<Error>, known: set<string>)
    ensures errors == PolicyErrors(st, used) && known == Known(st, used)
  {
    errors, known := [], {};
    var i := 0;
    assert used[0..] == used && [] + PolicyErrors(st, used) == PolicyErrors(st, used);
    while i < |used|
      invariant 0 <= i <= |used|
      invariant PolicyErrors(st, used) == errors + PolicyErrors(st, used[i..])
      invariant known == Known(st, used[..i])
    {
      var p := used[i];
      PolicyStep(st, used, i);
      Assoc(errors, [PolicyError(st, p)], PolicyErrors(st, used[i + 1..]));
      if p in st.policies {
        if !st.policies[p] {
          errors := errors + [PolicyInvalid(p)];
        }
        known := known + {p};
      } else {
        errors := errors + [PolicyMissing(p)];
      }
      i := i + 1;
    }
    assert used[..|used|] == used && errors + [] == errors;
  }

  lemma PolicyStep(st: State, used: seq<string>, i: nat)
    requires i < |used|
    ensures PolicyErrors(st, used[i..])
         == if GoodPolicy(st, used[i]) then PolicyErrors(st, used[i + 1..])
            else [PolicyError(st, used[i])] + PolicyErrors(st, used[i + 1..])
    ensures Known(st, used[..i + 1]) == if used[i] in st.policies then Known(st, used[..i]) + {used[i]} else Known(st, used[..i])
  {
    assert used[i..][0] == used[i] && used[i..][1..] == used[i + 1..] && used[..i + 1] == used[..i] + [used[i]];
  }

  /** The addresses collected so far are those of the backends met so far. */
  ghost predicate Collected(st: State, ids: set<string>, m: map<Backend, seq<Dial>>, bs: set<Backend>) {
    && (forall b :: b in m <==> b in bs && Resolve(st, ids, b).Some?)
    && (forall b :: b in m ==> m[b] == Resolve(st, ids, b).value)
  }

  function BackendSet(bs: seq<Backend>): (r: set<Backend>) {
    set b | b in bs
  }

  lemma BackendStep(st: State, ids: set<string>, route: string, bs: seq<Backend>, i: nat)
    requires i < |bs|
    ensures FailedBackends(st, ids, route, bs[i..])
         == if Resolve(st, ids, bs[i]).Some? then FailedBackends(st, ids, route, bs[i + 1..])
            else [BackendFailed(route, bs[i])] + FailedBackends(st, ids, route, bs[i + 1..])
    ensures BackendSet(bs[..i + 1]) == BackendSet(bs[..i]) + {bs[i]}
  {
    assert bs[i..][0] == bs[i] && bs[i..][1..] == bs[i + 1..] && bs[..i + 1] == bs[..i] + [bs[i]];
  }

  lemma CollectStep(st: State, ids: set<string>, m: map<Backend, seq<Dial>>, met: set<Backend>, b: Backend)
    requires Collected(st, ids, m, met)
    ensures var r := Resolve(st, ids, b); Collected(st, ids, if r.Some? then m[b := r.value] else m, met + {b})
  {
  }

  method ResolveRoute(st: State, ids: set<string>, m: map<Backend, seq<Dial>>, ghost met: set<Backend>, r: Route)
    returns (m': map<Backend, seq<Dial>>, errors: seq<Error>)
    requires Collected(st, ids, m, met)
    ensures Collected(st, ids, m', met + BackendSet(BackendsOf(r)))
    ensures errors == FailedBackends(st, ids, r.name, BackendsOf(r))
  {
    m', errors := m, [];
    var bs, i := BackendsOf(r), 0;
    assert bs[0..] == bs && met + BackendSet(bs[..0]) == met;
    while i < |bs|
      invariant 0 <= i <= |bs|
      invariant Collected(st, ids, m', met + BackendSet(bs[..i]))
      invariant FailedBackends(st, ids, r.name, bs) == errors + FailedBackends(st, ids, r.name, bs[i..])
    {
      var b := bs[i];
      BackendStep(st, ids, r.name, bs, i);
      CollectStep(st, ids, m', met + BackendSet(bs[..i]), b);
      assert (met + BackendSet(bs[..i])) + {b} == met + BackendSet(bs[..i + 1]);
      match Resolve(st, ids, b) {
        case Some(addrs) => m' := m'[b := addrs];
        case None => errors := errors + [BackendFailed(r.name, b)];
      }
      i := i + 1;
    }
    assert bs[..|bs|] == bs;
  }

  method ResolveBackends(st: State, ids: set<string>, routes: seq<Route>)
    returns (m: map<Backend, seq<Dial>>, errors: seq<Error>)
    ensures m == Addresses(st, ids, routes) && errors == BackendErrors(st, ids, routes)
  {
    m, errors := map[], [];
    var i := 0;
    ghost var met: set<Backend> := {};
    while i < |routes|
      invariant 0 <= i <= |routes|
      invariant Collected(st, ids, m, met) && AllBackends(routes) == met + AllBackends(routes[i..])
      invariant BackendErrors(st, ids, routes) == errors + BackendErrors(st, ids, routes[i..])
    {
      assert routes[i..][0] == routes[i] && routes[i..][1..] == routes[i + 1..];
      var more;
      m, more := ResolveRoute(st, ids, m, met, routes[i]);
      errors := errors + more;
      met := met + BackendSet(BackendsOf(routes[i]));
      i := i + 1;
    }
    assert met == AllBackends(routes);
  }

  method CheckConflicts(routes: seq<Route>) returns (errors: seq<Error>)
    ensures errors == ConflictErrors(routes)
  {
    var conflict := CheckHostConflicts(routes);
    return if conflict.Some? then [conflict.value] else [];
  }

  /** The checks before rendering, with what the renderer needs from them. */
  method CheckPlan(st: State, g: Gateway, ids: set<string>, missing: seq<Error>, routes: seq<Route>)
    returns (errors: seq<Error>, known: set<string>, addresses: map<Backend, seq<Dial>>)
    requires ids == NodeIds(st, g.nodes) && missing == StartErrors(st, g)
    ensures errors == PreErrors(st, g, routes)
    ensures known == Known(st, UsedPolicies(g, routes)) && addresses == Addresses(st, ids, routes)
  {
    var invalid := CheckRoutes(routes);
    var conflicts := CheckConflicts(routes);
    var kinds := CheckKinds(g, routes);
    var used := CollectPolicies(g, routes);
    var bad, failed;
    bad, known := CheckPolicies(st, used);
    addresses, failed := ResolveBackends(st, ids, routes);
    errors := missing + invalid + conflicts + kinds + bad + failed;
  }

  method PlanGateway(st: State, g: Gateway, all: seq<Route>) returns (p: Plan)
    ensures p == PlanOf(st, g, all)
  {
    var unreadable := CorruptErrors(st);
    if !ValidGateway(g) {
      return Plan(unreadable + [GatewayInvalid], None, None);
    }
    var ids, missing := RegisterNodes(st, g.nodes);
    var routes := DropTroubled(st, ids, all);
    var errors, known, addresses := CheckPlan(st, g, ids, unreadable + missing, routes);
    if errors != [] {
      return Plan(errors, None, None);
    }
    p := RenderBoth(g, routes, known, addresses);
  }

  method RenderBoth(g: Gateway, routes: seq<Route>, known: set<string>, addresses: map<Backend, seq<Dial>>) returns (p: Plan)
    ensures var active := Render(Input(g, known, addresses, true), routes);
            var standby := Render(Input(g, known, addresses, false), routes);
            p == if g.replicated then Plan(Failure(active) + Failure(standby), Success(active), Success(standby))
                 else Plan(Failure(active), Success(active), None)
  {
    var errors: seq<Error>, rendered: Option<Rendered>, other: Option<Rendered> := [], None, None;
    var active := RenderCaddy(Input(g, known, addresses, true), routes);
    match active {
      case Fine(r) => rendered := Some(r);
      case Failed(e) => errors := errors + [e];
    }
    if g.replicated {
      var standby := RenderCaddy(Input(g, known, addresses, false), routes);
      match standby {
        case Fine(r) => other := Some(r);
        case Failed(e) => errors := errors + [e];
      }
    }
    return Plan(errors, rendered, other);
  }
}
