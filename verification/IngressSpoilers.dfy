/** Exactly when mirrored routes change the errors of a gateway's plan. */
module IngressSpoilers {
  import opened Prelude
  import opened IngressSpec
  import opened IngressRender
  import opened IngressKubernetes
  import opened IngressPlan
  import opened IngressTheorems
  import opened IngressMirrors
  import opened IngressErrors

  // ---- policies -------------------------------------------------------------------------

  predicate Ascending(names: seq<string>) {
    forall i, j :: 0 <= i < j < |names| ==> Less(names[i], names[j])
  }

  lemma {:induction false} InsertNameAscending(names: seq<string>, p: string)
    requires Ascending(names)
    ensures Ascending(InsertName(names, p))
  {
    if names != [] && !Less(p, names[0]) && p != names[0] {
      var rest := names[1..];
      InsertNameAscending(rest, p);
      InsertNameMembers(rest, p);
      LessTrichotomy(p, names[0]);
      var tail := InsertName(rest, p);
      forall k | 0 <= k < |tail| ensures Less(names[0], tail[k]) {
        assert tail[k] in tail;
      }
    } else if names != [] && Less(p, names[0]) {
      forall k | 0 <= k < |names| ensures Less(p, names[k]) {
        if k > 0 {
          LessTransitive(p, names[0], names[k]);
        }
      }
    }
  }

  lemma {:induction false} UsedAscending(g: Gateway, routes: seq<Route>)
    ensures Ascending(UsedPolicies(g, routes))
    decreases |routes|
  {
    if routes != [] {
      UsedAscending(g, routes[..|routes| - 1]);
      var p := NamedPolicy(routes[|routes| - 1]);
      if p.Some? {
        InsertNameAscending(UsedPolicies(g, routes[..|routes| - 1]), p.value);
      }
    }
  }

  function Bad(st: State, names: seq<string>): (r: seq<string>) {
    if names == [] then []
    else if GoodPolicy(st, names[0]) then Bad(st, names[1..])
    else [names[0]] + Bad(st, names[1..])
  }

  lemma {:induction false} BadMembers(st: State, names: seq<string>)
    requires Ascending(names)
    ensures forall p :: p in Bad(st, names) <==> p in names && !GoodPolicy(st, p)
    ensures Ascending(Bad(st, names))
  {
    if names != [] {
      BadMembers(st, names[1..]);
      var rest := Bad(st, names[1..]);
      forall k | 0 <= k < |rest| ensures Less(names[0], rest[k]) {
        assert rest[k] in rest;
      }
      assert forall p :: p in names <==> p == names[0] || p in names[1..];
    }
  }

  lemma {:induction false} PolicyErrorsOfBad(st: State, names: seq<string>)
    ensures PolicyErrors(st, names) == PolicyErrors(st, Bad(st, names))
  {
    if names != [] {
      PolicyErrorsOfBad(st, names[1..]);
      assert !GoodPolicy(st, names[0]) ==> Bad(st, names)[1..] == Bad(st, names[1..]);
    }
  }

  lemma {:induction false} AscendingUnique(xs: seq<string>, ys: seq<string>)
    requires Ascending(xs) && Ascending(ys) && forall p :: p in xs <==> p in ys
    ensures xs == ys
  {
    assert (xs != [] ==> xs[0] in xs) && (ys != [] ==> ys[0] in ys);
    if xs != [] && ys != [] {
      SameHead(xs, ys);
      forall p ensures p in xs[1..] <==> p in ys[1..] {
        TailMembers(xs, p);
        TailMembers(ys, p);
      }
      AscendingUnique(xs[1..], ys[1..]);
      assert xs == [xs[0]] + xs[1..] && ys == [ys[0]] + ys[1..];
    }
  }

  lemma SameHead(xs: seq<string>, ys: seq<string>)
    requires Ascending(xs) && Ascending(ys) && xs != [] && ys != [] && xs[0] in ys && ys[0] in xs
    ensures xs[0] == ys[0]
  {
    LessTrichotomy(xs[0], ys[0]);
  }

  lemma TailMembers(xs: seq<string>, p: string)
    requires Ascending(xs) && xs != []
    ensures p in xs[1..] <==> p in xs && p != xs[0]
  {
    LessIrreflexive(xs[0]);
    assert xs == [xs[0]] + xs[1..];
  }

  /** The policy errors depend only on which used policies are bad. */
  lemma PolicyErrorsSame(st: State, g: Gateway, routes: seq<Route>, others: seq<Route>)
    requires forall p :: !GoodPolicy(st, p) ==> (p in UsedPolicies(g, routes) <==> p in UsedPolicies(g, others))
    ensures PolicyErrors(st, UsedPolicies(g, routes)) == PolicyErrors(st, UsedPolicies(g, others))
  {
    var xs, ys := UsedPolicies(g, routes), UsedPolicies(g, others);
    UsedAscending(g, routes);
    UsedAscending(g, others);
    BadMembers(st, xs);
    BadMembers(st, ys);
    AscendingUnique(Bad(st, xs), Bad(st, ys));
    PolicyErrorsOfBad(st, xs);
    PolicyErrorsOfBad(st, ys);
  }

  lemma {:induction false} PolicyErrorMember(st: State, names: seq<string>, p: string)
    ensures PolicyError(st, p) in PolicyErrors(st, names) <==> p in names && !GoodPolicy(st, p)
  {
    if names != [] {
      PolicyErrorMember(st, names[1..], p);
      assert names == [names[0]] + names[1..];
    }
  }

  // ---- which part of the plan an error comes from ------------------------------------------

  datatype Part = OfNode | OfRoute | OfConflict | OfKindCheck | OfPolicy | OfBackend | OfRender

  function PartOf(e: Error): (p: Part) {
    match e
    case Corrupt(_) => OfNode
    case GatewayInvalid => OfNode
    case NodeMissing(_) => OfNode
    case RouteInvalid(_) => OfRoute
    case HostTwice(_, _, _) => OfConflict
    case CatchAllShared(_, _) => OfConflict
    case SniTwice(_, _) => OfConflict
    case WildcardNeedsDns(_) => OfKindCheck
    case NoListener(_, _) => OfKindCheck
    case PolicyInvalid(_) => OfPolicy
    case PolicyMissing(_) => OfPolicy
    case BackendFailed(_, _) => OfBackend
    case _ => OfRender
  }

  predicate AllOf(es: seq<Error>, p: Part) {
    forall k :: 0 <= k < |es| ==> PartOf(es[k]) == p
  }

  lemma {:induction false} NodePart(st: State, nodes: seq<string>)
    ensures AllOf(NodeErrors(st, nodes), OfNode)
  {
    if nodes != [] {
      NodePart(st, nodes[1..]);
    }
  }

  lemma StartPart(st: State, g: Gateway)
    ensures AllOf(StartErrors(st, g), OfNode)
  {
    NodePart(st, g.nodes);
  }

  lemma {:induction false} RoutePart(routes: seq<Route>)
    ensures AllOf(RouteErrors(routes), OfRoute)
  {
    if routes != [] {
      RoutePart(routes[1..]);
    }
  }

  lemma {:induction false} KindPart(g: Gateway, routes: seq<Route>)
    ensures AllOf(KindErrors(g, routes), OfKindCheck)
  {
    if routes != [] {
      KindPart(g, routes[1..]);
    }
  }

  lemma {:induction false} PolicyPart(st: State, names: seq<string>)
    ensures AllOf(PolicyErrors(st, names), OfPolicy)
  {
    if names != [] {
      PolicyPart(st, names[1..]);
    }
  }

  lemma {:induction false} FailedPart(st: State, ids: set<string>, route: string, bs: seq<Backend>)
    ensures AllOf(FailedBackends(st, ids, route, bs), OfBackend)
  {
    if bs != [] {
      FailedPart(st, ids, route, bs[1..]);
    }
  }

  lemma {:induction false} BackendPart(st: State, ids: set<string>, routes: seq<Route>)
    ensures AllOf(BackendErrors(st, ids, routes), OfBackend)
  {
    if routes != [] {
      FailedPart(st, ids, routes[0].name, BackendsOf(routes[0]));
      BackendPart(st, ids, routes[1..]);
    }
  }

  lemma {:induction false} TwicePart(seen: seq<Claim>, rest: seq<Claim>)
    ensures FirstTwice(seen, rest).Some? ==> PartOf(FirstTwice(seen, rest).value) == OfConflict
    decreases rest
  {
    if rest != [] {
      TwicePart(seen + [rest[0]], rest[1..]);
    }
  }

  lemma {:induction false} ScanHostsPart(port: int, seen: set<string>, hosts: seq<string>)
    ensures ScanHosts(port, seen, hosts).Some? ==> PartOf(ScanHosts(port, seen, hosts).value) == OfConflict
    decreases hosts
  {
    if hosts != [] {
      ScanHostsPart(port, seen + {Lower(hosts[0])}, hosts[1..]);
    }
  }

  lemma {:induction false} ScanPortPart(port: int, shared: bool, seen: set<string>, users: seq<Route>)
    ensures ScanPort(port, shared, seen, users).Some? ==> PartOf(ScanPort(port, shared, seen, users).value) == OfConflict
    decreases users
  {
    if users != [] {
      ScanHostsPart(port, seen, users[0].hosts);
      ScanPortPart(port, shared, seen + LowerSet(users[0].hosts), users[1..]);
    }
  }

  lemma {:induction false} ScanPortsPart(ports: seq<int>, tcp: seq<Route>)
    ensures ScanPorts(ports, tcp).Some? ==> PartOf(ScanPorts(ports, tcp).value) == OfConflict
    decreases ports
  {
    if ports != [] {
      var users := OnPort(tcp, ports[0]);
      ScanPortPart(ports[0], |users| > 1, {}, users);
      ScanPortsPart(ports[1..], tcp);
    }
  }

  lemma ConflictPart(routes: seq<Route>)
    ensures AllOf(ConflictErrors(routes), OfConflict)
  {
    TwicePart([], Claims(OfKind(routes, Http)));
    ScanPortsPart(Ports(OfKind(routes, Tcp)), OfKind(routes, Tcp));
  }

  lemma ElsewhereMeansNot(es: seq<Error>, p: Part, e: Error)
    requires AllOf(es, p) && PartOf(e) != p
    ensures e !in es
  {
  }

  lemma Among<T>(a: seq<T>, b: seq<T>, c: seq<T>, d: seq<T>, p: seq<T>, q: seq<T>, e: T)
    ensures e in a + b + c + d + p + q <==> e in a || e in b || e in c || e in d || e in p || e in q
  {
    assert e in a + b + c + d + p + q <==> e in a + b + c + d || e in p || e in q;
  }

  /** An error of the kind or policy checks is among the errors of that check. */
  lemma ErrorSource(st: State, g: Gateway, routes: seq<Route>, e: Error)
    requires PartOf(e) == OfKindCheck || PartOf(e) == OfPolicy
    ensures e in PreErrors(st, g, routes)
       <==> e in if PartOf(e) == OfKindCheck then KindErrors(g, routes) else PolicyErrors(st, UsedPolicies(g, routes))
  {
    var ids := NodeIds(st, g.nodes);
    var node, route, conflict := StartErrors(st, g), RouteErrors(routes), ConflictErrors(routes);
    var kind, policy, backend := KindErrors(g, routes), PolicyErrors(st, UsedPolicies(g, routes)), BackendErrors(st, ids, routes);
    StartPart(st, g);
    RoutePart(routes);
    ConflictPart(routes);
    BackendPart(st, ids, routes);
    ElsewhereMeansNot(node, OfNode, e);
    ElsewhereMeansNot(route, OfRoute, e);
    ElsewhereMeansNot(conflict, OfConflict, e);
    ElsewhereMeansNot(backend, OfBackend, e);
    Among(node, route, conflict, kind, policy, backend, e);
    if PartOf(e) == OfKindCheck {
      PolicyPart(st, UsedPolicies(g, routes));
      ElsewhereMeansNot(policy, OfPolicy, e);
    } else {
      KindPart(g, routes);
      ElsewhereMeansNot(kind, OfKindCheck, e);
    }
  }

  lemma {:induction false} KindErrorMember(g: Gateway, routes: seq<Route>, e: Error)
    ensures e in KindErrors(g, routes) <==> exists k :: 0 <= k < |routes| && e in KindError(g, routes[k])
  {
    if routes != [] {
      KindErrorMember(g, routes[1..], e);
      assert forall k :: 0 < k < |routes| ==> routes[k] == routes[1..][k - 1];
    }
  }

  // ---- what a spoiler is ---------------------------------------------------------------------

  /** A kept mirrored route with a wildcard host on a gateway without DNS challenges. */
  predicate WildcardSpoiler(g: Gateway, kept: seq<Route>) {
    !g.dns01 && exists k :: 0 <= k < |kept| && kept[k].mirrored && AnyWildcard(kept[k].hosts)
  }

  /** A kept mirrored route whose stored policy is invalid and that nothing else makes the gateway check. */
  predicate PolicySpoiler(st: State, g: Gateway, kept: seq<Route>) {
    exists k :: 0 <= k < |kept| && kept[k].mirrored && BadNewPolicy(st, g, Operators(kept), kept[k])
  }

  predicate BadNewPolicy(st: State, g: Gateway, operators: seq<Route>, r: Route) {
    NamedPolicy(r).Some? && !GoodPolicy(st, NamedPolicy(r).value) && NamedPolicy(r).value !in UsedPolicies(g, operators)
  }

  lemma BlamedMirror(g: Gateway, kept: seq<Route>) returns (e: Error)
    requires NameOrder(kept) && MirrorsAreHttp(kept) && WildcardSpoiler(g, kept)
    ensures PartOf(e) == OfKindCheck && e in KindErrors(g, kept) && e !in KindErrors(g, Operators(kept))
  {
    var k :| 0 <= k < |kept| && kept[k].mirrored && AnyWildcard(kept[k].hosts);
    MirrorBlamed(g, kept, k);
    MirrorNotBlamed(g, kept, k);
    e := WildcardNeedsDns(kept[k].name);
  }

  lemma MirrorBlamed(g: Gateway, kept: seq<Route>, k: nat)
    requires k < |kept| && kept[k].kind == Http && AnyWildcard(kept[k].hosts) && !g.dns01
    ensures WildcardNeedsDns(kept[k].name) in KindErrors(g, kept)
  {
    assert WildcardNeedsDns(kept[k].name) in KindError(g, kept[k]);
    KindErrorMember(g, kept, WildcardNeedsDns(kept[k].name));
  }

  lemma MirrorNotBlamed(g: Gateway, kept: seq<Route>, k: nat)
    requires NameOrder(kept) && k < |kept| && kept[k].mirrored
    ensures WildcardNeedsDns(kept[k].name) !in KindErrors(g, Operators(kept))
  {
    var e, ops := WildcardNeedsDns(kept[k].name), Operators(kept);
    KindErrorMember(g, ops, e);
    forall n | 0 <= n < |ops| ensures e !in KindError(g, ops[n]) {
      OperatorNamedElse(kept, k, ops[n]);
    }
  }

  lemma OperatorNamedElse(kept: seq<Route>, k: nat, r: Route)
    requires NameOrder(kept) && k < |kept| && kept[k].mirrored && r in Operators(kept)
    ensures r.name != kept[k].name
  {
    OperatorsMembers(kept, r);
    var m :| 0 <= m < |kept| && kept[m] == r;
    NamesDiffer(kept, k, m);
  }

  lemma BlamedPolicy(st: State, g: Gateway, kept: seq<Route>) returns (e: Error)
    requires PolicySpoiler(st, g, kept)
    ensures PartOf(e) == OfPolicy
    ensures e in PolicyErrors(st, UsedPolicies(g, kept)) && e !in PolicyErrors(st, UsedPolicies(g, Operators(kept)))
  {
    var k :| 0 <= k < |kept| && kept[k].mirrored && BadNewPolicy(st, g, Operators(kept), kept[k]);
    var p := NamedPolicy(kept[k]).value;
    UsedMembers(g, kept, p);
    PolicyErrorMember(st, UsedPolicies(g, kept), p);
    PolicyErrorMember(st, UsedPolicies(g, Operators(kept)), p);
    e := PolicyError(st, p);
  }

  /** A spoiler adds an error found before rendering. */
  lemma SpoilerError(st: State, g: Gateway, kept: seq<Route>) returns (e: Error)
    requires NameOrder(kept) && MirrorsAreHttp(kept) && (WildcardSpoiler(g, kept) || PolicySpoiler(st, g, kept))
    ensures e in PreErrors(st, g, kept) && e !in PreErrors(st, g, Operators(kept))
  {
    if WildcardSpoiler(g, kept) {
      e := BlamedMirror(g, kept);
    } else {
      e := BlamedPolicy(st, g, kept);
    }
    ErrorSource(st, g, kept, e);
    ErrorSource(st, g, Operators(kept), e);
  }

  lemma TidyMeansApart(st: State, ids: set<string>, kept: seq<Route>)
    requires Tidy(st, ids, kept, [])
    ensures MirrorsApartFrom(kept) && MirrorsAreHttp(kept)
    ensures forall k :: 0 <= k < |kept| && kept[k].mirrored ==> ValidRoute(kept[k]) && AllResolve(st, ids, BackendsOf(kept[k]))
  {
    forall k | 0 <= k < |kept| && kept[k].mirrored
      ensures kept[k].kind == Http && ValidRoute(kept[k]) && AllResolve(st, ids, BackendsOf(kept[k]))
           && forall j :: 0 <= j < |kept| && j != k ==> !SharesHost(kept[j], kept[k])
    {
      assert TidyAt(st, ids, kept, [], k);
      PathsResolveAll(st, ids, kept[k].paths);
      assert BackendsOf(kept[k]) == BackendsOfPaths(kept[k].paths);
    }
  }

  lemma UnspoiledPolicies(st: State, g: Gateway, kept: seq<Route>)
    requires !PolicySpoiler(st, g, kept)
    ensures PolicyErrors(st, UsedPolicies(g, kept)) == PolicyErrors(st, UsedPolicies(g, Operators(kept)))
  {
    var ops := Operators(kept);
    forall p | !GoodPolicy(st, p) ensures p in UsedPolicies(g, kept) <==> p in UsedPolicies(g, ops) {
      UsedMembers(g, kept, p);
      UsedMembers(g, ops, p);
      if Names(kept, p) && p !in UsedPolicies(g, ops) {
        var k :| 0 <= k < |kept| && NamedPolicy(kept[k]) == Some(p);
        OperatorsMembers(kept, kept[k]);
        assert kept[k].mirrored && BadNewPolicy(st, g, Operators(kept), kept[k]);
      }
      if Names(ops, p) {
        var k :| 0 <= k < |ops| && NamedPolicy(ops[k]) == Some(p);
        OperatorsMembers(kept, ops[k]);
      }
    }
    PolicyErrorsSame(st, g, kept, ops);
  }

  /** Without such a spoiler, the errors before rendering are those of the operator's routes. */
  lemma UnspoiledErrors(st: State, g: Gateway, kept: seq<Route>)
    requires Tidy(st, NodeIds(st, g.nodes), kept, []) && !WildcardSpoiler(g, kept) && !PolicySpoiler(st, g, kept)
    ensures PreErrors(st, g, kept) == PreErrors(st, g, Operators(kept))
  {
    var ids := NodeIds(st, g.nodes);
    TidyMeansApart(st, ids, kept);
    RouteErrorsSame(kept);
    ConflictsSame(kept);
    KindErrorsSame(g, kept);
    UnspoiledPolicies(st, g, kept);
    BackendErrorsSame(st, ids, kept);
  }

  // ---- the theorem ----------------------------------------------------------------------------

  lemma {:induction false} OperatorsStay(st: State, ids: set<string>, kept: seq<Route>, rest: seq<Route>)
    requires forall k :: 0 <= k < |rest| ==> !rest[k].mirrored
    ensures Filter(st, ids, kept, rest) == kept + rest
    decreases rest
  {
    if rest == [] {
      assert kept + rest == kept;
    } else {
      OperatorsStay(st, ids, kept + [rest[0]], rest[1..]);
      assert (kept + [rest[0]]) + rest[1..] == kept + rest;
    }
  }

  /** A kept mirrored route that changes the plan's errors. */
  predicate Spoiled(st: State, g: Gateway, kept: seq<Route>) {
    WildcardSpoiler(g, kept) || PolicySpoiler(st, g, kept)
  }

  lemma ErrorsSameIff(st: State, g: Gateway, kept: seq<Route>)
    requires NameOrder(kept) && Tidy(st, NodeIds(st, g.nodes), kept, [])
    ensures PreErrors(st, g, kept) == PreErrors(st, g, Operators(kept)) <==> !Spoiled(st, g, kept)
  {
    TidyMeansApart(st, NodeIds(st, g.nodes), kept);
    if Spoiled(st, g, kept) {
      var e := SpoilerError(st, g, kept);
    } else {
      UnspoiledErrors(st, g, kept);
    }
  }

  lemma KeptLeaveErrorsIff(st: State, g: Gateway, all: seq<Route>)
    requires NameOrder(all) && MirrorsAreHttp(all) && ValidGateway(g)
    ensures PlanOf(st, g, all).errors == PlanOf(st, g, Operators(all)).errors <==> !Spoiled(st, g, Filter(st, NodeIds(st, g.nodes), [], all))
  {
    var ids := NodeIds(st, g.nodes);
    var kept, ops := Filter(st, ids, [], all), Operators(all);
    assert [] + all == all;
    FilterIsTidy(st, ids, [], all);
    FilterKeepsOperators(st, ids, [], all);
    assert [] + ops == ops;
    forall k | 0 <= k < |ops| ensures !ops[k].mirrored {
      OperatorsMembers(all, ops[k]);
    }
    OperatorsStay(st, ids, [], ops);
    PlanErrorsAre(st, g, all);
    PlanErrorsAre(st, g, ops);
    ErrorsSameIff(st, g, kept);
  }

  // ---- the theorem in terms of the routes given ------------------------------------------------

  /**
   A mirrored route that survives and has a wildcard host on a gateway without
   DNS challenges, or an invalid policy that nothing else makes the gateway check.
   */
  predicate Spoils(st: State, g: Gateway, all: seq<Route>, i: nat)
    requires i < |all|
  {
    && Survives(st, NodeIds(st, g.nodes), all, i)
    && ((!g.dns01 && AnyWildcard(all[i].hosts)) || BadNewPolicy(st, g, Operators(all), all[i]))
  }

  lemma SpoiledMeansSpoils(st: State, g: Gateway, all: seq<Route>, kept: seq<Route>) returns (i: nat)
    requires NameOrder(all) && kept == Filter(st, NodeIds(st, g.nodes), [], all) && Operators(kept) == Operators(all)
    requires Spoiled(st, g, kept)
    ensures i < |all| && Spoils(st, g, all, i)
  {
    var ids := NodeIds(st, g.nodes);
    var k := SpoilerIndex(st, g, kept);
    FilterWithin(st, ids, [], all, kept[k]);
    assert kept[k] in kept;
    i :| 0 <= i < |all| && all[i] == kept[k];
    SurvivorsAreKept(st, ids, all, i);
  }

  lemma SpoilsMeansSpoiled(st: State, g: Gateway, all: seq<Route>, kept: seq<Route>, i: nat)
    requires NameOrder(all) && kept == Filter(st, NodeIds(st, g.nodes), [], all) && Operators(kept) == Operators(all)
    requires i < |all| && Spoils(st, g, all, i)
    ensures Spoiled(st, g, kept)
  {
    SurvivorsAreKept(st, NodeIds(st, g.nodes), all, i);
    var k :| 0 <= k < |kept| && kept[k] == all[i];
    assert kept[k].mirrored;
  }

  lemma SpoiledIffSpoils(st: State, g: Gateway, all: seq<Route>)
    requires NameOrder(all)
    ensures Spoiled(st, g, Filter(st, NodeIds(st, g.nodes), [], all)) <==> exists i :: 0 <= i < |all| && Spoils(st, g, all, i)
  {
    var ids := NodeIds(st, g.nodes);
    var kept := Filter(st, ids, [], all);
    FilterKeepsOperators(st, ids, [], all);
    assert [] + Operators(all) == Operators(all);
    if Spoiled(st, g, kept) {
      var i := SpoiledMeansSpoils(st, g, all, kept);
    }
    if i :| 0 <= i < |all| && Spoils(st, g, all, i) {
      SpoilsMeansSpoiled(st, g, all, kept, i);
    }
  }

  lemma SpoilerIndex(st: State, g: Gateway, kept: seq<Route>) returns (k: nat)
    requires Spoiled(st, g, kept)
    ensures k < |kept| && kept[k].mirrored
    ensures (!g.dns01 && AnyWildcard(kept[k].hosts)) || BadNewPolicy(st, g, Operators(kept), kept[k])
  {
    if WildcardSpoiler(g, kept) {
      k :| 0 <= k < |kept| && kept[k].mirrored && AnyWildcard(kept[k].hosts);
    } else {
      k :| 0 <= k < |kept| && kept[k].mirrored && BadNewPolicy(st, g, Operators(kept), kept[k]);
    }
  }

  /** Mirrored routes leave the errors of a gateway's plan as they are for the operator's routes alone, exactly when none of them spoils it. */
  lemma MirrorsLeaveErrorsIff(st: State, g: Gateway, all: seq<Route>)
    requires NameOrder(all) && MirrorsAreHttp(all)
    ensures PlanOf(st, g, all).errors == PlanOf(st, g, Operators(all)).errors
       <==> !ValidGateway(g) || forall i :: 0 <= i < |all| ==> !Spoils(st, g, all, i)
  {
    if ValidGateway(g) {
      KeptLeaveErrorsIff(st, g, all);
      SpoiledIffSpoils(st, g, all);
    }
  }

  /** In particular the host check passes exactly when it passes for the operator's routes. */
  lemma HostCheckSame(st: State, g: Gateway, all: seq<Route>)
    requires NameOrder(all) && MirrorsAreHttp(all)
    ensures HostConflict(Filter(st, NodeIds(st, g.nodes), [], all)) == HostConflict(Operators(all))
  {
    var ids := NodeIds(st, g.nodes);
    assert [] + all == all;
    FilterIsTidy(st, ids, [], all);
    FilterKeepsOperators(st, ids, [], all);
    assert [] + Operators(all) == Operators(all);
    TidyMeansApart(st, ids, Filter(st, ids, [], all));
    ConflictsSame(Filter(st, ids, [], all));
  }

  /** Wildcard hosts only with DNS challenges, stored policies valid: then nothing changes. */
  lemma {:induction false} HarmlessMirrors(st: State, g: Gateway, all: seq<Route>)
    requires NameOrder(all) && MirrorsAreHttp(all)
    requires g.dns01 || forall k :: 0 <= k < |all| && all[k].mirrored ==> !AnyWildcard(all[k].hosts)
    requires forall p :: p in st.policies ==> st.policies[p]
    ensures PlanOf(st, g, all).errors == PlanOf(st, g, Operators(all)).errors
  {
    forall i | 0 <= i < |all| ensures !Spoils(st, g, all, i) {
    }
    MirrorsLeaveErrorsIff(st, g, all);
  }

  // ---- one mirrored route that fails a gateway -------------------------------------------------

  /** A mirrored route that sends everything under a host to one service. */
  function MirrorOf(name: string, host: string, key: string): (r: Route) {
    Route(name, true, Http, [host], [Path("/", [Kubernetes(key)], true)], None, [], Waf(None, false), true)
  }

  lemma MirrorIsClean(st: State, ids: set<string>, r: Route, name: string, host: string, key: string)
    requires r == MirrorOf(name, host, key) && Resolve(st, ids, Kubernetes(key)).Some?
    ensures Clean(st, ids, r)
  {
    assert PlainPrefix(r.paths[0].prefix);
    assert ValidPath(r.paths[0]);
  }

  lemma LoneMirrorStays(st: State, ids: set<string>, r: Route)
    requires Clean(st, ids, r)
    ensures Filter(st, ids, [], [r]) == [r]
  {
    assert [] + [r] == [r] && !Clashes([r], r);
    assert [r][1..] == [] && Filter(st, ids, [r], []) == [r];
  }

  /** A gateway in order: its documents are readable, its nodes registered, and it names no policy. */
  predicate InOrder(st: State, g: Gateway) {
    st.corrupt == [] && ValidGateway(g) && g.defaultPolicy.None? && forall k :: 0 <= k < |g.nodes| ==> g.nodes[k] in st.registered
  }

  lemma {:induction false} RegisteredNodes(st: State, nodes: seq<string>)
    requires forall k :: 0 <= k < |nodes| ==> nodes[k] in st.registered
    ensures NodeErrors(st, nodes) == []
  {
    if nodes != [] {
      RegisteredNodes(st, nodes[1..]);
    }
  }

  lemma EmptyPlan(st: State, g: Gateway)
    requires InOrder(st, g)
    ensures PreErrors(st, g, []) == []
  {
    RegisteredNodes(st, g.nodes);
    assert OfKind([], Http) == [] && OfKind([], Tcp) == [];
    assert StartErrors(st, g) == [];
  }

  /** A clean mirrored route alone is valid, in nobody's way and resolved. */
  lemma LoneMirrorIsFine(st: State, ids: set<string>, r: Route)
    requires r.mirrored && r.kind == Http && Clean(st, ids, r)
    ensures RouteErrors([r]) == [] && ConflictErrors([r]) == [] && BackendErrors(st, ids, [r]) == []
  {
    assert Operators([r]) == [];
    assert TidyAt(st, ids, [r], [], 0);
    TidyMeansApart(st, ids, [r]);
    RouteErrorsSame([r]);
    ConflictsSame([r]);
    assert OfKind([], Http) == [] && OfKind([], Tcp) == [];
    BackendErrorsSame(st, ids, [r]);
  }

  lemma LoneMirrorErrors(st: State, g: Gateway, r: Route)
    requires InOrder(st, g) && r.mirrored && r.kind == Http && NamedPolicy(r).None? && Clean(st, NodeIds(st, g.nodes), r)
    ensures PreErrors(st, g, [r]) == KindError(g, r)
  {
    LoneMirrorIsFine(st, NodeIds(st, g.nodes), r);
    EmptyPlan(st, g);
    assert [r][..0] == [] && UsedPolicies(g, [r]) == [];
    assert [r][1..] == [] && KindErrors(g, [r]) == KindError(g, r) + [];
  }

  /** One mirrored route with a wildcard host fails a gateway without DNS challenges that is otherwise in order. */
  lemma WildcardMirrorFailsGateway(st: State, g: Gateway, name: string, host: string, key: string)
    requires InOrder(st, g) && !g.dns01 && IsWildcard(host) && key in st.k8s && AddressesOf(st.k8s[key]).Some?
    ensures PlanOf(st, g, [MirrorOf(name, host, key)]) == Plan([WildcardNeedsDns(name)], None, None)
    ensures PlanOf(st, g, []).errors == []
  {
    var r, ids := MirrorOf(name, host, key), NodeIds(st, g.nodes);
    MirrorIsClean(st, ids, r, name, host, key);
    LoneMirrorStays(st, ids, r);
    LoneMirrorErrors(st, g, r);
    assert AnyWildcard(r.hosts) by {
      assert IsWildcard(r.hosts[0]);
    }
    EmptyPlan(st, g);
    PlanErrorsAre(st, g, []);
  }
}
