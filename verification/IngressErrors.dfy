/** The errors of a plan with mirrored routes, compared with those of the operator's routes alone. */
module IngressErrors {
  import opened IngressSpec
  import opened IngressRender
  import opened IngressDials
  import opened IngressPlan
  import opened IngressTheorems
  import opened IngressMirrors

  // ---- errors of single routes -------------------------------------------------------

  lemma {:induction false} RouteErrorsSame(routes: seq<Route>)
    requires forall k :: 0 <= k < |routes| && routes[k].mirrored ==> ValidRoute(routes[k])
    ensures RouteErrors(routes) == RouteErrors(Operators(routes))
  {
    if routes != [] {
      RouteErrorsSame(routes[1..]);
      assert !routes[0].mirrored ==> Operators(routes)[1..] == Operators(routes[1..]);
    }
  }

  lemma {:induction false} KindErrorsSame(g: Gateway, routes: seq<Route>)
    requires forall k :: 0 <= k < |routes| && routes[k].mirrored ==> KindError(g, routes[k]) == []
    ensures KindErrors(g, routes) == KindErrors(g, Operators(routes))
  {
    if routes != [] {
      KindErrorsSame(g, routes[1..]);
      assert !routes[0].mirrored ==> Operators(routes)[1..] == Operators(routes[1..]);
    }
  }

  lemma {:induction false} BackendErrorsSame(st: State, ids: set<string>, routes: seq<Route>)
    requires forall k :: 0 <= k < |routes| && routes[k].mirrored ==> AllResolve(st, ids, BackendsOf(routes[k]))
    ensures BackendErrors(st, ids, routes) == BackendErrors(st, ids, Operators(routes))
  {
    if routes != [] {
      BackendErrorsSame(st, ids, routes[1..]);
      NoFailedBackends(st, ids, routes[0].name, BackendsOf(routes[0]));
      assert !routes[0].mirrored ==> Operators(routes)[1..] == Operators(routes[1..]);
    }
  }

  lemma {:induction false} PathsResolveAll(st: State, ids: set<string>, paths: seq<Path>)
    requires PathsResolve(st, ids, paths)
    ensures AllResolve(st, ids, BackendsOfPaths(paths))
  {
    if paths != [] {
      PathsResolveAll(st, ids, paths[1..]);
      assert AllResolve(st, ids, paths[0].backends);
    }
  }

  // ---- host conflicts ----------------------------------------------------------------

  function OperatorClaims(cs: seq<Claim>): (r: seq<Claim>) {
    if cs == [] then []
    else if cs[0].mirrored then OperatorClaims(cs[1..])
    else [cs[0]] + OperatorClaims(cs[1..])
  }

  lemma {:induction false} OperatorClaimsConcat(xs: seq<Claim>, ys: seq<Claim>)
    ensures OperatorClaims(xs + ys) == OperatorClaims(xs) + OperatorClaims(ys)
  {
    if xs == [] {
      assert xs + ys == ys;
    } else {
      OperatorClaimsConcat(xs[1..], ys);
      assert (xs + ys)[1..] == xs[1..] + ys;
      if !xs[0].mirrored {
        assert [xs[0]] + (OperatorClaims(xs[1..]) + OperatorClaims(ys)) == ([xs[0]] + OperatorClaims(xs[1..])) + OperatorClaims(ys);
      }
    }
  }

  lemma {:induction false} ClaimsAllOr(cs: seq<Claim>, mirrored: bool)
    requires forall k :: 0 <= k < |cs| ==> cs[k].mirrored == mirrored
    ensures OperatorClaims(cs) == if mirrored then [] else cs
  {
    if cs != [] {
      ClaimsAllOr(cs[1..], mirrored);
    }
  }

  lemma {:induction false} ClaimsOfOperators(routes: seq<Route>)
    ensures Claims(Operators(routes)) == OperatorClaims(Claims(routes))
  {
    if routes != [] {
      ClaimsOfOperators(routes[1..]);
      ClaimsAllOr(ClaimsOf(routes[0]), routes[0].mirrored);
      OperatorClaimsConcat(ClaimsOf(routes[0]), Claims(routes[1..]));
      assert !routes[0].mirrored ==> Operators(routes)[1..] == Operators(routes[1..]);
    }
  }

  /** Only operators claim a host twice. */
  predicate MirrorsUnique(cs: seq<Claim>) {
    forall i, j :: 0 <= i < j < |cs| && cs[i].key == cs[j].key ==> !cs[i].mirrored && !cs[j].mirrored
  }

  lemma {:induction false} OwnerAmongOperators(seen: seq<Claim>, key: string)
    requires forall k :: 0 <= k < |seen| && seen[k].key == key ==> !seen[k].mirrored
    ensures Owner(seen, key) == Owner(OperatorClaims(seen), key)
  {
    if seen != [] {
      OwnerAmongOperators(seen[1..], key);
      assert !seen[0].mirrored ==> OperatorClaims(seen)[1..] == OperatorClaims(seen[1..]);
    }
  }

  lemma {:induction false} FirstTwiceSame(seen: seq<Claim>, rest: seq<Claim>)
    requires MirrorsUnique(seen + rest)
    ensures FirstTwice(seen, rest) == FirstTwice(OperatorClaims(seen), OperatorClaims(rest))
    decreases rest
  {
    if rest != [] {
      var c, all := rest[0], seen + rest;
      assert all[|seen|] == c;
      assert forall k :: 0 <= k < |seen| ==> all[k] == seen[k];
      OwnerIff(seen, c.key);
      assert (seen + [c]) + rest[1..] == all;
      OperatorClaimsConcat(seen, [c]);
      ClaimsAllOr([c], c.mirrored);
      if !c.mirrored {
        OwnerAmongOperators(seen, c.key);
        assert OperatorClaims(rest)[1..] == OperatorClaims(rest[1..]);
      } else {
        assert OperatorClaims(seen) + [] == OperatorClaims(seen);
      }
      if Owner(seen, c.key).None? {
        FirstTwiceSame(seen + [c], rest[1..]);
      }
    }
  }

  lemma {:induction false} ClaimSource(routes: seq<Route>, c: Claim) returns (k: nat)
    requires c in Claims(routes)
    ensures k < |routes| && c.key in LowerSet(routes[k].hosts) && c.mirrored == routes[k].mirrored
  {
    if c in ClaimsOf(routes[0]) {
      k := 0;
    } else {
      k := ClaimSource(routes[1..], c);
      k := k + 1;
    }
  }

  /** A mirrored route shares no host with another route and lists none twice. */
  predicate MirrorsApartFrom(routes: seq<Route>) {
    forall i :: 0 <= i < |routes| && routes[i].mirrored ==>
      Distinct(Lowers(routes[i].hosts)) && forall j :: 0 <= j < |routes| && j != i ==> !SharesHost(routes[j], routes[i])
  }

  lemma {:induction false} ApartMeansUnique(routes: seq<Route>)
    requires MirrorsApartFrom(routes)
    ensures MirrorsUnique(Claims(routes))
  {
    if routes != [] {
      var r, rest := routes[0], routes[1..];
      assert forall k :: 0 <= k < |rest| ==> rest[k] == routes[k + 1];
      assert MirrorsApartFrom(rest);
      ApartMeansUnique(rest);
      var mine, others := ClaimsOf(r), Claims(rest);
      forall i, j | 0 <= i < |mine| && 0 <= j < |others| && mine[i].key == others[j].key
        ensures !mine[i].mirrored && !others[j].mirrored
      {
        var k := ClaimSource(rest, others[j]);
        assert SharesHost(r, rest[k]) && SharesHost(rest[k], r);
        assert routes[k + 1] == rest[k];
      }
      assert r.mirrored ==> Distinct(Lowers(r.hosts));
      OwnClaimsUnique(r);
      JoinUnique(mine, others);
    }
  }

  lemma OwnClaimsUnique(r: Route)
    requires r.mirrored ==> Distinct(Lowers(r.hosts))
    ensures MirrorsUnique(ClaimsOf(r))
  {
    var mine := ClaimsOf(r);
    assert forall i :: 0 <= i < |mine| ==> mine[i].key == Lowers(r.hosts)[i];
  }

  lemma JoinUnique(xs: seq<Claim>, ys: seq<Claim>)
    requires MirrorsUnique(xs) && MirrorsUnique(ys)
    requires forall i, j :: 0 <= i < |xs| && 0 <= j < |ys| && xs[i].key == ys[j].key ==> !xs[i].mirrored && !ys[j].mirrored
    ensures MirrorsUnique(xs + ys)
  {
    var all := xs + ys;
    forall i, j | 0 <= i < j < |all| && all[i].key == all[j].key ensures !all[i].mirrored && !all[j].mirrored {
      if j < |xs| {
        assert all[i] == xs[i] && all[j] == xs[j];
      } else if i < |xs| {
        assert all[i] == xs[i] && all[j] == ys[j - |xs|];
      } else {
        assert all[i] == ys[i - |xs|] && all[j] == ys[j - |xs|];
      }
    }
  }

  lemma {:induction false} KindOfOperators(routes: seq<Route>, kind: Kind)
    ensures OfKind(Operators(routes), kind) == Operators(OfKind(routes, kind))
  {
    if routes != [] {
      KindOfOperators(routes[1..], kind);
      OperatorsConcat(if routes[0].kind == kind then [routes[0]] else [], OfKind(routes[1..], kind));
      assert !routes[0].mirrored ==> Operators(routes)[1..] == Operators(routes[1..]);
      assert Operators([routes[0]]) == if routes[0].mirrored then [] else [routes[0]];
    }
  }

  lemma {:induction false} AllOperators(routes: seq<Route>)
    requires forall k :: 0 <= k < |routes| ==> !routes[k].mirrored
    ensures Operators(routes) == routes
  {
    if routes != [] {
      AllOperators(routes[1..]);
    }
  }

  lemma {:induction false} HttpApart(routes: seq<Route>)
    requires MirrorsApartFrom(routes)
    ensures MirrorsApartFrom(OfKind(routes, Http))
    ensures forall r :: r in OfKind(routes, Http) ==> r in routes
  {
    if routes != [] {
      var r, rest := routes[0], routes[1..];
      assert forall k :: 0 <= k < |rest| ==> rest[k] == routes[k + 1];
      assert MirrorsApartFrom(rest);
      HttpApart(rest);
      var later := OfKind(rest, Http);
      if r.kind == Http {
        var http := [r] + later;
        forall k | 0 <= k < |later| ensures (r.mirrored ==> !SharesHost(later[k], r)) && (later[k].mirrored ==> !SharesHost(r, later[k])) {
          assert later[k] in later;
          var n :| 0 <= n < |rest| && rest[n] == later[k];
          assert routes[n + 1] == later[k];
        }
        assert r.mirrored ==> Distinct(Lowers(r.hosts));
        assert forall k :: 0 < k < |http| ==> http[k] == later[k - 1];
      }
    }
  }

  /** With the mirrored routes apart, the host check says of all routes what it says of the operator's. */
  lemma ConflictsSame(routes: seq<Route>)
    requires MirrorsApartFrom(routes) && MirrorsAreHttp(routes)
    ensures HostConflict(routes) == HostConflict(Operators(routes))
  {
    var http, tcp := OfKind(routes, Http), OfKind(routes, Tcp);
    HttpApart(routes);
    ApartMeansUnique(http);
    FirstTwiceSame([], Claims(http));
    assert [] + Claims(http) == Claims(http);
    ClaimsOfOperators(http);
    KindOfOperators(routes, Http);
    KindOfOperators(routes, Tcp);
    forall k | 0 <= k < |tcp| ensures !tcp[k].mirrored {
      OfKindMembers(routes, Tcp, tcp[k]);
    }
    AllOperators(tcp);
  }
}
