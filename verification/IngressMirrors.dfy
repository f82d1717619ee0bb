/**
 Routes mirrored from Kubernetes beside the operator's own: which of them a plan
 keeps, and exactly when keeping them changes the plan's errors.
 */
module IngressMirrors {
  import opened Prelude
  import opened IngressSpec
  import opened IngressPlan

  predicate NameOrder(routes: seq<Route>) {
    forall i, j :: 0 <= i < j < |routes| ==> Less(routes[i].name, routes[j].name)
  }

  /** The mirror only builds HTTP routes. */
  predicate MirrorsAreHttp(routes: seq<Route>) {
    forall i :: 0 <= i < |routes| && routes[i].mirrored ==> routes[i].kind == Http
  }

  function Operators(routes: seq<Route>): (r: seq<Route>) {
    if routes == [] then []
    else if routes[0].mirrored then Operators(routes[1..])
    else [routes[0]] + Operators(routes[1..])
  }

  // ---- the filter ------------------------------------------------------------------

  lemma {:induction false} OperatorsConcat(xs: seq<Route>, ys: seq<Route>)
    ensures Operators(xs + ys) == Operators(xs) + Operators(ys)
  {
    if xs == [] {
      assert xs + ys == ys;
    } else {
      OperatorsConcat(xs[1..], ys);
      assert (xs + ys)[1..] == xs[1..] + ys;
      if !xs[0].mirrored {
        assert [xs[0]] + (Operators(xs[1..]) + Operators(ys)) == ([xs[0]] + Operators(xs[1..])) + Operators(ys);
      }
    }
  }

  lemma {:induction false} OperatorsMembers(routes: seq<Route>, r: Route)
    ensures r in Operators(routes) <==> r in routes && !r.mirrored
  {
    if routes != [] {
      OperatorsMembers(routes[1..], r);
      assert routes == [routes[0]] + routes[1..];
    }
  }

  /** Operator routes all stay, in order. */
  lemma {:induction false} FilterKeepsOperators(st: State, ids: set<string>, kept: seq<Route>, rest: seq<Route>)
    ensures Operators(Filter(st, ids, kept, rest)) == Operators(kept) + Operators(rest)
    decreases rest
  {
    if rest == [] {
      assert Operators(kept) + [] == Operators(kept);
    } else if Stays(st, ids, kept + rest, rest[0]) {
      FilterKeepsOperators(st, ids, kept + [rest[0]], rest[1..]);
      OperatorsConcat(kept, [rest[0]]);
      OperatorsConcat([rest[0]], rest[1..]);
      assert [rest[0]] + rest[1..] == rest;
      Assoc(Operators(kept), Operators([rest[0]]), Operators(rest[1..]));
    } else {
      FilterKeepsOperators(st, ids, kept, rest[1..]);
    }
  }

  lemma {:induction false} FilterWithin(st: State, ids: set<string>, kept: seq<Route>, rest: seq<Route>, r: Route)
    ensures r in kept ==> r in Filter(st, ids, kept, rest)
    ensures r in Filter(st, ids, kept, rest) ==> r in kept || r in rest
    ensures r in rest && !r.mirrored ==> r in Filter(st, ids, kept, rest)
    decreases rest
  {
    if rest != [] {
      assert rest == [rest[0]] + rest[1..];
      if Stays(st, ids, kept + rest, rest[0]) {
        FilterWithin(st, ids, kept + [rest[0]], rest[1..], r);
      } else {
        FilterWithin(st, ids, kept, rest[1..], r);
      }
    }
  }

  /** Whoever stands in the way of `r` when it is looked at stands there in the end, and the other way round. */
  lemma ClashesInTheEnd(st: State, ids: set<string>, kept: seq<Route>, rest: seq<Route>, out: seq<Route>)
    requires rest != [] && NameOrder(kept + rest)
    requires out == Filter(st, ids, if Stays(st, ids, kept + rest, rest[0]) then kept + [rest[0]] else kept, rest[1..])
    ensures Clashes(kept + rest, rest[0]) <==> Clashes(out, rest[0])
  {
    var r, now := rest[0], kept + rest;
    var base := if Stays(st, ids, now, r) then kept + [r] else kept;
    if Clashes(now, r) {
      var k :| 0 <= k < |now| && now[k].name != r.name && SharesHost(now[k], r) && (!now[k].mirrored || Less(now[k].name, r.name));
      AheadMeansKept(kept, rest, k);
      FilterWithin(st, ids, base, rest[1..], now[k]);
      assert now[k] in out;
    }
    if Clashes(out, r) {
      var k :| 0 <= k < |out| && out[k].name != r.name && SharesHost(out[k], r) && (!out[k].mirrored || Less(out[k].name, r.name));
      FilterWithin(st, ids, base, rest[1..], out[k]);
      assert out[k] in now;
    }
  }

  lemma AheadMeansKept(kept: seq<Route>, rest: seq<Route>, k: nat)
    requires rest != [] && NameOrder(kept + rest) && k < |kept + rest|
    ensures var x := (kept + rest)[k];
            x.name != rest[0].name && (!x.mirrored || Less(x.name, rest[0].name)) ==> x in kept || (x in rest[1..] && !x.mirrored)
  {
    var now := kept + rest;
    assert now[|kept|] == rest[0];
    LessTrichotomy(now[k].name, rest[0].name);
    if k > |kept| {
      assert now[k] == rest[1..][k - |kept| - 1];
    }
  }

  lemma NameOrderStep(kept: seq<Route>, rest: seq<Route>)
    requires rest != [] && NameOrder(kept + rest)
    ensures NameOrder((kept + [rest[0]]) + rest[1..]) && NameOrder(kept + rest[1..])
    ensures (kept + [rest[0]]) + rest[1..] == kept + rest
  {
    var now, less := kept + rest, kept + rest[1..];
    assert (kept + [rest[0]]) + rest[1..] == now;
    forall i, j | 0 <= i < j < |less| ensures Less(less[i].name, less[j].name) {
      var i', j' := if i < |kept| then i else i + 1, if j < |kept| then j else j + 1;
      assert less[i] == now[i'] && less[j] == now[j'];
    }
  }

  lemma DecidedNow(st: State, ids: set<string>, kept: seq<Route>, rest: seq<Route>, out: seq<Route>)
    requires rest != [] && NameOrder(kept + rest)
    requires out == Filter(st, ids, kept, rest)
    ensures rest[0] in out <==> Stays(st, ids, kept + rest, rest[0])
  {
    var r, stays := rest[0], Stays(st, ids, kept + rest, rest[0]);
    FilterWithin(st, ids, if stays then kept + [r] else kept, rest[1..], r);
    ListedOnce(kept, rest);
  }

  lemma ListedOnce(kept: seq<Route>, rest: seq<Route>)
    requires rest != [] && NameOrder(kept + rest)
    ensures rest[0] !in kept && rest[0] !in rest[1..]
  {
    var now := kept + rest;
    LessIrreflexive(rest[0].name);
    forall k | 0 <= k < |now| && k != |kept| ensures now[k] != rest[0] {
      assert now[|kept|] == rest[0];
      assert k < |kept| ==> Less(now[k].name, now[|kept|].name);
    }
    assert forall k :: 0 <= k < |kept| ==> now[k] == kept[k];
    assert forall k :: 0 <= k < |rest[1..]| ==> now[|kept| + 1 + k] == rest[1..][k];
  }

  /** A mirrored route is kept exactly when it has no problem of its own and no kept route of rank stands in its way. */
  lemma {:induction false} MirrorKeptIff(st: State, ids: set<string>, kept: seq<Route>, rest: seq<Route>, r: Route)
    requires NameOrder(kept + rest) && r in rest && r.mirrored
    ensures var out := Filter(st, ids, kept, rest);
            r in out <==> Clean(st, ids, r) && !Clashes(out, r)
    decreases rest
  {
    var out, now := Filter(st, ids, kept, rest), kept + rest;
    NameOrderStep(kept, rest);
    if r == rest[0] {
      DecidedNow(st, ids, kept, rest, out);
      ClashesInTheEnd(st, ids, kept, rest, out);
    } else {
      assert rest == [rest[0]] + rest[1..];
      MirrorKeptIff(st, ids, if Stays(st, ids, now, rest[0]) then kept + [rest[0]] else kept, rest[1..], r);
    }
  }

  /** Kept mirrored routes have no problem and share no host with any other kept route. */
  predicate Tidy(st: State, ids: set<string>, kept: seq<Route>, rest: seq<Route>) {
    forall i :: 0 <= i < |kept| && kept[i].mirrored ==> TidyAt(st, ids, kept, rest, i)
  }

  predicate TidyAt(st: State, ids: set<string>, kept: seq<Route>, rest: seq<Route>, i: nat)
    requires i < |kept|
  {
    && Clean(st, ids, kept[i]) && kept[i].kind == Http
    && (forall j :: 0 <= j < |kept| && j != i ==> !SharesHost(kept[j], kept[i]))
    && (forall j :: 0 <= j < |rest| && !rest[j].mirrored ==> !SharesHost(rest[j], kept[i]))
  }

  lemma TidyStep(st: State, ids: set<string>, kept: seq<Route>, rest: seq<Route>)
    requires rest != [] && NameOrder(kept + rest) && MirrorsAreHttp(rest) && Tidy(st, ids, kept, rest)
    requires Stays(st, ids, kept + rest, rest[0])
    ensures Tidy(st, ids, kept + [rest[0]], rest[1..])
  {
    var r, more, now := rest[0], kept + [rest[0]], kept + rest;
    assert now[|kept|] == r;
    forall i | 0 <= i < |more| && more[i].mirrored ensures TidyAt(st, ids, more, rest[1..], i) {
      if i < |kept| {
        assert TidyAt(st, ids, kept, rest, i) && more[i] == kept[i];
        assert more[|kept|] == r && !SharesHost(r, kept[i]) by {
          if r.mirrored {
            MirrorsApart(st, ids, kept, rest, i);
          }
        }
        assert forall j :: 0 <= j < |rest[1..]| ==> rest[1..][j] == rest[j + 1];
      } else {
        NewcomerApart(st, ids, kept, rest);
      }
    }
  }

  /** A mirrored newcomer that stays shares no host with a kept route. */
  lemma MirrorsApart(st: State, ids: set<string>, kept: seq<Route>, rest: seq<Route>, i: nat)
    requires rest != [] && NameOrder(kept + rest) && i < |kept|
    requires rest[0].mirrored && !Clashes(kept + rest, rest[0])
    ensures !SharesHost(kept[i], rest[0]) && !SharesHost(rest[0], kept[i])
  {
    var now := kept + rest;
    assert now[i] == kept[i] && now[|kept|] == rest[0] && Less(now[i].name, now[|kept|].name);
    LessIrreflexive(rest[0].name);
  }

  lemma NewcomerApart(st: State, ids: set<string>, kept: seq<Route>, rest: seq<Route>)
    requires rest != [] && NameOrder(kept + rest) && rest[0].mirrored && !Clashes(kept + rest, rest[0])
    ensures forall j :: 0 <= j < |kept + [rest[0]]| && j != |kept| ==> !SharesHost((kept + [rest[0]])[j], rest[0])
    ensures forall j :: 0 <= j < |rest[1..]| && !rest[1..][j].mirrored ==> !SharesHost(rest[1..][j], rest[0])
  {
    var now := kept + rest;
    forall j | 0 <= j < |kept| ensures !SharesHost(kept[j], rest[0]) {
      MirrorsApart(st, ids, kept, rest, j);
    }
    forall j | 0 <= j < |rest[1..]| && !rest[1..][j].mirrored ensures !SharesHost(rest[1..][j], rest[0]) {
      assert now[|kept| + 1 + j] == rest[1..][j] && now[|kept|] == rest[0];
      assert Less(now[|kept|].name, now[|kept| + 1 + j].name);
      LessIrreflexive(rest[0].name);
    }
  }

  lemma {:induction false} FilterIsTidy(st: State, ids: set<string>, kept: seq<Route>, rest: seq<Route>)
    requires NameOrder(kept + rest) && MirrorsAreHttp(rest) && Tidy(st, ids, kept, rest)
    ensures Tidy(st, ids, Filter(st, ids, kept, rest), []) && NameOrder(Filter(st, ids, kept, rest))
    decreases rest
  {
    if rest == [] {
      assert kept + rest == kept;
    } else {
      NameOrderStep(kept, rest);
      assert MirrorsAreHttp(rest[1..]);
      if Stays(st, ids, kept + rest, rest[0]) {
        TidyStep(st, ids, kept, rest);
        FilterIsTidy(st, ids, kept + [rest[0]], rest[1..]);
      } else {
        assert Tidy(st, ids, kept, rest[1..]) by {
          forall i | 0 <= i < |kept| && kept[i].mirrored ensures TidyAt(st, ids, kept, rest[1..], i) {
            assert TidyAt(st, ids, kept, rest, i);
          }
        }
        FilterIsTidy(st, ids, kept, rest[1..]);
      }
    }
  }

  // ---- the filter in terms of its input ----------------------------------------------

  /** A mirrored route without a problem, sharing no host with an operator's route or with a surviving mirrored route of a smaller name. */
  predicate Survives(st: State, ids: set<string>, all: seq<Route>, i: nat)
    requires i < |all|
    decreases i
  {
    && all[i].mirrored && Clean(st, ids, all[i])
    && (forall j :: 0 <= j < |all| && !all[j].mirrored ==> !SharesHost(all[j], all[i]))
    && (forall j :: 0 <= j < i && Survives(st, ids, all, j) ==> !SharesHost(all[j], all[i]))
  }

  lemma NamesDiffer(routes: seq<Route>, i: nat, j: nat)
    requires NameOrder(routes) && i < |routes| && j < |routes| && i != j
    ensures routes[i].name != routes[j].name
  {
    LessIrreflexive(routes[i].name);
    assert if i < j then Less(routes[i].name, routes[j].name) else Less(routes[j].name, routes[i].name);
  }

  lemma SmallerIsEarlier(routes: seq<Route>, i: nat, j: nat)
    requires NameOrder(routes) && i < |routes| && j < |routes|
    ensures Less(routes[j].name, routes[i].name) <==> j < i
  {
    LessTrichotomy(routes[i].name, routes[j].name);
    LessIrreflexive(routes[i].name);
  }

  /** Route `j` stands in the way of route `i`: an operator's, or an earlier mirrored one that is kept. */
  predicate InTheWay(all: seq<Route>, out: seq<Route>, i: nat, j: nat)
    requires i < |all| && j < |all|
  {
    SharesHost(all[j], all[i]) && (!all[j].mirrored || (j < i && all[j] in out))
  }

  lemma ClashIsInTheWay(all: seq<Route>, out: seq<Route>, i: nat, r: Route)
    requires NameOrder(all) && i < |all| && r == all[i] && r.mirrored
    requires forall x :: x in out ==> x in all
    requires Clashes(out, r)
    ensures exists j :: 0 <= j < |all| && InTheWay(all, out, i, j)
  {
    var k :| 0 <= k < |out| && out[k].name != r.name && SharesHost(out[k], r) && (!out[k].mirrored || Less(out[k].name, r.name));
    assert out[k] in out;
    var j :| 0 <= j < |all| && all[j] == out[k];
    SmallerIsEarlier(all, i, j);
    assert InTheWay(all, out, i, j);
  }

  lemma InTheWayClashes(all: seq<Route>, out: seq<Route>, i: nat, j: nat)
    requires NameOrder(all) && i < |all| && all[i].mirrored && j < |all| && InTheWay(all, out, i, j)
    requires forall x :: x in all && !x.mirrored ==> x in out
    ensures Clashes(out, all[i])
  {
    NamesDiffer(all, i, j);
    SmallerIsEarlier(all, i, j);
    assert all[j] in all;
    var k :| 0 <= k < |out| && out[k] == all[j];
  }

  lemma ClashesIff(st: State, ids: set<string>, all: seq<Route>, out: seq<Route>, i: nat)
    requires NameOrder(all) && i < |all| && all[i].mirrored && out == Filter(st, ids, [], all)
    ensures Clashes(out, all[i]) <==> exists j :: 0 <= j < |all| && InTheWay(all, out, i, j)
  {
    forall x ensures (x in out ==> x in all) && (x in all && !x.mirrored ==> x in out) {
      FilterWithin(st, ids, [], all, x);
    }
    if Clashes(out, all[i]) {
      ClashIsInTheWay(all, out, i, all[i]);
    }
    if j :| 0 <= j < |all| && InTheWay(all, out, i, j) {
      InTheWayClashes(all, out, i, j);
    }
  }

  /** The filter keeps exactly the mirrored routes that survive. */
  lemma {:induction false} SurvivorsAreKept(st: State, ids: set<string>, all: seq<Route>, i: nat)
    requires NameOrder(all) && i < |all| && all[i].mirrored
    ensures all[i] in Filter(st, ids, [], all) <==> Survives(st, ids, all, i)
    decreases i
  {
    var out := Filter(st, ids, [], all);
    assert [] + all == all;
    MirrorKeptIff(st, ids, [], all, all[i]);
    ClashesIff(st, ids, all, out, i);
    forall j | 0 <= j < i && all[j].mirrored ensures all[j] in out <==> Survives(st, ids, all, j) {
      SurvivorsAreKept(st, ids, all, j);
    }
    SurvivesIff(st, ids, all, out, i);
  }

  lemma SurvivesIff(st: State, ids: set<string>, all: seq<Route>, out: seq<Route>, i: nat)
    requires i < |all| && all[i].mirrored
    requires forall j :: 0 <= j < i && all[j].mirrored ==> (all[j] in out <==> Survives(st, ids, all, j))
    ensures Survives(st, ids, all, i) <==> Clean(st, ids, all[i]) && forall j :: 0 <= j < |all| ==> !InTheWay(all, out, i, j)
  {
    if Survives(st, ids, all, i) {
      forall j | 0 <= j < |all| ensures !InTheWay(all, out, i, j) {
        assert j < i && all[j].mirrored && all[j] in out ==> Survives(st, ids, all, j);
      }
    }
    if Clean(st, ids, all[i]) && forall j :: 0 <= j < |all| ==> !InTheWay(all, out, i, j) {
      forall j | 0 <= j < |all| && !all[j].mirrored ensures !SharesHost(all[j], all[i]) {
        assert !InTheWay(all, out, i, j);
      }
      forall j | 0 <= j < i && Survives(st, ids, all, j) ensures !SharesHost(all[j], all[i]) {
        assert all[j].mirrored && !InTheWay(all, out, i, j);
      }
    }
  }
}
