/** One node at a time: exactly when a step calls a node behind one that has not finished. */
module RolloutFront {
  import opened Prelude
  import opened Canary
  import opened Rollout
  import opened RolloutSteps
  import opened RolloutOrder
  import opened RolloutCanary

  /** Position `f` holds the first node of the order that has not succeeded. */
  predicate Front(c: Config, s: State, f: int)
    requires InRange(WorkOrder(c), |s.db.rows|)
  {
    && 0 <= f < |WorkOrder(c)| && !s.db.rows[WorkOrder(c)[f]].phase.Succeeded?
    && forall i :: 0 <= i < f ==> s.db.rows[WorkOrder(c)[i]].phase.Succeeded?
  }

  predicate AddressedBehind(c: Config, e: Env, f: int)
    requires 0 <= f
  {
    exists j :: f < j < |WorkOrder(c)| && WorkOrder(c)[j] in e.addressed
  }

  /** What a tick does before it goes past the node at the front: its opening, and the work on that node if it has an address. */
  function UpToFront(c: Config, s: State, e: Env, n: NodeId): (evs: seq<Event>)
    requires n < |s.db.rows|
  {
    Opening(s.db) + if n in e.addressed then NodeWork(c, n, s.db.rows[n], e) else []
  }

  /** Nobody has failed, the node at the front is passed over, a later one has an address, and the tick goes on past the front. */
  predicate OvertakesAt(c: Config, s: State, step: Step, f: int)
    requires InRange(WorkOrder(c), |s.db.rows|)
  {
    && Front(c, s, f) && Skippable(s.db.rows, step.env, WorkOrder(c)[f]) && AddressedBehind(c, step.env, f)
    && step.ran > |UpToFront(c, s, step.env, WorkOrder(c)[f])|
  }

  predicate Overtakes(c: Config, s: State, step: Step)
    requires ValidConfig(c, |s.db.rows|)
  {
    WorkOrderIsPermutation(c, |s.db.rows|);
    Listed(s.db.phase) && !AnyFailed(s.db.rows) && exists f :: 0 <= f < |WorkOrder(c)| && OvertakesAt(c, s, step, f)
  }

  // ---- the tick from the front on ------------------------------------------------------

  lemma {:induction false} WalkFrom(c: Config, rows: seq<Row>, order: seq<NodeId>, e: Env, f: nat)
    requires InRange(order, |rows|) && f <= |order| && forall i :: 0 <= i < f ==> rows[order[i]].phase.Succeeded?
    ensures Walk(c, rows, order, e) == Walk(c, rows, order[f..], e)
  {
    if f == 0 {
      assert order[0..] == order;
    } else {
      WalkFrom(c, rows, order[1..], e, f - 1);
      assert order[1..][f - 1..] == order[f..];
      assert NodeWork(c, order[0], rows[order[0]], e) == [];
    }
  }

  /** Past a node that is passed over, the tick is the walk over the nodes behind it. */
  lemma TickPastFront(c: Config, s: State, e: Env, f: nat)
    requires Inv(c, s, {}) && Listed(s.db.phase) && !AnyFailed(s.db.rows)
    requires Front(c, s, f) && Skippable(s.db.rows, e, WorkOrder(c)[f])
    ensures Tick(c, s.db, e) == UpToFront(c, s, e, WorkOrder(c)[f]) + Walk(c, s.db.rows, WorkOrder(c)[f + 1..], e)
  {
    var order, rows := WorkOrder(c), s.db.rows;
    var n := order[f];
    assert RowOk(s, n);
    assert Cancels(s.db, e) == [] && Apply(s.db, []) == s.db;
    assert !Settled(rows[n].phase);
    assert Opening(s.db) + [] == Opening(s.db);
    WalkFrom(c, rows, order, e, f);
    assert order[f..][0] == n && order[f..][1..] == order[f + 1..];
    if n in e.addressed {
      Assoc(Opening(s.db), NodeWork(c, n, rows[n], e), Walk(c, rows, order[f + 1..], e));
    }
  }

  /** Over fresh nodes the walk prepares the first one that has an address. */
  lemma {:induction false} WalkPrepares(c: Config, rows: seq<Row>, order: seq<NodeId>, e: Env, j: nat) returns (y: nat)
    requires InRange(order, |rows|) && j < |order| && order[j] in e.addressed
    requires forall i :: 0 <= i < |order| ==> rows[order[i]] == FRESH
    ensures y < |order| && Walk(c, rows, order, e) == PrepareWork(order[y], e)
  {
    if order[0] in e.addressed {
      y := 0;
    } else {
      y := WalkPrepares(c, rows, order[1..], e, j - 1);
      y := y + 1;
    }
  }

  lemma {:induction false} WalkCallsListed(c: Config, rows: seq<Row>, order: seq<NodeId>, e: Env, n: NodeId)
    requires InRange(order, |rows|) && Called(Walk(c, rows, order, e), n)
    ensures n in order
  {
    if order[0] !in e.addressed {
      WalkCallsListed(c, rows, order[1..], e, n);
    } else {
      var here := NodeWork(c, order[0], rows[order[0]], e);
      NodeWorkIsOwn(c, order[0], rows[order[0]], e);
      if !EndsTick(rows[order[0]].phase) {
        CalledConcat(here, Walk(c, rows, order[1..], e), n);
        if Called(Walk(c, rows, order[1..], e), n) {
          WalkCallsListed(c, rows, order[1..], e, n);
        }
      }
    }
  }

  /** Nodes behind an unfinished one are untouched as long as the order holds. */
  lemma FreshBehind(c: Config, s: State, f: nat, j: nat)
    requires Inv(c, s, {}) && !AnyFailed(s.db.rows) && Front(c, s, f) && f < j < |WorkOrder(c)|
    ensures s.db.rows[WorkOrder(c)[j]] == FRESH && !Called(s.log, WorkOrder(c)[j])
  {
    assert RowOk(s, WorkOrder(c)[j]);
    assert !Done(s, {}, WorkOrder(c)[f]);
  }

  lemma FrontCallsNobodyElse(c: Config, s: State, e: Env, n: NodeId, x: NodeId)
    requires n < |s.db.rows| && x != n
    ensures !Called(UpToFront(c, s, e, n), x)
  {
    NodeWorkIsOwn(c, n, s.db.rows[n], e);
  }

  // ---- one step ----------------------------------------------------------------------

  lemma {:induction false} FirstUnfinished(c: Config, s: State, i: nat) returns (f: nat)
    requires InRange(WorkOrder(c), |s.db.rows|) && i < |WorkOrder(c)| && !s.db.rows[WorkOrder(c)[i]].phase.Succeeded?
    ensures f <= i && Front(c, s, f)
    decreases i
  {
    if j: nat :| j < i && !s.db.rows[WorkOrder(c)[j]].phase.Succeeded? {
      f := FirstUnfinished(c, s, j);
    } else {
      f := i;
    }
  }

  /** A step that calls a node behind an unfinished one overtakes it. */
  lemma CallOvertakes(c: Config, s: State, step: Step, i: nat, j: nat)
    requires Inv(c, s, {}) && i < j < |WorkOrder(c)| && !s.db.rows[WorkOrder(c)[i]].phase.Succeeded?
    requires !Called(s.log, WorkOrder(c)[j]) && Called(Exec(c, s, step).log, WorkOrder(c)[j])
    ensures Overtakes(c, s, step)
  {
    var order, rows, e := WorkOrder(c), s.db.rows, step.env;
    var f := FirstUnfinished(c, s, i);
    var n, y := order[f], order[j];
    assert RowOk(s, y) && RowOk(s, n);
    FirstCall(c, s, step, y);
    ReachedIff(rows, order, e, j);
    assert Passes(rows, e, n) && y in e.addressed;
    TickPastFront(c, s, e, f);
    CalledConcat(s.log, Performed(c, s.db, step), y);
    FrontCallsNobodyElse(c, s, e, n, y);
    CalledInPart(UpToFront(c, s, e, n), Walk(c, rows, order[f + 1..], e), step.ran, y);
    assert OvertakesAt(c, s, step, f);
  }

  lemma CalledInPart(xs: seq<Event>, ys: seq<Event>, ran: nat, n: NodeId)
    requires !Called(xs, n) && Called((xs + ys)[..Min(ran, |xs + ys|)], n)
    ensures ran > |xs|
  {
    var part := (xs + ys)[..Min(ran, |xs + ys|)];
    var k :| 0 <= k < |part| && part[k].Call? && part[k].node == n;
    if k < |xs| {
      assert xs[k] == part[k];
    }
  }

  /** Past the front, the tick prepares one of the nodes behind it. */
  lemma TickPrepares(c: Config, s: State, e: Env, f: nat) returns (j: nat)
    requires Inv(c, s, {}) && Listed(s.db.phase) && !AnyFailed(s.db.rows) && Front(c, s, f)
    requires Skippable(s.db.rows, e, WorkOrder(c)[f]) && AddressedBehind(c, e, f)
    ensures f < j < |WorkOrder(c)| && Tick(c, s.db, e) == UpToFront(c, s, e, WorkOrder(c)[f]) + PrepareWork(WorkOrder(c)[j], e)
  {
    var order, rest := WorkOrder(c), WorkOrder(c)[f + 1..];
    forall i | 0 <= i < |rest| ensures s.db.rows[rest[i]] == FRESH {
      FreshBehind(c, s, f, f + 1 + i);
    }
    var k :| f < k < |order| && order[k] in e.addressed;
    assert rest[k - f - 1] == order[k];
    var y := WalkPrepares(c, s.db.rows, rest, e, k - f - 1);
    TickPastFront(c, s, e, f);
    j := f + 1 + y;
    assert order[j] == rest[y];
  }

  /** A step that overtakes calls a node behind the front. */
  lemma OvertakingCalls(c: Config, s: State, step: Step, f: nat) returns (j: nat)
    requires Inv(c, s, {}) && Listed(s.db.phase) && !AnyFailed(s.db.rows) && f < |WorkOrder(c)| && OvertakesAt(c, s, step, f)
    ensures f < j < |WorkOrder(c)| && Called(Performed(c, s.db, step), WorkOrder(c)[j]) && Called(Exec(c, s, step).log, WorkOrder(c)[j])
  {
    j := TickPrepares(c, s, step.env, f);
    var n := WorkOrder(c)[j];
    CalledPast(UpToFront(c, s, step.env, WorkOrder(c)[f]), PrepareWork(n, step.env), step.ran, n);
    CalledConcat(s.log, Performed(c, s.db, step), n);
  }

  lemma CalledPast(xs: seq<Event>, ys: seq<Event>, ran: nat, n: NodeId)
    requires ran > |xs| && ys != [] && ys[0].Call? && ys[0].node == n
    ensures Called((xs + ys)[..Min(ran, |xs + ys|)], n)
  {
    var part := (xs + ys)[..Min(ran, |xs + ys|)];
    assert part[|xs|] == ys[0];
  }

  lemma SkippedStaysUnfinished(c: Config, s: State, step: Step, n: NodeId)
    requires Inv(c, s, {}) && n < |s.db.rows| && !AnyFailed(s.db.rows) && Skippable(s.db.rows, step.env, n)
    ensures !Exec(c, s, step).db.rows[n].phase.Succeeded?
  {
    var more := NodePart(c, s, step, n);
    assert RowOk(s, n);
    StepStory(c, s, step, n);
    PartOfTick(c, s.db, step.env, n, more);
    if more != [] {
      assert Current(s.db, step.env) == s.db.rows;
      ReachedIsAddressed(s.db.rows, WorkOrder(c), step.env, n);
      PartFollows(c, n, s.db.rows[n], step.env, more);
    }
  }

  /** A step keeps the order, nobody called behind an unfinished node, exactly when it does not overtake. */
  lemma StepLedIff(c: Config, s: State, step: Step)
    requires Inv(c, s, {})
    ensures Led(WorkOrder(c), Exec(c, s, step), {}) <==> !Overtakes(c, s, step)
  {
    var order, s' := WorkOrder(c), Exec(c, s, step);
    if Overtakes(c, s, step) {
      var f :| 0 <= f < |order| && OvertakesAt(c, s, step, f);
      var j := OvertakingCalls(c, s, step, f);
      SkippedStaysUnfinished(c, s, step, order[f]);
      assert !Done(s', {}, order[f]);
    } else {
      forall i, j | 0 <= i < j < |order| && Called(s'.log, order[j]) ensures Done(s', {}, order[i]) {
        if s.db.rows[order[i]].phase.Succeeded? {
          SettledStays(c, s, step, order[i]);
        } else {
          assert !Called(s.log, order[j]) by {
            assert Called(s.log, order[j]) ==> Done(s, {}, order[i]);
          }
          CallOvertakes(c, s, step, i, j);
        }
      }
    }
  }

  /** A complete tick calls a node behind the front exactly when the front has no address or waits for its generation report, and a later node has an address. */
  lemma OvertakenIff(c: Config, s: State, e: Env, f: nat)
    requires Inv(c, s, {}) && Listed(s.db.phase) && !AnyFailed(s.db.rows) && Front(c, s, f)
    ensures (exists j :: f < j < |WorkOrder(c)| && Called(Tick(c, s.db, e), WorkOrder(c)[j]))
       <==> Skippable(s.db.rows, e, WorkOrder(c)[f]) && AddressedBehind(c, e, f)
  {
    var order, step := WorkOrder(c), Step(e, |Tick(c, s.db, e)|);
    assert Performed(c, s.db, step) == Tick(c, s.db, e);
    if j :| f < j < |order| && Called(Tick(c, s.db, e), order[j]) {
      FreshBehind(c, s, f, j);
      CalledConcat(s.log, Performed(c, s.db, step), order[j]);
      CallOvertakes(c, s, step, f, j);
      var g :| 0 <= g < |order| && OvertakesAt(c, s, step, g);
      assert g == f;
    }
    if Skippable(s.db.rows, e, order[f]) && AddressedBehind(c, e, f) {
      WholeGoesOn(c, s, e, f);
      var j := OvertakingCalls(c, s, step, f);
    }
  }

  lemma WholeGoesOn(c: Config, s: State, e: Env, f: nat)
    requires Inv(c, s, {}) && Listed(s.db.phase) && !AnyFailed(s.db.rows) && Front(c, s, f)
    requires Skippable(s.db.rows, e, WorkOrder(c)[f]) && AddressedBehind(c, e, f)
    ensures OvertakesAt(c, s, Step(e, |Tick(c, s.db, e)|), f)
  {
    var j := TickPrepares(c, s, e, f);
  }

  // ---- whole runs -----------------------------------------------------------------------

  /** In every state of the run the nodes before the last one called have succeeded and those behind it are untouched. */
  ghost predicate OneAtATime(c: Config, s: State, steps: seq<Step>)
    requires ValidConfig(c, |s.db.rows|)
    decreases steps
  {
    WorkOrderIsPermutation(c, |s.db.rows|);
    HasFrontier(WorkOrder(c), s, {}) && (steps != [] ==> OneAtATime(c, Exec(c, s, steps[0]), steps[1..]))
  }

  predicate NeverOvertakes(c: Config, s: State, steps: seq<Step>)
    requires ValidConfig(c, |s.db.rows|)
    decreases steps
  {
    steps != [] ==> !Overtakes(c, s, steps[0]) && NeverOvertakes(c, Exec(c, s, steps[0]), steps[1..])
  }

  /** Apart from the order itself, every step keeps the invariant. */
  lemma StepKeepsRest(c: Config, s: State, step: Step)
    requires Inv(c, s, {})
    ensures Led(WorkOrder(c), Exec(c, s, step), {}) <==> Inv(c, Exec(c, s, step), {})
  {
    StepKeepsInv(c, s, step, {});
  }

  lemma FrontierIsLed(c: Config, s: State)
    requires InRange(WorkOrder(c), |s.db.rows|) && HasFrontier(WorkOrder(c), s, {})
    ensures Led(WorkOrder(c), s, {})
  {
    var order := WorkOrder(c);
    var f :| 0 <= f < |order| && Frontier(order, s, {}, f);
    forall j | f < j < |order| ensures !Called(s.log, order[j]) {
      assert Untouched(s, order[j]);
    }
  }

  lemma {:induction false} OneAtATimeFrom(c: Config, s: State, steps: seq<Step>)
    requires Inv(c, s, {}) && s.db.rows != []
    ensures OneAtATime(c, s, steps) <==> NeverOvertakes(c, s, steps)
    decreases steps
  {
    var f := FrontierExists(c, s, {});
    if steps != [] {
      var s' := Exec(c, s, steps[0]);
      StepLedIff(c, s, steps[0]);
      StepKeepsRest(c, s, steps[0]);
      if Overtakes(c, s, steps[0]) {
        if HasFrontier(WorkOrder(c), s', {}) {
          FrontierIsLed(c, s');
        }
      } else {
        OneAtATimeFrom(c, s', steps[1..]);
      }
    }
  }

  /** Every run works on one node at a time exactly when no step overtakes the node at its front. */
  lemma OneAtATimeIff(c: Config, count: nat, steps: seq<Step>)
    requires ValidConfig(c, count) && count > 0
    ensures OneAtATime(c, Start(count), steps) <==> NeverOvertakes(c, Start(count), steps)
  {
    StartHasInv(c, count);
    OneAtATimeFrom(c, Start(count), steps);
  }

  lemma {:induction false} SkippedIffFrom(c: Config, s: State, steps: seq<Step>)
    requires Inv(c, s, {})
    ensures Skipped(c, s, steps) == {} <==> NeverOvertakes(c, s, steps)
    decreases steps
  {
    if steps != [] {
      PassedOverIff(c, s, steps[0]);
      if !Overtakes(c, s, steps[0]) {
        StepLedIff(c, s, steps[0]);
        StepKeepsRest(c, s, steps[0]);
        SkippedIffFrom(c, Exec(c, s, steps[0]), steps[1..]);
      }
    }
  }

  lemma PassedOverIff(c: Config, s: State, step: Step)
    requires Inv(c, s, {})
    ensures PassedOver(c, s, step) == {} <==> !Overtakes(c, s, step)
  {
    var order := WorkOrder(c);
    if Overtakes(c, s, step) {
      var f :| 0 <= f < |order| && OvertakesAt(c, s, step, f);
      var j := OvertakingCalls(c, s, step, f);
      FreshBehind(c, s, f, j);
      assert CallsBehind(c, s, step, f);
      assert order[f] in PassedOver(c, s, step);
    }
    if n :| n in PassedOver(c, s, step) {
      var i :| 0 <= i < |order| && Skippable(s.db.rows, step.env, order[i]) && CallsBehind(c, s, step, i) && order[i] == n;
      var j :| i < j < |order| && !Called(s.log, order[j]) && Called(Performed(c, s.db, step), order[j]);
      CalledConcat(s.log, Performed(c, s.db, step), order[j]);
      CallOvertakes(c, s, step, i, j);
    }
  }

  /** The run skips nobody exactly when no step overtakes. */
  lemma SkippedNobodyIff(c: Config, count: nat, steps: seq<Step>)
    requires ValidConfig(c, count)
    ensures Skipped(c, Start(count), steps) == {} <==> NeverOvertakes(c, Start(count), steps)
  {
    StartHasInv(c, count);
    SkippedIffFrom(c, Start(count), steps);
  }

  // ---- nodes that can always be worked on --------------------------------------------------

  predicate Equipped(count: nat, e: Env) {
    forall n: NodeId :: 0 <= n < count ==> n in e.addressed && n in e.generational
  }

  lemma {:induction false} EquippedFrom(c: Config, s: State, steps: seq<Step>)
    requires ValidConfig(c, |s.db.rows|)
    requires forall n :: 0 <= n < |s.db.rows| ==> !s.db.rows[n].phase.Bootstrapping?
    requires forall i :: 0 <= i < |steps| ==> Equipped(|s.db.rows|, steps[i].env)
    ensures NeverOvertakes(c, s, steps)
    decreases steps
  {
    if steps != [] {
      var s' := Exec(c, s, steps[0]);
      WorkOrderIsPermutation(c, |s.db.rows|);
      assert Equipped(|s.db.rows|, steps[0].env);
      forall n | 0 <= n < |s.db.rows| ensures !s'.db.rows[n].phase.Bootstrapping? {
        NeverBootstraps(c, s, steps[0], n);
      }
      EquippedFrom(c, s', steps[1..]);
    }
  }

  /** Where every node has an address and reports its generation in every step, one node is worked on at a time. */
  lemma EquippedRunsAreInOrder(c: Config, count: nat, steps: seq<Step>)
    requires ValidConfig(c, count) && count > 0
    requires forall i :: 0 <= i < |steps| ==> Equipped(count, steps[i].env)
    ensures OneAtATime(c, Start(count), steps) && Skipped(c, Start(count), steps) == {}
  {
    EquippedFrom(c, Start(count), steps);
    OneAtATimeIff(c, count, steps);
    SkippedNobodyIff(c, count, steps);
  }
}
