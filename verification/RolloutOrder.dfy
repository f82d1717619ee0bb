/**
 The order of whole rollouts, for every run of ticks that may each stop after any
 of their calls and writes, in any surroundings.
 */
module RolloutOrder {
  import opened Prelude
  import opened Canary
  import opened Rollout
  import opened RolloutSteps

  // ---- what a step can do to one row -------------------------------------------

  /** The phases an update without operator commands goes through. */
  predicate Regular(p: Phase) {
    !p.RollingBack? && !p.Unheard?
  }

  predicate HasCall(evs: seq<Event>) {
    exists i :: 0 <= i < |evs| && evs[i].Call?
  }

  /** A settled row stays as it is; another stays regular, and is cancelled only when the update gives up. */
  lemma {:induction false} PartEffect(c: Config, db: Db, e: Env, n: NodeId, more: seq<Event>)
    requires ValidConfig(c, |db.rows|) && n < |db.rows| && Regular(db.rows[n].phase)
    requires more <= NodeTick(c, db, e, n)
    ensures var row, row' := db.rows[n], RowAfter(db.rows[n], more);
            && Regular(row'.phase)
            && (Settled(row.phase) ==> row' == row && more == [])
            && (row'.phase.Cancelled? ==> row.phase.Cancelled? || (GivingUp(db) && NotStarted(row.phase)))
            && (row == FRESH && !HasCall(more) ==> row' == row || row'.phase.Cancelled?)
            && (HasCall(more) ==> !(GivingUp(db) && NotStarted(row.phase)))
  {
    PartOfTick(c, db, e, n, more);
    var row := db.rows[n];
    if more != [] {
      if GivenUp(db, n) {
        assert more[1..] == [];
      } else {
        WorkEffect(c, n, row, e, more);
      }
    }
  }

  lemma {:induction false} WorkEffect(c: Config, n: NodeId, row: Row, e: Env, more: seq<Event>)
    requires Regular(row.phase) && more <= NodeWork(c, n, row, e) && more != []
    ensures var row' := RowAfter(row, more);
            && Regular(row'.phase) && !Settled(row.phase) && !row'.phase.Cancelled?
            && (row == FRESH ==> HasCall(more))
  {
    PartFollows(c, n, row, e, more);
    assert more[0] == NodeWork(c, n, row, e)[0];
    if row == FRESH {
      assert more[0] == Call(Prepare, n);
    }
  }

  // ---- the phase of the update ---------------------------------------------------

  predicate NoPatch(evs: seq<Event>) {
    forall i :: 0 <= i < |evs| ==> !evs[i].Patch?
  }

  lemma {:induction false} PhaseStays(db: Db, evs: seq<Event>)
    requires NoPatch(evs)
    ensures Apply(db, evs).phase == db.phase
    decreases evs
  {
    if evs != [] {
      PhaseStays(ApplyEvent(db, evs[0]), evs[1..]);
    }
  }

  lemma {:induction false} CancelsHaveNoPatch(rows: seq<Row>, from: nat, e: Env)
    ensures NoPatch(CancelUnstarted(rows, from, e))
    decreases |rows| - from
  {
    if from < |rows| {
      CancelsHaveNoPatch(rows, from + 1, e);
    }
  }

  lemma {:induction false} WalkHasNoPatch(c: Config, rows: seq<Row>, order: seq<NodeId>, e: Env)
    requires forall i :: 0 <= i < |order| ==> order[i] < |rows|
    ensures NoPatch(Walk(c, rows, order, e))
  {
    if order != [] {
      WalkHasNoPatch(c, rows, order[1..], e);
      NodeWorkIsOwn(c, order[0], rows[order[0]], e);
    }
  }

  lemma {:induction false} PartOfThree<T>(a: seq<T>, b: seq<T>, t: seq<T>, k: nat)
    requires k <= |a + b + t|
    ensures k <= |a| ==> (a + b + t)[..k] == a[..k]
    ensures |a| <= k <= |a| + |b| ==> (a + b + t)[..k] == a + b[..k - |a|]
    ensures k >= |a| + |b| ==> (a + b + t)[..k] == a + b + t[..k - |a| - |b|]
  {
  }

  /** A step keeps the update's phase, opens it, or finishes it with the outcome of settled rows. */
  lemma {:induction false} StepPhase(c: Config, s: State, step: Step)
    requires ValidConfig(c, |s.db.rows|)
    ensures var p', rows' := Exec(c, s, step).db.phase, Exec(c, s, step).db.rows;
            || p' == s.db.phase
            || (s.db.phase.Ready? && p' == RollingOut)
            || (Listed(s.db.phase) && p' == Finished(FinalOutcome(rows')) && AllSettled(rows') && rows' != [])
  {
    if Listed(s.db.phase) && |s.db.rows| > 0 {
      WorkOrderIsPermutation(c, |s.db.rows|);
      var db, e := s.db, step.env;
      var rows := Current(db, e);
      var opening, cancels := Opening(db), Cancels(db, e);
      var tail := if AllSettled(rows) then [Patch(Finished(FinalOutcome(rows)))] else Walk(c, rows, WorkOrder(c), e);
      var k := Min(step.ran, |opening + cancels + tail|);
      PartOfThree(opening, cancels, tail, k);
      CancelsHaveNoPatch(db.rows, 0, e);
      var begun := Apply(db, opening);
      assert begun == db || begun == db.(phase := RollingOut) by {
        assert [Patch(RollingOut)][1..] == [];
      }
      if k < |opening| {
        assert opening[..k] == [];
      } else if k <= |opening| + |cancels| {
        assert k == |opening| ==> opening[..k] == opening && opening + cancels[..0] == opening;
        ApplyConcat(db, opening, cancels[..k - |opening|]);
        PhaseStays(begun, cancels[..k - |opening|]);
      } else {
        TailPhase(c, db, e, opening, cancels, tail, k - |opening| - |cancels|);
      }
    }
  }

  lemma {:induction false} TailPhase(c: Config, db: Db, e: Env, opening: seq<Event>, cancels: seq<Event>, tail: seq<Event>, k: nat)
    requires ValidConfig(c, |db.rows|) && |db.rows| > 0 && Covers(WorkOrder(c), |db.rows|)
    requires opening == Opening(db) && cancels == Cancels(db, e) && 0 < k <= |tail|
    requires var rows := Current(db, e);
             tail == if AllSettled(rows) then [Patch(Finished(FinalOutcome(rows)))] else Walk(c, rows, WorkOrder(c), e)
    ensures var db' := Apply(db, opening + cancels + tail[..k]);
            || db'.phase == db.phase
            || (db.phase.Ready? && db'.phase == RollingOut)
            || (db'.phase == Finished(FinalOutcome(db'.rows)) && AllSettled(db'.rows))
  {
    var rows := Current(db, e);
    var mid := Apply(db, opening + cancels);
    ApplyConcat(db, opening + cancels, tail[..k]);
    ApplyConcat(db, opening, cancels);
    CancelsHaveNoPatch(db.rows, 0, e);
    PhaseStays(Apply(db, opening), cancels);
    assert [Patch(RollingOut)][1..] == [];
    assert mid.phase == db.phase || (db.phase.Ready? && mid.phase == RollingOut);
    if AllSettled(rows) {
      assert tail[..k] == tail && tail[1..] == [];
      OpeningLeavesRows(db, cancels);
      assert Apply(mid, tail) == mid.(phase := Finished(FinalOutcome(rows)));
    } else {
      WalkHasNoPatch(c, rows, WorkOrder(c), e);
      PhaseStays(mid, tail[..k]);
    }
  }

  lemma {:induction false} OpeningLeavesRows(db: Db, cancels: seq<Event>)
    ensures Apply(db, Opening(db) + cancels).rows == Apply(db, cancels).rows
  {
    var evs := Opening(db) + cancels;
    forall n: NodeId | n < |db.rows|
      ensures Apply(db, evs).rows[n] == Apply(db, cancels).rows[n]
    {
      StoryConcat(Opening(db), cancels, n);
      StoryOfOthers(Opening(db), n);
      assert [] + Story(cancels, n) == Story(cancels, n);
      ApplyStory(db, evs, n);
      ApplyStory(db, cancels, n);
    }
  }

  // ---- the invariant -------------------------------------------------------------

  predicate Called(log: seq<Event>, n: NodeId) {
    exists j :: 0 <= j < |log| && log[j].Call? && log[j].node == n
  }

  lemma CalledConcat(xs: seq<Event>, ys: seq<Event>, n: NodeId)
    ensures Called(xs + ys, n) <==> Called(xs, n) || Called(ys, n)
  {
    var all := xs + ys;
    if j :| 0 <= j < |xs| && xs[j].Call? && xs[j].node == n {
      assert all[j] == xs[j];
    }
    if j :| 0 <= j < |ys| && ys[j].Call? && ys[j].node == n {
      assert all[|xs| + j] == ys[j];
    }
  }

  lemma CalledIffStory(evs: seq<Event>, n: NodeId)
    ensures Called(evs, n) <==> HasCall(Story(evs, n))
  {
    if j :| 0 <= j < |evs| && evs[j].Call? && evs[j].node == n {
      StoryMembers(evs, n, evs[j]);
    }
    var h := Story(evs, n);
    if j :| 0 <= j < |h| && h[j].Call? {
      StoryMembers(evs, n, h[j]);
    }
  }

  /** A node that the walk passes over unfinished: without an address, or waiting for its generation report. */
  predicate Skippable(rows: seq<Row>, e: Env, n: NodeId)
    requires n < |rows|
  {
    !rows[n].phase.Succeeded? && (n !in e.addressed || rows[n].phase.Bootstrapping?)
  }

  /** The step calls, for the first time, a node behind position `i` of the order. */
  predicate CallsBehind(c: Config, s: State, step: Step, i: nat)
    requires ValidConfig(c, |s.db.rows|) && i < |WorkOrder(c)|
  {
    exists j :: i < j < |WorkOrder(c)| && !Called(s.log, WorkOrder(c)[j]) && Called(Performed(c, s.db, step), WorkOrder(c)[j])
  }

  /** The nodes a step passes over unfinished and then calls a later node for the first time. */
  function PassedOver(c: Config, s: State, step: Step): (k: set<NodeId>)
    requires ValidConfig(c, |s.db.rows|)
  {
    WorkOrderIsPermutation(c, |s.db.rows|);
    set i | 0 <= i < |WorkOrder(c)| && Skippable(s.db.rows, step.env, WorkOrder(c)[i]) && CallsBehind(c, s, step, i) :: WorkOrder(c)[i]
  }

  /** The nodes that some step of the run passed over so. */
  function Skipped(c: Config, s: State, steps: seq<Step>): (k: set<NodeId>)
    requires ValidConfig(c, |s.db.rows|)
    decreases steps
  {
    if steps == [] then {} else PassedOver(c, s, steps[0]) + Skipped(c, Exec(c, s, steps[0]), steps[1..])
  }

  ghost predicate RowOk(s: State, n: NodeId)
    requires n < |s.db.rows|
  {
    var row := s.db.rows[n];
    && Regular(row.phase)
    && (row.phase.Cancelled? ==> AnyFailed(s.db.rows))
    && (!Called(s.log, n) ==> row == FRESH || row.phase.Cancelled?)
  }

  predicate Done(s: State, k: set<NodeId>, n: NodeId)
    requires n < |s.db.rows|
  {
    s.db.rows[n].phase.Succeeded? || n in k
  }

  /** Nodes before a called one have succeeded or were passed over. */
  predicate Led(order: seq<NodeId>, s: State, k: set<NodeId>)
    requires InRange(order, |s.db.rows|)
  {
    forall i, j :: 0 <= i < j < |order| && Called(s.log, order[j]) ==> Done(s, k, order[i])
  }

  /** What a finished update says about its rows. */
  predicate HonestPhase(db: Db) {
    match db.phase
    case Finished(AllSucceeded) => forall n :: 0 <= n < |db.rows| ==> db.rows[n].phase.Succeeded?
    case Finished(SomeFailed) => AnyFailed(db.rows) && AllSettled(db.rows)
    case Finished(AllCancelled) => false
    case Reverting => false
    case _ => true
  }

  ghost predicate Inv(c: Config, s: State, k: set<NodeId>) {
    && ValidConfig(c, |s.db.rows|) && Covers(WorkOrder(c), |s.db.rows|)
    && (forall n :: 0 <= n < |s.db.rows| ==> RowOk(s, n))
    && Led(WorkOrder(c), s, k)
    && HonestPhase(s.db)
  }

  lemma StartHasInv(c: Config, count: nat)
    requires ValidConfig(c, count)
    ensures Inv(c, Start(count), {})
  {
    WorkOrderIsPermutation(c, count);
  }

  /** Settled rows stay, so a failure stays on record. */
  lemma SettledStays(c: Config, s: State, step: Step, n: NodeId)
    requires ValidConfig(c, |s.db.rows|) && n < |s.db.rows| && Settled(s.db.rows[n].phase)
    ensures Exec(c, s, step).db.rows[n] == s.db.rows[n]
  {
    StepStory(c, s, step, n);
    PartEffect(c, s.db, step.env, n, NodePart(c, s, step, n));
  }

  lemma FailureStays(c: Config, s: State, step: Step)
    requires ValidConfig(c, |s.db.rows|) && AnyFailed(s.db.rows)
    ensures AnyFailed(Exec(c, s, step).db.rows)
  {
    var f :| 0 <= f < |s.db.rows| && s.db.rows[f].phase.Failed?;
    SettledStays(c, s, step, f);
  }

  lemma StepRowOk(c: Config, s: State, step: Step, n: NodeId)
    requires ValidConfig(c, |s.db.rows|) && n < |s.db.rows| && RowOk(s, n)
    ensures RowOk(Exec(c, s, step), n)
  {
    var more := NodePart(c, s, step, n);
    StepStory(c, s, step, n);
    PartEffect(c, s.db, step.env, n, more);
    CalledConcat(s.log, Performed(c, s.db, step), n);
    CalledIffStory(Performed(c, s.db, step), n);
    if AnyFailed(s.db.rows) {
      FailureStays(c, s, step);
    }
  }

  /** A node called for the first time in a step was reached with nobody failed. */
  lemma FirstCall(c: Config, s: State, step: Step, n: NodeId)
    requires ValidConfig(c, |s.db.rows|) && n < |s.db.rows| && RowOk(s, n) && !s.db.phase.Reverting?
    requires Called(Exec(c, s, step).log, n) && !Called(s.log, n)
    ensures Listed(s.db.phase) && !AnyFailed(s.db.rows) && Covers(WorkOrder(c), |s.db.rows|)
    ensures Reached(s.db.rows, WorkOrder(c), step.env, n)
  {
    var more := NodePart(c, s, step, n);
    StepStory(c, s, step, n);
    CalledConcat(s.log, Performed(c, s.db, step), n);
    CalledIffStory(Performed(c, s.db, step), n);
    PartOfTick(c, s.db, step.env, n, more);
    PartEffect(c, s.db, step.env, n, more);
    assert Current(s.db, step.env) == s.db.rows || AnyFailed(s.db.rows);
  }

  lemma StepLed(c: Config, s: State, step: Step, k: set<NodeId>, i: nat, j: nat)
    requires Inv(c, s, k) && i < j < |WorkOrder(c)| && Called(Exec(c, s, step).log, WorkOrder(c)[j])
    ensures Done(Exec(c, s, step), k + PassedOver(c, s, step), WorkOrder(c)[i])
  {
    var order := WorkOrder(c);
    var x, y := order[i], order[j];
    assert RowOk(s, x) && RowOk(s, y);
    if Called(s.log, y) {
      assert Done(s, k, x);
    } else {
      FirstCall(c, s, step, y);
      ReachedIff(s.db.rows, order, step.env, j);
      assert Passes(s.db.rows, step.env, x);
      CalledConcat(s.log, Performed(c, s.db, step), y);
      assert CallsBehind(c, s, step, i);
    }
    if s.db.rows[x].phase.Succeeded? {
      SettledStays(c, s, step, x);
    }
  }

  lemma StepHonest(c: Config, s: State, step: Step)
    requires ValidConfig(c, |s.db.rows|) && HonestPhase(s.db)
    requires forall n :: 0 <= n < |s.db.rows| ==> RowOk(Exec(c, s, step), n)
    ensures HonestPhase(Exec(c, s, step).db)
  {
    var s' := Exec(c, s, step);
    if !Listed(s.db.phase) {
      assert Performed(c, s.db, step) == [] && s'.db == s.db;
    } else {
      StepPhase(c, s, step);
      if s'.db.phase.Finished? {
        FinalIsHonest(s');
      }
    }
  }

  lemma FinalIsHonest(s: State)
    requires forall n :: 0 <= n < |s.db.rows| ==> RowOk(s, n)
    requires s.db.rows != [] && AllSettled(s.db.rows) && s.db.phase == Finished(FinalOutcome(s.db.rows))
    ensures HonestPhase(s.db)
  {
    forall n | 0 <= n < |s.db.rows|
      ensures AnyFailed(s.db.rows) || s.db.rows[n].phase.Succeeded?
    {
      assert RowOk(s, n) && Settled(s.db.rows[n].phase);
    }
    assert AnyFailed(s.db.rows) || s.db.rows[0].phase.Succeeded?;
  }

  lemma StepKeepsInv(c: Config, s: State, step: Step, k: set<NodeId>)
    requires Inv(c, s, k)
    ensures Inv(c, Exec(c, s, step), k + PassedOver(c, s, step))
  {
    var s', order := Exec(c, s, step), WorkOrder(c);
    forall n | 0 <= n < |s.db.rows|
      ensures RowOk(s', n)
    {
      StepRowOk(c, s, step, n);
    }
    StepHonest(c, s, step);
    forall i, j | 0 <= i < j < |order| && Called(s'.log, order[j])
      ensures Done(s', k + PassedOver(c, s, step), order[i])
    {
      StepLed(c, s, step, k, i, j);
    }
  }

  /** The invariant holds after every run, whatever the surroundings and wherever its steps are cut. */
  lemma {:induction false} RunKeepsInv(c: Config, s: State, steps: seq<Step>, k: set<NodeId>)
    requires Inv(c, s, k)
    ensures Inv(c, Run(c, s, steps), k + Skipped(c, s, steps))
    decreases steps
  {
    if steps == [] {
      assert k + {} == k;
    } else {
      var k', s' := k + PassedOver(c, s, steps[0]), Exec(c, s, steps[0]);
      StepKeepsInv(c, s, steps[0], k);
      RunKeepsInv(c, s', steps[1..], k');
      assert k' + Skipped(c, s', steps[1..]) == k + Skipped(c, s, steps);
    }
  }

  // ---- order and outcome ----------------------------------------------------------

  /** `f` is the last node called: the others wait uncalled, or are cancelled because something failed. */
  ghost predicate Frontier(order: seq<NodeId>, s: State, k: set<NodeId>, f: int)
    requires InRange(order, |s.db.rows|)
  {
    && 0 <= f <= |order|
    && (forall i :: 0 <= i < f ==> Done(s, k, order[i]))
    && (forall i :: f < i < |order| ==> Untouched(s, order[i]))
  }

  /** Never called, and as at the start or cancelled because something failed. */
  ghost predicate Untouched(s: State, n: NodeId)
    requires n < |s.db.rows|
  {
    !Called(s.log, n) && (s.db.rows[n] == FRESH || (s.db.rows[n].phase.Cancelled? && AnyFailed(s.db.rows)))
  }

  ghost predicate HasFrontier(order: seq<NodeId>, s: State, k: set<NodeId>)
    requires InRange(order, |s.db.rows|)
  {
    exists f :: 0 <= f < |order| && Frontier(order, s, k, f)
  }

  lemma {:induction false} LastCalled(order: seq<NodeId>, log: seq<Event>, m: nat) returns (f: nat)
    requires m <= |order|
    ensures f <= m && (f < m ==> Called(log, order[f]))
    ensures forall i :: f < i < m ==> !Called(log, order[i])
    ensures f == m ==> forall i :: 0 <= i < m ==> !Called(log, order[i])
    decreases m
  {
    if m == 0 {
      f := 0;
    } else if Called(log, order[m - 1]) {
      f := m - 1;
    } else {
      f := LastCalled(order, log, m - 1);
      if f == m - 1 {
        f := m;
      }
    }
  }

  lemma FrontierExists(c: Config, s: State, k: set<NodeId>) returns (f: nat)
    requires Inv(c, s, k) && s.db.rows != []
    ensures f < |s.db.rows| && Frontier(WorkOrder(c), s, k, f)
  {
    var order := WorkOrder(c);
    f := LastCalled(order, s.log, |order|);
    if f == |order| {
      f := 0;
    }
    forall i | f < i < |order|
      ensures !Called(s.log, order[i]) && RowOk(s, order[i])
    {
    }
  }

  /**
   In every reachable state there is a last node called. Those before it have
   succeeded, or lacked an address or waited for their generation report in a step
   that called a later node for the first time; those after it were never called
   and are untouched, or cancelled because a node failed.
   */
  lemma EveryRunStaysInOrder(c: Config, count: nat, steps: seq<Step>)
    requires ValidConfig(c, count) && count > 0
    ensures Covers(WorkOrder(c), count)
    ensures HasFrontier(WorkOrder(c), Run(c, Start(count), steps), Skipped(c, Start(count), steps))
  {
    StartHasInv(c, count);
    RunKeepsInv(c, Start(count), steps, {});
    var s, k := Run(c, Start(count), steps), Skipped(c, Start(count), steps);
    assert {} + k == k;
    var f := FrontierExists(c, s, k);
  }

  /** The phases of the node in hand. */
  predicate InHand(p: Phase) {
    (EndsTick(p) && !p.RollingBack?) || p.Bootstrapping?
  }

  /** Succeeded nodes, at most one node in hand or failed, then pending nodes, cancelled only behind a failed one. */
  predicate InStrictOrder(order: seq<NodeId>, rows: seq<Row>, f: int)
    requires InRange(order, |rows|)
  {
    && 0 <= f <= |order|
    && (forall i :: 0 <= i < f ==> rows[order[i]].phase.Succeeded?)
    && (f < |order| ==> InHand(rows[order[f]].phase) || rows[order[f]].phase.Failed?)
    && (forall i :: f < i < |order| ==>
          rows[order[i]].phase.Pending? || (rows[order[i]].phase.Cancelled? && rows[order[f]].phase.Failed?))
  }

  /** With nobody skipped the order is strict: one node in hand at a time. */
  lemma UnskippedRunsAreStrict(c: Config, count: nat, steps: seq<Step>)
    requires ValidConfig(c, count) && count > 0 && Skipped(c, Start(count), steps) == {}
    ensures Covers(WorkOrder(c), count)
    ensures exists f :: InStrictOrder(WorkOrder(c), Run(c, Start(count), steps).db.rows, f)
  {
    var s, order := Run(c, Start(count), steps), WorkOrder(c);
    StartHasInv(c, count);
    RunKeepsInv(c, Start(count), steps, {});
    assert {} + Skipped(c, Start(count), steps) == {};
    var f := FrontierExists(c, s, {});
    StrictFrontier(c, s, f);
  }

  lemma StrictFrontier(c: Config, s: State, f: nat)
    requires Inv(c, s, {}) && f < |s.db.rows| && Frontier(WorkOrder(c), s, {}, f)
    ensures exists g :: InStrictOrder(WorkOrder(c), s.db.rows, g)
  {
    var order, rows := WorkOrder(c), s.db.rows;
    var x := order[f];
    assert RowOk(s, x);
    forall n | 0 <= n < |rows| && rows[n].phase.Failed?
      ensures n == x
    {
      InOrderAt(c, |rows|, n);
      var i :| 0 <= i < |order| && order[i] == n;
      assert i == f;
    }
    if rows[x].phase.Succeeded? {
      assert InStrictOrder(order, rows, f + 1) by {
        assert !AnyFailed(rows);
        if f + 1 < |order| {
          assert rows[order[f + 1]] == FRESH;
        }
      }
    } else {
      assert InStrictOrder(order, rows, f);
    }
  }

  lemma InOrderAt(c: Config, count: nat, n: NodeId)
    requires ValidConfig(c, count) && n < count
    ensures exists i :: 0 <= i < |WorkOrder(c)| && WorkOrder(c)[i] == n
  {
    WorkOrderIsPermutation(c, count);
    assert Lists(WorkOrder(c), n);
  }

  /**
   A finished update tells the truth, whatever happened. "succeeded" means every
   node succeeded; "failed" means every node is settled and one failed, and the
   nodes after the last one called were cancelled; "cancelled" cannot happen
   without an operator. With nobody skipped exactly one node failed.
   */
  lemma FinishedUpdatesAreHonest(c: Config, count: nat, steps: seq<Step>)
    requires ValidConfig(c, count) && Run(c, Start(count), steps).db.phase.Finished?
    ensures Covers(WorkOrder(c), count)
    ensures var s, order, k := Run(c, Start(count), steps), WorkOrder(c), Skipped(c, Start(count), steps);
            match s.db.phase.outcome
            case AllSucceeded => forall n :: 0 <= n < count ==> s.db.rows[n].phase.Succeeded?
            case AllCancelled => false
            case SomeFailed =>
              && AnyFailed(s.db.rows) && AllSettled(s.db.rows)
              && (exists f :: 0 <= f < count && Frontier(order, s, k, f)
                    && (forall i :: f < i < count ==> s.db.rows[order[i]].phase.Cancelled?)
                    && (k == {} ==> s.db.rows[order[f]].phase.Failed?))
  {
    var s, order, k := Run(c, Start(count), steps), WorkOrder(c), Skipped(c, Start(count), steps);
    StartHasInv(c, count);
    RunKeepsInv(c, Start(count), steps, {});
    assert {} + k == k;
    if s.db.phase.outcome.SomeFailed? {
      var f := FrontierExists(c, s, k);
      var n :| 0 <= n < count && s.db.rows[n].phase.Failed?;
      InOrderAt(c, count, n);
      var i :| 0 <= i < |order| && order[i] == n;
      assert k == {} ==> i == f;
      forall i | f < i < count
        ensures s.db.rows[order[i]].phase.Cancelled?
      {
        assert Settled(s.db.rows[order[i]].phase);
      }
    }
  }
}
