/** The canary of a rollout: nobody else is touched before it is released, exactly while it can be worked on. */
module RolloutCanary {
  import opened Prelude
  import opened Canary
  import opened Rollout
  import opened RolloutSteps
  import opened RolloutOrder

  // ---- release -------------------------------------------------------------------

  /** A verdict that lets the canary through. */
  predicate Passing(c: Config, ev: Event) {
    ev.Judged? && ev.verdict.Pass? && ev.at - ev.since >= SoakSecs(c.strategy)
  }

  /** In the canary's story, a passing verdict a full soak after its soaking row was written, and its promotion next. */
  predicate Released(c: Config, h: seq<Event>, k: int) {
    && 0 <= k && k + 1 < |h|
    && Passing(c, h[k])
    && h[k + 1].Write? && h[k + 1].row.phase.Succeeded?
    && exists i :: 0 <= i < k && h[i].Write? && h[i].row.phase.Soaking? && h[i].row.since == h[k].since
  }

  ghost predicate WasReleased(c: Config, h: seq<Event>) {
    exists k :: Released(c, h, k)
  }

  lemma ReleasedLater(c: Config, h: seq<Event>, more: seq<Event>)
    requires WasReleased(c, h)
    ensures WasReleased(c, h + more)
  {
    var k :| Released(c, h, k);
    var i :| 0 <= i < k && h[i].Write? && h[i].row.phase.Soaking? && h[i].row.since == h[k].since;
    var all := h + more;
    assert all[i] == h[i] && all[k] == h[k] && all[k + 1] == h[k + 1];
    assert Released(c, all, k);
  }

  /** Only a soaking canary is ever written as succeeded: by a passing verdict on that row, and at once. */
  lemma SucceedsBySoak(c: Config, n: NodeId, row: Row, e: Env, i: nat)
    requires CanaryOf(c) == Some(n) && i < |NodeWork(c, n, row, e)|
    requires var ev := NodeWork(c, n, row, e)[i]; ev.Write? && ev.row.phase.Succeeded?
    ensures var work := NodeWork(c, n, row, e);
            && row.phase.Soaking? && i == 1 && |work| == 2
            && Passing(c, work[0]) && work[0].since == row.since
  {
    match row.phase
    case Confirming => NoSuccessInConfirm(c, n, row, e);
    case RebootRequired => NoSuccessInReboot(c, n, row, e);
    case Rebooting => NoSuccessInReboot(c, n, row, e);
    case _ =>
  }

  predicate NoSuccess(evs: seq<Event>) {
    forall i :: 0 <= i < |evs| && evs[i].Write? ==> !evs[i].row.phase.Succeeded?
  }

  lemma NoSuccessInConfirm(c: Config, n: NodeId, row: Row, e: Env)
    requires CanaryOf(c) == Some(n) && row.phase.Confirming?
    ensures NoSuccess(ConfirmWork(c, n, row, e))
  {
    assert NoSuccess(Revert(n, Refreshed(row, e), e));
  }

  lemma NoSuccessInReboot(c: Config, n: NodeId, row: Row, e: Env)
    requires CanaryOf(c) == Some(n) && (row.phase.RebootRequired? || row.phase.Rebooting?)
    ensures NoSuccess(RebootWork(c, n, row, e))
  {
    assert NoSuccess(Revert(n, row, e));
    if e.status.Some? {
      assert NoSuccess(Revert(n, row.(target := e.status.value.target), e));
    }
  }

  /** What the canary's row says about its story. */
  ghost predicate Recorded(c: Config, n: NodeId, row: Row, h: seq<Event>) {
    (row == FRESH || Write(n, row) in h) && (row.phase.Succeeded? ==> WasReleased(c, h))
  }

  lemma PartKeepsRecord(c: Config, n: NodeId, row: Row, e: Env, h: seq<Event>, more: seq<Event>)
    requires CanaryOf(c) == Some(n) && Recorded(c, n, row, h) && more <= NodeWork(c, n, row, e)
    ensures Recorded(c, n, RowAfter(row, more), h + more)
  {
    var row', all := RowAfter(row, more), NodeWork(c, n, row, e);
    PartFollows(c, n, row, e, more);
    if row'.phase.Succeeded? {
      if row' == row {
        ReleasedLater(c, h, more);
      } else {
        var i :| 0 <= i < |more| && more[i] == Write(n, row');
        assert all[i] == more[i];
        SucceedsBySoak(c, n, row, e, i);
        assert more == all;
        var j :| 0 <= j < |h| && h[j] == Write(n, row);
        var log := h + more;
        assert log[j] == h[j] && log[|h|] == more[0] && log[|h| + 1] == more[1];
        assert Released(c, log, |h|);
      }
    }
  }

  lemma StepKeepsRecord(c: Config, s: State, step: Step, n: NodeId)
    requires ValidConfig(c, |s.db.rows|) && n < |s.db.rows| && CanaryOf(c) == Some(n)
    requires Recorded(c, n, s.db.rows[n], Story(s.log, n))
    ensures var s' := Exec(c, s, step); Recorded(c, n, s'.db.rows[n], Story(s'.log, n))
  {
    var more, h := NodePart(c, s, step, n), Story(s.log, n);
    StepStory(c, s, step, n);
    PartOfTick(c, s.db, step.env, n, more);
    if more == [] {
      assert h + [] == h;
    } else if GivenUp(s.db, n) {
      assert more[1..] == [] && more[0] in h + more;
    } else {
      PartKeepsRecord(c, n, s.db.rows[n], step.env, h, more);
    }
  }

  // ---- the lead -------------------------------------------------------------------

  /** The canary can be worked on, or is past needing it. */
  predicate Ready(c: Config, s: State, e: Env) {
    CanaryOf(c).Some? && CanaryOf(c).value < |s.db.rows| &&
    var row := s.db.rows[CanaryOf(c).value];
    row.phase.Succeeded? || row.phase.Failed? || (CanaryOf(c).value in e.addressed && !row.phase.Bootstrapping?)
  }

  /** At every step of the run, until its release or failure, the canary has an address and is not waiting for its generation report. */
  predicate AlwaysReady(c: Config, s: State, steps: seq<Step>)
    requires ValidConfig(c, |s.db.rows|)
    decreases steps
  {
    steps == [] || ((Listed(s.db.phase) ==> Ready(c, s, steps[0].env)) && AlwaysReady(c, Exec(c, s, steps[0]), steps[1..]))
  }

  /** Other nodes are called only after the canary's release. */
  ghost predicate Leads(c: Config, n: NodeId, log: seq<Event>) {
    forall j :: 0 <= j < |log| && log[j].Call? && log[j].node != n ==> WasReleased(c, Story(log[..j], n))
  }

  ghost predicate Alone(s: State, n: NodeId) {
    forall x :: 0 <= x < |s.db.rows| && x != n ==> !Called(s.log, x)
  }

  ghost predicate CanaryInv(c: Config, s: State) {
    && ValidConfig(c, |s.db.rows|) && Covers(WorkOrder(c), |s.db.rows|)
    && CanaryOf(c).Some? && CanaryOf(c).value < |s.db.rows| && WorkOrder(c)[0] == CanaryOf(c).value
    && (forall n :: 0 <= n < |s.db.rows| ==> RowOk(s, n))
    && !s.db.phase.Reverting?
    && var n := CanaryOf(c).value;
       && Recorded(c, n, s.db.rows[n], Story(s.log, n))
       && Leads(c, n, s.log)
       && (!s.db.rows[n].phase.Succeeded? ==> Alone(s, n))
  }

  /** While nobody else was called, only the canary can have failed. */
  lemma OnlyCanaryFails(c: Config, s: State)
    requires CanaryInv(c, s) && !s.db.rows[CanaryOf(c).value].phase.Succeeded?
    ensures AnyFailed(s.db.rows) <==> s.db.rows[CanaryOf(c).value].phase.Failed?
    ensures !s.db.rows[CanaryOf(c).value].phase.Cancelled?
    ensures !AnyFailed(s.db.rows) ==> forall x :: 0 <= x < |s.db.rows| && x != CanaryOf(c).value ==> s.db.rows[x] == FRESH
  {
    var n := CanaryOf(c).value;
    forall x | 0 <= x < |s.db.rows| && x != n
      ensures !s.db.rows[x].phase.Failed? && (!AnyFailed(s.db.rows) ==> s.db.rows[x] == FRESH)
    {
      assert RowOk(s, x);
    }
    assert RowOk(s, n);
  }

  /** A step that finds the canary unreleased but ready calls nobody else. */
  lemma ReadyCanaryKeepsOthers(c: Config, s: State, step: Step, x: NodeId)
    requires CanaryInv(c, s) && (Listed(s.db.phase) ==> Ready(c, s, step.env))
    requires !s.db.rows[CanaryOf(c).value].phase.Succeeded? && x < |s.db.rows| && x != CanaryOf(c).value
    ensures !Called(Performed(c, s.db, step), x)
  {
    assert RowOk(s, x) && RowOk(s, CanaryOf(c).value);
    if Called(Performed(c, s.db, step), x) {
      CalledConcat(s.log, Performed(c, s.db, step), x);
      FirstCall(c, s, step, x);
      OnlyCanaryFails(c, s);
      assert false;
    }
  }

  lemma StepLeads(c: Config, s: State, step: Step)
    requires CanaryInv(c, s)
    requires !s.db.rows[CanaryOf(c).value].phase.Succeeded? ==>
               forall x :: 0 <= x < |s.db.rows| && x != CanaryOf(c).value ==> !Called(Performed(c, s.db, step), x)
    ensures Leads(c, CanaryOf(c).value, Exec(c, s, step).log)
  {
    var n, evs := CanaryOf(c).value, Performed(c, s.db, step);
    var h := Story(s.log, n);
    forall i | 0 <= i < |evs| && evs[i].Call? && evs[i].node != n
      ensures WasReleased(c, h)
    {
      CallsAreInRange(c, s, step, i);
      assert Called(evs, evs[i].node);
    }
    MoreLeads(c, n, s.log, evs);
  }

  lemma MoreLeads(c: Config, n: NodeId, log: seq<Event>, evs: seq<Event>)
    requires Leads(c, n, log)
    requires forall i :: 0 <= i < |evs| && evs[i].Call? && evs[i].node != n ==> WasReleased(c, Story(log, n))
    ensures Leads(c, n, log + evs)
  {
    forall j | 0 <= j < |log + evs| && (log + evs)[j].Call? && (log + evs)[j].node != n
      ensures WasReleased(c, Story((log + evs)[..j], n))
    {
      if j < |log| {
        LedBefore(c, n, log, evs, j);
      } else {
        assert (log + evs)[j] == evs[j - |log|];
        assert (log + evs)[..j] == log + evs[..j - |log|];
        StaysReleased(c, n, log, evs[..j - |log|]);
      }
    }
  }

  lemma LedBefore(c: Config, n: NodeId, log: seq<Event>, evs: seq<Event>, j: nat)
    requires Leads(c, n, log) && j < |log| && log[j].Call? && log[j].node != n
    ensures WasReleased(c, Story((log + evs)[..j], n))
  {
    assert (log + evs)[..j] == log[..j];
  }

  lemma StaysReleased(c: Config, n: NodeId, log: seq<Event>, evs: seq<Event>)
    requires WasReleased(c, Story(log, n))
    ensures WasReleased(c, Story(log + evs, n))
  {
    StoryConcat(log, evs, n);
    ReleasedLater(c, Story(log, n), Story(evs, n));
  }

  /** Every call goes to a node of the rollout. */
  lemma {:induction false} WalkInRange(c: Config, rows: seq<Row>, order: seq<NodeId>, e: Env)
    requires InRange(order, |rows|)
    ensures forall i :: 0 <= i < |Walk(c, rows, order, e)| && Walk(c, rows, order, e)[i].Call? ==> Walk(c, rows, order, e)[i].node < |rows|
  {
    if order != [] {
      WalkInRange(c, rows, order[1..], e);
      NodeWorkIsOwn(c, order[0], rows[order[0]], e);
    }
  }

  lemma {:induction false} CancelsCallNobody(rows: seq<Row>, from: nat, e: Env)
    ensures !HasCall(CancelUnstarted(rows, from, e))
    decreases |rows| - from
  {
    if from < |rows| {
      CancelsCallNobody(rows, from + 1, e);
    }
  }

  lemma CallsAreInRange(c: Config, s: State, step: Step, i: nat)
    requires ValidConfig(c, |s.db.rows|) && i < |Performed(c, s.db, step)| && Performed(c, s.db, step)[i].Call?
    ensures Performed(c, s.db, step)[i].node < |s.db.rows|
  {
    WorkOrderIsPermutation(c, |s.db.rows|);
    var db, e := s.db, step.env;
    var rows := Current(db, e);
    var head := Opening(db) + Cancels(db, e);
    var tail := if AllSettled(rows) then [Patch(Finished(FinalOutcome(rows)))] else Walk(c, rows, WorkOrder(c), e);
    assert Tick(c, db, e) == head + tail;
    CancelsCallNobody(db.rows, 0, e);
    WalkInRange(c, rows, WorkOrder(c), e);
    assert !HasCall(head) by {
      assert !HasCall(Opening(db)) && !HasCall(Cancels(db, e));
    }
    assert forall k :: 0 <= k < |head| ==> (head + tail)[k] == head[k];
  }

  lemma StepKeepsCanaryInv(c: Config, s: State, step: Step)
    requires CanaryInv(c, s) && (Listed(s.db.phase) ==> Ready(c, s, step.env))
    ensures CanaryInv(c, Exec(c, s, step))
  {
    var n, s' := CanaryOf(c).value, Exec(c, s, step);
    forall x | 0 <= x < |s.db.rows|
      ensures RowOk(s', x)
    {
      StepRowOk(c, s, step, x);
    }
    StepKeepsRecord(c, s, step, n);
    StepPhase(c, s, step);
    if s.db.rows[n].phase.Succeeded? {
      SettledStays(c, s, step, n);
    } else {
      forall x | 0 <= x < |s.db.rows| && x != n
        ensures !Called(Performed(c, s.db, step), x) && !Called(s'.log, x)
      {
        ReadyCanaryKeepsOthers(c, s, step, x);
        CalledConcat(s.log, Performed(c, s.db, step), x);
      }
    }
    StepLeads(c, s, step);
  }

  lemma {:induction false} RunKeepsCanaryInv(c: Config, s: State, steps: seq<Step>)
    requires CanaryInv(c, s) && AlwaysReady(c, s, steps)
    ensures CanaryInv(c, Run(c, s, steps))
    decreases steps
  {
    if steps != [] {
      StepKeepsCanaryInv(c, s, steps[0]);
      RunKeepsCanaryInv(c, Exec(c, s, steps[0]), steps[1..]);
    }
  }

  lemma StartHasCanaryInv(c: Config, count: nat)
    requires ValidConfig(c, count) && c.strategy.isCanary && count >= 2
    ensures CanaryOf(c).Some? && CanaryInv(c, Start(count))
  {
    PickIsSound(c.strategy, c.order);
    WorkOrderIsPermutation(c, count);
  }

  /**
   A canary rollout of two or more nodes has a canary, and no other node is called
   before the canary was released, as long as the canary can be worked on until
   then. Other nodes may come and go as they like.
   */
  lemma CanaryIsReleasedFirst(c: Config, count: nat, steps: seq<Step>, j: nat)
    requires ValidConfig(c, count) && c.strategy.isCanary && count >= 2
    requires AlwaysReady(c, Start(count), steps)
    ensures CanaryOf(c).Some? && CanaryOf(c).value < count
    ensures var n, log := CanaryOf(c).value, Run(c, Start(count), steps).log;
            j < |log| && log[j].Call? && log[j].node != n ==> WasReleased(c, Story(log[..j], n))
  {
    StartHasCanaryInv(c, count);
    RunKeepsCanaryInv(c, Start(count), steps);
  }

  /** Having an address and reporting its generation in every step is enough for the canary to be ready. */
  lemma {:induction false} EquippedCanaryIsReady(c: Config, s: State, steps: seq<Step>)
    requires ValidConfig(c, |s.db.rows|) && CanaryOf(c).Some? && CanaryOf(c).value < |s.db.rows|
    requires !s.db.rows[CanaryOf(c).value].phase.Bootstrapping?
    requires forall i :: 0 <= i < |steps| ==> CanaryOf(c).value in steps[i].env.addressed && CanaryOf(c).value in steps[i].env.generational
    ensures AlwaysReady(c, s, steps)
    decreases steps
  {
    if steps != [] {
      var n := CanaryOf(c).value;
      NeverBootstraps(c, s, steps[0], n);
      assert forall i :: 0 <= i < |steps[1..]| ==> steps[1..][i] == steps[i + 1];
      EquippedCanaryIsReady(c, Exec(c, s, steps[0]), steps[1..]);
    }
  }

  /** A node that reports its generation does not start waiting for it. */
  lemma NeverBootstraps(c: Config, s: State, step: Step, n: NodeId)
    requires ValidConfig(c, |s.db.rows|) && n < |s.db.rows| && n in step.env.generational
    requires !s.db.rows[n].phase.Bootstrapping?
    ensures !Exec(c, s, step).db.rows[n].phase.Bootstrapping?
  {
    var more, row := NodePart(c, s, step, n), s.db.rows[n];
    StepStory(c, s, step, n);
    PartOfTick(c, s.db, step.env, n, more);
    if more != [] {
      if GivenUp(s.db, n) {
        assert more[1..] == [];
      } else {
        PartNeverBootstraps(c, n, row, step.env, more);
      }
    }
  }

  lemma PartNeverBootstraps(c: Config, n: NodeId, row: Row, e: Env, more: seq<Event>)
    requires more <= NodeWork(c, n, row, e) && n in e.generational && !row.phase.Bootstrapping?
    ensures !RowAfter(row, more).phase.Bootstrapping?
  {
    PartFollows(c, n, row, e, more);
    if row.phase.Prepared? {
      var all := PreparedWork(c, n, row, e);
      assert forall i :: 0 <= i < |all| && all[i].Write? ==> !all[i].row.phase.Bootstrapping?;
      assert forall i :: 0 <= i < |more| ==> more[i] == all[i];
    }
  }

  /**
   While the canary leads unreleased and unfailed, a complete tick calls another
   node exactly when the canary has no address or is waiting for its generation
   report, and some other node has an address.
   */
  lemma OthersCalledIff(c: Config, s: State, e: Env)
    requires CanaryInv(c, s) && Listed(s.db.phase)
    requires var p := s.db.rows[CanaryOf(c).value].phase; !p.Succeeded? && !p.Failed?
    ensures var n := CanaryOf(c).value;
            (exists x :: 0 <= x < |s.db.rows| && x != n && Called(Tick(c, s.db, e), x))
            <==> (n !in e.addressed || s.db.rows[n].phase.Bootstrapping?)
                 && (exists x :: 0 <= x < |s.db.rows| && x != n && x in e.addressed)
  {
    var n, order, rows := CanaryOf(c).value, WorkOrder(c), s.db.rows;
    OnlyCanaryFails(c, s);
    assert RowOk(s, n);
    forall x | 0 <= x < |rows| && x != n
      ensures Called(Tick(c, s.db, e), x) <==> Reached(rows, order, e, x)
    {
      CallIffReached(c, s, e, x);
    }
    assert order[0] == n;
    if Passes(rows, e, n) {
      if x :| 0 <= x < |rows| && x != n && x in e.addressed {
        var y := FirstAddressed(c, rows, e, n, x);
      }
    }
    forall x | 0 <= x < |rows| && x != n && Reached(rows, order, e, x)
      ensures Passes(rows, e, n) && x in e.addressed
    {
      ReachedIsAddressed(rows, order, e, x);
    }
  }

  lemma CallIffReached(c: Config, s: State, e: Env, x: NodeId)
    requires ValidConfig(c, |s.db.rows|) && x < |s.db.rows| && s.db.rows[x] == FRESH && !AnyFailed(s.db.rows)
    requires Covers(WorkOrder(c), |s.db.rows|)
    ensures Called(Tick(c, s.db, e), x) <==> Reached(s.db.rows, WorkOrder(c), e, x)
  {
    TickStory(c, s.db, e, x);
    CalledIffStory(Tick(c, s.db, e), x);
    assert Current(s.db, e) == s.db.rows;
    assert PrepareWork(x, e)[0].Call?;
  }

  lemma {:induction false} ReachedIsAddressed(rows: seq<Row>, order: seq<NodeId>, e: Env, x: NodeId)
    requires InRange(order, |rows|) && Reached(rows, order, e, x)
    ensures x in e.addressed
  {
    if order[0] != x {
      ReachedIsAddressed(rows, order[1..], e, x);
    }
  }

  /** Past the canary, the first fresh node with an address is reached. */
  lemma FirstAddressed(c: Config, rows: seq<Row>, e: Env, n: NodeId, x: NodeId) returns (y: NodeId)
    requires ValidConfig(c, |rows|) && Covers(WorkOrder(c), |rows|) && |rows| > 0 && WorkOrder(c)[0] == n && Passes(rows, e, n)
    requires x < |rows| && x != n && x in e.addressed
    ensures y < |rows| && y != n && Reached(rows, WorkOrder(c), e, y)
  {
    var order := WorkOrder(c);
    InOrderAt(c, |rows|, x);
    var i :| 0 <= i < |order| && order[i] == x;
    y := FirstIn(rows, order[1..], e, i - 1);
    assert order[1..][i - 1] == x;
    var j :| 0 <= j < |order[1..]| && order[1..][j] == y;
    assert order[j + 1] == y;
  }

  lemma {:induction false} FirstIn(rows: seq<Row>, order: seq<NodeId>, e: Env, i: nat) returns (y: NodeId)
    requires InRange(order, |rows|) && i < |order| && order[i] in e.addressed
    ensures y in order && y in e.addressed && Reached(rows, order, e, y)
  {
    if order[0] in e.addressed {
      y := order[0];
    } else {
      y := FirstIn(rows, order[1..], e, i - 1);
    }
  }

  // ---- a held canary -----------------------------------------------------------------

  predicate Stopped(p: Phase) {
    p.AwaitingPromotion? || p.Failed?
  }

  lemma HeldStays(c: Config, s: State, step: Step, n: NodeId)
    requires ValidConfig(c, |s.db.rows|) && n < |s.db.rows| && Stopped(s.db.rows[n].phase)
    ensures Stopped(Exec(c, s, step).db.rows[n].phase)
  {
    StepStory(c, s, step, n);
    StoppedPart(c, s.db, step.env, n, NodePart(c, s, step, n));
  }

  lemma StoppedPart(c: Config, db: Db, e: Env, n: NodeId, more: seq<Event>)
    requires ValidConfig(c, |db.rows|) && n < |db.rows| && Stopped(db.rows[n].phase) && more <= NodeTick(c, db, e, n)
    ensures Stopped(RowAfter(db.rows[n], more).phase)
  {
    PartOfTick(c, db, e, n, more);
    if more != [] {
      PartFollows(c, n, db.rows[n], e, more);
    }
  }

  /** A held or failed node stays so in every run, whatever happens. */
  lemma {:induction false} HeldNodeStaysHeld(c: Config, s: State, steps: seq<Step>, n: NodeId)
    requires ValidConfig(c, |s.db.rows|) && n < |s.db.rows| && Stopped(s.db.rows[n].phase)
    ensures Stopped(Run(c, s, steps).db.rows[n].phase)
    decreases steps
  {
    if steps != [] {
      HeldStays(c, s, steps[0], n);
      HeldNodeStaysHeld(c, Exec(c, s, steps[0]), steps[1..], n);
    }
  }

  /** A held or failed canary that led so far is never promoted, and nobody else is called while it can be worked on. */
  lemma HeldCanaryHoldsTheRollout(c: Config, s: State, steps: seq<Step>)
    requires CanaryInv(c, s) && AlwaysReady(c, s, steps) && Stopped(s.db.rows[CanaryOf(c).value].phase)
    ensures var n, s' := CanaryOf(c).value, Run(c, s, steps);
            Stopped(s'.db.rows[n].phase) && forall x :: 0 <= x < |s'.db.rows| && x != n ==> !Called(s'.log, x)
  {
    RunKeepsCanaryInv(c, s, steps);
    HeldNodeStaysHeld(c, s, steps, CanaryOf(c).value);
  }
}
