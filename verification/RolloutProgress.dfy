/** Rollouts make progress, and where the time limits end, in any surroundings and with any crashes. */
module RolloutProgress {
  import opened Prelude
  import opened Canary
  import opened Rollout
  import opened RolloutSteps
  import opened RolloutOrder
  import opened RolloutCrashes

  // ---- the measure -------------------------------------------------------

  /** How many phases a node can still go through before it waits for its generation report. */
  function Rank(p: Phase): (r: nat) {
    match p
    case Pending => 6
    case Prepared => 5
    case Drained => 4
    case RebootRequired => 4
    case WaitingReady => 3
    case Confirming => 3
    case Rebooting => 3
    case Soaking => 2
    case AwaitingPromotion => 1
    case _ => 0
  }

  function Ranks(rows: seq<Row>): (r: nat) {
    if rows == [] then 0 else Rank(rows[0].phase) + Ranks(rows[1..])
  }

  function PhaseRank(p: UpdatePhase): (r: nat) {
    if p.Ready? then 2 else if p.Finished? then 0 else 1
  }

  function Measure(db: Db): (r: nat) {
    Ranks(db.rows) + PhaseRank(db.phase)
  }

  predicate SamePhases(db: Db, db': Db) {
    && db.phase == db'.phase && |db.rows| == |db'.rows|
    && forall n :: 0 <= n < |db.rows| ==> db.rows[n].phase == db'.rows[n].phase
  }

  /** The node reported its generation and starts over. */
  predicate FollowsUp(row: Row, row': Row) {
    row.phase.Bootstrapping? && row'.phase.Pending?
  }

  function FollowUps(rows: seq<Row>, rows': seq<Row>): (count: nat)
    requires |rows| == |rows'|
  {
    if rows == [] then 0 else (if FollowsUp(rows[0], rows'[0]) then 1 else 0) + FollowUps(rows[1..], rows'[1..])
  }

  /** A row keeps its phase, moves down, or starts over. */
  predicate Descends(row: Row, row': Row) {
    row'.phase == row.phase || Rank(row'.phase) < Rank(row.phase) || FollowsUp(row, row')
  }

  lemma {:induction false} RanksDescend(rows: seq<Row>, rows': seq<Row>)
    requires |rows| == |rows'| && forall n :: 0 <= n < |rows| ==> Descends(rows[n], rows'[n])
    ensures Ranks(rows') <= Ranks(rows) + 6 * FollowUps(rows, rows')
    ensures FollowUps(rows, rows') == 0 ==>
              Ranks(rows') < Ranks(rows) || (Ranks(rows') == Ranks(rows) && forall n :: 0 <= n < |rows| ==> rows'[n].phase == rows[n].phase)
  {
    if rows != [] {
      var a, b := rows[1..], rows'[1..];
      assert forall n :: 0 <= n < |a| ==> a[n] == rows[n + 1] && b[n] == rows'[n + 1];
      RanksDescend(a, b);
      assert Descends(rows[0], rows'[0]);
      assert forall n :: 0 < n < |rows| ==> rows[n] == a[n - 1] && rows'[n] == b[n - 1];
    }
  }

  lemma NextDescends(row: Row, row': Row)
    requires Regular(row.phase) && Next(row.phase, row'.phase)
    ensures Descends(row, row')
  {
  }

  lemma PartDescends(c: Config, n: NodeId, row: Row, e: Env, more: seq<Event>)
    requires Regular(row.phase) && more <= NodeWork(c, n, row, e)
    ensures Descends(row, RowAfter(row, more))
  {
    PartFollows(c, n, row, e, more);
    if RowAfter(row, more) != row {
      NextDescends(row, RowAfter(row, more));
    }
  }

  lemma CancelDescends(row: Row, n: NodeId, e: Env)
    requires NotStarted(row.phase)
    ensures Descends(row, RowAfter(row, [Write(n, CancelledRow(row, e))]))
  {
    OneWrite(row, n, CancelledRow(row, e));
  }

  lemma RowDescends(c: Config, s: State, step: Step, n: NodeId)
    requires ValidConfig(c, |s.db.rows|) && n < |s.db.rows| && Regular(s.db.rows[n].phase)
    ensures Descends(s.db.rows[n], Exec(c, s, step).db.rows[n])
  {
    var more := NodePart(c, s, step, n);
    StepStory(c, s, step, n);
    PartOfTick(c, s.db, step.env, n, more);
    if more != [] {
      if GivenUp(s.db, n) {
        CancelDescends(s.db.rows[n], n, step.env);
      } else {
        PartDescends(c, n, s.db.rows[n], step.env, more);
      }
    }
  }

  /** Every step, cut anywhere, leaves all phases alone or lowers the measure, unless a node starts over. */
  lemma StepMakesProgress(c: Config, s: State, step: Step)
    requires ValidConfig(c, |s.db.rows|) && forall n :: 0 <= n < |s.db.rows| ==> Regular(s.db.rows[n].phase)
    ensures var s' := Exec(c, s, step);
            && Measure(s'.db) <= Measure(s.db) + 6 * FollowUps(s.db.rows, s'.db.rows)
            && (FollowUps(s.db.rows, s'.db.rows) == 0 ==> SamePhases(s.db, s'.db) || Measure(s'.db) < Measure(s.db))
  {
    var s' := Exec(c, s, step);
    forall n | 0 <= n < |s.db.rows|
      ensures Descends(s.db.rows[n], s'.db.rows[n])
    {
      RowDescends(c, s, step, n);
    }
    RanksDescend(s.db.rows, s'.db.rows);
    StepPhase(c, s, step);
    assert s'.db.phase == s.db.phase || PhaseRank(s'.db.phase) < PhaseRank(s.db.phase);
  }

  /** How many steps of a run change a phase. */
  function Changes(c: Config, s: State, steps: seq<Step>): (count: nat)
    requires ValidConfig(c, |s.db.rows|)
    decreases steps
  {
    if steps == [] then 0
    else
      var s' := Exec(c, s, steps[0]);
      (if SamePhases(s.db, s'.db) then 0 else 1) + Changes(c, s', steps[1..])
  }

  /** How often a node starts over in a run. */
  function Restarts(c: Config, s: State, steps: seq<Step>): (count: nat)
    requires ValidConfig(c, |s.db.rows|)
    decreases steps
  {
    if steps == [] then 0
    else
      var s' := Exec(c, s, steps[0]);
      FollowUps(s.db.rows, s'.db.rows) + Restarts(c, s', steps[1..])
  }

  lemma {:induction false} SameRanks(rows: seq<Row>, rows': seq<Row>)
    requires |rows| == |rows'| && forall n :: 0 <= n < |rows| ==> rows[n].phase == rows'[n].phase
    ensures Ranks(rows) == Ranks(rows')
  {
    if rows != [] {
      SameRanks(rows[1..], rows'[1..]);
    }
  }

  lemma {:induction false} ChangesAreBounded(c: Config, s: State, steps: seq<Step>, k: set<NodeId>)
    requires Inv(c, s, k)
    ensures Changes(c, s, steps) <= Measure(s.db) + 7 * Restarts(c, s, steps)
    decreases steps
  {
    if steps != [] {
      var s' := Exec(c, s, steps[0]);
      forall n | 0 <= n < |s.db.rows|
        ensures Regular(s.db.rows[n].phase)
      {
        assert RowOk(s, n);
      }
      StepMakesProgress(c, s, steps[0]);
      StepKeepsInv(c, s, steps[0], k);
      ChangesAreBounded(c, s', steps[1..], k + PassedOver(c, s, steps[0]));
      if SamePhases(s.db, s'.db) {
        SameRanks(s.db.rows, s'.db.rows);
      }
    }
  }

  lemma {:induction false} RanksAtStart(count: nat)
    ensures Ranks(seq(count, _ => FRESH)) == 6 * count
  {
    if count > 0 {
      RanksAtStart(count - 1);
      assert seq(count, _ => FRESH)[1..] == seq(count - 1, _ => FRESH);
    }
  }

  /** In any run of n nodes at most 6n + 2 steps change anything, plus seven for each time a node starts over. */
  lemma RolloutsAreLinear(c: Config, count: nat, steps: seq<Step>)
    requires ValidConfig(c, count)
    ensures Changes(c, Start(count), steps) <= 6 * count + 2 + 7 * Restarts(c, Start(count), steps)
  {
    StartHasInv(c, count);
    ChangesAreBounded(c, Start(count), steps, {});
    RanksAtStart(count);
  }

  // ---- time limits -------------------------------------------------------

  predicate Settles(p: Phase) {
    p.Succeeded? || p.Soaking? || p.Failed?
  }

  lemma OneWrite(row: Row, n: NodeId, last: Row)
    ensures RowAfter(row, [Write(n, last)]) == last
  {
    LastWrite(row, [Write(n, last)]);
  }

  lemma RevertEnds(row: Row, first: seq<Event>, n: NodeId, seen: Row, e: Env)
    ensures RowAfter(row, first + Revert(n, seen, e)).phase.Failed?
  {
    var work := first + Revert(n, seen, e);
    assert work[|work| - 1] == Write(n, seen.(phase := Failed, since := e.done));
    LastWrite(row, work);
  }

  /** Confirming settles, or waits exactly when nothing is decided. */
  lemma ConfirmEnds(c: Config, n: NodeId, row: Row, e: Env)
    requires row.phase.Confirming?
    ensures var p := RowAfter(row, ConfirmWork(c, n, row, e)).phase;
            var failed := e.status.Some? && e.status.value.phase.StatusFailed?;
            if failed || Confirmation(row, e).Some? then Settles(p) else p.Confirming?
  {
    var seen := Refreshed(row, e);
    var first := if Refreshes(row, e) then [Write(n, seen)] else [];
    if e.status.Some? && e.status.value.phase.StatusFailed? {
      OneWrite(row, n, row.(phase := Failed, since := e.done));
    } else {
      match Confirmation(row, e)
      case Some(true) => LastWrite(row, first + [Write(n, seen.(phase := FinishedPhase(c, n), since := e.done))]);
      case Some(false) => RevertEnds(row, first, n, seen, e);
      case None =>
        assert first + [] == first;
        OneWrite(row, n, seen);
    }
  }

  /** A reboot settles, keeps waiting, or has just been requested; overdue it settles. */
  lemma RebootEnds(c: Config, n: NodeId, row: Row, e: Env)
    requires row.phase.RebootRequired? || row.phase.Rebooting?
    ensures var p := RowAfter(row, RebootWork(c, n, row, e)).phase;
            && (Settles(p) || p == row.phase || (row.phase.RebootRequired? && p.Rebooting?))
            && (row.phase.Rebooting? && e.now - row.since >= REBOOT_CONFIRM_SECS ==> Settles(p))
  {
    var work := RebootWork(c, n, row, e);
    if work != [] && work[|work| - 1].Write? {
      LastWrite(row, work);
    } else if work != [] {
      assert |work| == 2 && work[0].Write? && work[0].row.phase.Rebooting? && work[1].Call?;
      assert work == [work[0]] + [work[1]];
      RowAfterLast(row, [work[0]], work[1]);
      LastWrite(row, [work[0]]);
    }
  }

  /** The tick comes to node `n`. */
  predicate Comes(c: Config, s: State, e: Env, n: NodeId)
    requires ValidConfig(c, |s.db.rows|) && n < |s.db.rows|
  {
    WorkOrderIsPermutation(c, |s.db.rows|);
    Listed(s.db.phase) && Reached(Current(s.db, e), WorkOrder(c), e, n)
  }

  /** A started node the tick comes to gets its whole work done. */
  lemma WholeTickOn(c: Config, s: State, e: Env, n: NodeId)
    requires ValidConfig(c, |s.db.rows|) && n < |s.db.rows| && Comes(c, s, e, n) && !NotStarted(s.db.rows[n].phase)
    ensures Whole(c, s, e).db.rows[n] == RowAfter(s.db.rows[n], NodeWork(c, n, s.db.rows[n], e))
  {
    StepStory(c, s, WholeStep(c, s, e), n);
  }

  /** Past its limit, a rebooting node is settled by the next complete tick that comes to it. */
  lemma RebootingEnds(c: Config, s: State, e: Env, n: NodeId)
    requires ValidConfig(c, |s.db.rows|) && n < |s.db.rows| && Comes(c, s, e, n)
    requires s.db.rows[n].phase.Rebooting? && e.now - s.db.rows[n].since >= REBOOT_CONFIRM_SECS
    ensures Settles(Whole(c, s, e).db.rows[n].phase)
  {
    WholeTickOn(c, s, e, n);
    RebootEnds(c, n, s.db.rows[n], e);
  }

  /** When a confirming row waits: nothing reported, and either time left or a newly learnt closure. */
  predicate Undecided(row: Row, e: Env) {
    var target := Refreshed(row, e).target;
    var settled := e.status.Some? && e.status.value.phase.StatusFailed?;
    var confirmed := e.status.Some? && !e.status.value.phase.SwitchPending? && target != ""
                     && (e.nixos == target || e.booted == target);
    !settled && !confirmed && (Refreshes(row, e) || e.now - row.since < ACTIVATE_CONFIRM_SECS)
  }

  lemma UndecidedIff(row: Row, e: Env)
    ensures Undecided(row, e) <==> !(e.status.Some? && e.status.value.phase.StatusFailed?) && Confirmation(row, e).None?
  {
  }

  /** Exactly when a complete tick that comes to a confirming node leaves it waiting. */
  lemma ConfirmingWaitsIff(c: Config, s: State, e: Env, n: NodeId)
    requires ValidConfig(c, |s.db.rows|) && n < |s.db.rows| && Comes(c, s, e, n) && s.db.rows[n].phase.Confirming?
    ensures Whole(c, s, e).db.rows[n].phase.Confirming? <==> Undecided(s.db.rows[n], e)
  {
    WholeTickOn(c, s, e, n);
    ConfirmEnds(c, n, s.db.rows[n], e);
    UndecidedIff(s.db.rows[n], e);
  }

  function Ticks(c: Config, s: State, envs: seq<Env>): (s': State)
    requires ValidConfig(c, |s.db.rows|)
    ensures |s'.db.rows| == |s.db.rows|
    decreases envs
  {
    if envs == [] then s else Ticks(c, Whole(c, s, envs[0]), envs[1..])
  }

  /** Learning a new closure writes the row, and the limit runs from the last write. */
  lemma {:induction false} ConfirmingGoesOn(c: Config, s: State, base: Env, n: NodeId, ticks: nat) returns (envs: seq<Env>)
    requires ValidConfig(c, |s.db.rows|) && n < |s.db.rows| && Listed(s.db.phase) && s.db.rows[n].phase.Confirming?
    ensures |envs| == ticks && Ticks(c, s, envs).db.rows[n].phase.Confirming?
    ensures ticks > 0 ==> Ticks(c, s, envs).db.rows[n].since >= s.db.rows[n].since + ticks * ACTIVATE_CONFIRM_SECS
    decreases ticks
  {
    if ticks == 0 {
      return [];
    }
    var row := s.db.rows[n];
    var again := Status(OtherStatus, row.target + "x", "");
    var e := base.(now := row.since + ACTIVATE_CONFIRM_SECS, status := None, statusAgain := Some(again),
                   nixos := row.target + "yy", booted := "", addressed := {n});
    var s' := Whole(c, s, e);
    LoneTick(c, s, e, n);
    StepStory(c, s, WholeStep(c, s, e), n);
    NewClosureIsWritten(c, n, row, e, again);
    StepPhase(c, s, WholeStep(c, s, e));
    var rest := ConfirmingGoesOn(c, s', base, n, ticks - 1);
    envs := [e] + rest;
    assert envs[1..] == rest;
  }

  lemma NewClosureIsWritten(c: Config, n: NodeId, row: Row, e: Env, again: Status)
    requires row.phase.Confirming? && again.target == row.target + "x" && e.nixos == row.target + "yy" && e.booted == ""
    requires e.status.None? && e.statusAgain == Some(again)
    ensures RowAfter(row, NodeWork(c, n, row, e)) == row.(target := again.target, since := e.now)
  {
    assert e.nixos != row.target && |e.nixos| == |row.target| + 2 && again.target != row.target;
    var seen := Refreshed(row, e);
    assert Confirmation(row, e).None?;
    assert ConfirmWork(c, n, row, e) == [Write(n, seen)];
    OneWrite(row, n, seen);
  }

  /** Prepared, then told to activate without an answer: the node is confirming. */
  lemma ConfirmingFromStart(c: Config, count: nat, e: Env, n: NodeId)
    requires ValidConfig(c, count) && n < count && !c.bootMode
    requires e.addressed == {n} && e.prepare == PrepareOk("g", false) && e.detour.NoDetour? && e.activate.ActivateFailed?
    ensures var s := Whole(c, Whole(c, Start(count), e), e); Listed(s.db.phase) && s.db.rows[n].phase.Confirming?
  {
    QuietTick(c, Start(count), e, n);
    var s := Whole(c, Start(count), e);
    var row := s.db.rows[n];
    assert row.phase.Prepared? && MayConfirm(c, row);
    LastWrite(row, NodeWork(c, n, row, e));
    LoneWork(c, s, e, n);
  }

  /**
   From the start, with complete ticks: a node that keeps naming new closures
   stays confirming for as many limits as one likes.
   */
  lemma ConfirmingCanOutlastItsLimit(c: Config, count: nat, base: Env, n: NodeId, ticks: nat) returns (e: Env, envs: seq<Env>)
    requires ValidConfig(c, count) && n < count && !c.bootMode && ticks > 0
    ensures |envs| == ticks
    ensures var s, s' := Ticks(c, Start(count), [e, e]), Ticks(c, Start(count), [e, e] + envs);
            && s.db.rows[n].phase.Confirming? && s'.db.rows[n].phase.Confirming?
            && s'.db.rows[n].since >= s.db.rows[n].since + ticks * ACTIVATE_CONFIRM_SECS
  {
    e := base.(addressed := {n}, prepare := PrepareOk("g", false), detour := NoDetour, activate := ActivateFailed);
    ConfirmingFromStart(c, count, e, n);
    var s := Whole(c, Whole(c, Start(count), e), e);
    envs := ConfirmingGoesOn(c, s, base, n, ticks);
    TwoTicks(c, Start(count), e, []);
    TwoTicks(c, Start(count), e, envs);
    assert [e, e] + [] == [e, e];
  }

  lemma TwoTicks(c: Config, s: State, e: Env, envs: seq<Env>)
    requires ValidConfig(c, |s.db.rows|)
    ensures Ticks(c, s, [e, e] + envs) == Ticks(c, Whole(c, Whole(c, s, e), e), envs)
  {
    assert ([e, e] + envs)[1..] == [e] + envs && ([e] + envs)[1..] == envs;
  }
}
