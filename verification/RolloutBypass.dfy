/**
 Runs from the start in which a node without an address, or one waiting for its
 generation report, is passed over.
 */
module RolloutBypass {
  import opened Canary
  import opened Rollout
  import opened RolloutSteps
  import opened RolloutOrder
  import opened RolloutCanary
  import opened RolloutCrashes

  /** Some node other than the canary is called in a run with no release. */
  ghost predicate Bypassed(c: Config, s: State) {
    CanaryOf(c).Some? && !WasReleased(c, Story(s.log, CanaryOf(c).value))
    && exists x :: 0 <= x < |s.db.rows| && x != CanaryOf(c).value && Called(s.log, x)
  }

  /** While a canary leads unpromoted, a tick that passes over it calls somebody else. */
  lemma PassingTickBypasses(c: Config, s: State, e: Env, x: NodeId)
    requires CanaryInv(c, s) && Listed(s.db.phase) && !WasReleased(c, Story(s.log, CanaryOf(c).value))
    requires var p := s.db.rows[CanaryOf(c).value].phase; !p.Succeeded? && !p.Failed? && !p.Soaking?
    requires CanaryOf(c).value !in e.addressed || s.db.rows[CanaryOf(c).value].phase.Bootstrapping?
    requires x < |s.db.rows| && x != CanaryOf(c).value && x in e.addressed
    ensures Bypassed(c, Whole(c, s, e))
  {
    var n, tick := CanaryOf(c).value, Tick(c, s.db, e);
    OthersCalledIff(c, s, e);
    var y :| 0 <= y < |s.db.rows| && y != n && Called(tick, y);
    assert tick[..|tick|] == tick;
    CalledConcat(s.log, tick, y);
    NoReleaseInTick(c, s, e);
  }

  /** A tick that finds the canary in another phase than soaking does not release it. */
  lemma NoReleaseInTick(c: Config, s: State, e: Env)
    requires ValidConfig(c, |s.db.rows|) && CanaryOf(c).Some? && CanaryOf(c).value < |s.db.rows|
    requires !WasReleased(c, Story(s.log, CanaryOf(c).value)) && !s.db.rows[CanaryOf(c).value].phase.Soaking?
    ensures !WasReleased(c, Story(Whole(c, s, e).log, CanaryOf(c).value))
  {
    var n, step := CanaryOf(c).value, WholeStep(c, s, e);
    var h, more := Story(s.log, n), NodePart(c, s, step, n);
    StepStory(c, s, step, n);
    PartOfTick(c, s.db, e, n, more);
    if k :| Released(c, h + more, k) {
      if k + 1 < |h| {
        ReleasedEarlier(c, h, more, k);
      } else {
        var i := k + 1 - |h|;
        assert more[i] == (h + more)[k + 1];
        if !GivenUp(s.db, n) {
          assert NodeWork(c, n, s.db.rows[n], e)[i] == more[i];
          SucceedsBySoak(c, n, s.db.rows[n], e, i);
        }
      }
    }
  }

  lemma ReleasedEarlier(c: Config, h: seq<Event>, more: seq<Event>, k: int)
    requires Released(c, h + more, k) && k + 1 < |h|
    ensures WasReleased(c, h)
  {
    var all := h + more;
    var i :| 0 <= i < k && all[i].Write? && all[i].row.phase.Soaking? && all[i].row.since == all[k].since;
    assert all[i] == h[i] && all[k] == h[k] && all[k + 1] == h[k + 1];
    assert Released(c, h, k);
  }

  /** A canary without an address is passed over in the very first tick. */
  lemma UnaddressedCanaryIsBypassed(c: Config, count: nat, e: Env, x: NodeId)
    requires ValidConfig(c, count) && c.strategy.isCanary && count >= 2 && x < count && x in e.addressed
    requires CanaryOf(c).Some? ==> x != CanaryOf(c).value && CanaryOf(c).value !in e.addressed
    ensures Bypassed(c, Whole(c, Start(count), e))
  {
    StartHasCanaryInv(c, count);
    PassingTickBypasses(c, Start(count), e, x);
  }

  /** Preparing and activating succeed, and no node reports its generation. */
  function Silent(base: Env): (e: Env) {
    base.(prepare := PrepareOk("g", false), generational := {}, detour := NoDetour, activate := ActivateOk(false, false, ""))
  }

  predicate Unjudged(evs: seq<Event>) {
    forall i :: 0 <= i < |evs| ==> !evs[i].Judged?
  }

  lemma WorkPrepares(c: Config, n: NodeId, row: Row, e: Env)
    requires row.phase.Pending? && e.prepare == PrepareOk("g", false)
    ensures RowAfter(row, NodeWork(c, n, row, e)).phase == Prepared && Unjudged(NodeWork(c, n, row, e))
  {
    LastWrite(row, NodeWork(c, n, row, e));
  }

  lemma WorkWaits(c: Config, n: NodeId, row: Row, e: Env)
    requires row.phase.Prepared? && e.detour.NoDetour? && e.activate == ActivateOk(false, false, "") && n !in e.generational
    ensures RowAfter(row, NodeWork(c, n, row, e)).phase == Bootstrapping && Unjudged(NodeWork(c, n, row, e))
  {
    LastWrite(row, NodeWork(c, n, row, e));
  }

  lemma WorkStartsOver(c: Config, n: NodeId, row: Row, e: Env)
    requires row.phase.Bootstrapping? && n in e.generational
    ensures RowAfter(row, NodeWork(c, n, row, e)).phase == Pending
  {
    LastWrite(row, NodeWork(c, n, row, e));
  }

  /** Prepared, then activated without reporting its generation: the node waits. */
  lemma WaitsFromStart(c: Config, count: nat, e: Env, n: NodeId)
    requires ValidConfig(c, count) && n < count && e == Silent(e) && e.addressed == {n}
    ensures var s1 := Whole(c, Start(count), e); var s2 := Whole(c, s1, e);
            && s1.db.rows[n].phase.Prepared? && s2.db.rows[n].phase.Bootstrapping? && Listed(s1.db.phase) && Listed(s2.db.phase)
            && Unjudged(Story(s2.log, n))
  {
    var s0 := Start(count);
    WorkPrepares(c, n, s0.db.rows[n], e);
    QuietTick(c, s0, e, n);
    LoneWorkStory(c, s0, e, n);
    var s1 := Whole(c, s0, e);
    WorkWaits(c, n, s1.db.rows[n], e);
    LoneWork(c, s1, e, n);
    LoneWorkStory(c, s1, e, n);
  }

  lemma LoneWorkStory(c: Config, s: State, e: Env, n: NodeId)
    requires ValidConfig(c, |s.db.rows|) && n < |s.db.rows| && Open(s) && e.addressed == {n}
    ensures Story(Whole(c, s, e).log, n) == Story(s.log, n) + NodeWork(c, n, s.db.rows[n], e)
  {
    LoneTick(c, s, e, n);
    StepStory(c, s, WholeStep(c, s, e), n);
  }

  /** From the start, with no crash: a canary that was activated without reporting its generation is passed over. */
  lemma BootstrappingCanaryIsBypassed(c: Config, count: nat, quiet: Env, e: Env, x: NodeId)
    requires ValidConfig(c, count) && c.strategy.isCanary && count >= 2 && x < count && x in e.addressed
    requires CanaryOf(c).Some? ==> x != CanaryOf(c).value && quiet == Silent(quiet) && quiet.addressed == {CanaryOf(c).value}
    ensures Bypassed(c, Whole(c, Whole(c, Whole(c, Start(count), quiet), quiet), e))
  {
    StartHasCanaryInv(c, count);
    WaitsFromStart(c, count, quiet, CanaryOf(c).value);
    var s1 := Whole(c, Start(count), quiet);
    var s2 := Whole(c, s1, quiet);
    StepKeepsCanaryInv(c, Start(count), WholeStep(c, Start(count), quiet));
    StepKeepsCanaryInv(c, s1, WholeStep(c, s1, quiet));
    PassingTickBypasses(c, s2, e, x);
  }

  // ---- two nodes in hand ---------------------------------------------------------------

  predicate Everyone(c: Config, e: Env) {
    forall i :: 0 <= i < |WorkOrder(c)| ==> WorkOrder(c)[i] in e.addressed
  }

  /** What a complete tick makes of the node at position `i` while nobody has failed. */
  lemma TickAt(c: Config, s: State, e: Env, i: nat)
    requires ValidConfig(c, |s.db.rows|) && Open(s) && Covers(WorkOrder(c), |s.db.rows|) && i < |WorkOrder(c)| && Everyone(c, e)
    ensures var n, rows := WorkOrder(c)[i], s.db.rows;
            Whole(c, s, e).db.rows[n]
            == if forall j :: 0 <= j < i ==> Passes(rows, e, WorkOrder(c)[j]) then RowAfter(rows[n], NodeWork(c, n, rows[n], e)) else rows[n]
  {
    var n := WorkOrder(c)[i];
    StepStory(c, s, WholeStep(c, s, e), n);
    assert Current(s.db, e) == s.db.rows;
    ReachedIff(s.db.rows, WorkOrder(c), e, i);
  }

  /** An open update whose first two nodes are in these phases and whose others are untouched. */
  predicate Stage(c: Config, s: State, a: Phase, b: Phase) {
    && ValidConfig(c, |s.db.rows|) && Covers(WorkOrder(c), |s.db.rows|) && |s.db.rows| >= 2
    && Listed(s.db.phase) && !s.db.phase.Reverting?
    && s.db.rows[WorkOrder(c)[0]].phase == a && s.db.rows[WorkOrder(c)[1]].phase == b
    && forall i :: 2 <= i < |WorkOrder(c)| ==> s.db.rows[WorkOrder(c)[i]] == FRESH
  }

  lemma StageIsOpen(c: Config, s: State, a: Phase, b: Phase)
    requires Stage(c, s, a, b) && !a.Failed? && !b.Failed?
    ensures Open(s)
  {
    forall n | 0 <= n < |s.db.rows|
      ensures !s.db.rows[n].phase.Failed?
    {
      InOrderAt(c, |s.db.rows|, n);
    }
  }

  lemma NextStage(c: Config, s: State, e: Env, a: Phase, b: Phase, a': Phase, b': Phase)
    requires Stage(c, s, a, b) && !a.Failed? && !b.Failed? && Everyone(c, e)
    requires EndsTick(a) || (a.Bootstrapping? && EndsTick(b))
    requires var x, y := WorkOrder(c)[0], WorkOrder(c)[1];
             && RowAfter(s.db.rows[x], NodeWork(c, x, s.db.rows[x], e)).phase == a'
             && (if EndsTick(a) then b' == b else RowAfter(s.db.rows[y], NodeWork(c, y, s.db.rows[y], e)).phase == b')
    requires !Settled(a') && !Settled(b')
    ensures Stage(c, Whole(c, s, e), a', b')
  {
    var order, s' := WorkOrder(c), Whole(c, s, e);
    StageIsOpen(c, s, a, b);
    TickAt(c, s, e, 0);
    TickAt(c, s, e, 1);
    assert order[0] in e.addressed && order[1] in e.addressed;
    forall i | 2 <= i < |order|
      ensures s'.db.rows[order[i]] == FRESH
    {
      TickAt(c, s, e, i);
      assert !Passes(s.db.rows, e, order[0]) || !Passes(s.db.rows, e, order[1]);
    }
    StepPhase(c, s, WholeStep(c, s, e));
  }

  /** One node reports its generation; the node behind it waits. */
  function Reporting(base: Env, x: NodeId): (e: Env) {
    Silent(base).(generational := {x}, detour := DetourWait)
  }

  lemma SecondIsPrepared(c: Config, s: State, e: Env)
    requires Stage(c, s, Pending, Pending) && Everyone(c, e) && e == Silent(e)
    ensures Stage(c, Whole(c, Whole(c, Whole(c, s, e), e), e), Bootstrapping, Prepared)
  {
    var x, y := WorkOrder(c)[0], WorkOrder(c)[1];
    WorkPrepares(c, x, s.db.rows[x], e);
    NextStage(c, s, e, Pending, Pending, Prepared, Pending);
    var s1 := Whole(c, s, e);
    WorkWaits(c, x, s1.db.rows[x], e);
    NextStage(c, s1, e, Prepared, Pending, Bootstrapping, Pending);
    SecondPrepares(c, Whole(c, s1, e), e);
  }

  lemma SecondPrepares(c: Config, s: State, e: Env)
    requires Stage(c, s, Bootstrapping, Pending) && Everyone(c, e) && e == Silent(e)
    ensures Stage(c, Whole(c, s, e), Bootstrapping, Prepared)
  {
    var x, y := WorkOrder(c)[0], WorkOrder(c)[1];
    WorkPrepares(c, y, s.db.rows[y], e);
    WorkKeepsWaiting(c, x, s.db.rows[x], e);
    NextStage(c, s, e, Bootstrapping, Pending, Bootstrapping, Prepared);
  }

  lemma WorkKeepsWaiting(c: Config, n: NodeId, row: Row, e: Env)
    requires row.phase.Bootstrapping? && n !in e.generational
    ensures RowAfter(row, NodeWork(c, n, row, e)).phase == Bootstrapping
  {
  }

  lemma FirstIsPreparedAgain(c: Config, s: State, e: Env, e': Env)
    requires Stage(c, s, Bootstrapping, Prepared) && Everyone(c, e) && e == Silent(e) && e' == Reporting(e, WorkOrder(c)[0])
    ensures Stage(c, Whole(c, Whole(c, s, e'), e), Prepared, Prepared)
  {
    var x, y := WorkOrder(c)[0], WorkOrder(c)[1];
    WorkStartsOver(c, x, s.db.rows[x], e');
    PreparedWaits(c, y, s.db.rows[y], e');
    NextStage(c, s, e', Bootstrapping, Prepared, Pending, Prepared);
    var s1 := Whole(c, s, e');
    WorkPrepares(c, x, s1.db.rows[x], e);
    NextStage(c, s1, e, Pending, Prepared, Prepared, Prepared);
  }

  lemma PreparedWaits(c: Config, n: NodeId, row: Row, e: Env)
    requires row.phase.Prepared? && e.detour.DetourWait?
    ensures RowAfter(row, NodeWork(c, n, row, e)).phase == Prepared
  {
  }

  lemma StartStage(c: Config, s: State, count: nat)
    requires ValidConfig(c, count) && count >= 2 && s == Start(count)
    ensures Stage(c, s, Pending, Pending)
  {
    WorkOrderIsPermutation(c, count);
  }

  lemma BothPrepared(c: Config, s: State, e: Env, e': Env)
    requires Stage(c, s, Pending, Pending) && Everyone(c, e) && e == Silent(e) && e' == Reporting(e, WorkOrder(c)[0])
    ensures Stage(c, Whole(c, Whole(c, Whole(c, Whole(c, Whole(c, s, e), e), e), e'), e), Prepared, Prepared)
  {
    SecondIsPrepared(c, s, e);
    FirstIsPreparedAgain(c, Whole(c, Whole(c, Whole(c, s, e), e), e), e, e');
  }

  lemma TwoInHandFrom(c: Config, s: State, base: Env) returns (steps: seq<Step>)
    requires Stage(c, s, Pending, Pending) && Everyone(c, base)
    ensures CompleteTicks(c, s, steps) && forall i :: 0 <= i < |steps| ==> Everyone(c, steps[i].env)
    ensures Stage(c, Run(c, s, steps), Prepared, Prepared)
  {
    var e := Silent(base);
    var e' := Reporting(e, WorkOrder(c)[0]);
    BothPrepared(c, s, e, e');
    steps := FiveSteps(c, s, e, e');
  }

  /**
   With every node addressed and no crash, missing generation reports alone put
   two nodes in hand at once: the first is prepared again while the second is
   prepared.
   */
  lemma TwoNodesInHand(c: Config, count: nat, base: Env)
    requires ValidConfig(c, count) && count >= 2 && Everyone(c, base)
    ensures exists steps :: BothInHand(c, count, steps)
  {
    StartStage(c, Start(count), count);
    var steps := TwoInHandFrom(c, Start(count), base);
    assert BothInHand(c, count, steps);
  }

  /** Complete ticks from the start, everyone addressed, that leave the first two nodes prepared. */
  predicate BothInHand(c: Config, count: nat, steps: seq<Step>)
    requires ValidConfig(c, count)
  {
    && CompleteTicks(c, Start(count), steps) && (forall i :: 0 <= i < |steps| ==> Everyone(c, steps[i].env))
    && Stage(c, Run(c, Start(count), steps), Prepared, Prepared)
  }

  lemma FiveSteps(c: Config, s0: State, e1: Env, e4: Env) returns (steps: seq<Step>)
    requires ValidConfig(c, |s0.db.rows|)
    ensures CompleteTicks(c, s0, steps) && forall i :: 0 <= i < |steps| ==> steps[i].env == e1 || steps[i].env == e4
    ensures Run(c, s0, steps) == Whole(c, Whole(c, Whole(c, Whole(c, Whole(c, s0, e1), e1), e1), e4), e1)
  {
    var s1 := Whole(c, s0, e1);
    var s2 := Whole(c, s1, e1);
    var s3 := Whole(c, s2, e1);
    var s4 := Whole(c, s3, e4);
    steps := [WholeStep(c, s4, e1)];
    StepFirst(c, s4, WholeStep(c, s4, e1), []);
    assert [WholeStep(c, s4, e1)] + [] == steps;
    StepFirst(c, s3, WholeStep(c, s3, e4), steps);
    steps := [WholeStep(c, s3, e4)] + steps;
    StepFirst(c, s2, WholeStep(c, s2, e1), steps);
    steps := [WholeStep(c, s2, e1)] + steps;
    StepFirst(c, s1, WholeStep(c, s1, e1), steps);
    steps := [WholeStep(c, s1, e1)] + steps;
    StepFirst(c, s0, WholeStep(c, s0, e1), steps);
    steps := [WholeStep(c, s0, e1)] + steps;
  }
}
