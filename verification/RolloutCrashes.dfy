/**
 How often a node is told to activate when the controller may stop between any
 two of its calls and writes, and nodes may be drained, lose their address or not
 report their generation in any tick.
 */
module RolloutCrashes {
  import opened Prelude
  import opened Canary
  import opened Rollout
  import opened RolloutSteps
  import opened RolloutOrder

  function Activations(h: seq<Event>): (count: nat) {
    if h == [] then 0 else (if h[0].Call? && h[0].rpc.Activate? then 1 else 0) + Activations(h[1..])
  }

  lemma {:induction false} ActivationsAdd(xs: seq<Event>, ys: seq<Event>)
    ensures Activations(xs + ys) == Activations(xs) + Activations(ys)
  {
    if xs == [] {
      assert xs + ys == ys;
    } else {
      ActivationsAdd(xs[1..], ys);
      assert (xs + ys)[1..] == xs[1..] + ys && (xs + ys)[0] == xs[0];
    }
  }

  lemma {:induction false} NoActivations(evs: seq<Event>)
    requires forall i :: 0 <= i < |evs| && evs[i].Call? ==> !evs[i].rpc.Activate?
    ensures Activations(evs) == 0
  {
    if evs != [] {
      NoActivations(evs[1..]);
    }
  }

  // ---- phases from which nothing activates again -----------------------------------

  predicate Late(p: Phase) {
    !NotStarted(p) && !p.Drained? && !p.Bootstrapping?
  }

  predicate Quiet(evs: seq<Event>) {
    forall i :: 0 <= i < |evs| && evs[i].Call? ==> !evs[i].rpc.Activate?
  }

  lemma LateWorkIsQuiet(c: Config, n: NodeId, row: Row, e: Env)
    requires Late(row.phase)
    ensures Quiet(NodeWork(c, n, row, e))
  {
    assert Quiet(Revert(n, row, e));
    match row.phase
    case Confirming => assert Quiet(Revert(n, Refreshed(row, e), e));
    case RebootRequired => QuietReboot(c, n, row, e);
    case Rebooting => QuietReboot(c, n, row, e);
    case _ =>
  }

  lemma QuietReboot(c: Config, n: NodeId, row: Row, e: Env)
    ensures Quiet(RebootWork(c, n, row, e))
  {
    assert Quiet(Revert(n, row, e));
    if e.status.Some? {
      assert Quiet(Revert(n, row.(target := e.status.value.target), e));
    }
  }

  lemma LatePartIsQuiet(c: Config, n: NodeId, row: Row, e: Env, more: seq<Event>)
    requires Late(row.phase) && more <= NodeWork(c, n, row, e)
    ensures Late(RowAfter(row, more).phase) && Activations(more) == 0
  {
    PartFollows(c, n, row, e, more);
    LateWorkIsQuiet(c, n, row, e);
    assert forall i :: 0 <= i < |more| ==> more[i] == NodeWork(c, n, row, e)[i];
    NoActivations(more);
  }

  lemma LateStepIsQuiet(c: Config, s: State, step: Step, n: NodeId)
    requires ValidConfig(c, |s.db.rows|) && n < |s.db.rows| && Late(s.db.rows[n].phase)
    ensures Late(Exec(c, s, step).db.rows[n].phase)
    ensures Activations(NodePart(c, s, step, n)) == 0
  {
    var more := NodePart(c, s, step, n);
    StepStory(c, s, step, n);
    PartOfTick(c, s.db, step.env, n, more);
    if more != [] {
      LatePartIsQuiet(c, n, s.db.rows[n], step.env, more);
    }
  }

  lemma {:induction false} LateRunIsQuiet(c: Config, s: State, steps: seq<Step>, n: NodeId)
    requires ValidConfig(c, |s.db.rows|) && n < |s.db.rows| && Late(s.db.rows[n].phase)
    ensures Activations(Story(Run(c, s, steps).log, n)) == Activations(Story(s.log, n))
    decreases steps
  {
    if steps != [] {
      LateStepIsQuiet(c, s, steps[0], n);
      StepStory(c, s, steps[0], n);
      ActivationsAdd(Story(s.log, n), NodePart(c, s, steps[0], n));
      LateRunIsQuiet(c, Exec(c, s, steps[0]), steps[1..], n);
    }
  }

  // ---- protected activations --------------------------------------------------------

  /** The activation ends with the node waiting for its generation report. */
  predicate Bootstraps(n: NodeId, e: Env) {
    e.activate.ActivateOk? && !e.activate.requiresReboot && !e.activate.rebootPhase && n !in e.generational
  }

  /** Straight from a prepared row that can be confirmed, on a node that will not have to wait for its report. */
  predicate Protected(c: Config, n: NodeId, row: Row, e: Env) {
    row.phase.Prepared? && MayConfirm(c, row) && !Bootstraps(n, e)
  }

  /** Once a protected activation has been called, the row is past activating, wherever the tick stops. */
  lemma ProtectedPartIsLate(c: Config, n: NodeId, row: Row, e: Env, more: seq<Event>)
    requires Protected(c, n, row, e) && more <= NodeWork(c, n, row, e)
    ensures Activations(more) <= 1
    ensures Activations(more) == 1 ==> Late(RowAfter(row, more).phase)
  {
    var all := PreparedWork(c, n, row, e);
    if e.detour.NoDetour? {
      assert |all| == 3 && all[0].Write? && Late(all[0].row.phase) && all[1] == Call(Activate, n) && all[2].Write? && Late(all[2].row.phase);
      ThreePart(row, all, more);
    } else {
      assert forall i :: 0 <= i < |more| ==> more[i] == all[i];
      NoActivations(more);
    }
  }

  lemma ThreePart(row: Row, all: seq<Event>, more: seq<Event>)
    requires |all| == 3 && all[0].Write? && all[1].Call? && all[1].rpc.Activate? && all[2].Write? && more <= all
    ensures Activations(more) == if |more| >= 2 then 1 else 0
    ensures |more| == 2 ==> RowAfter(row, more) == all[0].row
    ensures |more| == 3 ==> RowAfter(row, more) == all[2].row
  {
    if |more| == 0 {
    } else if |more| == 1 {
      assert more == [all[0]] && more[1..] == [];
    } else {
      var rest := more[1..];
      var last := rest[1..];
      assert rest[0] == all[1] && more[0] == all[0];
      assert RowAfter(row, more) == RowAfter(all[0].row, rest) == RowAfter(all[0].row, last);
      assert Activations(more) == Activations(rest) == 1 + Activations(last);
      if |more| == 2 {
        assert last == [];
      } else {
        assert last == [all[2]] && last[1..] == [];
        assert RowAfter(all[0].row, last) == RowAfter(all[2].row, last[1..]);
      }
    }
  }

  /** Every activation of node `n` in the run is protected. */
  predicate Sheltered(c: Config, s: State, steps: seq<Step>, n: NodeId)
    requires ValidConfig(c, |s.db.rows|) && n < |s.db.rows|
    decreases steps
  {
    steps == [] ||
    ((Activations(NodePart(c, s, steps[0], n)) > 0 ==> Protected(c, n, s.db.rows[n], steps[0].env))
     && Sheltered(c, Exec(c, s, steps[0]), steps[1..], n))
  }

  predicate OnceSoFar(row: Row, h: seq<Event>) {
    Activations(h) == 0 || (Activations(h) == 1 && Late(row.phase))
  }

  lemma StepStaysOnce(c: Config, s: State, step: Step, n: NodeId)
    requires ValidConfig(c, |s.db.rows|) && n < |s.db.rows| && OnceSoFar(s.db.rows[n], Story(s.log, n))
    requires Activations(NodePart(c, s, step, n)) > 0 ==> Protected(c, n, s.db.rows[n], step.env)
    ensures var s' := Exec(c, s, step); OnceSoFar(s'.db.rows[n], Story(s'.log, n))
  {
    var more, row := NodePart(c, s, step, n), s.db.rows[n];
    StepStory(c, s, step, n);
    ActivationsAdd(Story(s.log, n), more);
    if Late(row.phase) {
      LateStepIsQuiet(c, s, step, n);
    } else if Activations(more) > 0 {
      PartOfTick(c, s.db, step.env, n, more);
      if GivenUp(s.db, n) {
        NoActivations(more);
      } else {
        ProtectedPartIsLate(c, n, row, step.env, more);
      }
    }
  }

  lemma {:induction false} RunStaysOnce(c: Config, s: State, steps: seq<Step>, n: NodeId)
    requires ValidConfig(c, |s.db.rows|) && n < |s.db.rows| && OnceSoFar(s.db.rows[n], Story(s.log, n))
    requires Sheltered(c, s, steps, n)
    ensures var s' := Run(c, s, steps); OnceSoFar(s'.db.rows[n], Story(s'.log, n))
    decreases steps
  {
    if steps != [] {
      StepStaysOnce(c, s, steps[0], n);
      RunStaysOnce(c, Exec(c, s, steps[0]), steps[1..], n);
    }
  }

  /** However often the controller crashes, a node whose activations are all protected is told to activate at most once. */
  lemma ActivatedAtMostOnce(c: Config, count: nat, steps: seq<Step>, n: NodeId)
    requires ValidConfig(c, count) && n < count && Sheltered(c, Start(count), steps, n)
    ensures Activations(Story(Run(c, Start(count), steps).log, n)) <= 1
  {
    RunStaysOnce(c, Start(count), steps, n);
  }

  // ---- complete ticks on one node -----------------------------------------------------

  function Whole(c: Config, s: State, e: Env): (s': State)
    requires ValidConfig(c, |s.db.rows|)
  {
    Exec(c, s, Step(e, |Tick(c, s.db, e)|))
  }

  lemma {:induction false} LoneNodeIsReached(rows: seq<Row>, order: seq<NodeId>, e: Env, n: NodeId)
    requires InRange(order, |rows|) && n in order && e.addressed == {n}
    ensures Reached(rows, order, e, n)
  {
    if order[0] != n {
      LoneNodeIsReached(rows, order[1..], e, n);
    }
  }

  /** With no other node reachable, and the node not given up, a step works on it. */
  lemma LoneTick(c: Config, s: State, e: Env, n: NodeId)
    requires ValidConfig(c, |s.db.rows|) && n < |s.db.rows| && e.addressed == {n} && !GivenUp(s.db, n)
    ensures NodeTick(c, s.db, e, n) == NodeWork(c, n, s.db.rows[n], e)
  {
    WorkOrderIsPermutation(c, |s.db.rows|);
    assert Lists(WorkOrder(c), n);
    LoneNodeIsReached(Current(s.db, e), WorkOrder(c), e, n);
  }

  /** A complete lone tick. */
  lemma LoneWork(c: Config, s: State, e: Env, n: NodeId)
    requires ValidConfig(c, |s.db.rows|) && n < |s.db.rows| && e.addressed == {n} && Listed(s.db.phase)
    requires !GivingUp(s.db) && !s.db.phase.Reverting?
    requires var row' := RowAfter(s.db.rows[n], NodeWork(c, n, s.db.rows[n], e)); !Settled(row'.phase)
    ensures var s', work := Whole(c, s, e), NodeWork(c, n, s.db.rows[n], e);
            && s'.db.rows[n] == RowAfter(s.db.rows[n], work)
            && Story(s'.log, n) == Story(s.log, n) + work
            && Listed(s'.db.phase) && !GivingUp(s'.db) && !s'.db.phase.Reverting?
  {
    LoneTick(c, s, e, n);
    StepStory(c, s, Step(e, |Tick(c, s.db, e)|), n);
    StillUnfailed(c, s, e, n);
    StepPhase(c, s, Step(e, |Tick(c, s.db, e)|));
  }

  lemma StillUnfailed(c: Config, s: State, e: Env, n: NodeId)
    requires ValidConfig(c, |s.db.rows|) && n < |s.db.rows| && e.addressed == {n} && Listed(s.db.phase) && !GivingUp(s.db)
    requires !s.db.phase.Reverting? && !Whole(c, s, e).db.rows[n].phase.Failed?
    ensures !AnyFailed(Whole(c, s, e).db.rows)
  {
    var s', step := Whole(c, s, e), Step(e, |Tick(c, s.db, e)|);
    forall x | 0 <= x < |s.db.rows| && x != n
      ensures s'.db.rows[x] == s.db.rows[x]
    {
      OthersIdle(c, s, step, n, x);
    }
  }

  lemma OthersIdle(c: Config, s: State, step: Step, n: NodeId, x: NodeId)
    requires ValidConfig(c, |s.db.rows|) && x < |s.db.rows| && x != n && step.env.addressed == {n} && !GivingUp(s.db)
    ensures Exec(c, s, step).db.rows[x] == s.db.rows[x]
  {
    var more := NodePart(c, s, step, x);
    StepStory(c, s, step, x);
    PartOfTick(c, s.db, step.env, x, more);
    if more != [] {
      UnaddressedIsNotReached(Current(s.db, step.env), WorkOrder(c), step.env, x);
    }
  }

  lemma {:induction false} UnaddressedIsNotReached(rows: seq<Row>, order: seq<NodeId>, e: Env, x: NodeId)
    requires InRange(order, |rows|) && x !in e.addressed
    ensures !Reached(rows, order, e, x)
  {
    if order != [] && order[0] != x {
      UnaddressedIsNotReached(rows, order[1..], e, x);
    }
  }

  // ---- exactly which activations can be repeated ------------------------------------

  /** The tick in these surroundings tells the node to activate. */
  predicate TickActivates(c: Config, s: State, e: Env, n: NodeId)
    requires ValidConfig(c, |s.db.rows|) && n < |s.db.rows|
  {
    Listed(s.db.phase) && !s.db.phase.Reverting? && Activations(NodeTick(c, s.db, e, n)) > 0
  }

  /** A node is activated by a tick only when prepared without a detour and nobody failed, or when drained. */
  lemma WhenActivated(c: Config, s: State, e: Env, n: NodeId)
    requires ValidConfig(c, |s.db.rows|) && n < |s.db.rows| && TickActivates(c, s, e, n)
    ensures var row := s.db.rows[n];
            && NodeTick(c, s.db, e, n) == NodeWork(c, n, row, e)
            && ((row.phase.Prepared? && e.detour.NoDetour? && !GivingUp(s.db)) || row.phase.Drained?)
  {
    var row, all := s.db.rows[n], NodeTick(c, s.db, e, n);
    PartOfTick(c, s.db, e, n, all);
    if GivenUp(s.db, n) {
      NoActivations(all);
    } else if Late(row.phase) {
      LateWorkIsQuiet(c, n, row, e);
      NoActivations(all);
    } else if row.phase.Pending? || row.phase.Bootstrapping? || (row.phase.Prepared? && !e.detour.NoDetour?) {
      NoActivations(NodeWork(c, n, row, e));
    }
  }

  /** Calling and dying before the row is written: the next tick finds the row as it was. */
  lemma DiesAfterTheCall(c: Config, s: State, e: Env, n: NodeId) returns (ran: nat)
    requires ValidConfig(c, |s.db.rows|) && n < |s.db.rows| && TickActivates(c, s, e, n)
    requires NodeTick(c, s.db, e, n)[0] == Call(Activate, n)
    ensures NodePart(c, s, Step(e, ran), n) == [Call(Activate, n)]
    ensures ran < |Tick(c, s.db, e)|
  {
    var all := Tick(c, s.db, e);
    TickStory(c, s.db, e, n);
    WhenActivated(c, s, e, n);
    ran := CutAfterFirst(all, n);
    assert Min(ran, |all|) == ran;
  }

  /** A cut right after the node's first event, when there are more. */
  lemma {:induction false} CutAfterFirst(evs: seq<Event>, n: NodeId) returns (k: nat)
    requires |Story(evs, n)| >= 2
    ensures k < |evs| && Story(evs[..k], n) == [Story(evs, n)[0]]
  {
    if About(evs[0], n) {
      k := 1;
      assert evs[..1] == [evs[0]] && [evs[0]][1..] == [];
    } else {
      assert Story(evs, n) == [] + Story(evs[1..], n) == Story(evs[1..], n);
      k := CutAfterFirst(evs[1..], n);
      k := k + 1;
      assert evs[..k][0] == evs[0] && evs[..k][1..] == evs[1..][..k - 1];
    }
  }

  /** A tick works on one node only: of two reached nodes one does not end the tick. */
  lemma {:induction false} OneEndsTick(rows: seq<Row>, order: seq<NodeId>, e: Env, x: NodeId, y: NodeId)
    requires InRange(order, |rows|) && x != y && x < |rows| && y < |rows|
    requires Reached(rows, order, e, x) && Reached(rows, order, e, y)
    ensures !EndsTick(rows[x].phase) || !EndsTick(rows[y].phase)
  {
    if order[0] != x && order[0] != y {
      OneEndsTick(rows, order[1..], e, x, y);
    }
  }

  /** A tick that works on `n` fails no other node. */
  lemma OthersDoNotFail(c: Config, s: State, step: Step, n: NodeId, x: NodeId)
    requires ValidConfig(c, |s.db.rows|) && n < |s.db.rows| && x < |s.db.rows| && x != n
    requires !GivingUp(s.db) && !s.db.phase.Reverting? && !s.db.rows[x].phase.Failed?
    requires EndsTick(s.db.rows[n].phase) && NodeTick(c, s.db, step.env, n) != []
    ensures !Exec(c, s, step).db.rows[x].phase.Failed?
  {
    var more, all := NodePart(c, s, step, x), NodeTick(c, s.db, step.env, n);
    StepStory(c, s, step, x);
    PartOfTick(c, s.db, step.env, x, more);
    PartOfTick(c, s.db, step.env, n, all);
    assert Current(s.db, step.env) == s.db.rows;
    if more != [] {
      OneEndsTick(s.db.rows, WorkOrder(c), step.env, n, x);
      PartFollows(c, x, s.db.rows[x], step.env, more);
    }
  }

  /** After any part of a tick that activates a prepared node, nobody has failed unless that node has. */
  lemma NobodyElseFailed(c: Config, s: State, step: Step, n: NodeId)
    requires ValidConfig(c, |s.db.rows|) && n < |s.db.rows| && TickActivates(c, s, step.env, n)
    requires s.db.rows[n].phase.Prepared? && !Settled(Exec(c, s, step).db.rows[n].phase)
    ensures !AnyFailed(Exec(c, s, step).db.rows)
  {
    WhenActivated(c, s, step.env, n);
    forall x | 0 <= x < |s.db.rows| && x != n
      ensures !Exec(c, s, step).db.rows[x].phase.Failed?
    {
      OthersDoNotFail(c, s, step, n, x);
    }
  }

  lemma StillListed(c: Config, s: State, step: Step, n: NodeId)
    requires ValidConfig(c, |s.db.rows|) && n < |s.db.rows| && Listed(s.db.phase) && !s.db.phase.Reverting?
    requires !Settled(Exec(c, s, step).db.rows[n].phase)
    ensures Listed(Exec(c, s, step).db.phase) && !Exec(c, s, step).db.phase.Reverting?
  {
    StepPhase(c, s, step);
  }

  /** No tick of the run is cut. */
  predicate CompleteTicks(c: Config, s: State, steps: seq<Step>)
    requires ValidConfig(c, |s.db.rows|)
    decreases steps
  {
    steps == [] || (steps[0].ran >= |Tick(c, s.db, steps[0].env)| && CompleteTicks(c, Exec(c, s, steps[0]), steps[1..]))
  }

  /** From a prepared or drained row that is not given up, one tick activates. */
  lemma OneMoreTick(c: Config, s: State, e: Env, n: NodeId) returns (steps: seq<Step>)
    requires ValidConfig(c, |s.db.rows|) && n < |s.db.rows| && Listed(s.db.phase) && !s.db.phase.Reverting?
    requires (s.db.rows[n].phase.Prepared? && !AnyFailed(s.db.rows)) || s.db.rows[n].phase.Drained?
    ensures Activations(Story(Run(c, s, steps).log, n)) > Activations(Story(s.log, n)) && CompleteTicks(c, s, steps)
  {
    var e', row := e.(addressed := {n}, detour := NoDetour), s.db.rows[n];
    var step := Step(e', |Tick(c, s.db, e')|);
    steps := [step];
    LoneTick(c, s, e', n);
    StepStory(c, s, step, n);
    var work := NodeWork(c, n, row, e');
    WorkActivates(c, n, row, e');
    ActivationsAdd(Story(s.log, n), work);
    assert steps[1..] == [] && Run(c, s, steps) == Exec(c, s, step);
  }

  lemma WorkActivates(c: Config, n: NodeId, row: Row, e: Env)
    requires (row.phase.Prepared? && e.detour.NoDetour?) || row.phase.Drained?
    ensures Activations(NodeWork(c, n, row, e)) == 1
  {
    var work := NodeWork(c, n, row, e);
    if row.phase.Prepared? && MayConfirm(c, row) {
      ThreePart(row, work, work);
    } else {
      assert |work| == 2 && work[1..] == [work[1]] && [work[1]][1..] == [];
      assert Activations(work) == 1 + Activations([work[1]]);
    }
  }

  /** A call that is not recorded beforehand is repeated after a crash. */
  lemma UnrecordedCallIsRepeated(c: Config, s: State, e: Env, n: NodeId) returns (ran: nat, steps: seq<Step>)
    requires ValidConfig(c, |s.db.rows|) && n < |s.db.rows| && TickActivates(c, s, e, n)
    requires var row := s.db.rows[n]; row.phase.Drained? || !MayConfirm(c, row)
    ensures var s1 := Exec(c, s, Step(e, ran));
            && Activations(NodePart(c, s, Step(e, ran), n)) == 1
            && Activations(Story(Run(c, s1, steps).log, n)) > Activations(Story(s1.log, n))
  {
    var row := s.db.rows[n];
    WhenActivated(c, s, e, n);
    assert NodeWork(c, n, row, e)[0] == Call(Activate, n);
    ran := DiesAfterTheCall(c, s, e, n);
    var step, part := Step(e, ran), [Call(Activate, n)];
    StepStory(c, s, step, n);
    assert part[1..] == [] && RowAfter(row, part) == row && Activations(part) == 1;
    StillListed(c, s, step, n);
    if row.phase.Prepared? {
      NobodyElseFailed(c, s, step, n);
    }
    steps := OneMoreTick(c, Exec(c, s, step), e, n);
  }

  /** A node left waiting for its generation report is prepared and activated again, with no crash at all. */
  lemma BootstrappedNodeIsActivatedAgain(c: Config, s: State, e: Env, n: NodeId) returns (steps: seq<Step>)
    requires ValidConfig(c, |s.db.rows|) && n < |s.db.rows| && TickActivates(c, s, e, n)
    requires s.db.rows[n].phase.Prepared? && Bootstraps(n, e)
    ensures var s1 := Whole(c, s, e);
            && Activations(NodePart(c, s, Step(e, |Tick(c, s.db, e)|), n)) == 1
            && Activations(Story(Run(c, s1, steps).log, n)) > Activations(Story(s1.log, n))
            && CompleteTicks(c, s1, steps)
  {
    var row, step := s.db.rows[n], Step(e, |Tick(c, s.db, e)|);
    WhenActivated(c, s, e, n);
    StepStory(c, s, step, n);
    WorkActivates(c, n, row, e);
    var s1 := Whole(c, s, e);
    LastWrite(row, NodeWork(c, n, row, e));
    StillListed(c, s, step, n);
    NobodyElseFailed(c, s, step, n);
    steps := BackToPrepared(c, s1, e, n);
  }

  lemma LastWrite(row: Row, evs: seq<Event>)
    requires evs != [] && evs[|evs| - 1].Write?
    ensures RowAfter(row, evs) == evs[|evs| - 1].row
  {
    assert evs == evs[..|evs| - 1] + [evs[|evs| - 1]];
    RowAfterLast(row, evs[..|evs| - 1], evs[|evs| - 1]);
  }

  /** The update is open and nobody has failed. */
  predicate Open(s: State) {
    Listed(s.db.phase) && !s.db.phase.Reverting? && !AnyFailed(s.db.rows)
  }

  lemma StepFirst(c: Config, s: State, step: Step, rest: seq<Step>)
    requires ValidConfig(c, |s.db.rows|)
    ensures Run(c, s, [step] + rest) == Run(c, Exec(c, s, step), rest)
    ensures CompleteTicks(c, s, [step] + rest) <==> step.ran >= |Tick(c, s.db, step.env)| && CompleteTicks(c, Exec(c, s, step), rest)
  {
    assert ([step] + rest)[1..] == rest;
  }

  function WholeStep(c: Config, s: State, e: Env): (step: Step)
    requires ValidConfig(c, |s.db.rows|)
  {
    Step(e, |Tick(c, s.db, e)|)
  }

  /** A complete lone tick that ends with an unsettled row and activates nothing. */
  lemma QuietTick(c: Config, s: State, e: Env, n: NodeId)
    requires ValidConfig(c, |s.db.rows|) && n < |s.db.rows| && Open(s) && e.addressed == {n}
    requires var work := NodeWork(c, n, s.db.rows[n], e);
             Quiet(work) && work != [] && work[|work| - 1].Write? && !Settled(work[|work| - 1].row.phase)
    ensures var s', work := Whole(c, s, e), NodeWork(c, n, s.db.rows[n], e);
            && Open(s') && s'.db.rows[n] == work[|work| - 1].row
            && Activations(Story(s'.log, n)) == Activations(Story(s.log, n))
  {
    var work := NodeWork(c, n, s.db.rows[n], e);
    LastWrite(s.db.rows[n], work);
    LoneWork(c, s, e, n);
    NoActivations(work);
    ActivationsAdd(Story(s.log, n), work);
  }

  lemma BackToPrepared(c: Config, s: State, e: Env, n: NodeId) returns (steps: seq<Step>)
    requires ValidConfig(c, |s.db.rows|) && n < |s.db.rows| && Open(s) && s.db.rows[n].phase.Bootstrapping?
    ensures Activations(Story(Run(c, s, steps).log, n)) > Activations(Story(s.log, n)) && CompleteTicks(c, s, steps)
  {
    var e2 := e.(addressed := {n}, generational := {n}, prepare := PrepareOk("", false));
    QuietTick(c, s, e2, n);
    var s2 := Whole(c, s, e2);
    QuietTick(c, s2, e2, n);
    var s3 := Whole(c, s2, e2);
    var more := OneMoreTick(c, s3, e, n);
    StepFirst(c, s2, WholeStep(c, s2, e2), more);
    steps := [WholeStep(c, s, e2)] + ([WholeStep(c, s2, e2)] + more);
    StepFirst(c, s, WholeStep(c, s, e2), [WholeStep(c, s2, e2)] + more);
  }

  /** No further activation follows, wherever this tick stops after the call and whatever comes next. */
  ghost predicate NeverAgain(c: Config, s: State, e: Env, n: NodeId)
    requires ValidConfig(c, |s.db.rows|) && n < |s.db.rows|
  {
    forall ran: nat, steps: seq<Step> :: Activations(NodePart(c, s, Step(e, ran), n)) > 0 ==>
      var s1 := Exec(c, s, Step(e, ran));
      Activations(Story(Run(c, s1, steps).log, n)) == Activations(Story(s1.log, n))
  }

  /**
   An activation is never repeated exactly when it is protected: straight from a
   prepared row, with something to confirm, and not leaving the node waiting for
   its generation report.
   */
  lemma NeverAgainIff(c: Config, s: State, e: Env, n: NodeId)
    requires ValidConfig(c, |s.db.rows|) && n < |s.db.rows| && TickActivates(c, s, e, n)
    ensures NeverAgain(c, s, e, n) <==> Protected(c, n, s.db.rows[n], e)
  {
    WhenActivated(c, s, e, n);
    if Protected(c, n, s.db.rows[n], e) {
      forall ran: nat, steps: seq<Step> | Activations(NodePart(c, s, Step(e, ran), n)) > 0
        ensures var s1 := Exec(c, s, Step(e, ran));
                Activations(Story(Run(c, s1, steps).log, n)) == Activations(Story(s1.log, n))
      {
        var step := Step(e, ran);
        StepStory(c, s, step, n);
        ProtectedPartIsLate(c, n, s.db.rows[n], e, NodePart(c, s, step, n));
        LateRunIsQuiet(c, Exec(c, s, step), steps, n);
      }
    } else if s.db.rows[n].phase.Drained? || !MayConfirm(c, s.db.rows[n]) {
      var ran, steps := UnrecordedCallIsRepeated(c, s, e, n);
      assert !NeverAgain(c, s, e, n);
    } else {
      var steps := BootstrappedNodeIsActivatedAgain(c, s, e, n);
      assert Activations(NodePart(c, s, Step(e, |Tick(c, s.db, e)|), n)) > 0;
    }
  }

  // ---- both failures from the start ---------------------------------------------------

  /** Any node can be prepared first, with something to confirm. */
  lemma PreparedFromStart(c: Config, count: nat, e: Env, n: NodeId) returns (e1: Env)
    requires ValidConfig(c, count) && n < count
    ensures var s := Whole(c, Start(count), e1);
            && Open(s) && Activations(Story(s.log, n)) == 0
            && s.db.rows[n].phase.Prepared? && s.db.rows[n].target != "" && !s.db.rows[n].requiresReboot
  {
    e1 := e.(addressed := {n}, prepare := PrepareOk("g", false));
    QuietTick(c, Start(count), e1, n);
  }

  /** From the start, with no crash and nothing drained: a confirmable node that does not report its generation is activated twice. */
  lemma UnreportingNodeIsActivatedTwice(c: Config, count: nat, e: Env, n: NodeId) returns (steps: seq<Step>)
    requires ValidConfig(c, count) && n < count && !c.bootMode
    ensures CompleteTicks(c, Start(count), steps) && Activations(Story(Run(c, Start(count), steps).log, n)) >= 2
  {
    var e1 := PreparedFromStart(c, count, e, n);
    var s1 := Whole(c, Start(count), e1);
    var e2 := e.(addressed := {n}, generational := {}, detour := NoDetour, activate := ActivateOk(false, false, ""));
    LoneTick(c, s1, e2, n);
    WorkActivates(c, n, s1.db.rows[n], e2);
    var more := BootstrappedNodeIsActivatedAgain(c, s1, e2, n);
    ActivatedOnce(c, s1, WholeStep(c, s1, e2), n);
    StepFirst(c, s1, WholeStep(c, s1, e2), more);
    steps := [WholeStep(c, Start(count), e1)] + ([WholeStep(c, s1, e2)] + more);
    StepFirst(c, Start(count), WholeStep(c, Start(count), e1), [WholeStep(c, s1, e2)] + more);
  }

  lemma ActivatedOnce(c: Config, s: State, step: Step, n: NodeId)
    requires ValidConfig(c, |s.db.rows|) && n < |s.db.rows|
    ensures Activations(Story(Exec(c, s, step).log, n)) == Activations(Story(s.log, n)) + Activations(NodePart(c, s, step, n))
  {
    StepStory(c, s, step, n);
    ActivationsAdd(Story(s.log, n), NodePart(c, s, step, n));
  }

  /** From the start: a confirmable node that is drained, and whose activation is cut right after the call, is activated twice. */
  lemma DrainedNodeIsActivatedTwice(c: Config, count: nat, e: Env, n: NodeId) returns (steps: seq<Step>)
    requires ValidConfig(c, count) && n < count
    ensures Activations(Story(Run(c, Start(count), steps).log, n)) >= 2
  {
    var e1 := PreparedFromStart(c, count, e, n);
    var s1 := Whole(c, Start(count), e1);
    var e2 := e.(addressed := {n}, detour := DetourDrained);
    QuietTick(c, s1, e2, n);
    var s2 := Whole(c, s1, e2);
    LoneTick(c, s2, e2, n);
    WorkActivates(c, n, s2.db.rows[n], e2);
    var ran, more := UnrecordedCallIsRepeated(c, s2, e2, n);
    ActivatedOnce(c, s2, Step(e2, ran), n);
    StepFirst(c, s2, Step(e2, ran), more);
    StepFirst(c, s1, WholeStep(c, s1, e2), [Step(e2, ran)] + more);
    steps := [WholeStep(c, Start(count), e1)] + ([WholeStep(c, s1, e2)] + ([Step(e2, ran)] + more));
    StepFirst(c, Start(count), WholeStep(c, Start(count), e1), [WholeStep(c, s1, e2)] + ([Step(e2, ran)] + more));
  }
}
