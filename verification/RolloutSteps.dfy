/**
 What a step of the reconciler does to each node, whatever the surroundings: any
 node may lack an address or not report its generation in any tick, and the tick
 may stop after any of its calls and writes.
 */
module RolloutSteps {
  import opened Prelude
  import opened Canary
  import opened Rollout

  // ---- applying events ---------------------------------------------------

  lemma {:induction false} ApplyConcat(db: Db, xs: seq<Event>, ys: seq<Event>)
    ensures Apply(db, xs + ys) == Apply(Apply(db, xs), ys)
    decreases xs
  {
    if xs == [] {
      assert xs + ys == ys;
    } else {
      ApplyConcat(ApplyEvent(db, xs[0]), xs[1..], ys);
      assert (xs + ys)[1..] == xs[1..] + ys;
    }
  }

  function After(s: State, evs: seq<Event>): (s': State) {
    State(Apply(s.db, evs), s.log + evs)
  }

  lemma {:induction false} AfterConcat(s: State, xs: seq<Event>, ys: seq<Event>)
    ensures After(s, xs + ys) == After(After(s, xs), ys)
  {
    ApplyConcat(s.db, xs, ys);
    Assoc(s.log, xs, ys);
  }

  // ---- one node's part of a list of events ---------------------------------

  predicate About(ev: Event, n: NodeId) {
    !ev.Patch? && ev.node == n
  }

  /** What concerns node `n`. */
  function Story(log: seq<Event>, n: NodeId): (h: seq<Event>)
    ensures forall i :: 0 <= i < |h| ==> About(h[i], n)
  {
    if log == [] then [] else (if About(log[0], n) then [log[0]] else []) + Story(log[1..], n)
  }

  lemma {:induction false} StoryConcat(xs: seq<Event>, ys: seq<Event>, n: NodeId)
    ensures Story(xs + ys, n) == Story(xs, n) + Story(ys, n)
  {
    if xs == [] {
      assert xs + ys == ys;
    } else {
      StoryConcat(xs[1..], ys, n);
      assert (xs + ys)[1..] == xs[1..] + ys && (xs + ys)[0] == xs[0];
      Assoc(if About(xs[0], n) then [xs[0]] else [], Story(xs[1..], n), Story(ys, n));
    }
  }

  lemma {:induction false} StoryPrefix(evs: seq<Event>, n: NodeId, k: nat)
    requires k <= |evs|
    ensures Story(evs[..k], n) <= Story(evs, n)
  {
    assert evs == evs[..k] + evs[k..];
    StoryConcat(evs[..k], evs[k..], n);
  }

  lemma {:induction false} StoryOfOwn(evs: seq<Event>, n: NodeId)
    requires forall i :: 0 <= i < |evs| ==> About(evs[i], n)
    ensures Story(evs, n) == evs
  {
    if evs != [] {
      StoryOfOwn(evs[1..], n);
    }
  }

  lemma {:induction false} StoryOfOthers(evs: seq<Event>, n: NodeId)
    requires forall i :: 0 <= i < |evs| ==> !About(evs[i], n)
    ensures Story(evs, n) == []
  {
    if evs != [] {
      StoryOfOthers(evs[1..], n);
    }
  }

  lemma {:induction false} StoryMembers(log: seq<Event>, n: NodeId, ev: Event)
    ensures ev in Story(log, n) <==> ev in log && About(ev, n)
  {
    if log != [] {
      StoryMembers(log[1..], n, ev);
      assert log == [log[0]] + log[1..];
    }
  }

  /** The row a list of events about one node leaves. */
  function RowAfter(row: Row, evs: seq<Event>): (r: Row)
    decreases evs
  {
    if evs == [] then row
    else RowAfter(if evs[0].Write? then evs[0].row else row, evs[1..])
  }

  lemma {:induction false} RowAfterConcat(row: Row, xs: seq<Event>, ys: seq<Event>)
    ensures RowAfter(row, xs + ys) == RowAfter(RowAfter(row, xs), ys)
    decreases xs
  {
    if xs == [] {
      assert xs + ys == ys;
    } else {
      RowAfterConcat(if xs[0].Write? then xs[0].row else row, xs[1..], ys);
      assert (xs + ys)[1..] == xs[1..] + ys && (xs + ys)[0] == xs[0];
    }
  }

  lemma {:induction false} RowAfterLast(row: Row, evs: seq<Event>, last: Event)
    ensures RowAfter(row, evs + [last]) == if last.Write? then last.row else RowAfter(row, evs)
  {
    RowAfterConcat(row, evs, [last]);
    assert [last][1..] == [];
  }

  /** The last row written, or the row before. */
  lemma {:induction false} RowAfterIsWritten(n: NodeId, row: Row, evs: seq<Event>)
    requires forall i :: 0 <= i < |evs| ==> About(evs[i], n)
    ensures RowAfter(row, evs) == row || Write(n, RowAfter(row, evs)) in evs
    decreases evs
  {
    if evs != [] {
      RowAfterIsWritten(n, if evs[0].Write? then evs[0].row else row, evs[1..]);
      assert evs == [evs[0]] + evs[1..];
    }
  }

  /** A node's row depends on its own story only. */
  lemma {:induction false} ApplyStory(db: Db, evs: seq<Event>, n: NodeId)
    requires n < |db.rows|
    ensures Apply(db, evs).rows[n] == RowAfter(db.rows[n], Story(evs, n))
    decreases evs
  {
    if evs != [] {
      ApplyStory(ApplyEvent(db, evs[0]), evs[1..], n);
      var head := if About(evs[0], n) then [evs[0]] else [];
      RowAfterConcat(db.rows[n], head, Story(evs[1..], n));
      if About(evs[0], n) {
        assert head[1..] == [];
      }
    }
  }

  // ---- the walk ------------------------------------------------------------

  lemma {:induction false} NodeWorkIsOwn(c: Config, n: NodeId, row: Row, e: Env)
    ensures Own(NodeWork(c, n, row, e), n)
  {
    OwnRevert(n, row, e);
    match row.phase
    case Confirming => OwnConfirm(c, n, row, e);
    case RebootRequired => OwnReboot(c, n, row, e);
    case Rebooting => OwnReboot(c, n, row, e);
    case _ =>
  }

  lemma OwnConfirm(c: Config, n: NodeId, row: Row, e: Env)
    ensures Own(ConfirmWork(c, n, row, e), n)
  {
    OwnRevert(n, Refreshed(row, e), e);
  }

  lemma OwnReboot(c: Config, n: NodeId, row: Row, e: Env)
    ensures Own(RebootWork(c, n, row, e), n)
  {
    OwnRevert(n, row, e);
    OwnRevert(n, if e.status.Some? && e.status.value.target != "" then row.(target := e.status.value.target) else row, e);
  }

  predicate Own(evs: seq<Event>, n: NodeId) {
    forall i :: 0 <= i < |evs| ==> About(evs[i], n)
  }

  lemma OwnRevert(n: NodeId, row: Row, e: Env)
    ensures Own(Revert(n, row, e), n)
  {
  }

  // ---- phases ----------------------------------------------------------------

  predicate Finishing(p: Phase) {
    p.Succeeded? || p.Soaking?
  }

  /** The phases the work on a node in phase `p` can write. */
  predicate Next(p: Phase, q: Phase) {
    match p
    case Pending => q.Prepared? || q.Failed?
    case Prepared => q.Drained? || q.Failed? || q.Confirming? || q.RebootRequired? || q.Bootstrapping? || Finishing(q)
    case Drained => q.WaitingReady? || q.Failed?
    case WaitingReady => q.WaitingReady? || Finishing(q)
    case Bootstrapping => q.Pending?
    case Confirming => q.Confirming? || q.Failed? || Finishing(q)
    case RebootRequired => q.RebootRequired? || q.Rebooting? || q.Failed? || Finishing(q)
    case Rebooting => q.Failed? || Finishing(q)
    case Soaking => q.AwaitingPromotion? || q.Failed? || q.Succeeded?
    case AwaitingPromotion => q.Failed?
    case RollingBack => q.Failed? || q.Cancelled?
    case _ => false
  }

  predicate Follow(p: Phase, evs: seq<Event>) {
    forall i :: 0 <= i < |evs| && evs[i].Write? ==> Next(p, evs[i].row.phase)
  }

  lemma RevertFollows(p: Phase, n: NodeId, row: Row, e: Env)
    requires Next(p, Failed)
    ensures Follow(p, Revert(n, row, e))
  {
  }

  lemma ConfirmFollows(c: Config, n: NodeId, row: Row, e: Env)
    requires row.phase.Confirming?
    ensures Follow(Confirming, ConfirmWork(c, n, row, e))
  {
    RevertFollows(Confirming, n, Refreshed(row, e), e);
  }

  lemma RebootFollows(c: Config, n: NodeId, row: Row, e: Env)
    requires row.phase.RebootRequired? || row.phase.Rebooting?
    ensures Follow(row.phase, RebootWork(c, n, row, e))
  {
    RevertFollows(row.phase, n, row, e);
    if e.status.Some? {
      RevertFollows(row.phase, n, row.(target := e.status.value.target), e);
    }
  }

  lemma WorkFollows(c: Config, n: NodeId, row: Row, e: Env)
    ensures Follow(row.phase, NodeWork(c, n, row, e))
  {
    match row.phase
    case Confirming => ConfirmFollows(c, n, row, e);
    case RebootRequired => RebootFollows(c, n, row, e);
    case Rebooting => RebootFollows(c, n, row, e);
    case Soaking => RevertFollows(Soaking, n, row, e);
    case AwaitingPromotion => RevertFollows(AwaitingPromotion, n, row, e);
    case _ =>
  }

  /** Wherever the work on a node stops, its row is as before or in a phase the work can write. */
  lemma PartFollows(c: Config, n: NodeId, row: Row, e: Env, more: seq<Event>)
    requires more <= NodeWork(c, n, row, e)
    ensures var row' := RowAfter(row, more); row' == row || (Write(n, row') in more && Next(row.phase, row'.phase))
  {
    var all := NodeWork(c, n, row, e);
    NodeWorkIsOwn(c, n, row, e);
    assert forall i :: 0 <= i < |more| ==> more[i] == all[i];
    RowAfterIsWritten(n, row, more);
    WorkFollows(c, n, row, e);
  }

  /** The tick goes on past node `x`. */
  predicate Passes(rows: seq<Row>, e: Env, x: NodeId)
    requires x < |rows|
  {
    x !in e.addressed || !EndsTick(rows[x].phase)
  }

  predicate InRange(order: seq<NodeId>, count: nat) {
    forall i :: 0 <= i < |order| ==> order[i] < count
  }

  /** The walk comes to `n`: it has an address and every node before it is passed. */
  predicate Reached(rows: seq<Row>, order: seq<NodeId>, e: Env, n: NodeId)
    requires InRange(order, |rows|)
  {
    order != [] && if order[0] == n then n in e.addressed else Passes(rows, e, order[0]) && Reached(rows, order[1..], e, n)
  }

  lemma {:induction false} ReachedIff(rows: seq<Row>, order: seq<NodeId>, e: Env, i: nat)
    requires InRange(order, |rows|) && i < |order|
    requires forall j, k :: 0 <= j < k < |order| ==> order[j] != order[k]
    ensures Reached(rows, order, e, order[i]) <==> order[i] in e.addressed && forall j :: 0 <= j < i ==> Passes(rows, e, order[j])
  {
    if i > 0 {
      ReachedIff(rows, order[1..], e, i - 1);
      assert order[1..][i - 1] == order[i];
      assert forall j :: 1 <= j < i ==> order[j] == order[1..][j - 1];
    }
  }

  lemma {:induction false} WalkStory(c: Config, rows: seq<Row>, order: seq<NodeId>, e: Env, n: NodeId)
    requires InRange(order, |rows|) && n < |rows|
    requires forall j, k :: 0 <= j < k < |order| ==> order[j] != order[k]
    ensures Story(Walk(c, rows, order, e), n) == if Reached(rows, order, e, n) then NodeWork(c, n, rows[n], e) else []
  {
    if order != [] {
      var x, rest := order[0], order[1..];
      WalkStory(c, rows, rest, e, n);
      if x in e.addressed {
        var here := NodeWork(c, x, rows[x], e);
        NodeWorkIsOwn(c, x, rows[x], e);
        StoryConcat(here, Walk(c, rows, rest, e), n);
        if x == n {
          StoryOfOwn(here, n);
          NotListed(rows, rest, e, n);
        } else {
          StoryOfOthers(here, n);
        }
      } else if x == n {
        NotListed(rows, rest, e, n);
      }
    }
  }

  lemma {:induction false} NotListed(rows: seq<Row>, order: seq<NodeId>, e: Env, n: NodeId)
    requires InRange(order, |rows|) && n !in order
    ensures !Reached(rows, order, e, n)
  {
    if order != [] {
      NotListed(rows, order[1..], e, n);
    }
  }

  // ---- the tick --------------------------------------------------------------

  /** A failure is on record, so nodes that have not started are given up. */
  predicate GivingUp(db: Db) {
    !db.phase.Reverting? && AnyFailed(db.rows)
  }

  function CancelledRow(row: Row, e: Env): (r: Row) {
    row.(phase := Cancelled, since := e.done)
  }

  /** The cancellation of node `m`, if it has not started. */
  function CancelOne(rows: seq<Row>, m: nat, e: Env): (evs: seq<Event>)
    requires m < |rows|
  {
    if NotStarted(rows[m].phase) then [Write(m, CancelledRow(rows[m], e))] else []
  }

  lemma CancelStep(rows: seq<Row>, from: nat, e: Env)
    requires from < |rows|
    ensures CancelUnstarted(rows, from, e) == CancelOne(rows, from, e) + CancelUnstarted(rows, from + 1, e)
  {
  }

  lemma CancelOneStory(rows: seq<Row>, m: nat, e: Env, n: NodeId)
    requires m < |rows|
    ensures Story(CancelOne(rows, m, e), n) == if m == n then CancelOne(rows, m, e) else []
  {
    if m == n {
      StoryOfOwn(CancelOne(rows, m, e), n);
    } else {
      StoryOfOthers(CancelOne(rows, m, e), n);
    }
  }

  lemma {:induction false} CancelStory(rows: seq<Row>, from: nat, e: Env, n: NodeId)
    requires n < |rows|
    ensures Story(CancelUnstarted(rows, from, e), n) == if from <= n then CancelOne(rows, n, e) else []
    decreases |rows| - from
  {
    if from < |rows| {
      CancelStory(rows, from + 1, e, n);
      CancelStep(rows, from, e);
      StoryConcat(CancelOne(rows, from, e), CancelUnstarted(rows, from + 1, e), n);
      CancelOneStory(rows, from, e, n);
    }
  }

  /** The rows the walk sees: those of the database after the cancellations. */
  function Current(db: Db, e: Env): (rows: seq<Row>)
    ensures |rows| == |db.rows|
  {
    Apply(db, Cancels(db, e)).rows
  }

  lemma {:induction false} CurrentRow(db: Db, e: Env, n: NodeId)
    requires n < |db.rows|
    ensures Story(Cancels(db, e), n)
         == if GivingUp(db) && NotStarted(db.rows[n].phase) then [Write(n, CancelledRow(db.rows[n], e))] else []
    ensures Current(db, e)[n]
         == if GivingUp(db) && NotStarted(db.rows[n].phase) then CancelledRow(db.rows[n], e) else db.rows[n]
  {
    if GivingUp(db) {
      CancelStory(db.rows, 0, e, n);
    }
    ApplyStory(db, Cancels(db, e), n);
    var w := [Write(n, CancelledRow(db.rows[n], e))];
    assert w[1..] == [];
  }

  /** What a complete tick does to node `n`. */
  function NodeTick(c: Config, db: Db, e: Env, n: NodeId): (evs: seq<Event>)
    requires ValidConfig(c, |db.rows|) && n < |db.rows|
  {
    WorkOrderIsPermutation(c, |db.rows|);
    if GivingUp(db) && NotStarted(db.rows[n].phase) then [Write(n, CancelledRow(db.rows[n], e))]
    else if Reached(Current(db, e), WorkOrder(c), e, n) then NodeWork(c, n, db.rows[n], e)
    else []
  }

  /** The end of a tick: the verdict when every node is settled, otherwise the walk. */
  function Ending(c: Config, rows: seq<Row>, e: Env): (evs: seq<Event>)
    requires ValidConfig(c, |rows|)
  {
    WorkOrderIsPermutation(c, |rows|);
    if AllSettled(rows) then [Patch(Finished(FinalOutcome(rows)))] else Walk(c, rows, WorkOrder(c), e)
  }

  lemma EndingStory(c: Config, rows: seq<Row>, e: Env, n: NodeId)
    requires ValidConfig(c, |rows|) && n < |rows|
    ensures Covers(WorkOrder(c), |rows|)
    ensures Story(Ending(c, rows, e), n) == if Reached(rows, WorkOrder(c), e, n) then NodeWork(c, n, rows[n], e) else []
  {
    WorkOrderIsPermutation(c, |rows|);
    if AllSettled(rows) {
      StoryOfOthers(Ending(c, rows, e), n);
      assert Settled(rows[n].phase);
    } else {
      WalkStory(c, rows, WorkOrder(c), e, n);
    }
  }

  lemma StoryOfThree(xs: seq<Event>, ys: seq<Event>, zs: seq<Event>, n: NodeId)
    ensures Story(xs + ys + zs, n) == Story(xs, n) + Story(ys, n) + Story(zs, n)
  {
    StoryConcat(xs, ys, n);
    StoryConcat(xs + ys, zs, n);
  }

  lemma {:induction false} TickStory(c: Config, db: Db, e: Env, n: NodeId)
    requires ValidConfig(c, |db.rows|) && n < |db.rows|
    ensures Story(Tick(c, db, e), n) == NodeTick(c, db, e, n)
  {
    var rows := Current(db, e);
    assert Tick(c, db, e) == Opening(db) + Cancels(db, e) + Ending(c, rows, e);
    StoryOfThree(Opening(db), Cancels(db, e), Ending(c, rows, e), n);
    StoryOfOthers(Opening(db), n);
    CurrentRow(db, e, n);
    EndingStory(c, rows, e, n);
    if GivingUp(db) && NotStarted(db.rows[n].phase) {
      CancelledIsIdle(c, rows[n], e, n);
    }
  }

  lemma CancelledIsIdle(c: Config, row: Row, e: Env, n: NodeId)
    requires row.phase.Cancelled?
    ensures NodeWork(c, n, row, e) == []
  {
  }

  predicate GivenUp(db: Db, n: NodeId)
    requires n < |db.rows|
  {
    GivingUp(db) && NotStarted(db.rows[n].phase)
  }

  /** A part of what a tick does to a node is nothing, its cancellation, or a part of the work on it. */
  lemma PartOfTick(c: Config, db: Db, e: Env, n: NodeId, more: seq<Event>)
    requires ValidConfig(c, |db.rows|) && n < |db.rows| && more <= NodeTick(c, db, e, n)
    ensures Covers(WorkOrder(c), |db.rows|)
    ensures || more == []
            || (GivenUp(db, n) && more == [Write(n, CancelledRow(db.rows[n], e))])
            || (!GivenUp(db, n) && more <= NodeWork(c, n, db.rows[n], e) && Reached(Current(db, e), WorkOrder(c), e, n))
  {
    WorkOrderIsPermutation(c, |db.rows|);
  }

  /** Node `n`'s part of a step. */
  function NodePart(c: Config, s: State, step: Step, n: NodeId): (evs: seq<Event>)
    requires ValidConfig(c, |s.db.rows|)
  {
    Story(Performed(c, s.db, step), n)
  }

  /** Every step adds to a node's story some part of what a complete tick would, and its row follows. */
  lemma {:induction false} StepStory(c: Config, s: State, step: Step, n: NodeId)
    requires ValidConfig(c, |s.db.rows|) && n < |s.db.rows|
    ensures var more := NodePart(c, s, step, n);
            && Story(Exec(c, s, step).log, n) == Story(s.log, n) + more
            && Exec(c, s, step).db.rows[n] == RowAfter(s.db.rows[n], more)
            && more <= NodeTick(c, s.db, step.env, n)
            && (!Listed(s.db.phase) ==> more == [])
            && (Listed(s.db.phase) && step.ran >= |Tick(c, s.db, step.env)| ==> more == NodeTick(c, s.db, step.env, n))
  {
    var evs := Performed(c, s.db, step);
    StoryConcat(s.log, evs, n);
    ApplyStory(s.db, evs, n);
    if Listed(s.db.phase) {
      var all := Tick(c, s.db, step.env);
      var k := Min(step.ran, |all|);
      StoryPrefix(all, n, k);
      TickStory(c, s.db, step.env, n);
      assert k == |all| ==> all[..k] == all;
    }
  }
}
