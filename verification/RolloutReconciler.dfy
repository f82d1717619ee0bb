/**
 The reconciler as it runs: stored rows updated in place, one call or write at
 a time. Each method performs exactly the events its specification lists.
 */
module RolloutReconciler {
  import opened Canary
  import opened Rollout
  import opened RolloutSteps

  class UpdateReconciler {
    var phase: UpdatePhase
    var rows: seq<Row>
    ghost var log: seq<Event>

    ghost function Stored(): (s: State)
      reads this
    {
      State(Db(phase, rows), log)
    }

    constructor (count: nat)
      ensures Stored() == Start(count)
    {
      phase, rows, log := Ready, seq(count, _ => FRESH), [];
    }

    method CallNode(rpc: Rpc, n: NodeId)
      modifies this
      ensures Stored() == After(old(Stored()), [Call(rpc, n)])
    {
      log := log + [Call(rpc, n)];
      assert [Call(rpc, n)][1..] == [] && Apply(ApplyEvent(Db(phase, rows), Call(rpc, n)), []) == Db(phase, rows);
    }

    method Upsert(n: NodeId, row: Row)
      requires n < |rows|
      modifies this
      ensures Stored() == After(old(Stored()), [Write(n, row)]) && |rows| == |old(rows)|
    {
      ghost var db := Db(phase, rows);
      rows := rows[n := row];
      log := log + [Write(n, row)];
      assert [Write(n, row)][1..] == [] && Apply(ApplyEvent(db, Write(n, row)), []) == Db(phase, rows);
    }

    method PatchPhase(p: UpdatePhase)
      modifies this
      ensures Stored() == After(old(Stored()), [Patch(p)]) && |rows| == |old(rows)|
    {
      ghost var db := Db(phase, rows);
      phase := p;
      log := log + [Patch(p)];
      assert [Patch(p)][1..] == [] && Apply(ApplyEvent(db, Patch(p)), []) == Db(phase, rows);
    }

    method FailAndRevert(n: NodeId, row: Row, e: Env)
      requires n < |rows|
      modifies this
      ensures Stored() == After(old(Stored()), Revert(n, row, e)) && |rows| == |old(rows)|
    {
      ghost var s := Stored();
      CallNode(Rollback, n);
      ghost var done := [Call(Rollback, n)];
      if e.rebootBack {
        CallNode(Reboot, n);
        AfterConcat(s, done, [Call(Reboot, n)]);
        done := done + [Call(Reboot, n)];
      }
      Upsert(n, row.(phase := Failed, since := e.done));
      AfterConcat(s, done, [Write(n, row.(phase := Failed, since := e.done))]);
      assert Revert(n, row, e) == done + [Write(n, row.(phase := Failed, since := e.done))];
    }

    method PrepareNode(n: NodeId, e: Env)
      requires n < |rows|
      modifies this
      ensures Stored() == After(old(Stored()), PrepareWork(n, e)) && |rows| == |old(rows)|
    {
      ghost var s := Stored();
      CallNode(Prepare, n);
      var row;
      match e.prepare {
        case PrepareOk(target, reboot) => row := Row(Prepared, target, reboot, e.done);
        case PrepareFailed => row := Row(Failed, "", false, e.done);
      }
      Upsert(n, row);
      AfterConcat(s, [Call(Prepare, n)], [Write(n, row)]);
      assert PrepareWork(n, e) == [Call(Prepare, n)] + [Write(n, row)];
    }

    method ActivatePrepared(c: Config, n: NodeId, row: Row, e: Env)
      requires n < |rows|
      modifies this
      ensures Stored() == After(old(Stored()), PreparedWork(c, n, row, e)) && |rows| == |old(rows)|
    {
      ghost var s := Stored();
      AfterNothing(s);
      match e.detour {
        case DetourWait =>
        case DetourDrained => Upsert(n, row.(phase := Drained, since := e.done));
        case DetourFailed => Upsert(n, row.(phase := Failed, since := e.done));
        case NoDetour =>
          var failedPhase := Failed;
          ghost var done := [];
          if MayConfirm(c, row) {
            Upsert(n, row.(phase := Confirming, since := e.now));
            failedPhase := Confirming;
            done := [Write(n, row.(phase := Confirming, since := e.now))];
          }
          CallNode(Activate, n);
          AfterConcat(s, done, [Call(Activate, n)]);
          var last := row.(phase := failedPhase, since := e.done);
          if e.activate.ActivateOk? {
            last := ActivatedRow(c, n, row, e.activate, e);
          }
          Upsert(n, last);
          AfterConcat(s, done + [Call(Activate, n)], [Write(n, last)]);
          assert PreparedWork(c, n, row, e) == done + [Call(Activate, n)] + [Write(n, last)];
      }
    }

    method ActivateDrained(n: NodeId, row: Row, e: Env)
      requires n < |rows|
      modifies this
      ensures Stored() == After(old(Stored()), DrainedWork(n, row, e)) && |rows| == |old(rows)|
    {
      ghost var s := Stored();
      CallNode(Activate, n);
      var last;
      match e.activate {
        case ActivateOk(reboot, _, _) => last := Row(WaitingReady, ActivatedTarget(row, e.activate), reboot, e.done);
        case ActivateFailed => last := row.(phase := Failed, since := e.done);
      }
      Upsert(n, last);
      AfterConcat(s, [Call(Activate, n)], [Write(n, last)]);
      assert DrainedWork(n, row, e) == [Call(Activate, n)] + [Write(n, last)];
    }

    method ConfirmNode(c: Config, n: NodeId, row: Row, e: Env)
      requires n < |rows|
      modifies this
      ensures Stored() == After(old(Stored()), ConfirmWork(c, n, row, e)) && |rows| == |old(rows)|
    {
      if e.status.Some? && e.status.value.phase.StatusFailed? {
        Upsert(n, row.(phase := Failed, since := e.done));
        return;
      }
      ghost var s := Stored();
      AfterNothing(s);
      var seen := row;
      ghost var done := [];
      if Refreshes(row, e) {
        seen := row.(target := e.statusAgain.value.target, since := e.now);
        Upsert(n, seen);
        done := [Write(n, seen)];
      }
      ghost var s1 := Stored();
      AfterNothing(s1);
      ghost var rest := [];
      match ConfirmActivation(e.nixos, e.booted, seen.target,
                              e.status.Some? && !e.status.value.phase.SwitchPending?, e.now - seen.since) {
        case Some(confirmed) =>
          if confirmed {
            Upsert(n, seen.(phase := FinishedPhase(c, n), since := e.done));
            rest := [Write(n, seen.(phase := FinishedPhase(c, n), since := e.done))];
          } else {
            FailAndRevert(n, seen, e);
            rest := Revert(n, seen, e);
          }
        case None =>
      }
      AfterConcat(s, done, rest);
      assert ConfirmWork(c, n, row, e) == done + rest;
    }

    method RebootNode(c: Config, n: NodeId, row: Row, e: Env)
      requires n < |rows|
      modifies this
      ensures Stored() == After(old(Stored()), RebootWork(c, n, row, e)) && |rows| == |old(rows)|
    {
      ghost var s := Stored();
      AfterNothing(s);
      var timedOut := row.phase.Rebooting? && e.now - row.since >= REBOOT_CONFIRM_SECS;
      if e.status.None? {
        if timedOut {
          FailAndRevert(n, row, e);
        }
        return;
      }
      var status, seen := e.status.value, row;
      if status.phase.StatusFailed? {
        Upsert(n, row.(phase := Failed, since := e.done));
        return;
      }
      if status.target != "" && status.target != seen.target {
        seen := seen.(target := status.target);
      }
      match RebootProgress(seen, status, c.autoReboot, timedOut) {
        case RebootDone =>
          Upsert(n, seen.(phase := FinishedPhase(c, n), requiresReboot := false, since := e.done));
        case RebootTimedOut => FailAndRevert(n, seen, e);
        case RebootWait =>
        case RebootNow => RebootStaged(c, n, row, seen, e);
      }
    }

    method RebootStaged(c: Config, n: NodeId, row: Row, seen: Row, e: Env)
      requires n < |rows| && e.status.Some? && !e.status.value.phase.StatusFailed?
      requires seen == if e.status.value.target != "" then row.(target := e.status.value.target) else row
      requires var timedOut := row.phase.Rebooting? && e.now - row.since >= REBOOT_CONFIRM_SECS;
               RebootProgress(seen, e.status.value, c.autoReboot, timedOut) == RebootNow
      modifies this
      ensures Stored() == After(old(Stored()), RebootWork(c, n, row, e)) && |rows| == |old(rows)|
    {
      ghost var s := Stored();
      if e.reboot.Refused? {
        FailAndRevert(n, seen, e);
        return;
      }
      var going := seen.(phase := Rebooting, since := e.now);
      Upsert(n, going);
      CallNode(Reboot, n);
      AfterConcat(s, [Write(n, going)], [Call(Reboot, n)]);
      ghost var done := [Write(n, going)] + [Call(Reboot, n)];
      if e.reboot.Rejected? {
        if e.reboot.restored {
          Upsert(n, seen.(since := e.done));
          AfterConcat(s, done, [Write(n, seen.(since := e.done))]);
          done := done + [Write(n, seen.(since := e.done))];
        }
        FailAndRevert(n, seen, e);
        AfterConcat(s, done, Revert(n, seen, e));
        assert RebootWork(c, n, row, e) == done + Revert(n, seen, e);
      } else {
        assert RebootWork(c, n, row, e) == done;
      }
    }

    method SoakNode(c: Config, n: NodeId, row: Row, e: Env)
      requires n < |rows|
      modifies this
      ensures Stored() == After(old(Stored()), SoakWork(c, n, row, e)) && |rows| == |old(rows)|
    {
      ghost var s := Stored();
      ghost var judged := [Judged(n, e.verdict, e.now, row.since)];
      log := log + judged;
      assert judged[1..] == [] && Apply(s.db, judged) == s.db;
      assert Stored() == After(s, judged);
      AfterNothing(Stored());
      ghost var rest := [];
      match SoakProgress(e.verdict, row.phase, e.now - row.since, SoakSecs(c.strategy)) {
        case SoakRevert =>
          FailAndRevert(n, row, e);
          rest := Revert(n, row, e);
        case SoakPromote =>
          Upsert(n, row.(phase := Succeeded, since := e.done));
          rest := [Write(n, row.(phase := Succeeded, since := e.done))];
        case SoakHold =>
          Upsert(n, row.(phase := AwaitingPromotion, since := e.done));
          rest := [Write(n, row.(phase := AwaitingPromotion, since := e.done))];
        case SoakWait =>
      }
      AfterConcat(s, judged, rest);
      assert SoakWork(c, n, row, e) == judged + rest;
    }

    method UndoNode(n: NodeId, row: Row, e: Env)
      requires n < |rows|
      modifies this
      ensures Stored() == After(old(Stored()), UndoWork(n, row, e)) && |rows| == |old(rows)|
    {
      if e.schemaStuck {
        Upsert(n, row.(phase := Failed, since := e.done));
        return;
      }
      ghost var s := Stored();
      CallNode(Rollback, n);
      ghost var done := [Call(Rollback, n)];
      if e.rebootBack {
        CallNode(Reboot, n);
        AfterConcat(s, done, [Call(Reboot, n)]);
        done := done + [Call(Reboot, n)];
      }
      Upsert(n, Row(Cancelled, "", false, e.done));
      AfterConcat(s, done, [Write(n, Row(Cancelled, "", false, e.done))]);
    }

    method WorkOn(c: Config, n: NodeId, row: Row, e: Env)
      requires n < |rows|
      modifies this
      ensures Stored() == After(old(Stored()), NodeWork(c, n, row, e)) && |rows| == |old(rows)|
    {
      AfterNothing(Stored());
      match row.phase {
        case Pending => PrepareNode(n, e);
        case Prepared => ActivatePrepared(c, n, row, e);
        case Drained => ActivateDrained(n, row, e);
        case WaitingReady =>
          if e.ready.ReadyUncordoned? {
            Upsert(n, row.(phase := FinishedPhase(c, n), since := e.done));
          } else if e.ready.ReadyButCordoned? {
            Upsert(n, row.(since := e.done));
          }
        case Bootstrapping =>
          if n in e.generational {
            Upsert(n, row.(phase := Pending, since := e.done));
          }
        case Confirming => ConfirmNode(c, n, row, e);
        case RebootRequired => RebootNode(c, n, row, e);
        case Rebooting => RebootNode(c, n, row, e);
        case Soaking => SoakNode(c, n, row, e);
        case AwaitingPromotion => SoakNode(c, n, row, e);
        case RollingBack => UndoNode(n, row, e);
        case _ =>
      }
    }

    /** Cancel what has not started, in the stored rows and in the copy the tick works with. */
    method CancelAfterFailure(nodes: seq<Row>, e: Env) returns (left: seq<Row>)
      requires nodes == rows
      modifies this
      ensures Stored() == After(old(Stored()), CancelUnstarted(nodes, 0, e)) && |rows| == |old(rows)|
      ensures left == rows
    {
      left := nodes;
      ghost var s := Stored();
      ghost var done := [];
      AfterNothing(s);
      var i := 0;
      while i < |nodes|
        invariant 0 <= i <= |nodes| == |left| == |rows| && left == rows
        invariant forall j :: i <= j < |nodes| ==> left[j] == nodes[j]
        invariant done + CancelUnstarted(nodes, i, e) == CancelUnstarted(nodes, 0, e)
        invariant Stored() == After(s, done)
      {
        if NotStarted(left[i].phase) {
          var row := left[i].(phase := Cancelled, since := e.done);
          left := left[i := row];
          Upsert(i, row);
          AfterConcat(s, done, [Write(i, row)]);
          assert done + ([Write(i, row)] + CancelUnstarted(nodes, i + 1, e))
              == done + [Write(i, row)] + CancelUnstarted(nodes, i + 1, e);
          done := done + [Write(i, row)];
          UpsertRows(s, done[..|done| - 1], i, row);
          assert done[..|done| - 1] + [Write(i, row)] == done;
        } else {
          assert [] + CancelUnstarted(nodes, i + 1, e) == CancelUnstarted(nodes, i + 1, e);
        }
        i := i + 1;
      }
      assert done + [] == done;
    }

    /** Work on the first node that still needs it. */
    method WorkInOrder(c: Config, nodes: seq<Row>, e: Env)
      requires ValidConfig(c, |nodes|) && |rows| == |nodes| && Covers(WorkOrder(c), |nodes|)
      modifies this
      ensures Stored() == After(old(Stored()), Walk(c, nodes, WorkOrder(c), e)) && |rows| == |old(rows)|
    {
      ghost var start := Stored();
      var order := WorkOrder(c);
      ghost var done := [];
      AfterNothing(start);
      var i := 0;
      while i < |order|
        invariant 0 <= i <= |order| && |rows| == |nodes|
        invariant done + Walk(c, nodes, order[i..], e) == Walk(c, nodes, order, e)
        invariant Stored() == After(start, done)
      {
        var n := order[i];
        assert order[i..][0] == n && order[i..][1..] == order[i + 1..];
        if n in e.addressed {
          WorkOn(c, n, nodes[n], e);
          ghost var here := NodeWork(c, n, nodes[n], e);
          AfterConcat(start, done, here);
          if EndsTick(nodes[n].phase) {
            return;
          }
          assert done + (here + Walk(c, nodes, order[i + 1..], e)) == done + here + Walk(c, nodes, order[i + 1..], e);
          done := done + here;
        }
        i := i + 1;
      }
      assert done + [] == done;
    }

    /** Open the update, and cancel what has not started if a node failed. */
    method OpenUpdate(e: Env) returns (nodes: seq<Row>)
      modifies this
      ensures var db := old(Stored()).db;
              && Stored() == After(old(Stored()), Opening(db) + Cancels(db, e)) && |rows| == |old(rows)|
              && nodes == Apply(db, Cancels(db, e)).rows
    {
      ghost var s := Stored();
      AfterNothing(s);
      nodes := rows;
      var updatePhase := phase;
      if updatePhase.Ready? {
        PatchPhase(RollingOut);
        assert [Patch(RollingOut)][1..] == [] && Apply(ApplyEvent(s.db, Patch(RollingOut)), []).rows == nodes;
      }
      AfterNothing(Stored());
      if !updatePhase.Reverting? && AnyFailed(nodes) {
        nodes := CancelAfterFailure(nodes, e);
      }
      AfterConcat(s, Opening(s.db), Cancels(s.db, e));
      CancelsCommute(s.db, Cancels(s.db, e));
    }

    /** One tick of `reconcile_update`. */
    method ReconcileUpdate(c: Config, e: Env)
      requires ValidConfig(c, |rows|)
      modifies this
      ensures Stored() == After(old(Stored()), Tick(c, old(Stored()).db, e))
    {
      ghost var s := Stored();
      AfterNothing(s);
      if |rows| == 0 {
        return;
      }
      var nodes := OpenUpdate(e);
      ghost var soFar := Opening(s.db) + Cancels(s.db, e);
      if AllSettled(nodes) {
        PatchPhase(Finished(FinalOutcome(nodes)));
        AfterConcat(s, soFar, [Patch(Finished(FinalOutcome(nodes)))]);
      } else {
        WorkOrderIsPermutation(c, |nodes|);
        WorkInOrder(c, nodes, e);
        AfterConcat(s, soFar, Walk(c, nodes, WorkOrder(c), e));
      }
    }
  }

  lemma AfterNothing(s: State)
    ensures After(s, []) == s
  {
    assert s.log + [] == s.log;
  }

  lemma UpsertRows(s: State, done: seq<Event>, n: NodeId, row: Row)
    requires n < |s.db.rows|
    ensures After(s, done + [Write(n, row)]).db.rows == After(s, done).db.rows[n := row]
  {
    ApplyConcat(s.db, done, [Write(n, row)]);
    var db := Apply(s.db, done);
    assert [Write(n, row)][1..] == [] && Apply(ApplyEvent(db, Write(n, row)), []) == ApplyEvent(db, Write(n, row));
  }

  /** The cancellations give the same rows whether or not the update was opened first. */
  lemma CancelsCommute(db: Db, cancels: seq<Event>)
    ensures Apply(db, Opening(db) + cancels).rows == Apply(db, cancels).rows
  {
    ApplyConcat(db, Opening(db), cancels);
    if db.phase.Ready? {
      var p := Patch(RollingOut);
      assert [p][1..] == [] && Apply(ApplyEvent(db, p), []) == db.(phase := RollingOut);
      RowsOnly(db, db.(phase := RollingOut), cancels);
    }
  }

  lemma {:induction false} RowsOnly(db: Db, other: Db, evs: seq<Event>)
    requires db.rows == other.rows
    ensures Apply(db, evs).rows == Apply(other, evs).rows
    decreases evs
  {
    if evs != [] {
      RowsOnly(ApplyEvent(db, evs[0]), ApplyEvent(other, evs[0]), evs[1..]);
    }
  }
}
