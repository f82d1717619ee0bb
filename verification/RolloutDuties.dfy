/**
 What the work on a node owes it, in terms of the calls made, the rows written
 and the answers given: a node is failed only after it was rolled back, and each
 phase is left exactly when its own evidence is there.
 */
module RolloutDuties {
  import opened Prelude
  import opened Canary
  import opened Rollout
  import opened RolloutSteps
  import opened RolloutOrder
  import opened RolloutCrashes

  // ---- a failed node was rolled back ------------------------------------------------

  /** The node may run the new generation: it was activated, or is being. */
  predicate Deployed(p: Phase) {
    p.Confirming? || p.RebootRequired? || p.Rebooting? || p.Soaking? || p.AwaitingPromotion?
  }

  /** The agent reports that the update failed; then it has undone it itself. */
  predicate AgentFailed(row: Row, e: Env) {
    (row.phase.Confirming? || row.phase.RebootRequired? || row.phase.Rebooting?) && e.status.Some? && e.status.value.phase.StatusFailed?
  }

  predicate FailedAt(evs: seq<Event>, i: nat, n: NodeId) {
    i < |evs| && evs[i].Write? && evs[i].node == n && evs[i].row.phase.Failed?
  }

  /** Before event `i` the node was rolled back, and rebooted after that exactly when the answer asked for it. */
  predicate RolledBackBefore(evs: seq<Event>, i: nat, n: NodeId, reboot: bool)
    requires i <= |evs|
  {
    exists k :: 0 <= k < i && evs[k] == Call(Rollback, n) && (reboot <==> exists m :: k < m < i && evs[m] == Call(Reboot, n))
  }

  lemma RolledBackLater(xs: seq<Event>, ys: seq<Event>, i: nat, n: NodeId, reboot: bool)
    requires i <= |ys| && RolledBackBefore(ys, i, n, reboot)
    ensures RolledBackBefore(xs + ys, |xs| + i, n, reboot)
  {
    var all := xs + ys;
    var k :| 0 <= k < i && ys[k] == Call(Rollback, n) && (reboot <==> exists m :: k < m < i && ys[m] == Call(Reboot, n));
    assert all[|xs| + k] == ys[k];
    if m :| k < m < i && ys[m] == Call(Reboot, n) {
      assert all[|xs| + m] == ys[m];
    }
    forall m | |xs| + k < m < |xs| + i && all[m] == Call(Reboot, n) ensures reboot {
      assert ys[m - |xs|] == all[m];
    }
  }

  lemma RevertRollsBack(n: NodeId, row: Row, e: Env)
    ensures var evs := Revert(n, row, e);
            && evs != [] && RolledBackBefore(evs, |evs| - 1, n, e.rebootBack)
            && forall i: nat :: FailedAt(evs, i, n) ==> i == |evs| - 1
  {
    var evs := Revert(n, row, e);
    assert evs[0] == Call(Rollback, n);
    if e.rebootBack {
      assert evs[1] == Call(Reboot, n);
    }
  }

  /** Work that writes no failure, or ends by undoing the update and recording the failure. */
  ghost predicate Undoes(evs: seq<Event>, n: NodeId, reboot: bool) {
    forall i: nat :: FailedAt(evs, i, n) ==> RolledBackBefore(evs, i, n, reboot)
  }

  lemma PrefixedRevert(xs: seq<Event>, n: NodeId, row: Row, e: Env)
    requires forall i: nat :: !FailedAt(xs, i, n)
    ensures Undoes(xs + Revert(n, row, e), n, e.rebootBack)
  {
    var ys := Revert(n, row, e);
    RevertRollsBack(n, row, e);
    forall i: nat | i < |xs| ensures !FailedAt(xs + ys, i, n) {
      assert (xs + ys)[i] == xs[i] && !FailedAt(xs, i, n);
    }
    forall i: nat | FailedAt(xs + ys, i, n) ensures RolledBackBefore(xs + ys, i, n, e.rebootBack) {
      assert FailedAt(ys, i - |xs|, n);
      RolledBackLater(xs, ys, i - |xs|, n, e.rebootBack);
    }
  }

  lemma ConfirmUndoes(c: Config, n: NodeId, row: Row, e: Env)
    requires row.phase.Confirming? && !AgentFailed(row, e)
    ensures Undoes(ConfirmWork(c, n, row, e), n, e.rebootBack)
  {
    var seen := Refreshed(row, e);
    var first := if Refreshes(row, e) then [Write(n, seen)] else [];
    assert forall i: nat :: !FailedAt(first, i, n);
    PrefixedRevert(first, n, seen, e);
  }

  lemma RebootUndoes(c: Config, n: NodeId, row: Row, e: Env)
    requires (row.phase.RebootRequired? || row.phase.Rebooting?) && !AgentFailed(row, e)
    ensures Undoes(RebootWork(c, n, row, e), n, e.rebootBack)
  {
    var seen := if e.status.Some? && e.status.value.target != "" then row.(target := e.status.value.target) else row;
    PrefixedRevert([], n, row, e);
    PrefixedRevert([], n, seen, e);
    assert [] + Revert(n, row, e) == Revert(n, row, e) && [] + Revert(n, seen, e) == Revert(n, seen, e);
    if e.reboot.Rejected? {
      var first := [Write(n, seen.(phase := Rebooting, since := e.now)), Call(Reboot, n)]
                   + if e.reboot.restored then [Write(n, seen.(since := e.done))] else [];
      assert forall i: nat :: !FailedAt(first, i, n);
      PrefixedRevert(first, n, seen, e);
    }
  }

  lemma SoakUndoes(c: Config, n: NodeId, row: Row, e: Env)
    ensures Undoes(SoakWork(c, n, row, e), n, e.rebootBack)
  {
    var first := [Judged(n, e.verdict, e.now, row.since)];
    assert forall i: nat :: !FailedAt(first, i, n);
    PrefixedRevert(first, n, row, e);
  }

  lemma WorkUndoes(c: Config, n: NodeId, row: Row, e: Env)
    requires Deployed(row.phase) && !AgentFailed(row, e)
    ensures Undoes(NodeWork(c, n, row, e), n, e.rebootBack)
  {
    match row.phase
    case Confirming => ConfirmUndoes(c, n, row, e);
    case RebootRequired => RebootUndoes(c, n, row, e);
    case Rebooting => RebootUndoes(c, n, row, e);
    case _ => SoakUndoes(c, n, row, e);
  }

  lemma RolledBackInPart(all: seq<Event>, more: seq<Event>, i: nat, n: NodeId, reboot: bool)
    requires more <= all && i <= |more| && RolledBackBefore(all, i, n, reboot)
    ensures RolledBackBefore(more, i, n, reboot)
  {
    assert forall j :: 0 <= j < |more| ==> more[j] == all[j];
    var k :| 0 <= k < i && all[k] == Call(Rollback, n) && (reboot <==> exists m :: k < m < i && all[m] == Call(Reboot, n));
    assert more[k] == all[k];
    assert (exists m :: k < m < i && all[m] == Call(Reboot, n)) <==> exists m :: k < m < i && more[m] == Call(Reboot, n);
  }

  /**
   In every step of every run, wherever it is cut: a node that was being activated
   or had been is recorded as failed only after a rollback call in the same step,
   with a reboot after it exactly when the answer asked for one, unless its agent
   itself reported the failure.
   */
  lemma FailedNodesWereRolledBack(c: Config, count: nat, steps: seq<Step>, k: nat, n: NodeId, i: nat)
    requires ValidConfig(c, count) && n < count && k < |steps|
    requires var s := Run(c, Start(count), steps[..k]);
             Deployed(s.db.rows[n].phase) && !AgentFailed(s.db.rows[n], steps[k].env) && FailedAt(NodePart(c, s, steps[k], n), i, n)
    ensures RolledBackBefore(NodePart(c, Run(c, Start(count), steps[..k]), steps[k], n), i, n, steps[k].env.rebootBack)
  {
    var s := Run(c, Start(count), steps[..k]);
    var more, row, e := NodePart(c, s, steps[k], n), s.db.rows[n], steps[k].env;
    StepStory(c, s, steps[k], n);
    PartOfTick(c, s.db, e, n, more);
    var all := NodeWork(c, n, row, e);
    WorkUndoes(c, n, row, e);
    assert more[i] == all[i];
    assert FailedAt(all, i, n);
    RolledBackInPart(all, more, i, n, e.rebootBack);
  }

  // ---- what ends each phase --------------------------------------------------------

  /** The row a node has after its work is done completely. */
  function End(c: Config, n: NodeId, row: Row, e: Env): (row': Row) {
    RowAfter(row, NodeWork(c, n, row, e))
  }

  /** A finished node soaks first when it is the canary. */
  predicate FinishedAs(c: Config, n: NodeId, p: Phase) {
    if CanaryOf(c) == Some(n) then p.Soaking? else p.Succeeded?
  }

  /** A write stamps the row with the time of this tick; the time a reboot is ordered is the one before the call. */
  predicate Stamped(e: Env, ev: Event) {
    ev.Write? ==> (ev.row.since == e.now || ev.row.since == e.done) && (ev.row.phase.Rebooting? ==> ev.row.since == e.now)
  }

  lemma RevertStamped(n: NodeId, row: Row, e: Env)
    ensures forall ev :: ev in Revert(n, row, e) ==> Stamped(e, ev)
  {
  }

  lemma RebootStamped(c: Config, n: NodeId, row: Row, e: Env)
    requires row.phase.RebootRequired? || row.phase.Rebooting?
    ensures forall ev :: ev in RebootWork(c, n, row, e) ==> Stamped(e, ev)
  {
    RevertStamped(n, row, e);
    if e.status.Some? && !e.status.value.phase.StatusFailed? {
      var seen := if e.status.value.target != "" then row.(target := e.status.value.target) else row;
      RevertStamped(n, seen, e);
    }
  }

  lemma ConfirmStamped(c: Config, n: NodeId, row: Row, e: Env)
    requires row.phase.Confirming?
    ensures forall ev :: ev in ConfirmWork(c, n, row, e) ==> Stamped(e, ev)
  {
    RevertStamped(n, Refreshed(row, e), e);
  }

  lemma SoakStamped(c: Config, n: NodeId, row: Row, e: Env)
    ensures forall ev :: ev in SoakWork(c, n, row, e) ==> Stamped(e, ev)
  {
    RevertStamped(n, row, e);
  }

  /** Every write on a node stamps its row, so each phase is timed from when it began. */
  lemma WritesAreStamped(c: Config, n: NodeId, row: Row, e: Env, ev: Event)
    requires ev in NodeWork(c, n, row, e)
    ensures Stamped(e, ev)
  {
    if row.phase.RebootRequired? || row.phase.Rebooting? {
      RebootStamped(c, n, row, e);
    } else if row.phase.Confirming? {
      ConfirmStamped(c, n, row, e);
    } else if row.phase.Soaking? || row.phase.AwaitingPromotion? {
      SoakStamped(c, n, row, e);
    }
  }

  lemma RevertEnd(n: NodeId, row: Row, e: Env)
    ensures RowAfter(row, Revert(n, row, e)).phase.Failed?
  {
    LastWrite(row, Revert(n, row, e));
  }

  lemma EndsWith(row: Row, first: seq<Event>, last: Event)
    requires last.Write?
    ensures RowAfter(row, first + [last]) == last.row
  {
    RowAfterLast(row, first, last);
  }

  lemma PrepareEnd(c: Config, n: NodeId, row: Row, e: Env)
    requires row.phase.Pending?
    ensures var row' := End(c, n, row, e);
            && (row'.phase.Prepared? <==> e.prepare.PrepareOk?) && (row'.phase.Failed? <==> e.prepare.PrepareFailed?)
            && (row'.phase.Prepared? ==> row'.target == e.prepare.target && row'.requiresReboot == e.prepare.requiresReboot)
            && Call(Prepare, n) in NodeWork(c, n, row, e)
  {
    LastWrite(row, NodeWork(c, n, row, e));
    assert NodeWork(c, n, row, e)[0] == Call(Prepare, n);
  }

  /** The closure recorded after an activation: the one the agent names, else the one prepared. */
  predicate RecordsTarget(row: Row, named: string, target: string) {
    if named != "" then target == named else target == row.target
  }

  /** Where an activation from a prepared row ends. */
  lemma ActivateEnd(c: Config, n: NodeId, row: Row, e: Env)
    requires row.phase.Prepared?
    ensures var row', r := End(c, n, row, e), e.activate;
            var ok, confirmable := r.ActivateOk?, row.target != "" && !row.requiresReboot && !c.bootMode;
            && (e.detour.NoDetour? <==> Call(Activate, n) in NodeWork(c, n, row, e))
            && (e.detour.DetourWait? ==> row' == row)
            && (e.detour.DetourDrained? <==> row'.phase.Drained?)
            && (row'.phase.Failed? <==> e.detour.DetourFailed? || (e.detour.NoDetour? && !ok && !confirmable))
            && (row'.phase.Confirming? <==> e.detour.NoDetour? && !ok && confirmable)
            && (row'.phase.RebootRequired? <==> e.detour.NoDetour? && ok && (r.requiresReboot || r.rebootPhase))
            && (row'.phase.Bootstrapping? <==> e.detour.NoDetour? && ok && !r.requiresReboot && !r.rebootPhase && n !in e.generational)
            && (FinishedAs(c, n, row'.phase) <==> e.detour.NoDetour? && ok && !r.requiresReboot && !r.rebootPhase && n in e.generational)
            && (e.detour.NoDetour? && ok ==> RecordsTarget(row, r.target, row'.target) && row'.requiresReboot == r.requiresReboot)
            && ((e.detour.NoDetour? && !ok) || e.detour.DetourDrained? ==> row'.target == row.target && row'.requiresReboot == row.requiresReboot)
  {
    var evs := NodeWork(c, n, row, e);
    if e.detour.NoDetour? {
      var k := if MayConfirm(c, row) then 1 else 0;
      assert evs[k] == Call(Activate, n);
    }
    if evs != [] {
      LastWrite(row, evs);
    }
  }

  lemma DrainedEnd(c: Config, n: NodeId, row: Row, e: Env)
    requires row.phase.Drained?
    ensures var row', r := End(c, n, row, e), e.activate;
            && Call(Activate, n) in NodeWork(c, n, row, e)
            && (row'.phase.WaitingReady? <==> r.ActivateOk?) && (row'.phase.Failed? <==> r.ActivateFailed?)
            && (r.ActivateOk? ==> RecordsTarget(row, r.target, row'.target) && row'.requiresReboot == r.requiresReboot)
  {
    LastWrite(row, NodeWork(c, n, row, e));
    assert NodeWork(c, n, row, e)[0] == Call(Activate, n);
  }

  /** A drained node is finished exactly when it is ready and uncordoned; a cordoned one waits. */
  lemma ReadyEnd(c: Config, n: NodeId, row: Row, e: Env)
    requires row.phase.WaitingReady?
    ensures var row' := End(c, n, row, e);
            && (FinishedAs(c, n, row'.phase) <==> e.ready.ReadyUncordoned?) && (row'.phase.WaitingReady? <==> !e.ready.ReadyUncordoned?)
            && (e.ready.NotReady? ==> row' == row) && (e.ready.ReadyButCordoned? ==> row' == row.(since := e.done))
  {
    if NodeWork(c, n, row, e) != [] {
      LastWrite(row, NodeWork(c, n, row, e));
    }
  }

  lemma BootstrapEnd(c: Config, n: NodeId, row: Row, e: Env)
    requires row.phase.Bootstrapping?
    ensures End(c, n, row, e).phase == if n in e.generational then Pending else Bootstrapping
  {
    if NodeWork(c, n, row, e) != [] {
      LastWrite(row, NodeWork(c, n, row, e));
    }
  }

  /** The node runs something else than recorded, and now names another closure: that one is meant from now on. */
  predicate Renamed(row: Row, e: Env) {
    && e.nixos != "" && e.nixos != row.target
    && e.statusAgain.Some? && e.statusAgain.value.target != "" && e.statusAgain.value.target != row.target
  }

  /** The node answers, has switched, and runs or booted the closure that is meant. */
  predicate Confirmed(row: Row, e: Env) {
    var target := if Renamed(row, e) then e.statusAgain.value.target else row.target;
    && e.status.Some? && !e.status.value.phase.StatusFailed? && !e.status.value.phase.SwitchPending?
    && target != "" && (e.booted == target || e.nixos == target)
  }

  /** A confirming node is finished exactly when confirmed, failed exactly when its agent says so or twenty minutes passed unconfirmed. */
  lemma ConfirmEnd(c: Config, n: NodeId, row: Row, e: Env)
    requires row.phase.Confirming?
    ensures var row' := End(c, n, row, e);
            var overdue := !Renamed(row, e) && e.now - row.since >= 1200;
            && (FinishedAs(c, n, row'.phase) <==> Confirmed(row, e))
            && (row'.phase.Failed? <==> AgentFailed(row, e) || (!Confirmed(row, e) && overdue))
            && (row'.phase.Confirming? <==> !AgentFailed(row, e) && !Confirmed(row, e) && !overdue)
            && (!AgentFailed(row, e) ==> row'.target == if Renamed(row, e) then e.statusAgain.value.target else row.target)
  {
    var evs := NodeWork(c, n, row, e);
    assert Refreshes(row, e) == Renamed(row, e);
    if !AgentFailed(row, e) {
      ConfirmationIs(row, e);
    }
    if evs != [] {
      LastWrite(row, evs);
    }
  }

  lemma ConfirmationIs(row: Row, e: Env)
    requires row.phase.Confirming? && !AgentFailed(row, e)
    ensures Confirmation(row, e) == Some(true) <==> Confirmed(row, e)
    ensures Confirmation(row, e) == Some(false) <==> !Confirmed(row, e) && !Renamed(row, e) && e.now - row.since >= 1200
  {
    assert Refreshes(row, e) == Renamed(row, e);
  }

  /** The closure a reboot is about: the one the agent names, else the recorded one. */
  predicate Booted(row: Row, status: Status) {
    status.phase.Activated? && status.booted != "" && status.booted == if status.target != "" then status.target else row.target
  }

  predicate WantsReboot(c: Config, row: Row, status: Status) {
    var target := if status.target != "" then status.target else row.target;
    row.phase.RebootRequired? && c.autoReboot && !status.phase.StatusFailed? && (target == "" || status.booted != target)
  }

  /**
   A rebooting node is finished exactly when it booted the closure and activated
   it; it is failed when its agent says so, after thirty minutes, or when the
   reboot could not be ordered; and a reboot is ordered exactly for a node that
   needs one, has not booted the closure and may be rebooted.
   */
  lemma RebootEnd(c: Config, n: NodeId, row: Row, e: Env)
    requires row.phase.RebootRequired? || row.phase.Rebooting?
    ensures var row' := End(c, n, row, e);
            var booted := e.status.Some? && Booted(row, e.status.value);
            var wants := e.status.Some? && WantsReboot(c, row, e.status.value);
            var overdue := row.phase.Rebooting? && e.now - row.since >= 1800;
            && (FinishedAs(c, n, row'.phase) <==> booted)
            && (booted ==> !row'.requiresReboot && row'.target == e.status.value.booted)
            && (row'.phase.Failed? <==> AgentFailed(row, e) || (!booted && (overdue || (wants && !e.reboot.Rebooted?))))
            && ((exists r :: Write(n, r) in NodeWork(c, n, row, e) && r.phase.Rebooting?) <==> wants && !e.reboot.Refused?)
            && (row.phase.RebootRequired? ==> (row'.phase.Rebooting? <==> wants && e.reboot.Rebooted?))
            && (row'.phase.Rebooting? && row.phase.RebootRequired? ==> Call(Reboot, n) in NodeWork(c, n, row, e))
  {
    var evs := NodeWork(c, n, row, e);
    if e.status.None? {
      RevertEnd(n, row, e);
      if evs != [] {
        LastWrite(row, evs);
      }
    } else {
      RebootAnswered(c, n, row, e);
    }
  }

  lemma RebootStepIs(c: Config, row: Row, status: Status, overdue: bool)
    requires (row.phase.RebootRequired? || row.phase.Rebooting?) && !status.phase.StatusFailed? && (overdue ==> row.phase.Rebooting?)
    ensures var seen := if status.target != "" then row.(target := status.target) else row;
            var step := RebootProgress(seen, status, c.autoReboot, overdue);
            && (step.RebootDone? <==> Booted(row, status))
            && (step.RebootTimedOut? <==> !Booted(row, status) && overdue)
            && (step.RebootNow? <==> WantsReboot(c, row, status))
  {
  }

  lemma RebootAnswered(c: Config, n: NodeId, row: Row, e: Env)
    requires (row.phase.RebootRequired? || row.phase.Rebooting?) && e.status.Some?
    ensures var row', evs := End(c, n, row, e), NodeWork(c, n, row, e);
            var booted, wants := Booted(row, e.status.value), WantsReboot(c, row, e.status.value);
            var overdue := row.phase.Rebooting? && e.now - row.since >= 1800;
            && (FinishedAs(c, n, row'.phase) <==> booted)
            && (booted ==> !row'.requiresReboot && row'.target == e.status.value.booted)
            && (row'.phase.Failed? <==> AgentFailed(row, e) || (!booted && (overdue || (wants && !e.reboot.Rebooted?))))
            && ((exists r :: Write(n, r) in evs && r.phase.Rebooting?) <==> wants && !e.reboot.Refused?)
            && (row.phase.RebootRequired? ==> (row'.phase.Rebooting? <==> wants && e.reboot.Rebooted?))
            && (row'.phase.Rebooting? && row.phase.RebootRequired? ==> Call(Reboot, n) in evs)
  {
    var evs, status := NodeWork(c, n, row, e), e.status.value;
    var seen := if status.target != "" then row.(target := status.target) else row;
    if !status.phase.StatusFailed? {
      RebootStepIs(c, row, status, row.phase.Rebooting? && e.now - row.since >= 1800);
      if WantsReboot(c, row, status) {
        RebootOrdered(c, n, row, e, seen, evs);
      } else if evs != [] {
        LastWrite(row, evs);
      }
    } else {
      LastWrite(row, evs);
    }
  }

  lemma RebootOrdered(c: Config, n: NodeId, row: Row, e: Env, seen: Row, evs: seq<Event>)
    requires e.status.Some? && WantsReboot(c, row, e.status.value)
    requires evs == match e.reboot
                    case Refused => Revert(n, seen, e)
                    case Rebooted => [Write(n, seen.(phase := Rebooting, since := e.now)), Call(Reboot, n)]
                    case Rejected(restored) =>
                      [Write(n, seen.(phase := Rebooting, since := e.now)), Call(Reboot, n)]
                      + (if restored then [Write(n, seen.(since := e.done))] else []) + Revert(n, seen, e)
    ensures RowAfter(row, evs).phase == if e.reboot.Rebooted? then Rebooting else Failed
    ensures e.reboot.Refused? ==> forall r :: Write(n, r) in evs ==> !r.phase.Rebooting?
    ensures !e.reboot.Refused? ==> Write(n, seen.(phase := Rebooting, since := e.now)) in evs && Call(Reboot, n) in evs
  {
    var first := Write(n, seen.(phase := Rebooting, since := e.now));
    if !e.reboot.Refused? {
      assert evs[0] == first && evs[1] == Call(Reboot, n);
    }
    if e.reboot.Rebooted? {
      assert evs == [first] + [Call(Reboot, n)] && [first] == [] + [first];
      RowAfterLast(row, [first], Call(Reboot, n));
      EndsWith(row, [], first);
    } else {
      LastWrite(row, evs);
    }
  }

  /**
   A soaking canary is undone exactly on a failing verdict after its grace period,
   five minutes or the soak if that is shorter; promoted exactly on a passing
   verdict after the full soak; and held on an undecided one. A held canary is
   undone like a soaking one and otherwise stays held.
   */
  lemma SoakEnd(c: Config, n: NodeId, row: Row, e: Env)
    requires row.phase.Soaking? || row.phase.AwaitingPromotion?
    ensures var p, age := End(c, n, row, e).phase, e.now - row.since;
            var soak := if c.strategy.soak > 0 then c.strategy.soak else 3600;
            && Judged(n, e.verdict, e.now, row.since) in NodeWork(c, n, row, e)
            && (p.Failed? <==> e.verdict.Fail? && (age >= 300 || age >= soak))
            && (p.Succeeded? <==> row.phase.Soaking? && e.verdict.Pass? && age >= soak)
            && (row.phase.Soaking? ==> (p.AwaitingPromotion? <==> e.verdict.Unknown? && age >= soak))
            && (row.phase.AwaitingPromotion? ==> p.Failed? || p.AwaitingPromotion?)
            && (p.Failed? || p.Succeeded? || p.AwaitingPromotion? || p.Soaking?)
  {
    var evs := NodeWork(c, n, row, e);
    assert evs[0] == Judged(n, e.verdict, e.now, row.since);
    if evs[|evs| - 1].Write? {
      LastWrite(row, evs);
    } else {
      assert evs == [] + [evs[0]];
      RowAfterLast(row, [], evs[0]);
    }
  }

  /** Undoing a node on the operator's rollback: rolled back, rebooted if asked, and then cancelled, unless its schema is stuck. */
  lemma UndoEnd(c: Config, n: NodeId, row: Row, e: Env)
    requires row.phase.RollingBack?
    ensures var evs, p := NodeWork(c, n, row, e), End(c, n, row, e).phase;
            && (e.schemaStuck <==> p.Failed?) && (!e.schemaStuck <==> p.Cancelled?)
            && (!e.schemaStuck ==> evs != [] && RolledBackBefore(evs, |evs| - 1, n, e.rebootBack))
            && (e.schemaStuck ==> forall ev :: ev in evs ==> !ev.Call?)
  {
    var evs := NodeWork(c, n, row, e);
    LastWrite(row, evs);
    if !e.schemaStuck {
      assert evs[0] == Call(Rollback, n);
      if e.rebootBack {
        assert evs[1] == Call(Reboot, n);
      }
    }
  }

  // ---- the update as a whole -------------------------------------------------------

  predicate SomeNodeFailed(db: Db) {
    exists m :: 0 <= m < |db.rows| && db.rows[m].phase.Failed?
  }

  /** The update gives up: a node failed while rolling out. */
  predicate GivesUp(db: Db) {
    !db.phase.Reverting? && SomeNodeFailed(db)
  }

  predicate Unstarted(row: Row) {
    row.phase == Pending || row.phase == Prepared
  }

  /** A node whose work has not begun is cancelled in a tick, and then not called, exactly when the update gives up. */
  lemma UnstartedCancelledIff(c: Config, db: Db, e: Env, n: NodeId)
    requires ValidConfig(c, |db.rows|) && n < |db.rows| && Unstarted(db.rows[n])
    ensures (exists row :: Write(n, row) in Tick(c, db, e) && row.phase.Cancelled?) <==> GivesUp(db)
    ensures GivesUp(db) ==> forall rpc :: Call(rpc, n) !in Tick(c, db, e)
  {
    var tick, row := Tick(c, db, e), db.rows[n];
    TickStory(c, db, e, n);
    forall ev ensures ev in NodeTick(c, db, e, n) <==> ev in tick && About(ev, n) {
      StoryMembers(tick, n, ev);
    }
    if GivesUp(db) {
      assert NodeTick(c, db, e, n) == [Write(n, CancelledRow(row, e))];
      assert Write(n, CancelledRow(row, e)) in tick;
    } else {
      UnstartedIsNotCancelled(c, n, row, e);
    }
  }

  lemma UnstartedIsNotCancelled(c: Config, n: NodeId, row: Row, e: Env)
    requires Unstarted(row)
    ensures forall r :: Write(n, r) in NodeWork(c, n, row, e) ==> !r.phase.Cancelled?
  {
  }

  /** A node is settled at the end of a tick that starts from these rows: it is over, or it is given up now. */
  predicate SettledNow(db: Db, n: NodeId)
    requires n < |db.rows|
  {
    var p := db.rows[n].phase;
    p == Succeeded || p == Failed || p == Cancelled || (GivesUp(db) && Unstarted(db.rows[n]))
  }

  lemma SettledNowIff(db: Db, e: Env, n: NodeId)
    requires n < |db.rows|
    ensures SettledNow(db, n) <==> Settled(Current(db, e)[n].phase)
    ensures Current(db, e)[n].phase == if GivesUp(db) && Unstarted(db.rows[n]) then Cancelled else db.rows[n].phase
  {
    CurrentRow(db, e, n);
  }

  /** A tick opens an update that was ready, and ends it exactly when every node is settled, as failed exactly when a node failed. */
  lemma TickOpensAndEnds(c: Config, db: Db, e: Env)
    requires ValidConfig(c, |db.rows|) && |db.rows| > 0
    ensures Patch(RollingOut) in Tick(c, db, e) <==> db.phase.Ready?
    ensures db.phase.Ready? ==> Tick(c, db, e)[0] == Patch(RollingOut)
    ensures (exists o :: Patch(Finished(o)) in Tick(c, db, e)) <==> forall n :: 0 <= n < |db.rows| ==> SettledNow(db, n)
    ensures forall o :: Patch(Finished(o)) in Tick(c, db, e) ==> (o == SomeFailed <==> SomeNodeFailed(db))
  {
    TickPatches(c, db, e);
    OutcomeIs(db, e);
  }

  lemma TickPatches(c: Config, db: Db, e: Env)
    requires ValidConfig(c, |db.rows|) && |db.rows| > 0
    ensures db.phase.Ready? ==> Tick(c, db, e)[0] == Patch(RollingOut)
    ensures forall p :: Patch(p) in Tick(c, db, e) <==>
              (p == RollingOut && db.phase.Ready?) || (p == Finished(FinalOutcome(Current(db, e))) && AllSettled(Current(db, e)))
  {
    var rows := Current(db, e);
    WorkOrderIsPermutation(c, |db.rows|);
    assert Tick(c, db, e) == Opening(db) + Cancels(db, e) + Ending(c, rows, e);
    CancelsHaveNoPatch(db.rows, 0, e);
    WalkHasNoPatch(c, rows, WorkOrder(c), e);
    PatchesOfThree(Opening(db), Cancels(db, e), Ending(c, rows, e));
    assert forall p :: Patch(p) !in Walk(c, rows, WorkOrder(c), e);
  }

  lemma PatchesOfThree(opening: seq<Event>, cancels: seq<Event>, ending: seq<Event>)
    requires NoPatch(cancels)
    ensures forall p :: Patch(p) in opening + cancels + ending <==> Patch(p) in opening || Patch(p) in ending
  {
    assert forall p :: Patch(p) !in cancels;
  }

  lemma OutcomeIs(db: Db, e: Env)
    ensures AllSettled(Current(db, e)) <==> forall n :: 0 <= n < |db.rows| ==> SettledNow(db, n)
    ensures FinalOutcome(Current(db, e)) == SomeFailed <==> SomeNodeFailed(db)
  {
    var rows := Current(db, e);
    forall n | 0 <= n < |db.rows|
      ensures SettledNow(db, n) <==> Settled(rows[n].phase)
      ensures rows[n].phase.Failed? <==> db.rows[n].phase.Failed?
    {
      SettledNowIff(db, e, n);
    }
  }
}
