/**
 Lifting the storage fence of a host that came back
 (crates/controller/src/ha.rs, `merge_placement_reports` and `fence_release`,
 and the heartbeat handler that calls them).
 */
module Fence {

  const PLACEMENT_SETTLED := "placement-settled"

  function MaskReport(vm: string): (report: string) {
    "placement-mask:" + vm
  }

  datatype Release = Keep | Hold(vms: seq<string>) | Unfence

  function Merge(out: seq<string>, prior: seq<string>): (r: seq<string>)
    decreases prior
  {
    if prior == [] then out
    else Merge(if prior[0] in out then out else out + [prior[0]], prior[1..])
  }

  method MergePlacementReports(current: seq<string>, prior: seq<string>) returns (out: seq<string>)
    ensures out == Merge(current, prior)
  {
    out := current;
    var i := 0;
    while i < |prior|
      invariant 0 <= i <= |prior|
      invariant Merge(out, prior[i..]) == Merge(current, prior)
    {
      if prior[i] !in out {
        out := out + [prior[i]];
      }
      assert prior[i..][1..] == prior[i + 1..];
      i := i + 1;
    }
  }

  /** Merging keeps the current reports first and holds every report of either list. */
  lemma {:induction false} MergeMembers(out: seq<string>, prior: seq<string>)
    ensures out <= Merge(out, prior)
    ensures forall r :: r in Merge(out, prior) <==> r in out || r in prior
    decreases prior
  {
    if prior != [] {
      MergeMembers(if prior[0] in out then out else out + [prior[0]], prior[1..]);
    }
  }

  predicate Missing(vm: string, placed: seq<string>, actions: seq<string>) {
    vm !in placed && MaskReport(vm) !in actions
  }

  function Remaining(held: seq<string>, placed: seq<string>, actions: seq<string>): (vms: seq<string>) {
    if held == [] then []
    else (if Missing(held[0], placed, actions) then [held[0]] else []) + Remaining(held[1..], placed, actions)
  }

  function FenceRelease(pending: bool, held: seq<string>, placed: seq<string>, actions: seq<string>): (r: Release) {
    if !pending then Keep
    else
      var remaining := Remaining(held, placed, actions);
      if remaining == [] && PLACEMENT_SETTLED in actions then Unfence else Hold(remaining)
  }

  lemma {:induction false} RemainingMembers(held: seq<string>, placed: seq<string>, actions: seq<string>)
    ensures forall vm :: vm in Remaining(held, placed, actions) <==> vm in held && Missing(vm, placed, actions)
  {
    if held != [] {
      RemainingMembers(held[1..], placed, actions);
    }
  }

  // ---- heartbeats --------------------------------------------------------

  /** A heartbeat's reports, and the VMs assigned to the host when it arrives. */
  datatype Heartbeat = Heartbeat(actions: seq<string>, placed: seq<string>)

  /** The hold on a fenced host, and every report since the host was lost. */
  datatype FenceHold = FenceHold(pending: bool, held: seq<string>, reports: seq<string>)

  function Outcome(f: FenceHold, hb: Heartbeat): (r: Release) {
    FenceRelease(f.pending, f.held, hb.placed, Merge(hb.actions, f.reports + hb.actions))
  }

  /** Reports are stored, and a hold shrinks to the VMs still missing; `lifted` says whether Ceph accepted the removal. */
  function Beat(f: FenceHold, hb: Heartbeat, lifted: bool): (f': FenceHold) {
    var reports := f.reports + hb.actions;
    match Outcome(f, hb)
    case Keep => f.(reports := reports)
    case Hold(vms) => FenceHold(true, vms, reports)
    case Unfence => if lifted then FenceHold(false, [], reports) else f.(reports := reports)
  }

  function Beats(f: FenceHold, hbs: seq<Heartbeat>): (f': FenceHold) {
    if hbs == [] then f else Beat(Beats(f, hbs[..|hbs| - 1]), hbs[|hbs| - 1], false)
  }

  /** No heartbeat so far released the fence. */
  predicate StillHeld(f: FenceHold, hbs: seq<Heartbeat>) {
    hbs == [] || (StillHeld(f, hbs[..|hbs| - 1]) && Outcome(Beats(f, hbs[..|hbs| - 1]), hbs[|hbs| - 1]).Hold?)
  }

  predicate Reported(hbs: seq<Heartbeat>, report: string) {
    exists m :: 0 <= m < |hbs| && report in hbs[m].actions
  }

  /** Some heartbeat masked the VM or found it assigned to the host. */
  predicate Cleared(hbs: seq<Heartbeat>, vm: string) {
    exists m :: 0 <= m < |hbs| && (vm in hbs[m].placed || "placement-mask:" + vm in hbs[m].actions)
  }

  lemma {:induction false} ReportsAccumulate(f: FenceHold, hbs: seq<Heartbeat>)
    ensures forall r :: r in Beats(f, hbs).reports <==> r in f.reports || Reported(hbs, r)
  {
    if hbs != [] {
      var init, last := hbs[..|hbs| - 1], hbs[|hbs| - 1];
      ReportsAccumulate(f, init);
      forall r
        ensures Reported(hbs, r) <==> Reported(init, r) || r in last.actions
      {
        LastReport(hbs, r);
      }
    }
  }

  lemma LastReport(hbs: seq<Heartbeat>, r: string)
    requires hbs != []
    ensures Reported(hbs, r) <==> Reported(hbs[..|hbs| - 1], r) || r in hbs[|hbs| - 1].actions
  {
    var init := hbs[..|hbs| - 1];
    if Reported(init, r) {
      var m :| 0 <= m < |init| && r in init[m].actions;
      assert hbs[m] == init[m];
    }
    if Reported(hbs, r) {
      var m :| 0 <= m < |hbs| && r in hbs[m].actions;
      assert m < |init| ==> init[m] == hbs[m];
    }
  }

  lemma LastClear(hbs: seq<Heartbeat>, vm: string)
    requires hbs != []
    ensures var last := hbs[|hbs| - 1];
            Cleared(hbs, vm) <==> Cleared(hbs[..|hbs| - 1], vm) || vm in last.placed || MaskReport(vm) in last.actions
  {
    var init := hbs[..|hbs| - 1];
    if Cleared(init, vm) {
      var m :| 0 <= m < |init| && (vm in init[m].placed || MaskReport(vm) in init[m].actions);
      assert hbs[m] == init[m];
    }
    if Cleared(hbs, vm) {
      var m :| 0 <= m < |hbs| && (vm in hbs[m].placed || MaskReport(vm) in hbs[m].actions);
      assert m < |init| ==> init[m] == hbs[m];
    }
  }

  lemma ReportCleared(hbs: seq<Heartbeat>, vm: string)
    requires Reported(hbs, MaskReport(vm))
    ensures Cleared(hbs, vm)
  {
  }

  /** A VM is still held exactly when no heartbeat masked it or found it assigned. */
  lemma {:induction false} HeldIffNeverCleared(held: seq<string>, hbs: seq<Heartbeat>, vm: string)
    requires StillHeld(FenceHold(true, held, []), hbs)
    ensures var f := Beats(FenceHold(true, held, []), hbs);
            f.pending && (vm in f.held <==> vm in held && !Cleared(hbs, vm))
  {
    if hbs != [] {
      var f0 := FenceHold(true, held, []);
      var init, last := hbs[..|hbs| - 1], hbs[|hbs| - 1];
      var f := Beats(f0, init);
      HeldIffNeverCleared(held, init, vm);
      ReportsAccumulate(f0, init);
      LastClear(hbs, vm);
      MergeMembers(last.actions, f.reports + last.actions);
      RemainingMembers(f.held, last.placed, Merge(last.actions, f.reports + last.actions));
      if Reported(init, MaskReport(vm)) {
        ReportCleared(init, vm);
      }
    }
  }

  /**
   The first release, exactly: while the fence was held at every earlier
   heartbeat, it is lifted at this one if and only if some heartbeat so far
   reported that placement settled and every held VM was masked, or found
   assigned to the host, in some heartbeat so far. Otherwise the hold lists
   exactly the VMs that were not.
   */
  lemma {:induction false} FirstReleaseIff(held: seq<string>, hbs: seq<Heartbeat>)
    requires hbs != [] && StillHeld(FenceHold(true, held, []), hbs[..|hbs| - 1])
    ensures var out := Outcome(Beats(FenceHold(true, held, []), hbs[..|hbs| - 1]), hbs[|hbs| - 1]);
            && (out.Unfence? <==> Reported(hbs, "placement-settled") && forall vm :: vm in held ==> Cleared(hbs, vm))
            && !out.Keep?
            && (out.Hold? ==> forall vm :: vm in out.vms <==> vm in held && !Cleared(hbs, vm))
  {
    var f0 := FenceHold(true, held, []);
    var init, last := hbs[..|hbs| - 1], hbs[|hbs| - 1];
    var f := Beats(f0, init);
    var actions := Merge(last.actions, f.reports + last.actions);
    var remaining := Remaining(f.held, last.placed, actions);
    ReportsAccumulate(f0, init);
    MergeMembers(last.actions, f.reports + last.actions);
    RemainingMembers(f.held, last.placed, actions);
    LastReport(hbs, PLACEMENT_SETTLED);
    HeldIffNeverCleared(held, init, "");
    forall vm
      ensures vm in remaining <==> vm in held && !Cleared(hbs, vm)
    {
      HeldIffNeverCleared(held, init, vm);
      LastClear(hbs, vm);
      if Reported(init, MaskReport(vm)) {
        ReportCleared(init, vm);
      }
    }
    if remaining != [] {
      assert remaining[0] in remaining;
    }
  }

  /** Every report of the heartbeats, one after the other. */
  function AllReports(hbs: seq<Heartbeat>): (reports: seq<string>) {
    if hbs == [] then [] else AllReports(hbs[..|hbs| - 1]) + hbs[|hbs| - 1].actions
  }

  lemma {:induction false} AllReportsMembers(hbs: seq<Heartbeat>)
    ensures forall r :: r in AllReports(hbs) <==> Reported(hbs, r)
  {
    if hbs != [] {
      AllReportsMembers(hbs[..|hbs| - 1]);
      forall r
        ensures r in AllReports(hbs) <==> Reported(hbs, r)
      {
        LastReport(hbs, r);
      }
    }
  }

  /** With the hold list kept as it was, only VMs assigned at this very heartbeat need no mask report. */
  lemma {:induction false} ReleaseOfFixedHoldIff(held: seq<string>, hbs: seq<Heartbeat>)
    requires hbs != []
    ensures var last := hbs[|hbs| - 1];
            var out := FenceRelease(true, held, last.placed, Merge(last.actions, AllReports(hbs)));
            && (out.Unfence? <==> Reported(hbs, "placement-settled")
                                  && forall vm :: vm in held ==> vm in last.placed || Reported(hbs, "placement-mask:" + vm))
            && (out.Hold? ==> forall vm :: vm in out.vms <==> vm in held && vm !in last.placed && !Reported(hbs, "placement-mask:" + vm))
  {
    var last := hbs[|hbs| - 1];
    var actions := Merge(last.actions, AllReports(hbs));
    AllReportsMembers(hbs);
    MergeMembers(last.actions, AllReports(hbs));
    RemainingMembers(held, last.placed, actions);
    forall r
      ensures r in actions <==> Reported(hbs, r)
    {
      LastReport(hbs, r);
    }
    var remaining := Remaining(held, last.placed, actions);
    if remaining != [] {
      assert remaining[0] in remaining;
    }
  }

  /** The VM is assigned to the host now or was masked by a report so far. */
  predicate Seen(f: FenceHold, hb: Heartbeat, vm: string) {
    vm in hb.placed || "placement-mask:" + vm in f.reports + hb.actions
  }

  /**
   One heartbeat: the hold ends exactly when placement settled, every held VM was
   seen and Ceph accepted. Otherwise the VMs not yet seen stay held, no report is
   lost, and a host without a hold keeps none.
   */
  lemma {:induction false} BeatIs(f: FenceHold, hb: Heartbeat, lifted: bool)
    ensures var f' := Beat(f, hb, lifted);
            && f'.reports == f.reports + hb.actions
            && (!f.pending ==> !f'.pending && f'.held == f.held)
            && (f.pending ==>
                  && (!f'.pending <==> lifted && "placement-settled" in f'.reports && forall vm :: vm in f.held ==> Seen(f, hb, vm))
                  && (!f'.pending ==> f'.held == [])
                  && (f'.pending ==> forall vm :: vm in f.held && !Seen(f, hb, vm) ==> vm in f'.held)
                  && (f'.pending ==> forall vm :: vm in f'.held ==> vm in f.held))
  {
    var actions := Merge(hb.actions, f.reports + hb.actions);
    MergeMembers(hb.actions, f.reports + hb.actions);
    RemainingMembers(f.held, hb.placed, actions);
    var remaining := Remaining(f.held, hb.placed, actions);
    if remaining != [] {
      assert remaining[0] in remaining;
    }
  }

  /** A release that Ceph did not accept is decided again at the next heartbeat, as long as the same VMs are assigned. */
  lemma {:induction false} ReleaseIsRetried(f: FenceHold, hb: Heartbeat, next: Heartbeat)
    requires Outcome(f, hb).Unfence? && next.placed == hb.placed
    ensures Outcome(Beat(f, hb, false), next).Unfence?
  {
    var f' := Beat(f, hb, false);
    var before, now := Merge(hb.actions, f.reports + hb.actions), Merge(next.actions, f'.reports + next.actions);
    MergeMembers(hb.actions, f.reports + hb.actions);
    MergeMembers(next.actions, f'.reports + next.actions);
    NothingRemainsIff(f.held, hb.placed, before);
    NothingRemainsIff(f.held, next.placed, now);
  }

  lemma {:induction false} NothingRemainsIff(held: seq<string>, placed: seq<string>, actions: seq<string>)
    ensures Remaining(held, placed, actions) == [] <==> forall i :: 0 <= i < |held| ==> !Missing(held[i], placed, actions)
  {
    if held != [] {
      NothingRemainsIff(held[1..], placed, actions);
      assert forall i :: 1 <= i < |held| ==> held[i] == held[1..][i - 1];
    }
  }

  /** Being assigned once is enough: the VM may have moved away again, never masked, when the fence is lifted. */
  lemma {:induction false} AssignedOnceIsEnough(vm: string)
    ensures var hbs := [Heartbeat([], [vm]), Heartbeat([PLACEMENT_SETTLED], [])];
            && StillHeld(FenceHold(true, [vm], []), hbs[..1])
            && Outcome(Beats(FenceHold(true, [vm], []), hbs[..1]), hbs[1]).Unfence?
            && vm !in hbs[1].placed && !Reported(hbs, MaskReport(vm))
  {
    var f0 := FenceHold(true, [vm], []);
    var hbs := [Heartbeat([], [vm]), Heartbeat([PLACEMENT_SETTLED], [])];
    var first := hbs[..1];
    assert first[..0] == [] && Beats(f0, []) == f0;
    assert [vm][1..] == [] && Remaining([], [vm], []) == [];
    assert StillHeld(f0, []);
    assert Outcome(f0, first[0]) == Hold([]);
    assert Cleared(hbs, vm) && Reported(hbs, PLACEMENT_SETTLED) by {
      assert vm in hbs[0].placed && PLACEMENT_SETTLED in hbs[1].actions;
    }
    FirstReleaseIff([vm], hbs);
    assert MaskReport(vm)[10] == 'm' && PLACEMENT_SETTLED[10] == 's';
    assert MaskReport(vm) != PLACEMENT_SETTLED;
  }
}
