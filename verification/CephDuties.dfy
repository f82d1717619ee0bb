/** What one pass of the reconciler does for each retired member, by what the agents answer. */
module CephDuties {
  import opened Prelude
  import opened CephRemoval

  /** A surviving member reported the drain complete; without survivors there is nobody to ask. */
  predicate Drained(spec: Spec, id: string, e: Env) {
    spec.nodes == [] || e.drain(id) == DrainClean
  }

  /** The member is torn down, and its monitor, if it had one, is removed by a survivor. */
  predicate Gone(spec: Spec, id: string, e: Env) {
    e.tear(id).Torn? && (e.tear(id).hasMon && spec.nodes != [] ==> e.monGone(id))
  }

  /** The pass is done with the member: it belongs to the cluster again, or it is drained and gone. */
  predicate Done(spec: Spec, id: string, e: Env) {
    id in spec.nodes || (Drained(spec, id, e) && Gone(spec, id, e))
  }

  function Survivor(spec: Spec): (id: string)
    requires spec.nodes != []
  {
    spec.nodes[0]
  }

  /**
   The work on one member: it leaves the list exactly when the pass is done with
   it, and only then does the pass go on; it is asked to tear down exactly when it
   is out of the cluster and drained, and its monitor is removed exactly when it
   is torn down with one.
   */
  lemma MemberWorkIs(spec: Spec, id: string, e: Env)
    ensures var w := RetireMember(spec, id, e);
            && (w.ok <==> Done(spec, id, e))
            && (ClearRetired(id) in w.evs <==> Done(spec, id, e))
            && (w.ok ==> w.evs[|w.evs| - 1] == ClearRetired(id))
            && ((exists done :: Teardown(id, done) in w.evs) <==> id !in spec.nodes && Drained(spec, id, e) && !e.tear(id).TearUnreachable?)
            && (Teardown(id, true) in w.evs <==> id !in spec.nodes && Drained(spec, id, e) && e.tear(id).Torn?)
            && (spec.nodes != [] ==>
                  && (DrainReport(Survivor(spec), id, true) in w.evs <==> id !in spec.nodes && e.drain(id).DrainClean?)
                  && (DrainReport(Survivor(spec), id, false) in w.evs <==> id !in spec.nodes && e.drain(id).DrainBusy?)
                  && (RemoveMon(Survivor(spec), id) in w.evs <==> Teardown(id, true) in w.evs && e.tear(id).hasMon))
  {
    if id !in spec.nodes && Drained(spec, id, e) && !e.tear(id).TearUnreachable? {
      var w, at := RetireMember(spec, id, e), |DrainMember(spec, id, e).evs|;
      assert w.evs[at] == Teardown(id, e.tear(id).Torn?);
    }
  }

  predicate About(ev: Event, id: string) {
    match ev
    case AddRetired(i) => i == id
    case ClearRetired(i) => i == id
    case SetSpec(_) => false
    case DrainReport(_, i, _) => i == id
    case Teardown(i, _) => i == id
    case RemoveMon(_, i) => i == id
  }

  /** The event is about one of the first `k` members. */
  predicate AmongFirst(ev: Event, ids: seq<string>, k: nat) {
    exists j :: 0 <= j < k && j < |ids| && About(ev, ids[j])
  }

  predicate OnlyAbout(evs: seq<Event>, ids: seq<string>, k: nat) {
    forall ev :: ev in evs ==> AmongFirst(ev, ids, k)
  }

  /** The pass is done with every member before `k`, and with `k` itself it is not. */
  predicate StopsAt(spec: Spec, ids: seq<string>, e: Env, k: nat) {
    k <= |ids| && (forall j :: 0 <= j < k ==> Done(spec, ids[j], e)) && (k < |ids| ==> !Done(spec, ids[k], e))
  }

  lemma {:induction false} OwnWork(spec: Spec, id: string, e: Env)
    ensures forall ev :: ev in RetireMember(spec, id, e).evs ==> About(ev, id)
  {
  }

  lemma OneFurther(ev: Event, ids: seq<string>, k: nat)
    requires ids != [] && (About(ev, ids[0]) || AmongFirst(ev, ids[1..], k))
    ensures AmongFirst(ev, ids, k + 1)
  {
    if !About(ev, ids[0]) {
      var j :| 0 <= j < k && j < |ids[1..]| && About(ev, ids[1..][j]);
      assert ids[j + 1] == ids[1..][j];
    }
  }

  lemma OnlyAboutJoin(first: seq<Event>, evs: seq<Event>, ids: seq<string>, k: nat)
    requires ids != [] && (forall ev :: ev in first ==> About(ev, ids[0])) && OnlyAbout(evs, ids[1..], k)
    ensures OnlyAbout(first + evs, ids, k + 1)
  {
    forall ev | ev in first + evs
      ensures AmongFirst(ev, ids, k + 1)
    {
      OneFurther(ev, ids, k);
    }
  }

  /**
   One pass goes through the retired members in order up to the first it is not
   done with, takes every member before it off the list, and leaves the members
   behind it alone.
   */
  lemma {:induction false} PassStopsAtTheFirst(spec: Spec, ids: seq<string>, e: Env, k: nat)
    requires StopsAt(spec, ids, e, k)
    ensures var evs := RetireAll(spec, ids, e);
            OnlyAbout(evs, ids, k + 1) && forall j :: 0 <= j < k ==> ClearRetired(ids[j]) in evs
  {
    if ids != [] {
      MemberWorkIs(spec, ids[0], e);
      OwnWork(spec, ids[0], e);
      var w := RetireMember(spec, ids[0], e);
      if k > 0 {
        assert forall j :: 0 <= j < |ids[1..]| ==> ids[1..][j] == ids[j + 1];
        PassStopsAtTheFirst(spec, ids[1..], e, k - 1);
        OnlyAboutJoin(w.evs, RetireAll(spec, ids[1..], e), ids, k);
        forall j | 0 <= j < k
          ensures ClearRetired(ids[j]) in RetireAll(spec, ids, e)
        {
          if j > 0 {
            assert ids[1..][j - 1] == ids[j];
          }
        }
      } else {
        OnlyAboutJoin(w.evs, [], ids, 0);
        assert w.evs + [] == w.evs;
      }
    }
  }

  // ---- a new spec ------------------------------------------------------------------

  predicate FitSpec(s: Spec) {
    && |s.nodes| > 0 && 0 < s.minSize <= s.size
    && (forall i :: 0 <= i < |s.nodes| ==> s.nodes[i] != "")
    && (forall i, j :: 0 <= i < j < |s.nodes| ==> s.nodes[i] != s.nodes[j])
  }

  /** Member `k` is the only one the new spec leaves out. */
  predicate OnlyLeavesOut(nodes: seq<string>, new_: Spec, k: nat) {
    k < |nodes| && nodes[k] !in new_.nodes && forall j :: 0 <= j < |nodes| && j != k ==> nodes[j] in new_.nodes
  }

  /** Nobody is left out, or one member of a healthy cluster that has hosts enough without it and retires nobody else. */
  predicate MayChange(nodes: seq<string>, new_: Spec, health: Health, retired: seq<string>) {
    || (forall j :: 0 <= j < |nodes| ==> nodes[j] in new_.nodes)
    || (&& |new_.nodes| >= new_.size && health.HealthOk?
        && exists k: nat :: k < |nodes| && OnlyLeavesOut(nodes, new_, k) && forall i :: 0 <= i < |retired| ==> retired[i] == nodes[k])
  }

  lemma {:induction false} NoneDropped(nodes: seq<string>, new_: Spec)
    ensures Dropped(nodes, new_.nodes) == [] <==> forall j :: 0 <= j < |nodes| ==> nodes[j] in new_.nodes
  {
    if nodes != [] {
      NoneDropped(nodes[1..], new_);
      assert forall j :: 0 < j < |nodes| ==> nodes[j] == nodes[1..][j - 1];
    }
  }

  lemma {:induction false} OneDropped(nodes: seq<string>, new_: Spec, id: string)
    ensures Dropped(nodes, new_.nodes) == [id] <==> exists k: nat :: k < |nodes| && OnlyLeavesOut(nodes, new_, k) && nodes[k] == id
  {
    if nodes != [] {
      var rest := nodes[1..];
      assert forall j :: 0 < j < |nodes| ==> nodes[j] == rest[j - 1];
      if nodes[0] in new_.nodes {
        OneDropped(rest, new_, id);
        if k: nat :| k < |rest| && OnlyLeavesOut(rest, new_, k) && rest[k] == id {
          assert OnlyLeavesOut(nodes, new_, k + 1) && nodes[k + 1] == id;
        }
        if k: nat :| k < |nodes| && OnlyLeavesOut(nodes, new_, k) && nodes[k] == id {
          assert k > 0 && OnlyLeavesOut(rest, new_, k - 1) && rest[k - 1] == id;
        }
      } else {
        NoneDropped(rest, new_);
        if k: nat :| k < |nodes| && OnlyLeavesOut(nodes, new_, k) && nodes[k] == id {
          assert k == 0;
          assert forall j :: 0 <= j < |rest| ==> rest[j] in new_.nodes;
        }
        if Dropped(nodes, new_.nodes) == [id] {
          assert Dropped(nodes, new_.nodes)[0] == nodes[0];
          assert Dropped(nodes, new_.nodes)[1..] == Dropped(rest, new_.nodes);
          assert OnlyLeavesOut(nodes, new_, 0);
        }
      }
    }
  }

  lemma MayChangeIff(before: Spec, new_: Spec, health: Health, retired: seq<string>)
    ensures Acceptable(before, new_, health, retired) <==> MayChange(before.nodes, new_, health, retired)
  {
    var removed := Dropped(before.nodes, new_.nodes);
    NoneDropped(before.nodes, new_);
    if |removed| == 1 {
      OneDropped(before.nodes, new_, removed[0]);
      assert removed == [removed[0]];
      var k: nat :| k < |before.nodes| && OnlyLeavesOut(before.nodes, new_, k) && before.nodes[k] == removed[0];
      assert OnlyPending(retired, removed) <==> forall i :: 0 <= i < |retired| ==> retired[i] == before.nodes[k];
      assert forall j: nat :: j < |before.nodes| && OnlyLeavesOut(before.nodes, new_, j) ==> j == k;
    }
    if k: nat :| k < |before.nodes| && OnlyLeavesOut(before.nodes, new_, k) && forall i :: 0 <= i < |retired| ==> retired[i] == before.nodes[k] {
      OneDropped(before.nodes, new_, before.nodes[k]);
    }
  }

  /** A spec is taken exactly when it fits, is new, passes the host checks, keeps the encryption and may replace the old one; then the cluster has it. */
  lemma ApplyIff(c: Cluster, new_: Spec, health: Health, hostsOk: bool)
    ensures ApplySpec(c, new_, health, hostsOk) != [] <==>
              && FitSpec(new_) && hostsOk && c.spec != Some(new_)
              && (c.spec.Some? ==> c.spec.value.encrypt == new_.encrypt && MayChange(c.spec.value.nodes, new_, health, c.retired))
    ensures ApplySpec(c, new_, health, hostsOk) != [] ==> SetSpec(new_) in ApplySpec(c, new_, health, hostsOk)
  {
    if c.spec.Some? {
      MayChangeIff(c.spec.value, new_, health, c.retired);
    }
  }
}
