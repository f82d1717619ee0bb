/**
 What every run of member removal keeps, with operations cut short anywhere:
 one removal at a time, enough hosts left for the replicas, no teardown without
 a clean drain, and exactly when a dropped member can be forgotten.
 */
module CephSafety {
  import opened Prelude
  import opened CephRemoval

  /** The stored cluster, the previous event of the running operation, and the members dropped but not torn down. */
  datatype View = View(c: Cluster, last: Option<Event>, owed: set<string>)

  function Members(c: Cluster): (ids: set<string>) {
    if c.spec.None? then {} else set id | id in c.spec.value.nodes
  }

  function See(v: View, ev: Event): (v': View) {
    var c := ApplyEvent(v.c, ev);
    View(c, Some(ev),
         match ev
         case SetSpec(_) => (v.owed + Members(v.c)) - Members(c)
         case ClearRetired(id) => if TornJustNow(v.last, id) then v.owed - {id} else v.owed
         case _ => v.owed)
  }

  predicate TornJustNow(last: Option<Event>, id: string) {
    last.Some? && (last.value == Teardown(id, true) || (last.value.RemoveMon? && last.value.id == id))
  }

  function SeeAll(v: View, evs: seq<Event>): (v': View)
    decreases evs
  {
    if evs == [] then v else SeeAll(See(v, evs[0]), evs[1..])
  }

  /** What may happen next. */
  predicate Safe(v: View, ev: Event) {
    match ev
    case Teardown(id, _) =>
      id !in Members(v.c) && v.last.Some? && v.last.value.DrainReport?
      && v.last.value.id == id && v.last.value.clean && v.last.value.survivor in Members(v.c)
    case RemoveMon(survivor, id) =>
      v.last == Some(Teardown(id, true)) && id !in Members(v.c) && survivor in Members(v.c)
    case SetSpec(s) =>
      ValidSpec(s) && (v.c.spec.Some? ==> SafeChange(v.c, s))
    case AddRetired(id) => id in Members(v.c)
    case ClearRetired(_) => true
    case DrainReport(survivor, id, _) => survivor in Members(v.c) && id !in Members(v.c)
  }

  /** A change that drops a member drops one, has it listed for retirement and leaves a host for each replica. */
  predicate SafeChange(c: Cluster, s: Spec)
    requires c.spec.Some?
  {
    var dropped := Dropped(c.spec.value.nodes, s.nodes);
    dropped == [] || (|dropped| == 1 && c.retired == dropped && |s.nodes| >= s.size)
  }

  predicate Sound(v: View) {
    && |v.c.retired| <= 1
    && v.owed !! Members(v.c)
    && (v.c.spec.Some? ==> ValidSpec(v.c.spec.value))
  }

  predicate Kept(v: View) {
    forall id :: id in v.owed ==> id in v.c.retired
  }

  /** Every event allowed and every state in between sound; when `strict`, no dropped member unlisted either. */
  predicate SafeAll(v: View, evs: seq<Event>, strict: bool)
    decreases evs
  {
    Sound(v) && (strict ==> Kept(v)) && (evs == [] || (Safe(v, evs[0]) && SafeAll(See(v, evs[0]), evs[1..], strict)))
  }

  lemma {:induction false} SeeAllConcat(v: View, xs: seq<Event>, ys: seq<Event>)
    ensures SeeAll(v, xs + ys) == SeeAll(SeeAll(v, xs), ys)
    decreases xs
  {
    if xs == [] {
      assert xs + ys == ys;
    } else {
      SeeAllConcat(See(v, xs[0]), xs[1..], ys);
      assert (xs + ys)[1..] == xs[1..] + ys;
    }
  }

  lemma {:induction false} SafeConcat(v: View, xs: seq<Event>, ys: seq<Event>, strict: bool)
    requires SafeAll(v, xs, strict) && SafeAll(SeeAll(v, xs), ys, strict)
    ensures SafeAll(v, xs + ys, strict)
    decreases xs
  {
    if xs == [] {
      assert xs + ys == ys;
    } else {
      SafeConcat(See(v, xs[0]), xs[1..], ys, strict);
      assert (xs + ys)[1..] == xs[1..] + ys;
    }
  }

  lemma {:induction false} SafePrefix(v: View, evs: seq<Event>, k: nat, strict: bool)
    requires SafeAll(v, evs, strict) && k <= |evs|
    ensures Sound(SeeAll(v, evs[..k])) && (strict ==> Kept(SeeAll(v, evs[..k])))
    ensures k < |evs| ==> Safe(SeeAll(v, evs[..k]), evs[k])
    decreases evs
  {
    if k == 0 {
      assert evs[..0] == [];
    } else {
      SafePrefix(See(v, evs[0]), evs[1..], k - 1, strict);
      assert evs[..k][1..] == evs[1..][..k - 1];
    }
  }

  // ---- the list of retired members -----------------------------------------

  lemma {:induction false} InsertMembers(ids: seq<string>, x: string)
    ensures forall id :: id in InsertId(ids, x) <==> id in ids || id == x
  {
    if x !in ids && ids != [] && !Less(x, ids[0]) {
      InsertMembers(ids[1..], x);
    }
  }

  lemma {:induction false} RemoveMembers(ids: seq<string>, x: string)
    ensures forall id :: id in RemoveId(ids, x) <==> id in ids && id != x
    ensures |RemoveId(ids, x)| <= |ids|
  {
    if ids != [] {
      RemoveMembers(ids[1..], x);
    }
  }

  // ---- one pass of the reconciler --------------------------------------------

  predicate Steady(v: View, spec: Spec, strict: bool) {
    Sound(v) && v.c.spec == Some(spec) && (strict ==> Kept(v))
  }

  /** A list of events that is safe from `v` and ends in `w` under the same spec. */
  predicate Leads(v: View, spec: Spec, evs: seq<Event>, w: View, strict: bool) {
    SafeAll(v, evs, strict) && SeeAll(v, evs) == w && Steady(w, spec, strict)
  }

  lemma LeadsOn(v: View, spec: Spec, xs: seq<Event>, w: View, ys: seq<Event>, z: View, strict: bool)
    requires Leads(v, spec, xs, w, strict) && Leads(w, spec, ys, z, strict)
    ensures Leads(v, spec, xs + ys, z, strict)
  {
    SafeConcat(v, xs, ys, strict);
    SeeAllConcat(v, xs, ys);
  }

  lemma LeadsOne(v: View, spec: Spec, ev: Event, strict: bool)
    requires Steady(v, spec, strict) && Safe(v, ev) && Steady(See(v, ev), spec, strict)
    ensures Leads(v, spec, [ev], See(v, ev), strict)
  {
    assert [ev][1..] == [];
    assert SeeAll(See(v, ev), []) == See(v, ev);
    assert SafeAll(See(v, ev), [], strict);
  }

  lemma ClearIsSteady(v: View, spec: Spec, id: string, strict: bool)
    requires Steady(v, spec, strict) && (id in spec.nodes || TornJustNow(v.last, id))
    ensures Leads(v, spec, [ClearRetired(id)], See(v, ClearRetired(id)), strict)
  {
    RemoveMembers(v.c.retired, id);
    assert id in spec.nodes ==> id in Members(v.c);
    LeadsOne(v, spec, ClearRetired(id), strict);
  }

  lemma TearIsSafe(v: View, spec: Spec, id: string, e: Env, strict: bool)
    requires Steady(v, spec, strict) && id !in spec.nodes && spec.nodes != []
    requires v.last == Some(DrainReport(spec.nodes[0], id, true))
    ensures var evs := TearMember(spec, id, e).evs; Leads(v, spec, evs, SeeAll(v, evs), strict)
  {
    var evs := TearMember(spec, id, e).evs;
    var t, m, d := Teardown(id, e.tear(id).Torn?), RemoveMon(spec.nodes[0], id), ClearRetired(id);
    assert spec.nodes[0] in Members(v.c) && id !in Members(v.c);
    if evs != [] {
      var v1 := See(v, t);
      LeadsOne(v, spec, t, strict);
      if evs == [t, m] || evs == [t, m, d] {
        var v2 := See(v1, m);
        LeadsOne(v1, spec, m, strict);
        LeadsOn(v, spec, [t], v1, [m], v2, strict);
        assert [t] + [m] == [t, m];
        if evs == [t, m, d] {
          ClearIsSteady(v2, spec, id, strict);
          LeadsOn(v, spec, [t, m], v2, [d], See(v2, d), strict);
          assert [t, m] + [d] == [t, m, d];
        }
      } else if evs == [t, d] {
        ClearIsSteady(v1, spec, id, strict);
        LeadsOn(v, spec, [t], v1, [d], See(v1, d), strict);
        assert [t] + [d] == [t, d];
      }
    }
  }

  lemma RetireMemberIsSafe(v: View, spec: Spec, id: string, e: Env, strict: bool)
    requires Steady(v, spec, strict)
    ensures var evs := RetireMember(spec, id, e).evs; Leads(v, spec, evs, SeeAll(v, evs), strict)
  {
    if id in spec.nodes {
      ClearIsSteady(v, spec, id, strict);
    } else {
      var drain := DrainMember(spec, id, e);
      if drain.evs != [] {
        var ev := drain.evs[0];
        assert spec.nodes[0] in Members(v.c);
        LeadsOne(v, spec, ev, strict);
        assert drain.evs == [ev];
        if drain.ok {
          TearIsSafe(See(v, ev), spec, id, e, strict);
          var tear := TearMember(spec, id, e).evs;
          LeadsOn(v, spec, [ev], See(v, ev), tear, SeeAll(See(v, ev), tear), strict);
        }
      }
    }
  }

  lemma {:induction false} RetireAllIsSafe(v: View, spec: Spec, ids: seq<string>, e: Env, strict: bool)
    requires Steady(v, spec, strict)
    ensures var evs := RetireAll(spec, ids, e); Leads(v, spec, evs, SeeAll(v, evs), strict)
    decreases ids
  {
    if ids != [] {
      RetireMemberIsSafe(v, spec, ids[0], e, strict);
      var work := RetireMember(spec, ids[0], e);
      if work.ok {
        var w := SeeAll(v, work.evs);
        RetireAllIsSafe(w, spec, ids[1..], e, strict);
        var rest := RetireAll(spec, ids[1..], e);
        LeadsOn(v, spec, work.evs, w, rest, SeeAll(w, rest), strict);
      }
    }
  }

  // ---- applying a spec -------------------------------------------------------

  /** Writes to the retired list only, adding no member but `r` and not both adding and clearing it. */
  predicate Edits(evs: seq<Event>, r: string) {
    && (forall i :: 0 <= i < |evs| ==> evs[i].ClearRetired? || evs[i] == AddRetired(r))
    && !(AddRetired(r) in evs && ClearRetired(r) in evs)
  }

  predicate Quiet(last: Option<Event>) {
    last.None? || last.value.AddRetired? || last.value.ClearRetired?
  }

  /** At most `r` is listed, and it stays listed unless cleared. */
  lemma {:induction false} EditsAreSafe(v: View, evs: seq<Event>, r: string)
    requires Sound(v) && Quiet(v.last) && Edits(evs, r) && (v.c.retired == [] || v.c.retired == [r])
    requires AddRetired(r) in evs ==> r in Members(v.c)
    ensures SafeAll(v, evs, false)
    ensures var w := SeeAll(v, evs);
            && Sound(w) && Quiet(w.last) && w.owed == v.owed && w.c.spec == v.c.spec
            && (w.c.retired == [] || w.c.retired == [r])
            && (r in w.c.retired <==> (r in v.c.retired || AddRetired(r) in evs) && ClearRetired(r) !in evs)
    decreases evs
  {
    if evs != [] {
      var rest := evs[1..];
      EditStep(v, evs[0], r);
      assert evs == [evs[0]] + rest;
      assert Edits(rest, r) by {
        assert forall ev :: ev in rest ==> ev in evs;
      }
      EditsAreSafe(See(v, evs[0]), rest, r);
    }
  }

  lemma EditStep(v: View, ev: Event, r: string)
    requires Sound(v) && Quiet(v.last) && (v.c.retired == [] || v.c.retired == [r])
    requires ev.ClearRetired? || (ev == AddRetired(r) && r in Members(v.c))
    ensures Safe(v, ev)
    ensures var w := See(v, ev);
            && Sound(w) && Quiet(w.last) && w.owed == v.owed && w.c.spec == v.c.spec
            && w.c.retired == if ev == AddRetired(r) then [r] else if ev == ClearRetired(r) then [] else v.c.retired
  {
    if v.c.retired == [r] && ev.ClearRetired? {
      assert RemoveId([r], ev.id) == (if r == ev.id then [] else [r]) + RemoveId([], ev.id);
    }
  }

  /** The writes of an accepted change of spec, before the spec itself. */
  function ListEdits(before: Spec, after: Spec): (evs: seq<Event>) {
    Adds(Dropped(before.nodes, after.nodes)) + Clears(after.nodes)
  }

  /** The one member an accepted change may concern: the one it drops, or the one still waiting. */
  function Leaver(c: Cluster, before: Spec, after: Spec): (r: string) {
    var dropped := Dropped(before.nodes, after.nodes);
    if dropped != [] then dropped[0] else if c.retired != [] then c.retired[0] else ""
  }

  lemma AcceptedEdits(v: View, before: Spec, after: Spec, health: Health)
    requires Sound(v) && v.c.spec == Some(before) && Acceptable(before, after, health, v.c.retired)
    ensures var r, evs := Leaver(v.c, before, after), ListEdits(before, after);
            && Edits(evs, r) && (v.c.retired == [] || v.c.retired == [r])
            && (AddRetired(r) in evs <==> Dropped(before.nodes, after.nodes) == [r])
            && (ClearRetired(r) in evs <==> r in after.nodes)
            && (AddRetired(r) in evs ==> r in Members(v.c))
  {
    var r, dropped := Leaver(v.c, before, after), Dropped(before.nodes, after.nodes);
    DroppedMembers(before.nodes, after.nodes);
    var adds, clears := Adds(dropped), Clears(after.nodes);
    assert dropped == [] || dropped == [r];
    if dropped == [r] {
      assert adds[0] == AddRetired(r);
      assert v.c.retired != [] ==> v.c.retired[0] in dropped;
      assert r in dropped;
    }
    if r in after.nodes {
      var i :| 0 <= i < |after.nodes| && after.nodes[i] == r;
      assert clears[i] == ClearRetired(r);
    }
  }

  lemma AcceptedChange(v: View, after: Spec, health: Health)
    requires Sound(v) && Quiet(v.last) && v.c.spec.Some? && ValidSpec(after)
    requires Acceptable(v.c.spec.value, after, health, v.c.retired)
    ensures var evs := ListEdits(v.c.spec.value, after) + [SetSpec(after)];
            SafeAll(v, evs, false) && (Kept(v) ==> Kept(SeeAll(v, evs)))
  {
    var before := v.c.spec.value;
    var edits, r := ListEdits(before, after), Leaver(v.c, before, after);
    AcceptedEdits(v, before, after, health);
    EditsAreSafe(v, edits, r);
    var w, ev := SeeAll(v, edits), SetSpec(after);
    DroppedMembers(before.nodes, after.nodes);
    assert [ev][1..] == [] && SeeAll(See(w, ev), []) == See(w, ev);
    assert SafeAll(See(w, ev), [], false);
    SafeConcat(v, edits, [ev], false);
    SeeAllConcat(v, edits, [ev]);
  }

  lemma ApplySpecIsSafe(v: View, after: Spec, health: Health, hostsOk: bool)
    requires Sound(v) && Quiet(v.last)
    ensures SafeAll(v, ApplySpec(v.c, after, health, hostsOk), false)
    ensures Kept(v) ==> Kept(SeeAll(v, ApplySpec(v.c, after, health, hostsOk)))
  {
    var evs := ApplySpec(v.c, after, health, hostsOk);
    if evs != [] && v.c.spec.None? {
      assert evs[1..] == [] && SeeAll(See(v, evs[0]), []) == See(v, evs[0]);
      assert SafeAll(See(v, evs[0]), [], false);
    } else if evs != [] {
      AcceptedChange(v, after, health);
    }
  }
}
