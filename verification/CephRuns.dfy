/**
 Runs of member removal: any sequence of applied specs and reconciler passes,
 each of them cut short anywhere.
 */
module CephRuns {
  import opened Prelude
  import opened CephRemoval
  import opened CephSafety

  /** One operation, of which the first `ran` calls and writes happen. */
  datatype Step =
    | Submit(spec: Spec, health: Health, hostsOk: bool, ran: nat)
    | Pass(env: Env, ran: nat)

  function Whole(c: Cluster, s: Step): (evs: seq<Event>) {
    match s
    case Submit(spec, health, hostsOk, _) => ApplySpec(c, spec, health, hostsOk)
    case Pass(env, _) => if c.spec.None? then [] else RetireAll(c.spec.value, c.retired, env)
  }

  function Performed(c: Cluster, s: Step): (evs: seq<Event>) {
    Whole(c, s)[..Min(s.ran, |Whole(c, s)|)]
  }

  /** The view when an operation starts. */
  function Begin(v: View): (w: View) {
    v.(last := None)
  }

  function Take(v: View, s: Step): (w: View) {
    SeeAll(Begin(v), Performed(v.c, s))
  }

  function TakeAll(v: View, steps: seq<Step>): (w: View)
    decreases |steps|
  {
    if steps == [] then v else TakeAll(Take(v, steps[0]), steps[1..])
  }

  function Empty(): (v: View) {
    View(Cluster(None, []), None, {})
  }

  /** An apply cut short after clearing a member that it has not put back into the stored spec. */
  predicate Forgets(v: View, s: Step) {
    s.Submit? && s.ran < |Whole(v.c, s)| && exists id :: id in v.owed && ClearRetired(id) in Performed(v.c, s)
  }

  lemma WholeIsSafe(v: View, s: Step)
    requires Sound(v)
    ensures SafeAll(Begin(v), Whole(v.c, s), s.Pass? && Kept(v))
  {
    match s
    case Submit(spec, health, hostsOk, _) => ApplySpecIsSafe(Begin(v), spec, health, hostsOk);
    case Pass(env, _) =>
      if v.c.spec.Some? {
        RetireAllIsSafe(Begin(v), v.c.spec.value, v.c.retired, env, Kept(v));
      }
  }

  lemma CutApplyForgetsIff(v: View, s: Step)
    requires Sound(v) && Kept(v) && s.Submit? && s.ran < |Whole(v.c, s)|
    ensures Kept(Take(v, s)) <==> !Forgets(v, s)
  {
    if v.c.spec.None? {
      assert Performed(v.c, s) == [];
    } else {
      var before := v.c.spec.value;
      var r, edits, evs := Leaver(v.c, before, s.spec), ListEdits(before, s.spec), Performed(v.c, s);
      AcceptedEdits(Begin(v), before, s.spec, s.health);
      assert evs == edits[..s.ran];
      assert Edits(evs, r) by {
        assert forall ev :: ev in evs ==> ev in edits;
      }
      EditsAreSafe(Begin(v), evs, r);
      assert forall id :: id in v.owed ==> id == r;
    }
  }

  lemma TakeIsSafe(v: View, s: Step)
    requires Sound(v)
    ensures Sound(Take(v, s))
    ensures Kept(v) ==> (Kept(Take(v, s)) <==> !Forgets(v, s))
  {
    var whole, k := Whole(v.c, s), Min(s.ran, |Whole(v.c, s)|);
    WholeIsSafe(v, s);
    SafePrefix(Begin(v), whole, k, s.Pass? && Kept(v));
    if Kept(v) && s.Submit? {
      if s.ran < |whole| {
        CutApplyForgetsIff(v, s);
      } else {
        assert whole[..k] == whole;
        ApplySpecIsSafe(Begin(v), s.spec, s.health, s.hostsOk);
      }
    }
  }

  lemma {:induction false} RunIsSound(v: View, steps: seq<Step>)
    requires Sound(v)
    ensures Sound(TakeAll(v, steps))
    decreases |steps|
  {
    if steps != [] {
      TakeIsSafe(v, steps[0]);
      RunIsSound(Take(v, steps[0]), steps[1..]);
    }
  }

  /** The view just before event `j` of step `i`. */
  function Before(steps: seq<Step>, i: nat, j: nat): (v: View)
    requires i < |steps| && j <= |Performed(TakeAll(Empty(), steps[..i]).c, steps[i])|
  {
    var v := TakeAll(Empty(), steps[..i]);
    SeeAll(Begin(v), Performed(v.c, steps[i])[..j])
  }

  /** At every moment of every run: at most one removal open, and only safe events. */
  lemma EveryEventIsSafe(steps: seq<Step>, i: nat, j: nat)
    requires i < |steps| && j <= |Performed(TakeAll(Empty(), steps[..i]).c, steps[i])|
    ensures |Before(steps, i, j).c.retired| <= 1
    ensures var evs := Performed(TakeAll(Empty(), steps[..i]).c, steps[i]);
            j < |evs| ==> Safe(Before(steps, i, j), evs[j])
  {
    var v, s := TakeAll(Empty(), steps[..i]), steps[i];
    RunIsSound(Empty(), steps[..i]);
    WholeIsSafe(v, s);
    var whole := Whole(v.c, s);
    SafePrefix(Begin(v), whole, j, s.Pass? && Kept(v));
    assert Performed(v.c, s)[..j] == whole[..j];
  }

  lemma {:induction false} LastSeen(v: View, evs: seq<Event>)
    ensures SeeAll(v, evs).last == if evs == [] then v.last else Some(evs[|evs| - 1])
    decreases evs
  {
    if evs != [] {
      LastSeen(See(v, evs[0]), evs[1..]);
    }
  }

  /** A host is torn down only right after a member of the stored spec reported its drain clean, and never as a member. */
  lemma TeardownFollowsCleanDrain(steps: seq<Step>, i: nat, j: nat)
    requires i < |steps| && j < |Performed(TakeAll(Empty(), steps[..i]).c, steps[i])|
    requires Performed(TakeAll(Empty(), steps[..i]).c, steps[i])[j].Teardown?
    ensures var evs, now := Performed(TakeAll(Empty(), steps[..i]).c, steps[i]), Members(Before(steps, i, j).c);
            && j > 0 && evs[j - 1].DrainReport? && evs[j - 1].id == evs[j].id && evs[j - 1].clean
            && evs[j - 1].survivor in now && evs[j].id !in now
  {
    var v := TakeAll(Empty(), steps[..i]);
    var evs := Performed(v.c, steps[i]);
    EveryEventIsSafe(steps, i, j);
    LastSeen(Begin(v), evs[..j]);
  }

  /** A stored change that drops members drops exactly the one listed for retirement and leaves `size` hosts. */
  lemma StoredChangesLeaveEnoughHosts(steps: seq<Step>, i: nat, j: nat)
    requires i < |steps| && j < |Performed(TakeAll(Empty(), steps[..i]).c, steps[i])|
    requires Performed(TakeAll(Empty(), steps[..i]).c, steps[i])[j].SetSpec?
    requires Before(steps, i, j).c.spec.Some?
    ensures var c, after := Before(steps, i, j).c, Performed(TakeAll(Empty(), steps[..i]).c, steps[i])[j].spec;
            var dropped := Dropped(c.spec.value.nodes, after.nodes);
            dropped != [] ==> |dropped| == 1 && c.retired == dropped && |after.nodes| >= after.size
  {
    EveryEventIsSafe(steps, i, j);
  }

  /** Dropped members stay listed until torn down after every step, exactly when no apply is cut short at the wrong place. */
  lemma {:induction false} NothingForgottenIff(v: View, steps: seq<Step>)
    requires Sound(v) && Kept(v)
    ensures (forall k :: 0 <= k <= |steps| ==> Kept(TakeAll(v, steps[..k])))
       <==> (forall k :: 0 <= k < |steps| ==> !Forgets(TakeAll(v, steps[..k]), steps[k]))
    decreases |steps|
  {
    if steps != [] {
      var w, rest := Take(v, steps[0]), steps[1..];
      TakeIsSafe(v, steps[0]);
      assert steps[..0] == [] && TakeAll(v, steps[..0]) == v;
      forall k | 0 <= k <= |rest|
        ensures TakeAll(v, steps[..k + 1]) == TakeAll(w, rest[..k])
      {
        assert steps[..k + 1][1..] == rest[..k];
      }
      if Kept(w) {
        NothingForgottenIff(w, rest);
        ShiftIff(v, w, steps);
      } else {
        assert TakeAll(v, steps[..1]) == TakeAll(w, rest[..0]) == w;
      }
    } else {
      assert steps[..0] == [];
    }
  }

  /** Reading the two sides of `NothingForgottenIff` one step later. */
  lemma ShiftIff(v: View, w: View, steps: seq<Step>)
    requires steps != [] && Kept(v) && !Forgets(v, steps[0])
    requires forall k :: 0 <= k <= |steps[1..]| ==> TakeAll(v, steps[..k + 1]) == TakeAll(w, steps[1..][..k])
    ensures (forall k :: 0 <= k <= |steps| ==> Kept(TakeAll(v, steps[..k])))
       <==> (forall k :: 0 <= k <= |steps[1..]| ==> Kept(TakeAll(w, steps[1..][..k])))
    ensures (forall k :: 0 <= k < |steps| ==> !Forgets(TakeAll(v, steps[..k]), steps[k]))
       <==> (forall k :: 0 <= k < |steps[1..]| ==> !Forgets(TakeAll(w, steps[1..][..k]), steps[1..][k]))
  {
    var rest := steps[1..];
    assert steps[..0] == [] && TakeAll(v, steps[..0]) == v;
    if forall k :: 0 <= k <= |steps| ==> Kept(TakeAll(v, steps[..k])) {
      forall k | 0 <= k <= |rest| ensures Kept(TakeAll(w, rest[..k])) {
        assert Kept(TakeAll(v, steps[..k + 1]));
      }
    }
    if forall k :: 0 <= k <= |rest| ==> Kept(TakeAll(w, rest[..k])) {
      forall k | 0 <= k <= |steps| ensures Kept(TakeAll(v, steps[..k])) {
        if k > 0 {
          assert TakeAll(v, steps[..(k - 1) + 1]) == TakeAll(w, rest[..k - 1]);
        }
      }
    }
    if forall k :: 0 <= k < |steps| ==> !Forgets(TakeAll(v, steps[..k]), steps[k]) {
      forall k | 0 <= k < |rest| ensures !Forgets(TakeAll(w, rest[..k]), rest[k]) {
        assert !Forgets(TakeAll(v, steps[..k + 1]), steps[k + 1]);
      }
    }
    if forall k :: 0 <= k < |rest| ==> !Forgets(TakeAll(w, rest[..k]), rest[k]) {
      forall k | 0 <= k < |steps| ensures !Forgets(TakeAll(v, steps[..k]), steps[k]) {
        if k > 0 {
          assert TakeAll(v, steps[..(k - 1) + 1]) == TakeAll(w, rest[..k - 1]);
          assert rest[k - 1] == steps[k];
        }
      }
    }
  }

  /** Such a cut is possible: put back a member that waits for retirement, and crash before the spec is stored. */
  lemma CutApplyForgets(a: string, b: string)
    requires a != b && a != "" && b != ""
    ensures var both, one := Spec([a, b], 1, 1, false), Spec([a], 1, 1, false);
            var steps := [Submit(both, HealthOk, true, 1), Submit(one, HealthOk, true, 3), Submit(both, HealthOk, true, 2)];
            var v := TakeAll(Empty(), steps);
            v.owed == {b} && v.c.retired == [] && v.c.spec == Some(one)
  {
    var both, one := Spec([a, b], 1, 1, false), Spec([a], 1, 1, false);
    var s1, s2, s3 := Submit(both, HealthOk, true, 1), Submit(one, HealthOk, true, 3), Submit(both, HealthOk, true, 2);
    var v1 := View(Cluster(Some(both), []), Some(SetSpec(both)), {});
    FirstApply(both);
    var v2 := View(Cluster(Some(one), [b]), Some(SetSpec(one)), {b});
    DropSecond(v1, both, one, a, b);
    var v3 := View(Cluster(Some(one), []), Some(ClearRetired(b)), {b});
    PutBackCut(v2, both, one, a, b);
    var steps := [s1, s2, s3];
    assert steps[1..] == [s2, s3] && [s2, s3][1..] == [s3] && [s3][1..] == [];
    assert TakeAll(Empty(), steps) == TakeAll(v1, [s2, s3]);
    assert TakeAll(v1, [s2, s3]) == TakeAll(v2, [s3]);
    assert TakeAll(v2, [s3]) == TakeAll(v3, []);
  }

  lemma FirstApply(s: Spec)
    requires ValidSpec(s)
    ensures Take(Empty(), Submit(s, HealthOk, true, 1)) == View(Cluster(Some(s), []), Some(SetSpec(s)), {})
  {
    var v, ev := Begin(Empty()), SetSpec(s);
    assert Performed(Empty().c, Submit(s, HealthOk, true, 1)) == [ev];
    SeeFirst(v, [ev]);
    assert See(v, ev).owed == {};
    assert [ev][1..] == [];
  }

  lemma DropSecond(v: View, both: Spec, one: Spec, a: string, b: string)
    requires a != b && a != "" && b != "" && both == Spec([a, b], 1, 1, false) && one == Spec([a], 1, 1, false)
    requires v == View(Cluster(Some(both), []), Some(SetSpec(both)), {})
    ensures Take(v, Submit(one, HealthOk, true, 3)) == View(Cluster(Some(one), [b]), Some(SetSpec(one)), {b})
  {
    var add, clear, set_ := AddRetired(b), ClearRetired(a), SetSpec(one);
    assert Dropped([a, b], [a]) == [b] by {
      assert [a, b][1..] == [b] && [b][1..] == [];
      assert Dropped([b], [a]) == [b] + Dropped([], [a]);
    }
    assert Adds([b]) == [add] && Clears([a]) == [clear];
    assert Performed(v.c, Submit(one, HealthOk, true, 3)) == [add, clear, set_];
    var v0 := Begin(v);
    SeeFirst(v0, [add, clear, set_]);
    assert [add, clear, set_][1..] == [clear, set_] && [clear, set_][1..] == [set_] && [set_][1..] == [];
    var w1 := See(v0, add);
    SeeFirst(w1, [clear, set_]);
    assert RemoveId([b], a) == [b] + RemoveId([], a);
    var w2 := See(w1, clear);
    SeeFirst(w2, [set_]);
    assert ({} + Members(w2.c)) - Members(See(w2, set_).c) == {b};
  }

  lemma PutBackCut(v: View, both: Spec, one: Spec, a: string, b: string)
    requires a != b && a != "" && b != "" && both == Spec([a, b], 1, 1, false) && one == Spec([a], 1, 1, false)
    requires v == View(Cluster(Some(one), [b]), Some(SetSpec(one)), {b})
    ensures Take(v, Submit(both, HealthOk, true, 2)) == View(Cluster(Some(one), []), Some(ClearRetired(b)), {b})
  {
    var first, second := ClearRetired(a), ClearRetired(b);
    assert Dropped([a], [a, b]) == [] by {
      assert a in [a, b] && Dropped([], [a, b]) == [];
    }
    assert Adds([]) == [] && Clears([a, b]) == [first, second];
    assert |both.nodes| != |one.nodes|;
    assert Performed(v.c, Submit(both, HealthOk, true, 2)) == [first, second];
    var v0 := Begin(v);
    SeeFirst(v0, [first, second]);
    assert [first, second][1..] == [second] && [second][1..] == [];
    assert RemoveId([b], a) == [b] + RemoveId([], a);
    SeeFirst(See(v0, first), [second]);
    assert RemoveId([b], b) == [] + RemoveId([], b);
  }

  lemma SeeFirst(v: View, evs: seq<Event>)
    requires evs != []
    ensures SeeAll(v, evs) == SeeAll(See(v, evs[0]), evs[1..])
    ensures |evs| == 1 ==> SeeAll(v, evs) == See(v, evs[0])
  {
    if |evs| == 1 {
      assert evs[1..] == [] && SeeAll(See(v, evs[0]), []) == See(v, evs[0]);
    }
  }
}
