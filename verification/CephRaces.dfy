/** Runs from an empty store in which reads and writes meet at the wrong moment. */
module CephRaces {
  import opened Prelude
  import opened CephRemoval
  import opened CephSafety
  import opened CephInterleaved
  import opened CephApplies
  import opened CephLosses

  // ---- applies that nobody interrupts -------------------------------------------------

  /** An apply by itself, of which `ran` writes happen. */
  function Apart(spec: Spec, ran: nat): (moves: seq<Move>) {
    [Propose(spec, HealthOk, true), Check(0), Store(0, ran)]
  }

  /** An apply by itself to its end. */
  function Applied(spec: Spec): (moves: seq<Move>) {
    Apart(spec, |spec.nodes| + 2)
  }

  function DraftOf(c: Cluster, spec: Spec): (d: Draft) {
    Draft(c.spec, Some(c.retired), spec, HealthOk, true)
  }

  lemma {:induction false} MakeAllConcat(m: Machine, xs: seq<Move>, ys: seq<Move>)
    ensures MakeAll(m, xs + ys) == MakeAll(MakeAll(m, xs), ys)
    decreases xs
  {
    if xs == [] {
      assert xs + ys == ys;
    } else {
      MakeAllConcat(Make(m, xs[0]), xs[1..], ys);
      assert (xs + ys)[1..] == xs[1..] + ys;
    }
  }

  lemma Made(m: Machine, a: Move)
    ensures MakeAll(m, [a]) == Make(m, a)
  {
    assert [a][1..] == [] && MakeAll(Make(m, a), []) == Make(m, a);
  }

  lemma MadeTwo(m: Machine, a: Move, b: Move)
    ensures MakeAll(m, [a, b]) == Make(Make(m, a), b)
  {
    assert [a, b] == [a] + [b];
    MakeAllConcat(m, [a], [b]);
    Made(m, a);
    Made(Make(m, a), b);
  }

  lemma MadeThree(m: Machine, a: Move, b: Move, c: Move)
    ensures MakeAll(m, [a, b, c]) == Make(Make(Make(m, a), b), c)
  {
    assert [a, b, c] == [a, b] + [c];
    MakeAllConcat(m, [a, b], [c]);
    MadeTwo(m, a, b);
    Made(Make(Make(m, a), b), c);
  }

  lemma FourParts(m: Machine, xs: seq<Move>, ys: seq<Move>, zs: seq<Move>, ws: seq<Move>)
    ensures MakeAll(m, xs + ys + zs + ws) == MakeAll(MakeAll(MakeAll(MakeAll(m, xs), ys), zs), ws)
  {
    MakeAllConcat(m, xs, ys);
    MakeAllConcat(m, xs + ys, zs);
    MakeAllConcat(m, xs + ys + zs, ws);
  }

  lemma ApartIs(m: Machine, spec: Spec, ran: nat)
    requires m.drafts == []
    ensures MakeAll(m, Apart(spec, ran)) == Written(m, Writes(DraftOf(m.c, spec), ran))
  {
    MadeThree(m, Propose(spec, HealthOk, true), Check(0), Store(0, ran));
    var m2 := Make(Make(m, Propose(spec, HealthOk, true)), Check(0));
    assert m2.drafts == [DraftOf(m.c, spec)] && Without(m2.drafts, 0) == [];
  }

  /** The two specs of a removal: `all` lists one member more than `rest`. */
  predicate Removal(all: Spec, rest: Spec, id: string) {
    && ValidSpec(all) && ValidSpec(rest) && all.encrypt == rest.encrypt && |rest.nodes| >= rest.size
    && Dropped(all.nodes, rest.nodes) == [id] && Dropped(rest.nodes, all.nodes) == []
  }

  lemma RemovalIs(all: Spec, rest: Spec, id: string)
    requires Removal(all, rest, id)
    ensures id in all.nodes && id !in rest.nodes && all != rest
    ensures forall x :: x in all.nodes <==> x in rest.nodes || x == id
  {
    DroppedMembers(all.nodes, rest.nodes);
    DroppedMembers(rest.nodes, all.nodes);
    assert id in [id];
    forall x ensures x in all.nodes <==> x in rest.nodes || x == id {
      assert x in [id] <==> x == id;
      assert x !in Dropped(rest.nodes, all.nodes);
    }
  }

  lemma FirstStored(m: Machine, spec: Spec)
    requires m == Empty() && ValidSpec(spec)
    ensures MakeAll(m, Applied(spec)) == Machine(Cluster(Some(spec), []), None, [spec], {}, [])
  {
    ApartIs(m, spec, |spec.nodes| + 2);
    var d := DraftOf(m.c, spec);
    assert Writes(d, |spec.nodes| + 2) == [SetSpec(spec)];
    ApplyOne(m.c, SetSpec(spec));
    assert [SetSpec(spec)][1..] == [] && StoredBy([SetSpec(spec)]) == [spec];
    assert Members(m.c) == {} && ({} + Members(m.c)) - Members(Cluster(Some(spec), [])) == {};
  }

  lemma FullWrites(c: Cluster, spec: Spec, d: Draft)
    requires c.spec.Some? && d == DraftOf(c, spec) && ValidSpec(spec) && spec != c.spec.value && spec.encrypt == c.spec.value.encrypt
    requires Acceptable(c.spec.value, spec, HealthOk, c.retired)
    ensures var evs := Writes(d, |spec.nodes| + 2);
            StoredBy(evs) == [spec] && Apply(c, evs).spec == Some(spec) && !EditsOnly(evs)
  {
    var evs := Writes(d, |spec.nodes| + 2);
    var dropped := Dropped(c.spec.value.nodes, spec.nodes);
    var whole := Adds(dropped) + Clears(spec.nodes) + [SetSpec(spec)];
    assert ApplySpec(c, spec, HealthOk, true) == whole && |whole| <= |spec.nodes| + 2;
    assert evs == whole[..|whole|] == whole;
    assert evs[|evs| - 1] == SetSpec(spec);
    WritesAreShaped(d, |spec.nodes| + 2);
    StoresAre(c, evs, spec);
  }

  /** The member is dropped and listed. */
  lemma RestStored(m: Machine, all: Spec, rest: Spec, id: string)
    requires Removal(all, rest, id) && m.c == Cluster(Some(all), []) && m.drafts == []
    ensures MakeAll(m, Applied(rest))
         == m.(c := Cluster(Some(rest), [id]), stored := m.stored + [rest], owed := (m.owed + Members(m.c)) - Members(Cluster(Some(rest), [])))
  {
    var d, ran := DraftOf(m.c, rest), |rest.nodes| + 2;
    RemovalIs(all, rest, id);
    ApartIs(m, rest, ran);
    FullWrites(m.c, rest, d);
    StoredIsListed(m.c, d, ran, id);
    var evs := Writes(d, ran);
    assert !Crowds(m.c, evs);
    WritesStayOneIff(m.c, d, ran);
    assert Apply(m.c, evs).retired == [id];
  }

  /** From the empty store: `all` is stored, then one member is dropped and waits for retirement. */
  lemma Waiting(all: Spec, rest: Spec, id: string) returns (m: Machine)
    requires Removal(all, rest, id)
    ensures m == MakeAll(Empty(), Applied(all) + Applied(rest))
    ensures m.c == Cluster(Some(rest), [id]) && m.pass.None? && m.drafts == [] && id in m.owed
  {
    RemovalIs(all, rest, id);
    FirstStored(Empty(), all);
    var m1 := MakeAll(Empty(), Applied(all));
    RestStored(m1, all, rest, id);
    MakeAllConcat(Empty(), Applied(all), Applied(rest));
    m := MakeAll(m1, Applied(rest));
  }

  lemma PassWork(rest: Spec, id: string, e: Env)
    requires ValidSpec(rest) && id !in rest.nodes && e.drain(id) == DrainClean && !e.tear(id).TearUnreachable?
    ensures var evs := RetireAll(rest, [id], e);
            && |evs| >= 2 && evs[0] == DrainReport(rest.nodes[0], id, true) && evs[1] == Teardown(id, e.tear(id).Torn?)
  {
    assert [id][1..] == [] && RetireAll(rest, [], e) == [];
  }

  /** The pass has its drain reported clean and is about to tear the member down. */
  lemma AboutToTear(m: Machine, rest: Spec, id: string, e: Env) returns (m': Machine)
    requires m.c == Cluster(Some(rest), [id]) && m.pass.None? && ValidSpec(rest) && id !in rest.nodes
    requires e.drain(id) == DrainClean && !e.tear(id).TearUnreachable?
    ensures m' == MakeAll(m, [ReadSpec, ReadList(e), Advance])
    ensures m'.c == m.c && m'.drafts == m.drafts && m'.owed == m.owed && Next(m') == Some(Teardown(id, e.tear(id).Torn?))
  {
    PassWork(rest, id, e);
    MadeThree(m, ReadSpec, ReadList(e), Advance);
    m' := MakeAll(m, [ReadSpec, ReadList(e), Advance]);
  }

  // ---- the runs -----------------------------------------------------------------------

  /** A member put back while its drain is awaited is torn down as a member. */
  lemma PutBackDuringPassIsTornDown(all: Spec, rest: Spec, id: string, e: Env)
    requires Removal(all, rest, id) && e.drain(id) == DrainClean && !e.tear(id).TearUnreachable?
    ensures var m := MakeAll(Empty(), Applied(all) + Applied(rest) + [ReadSpec, ReadList(e), Advance] + Applied(all));
            Next(m) == Some(Teardown(id, e.tear(id).Torn?)) && id in Members(m.c)
  {
    RemovalIs(all, rest, id);
    var m := Waiting(all, rest, id);
    MakeAllConcat(Empty(), Applied(all), Applied(rest));
    FourParts(Empty(), Applied(all), Applied(rest), [ReadSpec, ReadList(e), Advance], Applied(all));
    var m' := AboutToTear(m, rest, id, e);
    PutBack(m', all, rest, id);
  }

  lemma PutBack(m: Machine, all: Spec, rest: Spec, id: string)
    requires Removal(all, rest, id) && m.c == Cluster(Some(rest), [id]) && m.drafts == []
    ensures var m' := MakeAll(m, Applied(all)); m'.pass == m.pass && m'.c.spec == Some(all)
  {
    RemovalIs(all, rest, id);
    ApartIs(m, all, |all.nodes| + 2);
    FullWrites(m.c, all, DraftOf(m.c, all));
  }

  /** A member dropped after the pass read the spec and before it reads the list is taken off the list again. */
  lemma DropDuringPassIsLost(all: Spec, rest: Spec, id: string, e: Env)
    requires Removal(all, rest, id)
    ensures var m := MakeAll(Empty(), Applied(all) + [ReadSpec] + Applied(rest) + [ReadList(e), Advance]);
            m.c == Cluster(Some(rest), []) && id in m.owed
  {
    RemovalIs(all, rest, id);
    FirstStored(Empty(), all);
    var m1 := MakeAll(Empty(), Applied(all));
    MakeAllConcat(Empty(), Applied(all), [ReadSpec]);
    Made(m1, ReadSpec);
    var m2 := Make(m1, ReadSpec);
    MakeAllConcat(Empty(), Applied(all) + [ReadSpec], Applied(rest));
    RestStored(m2, all, rest, id);
    var m3 := MakeAll(m2, Applied(rest));
    MakeAllConcat(Empty(), Applied(all) + [ReadSpec] + Applied(rest), [ReadList(e), Advance]);
    MadeTwo(m3, ReadList(e), Advance);
    StaleClear(all, id, e);
  }

  lemma StaleClear(spec: Spec, id: string, e: Env)
    requires id in spec.nodes
    ensures RetireAll(spec, [id], e) == [ClearRetired(id)] && RemoveId([id], id) == []
  {
    assert [id][1..] == [] && RetireAll(spec, [], e) == [];
    assert RemoveId([id], id) == [] + RemoveId([], id);
  }

  /** A member whose teardown failed is forgotten when it is put back and the apply is cut before the spec is stored. */
  lemma FailedTeardownIsForgotten(all: Spec, rest: Spec, id: string, e: Env)
    requires Removal(all, rest, id) && e.drain(id) == DrainClean && e.tear(id).TearFailed?
    ensures var pass := [ReadSpec, ReadList(e), Advance] + [Advance, Abandon];
            var m := MakeAll(Empty(), Applied(all) + Applied(rest) + pass + Apart(all, |all.nodes|));
            m.c == Cluster(Some(rest), []) && id in m.owed
  {
    RemovalIs(all, rest, id);
    var moves, pass := Applied(all) + Applied(rest), [ReadSpec, ReadList(e), Advance] + [Advance, Abandon];
    var m := Waiting(all, rest, id);
    MakeAllConcat(Empty(), moves, pass);
    MakeAllConcat(m, [ReadSpec, ReadList(e), Advance], [Advance, Abandon]);
    var m1 := AboutToTear(m, rest, id, e);
    MadeTwo(m1, Advance, Abandon);
    var m2 := Make(Make(m1, Advance), Abandon);
    assert m2.c == m.c && m2.owed == m.owed && m2.drafts == [];
    MakeAllConcat(Empty(), moves + pass, Apart(all, |all.nodes|));
    ApartIs(m2, all, |all.nodes|);
    CutPutBack(m2.c, all, rest, id);
  }

  lemma CutPutBack(c: Cluster, all: Spec, rest: Spec, id: string)
    requires Removal(all, rest, id) && c == Cluster(Some(rest), [id])
    ensures var evs := Writes(DraftOf(c, all), |all.nodes|); StoredBy(evs) == [] && Apply(c, evs) == Cluster(Some(rest), [])
  {
    RemovalIs(all, rest, id);
    var d, n := DraftOf(c, all), |all.nodes|;
    var evs := Writes(d, n);
    assert ApplySpec(c, all, HealthOk, true) == Adds([]) + Clears(all.nodes) + [SetSpec(all)];
    assert evs == Clears(all.nodes);
    EditsKeepSpec(c, evs);
    forall x ensures x !in Apply(c, evs).retired {
      PutBackClears(c, all, id, x);
    }
    Nobody(Apply(c, evs).retired);
  }

  lemma PutBackClears(c: Cluster, all: Spec, id: string, x: string)
    requires c.retired == [id] && id in all.nodes
    ensures x !in Apply(c, Clears(all.nodes)).retired
  {
    var evs := Clears(all.nodes);
    var i :| 0 <= i < |all.nodes| && all.nodes[i] == id;
    assert evs[i] == ClearRetired(id);
    ListAfter(c, evs, x);
  }

  lemma Nobody(ids: seq<string>)
    ensures ids == [] || exists x :: x in ids
  {
    if ids != [] {
      assert ids[0] in ids;
    }
  }

  /** Two applies that read the same list can both add to it. */
  lemma TwoMembersListed(all: Spec, one: Spec, two: Spec, a: string, b: string)
    requires Removal(all, one, a) && Removal(all, two, b) && a != b
    ensures var m := MakeAll(Empty(), Applied(all) + [Propose(two, HealthOk, true), Check(0)] + Late(one) + [Store(0, 1)]);
            a in m.c.retired && b in m.c.retired
  {
    var early := [Propose(two, HealthOk, true), Check(0)];
    FourParts(Empty(), Applied(all), early, Late(one), [Store(0, 1)]);
    FirstStored(Empty(), all);
    var m1 := MakeAll(Empty(), Applied(all));
    UnderWay(m1, two);
    var m3 := LateLists(MakeAll(m1, early), all, one, a);
    Made(m3, Store(0, 1));
    FirstWriteAdds(m3.c, m1.c, all, two, b);
    InsertMembers(m3.c.retired, b);
  }

  lemma UnderWay(m: Machine, spec: Spec)
    requires m.drafts == []
    ensures MakeAll(m, [Propose(spec, HealthOk, true), Check(0)]) == m.(drafts := [DraftOf(m.c, spec)])
  {
    MadeTwo(m, Propose(spec, HealthOk, true), Check(0));
  }

  lemma LateLists(m: Machine, all: Spec, rest: Spec, id: string) returns (m': Machine)
    requires Removal(all, rest, id) && m.c == Cluster(Some(all), []) && |m.drafts| == 1
    ensures m' == MakeAll(m, Late(rest)) && m'.drafts == m.drafts && id in m'.c.retired
  {
    RemovalIs(all, rest, id);
    LateIs(m, rest);
    FullWrites(m.c, rest, DraftOf(m.c, rest));
    StoredIsListed(m.c, DraftOf(m.c, rest), |rest.nodes| + 2, id);
    m' := MakeAll(m, Late(rest));
  }

  /** An apply from its proposal to its end while another one is under way. */
  function Late(spec: Spec): (moves: seq<Move>) {
    [Propose(spec, HealthOk, true), Check(1), Store(1, |spec.nodes| + 2)]
  }

  lemma LateIs(m: Machine, spec: Spec)
    requires |m.drafts| == 1
    ensures MakeAll(m, Late(spec)) == Written(m, Writes(DraftOf(m.c, spec), |spec.nodes| + 2))
  {
    MadeThree(m, Propose(spec, HealthOk, true), Check(1), Store(1, |spec.nodes| + 2));
    var m2 := Make(Make(m, Propose(spec, HealthOk, true)), Check(1));
    assert m2.drafts == [m.drafts[0], DraftOf(m.c, spec)] && Without(m2.drafts, 1) == [m.drafts[0]] == m.drafts;
  }

  lemma FirstWriteAdds(c: Cluster, read: Cluster, all: Spec, two: Spec, b: string)
    requires Removal(all, two, b) && read == Cluster(Some(all), [])
    ensures Apply(c, Writes(DraftOf(read, two), 1)).retired == InsertId(c.retired, b)
  {
    RemovalIs(all, two, b);
    var whole := ApplySpec(read, two, HealthOk, true);
    assert whole == Adds([b]) + Clears(two.nodes) + [SetSpec(two)];
    assert whole[..1] == [AddRetired(b)];
    ApplyOne(c, AddRetired(b));
  }

  /** A member added while another apply is under way is dropped by it unlisted. */
  lemma StoredOverUnseen(base: Spec, other: Spec, more: Spec, id: string)
    requires ValidSpec(base) && Removal(more, base, id)
    requires ValidSpec(other) && other.encrypt == base.encrypt && other != base && Dropped(base.nodes, other.nodes) == [] && id !in other.nodes
    ensures var m := MakeAll(Empty(), Applied(base) + [Propose(other, HealthOk, true)] + Late(more) + [Check(0), Store(0, |other.nodes| + 2)]);
            m.c == Cluster(Some(other), []) && id in m.owed
  {
    var late := [Check(0), Store(0, |other.nodes| + 2)];
    FourParts(Empty(), Applied(base), [Propose(other, HealthOk, true)], Late(more), late);
    FirstStored(Empty(), base);
    var m1 := MakeAll(Empty(), Applied(base));
    Made(m1, Propose(other, HealthOk, true));
    var m2 := Make(m1, Propose(other, HealthOk, true));
    assert m2.c == m1.c && m2.drafts == [Draft(Some(base), None, other, HealthOk, true)];
    RemovalIs(more, base, id);
    LateIs(m2, more);
    GrowStores(m2.c, base, more);
    var m3 := MakeAll(m2, Late(more));
    assert m3.c == Cluster(Some(more), []) && m3.drafts == m2.drafts;
    LateStore(m3, base, other);
    assert id in Members(m3.c);
  }

  lemma LateStore(m: Machine, base: Spec, other: Spec)
    requires m.c.retired == [] && m.drafts == [Draft(Some(base), None, other, HealthOk, true)]
    requires ValidSpec(other) && other != base && other.encrypt == base.encrypt && Dropped(base.nodes, other.nodes) == []
    ensures var m' := MakeAll(m, [Check(0), Store(0, |other.nodes| + 2)]);
            m'.c == Cluster(Some(other), []) && m'.owed == (m.owed + Members(m.c)) - Members(Cluster(Some(other), []))
  {
    MadeTwo(m, Check(0), Store(0, |other.nodes| + 2));
    var m1 := Make(m, Check(0));
    assert m1.drafts == [DraftOf(Cluster(Some(base), []), other)] && m1.c == m.c;
    GrowStoresOn(m.c, Cluster(Some(base), []), base, other);
  }

  lemma GrowStores(c: Cluster, base: Spec, more: Spec)
    requires c == Cluster(Some(base), []) && ValidSpec(more) && more != base && more.encrypt == base.encrypt
    requires Dropped(base.nodes, more.nodes) == []
    ensures var evs := Writes(DraftOf(c, more), |more.nodes| + 2); StoredBy(evs) == [more] && Apply(c, evs) == Cluster(Some(more), [])
  {
    GrowStoresOn(c, c, base, more);
  }

  /** An apply that drops nobody from what it read stores its spec and lists nobody, whatever the store holds by then. */
  lemma GrowStoresOn(c: Cluster, read: Cluster, base: Spec, more: Spec)
    requires read == Cluster(Some(base), []) && c.retired == [] && ValidSpec(more) && more != base && more.encrypt == base.encrypt
    requires Dropped(base.nodes, more.nodes) == []
    ensures var evs := Writes(DraftOf(read, more), |more.nodes| + 2); StoredBy(evs) == [more] && Apply(c, evs) == Cluster(Some(more), [])
  {
    var d, n := DraftOf(read, more), |more.nodes| + 2;
    FullWrites(read, more, d);
    WritesAreShaped(d, n);
    StoresAre(c, Writes(d, n), more);
    DroppedMembers(base.nodes, more.nodes);
    var left := Apply(c, Writes(d, n)).retired;
    forall x ensures x !in left {
      Unlisted(c, d, n, x);
      WritesAre(d, n, x);
      assert x in BaseNodes(d) && x !in more.nodes <==> x in Dropped(base.nodes, more.nodes);
    }
    Nobody(left);
  }
}
