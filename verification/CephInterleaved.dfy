/**
 Member removal while everything happens at once: a pass of the reconciler reads
 the spec when it starts and the list of retired members later, and then goes by
 what it has read; an apply reads the spec, later the list, and then writes by
 what it has read. Any number of applies may be under way.
 */
module CephInterleaved {
  import opened Prelude
  import opened CephRemoval
  import opened CephSafety

  /**
   A running pass: the spec it read, what it still has to do once it has read the
   list, what it did last, and how many specs were stored when it last finished
   tearing a host down.
   */
  datatype Pass = Pass(spec: Spec, todo: Option<seq<Event>>, last: Option<Event>, torn: nat)

  /** An apply under way: what it found stored, the list it found pending, and what it is asked to store. */
  datatype Draft = Draft(base: Option<Spec>, pending: Option<seq<string>>, spec: Spec, health: Health, hostsOk: bool)

  /**
   `stored` are the specs stored since the running pass read its spec, `owed` the
   members dropped and not torn down since.
   */
  datatype Machine = Machine(c: Cluster, pass: Option<Pass>, stored: seq<Spec>, owed: set<string>, drafts: seq<Draft>)

  datatype Move =
    | ReadSpec
    | ReadList(env: Env)
    | Advance
    | Abandon
    | Propose(spec: Spec, health: Health, hostsOk: bool)
    | Check(i: nat)
    | Store(i: nat, ran: nat)

  function Empty(): (m: Machine) {
    Machine(Cluster(None, []), None, [], {}, [])
  }

  /** The writes of an apply by what it has read, cut after `ran` of them. */
  function Writes(d: Draft, ran: nat): (evs: seq<Event>) {
    if d.pending.None? then []
    else
      var whole := ApplySpec(Cluster(d.base, d.pending.value), d.spec, d.health, d.hostsOk);
      whole[..Min(ran, |whole|)]
  }

  function StoredBy(evs: seq<Event>): (specs: seq<Spec>) {
    if evs == [] then [] else (if evs[0].SetSpec? then [evs[0].spec] else []) + StoredBy(evs[1..])
  }

  /** Storing a spec adds the members it drops and takes off those it lists. */
  function OwedAfter(c: Cluster, owed: set<string>, evs: seq<Event>): (r: set<string>) {
    if StoredBy(evs) == [] then owed else (owed + Members(c)) - Members(Apply(c, evs))
  }

  /** The next event of the running pass, if it has one. */
  function Next(m: Machine): (ev: Option<Event>) {
    if m.pass.Some? && m.pass.value.todo.Some? && m.pass.value.todo.value != [] then Some(m.pass.value.todo.value[0]) else None
  }

  function Make(m: Machine, move: Move): (m': Machine) {
    match move
    case ReadSpec =>
      if m.pass.None? && m.c.spec.Some? then m.(pass := Some(Pass(m.c.spec.value, None, None, 0)), stored := []) else m
    case ReadList(env) =>
      if m.pass.Some? && m.pass.value.todo.None? then
        m.(pass := Some(m.pass.value.(todo := Some(RetireAll(m.pass.value.spec, m.c.retired, env)))))
      else m
    case Advance =>
      if Next(m).Some? then
        var p, ev := m.pass.value, Next(m).value;
        var gone := ev.Teardown? && ev.done;
        var torn, owed := if gone then |m.stored| else p.torn, if gone then m.owed - {ev.id} else m.owed;
        m.(c := ApplyEvent(m.c, ev), pass := Some(Pass(p.spec, Some(p.todo.value[1..]), Some(ev), torn)), owed := owed)
      else if m.pass.Some? && m.pass.value.todo.Some? then m.(pass := None)
      else m
    case Abandon => m.(pass := None)
    case Propose(spec, health, hostsOk) => m.(drafts := m.drafts + [Draft(m.c.spec, None, spec, health, hostsOk)])
    case Check(i) =>
      if i < |m.drafts| then m.(drafts := m.drafts[i := m.drafts[i].(pending := Some(m.c.retired))]) else m
    case Store(i, ran) => if i < |m.drafts| then Written(m, Writes(m.drafts[i], ran)).(drafts := Without(m.drafts, i)) else m
  }

  function Written(m: Machine, evs: seq<Event>): (m': Machine) {
    m.(c := Apply(m.c, evs), stored := m.stored + StoredBy(evs), owed := OwedAfter(m.c, m.owed, evs))
  }

  function MakeAll(m: Machine, moves: seq<Move>): (m': Machine)
    decreases moves
  {
    if moves == [] then m else MakeAll(Make(m, moves[0]), moves[1..])
  }

  // ---- what a pass may do, by the spec it read -------------------------------

  predicate Fits(spec: Spec, last: Option<Event>, ev: Event) {
    spec.nodes != [] &&
    match ev
    case DrainReport(survivor, id, _) => survivor == spec.nodes[0] && id !in spec.nodes
    case Teardown(id, _) => last == Some(DrainReport(spec.nodes[0], id, true)) && id !in spec.nodes
    case RemoveMon(survivor, id) => last == Some(Teardown(id, true)) && survivor == spec.nodes[0]
    case ClearRetired(id) => id in spec.nodes || TornJustNow(last, id)
    case _ => false
  }

  predicate Orderly(spec: Spec, last: Option<Event>, evs: seq<Event>)
    decreases evs
  {
    evs == [] || (Fits(spec, last, evs[0]) && Orderly(spec, Some(evs[0]), evs[1..]))
  }

  function LastOf(last: Option<Event>, evs: seq<Event>): (r: Option<Event>) {
    if evs == [] then last else Some(evs[|evs| - 1])
  }

  lemma {:induction false} OrderlyConcat(spec: Spec, last: Option<Event>, xs: seq<Event>, ys: seq<Event>)
    requires Orderly(spec, last, xs) && Orderly(spec, LastOf(last, xs), ys)
    ensures Orderly(spec, last, xs + ys)
    decreases xs
  {
    if xs == [] {
      assert xs + ys == ys;
    } else {
      assert LastOf(last, xs) == LastOf(Some(xs[0]), xs[1..]);
      OrderlyConcat(spec, Some(xs[0]), xs[1..], ys);
      assert (xs + ys)[1..] == xs[1..] + ys;
    }
  }

  lemma OrderlyOne(spec: Spec, last: Option<Event>, ev: Event)
    requires Fits(spec, last, ev)
    ensures Orderly(spec, last, [ev])
  {
    assert [ev][1..] == [];
  }

  lemma TearIsOrderly(spec: Spec, id: string, e: Env)
    requires spec.nodes != [] && id !in spec.nodes
    ensures Orderly(spec, Some(DrainReport(spec.nodes[0], id, true)), TearMember(spec, id, e).evs)
  {
    var evs, last := TearMember(spec, id, e).evs, Some(DrainReport(spec.nodes[0], id, true));
    var t, m, d := Teardown(id, e.tear(id).Torn?), RemoveMon(spec.nodes[0], id), ClearRetired(id);
    OrderlyOne(spec, last, t);
    OrderlyOne(spec, Some(m), d);
    if e.tear(id).Torn? {
      OrderlyOne(spec, Some(t), m);
      OrderlyOne(spec, Some(t), d);
      OrderlyConcat(spec, last, [t], [m]);
      OrderlyConcat(spec, last, [t], [d]);
      OrderlyConcat(spec, last, [t] + [m], [d]);
    }
    assert evs == [] || evs == [t] || evs == [t] + [m] || evs == [t] + [d] || evs == [t] + [m] + [d];
  }

  lemma RetireIsOrderly(spec: Spec, last: Option<Event>, id: string, e: Env)
    requires spec.nodes != []
    ensures Orderly(spec, last, RetireMember(spec, id, e).evs)
  {
    if id in spec.nodes {
      OrderlyOne(spec, last, ClearRetired(id));
    } else {
      var drain := DrainMember(spec, id, e);
      if drain.evs != [] {
        OrderlyOne(spec, last, drain.evs[0]);
        assert drain.evs == [drain.evs[0]];
        if drain.ok {
          TearIsOrderly(spec, id, e);
          OrderlyConcat(spec, last, drain.evs, TearMember(spec, id, e).evs);
        }
      }
    }
  }

  lemma {:induction false} RetireAllIsOrderly(spec: Spec, last: Option<Event>, ids: seq<string>, e: Env)
    requires spec.nodes != []
    ensures Orderly(spec, last, RetireAll(spec, ids, e))
    decreases ids
  {
    if ids != [] {
      var w := RetireMember(spec, ids[0], e);
      RetireIsOrderly(spec, last, ids[0], e);
      if w.ok {
        RetireAllIsOrderly(spec, LastOf(last, w.evs), ids[1..], e);
        OrderlyConcat(spec, last, w.evs, RetireAll(spec, ids[1..], e));
      }
    }
  }

  // ---- the writes of an apply ----------------------------------------------------

  predicate EditsOnly(evs: seq<Event>) {
    forall i :: 0 <= i < |evs| ==> evs[i].AddRetired? || evs[i].ClearRetired?
  }

  lemma {:induction false} EditsKeepSpec(c: Cluster, evs: seq<Event>)
    requires EditsOnly(evs)
    ensures StoredBy(evs) == [] && Apply(c, evs).spec == c.spec
    decreases evs
  {
    if evs != [] {
      EditsKeepSpec(ApplyEvent(c, evs[0]), evs[1..]);
    }
  }

  lemma {:induction false} StoredByLast(edits: seq<Event>, spec: Spec)
    requires EditsOnly(edits)
    ensures StoredBy(edits + [SetSpec(spec)]) == [spec]
  {
    var all := edits + [SetSpec(spec)];
    if edits == [] {
      assert all == [SetSpec(spec)] && all[1..] == [];
    } else {
      assert all[0] == edits[0] && all[1..] == edits[1..] + [SetSpec(spec)];
      StoredByLast(edits[1..], spec);
    }
  }

  /** Edits of the list, and a valid spec last unless the apply was cut. */
  ghost predicate Shaped(evs: seq<Event>, spec: Spec) {
    EditsOnly(evs) || (ValidSpec(spec) && evs != [] && EditsOnly(evs[..|evs| - 1]) && evs[|evs| - 1] == SetSpec(spec))
  }

  lemma WritesAreShaped(d: Draft, ran: nat)
    ensures Shaped(Writes(d, ran), d.spec)
  {
    var evs := Writes(d, ran);
    if d.pending.Some? {
      var whole := ApplySpec(Cluster(d.base, d.pending.value), d.spec, d.health, d.hostsOk);
      if whole != [] {
        var n := |whole| - 1;
        assert EditsOnly(whole[..n]) && whole[n] == SetSpec(d.spec);
        if |evs| < |whole| {
          assert forall i :: 0 <= i < |evs| ==> evs[i] == whole[..n][i];
        } else {
          assert evs == whole;
        }
      }
    }
  }

  /** What such writes store. */
  lemma StoresAre(c: Cluster, evs: seq<Event>, spec: Spec)
    requires Shaped(evs, spec)
    ensures EditsOnly(evs) ==> StoredBy(evs) == [] && Apply(c, evs).spec == c.spec
    ensures !EditsOnly(evs) ==> StoredBy(evs) == [spec] && Apply(c, evs).spec == Some(spec) && ValidSpec(spec)
    ensures !EditsOnly(evs) ==> Apply(c, evs).retired == Apply(c, evs[..|evs| - 1]).retired
  {
    if EditsOnly(evs) {
      EditsKeepSpec(c, evs);
    } else {
      var edits := evs[..|evs| - 1];
      assert evs == edits + [SetSpec(spec)];
      StoredByLast(edits, spec);
      ApplyConcat(c, edits, [SetSpec(spec)]);
      ApplyOne(Apply(c, edits), SetSpec(spec));
    }
  }

  // ---- what every run keeps ----------------------------------------------------

  /** The spec in the store: the last one stored since the pass read, or still the one it read. */
  predicate Tracked(m: Machine) {
    m.pass.Some? ==>
      && ValidSpec(m.pass.value.spec)
      && m.c.spec == Some(if m.stored == [] then m.pass.value.spec else m.stored[|m.stored| - 1])
      && (m.pass.value.todo.Some? ==> Orderly(m.pass.value.spec, m.pass.value.last, m.pass.value.todo.value))
  }

  predicate Inv(m: Machine) {
    (m.c.spec.Some? ==> ValidSpec(m.c.spec.value)) && Tracked(m)
  }

  lemma WrittenKeepsInv(m: Machine, evs: seq<Event>, spec: Spec)
    requires Inv(m) && Shaped(evs, spec)
    ensures Inv(Written(m, evs))
  {
    StoresAre(m.c, evs, spec);
    if EditsOnly(evs) {
      assert m.stored + [] == m.stored;
    }
  }

  lemma MakeKeepsInv(m: Machine, move: Move)
    requires Inv(m)
    ensures Inv(Make(m, move))
  {
    match move
    case ReadSpec =>
    case ReadList(env) =>
      if m.pass.Some? && m.pass.value.todo.None? {
        RetireAllIsOrderly(m.pass.value.spec, m.pass.value.last, m.c.retired, env);
      }
    case Advance =>
      if Next(m).Some? {
        assert Fits(m.pass.value.spec, m.pass.value.last, Next(m).value);
      }
    case Abandon =>
    case Propose(_, _, _) =>
    case Check(_) =>
    case Store(i, ran) =>
      if i < |m.drafts| {
        WritesAreShaped(m.drafts[i], ran);
        WrittenKeepsInv(m, Writes(m.drafts[i], ran), m.drafts[i].spec);
      }
  }

  lemma {:induction false} RunKeepsInv(m: Machine, moves: seq<Move>)
    requires Inv(m)
    ensures Inv(MakeAll(m, moves))
    decreases moves
  {
    if moves != [] {
      MakeKeepsInv(m, moves[0]);
      RunKeepsInv(Make(m, moves[0]), moves[1..]);
    }
  }

  /**
   Whatever is applied in between, a pass tears a host down only right after a
   member of the spec it read reported the drain clean, and never a member of
   that spec. The host is a member of the stored spec exactly when a spec was
   stored since the pass read and the last such spec lists it.
   */
  lemma TeardownHitsMemberIff(moves: seq<Move>, id: string, done: bool)
    requires Next(MakeAll(Empty(), moves)) == Some(Teardown(id, done))
    ensures var m := MakeAll(Empty(), moves);
            var read := m.pass.value.spec;
            && read.nodes != [] && m.pass.value.last == Some(DrainReport(read.nodes[0], id, true)) && id !in read.nodes
            && (id in Members(m.c) <==> m.stored != [] && id in m.stored[|m.stored| - 1].nodes)
  {
    var m := MakeAll(Empty(), moves);
    RunKeepsInv(Empty(), moves);
    assert Fits(m.pass.value.spec, m.pass.value.last, Teardown(id, done));
  }
}
