/** Exactly when a dropped member is forgotten, with applies between the reads and events of a pass. */
module CephLosses {
  import opened Prelude
  import opened CephRemoval
  import opened CephSafety
  import opened CephInterleaved
  import opened CephApplies

  /** The spec in the store when the pass last tore a host down, or one stored since, lists `id`. */
  predicate Relisted(m: Machine, torn: nat, id: string) {
    exists k :: Max(torn - 1, 0) <= k < |m.stored| && id in m.stored[k].nodes
  }

  /** Members of the spec the pass read are owed once they are dropped; so is a host it tore down once it was listed again and dropped. */
  ghost predicate PassOwes(m: Machine, p: Pass) {
    && (forall id :: id in p.spec.nodes && id !in Members(m.c) ==> id in m.owed)
    && (forall id :: TornJustNow(p.last, id) ==>
          && id !in p.spec.nodes && p.torn <= |m.stored|
          && (id in m.owed <==> id !in Members(m.c) && Relisted(m, p.torn, id)))
  }

  ghost predicate Owing(m: Machine) {
    Inv(m) && m.owed !! Members(m.c) && (m.pass.Some? ==> PassOwes(m, m.pass.value))
  }

  // ---- every run keeps the account --------------------------------------------------

  /** The members of the stored spec are those of the last one stored since the pass read, or of the one it read. */
  lemma MembersAre(m: Machine, id: string)
    requires Inv(m) && m.pass.Some?
    ensures id in Members(m.c) <==> id in (if m.stored == [] then m.pass.value.spec else m.stored[|m.stored| - 1]).nodes
  {
  }

  lemma RelistedLater(m: Machine, m': Machine, torn: nat, id: string, spec: Spec)
    requires m'.stored == m.stored + [spec] && torn <= |m.stored|
    ensures Relisted(m', torn, id) <==> Relisted(m, torn, id) || id in spec.nodes
  {
    if k :| Max(torn - 1, 0) <= k < |m.stored| && id in m.stored[k].nodes {
      assert m'.stored[k] == m.stored[k];
    }
    if id in spec.nodes {
      assert m'.stored[|m.stored|] == spec;
    }
    if k :| Max(torn - 1, 0) <= k < |m'.stored| && id in m'.stored[k].nodes {
      assert k < |m.stored| ==> m.stored[k] == m'.stored[k];
    }
  }

  lemma StoreKeepsOwing(m: Machine, m': Machine, p: Pass, spec: Spec)
    requires Inv(m) && m.pass == Some(p) && PassOwes(m, p)
    requires m'.stored == m.stored + [spec] && Members(m'.c) == (set id | id in spec.nodes)
    requires m'.owed == (m.owed + Members(m.c)) - Members(m'.c)
    ensures PassOwes(m', p)
  {
    forall id | TornJustNow(p.last, id)
      ensures id in m'.owed <==> id !in Members(m'.c) && Relisted(m', p.torn, id)
    {
      MembersAre(m, id);
      RelistedLater(m, m', p.torn, id, spec);
      if id in Members(m.c) {
        assert id in m.stored[|m.stored| - 1].nodes;
      }
    }
  }

  lemma WrittenKeepsOwing(m: Machine, evs: seq<Event>, spec: Spec)
    requires Owing(m) && Shaped(evs, spec)
    ensures Owing(Written(m, evs))
  {
    WrittenKeepsInv(m, evs, spec);
    StoresAre(m.c, evs, spec);
    var m' := Written(m, evs);
    if EditsOnly(evs) {
      assert m'.stored == m.stored && m'.owed == m.owed && Members(m'.c) == Members(m.c);
      if m.pass.Some? {
        SameAccount(m, m', m.pass.value);
      }
    } else if m.pass.Some? {
      StoreKeepsOwing(m, m', m.pass.value, spec);
    }
  }

  lemma SameAccount(m: Machine, m': Machine, p: Pass)
    requires PassOwes(m, p) && m'.stored == m.stored && m'.owed == m.owed && Members(m'.c) == Members(m.c)
    ensures PassOwes(m', p)
  {
    forall id ensures Relisted(m', p.torn, id) <==> Relisted(m, p.torn, id) {
    }
  }

  lemma TearKeepsOwing(m: Machine, m': Machine, p: Pass, p': Pass, id: string)
    requires Inv(m) && m.pass == Some(p) && PassOwes(m, p) && id !in p.spec.nodes
    requires m'.stored == m.stored && m'.c == m.c && m'.owed == m.owed - {id}
    requires p'.spec == p.spec && p'.last == Some(Teardown(id, true)) && p'.torn == |m.stored|
    ensures PassOwes(m', p')
  {
    MembersAre(m, id);
    if Relisted(m', p'.torn, id) {
      var k :| Max(p'.torn - 1, 0) <= k < |m.stored| && id in m.stored[k].nodes;
      assert k == |m.stored| - 1;
    }
  }

  lemma AdvanceKeepsOwing(m: Machine)
    requires Owing(m)
    ensures Owing(Make(m, Advance))
  {
    MakeKeepsInv(m, Advance);
    var m' := Make(m, Advance);
    if Next(m).Some? {
      var p, p', ev := m.pass.value, m'.pass.value, Next(m).value;
      assert Fits(p.spec, p.last, ev);
      if ev.Teardown? && ev.done {
        TearKeepsOwing(m, m', p, p', ev.id);
      } else {
        assert forall id :: TornJustNow(p'.last, id) ==> TornJustNow(p.last, id);
        SameAccount(m, m', p);
      }
    }
  }

  lemma MakeKeepsOwing(m: Machine, move: Move)
    requires Owing(m)
    ensures Owing(Make(m, move))
  {
    MakeKeepsInv(m, move);
    match move
    case ReadSpec =>
    case ReadList(_) =>
      if m.pass.Some? {
        SameAccount(m, Make(m, move), m.pass.value);
      }
    case Advance => AdvanceKeepsOwing(m);
    case Abandon =>
    case Propose(_, _, _) =>
      if m.pass.Some? {
        SameAccount(m, Make(m, move), m.pass.value);
      }
    case Check(_) =>
      if m.pass.Some? {
        SameAccount(m, Make(m, move), m.pass.value);
      }
    case Store(i, ran) =>
      if i < |m.drafts| {
        WritesAreShaped(m.drafts[i], ran);
        var w := Written(m, Writes(m.drafts[i], ran));
        WrittenKeepsOwing(m, Writes(m.drafts[i], ran), m.drafts[i].spec);
        if m.pass.Some? {
          SameAccount(w, Make(m, move), m.pass.value);
        }
      }
  }

  lemma {:induction false} RunKeepsOwing(m: Machine, moves: seq<Move>)
    requires Owing(m)
    ensures Owing(MakeAll(m, moves))
    decreases moves
  {
    if moves != [] {
      MakeKeepsOwing(m, moves[0]);
      RunKeepsOwing(Make(m, moves[0]), moves[1..]);
    }
  }

  // ---- theorems -----------------------------------------------------------------------

  /**
   A pass takes a member off the list because the spec it read has it, or because
   it has just torn it down. The removal of a dropped member is lost by it,
   exactly when the last spec stored since the pass read does not list the member
   although the spec the pass read did, or although the spec stored at the
   teardown or one stored since did.
   */
  lemma ClearLosesRemovalIff(moves: seq<Move>, id: string)
    requires Next(MakeAll(Empty(), moves)) == Some(ClearRetired(id))
    ensures var m := MakeAll(Empty(), moves);
            var p := m.pass.value;
            && (id in p.spec.nodes || TornJustNow(p.last, id))
            && (id in m.owed <==>
                  && m.stored != [] && id !in m.stored[|m.stored| - 1].nodes
                  && (id in p.spec.nodes || Relisted(m, p.torn, id)))
  {
    var m := MakeAll(Empty(), moves);
    RunKeepsOwing(Empty(), moves);
    assert Fits(m.pass.value.spec, m.pass.value.last, ClearRetired(id));
    MembersAre(m, id);
  }

  /** Every dropped member that is not torn down yet is listed for retirement. */
  predicate AllListed(m: Machine) {
    forall id :: id in m.owed ==> id in m.c.retired
  }

  /** A move that takes an owed member off the list and does not put it back into the stored spec. */
  predicate Loses(m: Machine, move: Move) {
    match move
    case Advance => Next(m).Some? && Next(m).value.ClearRetired? && Next(m).value.id in m.owed
    case Store(i, ran) => i < |m.drafts| && Forgets(m, m.drafts[i], ran)
    case _ => false
  }

  predicate Forgets(m: Machine, d: Draft, ran: nat) {
    if StoredBy(Writes(d, ran)) == [] then exists id :: id in m.owed && Forgotten(m, d, ran, id)
    else exists id :: id in Members(m.c) && Forgotten(m, d, ran, id)
  }

  /** Cut before its spec is stored, the apply has cleared a member that is owed; or its spec drops a member it has not seen and that is not listed. */
  predicate Forgotten(m: Machine, d: Draft, ran: nat, id: string) {
    if StoredBy(Writes(d, ran)) == [] then id in m.owed && ClearRetired(id) in Writes(d, ran)
    else Unseen(m.c, d, id) && id !in m.c.retired
  }

  lemma Unlisted(c: Cluster, d: Draft, ran: nat, id: string)
    ensures var evs := Writes(d, ran);
            id in Apply(c, evs).retired <==> (id in c.retired || AddRetired(id) in evs) && ClearRetired(id) !in evs
  {
    var evs := Writes(d, ran);
    WritesAreShaped(d, ran);
    WritesAre(d, ran, id);
    StoresAre(c, evs, d.spec);
    if EditsOnly(evs) {
      ListAfter(c, evs, id);
    } else {
      var edits := evs[..|evs| - 1];
      assert evs == edits + [SetSpec(d.spec)];
      assert AddRetired(id) in evs <==> AddRetired(id) in edits;
      assert ClearRetired(id) in evs <==> ClearRetired(id) in edits;
      ListAfter(c, edits, id);
    }
  }

  /** The writes of an apply lose a removal by clearing an owed member without storing, or by storing over a member they have not seen. */
  lemma WritesLoseIff(m: Machine, d: Draft, ran: nat)
    requires Owing(m) && AllListed(m)
    ensures AllListed(Written(m, Writes(d, ran))) <==> !Forgets(m, d, ran)
  {
    var evs := Writes(d, ran);
    var m' := Written(m, evs);
    WritesAreShaped(d, ran);
    StoresAre(m.c, evs, d.spec);
    forall id ensures id in m'.owed && id !in m'.c.retired <==> Forgotten(m, d, ran, id) {
      Unlisted(m.c, d, ran, id);
      WritesAre(d, ran, id);
    }
  }

  lemma MoveLosesIff(m: Machine, move: Move)
    requires Owing(m) && AllListed(m)
    ensures AllListed(Make(m, move)) <==> !Loses(m, move)
  {
    if move.Store? && move.i < |m.drafts| {
      WritesLoseIff(m, m.drafts[move.i], move.ran);
    } else if move.Advance? && Next(m).Some? {
      var ev := Next(m).value;
      assert Fits(m.pass.value.spec, m.pass.value.last, ev);
      if ev.ClearRetired? {
        RemoveMembers(m.c.retired, ev.id);
      }
    }
  }

  /** Some move of the run loses a removal. */
  predicate SomeLoss(m: Machine, moves: seq<Move>)
    decreases moves
  {
    moves != [] && (Loses(m, moves[0]) || SomeLoss(Make(m, moves[0]), moves[1..]))
  }

  predicate AlwaysListed(m: Machine, moves: seq<Move>)
    decreases moves
  {
    AllListed(m) && (moves != [] ==> AlwaysListed(Make(m, moves[0]), moves[1..]))
  }

  lemma {:induction false} ListedIffNoLoss(m: Machine, moves: seq<Move>)
    requires Owing(m) && AllListed(m)
    ensures AlwaysListed(m, moves) <==> !SomeLoss(m, moves)
    decreases moves
  {
    if moves != [] {
      MakeKeepsOwing(m, moves[0]);
      MoveLosesIff(m, moves[0]);
      var m' := Make(m, moves[0]);
      if AllListed(m') {
        ListedIffNoLoss(m', moves[1..]);
      }
    }
  }

  /**
   In every run, dropped members stay listed until they are torn down exactly when
   no apply is cut after clearing one of them, no apply stores a spec over a member
   it has not seen, and no pass clears one.
   */
  lemma NothingForgottenIff(moves: seq<Move>)
    ensures AlwaysListed(Empty(), moves) <==> !SomeLoss(Empty(), moves)
  {
    ListedIffNoLoss(Empty(), moves);
  }
}
