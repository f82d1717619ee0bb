/** Applies that overlap: exactly when two members come to wait for retirement, and what a stored change may drop. */
module CephApplies {
  import opened Prelude
  import opened CephRemoval
  import opened CephSafety
  import opened CephInterleaved

  // ---- the writes of an accepted apply ---------------------------------------------

  /** The list after edits in which nobody is both added and cleared. */
  lemma {:induction false} ListAfter(c: Cluster, evs: seq<Event>, id: string)
    requires EditsOnly(evs) && !(AddRetired(id) in evs && ClearRetired(id) in evs)
    ensures id in Apply(c, evs).retired <==> (id in c.retired || AddRetired(id) in evs) && ClearRetired(id) !in evs
    decreases evs
  {
    if evs != [] {
      var ev, rest := evs[0], evs[1..];
      assert evs == [ev] + rest;
      InsertMembers(c.retired, ev.id);
      RemoveMembers(c.retired, ev.id);
      ListAfter(ApplyEvent(c, ev), rest, id);
    }
  }

  function BaseNodes(d: Draft): (ids: seq<string>) {
    if d.base.None? then [] else d.base.value.nodes
  }

  /** Which members an apply's writes add and clear: only those it drops from what it read, and only those it lists. */
  lemma WritesAre(d: Draft, ran: nat, id: string)
    ensures var evs := Writes(d, ran);
            && (AddRetired(id) in evs ==> id in BaseNodes(d) && id !in d.spec.nodes)
            && (ClearRetired(id) in evs ==> id in d.spec.nodes)
            && (!EditsOnly(evs) && id in BaseNodes(d) && id !in d.spec.nodes ==> AddRetired(id) in evs)
  {
    var evs := Writes(d, ran);
    if d.pending.Some? {
      var whole := ApplySpec(Cluster(d.base, d.pending.value), d.spec, d.health, d.hostsOk);
      assert forall ev :: ev in evs ==> ev in whole;
      if whole != [] {
        WholeIs(d, whole, id);
        if |evs| < |whole| {
          assert EditsOnly(evs) by {
            assert forall i :: 0 <= i < |evs| ==> evs[i] == whole[i];
          }
        } else {
          assert evs == whole;
        }
      }
    }
  }

  lemma WholeIs(d: Draft, whole: seq<Event>, id: string)
    requires d.pending.Some? && whole == ApplySpec(Cluster(d.base, d.pending.value), d.spec, d.health, d.hostsOk) && whole != []
    ensures AddRetired(id) in whole <==> id in BaseNodes(d) && id !in d.spec.nodes
    ensures ClearRetired(id) in whole ==> id in d.spec.nodes
    ensures forall i :: 0 <= i < |whole| - 1 ==> whole[i].AddRetired? || whole[i].ClearRetired?
  {
    if d.base.Some? {
      var dropped := Dropped(BaseNodes(d), d.spec.nodes);
      DroppedMembers(BaseNodes(d), d.spec.nodes);
      assert whole == Adds(dropped) + Clears(d.spec.nodes) + [SetSpec(d.spec)];
      if id in dropped {
        var i :| 0 <= i < |dropped| && dropped[i] == id;
        assert whole[i] == AddRetired(id);
      }
    }
  }

  // ---- one member at a time -----------------------------------------------------------

  /** At most one member is listed before, during and after the writes. */
  predicate OneDuring(c: Cluster, evs: seq<Event>)
    decreases evs
  {
    |c.retired| <= 1 && (evs != [] ==> OneDuring(ApplyEvent(c, evs[0]), evs[1..]))
  }

  /** The writes list a member while another one is listed. */
  predicate Crowds(c: Cluster, evs: seq<Event>) {
    evs != [] && evs[0].AddRetired? && exists other :: other in c.retired && other != evs[0].id
  }

  predicate ClearsFirst(evs: seq<Event>) {
    forall i :: 0 <= i < |evs| ==> !evs[i].AddRetired?
  }

  lemma {:induction false} ClearingStaysOne(c: Cluster, evs: seq<Event>)
    requires ClearsFirst(evs) && |c.retired| <= 1
    ensures OneDuring(c, evs) && |Apply(c, evs).retired| <= 1
    decreases evs
  {
    if evs != [] {
      if evs[0].ClearRetired? {
        RemoveMembers(c.retired, evs[0].id);
      }
      ClearingStaysOne(ApplyEvent(c, evs[0]), evs[1..]);
    }
  }

  /** Only the first write of an apply can list a member. */
  lemma OneAddFirst(d: Draft, ran: nat)
    ensures var evs := Writes(d, ran); evs != [] ==> ClearsFirst(evs[1..])
  {
    var evs := Writes(d, ran);
    if evs != [] {
      var whole := ApplySpec(Cluster(d.base, d.pending.value), d.spec, d.health, d.hostsOk);
      if d.base.Some? {
        var dropped := Dropped(BaseNodes(d), d.spec.nodes);
        assert whole == Adds(dropped) + Clears(d.spec.nodes) + [SetSpec(d.spec)] && |dropped| <= 1;
      }
      assert forall i :: 0 < i < |evs| ==> evs[i] == whole[i];
    }
  }

  lemma InsertGrows(ids: seq<string>, id: string)
    requires |ids| <= 1
    ensures |InsertId(ids, id)| <= 1 <==> forall other :: other in ids ==> other == id
  {
    if ids != [] {
      assert ids[0] in ids && ids == [ids[0]];
      if id != ids[0] {
        assert id !in ids;
        assert ids[1..] == [] && InsertId([], id) == [id];
      }
    }
  }

  lemma WritesStayOneIff(c: Cluster, d: Draft, ran: nat)
    requires |c.retired| <= 1
    ensures var evs := Writes(d, ran); OneDuring(c, evs) <==> !Crowds(c, evs)
    ensures var evs := Writes(d, ran); !Crowds(c, evs) ==> |Apply(c, evs).retired| <= 1
  {
    var evs := Writes(d, ran);
    if evs != [] {
      OneAddFirst(d, ran);
      var ev := evs[0];
      if ev.AddRetired? {
        InsertGrows(c.retired, ev.id);
      } else if ev.ClearRetired? {
        RemoveMembers(c.retired, ev.id);
      }
      if |ApplyEvent(c, ev).retired| <= 1 {
        ClearingStaysOne(ApplyEvent(c, ev), evs[1..]);
      }
    }
  }

  /** The writes of a move. */
  function WritesOf(m: Machine, move: Move): (evs: seq<Event>) {
    if move.Store? && move.i < |m.drafts| then Writes(m.drafts[move.i], move.ran) else []
  }

  /** An apply lists a member while another one is listed. */
  predicate Collides(m: Machine, move: Move) {
    Crowds(m.c, WritesOf(m, move))
  }

  predicate AlwaysOne(m: Machine, moves: seq<Move>)
    decreases moves
  {
    |m.c.retired| <= 1 && (moves != [] ==> OneDuring(m.c, WritesOf(m, moves[0])) && AlwaysOne(Make(m, moves[0]), moves[1..]))
  }

  predicate SomeCollision(m: Machine, moves: seq<Move>)
    decreases moves
  {
    moves != [] && (Collides(m, moves[0]) || SomeCollision(Make(m, moves[0]), moves[1..]))
  }

  lemma MoveStaysOne(m: Machine, move: Move)
    requires Inv(m) && |m.c.retired| <= 1
    ensures OneDuring(m.c, WritesOf(m, move)) <==> !Collides(m, move)
    ensures !Collides(m, move) ==> |Make(m, move).c.retired| <= 1
  {
    if move.Store? && move.i < |m.drafts| {
      WritesStayOneIff(m.c, m.drafts[move.i], move.ran);
    } else if move.Advance? && Next(m).Some? {
      var ev := Next(m).value;
      assert Fits(m.pass.value.spec, m.pass.value.last, ev);
      if ev.ClearRetired? {
        RemoveMembers(m.c.retired, ev.id);
      }
    }
  }

  lemma {:induction false} OneIffNoCollision(m: Machine, moves: seq<Move>)
    requires Inv(m) && |m.c.retired| <= 1
    ensures AlwaysOne(m, moves) <==> !SomeCollision(m, moves)
    decreases moves
  {
    if moves != [] {
      MakeKeepsInv(m, moves[0]);
      MoveStaysOne(m, moves[0]);
      if !Collides(m, moves[0]) {
        OneIffNoCollision(Make(m, moves[0]), moves[1..]);
      }
    }
  }

  /** In every run at most one member waits for retirement at any moment, exactly when no apply lists one while another is listed. */
  lemma OneRemovalAtATimeIff(moves: seq<Move>)
    ensures AlwaysOne(Empty(), moves) <==> !SomeCollision(Empty(), moves)
  {
    OneIffNoCollision(Empty(), moves);
  }

  /** Nobody was listed since this apply read the list. */
  predicate ListIsCurrent(m: Machine, move: Move) {
    move.Store? && move.i < |m.drafts| && m.drafts[move.i].pending.Some? ==>
      forall id :: id in m.c.retired ==> id in m.drafts[move.i].pending.value
  }

  predicate ListsAreCurrent(m: Machine, moves: seq<Move>)
    decreases moves
  {
    moves != [] ==> ListIsCurrent(m, moves[0]) && ListsAreCurrent(Make(m, moves[0]), moves[1..])
  }

  /** A collision is with a member listed since the apply read the list. */
  lemma CollisionIsRecent(m: Machine, move: Move)
    requires ListIsCurrent(m, move)
    ensures !Collides(m, move)
  {
    var evs := WritesOf(m, move);
    if evs != [] && evs[0].AddRetired? {
      var d := m.drafts[move.i];
      var whole := ApplySpec(Cluster(d.base, d.pending.value), d.spec, d.health, d.hostsOk);
      assert evs[0] == whole[0];
      var dropped := Dropped(BaseNodes(d), d.spec.nodes);
      assert whole == Adds(dropped) + Clears(d.spec.nodes) + [SetSpec(d.spec)];
      assert dropped == [evs[0].id];
      assert OnlyPending(d.pending.value, dropped);
    }
  }

  /** So applies that write before anybody else is listed keep to one member at a time. */
  lemma {:induction false} CurrentListsNeverCollide(m: Machine, moves: seq<Move>)
    requires ListsAreCurrent(m, moves)
    ensures !SomeCollision(m, moves)
    decreases moves
  {
    if moves != [] {
      CollisionIsRecent(m, moves[0]);
      CurrentListsNeverCollide(Make(m, moves[0]), moves[1..]);
    }
  }

  // ---- what a stored change drops ------------------------------------------------------

  /** A member that the apply has not seen, because it was stored since, and that its spec does not list. */
  predicate Unseen(c: Cluster, d: Draft, id: string) {
    id in Members(c) && id !in d.spec.nodes && id !in BaseNodes(d)
  }

  lemma {:induction false} DroppedOnce(old_: seq<string>, new_: seq<string>, id: string)
    requires forall i, j :: 0 <= i < j < |old_| ==> old_[i] != old_[j]
    requires forall x :: x in old_ && x !in new_ ==> x == id
    ensures |Dropped(old_, new_)| <= 1
  {
    if old_ != [] {
      var rest := old_[1..];
      if old_[0] !in new_ {
        assert old_[0] == id;
        NoneDropped(rest, new_);
      } else {
        DroppedOnce(rest, new_, id);
      }
    }
  }

  lemma {:induction false} NoneDropped(old_: seq<string>, new_: seq<string>)
    requires forall x :: x in old_ ==> x in new_
    ensures Dropped(old_, new_) == []
  {
    if old_ != [] {
      NoneDropped(old_[1..], new_);
    }
  }

  /**
   An apply that stores its spec drops members it has not seen, or drops at most
   one member, which is then listed for retirement, and leaves `size` hosts.
   */
  lemma StoredChangeIsSafe(m: Machine, i: nat, ran: nat)
    requires Inv(m) && m.c.spec.Some? && i < |m.drafts| && StoredBy(Writes(m.drafts[i], ran)) != []
    requires forall id :: !Unseen(m.c, m.drafts[i], id)
    ensures var d, m' := m.drafts[i], Make(m, Store(i, ran));
            var dropped := Dropped(m.c.spec.value.nodes, d.spec.nodes);
            && m'.c.spec == Some(d.spec)
            && (dropped != [] ==> |dropped| == 1 && dropped[0] in m'.c.retired && |d.spec.nodes| >= d.spec.size)
  {
    var d, evs := m.drafts[i], Writes(m.drafts[i], ran);
    var now, base := m.c.spec.value.nodes, Dropped(BaseNodes(d), d.spec.nodes);
    WritesAreShaped(d, ran);
    StoresAre(m.c, evs, d.spec);
    DroppedMembers(now, d.spec.nodes);
    DroppedMembers(BaseNodes(d), d.spec.nodes);
    var dropped := Dropped(now, d.spec.nodes);
    if dropped != [] {
      var id := dropped[0];
      assert id in dropped && id in Members(m.c) && !Unseen(m.c, d, id);
      assert id in base && base != [];
      BaseDropsOne(d, ran, id);
      forall x | x in now && x !in d.spec.nodes ensures x == id {
        assert x in Members(m.c) && !Unseen(m.c, d, x);
        assert x in base;
      }
      DroppedOnce(now, d.spec.nodes, id);
      StoredIsListed(m.c, d, ran, id);
    }
  }

  lemma BaseDropsOne(d: Draft, ran: nat, id: string)
    requires StoredBy(Writes(d, ran)) != [] && id in Dropped(BaseNodes(d), d.spec.nodes)
    ensures Dropped(BaseNodes(d), d.spec.nodes) == [id] && |d.spec.nodes| >= d.spec.size
  {
  }

  lemma StoredIsListed(c: Cluster, d: Draft, ran: nat, id: string)
    requires StoredBy(Writes(d, ran)) != [] && id in BaseNodes(d) && id !in d.spec.nodes
    ensures id in Apply(c, Writes(d, ran)).retired
  {
    var evs := Writes(d, ran);
    WritesAreShaped(d, ran);
    StoresAre(c, evs, d.spec);
    WritesAre(d, ran, id);
    var edits := evs[..|evs| - 1];
    assert evs == edits + [SetSpec(d.spec)];
    assert AddRetired(id) in edits && ClearRetired(id) !in edits;
    ListAfter(c, edits, id);
  }
}
