/**
 Retiring members of a Ceph cluster: the guard on new specs
 (crates/controller/src/ceph_cluster_spec.rs, `plan_member_removal`, and the
 apply handler) and the reconciler that drains and tears members down
 (crates/controller/src/ceph_cluster_reconciler.rs, `retire_removed_members`).

 As in `Rollout`, an operation is the list of its calls and writes, of which a
 crash or an error leaves a prefix.
 */
module CephRemoval {
  import opened Prelude

  datatype Spec = Spec(nodes: seq<string>, size: int, minSize: int, encrypt: bool)

  datatype Health = HealthOk | HealthOther | HealthUnread

  datatype Issue = TooManyAtOnce | TooFewHosts | NotHealthy | HealthBlind | OtherPending

  datatype Warning = TwoMonitors | WillDrain

  datatype Plan = Plan(removed: seq<string>, issues: seq<Issue>, warnings: seq<Warning>)

  predicate ValidSpec(s: Spec) {
    && s.nodes != [] && s.minSize > 0 && s.size >= s.minSize
    && (forall i, j :: 0 <= i < j < |s.nodes| ==> s.nodes[i] != s.nodes[j])
    && (forall i :: 0 <= i < |s.nodes| ==> s.nodes[i] != "")
  }

  /** The members of `old`, in order, that `new` drops. */
  function Dropped(old_: seq<string>, new_: seq<string>): (removed: seq<string>) {
    if old_ == [] then []
    else (if old_[0] in new_ then [] else [old_[0]]) + Dropped(old_[1..], new_)
  }

  lemma {:induction false} DroppedMembers(old_: seq<string>, new_: seq<string>)
    ensures forall id :: id in Dropped(old_, new_) <==> id in old_ && id !in new_
  {
    if old_ != [] {
      DroppedMembers(old_[1..], new_);
    }
  }

  predicate OnlyPending(pending: seq<string>, removed: seq<string>) {
    forall i :: 0 <= i < |pending| ==> pending[i] in removed
  }

  /** When each issue blocks dropping `removed`. */
  predicate Blocks(issue: Issue, removed: seq<string>, after: Spec, health: Health, pending: seq<string>) {
    match issue
    case TooManyAtOnce => |removed| > 1
    case TooFewHosts => |after.nodes| < after.size
    case NotHealthy => health == HealthOther
    case HealthBlind => health == HealthUnread
    case OtherPending => !OnlyPending(pending, removed)
  }

  method StillPending(pending: seq<string>, removed: seq<string>) returns (left: seq<string>)
    ensures left == [] <==> OnlyPending(pending, removed)
  {
    left := [];
    var i := 0;
    while i < |pending|
      invariant 0 <= i <= |pending|
      invariant left == [] <==> OnlyPending(pending[..i], removed)
    {
      if pending[i] !in removed {
        left := left + [pending[i]];
      }
      assert pending[..i + 1] == pending[..i] + [pending[i]];
      i := i + 1;
    }
    assert pending[..|pending|] == pending;
  }

  /** The verdict on the members that `after` drops, as the planner collects it. */
  method PlanMemberRemoval(before: Spec, after: Spec, health: Health, pending: seq<string>) returns (plan: Plan)
    ensures plan.removed == Dropped(before.nodes, after.nodes)
    ensures plan.removed == [] ==> plan.issues == [] && plan.warnings == []
    ensures plan.removed != [] ==> forall issue :: issue in plan.issues <==> Blocks(issue, plan.removed, after, health, pending)
    ensures plan.removed != [] ==> WillDrain in plan.warnings && (TwoMonitors in plan.warnings <==> |after.nodes| == 2)
    ensures plan.issues == [] <==> Acceptable(before, after, health, pending)
  {
    var removed := Dropped(before.nodes, after.nodes);
    if removed == [] {
      return Plan([], [], []);
    }
    var issues, warnings := [], [];
    if |removed| > 1 {
      issues := issues + [TooManyAtOnce];
    }
    if |after.nodes| < after.size {
      issues := issues + [TooFewHosts];
    }
    if |after.nodes| == 2 {
      warnings := warnings + [TwoMonitors];
    }
    match health {
      case HealthOk =>
      case HealthOther => issues := issues + [NotHealthy];
      case HealthUnread => issues := issues + [HealthBlind];
    }
    var stillPending := StillPending(pending, removed);
    if stillPending != [] {
      issues := issues + [OtherPending];
    }
    plan := Plan(removed, issues, warnings + [WillDrain]);
    NoBlockIffAcceptable(before, after, health, pending, issues);
  }

  lemma NoBlockIffAcceptable(before: Spec, after: Spec, health: Health, pending: seq<string>, issues: seq<Issue>)
    requires Dropped(before.nodes, after.nodes) != []
    requires forall issue :: issue in issues <==> Blocks(issue, Dropped(before.nodes, after.nodes), after, health, pending)
    ensures issues == [] <==> Acceptable(before, after, health, pending)
  {
    if issues != [] {
      assert issues[0] in issues;
    } else {
      assert TooManyAtOnce !in issues && TooFewHosts !in issues && NotHealthy !in issues;
      assert HealthBlind !in issues && OtherPending !in issues;
    }
  }

  /** A spec that drops members is acceptable only one at a time, in health, with enough hosts left and no other removal open. */
  predicate Acceptable(before: Spec, after: Spec, health: Health, pending: seq<string>) {
    var removed := Dropped(before.nodes, after.nodes);
    removed == [] || (|removed| == 1 && |after.nodes| >= after.size && health.HealthOk? && OnlyPending(pending, removed))
  }

  // ---- operations as events ----------------------------------------------

  datatype Event =
    | AddRetired(id: string)
    | ClearRetired(id: string)
    | SetSpec(spec: Spec)
    | DrainReport(survivor: string, id: string, clean: bool)
    | Teardown(id: string, done: bool)
    | RemoveMon(survivor: string, id: string)

  /** The stored spec and the members still to be retired, listed by id. */
  datatype Cluster = Cluster(spec: Option<Spec>, retired: seq<string>)

  function InsertId(ids: seq<string>, id: string): (r: seq<string>) {
    if id in ids then ids
    else if ids == [] || Less(id, ids[0]) then [id] + ids
    else [ids[0]] + InsertId(ids[1..], id)
  }

  function RemoveId(ids: seq<string>, id: string): (r: seq<string>) {
    if ids == [] then [] else (if ids[0] == id then [] else [ids[0]]) + RemoveId(ids[1..], id)
  }

  function ApplyEvent(c: Cluster, ev: Event): (c': Cluster) {
    match ev
    case AddRetired(id) => c.(retired := InsertId(c.retired, id))
    case ClearRetired(id) => c.(retired := RemoveId(c.retired, id))
    case SetSpec(spec) => c.(spec := Some(spec))
    case _ => c
  }

  function Apply(c: Cluster, evs: seq<Event>): (c': Cluster)
    decreases evs
  {
    if evs == [] then c else Apply(ApplyEvent(c, evs[0]), evs[1..])
  }

  function Adds(ids: seq<string>): (evs: seq<Event>) {
    seq(|ids|, i requires 0 <= i < |ids| => AddRetired(ids[i]))
  }

  function Clears(ids: seq<string>): (evs: seq<Event>) {
    seq(|ids|, i requires 0 <= i < |ids| => ClearRetired(ids[i]))
  }

  /** Applying a new spec. `hostsOk` is the outcome of every check on single hosts. */
  function ApplySpec(c: Cluster, new_: Spec, health: Health, hostsOk: bool): (evs: seq<Event>) {
    if !ValidSpec(new_) || c.spec == Some(new_) || !hostsOk then []
    else if c.spec.None? then [SetSpec(new_)]
    else if !Acceptable(c.spec.value, new_, health, c.retired) || c.spec.value.encrypt != new_.encrypt then []
    else Adds(Dropped(c.spec.value.nodes, new_.nodes)) + Clears(new_.nodes) + [SetSpec(new_)]
  }

  datatype DrainReply = DrainUnreachable | DrainFailed | DrainBusy | DrainClean

  datatype TearReply = TearUnreachable | TearFailed | TearUnfinished | Torn(hasMon: bool)

  /** What the agents answer during one tick. */
  datatype Env = Env(drain: string -> DrainReply, tear: string -> TearReply, monGone: string -> bool)

  /** The calls and writes for one retired member, and whether the tick goes on. */
  datatype Work = Work(evs: seq<Event>, ok: bool)

  function DrainMember(spec: Spec, id: string, e: Env): (w: Work) {
    if spec.nodes == [] then Work([], true)
    else match e.drain(id)
         case DrainUnreachable => Work([], false)
         case DrainFailed => Work([], false)
         case DrainBusy => Work([DrainReport(spec.nodes[0], id, false)], false)
         case DrainClean => Work([DrainReport(spec.nodes[0], id, true)], true)
  }

  function TearMember(spec: Spec, id: string, e: Env): (w: Work) {
    match e.tear(id)
    case TearUnreachable => Work([], false)
    case TearFailed => Work([Teardown(id, false)], false)
    case TearUnfinished => Work([Teardown(id, false)], false)
    case Torn(hasMon) =>
      if hasMon && spec.nodes != [] then
        if e.monGone(id) then Work([Teardown(id, true), RemoveMon(spec.nodes[0], id), ClearRetired(id)], true)
        else Work([Teardown(id, true), RemoveMon(spec.nodes[0], id)], false)
      else Work([Teardown(id, true), ClearRetired(id)], true)
  }

  function RetireMember(spec: Spec, id: string, e: Env): (w: Work) {
    if id in spec.nodes then Work([ClearRetired(id)], true)
    else
      var drain := DrainMember(spec, id, e);
      if !drain.ok then drain
      else var tear := TearMember(spec, id, e); Work(drain.evs + tear.evs, tear.ok)
  }

  function RetireAll(spec: Spec, ids: seq<string>, e: Env): (evs: seq<Event>) {
    if ids == [] then []
    else
      var w := RetireMember(spec, ids[0], e);
      if w.ok then w.evs + RetireAll(spec, ids[1..], e) else w.evs
  }

  /** The reconciler's pass over the retired members of one cluster, calling the agents and writing the list as it goes. */
  class Reconciler {
    var spec: Option<Spec>
    var retired: seq<string>
    ghost var log: seq<Event>

    ghost function Stored(): (c: Cluster)
      reads this
    {
      Cluster(spec, retired)
    }

    twostate predicate Did(evs: seq<Event>)
      reads this
    {
      log == old(log) + evs && Stored() == Apply(old(Stored()), evs)
    }

    method Call(ghost ev: Event)
      requires ev.DrainReport? || ev.Teardown? || ev.RemoveMon?
      modifies `log
      ensures Did([ev])
    {
      log := log + [ev];
      ApplyOne(Stored(), ev);
    }

    method Clear(id: string)
      modifies `retired, `log
      ensures Did([ClearRetired(id)])
    {
      ApplyOne(Stored(), ClearRetired(id));
      retired := RemoveId(retired, id);
      log := log + [ClearRetired(id)];
    }

    method Drain(s: Spec, id: string, e: Env) returns (ok: bool)
      modifies `log
      ensures var w := DrainMember(s, id, e); ok == w.ok && Did(w.evs)
    {
      if s.nodes == [] {
        return true;
      }
      match e.drain(id) {
        case DrainUnreachable => return false;
        case DrainFailed => return false;
        case DrainBusy => Call(DrainReport(s.nodes[0], id, false)); return false;
        case DrainClean => Call(DrainReport(s.nodes[0], id, true)); return true;
      }
    }

    method Tear(s: Spec, id: string, e: Env) returns (ok: bool)
      modifies `retired, `log
      ensures var w := TearMember(s, id, e); ok == w.ok && Did(w.evs)
    {
      ghost var start := Stored();
      var reply := e.tear(id);
      if reply.TearUnreachable? {
        return false;
      }
      Call(Teardown(id, reply.Torn?));
      if reply.TearFailed? || reply.TearUnfinished? {
        return false;
      }
      if reply.hasMon && s.nodes != [] {
        Call(RemoveMon(s.nodes[0], id));
        ApplyConcat(start, [Teardown(id, true)], [RemoveMon(s.nodes[0], id)]);
        assert [Teardown(id, true)] + [RemoveMon(s.nodes[0], id)] == [Teardown(id, true), RemoveMon(s.nodes[0], id)];
        if !e.monGone(id) {
          return false;
        }
        Clear(id);
        ApplyConcat(start, [Teardown(id, true), RemoveMon(s.nodes[0], id)], [ClearRetired(id)]);
        assert TearMember(s, id, e).evs == [Teardown(id, true), RemoveMon(s.nodes[0], id)] + [ClearRetired(id)];
      } else {
        Clear(id);
        ApplyConcat(start, [Teardown(id, true)], [ClearRetired(id)]);
        assert TearMember(s, id, e).evs == [Teardown(id, true)] + [ClearRetired(id)];
      }
      return true;
    }

    method Retire(s: Spec, id: string, e: Env) returns (ok: bool)
      modifies `retired, `log
      ensures var w := RetireMember(s, id, e); ok == w.ok && Did(w.evs)
    {
      if id in s.nodes {
        Clear(id);
        return true;
      }
      ok := Drain(s, id, e);
      if ok {
        ok := Tear(s, id, e);
        ApplyConcat(old(Stored()), DrainMember(s, id, e).evs, TearMember(s, id, e).evs);
      }
    }

    /** Returns whether every listed member was finished with; the first failure ends the pass. */
    method RetireRemovedMembers(s: Spec, e: Env) returns (ok: bool)
      modifies `retired, `log
      ensures Did(RetireAll(s, old(retired), e))
    {
      var ids := retired;
      ghost var all := RetireAll(s, ids, e);
      ghost var done: seq<Event> := [];
      assert ids[0..] == ids;
      var i := 0;
      while i < |ids|
        invariant 0 <= i <= |ids|
        invariant log == old(log) + done
        invariant Stored() == Apply(old(Stored()), done)
        invariant all == done + RetireAll(s, ids[i..], e)
      {
        ghost var w := RetireMember(s, ids[i], e);
        RetireAllStep(s, ids, i, e);
        ok := Retire(s, ids[i], e);
        ApplyConcat(old(Stored()), done, w.evs);
        Regroup(old(log), done, w.evs);
        if !ok {
          assert all == done + w.evs;
          return;
        }
        Regroup(done, w.evs, RetireAll(s, ids[i + 1..], e));
        done := done + w.evs;
        i := i + 1;
      }
      assert done == all by {
        assert RetireAll(s, ids[i..], e) == [];
      }
      return true;
    }
  }

  lemma Regroup(xs: seq<Event>, ys: seq<Event>, zs: seq<Event>)
    ensures (xs + ys) + zs == xs + (ys + zs)
  {
  }

  lemma RetireAllStep(s: Spec, ids: seq<string>, i: nat, e: Env)
    requires i < |ids|
    ensures var w := RetireMember(s, ids[i], e);
            RetireAll(s, ids[i..], e) == if w.ok then w.evs + RetireAll(s, ids[i + 1..], e) else w.evs
  {
    assert ids[i..][0] == ids[i] && ids[i..][1..] == ids[i + 1..];
  }

  lemma ApplyOne(c: Cluster, ev: Event)
    ensures Apply(c, [ev]) == ApplyEvent(c, ev)
  {
    assert [ev][1..] == [] && Apply(ApplyEvent(c, ev), []) == ApplyEvent(c, ev);
  }

  lemma {:induction false} ApplyConcat(c: Cluster, xs: seq<Event>, ys: seq<Event>)
    ensures Apply(c, xs + ys) == Apply(Apply(c, xs), ys)
    decreases xs
  {
    if xs == [] {
      assert xs + ys == ys;
    } else {
      ApplyConcat(ApplyEvent(c, xs[0]), xs[1..], ys);
      assert (xs + ys)[1..] == xs[1..] + ys;
    }
  }
}
