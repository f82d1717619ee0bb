/**
 The order in which guests restart after a host failure
 (crates/controller/src/ha.rs, `sort_for_restart`).
 */
module RestartOrder {
  import opened Prelude

  /** Any other priority text ranks like `Medium`. */
  datatype Priority = High | Medium | Low

  /** `after` is the name or id of the VM that must restart first, from the label `kcore.restartAfter`. */
  datatype Vm = Vm(id: string, name: string, memory: int, priority: Priority, after: Option<string>)

  function PriorityRank(priority: Priority): (rank: nat) {
    match priority
    case High => 0
    case Medium => 1
    case Low => 2
  }

  /** High priority first, then more memory, then the smaller id. */
  predicate Before(a: Vm, b: Vm) {
    var ra, rb := PriorityRank(a.priority), PriorityRank(b.priority);
    ra < rb || (ra == rb && (a.memory > b.memory || (a.memory == b.memory && Less(a.id, b.id))))
  }

  predicate Names(vm: Vm, other: Vm) {
    vm.after == Some(other.name) || vm.after == Some(other.id)
  }

  predicate IsReady(pending: seq<Vm>, vm: Vm) {
    forall j :: 0 <= j < |pending| ==> !Names(vm, pending[j])
  }

  lemma BeforeIsStrict(a: Vm, b: Vm, c: Vm)
    ensures !Before(a, a)
    ensures Before(a, b) && Before(b, c) ==> Before(a, c)
    ensures a.id != b.id ==> Before(a, b) || Before(b, a)
  {
    LessTrichotomy(a.id, a.id);
    LessTrichotomy(a.id, b.id);
    if Less(a.id, b.id) && Less(b.id, c.id) {
      LessTransitive(a.id, b.id, c.id);
    }
  }

  /** The first of the best ready VMs among the first `k`. */
  function Best(pending: seq<Vm>, k: nat): (r: Option<nat>)
    requires k <= |pending|
    ensures r.Some? ==> r.value < k
  {
    if k == 0 then None
    else
      var best := Best(pending, k - 1);
      if IsReady(pending, pending[k - 1]) && (best.None? || Before(pending[k - 1], pending[best.value]))
      then Some(k - 1) else best
  }

  /** No ready VM among the first `k` goes before `vm`. */
  predicate NobodyBefore(pending: seq<Vm>, k: nat, vm: Vm)
    requires k <= |pending|
  {
    k == 0 || (NobodyBefore(pending, k - 1, vm) && (IsReady(pending, pending[k - 1]) ==> !Before(pending[k - 1], vm)))
  }

  lemma {:induction false} NobodyBeforeAt(pending: seq<Vm>, k: nat, vm: Vm, j: nat)
    requires j < k <= |pending| && NobodyBefore(pending, k, vm) && IsReady(pending, pending[j])
    ensures !Before(pending[j], vm)
  {
    if j < k - 1 {
      NobodyBeforeAt(pending, k - 1, vm, j);
    }
  }

  lemma {:induction false} BestIsReady(pending: seq<Vm>, k: nat)
    requires k <= |pending|
    ensures match Best(pending, k)
            case None => forall j :: 0 <= j < k ==> !IsReady(pending, pending[j])
            case Some(b) => IsReady(pending, pending[b])
  {
    if k > 0 {
      BestIsReady(pending, k - 1);
    }
  }

  lemma {:induction false} BestIsBest(pending: seq<Vm>, k: nat)
    requires k <= |pending| && Best(pending, k).Some?
    ensures NobodyBefore(pending, k, pending[Best(pending, k).value])
  {
    var best, last := Best(pending, k - 1), pending[k - 1];
    BeforeIsStrict(last, last, last);
    if best.Some? {
      BestIsBest(pending, k - 1);
      if Before(last, pending[best.value]) {
        Replaces(pending, k - 1, pending[best.value], last);
      }
    } else {
      NobodyAtAll(pending, k - 1, last);
    }
  }

  lemma {:induction false} NobodyAtAll(pending: seq<Vm>, k: nat, vm: Vm)
    requires k <= |pending| && Best(pending, k).None?
    ensures NobodyBefore(pending, k, vm)
  {
    if k > 0 {
      NobodyAtAll(pending, k - 1, vm);
    }
  }

  lemma {:induction false} Replaces(pending: seq<Vm>, k: nat, best: Vm, better: Vm)
    requires k <= |pending| && Before(better, best) && NobodyBefore(pending, k, best)
    ensures NobodyBefore(pending, k, better)
  {
    if k > 0 {
      Replaces(pending, k - 1, best, better);
      BeforeIsStrict(pending[k - 1], better, best);
    }
  }

  /** The pick is ready and no ready VM goes before it, unless nobody is ready. */
  lemma {:induction false} PickIsBest(pending: seq<Vm>, j: nat)
    requires j < |pending| && IsReady(pending, pending[j])
    ensures IsReady(pending, pending[Pick(pending)])
    ensures !Before(pending[j], pending[Pick(pending)])
  {
    BestIsReady(pending, |pending|);
    BestIsBest(pending, |pending|);
    NobodyBeforeAt(pending, |pending|, pending[Pick(pending)], j);
  }

  /** With nobody ready the first pending VM is forced. */
  function Pick(pending: seq<Vm>): (i: nat)
    requires pending != []
    ensures i < |pending|
  {
    match Best(pending, |pending|)
    case Some(i) => i
    case None => 0
  }

  function Order(pending: seq<Vm>): (ordered: seq<Vm>)
    ensures |ordered| == |pending|
    decreases |pending|
  {
    if pending == [] then [] else [pending[Pick(pending)]] + Order(Without(pending, Pick(pending)))
  }

  /** No pending VM is named by `vm`. */
  method CheckReady(pending: seq<Vm>, vm: Vm) returns (ready: bool)
    ensures ready == IsReady(pending, vm)
  {
    for j := 0 to |pending|
      invariant forall i :: 0 <= i < j ==> !Names(vm, pending[i])
    {
      if Names(vm, pending[j]) {
        return false;
      }
    }
    return true;
  }

  method PickNext(pending: seq<Vm>) returns (pick: nat)
    requires pending != []
    ensures pick == Pick(pending)
  {
    pick := 0;
    var found := false;
    for k := 0 to |pending|
      invariant pick < |pending| && (!found ==> pick == 0)
      invariant Best(pending, k) == if found then Some(pick) else None
    {
      var ready := CheckReady(pending, pending[k]);
      if ready && (!found || Before(pending[k], pending[pick])) {
        pick, found := k, true;
      }
    }
  }

  /** Reorders `vms` in place. */
  method SortForRestart(vms: array<Vm>)
    modifies vms
    ensures vms[..] == Order(old(vms[..]))
  {
    var pending, ordered := vms[..], [];
    while pending != []
      invariant ordered + Order(pending) == Order(old(vms[..]))
      decreases |pending|
    {
      var pick := PickNext(pending);
      Assoc(ordered, [pending[pick]], Order(Without(pending, pick)));
      ordered := ordered + [pending[pick]];
      pending := Without(pending, pick);
    }
    assert ordered == ordered + [] == Order(old(vms[..]));
    forall i | 0 <= i < vms.Length {
      vms[i] := ordered[i];
    }
    assert vms[..] == ordered;
  }

  // ---- a permutation -----------------------------------------------------

  lemma {:induction false} OrderIsPermutation(pending: seq<Vm>)
    ensures multiset(Order(pending)) == multiset(pending)
    decreases |pending|
  {
    if pending != [] {
      var i := Pick(pending);
      OrderIsPermutation(Without(pending, i));
      WithoutCounts(pending, i);
    }
  }

  lemma {:induction false} Occurs(pending: seq<Vm>, i: nat) returns (j: nat)
    requires i < |pending|
    ensures j < |pending| && pending[j] == Order(pending)[i]
  {
    OrderIsPermutation(pending);
    assert Order(pending)[i] in multiset(Order(pending));
    j := Shares(Order(pending), pending, Order(pending)[i]);
  }

  // ---- sound dependency chains -------------------------------------------

  /** Every chain of named VMs from `vm` ends within `k` VMs. */
  predicate Grounded(s: seq<Vm>, vm: Vm, k: nat)
    decreases k
  {
    k > 0 && forall j :: 0 <= j < |s| && Names(vm, s[j]) ==> Grounded(s, s[j], k - 1)
  }

  ghost predicate Sound(s: seq<Vm>, vm: Vm) {
    exists k: nat :: Grounded(s, vm, k)
  }

  predicate Within(p: seq<Vm>, s: seq<Vm>) {
    forall j :: 0 <= j < |p| ==> p[j] in s
  }

  lemma {:induction false} GroundedWithin(p: seq<Vm>, s: seq<Vm>, vm: Vm, k: nat)
    requires Within(p, s) && Grounded(s, vm, k)
    ensures Grounded(p, vm, k)
    decreases k
  {
    forall j | 0 <= j < |p| && Names(vm, p[j])
      ensures Grounded(p, p[j], k - 1)
    {
      var i :| 0 <= i < |s| && s[i] == p[j];
      GroundedWithin(p, s, p[j], k - 1);
    }
  }

  lemma SoundWithin(p: seq<Vm>, s: seq<Vm>, vm: Vm)
    requires Within(p, s) && Sound(s, vm)
    ensures Sound(p, vm)
  {
    var k: nat :| Grounded(s, vm, k);
    GroundedWithin(p, s, vm, k);
  }

  lemma {:induction false} SomeoneIsReady(p: seq<Vm>, i: nat, k: nat)
    requires i < |p| && Grounded(p, p[i], k)
    ensures Best(p, |p|).Some?
    decreases k
  {
    BestIsReady(p, |p|);
    if !IsReady(p, p[i]) {
      var j :| 0 <= j < |p| && Names(p[i], p[j]);
      SomeoneIsReady(p, j, k - 1);
    }
  }

  lemma WithoutWithin(s: seq<Vm>, i: nat)
    requires i < |s|
    ensures Within(Without(s, i), s)
  {
    forall j | 0 <= j < |s| - 1
      ensures Without(s, i)[j] in s
    {
      assert Without(s, i)[j] == s[if j < i then j else j + 1];
    }
  }

  /** A VM with a sound chain restarts after every VM it names. */
  lemma {:induction false} SoundChainsAreRespected(s: seq<Vm>, i: nat, j: nat)
    requires i < |s| && j < |s| && Names(Order(s)[i], Order(s)[j])
    requires Sound(s, Order(s)[i])
    ensures j < i
    decreases |s|
  {
    var pick := Pick(s);
    var rest := Without(s, pick);
    var at := Occurs(s, j);
    if i == 0 {
      var k: nat :| Grounded(s, s[pick], k);
      SomeoneIsReady(s, pick, k);
      BestIsReady(s, |s|);
      assert false;
    } else if j > 0 {
      WithoutWithin(s, pick);
      SoundWithin(rest, s, Order(s)[i]);
      SoundChainsAreRespected(rest, i - 1, j - 1);
    }
  }

  // ---- cycles ------------------------------------------------------------

  /** The label of `vm` holds the name or the id of `other`. */
  predicate WaitsFor(vm: Vm, other: Vm) {
    vm.after.Some? && vm.after.value in {other.name, other.id}
  }

  /** Indices of VMs, each waiting for the next. */
  predicate Walk(s: seq<Vm>, w: seq<nat>) {
    && (forall i :: 0 <= i < |w| ==> w[i] < |s|)
    && (forall i :: 0 <= i < |w| - 1 ==> WaitsFor(s[w[i]], s[w[i + 1]]))
  }

  predicate Repeats(w: seq<nat>, a: nat, b: nat) {
    a < b < |w| && w[a] == w[b]
  }

  /** Following the names from VM `i` can lead back to a VM already passed. */
  ghost predicate ReachesCycle(s: seq<Vm>, i: nat) {
    exists w: seq<nat>, a: nat, b: nat :: w != [] && w[0] == i && Walk(s, w) && Repeats(w, a, b)
  }

  lemma {:induction false} LongWalk(s: seq<Vm>, i: nat, k: nat) returns (w: seq<nat>)
    requires i < |s| && !Grounded(s, s[i], k)
    ensures |w| == k + 1 && w[0] == i && Walk(s, w)
    decreases k
  {
    w := [i];
    if k > 0 {
      var j :| 0 <= j < |s| && Names(s[i], s[j]) && !Grounded(s, s[j], k - 1);
      var rest := LongWalk(s, j, k - 1);
      w := [i] + rest;
    }
  }

  lemma {:induction false} WalkIsShort(s: seq<Vm>, w: seq<nat>, k: nat)
    requires w != [] && Walk(s, w) && Grounded(s, s[w[0]], k)
    ensures |w| <= k
    decreases k
  {
    if |w| > 1 {
      assert Names(s[w[0]], s[w[1]]);
      forall i | 0 <= i < |w[1..]| - 1
        ensures Names(s[w[1..][i]], s[w[1..][i + 1]])
      {
        assert w[1..][i] == w[i + 1] && w[1..][i + 1] == w[i + 1 + 1];
      }
      WalkIsShort(s, w[1..], k - 1);
    }
  }

  /** More indices than VMs: some VM occurs twice. */
  lemma {:induction false} Pigeons(w: seq<nat>, n: nat) returns (a: nat, b: nat)
    requires |w| > n && forall i :: 0 <= i < |w| ==> w[i] < n
    ensures Repeats(w, a, b)
    decreases n
  {
    var last := |w| - 1;
    if x :| 0 <= x < last && w[x] == w[last] {
      return x, last;
    }
    var v: seq<nat> := seq(last, i requires 0 <= i < last => if w[i] > w[last] then w[i] - 1 else w[i]);
    a, b := Pigeons(v, n - 1);
  }

  /** Going round a loop `n` more times. */
  function Pump(w: seq<nat>, a: nat, b: nat, n: nat): (r: seq<nat>)
    requires Repeats(w, a, b)
  {
    if n == 0 then w[..b] else Pump(w, a, b, n - 1) + w[a..b]
  }

  lemma JoinedWalk(s: seq<Vm>, v: seq<nat>, w: seq<nat>)
    requires v != [] && w != [] && Walk(s, v) && Walk(s, w) && WaitsFor(s[v[|v| - 1]], s[w[0]])
    ensures Walk(s, v + w)
  {
    var r := v + w;
    forall i | 0 <= i < |r| - 1
      ensures WaitsFor(s[r[i]], s[r[i + 1]])
    {
      if i >= |v| {
        assert r[i] == w[i - |v|] && r[i + 1] == w[i - |v| + 1];
      }
    }
  }

  lemma PartOfWalk(s: seq<Vm>, w: seq<nat>, a: nat, b: nat)
    requires a <= b <= |w| && Walk(s, w)
    ensures Walk(s, w[a..b])
  {
    forall i | 0 <= i < b - a - 1
      ensures WaitsFor(s[w[a..b][i]], s[w[a..b][i + 1]])
    {
      assert w[a..b][i] == w[a + i] && w[a..b][i + 1] == w[a + i + 1];
    }
  }

  lemma OnceMore(s: seq<Vm>, w: seq<nat>, a: nat, b: nat, p: seq<nat>)
    requires Repeats(w, a, b) && Walk(s, w) && Walk(s, p) && p != [] && p[0] == w[0] && p[|p| - 1] == w[b - 1]
    ensures var r := p + w[a..b]; |r| > |p| && r[0] == w[0] && Walk(s, r) && r[|r| - 1] == w[b - 1]
  {
    PartOfWalk(s, w, a, b);
    assert WaitsFor(s[w[b - 1]], s[w[b - 1 + 1]]);
    JoinedWalk(s, p, w[a..b]);
  }

  lemma {:induction false} PumpIsWalk(s: seq<Vm>, w: seq<nat>, a: nat, b: nat, n: nat)
    requires Repeats(w, a, b) && Walk(s, w)
    ensures var r := Pump(w, a, b, n);
            && |r| >= b + n && r[0] == w[0] && Walk(s, r) && r[|r| - 1] == w[b - 1]
  {
    if n == 0 {
      PartOfWalk(s, w, 0, b);
      assert w[0..b] == w[..b];
    } else {
      PumpIsWalk(s, w, a, b, n - 1);
      OnceMore(s, w, a, b, Pump(w, a, b, n - 1));
    }
  }

  /** A chain is sound exactly when it never reaches a cycle. */
  lemma {:induction false} SoundIffNoCycle(s: seq<Vm>, i: nat)
    requires i < |s|
    ensures Sound(s, s[i]) <==> !ReachesCycle(s, i)
  {
    if ReachesCycle(s, i) && Sound(s, s[i]) {
      var w: seq<nat>, a: nat, b: nat :| w != [] && w[0] == i && Walk(s, w) && Repeats(w, a, b);
      var k: nat :| Grounded(s, s[i], k);
      PumpIsWalk(s, w, a, b, k);
      WalkIsShort(s, Pump(w, a, b, k), k);
      assert false;
    }
    if !Sound(s, s[i]) {
      var w := LongWalk(s, i, |s|);
      var a, b := Pigeons(w, |s|);
    }
  }

  /** Following the names from any copy of `vm` never leads round in a circle. */
  ghost predicate CycleFree(s: seq<Vm>, vm: Vm) {
    forall v :: 0 <= v < |s| && s[v] == vm ==> !ReachesCycle(s, v)
  }

  /** A VM whose chain never reaches a cycle follows everything it names; without cycles that is every VM. */
  lemma {:induction false} RestartFollowsDependencies(s: seq<Vm>, i: nat, j: nat)
    requires i < |s| && j < |s| && WaitsFor(Order(s)[i], Order(s)[j])
    ensures CycleFree(s, Order(s)[i]) ==> j < i
    ensures (forall v :: 0 <= v < |s| ==> !ReachesCycle(s, v)) ==> j < i
  {
    if CycleFree(s, Order(s)[i]) {
      var v := Occurs(s, i);
      SoundIffNoCycle(s, v);
      SoundChainsAreRespected(s, i, j);
    }
  }

  // ---- forced picks ------------------------------------------------------

  /** What is still pending after `k` picks. */
  function Left(s: seq<Vm>, k: nat): (p: seq<Vm>)
    requires k <= |s|
    ensures |p| == |s| - k
    decreases k
  {
    if k == 0 then s else Left(Without(s, Pick(s)), k - 1)
  }

  lemma {:induction false} LeftIsWithin(s: seq<Vm>, k: nat)
    requires k <= |s|
    ensures Within(Left(s, k), s)
    decreases k
  {
    if k > 0 {
      var rest := Without(s, Pick(s));
      LeftIsWithin(rest, k - 1);
      WithoutWithin(s, Pick(s));
      forall j | 0 <= j < |Left(s, k)|
        ensures Left(s, k)[j] in s
      {
        var i :| 0 <= i < |rest| && rest[i] == Left(rest, k - 1)[j];
        assert rest[i] in s;
      }
    }
  }

  /** The picks from `k` on are the order of what is left. */
  lemma {:induction false} LeftIsOrdered(s: seq<Vm>, k: nat)
    requires k <= |s|
    ensures Order(s)[k..] == Order(Left(s, k))
    decreases k
  {
    if k > 0 {
      var first, rest := [s[Pick(s)]], Without(s, Pick(s));
      LeftIsOrdered(rest, k - 1);
      assert Order(s) == first + Order(rest);
      assert (first + Order(rest))[k..] == Order(rest)[k - 1..];
    }
  }

  /** A pick is forced only when no VM with a sound chain is left. */
  lemma {:induction false} ForcedOnlyAmongCycles(s: seq<Vm>, k: nat, j: nat)
    requires k < |s| && Best(Left(s, k), |s| - k).None?
    requires j < |s| - k
    ensures Order(s)[k] == Left(s, k)[0]
    ensures forall v :: 0 <= v < |s| && s[v] == Left(s, k)[j] ==> ReachesCycle(s, v)
  {
    var p := Left(s, k);
    LeftIsOrdered(s, k);
    assert Order(s)[k] == Order(s)[k..][0];
    if Sound(s, p[j]) {
      LeftIsWithin(s, k);
      SoundWithin(p, s, p[j]);
      var d: nat :| Grounded(p, p[j], d);
      SomeoneIsReady(p, j, d);
      assert false;
    }
    forall v | 0 <= v < |s| && s[v] == p[j]
      ensures ReachesCycle(s, v)
    {
      SoundIffNoCycle(s, v);
    }
  }

  // ---- priority ----------------------------------------------------------

  /** A VM that could have gone at step `i` (it names nobody still pending) never outranks the one that did. */
  lemma {:induction false} ReadyVmsGoByPriority(s: seq<Vm>, i: nat, j: nat)
    requires i <= j < |s|
    requires forall m :: i <= m < |s| ==> !Names(Order(s)[j], Order(s)[m])
    ensures !Before(Order(s)[j], Order(s)[i])
    decreases |s|
  {
    var pick := Pick(s);
    var rest := Without(s, pick);
    if i == 0 {
      FirstIsBest(s, j);
    } else {
      var first := s[pick];
      assert Order(s) == [first] + Order(rest);
      NamesNobodyLater(first, Order(rest), i, j);
      ReadyVmsGoByPriority(rest, i - 1, j - 1);
    }
  }

  lemma NamesNobodyLater(first: Vm, rest: seq<Vm>, i: nat, j: nat)
    requires 0 < i <= j <= |rest|
    requires var all := [first] + rest; forall m :: i <= m < |all| ==> !Names(all[j], all[m])
    ensures forall m :: i - 1 <= m < |rest| ==> !Names(rest[j - 1], rest[m])
  {
    forall m | i - 1 <= m < |rest|
      ensures !Names(rest[j - 1], rest[m])
    {
      assert ([first] + rest)[m + 1] == rest[m];
    }
  }

  lemma FirstIsBest(s: seq<Vm>, j: nat)
    requires j < |s| && forall m :: 0 <= m < |s| ==> !Names(Order(s)[j], Order(s)[m])
    ensures !Before(Order(s)[j], Order(s)[0])
  {
    var at := Occurs(s, j);
    forall m | 0 <= m < |s|
      ensures !Names(s[at], s[m])
    {
      OrderIsPermutation(s);
      assert s[m] in multiset(s);
      var x := Shares(s, Order(s), s[m]);
    }
    assert IsReady(s, s[at]);
    PickIsBest(s, at);
  }

  /** Without dependencies the order is the sort by priority, memory and id. */
  lemma {:induction false} NoDependenciesMeansSorted(s: seq<Vm>, i: nat, j: nat)
    requires forall a, b :: 0 <= a < |s| && 0 <= b < |s| ==> !Names(s[a], s[b])
    requires i <= j < |s|
    ensures !Before(Order(s)[j], Order(s)[i])
  {
    forall m | i <= m < |s|
      ensures !Names(Order(s)[j], Order(s)[m])
    {
      var a := Occurs(s, j);
      var b := Occurs(s, m);
    }
    ReadyVmsGoByPriority(s, i, j);
  }

  // ---- the same by fields -------------------------------------------------

  /** Some guest marked high or medium would go behind one marked lower. */
  predicate Misplaced(first: Priority, second: Priority) {
    match first
    case High => false
    case Medium => second.High?
    case Low => !second.Low?
  }

  /**
   `first` may restart before `second`: no lower in priority, of equal priority no
   smaller in memory, and of equal memory with no greater id.
   */
  predicate Allowed(first: Vm, second: Vm) {
    && !Misplaced(first.priority, second.priority)
    && (first.priority == second.priority ==> first.memory >= second.memory)
    && (first.priority == second.priority && first.memory == second.memory ==> !Less(second.id, first.id))
  }

  lemma AllowedIff(first: Vm, second: Vm)
    ensures Allowed(first, second) <==> !Before(second, first)
  {
  }

  /** A guest that waits for nobody still pending restarts only behind guests allowed before it. */
  lemma {:induction false} ReadyVmsGoInOrder(s: seq<Vm>, i: nat, j: nat)
    requires i <= j < |s|
    requires forall m :: i <= m < |s| ==> !WaitsFor(Order(s)[j], Order(s)[m])
    ensures Allowed(Order(s)[i], Order(s)[j])
  {
    assert forall m :: i <= m < |s| ==> !Names(Order(s)[j], Order(s)[m]);
    ReadyVmsGoByPriority(s, i, j);
    AllowedIff(Order(s)[i], Order(s)[j]);
  }

  /** Without dependencies high priority goes first, then more memory, then the smaller id. */
  lemma {:induction false} IndependentVmsGoInOrder(s: seq<Vm>, i: nat, j: nat)
    requires forall a, b :: 0 <= a < |s| && 0 <= b < |s| ==> !WaitsFor(s[a], s[b])
    requires i <= j < |s|
    ensures Allowed(Order(s)[i], Order(s)[j])
  {
    assert forall a, b :: 0 <= a < |s| && 0 <= b < |s| ==> !Names(s[a], s[b]);
    NoDependenciesMeansSorted(s, i, j);
    AllowedIff(Order(s)[i], Order(s)[j]);
  }

  // ---- independence of the input order -----------------------------------

  predicate DistinctIds(s: seq<Vm>) {
    forall i, j :: 0 <= i < j < |s| ==> s[i].id != s[j].id
  }

  /** At most one VM's chain reaches a cycle. */
  ghost predicate AtMostOneUnsound(s: seq<Vm>) {
    forall i, j :: 0 <= i < |s| && 0 <= j < |s| && !Sound(s, s[i]) && !Sound(s, s[j]) ==> i == j
  }

  lemma SameMembers(p: seq<Vm>, q: seq<Vm>)
    requires multiset(p) == multiset(q)
    ensures Within(p, q) && Within(q, p)
  {
    forall j | 0 <= j < |p|
      ensures p[j] in q
    {
      assert p[j] in multiset(q);
    }
    forall j | 0 <= j < |q|
      ensures q[j] in p
    {
      assert q[j] in multiset(p);
    }
  }

  lemma ReadyInBoth(p: seq<Vm>, q: seq<Vm>, vm: Vm)
    requires Within(q, p) && IsReady(p, vm)
    ensures IsReady(q, vm)
  {
    forall j | 0 <= j < |q|
      ensures !Names(vm, q[j])
    {
      assert q[j] in p;
    }
  }

  lemma {:induction false} SamePick(p: seq<Vm>, q: seq<Vm>)
    requires multiset(p) == multiset(q) && DistinctIds(p) && p != [] && q != []
    requires Best(p, |p|).Some?
    ensures p[Pick(p)] == q[Pick(q)]
  {
    SameMembers(p, q);
    BestIsReady(p, |p|);
    var x := p[Pick(p)];
    assert x in q;
    var xq :| 0 <= xq < |q| && q[xq] == x;
    ReadyInBoth(p, q, x);
    PickIsBest(q, xq);
    var y := q[Pick(q)];
    assert y in p;
    var yp :| 0 <= yp < |p| && p[yp] == y;
    ReadyInBoth(q, p, y);
    PickIsBest(p, yp);
    BeforeIsStrict(x, y, x);
  }

  lemma {:induction false} SameOrderIfAtMostOneUnsound(p: seq<Vm>, q: seq<Vm>)
    requires multiset(p) == multiset(q) && DistinctIds(p) && AtMostOneUnsound(p)
    ensures Order(p) == Order(q)
    decreases |p|
  {
    assert |multiset(p)| == |p| && |multiset(q)| == |q|;
    if p != [] {
      if Best(p, |p|).None? {
        NobodySoundWhenStuck(p);
        assert |p| == 1;
        assert multiset(q)[p[0]] == 1 && q[0] in multiset(q);
      } else {
        SamePick(p, q);
        var i, j := Pick(p), Pick(q);
        WithoutBoth(p, i, q, j);
        FewerUnsound(p, i);
        SameOrderIfAtMostOneUnsound(Without(p, i), Without(q, j));
      }
    }
  }

  lemma {:induction false} NobodySoundWhenStuck(p: seq<Vm>)
    requires Best(p, |p|).None?
    ensures forall i :: 0 <= i < |p| ==> !Sound(p, p[i])
  {
    forall i | 0 <= i < |p|
      ensures !Sound(p, p[i])
    {
      if Sound(p, p[i]) {
        var k: nat :| Grounded(p, p[i], k);
        SomeoneIsReady(p, i, k);
        assert false;
      }
    }
  }

  lemma {:induction false} FewerUnsound(p: seq<Vm>, i: nat)
    requires i < |p| && DistinctIds(p) && AtMostOneUnsound(p)
    ensures DistinctIds(Without(p, i)) && AtMostOneUnsound(Without(p, i))
  {
    var rest := Without(p, i);
    WithoutWithin(p, i);
    forall a | 0 <= a < |rest|
      ensures var a' := if a < i then a else a + 1; rest[a] == p[a'] && (Sound(p, p[a']) ==> Sound(rest, rest[a]))
    {
      var a' := if a < i then a else a + 1;
      if Sound(p, p[a']) {
        SoundWithin(rest, p, p[a']);
      }
    }
  }

  ghost function CountSound(s: seq<Vm>, xs: seq<Vm>): (n: nat)
    ensures n <= |xs|
  {
    if xs == [] then 0 else (if Sound(s, xs[0]) then 1 else 0) + CountSound(s, xs[1..])
  }

  ghost function FirstUnsound(s: seq<Vm>, xs: seq<Vm>): (r: Option<Vm>) {
    if xs == [] then None else if Sound(s, xs[0]) then FirstUnsound(s, xs[1..]) else Some(xs[0])
  }

  lemma {:induction false} CountsWithout(s: seq<Vm>, xs: seq<Vm>, i: nat)
    requires i < |xs|
    ensures CountSound(s, xs) == CountSound(s, Without(xs, i)) + if Sound(s, xs[i]) then 1 else 0
    ensures Sound(s, xs[i]) ==> FirstUnsound(s, xs) == FirstUnsound(s, Without(xs, i))
  {
    if i == 0 {
      assert Without(xs, 0) == xs[1..];
    } else {
      CountsWithout(s, xs[1..], i - 1);
      assert Without(xs, i)[0] == xs[0] && Without(xs, i)[1..] == Without(xs[1..], i - 1);
    }
  }

  lemma {:induction false} SameSoundness(s: seq<Vm>, t: seq<Vm>, xs: seq<Vm>)
    requires forall i :: 0 <= i < |xs| ==> Sound(s, xs[i]) == Sound(t, xs[i])
    ensures CountSound(s, xs) == CountSound(t, xs) && FirstUnsound(s, xs) == FirstUnsound(t, xs)
  {
    if xs != [] {
      SameSoundness(s, t, xs[1..]);
    }
  }

  /** Restarting a ready VM neither mends nor breaks any other chain. */
  lemma {:induction false} SoundAfterReady(p: seq<Vm>, i: nat, vm: Vm)
    requires i < |p| && IsReady(p, p[i])
    ensures Sound(p, vm) <==> Sound(Without(p, i), vm)
  {
    WithoutWithin(p, i);
    if Sound(p, vm) {
      SoundWithin(Without(p, i), p, vm);
    } else if Sound(Without(p, i), vm) {
      var k: nat :| Grounded(Without(p, i), vm, k);
      GroundedAgain(p, i, vm, k);
      assert false;
    }
  }

  lemma {:induction false} GroundedAgain(p: seq<Vm>, i: nat, vm: Vm, k: nat)
    requires i < |p| && IsReady(p, p[i]) && Grounded(Without(p, i), vm, k)
    ensures Grounded(p, vm, k + 1)
    decreases k
  {
    var rest := Without(p, i);
    forall j | 0 <= j < |p| && Names(vm, p[j])
      ensures Grounded(p, p[j], k)
    {
      if j != i {
        assert rest[if j < i then j else j - 1] == p[j];
        GroundedAgain(p, i, p[j], k - 1);
      }
    }
  }

  /** The first forced pick is the first unsound VM of the input, after all sound ones. */
  lemma {:induction false} FirstForcedPick(p: seq<Vm>)
    requires FirstUnsound(p, p).Some?
    ensures CountSound(p, p) < |p| && Order(p)[CountSound(p, p)] == FirstUnsound(p, p).value
    decreases |p|
  {
    if Best(p, |p|).None? {
      NobodySoundWhenStuck(p);
      AllUnsound(p, p);
    } else {
      var i := Pick(p);
      BestIsReady(p, |p|);
      assert Grounded(p, p[i], 1);
      var rest := Without(p, i);
      CountsAfterReady(p, i, rest);
      FirstForcedPick(rest);
      assert Order(p) == [p[i]] + Order(rest);
    }
  }

  lemma {:induction false} CountsAfterReady(p: seq<Vm>, i: nat, rest: seq<Vm>)
    requires i < |p| && IsReady(p, p[i]) && Sound(p, p[i]) && rest == Without(p, i)
    ensures CountSound(p, p) == 1 + CountSound(rest, rest) && FirstUnsound(p, p) == FirstUnsound(rest, rest)
  {
    CountsWithout(p, p, i);
    forall j | 0 <= j < |rest|
      ensures Sound(p, rest[j]) == Sound(rest, rest[j])
    {
      SoundAfterReady(p, i, rest[j]);
    }
    SameSoundness(p, rest, rest);
  }

  lemma {:induction false} AllUnsound(s: seq<Vm>, xs: seq<Vm>)
    requires forall i :: 0 <= i < |xs| ==> !Sound(s, xs[i])
    ensures CountSound(s, xs) == 0
  {
    if xs != [] {
      AllUnsound(s, xs[1..]);
    }
  }

  lemma {:induction false} UnsoundIsFound(s: seq<Vm>, xs: seq<Vm>, i: nat)
    requires i < |xs| && !Sound(s, xs[i])
    ensures FirstUnsound(s, xs).Some?
  {
    if Sound(s, xs[0]) {
      UnsoundIsFound(s, xs[1..], i - 1);
    }
  }

  /** Moving an unsound VM to the front of the input changes the order, unless it was the first unsound one. */
  lemma {:induction false} MovingChangesTheOrder(s: seq<Vm>, m: nat)
    requires m < |s| && !Sound(s, s[m]) && FirstUnsound(s, s) != Some(s[m])
    ensures var t := [s[m]] + Without(s, m); multiset(t) == multiset(s) && Order(t) != Order(s)
  {
    var t := [s[m]] + Without(s, m);
    WithoutCounts(s, m);
    assert multiset(t) == multiset(s);
    SameMembers(s, t);
    forall j | 0 <= j < |t|
      ensures Sound(s, t[j]) == Sound(t, t[j])
    {
      if Sound(s, t[j]) {
        SoundWithin(t, s, t[j]);
      } else if Sound(t, t[j]) {
        SoundWithin(s, t, t[j]);
      }
    }
    SameSoundness(s, t, t);
    CountsWithout(s, s, m);
    CountsWithout(s, t, 0);
    assert Without(t, 0) == Without(s, m);
    assert t[0] == s[m];
    UnsoundIsFound(s, s, m);
    FirstForcedPick(s);
    FirstForcedPick(t);
  }

  lemma {:induction false} TwoUnsoundDepend(s: seq<Vm>) returns (t: seq<Vm>)
    requires DistinctIds(s) && !AtMostOneUnsound(s)
    ensures multiset(t) == multiset(s) && Order(t) != Order(s)
  {
    var i, j :| 0 <= i < |s| && 0 <= j < |s| && !Sound(s, s[i]) && !Sound(s, s[j]) && i != j;
    assert s[i].id != s[j].id;
    var m := if FirstUnsound(s, s) == Some(s[i]) then j else i;
    MovingChangesTheOrder(s, m);
    t := [s[m]] + Without(s, m);
  }

  /** The input may come in any order. */
  ghost predicate InputOrderIrrelevant(s: seq<Vm>) {
    forall t :: multiset(t) == multiset(s) ==> Order(t) == Order(s)
  }

  /**
   With distinct ids, the restart order does not depend on the order of the
   input exactly when at most one VM's chain reaches a cycle; in particular
   whenever there is no cycle.
   */
  lemma {:induction false} OrderIndependentIff(s: seq<Vm>)
    requires DistinctIds(s)
    ensures AtMostOneUnsound(s) <==> InputOrderIrrelevant(s)
  {
    if AtMostOneUnsound(s) {
      forall t | multiset(t) == multiset(s)
        ensures Order(t) == Order(s)
      {
        SameOrderIfAtMostOneUnsound(s, t);
      }
    } else {
      var t := TwoUnsoundDepend(s);
    }
  }
}
