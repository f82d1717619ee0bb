/** When a cluster survives every failure it tolerates, and how far the admission report says so. */
module AdmissionSurvival {
  import opened Prelude
  import opened Admission

  /** What losing each host costs: its reservation and the room it had. */
  function HostCosts(survives: seq<bool>, caps: seq<int>, used: seq<int>): (costs: seq<int>)
    requires |survives| == |caps| == |used|
    ensures |costs| == |used|
  {
    seq(|used|, h requires 0 <= h < |used| => used[h] + if survives[h] then Max(caps[h] - used[h], 0) else 0)
  }

  lemma {:induction false} CostIsSum(survives: seq<bool>, caps: seq<int>, used: seq<int>, lost: set<nat>, k: nat)
    requires k <= |survives| == |caps| == |used|
    ensures Cost(survives, caps, used, lost, k) == SumIn(HostCosts(survives, caps, used), lost, k)
  {
    if k > 0 {
      CostIsSum(survives, caps, used, lost, k - 1);
    }
  }

  function MemCosts(hosts: seq<Host>, guests: seq<Guest>): (costs: seq<int>)
    ensures |costs| == |hosts|
  {
    HostCosts(Survives(hosts), Mems(hosts), UsedMem(Loads(hosts, guests)))
  }

  function CpuCosts(hosts: seq<Host>, guests: seq<Guest>): (costs: seq<int>)
    ensures |costs| == |hosts|
  {
    HostCosts(Survives(hosts), Cpus(hosts), UsedCpu(Loads(hosts, guests)))
  }

  /** The costs as loads, so that `Sort` ranks groups by them. */
  function AsLoads(costs: seq<int>): (loads: seq<Load>)
    ensures |loads| == |costs|
  {
    seq(|costs|, h requires 0 <= h < |costs| => Load(0, costs[h]))
  }

  /** The `tolerate` groups of greatest cost. */
  function Costliest(hosts: seq<Host>, costs: seq<int>, tolerate: nat): (worst: seq<seq<nat>>) {
    var sorted := Sort(AsLoads(costs), Groups(hosts, |hosts|));
    sorted[..Min(tolerate, |sorted|)]
  }

  function CostliestHosts(hosts: seq<Host>, costs: seq<int>, tolerate: nat): (lost: set<nat>) {
    Members(Flatten(Costliest(hosts, costs, tolerate)))
  }

  /** At most `tolerate` of the groups, each at most once. */
  predicate Choice(hosts: seq<Host>, tolerate: nat, choice: seq<seq<nat>>) {
    multiset(choice) <= multiset(Groups(hosts, |hosts|)) && |choice| <= tolerate
  }

  /** Whichever `tolerate` groups fail, the survivors have the memory and the CPU for what ran on them. */
  ghost predicate SurvivesEvery(hosts: seq<Host>, guests: seq<Guest>, tolerate: nat) {
    forall choice :: Choice(hosts, tolerate, choice) ==> Survived(hosts, guests, Members(Flatten(choice)))
  }

  predicate Survived(hosts: seq<Host>, guests: seq<Guest>, lost: set<nat>) {
    MemHeadroom(hosts, guests, lost) >= 0 && CpuHeadroom(hosts, guests, lost) >= 0
  }

  // ---- the cost of a choice ----------------------------------------------

  lemma {:induction false} FlattenChoice(choice: seq<seq<nat>>, groups: seq<seq<nat>>)
    requires multiset(choice) <= multiset(groups)
    ensures multiset(Flatten(choice)) <= multiset(Flatten(groups))
    decreases |choice|
  {
    if choice != [] {
      assert choice == [choice[0]] + choice[1..];
      assert choice[0] in multiset(choice);
      assert choice[0] in multiset(groups);
      var j :| 0 <= j < |groups| && groups[j] == choice[0];
      WithoutCounts(groups, j);
      FlattenChoice(choice[1..], Without(groups, j));
      FlattenWithout(groups, j);
    }
  }

  /** The hosts of a choice are listed once each. */
  lemma ChoiceListedOnce(hosts: seq<Host>, tolerate: nat, choice: seq<seq<nat>>)
    requires Choice(hosts, tolerate, choice)
    ensures NoDuplicates(Flatten(choice)) && forall i :: 0 <= i < |Flatten(choice)| ==> Flatten(choice)[i] < |hosts|
  {
    var groups := Groups(hosts, |hosts|);
    FlattenChoice(choice, groups);
    forall x: nat
      ensures multiset(Flatten(groups))[x] <= if x < |hosts| then 1 else 0
    {
      FlatGroups(hosts, |hosts|, x);
    }
    OnceBelow(Flatten(choice), multiset(Flatten(groups)), |hosts|);
  }

  lemma {:induction false} GroupSum(costs: seq<int>, group: seq<nat>, rest: seq<nat>)
    requires forall i :: 0 <= i < |group + rest| ==> (group + rest)[i] < |costs|
    ensures forall i :: 0 <= i < |rest| ==> rest[i] < |costs|
    ensures SumAt(costs, group + rest) == GroupMem(AsLoads(costs), group) + SumAt(costs, rest)
  {
    forall i | 0 <= i < |rest|
      ensures rest[i] < |costs|
    {
      assert (group + rest)[|group| + i] == rest[i];
    }
    if group == [] {
      assert group + rest == rest;
    } else {
      assert (group + rest)[0] == group[0] && (group + rest)[1..] == group[1..] + rest;
      GroupSum(costs, group[1..], rest);
    }
  }

  lemma {:induction false} ChoiceSum(costs: seq<int>, choice: seq<seq<nat>>)
    requires forall i :: 0 <= i < |Flatten(choice)| ==> Flatten(choice)[i] < |costs|
    ensures SumAt(costs, Flatten(choice)) == MemOf(AsLoads(costs), choice)
  {
    if choice != [] {
      var flat := Flatten(choice);
      assert flat == choice[0] + Flatten(choice[1..]);
      assert forall i :: 0 <= i < |flat| ==> flat[i] < |costs|;
      GroupSum(costs, choice[0], Flatten(choice[1..]));
      ChoiceSum(costs, choice[1..]);
    }
  }

  /** Losing a choice costs the sum of what its groups cost. */
  lemma ChoiceCost(hosts: seq<Host>, costs: seq<int>, tolerate: nat, choice: seq<seq<nat>>)
    requires |costs| == |hosts| && Choice(hosts, tolerate, choice)
    ensures SumIn(costs, Members(Flatten(choice)), |hosts|) == MemOf(AsLoads(costs), choice)
  {
    ChoiceListedOnce(hosts, tolerate, choice);
    SumsMatch(costs, Flatten(choice));
    ChoiceSum(costs, choice);
  }

  lemma MemHeadroomOf(hosts: seq<Host>, guests: seq<Guest>, tolerate: nat, choice: seq<seq<nat>>)
    requires Choice(hosts, tolerate, choice)
    ensures MemHeadroom(hosts, guests, Members(Flatten(choice)))
         == MemHeadroom(hosts, guests, {}) - MemOf(AsLoads(MemCosts(hosts, guests)), choice)
  {
    var surv, caps, used, lost := Survives(hosts), Mems(hosts), UsedMem(Loads(hosts, guests)), Members(Flatten(choice));
    HeadroomIsRoomMinusCost(surv, caps, used, lost, |hosts|);
    CostIsSum(surv, caps, used, lost, |hosts|);
    ChoiceCost(hosts, MemCosts(hosts, guests), tolerate, choice);
  }

  lemma CpuHeadroomOf(hosts: seq<Host>, guests: seq<Guest>, tolerate: nat, choice: seq<seq<nat>>)
    requires Choice(hosts, tolerate, choice)
    ensures CpuHeadroom(hosts, guests, Members(Flatten(choice)))
         == CpuHeadroom(hosts, guests, {}) - MemOf(AsLoads(CpuCosts(hosts, guests)), choice)
  {
    var surv, caps, used, lost := Survives(hosts), Cpus(hosts), UsedCpu(Loads(hosts, guests)), Members(Flatten(choice));
    HeadroomIsRoomMinusCost(surv, caps, used, lost, |hosts|);
    CostIsSum(surv, caps, used, lost, |hosts|);
    ChoiceCost(hosts, CpuCosts(hosts, guests), tolerate, choice);
  }

  // ---- the costliest choice ----------------------------------------------

  lemma TakeCounts<T>(xs: seq<T>, n: nat)
    requires n <= |xs|
    ensures multiset(xs[..n]) <= multiset(xs)
  {
    assert xs == xs[..n] + xs[n..];
  }

  lemma PrefixIsChoice(hosts: seq<Host>, sorted: seq<seq<nat>>, tolerate: nat)
    requires multiset(sorted) == multiset(Groups(hosts, |hosts|))
    ensures Choice(hosts, tolerate, sorted[..Min(tolerate, |sorted|)])
  {
    TakeCounts(sorted, Min(tolerate, |sorted|));
  }

  predicate NonNegative(guests: seq<Guest>) {
    forall i :: 0 <= i < |guests| ==> guests[i].cpu >= 0 && guests[i].memory >= 0
  }

  lemma CostsNonNegative(hosts: seq<Host>, guests: seq<Guest>)
    requires NonNegative(guests)
    ensures forall h :: 0 <= h < |hosts| ==> MemCosts(hosts, guests)[h] >= 0 && CpuCosts(hosts, guests)[h] >= 0
  {
    forall h | 0 <= h < |hosts|
      ensures MemCosts(hosts, guests)[h] >= 0 && CpuCosts(hosts, guests)[h] >= 0
    {
      ReservedNonNegative(guests, h);
    }
  }

  /** Of a list sorted by cost, the first `tolerate` groups cost the most of any choice. */
  lemma FirstCostsMost(hosts: seq<Host>, costs: seq<int>, sorted: seq<seq<nat>>, tolerate: nat, choice: seq<seq<nat>>)
    requires forall h :: 0 <= h < |costs| ==> costs[h] >= 0
    requires multiset(sorted) == multiset(Groups(hosts, |hosts|)) && ByMemory(AsLoads(costs), sorted)
    requires Choice(hosts, tolerate, choice)
    ensures MemOf(AsLoads(costs), choice) <= MemOf(AsLoads(costs), sorted[..Min(tolerate, |sorted|)])
  {
    forall i | 0 <= i < |sorted|
      ensures GroupMem(AsLoads(costs), sorted[i]) >= 0
    {
      GroupMemNonNegative(AsLoads(costs), sorted[i]);
    }
    HeaviestFirst(AsLoads(costs), sorted, choice, tolerate);
  }

  lemma CostliestCostsMost(hosts: seq<Host>, costs: seq<int>, tolerate: nat, choice: seq<seq<nat>>)
    requires forall h :: 0 <= h < |costs| ==> costs[h] >= 0
    requires Choice(hosts, tolerate, choice)
    ensures Choice(hosts, tolerate, Costliest(hosts, costs, tolerate))
    ensures MemOf(AsLoads(costs), choice) <= MemOf(AsLoads(costs), Costliest(hosts, costs, tolerate))
  {
    var groups := Groups(hosts, |hosts|);
    var sorted := Sort(AsLoads(costs), groups);
    SortByMemory(AsLoads(costs), groups);
    PrefixIsChoice(hosts, sorted, tolerate);
    FirstCostsMost(hosts, costs, sorted, tolerate, choice);
  }

  /**
   A cluster survives every choice of at most `tolerate` groups exactly when it
   has the memory after losing the groups that cost the most memory and the CPU
   after losing those that cost the most CPU.
   */
  lemma {:induction false} SurvivesEveryIff(hosts: seq<Host>, guests: seq<Guest>, tolerate: nat)
    requires NonNegative(guests)
    ensures SurvivesEvery(hosts, guests, tolerate) <==>
            && MemHeadroom(hosts, guests, CostliestHosts(hosts, MemCosts(hosts, guests), tolerate)) >= 0
            && CpuHeadroom(hosts, guests, CostliestHosts(hosts, CpuCosts(hosts, guests), tolerate)) >= 0
  {
    CostsNonNegative(hosts, guests);
    var mem, cpu := Costliest(hosts, MemCosts(hosts, guests), tolerate), Costliest(hosts, CpuCosts(hosts, guests), tolerate);
    CostliestCostsMost(hosts, MemCosts(hosts, guests), tolerate, []);
    CostliestCostsMost(hosts, CpuCosts(hosts, guests), tolerate, []);
    if MemHeadroom(hosts, guests, Members(Flatten(mem))) >= 0 && CpuHeadroom(hosts, guests, Members(Flatten(cpu))) >= 0 {
      forall choice | Choice(hosts, tolerate, choice)
        ensures Survived(hosts, guests, Members(Flatten(choice)))
      {
        MemHeadroomOf(hosts, guests, tolerate, mem);
        MemHeadroomOf(hosts, guests, tolerate, choice);
        CostliestCostsMost(hosts, MemCosts(hosts, guests), tolerate, choice);
        CpuHeadroomOf(hosts, guests, tolerate, cpu);
        CpuHeadroomOf(hosts, guests, tolerate, choice);
        CostliestCostsMost(hosts, CpuCosts(hosts, guests), tolerate, choice);
      }
    }
  }

  // ---- what the report says about it -------------------------------------

  /** A cluster that survives every choice is reported as sufficient: the report errs on one side only. */
  lemma {:induction false} SurvivorsAreSufficient(hosts: seq<Host>, guests: seq<Guest>, tolerate: int)
    requires 0 < tolerate < CountSurvivors(hosts) && SurvivesEvery(hosts, guests, tolerate)
    ensures Admit(hosts, guests, tolerate).capacity == Sufficient
  {
    PrefixIsChoice(hosts, Sort(Loads(hosts, guests), Groups(hosts, |hosts|)), tolerate);
    assert Choice(hosts, tolerate, LostGroups(hosts, guests, tolerate));
  }

  /** A group that reserves at least as much memory as another costs at least as much of both resources. */
  predicate RankedByCost(hosts: seq<Host>, guests: seq<Guest>) {
    var groups, loads := Groups(hosts, |hosts|), Loads(hosts, guests);
    forall g, h :: 0 <= g < |groups| && 0 <= h < |groups| && GroupMem(loads, groups[g]) >= GroupMem(loads, groups[h]) ==>
      && GroupMem(AsLoads(MemCosts(hosts, guests)), groups[g]) >= GroupMem(AsLoads(MemCosts(hosts, guests)), groups[h])
      && GroupMem(AsLoads(CpuCosts(hosts, guests)), groups[g]) >= GroupMem(AsLoads(CpuCosts(hosts, guests)), groups[h])
  }

  lemma SortedByCost(hosts: seq<Host>, guests: seq<Guest>)
    requires RankedByCost(hosts, guests)
    ensures var sorted := Sort(Loads(hosts, guests), Groups(hosts, |hosts|));
            ByMemory(AsLoads(MemCosts(hosts, guests)), sorted) && ByMemory(AsLoads(CpuCosts(hosts, guests)), sorted)
  {
    var groups, loads := Groups(hosts, |hosts|), Loads(hosts, guests);
    var sorted := Sort(loads, groups);
    SortByMemory(loads, groups);
    forall i, j | 0 <= i < j < |sorted|
      ensures GroupMem(AsLoads(MemCosts(hosts, guests)), sorted[i]) >= GroupMem(AsLoads(MemCosts(hosts, guests)), sorted[j])
      ensures GroupMem(AsLoads(CpuCosts(hosts, guests)), sorted[i]) >= GroupMem(AsLoads(CpuCosts(hosts, guests)), sorted[j])
    {
      var g := Shares(sorted, groups, sorted[i]);
      var h := Shares(sorted, groups, sorted[j]);
      assert GroupMem(loads, groups[g]) >= GroupMem(loads, groups[h]);
    }
  }

  /** Where the ranking by reservation is also a ranking by cost, the verdict is exact. */
  lemma {:induction false} SufficientIsExact(hosts: seq<Host>, guests: seq<Guest>, tolerate: int)
    requires NonNegative(guests) && 0 < tolerate < CountSurvivors(hosts) && RankedByCost(hosts, guests)
    ensures Admit(hosts, guests, tolerate).capacity == Sufficient <==> SurvivesEvery(hosts, guests, tolerate)
  {
    if SurvivesEvery(hosts, guests, tolerate) {
      SurvivorsAreSufficient(hosts, guests, tolerate);
    }
    if Admit(hosts, guests, tolerate).capacity == Sufficient {
      var sorted, lost := Sort(Loads(hosts, guests), Groups(hosts, |hosts|)), LostGroups(hosts, guests, tolerate);
      PrefixIsChoice(hosts, sorted, tolerate);
      SortedByCost(hosts, guests);
      CostsNonNegative(hosts, guests);
      forall choice | Choice(hosts, tolerate, choice)
        ensures Survived(hosts, guests, Members(Flatten(choice)))
      {
        MemHeadroomOf(hosts, guests, tolerate, lost);
        MemHeadroomOf(hosts, guests, tolerate, choice);
        FirstCostsMost(hosts, MemCosts(hosts, guests), sorted, tolerate, choice);
        CpuHeadroomOf(hosts, guests, tolerate, lost);
        CpuHeadroomOf(hosts, guests, tolerate, choice);
        FirstCostsMost(hosts, CpuCosts(hosts, guests), sorted, tolerate, choice);
      }
    }
  }

  lemma SingleCost(costs: seq<int>, h: nat)
    requires h < |costs|
    ensures GroupMem(AsLoads(costs), [h]) == costs[h]
  {
    SingleMem(AsLoads(costs), h);
  }

  /** Hosts of one size that fail alone are ranked by cost. */
  lemma {:induction false} UniformIsRankedByCost(hosts: seq<Host>, guests: seq<Guest>, mem: int, cpu: int)
    requires Uniform(hosts, guests, mem, cpu)
    ensures RankedByCost(hosts, guests)
  {
    AloneInGroups(hosts, |hosts|);
    forall h | 0 <= h < |hosts|
      ensures GroupMem(AsLoads(MemCosts(hosts, guests)), Groups(hosts, |hosts|)[h]) == mem
      ensures GroupMem(AsLoads(CpuCosts(hosts, guests)), Groups(hosts, |hosts|)[h]) == cpu
    {
      SingleCost(MemCosts(hosts, guests), h);
      SingleCost(CpuCosts(hosts, guests), h);
    }
  }

  // ---- a shortage of CPU the report does not see --------------------------

  /** The first host reserves the most memory, the second all the CPU. */
  function SkewedHosts(): (hosts: seq<Host>) {
    [Host(5, 10, true, true, None), Host(10, 10, true, true, None), Host(0, 10, true, true, None)]
  }

  function SkewedGuests(): (guests: seq<Guest>) {
    [Guest(0, 0, 5, true), Guest(1, 10, 4, true)]
  }

  lemma {:induction false} SkewedLoads()
    ensures Loads(SkewedHosts(), SkewedGuests()) == [Load(0, 5), Load(10, 4), Load(0, 0)]
  {
    var g := SkewedGuests();
    assert g[..1] == [g[0]] && g[..1][..0] == [];
    forall h | 0 <= h < 3
      ensures Reserved(g, h) == [Load(0, 5), Load(10, 4), Load(0, 0)][h]
    {
      assert Reserved(g[..1], h) == if h == 0 then Load(0, 5) else Load(0, 0);
    }
  }

  lemma {:induction false} SkewedLosesTheFirst()
    ensures LostHosts(SkewedHosts(), SkewedGuests(), 1) == {0}
  {
    SkewedLoads();
    var loads := Loads(SkewedHosts(), SkewedGuests());
    assert forall i :: 0 <= i < 3 ==> loads[i] == Reserved(SkewedGuests(), i);
    LosesTheFullest(SkewedHosts(), SkewedGuests(), 0);
  }

  lemma {:induction false} SkewedMemory()
    ensures MemHeadroom(SkewedHosts(), SkewedGuests(), {0}) == 11
    ensures MemHeadroom(SkewedHosts(), SkewedGuests(), {1}) == 11
    ensures CountSurvivors(SkewedHosts()) == 3
  {
    SkewedLoads();
    var hosts := SkewedHosts();
    var surv, caps, used := Survives(hosts), Mems(hosts), UsedMem([Load(0, 5), Load(10, 4), Load(0, 0)]);
    assert surv == [true, true, true] && caps == [10, 10, 10] && used == [5, 4, 0];
    assert Headroom(surv, caps, used, {0}, 1) == -5 && Headroom(surv, caps, used, {0}, 2) == 1;
    assert Headroom(surv, caps, used, {1}, 1) == 5 && Headroom(surv, caps, used, {1}, 2) == 1;
    assert hosts[..2][..1] == [hosts[0]] && hosts[..2][..1][..0] == [];
    assert CountSurvivors(hosts[..2][..1]) == 1 && CountSurvivors(hosts[..2]) == 2;
  }

  lemma {:induction false} SkewedCpu()
    ensures CpuHeadroom(SkewedHosts(), SkewedGuests(), {0}) == 0
    ensures CpuHeadroom(SkewedHosts(), SkewedGuests(), {1}) == -5
  {
    SkewedLoads();
    var hosts := SkewedHosts();
    var surv, caps, used := Survives(hosts), Cpus(hosts), UsedCpu([Load(0, 5), Load(10, 4), Load(0, 0)]);
    assert surv == [true, true, true] && caps == [5, 10, 0] && used == [0, 10, 0];
    assert Headroom(surv, caps, used, {0}, 1) == 0 && Headroom(surv, caps, used, {0}, 2) == 0;
    assert Headroom(surv, caps, used, {1}, 1) == 5 && Headroom(surv, caps, used, {1}, 2) == -5;
  }

  /** Where every host fails alone, one host is a choice. */
  lemma LoneChoice(hosts: seq<Host>, h: nat)
    requires h < |hosts| && forall i :: 0 <= i < |hosts| ==> hosts[i].survivor && hosts[i].domain.None?
    ensures Choice(hosts, 1, [[h]]) && Members(Flatten([[h]])) == {h}
  {
    AloneInGroups(hosts, |hosts|);
    assert Groups(hosts, |hosts|)[h] == [h];
    assert [h] in multiset(Groups(hosts, |hosts|));
    assert [[h]][1..] == [] && Flatten([[h]]) == [h] + Flatten([]) == [h];
  }

  /** Ranking by memory alone misses the host that holds the CPU: sufficient, and either host may be lost for memory, but not for CPU. */
  lemma {:induction false} SufficientCanMissTheCpu()
    ensures Admit(SkewedHosts(), SkewedGuests(), 1).capacity == Sufficient
    ensures MemHeadroom(SkewedHosts(), SkewedGuests(), {1}) >= Admit(SkewedHosts(), SkewedGuests(), 1).memory
    ensures CpuHeadroom(SkewedHosts(), SkewedGuests(), {1}) == -5
    ensures !SurvivesEvery(SkewedHosts(), SkewedGuests(), 1)
  {
    SkewedLosesTheFirst();
    SkewedMemory();
    SkewedCpu();
    LoneChoice(SkewedHosts(), 1);
    assert !Survived(SkewedHosts(), SkewedGuests(), Members(Flatten([[1]])));
  }
}
