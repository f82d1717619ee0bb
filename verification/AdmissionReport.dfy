/** The admission report in terms of the hosts' and guests' own fields. */
module AdmissionReport {
  import opened Prelude
  import opened Admission

  // ---- reservations ------------------------------------------------------

  /** Every guest counts once, on its own host, and only if it is protected, wherever it stands in the list. */
  lemma {:induction false} GuestCountsOnce(before: seq<Guest>, guest: Guest, after: seq<Guest>, h: nat)
    ensures var load, rest := Reserved(before + [guest] + after, h), Reserved(before + after, h);
            if guest.isProtected && guest.host == h
            then load.cpu == rest.cpu + guest.cpu && load.memory == rest.memory + guest.memory
            else load == rest
    ensures Reserved([], h) == Load(0, 0)
    decreases |after|
  {
    var all := before + [guest] + after;
    if after == [] {
      assert all[..|all| - 1] == before && before + after == before;
    } else {
      var init, last := after[..|after| - 1], after[|after| - 1];
      GuestCountsOnce(before, guest, init, h);
      assert all[..|all| - 1] == before + [guest] + init && all[|all| - 1] == last;
      assert (before + after)[..|before + after| - 1] == before + init;
    }
  }

  // ---- survivors ---------------------------------------------------------

  function Survivors(hosts: seq<Host>): (r: set<nat>) {
    set i | 0 <= i < |hosts| && hosts[i].survivor
  }

  lemma {:induction false} SurvivorsAreCounted(hosts: seq<Host>)
    ensures CountSurvivors(hosts) == |Survivors(hosts)|
  {
    if hosts == [] {
      assert Survivors(hosts) == {};
    } else {
      var init := hosts[..|hosts| - 1];
      SurvivorsAreCounted(init);
      var last := |hosts| - 1;
      assert Survivors(hosts) == if hosts[last].survivor then Survivors(init) + {last} else Survivors(init);
    }
  }

  // ---- groups ------------------------------------------------------------

  /** The hosts that can fail or survive are grouped, and two of them share a group exactly when they name the same failure domain. */
  lemma {:induction false} GroupsAre(hosts: seq<Host>, i: nat, j: nat)
    requires i < |hosts| && j < |hosts|
    ensures var groups := Groups(hosts, |hosts|);
            && (Grouped(groups, i) <==> hosts[i].canFail || hosts[i].survivor)
            && forall g: nat, h: nat :: InGroup(groups, g, i) && InGroup(groups, h, j) ==>
                 (g == h <==> i == j || (hosts[i].domain.Some? && hosts[j].domain.Some? && hosts[i].domain.value == hosts[j].domain.value))
  {
    GroupsPartition(hosts, |hosts|);
  }

  // ---- which groups are lost ---------------------------------------------

  /** Every group weighs the sum of what its hosts reserve. */
  lemma {:induction false} GroupWeighs(loads: seq<Load>, group: seq<nat>)
    requires forall i :: 0 <= i < |group| ==> group[i] < |loads|
    ensures GroupMem(loads, group) == SumAt(UsedMem(loads), group) && GroupCpu(loads, group) == SumAt(UsedCpu(loads), group)
  {
    if group != [] {
      GroupWeighs(loads, group[1..]);
    }
  }

  predicate ByRank(loads: seq<Load>, sorted: seq<seq<nat>>) {
    forall i, j :: 0 <= i < j < |sorted| ==> Ranked(loads, sorted[i], sorted[j])
  }

  predicate NoneEmpty(groups: seq<seq<nat>>) {
    forall g :: 0 <= g < |groups| ==> groups[g] != []
  }

  lemma RankedIsTotal(loads: seq<Load>, a: seq<nat>, b: seq<nat>, c: seq<nat>)
    requires a != [] && b != [] && c != []
    ensures Ranked(loads, a, b) || Ranked(loads, b, a)
    ensures Ranked(loads, a, b) && Ranked(loads, b, c) ==> Ranked(loads, a, c)
  {
  }

  lemma {:induction false} InsertByRank(loads: seq<Load>, group: seq<nat>, sorted: seq<seq<nat>>)
    requires group != [] && NoneEmpty(sorted) && ByRank(loads, sorted)
    ensures ByRank(loads, Insert(loads, group, sorted)) && NoneEmpty(Insert(loads, group, sorted))
  {
    var r := Insert(loads, group, sorted);
    if sorted != [] {
      if Ranked(loads, group, sorted[0]) {
        forall j | 0 <= j < |sorted|
          ensures Ranked(loads, group, sorted[j])
        {
          RankedIsTotal(loads, group, sorted[0], sorted[j]);
        }
      } else {
        var tail := Insert(loads, group, sorted[1..]);
        InsertByRank(loads, group, sorted[1..]);
        RankedIsTotal(loads, group, sorted[0], group);
        forall j | 0 <= j < |tail|
          ensures Ranked(loads, sorted[0], tail[j])
        {
          assert tail[j] in multiset(tail);
          assert tail[j] == group || tail[j] in sorted[1..];
        }
      }
    }
  }

  lemma {:induction false} SortByRank(loads: seq<Load>, groups: seq<seq<nat>>)
    requires NoneEmpty(groups)
    ensures ByRank(loads, Sort(loads, groups)) && NoneEmpty(Sort(loads, groups))
  {
    if groups != [] {
      SortByRank(loads, groups[1..]);
      InsertByRank(loads, groups[0], Sort(loads, groups[1..]));
    }
  }

  /** More reserved memory, of equal memory more reserved CPU, of equal CPU the lower first host. */
  predicate GoesFirst(mem: seq<int>, cpu: seq<int>, a: seq<nat>, b: seq<nat>)
    requires |mem| == |cpu| && a != [] && b != []
    requires (forall i :: 0 <= i < |a| ==> a[i] < |mem|) && forall i :: 0 <= i < |b| ==> b[i] < |mem|
  {
    || SumAt(mem, a) > SumAt(mem, b)
    || (SumAt(mem, a) == SumAt(mem, b)
        && (SumAt(cpu, a) > SumAt(cpu, b) || (SumAt(cpu, a) == SumAt(cpu, b) && a[0] < b[0])))
  }

  lemma GroupBounds(hosts: seq<Host>, group: seq<nat>)
    requires group in Groups(hosts, |hosts|)
    ensures group != [] && forall i :: 0 <= i < |group| ==> group[i] < |hosts|
  {
    var groups := Groups(hosts, |hosts|);
    GroupsPartition(hosts, |hosts|);
    var g :| 0 <= g < |groups| && groups[g] == group;
    forall i | 0 <= i < |group|
      ensures group[i] < |hosts|
    {
      assert InGroup(groups, g, group[i]);
    }
  }

  /** Different groups start with different hosts. */
  lemma FirstHostsDiffer(hosts: seq<Host>, a: seq<nat>, b: seq<nat>)
    requires a in Groups(hosts, |hosts|) && b in Groups(hosts, |hosts|) && a != b
    ensures a != [] && b != [] && a[0] != b[0]
  {
    var groups := Groups(hosts, |hosts|);
    GroupsPartition(hosts, |hosts|);
    var g :| 0 <= g < |groups| && groups[g] == a;
    var h :| 0 <= h < |groups| && groups[h] == b;
    assert InGroup(groups, g, a[0]) && InGroup(groups, h, b[0]);
  }

  /** Exactly `tolerate` groups are lost, if there are that many, and each of them goes before every group that is kept. */
  lemma {:induction false} LostGoFirst(hosts: seq<Host>, guests: seq<Guest>, tolerate: nat, lost: seq<nat>, kept: seq<nat>)
    requires lost in LostGroups(hosts, guests, tolerate)
    requires kept in Groups(hosts, |hosts|) && kept !in LostGroups(hosts, guests, tolerate)
    ensures |LostGroups(hosts, guests, tolerate)| == tolerate < |Groups(hosts, |hosts|)|
    ensures lost in Groups(hosts, |hosts|) && lost != [] && kept != []
    ensures (forall i :: 0 <= i < |lost| ==> lost[i] < |hosts|) && forall i :: 0 <= i < |kept| ==> kept[i] < |hosts|
    ensures GoesFirst(UsedMem(Loads(hosts, guests)), UsedCpu(Loads(hosts, guests)), lost, kept)
  {
    var groups, loads := Groups(hosts, |hosts|), Loads(hosts, guests);
    var sorted := Sort(loads, groups);
    GroupsPartition(hosts, |hosts|);
    SortByRank(loads, groups);
    assert |multiset(sorted)| == |sorted| && |multiset(groups)| == |groups|;
    var i :| 0 <= i < |LostGroups(hosts, guests, tolerate)| && sorted[i] == lost;
    assert sorted[i] in multiset(sorted);
    assert kept in multiset(sorted);
    var j :| 0 <= j < |sorted| && sorted[j] == kept;
    assert forall k :: 0 <= k < Min(tolerate, |sorted|) ==> LostGroups(hosts, guests, tolerate)[k] == sorted[k];
    GroupBounds(hosts, lost);
    GroupBounds(hosts, kept);
    FirstHostsDiffer(hosts, lost, kept);
    GroupWeighs(loads, lost);
    GroupWeighs(loads, kept);
    assert Ranked(loads, lost, kept);
  }

  // ---- the verdict -------------------------------------------------------

  /** The verdict and the figures of the report, each exactly when. */
  lemma {:induction false} ReportIs(hosts: seq<Host>, guests: seq<Guest>, tolerate: int)
    ensures var r, alive := Admit(hosts, guests, tolerate), |Survivors(hosts)|;
            && (r.capacity == Disabled <==> tolerate <= 0)
            && (r.capacity == NotApplicable <==> 0 < tolerate && alive <= tolerate)
            && (0 < tolerate < alive ==>
                  var lost := LostHosts(hosts, guests, tolerate);
                  && r.memory == MemHeadroom(hosts, guests, lost) && r.cpu == CpuHeadroom(hosts, guests, lost)
                  && (r.capacity == Sufficient <==> r.memory >= 0 && r.cpu >= 0)
                  && (r.capacity == Insufficient <==> r.memory < 0 || r.cpu < 0))
            && r.tolerated == (if r.capacity == Sufficient then tolerate else 0)
            && (r.capacity == Disabled || r.capacity == NotApplicable ==> r.memory == 0 && r.cpu == 0)
  {
    SurvivorsAreCounted(hosts);
  }
}
