/** Failure-domain admission control (crates/controller/src/ha.rs, `admission`). */
module Admission {
  import opened Prelude

  /** `domain` is the trimmed failure domain; hosts without one fail alone. */
  datatype Host = Host(cpu: int, memory: int, survivor: bool, canFail: bool, domain: Option<string>)

  datatype Guest = Guest(host: nat, cpu: int, memory: int, isProtected: bool)

  datatype Capacity = Disabled | NotApplicable | Sufficient | Insufficient

  datatype Report = Report(capacity: Capacity, tolerated: int, memory: int, cpu: int)

  datatype Load = Load(cpu: int, memory: int)

  // ---- reservations ------------------------------------------------------

  /** What the protected guests of host `h` reserve. */
  function Reserved(guests: seq<Guest>, h: nat): (load: Load) {
    if guests == [] then Load(0, 0)
    else
      var rest, last := Reserved(guests[..|guests| - 1], h), guests[|guests| - 1];
      if last.isProtected && last.host == h then Load(rest.cpu + last.cpu, rest.memory + last.memory) else rest
  }

  function Loads(hosts: seq<Host>, guests: seq<Guest>): (loads: seq<Load>)
    ensures |loads| == |hosts|
  {
    seq(|hosts|, h requires 0 <= h < |hosts| => Reserved(guests, h))
  }

  method Reserve(hosts: seq<Host>, guests: seq<Guest>) returns (loads: seq<Load>)
    ensures loads == Loads(hosts, guests)
  {
    loads := seq(|hosts|, _ => Load(0, 0));
    for i := 0 to |guests|
      invariant |loads| == |hosts|
      invariant forall h :: 0 <= h < |hosts| ==> loads[h] == Reserved(guests[..i], h)
    {
      var guest := guests[i];
      assert guests[..i + 1][..i] == guests[..i] && guests[..i + 1][i] == guest;
      if guest.isProtected && guest.host < |loads| {
        var slot := loads[guest.host];
        loads := loads[guest.host := Load(slot.cpu + guest.cpu, slot.memory + guest.memory)];
      }
    }
    assert guests[..|guests|] == guests;
  }

  // ---- groups ------------------------------------------------------------

  predicate Eligible(h: Host) {
    h.canFail || h.survivor
  }

  predicate SameDomain(a: Host, b: Host) {
    a.domain.Some? && a.domain == b.domain
  }

  /** The first group whose first host shares the domain of host `i`. */
  function FindGroup(hosts: seq<Host>, groups: seq<seq<nat>>, i: nat): (g: nat)
    requires i < |hosts|
    ensures g <= |groups|
    ensures g < |groups| ==> groups[g] != [] && groups[g][0] < |hosts| && SameDomain(hosts[groups[g][0]], hosts[i])
    ensures forall j :: 0 <= j < g && groups[j] != [] && groups[j][0] < |hosts| ==> !SameDomain(hosts[groups[j][0]], hosts[i])
  {
    if groups == [] then 0
    else if groups[0] != [] && groups[0][0] < |hosts| && SameDomain(hosts[groups[0][0]], hosts[i]) then 0
    else 1 + FindGroup(hosts, groups[1..], i)
  }

  function AddHost(hosts: seq<Host>, groups: seq<seq<nat>>, i: nat): (groups': seq<seq<nat>>)
    requires i < |hosts|
  {
    if !Eligible(hosts[i]) then groups
    else
      var g := FindGroup(hosts, groups, i);
      if g < |groups| then groups[g := groups[g] + [i]] else groups + [[i]]
  }

  /** The hosts before `k` that can fail, by failure domain. */
  function Groups(hosts: seq<Host>, k: nat): (groups: seq<seq<nat>>)
    requires k <= |hosts|
  {
    if k == 0 then [] else AddHost(hosts, Groups(hosts, k - 1), k - 1)
  }

  predicate InGroup(groups: seq<seq<nat>>, g: nat, i: nat) {
    g < |groups| && i in groups[g]
  }

  predicate Ascending(xs: seq<nat>) {
    forall m, n :: 0 <= m < n < |xs| ==> xs[m] < xs[n]
  }

  ghost predicate Grouped(groups: seq<seq<nat>>, i: nat) {
    exists g: nat :: InGroup(groups, g, i)
  }

  /** Hosts of one group share a domain (or are one host); hosts of different groups do not. */
  predicate Together(hosts: seq<Host>, i: nat, j: nat)
    requires i < |hosts| && j < |hosts|
  {
    i == j || SameDomain(hosts[i], hosts[j])
  }

  /** The groups hold exactly the eligible hosts before `k`, each once, and two of them share a group exactly when they fail together. */
  ghost predicate Partition(hosts: seq<Host>, k: nat, groups: seq<seq<nat>>)
    requires k <= |hosts|
  {
    && (forall g :: 0 <= g < |groups| ==> groups[g] != [] && Ascending(groups[g]))
    && (forall g: nat, i: nat :: InGroup(groups, g, i) ==> i < k && Eligible(hosts[i]))
    && (forall i :: 0 <= i < k && Eligible(hosts[i]) ==> Grouped(groups, i))
    && (forall g: nat, h: nat, i: nat, j: nat :: InGroup(groups, g, i) && InGroup(groups, h, j) ==> (g == h <==> Together(hosts, i, j)))
  }

  lemma {:induction false} GroupsPartition(hosts: seq<Host>, k: nat)
    requires k <= |hosts|
    ensures Partition(hosts, k, Groups(hosts, k))
  {
    if k > 0 {
      GroupsPartition(hosts, k - 1);
      PartitionStep(hosts, k - 1, Groups(hosts, k - 1), Groups(hosts, k));
    }
  }

  lemma PartitionStep(hosts: seq<Host>, k: nat, groups: seq<seq<nat>>, groups': seq<seq<nat>>)
    requires k < |hosts| && Partition(hosts, k, groups) && groups' == AddHost(hosts, groups, k)
    ensures Partition(hosts, k + 1, groups')
  {
    AddKeepsPartition(hosts, k, groups);
  }

  /** Where adding host `k` puts it. */
  lemma {:induction false} AddedTo(hosts: seq<Host>, groups: seq<seq<nat>>, k: nat)
    requires k < |hosts| && Eligible(hosts[k])
    ensures var groups', at := AddHost(hosts, groups, k), FindGroup(hosts, groups, k);
            forall g: nat, i: nat :: InGroup(groups', g, i) <==> InGroup(groups, g, i) || (g == at && i == k)
  {
  }

  /** Host `k` fails together with exactly the hosts of the group it is put in. */
  lemma {:induction false} JoinsItsDomain(hosts: seq<Host>, k: nat, groups: seq<seq<nat>>, h: nat, j: nat)
    requires k < |hosts| && Partition(hosts, k, groups) && InGroup(groups, h, j)
    ensures h == FindGroup(hosts, groups, k) <==> Together(hosts, k, j)
  {
    var g := FindGroup(hosts, groups, k);
    var first := groups[h][0];
    assert InGroup(groups, h, first);
    assert Together(hosts, first, j);
    if g < |groups| {
      assert InGroup(groups, g, groups[g][0]);
    }
  }

  lemma {:induction false} AddKeepsPartition(hosts: seq<Host>, k: nat, groups: seq<seq<nat>>)
    requires k < |hosts| && Partition(hosts, k, groups)
    ensures Partition(hosts, k + 1, AddHost(hosts, groups, k))
  {
    var groups' := AddHost(hosts, groups, k);
    if Eligible(hosts[k]) {
      var at := FindGroup(hosts, groups, k);
      AddedTo(hosts, groups, k);
      forall g | 0 <= g < |groups'|
        ensures groups'[g] != [] && Ascending(groups'[g])
      {
        if g == at && at < |groups| {
          forall m | 0 <= m < |groups[g]|
            ensures groups[g][m] < k
          {
            assert InGroup(groups, g, groups[g][m]);
          }
        }
      }
      forall i | 0 <= i < k + 1 && Eligible(hosts[i])
        ensures Grouped(groups', i)
      {
        if i == k {
          assert InGroup(groups', at, i);
        } else {
          var g: nat :| InGroup(groups, g, i);
          assert InGroup(groups', g, i);
        }
      }
      forall g: nat, h: nat, i: nat, j: nat | InGroup(groups', g, i) && InGroup(groups', h, j)
        ensures g == h <==> Together(hosts, i, j)
      {
        if i == k && j != k {
          JoinsItsDomain(hosts, k, groups, h, j);
        } else if i != k && j == k {
          JoinsItsDomain(hosts, k, groups, g, i);
        }
      }
    }
  }

  // ---- ranking -----------------------------------------------------------

  function GroupMem(loads: seq<Load>, group: seq<nat>): (mem: int) {
    if group == [] then 0 else (if group[0] < |loads| then loads[group[0]].memory else 0) + GroupMem(loads, group[1..])
  }

  function GroupCpu(loads: seq<Load>, group: seq<nat>): (cpu: int) {
    if group == [] then 0 else (if group[0] < |loads| then loads[group[0]].cpu else 0) + GroupCpu(loads, group[1..])
  }

  /** Most reserved memory first, then most reserved CPU, then the lowest first host. */
  predicate Ranked(loads: seq<Load>, a: seq<nat>, b: seq<nat>) {
    var ma, mb, ca, cb := GroupMem(loads, a), GroupMem(loads, b), GroupCpu(loads, a), GroupCpu(loads, b);
    ma > mb || (ma == mb && (ca > cb || (ca == cb && (a != [] && b != [] ==> a[0] <= b[0]))))
  }

  function Insert(loads: seq<Load>, group: seq<nat>, sorted: seq<seq<nat>>): (r: seq<seq<nat>>)
    ensures multiset(r) == multiset(sorted) + multiset{group}
  {
    if sorted == [] || Ranked(loads, group, sorted[0]) then
      assert [group] + sorted == [group] + sorted;
      [group] + sorted
    else
      assert sorted == [sorted[0]] + sorted[1..];
      [sorted[0]] + Insert(loads, group, sorted[1..])
  }

  function Sort(loads: seq<Load>, groups: seq<seq<nat>>): (sorted: seq<seq<nat>>)
    ensures multiset(sorted) == multiset(groups)
  {
    if groups == [] then []
    else
      assert groups == [groups[0]] + groups[1..];
      Insert(loads, groups[0], Sort(loads, groups[1..]))
  }

  predicate ByMemory(loads: seq<Load>, sorted: seq<seq<nat>>) {
    forall i, j :: 0 <= i < j < |sorted| ==> GroupMem(loads, sorted[i]) >= GroupMem(loads, sorted[j])
  }

  lemma {:induction false} InsertByMemory(loads: seq<Load>, group: seq<nat>, sorted: seq<seq<nat>>)
    requires ByMemory(loads, sorted)
    ensures ByMemory(loads, Insert(loads, group, sorted))
    ensures var r := Insert(loads, group, sorted);
            GroupMem(loads, r[0]) == if sorted == [] then GroupMem(loads, group) else Max(GroupMem(loads, group), GroupMem(loads, sorted[0]))
  {
    if sorted != [] && !Ranked(loads, group, sorted[0]) {
      InsertByMemory(loads, group, sorted[1..]);
      var tail := Insert(loads, group, sorted[1..]);
      forall j | 0 <= j < |tail|
        ensures GroupMem(loads, sorted[0]) >= GroupMem(loads, tail[j])
      {
        assert GroupMem(loads, tail[0]) >= GroupMem(loads, tail[j]);
      }
    }
  }

  lemma {:induction false} SortByMemory(loads: seq<Load>, groups: seq<seq<nat>>)
    ensures ByMemory(loads, Sort(loads, groups))
  {
    if groups != [] {
      SortByMemory(loads, groups[1..]);
      InsertByMemory(loads, groups[0], Sort(loads, groups[1..]));
    }
  }

  // ---- what is lost and what is left -------------------------------------

  function LostGroups(hosts: seq<Host>, guests: seq<Guest>, tolerate: nat): (lost: seq<seq<nat>>) {
    var sorted := Sort(Loads(hosts, guests), Groups(hosts, |hosts|));
    sorted[..Min(tolerate, |sorted|)]
  }

  function Flatten(groups: seq<seq<nat>>): (r: seq<nat>) {
    if groups == [] then [] else groups[0] + Flatten(groups[1..])
  }

  /** Room left on the survivors minus what the lost hosts needed, for one resource. */
  function Headroom(survives: seq<bool>, caps: seq<int>, used: seq<int>, lost: set<nat>, k: nat): (room: int)
    requires k <= |survives| == |caps| == |used|
  {
    if k == 0 then 0
    else
      Headroom(survives, caps, used, lost, k - 1)
      + if k - 1 in lost then -used[k - 1] else if survives[k - 1] then Max(caps[k - 1] - used[k - 1], 0) else 0
  }

  function Survives(hosts: seq<Host>): (r: seq<bool>) {
    seq(|hosts|, i requires 0 <= i < |hosts| => hosts[i].survivor)
  }

  function Mems(hosts: seq<Host>): (r: seq<int>) {
    seq(|hosts|, i requires 0 <= i < |hosts| => hosts[i].memory)
  }

  function Cpus(hosts: seq<Host>): (r: seq<int>) {
    seq(|hosts|, i requires 0 <= i < |hosts| => hosts[i].cpu)
  }

  function UsedMem(loads: seq<Load>): (r: seq<int>) {
    seq(|loads|, i requires 0 <= i < |loads| => loads[i].memory)
  }

  function UsedCpu(loads: seq<Load>): (r: seq<int>) {
    seq(|loads|, i requires 0 <= i < |loads| => loads[i].cpu)
  }

  function MemHeadroom(hosts: seq<Host>, guests: seq<Guest>, lost: set<nat>): (room: int) {
    Headroom(Survives(hosts), Mems(hosts), UsedMem(Loads(hosts, guests)), lost, |hosts|)
  }

  function CpuHeadroom(hosts: seq<Host>, guests: seq<Guest>, lost: set<nat>): (room: int) {
    Headroom(Survives(hosts), Cpus(hosts), UsedCpu(Loads(hosts, guests)), lost, |hosts|)
  }

  function CountSurvivors(hosts: seq<Host>): (n: nat) {
    if hosts == [] then 0 else (if hosts[|hosts| - 1].survivor then 1 else 0) + CountSurvivors(hosts[..|hosts| - 1])
  }

  function Members(xs: seq<nat>): (r: set<nat>) {
    set x | x in xs
  }

  function LostHosts(hosts: seq<Host>, guests: seq<Guest>, tolerate: nat): (lost: set<nat>) {
    Members(Flatten(LostGroups(hosts, guests, tolerate)))
  }

  function Admit(hosts: seq<Host>, guests: seq<Guest>, tolerate: int): (r: Report) {
    if tolerate <= 0 then Report(Disabled, 0, 0, 0)
    else if CountSurvivors(hosts) <= tolerate then Report(NotApplicable, 0, 0, 0)
    else
      var lost := LostHosts(hosts, guests, tolerate);
      var mem, cpu := MemHeadroom(hosts, guests, lost), CpuHeadroom(hosts, guests, lost);
      if mem >= 0 && cpu >= 0 then Report(Sufficient, tolerate, mem, cpu) else Report(Insufficient, 0, mem, cpu)
  }

  // ---- the heaviest groups are lost --------------------------------------

  function MemOf(loads: seq<Load>, groups: seq<seq<nat>>): (mem: int) {
    if groups == [] then 0 else GroupMem(loads, groups[0]) + MemOf(loads, groups[1..])
  }

  lemma {:induction false} MemOfWithout(loads: seq<Load>, groups: seq<seq<nat>>, i: nat)
    requires i < |groups|
    ensures MemOf(loads, groups) == GroupMem(loads, groups[i]) + MemOf(loads, Without(groups, i))
  {
    if i == 0 {
      assert Without(groups, 0) == groups[1..];
    } else {
      MemOfWithout(loads, groups[1..], i - 1);
      assert Without(groups, i)[0] == groups[0] && Without(groups, i)[1..] == Without(groups[1..], i - 1);
    }
  }

  lemma {:induction false} MemOfNonNegative(loads: seq<Load>, groups: seq<seq<nat>>)
    requires forall i :: 0 <= i < |groups| ==> GroupMem(loads, groups[i]) >= 0
    ensures MemOf(loads, groups) >= 0
  {
    if groups != [] {
      MemOfNonNegative(loads, groups[1..]);
    }
  }

  lemma DropBoth(a: multiset<seq<nat>>, b: multiset<seq<nat>>, x: seq<nat>, y: seq<nat>)
    requires a <= b && y in a && (y == x || x !in a)
    ensures a - multiset{y} <= b - multiset{x}
  {
  }

  /** A group to drop from a choice so that the others can do without the first of the list. */
  lemma {:induction false} SpareFirst(sorted: seq<seq<nat>>, choice: seq<seq<nat>>) returns (i: nat, j: nat)
    requires multiset(choice) <= multiset(sorted) && choice != [] && sorted != []
    ensures i < |choice| && multiset(Without(choice, i)) <= multiset(sorted[1..])
    ensures j < |sorted| && sorted[j] == choice[i]
  {
    var top := sorted[0];
    i := 0;
    if top in choice {
      i :| 0 <= i < |choice| && choice[i] == top;
    }
    WithoutCounts(choice, i);
    WithoutCounts(sorted, 0);
    assert Without(sorted, 0) == sorted[1..];
    DropBoth(multiset(choice), multiset(sorted), top, choice[i]);
    assert choice[i] in multiset(sorted);
    j :| 0 <= j < |sorted| && sorted[j] == choice[i];
  }

  /** Of a list sorted by memory, no choice of at most `k` groups weighs more than the first `k`. */
  lemma {:induction false} HeaviestFirst(loads: seq<Load>, sorted: seq<seq<nat>>, choice: seq<seq<nat>>, k: nat)
    requires ByMemory(loads, sorted) && multiset(choice) <= multiset(sorted) && |choice| <= k
    requires forall i :: 0 <= i < |sorted| ==> GroupMem(loads, sorted[i]) >= 0
    ensures MemOf(loads, choice) <= MemOf(loads, sorted[..Min(k, |sorted|)])
    decreases |sorted|
  {
    if choice == [] {
      MemOfNonNegative(loads, sorted[..Min(k, |sorted|)]);
    } else {
      assert choice[0] in multiset(choice);
      assert choice[0] in multiset(sorted);
      var i, j := SpareFirst(sorted, choice);
      HeaviestFirst(loads, sorted[1..], Without(choice, i), k - 1);
      MemOfWithout(loads, choice, i);
      assert GroupMem(loads, sorted[j]) <= GroupMem(loads, sorted[0]);
      var taken := sorted[..Min(k, |sorted|)];
      assert taken[0] == sorted[0] && taken[1..] == sorted[1..][..Min(k - 1, |sorted[1..]|)];
    }
  }

  lemma {:induction false} ReservedNonNegative(guests: seq<Guest>, h: nat)
    requires forall i :: 0 <= i < |guests| ==> guests[i].cpu >= 0 && guests[i].memory >= 0
    ensures Reserved(guests, h).cpu >= 0 && Reserved(guests, h).memory >= 0
  {
    if guests != [] {
      ReservedNonNegative(guests[..|guests| - 1], h);
    }
  }

  lemma {:induction false} GroupMemNonNegative(loads: seq<Load>, group: seq<nat>)
    requires forall h :: 0 <= h < |loads| ==> loads[h].memory >= 0
    ensures GroupMem(loads, group) >= 0
  {
    if group != [] {
      GroupMemNonNegative(loads, group[1..]);
    }
  }

  /** The groups given up carry the most reserved memory of any choice of at most `tolerate` groups. */
  lemma {:induction false} LostGroupsAreHeaviest(hosts: seq<Host>, guests: seq<Guest>, tolerate: nat, choice: seq<seq<nat>>)
    requires forall i :: 0 <= i < |guests| ==> guests[i].cpu >= 0 && guests[i].memory >= 0
    requires multiset(choice) <= multiset(Groups(hosts, |hosts|)) && |choice| <= tolerate
    ensures var loads := Loads(hosts, guests);
            MemOf(loads, choice) <= MemOf(loads, LostGroups(hosts, guests, tolerate))
  {
    var loads := Loads(hosts, guests);
    forall h | 0 <= h < |loads|
      ensures loads[h].memory >= 0
    {
      ReservedNonNegative(guests, h);
    }
    var sorted := Sort(loads, Groups(hosts, |hosts|));
    SortByMemory(loads, Groups(hosts, |hosts|));
    forall i | 0 <= i < |sorted|
      ensures GroupMem(loads, sorted[i]) >= 0
    {
      GroupMemNonNegative(loads, sorted[i]);
    }
    HeaviestFirst(loads, sorted, choice, tolerate);
  }

  // ---- every host is lost at most once, and whole domains are ------------

  lemma {:induction false} FlattenWithout(groups: seq<seq<nat>>, i: nat)
    requires i < |groups|
    ensures multiset(Flatten(groups)) == multiset(groups[i]) + multiset(Flatten(Without(groups, i)))
  {
    if i == 0 {
      assert Without(groups, 0) == groups[1..];
    } else {
      FlattenWithout(groups[1..], i - 1);
      assert Without(groups, i)[0] == groups[0] && Without(groups, i)[1..] == Without(groups[1..], i - 1);
    }
  }

  lemma {:induction false} FlattenPermutation(a: seq<seq<nat>>, b: seq<seq<nat>>)
    requires multiset(a) == multiset(b)
    ensures multiset(Flatten(a)) == multiset(Flatten(b))
    decreases |a|
  {
    assert |multiset(a)| == |a| && |multiset(b)| == |b|;
    if a != [] {
      var j := Shares(a, b, a[0]);
      WithoutBoth(a, 0, b, j);
      FlattenPermutation(Without(a, 0), Without(b, j));
      FlattenWithout(a, 0);
      FlattenWithout(b, j);
    }
  }

  lemma {:induction false} FlattenConcat(a: seq<seq<nat>>, b: seq<seq<nat>>)
    ensures Flatten(a + b) == Flatten(a) + Flatten(b)
  {
    if a == [] {
      assert a + b == b;
    } else {
      FlattenConcat(a[1..], b);
      assert (a + b)[1..] == a[1..] + b && (a + b)[0] == a[0];
      Assoc(a[0], Flatten(a[1..]), Flatten(b));
    }
  }

  lemma {:induction false} FlattenAdd(hosts: seq<Host>, groups: seq<seq<nat>>, k: nat)
    requires k < |hosts| && Eligible(hosts[k])
    ensures multiset(Flatten(AddHost(hosts, groups, k))) == multiset(Flatten(groups)) + multiset{k}
  {
    var g := FindGroup(hosts, groups, k);
    if g < |groups| {
      var groups' := groups[g := groups[g] + [k]];
      FlattenWithout(groups, g);
      FlattenWithout(groups', g);
      assert Without(groups', g) == Without(groups, g);
    } else {
      FlattenConcat(groups, [[k]]);
      assert [[k]][1..] == [] && Flatten([[k]]) == [k] + [] == [k];
    }
  }

  /** Each eligible host is in the groups exactly once, and no other host is. */
  lemma {:induction false} FlatGroups(hosts: seq<Host>, k: nat, i: nat)
    requires k <= |hosts|
    ensures multiset(Flatten(Groups(hosts, k)))[i] == if i < k && Eligible(hosts[i]) then 1 else 0
  {
    if k > 0 {
      FlatGroups(hosts, k - 1, i);
      FlatStep(hosts, Groups(hosts, k - 1), Groups(hosts, k), k - 1, i);
    }
  }

  lemma FlatStep(hosts: seq<Host>, groups: seq<seq<nat>>, groups': seq<seq<nat>>, k: nat, i: nat)
    requires k < |hosts| && groups' == AddHost(hosts, groups, k)
    ensures multiset(Flatten(groups'))[i] == multiset(Flatten(groups))[i] + if i == k && Eligible(hosts[k]) then 1 else 0
  {
    if Eligible(hosts[k]) {
      FlattenAdd(hosts, groups, k);
    }
  }

  predicate NoDuplicates(xs: seq<nat>) {
    forall i, j :: 0 <= i < j < |xs| ==> xs[i] != xs[j]
  }

  lemma {:induction false} OnceEach(xs: seq<nat>)
    requires forall x :: multiset(xs)[x] <= 1
    ensures NoDuplicates(xs)
  {
    forall i, j | 0 <= i < j < |xs|
      ensures xs[i] != xs[j]
    {
      WithoutCounts(xs, i);
      assert Without(xs, i)[j - 1] == xs[j];
      assert multiset(Without(xs, i))[xs[j]] >= 1;
    }
  }

  /** The lost hosts are listed once each and are eligible. */
  lemma {:induction false} LostListedOnce(hosts: seq<Host>, guests: seq<Guest>, tolerate: nat)
    ensures var list := Flatten(LostGroups(hosts, guests, tolerate));
            NoDuplicates(list) && forall i :: 0 <= i < |list| ==> list[i] < |hosts|
  {
    LostAmongAll(hosts, guests, tolerate);
    forall x: nat
      ensures multiset(Flatten(Groups(hosts, |hosts|)))[x] <= if x < |hosts| then 1 else 0
    {
      FlatGroups(hosts, |hosts|, x);
    }
    OnceBelow(Flatten(LostGroups(hosts, guests, tolerate)), multiset(Flatten(Groups(hosts, |hosts|))), |hosts|);
  }

  lemma {:induction false} OnceBelow(list: seq<nat>, all: multiset<nat>, n: nat)
    requires multiset(list) <= all && forall x: nat :: all[x] <= if x < n then 1 else 0
    ensures NoDuplicates(list) && forall i :: 0 <= i < |list| ==> list[i] < n
  {
    OnceEach(list);
    forall i | 0 <= i < |list|
      ensures list[i] < n
    {
      assert list[i] in multiset(list);
      assert all[list[i]] >= 1;
    }
  }

  lemma {:induction false} LostAmongAll(hosts: seq<Host>, guests: seq<Guest>, tolerate: nat)
    ensures multiset(Flatten(LostGroups(hosts, guests, tolerate))) <= multiset(Flatten(Groups(hosts, |hosts|)))
  {
    var groups := Groups(hosts, |hosts|);
    var sorted := Sort(Loads(hosts, guests), groups);
    var lost := LostGroups(hosts, guests, tolerate);
    FlattenPermutation(sorted, groups);
    FlattenPrefix(sorted, |lost|);
  }

  lemma FlattenPrefix(groups: seq<seq<nat>>, n: nat)
    requires n <= |groups|
    ensures multiset(Flatten(groups[..n])) <= multiset(Flatten(groups))
  {
    assert groups == groups[..n] + groups[n..];
    FlattenConcat(groups[..n], groups[n..]);
  }

  lemma {:induction false} FlattenMember(groups: seq<seq<nat>>, i: nat) returns (g: nat)
    requires i in Flatten(groups)
    ensures InGroup(groups, g, i)
  {
    if i in groups[0] {
      g := 0;
    } else {
      var h := FlattenMember(groups[1..], i);
      g := h + 1;
    }
  }

  lemma {:induction false} MemberFlattened(groups: seq<seq<nat>>, g: nat, i: nat)
    requires InGroup(groups, g, i)
    ensures i in Flatten(groups)
  {
    if g > 0 {
      MemberFlattened(groups[1..], g - 1, i);
    }
  }

  /** A failure domain is lost whole or kept whole. */
  lemma {:induction false} DomainsFailWhole(hosts: seq<Host>, guests: seq<Guest>, tolerate: nat, i: nat, j: nat)
    requires i < |hosts| && j < |hosts| && Eligible(hosts[i]) && Eligible(hosts[j]) && SameDomain(hosts[i], hosts[j])
    ensures i in LostHosts(hosts, guests, tolerate) <==> j in LostHosts(hosts, guests, tolerate)
  {
    if i in LostHosts(hosts, guests, tolerate) {
      LosesItsDomain(hosts, guests, tolerate, i, j);
    }
    if j in LostHosts(hosts, guests, tolerate) {
      LosesItsDomain(hosts, guests, tolerate, j, i);
    }
  }

  lemma {:induction false} LosesItsDomain(hosts: seq<Host>, guests: seq<Guest>, tolerate: nat, i: nat, j: nat)
    requires i < |hosts| && j < |hosts| && Eligible(hosts[i]) && Eligible(hosts[j]) && SameDomain(hosts[i], hosts[j])
    requires i in LostHosts(hosts, guests, tolerate)
    ensures j in LostHosts(hosts, guests, tolerate)
  {
    var groups := Groups(hosts, |hosts|);
    GroupsPartition(hosts, |hosts|);
    var sorted := Sort(Loads(hosts, guests), groups);
    var lost := LostGroups(hosts, guests, tolerate);
    var g := FlattenMember(lost, i);
    assert lost[g] == sorted[g];
    assert sorted[g] in multiset(sorted);
    var h := Shares(sorted, groups, sorted[g]);
    assert InGroup(groups, h, i);
    assert Grouped(groups, j);
    var h': nat :| InGroup(groups, h', j);
    assert InGroup(lost, g, j);
    MemberFlattened(lost, g, j);
  }

  // ---- headroom ----------------------------------------------------------

  /** What losing a set of hosts costs: their reservations and the room they had. */
  function Cost(survives: seq<bool>, caps: seq<int>, used: seq<int>, lost: set<nat>, k: nat): (cost: int)
    requires k <= |survives| == |caps| == |used|
  {
    if k == 0 then 0
    else
      Cost(survives, caps, used, lost, k - 1)
      + if k - 1 in lost then used[k - 1] + (if survives[k - 1] then Max(caps[k - 1] - used[k - 1], 0) else 0) else 0
  }

  lemma {:induction false} HeadroomIsRoomMinusCost(survives: seq<bool>, caps: seq<int>, used: seq<int>, lost: set<nat>, k: nat)
    requires k <= |survives| == |caps| == |used|
    ensures Headroom(survives, caps, used, lost, k) == Headroom(survives, caps, used, {}, k) - Cost(survives, caps, used, lost, k)
  {
    if k > 0 {
      HeadroomIsRoomMinusCost(survives, caps, used, lost, k - 1);
    }
  }

  lemma {:induction false} UniformCost(survives: seq<bool>, caps: seq<int>, used: seq<int>, lost: set<nat>, k: nat, size: int)
    requires k <= |survives| == |caps| == |used|
    requires forall i :: 0 <= i < k ==> survives[i] && caps[i] == size && used[i] <= size
    ensures Cost(survives, caps, used, lost, k) == size * |set i | i in lost && i < k|
  {
    if k == 0 {
      assert (set i | i in lost && i < k) == {};
    } else {
      UniformCost(survives, caps, used, lost, k - 1, size);
      var before, now := set i | i in lost && i < k - 1, set i | i in lost && i < k;
      if k - 1 in lost {
        assert now == before + {k - 1};
      } else {
        assert now == before;
      }
    }
  }

  /** All hosts are survivors of one size, in no domain, and not overcommitted. */
  predicate Uniform(hosts: seq<Host>, guests: seq<Guest>, mem: int, cpu: int) {
    forall i :: 0 <= i < |hosts| ==>
      && hosts[i].survivor && hosts[i].domain.None? && hosts[i].memory == mem && hosts[i].cpu == cpu
      && Reserved(guests, i).memory <= mem && Reserved(guests, i).cpu <= cpu
  }

  lemma {:induction false} AloneInGroups(hosts: seq<Host>, k: nat)
    requires k <= |hosts| && forall i :: 0 <= i < |hosts| ==> hosts[i].survivor && hosts[i].domain.None?
    ensures Groups(hosts, k) == seq(k, i => [i])
  {
    if k > 0 {
      AloneInGroups(hosts, k - 1);
      assert seq(k - 1, i => [i]) + [[k - 1]] == seq(k, i => [i]);
    }
  }

  lemma {:induction false} FlattenSingles(groups: seq<seq<nat>>)
    requires forall g :: 0 <= g < |groups| ==> |groups[g]| == 1
    ensures |Flatten(groups)| == |groups|
  {
    if groups != [] {
      FlattenSingles(groups[1..]);
    }
  }

  lemma SetOfCons(head: nat, tail: seq<nat>)
    ensures Members([head] + tail) == Members(tail) + {head}
  {
  }

  lemma {:induction false} SetOfList(xs: seq<nat>)
    requires NoDuplicates(xs)
    ensures |Members(xs)| == |xs|
  {
    if xs != [] {
      var head, tail := xs[0], xs[1..];
      assert xs == [head] + tail;
      SetOfList(tail);
      assert head !in tail by {
        assert forall i :: 0 <= i < |tail| ==> tail[i] == xs[i + 1];
      }
      SetOfCons(head, tail);
      assert |Members(tail) + {head}| == |Members(tail)| + 1;
    }
  }

  lemma {:induction false} LosesThatMany(hosts: seq<Host>, guests: seq<Guest>, tolerate: nat)
    requires tolerate <= |hosts| && forall i :: 0 <= i < |hosts| ==> hosts[i].survivor && hosts[i].domain.None?
    ensures |LostHosts(hosts, guests, tolerate)| == tolerate
    ensures forall i :: i in LostHosts(hosts, guests, tolerate) ==> i < |hosts|
  {
    var groups := Groups(hosts, |hosts|);
    var sorted := Sort(Loads(hosts, guests), groups);
    AloneInGroups(hosts, |hosts|);
    assert |multiset(sorted)| == |sorted| && |multiset(groups)| == |groups|;
    var lost := LostGroups(hosts, guests, tolerate);
    forall g | 0 <= g < |lost|
      ensures |lost[g]| == 1
    {
      assert sorted[g] in multiset(sorted);
      var h := Shares(sorted, groups, sorted[g]);
    }
    FlattenSingles(lost);
    LostListedOnce(hosts, guests, tolerate);
    SetOfList(Flatten(lost));
  }

  /** On uniform hosts the report holds for the loss of any `tolerate` hosts, in memory and CPU. */
  lemma {:induction false} UniformReportIsExact(hosts: seq<Host>, guests: seq<Guest>, tolerate: int, mem: int, cpu: int, other: set<nat>)
    requires Uniform(hosts, guests, mem, cpu) && 0 < tolerate < CountSurvivors(hosts)
    requires |other| == tolerate && forall i :: i in other ==> i < |hosts|
    ensures Admit(hosts, guests, tolerate).memory == MemHeadroom(hosts, guests, other)
    ensures Admit(hosts, guests, tolerate).cpu == CpuHeadroom(hosts, guests, other)
  {
    SurvivorsAreHosts(hosts);
    var lost := LostHosts(hosts, guests, tolerate);
    LosesThatMany(hosts, guests, tolerate);
    var loads := Loads(hosts, guests);
    assert (set i | i in other && i < |hosts|) == other && (set i | i in lost && i < |hosts|) == lost;
    HeadroomIsRoomMinusCost(Survives(hosts), Mems(hosts), UsedMem(loads), other, |hosts|);
    HeadroomIsRoomMinusCost(Survives(hosts), Mems(hosts), UsedMem(loads), lost, |hosts|);
    UniformCost(Survives(hosts), Mems(hosts), UsedMem(loads), other, |hosts|, mem);
    UniformCost(Survives(hosts), Mems(hosts), UsedMem(loads), lost, |hosts|, mem);
    HeadroomIsRoomMinusCost(Survives(hosts), Cpus(hosts), UsedCpu(loads), other, |hosts|);
    HeadroomIsRoomMinusCost(Survives(hosts), Cpus(hosts), UsedCpu(loads), lost, |hosts|);
    UniformCost(Survives(hosts), Cpus(hosts), UsedCpu(loads), other, |hosts|, cpu);
    UniformCost(Survives(hosts), Cpus(hosts), UsedCpu(loads), lost, |hosts|, cpu);
  }

  lemma {:induction false} SurvivorsAreHosts(hosts: seq<Host>)
    ensures CountSurvivors(hosts) <= |hosts|
  {
    if hosts != [] {
      SurvivorsAreHosts(hosts[..|hosts| - 1]);
    }
  }

  // ---- the computation ---------------------------------------------------

  /** What the listed hosts reserved. */
  function SumAt(used: seq<int>, xs: seq<nat>): (sum: int)
    requires forall i :: 0 <= i < |xs| ==> xs[i] < |used|
  {
    if xs == [] then 0 else used[xs[0]] + SumAt(used, xs[1..])
  }

  function SumIn(used: seq<int>, lost: set<nat>, k: nat): (sum: int)
    requires k <= |used|
  {
    if k == 0 then 0 else SumIn(used, lost, k - 1) + if k - 1 in lost then used[k - 1] else 0
  }

  /** Free room of the survivors before `k` that are not lost. */
  function Free(survives: seq<bool>, caps: seq<int>, used: seq<int>, lost: set<nat>, k: nat): (room: int)
    requires k <= |survives| == |caps| == |used|
  {
    if k == 0 then 0
    else
      Free(survives, caps, used, lost, k - 1)
      + if survives[k - 1] && k - 1 !in lost then Max(caps[k - 1] - used[k - 1], 0) else 0
  }

  lemma {:induction false} HeadroomSplits(survives: seq<bool>, caps: seq<int>, used: seq<int>, lost: set<nat>, k: nat)
    requires k <= |survives| == |caps| == |used|
    ensures Headroom(survives, caps, used, lost, k) == Free(survives, caps, used, lost, k) - SumIn(used, lost, k)
  {
    if k > 0 {
      HeadroomSplits(survives, caps, used, lost, k - 1);
    }
  }

  lemma {:induction false} SumInAdd(used: seq<int>, lost: set<nat>, x: nat, k: nat)
    requires k <= |used| && x !in lost
    ensures SumIn(used, lost + {x}, k) == SumIn(used, lost, k) + if x < k then used[x] else 0
  {
    if k > 0 {
      SumInAdd(used, lost, x, k - 1);
    }
  }

  lemma {:induction false} SumInNone(used: seq<int>, k: nat)
    requires k <= |used|
    ensures SumIn(used, {}, k) == 0
  {
    if k > 0 {
      SumInNone(used, k - 1);
    }
  }

  lemma {:induction false} SumsMatch(used: seq<int>, xs: seq<nat>)
    requires NoDuplicates(xs) && forall i :: 0 <= i < |xs| ==> xs[i] < |used|
    ensures SumAt(used, xs) == SumIn(used, Members(xs), |used|)
  {
    if xs == [] {
      SumInNone(used, |used|);
      assert Members(xs) == {};
    } else {
      var head, tail := xs[0], xs[1..];
      assert xs == [head] + tail;
      SumsMatch(used, tail);
      assert head !in tail by {
        assert forall i :: 0 <= i < |tail| ==> tail[i] == xs[i + 1];
      }
      SetOfCons(head, tail);
      SumInAdd(used, Members(tail), head, |used|);
    }
  }

  method SumLost(used: seq<int>, lost: seq<nat>) returns (sum: int)
    requires forall i :: 0 <= i < |lost| ==> lost[i] < |used|
    ensures sum == SumAt(used, lost)
  {
    sum := 0;
    var j := 0;
    while j < |lost|
      invariant 0 <= j <= |lost|
      invariant sum + SumAt(used, lost[j..]) == SumAt(used, lost)
    {
      assert lost[j..][0] == lost[j] && lost[j..][1..] == lost[j + 1..];
      sum := sum + used[lost[j]];
      j := j + 1;
    }
  }

  method SumFree(hosts: seq<Host>, caps: seq<int>, used: seq<int>, lost: seq<nat>) returns (room: int)
    requires |caps| == |used| == |hosts|
    ensures room == Free(Survives(hosts), caps, used, Members(lost), |hosts|)
  {
    room := 0;
    for i := 0 to |hosts|
      invariant room == Free(Survives(hosts), caps, used, Members(lost), i)
    {
      if hosts[i].survivor && i !in lost {
        room := room + Max(caps[i] - used[i], 0);
      }
    }
  }

  method CountReady(hosts: seq<Host>) returns (n: nat)
    ensures n == CountSurvivors(hosts)
  {
    n := 0;
    for i := 0 to |hosts|
      invariant n == CountSurvivors(hosts[..i])
    {
      assert hosts[..i + 1][..i] == hosts[..i];
      if hosts[i].survivor {
        n := n + 1;
      }
    }
    assert hosts[..|hosts|] == hosts;
  }

  /** The whole assessment, as the controller computes it. */
  method Assess(hosts: seq<Host>, guests: seq<Guest>, tolerate: int) returns (r: Report)
    ensures r == Admit(hosts, guests, tolerate)
  {
    if tolerate <= 0 {
      return Report(Disabled, 0, 0, 0);
    }
    var survivors := CountReady(hosts);
    if survivors <= tolerate {
      return Report(NotApplicable, 0, 0, 0);
    }
    var loads := Reserve(hosts, guests);
    var groups := [];
    for i := 0 to |hosts|
      invariant groups == Groups(hosts, i)
    {
      groups := AddHost(hosts, groups, i);
    }
    var sorted := Sort(loads, groups);
    var lost := Flatten(sorted[..Min(tolerate, |sorted|)]);
    LostListedOnce(hosts, guests, tolerate);
    var lostMem := SumLost(UsedMem(loads), lost);
    var lostCpu := SumLost(UsedCpu(loads), lost);
    SumsMatch(UsedMem(loads), lost);
    SumsMatch(UsedCpu(loads), lost);
    var freeMem := SumFree(hosts, Mems(hosts), UsedMem(loads), lost);
    var freeCpu := SumFree(hosts, Cpus(hosts), UsedCpu(loads), lost);
    HeadroomSplits(Survives(hosts), Mems(hosts), UsedMem(loads), Members(lost), |hosts|);
    HeadroomSplits(Survives(hosts), Cpus(hosts), UsedCpu(loads), Members(lost), |hosts|);
    var mem, cpu := freeMem - lostMem, freeCpu - lostCpu;
    if mem >= 0 && cpu >= 0 {
      r := Report(Sufficient, tolerate, mem, cpu);
    } else {
      r := Report(Insufficient, 0, mem, cpu);
    }
  }

  // ---- where the ranking misses ------------------------------------------

  /** A large host that reserves a little less than a small one. */
  function LopsidedHosts(): (hosts: seq<Host>) {
    [Host(0, 100, true, true, None), Host(0, 10, true, true, None), Host(0, 5, true, true, None)]
  }

  function LopsidedGuests(): (guests: seq<Guest>) {
    [Guest(0, 0, 9, true), Guest(1, 0, 10, true)]
  }

  lemma {:induction false} LopsidedLoads()
    ensures Loads(LopsidedHosts(), LopsidedGuests()) == [Load(0, 9), Load(0, 10), Load(0, 0)]
  {
    var g := LopsidedGuests();
    assert g[..1] == [g[0]] && g[..1][..0] == [];
    forall h | 0 <= h < 3
      ensures Reserved(g, h) == [Load(0, 9), Load(0, 10), Load(0, 0)][h]
    {
      assert Reserved(g[..1], h) == if h == 0 then Load(0, 9) else Load(0, 0);
    }
  }

  lemma SingleMem(loads: seq<Load>, i: nat)
    requires i < |loads|
    ensures GroupMem(loads, [i]) == loads[i].memory && MemOf(loads, [[i]]) == loads[i].memory
  {
    assert [i][1..] == [] && [[i]][1..] == [];
  }

  /** With every host on its own, the one that reserves the most is given up first. */
  lemma {:induction false} LosesTheFullest(hosts: seq<Host>, guests: seq<Guest>, h: nat)
    requires h < |hosts| && forall i :: 0 <= i < |hosts| ==> hosts[i].survivor && hosts[i].domain.None?
    requires forall i :: 0 <= i < |guests| ==> guests[i].cpu >= 0 && guests[i].memory >= 0
    requires forall i :: 0 <= i < |hosts| && i != h ==> Reserved(guests, i).memory < Reserved(guests, h).memory
    ensures LostHosts(hosts, guests, 1) == {h}
  {
    var i := HeaviestAlone(hosts, guests, h);
    assert i == h;
    OneHostLost(hosts, guests, h);
  }

  lemma OneHostLost(hosts: seq<Host>, guests: seq<Guest>, h: nat)
    requires LostGroups(hosts, guests, 1) == [[h]]
    ensures LostHosts(hosts, guests, 1) == {h}
  {
    assert [[h]][1..] == [] && Flatten([[h]]) == [h] + Flatten([]) == [h];
  }

  /** Hosts that fail alone: one is lost, and it reserves no less than `h`. */
  lemma HeaviestAlone(hosts: seq<Host>, guests: seq<Guest>, h: nat) returns (i: nat)
    requires h < |hosts| && forall k :: 0 <= k < |hosts| ==> hosts[k].survivor && hosts[k].domain.None?
    requires forall k :: 0 <= k < |guests| ==> guests[k].cpu >= 0 && guests[k].memory >= 0
    ensures i < |hosts| && LostGroups(hosts, guests, 1) == [[i]] && Reserved(guests, h).memory <= Reserved(guests, i).memory
  {
    AloneInGroups(hosts, |hosts|);
    assert Groups(hosts, |hosts|)[h] == [h];
    assert [h] in multiset(Groups(hosts, |hosts|));
    LostGroupsAreHeaviest(hosts, guests, 1, [[h]]);
    i := LosesOneGroup(hosts, guests);
    HeavierMemory(hosts, guests, h, i);
  }

  lemma HeavierMemory(hosts: seq<Host>, guests: seq<Guest>, h: nat, i: nat)
    requires h < |hosts| && i < |hosts| && MemOf(Loads(hosts, guests), [[h]]) <= MemOf(Loads(hosts, guests), [[i]])
    ensures Reserved(guests, h).memory <= Reserved(guests, i).memory
  {
    SingleMem(Loads(hosts, guests), h);
    SingleMem(Loads(hosts, guests), i);
  }

  lemma LosesOneGroup(hosts: seq<Host>, guests: seq<Guest>) returns (i: nat)
    requires hosts != [] && |Groups(hosts, |hosts|)| == |hosts| && forall k :: 0 <= k < |hosts| ==> Groups(hosts, |hosts|)[k] == [k]
    ensures i < |hosts| && LostGroups(hosts, guests, 1) == [[i]]
  {
    var groups := Groups(hosts, |hosts|);
    var sorted := Sort(Loads(hosts, guests), groups);
    assert |multiset(sorted)| == |sorted| && |multiset(groups)| == |groups|;
    assert sorted[0] in multiset(sorted);
    i := Shares(sorted, groups, sorted[0]);
  }

  lemma {:induction false} LopsidedLosesTheSmall()
    ensures LostHosts(LopsidedHosts(), LopsidedGuests(), 1) == {1}
  {
    LopsidedLoads();
    var loads := Loads(LopsidedHosts(), LopsidedGuests());
    assert forall i :: 0 <= i < 3 ==> loads[i] == Reserved(LopsidedGuests(), i);
    LosesTheFullest(LopsidedHosts(), LopsidedGuests(), 1);
  }

  lemma {:induction false} LopsidedMemory()
    ensures MemHeadroom(LopsidedHosts(), LopsidedGuests(), {1}) == 86
    ensures MemHeadroom(LopsidedHosts(), LopsidedGuests(), {0}) == -4
  {
    LopsidedLoads();
    var surv, caps, used := Survives(LopsidedHosts()), Mems(LopsidedHosts()), UsedMem([Load(0, 9), Load(0, 10), Load(0, 0)]);
    assert surv == [true, true, true] && caps == [100, 10, 5] && used == [9, 10, 0];
    assert Headroom(surv, caps, used, {1}, 1) == 91 && Headroom(surv, caps, used, {1}, 2) == 81;
    assert Headroom(surv, caps, used, {0}, 1) == -9 && Headroom(surv, caps, used, {0}, 2) == -9;
  }

  lemma {:induction false} LopsidedCpu()
    ensures CpuHeadroom(LopsidedHosts(), LopsidedGuests(), {1}) == 0
    ensures CountSurvivors(LopsidedHosts()) == 3
  {
    LopsidedLoads();
    var hosts := LopsidedHosts();
    var surv, caps, used := Survives(hosts), Cpus(hosts), UsedCpu([Load(0, 9), Load(0, 10), Load(0, 0)]);
    assert surv == [true, true, true] && caps == [0, 0, 0] && used == [0, 0, 0];
    assert Headroom(surv, caps, used, {1}, 1) == 0 && Headroom(surv, caps, used, {1}, 2) == 0;
    assert hosts[..2][..1] == [hosts[0]] && hosts[..2][..1][..0] == [];
    assert CountSurvivors(hosts[..2][..1]) == 1 && CountSurvivors(hosts[..2]) == 2;
  }

  /**
   Groups are ranked by what they reserve, not by what losing them costs: here
   the report is "sufficient" although losing the first host leaves a
   shortfall.
   */
  lemma {:induction false} SufficientCanMissALoss()
    ensures Admit(LopsidedHosts(), LopsidedGuests(), 1).capacity == Sufficient
    ensures MemHeadroom(LopsidedHosts(), LopsidedGuests(), {0}) < 0
  {
    LopsidedLosesTheSmall();
    LopsidedMemory();
    LopsidedCpu();
  }
}
