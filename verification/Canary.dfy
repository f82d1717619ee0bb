/**
 Canary rollouts (crates/controller/src/canary.rs): which node goes first, how
 long it soaks, and how it is judged against its peers.
 */
module Canary {
  import opened Prelude

  /** A node, named by its place in the list of the update's rows sorted by node id. */
  type NodeId = nat

  const DEFAULT_SOAK_SECS := 3600
  const GRACE_SECS := 300
  const MIN_FAULTS := 5
  const MIN_CEPH_SAMPLES := 5
  const GUEST_MARGIN := 0.10
  const FAULT_MARGIN := 0.10
  const CEPH_FACTOR := 2.0
  const CEPH_MARGIN_MS := 20.0

  /** The update's strategy, and what the database says about its nodes. */
  datatype Strategy = Strategy(
    isCanary: bool,
    named: Option<NodeId>,
    soak: int,
    labelled: set<NodeId>,
    controllers: set<NodeId>)

  function SoakSecs(s: Strategy): (secs: int) {
    if s.soak > 0 then s.soak else DEFAULT_SOAK_SECS
  }

  function Workers(ordered: seq<NodeId>, controllers: set<NodeId>): (ids: seq<NodeId>)
    ensures forall id :: id in ids <==> id in ordered && id !in controllers
  {
    if ordered == [] then []
    else if ordered[0] in controllers then Workers(ordered[1..], controllers)
    else [ordered[0]] + Workers(ordered[1..], controllers)
  }

  function Candidates(s: Strategy, ordered: seq<NodeId>): (ids: seq<NodeId>) {
    var workers := Workers(ordered, s.controllers);
    if workers == [] then ordered else workers
  }

  function FirstLabelled(ids: seq<NodeId>, labelled: set<NodeId>): (r: Option<NodeId>)
    ensures r.Some? ==> r.value in ids && r.value in labelled
    ensures r.None? ==> forall id :: id in ids ==> id !in labelled
  {
    if ids == [] then None
    else if ids[0] in labelled then Some(ids[0])
    else FirstLabelled(ids[1..], labelled)
  }

  function Pick(s: Strategy, ordered: seq<NodeId>): (r: Option<NodeId>) {
    if !s.isCanary || |ordered| < 2 then None
    else
      var candidates := Candidates(s, ordered);
      if s.named.Some? && s.named.value in candidates then s.named
      else match FirstLabelled(candidates, s.labelled)
           case Some(id) => Some(id)
           case None => if candidates == [] then None else Some(candidates[0])
  }

  predicate CheckNamed(s: Strategy, ordered: seq<NodeId>) {
    s.named.None? || (s.named.value in ordered && s.named.value in Candidates(s, ordered))
  }

  /**
   Every canary rollout of two or more nodes has a canary among its nodes. It
   runs a controller only when every node does, an acceptable name is always
   honoured, and otherwise a labelled candidate is preferred.
   */
  lemma PickIsSound(s: Strategy, ordered: seq<NodeId>)
    ensures Pick(s, ordered).Some? <==> s.isCanary && |ordered| >= 2
    ensures Pick(s, ordered).Some? ==>
              var id := Pick(s, ordered).value;
              && id in ordered
              && (id in s.controllers ==> forall other :: other in ordered ==> other in s.controllers)
              && (s.named.Some? ==> (CheckNamed(s, ordered) <==> id == s.named.value))
              && (s.named.None? || !CheckNamed(s, ordered) ==>
                    (id in s.labelled <==> exists other :: other in Candidates(s, ordered) && other in s.labelled))
  {
    if s.isCanary && |ordered| >= 2 {
      var workers := Workers(ordered, s.controllers);
      if workers == [] {
        forall other | other in ordered
          ensures other in s.controllers
        {
          assert other !in workers;
        }
      }
      var candidates := Candidates(s, ordered);
      assert candidates[0] in candidates;
    }
  }

  // ---- the verdict -------------------------------------------------------

  datatype Sample = Sample(live: bool, wanted: nat, down: nat, calls: nat, faults: nat)

  datatype Latency = Latency(canaryMs: real, peersMs: real, samples: nat)

  datatype Reason = OffTarget | Silent | NobodyAlive | NoPeers | GuestsDown | AgentFaults | SlowOsds

  datatype Verdict = Pass | Fail(reason: Reason) | Unknown(reason: Reason)

  function Live(peers: seq<Sample>): (live: seq<Sample>) {
    if peers == [] then []
    else if peers[0].live then [peers[0]] + Live(peers[1..])
    else Live(peers[1..])
  }

  /** The guest and call counts of several nodes added up. */
  function Pool(samples: seq<Sample>): (total: Sample)
    ensures (forall i :: 0 <= i < |samples| ==> Consistent(samples[i])) ==> Consistent(total)
  {
    if samples == [] then Sample(true, 0, 0, 0, 0)
    else Plus(samples[0], Pool(samples[1..]))
  }

  function Plus(a: Sample, b: Sample): (r: Sample) {
    Sample(true, a.wanted + b.wanted, a.down + b.down, a.calls + b.calls, a.faults + b.faults)
  }

  predicate Consistent(s: Sample) {
    s.down <= s.wanted && s.faults <= s.calls
  }

  function Share(part: nat, whole: nat): (r: real) {
    if whole == 0 then 0.0 else part as real / whole as real
  }

  function CephLimit(peersMs: real): (ms: real) {
    if peersMs * CEPH_FACTOR >= peersMs + CEPH_MARGIN_MS
    then peersMs * CEPH_FACTOR else peersMs + CEPH_MARGIN_MS
  }

  predicate TooManyDown(canary: Sample, pool: Sample) {
    canary.down > 0 && Share(canary.down, canary.wanted) > Share(pool.down, pool.wanted) + GUEST_MARGIN
  }

  predicate TooManyFaults(canary: Sample, pool: Sample) {
    canary.faults >= MIN_FAULTS && Share(canary.faults, canary.calls) > Share(pool.faults, pool.calls) + FAULT_MARGIN
  }

  predicate TooSlow(ceph: Option<Latency>) {
    ceph.Some? && ceph.value.samples >= MIN_CEPH_SAMPLES && ceph.value.canaryMs > CephLimit(ceph.value.peersMs)
  }

  function Judge(canary: Sample, onTarget: bool, peers: seq<Sample>, ceph: Option<Latency>): (v: Verdict) {
    if !onTarget then Fail(OffTarget)
    else
      var live := Live(peers);
      if !canary.live then (if live == [] then Unknown(NobodyAlive) else Fail(Silent))
      else if live == [] then Unknown(NoPeers)
      else
        var pool := Pool(live);
        if TooManyDown(canary, pool) then Fail(GuestsDown)
        else if TooManyFaults(canary, pool) then Fail(AgentFaults)
        else if TooSlow(ceph) then Fail(SlowOsds)
        else Pass
  }

  lemma {:induction false} PoolRemove(xs: seq<Sample>, i: nat)
    requires i < |xs|
    ensures Pool(xs) == Plus(xs[i], Pool(Without(xs, i)))
  {
    if i == 0 {
      assert Without(xs, 0) == xs[1..];
    } else {
      PoolRemove(xs[1..], i - 1);
      assert Without(xs, i)[0] == xs[0] && Without(xs, i)[1..] == Without(xs[1..], i - 1);
    }
  }

  lemma {:induction false} PoolPermutation(xs: seq<Sample>, ys: seq<Sample>)
    requires multiset(xs) == multiset(ys)
    ensures Pool(xs) == Pool(ys) && (xs == [] <==> ys == [])
  {
    if xs == [] || ys == [] {
      assert |multiset(xs)| == |xs| && |multiset(ys)| == |ys|;
    } else {
      var j := Shares(xs, ys, xs[0]);
      WithoutBoth(xs, 0, ys, j);
      PoolPermutation(Without(xs, 0), Without(ys, j));
      PoolRemove(xs, 0);
      PoolRemove(ys, j);
    }
  }

  /** Neither the order of the peers nor any dead peer changes the verdict. */
  lemma VerdictIgnoresOrderAndDeadPeers(canary: Sample, onTarget: bool, peers: seq<Sample>, others: seq<Sample>, ceph: Option<Latency>)
    requires multiset(Live(peers)) == multiset(Live(others))
    ensures Judge(canary, onTarget, peers, ceph) == Judge(canary, onTarget, others, ceph)
  {
    PoolPermutation(Live(peers), Live(others));
  }

  lemma ShareMonotone(a: nat, b: nat, whole: nat)
    requires a <= b
    ensures Share(a, whole) <= Share(b, whole)
  {
    if whole > 0 {
      assert Share(b, whole) - Share(a, whole) == (b - a) as real / whole as real;
    }
  }

  /** A failing canary that gets worse keeps failing. */
  lemma WorseCanaryStillFails(canary: Sample, worse: Sample, onTarget: bool, peers: seq<Sample>,
                              ceph: Option<Latency>, slower: Option<Latency>)
    requires Judge(canary, onTarget, peers, ceph).Fail?
    requires worse.live == canary.live && worse.wanted == canary.wanted && worse.calls == canary.calls
    requires worse.down >= canary.down && worse.faults >= canary.faults
    requires ceph.Some? ==> && slower.Some? && slower.value.peersMs == ceph.value.peersMs
                            && slower.value.samples >= ceph.value.samples && slower.value.canaryMs >= ceph.value.canaryMs
    ensures Judge(worse, onTarget, peers, slower).Fail?
  {
    ShareMonotone(canary.down, worse.down, canary.wanted);
    ShareMonotone(canary.faults, worse.faults, canary.calls);
  }

  /** Pooling a node whose share is no larger does not raise the pooled share. */
  lemma MediantBound(part: nat, whole: nat, more: nat, wider: nat)
    requires part <= whole && more <= wider
    requires Share(more, wider) <= Share(part, whole)
    ensures Share(part + more, whole + wider) <= Share(part, whole)
  {
    if whole > 0 && wider > 0 {
      var p, w, m, v := part as real, whole as real, more as real, wider as real;
      var s := p / w;
      assert m == (m / v) * v;
      assert m <= s * v;
      assert p == s * w;
      assert p + m <= s * (w + v);
      assert (p + m) / (w + v) <= s;
    }
  }

  lemma {:induction false} LiveAppend(peers: seq<Sample>, peer: Sample)
    requires peer.live
    ensures Live(peers + [peer]) == Live(peers) + [peer]
  {
    if peers != [] {
      LiveAppend(peers[1..], peer);
      assert (peers + [peer])[1..] == peers[1..] + [peer];
    }
  }

  lemma {:induction false} LiveMembers(peers: seq<Sample>)
    ensures forall s :: s in Live(peers) ==> s in peers
  {
    if peers != [] {
      LiveMembers(peers[1..]);
    }
  }

  lemma SmallerPoolSharesStillFail(canary: Sample, pool: Sample, better: Sample)
    requires NoWorse(better, pool)
    ensures TooManyDown(canary, pool) ==> TooManyDown(canary, better)
    ensures TooManyFaults(canary, pool) ==> TooManyFaults(canary, better)
  {
  }

  predicate NoWorse(better: Sample, pool: Sample) {
    && Share(better.down, better.wanted) <= Share(pool.down, pool.wanted)
    && Share(better.faults, better.calls) <= Share(pool.faults, pool.calls)
  }

  lemma PlusNoWorse(peer: Sample, pool: Sample)
    requires Consistent(peer) && Consistent(pool)
    requires NoWorse(peer, pool)
    ensures NoWorse(Plus(peer, pool), pool)
  {
    var plus := Plus(peer, pool);
    assert Share(plus.down, plus.wanted) <= Share(pool.down, pool.wanted) by {
      MediantBound(pool.down, pool.wanted, peer.down, peer.wanted);
    }
    assert Share(plus.faults, plus.calls) <= Share(pool.faults, pool.calls) by {
      MediantBound(pool.faults, pool.calls, peer.faults, peer.calls);
    }
  }

  lemma PoolAppend(live: seq<Sample>, peer: Sample)
    ensures Pool(live + [peer]) == Plus(peer, Pool(live))
  {
    PoolRemove(live + [peer], |live|);
    assert Without(live + [peer], |live|) == live;
  }

  /** One more live peer that does no worse than the pool cannot rescue a failing canary. */
  lemma GoodPeerDoesNotRescue(canary: Sample, onTarget: bool, peers: seq<Sample>, peer: Sample, ceph: Option<Latency>)
    requires peer.live && Consistent(peer)
    requires forall i :: 0 <= i < |peers| ==> Consistent(peers[i])
    ensures NoWorse(peer, Pool(Live(peers))) && Judge(canary, onTarget, peers, ceph).Fail? ==>
              Judge(canary, onTarget, peers + [peer], ceph).Fail?
  {
    LiveAppend(peers, peer);
    LiveMembers(peers);
    var live := Live(peers);
    assert forall i :: 0 <= i < |live| ==> live[i] in live;
    PoolAppend(live, peer);
    if NoWorse(peer, Pool(live)) {
      PlusNoWorse(peer, Pool(live));
      SmallerPoolSharesStillFail(canary, Pool(live), Pool(live + [peer]));
    }
  }
}
