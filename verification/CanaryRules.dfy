/** The choice of the canary and its verdict by the rules an operator knows: who goes first, and exactly when it passes. */
module CanaryRules {
  import opened Prelude
  import opened Canary

  // ---- the choice --------------------------------------------------------

  /** A node may be the canary: it runs no controller, or every node does. */
  predicate MayLead(s: Strategy, ordered: seq<NodeId>, id: NodeId) {
    id in ordered && (id in s.controllers ==> forall other :: other in ordered ==> other in s.controllers)
  }

  /** `id` is the first node of the order that may lead and, if asked for, is labelled. */
  predicate FirstToLead(s: Strategy, ordered: seq<NodeId>, id: NodeId, labelled: bool) {
    exists i :: 0 <= i < |ordered| && ordered[i] == id && MayLead(s, ordered, id) && (labelled ==> id in s.labelled)
             && forall j :: 0 <= j < i ==> !MayLead(s, ordered, ordered[j]) || (labelled && ordered[j] !in s.labelled)
  }

  lemma {:induction false} CandidatesLead(s: Strategy, ordered: seq<NodeId>)
    ensures forall id :: id in Candidates(s, ordered) <==> MayLead(s, ordered, id)
  {
    var workers := Workers(ordered, s.controllers);
    if workers == [] {
      forall other | other in ordered ensures other in s.controllers {
        assert other !in workers;
      }
    } else {
      assert workers[0] in workers;
    }
  }

  lemma {:induction false} FirstWorker(ordered: seq<NodeId>, controllers: set<NodeId>, i: nat)
    requires i < |ordered| && ordered[i] !in controllers && forall j :: 0 <= j < i ==> ordered[j] in controllers
    ensures Workers(ordered, controllers) != [] && Workers(ordered, controllers)[0] == ordered[i]
  {
    if i > 0 {
      FirstWorker(ordered[1..], controllers, i - 1);
    }
  }

  lemma {:induction false} FirstLabelledWorker(ordered: seq<NodeId>, controllers: set<NodeId>, labelled: set<NodeId>)
    ensures match FirstLabelled(Workers(ordered, controllers), labelled)
            case None => forall i :: 0 <= i < |ordered| ==> ordered[i] in controllers || ordered[i] !in labelled
            case Some(id) =>
              exists i :: 0 <= i < |ordered| && ordered[i] == id && id !in controllers && id in labelled
                       && forall j :: 0 <= j < i ==> ordered[j] in controllers || ordered[j] !in labelled
  {
    if ordered != [] {
      var rest := ordered[1..];
      FirstLabelledWorker(rest, controllers, labelled);
      assert forall j :: 0 < j < |ordered| ==> ordered[j] == rest[j - 1];
      if ordered[0] !in controllers && ordered[0] in labelled {
        assert Workers(ordered, controllers)[0] == ordered[0];
      } else {
        assert ordered[0] !in controllers ==> Workers(ordered, controllers)[1..] == Workers(rest, controllers);
        match FirstLabelled(Workers(rest, controllers), labelled)
        case None =>
        case Some(id) =>
          var i :| 0 <= i < |rest| && rest[i] == id && id !in controllers && id in labelled
                && forall j :: 0 <= j < i ==> rest[j] in controllers || rest[j] !in labelled;
          assert ordered[i + 1] == id;
      }
    }
  }

  lemma {:induction false} FirstLabelledAny(ids: seq<NodeId>, labelled: set<NodeId>)
    ensures FirstLabelled(ids, labelled).Some? ==>
              exists i :: 0 <= i < |ids| && ids[i] == FirstLabelled(ids, labelled).value && ids[i] in labelled
                       && forall j :: 0 <= j < i ==> ids[j] !in labelled
  {
    if ids != [] && ids[0] !in labelled {
      FirstLabelledAny(ids[1..], labelled);
      if FirstLabelled(ids[1..], labelled).Some? {
        var i :| 0 <= i < |ids[1..]| && ids[1..][i] == FirstLabelled(ids[1..], labelled).value && ids[1..][i] in labelled
              && forall j :: 0 <= j < i ==> ids[1..][j] !in labelled;
        assert ids[i + 1] == ids[1..][i] && forall j :: 0 < j <= i ==> ids[j] == ids[1..][j - 1];
      }
    }
  }

  lemma FirstLabelledLeads(s: Strategy, ordered: seq<NodeId>)
    requires FirstLabelled(Candidates(s, ordered), s.labelled).Some?
    ensures FirstToLead(s, ordered, FirstLabelled(Candidates(s, ordered), s.labelled).value, true)
  {
    CandidatesLead(s, ordered);
    var id := FirstLabelled(Candidates(s, ordered), s.labelled).value;
    var workers := Workers(ordered, s.controllers);
    if workers == [] {
      FirstLabelledAny(ordered, s.labelled);
    } else {
      FirstLabelledWorker(ordered, s.controllers, s.labelled);
      assert workers[0] in ordered && workers[0] !in s.controllers;
    }
  }

  lemma {:induction false} FirstOutside(ordered: seq<NodeId>, controllers: set<NodeId>, id: NodeId) returns (i: nat)
    requires id in ordered && id !in controllers
    ensures i < |ordered| && ordered[i] !in controllers && forall j :: 0 <= j < i ==> ordered[j] in controllers
  {
    if ordered[0] !in controllers {
      i := 0;
    } else {
      i := FirstOutside(ordered[1..], controllers, id);
      i := i + 1;
    }
  }

  lemma FirstCandidateLeads(s: Strategy, ordered: seq<NodeId>)
    requires ordered != []
    ensures Candidates(s, ordered) != [] && FirstToLead(s, ordered, Candidates(s, ordered)[0], false)
  {
    CandidatesLead(s, ordered);
    var workers := Workers(ordered, s.controllers);
    if workers == [] {
      assert ordered[0] in ordered;
      assert ordered[0] in Candidates(s, ordered);
    } else {
      assert workers[0] in workers;
      var i := FirstOutside(ordered, s.controllers, workers[0]);
      FirstWorker(ordered, s.controllers, i);
      assert ordered[i] in ordered;
      assert forall j :: 0 <= j < i ==> !MayLead(s, ordered, ordered[j]);
    }
  }

  /** The canary is the named node if it may lead, else the first labelled node that may, else the first that may. */
  lemma PickIs(s: Strategy, ordered: seq<NodeId>)
    requires s.isCanary && |ordered| >= 2
    ensures Pick(s, ordered).Some?
    ensures var id := Pick(s, ordered).value;
            if s.named.Some? && MayLead(s, ordered, s.named.value) then id == s.named.value
            else if exists other :: other in ordered && MayLead(s, ordered, other) && other in s.labelled then FirstToLead(s, ordered, id, true)
            else FirstToLead(s, ordered, id, false)
  {
    CandidatesLead(s, ordered);
    FirstCandidateLeads(s, ordered);
    if FirstLabelled(Candidates(s, ordered), s.labelled).Some? {
      FirstLabelledLeads(s, ordered);
    }
  }

  // ---- exactly when the verdict is which -----------------------------------

  predicate SomeoneLive(peers: seq<Sample>) {
    exists i :: 0 <= i < |peers| && peers[i].live
  }

  /** A count added up over the live peers. */
  function Total(peers: seq<Sample>, count: Sample -> nat): (sum: nat) {
    if peers == [] then 0
    else Total(peers[..|peers| - 1], count) + if peers[|peers| - 1].live then count(peers[|peers| - 1]) else 0
  }

  /** `part` of `whole` is more than ten points above `base` of `all`. */
  predicate TenPointsAbove(part: nat, whole: nat, base: nat, all: nat) {
    whole > 0 && if all == 0 then 10 * part > whole else 10 * part * all > 10 * base * whole + whole * all
  }

  predicate GuestsLag(canary: Sample, peers: seq<Sample>) {
    canary.down > 0 && TenPointsAbove(canary.down, canary.wanted, Total(peers, (s: Sample) => s.down), Total(peers, (s: Sample) => s.wanted))
  }

  predicate CallsFault(canary: Sample, peers: seq<Sample>) {
    canary.faults >= 5 && TenPointsAbove(canary.faults, canary.calls, Total(peers, (s: Sample) => s.faults), Total(peers, (s: Sample) => s.calls))
  }

  /** Of at least five samples the canary's latency is more than twice that of the peers and more than 20 ms above it. */
  predicate OsdsLag(ceph: Option<Latency>) {
    && ceph.Some? && ceph.value.samples >= 5
    && ceph.value.canaryMs > 2.0 * ceph.value.peersMs && ceph.value.canaryMs > ceph.value.peersMs + 20.0
  }

  lemma MulPos(a: real, b: real, k: real)
    requires k > 0.0
    ensures a > b <==> a * k > b * k
  {
    if a > b {
      assert (a - b) * k > 0.0;
    } else {
      assert (b - a) * k >= 0.0;
    }
  }

  lemma Quotient(a: real, b: real)
    requires b > 0.0
    ensures a / b * b == a
  {
  }

  lemma Scaled(part: real, whole: real, base: real, all: real)
    requires whole > 0.0 && all > 0.0
    ensures part / whole > base / all + 0.1 <==> 10.0 * part * all > 10.0 * base * whole + whole * all
  {
    var p, b := part / whole, base / all;
    Quotient(part, whole);
    Quotient(base, all);
    var k := 10.0 * whole * all;
    assert k > 0.0;
    MulPos(p, b + 0.1, k);
    assert p * k == 10.0 * (p * whole) * all;
    assert (b + 0.1) * k == 10.0 * (b * all) * whole + whole * all;
  }

  lemma Tenth(part: real, whole: real)
    requires whole > 0.0
    ensures part / whole > 0.1 <==> 10.0 * part > whole
  {
    Quotient(part, whole);
    MulPos(part / whole, 0.1, 10.0 * whole);
    assert part / whole * (10.0 * whole) == 10.0 * (part / whole * whole);
  }

  lemma ShareAboveIff(part: nat, whole: nat, base: nat, all: nat)
    ensures Share(part, whole) > Share(base, all) + 0.1 <==> TenPointsAbove(part, whole, base, all)
  {
    if whole == 0 {
      if all > 0 {
        assert Share(base, all) >= 0.0;
      }
    } else if all == 0 {
      Tenth(part as real, whole as real);
      assert (10 * part) as real == 10.0 * part as real;
    } else {
      Scaled(part as real, whole as real, base as real, all as real);
      WholeNumbers(part, whole, base, all);
    }
  }

  lemma WholeNumbers(part: nat, whole: nat, base: nat, all: nat)
    ensures 10.0 * part as real * all as real > 10.0 * base as real * whole as real + whole as real * all as real
       <==> 10 * part * all > 10 * base * whole + whole * all
  {
    assert (10 * part * all) as real == 10.0 * part as real * all as real;
    assert (10 * base * whole + whole * all) as real == 10.0 * base as real * whole as real + whole as real * all as real;
  }

  lemma {:induction false} LiveIs(peers: seq<Sample>)
    ensures Live(peers) != [] <==> SomeoneLive(peers)
  {
    if peers != [] {
      LiveIs(peers[1..]);
      assert forall i :: 0 < i < |peers| ==> peers[i] == peers[1..][i - 1];
    }
  }

  lemma {:induction false} LiveSplit(peers: seq<Sample>)
    requires peers != []
    ensures var front, last := peers[..|peers| - 1], peers[|peers| - 1];
            Live(peers) == Live(front) + if last.live then [last] else []
  {
    if |peers| > 1 {
      LiveSplit(peers[1..]);
      assert peers[1..][..|peers| - 2] == peers[..|peers| - 1][1..];
    } else {
      assert peers[..0] == [];
    }
  }

  lemma {:induction false} PoolIsTotal(peers: seq<Sample>)
    ensures var pool := Pool(Live(peers));
            && pool.down == Total(peers, (s: Sample) => s.down) && pool.wanted == Total(peers, (s: Sample) => s.wanted)
            && pool.faults == Total(peers, (s: Sample) => s.faults) && pool.calls == Total(peers, (s: Sample) => s.calls)
  {
    if peers != [] {
      var front, last := peers[..|peers| - 1], peers[|peers| - 1];
      PoolIsTotal(front);
      LiveSplit(peers);
      if last.live {
        PoolAppend(Live(front), last);
      } else {
        assert Live(front) + [] == Live(front);
      }
    }
  }

  /** Exactly when a canary is failed, held undecided or passed, over the counts of its live peers, and for which reason. */
  lemma VerdictIff(canary: Sample, onTarget: bool, peers: seq<Sample>, ceph: Option<Latency>)
    ensures var v := Judge(canary, onTarget, peers, ceph);
            && (v == Fail(OffTarget) <==> !onTarget)
            && (v == Fail(Silent) <==> onTarget && SomeoneLive(peers) && !canary.live)
            && (v == Fail(GuestsDown) <==> onTarget && SomeoneLive(peers) && canary.live && GuestsLag(canary, peers))
            && (v == Fail(AgentFaults) <==>
                  onTarget && SomeoneLive(peers) && canary.live && !GuestsLag(canary, peers) && CallsFault(canary, peers))
            && (v == Fail(SlowOsds) <==>
                  && onTarget && SomeoneLive(peers) && canary.live && !GuestsLag(canary, peers) && !CallsFault(canary, peers)
                  && OsdsLag(ceph))
            && (v.Unknown? <==> onTarget && !SomeoneLive(peers))
            && (v.Unknown? ==> v.reason == if canary.live then NoPeers else NobodyAlive)
            && (v.Pass? <==>
                  && onTarget && SomeoneLive(peers) && canary.live
                  && !GuestsLag(canary, peers) && !CallsFault(canary, peers) && !OsdsLag(ceph))
  {
    LiveIs(peers);
    PoolIsTotal(peers);
    var pool := Pool(Live(peers));
    ShareAboveIff(canary.down, canary.wanted, pool.down, pool.wanted);
    ShareAboveIff(canary.faults, canary.calls, pool.faults, pool.calls);
  }
}
