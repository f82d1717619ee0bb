/** Exclusion across replicas: when the leases that a network of controllers writes form one chain of terms. */
module LeaseRuns {
  import opened Prelude
  import opened Lease

  /** Controllers that have written and heard nothing yet. */
  function Start(clocks: map<string, int>): (net: Net) {
    Net(map c | c in clocks :: Replica(None, clocks[c], {}), {})
  }

  /** What a step writes, with its time. */
  function Wrote(renew: string -> int, net: Net, step: NetStep): (entries: seq<Entry>)
    requires Legal(net, step)
  {
    match step
    case Deliver(_, _) => []
    case Think(look) =>
      match Written(renew, net.replicas[look.self].row, look)
      case None => []
      case Some(lease) => [Entry(look.now, lease)]
  }

  function NetWrites(renew: string -> int, net: Net, steps: seq<NetStep>): (history: seq<Entry>)
    requires LegalRun(renew, net, steps)
    decreases steps
  {
    if steps == [] then [] else Wrote(renew, net, steps[0]) + NetWrites(renew, NetExec(renew, net, steps[0]), steps[1..])
  }

  /** The controllers share a clock that never goes back. */
  predicate Clocked(steps: seq<NetStep>, from: int)
    decreases steps
  {
    steps == [] ||
    match steps[0]
    case Think(look) => from <= look.now && Clocked(steps[1..], look.now)
    case Deliver(_, _) => Clocked(steps[1..], from)
  }

  function Last(history: seq<Entry>): (lease: LeaseView)
    requires history != []
  {
    history[|history| - 1].lease
  }

  /** The writer knows the newest lease; or that lease has expired and the writer knows one of its term. */
  predicate Informed(net: Net, history: seq<Entry>, look: Look)
    requires look.self in net.replicas
  {
    history == [] ||
    var last, seen := Last(history), net.replicas[look.self].seen;
    last in seen || (last.expires <= look.now && exists l :: l in seen && l.term == last.term)
  }

  /** Every controller is informed whenever it writes. */
  predicate AllInformed(renew: string -> int, net: Net, history: seq<Entry>, steps: seq<NetStep>)
    requires LegalRun(renew, net, steps)
    decreases steps
  {
    steps != [] ==>
      && (Wrote(renew, net, steps[0]) != [] ==> Informed(net, history, steps[0].look))
      && AllInformed(renew, NetExec(renew, net, steps[0]), history + Wrote(renew, net, steps[0]), steps[1..])
  }

  /** Every lease sent so far has reached a controller by the time it thinks. */
  predicate AllDelivered(renew: string -> int, net: Net, steps: seq<NetStep>)
    requires LegalRun(renew, net, steps)
    decreases steps
  {
    steps != [] ==>
      && (steps[0].Think? ==> net.sent <= net.replicas[steps[0].look.self].seen)
      && AllDelivered(renew, NetExec(renew, net, steps[0]), steps[1..])
  }

  function Leases(history: seq<Entry>): (r: set<LeaseView>) {
    set k | 0 <= k < |history| :: history[k].lease
  }

  /** The leases sent are those of a chain, each known to its holder. */
  predicate Traced(renew: string -> int, net: Net, history: seq<Entry>, from: int) {
    && NetInv(renew, net) && Chain(renew, history) && net.sent == Leases(history)
    && I64_MIN <= from && (history != [] ==> history[|history| - 1].at <= from)
    && KnownToHolders(net)
  }

  predicate KnownToHolders(net: Net) {
    forall l :: l in net.sent ==> l.holder in net.replicas && l in net.replicas[l.holder].seen
  }

  // ---- the newest lease of a chain -----------------------------------------

  lemma {:induction false} TermNamesHolder(renew: string -> int, history: seq<Entry>, a: nat, b: nat)
    requires Chain(renew, history) && a < |history| && b < |history| <= I64_MAX && history[a].lease.term == history[b].lease.term
    ensures history[a].lease.holder == history[b].lease.holder
  {
    if history[a].lease.holder != history[b].lease.holder {
      HolderChanges(renew, history, Min(a, b), Max(a, b));
    }
  }

  /** No lease of a chain is newer than, or outlives, its last one. */
  lemma LastIsNewest(renew: string -> int, history: seq<Entry>, l: LeaseView)
    requires Chain(renew, history) && history != [] && |history| <= I64_MAX && l in Leases(history)
    ensures l == Last(history) || Newer(Last(history), l)
    ensures l.term <= Last(history).term && l.expires <= Last(history).expires
    ensures 1 <= Last(history).term <= |history|
  {
    var k :| 0 <= k < |history| && history[k].lease == l;
    ExpiriesGrow(renew, history, k, |history| - 1);
    if l.term == Last(history).term {
      TermNamesHolder(renew, history, k, |history| - 1);
    }
  }

  /** A controller that knows the newest lease has it as its row. */
  lemma NewestIsTheRow(renew: string -> int, net: Net, history: seq<Entry>, from: int, c: string)
    requires Traced(renew, net, history, from) && history != [] && |history| <= I64_MAX && c in net.replicas
    requires Last(history) in net.replicas[c].seen
    ensures net.replicas[c].row == Some(Last(history))
  {
    var r := net.replicas[c];
    assert HoldsNewest(r) && r.row.value in Leases(history);
    LastIsNewest(renew, history, r.row.value);
    NewerIsOrder();
  }

  lemma NewestHasTopTerm(r: Replica)
    requires HoldsNewest(r) && r.row.Some?
    ensures r.row.value in r.seen && forall l :: l in r.seen ==> l.term <= r.row.value.term
  {
  }

  /** Any row is among the leases of the chain, and no lease its controller knows has a greater term. */
  lemma RowIsOfChain(renew: string -> int, net: Net, history: seq<Entry>, from: int, c: string)
    requires Traced(renew, net, history, from) && history != [] && |history| <= I64_MAX && c in net.replicas && net.replicas[c].row.Some?
    ensures var row := net.replicas[c].row.value;
            && row in net.replicas[c].seen && row.term <= Last(history).term && row.expires <= Last(history).expires
            && forall l :: l in net.replicas[c].seen ==> l.term <= row.term
  {
    var r := net.replicas[c];
    assert HoldsNewest(r) && r.seen <= Leases(history);
    NewestHasTopTerm(r);
    LastIsNewest(renew, history, r.row.value);
  }

  // ---- one write -------------------------------------------------------------

  lemma ChainGrows(renew: string -> int, history: seq<Entry>, e: Entry)
    requires Chain(renew, history) && I64_MIN <= e.at <= I64_MAX
    ensures Chain(renew, history + [e]) <==>
            if history == [] then e.lease.term == 1 && e.lease.expires == Expiry(e.at, renew(e.lease.holder))
            else Follows(renew, history[|history| - 1], e)
  {
    var more := history + [e];
    assert forall k :: 0 <= k < |history| ==> more[k] == history[k];
    assert more[|history|] == e;
    if history != [] && Follows(renew, history[|history| - 1], e) {
      forall k | 0 < k < |more| ensures Follows(renew, more[k - 1], more[k]) {
        assert k < |history| ==> Follows(renew, history[k - 1], history[k]);
      }
    }
    if history != [] && Chain(renew, more) {
      assert Follows(renew, more[|history| - 1], more[|history|]);
    }
  }

  lemma InformedRow(renew: string -> int, net: Net, history: seq<Entry>, from: int, look: Look)
    requires Traced(renew, net, history, from) && history != [] && |history| < I64_MAX && look.self in net.replicas && Informed(net, history, look)
    ensures var row, last := net.replicas[look.self].row, Last(history);
            row.Some? && (row.value == last || (row.value.term == last.term && row.value.expires <= last.expires <= look.now))
  {
    if Last(history) in net.replicas[look.self].seen {
      NewestIsTheRow(renew, net, history, from, look.self);
    } else {
      assert HoldsNewest(net.replicas[look.self]);
      RowIsOfChain(renew, net, history, from, look.self);
    }
  }

  /** A write made on the newest lease, or on an expired one of its term when it has expired too, follows it. */
  lemma WriteFollows(renew: string -> int, last: Entry, row: LeaseView, look: Look, w: LeaseView)
    requires last.at <= look.now && Written(renew, Some(row), look) == Some(w)
    requires row == last.lease || (row.term == last.lease.term && row.expires <= last.lease.expires <= look.now)
    ensures Follows(renew, last, Entry(look.now, w))
  {
  }

  lemma InformedWriteFollows(renew: string -> int, net: Net, history: seq<Entry>, from: int, look: Look, w: LeaseView)
    requires Traced(renew, net, history, from) && |history| < I64_MAX && Legal(net, Think(look)) && from <= look.now
    requires Written(renew, net.replicas[look.self].row, look) == Some(w) && Informed(net, history, look)
    ensures Chain(renew, history + [Entry(look.now, w)])
  {
    ChainGrows(renew, history, Entry(look.now, w));
    var r := net.replicas[look.self];
    if history == [] {
      assert Leases(history) == {};
      assert HoldsNewest(r);
    } else {
      InformedRow(renew, net, history, from, look);
      WriteFollows(renew, history[|history| - 1], r.row.value, look, w);
    }
  }

  /** A write on a row of a smaller term, or on none, does not follow an expired lease. */
  lemma BehindDoesNotFollow(renew: string -> int, last: Entry, row: Option<LeaseView>, look: Look, w: LeaseView)
    requires Written(renew, row, look) == Some(w) && last.lease.expires <= look.now && 1 <= last.lease.term < I64_MAX
    requires row.Some? ==> row.value.term < last.lease.term
    ensures !Follows(renew, last, Entry(look.now, w))
  {
  }

  lemma UninformedWriteBreaks(renew: string -> int, net: Net, history: seq<Entry>, from: int, look: Look, w: LeaseView)
    requires Traced(renew, net, history, from) && |history| < I64_MAX && Legal(net, Think(look)) && from <= look.now
    requires Written(renew, net.replicas[look.self].row, look) == Some(w) && !Informed(net, history, look)
    ensures !Chain(renew, history + [Entry(look.now, w)])
  {
    ChainGrows(renew, history, Entry(look.now, w));
    var last, row := history[|history| - 1], net.replicas[look.self].row;
    assert last.lease in Leases(history);
    if last.lease.expires > look.now {
      assert w.holder == look.self && last.lease.holder != look.self;
    } else {
      LastIsNewest(renew, history, last.lease);
      if row.Some? {
        RowIsOfChain(renew, net, history, from, look.self);
      }
      BehindDoesNotFollow(renew, last, row, look, w);
    }
  }

  lemma LeasesGrow(history: seq<Entry>, e: Entry)
    ensures Leases(history + [e]) == Leases(history) + {e.lease}
  {
    var more := history + [e];
    forall l | l in Leases(history) + {e.lease} ensures l in Leases(more) {
      if l in Leases(history) {
        var k :| 0 <= k < |history| && history[k].lease == l;
        assert more[k].lease == l;
      } else {
        assert more[|history|].lease == l;
      }
    }
  }

  function Time(step: NetStep, from: int): (now: int) {
    if step.Think? then step.look.now else from
  }

  lemma HoldersKnow(renew: string -> int, net: Net, step: NetStep)
    requires Legal(net, step) && KnownToHolders(net)
    ensures KnownToHolders(NetExec(renew, net, step))
  {
  }

  lemma SentStep(renew: string -> int, net: Net, history: seq<Entry>, step: NetStep)
    requires Legal(net, step) && net.sent == Leases(history)
    ensures NetExec(renew, net, step).sent == Leases(history + Wrote(renew, net, step))
  {
    var entries := Wrote(renew, net, step);
    if entries == [] {
      assert history + entries == history;
    } else {
      LeasesGrow(history, entries[0]);
    }
  }

  /** A step whose write follows keeps the leases traced. */
  lemma TracedStep(renew: string -> int, net: Net, history: seq<Entry>, from: int, step: NetStep)
    requires Traced(renew, net, history, from) && Legal(net, step) && from <= Time(step, from)
    requires Chain(renew, history + Wrote(renew, net, step))
    ensures Traced(renew, NetExec(renew, net, step), history + Wrote(renew, net, step), Time(step, from))
  {
    NetExecKeepsInv(renew, net, step);
    SentStep(renew, net, history, step);
    HoldersKnow(renew, net, step);
    TracedNext(renew, NetExec(renew, net, step), history, Wrote(renew, net, step), from, Time(step, from));
  }

  lemma TracedNext(renew: string -> int, net: Net, history: seq<Entry>, entries: seq<Entry>, from: int, now: int)
    requires NetInv(renew, net) && net.sent == Leases(history + entries) && KnownToHolders(net)
    requires Chain(renew, history + entries) && I64_MIN <= from <= now
    requires (history != [] ==> history[|history| - 1].at <= from) && (entries == [] || (|entries| == 1 && entries[0].at == now))
    ensures Traced(renew, net, history + entries, now)
  {
  }

  lemma ChainPrefix(renew: string -> int, history: seq<Entry>, more: seq<Entry>)
    requires Chain(renew, history + more)
    ensures Chain(renew, history)
  {
    var all := history + more;
    assert forall k :: 0 <= k < |history| ==> all[k] == history[k];
    forall k | 0 < k < |history| ensures Follows(renew, history[k - 1], history[k]) {
      assert Follows(renew, all[k - 1], all[k]);
    }
  }

  // ---- whole runs ------------------------------------------------------------

  lemma {:induction false} ChainIffInformedFrom(renew: string -> int, net: Net, history: seq<Entry>, from: int, steps: seq<NetStep>)
    requires Traced(renew, net, history, from) && LegalRun(renew, net, steps) && Clocked(steps, from)
    requires |history| + |NetWrites(renew, net, steps)| < I64_MAX
    ensures Chain(renew, history + NetWrites(renew, net, steps)) <==> AllInformed(renew, net, history, steps)
    decreases steps
  {
    if steps == [] {
      assert history + [] == history;
    } else {
      var entries, net' := Wrote(renew, net, steps[0]), NetExec(renew, net, steps[0]);
      var rest := NetWrites(renew, net', steps[1..]);
      Assoc(history, entries, rest);
      if entries == [] {
        assert history + entries == history;
        TracedStep(renew, net, history, from, steps[0]);
        ChainIffInformedFrom(renew, net', history, Time(steps[0], from), steps[1..]);
      } else if Informed(net, history, steps[0].look) {
        InformedWriteFollows(renew, net, history, from, steps[0].look, entries[0].lease);
        TracedStep(renew, net, history, from, steps[0]);
        ChainIffInformedFrom(renew, net', history + entries, Time(steps[0], from), steps[1..]);
      } else {
        UninformedWriteBreaks(renew, net, history, from, steps[0].look, entries[0].lease);
        if Chain(renew, (history + entries) + rest) {
          ChainPrefix(renew, history + entries, rest);
        }
      }
    }
  }

  lemma StartIsTraced(renew: string -> int, clocks: map<string, int>)
    ensures Traced(renew, Start(clocks), [], I64_MIN)
  {
    assert Leases([]) == {};
  }

  /**
   In every run of controllers that share a clock, the leases written form one
   chain, each term taken once and only after the one before it expired, exactly
   when every writer was informed.
   */
  lemma ChainIffInformed(renew: string -> int, clocks: map<string, int>, steps: seq<NetStep>)
    requires LegalRun(renew, Start(clocks), steps) && Clocked(steps, I64_MIN)
    requires |NetWrites(renew, Start(clocks), steps)| < I64_MAX
    ensures Chain(renew, NetWrites(renew, Start(clocks), steps)) <==> AllInformed(renew, Start(clocks), [], steps)
  {
    StartIsTraced(renew, clocks);
    ChainIffInformedFrom(renew, Start(clocks), [], I64_MIN, steps);
    assert [] + NetWrites(renew, Start(clocks), steps) == NetWrites(renew, Start(clocks), steps);
  }

  /** Leases of different controllers are never in force at the same time, and a later one has a greater term. */
  predicate Exclusive(history: seq<Entry>) {
    forall a, b :: 0 <= a < b < |history| && history[a].lease.holder != history[b].lease.holder ==>
      history[a].lease.expires <= history[b].at && history[a].lease.term < history[b].lease.term
  }

  lemma ChainsExclude(renew: string -> int, history: seq<Entry>)
    requires Chain(renew, history) && |history| < I64_MAX
    ensures Exclusive(history)
  {
    forall a, b | 0 <= a < b < |history| && history[a].lease.holder != history[b].lease.holder
      ensures history[a].lease.expires <= history[b].at && history[a].lease.term < history[b].lease.term
    {
      HolderChanges(renew, history, a, b);
    }
  }

  /** An uninformed write overlaps the lease before it, which is another controller's, or does not raise its term. */
  lemma UninformedWriteOverlaps(renew: string -> int, net: Net, history: seq<Entry>, from: int, look: Look, w: LeaseView)
    requires Traced(renew, net, history, from) && |history| < I64_MAX && Legal(net, Think(look)) && from <= look.now
    requires Written(renew, net.replicas[look.self].row, look) == Some(w) && !Informed(net, history, look)
    ensures Last(history).holder != w.holder && (Last(history).expires > look.now || w.term <= Last(history).term)
  {
    var last := Last(history);
    assert last in Leases(history) by {
      assert history[|history| - 1].lease == last;
    }
    assert w.holder == look.self && last.holder != look.self;
    if last.expires <= look.now {
      LastIsNewest(renew, history, last);
      if net.replicas[look.self].row.Some? {
        RowIsOfChain(renew, net, history, from, look.self);
        BehindRaisesNothing(renew, net.replicas[look.self].row, look, w, last.term);
      }
    }
  }

  lemma BehindRaisesNothing(renew: string -> int, row: Option<LeaseView>, look: Look, w: LeaseView, term: int)
    requires Written(renew, row, look) == Some(w) && row.Some? && row.value.term < term && 1 <= term
    ensures w.term <= term
  {
  }

  lemma PairOverlaps(history: seq<Entry>, e: Entry, more: seq<Entry>)
    requires history != [] && Last(history).holder != e.lease.holder && (Last(history).expires > e.at || e.lease.term <= Last(history).term)
    ensures !Exclusive(history + [e] + more)
  {
    var all := history + [e] + more;
    assert all[|history| - 1] == history[|history| - 1] && all[|history|] == e;
  }

  lemma {:induction false} ExclusiveIffInformedFrom(renew: string -> int, net: Net, history: seq<Entry>, from: int, steps: seq<NetStep>)
    requires Traced(renew, net, history, from) && LegalRun(renew, net, steps) && Clocked(steps, from)
    requires |history| + |NetWrites(renew, net, steps)| < I64_MAX
    ensures Exclusive(history + NetWrites(renew, net, steps)) <==> AllInformed(renew, net, history, steps)
    decreases steps
  {
    if steps == [] {
      assert history + [] == history;
      ChainsExclude(renew, history);
    } else {
      var entries, net' := Wrote(renew, net, steps[0]), NetExec(renew, net, steps[0]);
      var rest := NetWrites(renew, net', steps[1..]);
      Assoc(history, entries, rest);
      if entries == [] {
        assert history + entries == history;
        TracedStep(renew, net, history, from, steps[0]);
        ExclusiveIffInformedFrom(renew, net', history, Time(steps[0], from), steps[1..]);
      } else if Informed(net, history, steps[0].look) {
        InformedWriteFollows(renew, net, history, from, steps[0].look, entries[0].lease);
        TracedStep(renew, net, history, from, steps[0]);
        ExclusiveIffInformedFrom(renew, net', history + entries, Time(steps[0], from), steps[1..]);
      } else {
        UninformedWriteOverlaps(renew, net, history, from, steps[0].look, entries[0].lease);
        assert entries == [entries[0]];
        PairOverlaps(history, entries[0], rest);
      }
    }
  }

  /** In every run of controllers that share a clock, they exclude each other exactly when every writer was informed. */
  lemma ExclusiveIffInformed(renew: string -> int, clocks: map<string, int>, steps: seq<NetStep>)
    requires LegalRun(renew, Start(clocks), steps) && Clocked(steps, I64_MIN)
    requires |NetWrites(renew, Start(clocks), steps)| < I64_MAX
    ensures Exclusive(NetWrites(renew, Start(clocks), steps)) <==> AllInformed(renew, Start(clocks), [], steps)
  {
    StartIsTraced(renew, clocks);
    ExclusiveIffInformedFrom(renew, Start(clocks), [], I64_MIN, steps);
    assert [] + NetWrites(renew, Start(clocks), steps) == NetWrites(renew, Start(clocks), steps);
  }

  lemma {:induction false} DeliveredMeansInformed(renew: string -> int, net: Net, history: seq<Entry>, steps: seq<NetStep>)
    requires LegalRun(renew, net, steps) && AllDelivered(renew, net, steps) && Leases(history) <= net.sent
    ensures AllInformed(renew, net, history, steps)
    decreases steps
  {
    if steps != [] {
      var entries := Wrote(renew, net, steps[0]);
      if history != [] {
        assert history[|history| - 1].lease in Leases(history);
      }
      if entries == [] {
        assert history + entries == history;
      } else {
        LeasesGrow(history, entries[0]);
      }
      DeliveredMeansInformed(renew, NetExec(renew, net, steps[0]), history + entries, steps[1..]);
    }
  }

  /** Controllers that each hear every lease before they think never hold the lease at the same time, nor the same term. */
  lemma DeliveredControllersExclude(renew: string -> int, clocks: map<string, int>, steps: seq<NetStep>)
    requires LegalRun(renew, Start(clocks), steps) && Clocked(steps, I64_MIN) && AllDelivered(renew, Start(clocks), steps)
    requires |NetWrites(renew, Start(clocks), steps)| < I64_MAX
    ensures Exclusive(NetWrites(renew, Start(clocks), steps))
  {
    DeliveredMeansInformed(renew, Start(clocks), [], steps);
    ExclusiveIffInformed(renew, clocks, steps);
  }

  function Ready(self: string, now: int): (step: NetStep) {
    Think(Look(self, now, true, 0, 0, true))
  }

  /** Any two controllers that have not heard each other take the first term together; when they talk again the greater id keeps it. */
  lemma {:induction false} SplitControllersShareATerm(renew: string -> int, a: string, b: string, now: int)
    requires Less(a, b) && I64_MIN <= now < I64_MAX
    ensures var net, steps := Start(map[a := now, b := now]), [Ready(a, now), Ready(b, now)];
            LegalRun(renew, net, steps) && !AllInformed(renew, net, [], steps)
            && var la, lb := LeaseView(a, Expiry(now, renew(a)), 1), LeaseView(b, Expiry(now, renew(b)), 1);
               && NetWrites(renew, net, steps) == [Entry(now, la), Entry(now, lb)] && la.expires > now && lb.expires > now
               && Receive(Replica(Some(la), now, {la}), lb).row == Some(lb)
               && Receive(Replica(Some(lb), now, {lb}), la).row == Some(lb)
  {
    LessTrichotomy(a, b);
    var net, one, two := Start(map[a := now, b := now]), Ready(a, now), Ready(b, now);
    var net' := NetExec(renew, net, one);
    assert [one, two][1..] == [two] && [two][1..] == [];
    assert net'.replicas[b] == Replica(None, now, {});
    assert NetWrites(renew, net', [two]) == Wrote(renew, net', two) + [];
    assert [] + Wrote(renew, net, one) == Wrote(renew, net, one);
  }
}
