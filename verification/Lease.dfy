/**
 The failover lease (crates/controller/src/ha.rs, `decide_lease` and
 `lease_supersedes`): one controller at a time fences and moves VMs.
 */
module Lease {
  import opened Prelude
  import opened LastWriter

  const I64_MAX := 0x7FFF_FFFF_FFFF_FFFF
  const I64_MIN := -0x8000_0000_0000_0000

  /** 64-bit arithmetic that stops at its limits. */
  function Saturate(x: int): (r: int) {
    if x > I64_MAX then I64_MAX else if x < I64_MIN then I64_MIN else x
  }

  datatype LeaseView = LeaseView(holder: string, expires: int, term: int)

  datatype Decision = Act(term: int, expires: int) | Wait

  function Expiry(now: int, renew: int): (expires: int) {
    Saturate(now + Saturate(Max(renew, 1) * 3))
  }

  function Decide(now: int, self: string, peers: bool, heard: bool, lag: int, maxLag: int, renew: int,
                  current: Option<LeaseView>): (d: Decision)
  {
    var expires := Expiry(now, renew);
    if !peers then Act(if current.Some? then current.value.term else 1, expires)
    else if !heard || lag > maxLag then Wait
    else if current.Some? && current.value.expires > now && current.value.holder != self then Wait
    else if current.Some? && current.value.expires > now then Act(current.value.term, expires)
    else Act(if current.Some? then Saturate(current.value.term + 1) else 1, expires)
  }

  lemma ExpiryMonotone(now: int, later: int, renew: int)
    requires now <= later
    ensures Expiry(now, renew) <= Expiry(later, renew)
    ensures I64_MIN <= now <= I64_MAX ==> now <= Expiry(now, renew) <= I64_MAX
  {
  }

  /** Another controller's lease is still running. */
  predicate HeldByAnother(now: int, self: string, current: Option<LeaseView>) {
    current.Some? && current.value.holder != self && now < current.value.expires
  }

  predicate HeldBySelf(now: int, self: string, current: Option<LeaseView>) {
    current.Some? && current.value.holder == self && now < current.value.expires
  }

  /**
   With peers, a controller waits exactly when it has not heard from a node itself,
   lags behind, or another holds a running lease. A controller that acts keeps the
   term of its own running lease and otherwise takes the next one, and its lease
   runs for three renewals. Alone it always acts and keeps the term.
   */
  lemma ActsIff(now: int, self: string, peers: bool, heard: bool, lag: int, maxLag: int, renew: int, current: Option<LeaseView>)
    ensures var d := Decide(now, self, peers, heard, lag, maxLag, renew, current);
            && (d.Wait? <==> peers && (!heard || lag > maxLag || HeldByAnother(now, self, current)))
            && (d.Act? && current.None? ==> d.term == 1)
            && (d.Act? && current.Some? && (!peers || HeldBySelf(now, self, current)) ==> d.term == current.value.term)
            && (d.Act? && current.Some? && peers && !HeldBySelf(now, self, current) && I64_MIN <= current.value.term < I64_MAX ==>
                  d.term == current.value.term + 1)
            && (d.Act? && I64_MIN <= now && 0 < renew && 3 * renew <= I64_MAX && now + 3 * renew <= I64_MAX ==> d.expires == now + 3 * renew)
            && (d.Act? && I64_MIN <= now && renew <= 0 && now + 3 <= I64_MAX ==> d.expires == now + 3)
            && (d.Act? && 0 <= now <= I64_MAX < now + 3 * renew ==> d.expires == I64_MAX)
  {
  }

  // ---- one shared row ----------------------------------------------------

  /** A controller looks at the shared row. `open` says whether it may claim a new term yet. */
  datatype Look = Look(self: string, now: int, heard: bool, lag: int, maxLag: int, open: bool)

  /** A lease written at `at`, in force until it expires. */
  datatype Entry = Entry(at: int, lease: LeaseView)

  function Current(history: seq<Entry>): (row: Option<LeaseView>) {
    if history == [] then None else Some(history[|history| - 1].lease)
  }

  /** The lease a controller writes when it looks at the row, if any (`maintain_failover_lease` with peers). */
  function Written(renew: string -> int, row: Option<LeaseView>, look: Look): (r: Option<LeaseView>) {
    match Decide(look.now, look.self, true, look.heard, look.lag, look.maxLag, renew(look.self), row)
    case Wait => None
    case Act(term, expires) =>
      var claiming := row.None? || term > row.value.term || row.value.holder != look.self;
      if claiming && !look.open then None else Some(LeaseView(look.self, expires, term))
  }

  /**
   A controller with peers writes a lease, its own, exactly when it hears the nodes,
   is up to date, nobody else's lease runs, and it renews a running one or may claim.
   */
  lemma WrittenIff(renew: string -> int, row: Option<LeaseView>, look: Look)
    requires row.Some? ==> I64_MIN <= row.value.term < I64_MAX
    ensures var w := Written(renew, row, look);
            && (w.Some? <==> && look.heard && look.lag <= look.maxLag && !HeldByAnother(look.now, look.self, row)
                             && (HeldBySelf(look.now, look.self, row) || look.open))
            && (w.Some? ==> && w.value.holder == look.self
                            && w.value.term == (if row.None? then 1 else if HeldBySelf(look.now, look.self, row) then row.value.term else row.value.term + 1))
  {
    ActsIff(look.now, look.self, true, look.heard, look.lag, look.maxLag, renew(look.self), row);
  }

  /** Each controller has its own renew period. */
  function Maintain(renew: string -> int, history: seq<Entry>, look: Look): (history': seq<Entry>) {
    match Written(renew, Current(history), look)
    case None => history
    case Some(lease) => history + [Entry(look.now, lease)]
  }

  function Looks(renew: string -> int, history: seq<Entry>, looks: seq<Look>): (history': seq<Entry>)
    decreases looks
  {
    if looks == [] then history else Looks(renew, Maintain(renew, history, looks[0]), looks[1..])
  }

  /** The clock the controllers share never goes back. */
  predicate ClockForward(looks: seq<Look>, from: int) {
    && (forall i :: 0 <= i < |looks| ==> from <= looks[i].now <= I64_MAX)
    && (forall i, j :: 0 <= i < j < |looks| ==> looks[i].now <= looks[j].now)
  }

  /** Neighbouring entries: a live lease is only renewed, an expired one is taken at the next term. */
  predicate Follows(renew: string -> int, a: Entry, b: Entry) {
    && a.at <= b.at
    && b.lease.expires == Expiry(b.at, renew(b.lease.holder))
    && if a.lease.expires > b.at then b.lease.holder == a.lease.holder && b.lease.term == a.lease.term
       else b.lease.term == Saturate(a.lease.term + 1)
  }

  predicate Chain(renew: string -> int, history: seq<Entry>) {
    && (history != [] ==>
          && history[0].lease.term == 1
          && history[0].lease.expires == Expiry(history[0].at, renew(history[0].lease.holder)))
    && (forall i :: 0 <= i < |history| ==> I64_MIN <= history[i].at <= I64_MAX)
    && (forall i :: 0 < i < |history| ==> Follows(renew, history[i - 1], history[i]))
  }

  lemma {:induction false} LooksChain(renew: string -> int, history: seq<Entry>, looks: seq<Look>, from: int)
    requires Chain(renew, history) && ClockForward(looks, from) && from >= I64_MIN
    requires history != [] ==> history[|history| - 1].at <= from
    ensures Chain(renew, Looks(renew, history, looks))
    decreases looks
  {
    if looks != [] {
      var next := Maintain(renew, history, looks[0]);
      assert Chain(renew, next);
      LooksChain(renew, next, looks[1..], looks[0].now);
    }
  }

  lemma {:induction false} ExpiriesGrow(renew: string -> int, history: seq<Entry>, a: nat, b: nat)
    requires Chain(renew, history) && a <= b < |history|
    ensures history[a].lease.expires <= history[b].lease.expires
    ensures history[a].at <= history[b].at
    ensures history[a].lease.term <= history[b].lease.term <= Min(b + 1, I64_MAX)
    ensures b < I64_MAX ==> history[b].lease.term >= 1
    decreases b
  {
    if b > 0 {
      assert Follows(renew, history[b - 1], history[b]);
      ExpiriesGrow(renew, history, if a < b then a else b - 1, b - 1);
      ExpiryMonotone(history[b - 1].at, history[b].at, renew(history[b].lease.holder));
      if b >= 2 {
        assert Follows(renew, history[b - 2], history[b - 1]);
      }
    }
  }

  /**
   Leases of different controllers are never in force at the same time, and
   while fewer than 2^63 leases were written every change of holder raises the
   term, so a term names one holder.
   */
  lemma {:induction false} HoldersNeverOverlap(renew: string -> int, looks: seq<Look>, a: nat, b: nat)
    requires ClockForward(looks, I64_MIN)
    requires a < b < |Looks(renew, [], looks)|
    ensures var history := Looks(renew, [], looks);
            history[a].lease.holder != history[b].lease.holder ==>
              && history[a].lease.expires <= history[b].at
              && (b < I64_MAX ==> history[a].lease.term < history[b].lease.term)
  {
    var history := Looks(renew, [], looks);
    LooksChain(renew, [], looks, I64_MIN);
    if history[a].lease.holder != history[b].lease.holder {
      HolderChanges(renew, history, a, b);
    }
  }

  lemma {:induction false} HolderChanges(renew: string -> int, history: seq<Entry>, a: nat, b: nat)
    requires Chain(renew, history) && a < b < |history|
    requires history[a].lease.holder != history[b].lease.holder
    ensures history[a].lease.expires <= history[b].at
    ensures b < I64_MAX ==> history[a].lease.term < history[b].lease.term
    decreases b
  {
    assert Follows(renew, history[b - 1], history[b]);
    if history[b - 1].lease.holder == history[b].lease.holder {
      HolderChanges(renew, history, a, b - 1);
      ExpiriesGrow(renew, history, b - 1, b);
    } else {
      ExpiriesGrow(renew, history, a, b - 1);
    }
  }

  // ---- replicated rows ---------------------------------------------------

  /** The order in which leases replace each other. */
  predicate Newer(a: LeaseView, b: LeaseView) {
    a.term > b.term || (a.term == b.term && (Less(b.holder, a.holder) || (a.holder == b.holder && a.expires > b.expires)))
  }

  predicate Supersedes(current: Option<LeaseView>, incoming: LeaseView) {
    current.None? || Newer(incoming, current.value)
  }

  lemma NewerIsOrder()
    ensures Orders(Newer)
  {
    forall a: LeaseView
      ensures !Newer(a, a)
    {
      LessTrichotomy(a.holder, a.holder);
    }
    forall a: LeaseView, b: LeaseView
      ensures Newer(a, b) || a == b || Newer(b, a)
    {
      LessTrichotomy(a.holder, b.holder);
    }
    forall a: LeaseView, b: LeaseView, c: LeaseView | Newer(a, b) && Newer(b, c)
      ensures Newer(a, c)
    {
      if Less(c.holder, b.holder) && Less(b.holder, a.holder) {
        LessTransitive(c.holder, b.holder, a.holder);
      }
    }
  }

  /** A greater term, of one term the greater holder, of one holder the later end. */
  predicate Outranks(a: LeaseView, b: LeaseView) {
    if a.term != b.term then a.term > b.term
    else if a.holder != b.holder then Less(b.holder, a.holder)
    else a.expires > b.expires
  }

  lemma OutranksIff(a: LeaseView, b: LeaseView)
    ensures Outranks(a, b) <==> Newer(a, b)
  {
    LessTrichotomy(a.holder, b.holder);
  }

  /** Leases delivered in any order, any number of times, leave every replica with the same row: the newest. */
  lemma {:induction false} ReplicasConverge(xs: seq<LeaseView>, ys: seq<LeaseView>)
    requires forall l :: l in xs <==> l in ys
    ensures Fold(l => l, Newer, None, xs) == Fold(l => l, Newer, None, ys)
    ensures xs != [] ==>
              var r := Fold(l => l, Newer, None, xs);
              r.Some? && r.value in xs && forall l :: l in xs ==> l == r.value || Outranks(r.value, l)
  {
    NewerIsOrder();
    var id := (l: LeaseView) => l;
    FoldIsGreatest(id, Newer, None, xs);
    forall l: LeaseView
      ensures HasKey(id, xs, l) <==> l in xs
      ensures HasKey(id, ys, l) <==> l in ys
    {
      if l in xs {
        var i :| 0 <= i < |xs| && xs[i] == l;
        assert id(xs[i]) == l;
      }
      if l in ys {
        var j :| 0 <= j < |ys| && ys[j] == l;
        assert id(ys[j]) == l;
      }
    }
    FoldsAgree(id, Newer, xs, ys);
    forall a, b ensures Outranks(a, b) <==> Newer(a, b) {
      OutranksIff(a, b);
    }
  }

  // ---- a network of replicas ---------------------------------------------

  /** One controller's copy of the row, its own clock, and (for the proof) every lease it wrote or received. */
  datatype Replica = Replica(row: Option<LeaseView>, clock: int, seen: set<LeaseView>)

  datatype Net = Net(replicas: map<string, Replica>, sent: set<LeaseView>)

  datatype NetStep = Think(look: Look) | Deliver(to: string, lease: LeaseView)

  /** Clocks are local and only move forward; a lease arrives only if somebody sent it. */
  predicate Legal(net: Net, step: NetStep) {
    match step
    case Think(look) =>
      && look.self in net.replicas
      && var r := net.replicas[look.self];
         r.clock <= look.now <= I64_MAX && (r.row.Some? ==> r.row.value.term < I64_MAX)
    case Deliver(to, lease) => to in net.replicas && lease in net.sent
  }

  function Receive(r: Replica, lease: LeaseView): (r': Replica) {
    Replica(if Supersedes(r.row, lease) then Some(lease) else r.row, r.clock, r.seen + {lease})
  }

  function NetExec(renew: string -> int, net: Net, step: NetStep): (net': Net)
    requires Legal(net, step)
  {
    match step
    case Deliver(to, lease) => net.(replicas := net.replicas[to := Receive(net.replicas[to], lease)])
    case Think(look) =>
      var r := net.replicas[look.self];
      match Written(renew, r.row, look)
      case None => net.(replicas := net.replicas[look.self := r.(clock := look.now)])
      case Some(l) =>
        Net(net.replicas[look.self := Replica(Some(l), look.now, r.seen + {l})], net.sent + {l})
  }

  /** The copy is the newest lease its controller wrote or received. */
  predicate HoldsNewest(r: Replica) {
    && (r.row.None? <==> r.seen == {})
    && (r.row.Some? ==> r.row.value in r.seen && forall l :: l in r.seen ==> l == r.row.value || Newer(r.row.value, l))
  }

  predicate NetInv(renew: string -> int, net: Net) {
    && (forall c :: c in net.replicas ==> HoldsNewest(net.replicas[c]) && net.replicas[c].seen <= net.sent)
    && (forall l :: l in net.sent ==>
          l.holder in net.replicas && l.expires <= Expiry(net.replicas[l.holder].clock, renew(l.holder)))
  }

  /** A controller never writes a lease older than the row it had. */
  lemma WritesMoveForward(renew: string -> int, r: Replica, look: Look)
    requires HoldsNewest(r) && r.clock <= look.now
    requires r.row.Some? ==> r.row.value.term < I64_MAX
    requires r.row.Some? && r.row.value.holder == look.self ==> r.row.value.expires <= Expiry(r.clock, renew(look.self))
    ensures var w := Written(renew, r.row, look);
            w.Some? && r.row.Some? ==> w == r.row || Newer(w.value, r.row.value)
    ensures var w := Written(renew, r.row, look);
            w.Some? ==> HoldsNewest(Replica(w, look.now, r.seen + {w.value}))
  {
    ExpiryMonotone(r.clock, look.now, renew(look.self));
    NewerIsOrder();
    var w := Written(renew, r.row, look);
    if w.Some? && r.row.Some? {
      assert w == r.row || Newer(w.value, r.row.value);
      forall l | l in r.seen
        ensures l == w.value || Newer(w.value, l)
      {
        assert l == r.row.value || Newer(r.row.value, l);
      }
    }
  }

  lemma ReceivedStaysNewest(r: Replica, lease: LeaseView)
    requires HoldsNewest(r)
    ensures HoldsNewest(Receive(r, lease))
  {
    NewerIsOrder();
    if r.row.Some? && Supersedes(r.row, lease) {
      forall l | l in r.seen
        ensures Newer(lease, l)
      {
        assert l == r.row.value || Newer(r.row.value, l);
      }
    }
  }

  lemma NetExecKeepsInv(renew: string -> int, net: Net, step: NetStep)
    requires NetInv(renew, net) && Legal(net, step)
    ensures NetInv(renew, NetExec(renew, net, step))
  {
    match step
    case Deliver(to, lease) => ReceivedStaysNewest(net.replicas[to], lease);
    case Think(look) =>
      var r := net.replicas[look.self];
      WritesMoveForward(renew, r, look);
      ExpiryMonotone(r.clock, look.now, renew(look.self));
  }

  predicate LegalRun(renew: string -> int, net: Net, steps: seq<NetStep>)
    decreases steps
  {
    steps == [] || (Legal(net, steps[0]) && LegalRun(renew, NetExec(renew, net, steps[0]), steps[1..]))
  }

  function NetRun(renew: string -> int, net: Net, steps: seq<NetStep>): (net': Net)
    requires LegalRun(renew, net, steps)
    decreases steps
  {
    if steps == [] then net else NetRun(renew, NetExec(renew, net, steps[0]), steps[1..])
  }

  lemma {:induction false} NetRunKeepsInv(renew: string -> int, net: Net, steps: seq<NetStep>)
    requires NetInv(renew, net) && LegalRun(renew, net, steps)
    ensures NetInv(renew, NetRun(renew, net, steps))
    decreases steps
  {
    if steps != [] {
      NetExecKeepsInv(renew, net, steps[0]);
      NetRunKeepsInv(renew, NetExec(renew, net, steps[0]), steps[1..]);
    }
  }

  /**
   In every run of decisions and deliveries, whatever is lost, repeated or
   reordered, two controllers that wrote or received the same leases agree on
   the holder, and it is the newest lease any of them knows.
   */
  lemma {:induction false} ControllersAgree(renew: string -> int, clocks: map<string, int>, steps: seq<NetStep>, a: string, b: string)
    requires var net := Net(map c | c in clocks :: Replica(None, clocks[c], {}), {}); LegalRun(renew, net, steps)
    requires var net := Net(map c | c in clocks :: Replica(None, clocks[c], {}), {});
             var net' := NetRun(renew, net, steps);
             a in net'.replicas && b in net'.replicas && net'.replicas[a].seen == net'.replicas[b].seen
    ensures var net := Net(map c | c in clocks :: Replica(None, clocks[c], {}), {});
            var net' := NetRun(renew, net, steps);
            var row, seen := net'.replicas[a].row, net'.replicas[a].seen;
            && net'.replicas[b].row == row
            && (row.None? <==> seen == {})
            && (row.Some? ==> row.value in seen && forall l :: l in seen ==> l == row.value || Outranks(row.value, l))
  {
    var net := Net(map c | c in clocks :: Replica(None, clocks[c], {}), {});
    NetRunKeepsInv(renew, net, steps);
    NewerIsOrder();
    forall a, b ensures Outranks(a, b) <==> Newer(a, b) {
      OutranksIff(a, b);
    }
  }
}
