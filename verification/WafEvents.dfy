/** Aggregation of WAF events into windows (crates/controller/src/ingress_events.rs). */
module WafEvents {
  import opened Prelude
  import opened LastWriter

  const WINDOW_SECS := 60
  const TOP_N := 5
  const MAX_DISTINCT := 1024

  /** Events are collected per route and action. */
  datatype Slot = Slot(route: string, blocked: bool)

  datatype Hit = Hit(gateway: string, slot: Slot, rule: int, client: string, now: int)

  datatype Window = Window(start: int, gateway: string, count: nat, rules: map<int, nat>, clients: map<string, nat>)

  // ---- bounded counting --------------------------------------------------

  function Bump<K>(m: map<K, nat>, k: K): (m': map<K, nat>) {
    if k in m then m[k := m[k] + 1] else if |m| < MAX_DISTINCT then m[k := 1] else m
  }

  function Occurrences<K(==)>(keys: seq<K>, k: K): (n: nat) {
    if keys == [] then 0 else Occurrences(keys[..|keys| - 1], k) + if keys[|keys| - 1] == k then 1 else 0
  }

  /** Tracked keys are counted exactly, and a key goes untracked only when the map is full. */
  ghost predicate Tally<K(!new)>(m: map<K, nat>, keys: seq<K>) {
    && |m| <= 1024
    && (forall k :: k in m ==> m[k] == Occurrences(keys, k) && m[k] > 0)
    && (forall k :: k !in m ==> Occurrences(keys, k) == 0 || |m| == 1024)
  }

  lemma BumpKeepsTally<K(!new)>(m: map<K, nat>, keys: seq<K>, k: K)
    requires Tally(m, keys)
    ensures Tally(Bump(m, k), keys + [k])
  {
    assert (keys + [k])[..|keys|] == keys;
    assert forall j :: Occurrences(keys + [k], j) == Occurrences(keys, j) + if j == k then 1 else 0;
  }

  // ---- one slot ----------------------------------------------------------

  function Opened(hit: Hit): (w: Window) {
    Window(hit.now, hit.gateway, 0, map[], map[])
  }

  function Counted(w: Window, hit: Hit): (w': Window) {
    w.(count := w.count + 1, rules := Bump(w.rules, hit.rule), clients := Bump(w.clients, hit.client))
  }

  predicate Due(w: Window, now: int) {
    now - w.start >= WINDOW_SECS
  }

  datatype Op = Record(hit: Hit) | Drain(now: int)

  /** A window that was sent, with the events it stands for. */
  datatype Batch = Batch(window: Window, hits: seq<Hit>, at: int)

  /** One slot: its open window and events, and the batches already sent. */
  datatype Ledger = Ledger(window: Option<Window>, open: seq<Hit>, sent: seq<Batch>)

  function Apply(slot: Slot, l: Ledger, op: Op): (l': Ledger) {
    match op
    case Record(hit) =>
      if hit.slot != slot then l
      else
        var w := if l.window.Some? then l.window.value else Opened(hit);
        Ledger(Some(Counted(w, hit)), l.open + [hit], l.sent)
    case Drain(now) =>
      if l.window.Some? && Due(l.window.value, now)
      then Ledger(None, [], l.sent + [Batch(l.window.value, l.open, now)]) else l
  }

  function Run(slot: Slot, ops: seq<Op>): (l: Ledger) {
    if ops == [] then Ledger(None, [], []) else Apply(slot, Run(slot, ops[..|ops| - 1]), ops[|ops| - 1])
  }

  function Rules(hits: seq<Hit>): (keys: seq<int>) {
    seq(|hits|, i requires 0 <= i < |hits| => hits[i].rule)
  }

  function Clients(hits: seq<Hit>): (keys: seq<string>) {
    seq(|hits|, i requires 0 <= i < |hits| => hits[i].client)
  }

  /** The window counts exactly these events. */
  ghost predicate Stands(w: Window, hits: seq<Hit>) {
    && hits != [] && w.count == |hits| && w.start == hits[0].now && w.gateway == hits[0].gateway
    && Tally(w.rules, Rules(hits)) && Tally(w.clients, Clients(hits))
  }

  lemma CountedStands(l: Ledger, hit: Hit)
    requires l.window.Some? ==> Stands(l.window.value, l.open)
    requires l.window.None? ==> l.open == []
    ensures var w := if l.window.Some? then l.window.value else Opened(hit); Stands(Counted(w, hit), l.open + [hit])
  {
    var w := if l.window.Some? then l.window.value else Opened(hit);
    assert Rules(l.open + [hit]) == Rules(l.open) + [hit.rule];
    assert Clients(l.open + [hit]) == Clients(l.open) + [hit.client];
    if l.window.None? {
      assert Rules(l.open) == [] && Clients(l.open) == [];
    }
    BumpKeepsTally(w.rules, Rules(l.open), hit.rule);
    BumpKeepsTally(w.clients, Clients(l.open), hit.client);
  }

  /** The events recorded for a slot, in order. */
  function Recorded(slot: Slot, ops: seq<Op>): (hits: seq<Hit>) {
    if ops == [] then []
    else
      var last := ops[|ops| - 1];
      Recorded(slot, ops[..|ops| - 1]) + if last.Record? && last.hit.slot == slot then [last.hit] else []
  }

  function SentHits(sent: seq<Batch>): (hits: seq<Hit>) {
    if sent == [] then [] else SentHits(sent[..|sent| - 1]) + sent[|sent| - 1].hits
  }

  function SentCount(sent: seq<Batch>): (n: nat) {
    if sent == [] then 0 else SentCount(sent[..|sent| - 1]) + sent[|sent| - 1].window.count
  }

  /** The ledger holds exactly these events, in order, with exact counts. */
  ghost predicate Accounts(l: Ledger, hits: seq<Hit>) {
    && hits == SentHits(l.sent) + l.open
    && SentCount(l.sent) + (if l.window.Some? then l.window.value.count else 0) == |hits|
    && (if l.window.Some? then Stands(l.window.value, l.open) else l.open == [])
    && (forall i :: 0 <= i < |l.sent| ==>
          Stands(l.sent[i].window, l.sent[i].hits) && l.sent[i].at - l.sent[i].hits[0].now >= 60)
  }

  lemma RecordAccounts(slot: Slot, l: Ledger, hits: seq<Hit>, hit: Hit)
    requires Accounts(l, hits) && hit.slot == slot
    ensures Accounts(Apply(slot, l, Record(hit)), hits + [hit])
  {
    CountedStands(l, hit);
    assert SentHits(l.sent) + l.open + [hit] == SentHits(l.sent) + (l.open + [hit]);
  }

  lemma DrainAccounts(slot: Slot, l: Ledger, hits: seq<Hit>, now: int)
    requires Accounts(l, hits)
    ensures Accounts(Apply(slot, l, Drain(now)), hits)
  {
    if l.window.Some? && Due(l.window.value, now) {
      var batch := Batch(l.window.value, l.open, now);
      assert (l.sent + [batch])[..|l.sent|] == l.sent;
      assert SentHits(l.sent) + l.open + [] == SentHits(l.sent) + l.open;
    }
  }

  /** Nothing is lost, repeated or mixed up: the sent batches and the open window hold the recorded events, in order, with exact counts. */
  lemma {:induction false} EveryEventIsAccountedFor(slot: Slot, ops: seq<Op>)
    ensures Accounts(Run(slot, ops), Recorded(slot, ops))
  {
    if ops != [] {
      var init, last := ops[..|ops| - 1], ops[|ops| - 1];
      EveryEventIsAccountedFor(slot, init);
      var l := Run(slot, init);
      assert Recorded(slot, init) + [] == Recorded(slot, init);
      match last {
        case Record(hit) =>
          if hit.slot == slot {
            RecordAccounts(slot, l, Recorded(slot, init), hit);
          }
        case Drain(now) =>
          DrainAccounts(slot, l, Recorded(slot, init), now);
      }
    }
  }

  /** A drain sends the open events of a slot, all of them, exactly when the first is a minute old. */
  lemma {:induction false} SentAfterAMinute(slot: Slot, ops: seq<Op>, now: int)
    ensures var l, l' := Run(slot, ops), Run(slot, ops + [Drain(now)]);
            if l.open != [] && now - l.open[0].now >= 60
            then l'.open == [] && |l'.sent| == |l.sent| + 1 && l'.sent[..|l.sent|] == l.sent
                 && l'.sent[|l.sent|].hits == l.open && l'.sent[|l.sent|].at == now
            else l' == l
  {
    EveryEventIsAccountedFor(slot, ops);
    assert (ops + [Drain(now)])[..|ops|] == ops;
  }

  // ---- the five largest --------------------------------------------------

  datatype Item<K> = Item(key: K, count: nat)

  /** Larger counts first, then smaller keys; `gt` orders the keys. */
  predicate Better<K(==)>(gt: (K, K) -> bool, a: Item<K>, b: Item<K>) {
    a.count > b.count || (a.count == b.count && gt(b.key, a.key))
  }

  predicate Ranked<K(==)>(gt: (K, K) -> bool, items: seq<Item<K>>) {
    forall i, j :: 0 <= i < j < |items| ==> Better(gt, items[i], items[j])
  }

  predicate InMap<K(==)>(m: map<K, nat>, item: Item<K>) {
    item.key in m && m[item.key] == item.count
  }

  /** `items` are the best `TOP_N` entries of `m`, best first. */
  ghost predicate IsTop<K(!new)>(gt: (K, K) -> bool, m: map<K, nat>, items: seq<Item<K>>) {
    && |items| == Min(TOP_N, |m|)
    && Ranked(gt, items)
    && (forall i :: 0 <= i < |items| ==> InMap(m, items[i]))
    && (forall k :: k in m && Item(k, m[k]) !in items ==> forall i :: 0 <= i < |items| ==> Better(gt, items[i], Item(k, m[k])))
  }

  function InsertItem<K(==)>(gt: (K, K) -> bool, x: Item<K>, items: seq<Item<K>>): (r: seq<Item<K>>) {
    if items == [] || Better(gt, x, items[0]) then [x] + items else [items[0]] + InsertItem(gt, x, items[1..])
  }

  lemma {:induction false} InsertRanked<K(!new)>(gt: (K, K) -> bool, x: Item<K>, items: seq<Item<K>>)
    requires Orders(gt) && Ranked(gt, items) && forall i :: 0 <= i < |items| ==> items[i].key != x.key
    ensures var r := InsertItem(gt, x, items);
            Ranked(gt, r) && |r| == |items| + 1 && forall y :: y in r <==> y == x || y in items
  {
    if items != [] && !Better(gt, x, items[0]) {
      InsertRanked(gt, x, items[1..]);
      var tail := InsertItem(gt, x, items[1..]);
      assert Better(gt, items[0], x);
      forall j | 0 <= j < |tail|
        ensures Better(gt, items[0], tail[j])
      {
        assert tail[j] in tail;
        assert tail[j] == x || tail[j] in items[1..];
      }
    }
  }

  /** The entries with keys in `keys`, ranked. */
  ghost predicate RanksKeys<K(!new)>(gt: (K, K) -> bool, m: map<K, nat>, keys: set<K>, items: seq<Item<K>>) {
    && Ranked(gt, items) && |items| == |keys|
    && (forall i :: 0 <= i < |items| ==> items[i].key in keys && InMap(m, items[i]))
    && (forall k :: k in keys && k in m ==> Item(k, m[k]) in items)
  }

  lemma RanksGrow<K(!new)>(gt: (K, K) -> bool, m: map<K, nat>, keys: set<K>, items: seq<Item<K>>, k: K)
    requires Orders(gt) && RanksKeys(gt, m, keys, items) && k in m && k !in keys
    ensures RanksKeys(gt, m, keys + {k}, InsertItem(gt, Item(k, m[k]), items))
  {
    InsertRanked(gt, Item(k, m[k]), items);
    var all := InsertItem(gt, Item(k, m[k]), items);
    forall i | 0 <= i < |all|
      ensures all[i].key in keys + {k} && InMap(m, all[i])
    {
      assert all[i] in all;
      assert all[i] == Item(k, m[k]) || all[i] in items;
    }
  }

  lemma TopOfRanked<K(!new)>(gt: (K, K) -> bool, m: map<K, nat>, items: seq<Item<K>>)
    requires Orders(gt) && RanksKeys(gt, m, m.Keys, items)
    ensures IsTop(gt, m, items[..Min(TOP_N, |items|)])
  {
    var first := items[..Min(TOP_N, |items|)];
    forall k, i | k in m && Item(k, m[k]) !in first && 0 <= i < |first|
      ensures Better(gt, first[i], Item(k, m[k]))
    {
      assert Item(k, m[k]) in items;
      var j :| 0 <= j < |items| && items[j] == Item(k, m[k]);
      assert forall n :: 0 <= n < |first| ==> first[n] == items[n] && items[n] in first;
    }
  }

  /** Sorts a copy of the entries and keeps the first five. */
  method Top<K(!new, ==)>(gt: (K, K) -> bool, m: map<K, nat>) returns (items: seq<Item<K>>)
    requires Orders(gt)
    ensures IsTop(gt, m, items)
  {
    var left := m.Keys;
    var all: seq<Item<K>> := [];
    while left != {}
      invariant left <= m.Keys && RanksKeys(gt, m, m.Keys - left, all)
      decreases |left|
    {
      var k :| k in left;
      RanksGrow(gt, m, m.Keys - left, all, k);
      assert m.Keys - (left - {k}) == m.Keys - left + {k};
      all := InsertItem(gt, Item(k, m[k]), all);
      left := left - {k};
    }
    TopOfRanked(gt, m, all);
    items := all[..Min(TOP_N, |all|)];
  }

  // ---- the aggregator ----------------------------------------------------

  datatype Summary = Summary(slot: Slot, gateway: string, count: nat, seconds: int,
                             topRules: seq<Item<int>>, topClients: seq<Item<string>>)

  predicate IntGreater(a: int, b: int) {
    a > b
  }

  predicate TextGreater(a: string, b: string) {
    Less(b, a)
  }

  lemma KeysAreOrdered()
    ensures Orders(IntGreater) && Orders(TextGreater)
  {
    forall a: string, b: string
      ensures !TextGreater(a, a) && (TextGreater(a, b) || a == b || TextGreater(b, a))
    {
      LessTrichotomy(a, a);
      LessTrichotomy(a, b);
    }
    forall a: string, b: string, c: string | TextGreater(a, b) && TextGreater(b, c)
      ensures TextGreater(a, c)
    {
      LessTransitive(c, b, a);
    }
  }

  /** The summary of a window closed at `now`. */
  ghost predicate Summarizes(s: Summary, slot: Slot, w: Window, now: int) {
    && s.slot == slot && s.gateway == w.gateway && s.count == w.count && s.seconds == now - w.start
    && IsTop(IntGreater, w.rules, s.topRules) && IsTop(TextGreater, w.clients, s.topClients)
  }

  /** By route, and `blocked` before `detected`. */
  predicate Precedes(a: Slot, b: Slot) {
    Less(a.route, b.route) || (a.route == b.route && a.blocked && !b.blocked)
  }

  lemma PrecedesIsOrder(a: Slot, b: Slot, c: Slot)
    ensures !Precedes(a, a)
    ensures Precedes(a, b) && Precedes(b, c) ==> Precedes(a, c)
    ensures a != b ==> Precedes(a, b) || Precedes(b, a)
  {
    LessTrichotomy(a.route, a.route);
    LessTrichotomy(a.route, b.route);
    if Less(a.route, b.route) && Less(b.route, c.route) {
      LessTransitive(a.route, b.route, c.route);
    }
  }

  predicate InOrder(out: seq<Summary>) {
    forall i, j :: 0 <= i < j < |out| ==> Precedes(out[i].slot, out[j].slot)
  }

  function InsertSummary(x: Summary, out: seq<Summary>): (r: seq<Summary>) {
    if out == [] || Precedes(x.slot, out[0].slot) then [x] + out else [out[0]] + InsertSummary(x, out[1..])
  }

  lemma {:induction false} InsertInOrder(x: Summary, out: seq<Summary>)
    requires InOrder(out) && forall i :: 0 <= i < |out| ==> out[i].slot != x.slot
    ensures InOrder(InsertSummary(x, out))
    ensures forall y :: y in InsertSummary(x, out) <==> y == x || y in out
  {
    if out != [] {
      if Precedes(x.slot, out[0].slot) {
        forall j | 0 <= j < |out|
          ensures Precedes(x.slot, out[j].slot)
        {
          PrecedesIsOrder(x.slot, out[0].slot, out[j].slot);
        }
      } else {
        InsertInOrder(x, out[1..]);
        var tail := InsertSummary(x, out[1..]);
        PrecedesIsOrder(out[0].slot, x.slot, x.slot);
        forall j | 0 <= j < |tail|
          ensures Precedes(out[0].slot, tail[j].slot)
        {
          assert tail[j] in tail;
          assert tail[j] == x || tail[j] in out[1..];
        }
      }
    }
  }

  function Lookup(windows: map<Slot, Window>, slot: Slot): (w: Option<Window>) {
    if slot in windows then Some(windows[slot]) else None
  }

  function DueSlots(windows: map<Slot, Window>, now: int): (slots: set<Slot>) {
    set slot | slot in windows && Due(windows[slot], now)
  }

  /** `out` holds one summary for each window of `windows` with its slot in `slots`. */
  ghost predicate Reports(out: seq<Summary>, windows: map<Slot, Window>, slots: set<Slot>, now: int) {
    && InOrder(out)
    && (forall i :: 0 <= i < |out| ==> out[i].slot in slots && out[i].slot in windows
                                       && Summarizes(out[i], out[i].slot, windows[out[i].slot], now))
    && (forall slot :: slot in slots ==> exists i :: 0 <= i < |out| && out[i].slot == slot)
  }

  /** `items` lists five counts, or all there are: each as counted, larger ones first and then smaller keys, nothing larger left out. */
  ghost predicate ListsLargest<K(!new)>(lt: (K, K) -> bool, m: map<K, nat>, items: seq<Item<K>>) {
    && |items| == (if |m| < 5 then |m| else 5)
    && (forall i :: 0 <= i < |items| ==> items[i].key in m && m[items[i].key] == items[i].count)
    && (forall i, j :: 0 <= i < j < |items| ==>
          items[i].count > items[j].count || (items[i].count == items[j].count && lt(items[i].key, items[j].key)))
    && (forall k, i :: k in m && 0 <= i < |items| && Item(k, m[k]) !in items ==>
          m[k] < items[i].count || (m[k] == items[i].count && lt(items[i].key, k)))
  }

  predicate HasSummary(out: seq<Summary>, slot: Slot) {
    exists i :: 0 <= i < |out| && out[i].slot == slot
  }

  /** The slots of a report: by route, and of one route what was blocked before what was detected. */
  lemma ReportsAre(out: seq<Summary>, windows: map<Slot, Window>, now: int)
    requires Reports(out, windows, DueSlots(windows, now), now)
    ensures forall slot :: HasSummary(out, slot) <==> slot in windows && now - windows[slot].start >= 60
    ensures forall i, j :: 0 <= i < j < |out| ==>
              var a, b := out[i].slot, out[j].slot;
              Less(a.route, b.route) || (a.route == b.route && a.blocked && !b.blocked)
    ensures forall i :: 0 <= i < |out| ==>
              && out[i].slot in windows
              && var w := windows[out[i].slot];
                 && out[i].gateway == w.gateway && out[i].count == w.count && out[i].seconds == now - w.start
                 && ListsLargest((a, b) => a < b, w.rules, out[i].topRules)
                 && ListsLargest(Less, w.clients, out[i].topClients)
  {
    forall slot
      ensures HasSummary(out, slot) <==> slot in windows && now - windows[slot].start >= 60
    {
      if slot in windows && now - windows[slot].start >= 60 {
        assert slot in DueSlots(windows, now);
      }
    }
    forall i | 0 <= i < |out|
      ensures out[i].slot in windows
      ensures ListsLargest((a, b) => a < b, windows[out[i].slot].rules, out[i].topRules)
      ensures ListsLargest(Less, windows[out[i].slot].clients, out[i].topClients)
    {
      TopRulesAre(windows[out[i].slot].rules, out[i].topRules);
      TopClientsAre(windows[out[i].slot].clients, out[i].topClients);
    }
  }

  lemma TopRulesAre(m: map<int, nat>, items: seq<Item<int>>)
    requires IsTop(IntGreater, m, items)
    ensures ListsLargest((a, b) => a < b, m, items)
  {
  }

  lemma TopClientsAre(m: map<string, nat>, items: seq<Item<string>>)
    requires IsTop(TextGreater, m, items)
    ensures ListsLargest(Less, m, items)
  {
  }

  method Summarize(slot: Slot, w: Window, now: int) returns (s: Summary)
    ensures Summarizes(s, slot, w, now)
  {
    KeysAreOrdered();
    var rules := Top(IntGreater, w.rules);
    var clients := Top(TextGreater, w.clients);
    s := Summary(slot, w.gateway, w.count, now - w.start, rules, clients);
  }

  method SummarizeAll(windows: map<Slot, Window>, due: set<Slot>, now: int) returns (out: seq<Summary>)
    requires due <= windows.Keys
    ensures Reports(out, windows, due, now)
  {
    var left := due;
    out := [];
    ghost var done := {};
    while left != {}
      invariant left <= due && done == due - left
      invariant Reports(out, windows, done, now)
      decreases |left|
    {
      var slot :| slot in left;
      var s := Summarize(slot, windows[slot], now);
      ReportsGrow(s, out, windows, done, now);
      out := InsertSummary(s, out);
      left := left - {slot};
      done := done + {slot};
    }
    assert done == due;
  }

  class WafAggregator {
    var windows: map<Slot, Window>
    ghost var ops: seq<Op>

    /** The open windows are those of the recorded and drained events so far. */
    ghost predicate Valid()
      reads this
    {
      forall slot :: Lookup(windows, slot) == Run(slot, ops).window
    }

    constructor ()
      ensures Valid() && ops == []
    {
      windows, ops := map[], [];
    }

    method RecordHit(hit: Hit)
      requires Valid()
      modifies this
      ensures Valid() && ops == old(ops) + [Record(hit)]
    {
      var w := if hit.slot in windows then windows[hit.slot] else Opened(hit);
      windows := windows[hit.slot := Counted(w, hit)];
      ops := ops + [Record(hit)];
      assert ops[..|ops| - 1] == old(ops);
      assert forall slot :: Run(slot, old(ops)).window == Lookup(old(windows), slot);
    }

    /** Removes and returns the windows that are due, in order. */
    method DrainDue(now: int) returns (out: seq<Summary>)
      requires Valid()
      modifies this
      ensures Valid() && ops == old(ops) + [Drain(now)]
      ensures Reports(out, old(windows), DueSlots(old(windows), now), now)
      ensures forall slot :: slot in windows <==> slot in old(windows) && !Due(old(windows)[slot], now)
    {
      var due := DueSlots(windows, now);
      out := SummarizeAll(windows, due, now);
      windows := map slot | slot in windows && slot !in due :: windows[slot];
      ops := ops + [Drain(now)];
      assert ops[..|ops| - 1] == old(ops);
      assert forall slot :: Run(slot, old(ops)).window == Lookup(old(windows), slot);
    }
  }

  lemma ReportsGrow(s: Summary, out: seq<Summary>, windows: map<Slot, Window>, slots: set<Slot>, now: int)
    requires Reports(out, windows, slots, now) && s.slot !in slots && s.slot in windows
    requires Summarizes(s, s.slot, windows[s.slot], now)
    ensures Reports(InsertSummary(s, out), windows, slots + {s.slot}, now)
  {
    InsertInOrder(s, out);
    var out' := InsertSummary(s, out);
    forall i | 0 <= i < |out'|
      ensures out'[i].slot in slots + {s.slot} && out'[i].slot in windows
      ensures Summarizes(out'[i], out'[i].slot, windows[out'[i].slot], now)
    {
      assert out'[i] in out';
      assert out'[i] == s || out'[i] in out;
    }
    forall slot | slot in slots + {s.slot}
      ensures exists i :: 0 <= i < |out'| && out'[i].slot == slot
    {
      if slot == s.slot {
        assert s in out';
      } else {
        var i :| 0 <= i < |out| && out[i].slot == slot;
        assert out[i] in out';
      }
    }
  }
}
