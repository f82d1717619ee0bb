/** The replication trace checker (scripts/check-replication-trace.py). */
module Trace {
  import opened Prelude
  import opened LastWriter

  /** An event as read from the trace; `None` is a missing required key. */
  datatype Raw = Raw(
    resource: Option<string>, op: Option<string>, rank: Option<int>, terminal: Option<string>,
    ts: int, controller: string, reservation: string, compensation: string, expected: Option<string>)

  datatype Event = Event(
    resource: string, op: string, rank: int, ts: int, controller: string,
    terminal: string, reservation: string, compensation: string)

  datatype Key = Key(rank: int, ts: int, controller: string, op: string)

  datatype Error =
    | Missing(index: nat) | BadTerminal(index: nat) | BadReservation(index: nat) | BadCompensation(index: nat)
    | NotCompensated(index: nat) | StrayCompensation(index: nat) | WrongWinner(index: nat, expected: string, actual: string)

  const AUTO_TERMINALS: set<string> := {"auto_accepted", "auto_rejected", "auto_compensated", "none"}
  const RESERVATION_STATES: set<string> :=
    {"not_applicable", "reserved", "failed_retryable", "failed_non_retryable", "retry_exhausted"}
  const COMPENSATION_STATES: set<string> := {"not_applicable", "queued", "completed"}

  function KeyOf(e: Event): (k: Key) {
    Key(e.rank, e.ts, e.controller, e.op)
  }

  /** Tuples compare left to right. */
  predicate Greater(a: Key, b: Key) {
    || a.rank > b.rank
    || (a.rank == b.rank &&
        (|| a.ts > b.ts
         || (a.ts == b.ts &&
             (Less(b.controller, a.controller) || (a.controller == b.controller && Less(b.op, a.op))))))
  }

  lemma GreaterIsOrder()
    ensures Orders(Greater)
  {
    forall a: Key
      ensures !Greater(a, a)
    {
      LessTrichotomy(a.controller, a.controller);
      LessTrichotomy(a.op, a.op);
    }
    forall a: Key, b: Key
      ensures Greater(a, b) || a == b || Greater(b, a)
    {
      LessTrichotomy(a.controller, b.controller);
      LessTrichotomy(a.op, b.op);
    }
    forall a: Key, b: Key, c: Key | Greater(a, b) && Greater(b, c)
      ensures Greater(a, c)
    {
      if Less(c.controller, b.controller) && Less(b.controller, a.controller) {
        LessTransitive(c.controller, b.controller, a.controller);
      }
      if Less(c.op, b.op) && Less(b.op, a.op) {
        LessTransitive(c.op, b.op, a.op);
      }
    }
  }

  predicate Complete(raw: Raw) {
    raw.resource.Some? && raw.op.Some? && raw.rank.Some? && raw.terminal.Some?
  }

  function Parse(raw: Raw): (e: Event)
    requires Complete(raw)
  {
    Event(raw.resource.value, raw.op.value, raw.rank.value, raw.ts, raw.controller,
          raw.terminal.value, raw.reservation, raw.compensation)
  }

  function Winner(current: Option<Event>, challenger: Event): (w: Event) {
    if current.None? || Greater(KeyOf(challenger), KeyOf(current.value)) then challenger else current.value
  }

  /** The complete events of one resource, in trace order. */
  function Of(raws: seq<Raw>, resource: string): (es: seq<Event>) {
    if raws == [] then []
    else
      var last := raws[|raws| - 1];
      Of(raws[..|raws| - 1], resource)
      + if Complete(last) && last.resource.value == resource then [Parse(last)] else []
  }

  function Head(raws: seq<Raw>, resource: string): (head: Option<Event>) {
    Fold(KeyOf, Greater, None, Of(raws, resource))
  }

  function StateErrors(i: nat, e: Event): (errors: seq<Error>) {
    (if e.terminal in AUTO_TERMINALS then [] else [BadTerminal(i)])
    + (if e.reservation in RESERVATION_STATES then [] else [BadReservation(i)])
    + (if e.compensation in COMPENSATION_STATES then [] else [BadCompensation(i)])
    + (if e.terminal == "auto_compensated" && e.compensation !in {"queued", "completed"} then [NotCompensated(i)] else [])
    + (if e.terminal != "auto_compensated" && e.compensation != "not_applicable" then [StrayCompensation(i)] else [])
  }

  /** The winner that the event expects is not the head. */
  function WinnerErrors(i: nat, raw: Raw, head: Event): (errors: seq<Error>) {
    if raw.expected.Some? && raw.expected.value != head.op then [WrongWinner(i, raw.expected.value, head.op)] else []
  }

  /** What is wrong with the last event: its own fields, or the winner it expects so far. */
  function LastErrors(raws: seq<Raw>): (errors: seq<Error>)
    requires raws != []
  {
    var i, raw := |raws| - 1, raws[|raws| - 1];
    if !Complete(raw) then [Missing(i)]
    else
      var head := Head(raws, raw.resource.value);
      StateErrors(i, Parse(raw)) + if head.Some? then WinnerErrors(i, raw, head.value) else []
  }

  function Errors(raws: seq<Raw>): (errors: seq<Error>) {
    if raws == [] then [] else Errors(raws[..|raws| - 1]) + LastErrors(raws)
  }

  lemma HeadStep(raws: seq<Raw>, raw: Raw, resource: string)
    ensures Head(raws + [raw], resource) ==
              if Complete(raw) && raw.resource.value == resource then Some(Winner(Head(raws, resource), Parse(raw)))
              else Head(raws, resource)
  {
    assert (raws + [raw])[..|raws|] == raws;
    if Complete(raw) && raw.resource.value == resource {
      FoldAppend(KeyOf, Greater, None, Of(raws, resource), Parse(raw));
    } else {
      assert Of(raws, resource) + [] == Of(raws, resource);
    }
  }

  lemma ErrorsStep(raws: seq<Raw>, raw: Raw)
    ensures !Complete(raw) ==> Errors(raws + [raw]) == Errors(raws) + [Missing(|raws|)]
    ensures Complete(raw) ==>
              var head := Winner(Head(raws, raw.resource.value), Parse(raw));
              Errors(raws + [raw]) == Errors(raws) + StateErrors(|raws|, Parse(raw)) + WinnerErrors(|raws|, raw, head)
  {
    assert (raws + [raw])[..|raws|] == raws;
    if Complete(raw) {
      HeadStep(raws, raw, raw.resource.value);
      var head := Winner(Head(raws, raw.resource.value), Parse(raw));
      Assoc(Errors(raws), StateErrors(|raws|, Parse(raw)), WinnerErrors(|raws|, raw, head));
    }
  }

  /** The map holds the head of every resource. */
  ghost predicate HoldsHeads(heads: map<string, Event>, raws: seq<Raw>) {
    && (forall r :: r in heads <==> Head(raws, r).Some?)
    && (forall r :: r in heads ==> Some(heads[r]) == Head(raws, r))
  }

  lemma HeadsStep(heads: map<string, Event>, raws: seq<Raw>, raw: Raw)
    requires HoldsHeads(heads, raws)
    ensures !Complete(raw) ==> HoldsHeads(heads, raws + [raw])
    ensures Complete(raw) ==>
              var event := Parse(raw);
              var prior := if event.resource in heads then Some(heads[event.resource]) else None;
              prior == Head(raws, event.resource) && HoldsHeads(heads[event.resource := Winner(prior, event)], raws + [raw])
  {
    forall r ensures Head(raws + [raw], r) ==
                       if Complete(raw) && raw.resource.value == r then Some(Winner(Head(raws, r), Parse(raw))) else Head(raws, r)
    {
      HeadStep(raws, raw, r);
    }
  }

  lemma NoHeads()
    ensures HoldsHeads(map[], [])
  {
  }

  function Prior(heads: map<string, Event>, resource: string): (head: Option<Event>) {
    if resource in heads then Some(heads[resource]) else None
  }

  /** One turn of the checker's loop. */
  method CheckEvent(i: nat, raw: Raw, heads: map<string, Event>) returns (heads': map<string, Event>, errors: seq<Error>)
    ensures !Complete(raw) ==> heads' == heads && errors == [Missing(i)]
    ensures Complete(raw) ==>
              var event := Parse(raw);
              var head := Winner(Prior(heads, event.resource), event);
              heads' == heads[event.resource := head] && errors == StateErrors(i, event) + WinnerErrors(i, raw, head)
  {
    if !Complete(raw) {
      return heads, [Missing(i)];
    }
    var event := Parse(raw);
    errors := StateErrors(i, event);
    var head := Winner(Prior(heads, event.resource), event);
    heads' := heads[event.resource := head];
    if raw.expected.Some? && raw.expected.value != head.op {
      errors := errors + [WrongWinner(i, raw.expected.value, head.op)];
    }
  }

  lemma TurnIs(raws: seq<Raw>, raw: Raw, heads: map<string, Event>, heads': map<string, Event>, errors: seq<Error>)
    requires HoldsHeads(heads, raws)
    requires !Complete(raw) ==> heads' == heads && errors == [Missing(|raws|)]
    requires Complete(raw) ==>
               var event := Parse(raw);
               var head := Winner(Prior(heads, event.resource), event);
               heads' == heads[event.resource := head] && errors == StateErrors(|raws|, event) + WinnerErrors(|raws|, raw, head)
    ensures HoldsHeads(heads', raws + [raw]) && Errors(raws + [raw]) == Errors(raws) + errors
  {
    HeadsStep(heads, raws, raw);
    ErrorsStep(raws, raw);
    if Complete(raw) {
      var head := Winner(Prior(heads, raw.resource.value), Parse(raw));
      Assoc(Errors(raws), StateErrors(|raws|, Parse(raw)), WinnerErrors(|raws|, raw, head));
    }
  }

  /** The checker's loop: the head of every resource and all errors. */
  method CheckTrace(raws: seq<Raw>) returns (heads: map<string, Event>, errors: seq<Error>)
    ensures HoldsHeads(heads, raws)
    ensures errors == Errors(raws)
  {
    heads, errors := map[], [];
    ghost var seen := [];
    NoHeads();
    for i := 0 to |raws|
      invariant seen == raws[..i]
      invariant HoldsHeads(heads, seen) && errors == Errors(seen)
    {
      var heads', more := CheckEvent(i, raws[i], heads);
      TurnIs(seen, raws[i], heads, heads', more);
      heads, errors, seen := heads', errors + more, seen + [raws[i]];
    }
    assert seen == raws;
  }

  /** Every head has the greatest key of its resource's events. */
  lemma {:induction false} HeadIsGreatest(raws: seq<Raw>, resource: string)
    ensures Head(raws, resource).None? <==> Of(raws, resource) == []
    ensures var es, head := Of(raws, resource), Head(raws, resource);
            head.Some? ==> head.value in es && forall i :: 0 <= i < |es| ==> !Greater(KeyOf(es[i]), KeyOf(head.value))
  {
    GreaterIsOrder();
    FoldIsGreatest(KeyOf, Greater, None, Of(raws, resource));
  }

  /** Traces with the same keys for a resource, in any order and with any duplicates, name the same winning operation. */
  lemma {:induction false} WinnersAgree(raws: seq<Raw>, others: seq<Raw>, resource: string)
    requires forall k :: HasKey(KeyOf, Of(raws, resource), k) <==> HasKey(KeyOf, Of(others, resource), k)
    ensures Head(raws, resource).None? == Head(others, resource).None?
    ensures Head(raws, resource).Some? ==> Head(raws, resource).value.op == Head(others, resource).value.op
  {
    GreaterIsOrder();
    FoldsAgree(KeyOf, Greater, Of(raws, resource), Of(others, resource));
  }

  // ---- who wins and what is an error, by fields -------------------------------

  /** A higher rank wins whatever else; then the later timestamp; then the greater controller id; then the greater op id. */
  predicate Beats(a: Event, b: Event) {
    if a.rank != b.rank then a.rank > b.rank
    else if a.ts != b.ts then a.ts > b.ts
    else if a.controller != b.controller then Less(b.controller, a.controller)
    else Less(b.op, a.op)
  }

  predicate IsOf(raws: seq<Raw>, resource: string, e: Event, k: nat) {
    k < |raws| && Complete(raws[k]) && raws[k].resource == Some(resource) && Parse(raws[k]) == e
  }

  /** The head of a resource is one of its complete events, and no other of them beats it. */
  lemma {:induction false} HeadIsUnbeaten(raws: seq<Raw>, resource: string, i: nat)
    requires i < |raws| && Complete(raws[i]) && raws[i].resource == Some(resource)
    ensures var head := Head(raws, resource);
            && head.Some? && !Beats(Parse(raws[i]), head.value)
            && exists k: nat :: IsOf(raws, resource, head.value, k)
  {
    HeadIsGreatest(raws, resource);
    OfMembers(raws, resource, Parse(raws[i]));
    assert IsOf(raws, resource, Parse(raws[i]), i);
    var head := Head(raws, resource);
    OfMembers(raws, resource, head.value);
    var es := Of(raws, resource);
    var j :| 0 <= j < |es| && es[j] == Parse(raws[i]);
    LessTrichotomy(es[j].controller, head.value.controller);
  }

  lemma {:induction false} OfMembers(raws: seq<Raw>, resource: string, e: Event)
    ensures e in Of(raws, resource) <==> exists k: nat :: IsOf(raws, resource, e, k)
  {
    if raws != [] {
      var front, last := raws[..|raws| - 1], raws[|raws| - 1];
      OfMembers(front, resource, e);
      if k: nat :| IsOf(front, resource, e, k) {
        assert IsOf(raws, resource, e, k);
      }
      if k: nat :| IsOf(raws, resource, e, k) {
        assert k < |front| ==> IsOf(front, resource, e, k);
      }
      if Complete(last) && last.resource.value == resource && Parse(last) == e {
        assert IsOf(raws, resource, e, |raws| - 1);
      }
    }
  }

  predicate Compensated(e: Raw) {
    e.terminal == Some("auto_compensated")
  }

  /** What is wrong with event `i` of a trace. */
  predicate Wrong(raws: seq<Raw>, i: nat, error: Error)
    requires i < |raws|
  {
    var raw := raws[i];
    match error
    case Missing(k) => k == i && !Complete(raw)
    case BadTerminal(k) => k == i && Complete(raw) && raw.terminal.value !in {"auto_accepted", "auto_rejected", "auto_compensated", "none"}
    case BadReservation(k) =>
      && k == i && Complete(raw)
      && raw.reservation !in {"not_applicable", "reserved", "failed_retryable", "failed_non_retryable", "retry_exhausted"}
    case BadCompensation(k) => k == i && Complete(raw) && raw.compensation !in {"not_applicable", "queued", "completed"}
    case NotCompensated(k) => k == i && Complete(raw) && Compensated(raw) && raw.compensation != "queued" && raw.compensation != "completed"
    case StrayCompensation(k) => k == i && Complete(raw) && !Compensated(raw) && raw.compensation != "not_applicable"
    case WrongWinner(k, expected, actual) =>
      && k == i && Complete(raw) && raw.expected == Some(expected) && expected != actual
      && Head(raws[..i + 1], raw.resource.value).Some? && Head(raws[..i + 1], raw.resource.value).value.op == actual
  }

  lemma LastErrorsAre(raws: seq<Raw>, error: Error)
    requires raws != []
    ensures error in LastErrors(raws) <==> Wrong(raws, |raws| - 1, error)
  {
    var i, raw := |raws| - 1, raws[|raws| - 1];
    assert raws[..i + 1] == raws;
    if Complete(raw) {
      StateErrorsAre(raws, i, error);
    }
  }

  lemma StateErrorsAre(raws: seq<Raw>, i: nat, error: Error)
    requires i < |raws| && Complete(raws[i])
    ensures error in StateErrors(i, Parse(raws[i])) <==> !error.WrongWinner? && Wrong(raws, i, error)
  {
  }

  lemma WrongEarlier(raws: seq<Raw>, i: nat, error: Error)
    requires i < |raws| - 1
    ensures Wrong(raws, i, error) <==> Wrong(raws[..|raws| - 1], i, error)
  {
    assert raws[..|raws| - 1][..i + 1] == raws[..i + 1];
  }

  predicate SomeWrong(raws: seq<Raw>, error: Error) {
    exists i :: 0 <= i < |raws| && Wrong(raws, i, error)
  }

  lemma SomeWrongStep(raws: seq<Raw>, error: Error)
    requires raws != []
    ensures SomeWrong(raws, error) <==> SomeWrong(raws[..|raws| - 1], error) || Wrong(raws, |raws| - 1, error)
  {
    var front := raws[..|raws| - 1];
    if i :| 0 <= i < |front| && Wrong(front, i, error) {
      WrongEarlier(raws, i, error);
    }
    if i :| 0 <= i < |raws| && Wrong(raws, i, error) {
      if i < |front| {
        WrongEarlier(raws, i, error);
      }
    }
  }

  /** The errors are exactly what is wrong with some event, the winner being that of the events so far. */
  lemma {:induction false} ErrorsIff(raws: seq<Raw>, error: Error)
    ensures error in Errors(raws) <==> SomeWrong(raws, error)
  {
    if raws != [] {
      ErrorsIff(raws[..|raws| - 1], error);
      LastErrorsAre(raws, error);
      SomeWrongStep(raws, error);
    }
  }
}
