/**
 One tick of the cluster update reconciler
 (crates/controller/src/cluster_update_reconciler.rs).

 A tick reads the node rows, then makes calls to node agents and writes rows.
 `Tick` gives these calls and writes in the order they happen, so a controller
 that crashes, or whose database refuses a write, has performed some prefix of
 them. Everything the controller does not decide itself (answers of the agents,
 clocks, verdicts) is an arbitrary field of `Env`.
 */
module Rollout {
  import opened Prelude
  import opened Canary

  const ACTIVATE_CONFIRM_SECS := 1200
  const REBOOT_CONFIRM_SECS := 1800

  datatype Phase =
    | Pending | Prepared | Drained | WaitingReady | Bootstrapping | Confirming
    | RebootRequired | Rebooting | Soaking | AwaitingPromotion | RollingBack
    | Succeeded | Failed | Cancelled | Unheard

  /** A node's row. `since` is when the database last wrote it; an empty `target` is none. */
  datatype Row = Row(phase: Phase, target: string, requiresReboot: bool, since: int)

  datatype Outcome = AllSucceeded | SomeFailed | AllCancelled

  datatype UpdatePhase = Ready | RollingOut | Reverting | Finished(outcome: Outcome)

  datatype Db = Db(phase: UpdatePhase, rows: seq<Row>)

  /** The fixed part of an update: its rollout order before the canary is moved, and its spec. */
  datatype Config = Config(order: seq<NodeId>, strategy: Strategy, bootMode: bool, autoReboot: bool)

  datatype Rpc = Prepare | Activate | Rollback | Reboot

  datatype Event =
    | Call(rpc: Rpc, node: NodeId)
    | Write(node: NodeId, row: Row)
    | Judged(node: NodeId, verdict: Verdict, at: int, since: int)
    | Patch(phase: UpdatePhase)

  datatype PrepareReply = PrepareOk(target: string, requiresReboot: bool) | PrepareFailed

  /** What Slurm and Kubernetes ask for before a prepared node may activate. */
  datatype Detour = NoDetour | DetourWait | DetourDrained | DetourFailed

  datatype ActivateReply = ActivateOk(requiresReboot: bool, rebootPhase: bool, target: string) | ActivateFailed

  datatype ReadyReply = NotReady | ReadyButCordoned | ReadyUncordoned

  datatype StatusPhase = StatusFailed | SwitchPending | Activated | OtherStatus

  datatype Status = Status(phase: StatusPhase, target: string, booted: string)

  /** `Refused` comes before the row is written, `Rejected` after; then the old row may or may not be put back. */
  datatype RebootReply = Refused | Rebooted | Rejected(restored: bool)

  datatype Env = Env(
    now: int,
    done: int,
    addressed: set<NodeId>,
    generational: set<NodeId>,
    prepare: PrepareReply,
    detour: Detour,
    activate: ActivateReply,
    ready: ReadyReply,
    status: Option<Status>,
    statusAgain: Option<Status>,
    nixos: string,
    booted: string,
    reboot: RebootReply,
    rebootBack: bool,
    schemaStuck: bool,
    verdict: Verdict)

  // ---- order -------------------------------------------------------------

  function Position(order: seq<NodeId>, id: NodeId): (i: nat)
    ensures i <= |order|
    ensures i < |order| ==> order[i] == id
    ensures id in order <==> i < |order|
  {
    if order == [] || order[0] == id then 0 else 1 + Position(order[1..], id)
  }

  function CanaryOf(c: Config): (id: Option<NodeId>) {
    Pick(c.strategy, c.order)
  }

  /** The order nodes are worked on: the canary first. */
  function WorkOrder(c: Config): (order: seq<NodeId>) {
    match CanaryOf(c)
    case None => c.order
    case Some(id) =>
      var at := Position(c.order, id);
      if at == |c.order| then c.order else [id] + Without(c.order, at)
  }

  // ---- pure decisions ----------------------------------------------------

  predicate NotStarted(p: Phase) {
    p.Pending? || p.Prepared?
  }

  predicate Settled(p: Phase) {
    p.Succeeded? || p.Cancelled? || p.Failed?
  }

  predicate AnyFailed(rows: seq<Row>) {
    exists i :: 0 <= i < |rows| && rows[i].phase.Failed?
  }

  predicate AllSettled(rows: seq<Row>) {
    forall i :: 0 <= i < |rows| ==> Settled(rows[i].phase)
  }

  function FinalOutcome(rows: seq<Row>): (o: Outcome) {
    if AnyFailed(rows) then SomeFailed
    else if forall i :: 0 <= i < |rows| ==> rows[i].phase.Cancelled? then AllCancelled
    else AllSucceeded
  }

  function FinishedPhase(c: Config, id: NodeId): (p: Phase) {
    if CanaryOf(c) == Some(id) then Soaking else Succeeded
  }

  predicate MayConfirm(c: Config, row: Row) {
    row.target != "" && !row.requiresReboot && !c.bootMode
  }

  predicate GenerationIsCurrent(nixos: string, booted: string, target: string, reboot: bool) {
    target == "" || booted == target || (!reboot && nixos == target)
  }

  /** `Some(true)` confirmed, `Some(false)` out of time, `None` still waiting. */
  function ConfirmActivation(nixos: string, booted: string, target: string, nodeConfirmed: bool, age: int): (r: Option<bool>) {
    if nodeConfirmed && target != "" && GenerationIsCurrent(nixos, booted, target, false) then Some(true)
    else if age >= ACTIVATE_CONFIRM_SECS then Some(false)
    else None
  }

  datatype RebootStep = RebootDone | RebootNow | RebootTimedOut | RebootWait

  function RebootProgress(row: Row, status: Status, auto: bool, timedOut: bool): (step: RebootStep) {
    var bootedTarget := row.target != "" && GenerationIsCurrent("", status.booted, row.target, true);
    if bootedTarget && status.phase.Activated? then RebootDone
    else if timedOut then RebootTimedOut
    else if row.phase.RebootRequired? && auto && !bootedTarget then RebootNow
    else RebootWait
  }

  datatype SoakStep = SoakRevert | SoakPromote | SoakHold | SoakWait

  function SoakProgress(verdict: Verdict, phase: Phase, age: int, soak: int): (step: SoakStep) {
    if verdict.Fail? && age >= Min(GRACE_SECS, soak) then SoakRevert
    else if !phase.Soaking? || age < soak then SoakWait
    else match verdict
         case Pass => SoakPromote
         case Unknown(_) => SoakHold
         case Fail(_) => SoakWait
  }

  // ---- the work on one node ----------------------------------------------

  function PrepareWork(n: NodeId, e: Env): (evs: seq<Event>) {
    [Call(Prepare, n),
     Write(n, match e.prepare
              case PrepareOk(target, reboot) => Row(Prepared, target, reboot, e.done)
              case PrepareFailed => Row(Failed, "", false, e.done))]
  }

  function ActivatedRow(c: Config, n: NodeId, row: Row, r: ActivateReply, e: Env): (row': Row)
    requires r.ActivateOk?
  {
    var phase :=
      if r.requiresReboot || r.rebootPhase then RebootRequired
      else if n !in e.generational then Bootstrapping
      else FinishedPhase(c, n);
    Row(phase, ActivatedTarget(row, r), r.requiresReboot, e.done)
  }

  function ActivatedTarget(row: Row, r: ActivateReply): (target: string)
    requires r.ActivateOk?
  {
    if r.target == "" then row.target else r.target
  }

  function PreparedWork(c: Config, n: NodeId, row: Row, e: Env): (evs: seq<Event>) {
    match e.detour
    case DetourWait => []
    case DetourDrained => [Write(n, row.(phase := Drained, since := e.done))]
    case DetourFailed => [Write(n, row.(phase := Failed, since := e.done))]
    case NoDetour =>
      var failedPhase := if MayConfirm(c, row) then Confirming else Failed;
      var first := if MayConfirm(c, row) then [Write(n, row.(phase := Confirming, since := e.now))] else [];
      var last := if e.activate.ActivateOk? then ActivatedRow(c, n, row, e.activate, e)
                  else row.(phase := failedPhase, since := e.done);
      first + [Call(Activate, n), Write(n, last)]
  }

  function DrainedWork(n: NodeId, row: Row, e: Env): (evs: seq<Event>) {
    [Call(Activate, n),
     Write(n, match e.activate
              case ActivateOk(reboot, _, _) =>
                Row(WaitingReady, ActivatedTarget(row, e.activate), reboot, e.done)
              case ActivateFailed => row.(phase := Failed, since := e.done))]
  }

  function ReadyWork(c: Config, n: NodeId, row: Row, e: Env): (evs: seq<Event>) {
    match e.ready
    case NotReady => []
    case ReadyButCordoned => [Write(n, row.(since := e.done))]
    case ReadyUncordoned => [Write(n, row.(phase := FinishedPhase(c, n), since := e.done))]
  }

  /** Undo the update on the node, then mark it failed. */
  function Revert(n: NodeId, row: Row, e: Env): (evs: seq<Event>) {
    [Call(Rollback, n)] + (if e.rebootBack then [Call(Reboot, n)] else [])
    + [Write(n, row.(phase := Failed, since := e.done))]
  }

  /** The closure the node says it activated, when it does not run the recorded one. */
  predicate Refreshes(row: Row, e: Env) {
    && e.nixos != "" && e.nixos != row.target
    && e.statusAgain.Some? && e.statusAgain.value.target != "" && e.statusAgain.value.target != row.target
  }

  function Refreshed(row: Row, e: Env): (row': Row) {
    if Refreshes(row, e) then row.(target := e.statusAgain.value.target, since := e.now) else row
  }

  function Confirmation(row: Row, e: Env): (r: Option<bool>) {
    var seen := Refreshed(row, e);
    var nodeConfirmed := e.status.Some? && !e.status.value.phase.SwitchPending?;
    ConfirmActivation(e.nixos, e.booted, seen.target, nodeConfirmed, e.now - seen.since)
  }

  function ConfirmWork(c: Config, n: NodeId, row: Row, e: Env): (evs: seq<Event>) {
    if e.status.Some? && e.status.value.phase.StatusFailed? then
      [Write(n, row.(phase := Failed, since := e.done))]
    else
      var seen := Refreshed(row, e);
      var first := if Refreshes(row, e) then [Write(n, seen)] else [];
      first + match Confirmation(row, e)
              case Some(true) => [Write(n, seen.(phase := FinishedPhase(c, n), since := e.done))]
              case Some(false) => Revert(n, seen, e)
              case None => []
  }

  function RebootWork(c: Config, n: NodeId, row: Row, e: Env): (evs: seq<Event>) {
    var timedOut := row.phase.Rebooting? && e.now - row.since >= REBOOT_CONFIRM_SECS;
    if e.status.None? then (if timedOut then Revert(n, row, e) else [])
    else
      var status := e.status.value;
      if status.phase.StatusFailed? then [Write(n, row.(phase := Failed, since := e.done))]
      else
        var seen := if status.target != "" then row.(target := status.target) else row;
        match RebootProgress(seen, status, c.autoReboot, timedOut)
        case RebootDone => [Write(n, seen.(phase := FinishedPhase(c, n), requiresReboot := false, since := e.done))]
        case RebootTimedOut => Revert(n, seen, e)
        case RebootWait => []
        case RebootNow =>
          match e.reboot
          case Refused => Revert(n, seen, e)
          case Rebooted => [Write(n, seen.(phase := Rebooting, since := e.now)), Call(Reboot, n)]
          case Rejected(restored) =>
            [Write(n, seen.(phase := Rebooting, since := e.now)), Call(Reboot, n)]
            + (if restored then [Write(n, seen.(since := e.done))] else [])
            + Revert(n, seen, e)
  }

  function SoakWork(c: Config, n: NodeId, row: Row, e: Env): (evs: seq<Event>) {
    [Judged(n, e.verdict, e.now, row.since)] +
    match SoakProgress(e.verdict, row.phase, e.now - row.since, SoakSecs(c.strategy))
    case SoakRevert => Revert(n, row, e)
    case SoakPromote => [Write(n, row.(phase := Succeeded, since := e.done))]
    case SoakHold => [Write(n, row.(phase := AwaitingPromotion, since := e.done))]
    case SoakWait => []
  }

  function UndoWork(n: NodeId, row: Row, e: Env): (evs: seq<Event>) {
    if e.schemaStuck then [Write(n, row.(phase := Failed, since := e.done))]
    else [Call(Rollback, n)] + (if e.rebootBack then [Call(Reboot, n)] else []) + [Write(n, Row(Cancelled, "", false, e.done))]
  }

  /** Phases whose arm ends the tick. */
  predicate EndsTick(p: Phase) {
    p.Pending? || p.Prepared? || p.Drained? || p.WaitingReady? || p.Confirming? || p.RebootRequired?
    || p.Rebooting? || p.Soaking? || p.AwaitingPromotion? || p.RollingBack?
  }

  function NodeWork(c: Config, n: NodeId, row: Row, e: Env): (evs: seq<Event>) {
    match row.phase
    case Pending => PrepareWork(n, e)
    case Prepared => PreparedWork(c, n, row, e)
    case Drained => DrainedWork(n, row, e)
    case WaitingReady => ReadyWork(c, n, row, e)
    case Bootstrapping => if n in e.generational then [Write(n, row.(phase := Pending, since := e.done))] else []
    case Confirming => ConfirmWork(c, n, row, e)
    case RebootRequired => RebootWork(c, n, row, e)
    case Rebooting => RebootWork(c, n, row, e)
    case Soaking => SoakWork(c, n, row, e)
    case AwaitingPromotion => SoakWork(c, n, row, e)
    case RollingBack => UndoWork(n, row, e)
    case _ => []
  }

  // ---- the tick ----------------------------------------------------------

  function CancelUnstarted(rows: seq<Row>, from: nat, e: Env): (evs: seq<Event>)
    decreases |rows| - from
  {
    if from >= |rows| then []
    else (if NotStarted(rows[from].phase) then [Write(from, rows[from].(phase := Cancelled, since := e.done))] else [])
         + CancelUnstarted(rows, from + 1, e)
  }

  /** Walk the work order; a node without an address is skipped, and so is one whose arm falls through. */
  function Walk(c: Config, rows: seq<Row>, order: seq<NodeId>, e: Env): (evs: seq<Event>)
    requires forall i :: 0 <= i < |order| ==> order[i] < |rows|
  {
    if order == [] then []
    else if order[0] !in e.addressed then Walk(c, rows, order[1..], e)
    else
      var here := NodeWork(c, order[0], rows[order[0]], e);
      if EndsTick(rows[order[0]].phase) then here else here + Walk(c, rows, order[1..], e)
  }

  function ApplyEvent(db: Db, ev: Event): (db': Db) {
    match ev
    case Write(n, row) => if n < |db.rows| then db.(rows := db.rows[n := row]) else db
    case Patch(p) => db.(phase := p)
    case _ => db
  }

  function Apply(db: Db, evs: seq<Event>): (db': Db)
    ensures |db'.rows| == |db.rows|
    decreases evs
  {
    if evs == [] then db else Apply(ApplyEvent(db, evs[0]), evs[1..])
  }

  /** `order` lists `count` nodes, each once. */
  predicate Covers(order: seq<NodeId>, count: nat) {
    && |order| == count
    && (forall i :: 0 <= i < count ==> order[i] < count)
    && (forall i, j :: 0 <= i < j < count ==> order[i] != order[j])
  }

  predicate Lists(order: seq<NodeId>, n: NodeId) {
    n in order
  }

  /** No node is missing from `order`. */
  predicate Complete(order: seq<NodeId>, count: nat) {
    forall n :: 0 <= n < count ==> Lists(order, n)
  }

  predicate ValidConfig(c: Config, count: nat) {
    Covers(c.order, count) && Complete(c.order, count)
  }

  lemma MoveToFront(order: seq<NodeId>, count: nat, at: nat)
    requires Covers(order, count) && Complete(order, count) && at < count
    ensures Covers([order[at]] + Without(order, at), count) && Complete([order[at]] + Without(order, at), count)
  {
    var moved := [order[at]] + Without(order, at);
    forall i | 0 <= i < count
      ensures moved[i] == order[if i == 0 then at else if i <= at then i - 1 else i]
    {
    }
    forall n | 0 <= n < count
      ensures Lists(moved, n)
    {
      assert Lists(order, n);
      var i :| 0 <= i < |order| && order[i] == n;
      assert moved[if i == at then 0 else if i < at then i + 1 else i] == n;
    }
  }

  lemma WorkOrderIsPermutation(c: Config, count: nat)
    requires ValidConfig(c, count)
    ensures Covers(WorkOrder(c), count) && Complete(WorkOrder(c), count)
    ensures CanaryOf(c).Some? ==> count >= 2 && WorkOrder(c)[0] == CanaryOf(c).value
  {
    PickIsSound(c.strategy, c.order);
    if CanaryOf(c).Some? {
      MoveToFront(c.order, count, Position(c.order, CanaryOf(c).value));
    }
  }

  function Opening(db: Db): (evs: seq<Event>) {
    if db.phase.Ready? then [Patch(RollingOut)] else []
  }

  function Cancels(db: Db, e: Env): (evs: seq<Event>) {
    if !db.phase.Reverting? && AnyFailed(db.rows) then CancelUnstarted(db.rows, 0, e) else []
  }

  function Tick(c: Config, db: Db, e: Env): (evs: seq<Event>)
    requires ValidConfig(c, |db.rows|)
  {
    if |db.rows| == 0 then []
    else
      var rows := Apply(db, Cancels(db, e)).rows;
      WorkOrderIsPermutation(c, |db.rows|);
      Opening(db) + Cancels(db, e)
      + if AllSettled(rows) then [Patch(Finished(FinalOutcome(rows)))]
        else Walk(c, rows, WorkOrder(c), e)
  }

  // ---- runs --------------------------------------------------------------

  /** The stored rows, and every call, write and verdict so far. */
  datatype State = State(db: Db, log: seq<Event>)

  /** One tick: its surroundings, and how many of its calls and writes took place. */
  datatype Step = Step(env: Env, ran: nat)

  /** Only these updates are listed for the reconciler. */
  predicate Listed(p: UpdatePhase) {
    !p.Finished?
  }

  function Performed(c: Config, db: Db, step: Step): (evs: seq<Event>)
    requires ValidConfig(c, |db.rows|)
  {
    if !Listed(db.phase) then []
    else var evs := Tick(c, db, step.env); evs[..Min(step.ran, |evs|)]
  }

  function Exec(c: Config, s: State, step: Step): (s': State)
    requires ValidConfig(c, |s.db.rows|)
    ensures |s'.db.rows| == |s.db.rows|
  {
    var evs := Performed(c, s.db, step);
    State(Apply(s.db, evs), s.log + evs)
  }

  function Run(c: Config, s: State, steps: seq<Step>): (s': State)
    requires ValidConfig(c, |s.db.rows|)
    ensures |s'.db.rows| == |s.db.rows|
    decreases steps
  {
    if steps == [] then s else Run(c, Exec(c, s, steps[0]), steps[1..])
  }

  const FRESH := Row(Pending, "", false, 0)

  function Start(count: nat): (s: State) {
    State(Db(Ready, seq(count, _ => FRESH)), [])
  }
}
