/**
 The durable event queue and its dispatcher as a transition system.

 `State` holds the `events` and `issues` tables, everything `WorkerPool` keeps in
 memory, and the slot pool.  A `Step` is one stretch of code that no other
 coroutine, thread or process can divide: one SQL statement or transaction, or the
 code between two awaits.  `Enabled` says when a step can happen and `Do` gives the
 state after it.  The classes in module Dispatcher are proved to take these steps.
 */
module EventQueue {
  import opened Basics
  import opened Decimals

  /******* The events table *******/

  datatype EventState = Queued | Running | Done | Failed | Skipped

  predicate Inactive(st: EventState) {
    st == Done || st == Failed || st == Skipped
  }

  /** `last_error`, reduced to the tests the code makes on its text. */
  datatype Reason = NoReason | OperatorCancel | Fault(mentionsCancel: bool, transient: bool)

  predicate MentionsCancel(r: Reason) {
    r.OperatorCancel? || (r.Fault? && r.mentionsCancel)
  }

  /** One row of `events`.  `control` is whether the payload is a `status` or `stop` directive;
      `retries` counts the times `schedule_retry` moved the row and is only read by proofs. */
  datatype Row = Row(delivery: string, issueKey: Option<string>, control: bool, state: EventState,
                     attempts: nat, error: Reason, availableAt: Option<int>, receivedAt: int, retries: nat)

  /** `row.issue_key or row.delivery_id`: an empty issue key is falsy. */
  function KeyOf(r: Row): string {
    if r.issueKey.Some? && r.issueKey.value != "" then r.issueKey.value else r.delivery
  }

  predicate Has(events: seq<Row>, d: string) {
    exists i | 0 <= i < |events| :: events[i].delivery == d
  }

  /** The `UPDATE events` statements. */
  datatype Update =
    | Claim(delivery: string)
    | Mark(delivery: string, state: EventState, error: Reason)
    | Requeue(delivery: string, from: set<EventState>)
    | Retry(delivery: string, at: int, error: Reason)
    | ResetRunning

  function UpdateRow(u: Update, r: Row): Row {
    match u
    case Claim(d) => if r.delivery == d then r.(state := Running, attempts := r.attempts + 1) else r
    case Mark(d, st, e) => if r.delivery == d then r.(state := st, error := e) else r
    case Requeue(d, from) =>
      if r.delivery == d && r.state in from then r.(state := Queued, availableAt := None) else r
    case Retry(d, at, e) =>
      if r.delivery == d && r.state in {Running, Failed}
      then r.(state := Queued, error := e, availableAt := Some(at), retries := r.retries + 1) else r
    case ResetRunning => if r.state == Running then r.(state := Queued, availableAt := None) else r
  }

  function Apply(u: Update, events: seq<Row>): seq<Row> {
    seq(|events|, i requires 0 <= i < |events| => UpdateRow(u, events[i]))
  }

  /** `DELETE FROM events WHERE delivery_id = d`. */
  function Without(events: seq<Row>, d: string): (r: seq<Row>)
    ensures forall x :: x in r <==> x in events && x.delivery != d
    ensures |r| <= |events|
  {
    if events == [] then [] else
    var rest := Without(events[1..], d);
    if events[0].delivery == d then rest else [events[0]] + rest
  }

  /** No row is running for the issue of row i, and its backoff has elapsed. */
  predicate Eligible(events: seq<Row>, now: int, i: nat)
    requires i < |events|
  {
    var q := events[i];
    && q.state == Queued
    && (q.availableAt.None? || q.availableAt.value <= now)
    && (q.issueKey.None? ||
        forall j | 0 <= j < |events| :: !(events[j].state == Running && events[j].issueKey == q.issueKey))
  }

  /** The row `claim_next_event` selects: the eligible row received first. */
  ghost predicate IsNext(events: seq<Row>, now: int, i: nat) {
    && i < |events| && Eligible(events, now, i)
    && forall j | 0 <= j < |events| && Eligible(events, now, j) :: events[i].receivedAt <= events[j].receivedAt
  }

  /******* The pool *******/

  /** A `_run_event` task: waiting for a slot; inside `_dispatch_and_mark`; row marked, before
      `finally`; slot returned, before `_release`. */
  datatype Phase = Waiting | Dispatching | Marked | Closing

  datatype Run = Run(row: Row, phase: Phase, slot: Option<int>)

  predicate Unmarked(r: Run) {
    r.phase == Waiting || r.phase == Dispatching
  }

  /** Cancellation: `_cancelled`, `_cancel_hooks`, and the threads that have looked at
      `_cancelled` in `_arm_cancel` but not yet stored their hook.  `fired` lists the hooks
      called and `missed` the deliveries whose cancel request fell between test and store. */
  datatype Signals = Signals(cancelled: set<string>, hooks: map<string, nat>, arming: map<nat, nat>,
                             fired: seq<nat>, nextHook: nat, missed: set<string>)

  datatype Slots = Slots(uids: seq<int>, available: seq<int>, checkedOut: set<int>)

  /** What a redispatch sweep has read so far about one issue. */
  datatype Candidate = Found(key: string, spent: nat) | Checked(key: string, spent: nat, control: bool)

  datatype State = State(events: seq<Row>, issues: map<string, IssueState>, claiming: Option<Row>,
                         inflight: set<string>, runs: map<nat, Run>, nextTask: nat, late: map<nat, string>,
                         signals: Signals, shutdownCancelled: set<string>, slots: Slots, sweep: set<Candidate>,
                         stopping: bool, executions: nat)

  /** The thread of run t is inside its handler: its `_run_event` is still there, or `stop` cancelled it there.
      `late` holds the threads of cancelled runs, which go on by themselves, with the delivery of each. */
  predicate HasThread(s: State, t: nat) {
    HasRun(s, t, Dispatching) || t in s.late
  }

  function ThreadOf(s: State, t: nat): string
    requires HasThread(s, t)
  {
    if t in s.late then s.late[t] else s.runs[t].row.delivery
  }

  /** The settings.  `issueOf` is the issue a delivery id names: webhook ids are unique, manual and
      redispatch ids embed their issue, so no id is ever used for two issues. */
  datatype Config = Config(maxRetries: nat, cap: nat, issueOf: string -> Option<string>)

  function Idle(events: seq<Row>, issues: map<string, IssueState>, uids: seq<int>, executions: nat): State {
    State(events, issues, None, {}, map[], 0, map[], Signals({}, map[], map[], [], 0, {}), {},
          Slots(uids, uids, {}), {}, false, executions)
  }

  /******* Redispatch *******/

  datatype IssueState = New | Reproducing | Fixing | Reviewing | Opened | Merged | Closed | NeedsInfo | Abandoned

  predicate InFlightIssue(st: IssueState) {
    st in {New, Reproducing, Fixing, Reviewing}
  }

  const REDISPATCH_PREFIX := "redispatch-"

  predicate IsRedispatch(d: string) { REDISPATCH_PREFIX <= d }

  /** `f"{repo}__{number}"`, the parts of the key on either side of its last '#'. */
  function Tag(key: string): string {
    match LastIndexOf(key, '#')
    case None => "__0"
    case Some(i) =>
      var number := key[i + 1..];
      key[..i] + "__" + (if number != [] && AllDigits(number) then Print(Value(number)) else "0")
  }

  function RedispatchId(key: string, n: nat): (d: string)
    ensures IsRedispatch(d)
  {
    var d := REDISPATCH_PREFIX + (Tag(key) + "-" + Print(n));
    assert d[..|REDISPATCH_PREFIX|] == REDISPATCH_PREFIX;
    d
  }

  /** `COUNT(*) ... delivery_id LIKE 'redispatch-%'` for one issue. */
  function Spent(events: seq<Row>, key: string): nat {
    if events == [] then 0 else
    Spent(events[1..], key)
    + if events[0].issueKey == Some(key) && IsRedispatch(events[0].delivery) then 1 else 0
  }

  /** The last row in insertion order that belongs to the issue and was not skipped. */
  ghost predicate IsLatest(events: seq<Row>, key: string, i: nat) {
    && i < |events| && events[i].issueKey == Some(key) && events[i].state != Skipped
    && forall j | i < j < |events| :: !(events[j].issueKey == Some(key) && events[j].state != Skipped)
  }

  /** The row `latest_event_for_issue` returns: latest by time received, then by insertion. */
  ghost predicate IsNewest(events: seq<Row>, key: string, i: nat) {
    && i < |events| && events[i].issueKey == Some(key) && events[i].state != Skipped
    && forall j | 0 <= j < |events| && events[j].issueKey == Some(key) && events[j].state != Skipped ::
         events[j].receivedAt < events[i].receivedAt || (events[j].receivedAt == events[i].receivedAt && j <= i)
  }

  /** The two branches of `stranded_issues`; its age window and its limit only drop candidates. */
  ghost predicate Stranded(c: Config, s: State, key: string) {
    && (forall i | 0 <= i < |s.events| && s.events[i].issueKey == Some(key) :: Inactive(s.events[i].state))
    && (exists i: nat :: IsLatest(s.events, key, i) && s.events[i].state == Failed
          && s.events[i].attempts >= c.maxRetries && !MentionsCancel(s.events[i].error)
          && (key in s.issues || (s.events[i].error.Fault? && s.events[i].error.transient)))
    && (key in s.issues ==> InFlightIssue(s.issues[key]))
  }

  /** `record_event`: an insert that a row with the same delivery id turns into a no-op. */
  function Record(events: seq<Row>, row: Row): seq<Row> {
    if Has(events, row.delivery) then events else events + [row]
  }

  /** `replace_event_if_state_in` with the inactive states allowed. */
  function ReplaceInactive(events: seq<Row>, row: Row): seq<Row> {
    if exists r | r in events :: r.delivery == row.delivery && !Inactive(r.state) then events
    else Without(events, row.delivery) + [row]
  }

  function RedispatchRow(key: string, spent: nat, control: bool, now: int): Row {
    Row(RedispatchId(key, spent + 1), Some(key), control, Queued, 0, NoReason, None, now, 0)
  }

  predicate SameIssue(c: Config, row: Row) {
    row.issueKey == c.issueOf(row.delivery)
  }

  /** A row as an insert creates it, not by the sweeper. */
  predicate NewRow(c: Config, row: Row) {
    && row.state in {Queued, Done, Skipped} && row.attempts == 0 && row.retries == 0 && row.availableAt.None?
    && !IsRedispatch(row.delivery) && SameIssue(c, row)
  }

  /******* Steps *******/

  /** What deliveries, operators and retention do to the tables. */
  datatype OutsideStep =
    | Deliver(row: Row)
    | Replay(delivery: string, from: set<EventState>)
    | Replace(row: Row)
    | Prune(delivery: string)
    | SetIssue(key: string, issue: IssueState)

  /** What happens to one `_run_event` task. */
  datatype RunStep =
    | AcquireSlot
    | Return
    | Raise(error: Reason, at: int)
    | TaskCancelled
    | Finalize
    | Release
    | ReleaseSkipped

  /** What a thread does inside its handler; a thread whose task was cancelled ends by itself. */
  datatype ThreadStep =
    | WorkerMark(state: EventState, error: Reason)
    | ThreadEnds

  datatype SignalStep =
    | ArmTest(task: nat)
    | ArmStore(task: nat)
    | Disarm(task: nat)
    | Cancel(delivery: string)
    | StopInterrupt(task: nat)

  /** The redispatch sweep. */
  datatype SweepStep =
    | SweepRead(key: string)
    | SweepCheck(key: string, spent: nat, index: nat)
    | SweepInsert(key: string, spent: nat, control: bool, now: int)
    | SweepAbandon(key: string, spent: nat)

  datatype Step =
    | Outside(change: OutsideStep)
    | ClaimBegin(now: int, index: nat)
    | ClaimFinish
    | OfRun(task: nat, run: RunStep)
    | OfThread(task: nat, thread: ThreadStep)
    | Signal(signal: SignalStep)
    | Sweep(sweep: SweepStep)
    | StopBegin
    | Restart

  /******* The tables *******/

  predicate OutsideEnabled(c: Config, s: State, step: OutsideStep) {
    match step
    case Deliver(row) => NewRow(c, row)
    case Replay(d, from) => from <= {Done, Failed, Skipped}
    case Replace(row) => NewRow(c, row) && row.state == Queued
    case Prune(d) => forall r | r in s.events && r.delivery == d :: r.state == Skipped
    case SetIssue(_, _) => true
  }

  function DoOutside(s: State, step: OutsideStep): State {
    match step
    case Deliver(row) => s.(events := Record(s.events, row))
    case Replay(d, from) => s.(events := Apply(Requeue(d, from), s.events))
    case Replace(row) => s.(events := ReplaceInactive(s.events, row))
    case Prune(d) => s.(events := Without(s.events, d))
    case SetIssue(key, st) => s.(issues := s.issues[key := st])
  }

  /******* Claims *******/

  function BeginClaim(s: State, i: nat): State
    requires i < |s.events|
  {
    var row := UpdateRow(Claim(s.events[i].delivery), s.events[i]);
    s.(events := Apply(Claim(row.delivery), s.events), claiming := Some(row))
  }

  function Admit(s: State, row: Row): State {
    s.(claiming := None, inflight := s.inflight + {KeyOf(row)},
       runs := s.runs[s.nextTask := Run(row, Waiting, None)], nextTask := s.nextTask + 1)
  }

  function Bounce(s: State, row: Row): State {
    s.(claiming := None, events := Apply(Requeue(row.delivery, {Running}), s.events))
  }

  function FinishClaim(s: State): State
    requires s.claiming.Some?
  {
    var row := s.claiming.value;
    if KeyOf(row) in s.inflight then Bounce(s, row) else Admit(s, row)
  }

  /******* One run *******/

  predicate HasRun(s: State, t: nat, ph: Phase) {
    t in s.runs && s.runs[t].phase == ph
  }

  predicate HasUnmarkedRun(s: State, t: nat) {
    t in s.runs && Unmarked(s.runs[t])
  }

  /** The row writes of `_dispatch_and_mark` once the handler has returned. */
  function MarkReturned(cancelled: set<string>, run: Run, events: seq<Row>): seq<Row> {
    var d := run.row.delivery;
    if run.row.control then Apply(Mark(d, Done, NoReason), events)
    else if d in cancelled then Apply(Mark(d, Failed, OperatorCancel), events)
    else if exists r | r in events :: r.delivery == d && Inactive(r.state) then events
    else Apply(Mark(d, Done, NoReason), events)
  }

  /** The row writes of the `except Exception` branch of `_run_event`. */
  function MarkRaised(c: Config, cancelled: set<string>, shutdown: set<string>, run: Run, error: Reason, at: int,
                      events: seq<Row>): seq<Row>
  {
    var d := run.row.delivery;
    if d in shutdown then events
    else if d in cancelled then Apply(Mark(d, Failed, OperatorCancel), events)
    else RetriedOrFailed(c, run.row, error, at, events)
  }

  predicate CanMove(events: seq<Row>, d: string, from: set<EventState>) {
    exists i | 0 <= i < |events| :: events[i].delivery == d && events[i].state in from
  }

  function RetriedOrFailed(c: Config, row: Row, error: Reason, at: int, events: seq<Row>): seq<Row> {
    if 0 < row.attempts <= c.maxRetries && CanMove(events, row.delivery, {Running, Failed})
    then Apply(Retry(row.delivery, at, error), events)
    else Apply(Mark(row.delivery, Failed, error), events)
  }

  function SetPhase(s: State, t: nat, ph: Phase): map<nat, Run>
    requires t in s.runs
  {
    s.runs[t := s.runs[t].(phase := ph)]
  }

  function Acquire(s: State, t: nat): State
    requires t in s.runs && (s.slots.uids == [] || s.slots.available != [])
  {
    if s.slots.uids == [] then s.(runs := SetPhase(s, t, Dispatching), executions := s.executions + 1)
    else
      var u := s.slots.available[0];
      s.(runs := s.runs[t := s.runs[t].(phase := Dispatching, slot := Some(u))],
         slots := s.slots.(available := s.slots.available[1..], checkedOut := s.slots.checkedOut + {u}),
         executions := s.executions + 1)
  }

  function ReturnSlot(p: Slots, slot: Option<int>): Slots {
    if slot.None? then p
    else p.(checkedOut := p.checkedOut - {slot.value}, available := p.available + [slot.value])
  }

  function Forget(g: Signals, d: string): Signals {
    g.(cancelled := g.cancelled - {d}, hooks := g.hooks - {d}, missed := g.missed - {d})
  }

  /** The part of `finally` before its first await. */
  function Finish(s: State, t: nat): State
    requires t in s.runs
  {
    var run := s.runs[t];
    s.(signals := Forget(s.signals, run.row.delivery),
       shutdownCancelled := s.shutdownCancelled - {run.row.delivery},
       slots := ReturnSlot(s.slots, run.slot),
       runs := s.runs[t := run.(phase := Closing, slot := None)])
  }

  function CancelTask(s: State, t: nat): State
    requires t in s.runs
  {
    s.(runs := SetPhase(s, t, Marked),
       late := if s.runs[t].phase == Dispatching then s.late[t := s.runs[t].row.delivery] else s.late)
  }

  function Drop(s: State, t: nat): State
    requires t in s.runs
  {
    s.(inflight := s.inflight - {KeyOf(s.runs[t].row)}, runs := s.runs - {t})
  }

  /** A thread inside `_arm_cancel` is still inside the handler.  `_release` is skipped when the clean-up before it
      raises or is cancelled; the key then stays in `_inflight`. */
  predicate RunEnabled(s: State, t: nat, step: RunStep) {
    match step
    case AcquireSlot => HasRun(s, t, Waiting) && (s.slots.uids == [] || s.slots.available != [])
    case Return => HasRun(s, t, Dispatching) && t !in s.signals.arming
    case Raise(_, _) => HasRun(s, t, Dispatching) && t !in s.signals.arming
    case TaskCancelled => s.stopping && HasUnmarkedRun(s, t) && s.runs[t].row.delivery in s.shutdownCancelled
    case Finalize => HasRun(s, t, Marked)
    case Release => HasRun(s, t, Closing) && s.claiming.None?
    case ReleaseSkipped => HasRun(s, t, Closing)
  }

  function DoRun(c: Config, s: State, t: nat, step: RunStep): State
    requires RunEnabled(s, t, step)
  {
    match step
    case AcquireSlot => Acquire(s, t)
    case Return =>
      s.(events := MarkReturned(s.signals.cancelled, s.runs[t], s.events), runs := SetPhase(s, t, Marked))
    case Raise(e, at) =>
      s.(events := MarkRaised(c, s.signals.cancelled, s.shutdownCancelled, s.runs[t], e, at, s.events),
         runs := SetPhase(s, t, Marked))
    case TaskCancelled => CancelTask(s, t)
    case Finalize => Finish(s, t)
    case Release => Drop(s, t)
    case ReleaseSkipped => s.(runs := s.runs - {t})
  }

  predicate ThreadEnabled(s: State, t: nat, step: ThreadStep) {
    match step
    case WorkerMark(st, e) => HasThread(s, t) && st in {Failed, Skipped}
    case ThreadEnds => t in s.late && t !in s.signals.arming
  }

  function DoThread(s: State, t: nat, step: ThreadStep): State
    requires ThreadEnabled(s, t, step)
  {
    match step
    case WorkerMark(st, e) => s.(events := Apply(Mark(ThreadOf(s, t), st, e), s.events))
    case ThreadEnds => s.(late := s.late - {t})
  }

  /******* Cancellation *******/

  /** Pop the hook of d and call it, if there is one. */
  function Fire(g: Signals, d: string): Signals {
    if d in g.hooks
    then g.(hooks := g.hooks - {d}, fired := g.fired + [g.hooks[d]], missed := g.missed - {d})
    else g
  }

  predicate IsArming(s: State, t: nat, d: string) {
    t in s.signals.arming && HasThread(s, t) && ThreadOf(s, t) == d
  }

  predicate ArmingFor(s: State, d: string) {
    exists t | t in s.signals.arming :: IsArming(s, t, d)
  }

  function CancelSignals(s: State, d: string): Signals {
    var g := Fire(s.signals, d);
    g.(cancelled := g.cancelled + {d}, missed := if ArmingFor(s, d) then g.missed + {d} else g.missed)
  }

  function ArmTestSignals(g: Signals, t: nat, d: string): Signals {
    if d in g.cancelled then g.(fired := g.fired + [g.nextHook], nextHook := g.nextHook + 1)
    else g.(arming := g.arming[t := g.nextHook], nextHook := g.nextHook + 1)
  }

  /** A worker arms one hook at a time: `register_cancel_hook` is paired with `unregister_cancel_hook`. */
  predicate SignalEnabled(s: State, step: SignalStep) {
    match step
    case ArmTest(t) => HasThread(s, t) && t !in s.signals.arming && ThreadOf(s, t) !in s.signals.hooks
    case ArmStore(t) => HasThread(s, t) && t in s.signals.arming
    case Disarm(t) => HasThread(s, t) && t !in s.signals.arming
    case Cancel(_) => true
    case StopInterrupt(t) => s.stopping && t in s.runs
  }

  function DoSignal(s: State, step: SignalStep): State
    requires SignalEnabled(s, step)
  {
    var g := s.signals;
    match step
    case ArmTest(t) => s.(signals := ArmTestSignals(g, t, ThreadOf(s, t)))
    case ArmStore(t) =>
      s.(signals := g.(hooks := g.hooks[ThreadOf(s, t) := g.arming[t]], arming := g.arming - {t}))
    case Disarm(t) =>
      var d := ThreadOf(s, t);
      s.(signals := g.(hooks := g.hooks - {d}, missed := g.missed - {d}))
    case Cancel(d) => s.(signals := CancelSignals(s, d))
    case StopInterrupt(t) =>
      var d := s.runs[t].row.delivery;
      s.(shutdownCancelled := s.shutdownCancelled + {d}, signals := Fire(g, d))
  }

  /******* Redispatch sweeps *******/

  ghost predicate SweepEnabled(c: Config, s: State, step: SweepStep) {
    && !s.stopping
    && match step
       case SweepRead(key) => Stranded(c, s, key)
       case SweepCheck(key, spent, i) =>
         Found(key, spent) in s.sweep && spent < c.cap && IsNewest(s.events, key, i) && s.events[i].state == Failed
       case SweepInsert(key, spent, control, now) =>
         Checked(key, spent, control) in s.sweep && SameIssue(c, RedispatchRow(key, spent, control, now))
       case SweepAbandon(key, spent) => Found(key, spent) in s.sweep && spent >= c.cap
  }

  function DoSweep(s: State, step: SweepStep): State
    requires step.SweepCheck? ==> step.index < |s.events|
  {
    match step
    case SweepRead(key) => s.(sweep := s.sweep + {Found(key, Spent(s.events, key))})
    case SweepCheck(key, spent, i) => s.(sweep := s.sweep + {Checked(key, spent, s.events[i].control)})
    case SweepInsert(key, spent, control, now) => s.(events :=
      Record(s.events, RedispatchRow(key, spent, control, now)))
    case SweepAbandon(key, _) => s.(issues := if key in s.issues then s.issues[key := Abandoned] else s.issues)
  }

  /******* Runs of the system *******/

  ghost predicate Enabled(c: Config, s: State, step: Step) {
    match step
    case Outside(x) => OutsideEnabled(c, s, x)
    case ClaimBegin(now, i) => !s.stopping && s.claiming.None? && IsNext(s.events, now, i)
    case ClaimFinish => s.claiming.Some?
    case OfRun(t, x) => RunEnabled(s, t, x)
    case OfThread(t, x) => ThreadEnabled(s, t, x)
    case Signal(x) => SignalEnabled(s, x)
    case Sweep(x) => SweepEnabled(c, s, x)
    case StopBegin => true
    case Restart => true
  }

  ghost function Do(c: Config, s: State, step: Step): State
    requires Enabled(c, s, step)
  {
    match step
    case Outside(x) => DoOutside(s, x)
    case ClaimBegin(_, i) => BeginClaim(s, i)
    case ClaimFinish => FinishClaim(s)
    case OfRun(t, x) => DoRun(c, s, t, x)
    case OfThread(t, x) => DoThread(s, t, x)
    case Signal(x) => DoSignal(s, x)
    case Sweep(x) => DoSweep(s, x)
    case StopBegin => s.(stopping := true, claiming := None, sweep := {})
    case Restart => Idle(Apply(ResetRunning, s.events), s.issues, s.slots.uids, s.executions)
  }

  ghost predicate Feasible(c: Config, s: State, steps: seq<Step>)
    decreases |steps|
  {
    steps == [] || (Enabled(c, s, steps[0]) && Feasible(c, Do(c, s, steps[0]), steps[1..]))
  }

  /** The state after a run. */
  ghost function After(c: Config, s: State, steps: seq<Step>): State
    requires Feasible(c, s, steps)
    decreases |steps|
  {
    if steps == [] then s else After(c, Do(c, s, steps[0]), steps[1..])
  }
}
