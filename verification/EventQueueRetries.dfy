/** Retries: every row stays within its budget, and exactly when a replacement lets one exceed it. */
module EventQueueRetries {
  import opened Basics
  import opened EventQueue
  import opened EventQueueSafety

  /******* Who can still retry a row *******/

  /** The exception of this run would put the row of its delivery back. */
  predicate RunCanRetry(c: Config, s: State, t: nat) {
    HasUnmarkedRun(s, t) && 0 < s.runs[t].row.attempts <= c.maxRetries
    && s.runs[t].row.delivery !in s.signals.cancelled && s.runs[t].row.delivery !in s.shutdownCancelled
  }

  /** The claim will be admitted, and then its run could do so. */
  predicate ClaimCanRetry(c: Config, s: State) {
    s.claiming.Some? && 0 < s.claiming.value.attempts <= c.maxRetries
    && KeyOf(s.claiming.value) !in s.inflight && s.claiming.value.delivery !in s.signals.cancelled
  }

  ghost predicate CanRetry(c: Config, s: State, d: string) {
    (ClaimCanRetry(c, s) && s.claiming.value.delivery == d)
    || exists t :: RunCanRetry(c, s, t) && s.runs[t].row.delivery == d
  }

  /** The row that a step really inserts. */
  function Inserted(s: State, step: Step): Option<Row> {
    match step
    case Outside(Deliver(row)) => if Has(s.events, row.delivery) then None else Some(row)
    case Outside(Replace(row)) => if HasActive(s.events, row.delivery) then None else Some(row)
    case Sweep(SweepInsert(key, spent, control, now)) =>
      var row := RedispatchRow(key, spent, control, now);
      if Has(s.events, row.delivery) then None else Some(row)
    case _ => None
  }

  predicate HasActive(events: seq<Row>, d: string) {
    exists r | r in events :: r.delivery == d && !Inactive(r.state)
  }

  /** The step inserts a fresh row under a delivery that a claim or a run can still retry. */
  ghost predicate Refreshes(c: Config, s: State, step: Step) {
    Inserted(s, step).Some? && CanRetry(c, s, Inserted(s, step).value.delivery)
  }

  ghost predicate NeverRefreshes(c: Config, s: State, steps: seq<Step>)
    requires Feasible(c, s, steps)
    decreases |steps|
  {
    steps == [] || (!Refreshes(c, s, steps[0]) && NeverRefreshes(c, Do(c, s, steps[0]), steps[1..]))
  }

  /******* The budget *******/

  /** No row is over its budget, and a row that can be retried was retried less often than the attempt under way. */
  ghost predicate RetryBudget(c: Config, s: State) {
    && (forall r | r in s.events :: r.retries <= c.maxRetries && r.retries <= r.attempts)
    && (ClaimCanRetry(c, s) ==> RetriesBelow(s.events, s.claiming.value))
    && (forall t | RunCanRetry(c, s, t) :: RetriesBelow(s.events, s.runs[t].row))
  }

  ghost predicate RetriesBelow(events: seq<Row>, claim: Row) {
    forall r | r in events && r.delivery == claim.delivery :: r.retries < claim.attempts <= r.attempts
  }

  predicate CountedUp(q: Row, r: Row) {
    q.delivery == r.delivery && q.attempts <= r.attempts && r.retries == q.retries
  }

  /** Each row has its old counters, or more attempts, or is fresh. */
  ghost predicate CountsUp(before: seq<Row>, after: seq<Row>, renewed: set<string>) {
    forall r | r in after ::
      || (exists q | q in before :: CountedUp(q, r))
      || (r.delivery in renewed && r.retries == 0)
  }

  lemma CountsUpUpdate(u: Update, events: seq<Row>)
    requires !u.Retry?
    ensures CountsUp(events, Apply(u, events), {})
  {
    forall r | r in Apply(u, events) ensures exists q | q in events :: CountedUp(q, r) {
      var i :| 0 <= i < |events| && r == UpdateRow(u, events[i]);
      assert events[i] in events && CountedUp(events[i], r);
    }
  }

  lemma CountsUpRefl(before: seq<Row>, after: seq<Row>, row: Row)
    requires row.retries == 0 && forall r | r in after :: r in before || r == row
    ensures CountsUp(before, after, {row.delivery})
  {
  }

  lemma CountsUpSame(events: seq<Row>)
    ensures CountsUp(events, events, {})
  {
  }

  /** Rows only counted up or are fresh, and nobody has become able to retry. */
  lemma BudgetFrame(c: Config, s: State, s': State, renewed: set<string>)
    requires RetryBudget(c, s) && CountsUp(s.events, s'.events, renewed)
    requires forall d | d in renewed :: !CanRetry(c, s', d)
    requires ClaimCanRetry(c, s') ==> ClaimCanRetry(c, s) && s'.claiming == s.claiming
    requires forall t | RunCanRetry(c, s', t) :: RunCanRetry(c, s, t) && s'.runs[t].row == s.runs[t].row
    ensures RetryBudget(c, s')
  {
    forall t | RunCanRetry(c, s', t) ensures RetriesBelow(s'.events, s'.runs[t].row) {
      assert RetriesBelow(s.events, s.runs[t].row);
    }
    forall r | r in s'.events ensures r.retries <= c.maxRetries && r.retries <= r.attempts {
      if q :| q in s.events && CountedUp(q, r) { assert q.retries <= q.attempts; }
    }
  }

  /** Only the table changed, by counting up or by a row that nobody can retry. */
  lemma BudgetTable(c: Config, s: State, s': State, renewed: set<string>)
    requires RetryBudget(c, s) && CountsUp(s.events, s'.events, renewed)
    requires forall d | d in renewed :: !CanRetry(c, s, d)
    requires s' == s.(events := s'.events, issues := s'.issues, sweep := s'.sweep, late := s'.late)
    ensures RetryBudget(c, s')
  {
    assert forall t :: RunCanRetry(c, s', t) ==> RunCanRetry(c, s, t);
    assert forall d | d in renewed :: CanRetry(c, s', d) ==> CanRetry(c, s, d);
    BudgetFrame(c, s, s', renewed);
  }

  /** A retry uses up one attempt of the budget. */
  lemma BudgetRetry(c: Config, s: State, t: nat, e: Reason, at: int, s': State)
    requires RunsByKey(s) && OneIssue(c, s) && NoOrphans(s) && RetryBudget(c, s) && RunCanRetry(c, s, t)
    requires s' == s.(events := Apply(Retry(s.runs[t].row.delivery, at, e), s.events), runs := SetPhase(s, t, Marked))
    ensures RetryBudget(c, s')
  {
    var d := s.runs[t].row.delivery;
    assert RetriesBelow(s.events, s.runs[t].row);
    forall r | r in s'.events
      ensures exists q | q in s.events :: q.delivery == r.delivery && q.attempts == r.attempts
                && (r.retries == q.retries || (r.delivery == d && r.retries == q.retries + 1))
    {
      var i :| 0 <= i < |s.events| && r == UpdateRow(Retry(d, at, e), s.events[i]);
      assert s.events[i] in s.events;
    }
    forall u | RunCanRetry(c, s', u) ensures RetriesBelow(s'.events, s'.runs[u].row) {
      assert RunCanRetry(c, s, u) && RetriesBelow(s.events, s.runs[u].row);
      if s.runs[u].row.delivery == d { OneRunPerDelivery(c, s, t, u); }
    }
    if ClaimCanRetry(c, s') { ClaimIsAlone(c, s, t); }
  }

  /** A claim that will be admitted is not of a delivery with a run. */
  lemma ClaimIsAlone(c: Config, s: State, t: nat)
    requires RunsByKey(s) && OneIssue(c, s) && t in s.runs && ClaimCanRetry(c, s)
    ensures s.claiming.value.delivery != s.runs[t].row.delivery
  {
    assert KeyOf(s.runs[t].row) in LiveKeys(s);
  }

  lemma BudgetRaise(c: Config, s: State, t: nat, e: Reason, at: int)
    requires RunsByKey(s) && OneIssue(c, s) && NoOrphans(s) && RetryBudget(c, s) && RunEnabled(s, t, Raise(e, at))
    ensures RetryBudget(c, DoRun(c, s, t, Raise(e, at)))
  {
    var d := s.runs[t].row.delivery;
    if RunCanRetry(c, s, t) && CanMove(s.events, d, {Running, Failed}) {
      BudgetRetry(c, s, t, e, at, DoRun(c, s, t, Raise(e, at)));
    } else {
      BudgetMark(c, s, t, Failed, e, Marked);
      BudgetMark(c, s, t, Failed, OperatorCancel, Marked);
      BudgetPhase(c, s, t, s.events, Marked);
    }
  }

  lemma BudgetMark(c: Config, s: State, t: nat, st: EventState, e: Reason, ph: Phase)
    requires RetryBudget(c, s) && HasRun(s, t, Dispatching)
    ensures RetryBudget(c, s.(events :=
      Apply(Mark(s.runs[t].row.delivery, st, e), s.events), runs := SetPhase(s, t, ph)))
  {
    CountsUpUpdate(Mark(s.runs[t].row.delivery, st, e), s.events);
    BudgetPhase(c, s, t, Apply(Mark(s.runs[t].row.delivery, st, e), s.events), ph);
  }

  lemma BudgetPhase(c: Config, s: State, t: nat, events: seq<Row>, ph: Phase)
    requires RetryBudget(c, s) && HasUnmarkedRun(s, t)
    requires events == s.events || CountsUp(s.events, events, {})
    ensures RetryBudget(c, s.(events := events, runs := SetPhase(s, t, ph)))
  {
    var s' := s.(events := events, runs := SetPhase(s, t, ph));
    CountsUpSame(s.events);
    forall u | RunCanRetry(c, s', u) ensures RunCanRetry(c, s, u) && s'.runs[u].row == s.runs[u].row { }
    BudgetFrame(c, s, s', {});
  }

  /** The run leaves, or forgets its signals once it is marked. */
  lemma BudgetLeave(c: Config, s: State, t: nat, step: RunStep)
    requires RunsByKey(s) && OneIssue(c, s) && NoOrphans(s) && RetryBudget(c, s) && RunEnabled(s, t, step)
    requires step.Finalize? || step.Release? || step.ReleaseSkipped?
    ensures RetryBudget(c, DoRun(c, s, t, step))
  {
    var s' := DoRun(c, s, t, step);
    CountsUpSame(s.events);
    forall u | RunCanRetry(c, s', u) ensures RunCanRetry(c, s, u) && s'.runs[u].row == s.runs[u].row {
      if s.runs[u].row.delivery == s.runs[t].row.delivery { OneRunPerDelivery(c, s, t, u); }
    }
    if ClaimCanRetry(c, s') { assert KeyOf(s.runs[t].row) in LiveKeys(s); }
    BudgetFrame(c, s, s', {});
  }

  lemma BudgetOfRun(c: Config, s: State, t: nat, step: RunStep)
    requires RunsByKey(s) && OneIssue(c, s) && NoOrphans(s) && RetryBudget(c, s) && RunEnabled(s, t, step)
    ensures RetryBudget(c, DoRun(c, s, t, step))
  {
    match step
    case AcquireSlot => BudgetAcquire(c, s, t);
    case Return => BudgetReturn(c, s, t);
    case Raise(e, at) => BudgetRaise(c, s, t, e, at);
    case TaskCancelled => BudgetCancelled(c, s, t);
    case _ => BudgetLeave(c, s, t, step);
  }

  lemma BudgetCancelled(c: Config, s: State, t: nat)
    requires RetryBudget(c, s) && HasUnmarkedRun(s, t)
    ensures RetryBudget(c, CancelTask(s, t))
  {
    CountsUpSame(s.events);
    forall u | RunCanRetry(c, CancelTask(s, t), u)
      ensures RunCanRetry(c, s, u) && CancelTask(s, t).runs[u].row == s.runs[u].row {
    }
    BudgetFrame(c, s, CancelTask(s, t), {});
  }

  lemma BudgetOfThread(c: Config, s: State, t: nat, step: ThreadStep)
    requires RetryBudget(c, s) && ThreadEnabled(s, t, step)
    ensures RetryBudget(c, DoThread(s, t, step))
  {
    if step.WorkerMark? {
      CountsUpUpdate(Mark(ThreadOf(s, t), step.state, step.error), s.events);
    } else {
      CountsUpSame(s.events);
    }
    BudgetTable(c, s, DoThread(s, t, step), {});
  }

  lemma BudgetReturn(c: Config, s: State, t: nat)
    requires RetryBudget(c, s) && RunEnabled(s, t, Return)
    ensures RetryBudget(c, DoRun(c, s, t, Return))
  {
    BudgetMark(c, s, t, Done, NoReason, Marked);
    BudgetMark(c, s, t, Failed, OperatorCancel, Marked);
    BudgetPhase(c, s, t, s.events, Marked);
  }

  lemma BudgetAcquire(c: Config, s: State, t: nat)
    requires RetryBudget(c, s) && RunEnabled(s, t, AcquireSlot)
    ensures RetryBudget(c, Acquire(s, t))
  {
    var s' := Acquire(s, t);
    CountsUpSame(s.events);
    forall u | RunCanRetry(c, s', u) ensures RunCanRetry(c, s, u) && s'.runs[u].row == s.runs[u].row { }
    BudgetFrame(c, s, s', {});
  }

  lemma BudgetClaimBegin(c: Config, s: State, i: nat)
    requires RetryBudget(c, s) && TableOk(s.events) && s.claiming.None? && i < |s.events|
    ensures RetryBudget(c, BeginClaim(s, i))
  {
    var s' := BeginClaim(s, i);
    var u := Claim(s.events[i].delivery);
    CountsUpUpdate(u, s.events);
    BudgetFrame(c, s, s'.(claiming := None), {});
    assert s.events[i] in s.events;
    SameRow(s.events);
    forall r | r in s'.events && r.delivery == s.events[i].delivery ensures r == s'.claiming.value {
      var j :| 0 <= j < |s.events| && r == UpdateRow(u, s.events[j]);
      assert s.events[j] in s.events;
    }
    assert s'.claiming.value.retries < s'.claiming.value.attempts;
    forall t | RunCanRetry(c, s', t) ensures RetriesBelow(s'.events, s'.runs[t].row) {
      assert RunCanRetry(c, s'.(claiming := None), t);
    }
  }

  lemma BudgetInsert(c: Config, s: State, s': State, row: Row)
    requires RetryBudget(c, s) && row.retries == 0
    requires (forall r | r in s'.events :: r in s.events || r == row)
    requires !CanRetry(c, s, row.delivery) || forall r | r in s'.events :: r in s.events
    requires s' == s.(events := s'.events)
    ensures RetryBudget(c, s')
  {
    if forall r | r in s'.events :: r in s.events {
      assert forall r | r in s.events :: CountedUp(r, r);
      BudgetTable(c, s, s', {});
    } else {
      CountsUpRefl(s.events, s'.events, row);
      BudgetTable(c, s, s', {row.delivery});
    }
  }

  lemma BudgetOutside(c: Config, s: State, step: OutsideStep)
    requires RetryBudget(c, s) && OutsideEnabled(c, s, step) && !Refreshes(c, s, Outside(step))
    ensures RetryBudget(c, DoOutside(s, step))
  {
    match step
    case Deliver(row) => BudgetInsert(c, s, DoOutside(s, step), row);
    case Replay(d, from) =>
      CountsUpUpdate(Requeue(d, from), s.events);
      BudgetTable(c, s, DoOutside(s, step), {});
    case Replace(row) => BudgetInsert(c, s, DoOutside(s, step), row);
    case Prune(d) =>
      assert forall r | r in Without(s.events, d) :: CountedUp(r, r);
      BudgetTable(c, s, DoOutside(s, step), {});
    case SetIssue(_, _) =>
      CountsUpSame(s.events);
      BudgetTable(c, s, DoOutside(s, step), {});
  }

  lemma BudgetClaimFinish(c: Config, s: State)
    requires RunsByKey(s) && NoOrphans(s) && RetryBudget(c, s) && s.claiming.Some?
    ensures RetryBudget(c, FinishClaim(s))
  {
    var row := s.claiming.value;
    var s' := FinishClaim(s);
    if KeyOf(row) in s.inflight {
      CountsUpUpdate(Requeue(row.delivery, {Running}), s.events);
      forall t | RunCanRetry(c, s', t) ensures RunCanRetry(c, s, t) { }
      BudgetFrame(c, s, s', {});
    } else {
      forall t | RunCanRetry(c, s', t) ensures RetriesBelow(s'.events, s'.runs[t].row) {
        if t != s.nextTask { assert RunCanRetry(c, s, t); }
      }
    }
  }

  lemma BudgetSignal(c: Config, s: State, step: SignalStep)
    requires RetryBudget(c, s) && SignalEnabled(s, step)
    ensures RetryBudget(c, DoSignal(s, step))
  {
    var s' := DoSignal(s, step);
    CountsUpSame(s.events);
    assert s.signals.cancelled <= s'.signals.cancelled && s.shutdownCancelled <= s'.shutdownCancelled;
    forall t | RunCanRetry(c, s', t) ensures RunCanRetry(c, s, t) && s'.runs[t].row == s.runs[t].row { }
    BudgetFrame(c, s, s', {});
  }

  lemma BudgetSweep(c: Config, s: State, step: SweepStep)
    requires RetryBudget(c, s) && SweepEnabled(c, s, step) && !Refreshes(c, s, Sweep(step))
    ensures RetryBudget(c, DoSweep(s, step))
  {
    if step.SweepInsert? {
      BudgetInsert(c, s, DoSweep(s, step), RedispatchRow(step.key, step.spent, step.control, step.now));
    } else {
      CountsUpSame(s.events);
      BudgetTable(c, s, DoSweep(s, step), {});
    }
  }

  lemma BudgetStep(c: Config, s: State, step: Step)
    requires RunsByKey(s) && OneIssue(c, s) && NoOrphans(s) && TableOk(s.events) && RetryBudget(c, s)
    requires Enabled(c, s, step) && !Refreshes(c, s, step)
    ensures RetryBudget(c, Do(c, s, step))
  {
    match step
    case Outside(x) => BudgetOutside(c, s, x);
    case ClaimBegin(_, i) => BudgetClaimBegin(c, s, i);
    case ClaimFinish => BudgetClaimFinish(c, s);
    case OfRun(t, x) => BudgetOfRun(c, s, t, x);
    case OfThread(t, x) => BudgetOfThread(c, s, t, x);
    case Signal(x) => BudgetSignal(c, s, x);
    case Sweep(x) => BudgetSweep(c, s, x);
    case StopBegin => BudgetStop(c, s);
    case Restart => CountsUpUpdate(ResetRunning, s.events);
  }

  lemma BudgetStop(c: Config, s: State)
    requires RetryBudget(c, s)
    ensures RetryBudget(c, s.(stopping := true, claiming := None, sweep := {}))
  {
    var s' := s.(stopping := true, claiming := None, sweep := {});
    CountsUpSame(s.events);
    forall t | RunCanRetry(c, s', t) ensures RunCanRetry(c, s, t) { }
    BudgetFrame(c, s, s', {});
  }

  /** No row is ever retried more than `event_max_retries` times, across crashes, replays and bounced claims, as long
      as no fresh row is really inserted under a delivery that a claim or an unfinished run can still retry. */
  lemma {:induction false} RetriesBounded(c: Config, s: State, steps: seq<Step>)
    requires Inv(c, s) && NoDuplicates(s.slots.uids) && RetryBudget(c, s)
    requires Feasible(c, s, steps) && NeverRefreshes(c, s, steps)
    ensures RetryBudget(c, After(c, s, steps))
    ensures forall r | r in After(c, s, steps).events :: r.retries <= c.maxRetries
    decreases |steps|
  {
    if steps != [] {
      BudgetStep(c, s, steps[0]);
      InvStep(c, s, steps[0]);
      RetriesBounded(c, Do(c, s, steps[0]), steps[1..]);
    }
  }
}
