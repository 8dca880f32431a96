/** Exactly when a replaced row can exceed its retry budget, and when retention reopens a redispatch budget. */
module EventQueueExactness {
  import opened Basics
  import opened Decimals
  import opened EventQueue
  import opened EventQueueSafety
  import opened EventQueueRuns
  import opened EventQueueRetries
  import opened EventQueueContinuations
  import opened EventQueueProgress

  /******* Runs that insert nothing *******/

  predicate InsertsNothing(step: Step) { !step.Outside? && !step.Sweep? }

  lemma {:induction false} WithoutInserts(c: Config, s: State, steps: seq<Step>)
    requires Feasible(c, s, steps) && forall i | 0 <= i < |steps| :: InsertsNothing(steps[i])
    ensures NeverRefreshes(c, s, steps)
    decreases |steps|
  {
    if steps != [] {
      assert InsertsNothing(steps[0]);
      WithoutInserts(c, Do(c, s, steps[0]), steps[1..]);
    }
  }

  /** Steps that insert nothing lead from s to z. */
  ghost predicate Leads(c: Config, s: State, steps: seq<Step>, z: State) {
    Feasible(c, s, steps) && After(c, s, steps) == z && forall i | 0 <= i < |steps| :: InsertsNothing(steps[i])
  }

  lemma LeadsOne(c: Config, s: State, step: Step)
    requires Enabled(c, s, step) && InsertsNothing(step)
    ensures Leads(c, s, [step], Do(c, s, step))
  {
    var z := Do(c, s, step);
    assert [step][1..] == [] && Feasible(c, z, []) && After(c, z, []) == z;
  }

  lemma LeadsConcat(c: Config, s: State, a: seq<Step>, m: State, b: seq<Step>, z: State)
    requires Leads(c, s, a, m) && Leads(c, m, b, z)
    ensures Leads(c, s, a + b, z)
  {
    FeasibleConcat(c, s, a, b);
  }

  lemma LeadsStep(c: Config, s: State, step: Step, b: seq<Step>, z: State)
    requires Enabled(c, s, step) && InsertsNothing(step) && Leads(c, Do(c, s, step), b, z)
    ensures Leads(c, s, [step] + b, z)
  {
    LeadsOne(c, s, step);
    LeadsConcat(c, s, [step], Do(c, s, step), b, z);
  }

  lemma PathLeads(c: Config, s: State, steps: seq<Step>, z: State)
    requires Path(c, s, steps, z)
    ensures Leads(c, s, steps, z)
  {
    forall i | 0 <= i < |steps| ensures InsertsNothing(steps[i]) { assert Internal(steps[i]); }
  }

  /******* Beyond the budget *******/

  ghost predicate OverBudget(c: Config, s: State) {
    exists r | r in s.events :: r.retries > c.maxRetries
  }

  /** A row that is ahead of its attempts by one retry, at attempt a. */
  ghost predicate Climbing(c: Config, s: State, r: Row, a: nat) {
    Quiet(c, s) && Waits(s, r) && r.attempts == a && r.retries == a + 1 && r.delivery !in s.signals.cancelled
    && s.inflight == {}
  }

  lemma RetryMoves(events: seq<Row>, r: Row, at: int, e: Reason)
    requires r in events && r.state in {Running, Failed}
    ensures CanMove(events, r.delivery, {Running, Failed})
    ensures UpdateRow(Retry(r.delivery, at, e), r) in Apply(Retry(r.delivery, at, e), events)
  {
    var i :| 0 <= i < |events| && events[i] == r;
    assert Apply(Retry(r.delivery, at, e), events)[i] == UpdateRow(Retry(r.delivery, at, e), r);
  }

  const RAISE := Raise(NoReason, 0)

  /** The state when the run has raised and its row is queued again. */
  function Retried(s: State, t: nat): State
    requires t in s.runs
  {
    s.(events := Apply(Retry(s.runs[t].row.delivery, 0, NoReason), s.events), runs := SetPhase(s, t, Marked))
  }

  lemma RaiseRetries(c: Config, s: State, t: nat, r: Row)
    requires Sound(c, s) && HasRun(s, t, Dispatching) && t !in s.signals.arming && RunCanRetry(c, s, t)
    requires r in s.events && r.delivery == s.runs[t].row.delivery && r.state in {Running, Failed}
    ensures RunEnabled(s, t, RAISE) && DoRun(c, s, t, RAISE) == Retried(s, t) && Sound(c, Retried(s, t))
    ensures UpdateRow(Retry(r.delivery, 0, NoReason), r) in Retried(s, t).events
  {
    RetryMoves(s.events, r, 0, NoReason);
    RaiseIs(c, s, t);
    SoundRun(c, s, t, RAISE);
  }

  lemma RaiseIs(c: Config, s: State, t: nat)
    requires HasRun(s, t, Dispatching) && t !in s.signals.arming && RunCanRetry(c, s, t)
    requires CanMove(s.events, s.runs[t].row.delivery, {Running, Failed})
    ensures RunEnabled(s, t, RAISE) && DoRun(c, s, t, RAISE) == Retried(s, t)
  {
  }

  lemma StepOfRun(c: Config, s: State, t: nat, step: RunStep)
    requires RunEnabled(s, t, step)
    ensures Enabled(c, s, OfRun(t, step)) && Do(c, s, OfRun(t, step)) == DoRun(c, s, t, step)
  {
  }

  lemma InsideCanRetry(c: Config, s: State, t: nat, r: Row)
    requires Inside(c, s, t, r) && r.attempts < c.maxRetries && r.delivery !in s.signals.cancelled
    ensures RunCanRetry(c, s, t)
  {
    assert s.shutdownCancelled == {};
  }

  /** The raise in a quiet surrounding. */
  lemma RaiseInside(c: Config, s: State, t: nat, r: Row) returns (q: Row)
    requires Inside(c, s, t, r) && r.attempts < c.maxRetries && r.delivery !in s.signals.cancelled
    ensures RunEnabled(s, t, RAISE) && DoRun(c, s, t, RAISE) == Retried(s, t)
    ensures Calm(c, Retried(s, t)) && q in Retried(s, t).events
    ensures q.state == Queued && q.delivery == r.delivery && q.attempts == r.attempts + 1 && q.retries == r.retries + 1
    ensures KeyOf(q) == KeyOf(r)
  {
    var claimed := r.(state := Running, attempts := r.attempts + 1);
    InsideCanRetry(c, s, t, r);
    RaiseRetries(c, s, t, claimed);
    q := UpdateRow(Retry(r.delivery, 0, NoReason), claimed);
  }

  lemma ClimbOnce(c: Config, s: State, r: Row, a: nat) returns (steps: seq<Step>, z: State, q: Row)
    requires Climbing(c, s, r, a) && a < c.maxRetries
    ensures Leads(c, s, steps, z) && Climbing(c, z, q, a + 1)
  {
    var first, m, t := ServeUnleaked(c, s, r);
    q := RaiseInside(c, m, t, r);
    StepOfRun(c, m, t, RAISE);
    var second;
    second, z := FinishRun(c, Retried(m, t), t);
    assert z.runs == map[] by { assert z.runs.Keys == {}; }
    RaisedLeads(c, s, first, m, OfRun(t, RAISE), second, z);
    steps := first + ([OfRun(t, RAISE)] + second);
  }

  lemma ServeUnleaked(c: Config, s: State, r: Row) returns (steps: seq<Step>, z: State, t: nat)
    requires Quiet(c, s) && Waits(s, r) && s.inflight == {}
    ensures Path(c, s, steps, z) && Inside(c, z, t, r)
    ensures z.signals.cancelled <= s.signals.cancelled && z.inflight == {KeyOf(r)}
  {
    assert !Blocked(s, r);
    steps, z, t := ServeRow(c, s, r);
  }

  lemma RaisedLeads(c: Config, s: State, a: seq<Step>, m: State, step: Step, b: seq<Step>, z: State)
    requires Path(c, s, a, m) && Enabled(c, m, step) && InsertsNothing(step) && Path(c, Do(c, m, step), b, z)
    ensures Leads(c, s, a + ([step] + b), z)
  {
    PathLeads(c, s, a, m);
    PathLeads(c, Do(c, m, step), b, z);
    LeadsStep(c, m, step, b, z);
    LeadsConcat(c, s, a, m, [step] + b, z);
  }

  lemma {:induction false} Climb(c: Config, s: State, r: Row, a: nat) returns (steps: seq<Step>, z: State)
    requires Climbing(c, s, r, a) && a <= c.maxRetries
    ensures Leads(c, s, steps, z) && OverBudget(c, z)
    decreases c.maxRetries - a
  {
    if a == c.maxRetries {
      steps, z := [], s;
    } else {
      var first, m, q := ClimbOnce(c, s, r, a);
      var rest;
      rest, z := Climb(c, m, q, a + 1);
      LeadsConcat(c, s, first, m, rest, z);
      steps := first + rest;
    }
  }

  /******* The holder comes to its handler *******/

  /** A run that can retry, and the fresh row of its delivery. */
  ghost predicate Held(c: Config, s: State, t: nat, row: Row) {
    Sound(c, s) && RunCanRetry(c, s, t) && Waits(s, row)
    && row.delivery == s.runs[t].row.delivery && row.attempts == 0 && row.retries == 0
  }

  /** Another run goes on until it has given back its slot. */
  lemma {:induction false} GiveSlot(c: Config, s: State, t: nat, row: Row, u: nat) returns (steps: seq<Step>, z: State)
    requires Held(c, s, t, row) && HasRun(s, t, Waiting) && u in s.runs && u != t && s.runs[u].slot.Some?
    ensures Leads(c, s, steps, z) && Held(c, z, t, row) && HasRun(z, t, Waiting) && z.slots.available != []
    decreases Ahead(s, u)
  {
    var step := NextStep(s, u);
    assert s.runs[u].phase == Dispatching || s.runs[u].phase == Marked;
    NextStepHeld(c, s, t, row, u);
    NextStepGives(s, u);
    var m := NextState(s, u);
    LeadsOne(c, s, step);
    if s.runs[u].phase == Marked {
      steps, z := [step], m;
    } else {
      var rest;
      rest, z := GiveSlot(c, m, t, row, u);
      LeadsConcat(c, s, [step], m, rest, z);
      steps := [step] + rest;
    }
  }

  lemma NextStepHeld(c: Config, s: State, t: nat, row: Row, u: nat)
    requires Held(c, s, t, row) && HasRun(s, t, Waiting) && u in s.runs && u != t
    requires s.runs[u].phase == Dispatching || s.runs[u].phase == Marked
    ensures Enabled(c, s, NextStep(s, u)) && Do(c, s, NextStep(s, u)) == NextState(s, u)
    ensures InsertsNothing(NextStep(s, u))
    ensures Held(c, NextState(s, u), t, row) && HasRun(NextState(s, u), t, Waiting)
  {
    NextStepIs(c, s, u);
    StaysSound(c, s, NextStep(s, u));
    NextStepTouches(s, u);
    NextStepOthers(s, t, u);
    if s.runs[u].row.delivery == s.runs[t].row.delivery { OneRunPerDelivery(c, s, t, u); }
  }

  lemma NextStepOthers(s: State, t: nat, u: nat)
    requires t in s.runs && u in s.runs && u != t && SlotFree(s, u)
    ensures var z := NextState(s, u);
      t in z.runs && z.runs[t] == s.runs[t] && z.slots.uids == s.slots.uids
      && z.signals.cancelled <= s.signals.cancelled && z.shutdownCancelled <= s.shutdownCancelled
  {
  }

  /** A handler comes nearer to its end; a marked run gives back its slot. */
  lemma NextStepGives(s: State, u: nat)
    requires u in s.runs && SlotFree(s, u) && s.runs[u].slot.Some?
    ensures var z := NextState(s, u);
      (s.runs[u].phase == Marked ==> z.slots.available != [])
      && (s.runs[u].phase == Dispatching ==>
        u in z.runs && z.runs[u].slot == s.runs[u].slot && Ahead(z, u) < Ahead(s, u))
  {
  }

  lemma ComeInside(c: Config, s: State, t: nat, row: Row) returns (steps: seq<Step>, z: State)
    requires Held(c, s, t, row)
    ensures Leads(c, s, steps, z) && Held(c, z, t, row) && HasRun(z, t, Dispatching) && t !in z.signals.arming
  {
    if s.runs[t].phase == Dispatching {
      steps, z := StoreHook(c, s, t, row);
    } else {
      var first, m := [], s;
      if !SlotFree(s, t) {
        var u := SlotHolder(c, s, t);
        first, m := GiveSlot(c, s, t, row, u);
      }
      var n := Acquire(m, t);
      AcquireHeld(c, m, t, row);
      StepOfRun(c, m, t, AcquireSlot);
      LeadsOne(c, m, OfRun(t, AcquireSlot));
      var rest;
      rest, z := StoreHook(c, n, t, row);
      LeadsConcat(c, m, [OfRun(t, AcquireSlot)], n, rest, z);
      LeadsConcat(c, s, first, m, [OfRun(t, AcquireSlot)] + rest, z);
      steps := first + ([OfRun(t, AcquireSlot)] + rest);
    }
  }

  lemma SlotHolder(c: Config, s: State, t: nat) returns (u: nat)
    requires SlotsSplit(s) && HasRun(s, t, Waiting) && !SlotFree(s, t)
    ensures u in s.runs && u != t && s.runs[u].slot.Some?
  {
    assert s.slots.uids[0] in Elements(s.slots.uids);
    u :| HoldsSlot(s, u, s.slots.uids[0]);
  }

  lemma AcquireHeld(c: Config, s: State, t: nat, row: Row)
    requires Held(c, s, t, row) && HasRun(s, t, Waiting) && SlotFree(s, t)
    ensures Held(c, Acquire(s, t), t, row) && HasRun(Acquire(s, t), t, Dispatching)
  {
    SoundRun(c, s, t, AcquireSlot);
  }

  lemma StoreHook(c: Config, s: State, t: nat, row: Row) returns (steps: seq<Step>, z: State)
    requires Held(c, s, t, row) && HasRun(s, t, Dispatching)
    ensures Leads(c, s, steps, z) && Held(c, z, t, row) && HasRun(z, t, Dispatching) && t !in z.signals.arming
  {
    if t in s.signals.arming {
      StaysSound(c, s, Signal(ArmStore(t)));
      LeadsOne(c, s, Signal(ArmStore(t)));
      steps, z := [Signal(ArmStore(t))], Do(c, s, Signal(ArmStore(t)));
    } else {
      steps, z := [], s;
    }
  }

  /** The handler marks the fresh row failed. */
  lemma MarkFresh(c: Config, s: State, t: nat, row: Row)
    requires Held(c, s, t, row) && HasRun(s, t, Dispatching) && t !in s.signals.arming
    ensures var mark := OfThread(t, WorkerMark(Failed, NoReason));
      Enabled(c, s, mark)
      && var m := Do(c, s, mark);
         Sound(c, m) && m == s.(events := m.events)
         && row.(state := Failed, error := NoReason) in m.events
  {
    MarkedRow(s.events, row);
    StaysSound(c, s, OfThread(t, WorkerMark(Failed, NoReason)));
  }

  lemma RaiseFailed(c: Config, m: State, t: nat, failed: Row) returns (r: Row)
    requires Sound(c, m) && HasRun(m, t, Dispatching) && t !in m.signals.arming
    requires RunCanRetry(c, m, t) && failed in m.events && failed.delivery == m.runs[t].row.delivery
    requires failed.state == Failed && failed.attempts == 0 && failed.retries == 0
    ensures RunEnabled(m, t, RAISE) && DoRun(c, m, t, RAISE) == Retried(m, t) && Sound(c, Retried(m, t))
    ensures r in Retried(m, t).events && r.state == Queued && r.attempts == 0 && r.retries == 1
  {
    RaiseRetries(c, m, t, failed);
    r := UpdateRow(Retry(failed.delivery, 0, NoReason), failed);
  }

  /** The process starts anew: the row is queued, with a retry and no attempt. */
  lemma RestartClimbs(c: Config, n: State, r: Row)
    requires Sound(c, n)
    requires r in n.events && r.state == Queued && r.attempts == 0 && r.retries == 1
    ensures Climbing(c, Do(c, n, Restart), r, 0)
  {
    RestartQuiet(c, n);
    RestartKeepsQueued(n.events, r);
  }

  lemma RestartQuiet(c: Config, s: State)
    requires Sound(c, s)
    ensures Quiet(c, Do(c, s, Restart)) && Do(c, s, Restart).signals.cancelled == {} && Do(c, s, Restart).inflight == {}
  {
    StaysSound(c, s, Restart);
  }

  lemma RetryFresh(c: Config, s: State, t: nat, row: Row) returns (steps: seq<Step>, z: State, r: Row)
    requires Held(c, s, t, row) && HasRun(s, t, Dispatching) && t !in s.signals.arming
    ensures Leads(c, s, steps, z) && Climbing(c, z, r, 0)
  {
    var mark, raise := OfThread(t, WorkerMark(Failed, NoReason)), OfRun(t, RAISE);
    MarkFresh(c, s, t, row);
    var m := Do(c, s, mark);
    r := RaiseFailed(c, m, t, row.(state := Failed, error := NoReason));
    StepOfRun(c, m, t, RAISE);
    RestartClimbs(c, Retried(m, t), r);
    z := Do(c, Retried(m, t), Restart);
    LeadsOne(c, Retried(m, t), Restart);
    LeadsStep(c, m, raise, [Restart], z);
    LeadsStep(c, s, mark, [raise] + [Restart], z);
    steps := [mark] + ([raise] + [Restart]);
  }

  lemma MarkedRow(events: seq<Row>, row: Row)
    requires row in events
    ensures row.(state := Failed, error := NoReason) in Apply(Mark(row.delivery, Failed, NoReason), events)
  {
    var i :| 0 <= i < |events| && events[i] == row;
    assert Apply(Mark(row.delivery, Failed, NoReason), events)[i] == row.(state := Failed, error := NoReason);
  }

  lemma RestartKeepsQueued(events: seq<Row>, r: Row)
    requires r in events && r.state == Queued
    ensures r in Apply(ResetRunning, events)
  {
    var i :| 0 <= i < |events| && events[i] == r;
    assert Apply(ResetRunning, events)[i] == r;
  }

  /** The run that will retry: the one that can already, or the one the claim becomes. */
  lemma HolderRuns(c: Config, s: State, row: Row) returns (steps: seq<Step>, z: State, t: nat)
    requires Sound(c, s) && CanRetry(c, s, row.delivery)
    requires Waits(s, row) && row.attempts == 0 && row.retries == 0
    ensures Leads(c, s, steps, z) && Held(c, z, t, row)
  {
    if u :| RunCanRetry(c, s, u) && s.runs[u].row.delivery == row.delivery {
      steps, z, t := [], s, u;
    } else {
      z := Do(c, s, ClaimFinish);
      LeadsOne(c, s, ClaimFinish);
      ClaimHolds(c, s, row);
      steps, t := [ClaimFinish], s.nextTask;
    }
  }

  lemma ClaimHolds(c: Config, s: State, row: Row)
    requires Sound(c, s) && ClaimCanRetry(c, s) && s.claiming.value.delivery == row.delivery
    requires Waits(s, row) && row.attempts == 0 && row.retries == 0
    ensures Held(c, FinishClaim(s), s.nextTask, row)
  {
    SoundClaim(c, s);
    assert FinishClaim(s) == Admit(s, s.claiming.value);
    assert s.shutdownCancelled == {};
  }

  lemma Escape(c: Config, s: State, row: Row) returns (steps: seq<Step>, z: State, r: Row)
    requires Sound(c, s) && CanRetry(c, s, row.delivery)
    requires Waits(s, row) && row.attempts == 0 && row.retries == 0
    ensures Leads(c, s, steps, z) && Climbing(c, z, r, 0)
  {
    var a, m, t := HolderRuns(c, s, row);
    var b, n := ComeInside(c, m, t, row);
    var d;
    d, z, r := RetryFresh(c, n, t, row);
    LeadsConcat(c, m, b, n, d, z);
    LeadsConcat(c, s, a, m, b + d, z);
    steps := a + (b + d);
  }

  /** A fresh row under a delivery that can still be retried can be retried
      `event_max_retries + 1` times, with no further insert. */
  lemma RefreshEscapesBudget(c: Config, s: State, row: Row) returns (steps: seq<Step>)
    requires Sound(c, s) && CanRetry(c, s, row.delivery)
    requires Waits(s, row) && row.attempts == 0 && row.retries == 0
    ensures Feasible(c, s, steps) && NeverRefreshes(c, s, steps)
    ensures OverBudget(c, After(c, s, steps))
  {
    var a, m, r := Escape(c, s, row);
    var b, z := Climb(c, m, r, 0);
    LeadsConcat(c, s, a, m, b, z);
    steps := a + b;
    WithoutInserts(c, s, steps);
  }

  /** Whatever follows without another refresh, no row exceeds the budget. */
  ghost predicate BudgetKept(c: Config, s: State) {
    forall steps | Feasible(c, s, steps) && NeverRefreshes(c, s, steps) :: !OverBudget(c, After(c, s, steps))
  }

  /** After a replacement the budget holds in every continuation exactly when, at the replacement, neither a
      claim nor an unfinished run of the delivery could retry the row. */
  lemma ReplacementKeepsBudgetIff(c: Config, s: State, row: Row)
    requires Sound(c, s) && RetryBudget(c, s)
    requires OutsideEnabled(c, s, Replace(row)) && !HasActive(s.events, row.delivery)
    ensures BudgetKept(c, DoOutside(s, Replace(row))) <==> !CanRetry(c, s, row.delivery)
  {
    StaysSound(c, s, Outside(Replace(row)));
    if CanRetry(c, s, row.delivery) { ReplacementEscapes(c, s, row); } else { ReplacementKeeps(c, s, row); }
  }

  lemma ReplacementEscapes(c: Config, s: State, row: Row)
    requires Sound(c, DoOutside(s, Replace(row))) && OutsideEnabled(c, s, Replace(row))
    requires !HasActive(s.events, row.delivery)
    requires CanRetry(c, s, row.delivery)
    ensures !BudgetKept(c, DoOutside(s, Replace(row)))
  {
    var z := DoOutside(s, Replace(row));
    ReplaceKeepsHolders(c, s, row);
    assert row == z.events[|z.events| - 1];
    var steps := RefreshEscapesBudget(c, z, row);
    assert OverBudget(c, After(c, z, steps));
  }

  lemma ReplacementKeeps(c: Config, s: State, row: Row)
    requires Sound(c, s) && Sound(c, DoOutside(s, Replace(row))) && RetryBudget(c, s)
    requires OutsideEnabled(c, s, Replace(row)) && !CanRetry(c, s, row.delivery)
    ensures BudgetKept(c, DoOutside(s, Replace(row)))
  {
    var z := DoOutside(s, Replace(row));
    BudgetOutside(c, s, Replace(row));
    forall steps | Feasible(c, z, steps) && NeverRefreshes(c, z, steps) ensures !OverBudget(c, After(c, z, steps)) {
      RetriesBounded(c, z, steps);
    }
  }

  lemma ReplaceKeepsHolders(c: Config, s: State, row: Row)
    requires CanRetry(c, s, row.delivery)
    ensures CanRetry(c, DoOutside(s, Replace(row)), row.delivery)
  {
    var z := DoOutside(s, Replace(row));
    if t :| RunCanRetry(c, s, t) && s.runs[t].row.delivery == row.delivery { assert RunCanRetry(c, z, t); }
  }

  /******* Redispatch after retention *******/

  lemma {:induction false} WithoutIs(events: seq<Row>, i: nat)
    requires TableOk(events) && i < |events|
    ensures Without(events, events[i].delivery) == events[..i] + events[i + 1..]
  {
    TailKeepsTable(events);
    if i == 0 {
      FirstIsUnique(events);
      WithoutAbsent(events[1..], events[0].delivery);
    } else {
      assert Compatible(events[0], events[i]);
      WithoutIs(events[1..], i - 1);
      SplicedTail(events, i);
    }
  }

  lemma FirstIsUnique(events: seq<Row>)
    requires TableOk(events) && events != []
    ensures forall r | r in events[1..] :: r.delivery != events[0].delivery
  {
    forall r | r in events[1..] ensures r.delivery != events[0].delivery {
      var j :| 0 <= j < |events[1..]| && events[1..][j] == r;
      assert Compatible(events[0], events[j + 1]);
    }
  }

  lemma SplicedTail<T>(s: seq<T>, i: nat)
    requires 0 < i < |s|
    ensures [s[0]] + (s[1..][..i - 1] + s[1..][i..]) == s[..i] + s[i + 1..] && s[1..][i - 1] == s[i]
  {
    assert s[..i] == [s[0]] + s[1..][..i - 1] && s[1..][i..] == s[i + 1..];
  }

  /** Where row j is once row i is gone. */
  function Shifted(i: nat, j: nat): nat
    requires i != j
  {
    if j < i then j else j - 1
  }

  lemma RowsShift(events: seq<Row>, i: nat)
    requires TableOk(events) && i < |events|
    ensures DropsOne(events, i, Without(events, events[i].delivery))
  {
    WithoutIs(events, i);
    SplicedAt(events, i);
  }

  ghost predicate DropsOne<T>(before: seq<T>, i: nat, after: seq<T>)
    requires i < |before|
  {
    |after| == |before| - 1
    && (forall j | 0 <= j < |before| && j != i :: after[Shifted(i, j)] == before[j])
    && forall k | 0 <= k < |after| :: after[k] == before[if k < i then k else k + 1]
  }

  lemma SplicedAt<T>(s: seq<T>, i: nat)
    requires i < |s|
    ensures DropsOne(s, i, s[..i] + s[i + 1..])
  {
  }

  lemma NewestShifts(events: seq<Row>, key: string, i: nat, j: nat)
    requires TableOk(events) && i < |events| && events[i].state == Skipped && IsNewest(events, key, j)
    ensures j != i && IsNewest(Without(events, events[i].delivery), key, Shifted(i, j))
    ensures Without(events, events[i].delivery)[Shifted(i, j)] == events[j]
  {
    RowsShift(events, i);
    NewestOfRest(events, key, i, j, Without(events, events[i].delivery));
  }

  lemma NewestOfRest(events: seq<Row>, key: string, i: nat, j: nat, rest: seq<Row>)
    requires i < |events| && events[i].state == Skipped && IsNewest(events, key, j) && DropsOne(events, i, rest)
    ensures j != i && IsNewest(rest, key, Shifted(i, j))
  {
  }

  lemma LatestShifts(events: seq<Row>, key: string, i: nat, j: nat)
    requires TableOk(events) && i < |events| && events[i].state == Skipped && IsLatest(events, key, j)
    ensures j != i && IsLatest(Without(events, events[i].delivery), key, Shifted(i, j))
    ensures Without(events, events[i].delivery)[Shifted(i, j)] == events[j]
  {
    RowsShift(events, i);
    LatestOfRest(events, key, i, j, Without(events, events[i].delivery));
  }

  lemma LatestOfRest(events: seq<Row>, key: string, i: nat, j: nat, rest: seq<Row>)
    requires i < |events| && events[i].state == Skipped && IsLatest(events, key, j) && DropsOne(events, i, rest)
    ensures j != i && IsLatest(rest, key, Shifted(i, j))
  {
  }

  /** A failed row that the redispatch sweep goes by. */
  predicate Strands(c: Config, issues: map<string, IssueState>, key: string, r: Row) {
    r.state == Failed && r.attempts >= c.maxRetries && !MentionsCancel(r.error)
    && (key in issues || (r.error.Fault? && r.error.transient))
  }

  lemma StrandedShifts(c: Config, s: State, key: string, i: nat)
    requires TableOk(s.events) && i < |s.events| && s.events[i].state == Skipped && Stranded(c, s, key)
    ensures Stranded(c, DoOutside(s, Prune(s.events[i].delivery)), key)
  {
    var j: nat :| IsLatest(s.events, key, j) && Strands(c, s.issues, key, s.events[j]);
    LatestShifts(s.events, key, i, j);
    StaysInactive(s.events, key, s.events[i].delivery);
    StrandedBy(c, DoOutside(s, Prune(s.events[i].delivery)), key, Shifted(i, j));
  }

  predicate AllInactive(events: seq<Row>, key: string) {
    forall k | 0 <= k < |events| && events[k].issueKey == Some(key) :: Inactive(events[k].state)
  }

  lemma StaysInactive(events: seq<Row>, key: string, d: string)
    requires AllInactive(events, key)
    ensures AllInactive(Without(events, d), key)
  {
    var rest := Without(events, d);
    assert forall k | 0 <= k < |rest| :: rest[k] in rest;
  }

  lemma StrandedBy(c: Config, s: State, key: string, j: nat)
    requires AllInactive(s.events, key)
    requires IsLatest(s.events, key, j) && Strands(c, s.issues, key, s.events[j])
    requires key in s.issues ==> InFlightIssue(s.issues[key])
    ensures Stranded(c, s, key)
  {
  }

  lemma DifferentIds(key: string, m: nat, n: nat)
    requires m != n
    ensures RedispatchId(key, m) != RedispatchId(key, n)
  {
    ValueOfPrint(m);
    ValueOfPrint(n);
    var head := REDISPATCH_PREFIX + (Tag(key) + "-");
    assert RedispatchId(key, m) == head + Print(m) && RedispatchId(key, n) == head + Print(n);
    assert RedispatchId(key, m)[|head|..] == Print(m) && RedispatchId(key, n)[|head|..] == Print(n);
  }

  /** Once row n of the redispatch rows of an issue is pruned, a sweep can insert the id it derives from the
      count exactly when n was the last id; else that id is still taken, and the issue is neither queued again
      nor abandoned. */
  lemma PruneReopensIff(c: Config, s: State, key: string, i: nat, n: nat, last: string)
    requires TableOk(s.events) && i < |s.events| && s.events[i].state == Skipped && s.events[i].issueKey == Some(key)
    requires s.events[i].delivery == RedispatchId(key, n)
    requires last == RedispatchId(key, Spent(s.events, key)) && Has(s.events, last)
    ensures var z := DoOutside(s, Prune(s.events[i].delivery));
      Spent(z.events, key) == Spent(s.events, key) - 1 && (!Has(z.events, last) <==> n == Spent(s.events, key))
  {
    var id := s.events[i].delivery;
    SpentWithout(s.events, key, i);
    SameIdIff(key, n, Spent(s.events, key), id, last);
    HasWithout(s.events, id, last);
  }

  lemma SameIdIff(key: string, n: nat, m: nat, id: string, last: string)
    requires id == RedispatchId(key, n) && last == RedispatchId(key, m)
    ensures id == last <==> n == m
  {
    if n != m { DifferentIds(key, n, m); }
  }

  lemma HasWithout(events: seq<Row>, d: string, e: string)
    ensures Has(Without(events, d), e) <==> d != e && Has(events, e)
  {
    var rest := Without(events, d);
    if d == e {
      assert forall k | 0 <= k < |rest| :: rest[k] in rest;
    } else {
      WithoutKeepsOthers(events, d, e);
    }
  }

  /** Only the events table and the sweep are different. */
  predicate SamePool(s: State, z: State) { z == s.(events := z.events, sweep := z.sweep) }

  /** The sweep after retention has taken the last, skipped redispatch row of an issue. */
  ghost predicate SweptAgain(c: Config, s: State, key: string, m: nat, steps: seq<Step>, z: State) {
    Feasible(c, s, steps) && After(c, s, steps) == z && Sound(c, z) && !z.stopping
    && Active(z, RedispatchId(key, m)) && SamePool(s, z)
    && |steps| == 4 && steps[0] == Outside(Prune(RedispatchId(key, m))) && forall k | 1 <= k < 4 :: steps[k].Sweep?
  }

  lemma PruneAndSweep(c: Config, s: State, key: string, i: nat, j: nat, now: int) returns (steps: seq<Step>, z: State)
    requires Sound(c, s) && !s.stopping && Spent(s.events, key) <= c.cap
    requires i < |s.events| && s.events[i].state == Skipped && s.events[i].issueKey == Some(key)
    requires s.events[i].delivery == RedispatchId(key, Spent(s.events, key))
    requires Stranded(c, s, key) && IsNewest(s.events, key, j) && s.events[j].state == Failed
    ensures SweptAgain(c, s, key, Spent(s.events, key), steps, z)
  {
    var prune := Prune(s.events[i].delivery);
    PruneLeaves(c, s, key, i);
    PrunedIds(s.events, key, i);
    StrandedShifts(c, s, key, i);
    NewestShifts(s.events, key, i, j);
    var rest;
    rest, z := SweepAgain(c, DoOutside(s, prune), key, Spent(s.events, key), Shifted(i, j), now);
    steps := PrunedFirst(c, s, prune, rest, z);
  }

  lemma PrunedFirst(c: Config, s: State, prune: OutsideStep, rest: seq<Step>, z: State) returns (steps: seq<Step>)
    requires Enabled(c, s, Outside(prune)) && Feasible(c, DoOutside(s, prune), rest)
    requires After(c, DoOutside(s, prune), rest) == z
    ensures steps == [Outside(prune)] + rest && Feasible(c, s, steps) && After(c, s, steps) == z
  {
    OneStep(c, s, Outside(prune), "");
    FeasibleConcat(c, s, [Outside(prune)], rest);
    steps := [Outside(prune)] + rest;
  }

  /** What pruning the last redispatch row leaves. */
  lemma PruneLeaves(c: Config, s: State, key: string, i: nat)
    requires Sound(c, s) && i < |s.events| && s.events[i].state == Skipped && s.events[i].issueKey == Some(key)
    ensures Enabled(c, s, Outside(Prune(s.events[i].delivery))) && c.issueOf(s.events[i].delivery) == Some(key)
    ensures var z := DoOutside(s, Prune(s.events[i].delivery));
      Sound(c, z) && SamePool(s, z)
  {
    assert s.events[i] in s.events && SameIssue(c, s.events[i]);
    PruneSkipped(c, s, i);
    StaysSound(c, s, Outside(Prune(s.events[i].delivery)));
  }

  lemma PrunedIds(events: seq<Row>, key: string, i: nat)
    requires TableOk(events) && i < |events| && events[i].issueKey == Some(key) && IsRedispatch(events[i].delivery)
    ensures Spent(Without(events, events[i].delivery), key) == Spent(events, key) - 1
    ensures !Has(Without(events, events[i].delivery), events[i].delivery)
  {
    SpentWithout(events, key, i);
    HasWithout(events, events[i].delivery, events[i].delivery);
  }

  lemma PruneSkipped(c: Config, s: State, i: nat)
    requires TableOk(s.events) && i < |s.events| && s.events[i].state == Skipped
    ensures Enabled(c, s, Outside(Prune(s.events[i].delivery)))
  {
    SameRow(s.events);
    assert s.events[i] in s.events;
  }

  lemma SweepAgain(c: Config, s: State, key: string, m: nat, j: nat, now: int) returns (steps: seq<Step>, z: State)
    requires Sound(c, s) && !s.stopping && 1 <= m <= c.cap
    requires Spent(s.events, key) == m - 1 && !Has(s.events, RedispatchId(key, m))
    requires c.issueOf(RedispatchId(key, m)) == Some(key)
    requires Stranded(c, s, key) && IsNewest(s.events, key, j) && s.events[j].state == Failed
    ensures Feasible(c, s, steps) && After(c, s, steps) == z && Sound(c, z) && !z.stopping
    ensures Active(z, RedispatchId(key, m)) && SamePool(s, z)
    ensures |steps| == 3 && forall k | 0 <= k < 3 :: steps[k].Sweep?
  {
    var control := s.events[j].control;
    var s1 := DoSweep(s, SweepRead(key));
    var s2 := DoSweep(s1, SweepCheck(key, m - 1, j));
    FoundAgain(c, s, key, m, j);
    z := DoSweep(s2, SweepInsert(key, m - 1, control, now));
    InsertAgain(c, s2, key, m, control, now);
    steps := ThreeSweeps(c, s, SweepRead(key), SweepCheck(key, m - 1, j), SweepInsert(key, m - 1, control, now));
  }

  lemma ThreeSweeps(c: Config, s: State, a: SweepStep, b: SweepStep, e: SweepStep) returns (steps: seq<Step>)
    requires SweepEnabled(c, s, a) && SweepEnabled(c, DoSweep(s, a), b) && SweepEnabled(c, DoSweep(DoSweep(s, a), b), e)
    ensures Feasible(c, s, steps) && After(c, s, steps) == DoSweep(DoSweep(DoSweep(s, a), b), e)
    ensures |steps| == 3 && forall k | 0 <= k < 3 :: steps[k].Sweep?
  {
    ThreeFeasible(c, s, Sweep(a), Sweep(b), Sweep(e));
    steps := [Sweep(a)] + ([Sweep(b)] + [Sweep(e)]);
  }

  lemma FoundAgain(c: Config, s: State, key: string, m: nat, j: nat)
    requires Sound(c, s) && !s.stopping && 1 <= m <= c.cap && Spent(s.events, key) == m - 1
    requires Stranded(c, s, key) && IsNewest(s.events, key, j) && s.events[j].state == Failed
    ensures var s1 := DoSweep(s, SweepRead(key)); var s2 := DoSweep(s1, SweepCheck(key, m - 1, j));
      SweepEnabled(c, s, SweepRead(key)) && SweepEnabled(c, s1, SweepCheck(key, m - 1, j)) && Sound(c, s2)
      && s2 == s.(sweep := s2.sweep) && Checked(key, m - 1, s.events[j].control) in s2.sweep
  {
    SoundSweep(c, s, SweepRead(key));
    SoundSweep(c, DoSweep(s, SweepRead(key)), SweepCheck(key, m - 1, j));
  }

  lemma InsertAgain(c: Config, s: State, key: string, m: nat, control: bool, now: int)
    requires Sound(c, s) && !s.stopping && m >= 1 && !Has(s.events, RedispatchId(key, m))
    requires Checked(key, m - 1, control) in s.sweep && c.issueOf(RedispatchId(key, m)) == Some(key)
    ensures var x := SweepInsert(key, m - 1, control, now); var z := DoSweep(s, x);
      SweepEnabled(c, s, x) && Sound(c, z) && SamePool(s, z)
      && Active(z, RedispatchId(key, m))
  {
    var row := RedispatchRow(key, m - 1, control, now);
    SoundSweep(c, s, SweepInsert(key, m - 1, control, now));
    assert row in s.events + [row] && ActiveRow(row, RedispatchId(key, m));
  }

  lemma ThreeFeasible(c: Config, s: State, a: Step, b: Step, e: Step)
    requires Enabled(c, s, a) && Enabled(c, Do(c, s, a), b) && Enabled(c, Do(c, Do(c, s, a), b), e)
    ensures Feasible(c, s, [a] + ([b] + [e]))
    ensures After(c, s, [a] + ([b] + [e])) == Do(c, Do(c, Do(c, s, a), b), e)
  {
    var m := Do(c, s, a);
    OneStep(c, Do(c, m, b), e, "");
    OneStep(c, m, b, "");
    OneStep(c, s, a, "");
    FeasibleConcat(c, m, [b], [e]);
    FeasibleConcat(c, s, [a], [b] + [e]);
  }

  /** When retention prunes the last, skipped redispatch row of a stranded issue, the issue is redispatched and
      executed once more under the same id, although its budget was spent. */
  lemma PruneReopens(c: Config, s: State, key: string, i: nat, j: nat, now: int) returns (steps: seq<Step>)
    requires Sound(c, s) && !s.stopping && Spent(s.events, key) <= c.cap
    requires i < |s.events| && s.events[i].state == Skipped && s.events[i].issueKey == Some(key)
    requires s.events[i].delivery == RedispatchId(key, Spent(s.events, key))
    requires Stranded(c, s, key) && IsNewest(s.events, key, j) && s.events[j].state == Failed
    requires !HandlerInside(s, RedispatchId(key, Spent(s.events, key))) && NoneLeaked(s)
    ensures Feasible(c, s, steps) && Executes(c, s, steps, RedispatchId(key, Spent(s.events, key)))
    ensures steps != [] && steps[0] == Outside(Prune(RedispatchId(key, Spent(s.events, key))))
    ensures forall k | 1 <= k < |steps| :: steps[k].Sweep? || Internal(steps[k])
  {
    var first, z := PruneAndSweep(c, s, key, i, j, now);
    steps := ExecuteAfter(c, s, key, Spent(s.events, key), first, z);
  }

  lemma ExecuteAfter(c: Config, s: State, key: string, m: nat, first: seq<Step>, z: State) returns (steps: seq<Step>)
    requires SweptAgain(c, s, key, m, first, z) && !HandlerInside(s, RedispatchId(key, m)) && NoneLeaked(s)
    ensures Feasible(c, s, steps) && Executes(c, s, steps, RedispatchId(key, m))
    ensures first <= steps && forall k | |first| <= k < |steps| :: Internal(steps[k])
  {
    assert forall t | WorksOn(z, t, RedispatchId(key, m)) :: WorksOn(s, t, RedispatchId(key, m));
    NeverStuck(z, RedispatchId(key, m));
    var rest := NeverBlocked(c, z, RedispatchId(key, m));
    FeasibleConcat(c, s, first, rest);
    steps := first + rest;
  }
}
