/** What the event queue promises over whole runs. */
module EventQueueRuns {
  import opened Basics
  import opened EventQueue
  import opened EventQueueSafety

  /******* Exclusion *******/

  /** In every reachable state an issue has at most one running row and a key at most one live run; `_inflight` holds
      the live keys, and no other unless a clean-up failed; a slot UID has at most one holder and none is lost. */
  lemma Exclusion(c: Config, s: State, steps: seq<Step>)
    requires Inv(c, s) && NoDuplicates(s.slots.uids) && Feasible(c, s, steps)
    ensures var z := After(c, s, steps);
      && (forall i, j | 0 <= i < j < |z.events| && z.events[i].state == Running == z.events[j].state ::
            z.events[i].issueKey.None? || z.events[i].issueKey != z.events[j].issueKey)
      && (forall t, u | t in z.runs && u in z.runs && KeyOf(z.runs[t].row) == KeyOf(z.runs[u].row) :: t == u)
      && (forall t | t in z.runs :: KeyOf(z.runs[t].row) in z.inflight)
      && (NoneLeaked(s) && CleanUpsSucceed(steps) ==> NoneLeaked(z))
      && (forall t, u | t in z.runs && u in z.runs && z.runs[t].slot.Some? && z.runs[t].slot == z.runs[u].slot ::
        t == u)
      && Elements(z.slots.available) + z.slots.checkedOut == Elements(z.slots.uids)
      && Elements(z.slots.available) !! z.slots.checkedOut
  {
    InvAlways(c, s, steps);
    var z := After(c, s, steps);
    assert forall i, j | 0 <= i < j < |z.events| :: Compatible(z.events[i], z.events[j]);
    forall t, u | t in z.runs && u in z.runs && z.runs[t].slot.Some? && z.runs[t].slot == z.runs[u].slot
      ensures t == u {
      assert HoldsSlot(z, t, z.runs[t].slot.value) && HoldsSlot(z, u, z.runs[t].slot.value);
    }
    AllUids(c, s, steps);
    assert forall t | t in z.runs :: KeyOf(z.runs[t].row) in LiveKeys(z);
    if NoneLeaked(s) && CleanUpsSucceed(steps) { NoLeaks(c, s, steps); }
  }

  ghost predicate NoneLeaked(s: State) { s.inflight == LiveKeys(s) }

  /** Every run that leaves releases its key. */
  predicate CleanUpsSucceed(steps: seq<Step>) {
    forall i | 0 <= i < |steps| :: !(steps[i].OfRun? && steps[i].run.ReleaseSkipped?)
  }

  lemma {:induction false} NoLeaks(c: Config, s: State, steps: seq<Step>)
    requires RunsByKey(s) && NoneLeaked(s) && Feasible(c, s, steps) && CleanUpsSucceed(steps)
    ensures NoneLeaked(After(c, s, steps))
    decreases |steps|
  {
    if steps != [] {
      assert !(steps[0].OfRun? && steps[0].run.ReleaseSkipped?);
      RunsByKeyStep(c, s, steps[0]);
      LeaksNothing(c, s, steps[0]);
      NoLeaks(c, Do(c, s, steps[0]), steps[1..]);
    }
  }

  lemma LeaksNothing(c: Config, s: State, step: Step)
    requires RunsByKey(s) && NoneLeaked(s) && Enabled(c, s, step) && !(step.OfRun? && step.run.ReleaseSkipped?)
    ensures NoneLeaked(Do(c, s, step))
  {
    if NotOfRuns(step) {
      RunsUntouched(c, s, step);
    } else if step.OfRun? {
      LeaksNothingOfRun(c, s, step.task, step.run);
    } else if step.ClaimFinish? {
      AdmitLeaksNothing(s);
    }
  }

  lemma LeaksNothingOfRun(c: Config, s: State, t: nat, step: RunStep)
    requires RunsByKey(s) && NoneLeaked(s) && RunEnabled(s, t, step) && !step.ReleaseSkipped?
    ensures NoneLeaked(DoRun(c, s, t, step))
  {
    var z := DoRun(c, s, t, step);
    if step.Release? {
      ReleaseLeaksNothing(s, t);
    } else {
      RunGoesOn(c, s, t, step);
      SameKeys(s, z, {}, {});
    }
  }

  lemma ReleaseLeaksNothing(s: State, t: nat)
    requires RunsByKey(s) && NoneLeaked(s) && t in s.runs
    ensures NoneLeaked(Drop(s, t))
  {
    SameKeys(s, Drop(s, t), {KeyOf(s.runs[t].row)}, {});
  }

  /** The keys of the runs that are gone and come. */
  lemma SameKeys(s: State, z: State, gone: set<string>, come: set<string>)
    requires forall t | t in s.runs && KeyOf(s.runs[t].row) !in gone :: t in z.runs && z.runs[t].row == s.runs[t].row
    requires forall t | t in z.runs && KeyOf(z.runs[t].row) !in come ::
      t in s.runs && z.runs[t].row == s.runs[t].row && KeyOf(z.runs[t].row) !in gone
    requires forall k | k in come :: exists t :: t in z.runs && KeyOf(z.runs[t].row) == k
    ensures LiveKeys(z) == LiveKeys(s) - gone + come
  {
    forall k | k in LiveKeys(s) - gone ensures k in LiveKeys(z) {
      var t :| t in s.runs && KeyOf(s.runs[t].row) == k;
      assert t in z.runs;
    }
    forall k | k in LiveKeys(z) && k !in come ensures k in LiveKeys(s) - gone {
      var t :| t in z.runs && KeyOf(z.runs[t].row) == k;
      assert t in s.runs;
    }
  }

  lemma AdmitLeaksNothing(s: State)
    requires RunsByKey(s) && NoneLeaked(s) && s.claiming.Some?
    ensures NoneLeaked(FinishClaim(s))
  {
    var row := s.claiming.value;
    if KeyOf(row) !in s.inflight {
      var z := Admit(s, row);
      assert z.runs[s.nextTask].row == row;
      SameKeys(s, z, {}, {KeyOf(row)});
    }
  }

  lemma {:induction false} AllUids(c: Config, s: State, steps: seq<Step>)
    requires Feasible(c, s, steps)
    ensures After(c, s, steps).slots.uids == s.slots.uids
    decreases |steps|
  {
    if steps != [] {
      SameUids(c, s, steps[0]);
      AllUids(c, Do(c, s, steps[0]), steps[1..]);
    }
  }

  /******* Accepted deliveries *******/

  predicate ActiveRow(r: Row, d: string) {
    r.delivery == d && !Inactive(r.state)
  }

  ghost predicate Active(s: State, d: string) {
    exists r | r in s.events :: ActiveRow(r, d)
  }

  ghost predicate Terminal(s: State, d: string) {
    exists r | r in s.events :: r.delivery == d && Inactive(r.state)
  }

  /** Some state on the way has the row terminal. */
  ghost predicate ReachesTerminal(c: Config, s: State, steps: seq<Step>, d: string)
    requires Feasible(c, s, steps)
    decreases |steps|
  {
    Terminal(s, d) || (steps != [] && ReachesTerminal(c, Do(c, s, steps[0]), steps[1..], d))
  }

  lemma UpdateKeepsRow(u: Update, events: seq<Row>, d: string)
    requires exists r | r in events :: r.delivery == d
    ensures exists r | r in Apply(u, events) :: r.delivery == d
  {
    var r :| r in events && r.delivery == d;
    var i :| 0 <= i < |events| && events[i] == r;
    assert UpdateRow(u, events[i]) == Apply(u, events)[i];
  }

  /** No step deletes or replaces an active row. */
  lemma ActiveRowStays(c: Config, s: State, step: Step, d: string)
    requires Active(s, d) && Enabled(c, s, step)
    ensures exists r | r in Do(c, s, step).events :: r.delivery == d
  {
    match step
    case Outside(x) => RowStaysOutside(c, s, x, d);
    case ClaimBegin(_, i) => UpdateKeepsRow(Claim(s.events[i].delivery), s.events, d);
    case ClaimFinish => UpdateKeepsRow(Requeue(s.claiming.value.delivery, {Running}), s.events, d);
    case OfRun(t, x) => RowStaysOfRun(c, s, t, x, d);
    case OfThread(t, x) => if x.WorkerMark? { UpdateKeepsRow(Mark(ThreadOf(s, t), x.state, x.error), s.events, d); }
    case Signal(x) => assert DoSignal(s, x).events == s.events;
    case Sweep(x) => assert s.events <= DoSweep(s, x).events;
    case StopBegin =>
    case Restart => UpdateKeepsRow(ResetRunning, s.events, d);
  }

  lemma RowStaysOutside(c: Config, s: State, step: OutsideStep, d: string)
    requires Active(s, d) && OutsideEnabled(c, s, step)
    ensures exists r | r in DoOutside(s, step).events :: r.delivery == d
  {
    var r :| r in s.events && ActiveRow(r, d);
    match step {
      case Replay(e, from) => UpdateKeepsRow(Requeue(e, from), s.events, d);
      case Replace(row) =>
        if !(exists q | q in s.events :: q.delivery == row.delivery && !Inactive(q.state)) {
          assert r in Without(s.events, row.delivery);
        }
      case _ => assert r in DoOutside(s, step).events;
    }
  }

  lemma RowStaysOfRun(c: Config, s: State, t: nat, step: RunStep, d: string)
    requires Active(s, d) && RunEnabled(s, t, step)
    ensures exists r | r in DoRun(c, s, t, step).events :: r.delivery == d
  {
    var e := s.runs[t].row.delivery;
    match step
    case Return =>
      UpdateKeepsRow(Mark(e, Done, NoReason), s.events, d);
      UpdateKeepsRow(Mark(e, Failed, OperatorCancel), s.events, d);
    case Raise(why, at) =>
      UpdateKeepsRow(Mark(e, Failed, OperatorCancel), s.events, d);
      UpdateKeepsRow(Retry(e, at, why), s.events, d);
      UpdateKeepsRow(Mark(e, Failed, why), s.events, d);
    case _ => assert DoRun(c, s, t, step).events == s.events;
  }

  /** A queued or running row stays in the table until it is terminal. */
  lemma {:induction false} AcceptedUntilTerminal(c: Config, s: State, steps: seq<Step>, d: string)
    requires Active(s, d) && Feasible(c, s, steps)
    ensures ReachesTerminal(c, s, steps, d) || Active(After(c, s, steps), d)
    decreases |steps|
  {
    if steps != [] {
      ActiveRowStays(c, s, steps[0], d);
      var s' := Do(c, s, steps[0]);
      if !Terminal(s', d) {
        var r :| r in s'.events && r.delivery == d;
        assert ActiveRow(r, d);
        AcceptedUntilTerminal(c, s', steps[1..], d);
      } else {
        assert ReachesTerminal(c, s', steps[1..], d);
      }
    }
  }

  /** A run that was not interrupted by `stop` never leaves its row running. */
  lemma FinishedNotRunning(c: Config, s: State, t: nat, step: RunStep)
    requires Inv(c, s) && RunEnabled(s, t, step) && (step.Return? || step.Raise?)
    requires !s.stopping || step.Return? || s.runs[t].row.delivery !in s.shutdownCancelled
    ensures forall r | r in DoRun(c, s, t, step).events && r.delivery == s.runs[t].row.delivery :: r.state != Running
  {
    match step
    case Return => ReturnedNotRunning(s.signals.cancelled, s.runs[t], s.events);
    case Raise(e, at) => RaisedNotRunning(c, s.signals.cancelled, s.shutdownCancelled, s.runs[t], e, at, s.events);
  }

  /** After a crash and a start, every row that was running can be claimed at once, at any time of day. */
  lemma RestartMakesClaimable(c: Config, s: State, i: nat, now: int)
    requires i < |s.events| && s.events[i].state == Running
    ensures var z := Do(c, s, Restart);
      |z.events| == |s.events| && z.events[i].delivery == s.events[i].delivery && Eligible(z.events, now, i)
  {
    RestartLeavesNoneRunning(s.events);
    var z := Do(c, s, Restart);
    assert forall j | 0 <= j < |z.events| :: z.events[j] in z.events;
  }

  /** Outside shutdown a row can only be running while a claim or an unfinished run holds it. */
  lemma NeverWedged(c: Config, s: State, steps: seq<Step>, r: Row)
    requires Inv(c, s) && NoDuplicates(s.slots.uids) && Feasible(c, s, steps)
    requires r in After(c, s, steps).events && r.state == Running && !After(c, s, steps).stopping
    ensures Owned(After(c, s, steps), r.delivery)
  {
    InvAlways(c, s, steps);
  }

  /******* Replay *******/

  ghost predicate Executes(c: Config, s: State, steps: seq<Step>, d: string)
    requires Feasible(c, s, steps)
    decreases |steps|
  {
    steps != [] &&
    ((steps[0].OfRun? && steps[0].run.AcquireSlot? && steps[0].task in s.runs
      && s.runs[steps[0].task].row.delivery == d)
     || Executes(c, Do(c, s, steps[0]), steps[1..], d))
  }

  /** A thread inside the handler works on delivery d: its task is there, or was cancelled there. */
  predicate WorksOn(s: State, t: nat, d: string) {
    (HasRun(s, t, Dispatching) && s.runs[t].row.delivery == d) || (t in s.late && s.late[t] == d)
  }

  ghost predicate HandlerInside(s: State, d: string) {
    exists t :: WorksOn(s, t, d)
  }

  /** Until a handler starts for it, the row stays queued or running whatever happens. */
  ghost predicate KeptUntilExecuted(c: Config, s: State, d: string) {
    forall steps :: Feasible(c, s, steps) && !Executes(c, s, steps, d) ==> Active(After(c, s, steps), d)
  }

  lemma UpdateKeepsActive(u: Update, events: seq<Row>, d: string)
    requires exists r | r in events :: ActiveRow(r, d)
    requires u.Mark? ==> u.delivery != d
    ensures exists r | r in Apply(u, events) :: ActiveRow(r, d)
  {
    var r :| r in events && ActiveRow(r, d);
    var i :| 0 <= i < |events| && events[i] == r;
    var after := Apply(u, events);
    assert after[i] == UpdateRow(u, events[i]) && ActiveRow(after[i], d);
    assert after[i] in after;
  }

  lemma RunKeepsActive(c: Config, s: State, t: nat, step: RunStep, d: string)
    requires Active(s, d) && !HandlerInside(s, d) && RunEnabled(s, t, step)
    requires step.AcquireSlot? ==> s.runs[t].row.delivery != d
    ensures Active(DoRun(c, s, t, step), d)
  {
    var e := s.runs[t].row.delivery;
    assert WorksOn(s, t, d) ==> HandlerInside(s, d);
    match step
    case Return =>
      UpdateKeepsActive(Mark(e, Done, NoReason), s.events, d);
      UpdateKeepsActive(Mark(e, Failed, OperatorCancel), s.events, d);
    case Raise(why, at) =>
      UpdateKeepsActive(Mark(e, Failed, OperatorCancel), s.events, d);
      UpdateKeepsActive(Retry(e, at, why), s.events, d);
      UpdateKeepsActive(Mark(e, Failed, why), s.events, d);
    case _ => assert DoRun(c, s, t, step).events == s.events;
  }

  lemma OutsideKeepsActive(c: Config, s: State, step: OutsideStep, d: string)
    requires Active(s, d) && OutsideEnabled(c, s, step)
    ensures Active(DoOutside(s, step), d)
  {
    var r :| r in s.events && ActiveRow(r, d);
    match step
    case Replay(e, from) => UpdateKeepsActive(Requeue(e, from), s.events, d);
    case Replace(row) =>
      if !(exists q | q in s.events :: q.delivery == row.delivery && !Inactive(q.state)) {
        assert r in Without(s.events, row.delivery);
      }
    case _ => assert r in DoOutside(s, step).events;
  }

  lemma StepKeepsActive(c: Config, s: State, step: Step, d: string)
    requires Active(s, d) && !HandlerInside(s, d) && Enabled(c, s, step)
    requires !(step.OfRun? && step.run.AcquireSlot? && s.runs[step.task].row.delivery == d)
    ensures Active(Do(c, s, step), d)
  {
    match step
    case Outside(x) => OutsideKeepsActive(c, s, x, d);
    case ClaimBegin(_, i) => UpdateKeepsActive(Claim(s.events[i].delivery), s.events, d);
    case ClaimFinish => UpdateKeepsActive(Requeue(s.claiming.value.delivery, {Running}), s.events, d);
    case OfRun(t, x) => RunKeepsActive(c, s, t, x, d);
    case OfThread(t, x) =>
      assert WorksOn(s, t, d) ==> HandlerInside(s, d);
      if x.WorkerMark? { UpdateKeepsActive(Mark(ThreadOf(s, t), x.state, x.error), s.events, d); }
    case Signal(_) =>
    case Sweep(_) =>
    case StopBegin =>
    case Restart => UpdateKeepsActive(ResetRunning, s.events, d);
  }

  lemma NoHandlerEnters(c: Config, s: State, step: Step, d: string)
    requires !HandlerInside(s, d) && Enabled(c, s, step)
    requires !(step.OfRun? && step.run.AcquireSlot? && s.runs[step.task].row.delivery == d)
    ensures !HandlerInside(Do(c, s, step), d)
  {
    if step.OfThread? {
      assert forall t | WorksOn(DoThread(s, step.task, step.thread), t, d) :: WorksOn(s, t, d);
    } else if NotOfRuns(step) {
      RunsUntouched(c, s, step);
      ThreadsUntouched(c, s, step);
      assert forall t | WorksOn(Do(c, s, step), t, d) :: WorksOn(s, t, d);
    } else if step.OfRun? {
      NoHandlerOfRun(c, s, step.task, step.run, d);
    } else if step.ClaimFinish? {
      assert forall t | WorksOn(FinishClaim(s), t, d) :: WorksOn(s, t, d);
    }
  }

  lemma NoHandlerOfRun(c: Config, s: State, u: nat, step: RunStep, d: string)
    requires !HandlerInside(s, d) && RunEnabled(s, u, step)
    requires step.AcquireSlot? ==> s.runs[u].row.delivery != d
    ensures !HandlerInside(DoRun(c, s, u, step), d)
  {
    forall t | WorksOn(DoRun(c, s, u, step), t, d) ensures WorksOn(s, t, d) { HandlerOfRun(c, s, u, step, t, d); }
  }

  lemma HandlerOfRun(c: Config, s: State, u: nat, step: RunStep, t: nat, d: string)
    requires RunEnabled(s, u, step) && WorksOn(DoRun(c, s, u, step), t, d)
    requires step.AcquireSlot? ==> s.runs[u].row.delivery != d
    ensures WorksOn(s, t, d)
  {
  }

  lemma {:induction false} KeptWithoutHandler(c: Config, s: State, steps: seq<Step>, d: string)
    requires Active(s, d) && !HandlerInside(s, d) && Feasible(c, s, steps) && !Executes(c, s, steps, d)
    ensures Active(After(c, s, steps), d)
    decreases |steps|
  {
    if steps != [] {
      StepKeepsActive(c, s, steps[0], d);
      NoHandlerEnters(c, s, steps[0], d);
      KeptWithoutHandler(c, Do(c, s, steps[0]), steps[1..], d);
    }
  }

  /** The handler that is inside returns, or its thread goes on alone, and marks the row a replay has just queued. */
  lemma LostToHandler(c: Config, s: State, t: nat, d: string) returns (steps: seq<Step>)
    requires Inv(c, s) && WorksOn(s, t, d)
    requires forall r | r in s.events && r.delivery == d :: !Inactive(r.state)
    ensures Feasible(c, s, steps) && !Executes(c, s, steps, d) && !Active(After(c, s, steps), d)
  {
    var back := OfRun(t, Return);
    if t in s.late {
      var late := OfThread(t, WorkerMark(Failed, NoReason));
      OneStep(c, s, late, d);
      steps := [late];
    } else if t in s.signals.arming {
      var s1 := DoSignal(s, ArmStore(t));
      ReturnMarks(c, s1, t);
      OneStep(c, s1, back, d);
      steps := [Signal(ArmStore(t)), back];
      assert steps[1..] == [back] && Do(c, s, steps[0]) == s1;
    } else {
      ReturnMarks(c, s, t);
      OneStep(c, s, back, d);
      steps := [back];
    }
  }

  lemma OneStep(c: Config, s: State, step: Step, d: string)
    requires Enabled(c, s, step)
    ensures Feasible(c, s, [step]) && After(c, s, [step]) == Do(c, s, step)
    ensures !(step.OfRun? && step.run.AcquireSlot?) ==> !Executes(c, s, [step], d)
  {
  }

  lemma ReturnMarks(c: Config, s: State, t: nat)
    requires HasRun(s, t, Dispatching) && t !in s.signals.arming
    requires forall r | r in s.events && r.delivery == s.runs[t].row.delivery :: !Inactive(r.state)
    ensures !Active(DoRun(c, s, t, Return), s.runs[t].row.delivery)
  {
  }

  /** A replay survives every continuation until its own execution exactly when no handler for the
      delivery was still inside `_dispatch_and_mark` when it was replayed. */
  lemma ReplayKeptIff(c: Config, s: State, d: string)
    requires Inv(c, s) && exists r | r in s.events :: r.delivery == d && r.state == Queued
    ensures KeptUntilExecuted(c, s, d) <==> !HandlerInside(s, d)
  {
    var r :| r in s.events && r.delivery == d && r.state == Queued;
    assert ActiveRow(r, d);
    if HandlerInside(s, d) {
      var t :| WorksOn(s, t, d);
      SameRow(s.events);
      var steps := LostToHandler(c, s, t, d);
      assert !KeptUntilExecuted(c, s, d);
    } else {
      forall steps | Feasible(c, s, steps) && !Executes(c, s, steps, d) ensures Active(After(c, s, steps), d) {
        KeptWithoutHandler(c, s, steps, d);
      }
    }
  }

  /******* Cancellation *******/

  /** The steps that end run t or the process, or take its outcome away from the operator. */
  predicate Settles(step: Step, t: nat) {
    || step == Restart
    || step == Signal(StopInterrupt(t))
    || (step.OfRun? && step.task == t && (step.run.Return? || step.run.Raise? || step.run.TaskCancelled?))
  }

  ghost predicate CancelWaits(s: State, t: nat) {
    && HasUnmarkedRun(s, t) && !s.runs[t].row.control
    && s.runs[t].row.delivery in s.signals.cancelled && s.runs[t].row.delivery !in s.shutdownCancelled
  }

  lemma CancelWaitsOfRun(c: Config, s: State, u: nat, step: RunStep, t: nat)
    requires RunsByKey(s) && OneIssue(c, s) && CancelWaits(s, t) && RunEnabled(s, u, step)
    requires u == t ==> !(step.Return? || step.Raise? || step.TaskCancelled?)
    ensures CancelWaits(DoRun(c, s, u, step), t) && DoRun(c, s, u, step).runs[t].row == s.runs[t].row
  {
    if step.Finalize? && s.runs[u].row.delivery == s.runs[t].row.delivery { OneRunPerDelivery(c, s, t, u); }
  }

  lemma CancelWaitsSignal(c: Config, s: State, step: SignalStep, t: nat)
    requires RunsByKey(s) && OneIssue(c, s) && CancelWaits(s, t) && SignalEnabled(s, step) && step != StopInterrupt(t)
    ensures CancelWaits(DoSignal(s, step), t) && DoSignal(s, step).runs[t].row == s.runs[t].row
  {
  }

  lemma CancelWaitsStep(c: Config, s: State, step: Step, t: nat)
    requires RunsByKey(s) && OneIssue(c, s) && CancelWaits(s, t) && Enabled(c, s, step) && !Settles(step, t)
    ensures CancelWaits(Do(c, s, step), t) && Do(c, s, step).runs[t].row == s.runs[t].row
  {
    match step
    case OfRun(u, x) => CancelWaitsOfRun(c, s, u, x, t);
    case Signal(x) => CancelWaitsSignal(c, s, x, t);
    case ClaimFinish => assert FinishClaim(s).signals == s.signals;
    case _ => SignalsAndRunsUntouched(c, s, step);
  }

  lemma SignalsAndRunsUntouched(c: Config, s: State, step: Step)
    requires NotOfRuns(step) && !step.Signal? && Enabled(c, s, step)
    ensures Do(c, s, step).runs == s.runs && Do(c, s, step).signals == s.signals
    ensures Do(c, s, step).shutdownCancelled == s.shutdownCancelled
  {
    RunsUntouched(c, s, step);
    SignalsUntouched(c, s, step);
    match step
    case Outside(x) => assert Do(c, s, step) == DoOutside(s, x);
    case OfThread(t, x) => assert Do(c, s, step) == DoThread(s, t, x);
    case Sweep(x) => assert Do(c, s, step) == DoSweep(s, x);
    case _ =>
  }

  /** A cancel requested before the handler of a non-control event ends leaves the row failed with the cancel
      reason when it ends, by return or by exception, whatever happens in between short of a shutdown interrupt. */
  lemma {:induction false} CancelWins(c: Config, s: State, t: nat, steps: seq<Step>, last: RunStep)
    requires Inv(c, s) && NoDuplicates(s.slots.uids) && CancelWaits(s, t)
    requires Feasible(c, s, steps) && forall i | 0 <= i < |steps| :: !Settles(steps[i], t)
    requires (last.Return? || last.Raise?) && RunEnabled(After(c, s, steps), t, last)
    ensures FailsAsCancelled(DoRun(c, After(c, s, steps), t, last).events, s.runs[t].row.delivery)
    decreases |steps|
  {
    if steps == [] {
      CancelledAtEnd(c, s, t, last);
    } else {
      assert !Settles(steps[0], t);
      CancelWaitsStep(c, s, steps[0], t);
      InvStep(c, s, steps[0]);
      CancelWins(c, Do(c, s, steps[0]), t, steps[1..], last);
    }
  }

  /** The row is failed, with the cancel reason. */
  ghost predicate FailsAsCancelled(events: seq<Row>, d: string) {
    forall r | r in events && r.delivery == d :: r.state == Failed && r.error == OperatorCancel
  }

  lemma CancelledAtEnd(c: Config, s: State, t: nat, last: RunStep)
    requires CancelWaits(s, t) && (last.Return? || last.Raise?) && RunEnabled(s, t, last)
    ensures FailsAsCancelled(DoRun(c, s, t, last).events, s.runs[t].row.delivery)
  {
    CancelMarks(Mark(s.runs[t].row.delivery, Failed, OperatorCancel), s.events);
  }

  lemma CancelMarks(u: Update, events: seq<Row>)
    requires u.Mark?
    ensures forall r | r in Apply(u, events) && r.delivery == u.delivery :: r.state == u.state && r.error == u.error
  {
  }

  /** The hook of the delivery is called as the cancel arrives exactly when it is stored by then;
      a hook between `_arm_cancel`'s test and its store stays uncalled. */
  lemma CancelReachesHook(c: Config, s: State, d: string)
    requires Inv(c, s)
    ensures var z := Do(c, s, Signal(Cancel(d)));
      && (d in s.signals.hooks ==> s.signals.hooks[d] in z.signals.fired && d !in z.signals.missed)
      && (d in z.signals.missed <==> ArmingFor(s, d))
  {
    var g := s.signals;
    if d in g.hooks {
      assert Fire(g, d).fired[|g.fired|] == g.hooks[d];
    }
  }

  /** In every reachable state each hook has been called at most once, and a cancelled delivery has an
      uncalled hook exactly when the request came between test and store. */
  lemma HooksSeeCancels(c: Config, s: State, steps: seq<Step>, d: string)
    requires Inv(c, s) && NoDuplicates(s.slots.uids) && Feasible(c, s, steps)
    ensures var g := After(c, s, steps).signals;
      && NoDuplicates(g.fired)
      && (forall e | e in g.hooks :: g.hooks[e] !in g.fired)
      && (d in g.cancelled ==> (d in g.missed <==> d in g.hooks || ArmingFor(After(c, s, steps), d)))
  {
    InvAlways(c, s, steps);
  }
}
