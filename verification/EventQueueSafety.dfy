/** What every step of the event queue keeps, and what holds over whole runs. */
module EventQueueSafety {
  import opened Basics
  import opened EventQueue

  /******* The invariant *******/

  /** Two rows have different ids and are not both running for one issue. */
  predicate Compatible(r: Row, q: Row) {
    && r.delivery != q.delivery
    && (r.state == Running && q.state == Running ==> r.issueKey.None? || r.issueKey != q.issueKey)
  }

  /** Delivery ids are unique and no issue has two running rows. */
  ghost predicate TableOk(events: seq<Row>) {
    forall i, j | 0 <= i < j < |events| :: Compatible(events[i], events[j])
  }

  ghost function LiveKeys(s: State): set<string> {
    set t | t in s.runs :: KeyOf(s.runs[t].row)
  }

  /** One live run per key, and their keys are in `_inflight`. */
  ghost predicate RunsByKey(s: State) {
    && (forall t, u | t in s.runs && u in s.runs && KeyOf(s.runs[t].row) == KeyOf(s.runs[u].row) :: t == u)
    && (forall t | t in s.runs :: t < s.nextTask)
    && LiveKeys(s) <= s.inflight
  }

  predicate HoldsSlot(s: State, t: nat, u: int) {
    t in s.runs && s.runs[t].slot == Some(u)
  }

  /** The slot queue and the checked-out set split the full set; each checked-out UID has one holder. */
  ghost predicate SlotsSplit(s: State) {
    var p := s.slots;
    && NoDuplicates(p.available) && Elements(p.available) !! p.checkedOut
    && Elements(p.available) + p.checkedOut == Elements(p.uids)
    && (forall u | u in p.checkedOut :: exists t :: HoldsSlot(s, t, u))
    && (forall t, u | HoldsSlot(s, t, u) :: u in p.checkedOut)
    && (forall t, t', u | HoldsSlot(s, t, u) && HoldsSlot(s, t', u) :: t == t')
    && (forall t | t in s.runs && s.runs[t].slot.Some? :: s.runs[t].phase == Dispatching || s.runs[t].phase == Marked)
    && (p.uids != [] ==> forall t | HasRun(s, t, Dispatching) :: s.runs[t].slot.Some?)
  }

  /** The row is the dispatcher's, or a run that has still to mark it is alive. */
  ghost predicate Owned(s: State, d: string) {
    || (s.claiming.Some? && s.claiming.value.delivery == d)
    || exists t :: HasUnmarkedRun(s, t) && s.runs[t].row.delivery == d
  }

  /** Outside shutdown nothing is left running without an owner. */
  ghost predicate NoOrphans(s: State) {
    && (!s.stopping ==> forall r | r in s.events && r.state == Running :: Owned(s, r.delivery))
    && (!s.stopping ==> s.shutdownCancelled == {})
    && (s.stopping ==> s.claiming.None?)
  }

  /** Every hook is in one place only and was called at most once. */
  ghost predicate HooksOnce(g: Signals) {
    && NoDuplicates(g.fired)
    && (forall h | h in g.fired :: h < g.nextHook)
    && (forall d | d in g.hooks :: g.hooks[d] < g.nextHook && g.hooks[d] !in g.fired)
    && (forall t | t in g.arming :: g.arming[t] < g.nextHook && g.arming[t] !in g.fired)
    && (forall d, t | d in g.hooks && t in g.arming :: g.hooks[d] != g.arming[t])
    && (forall d, e | d in g.hooks && e in g.hooks && g.hooks[d] == g.hooks[e] :: d == e)
    && (forall t, u | t in g.arming && u in g.arming && g.arming[t] == g.arming[u] :: t == u)
  }

  /** A requested cancel has an uncalled hook exactly when the request was missed. */
  ghost predicate CancelsSeen(s: State) {
    var g := s.signals;
    && (forall t | t in g.arming :: HasThread(s, t) && ThreadOf(s, t) !in g.hooks)
    && (forall d | d in g.missed :: d in g.cancelled)
    && (forall d | d in g.cancelled :: d in g.missed <==> (d in g.hooks || ArmingFor(s, d)))
  }

  /** Rows, claim and runs of one delivery belong to one issue. */
  ghost predicate OneIssue(c: Config, s: State) {
    && (forall r | r in s.events :: SameIssue(c, r))
    && (s.claiming.Some? ==> SameIssue(c, s.claiming.value))
    && (forall t | t in s.runs :: SameIssue(c, s.runs[t].row))
  }

  /** Threads whose task was cancelled exist only during shutdown, and no other run or thread has their delivery. */
  ghost predicate Stragglers(s: State) {
    && (s.late != map[] ==> s.stopping)
    && (forall t, u | t in s.late && u in s.late && s.late[t] == s.late[u] :: t == u)
    && (forall t, u | t in s.late && u in s.runs :: s.late[t] == s.runs[u].row.delivery <==> t == u)
    && (forall t | t in s.late && t in s.runs :: !Unmarked(s.runs[t]))
  }

  ghost predicate Inv(c: Config, s: State) {
    TableOk(s.events) && RunsByKey(s) && OneIssue(c, s) && SlotsSplit(s) && NoOrphans(s) && Stragglers(s)
    && HooksOnce(s.signals) && CancelsSeen(s)
  }

  /******* The table *******/

  lemma UpdateKeepsTable(u: Update, events: seq<Row>)
    requires TableOk(events) && !u.Claim? && (u.Mark? ==> u.state != Running)
    ensures TableOk(Apply(u, events))
  {
  }

  lemma ClaimKeepsTable(events: seq<Row>, now: int, i: nat)
    requires TableOk(events) && i < |events| && Eligible(events, now, i)
    ensures TableOk(Apply(Claim(events[i].delivery), events))
  {
  }

  lemma TailKeepsTable(events: seq<Row>)
    requires TableOk(events) && events != []
    ensures TableOk(events[1..])
  {
    forall j, k | 0 <= j < k < |events[1..]| ensures Compatible(events[1..][j], events[1..][k]) {
      assert Compatible(events[j + 1], events[k + 1]);
    }
  }

  lemma {:induction false} WithoutKeepsTable(events: seq<Row>, d: string)
    requires TableOk(events)
    ensures TableOk(Without(events, d))
  {
    if events != [] {
      WithoutKeepsTable(events[1..], d);
      var rest := Without(events[1..], d);
      forall r | r in rest ensures Compatible(events[0], r) {
        var j :| 0 <= j < |events[1..]| && events[1..][j] == r;
        assert Compatible(events[0], events[j + 1]);
      }
      assert forall j | 0 <= j < |rest| :: rest[j] in rest;
    }
  }

  lemma RecordKeepsTable(events: seq<Row>, row: Row)
    requires TableOk(events) && row.state != Running
    ensures TableOk(Record(events, row))
  {
  }

  lemma ReplaceKeepsTable(events: seq<Row>, row: Row)
    requires TableOk(events) && row.state != Running
    ensures TableOk(ReplaceInactive(events, row))
  {
    WithoutKeepsTable(events, row.delivery);
    var rest := Without(events, row.delivery);
    assert forall i | 0 <= i < |rest| :: rest[i] in rest;
  }

  lemma MarkReturnedKeepsTable(cancelled: set<string>, run: Run, events: seq<Row>)
    requires TableOk(events)
    ensures TableOk(MarkReturned(cancelled, run, events))
  {
    UpdateKeepsTable(Mark(run.row.delivery, Done, NoReason), events);
    UpdateKeepsTable(Mark(run.row.delivery, Failed, OperatorCancel), events);
  }

  lemma MarkRaisedKeepsTable(c: Config, cancelled: set<string>, shutdown: set<string>, run: Run, e: Reason, at: int,
                             events: seq<Row>)
    requires TableOk(events)
    ensures TableOk(MarkRaised(c, cancelled, shutdown, run, e, at, events))
  {
    UpdateKeepsTable(Mark(run.row.delivery, Failed, OperatorCancel), events);
    UpdateKeepsTable(Retry(run.row.delivery, at, e), events);
    UpdateKeepsTable(Mark(run.row.delivery, Failed, e), events);
  }

  lemma TableStep(c: Config, s: State, step: Step)
    requires TableOk(s.events) && Enabled(c, s, step)
    ensures TableOk(Do(c, s, step).events)
  {
    match step
    case Outside(x) => TableOutside(c, s, x);
    case ClaimBegin(now, i) => ClaimKeepsTable(s.events, now, i);
    case ClaimFinish => UpdateKeepsTable(Requeue(s.claiming.value.delivery, {Running}), s.events);
    case OfRun(t, x) => TableRun(c, s, t, x);
    case OfThread(t, x) => if x.WorkerMark? { UpdateKeepsTable(Mark(ThreadOf(s, t), x.state, x.error), s.events); }
    case Signal(_) =>
    case Sweep(x) =>
      if x.SweepInsert? { RecordKeepsTable(s.events, RedispatchRow(x.key, x.spent, x.control, x.now)); }
    case StopBegin =>
    case Restart => UpdateKeepsTable(ResetRunning, s.events);
  }

  lemma TableOutside(c: Config, s: State, step: OutsideStep)
    requires TableOk(s.events) && OutsideEnabled(c, s, step)
    ensures TableOk(DoOutside(s, step).events)
  {
    match step
    case Deliver(row) => RecordKeepsTable(s.events, row);
    case Replay(d, from) => UpdateKeepsTable(Requeue(d, from), s.events);
    case Replace(row) => ReplaceKeepsTable(s.events, row);
    case Prune(d) => WithoutKeepsTable(s.events, d);
    case SetIssue(_, _) =>
  }

  lemma TableRun(c: Config, s: State, t: nat, step: RunStep)
    requires TableOk(s.events) && RunEnabled(s, t, step)
    ensures TableOk(DoRun(c, s, t, step).events)
  {
    match step
    case Return => MarkReturnedKeepsTable(s.signals.cancelled, s.runs[t], s.events);
    case Raise(e, at) => MarkRaisedKeepsTable(c, s.signals.cancelled, s.shutdownCancelled, s.runs[t], e, at, s.events);
    case _ =>
  }

  /******* Runs and slots *******/

  lemma SameRunsByKey(s: State, s': State)
    requires RunsByKey(s) && s'.runs.Keys == s.runs.Keys && forall t | t in s.runs :: s'.runs[t].row == s.runs[t].row
    requires s'.inflight == s.inflight && s'.nextTask == s.nextTask
    ensures RunsByKey(s')
  {
  }

  lemma AdmitKeepsRuns(s: State, row: Row)
    requires RunsByKey(s) && KeyOf(row) !in s.inflight
    ensures RunsByKey(Admit(s, row))
  {
    var s' := Admit(s, row);
    assert forall t | t in s.runs :: KeyOf(s.runs[t].row) in LiveKeys(s);
    assert s'.runs[s.nextTask].row == row;
    forall k | k in LiveKeys(s) ensures k in LiveKeys(s') {
      var t :| t in s.runs && KeyOf(s.runs[t].row) == k;
      assert t in s'.runs && s'.runs[t] == s.runs[t];
    }
    assert LiveKeys(s') == LiveKeys(s) + {KeyOf(row)};
  }

  lemma DropKeepsRuns(s: State, t: nat)
    requires RunsByKey(s) && t in s.runs
    ensures RunsByKey(Drop(s, t))
    ensures RunsByKey(s.(runs := s.runs - {t}))
  {
    var s' := Drop(s, t);
    forall k | k in LiveKeys(s) && k != KeyOf(s.runs[t].row) ensures k in LiveKeys(s') {
      var u :| u in s.runs && KeyOf(s.runs[u].row) == k;
      assert u in s'.runs;
    }
    assert KeyOf(s.runs[t].row) !in LiveKeys(s');
    assert LiveKeys(s.(runs := s.runs - {t})) <= LiveKeys(s);
  }

  /** A run that does not leave: the same runs, of the same rows, none of them back in its handler. */
  lemma RunGoesOn(c: Config, s: State, t: nat, step: RunStep)
    requires RunEnabled(s, t, step) && !step.Release? && !step.ReleaseSkipped?
    ensures var z := DoRun(c, s, t, step);
      z.runs.Keys == s.runs.Keys && (forall u | u in s.runs :: z.runs[u].row == s.runs[u].row)
      && (forall u | u in s.runs && Unmarked(z.runs[u]) :: Unmarked(s.runs[u]))
      && z.inflight == s.inflight && z.nextTask == s.nextTask && z.stopping == s.stopping
      && (!step.TaskCancelled? ==> z.late == s.late)
  {
  }

  lemma RunsByKeyOfRun(c: Config, s: State, t: nat, step: RunStep)
    requires RunsByKey(s) && RunEnabled(s, t, step)
    ensures RunsByKey(DoRun(c, s, t, step))
  {
    if step.Release? || step.ReleaseSkipped? {
      DropKeepsRuns(s, t);
    } else {
      RunGoesOn(c, s, t, step);
      SameRunsByKey(s, DoRun(c, s, t, step));
    }
  }

  /** The steps that touch no run: of the tables, the threads, the signals, the sweep, the begin of a claim or of
      `stop`. */
  predicate NotOfRuns(step: Step) {
    step.Outside? || step.ClaimBegin? || step.OfThread? || step.Signal? || step.Sweep? || step.StopBegin?
  }

  lemma RunsUntouched(c: Config, s: State, step: Step)
    requires NotOfRuns(step) && Enabled(c, s, step)
    ensures var z := Do(c, s, step);
      z.runs == s.runs && z.slots == s.slots && z.inflight == s.inflight && z.nextTask == s.nextTask
      && (s.stopping ==> z.stopping)
  {
    match step
    case Outside(x) => assert Do(c, s, step) == DoOutside(s, x);
    case OfThread(t, x) => assert Do(c, s, step) == DoThread(s, t, x);
    case Signal(x) => assert Do(c, s, step) == DoSignal(s, x);
    case Sweep(x) => assert Do(c, s, step) == DoSweep(s, x);
    case ClaimBegin(_, i) => assert Do(c, s, step) == BeginClaim(s, i);
    case StopBegin =>
  }

  lemma RunsByKeyStep(c: Config, s: State, step: Step)
    requires RunsByKey(s) && Enabled(c, s, step)
    ensures RunsByKey(Do(c, s, step))
  {
    if NotOfRuns(step) {
      RunsUntouched(c, s, step);
      SameRunsByKey(s, Do(c, s, step));
    } else if step.OfRun? {
      RunsByKeyOfRun(c, s, step.task, step.run);
    } else if step.ClaimFinish? {
      RunsByKeyOfClaim(s);
    }
  }

  lemma RunsByKeyOfClaim(s: State)
    requires RunsByKey(s) && s.claiming.Some?
    ensures RunsByKey(FinishClaim(s))
  {
    var row := s.claiming.value;
    if KeyOf(row) in s.inflight { SameRunsByKey(s, Bounce(s, row)); } else { AdmitKeepsRuns(s, row); }
  }

  lemma SlotsFrame(s: State, s': State)
    requires SlotsSplit(s) && s'.slots == s.slots
    requires forall t | t in s'.runs && s'.runs[t].slot.Some? ::
      t in s.runs && s.runs[t].slot == s'.runs[t].slot
      && (s'.runs[t].phase == Dispatching || s'.runs[t].phase == Marked)
    requires forall t | t in s.runs && s.runs[t].slot.Some? :: t in s'.runs && s'.runs[t].slot == s.runs[t].slot
    requires forall t | HasRun(s', t, Dispatching) :: HasRun(s, t, Dispatching)
    ensures SlotsSplit(s')
  {
    assert forall t, u :: HoldsSlot(s', t, u) <==> HoldsSlot(s, t, u);
  }

  lemma AcquireKeepsSplit(s: State, t: nat)
    requires SlotsSplit(s) && HasRun(s, t, Waiting) && (s.slots.uids == [] || s.slots.available != [])
    ensures SlotsSplit(Acquire(s, t))
  {
    var s' := Acquire(s, t);
    if s.slots.uids != [] {
      var p := s.slots;
      var u := p.available[0];
      assert p.available == [u] + p.available[1..];
      assert u in Elements(p.available) && u !in p.checkedOut;
      assert Elements(p.available) == {u} + Elements(p.available[1..]);
      assert HoldsSlot(s', t, u);
      assert forall t', v | t' != t :: HoldsSlot(s', t', v) <==> HoldsSlot(s, t', v);
      forall v | v in s'.slots.checkedOut ensures exists t' :: HoldsSlot(s', t', v) {
        if v != u {
          var t' :| HoldsSlot(s, t', v);
          assert HoldsSlot(s', t', v);
        }
      }
    } else {
      assert forall t', v :: HoldsSlot(s', t', v) <==> HoldsSlot(s, t', v);
    }
  }

  lemma FinishKeepsSplit(s: State, t: nat)
    requires SlotsSplit(s) && HasRun(s, t, Marked)
    ensures SlotsSplit(Finish(s, t))
  {
    var s' := Finish(s, t);
    var p := s.slots;
    assert forall t', v | t' != t :: HoldsSlot(s', t', v) <==> HoldsSlot(s, t', v);
    if s.runs[t].slot.Some? {
      var u := s.runs[t].slot.value;
      assert HoldsSlot(s, t, u);
      assert Elements(p.available + [u]) == Elements(p.available) + {u};
      assert u !in Elements(p.available);
    }
    forall v | v in s'.slots.checkedOut ensures exists t' :: HoldsSlot(s', t', v) {
      var t' :| HoldsSlot(s, t', v);
      assert HoldsSlot(s', t', v);
    }
  }

  lemma DropKeepsSplit(s: State, t: nat, s': State)
    requires SlotsSplit(s) && HasRun(s, t, Closing) && s'.slots == s.slots && s'.runs == s.runs - {t}
    ensures SlotsSplit(s')
  {
    assert s.runs[t].slot.None?;
    SlotsFrame(s, s');
  }

  lemma SlotsOfRun(c: Config, s: State, t: nat, step: RunStep)
    requires SlotsSplit(s) && RunEnabled(s, t, step)
    ensures SlotsSplit(DoRun(c, s, t, step))
  {
    match step
    case AcquireSlot => AcquireKeepsSplit(s, t);
    case Finalize => FinishKeepsSplit(s, t);
    case Release => DropKeepsSplit(s, t, Drop(s, t));
    case ReleaseSkipped => DropKeepsSplit(s, t, s.(runs := s.runs - {t}));
    case _ => SlotsFrame(s, DoRun(c, s, t, step));
  }

  lemma SlotsSame(s: State, s': State)
    requires SlotsSplit(s) && s'.slots == s.slots && s'.runs == s.runs
    ensures SlotsSplit(s')
  {
    SlotsFrame(s, s');
  }

  lemma SlotsStep(c: Config, s: State, step: Step)
    requires SlotsSplit(s) && NoDuplicates(s.slots.uids) && RunsByKey(s) && Enabled(c, s, step)
    ensures SlotsSplit(Do(c, s, step))
  {
    if NotOfRuns(step) {
      RunsUntouched(c, s, step);
      SlotsSame(s, Do(c, s, step));
    } else if step.OfRun? {
      SlotsOfRun(c, s, step.task, step.run);
    } else if step.ClaimFinish? {
      SlotsOfClaim(s);
    } else {
      SlotsOfRestart(s);
    }
  }

  lemma SlotsOfClaim(s: State)
    requires SlotsSplit(s) && RunsByKey(s) && s.claiming.Some?
    ensures SlotsSplit(FinishClaim(s))
  {
    var row := s.claiming.value;
    if KeyOf(row) in s.inflight { SlotsSame(s, Bounce(s, row)); } else { SlotsFrame(s, Admit(s, row)); }
  }

  lemma SlotsOfRestart(s: State)
    requires NoDuplicates(s.slots.uids)
    ensures SlotsSplit(Idle(Apply(ResetRunning, s.events), s.issues, s.slots.uids, s.executions))
  {
  }

  /******* One issue per delivery *******/

  lemma UpdateKeepsIssues(c: Config, u: Update, events: seq<Row>)
    requires forall r | r in events :: SameIssue(c, r)
    ensures forall r | r in Apply(u, events) :: SameIssue(c, r)
  {
    forall r | r in Apply(u, events) ensures SameIssue(c, r) {
      var i :| 0 <= i < |events| && r == UpdateRow(u, events[i]);
      assert events[i] in events;
    }
  }

  lemma OneIssueOfRun(c: Config, s: State, t: nat, step: RunStep)
    requires OneIssue(c, s) && RunEnabled(s, t, step)
    ensures OneIssue(c, DoRun(c, s, t, step))
  {
    var d := s.runs[t].row.delivery;
    match step
    case Return =>
      UpdateKeepsIssues(c, Mark(d, Done, NoReason), s.events);
      UpdateKeepsIssues(c, Mark(d, Failed, OperatorCancel), s.events);
    case Raise(e, at) =>
      UpdateKeepsIssues(c, Mark(d, Failed, OperatorCancel), s.events);
      UpdateKeepsIssues(c, Retry(d, at, e), s.events);
      UpdateKeepsIssues(c, Mark(d, Failed, e), s.events);
    case _ =>
  }

  /** Runs and claim are the same, and every new row is of its own issue. */
  lemma OneIssueFrame(c: Config, s: State, s': State)
    requires OneIssue(c, s) && forall r | r in s'.events :: r in s.events || SameIssue(c, r)
    requires s'.claiming == s.claiming && s'.runs == s.runs
    ensures OneIssue(c, s')
  {
  }

  lemma OneIssueOutside(c: Config, s: State, step: OutsideStep)
    requires OneIssue(c, s) && OutsideEnabled(c, s, step)
    ensures OneIssue(c, DoOutside(s, step))
  {
    if step.Replay? { UpdateKeepsIssues(c, Requeue(step.delivery, step.from), s.events); }
    OneIssueFrame(c, s, DoOutside(s, step));
  }

  lemma OneIssueClaim(c: Config, s: State, i: nat)
    requires OneIssue(c, s) && i < |s.events|
    ensures OneIssue(c, BeginClaim(s, i))
  {
    assert s.events[i] in s.events;
    UpdateKeepsIssues(c, Claim(s.events[i].delivery), s.events);
  }

  lemma OneIssueFinish(c: Config, s: State)
    requires OneIssue(c, s) && s.claiming.Some?
    ensures OneIssue(c, FinishClaim(s))
  {
    UpdateKeepsIssues(c, Requeue(s.claiming.value.delivery, {Running}), s.events);
  }

  lemma OneIssueOfThread(c: Config, s: State, t: nat, step: ThreadStep)
    requires OneIssue(c, s) && ThreadEnabled(s, t, step)
    ensures OneIssue(c, DoThread(s, t, step))
  {
    if step.WorkerMark? { UpdateKeepsIssues(c, Mark(ThreadOf(s, t), step.state, step.error), s.events); }
    OneIssueFrame(c, s, DoThread(s, t, step));
  }

  lemma OneIssueSweep(c: Config, s: State, step: SweepStep)
    requires OneIssue(c, s) && SweepEnabled(c, s, step)
    ensures OneIssue(c, DoSweep(s, step))
  {
    OneIssueFrame(c, s, DoSweep(s, step));
  }

  lemma OneIssueRestart(c: Config, s: State)
    requires OneIssue(c, s)
    ensures OneIssue(c, Idle(Apply(ResetRunning, s.events), s.issues, s.slots.uids, s.executions))
  {
    UpdateKeepsIssues(c, ResetRunning, s.events);
  }

  lemma OneIssueStep(c: Config, s: State, step: Step)
    requires OneIssue(c, s) && Enabled(c, s, step)
    ensures OneIssue(c, Do(c, s, step))
  {
    match step
    case Outside(x) => OneIssueOutside(c, s, x);
    case ClaimBegin(_, i) => OneIssueClaim(c, s, i);
    case ClaimFinish => OneIssueFinish(c, s);
    case OfRun(t, x) => OneIssueOfRun(c, s, t, x);
    case OfThread(t, x) => OneIssueOfThread(c, s, t, x);
    case Signal(x) => OneIssueFrame(c, s, DoSignal(s, x));
    case Sweep(x) => OneIssueSweep(c, s, x);
    case StopBegin =>
    case Restart => OneIssueRestart(c, s);
  }

  /******* Nothing is left running without an owner *******/

  lemma OwnedBy(s: State, t: nat)
    requires HasUnmarkedRun(s, t)
    ensures Owned(s, s.runs[t].row.delivery)
  {
  }

  /** If no row became running and no owner was lost, there are still no orphans. */
  lemma OrphansFrame(s: State, s': State)
    requires NoOrphans(s) && s'.stopping == s.stopping
    requires s'.shutdownCancelled <= s.shutdownCancelled && (s.stopping ==> s'.claiming.None?)
    requires forall r | r in s'.events && r.state == Running ::
      (exists q :: q in s.events && q.state == Running && q.delivery == r.delivery)
      && (Owned(s, r.delivery) ==> Owned(s', r.delivery))
    ensures NoOrphans(s')
  {
  }

  lemma SameOwners(s: State, s': State)
    requires s'.claiming == s.claiming && s'.runs == s.runs
    ensures forall d | Owned(s, d) :: Owned(s', d)
  {
  }

  lemma UpdateMakesNoRunning(u: Update, events: seq<Row>)
    requires !u.Claim? && (u.Mark? ==> u.state != Running)
    ensures forall r | r in Apply(u, events) && r.state == Running :: r in events
    ensures u.Mark? ==> forall r | r in Apply(u, events) && r.delivery == u.delivery :: r.state == u.state
    ensures u.Retry? ==> forall r | r in Apply(u, events) && r.delivery == u.delivery :: r.state != Running
    ensures u.Requeue? && Running in u.from ==>
      forall r | r in Apply(u, events) && r.delivery == u.delivery :: r.state != Running
  {
  }

  lemma OrphansOutside(c: Config, s: State, step: OutsideStep)
    requires NoOrphans(s) && OutsideEnabled(c, s, step)
    ensures NoOrphans(DoOutside(s, step))
  {
  }

  lemma OrphansClaimBegin(s: State, i: nat)
    requires NoOrphans(s) && !s.stopping && s.claiming.None? && i < |s.events|
    ensures NoOrphans(BeginClaim(s, i))
  {
  }

  lemma OrphansBounce(s: State, row: Row)
    requires NoOrphans(s) && s.claiming == Some(row)
    ensures NoOrphans(Bounce(s, row))
  {
  }

  lemma OrphansAdmit(s: State, row: Row)
    requires NoOrphans(s) && s.claiming == Some(row) && RunsByKey(s)
    ensures NoOrphans(Admit(s, row))
  {
    var s' := Admit(s, row);
    forall r | r in s'.events && r.state == Running && Owned(s, r.delivery) ensures Owned(s', r.delivery) {
      if row.delivery == r.delivery {
        OwnedBy(s', s.nextTask);
      } else {
        var t :| HasUnmarkedRun(s, t) && s.runs[t].row.delivery == r.delivery;
        OwnedBy(s', t);
      }
    }
    OrphansFrame(s, s');
  }

  /** Run t has gone to its next phase; unless it was a shutdown interrupt its row is not running. */
  lemma OrphansOfOneRun(s: State, t: nat, s': State)
    requires NoOrphans(s) && t in s.runs && s'.claiming == s.claiming && s'.stopping == s.stopping
    requires s'.shutdownCancelled <= s.shutdownCancelled
    requires s'.runs.Keys <= s.runs.Keys
    requires forall u | u in s.runs && u != t :: u in s'.runs && s'.runs[u] == s.runs[u]
    requires forall r | r in s'.events && r.state == Running :: r in s.events
    requires !s.stopping ==>
      || (forall r | r in s'.events && r.delivery == s.runs[t].row.delivery :: r.state != Running)
      || (Unmarked(s.runs[t]) ==> t in s'.runs && Unmarked(s'.runs[t]) && s'.runs[t].row == s.runs[t].row)
    ensures NoOrphans(s')
  {
  }

  lemma ReturnedNotRunning(cancelled: set<string>, run: Run, events: seq<Row>)
    requires TableOk(events)
    ensures forall r | r in MarkReturned(cancelled, run, events) && r.state == Running :: r in events
    ensures forall r | r in MarkReturned(cancelled, run, events) && r.delivery == run.row.delivery :: r.state != Running
  {
  }

  lemma SameRow(events: seq<Row>)
    requires TableOk(events)
    ensures forall r, q | r in events && q in events && r.delivery == q.delivery :: r == q
  {
  }

  lemma RaisedNotRunning(c: Config, cancelled: set<string>, shutdown: set<string>, run: Run, e: Reason, at: int,
                         events: seq<Row>)
    ensures var after := MarkRaised(c, cancelled, shutdown, run, e, at, events);
      && (forall r | r in after && r.state == Running :: r in events)
      && (run.row.delivery !in shutdown ==>
        forall r | r in after && r.delivery == run.row.delivery :: r.state != Running)
  {
  }

  lemma OrphansOfRun(c: Config, s: State, t: nat, step: RunStep)
    requires NoOrphans(s) && TableOk(s.events) && RunEnabled(s, t, step)
    ensures NoOrphans(DoRun(c, s, t, step))
  {
    var run := s.runs[t];
    match step {
      case Return => ReturnedNotRunning(s.signals.cancelled, run, s.events);
      case Raise(e, at) => RaisedNotRunning(c, s.signals.cancelled, s.shutdownCancelled, run, e, at, s.events);
      case _ =>
    }
    OrphansOfOneRun(s, t, DoRun(c, s, t, step));
  }

  lemma OrphansOfThread(s: State, t: nat, step: ThreadStep)
    requires NoOrphans(s) && ThreadEnabled(s, t, step)
    ensures NoOrphans(DoThread(s, t, step))
  {
    if step.WorkerMark? { UpdateMakesNoRunning(Mark(ThreadOf(s, t), step.state, step.error), s.events); }
    SameOwners(s, DoThread(s, t, step));
    OrphansFrame(s, DoThread(s, t, step));
  }

  lemma OrphansClaimFinish(s: State)
    requires NoOrphans(s) && RunsByKey(s) && s.claiming.Some?
    ensures NoOrphans(FinishClaim(s))
  {
    var row := s.claiming.value;
    if KeyOf(row) in s.inflight { OrphansBounce(s, row); } else { OrphansAdmit(s, row); }
  }

  lemma OrphansSignal(s: State, step: SignalStep)
    requires NoOrphans(s) && SignalEnabled(s, step)
    ensures NoOrphans(DoSignal(s, step))
  {
    SameOwners(s, DoSignal(s, step));
  }

  lemma OrphansSweep(c: Config, s: State, step: SweepStep)
    requires NoOrphans(s) && SweepEnabled(c, s, step)
    ensures NoOrphans(DoSweep(s, step))
  {
    SameOwners(s, DoSweep(s, step));
    OrphansFrame(s, DoSweep(s, step));
  }

  lemma OrphansStep(c: Config, s: State, step: Step)
    requires NoOrphans(s) && TableOk(s.events) && RunsByKey(s) && Enabled(c, s, step)
    ensures NoOrphans(Do(c, s, step))
  {
    match step
    case Outside(x) => OrphansOutside(c, s, x);
    case ClaimBegin(_, i) => OrphansClaimBegin(s, i);
    case ClaimFinish => OrphansClaimFinish(s);
    case OfRun(t, x) => OrphansOfRun(c, s, t, x);
    case OfThread(t, x) => OrphansOfThread(s, t, x);
    case Signal(x) => OrphansSignal(s, x);
    case Sweep(x) => OrphansSweep(c, s, x);
    case StopBegin =>
    case Restart => RestartLeavesNoneRunning(s.events);
  }

  lemma RestartLeavesNoneRunning(events: seq<Row>)
    ensures forall r | r in Apply(ResetRunning, events) :: r.state != Running
  {
  }

  /******* Threads whose task was cancelled *******/

  /** Runs have left or gone on, and the threads are the same or fewer. */
  lemma StragglersFrame(s: State, s': State)
    requires Stragglers(s) && (s.stopping ==> s'.stopping)
    requires s'.late.Keys <= s.late.Keys && forall t | t in s'.late :: s'.late[t] == s.late[t]
    requires forall t | t in s'.runs :: t in s.runs && s'.runs[t].row == s.runs[t].row
    requires forall t | t in s'.runs && Unmarked(s'.runs[t]) :: Unmarked(s.runs[t])
    ensures Stragglers(s')
  {
  }

  lemma StragglersOfRun(c: Config, s: State, t: nat, step: RunStep)
    requires Stragglers(s) && RunsByKey(s) && OneIssue(c, s) && RunEnabled(s, t, step)
    ensures Stragglers(DoRun(c, s, t, step))
  {
    if step.Release? || step.ReleaseSkipped? {
      StragglersFrame(s, DoRun(c, s, t, step));
    } else if step.TaskCancelled? {
      TaskCancelledStragglers(c, s, t);
    } else {
      RunGoesOn(c, s, t, step);
      StragglersFrame(s, DoRun(c, s, t, step));
    }
  }

  lemma TaskCancelledStragglers(c: Config, s: State, t: nat)
    requires Stragglers(s) && RunsByKey(s) && OneIssue(c, s) && RunEnabled(s, t, TaskCancelled)
    ensures Stragglers(CancelTask(s, t))
  {
    var s' := CancelTask(s, t);
    assert t !in s.late && s'.runs.Keys == s.runs.Keys;
    forall u | u in s.runs ensures s'.runs[u].row == s.runs[u].row && (Unmarked(s'.runs[u]) ==> u !in s'.late) { }
    forall u | u in s.runs && s.runs[u].row.delivery == s.runs[t].row.delivery ensures u == t {
      OneRunPerDelivery(c, s, t, u);
    }
  }

  lemma StragglersStep(c: Config, s: State, step: Step)
    requires Stragglers(s) && RunsByKey(s) && OneIssue(c, s) && NoOrphans(s) && Enabled(c, s, step)
    ensures Stragglers(Do(c, s, step))
  {
    if step.OfThread? {
      StragglersFrame(s, DoThread(s, step.task, step.thread));
    } else if NotOfRuns(step) {
      RunsUntouched(c, s, step);
      ThreadsUntouched(c, s, step);
      StragglersFrame(s, Do(c, s, step));
    } else if step.OfRun? {
      StragglersOfRun(c, s, step.task, step.run);
    } else if step.ClaimFinish? {
      assert s.late == map[];
      assert FinishClaim(s).late == s.late;
    }
  }

  /******* Cancellation hooks *******/

  lemma FireKeepsHooks(g: Signals, d: string)
    requires HooksOnce(g)
    ensures HooksOnce(Fire(g, d))
  {
  }

  lemma HooksOnceSignal(s: State, step: SignalStep)
    requires HooksOnce(s.signals) && SignalEnabled(s, step)
    ensures HooksOnce(DoSignal(s, step).signals)
  {
    match step
    case ArmTest(t) => ArmTestKeepsHooks(s.signals, t, ThreadOf(s, t));
    case ArmStore(t) => ArmStoreKeepsHooks(s.signals, t, ThreadOf(s, t));
    case Disarm(t) =>
    case Cancel(d) => FireKeepsHooks(s.signals, d);
    case StopInterrupt(t) => FireKeepsHooks(s.signals, s.runs[t].row.delivery);
  }

  lemma ArmTestKeepsHooks(g: Signals, t: nat, d: string)
    requires HooksOnce(g) && t !in g.arming
    ensures HooksOnce(ArmTestSignals(g, t, d))
  {
    var g' := ArmTestSignals(g, t, d);
    assert forall h | h in g'.fired :: h in g.fired || h == g.nextHook;
    assert forall i | 0 <= i < |g.fired| :: g.fired[i] in g.fired;
  }

  lemma ArmStoreKeepsHooks(g: Signals, t: nat, d: string)
    requires HooksOnce(g) && t in g.arming
    ensures HooksOnce(g.(hooks := g.hooks[d := g.arming[t]], arming := g.arming - {t}))
  {
  }

  lemma HooksOnceStep(c: Config, s: State, step: Step)
    requires HooksOnce(s.signals) && Enabled(c, s, step)
    ensures HooksOnce(Do(c, s, step).signals)
  {
    if step.Signal? {
      HooksOnceSignal(s, step.signal);
    } else if step.OfRun? {
      HooksOnceOfRun(c, s, step.task, step.run);
    } else if step.ClaimFinish? {
      assert FinishClaim(s).signals == s.signals;
    } else if !step.Restart? {
      SignalsUntouched(c, s, step);
    }
  }

  lemma HooksOnceOfRun(c: Config, s: State, t: nat, step: RunStep)
    requires HooksOnce(s.signals) && RunEnabled(s, t, step)
    ensures HooksOnce(DoRun(c, s, t, step).signals)
  {
    if step.Finalize? {
      assert DoRun(c, s, t, step).signals == Forget(s.signals, s.runs[t].row.delivery);
    } else {
      assert DoRun(c, s, t, step).signals == s.signals;
    }
  }

  lemma OneRunPerDelivery(c: Config, s: State, t: nat, u: nat)
    requires RunsByKey(s) && OneIssue(c, s) && t in s.runs && u in s.runs
    requires s.runs[t].row.delivery == s.runs[u].row.delivery
    ensures t == u
  {
  }

  /** The threads inside `_arm_cancel` are the same, and of the same deliveries. */
  ghost predicate SameThreads(s: State, s': State) {
    forall t | t in s.signals.arming && HasThread(s, t) :: HasThread(s', t) && ThreadOf(s', t) == ThreadOf(s, t)
  }

  lemma OneThreadPerDelivery(c: Config, s: State, t: nat, u: nat)
    requires RunsByKey(s) && OneIssue(c, s) && Stragglers(s) && HasThread(s, t) && HasThread(s, u)
    requires ThreadOf(s, t) == ThreadOf(s, u)
    ensures t == u
  {
    if t !in s.late && u !in s.late { OneRunPerDelivery(c, s, t, u); }
  }

  lemma SameArming(s: State, s': State)
    requires CancelsSeen(s) && s'.signals.arming == s.signals.arming && SameThreads(s, s')
    ensures forall d :: ArmingFor(s', d) <==> ArmingFor(s, d)
  {
  }

  lemma CancelsSeenFrame(s: State, s': State)
    requires CancelsSeen(s) && s'.signals == s.signals && SameThreads(s, s')
    ensures CancelsSeen(s')
  {
  }

  lemma CancelsSeenSignal(c: Config, s: State, step: SignalStep)
    requires CancelsSeen(s) && RunsByKey(s) && OneIssue(c, s) && Stragglers(s) && SignalEnabled(s, step)
    ensures CancelsSeen(DoSignal(s, step))
  {
    match step
    case ArmTest(t) => ArmTestSeen(s, t);
    case ArmStore(t) => ArmStoreSeen(c, s, t);
    case Disarm(t) => DisarmSeen(c, s, t);
    case Cancel(d) => CancelSeen(s, d);
    case StopInterrupt(t) => InterruptSeen(s, t);
  }

  lemma DisarmSeen(c: Config, s: State, t: nat)
    requires CancelsSeen(s) && RunsByKey(s) && OneIssue(c, s) && Stragglers(s) && SignalEnabled(s, Disarm(t))
    ensures CancelsSeen(DoSignal(s, Disarm(t)))
  {
    SameArming(s, DoSignal(s, Disarm(t)));
    forall u | u in s.signals.arming ensures ThreadOf(s, u) != ThreadOf(s, t) {
      if ThreadOf(s, u) == ThreadOf(s, t) { OneThreadPerDelivery(c, s, t, u); }
    }
  }

  lemma CancelSeen(s: State, d: string)
    requires CancelsSeen(s)
    ensures CancelsSeen(DoSignal(s, Cancel(d)))
  {
    SameArming(s, DoSignal(s, Cancel(d)));
  }

  lemma InterruptSeen(s: State, t: nat)
    requires CancelsSeen(s) && SignalEnabled(s, StopInterrupt(t))
    ensures CancelsSeen(DoSignal(s, StopInterrupt(t)))
  {
    SameArming(s, DoSignal(s, StopInterrupt(t)));
  }

  lemma ArmTestSeen(s: State, t: nat)
    requires CancelsSeen(s) && SignalEnabled(s, ArmTest(t))
    ensures CancelsSeen(DoSignal(s, ArmTest(t)))
  {
    ArmingGrows(s, t, DoSignal(s, ArmTest(t)));
  }

  lemma ArmingGrows(s: State, t: nat, s': State)
    requires CancelsSeen(s) && SignalEnabled(s, ArmTest(t)) && s' == DoSignal(s, ArmTest(t))
    ensures forall d | d != ThreadOf(s, t) || ThreadOf(s, t) in s.signals.cancelled ::
      ArmingFor(s', d) <==> ArmingFor(s, d)
  {
    forall d | d != ThreadOf(s, t) || ThreadOf(s, t) in s.signals.cancelled
      ensures ArmingFor(s', d) <==> ArmingFor(s, d) {
      if ArmingFor(s, d) {
        var u :| IsArming(s, u, d);
        ArmTestOf(s, t, u, d);
        assert IsArming(s', u, d);
      }
      if ArmingFor(s', d) {
        var u :| IsArming(s', u, d);
        ArmTestOf(s, t, u, d);
        assert IsArming(s, u, d);
      }
    }
  }

  lemma ArmTestOf(s: State, t: nat, u: nat, d: string)
    requires SignalEnabled(s, ArmTest(t)) && (d != ThreadOf(s, t) || ThreadOf(s, t) in s.signals.cancelled)
    ensures IsArming(DoSignal(s, ArmTest(t)), u, d) <==> IsArming(s, u, d)
  {
    assert DoSignal(s, ArmTest(t)) == s.(signals := ArmTestSignals(s.signals, t, ThreadOf(s, t)));
  }

  lemma ArmStoreSeen(c: Config, s: State, t: nat)
    requires CancelsSeen(s) && RunsByKey(s) && OneIssue(c, s) && Stragglers(s) && SignalEnabled(s, ArmStore(t))
    ensures CancelsSeen(DoSignal(s, ArmStore(t)))
  {
    var s' := DoSignal(s, ArmStore(t));
    assert IsArming(s, t, ThreadOf(s, t)) && ArmingFor(s, ThreadOf(s, t));
    ArmingShrinks(c, s, t, s');
    forall u | u in s'.signals.arming ensures HasThread(s', u) && ThreadOf(s', u) !in s'.signals.hooks {
      if ThreadOf(s, u) == ThreadOf(s, t) { OneThreadPerDelivery(c, s, t, u); }
    }
  }

  lemma ArmingShrinks(c: Config, s: State, t: nat, s': State)
    requires RunsByKey(s) && OneIssue(c, s) && Stragglers(s) && SignalEnabled(s, ArmStore(t))
    requires s' == DoSignal(s, ArmStore(t))
    ensures forall d :: ArmingFor(s', d) <==> ArmingFor(s, d) && d != ThreadOf(s, t)
  {
    forall u, d ensures IsArming(s', u, d) <==> IsArming(s, u, d) && u != t { }
    forall d ensures ArmingFor(s', d) <==> ArmingFor(s, d) && d != ThreadOf(s, t) {
      if ArmingFor(s', d) {
        var u :| IsArming(s', u, d);
        if d == ThreadOf(s, t) { OneThreadPerDelivery(c, s, t, u); }
      }
      if ArmingFor(s, d) && d != ThreadOf(s, t) {
        var u :| IsArming(s, u, d);
        assert IsArming(s', u, d);
      }
    }
  }

  lemma CancelsSeenOfRun(c: Config, s: State, t: nat, step: RunStep)
    requires CancelsSeen(s) && Stragglers(s) && RunEnabled(s, t, step)
    ensures CancelsSeen(DoRun(c, s, t, step))
  {
    if step.Finalize? {
      SameArming(s, Finish(s, t));
    } else {
      CancelsSeenFrame(s, DoRun(c, s, t, step));
    }
  }

  lemma CancelsSeenStep(c: Config, s: State, step: Step)
    requires CancelsSeen(s) && RunsByKey(s) && OneIssue(c, s) && Stragglers(s) && Enabled(c, s, step)
    ensures CancelsSeen(Do(c, s, step))
  {
    if step.Signal? {
      CancelsSeenSignal(c, s, step.signal);
    } else if step.OfRun? {
      CancelsSeenOfRun(c, s, step.task, step.run);
    } else if step.ClaimFinish? {
      CancelsSeenClaim(s);
    } else if step.OfThread? {
      CancelsSeenThread(s, step.task, step.thread);
    } else if !step.Restart? {
      CancelsSeenUntouched(c, s, step);
    }
  }

  lemma CancelsSeenClaim(s: State)
    requires CancelsSeen(s) && s.claiming.Some? && RunsByKey(s)
    ensures CancelsSeen(FinishClaim(s))
  {
    CancelsSeenFrame(s, FinishClaim(s));
  }

  lemma CancelsSeenThread(s: State, t: nat, step: ThreadStep)
    requires CancelsSeen(s) && ThreadEnabled(s, t, step)
    ensures CancelsSeen(DoThread(s, t, step))
  {
    CancelsSeenFrame(s, DoThread(s, t, step));
  }

  lemma CancelsSeenUntouched(c: Config, s: State, step: Step)
    requires CancelsSeen(s) && NotOfRuns(step) && !step.OfThread? && !step.Signal? && Enabled(c, s, step)
    ensures CancelsSeen(Do(c, s, step))
  {
    RunsUntouched(c, s, step);
    SignalsUntouched(c, s, step);
    ThreadsUntouched(c, s, step);
    CancelsSeenFrame(s, Do(c, s, step));
  }

  lemma ThreadsUntouched(c: Config, s: State, step: Step)
    requires NotOfRuns(step) && !step.OfThread? && Enabled(c, s, step)
    ensures Do(c, s, step).late == s.late
  {
    match step
    case Outside(x) => assert Do(c, s, step) == DoOutside(s, x);
    case Signal(x) => assert Do(c, s, step) == DoSignal(s, x);
    case Sweep(x) => assert Do(c, s, step) == DoSweep(s, x);
    case _ =>
  }

  lemma SignalsUntouched(c: Config, s: State, step: Step)
    requires NotOfRuns(step) && !step.Signal? && Enabled(c, s, step)
    ensures Do(c, s, step).signals == s.signals
  {
    match step
    case Outside(x) => assert Do(c, s, step) == DoOutside(s, x);
    case OfThread(t, x) => assert Do(c, s, step) == DoThread(s, t, x);
    case Sweep(x) => assert Do(c, s, step) == DoSweep(s, x);
    case _ =>
  }

  /******* Every reachable state *******/

  lemma InvStep(c: Config, s: State, step: Step)
    requires Inv(c, s) && NoDuplicates(s.slots.uids) && Enabled(c, s, step)
    ensures Inv(c, Do(c, s, step)) && Do(c, s, step).slots.uids == s.slots.uids
  {
    TableStep(c, s, step);
    RunsByKeyStep(c, s, step);
    OneIssueStep(c, s, step);
    SlotsStep(c, s, step);
    OrphansStep(c, s, step);
    StragglersStep(c, s, step);
    HooksOnceStep(c, s, step);
    CancelsSeenStep(c, s, step);
    SameUids(c, s, step);
  }

  lemma SameUids(c: Config, s: State, step: Step)
    requires Enabled(c, s, step)
    ensures Do(c, s, step).slots.uids == s.slots.uids
  {
    if NotOfRuns(step) {
      RunsUntouched(c, s, step);
    } else if step.OfRun? {
      assert DoRun(c, s, step.task, step.run).slots.uids == s.slots.uids;
    }
  }

  /** Whatever happens, in whatever order. */
  lemma {:induction false} InvAlways(c: Config, s: State, steps: seq<Step>)
    requires Inv(c, s) && NoDuplicates(s.slots.uids) && Feasible(c, s, steps)
    ensures Inv(c, After(c, s, steps))
    decreases |steps|
  {
    if steps != [] {
      InvStep(c, s, steps[0]);
      InvAlways(c, Do(c, s, steps[0]), steps[1..]);
    }
  }

  /** A process that has just started over a table with no running rows. */
  lemma InvInit(c: Config, events: seq<Row>, issues: map<string, IssueState>, uids: seq<int>)
    requires NoDuplicates(uids) && TableOk(events) && forall r | r in events :: r.state != Running && SameIssue(c, r)
    ensures Inv(c, Idle(events, issues, uids, 0))
  {
  }

  /** An invariant state with distinct slots. */
  ghost predicate Sound(c: Config, s: State) { Inv(c, s) && NoDuplicates(s.slots.uids) }

  lemma StaysSound(c: Config, s: State, step: Step)
    requires Sound(c, s) && Enabled(c, s, step)
    ensures Sound(c, Do(c, s, step))
  {
    InvStep(c, s, step);
  }

  lemma SoundRun(c: Config, s: State, t: nat, step: RunStep)
    requires Sound(c, s) && RunEnabled(s, t, step)
    ensures Sound(c, DoRun(c, s, t, step))
  {
    StaysSound(c, s, OfRun(t, step));
  }

  lemma SoundClaim(c: Config, s: State)
    requires Sound(c, s) && s.claiming.Some?
    ensures Sound(c, FinishClaim(s))
  {
    StaysSound(c, s, ClaimFinish);
  }

  lemma SoundSweep(c: Config, s: State, step: SweepStep)
    requires Sound(c, s) && SweepEnabled(c, s, step)
    ensures Sound(c, DoSweep(s, step))
  {
    StaysSound(c, s, Sweep(step));
  }
}
