/** What the dispatcher can always still do by itself: finish every run, and execute every queued row. */
module EventQueueContinuations {
  import opened Basics
  import opened EventQueue
  import opened EventQueueSafety
  import opened EventQueueRuns

  /******* Paths *******/

  /** A step of the dispatcher, of a run, or of a worker thread that stores its hook; nothing from outside. */
  predicate Internal(step: Step) {
    match step
    case ClaimBegin(_, _) => true
    case ClaimFinish => true
    case OfRun(_, x) => !x.TaskCancelled? && !x.ReleaseSkipped?
    case Signal(x) => x.ArmStore?
    case _ => false
  }

  /** The internal steps lead from s to z. */
  ghost predicate Path(c: Config, s: State, steps: seq<Step>, z: State) {
    Feasible(c, s, steps) && After(c, s, steps) == z && forall i | 0 <= i < |steps| :: Internal(steps[i])
  }

  lemma PathOne(c: Config, s: State, step: Step)
    requires Enabled(c, s, step) && Internal(step)
    ensures Path(c, s, [step], Do(c, s, step))
  {
    var z := Do(c, s, step);
    assert [step][1..] == [] && Feasible(c, z, []) && After(c, z, []) == z;
  }

  lemma {:induction false} FeasibleConcat(c: Config, s: State, a: seq<Step>, b: seq<Step>)
    requires Feasible(c, s, a) && Feasible(c, After(c, s, a), b)
    ensures Feasible(c, s, a + b) && After(c, s, a + b) == After(c, After(c, s, a), b)
    ensures forall d :: Executes(c, s, a + b, d) <==> Executes(c, s, a, d) || Executes(c, After(c, s, a), b, d)
    decreases |a|
  {
    if a == [] {
      assert a + b == b;
    } else {
      assert (a + b)[0] == a[0] && (a + b)[1..] == a[1..] + b;
      FeasibleConcat(c, Do(c, s, a[0]), a[1..], b);
    }
  }

  lemma PathConcat(c: Config, s: State, a: seq<Step>, m: State, b: seq<Step>, z: State)
    requires Path(c, s, a, m) && Path(c, m, b, z)
    ensures Path(c, s, a + b, z)
    ensures forall d :: Executes(c, s, a + b, d) <==> Executes(c, s, a, d) || Executes(c, m, b, d)
  {
    FeasibleConcat(c, s, a, b);
  }

  lemma PathStep(c: Config, s: State, step: Step, b: seq<Step>, z: State)
    requires Enabled(c, s, step) && Internal(step) && Path(c, Do(c, s, step), b, z)
    ensures Path(c, s, [step] + b, z)
  {
    PathOne(c, s, step);
    PathConcat(c, s, [step], Do(c, s, step), b, z);
  }

  /******* Finishing runs *******/

  /** No new claim is under way, and none will be refused. */
  ghost predicate Calm(c: Config, s: State) {
    Sound(c, s) && !s.stopping && s.claiming.None?
  }

  /** Rows of other deliveries are the same, and the queued rows were queued before. */
  ghost predicate OnlyTouches(before: seq<Row>, after: seq<Row>, e: string) {
    (forall r: Row | r.delivery != e :: r in before <==> r in after)
    && forall r | r in after && r.state == Queued :: r in before
  }

  lemma UpdateTouches(u: Update, events: seq<Row>)
    requires u.Mark? && u.state != Queued
    ensures OnlyTouches(events, Apply(u, events), u.delivery)
  {
    var after := Apply(u, events);
    forall r: Row | r.delivery != u.delivery ensures r in events <==> r in after {
      if r in events {
        var i :| 0 <= i < |events| && events[i] == r;
        assert after[i] == r;
      }
      if r in after {
        var i :| 0 <= i < |events| && UpdateRow(u, events[i]) == r;
        assert events[i] == r;
      }
    }
    forall r | r in after && r.delivery == u.delivery ensures r.state != Queued {
      var i :| 0 <= i < |events| && UpdateRow(u, events[i]) == r;
    }
  }

  /** What finishing a run does to everything but the run. */
  ghost predicate Finished(s: State, z: State, t: nat) {
    t in s.runs && z.runs == s.runs - {t} && z.nextTask == s.nextTask && z.claiming == s.claiming
    && z.inflight == s.inflight - {KeyOf(s.runs[t].row)}
    && z.signals.cancelled <= s.signals.cancelled
    && OnlyTouches(s.events, z.events, s.runs[t].row.delivery)
  }

  /** How far a run is from its end. */
  function Ahead(s: State, t: nat): nat
    requires t in s.runs
  {
    match s.runs[t].phase
    case Waiting => 5
    case Dispatching => if t in s.signals.arming then 4 else 3
    case Marked => 2
    case Closing => 1
  }

  /** The next step of a run. */
  function NextStep(s: State, t: nat): Step
    requires t in s.runs
  {
    match s.runs[t].phase
    case Waiting => OfRun(t, AcquireSlot)
    case Dispatching => if t in s.signals.arming then Signal(ArmStore(t)) else OfRun(t, Return)
    case Marked => OfRun(t, Finalize)
    case Closing => OfRun(t, Release)
  }

  predicate SlotFree(s: State, t: nat) {
    t in s.runs && (s.runs[t].phase != Waiting || s.slots.uids == [] || s.slots.available != [])
  }

  /** The state after the next step of a run. */
  function NextState(s: State, t: nat): State
    requires SlotFree(s, t)
  {
    match s.runs[t].phase
    case Waiting => Acquire(s, t)
    case Dispatching =>
      if t in s.signals.arming then DoSignal(s, ArmStore(t))
      else s.(events := MarkReturned(s.signals.cancelled, s.runs[t], s.events), runs := SetPhase(s, t, Marked))
    case Marked => Finish(s, t)
    case Closing => Drop(s, t)
  }

  lemma NextStepIs(c: Config, s: State, t: nat)
    requires SlotFree(s, t) && (s.runs[t].phase == Closing ==> s.claiming.None?)
    ensures Enabled(c, s, NextStep(s, t)) && Internal(NextStep(s, t)) && Do(c, s, NextStep(s, t)) == NextState(s, t)
  {
  }

  lemma NextStepCalm(c: Config, s: State, t: nat)
    requires Calm(c, s) && SlotFree(s, t)
    ensures Calm(c, NextState(s, t))
  {
    NextStepIs(c, s, t);
    StaysSound(c, s, NextStep(s, t));
    NextStepFrame(s, t);
  }

  lemma NextStepFrame(s: State, t: nat)
    requires SlotFree(s, t)
    ensures var z := NextState(s, t);
      z.stopping == s.stopping && z.claiming == s.claiming && z.nextTask == s.nextTask && z.slots.uids == s.slots.uids
      && z.signals.cancelled <= s.signals.cancelled
  {
  }

  lemma NextStepTouches(s: State, t: nat)
    requires SlotFree(s, t)
    ensures OnlyTouches(s.events, NextState(s, t).events, s.runs[t].row.delivery)
  {
    if s.runs[t].phase == Dispatching && t !in s.signals.arming { ReturnTouches(s, t); }
  }

  /** The step brings the run nearer to its end, or ends it. */
  lemma NextStepAdvances(s: State, t: nat)
    requires SlotFree(s, t)
    ensures var z := NextState(s, t);
      && (s.runs[t].phase == Closing ==> z.runs == s.runs - {t} && z.inflight == s.inflight - {KeyOf(s.runs[t].row)})
      && (s.runs[t].phase != Closing ==> z.inflight == s.inflight)
      && (s.runs[t].phase != Closing ==> t in z.runs && SlotFree(z, t) && z.runs[t].row == s.runs[t].row)
      && (s.runs[t].phase != Closing ==> z.runs - {t} == s.runs - {t} && Ahead(z, t) < Ahead(s, t))
      && (s.runs[t].phase == Marked ==> z.runs[t].phase == Closing && z.events == s.events)
  {
  }

  lemma ReturnTouches(s: State, t: nat)
    requires t in s.runs
    ensures OnlyTouches(s.events, MarkReturned(s.signals.cancelled, s.runs[t], s.events), s.runs[t].row.delivery)
  {
    UpdateTouches(Mark(s.runs[t].row.delivery, Done, NoReason), s.events);
    UpdateTouches(Mark(s.runs[t].row.delivery, Failed, OperatorCancel), s.events);
  }

  /** A run that has a slot, or can have one, can be brought to its end. */
  lemma {:induction false} FinishRun(c: Config, s: State, t: nat) returns (steps: seq<Step>, z: State)
    requires Calm(c, s) && SlotFree(s, t)
    ensures Path(c, s, steps, z) && Calm(c, z) && Finished(s, z, t)
    ensures s.runs[t].phase == Marked || s.runs[t].phase == Closing ==> z.events == s.events
    ensures s.runs[t].phase == Waiting ==> Executes(c, s, steps, s.runs[t].row.delivery)
    decreases Ahead(s, t)
  {
    var step := NextStep(s, t);
    NextStepIs(c, s, t);
    NextStepCalm(c, s, t);
    NextStepFrame(s, t);
    NextStepTouches(s, t);
    NextStepAdvances(s, t);
    var m := NextState(s, t);
    if s.runs[t].phase == Closing {
      PathOne(c, s, step);
      steps, z := [step], m;
    } else {
      var rest;
      rest, z := FinishRun(c, m, t);
      PathStep(c, s, step, rest, z);
      steps := [step] + rest;
      FinishedLater(s, m, z, t);
    }
  }

  lemma FinishedLater(s: State, m: State, z: State, t: nat)
    requires Finished(m, z, t) && t in s.runs && m.runs[t].row == s.runs[t].row && m.runs - {t} == s.runs - {t}
    requires m.nextTask == s.nextTask && m.claiming == s.claiming && m.inflight == s.inflight
    requires m.signals.cancelled <= s.signals.cancelled
    requires OnlyTouches(s.events, m.events, s.runs[t].row.delivery)
    ensures Finished(s, z, t)
  {
  }

  /** If only waiting runs are left, every slot is free. */
  lemma SlotsComeFree(c: Config, s: State)
    requires Calm(c, s) && forall t | t in s.runs :: s.runs[t].phase == Waiting
    ensures forall t | t in s.runs :: SlotFree(s, t)
  {
    if s.slots.uids != [] {
      assert forall t, u :: !HoldsSlot(s, t, u);
      assert forall u :: u !in s.slots.checkedOut;
      assert s.slots.uids[0] in Elements(s.slots.uids);
    }
  }

  /** A key in `_inflight` that no run will give back. */
  ghost predicate Leaked(s: State, key: string) {
    key in s.inflight && key !in LiveKeys(s)
  }

  /** The runs that are waiting for a slot get it. */
  ghost predicate ExecutesWaiting(c: Config, s: State, steps: seq<Step>) {
    Feasible(c, s, steps) && forall t | HasRun(s, t, Waiting) :: Executes(c, s, steps, s.runs[t].row.delivery)
  }

  lemma FinishLeaksNothing(s: State, z: State, t: nat)
    requires RunsByKey(s) && Finished(s, z, t)
    ensures forall k :: Leaked(z, k) <==> Leaked(s, k)
  {
    SameKeys(s, z, {KeyOf(s.runs[t].row)}, {});
    assert KeyOf(s.runs[t].row) in LiveKeys(s);
  }

  /** All runs can be brought to their end; what was leaked remains. */
  lemma {:induction false} Drain(c: Config, s: State) returns (steps: seq<Step>, z: State)
    requires Calm(c, s)
    ensures Path(c, s, steps, z) && Calm(c, z) && z.runs == map[] && ExecutesWaiting(c, s, steps)
    ensures forall k :: Leaked(z, k) <==> Leaked(s, k)
    ensures forall r | r in z.events && r.state == Queued :: r in s.events
    decreases |s.runs|
  {
    if s.runs == map[] {
      steps, z := [], s;
    } else {
      var t: nat;
      if u: nat :| u in s.runs && s.runs[u].phase != Waiting {
        t := u;
      } else {
        SlotsComeFree(c, s);
        t :| t in s.runs;
      }
      var first, m := FinishRun(c, s, t);
      assert |m.runs| < |s.runs| by { Smaller(s.runs, t); }
      var rest;
      rest, z := Drain(c, m);
      PathConcat(c, s, first, m, rest, z);
      steps := first + rest;
      FinishLeaksNothing(s, m, t);
      WaitingExecuted(c, s, t, first, m, rest, z);
    }
  }

  lemma WaitingExecuted(c: Config, s: State, t: nat, first: seq<Step>, m: State, rest: seq<Step>, z: State)
    requires Path(c, s, first, m) && Finished(s, m, t) && Path(c, m, rest, z) && ExecutesWaiting(c, m, rest)
    requires s.runs[t].phase == Waiting ==> Executes(c, s, first, s.runs[t].row.delivery)
    ensures ExecutesWaiting(c, s, first + rest)
  {
    PathConcat(c, s, first, m, rest, z);
    forall u | HasRun(s, u, Waiting) ensures Executes(c, s, first + rest, s.runs[u].row.delivery) {
      if u != t { assert HasRun(m, u, Waiting) && m.runs[u] == s.runs[u]; }
    }
  }

  lemma Smaller(runs: map<nat, Run>, t: nat)
    requires t in runs
    ensures |runs - {t}| < |runs|
  {
    assert (runs - {t}).Keys == runs.Keys - {t};
    assert |(runs - {t}).Keys| == |runs - {t}| && |runs.Keys| == |runs|;
  }

  /******* Serving a row *******/

  ghost predicate Quiet(c: Config, s: State) {
    Calm(c, s) && s.runs == map[]
  }

  lemma QuietTable(c: Config, s: State)
    requires Quiet(c, s)
    ensures forall r | r in s.events :: r.state != Running
    ensures s.signals.arming == map[] && s.shutdownCancelled == {} && forall k :: Leaked(s, k) <==> k in s.inflight
  {
    assert forall d :: !Owned(s, d);
    assert forall t | t in s.signals.arming :: HasThread(s, t);
  }

  /** The earliest received of the eligible rows, once there is one. */
  lemma {:induction false} NextExists(events: seq<Row>, now: int, n: nat) returns (j: nat)
    requires n <= |events| && exists i | 0 <= i < n :: Eligible(events, now, i)
    ensures j < n && Eligible(events, now, j)
    ensures forall i | 0 <= i < n && Eligible(events, now, i) :: events[j].receivedAt <= events[i].receivedAt
  {
    var last := n - 1;
    if exists i | 0 <= i < last :: Eligible(events, now, i) {
      j := NextExists(events, now, last);
      if Eligible(events, now, last) && events[last].receivedAt < events[j].receivedAt { j := last; }
    } else {
      j := last;
    }
  }

  function QueuedIds(events: seq<Row>): set<string> { set r | r in events && r.state == Queued :: r.delivery }

  /** Row r is the queued row of its delivery. */
  ghost predicate Waits(s: State, r: Row) { r in s.events && r.state == Queued }

  /** The claim of row r has just got its slot, and nothing else is going on. */
  ghost predicate Inside(c: Config, s: State, t: nat, r: Row) {
    Calm(c, s) && s.runs.Keys == {t} && s.runs[t].phase == Dispatching && t !in s.signals.arming
    && s.runs[t].row == r.(state := Running, attempts := r.attempts + 1)
    && s.runs[t].row in s.events && KeyOf(r) in s.inflight
  }

  lemma ServeClaim(c: Config, s: State, now: int, j: nat)
    requires Quiet(c, s) && IsNext(s.events, now, j)
    ensures var m := BeginClaim(s, j); var r := s.events[j];
      Sound(c, m) && Enabled(c, s, ClaimBegin(now, j)) && m == Do(c, s, ClaimBegin(now, j))
      && m.claiming == Some(r.(state := Running, attempts := r.attempts + 1)) && m.claiming.value in m.events
      && m.inflight == s.inflight && m.runs == map[] && !m.stopping && m.signals == s.signals
  {
    StaysSound(c, s, ClaimBegin(now, j));
    QuietTable(c, s);
    var m := BeginClaim(s, j);
    assert m.events[j] == m.claiming.value;
  }

  lemma ServeAdmit(c: Config, m: State, row: Row)
    requires Sound(c, m) && m.claiming == Some(row) && KeyOf(row) !in m.inflight
    requires m.runs == map[] && !m.stopping
    ensures Enabled(c, m, ClaimFinish) && Do(c, m, ClaimFinish) == Admit(m, row)
    ensures Calm(c, Admit(m, row)) && SlotFree(Admit(m, row), m.nextTask)
    ensures Admit(m, row).runs == map[m.nextTask := Run(row, Waiting, None)]
  {
    SoundClaim(c, m);
    assert Do(c, m, ClaimFinish) == Admit(m, row);
    SlotsComeFree(c, Admit(m, row));
  }

  lemma ServeSlot(c: Config, m: State, t: nat, row: Row)
    requires Calm(c, m) && SlotFree(m, t) && m.runs == map[t := Run(row, Waiting, None)]
    ensures Enabled(c, m, OfRun(t, AcquireSlot)) && Do(c, m, OfRun(t, AcquireSlot)) == Acquire(m, t)
    ensures Calm(c, Acquire(m, t)) && Acquire(m, t).runs.Keys == {t} && t !in m.signals.arming
    ensures HasRun(Acquire(m, t), t, Dispatching) && Acquire(m, t).runs[t].row == row
    ensures Acquire(m, t).events == m.events && Acquire(m, t).signals == m.signals
  {
    NextStepIs(c, m, t);
    NextStepCalm(c, m, t);
    NotArming(c, m, t);
  }

  lemma NotArming(c: Config, s: State, t: nat)
    requires Inv(c, s) && HasRun(s, t, Waiting)
    ensures t !in s.signals.arming
  {
    assert t in s.signals.arming ==> HasThread(s, t);
  }

  /** From a quiet state the next eligible row can be claimed, admitted and given a slot. */
  lemma ServeNext(c: Config, s: State, now: int, j: nat) returns (steps: seq<Step>, z: State, t: nat)
    requires Quiet(c, s) && IsNext(s.events, now, j) && KeyOf(s.events[j]) !in s.inflight
    ensures Path(c, s, steps, z) && Inside(c, z, t, s.events[j]) && z.signals.cancelled == s.signals.cancelled
    ensures z.inflight == s.inflight + {KeyOf(s.events[j])}
    ensures z.events == Apply(Claim(s.events[j].delivery), s.events) && Executes(c, s, steps, s.events[j].delivery)
  {
    var s1 := BeginClaim(s, j);
    ServeClaim(c, s, now, j);
    var row := s1.claiming.value;
    ServeAdmit(c, s1, row);
    var s2 := Admit(s1, row);
    t := s1.nextTask;
    ServeSlot(c, s2, t, row);
    z := Acquire(s2, t);
    ThreeSteps(c, s, ClaimBegin(now, j), ClaimFinish, OfRun(t, AcquireSlot));
    steps := [ClaimBegin(now, j)] + ([ClaimFinish] + [OfRun(t, AcquireSlot)]);
    ExecutesLast(c, s, [ClaimBegin(now, j)], s1, [ClaimFinish], s2, OfRun(t, AcquireSlot), row.delivery);
  }

  lemma ThreeSteps(c: Config, s: State, a: Step, b: Step, e: Step)
    requires Enabled(c, s, a) && Internal(a) && Enabled(c, Do(c, s, a), b) && Internal(b)
    requires Enabled(c, Do(c, Do(c, s, a), b), e) && Internal(e)
    ensures Path(c, s, [a] + ([b] + [e]), Do(c, Do(c, Do(c, s, a), b), e))
    ensures Path(c, s, [a], Do(c, s, a)) && Path(c, Do(c, s, a), [b], Do(c, Do(c, s, a), b))
  {
    var m := Do(c, s, a);
    PathOne(c, s, a);
    PathOne(c, m, b);
    PathOne(c, Do(c, m, b), e);
    PathStep(c, m, b, [e], Do(c, Do(c, m, b), e));
    PathStep(c, s, a, [b] + [e], Do(c, Do(c, m, b), e));
  }

  lemma ExecutesLast(c: Config, s: State, a: seq<Step>, m: State, b: seq<Step>, n: State, e: Step, d: string)
    requires Path(c, s, a, m) && Path(c, m, b, n) && Enabled(c, n, e) && Internal(e)
    requires e.OfRun? && e.run.AcquireSlot? && e.task in n.runs && n.runs[e.task].row.delivery == d
    ensures Feasible(c, s, a + (b + [e])) && Executes(c, s, a + (b + [e]), d)
  {
    PathOne(c, n, e);
    assert Executes(c, n, [e], d);
    PathConcat(c, m, b, n, [e], Do(c, n, e));
    PathConcat(c, s, a, m, b + [e], Do(c, n, e));
  }

  lemma ClaimTouches(events: seq<Row>, d: string)
    ensures forall r: Row | r.delivery != d :: r in events <==> r in Apply(Claim(d), events)
    ensures forall r | r in Apply(Claim(d), events) && r.delivery == d :: r.state == Running
  {
    var after := Apply(Claim(d), events);
    forall r: Row | r.delivery != d ensures r in events <==> r in after {
      if r in events {
        var i :| 0 <= i < |events| && events[i] == r;
        assert after[i] == r;
      }
      if r in after {
        var i :| 0 <= i < |events| && UpdateRow(Claim(d), events[i]) == r;
        assert events[i] == r;
      }
    }
    forall r | r in after && r.delivery == d ensures r.state == Running {
      var i :| 0 <= i < |events| && UpdateRow(Claim(d), events[i]) == r;
    }
  }

  /** A row that was claimed and whose run has ended is not queued any more; the other rows are as they were. */
  lemma ServedOther(before: seq<Row>, claimed: seq<Row>, after: seq<Row>, r: Row, q: Row)
    requires TableOk(before) && r in before && q in before && q.state == Queued && r.delivery != q.delivery
    requires claimed == Apply(Claim(q.delivery), before) && OnlyTouches(claimed, after, q.delivery)
    ensures r in after && |QueuedIds(after)| < |QueuedIds(before)|
    ensures forall x | x in after && x.state == Queued :: x in before
  {
    ClaimTouches(before, q.delivery);
    forall d | d in QueuedIds(after) ensures d in QueuedIds(before) - {q.delivery} {
      var x :| x in after && x.state == Queued && x.delivery == d;
      assert d != q.delivery && x in before;
    }
    assert q.delivery in QueuedIds(before);
    SubsetSize(QueuedIds(after), QueuedIds(before) - {q.delivery});
  }

  /** Row q was received earlier, and can be claimed whenever row r can. */
  predicate Precedes(q: Row, r: Row) {
    q.receivedAt < r.receivedAt
    && (q.availableAt.None? || (r.availableAt.Some? && q.availableAt.value <= r.availableAt.value))
  }

  ghost predicate Blocks(s: State, q: Row, r: Row) {
    q in s.events && q.state == Queued && Leaked(s, KeyOf(q)) && Precedes(q, r)
  }

  /** The key of the row is leaked, or that of a queued row that precedes it. */
  ghost predicate Blocked(s: State, r: Row) {
    Leaked(s, KeyOf(r)) || exists q :: Blocks(s, q, r)
  }

  /** A time before the end of every backoff. */
  function Dawn(events: seq<Row>): (now: int)
    ensures forall r | r in events && r.availableAt.Some? :: now < r.availableAt.value
  {
    if events == [] then 0 else
    var now := Dawn(events[1..]);
    if events[0].availableAt.Some? && events[0].availableAt.value <= now then events[0].availableAt.value - 1 else now
  }

  /** At a well-chosen time the next row to be claimed can be admitted, if row r is not blocked. */
  lemma EligibleWhenQuiet(c: Config, s: State, r: Row) returns (now: int, j: nat)
    requires Quiet(c, s) && Waits(s, r) && !Blocked(s, r)
    ensures IsNext(s.events, now, j) && KeyOf(s.events[j]) !in s.inflight
  {
    now := if r.availableAt.Some? then r.availableAt.value else Dawn(s.events);
    QuietTable(c, s);
    var i: nat :| i < |s.events| && s.events[i] == r;
    assert forall k | 0 <= k < |s.events| :: s.events[k] in s.events;
    assert Eligible(s.events, now, i);
    j := NextExists(s.events, now, |s.events|);
    if s.events[j].receivedAt == r.receivedAt {
      j := i;
    } else {
      assert !Blocks(s, s.events[j], r);
    }
  }

  /** The handler of a row that precedes row r comes to its end. */
  lemma ServeOther(c: Config, before: seq<Row>, m: State, u: nat, q: Row, r: Row) returns (steps: seq<Step>, n: State)
    requires TableOk(before) && r in before && q in before && q.state == Queued && r.delivery != q.delivery
    requires Inside(c, m, u, q) && m.events == Apply(Claim(q.delivery), before)
    ensures Path(c, m, steps, n) && Calm(c, n) && Finished(m, n, u)
    ensures r in n.events && |QueuedIds(n.events)| < |QueuedIds(before)|
    ensures forall x | x in n.events && x.state == Queued :: x in before
  {
    steps, n := FinishRun(c, m, u);
    ServedOther(before, m.events, n.events, r, q);
  }

  lemma OtherServed(c: Config, s: State, m: State, u: nat, n: State, r: Row)
    requires Quiet(c, s) && !Blocked(s, r) && Calm(c, n) && Finished(m, n, u) && m.runs.Keys == {u}
    requires n.inflight == s.inflight && forall x | x in n.events && x.state == Queued :: x in s.events
    ensures Quiet(c, n) && !Blocked(n, r)
  {
    assert n.runs == map[] by { assert n.runs.Keys == {}; }
    QuietTable(c, s);
    QuietTable(c, n);
    StaysUnblocked(s, n, r);
  }

  lemma StaysUnblocked(s: State, z: State, r: Row)
    requires !Blocked(s, r) && forall k :: Leaked(z, k) ==> Leaked(s, k)
    requires forall q | q in z.events && q.state == Queued :: q in s.events
    ensures !Blocked(z, r)
  {
    assert forall q :: Blocks(z, q, r) ==> Blocks(s, q, r);
  }

  /** From a quiet state every queued row that is not blocked can be executed, after those that precede it. */
  lemma {:induction false} ServeRow(c: Config, s: State, r: Row) returns (steps: seq<Step>, z: State, t: nat)
    requires Quiet(c, s) && Waits(s, r) && !Blocked(s, r)
    ensures Path(c, s, steps, z) && Inside(c, z, t, r) && Executes(c, s, steps, r.delivery)
    ensures z.signals.cancelled <= s.signals.cancelled && z.inflight == s.inflight + {KeyOf(r)}
    decreases |QueuedIds(s.events)|
  {
    var first, m, u, q := ServeFirst(c, s, r);
    if q == r {
      steps, z, t := first, m, u;
    } else {
      var past, n := ServePast(c, s, first, m, u, q, r);
      var rest;
      rest, z, t := ServeRow(c, n, r);
      PathConcat(c, s, past, n, rest, z);
      steps := past + rest;
    }
  }

  lemma ServeFirst(c: Config, s: State, r: Row) returns (steps: seq<Step>, m: State, u: nat, q: Row)
    requires Quiet(c, s) && Waits(s, r) && !Blocked(s, r)
    ensures Served(c, s, steps, m, u, q) && (q == r || q.delivery != r.delivery)
  {
    var now, j := EligibleWhenQuiet(c, s, r);
    q := s.events[j];
    steps, m, u := ServeNext(c, s, now, j);
    SameRow(s.events);
  }

  /** The steps have brought row q to its handler, and nothing else has happened. */
  ghost predicate Served(c: Config, s: State, steps: seq<Step>, m: State, u: nat, q: Row) {
    Waits(s, q) && KeyOf(q) !in s.inflight && Path(c, s, steps, m) && Inside(c, m, u, q)
    && m.inflight == s.inflight + {KeyOf(q)} && m.signals.cancelled == s.signals.cancelled
    && m.events == Apply(Claim(q.delivery), s.events) && Executes(c, s, steps, q.delivery)
  }

  lemma ServePast(c: Config, s: State, first: seq<Step>, m: State, u: nat, q: Row, r: Row)
    returns (steps: seq<Step>, n: State)
    requires Quiet(c, s) && Waits(s, r) && !Blocked(s, r) && Served(c, s, first, m, u, q) && q.delivery != r.delivery
    ensures Path(c, s, steps, n) && Quiet(c, n) && Waits(n, r) && !Blocked(n, r)
    ensures n.inflight == s.inflight && n.signals.cancelled <= s.signals.cancelled
    ensures |QueuedIds(n.events)| < |QueuedIds(s.events)|
  {
    var second;
    second, n := ServeOther(c, s.events, m, u, q, r);
    KeyGivenBack(c, s, first, m, u, q, n);
    OtherServed(c, s, m, u, n, r);
    PathConcat(c, s, first, m, second, n);
    steps := first + second;
  }

  lemma KeyGivenBack(c: Config, s: State, first: seq<Step>, m: State, u: nat, q: Row, n: State)
    requires Served(c, s, first, m, u, q) && Finished(m, n, u)
    ensures n.inflight == s.inflight && n.signals.cancelled <= s.signals.cancelled && m.runs.Keys == {u}
  {
    assert KeyOf(m.runs[u].row) == KeyOf(q);
  }

  /** No run of d waits for its slot, and its row is blocked. */
  ghost predicate Stuck(s: State, d: string) {
    (forall t | HasRun(s, t, Waiting) :: s.runs[t].row.delivery != d)
    && exists r | r in s.events :: ActiveRow(r, d) && Blocked(s, r)
  }

  /** Outside shutdown an accepted row that is not stuck can be executed: unless its handler is running now, the
      dispatcher and the runs can by themselves come to it, from every reachable state. */
  lemma NeverBlocked(c: Config, s: State, d: string) returns (steps: seq<Step>)
    requires Sound(c, s) && !s.stopping && Active(s, d) && !HandlerInside(s, d)
    requires !Stuck(Settled(s), d)
    ensures Feasible(c, s, steps) && (forall i | 0 <= i < |steps| :: Internal(steps[i])) && Executes(c, s, steps, d)
  {
    if s.claiming.Some? {
      StaysSound(c, s, ClaimFinish);
      var m := Do(c, s, ClaimFinish);
      FinishClaimCalm(s);
      StepKeepsActive(c, s, ClaimFinish, d);
      NoHandlerEnters(c, s, ClaimFinish, d);
      var rest, z := NeverBlockedCalm(c, m, d);
      PathOne(c, s, ClaimFinish);
      PathConcat(c, s, [ClaimFinish], m, rest, z);
      steps := [ClaimFinish] + rest;
    } else {
      var z;
      steps, z := NeverBlockedCalm(c, s, d);
    }
  }

  /** The state when the claim under way is admitted or put back. */
  function Settled(s: State): State {
    if s.claiming.Some? then FinishClaim(s) else s
  }

  lemma FinishClaimCalm(s: State)
    requires s.claiming.Some?
    ensures var m := FinishClaim(s); m.claiming.None? && m.stopping == s.stopping && m.slots == s.slots
  {
  }

  lemma DrainedRow(c: Config, s: State, steps: seq<Step>, z: State, d: string) returns (r: Row)
    requires Quiet(c, z) && Active(z, d) && !Stuck(s, d) && ExecutesWaiting(c, s, steps) && !Executes(c, s, steps, d)
    requires forall k :: Leaked(z, k) <==> Leaked(s, k)
    requires forall q | q in z.events && q.state == Queued :: q in s.events
    ensures Waits(z, r) && r.delivery == d && !Blocked(z, r)
  {
    r :| r in z.events && ActiveRow(r, d);
    QuietTable(c, z);
    assert r in s.events && !Blocked(s, r);
    StaysUnblocked(s, z, r);
  }

  /** Without a leaked key no row is stuck. */
  lemma NeverStuck(s: State, d: string)
    requires RunsByKey(s) && NoneLeaked(s)
    ensures !Stuck(Settled(s), d)
  {
    if s.claiming.Some? { AdmitLeaksNothing(s); }
    assert forall r :: !Blocked(Settled(s), r);
  }

  lemma NeverBlockedCalm(c: Config, s: State, d: string) returns (steps: seq<Step>, z: State)
    requires Calm(c, s) && Active(s, d) && !HandlerInside(s, d) && !Stuck(s, d)
    ensures Path(c, s, steps, z) && Executes(c, s, steps, d)
  {
    var first, m := Drain(c, s);
    if Executes(c, s, first, d) {
      steps, z := first, m;
    } else {
      KeptWithoutHandler(c, s, first, d);
      var r := DrainedRow(c, s, first, m, d);
      var rest, t;
      rest, z, t := ServeRow(c, m, r);
      PathConcat(c, s, first, m, rest, z);
      steps := first + rest;
    }
  }

  /******* Stuck rows *******/

  /** No issue has the empty key. */
  ghost predicate NamedIssues(c: Config) {
    forall d :: c.issueOf(d) != Some("")
  }

  lemma LeakStays(c: Config, s: State, step: Step, key: string)
    requires RunsByKey(s) && Leaked(s, key) && Enabled(c, s, step) && step != Restart
    ensures Leaked(Do(c, s, step), key)
  {
    if NotOfRuns(step) {
      RunsUntouched(c, s, step);
    } else if step.OfRun? {
      LeakStaysOfRun(c, s, step.task, step.run, key);
    } else {
      assert forall t | t in FinishClaim(s).runs && t != s.nextTask :: t in s.runs;
    }
  }

  lemma LeakStaysOfRun(c: Config, s: State, t: nat, step: RunStep, key: string)
    requires RunsByKey(s) && Leaked(s, key) && RunEnabled(s, t, step)
    ensures Leaked(DoRun(c, s, t, step), key)
  {
    if step.Release? || step.ReleaseSkipped? {
      assert KeyOf(s.runs[t].row) in LiveKeys(s);
    } else {
      RunGoesOn(c, s, t, step);
    }
  }

  /** No run of the delivery has still to mark its row. */
  ghost predicate Idles(s: State, d: string) {
    forall t | HasUnmarkedRun(s, t) :: s.runs[t].row.delivery != d
  }

  lemma StaysIdle(c: Config, s: State, step: Step, d: string)
    requires Idles(s, d) && Enabled(c, s, step)
    requires step.ClaimFinish? ==> s.claiming.value.delivery != d || KeyOf(s.claiming.value) in s.inflight
    ensures Idles(Do(c, s, step), d)
  {
    if NotOfRuns(step) {
      RunsUntouched(c, s, step);
    } else if step.OfRun? && !step.run.Release? && !step.run.ReleaseSkipped? {
      RunGoesOn(c, s, step.task, step.run);
    } else if step.ClaimFinish? {
      assert forall t | HasUnmarkedRun(FinishClaim(s), t) && t in s.runs && t != s.nextTask :: HasUnmarkedRun(s, t);
    }
  }

  /** Nobody but the dispatcher and a restart touches a queued or running row without a handler. */
  lemma RowKept(c: Config, s: State, step: Step, r: Row)
    requires r in s.events && !Inactive(r.state) && !HandlerInside(s, r.delivery) && Enabled(c, s, step)
    requires step != Restart && (step.ClaimBegin? ==> s.events[step.index].delivery != r.delivery)
    requires step.ClaimFinish? ==> s.claiming.value.delivery != r.delivery
    ensures r in Do(c, s, step).events
  {
    match step
    case Outside(x) => RowKeptOutside(c, s, x, r);
    case ClaimBegin(_, i) => UpdateKeepsOther(Claim(s.events[i].delivery), s.events, r);
    case ClaimFinish => UpdateKeepsOther(Requeue(s.claiming.value.delivery, {Running}), s.events, r);
    case OfRun(t, x) => RowKeptOfRun(c, s, t, x, r);
    case OfThread(t, x) =>
      assert WorksOn(s, t, r.delivery) ==> HandlerInside(s, r.delivery);
      if x.WorkerMark? { UpdateKeepsOther(Mark(ThreadOf(s, t), x.state, x.error), s.events, r); }
    case _ =>
  }

  lemma UpdateKeepsOther(u: Update, events: seq<Row>, r: Row)
    requires r in events && UpdateRow(u, r) == r
    ensures r in Apply(u, events)
  {
    var i :| 0 <= i < |events| && events[i] == r;
    assert Apply(u, events)[i] == r;
  }

  lemma RowKeptOutside(c: Config, s: State, step: OutsideStep, r: Row)
    requires r in s.events && !Inactive(r.state) && OutsideEnabled(c, s, step)
    ensures r in DoOutside(s, step).events
  {
    if step.Replay? { UpdateKeepsOther(Requeue(step.delivery, step.from), s.events, r); }
  }

  lemma RowKeptOfRun(c: Config, s: State, t: nat, step: RunStep, r: Row)
    requires r in s.events && !HandlerInside(s, r.delivery) && RunEnabled(s, t, step)
    ensures r in DoRun(c, s, t, step).events
  {
    assert WorksOn(s, t, r.delivery) ==> HandlerInside(s, r.delivery);
    var d := s.runs[t].row.delivery;
    match step
    case Return =>
      if d != r.delivery {
        UpdateKeepsOther(Mark(d, Done, NoReason), s.events, r);
        UpdateKeepsOther(Mark(d, Failed, OperatorCancel), s.events, r);
      }
    case Raise(e, at) =>
      if d != r.delivery {
        UpdateKeepsOther(Mark(d, Failed, OperatorCancel), s.events, r);
        UpdateKeepsOther(Retry(d, at, e), s.events, r);
        UpdateKeepsOther(Mark(d, Failed, e), s.events, r);
      }
    case _ =>
  }

  /** Row q has a leaked key and precedes row r, unless its claim is about to be put back. */
  ghost predicate InFront(s: State, q: Row, r: Row) {
    q in s.events && q.delivery != r.delivery && Leaked(s, KeyOf(q)) && q.receivedAt < r.receivedAt
    && if s.claiming.Some? && s.claiming.value.delivery == q.delivery then q.state == Running
       else q.state == Queued && Precedes(q, r)
  }

  /** No step short of a restart will bring row r to execution. */
  ghost predicate Hopeless(s: State, r: Row) {
    Idles(s, r.delivery) && !HandlerInside(s, r.delivery)
    && (s.stopping || Leaked(s, KeyOf(r)) || Behind(s, r))
  }

  lemma SameKey(c: Config, a: Row, b: Row)
    requires SameIssue(c, a) && SameIssue(c, b) && a.delivery == b.delivery
    ensures KeyOf(a) == KeyOf(b)
  {
  }

  /** No run has the delivery of a row whose key is leaked. */
  lemma LeakedIsFree(c: Config, s: State, q: Row)
    requires Inv(c, s) && !s.stopping && SameIssue(c, q) && Leaked(s, KeyOf(q))
    ensures Idles(s, q.delivery) && !HandlerInside(s, q.delivery)
  {
    assert forall t | t in s.runs :: KeyOf(s.runs[t].row) in LiveKeys(s) && SameIssue(c, s.runs[t].row);
    forall t | t in s.runs ensures s.runs[t].row.delivery != q.delivery {
      if s.runs[t].row.delivery == q.delivery { SameKey(c, q, s.runs[t].row); }
    }
  }

  /** As long as row q is in front, it is eligible, so row r is not the next. */
  lemma NotNext(c: Config, s: State, q: Row, r: Row, now: int, i: nat)
    requires Inv(c, s) && NamedIssues(c) && !s.stopping && s.claiming.None? && InFront(s, q, r)
    requires r in s.events && IsNext(s.events, now, i)
    ensures s.events[i].delivery != r.delivery
  {
    if s.events[i].delivery == r.delivery {
      SameRow(s.events);
      assert s.events[i] == r;
      var j :| 0 <= j < |s.events| && s.events[j] == q;
      forall k | 0 <= k < |s.events| && s.events[k].state == Running ensures s.events[k].issueKey != q.issueKey {
        if s.events[k].issueKey == q.issueKey { RunningNotLeaked(c, s, s.events[k], q); }
      }
      assert Eligible(s.events, now, j);
    }
  }

  lemma RunningNotLeaked(c: Config, s: State, p: Row, q: Row)
    requires Inv(c, s) && NamedIssues(c) && !s.stopping && s.claiming.None?
    requires p in s.events && p.state == Running && q in s.events && p.issueKey == q.issueKey
    ensures q.issueKey.Some? ==> !Leaked(s, KeyOf(q))
  {
    assert Owned(s, p.delivery);
    var t :| HasUnmarkedRun(s, t) && s.runs[t].row.delivery == p.delivery;
    assert SameIssue(c, p) && SameIssue(c, q) && SameIssue(c, s.runs[t].row);
    assert KeyOf(s.runs[t].row) in LiveKeys(s);
    assert c.issueOf(p.delivery) != Some("");
  }

  lemma SameClaim(c: Config, s: State, step: Step)
    requires Enabled(c, s, step) && !step.ClaimBegin? && !step.ClaimFinish? && step != StopBegin && step != Restart
    ensures Do(c, s, step).claiming == s.claiming && Do(c, s, step).stopping == s.stopping
  {
    match step
    case Outside(x) => assert Do(c, s, step) == DoOutside(s, x);
    case OfRun(t, x) => SameClaimOfRun(c, s, t, x);
    case OfThread(t, x) => assert Do(c, s, step) == DoThread(s, t, x);
    case Signal(x) => assert Do(c, s, step) == DoSignal(s, x);
    case Sweep(x) => assert Do(c, s, step) == DoSweep(s, x);
    case _ =>
  }

  lemma SameClaimOfRun(c: Config, s: State, t: nat, step: RunStep)
    requires RunEnabled(s, t, step)
    ensures DoRun(c, s, t, step).claiming == s.claiming && DoRun(c, s, t, step).stopping == s.stopping
  {
  }

  lemma FrontStays(c: Config, s: State, step: Step, q: Row, r: Row) returns (p: Row)
    requires Inv(c, s) && !s.stopping && InFront(s, q, r) && Enabled(c, s, step) && step != StopBegin && step != Restart
    ensures InFront(Do(c, s, step), p, r)
  {
    LeakedIsFree(c, s, q);
    LeakStays(c, s, step, KeyOf(q));
    if step.ClaimBegin? && s.events[step.index].delivery == q.delivery {
      p := UpdateRow(Claim(q.delivery), q);
      FrontClaimed(c, s, step.index, q, r);
    } else if step.ClaimFinish? && s.claiming.value.delivery == q.delivery {
      p := q.(state := Queued, availableAt := None);
      FrontBounced(c, s, q, r);
    } else {
      p := q;
      RowKept(c, s, step, q);
      if !step.ClaimBegin? && !step.ClaimFinish? { SameClaim(c, s, step); }
    }
  }

  lemma FrontClaimed(c: Config, s: State, i: nat, q: Row, r: Row)
    requires Inv(c, s) && InFront(s, q, r) && s.claiming.None? && i < |s.events| && s.events[i].delivery == q.delivery
    requires Leaked(BeginClaim(s, i), KeyOf(q))
    ensures InFront(BeginClaim(s, i), UpdateRow(Claim(q.delivery), q), r)
  {
    var j :| 0 <= j < |s.events| && s.events[j] == q;
    assert Apply(Claim(q.delivery), s.events)[j] == UpdateRow(Claim(q.delivery), q);
  }

  lemma FrontBounced(c: Config, s: State, q: Row, r: Row)
    requires Inv(c, s) && InFront(s, q, r) && s.claiming.Some? && s.claiming.value.delivery == q.delivery
    requires Leaked(FinishClaim(s), KeyOf(q))
    ensures InFront(FinishClaim(s), q.(state := Queued, availableAt := None), r)
  {
    SameKey(c, q, s.claiming.value);
    var j :| 0 <= j < |s.events| && s.events[j] == q;
    assert Apply(Requeue(q.delivery, {Running}), s.events)[j] == q.(state := Queued, availableAt := None);
  }

  /** A claim of row r is not admitted. */
  lemma HopelessClaim(c: Config, s: State, r: Row)
    requires Inv(c, s) && SameIssue(c, r) && Hopeless(s, r)
    requires s.claiming.Some? && s.claiming.value.delivery == r.delivery
    ensures KeyOf(s.claiming.value) in s.inflight
  {
    SameKey(c, r, s.claiming.value);
  }

  lemma HopelessStep(c: Config, s: State, step: Step, r: Row)
    requires Inv(c, s) && NamedIssues(c) && SameIssue(c, r) && Hopeless(s, r) && Enabled(c, s, step) && step != Restart
    ensures Hopeless(Do(c, s, step), r)
  {
    var z := Do(c, s, step);
    if s.claiming.Some? && s.claiming.value.delivery == r.delivery { HopelessClaim(c, s, r); }
    StaysIdle(c, s, step, r.delivery);
    NoHandlerEnters(c, s, step, r.delivery);
    if s.stopping || step == StopBegin {
      StaysStopping(c, s, step);
    } else if Leaked(s, KeyOf(r)) {
      LeakStays(c, s, step, KeyOf(r));
    } else {
      HopelessBehind(c, s, step, r);
    }
  }

  /** Row r is queued, and a row with a leaked key is in front of it. */
  ghost predicate Behind(s: State, r: Row) {
    r in s.events && r.state == Queued && (s.claiming.Some? ==> s.claiming.value.delivery != r.delivery)
    && exists q :: InFront(s, q, r)
  }

  lemma HopelessBehind(c: Config, s: State, step: Step, r: Row)
    requires Inv(c, s) && NamedIssues(c) && !s.stopping && Behind(s, r) && !HandlerInside(s, r.delivery)
    requires Enabled(c, s, step) && step != StopBegin && step != Restart
    ensures Behind(Do(c, s, step), r)
  {
    var q :| InFront(s, q, r);
    if step.ClaimBegin? { NotNext(c, s, q, r, step.now, step.index); }
    RowKept(c, s, step, r);
    var p := FrontStays(c, s, step, q, r);
    if !step.ClaimBegin? && !step.ClaimFinish? { SameClaim(c, s, step); }
  }

  lemma StaysStopping(c: Config, s: State, step: Step)
    requires s.stopping || step == StopBegin
    requires Enabled(c, s, step) && step != Restart
    ensures Do(c, s, step).stopping
  {
  }

  lemma {:induction false} HopelessRun(c: Config, s: State, steps: seq<Step>, r: Row)
    requires Sound(c, s) && NamedIssues(c) && SameIssue(c, r) && Hopeless(s, r)
    requires Feasible(c, s, steps) && Restart !in steps
    ensures !Executes(c, s, steps, r.delivery)
    decreases |steps|
  {
    if steps != [] {
      StaysSound(c, s, steps[0]);
      HopelessStep(c, s, steps[0], r);
      HopelessRun(c, Do(c, s, steps[0]), steps[1..], r);
    }
  }

  /** Some continuation without a restart executes the row. */
  ghost predicate CanExecute(c: Config, s: State, d: string) {
    exists steps :: Feasible(c, s, steps) && Restart !in steps && Executes(c, s, steps, d)
  }

  lemma StuckIsHopeless(c: Config, s: State, d: string, r: Row)
    requires Calm(c, s) && r in s.events && ActiveRow(r, d) && Blocked(s, r) && !HandlerInside(s, d)
    requires forall t | HasRun(s, t, Waiting) :: s.runs[t].row.delivery != d
    ensures Hopeless(s, r)
  {
    forall t | HasUnmarkedRun(s, t) ensures s.runs[t].row.delivery != d {
      assert WorksOn(s, t, d) ==> HandlerInside(s, d);
    }
    assert !Owned(s, d);
    if !Leaked(s, KeyOf(r)) {
      var q :| Blocks(s, q, r);
      SameRow(s.events);
      assert InFront(s, q, r);
    }
  }

  /** An accepted row without a handler can be executed before the next restart if and only if it is not stuck: once
      a clean-up has failed to release its key, neither the rows of that key nor any row they precede are executed,
      whatever is delivered, replayed, cancelled or pruned. */
  lemma StuckIff(c: Config, s: State, d: string)
    requires Calm(c, s) && NamedIssues(c) && Active(s, d) && !HandlerInside(s, d)
    ensures CanExecute(c, s, d) <==> !Stuck(s, d)
  {
    if Stuck(s, d) {
      var r :| r in s.events && ActiveRow(r, d) && Blocked(s, r);
      StuckIsHopeless(c, s, d, r);
      forall steps | Feasible(c, s, steps) && Restart !in steps ensures !Executes(c, s, steps, d) {
        HopelessRun(c, s, steps, r);
      }
    } else {
      var steps := NeverBlocked(c, s, d);
      forall i | 0 <= i < |steps| ensures steps[i] != Restart { assert Internal(steps[i]); }
      assert Restart !in steps;
    }
  }
}
