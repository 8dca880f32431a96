/** Handler executions are bounded once nothing new is triggered, and redispatches are capped. */
module EventQueueProgress {
  import opened Basics
  import opened EventQueue
  import opened EventQueueSafety

  /******* The measure *******/

  /** Executions a queued row with `a` claims behind it can still cause by itself. */
  function Queueable(c: Config, a: nat): nat {
    if a < c.maxRetries then c.maxRetries - a + 1 else 1
  }

  /** Executions the row of a delivery can cause once it is queued again; a redispatch row may still be to come. */
  function Left(c: Config, events: seq<Row>, d: string): nat {
    if events == [] then (if IsRedispatch(d) then c.maxRetries + 1 else 0)
    else if events[0].delivery == d then Queueable(c, events[0].attempts)
    else Left(c, events[1..], d)
  }

  /** Executions a retry by the holder of this claim can cause. */
  function RetryLeft(c: Config, events: seq<Row>, claim: Row): nat {
    if claim.attempts <= c.maxRetries then Left(c, events, claim.delivery) else 0
  }

  function RowShare(c: Config, r: Row): nat {
    if r.state == Queued then Queueable(c, r.attempts) else 0
  }

  function TableShare(c: Config, events: seq<Row>): nat {
    if events == [] then 0 else RowShare(c, events[0]) + TableShare(c, events[1..])
  }

  /** The claim is bounced, or admitted. */
  function ClaimShare(c: Config, events: seq<Row>, claiming: Option<Row>): nat {
    if claiming.None? then 0
    else
      var admitted := 1 + RetryLeft(c, events, claiming.value);
      var bounced := Left(c, events, claiming.value.delivery);
      if bounced < admitted then admitted else bounced
  }

  function RunShare(c: Config, events: seq<Row>, r: Run): nat {
    match r.phase
    case Waiting => 1 + RetryLeft(c, events, r.row)
    case Dispatching => RetryLeft(c, events, r.row)
    case _ => 0
  }

  function RunsShare(c: Config, events: seq<Row>, runs: map<nat, Run>, n: nat): nat {
    if n == 0 then 0
    else RunsShare(c, events, runs, n - 1) + if n - 1 in runs then RunShare(c, events, runs[n - 1]) else 0
  }

  /** Redispatch ids the sweeper may still insert for the issues in keys. */
  ghost function Unspent(c: Config, events: seq<Row>, keys: set<string>): set<(string, nat)> {
    set k, n: nat | k in keys && 1 <= n <= c.cap && !Has(events, RedispatchId(k, n)) :: (k, n)
  }

  function Product(a: nat, b: nat): nat { a * b }

  ghost function UnspentShare(c: Config, events: seq<Row>, keys: set<string>): nat {
    Product(|Unspent(c, events, keys)|, c.maxRetries + 1)
  }

  ghost function Potential(c: Config, s: State, keys: set<string>): nat {
    TableShare(c, s.events) + ClaimShare(c, s.events, s.claiming) + RunsShare(c, s.events, s.runs, s.nextTask)
    + UnspentShare(c, s.events, keys)
  }

  /** Steps of a system that gets no new triggers, replays or restarts, and whose retention does not
      delete rows of the redispatch sweep. */
  predicate ClosedStep(step: Step) {
    match step
    case Outside(x) => x.SetIssue? || (x.Prune? && !IsRedispatch(x.delivery))
    case Restart => false
    case _ => true
  }

  /** The issues of all rows and sweep candidates are among keys. */
  ghost predicate KeysWithin(c: Config, s: State, keys: set<string>) {
    && (forall r | r in s.events && r.issueKey.Some? :: r.issueKey.value in keys)
    && (forall x | x in s.sweep :: x.key in keys && (x.Checked? ==> x.spent < c.cap))
  }

  /******* Sums *******/

  /** One row changed; no other row counts for more than before. */
  lemma {:induction false} TableShareChange(c: Config, before: seq<Row>, after: seq<Row>, i: nat)
    requires |before| == |after| && i < |before|
    requires forall j | 0 <= j < |before| && j != i :: RowShare(c, after[j]) <= RowShare(c, before[j])
    ensures TableShare(c, after) + RowShare(c, before[i]) <= TableShare(c, before) + RowShare(c, after[i])
  {
    if i == 0 {
      TableShareMonotone(c, before[1..], after[1..]);
    } else {
      assert RowShare(c, after[0]) <= RowShare(c, before[0]);
      TableShareChange(c, before[1..], after[1..], i - 1);
    }
  }

  lemma {:induction false} TableShareMonotone(c: Config, before: seq<Row>, after: seq<Row>)
    requires |before| == |after|
    requires forall j | 0 <= j < |before| :: RowShare(c, after[j]) <= RowShare(c, before[j])
    ensures TableShare(c, after) <= TableShare(c, before)
  {
    if before != [] {
      assert RowShare(c, after[0]) <= RowShare(c, before[0]);
      TableShareMonotone(c, before[1..], after[1..]);
    }
  }

  lemma {:induction false} TableShareAppend(c: Config, events: seq<Row>, row: Row)
    ensures TableShare(c, events + [row]) == TableShare(c, events) + RowShare(c, row)
  {
    if events != [] {
      assert (events + [row])[1..] == events[1..] + [row];
      TableShareAppend(c, events[1..], row);
    } else {
      assert events + [row] == [row] && [row][1..] == [];
    }
  }

  lemma {:induction false} TableShareWithout(c: Config, events: seq<Row>, d: string)
    ensures TableShare(c, Without(events, d)) <= TableShare(c, events)
  {
    if events != [] {
      TableShareWithout(c, events[1..], d);
      var rest := Without(events[1..], d);
      assert ([events[0]] + rest)[1..] == rest;
    }
  }

  lemma {:induction false} RunsShareChange(c: Config, events: seq<Row>, runs: map<nat, Run>, t: nat, r: Run, n: nat)
    requires t in runs && t < n
    ensures RunsShare(c, events, runs[t := r], n) + RunShare(c, events, runs[t])
      == RunsShare(c, events, runs, n) + RunShare(c, events, r)
  {
    if t == n - 1 {
      RunsShareSame(c, events, runs, runs[t := r], n - 1);
    } else {
      RunsShareChange(c, events, runs, t, r, n - 1);
    }
  }

  lemma {:induction false} RunsShareSame(c: Config, events: seq<Row>, runs: map<nat, Run>, runs': map<nat, Run>, n: nat)
    requires forall t | t < n :: (t in runs <==> t in runs') && (t in runs ==> runs[t] == runs'[t])
    ensures RunsShare(c, events, runs, n) == RunsShare(c, events, runs', n)
  {
    if n > 0 { RunsShareSame(c, events, runs, runs', n - 1); }
  }

  lemma {:induction false} RunsShareRemove(c: Config, events: seq<Row>, runs: map<nat, Run>, t: nat, n: nat)
    ensures RunsShare(c, events, runs - {t}, n) <= RunsShare(c, events, runs, n)
  {
    if n > 0 { RunsShareRemove(c, events, runs, t, n - 1); }
  }

  /******* What is left of a delivery *******/

  ghost predicate NoMoreLeft(c: Config, before: seq<Row>, after: seq<Row>) {
    forall d :: Left(c, after, d) <= Left(c, before, d)
  }

  lemma {:induction false} RunsShareLess(c: Config, before: seq<Row>, after: seq<Row>, runs: map<nat, Run>, n: nat)
    requires NoMoreLeft(c, before, after)
    ensures RunsShare(c, after, runs, n) <= RunsShare(c, before, runs, n)
  {
    if n > 0 { RunsShareLess(c, before, after, runs, n - 1); }
  }

  lemma {:induction false} LeftUpdated(c: Config, u: Update, events: seq<Row>, d: string)
    ensures Left(c, Apply(u, events), d) <= Left(c, events, d)
  {
    if events != [] {
      LeftUpdated(c, u, events[1..], d);
      assert Apply(u, events)[1..] == Apply(u, events[1..]);
    }
  }

  lemma UpdateLeavesLess(c: Config, u: Update, events: seq<Row>)
    ensures NoMoreLeft(c, events, Apply(u, events))
  {
    forall d ensures Left(c, Apply(u, events), d) <= Left(c, events, d) { LeftUpdated(c, u, events, d); }
  }

  lemma {:induction false} LeftAt(c: Config, events: seq<Row>, i: nat)
    requires TableOk(events) && i < |events|
    ensures Left(c, events, events[i].delivery) == Queueable(c, events[i].attempts)
  {
    if i > 0 {
      assert Compatible(events[0], events[i]);
      TailKeepsTable(events);
      LeftAt(c, events[1..], i - 1);
    }
  }

  lemma {:induction false} LeftAppended(c: Config, events: seq<Row>, row: Row, d: string)
    requires IsRedispatch(row.delivery) && row.attempts == 0
    ensures Left(c, events + [row], d) <= Left(c, events, d)
  {
    if events == [] {
      assert events + [row] == [row] && [row][1..] == [];
    } else {
      assert (events + [row])[1..] == events[1..] + [row];
      LeftAppended(c, events[1..], row, d);
    }
  }

  lemma {:induction false} LeftWithout(c: Config, events: seq<Row>, e: string, d: string)
    requires !IsRedispatch(e) && TableOk(events)
    ensures Left(c, Without(events, e), d) <= Left(c, events, d)
  {
    if events != [] {
      TailKeepsTable(events);
      LeftWithout(c, events[1..], e, d);
      var rest := Without(events[1..], e);
      assert ([events[0]] + rest)[1..] == rest;
      if events[0].delivery == e == d { LeftAbsent(c, rest, d); }
    }
  }

  lemma {:induction false} LeftAbsent(c: Config, events: seq<Row>, d: string)
    requires forall r | r in events :: r.delivery != d
    ensures Left(c, events, d) == if IsRedispatch(d) then c.maxRetries + 1 else 0
  {
    if events != [] { LeftAbsent(c, events[1..], d); }
  }

  /******* One update *******/

  /** An update of one delivery: no row counts more except possibly that delivery's. */
  lemma UpdateShare(c: Config, events: seq<Row>, u: Update, d: string, extra: nat)
    requires TableOk(events)
    requires forall r | r in events && r.delivery != d :: UpdateRow(u, r) == r
    requires forall r | r in events && r.delivery == d :: RowShare(c, UpdateRow(u, r)) <= RowShare(c, r) + extra
    ensures TableShare(c, Apply(u, events)) <= TableShare(c, events) + extra
  {
    var after := Apply(u, events);
    if Has(events, d) {
      var i :| 0 <= i < |events| && events[i].delivery == d;
      forall j | 0 <= j < |events| && j != i ensures RowShare(c, after[j]) <= RowShare(c, events[j]) {
        if i < j { assert Compatible(events[i], events[j]); } else { assert Compatible(events[j], events[i]); }
        assert events[j] in events;
      }
      assert events[i] in events;
      TableShareChange(c, events, after, i);
    } else {
      forall j | 0 <= j < |events| ensures RowShare(c, after[j]) <= RowShare(c, events[j]) {
        assert events[j] in events;
      }
      TableShareMonotone(c, events, after);
    }
  }

  lemma SameDeliveries(u: Update, events: seq<Row>, d: string)
    ensures Has(Apply(u, events), d) == Has(events, d)
  {
    var after := Apply(u, events);
    assert forall i | 0 <= i < |events| :: after[i].delivery == events[i].delivery;
  }

  lemma SameUnspent(c: Config, u: Update, events: seq<Row>, keys: set<string>)
    ensures Unspent(c, Apply(u, events), keys) == Unspent(c, events, keys)
  {
    forall k, n: nat ensures Has(Apply(u, events), RedispatchId(k, n)) == Has(events, RedispatchId(k, n)) {
      SameDeliveries(u, events, RedispatchId(k, n));
    }
  }

  /** Updates that never leave a row counting more than before. */
  lemma MarkShare(c: Config, events: seq<Row>, u: Update, keys: set<string>)
    requires u.Mark? && u.state != Queued
    ensures TableShare(c, Apply(u, events)) <= TableShare(c, events)
    ensures Unspent(c, Apply(u, events), keys) == Unspent(c, events, keys)
  {
    TableShareMonotone(c, events, Apply(u, events));
    SameUnspent(c, u, events, keys);
  }

  /******* Steps *******/

  /** The table and what is left of its deliveries did not grow; claim and runs are the same. */
  lemma TablePotential(c: Config, s: State, s': State, keys: set<string>)
    requires TableShare(c, s'.events) + UnspentShare(c, s'.events, keys)
      <= TableShare(c, s.events) + UnspentShare(c, s.events, keys)
    requires NoMoreLeft(c, s.events, s'.events)
    requires s'.claiming == s.claiming && s'.runs == s.runs && s'.nextTask == s.nextTask
    ensures Potential(c, s', keys) <= Potential(c, s, keys)
  {
    RunsShareLess(c, s.events, s'.events, s.runs, s.nextTask);
  }

  lemma UpdatePotential(c: Config, s: State, u: Update, s': State, keys: set<string>)
    requires u.Mark? && u.state != Queued && s' == s.(events := Apply(u, s.events))
    ensures Potential(c, s', keys) <= Potential(c, s, keys)
  {
    MarkShare(c, s.events, u, keys);
    UpdateLeavesLess(c, u, s.events);
    TablePotential(c, s, s', keys);
  }

  lemma ClaimBeginPotential(c: Config, s: State, i: nat, keys: set<string>)
    requires TableOk(s.events) && s.claiming.None? && i < |s.events| && s.events[i].state == Queued
    ensures Potential(c, BeginClaim(s, i), keys) <= Potential(c, s, keys)
  {
    var u := Claim(s.events[i].delivery);
    var after := Apply(u, s.events);
    ClaimTableShare(c, s.events, i);
    SameUnspent(c, u, s.events, keys);
    UpdateLeavesLess(c, u, s.events);
    RunsShareLess(c, s.events, after, s.runs, s.nextTask);
    LeftClaimed(c, s.events, i);
  }

  lemma ClaimTableShare(c: Config, events: seq<Row>, i: nat)
    requires TableOk(events) && i < |events| && events[i].state == Queued
    ensures TableShare(c, Apply(Claim(events[i].delivery), events)) + Queueable(c, events[i].attempts)
      <= TableShare(c, events)
  {
    var after := Apply(Claim(events[i].delivery), events);
    forall j | 0 <= j < |events| && j != i ensures RowShare(c, after[j]) <= RowShare(c, events[j]) {
      if i < j { assert Compatible(events[i], events[j]); } else { assert Compatible(events[j], events[i]); }
    }
    TableShareChange(c, events, after, i);
  }

  /** The claimed row has one attempt more. */
  lemma {:induction false} LeftClaimed(c: Config, events: seq<Row>, i: nat)
    requires TableOk(events) && i < |events|
    ensures var d := events[i].delivery; Left(c, Apply(Claim(d), events), d) == Queueable(c, events[i].attempts + 1)
  {
    var d := events[i].delivery;
    if i > 0 {
      assert Compatible(events[0], events[i]);
      TailKeepsTable(events);
      LeftClaimed(c, events[1..], i - 1);
      assert Apply(Claim(d), events)[1..] == Apply(Claim(d), events[1..]);
    }
  }

  /** Putting the row of a delivery back costs no more than was left of it. */
  lemma QueueAgain(c: Config, events: seq<Row>, u: Update, d: string, keys: set<string>)
    requires TableOk(events) && ((u.Requeue? && u.delivery == d) || (u.Retry? && u.delivery == d))
    ensures TableShare(c, Apply(u, events)) <= TableShare(c, events) + Left(c, events, d)
    ensures Unspent(c, Apply(u, events), keys) == Unspent(c, events, keys)
    ensures NoMoreLeft(c, events, Apply(u, events))
  {
    forall r | r in events && r.delivery == d
      ensures RowShare(c, UpdateRow(u, r)) <= RowShare(c, r) + Left(c, events, d) {
      var i :| 0 <= i < |events| && events[i] == r;
      LeftAt(c, events, i);
    }
    UpdateShare(c, events, u, d, Left(c, events, d));
    SameUnspent(c, u, events, keys);
    UpdateLeavesLess(c, u, events);
  }

  lemma ClaimFinishPotential(c: Config, s: State, keys: set<string>)
    requires TableOk(s.events) && RunsByKey(s) && s.claiming.Some?
    ensures Potential(c, FinishClaim(s), keys) <= Potential(c, s, keys)
  {
    var row := s.claiming.value;
    if KeyOf(row) in s.inflight {
      BouncePotential(c, s, row, keys);
    } else {
      RunsShareSame(c, s.events, s.runs, Admit(s, row).runs, s.nextTask);
      assert Admit(s, row).events == s.events;
    }
  }

  lemma BouncePotential(c: Config, s: State, row: Row, keys: set<string>)
    requires TableOk(s.events) && s.claiming == Some(row)
    ensures Potential(c, Bounce(s, row), keys) <= Potential(c, s, keys)
  {
    var u := Requeue(row.delivery, {Running});
    QueueAgain(c, s.events, u, row.delivery, keys);
    RunsShareLess(c, s.events, Apply(u, s.events), s.runs, s.nextTask);
  }

  /** One run changed its share, and the table paid or was paid. */
  lemma PhasePotential(c: Config, s: State, t: nat, run: Run, s': State, keys: set<string>)
    requires t in s.runs && t < s.nextTask && NoMoreLeft(c, s.events, s'.events)
    requires s'.runs == s.runs[t := run] && s'.nextTask == s.nextTask && s'.claiming == s.claiming
    requires Unspent(c, s'.events, keys) == Unspent(c, s.events, keys)
    requires TableShare(c, s'.events) + RunShare(c, s.events, run)
      <= TableShare(c, s.events) + RunShare(c, s.events, s.runs[t])
    ensures Potential(c, s', keys) <= Potential(c, s, keys)
  {
    RunsShareChange(c, s.events, s.runs, t, run, s.nextTask);
    RunsShareLess(c, s.events, s'.events, s'.runs, s.nextTask);
  }

  lemma AcquirePotential(c: Config, s: State, t: nat, keys: set<string>)
    requires RunsByKey(s) && RunEnabled(s, t, AcquireSlot)
    ensures Acquire(s, t).executions + Potential(c, Acquire(s, t), keys) <= s.executions + Potential(c, s, keys)
  {
    RunsShareChange(c, s.events, s.runs, t, Acquire(s, t).runs[t], s.nextTask);
    assert Acquire(s, t).runs == s.runs[t := Acquire(s, t).runs[t]];
  }

  lemma MarkedPotential(c: Config, s: State, t: nat, st: EventState, e: Reason, keys: set<string>)
    requires RunsByKey(s) && HasRun(s, t, Dispatching) && st != Queued
    ensures Potential(c, s.(events :=
      Apply(Mark(s.runs[t].row.delivery, st, e), s.events), runs := SetPhase(s, t, Marked)), keys)
      <= Potential(c, s, keys)
  {
    var u := Mark(s.runs[t].row.delivery, st, e);
    MarkShare(c, s.events, u, keys);
    UpdateLeavesLess(c, u, s.events);
    PhasePotential(c, s, t, s.runs[t].(phase := Marked),
      s.(events := Apply(u, s.events), runs := SetPhase(s, t, Marked)), keys);
  }

  lemma RetriedPotential(c: Config, s: State, t: nat, e: Reason, at: int, keys: set<string>)
    requires TableOk(s.events) && RunsByKey(s) && HasRun(s, t, Dispatching) && s.runs[t].row.attempts <= c.maxRetries
    ensures Potential(c, s.(events :=
      Apply(Retry(s.runs[t].row.delivery, at, e), s.events), runs := SetPhase(s, t, Marked)), keys)
      <= Potential(c, s, keys)
  {
    var u := Retry(s.runs[t].row.delivery, at, e);
    QueueAgain(c, s.events, u, s.runs[t].row.delivery, keys);
    PhasePotential(c, s, t, s.runs[t].(phase := Marked),
      s.(events := Apply(u, s.events), runs := SetPhase(s, t, Marked)), keys);
  }

  lemma SamePhasePotential(c: Config, s: State, t: nat, run: Run, s': State, keys: set<string>)
    requires RunsByKey(s) && t in s.runs && RunShare(c, s.events, run) <= RunShare(c, s.events, s.runs[t])
    requires s'.runs == s.runs[t := run] && s'.nextTask == s.nextTask && s'.claiming == s.claiming
    requires s'.events == s.events
    ensures Potential(c, s', keys) <= Potential(c, s, keys)
  {
    PhasePotential(c, s, t, run, s', keys);
  }

  lemma ReturnPotential(c: Config, s: State, t: nat, keys: set<string>)
    requires RunsByKey(s) && RunEnabled(s, t, Return)
    ensures Potential(c, DoRun(c, s, t, Return), keys) <= Potential(c, s, keys)
  {
    var run := s.runs[t];
    if !run.row.control && run.row.delivery in s.signals.cancelled {
      MarkedPotential(c, s, t, Failed, OperatorCancel, keys);
    } else if MarkReturned(s.signals.cancelled, run, s.events) == s.events {
      SamePhasePotential(c, s, t, run.(phase := Marked), DoRun(c, s, t, Return), keys);
    } else {
      MarkedPotential(c, s, t, Done, NoReason, keys);
    }
  }

  lemma RaisePotential(c: Config, s: State, t: nat, e: Reason, at: int, keys: set<string>)
    requires TableOk(s.events) && RunsByKey(s) && RunEnabled(s, t, Raise(e, at))
    ensures Potential(c, DoRun(c, s, t, Raise(e, at)), keys) <= Potential(c, s, keys)
  {
    var row := s.runs[t].row;
    var z := DoRun(c, s, t, Raise(e, at));
    if row.delivery in s.shutdownCancelled {
      SamePhasePotential(c, s, t, s.runs[t].(phase := Marked), z, keys);
    } else if row.delivery in s.signals.cancelled {
      MarkedPotential(c, s, t, Failed, OperatorCancel, keys);
    } else if 0 < row.attempts <= c.maxRetries && CanMove(s.events, row.delivery, {Running, Failed}) {
      RetriedPotential(c, s, t, e, at, keys);
    } else {
      MarkedPotential(c, s, t, Failed, e, keys);
    }
  }

  lemma LeavePotential(c: Config, s: State, t: nat, step: RunStep, keys: set<string>)
    requires RunsByKey(s) && RunEnabled(s, t, step) && (step.Release? || step.ReleaseSkipped?)
    ensures Potential(c, DoRun(c, s, t, step), keys) <= Potential(c, s, keys)
  {
    RunsShareRemove(c, s.events, s.runs, t, s.nextTask);
  }

  lemma RunPotential(c: Config, s: State, t: nat, step: RunStep, keys: set<string>)
    requires TableOk(s.events) && RunsByKey(s) && RunEnabled(s, t, step)
    ensures DoRun(c, s, t, step).executions + Potential(c, DoRun(c, s, t, step), keys)
      <= s.executions + Potential(c, s, keys)
  {
    var s' := DoRun(c, s, t, step);
    match step
    case AcquireSlot => AcquirePotential(c, s, t, keys);
    case Return => ReturnPotential(c, s, t, keys);
    case Raise(e, at) => RaisePotential(c, s, t, e, at, keys);
    case TaskCancelled => SamePhasePotential(c, s, t, s.runs[t].(phase := Marked), s', keys);
    case Finalize => SamePhasePotential(c, s, t, s.runs[t].(phase := Closing, slot := None), s', keys);
    case _ => LeavePotential(c, s, t, step, keys);
  }

  lemma {:induction false} ProductGrows(a: nat, b: nat, m: nat)
    requires a + 1 <= b
    ensures Product(a, m) + m <= Product(b, m)
  {
    if m > 0 { ProductGrows(a, b, m - 1); }
    calc {
      a * m + m;
      (a + 1) * m;
    }
  }

  lemma InsertUsesId(c: Config, events: seq<Row>, row: Row, key: string, n: nat, keys: set<string>)
    requires key in keys && 1 <= n <= c.cap && row.delivery == RedispatchId(key, n) && !Has(events, row.delivery)
    ensures UnspentShare(c, events + [row], keys) + (c.maxRetries + 1) <= UnspentShare(c, events, keys)
  {
    UnspentShrinks(c, events, row, key, n, keys);
    ShareDrops(c, events, events + [row], keys);
  }

  lemma ShareDrops(c: Config, before: seq<Row>, after: seq<Row>, keys: set<string>)
    requires |Unspent(c, after, keys)| + 1 <= |Unspent(c, before, keys)|
    ensures UnspentShare(c, after, keys) + (c.maxRetries + 1) <= UnspentShare(c, before, keys)
  {
    ProductGrows(|Unspent(c, after, keys)|, |Unspent(c, before, keys)|, c.maxRetries + 1);
  }

  lemma UnspentShrinks(c: Config, events: seq<Row>, row: Row, key: string, n: nat, keys: set<string>)
    requires key in keys && 1 <= n <= c.cap && row.delivery == RedispatchId(key, n) && !Has(events, row.delivery)
    ensures |Unspent(c, events + [row], keys)| + 1 <= |Unspent(c, events, keys)|
  {
    var before, after := Unspent(c, events, keys), Unspent(c, events + [row], keys);
    HasAppended(events, row);
    assert (key, n) in before;
    assert after <= before - {(key, n)};
    SubsetSize(after, before - {(key, n)});
  }

  lemma HasAppended(events: seq<Row>, row: Row)
    ensures Has(events + [row], row.delivery)
    ensures forall d | Has(events, d) :: Has(events + [row], d)
  {
    var after := events + [row];
    assert after[|events|].delivery == row.delivery;
    forall d | Has(events, d) ensures Has(after, d) {
      var i :| 0 <= i < |events| && events[i].delivery == d;
      assert after[i] == events[i];
    }
  }

  /** A redispatch row pays for its executions with the id it uses up. */
  lemma InsertPotential(c: Config, s: State, key: string, spent: nat, control: bool, now: int, keys: set<string>)
    requires key in keys && spent < c.cap
    ensures Potential(c, s.(events :=
      Record(s.events, RedispatchRow(key, spent, control, now))), keys) <= Potential(c, s, keys)
  {
    var row := RedispatchRow(key, spent, control, now);
    if !Has(s.events, row.delivery) {
      TableShareAppend(c, s.events, row);
      InsertUsesId(c, s.events, row, key, spent + 1, keys);
      forall d ensures Left(c, s.events + [row], d) <= Left(c, s.events, d) { LeftAppended(c, s.events, row, d); }
      TablePotential(c, s, s.(events := s.events + [row]), keys);
    }
  }

  lemma PrunePotential(c: Config, s: State, d: string, keys: set<string>)
    requires !IsRedispatch(d) && TableOk(s.events)
    ensures Potential(c, DoOutside(s, Prune(d)), keys) <= Potential(c, s, keys)
  {
    TableShareWithout(c, s.events, d);
    var rest := Without(s.events, d);
    forall k, n: nat ensures Has(rest, RedispatchId(k, n)) == Has(s.events, RedispatchId(k, n)) {
      WithoutKeepsOthers(s.events, d, RedispatchId(k, n));
    }
    UnspentSame(c, s.events, rest, keys);
    forall e ensures Left(c, rest, e) <= Left(c, s.events, e) { LeftWithout(c, s.events, d, e); }
    TablePotential(c, s, s.(events := rest), keys);
  }

  lemma UnspentSame(c: Config, events: seq<Row>, after: seq<Row>, keys: set<string>)
    requires forall k, n: nat :: Has(after, RedispatchId(k, n)) == Has(events, RedispatchId(k, n))
    ensures Unspent(c, after, keys) == Unspent(c, events, keys)
  {
  }

  lemma WithoutKeepsOthers(events: seq<Row>, d: string, e: string)
    requires d != e
    ensures Has(Without(events, d), e) == Has(events, e)
  {
    var rest := Without(events, d);
    if Has(events, e) {
      var i :| 0 <= i < |events| && events[i].delivery == e;
      assert events[i] in rest;
      var j :| 0 <= j < |rest| && rest[j] == events[i];
    }
    if Has(rest, e) {
      var i :| 0 <= i < |rest| && rest[i].delivery == e;
      assert rest[i] in events;
    }
  }

  lemma PotentialStep(c: Config, s: State, step: Step, keys: set<string>)
    requires TableOk(s.events) && RunsByKey(s) && KeysWithin(c, s, keys)
    requires Enabled(c, s, step) && ClosedStep(step)
    ensures Do(c, s, step).executions + Potential(c, Do(c, s, step), keys) <= s.executions + Potential(c, s, keys)
  {
    match step
    case Outside(x) => if x.Prune? { PrunePotential(c, s, x.delivery, keys); }
    case ClaimBegin(_, i) => ClaimBeginPotential(c, s, i, keys);
    case ClaimFinish => ClaimFinishPotential(c, s, keys);
    case OfRun(t, x) => RunPotential(c, s, t, x, keys);
    case OfThread(t, x) =>
      if x.WorkerMark? { UpdatePotential(c, s, Mark(ThreadOf(s, t), x.state, x.error), DoThread(s, t, x), keys); }
    case Signal(x) => assert Potential(c, DoSignal(s, x), keys) == Potential(c, s, keys);
    case Sweep(x) =>
      if x.SweepInsert? {
        assert Checked(x.key, x.spent, x.control) in s.sweep;
        InsertPotential(c, s, x.key, x.spent, x.control, x.now, keys);
      }
    case StopBegin =>
  }

  lemma KeysStep(c: Config, s: State, step: Step, keys: set<string>)
    requires KeysWithin(c, s, keys) && Enabled(c, s, step) && ClosedStep(step)
    ensures KeysWithin(c, Do(c, s, step), keys)
  {
    var s' := Do(c, s, step);
    forall r | r in s'.events && r.issueKey.Some? ensures r.issueKey.value in keys {
      if r !in s.events {
        KeyedRow(c, s, step, r);
      }
    }
    SweepKeys(c, s, step, keys);
  }

  lemma SweepKeys(c: Config, s: State, step: Step, keys: set<string>)
    requires KeysWithin(c, s, keys) && Enabled(c, s, step) && ClosedStep(step)
    ensures forall x | x in Do(c, s, step).sweep :: x.key in keys && (x.Checked? ==> x.spent < c.cap)
  {
    if step.Sweep? && step.sweep.SweepRead? {
      var i: nat :| IsLatest(s.events, step.sweep.key, i);
      assert s.events[i] in s.events;
    }
  }

  lemma UpdatedKeyed(u: Update, events: seq<Row>, r: Row)
    requires r in Apply(u, events)
    ensures exists q | q in events :: q.issueKey == r.issueKey
  {
  }

  /** A changed row keeps its issue; an inserted one belongs to an issue a sweep has checked. */
  lemma KeyedRow(c: Config, s: State, step: Step, r: Row)
    requires Enabled(c, s, step) && ClosedStep(step) && r in Do(c, s, step).events && r !in s.events
    ensures (exists q | q in s.events :: q.issueKey == r.issueKey)
      || (exists x | x in s.sweep :: r.issueKey == Some(x.key))
  {
    match step
    case ClaimBegin(_, i) => UpdatedKeyed(Claim(s.events[i].delivery), s.events, r);
    case ClaimFinish => UpdatedKeyed(Requeue(s.claiming.value.delivery, {Running}), s.events, r);
    case OfRun(t, x) => RunKeyed(c, s, t, x, r);
    case OfThread(t, x) => UpdatedKeyed(Mark(ThreadOf(s, t), x.state, x.error), s.events, r);
    case Sweep(x) => SweepKeyed(c, s, x, r);
    case _ =>
  }

  lemma SweepKeyed(c: Config, s: State, step: SweepStep, r: Row)
    requires SweepEnabled(c, s, step) && r in DoSweep(s, step).events && r !in s.events
    ensures exists x | x in s.sweep :: r.issueKey == Some(x.key)
  {
    assert Checked(step.key, step.spent, step.control) in s.sweep;
  }

  lemma RunKeyed(c: Config, s: State, t: nat, step: RunStep, r: Row)
    requires RunEnabled(s, t, step) && r in DoRun(c, s, t, step).events && r !in s.events
    ensures exists q | q in s.events :: q.issueKey == r.issueKey
  {
  }

  /** Without new triggers, replays or restarts, the handler executions of any run, however its steps
      interleave, are at most the potential of its first state. */
  lemma {:induction false} ExecutionsBounded(c: Config, s: State, steps: seq<Step>, keys: set<string>)
    requires Inv(c, s) && NoDuplicates(s.slots.uids) && KeysWithin(c, s, keys)
    requires Feasible(c, s, steps) && forall i | 0 <= i < |steps| :: ClosedStep(steps[i])
    ensures After(c, s, steps).executions + Potential(c, After(c, s, steps), keys)
      <= s.executions + Potential(c, s, keys)
    decreases |steps|
  {
    if steps != [] {
      assert ClosedStep(steps[0]);
      PotentialStep(c, s, steps[0], keys);
      KeysStep(c, s, steps[0], keys);
      InvStep(c, s, steps[0]);
      ExecutionsBounded(c, Do(c, s, steps[0]), steps[1..], keys);
    }
  }

  /******* The redispatch cap *******/

  ghost predicate CappedId(c: Config, key: string, d: string) {
    exists n: nat :: 1 <= n <= c.cap && d == RedispatchId(key, n)
  }

  /** Redispatch rows carry an id the sweeper can have given them. */
  ghost predicate RedispatchesCapped(c: Config, s: State) {
    && (forall r | r in s.events && r.issueKey.Some? && IsRedispatch(r.delivery) ::
      CappedId(c, r.issueKey.value, r.delivery))
    && (forall x | x in s.sweep && x.Checked? :: x.spent < c.cap)
  }

  lemma UpdateKeepsCapped(c: Config, u: Update, events: seq<Row>)
    requires forall r | r in events && r.issueKey.Some? && IsRedispatch(r.delivery) ::
      CappedId(c, r.issueKey.value, r.delivery)
    ensures forall r | r in Apply(u, events) && r.issueKey.Some? && IsRedispatch(r.delivery) ::
      CappedId(c, r.issueKey.value, r.delivery)
  {
  }

  lemma CappedStep(c: Config, s: State, step: Step)
    requires RedispatchesCapped(c, s) && Enabled(c, s, step)
    ensures RedispatchesCapped(c, Do(c, s, step))
  {
    match step
    case Outside(x) => CappedOutside(c, s, x);
    case ClaimBegin(_, i) => UpdateKeepsCapped(c, Claim(s.events[i].delivery), s.events);
    case ClaimFinish => UpdateKeepsCapped(c, Requeue(s.claiming.value.delivery, {Running}), s.events);
    case OfRun(t, x) => CappedOfRun(c, s, t, x);
    case OfThread(t, x) =>
      if x.WorkerMark? { UpdateKeepsCapped(c, Mark(ThreadOf(s, t), x.state, x.error), s.events); }
    case Signal(x) => assert DoSignal(s, x).events == s.events && DoSignal(s, x).sweep == s.sweep;
    case Sweep(x) => CappedSweep(c, s, x);
    case StopBegin =>
    case Restart => UpdateKeepsCapped(c, ResetRunning, s.events);
  }

  lemma CappedOutside(c: Config, s: State, step: OutsideStep)
    requires RedispatchesCapped(c, s) && OutsideEnabled(c, s, step)
    ensures RedispatchesCapped(c, DoOutside(s, step))
  {
    if step.Replay? { UpdateKeepsCapped(c, Requeue(step.delivery, step.from), s.events); }
  }

  lemma CappedSweep(c: Config, s: State, step: SweepStep)
    requires RedispatchesCapped(c, s) && SweepEnabled(c, s, step)
    ensures RedispatchesCapped(c, DoSweep(s, step))
  {
    if step.SweepInsert? {
      assert Checked(step.key, step.spent, step.control) in s.sweep;
      assert CappedId(c, step.key, RedispatchId(step.key, step.spent + 1));
    }
  }

  lemma CappedOfRun(c: Config, s: State, t: nat, step: RunStep)
    requires RedispatchesCapped(c, s) && RunEnabled(s, t, step)
    ensures RedispatchesCapped(c, DoRun(c, s, t, step))
  {
    var d := s.runs[t].row.delivery;
    assert DoRun(c, s, t, step).sweep == s.sweep;
    match step
    case Return =>
      UpdateKeepsCapped(c, Mark(d, Done, NoReason), s.events);
      UpdateKeepsCapped(c, Mark(d, Failed, OperatorCancel), s.events);
    case Raise(e, at) =>
      UpdateKeepsCapped(c, Mark(d, Failed, OperatorCancel), s.events);
      UpdateKeepsCapped(c, Retry(d, at, e), s.events);
      UpdateKeepsCapped(c, Mark(d, Failed, e), s.events);
    case _ => assert DoRun(c, s, t, step).events == s.events;
  }

  /** Rows with different ids from a set of ids are no more than the set. */
  lemma {:induction false} SpentWithin(events: seq<Row>, key: string, ids: set<string>)
    requires TableOk(events)
    requires forall r | r in events && r.issueKey == Some(key) && IsRedispatch(r.delivery) :: r.delivery in ids
    ensures Spent(events, key) <= |ids|
  {
    if events != [] {
      var r := events[0];
      if r.issueKey == Some(key) && IsRedispatch(r.delivery) {
        forall q | q in events[1..] ensures q.delivery != r.delivery {
          var j :| 0 <= j < |events[1..]| && events[1..][j] == q;
          assert Compatible(events[0], events[j + 1]);
        }
        SpentWithin(events[1..], key, ids - {r.delivery});
      } else {
        SpentWithin(events[1..], key, ids);
      }
    }
  }

  ghost function CappedIds(key: string, n: nat): (ids: set<string>)
    ensures |ids| <= n
    ensures forall m: nat | 1 <= m <= n :: RedispatchId(key, m) in ids
  {
    if n == 0 then {} else CappedIds(key, n - 1) + {RedispatchId(key, n)}
  }

  /** The ids of the redispatch rows of an issue. */
  ghost function RedispatchIds(events: seq<Row>, key: string): set<string> {
    set r | r in events && r.issueKey == Some(key) && IsRedispatch(r.delivery) :: r.delivery
  }

  lemma {:induction false} SpentIsSize(events: seq<Row>, key: string)
    requires TableOk(events)
    ensures Spent(events, key) == |RedispatchIds(events, key)|
  {
    if events != [] {
      var r, rest := events[0], events[1..];
      TailKeepsTable(events);
      SpentIsSize(rest, key);
      OthersHaveOtherIds(events);
      IdsOfFirst(r, rest, key);
      assert events == [r] + rest;
    }
  }

  lemma OthersHaveOtherIds(events: seq<Row>)
    requires TableOk(events) && events != []
    ensures forall q | q in events[1..] :: q.delivery != events[0].delivery
  {
    forall q | q in events[1..] ensures q.delivery != events[0].delivery {
      var j :| 0 <= j < |events[1..]| && events[1..][j] == q;
      assert Compatible(events[0], events[j + 1]);
    }
  }

  lemma IdsOfFirst(r: Row, rest: seq<Row>, key: string)
    ensures RedispatchIds([r] + rest, key) == RedispatchIds(rest, key)
      + if r.issueKey == Some(key) && IsRedispatch(r.delivery) then {r.delivery} else {}
  {
  }

  /** However sweeps interleave with each other and with everything else, no issue ever has more than
      `redispatch_max_per_issue` redispatch rows. */
  lemma {:induction false} RedispatchCap(c: Config, s: State, steps: seq<Step>, key: string)
    requires Inv(c, s) && NoDuplicates(s.slots.uids) && RedispatchesCapped(c, s) && Feasible(c, s, steps)
    ensures Spent(After(c, s, steps).events, key) <= c.cap
    ensures |RedispatchIds(After(c, s, steps).events, key)| <= c.cap
    decreases |steps|
  {
    if steps == [] {
      SpentIsSize(s.events, key);
      SpentWithin(s.events, key, CappedIds(key, c.cap));
    } else {
      CappedStep(c, s, steps[0]);
      InvStep(c, s, steps[0]);
      RedispatchCap(c, Do(c, s, steps[0]), steps[1..], key);
    }
  }

  lemma {:induction false} SpentWithout(events: seq<Row>, key: string, i: nat)
    requires TableOk(events) && i < |events| && events[i].issueKey == Some(key) && IsRedispatch(events[i].delivery)
    ensures Spent(Without(events, events[i].delivery), key) == Spent(events, key) - 1
  {
    var rest := events[1..];
    if i == 0 {
      forall r | r in rest ensures r.delivery != events[0].delivery {
        var j :| 0 <= j < |rest| && rest[j] == r;
        assert Compatible(events[0], events[j + 1]);
      }
      WithoutAbsent(rest, events[0].delivery);
    } else {
      assert Compatible(events[0], events[i]);
      assert rest[i - 1] == events[i];
      SpentWithout(rest, key, i - 1);
      var shorter := Without(rest, events[i].delivery);
      assert ([events[0]] + shorter)[1..] == shorter;
    }
  }

  lemma {:induction false} WithoutAbsent(events: seq<Row>, d: string)
    requires forall r | r in events :: r.delivery != d
    ensures Without(events, d) == events
  {
    if events != [] { WithoutAbsent(events[1..], d); }
  }
}
