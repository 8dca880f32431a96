/**
 `Database`, `SlotPool` and `WorkerPool`: objects whose fields the code updates in place.
 Every method is an undivided stretch of code and is proved to take one step of EventQueue.
 */
module Dispatcher {
  import opened Basics
  import opened EventQueue
  import opened EventQueueSafety

  /******* What an update leaves alone *******/

  predicate SameButOutcome(r: Row, q: Row) {
    r == q.(state := r.state, error := r.error)
  }

  predicate SameButSchedule(r: Row, q: Row) {
    r == q.(state := r.state, error := r.error, availableAt := r.availableAt, retries := r.retries)
  }

  predicate Movable(r: Row, d: string, from: set<EventState>) { r.delivery == d && r.state in from }

  /** No row of the issue is running; rows without an issue do not wait for one another. */
  predicate IssueFree(events: seq<Row>, issue: Option<string>) {
    issue.Some? ==> forall j | 0 <= j < |events| :: !(events[j].state == Running && events[j].issueKey == issue)
  }

  /** The rows of a delivery have the state and the error; everything else is as it was. */
  predicate RowsMarked(before: seq<Row>, after: seq<Row>, d: string, state: EventState, error: Reason) {
    |after| == |before|
    && forall i | 0 <= i < |before| ::
         after[i] == if before[i].delivery == d then before[i].(state := state, error := error) else before[i]
  }

  /** The rows of a delivery in one of the states are queued without a backoff; everything else is as it was. */
  predicate RowsRequeued(before: seq<Row>, after: seq<Row>, d: string, from: set<EventState>) {
    |after| == |before|
    && forall i | 0 <= i < |before| ::
         after[i] == if Movable(before[i], d, from) then before[i].(state := Queued, availableAt := None) else before[i]
  }

  /** The running or failed rows of a delivery are queued until `at`, with the error and one more retry. */
  predicate RowsRetried(before: seq<Row>, after: seq<Row>, d: string, at: int, error: Reason) {
    |after| == |before|
    && forall i | 0 <= i < |before| ::
         after[i] == if Movable(before[i], d, {Running, Failed})
                     then before[i].(state := Queued, error := error, availableAt := Some(at),
                                     retries := before[i].retries + 1)
                     else before[i]
  }

  /** Row i belongs to the issue and was not skipped. */
  predicate Counts(events: seq<Row>, key: string, i: nat)
    requires i < |events|
  {
    events[i].issueKey == Some(key) && events[i].state != Skipped
  }

  predicate HasRow(events: seq<Row>, d: string, states: set<EventState>) {
    exists i | 0 <= i < |events| :: Movable(events[i], d, states)
  }

  /** A table whose rows are those of an update, one by one, is the updated table. */
  lemma IsApply(u: Update, before: seq<Row>, after: seq<Row>)
    requires |after| == |before| && forall i | 0 <= i < |before| :: after[i] == UpdateRow(u, before[i])
    ensures after == Apply(u, before)
  {
  }

  /** The `events` and `issues` tables. */
  class Database {
    var events: seq<Row>
    var issues: map<string, IssueState>

    constructor (events: seq<Row>, issues: map<string, IssueState>)
      ensures this.events == events && this.issues == issues
    {
      this.events := events;
      this.issues := issues;
    }

    /** The earliest received eligible row among the first n. */
    static function Select(events: seq<Row>, now: int, n: nat): (r: Option<nat>)
      requires n <= |events|
      ensures r.None? ==> forall i | 0 <= i < n :: !Eligible(events, now, i)
      ensures r.Some? ==> r.value < n && Eligible(events, now, r.value)
      ensures r.Some? ==>
        forall i | 0 <= i < n && Eligible(events, now, i) :: events[r.value].receivedAt <= events[i].receivedAt
    {
      if n == 0 then None else
      var r := Select(events, now, n - 1);
      if Eligible(events, now, n - 1) && (r.None? || events[n - 1].receivedAt < events[r.value].receivedAt)
      then Some(n - 1) else r
    }

    method RecordEvent(row: Row) returns (inserted: bool)
      modifies this
      ensures issues == old(issues) && events == Record(old(events), row)
      ensures inserted == !Has(old(events), row.delivery)
      ensures events == if inserted then old(events) + [row] else old(events)
    {
      inserted := !Has(events, row.delivery);
      if inserted { events := events + [row]; }
    }

    /** The select and the update of `claim_next_event` are one transaction. */
    method ClaimNextEvent(now: int) returns (row: Option<Row>, ghost index: nat)
      requires TableOk(events)
      modifies this
      ensures issues == old(issues)
      ensures row.None? ==> events == old(events) && forall i | 0 <= i < |events| :: !Eligible(events, now, i)
      ensures row.Some? ==> IsNext(old(events), now, index)
      ensures row.Some? ==> row.value == UpdateRow(Claim(old(events)[index].delivery), old(events)[index])
      ensures row.Some? ==> events == Apply(Claim(old(events)[index].delivery), old(events))
      ensures row.Some? ==> var q := old(events)[index];
        (q.state == Queued && (q.availableAt.None? || q.availableAt.value <= now) && IssueFree(old(events), q.issueKey)
        && row.value == q.(state := Running, attempts := q.attempts + 1) && events == old(events)[index := row.value])
    {
      var chosen := Select(events, now, |events|);
      match chosen
      case None => row, index := None, 0;
      case Some(i) =>
        index := i;
        var claimed := events[i].(state := Running, attempts := events[i].attempts + 1);
        assert forall j | 0 <= j < |events| && j != i :: events[j].delivery != events[i].delivery by {
          assert forall j | 0 <= j < i :: Compatible(events[j], events[i]);
          assert forall j | i < j < |events| :: Compatible(events[i], events[j]);
        }
        events := events[i := claimed];
        row := Some(claimed);
    }

    /** The row gets the state and the error, and nothing else changes. */
    method MarkEvent(delivery: string, state: EventState, error: Reason)
      modifies this
      ensures issues == old(issues) && |events| == |old(events)|
      ensures forall i | 0 <= i < |events| && old(events)[i].delivery == delivery ::
        events[i].state == state && events[i].error == error && SameButOutcome(events[i], old(events)[i])
      ensures forall i | 0 <= i < |events| && old(events)[i].delivery != delivery :: events[i] == old(events)[i]
    {
      events := Apply(Mark(delivery, state, error), events);
    }

    /** A row in one of the states can be claimed again at any time of day, with its attempts and its error as
        they were. */
    method RequeueEvent(delivery: string, from: set<EventState>) returns (moved: bool)
      modifies this
      ensures issues == old(issues) && |events| == |old(events)|
      ensures moved <==> exists i | 0 <= i < |events| :: Movable(old(events)[i], delivery, from)
      ensures forall i | 0 <= i < |events| && Movable(old(events)[i], delivery, from) ::
        events[i].state == Queued && SameButSchedule(events[i], old(events)[i])
        && events[i].error == old(events)[i].error && events[i].retries == old(events)[i].retries
        && events[i].availableAt.None?
        && forall now :: IssueFree(events, events[i].issueKey) <==> Eligible(events, now, i)
      ensures forall i | 0 <= i < |events| && !Movable(old(events)[i], delivery, from) :: events[i] == old(events)[i]
    {
      moved := exists i | 0 <= i < |events| :: Movable(events[i], delivery, from);
      events := Apply(Requeue(delivery, from), events);
    }

    /** A running or failed row can be claimed again from `at` on and not before, with its attempts as they were. */
    method ScheduleRetry(delivery: string, at: int, error: Reason) returns (moved: bool)
      modifies this
      ensures issues == old(issues) && |events| == |old(events)|
      ensures moved <==> exists i | 0 <= i < |events| :: Movable(old(events)[i], delivery, {Running, Failed})
      ensures forall i | 0 <= i < |events| && Movable(old(events)[i], delivery, {Running, Failed}) ::
        events[i].state == Queued && SameButSchedule(events[i], old(events)[i])
        && events[i].error == error && events[i].retries == old(events)[i].retries + 1
        && events[i].availableAt == Some(at)
        && forall now :: Eligible(events, now, i) <==> at <= now && IssueFree(events, events[i].issueKey)
      ensures forall i | 0 <= i < |events| && !Movable(old(events)[i], delivery, {Running, Failed}) ::
        events[i] == old(events)[i]
    {
      moved := exists i | 0 <= i < |events| :: Movable(events[i], delivery, {Running, Failed});
      if moved { events := Apply(Retry(delivery, at, error), events); }
    }

    /** No row is running any more, and every row that was can be claimed at any time of day. */
    method ResetStuckRunning()
      modifies this
      ensures issues == old(issues) && |events| == |old(events)|
      ensures forall i | 0 <= i < |events| :: events[i].state != Running
      ensures forall i | 0 <= i < |events| && old(events)[i].state == Running ::
        SameButSchedule(events[i], old(events)[i]) && events[i].error == old(events)[i].error
        && events[i].retries == old(events)[i].retries && events[i].state == Queued && events[i].availableAt.None?
        && forall now :: Eligible(events, now, i)
      ensures forall i | 0 <= i < |events| && old(events)[i].state != Running :: events[i] == old(events)[i]
    {
      events := Apply(ResetRunning, events);
    }

    /** With `allowed` the inactive states, as every caller passes. */
    method ReplaceEventIfInactive(row: Row) returns (replaced: bool)
      modifies this
      ensures issues == old(issues) && events == ReplaceInactive(old(events), row)
      ensures replaced == !exists r | r in old(events) :: r.delivery == row.delivery && !Inactive(r.state)
      ensures !replaced ==> events == old(events)
      ensures replaced ==> events != [] && events[|events| - 1] == row
      ensures replaced ==>
        forall r :: r in events[..|events| - 1] <==> r in old(events) && r.delivery != row.delivery
    {
      replaced := !exists r | r in events :: r.delivery == row.delivery && !Inactive(r.state);
      if replaced { events := Without(events, row.delivery) + [row]; }
    }

    method GetEvent(delivery: string) returns (row: Option<Row>)
      ensures row.None? <==> !exists r | r in events :: r.delivery == delivery
      ensures row.Some? ==> row.value in events && row.value.delivery == delivery
    {
      row := None;
      for i := 0 to |events|
        invariant row.None? ==> forall j | 0 <= j < i :: events[j].delivery != delivery
        invariant row.Some? ==> row.value in events && row.value.delivery == delivery
      {
        if events[i].delivery == delivery { row := Some(events[i]); }
      }
    }

    /** `latest_event_for_issue`: the row received last that was not skipped; of two at one time the one inserted
        last. */
    method LatestEventForIssue(key: string) returns (index: Option<nat>)
      ensures index.None? ==> forall i | 0 <= i < |events| :: !Counts(events, key, i)
      ensures index.Some? ==> index.value < |events| && Counts(events, key, index.value)
      ensures index.Some? ==> forall i | 0 <= i < |events| && Counts(events, key, i) && i != index.value ::
        events[i].receivedAt < events[index.value].receivedAt
        || (events[i].receivedAt == events[index.value].receivedAt && i < index.value)
      ensures index.Some? ==> IsNewest(events, key, index.value)
      ensures forall i: nat | IsNewest(events, key, i) :: index == Some(i)
    {
      index := None;
      for i := 0 to |events|
        invariant index.None? ==> forall j | 0 <= j < i :: !Counts(events, key, j)
        invariant index.Some? ==> index.value < i && Counts(events, key, index.value)
        invariant index.Some? ==> forall j | 0 <= j < i && Counts(events, key, j) && j != index.value ::
          events[j].receivedAt < events[index.value].receivedAt
          || (events[j].receivedAt == events[index.value].receivedAt && j < index.value)
      {
        if Counts(events, key, i) && (index.None? || events[index.value].receivedAt <= events[i].receivedAt) {
          index := Some(i);
        }
      }
      forall i: nat | IsNewest(events, key, i) ensures index == Some(i) { assert Counts(events, key, i); }
    }

    method SetIssueState(key: string, issue: IssueState)
      modifies this
      ensures events == old(events)
      ensures issues == if key in old(issues) then old(issues)[key := issue] else old(issues)
    {
      if key in issues { issues := issues[key := issue]; }
    }
  }

  datatype Acquired = Slot(uid: Option<int>) | Parked

  /** A FIFO queue of free UIDs and the set of those given out. */
  class SlotPool {
    const uids: seq<int>
    var available: seq<int>
    var checkedOut: set<int>

    constructor (uids: seq<int>)
      ensures this.uids == uids && available == uids && checkedOut == {}
    {
      this.uids := uids;
      available := uids;
      checkedOut := {};
    }

    /** The constructor's `ValueError`. */
    static method Create(slotUids: seq<int>) returns (pool: SlotPool?)
      ensures pool != null <==> NoDuplicates(slotUids)
      ensures pool != null ==> fresh(pool) && pool.Slots() == EventQueue.Slots(slotUids, slotUids, {})
    {
      pool := null;
      if forall i, j | 0 <= i < j < |slotUids| :: slotUids[i] != slotUids[j] {
        pool := new SlotPool(slotUids);
      }
    }

    ghost function Slots(): Slots
      reads this
    {
      EventQueue.Slots(uids, available, checkedOut)
    }

    /** `await get()` on an empty queue parks the coroutine and changes nothing. */
    method Acquire() returns (r: Acquired)
      modifies this
      ensures uids == [] ==> r == Slot(None) && Slots() == old(Slots())
      ensures uids != [] && old(available) == [] ==> r == Parked && Slots() == old(Slots())
      ensures uids != [] && old(available) != [] ==> r == Slot(Some(old(available)[0]))
      ensures uids != [] && old(available) != [] ==>
                available == old(available)[1..] && checkedOut == old(checkedOut) + {old(available)[0]}
    {
      if uids == [] { return Slot(None); }
      if available == [] { return Parked; }
      var uid := available[0];
      available := available[1..];
      checkedOut := checkedOut + {uid};
      return Slot(Some(uid));
    }

    /** False is the `ValueError` for a UID that is not checked out. */
    method Release(uid: Option<int>) returns (ok: bool)
      modifies this
      ensures ok <==> (uid.None? && uids == []) || (uid.Some? && uid.value in old(checkedOut))
      ensures Slots() == if ok then ReturnSlot(old(Slots()), uid) else old(Slots())
      ensures ok && uid.Some? ==> available == old(available) + [uid.value]
      ensures ok && uid.Some? ==> checkedOut == old(checkedOut) - {uid.value}
      ensures !ok || uid.None? ==> Slots() == old(Slots())
    {
      if uids == [] && uid.None? { return true; }
      if uid.None? || uid.value !in checkedOut { return false; }
      checkedOut := checkedOut - {uid.value};
      available := available + [uid.value];
      return true;
    }
  }

  /** The dispatcher.  `runs` are the live `_run_event` tasks, `arming` the threads inside `_arm_cancel`, and `late`
      the threads whose task `stop` has cancelled. */
  class WorkerPool {
    const cfg: Config
    const db: Database
    const slotPool: SlotPool
    var claiming: Option<Row>
    var inflight: set<string>
    var runs: map<nat, Run>
    var nextTask: nat
    var cancelled: set<string>
    var cancelHooks: map<string, nat>
    var arming: map<nat, nat>
    var fired: seq<nat>
    var nextHook: nat
    var shutdownCancelled: set<string>
    var shuttingDown: bool
    var sweep: set<Candidate>
    ghost var late: map<nat, string>
    ghost var missed: set<string>
    ghost var executions: nat

    ghost function Abs(): State
      reads this, db, slotPool
    {
      State(db.events, db.issues, claiming, inflight, runs, nextTask, late,
            Signals(cancelled, cancelHooks, arming, fired, nextHook, missed),
            shutdownCancelled, slotPool.Slots(), sweep, shuttingDown, executions)
    }

    /** `__init__` and `start`: rows left running by the last process become claimable. */
    constructor (cfg: Config, db: Database, slotPool: SlotPool)
      requires TableOk(db.events) && (forall r | r in db.events :: SameIssue(cfg, r))
      requires NoDuplicates(slotPool.uids) && slotPool.available == slotPool.uids && slotPool.checkedOut == {}
      modifies db
      ensures this.cfg == cfg && this.db == db && this.slotPool == slotPool
      ensures Abs() == Idle(Apply(ResetRunning, old(db.events)), old(db.issues), slotPool.uids, 0)
      ensures Abs() == State(db.events, old(db.issues), None, {}, map[], 0, map[], Signals({}, map[], map[], [], 0, {}),
                             {}, EventQueue.Slots(slotPool.uids, slotPool.uids, {}), {}, false, 0)
      ensures Inv(cfg, Abs())
    {
      this.cfg := cfg;
      this.db := db;
      this.slotPool := slotPool;
      claiming, inflight, runs, nextTask := None, {}, map[], 0;
      cancelled, cancelHooks, arming, fired, nextHook := {}, map[], map[], [], 0;
      shutdownCancelled, shuttingDown, sweep, late, missed, executions := {}, false, {}, map[], {}, 0;
      new;
      ghost var before := db.events;
      db.ResetStuckRunning();
      IsApply(ResetRunning, before, db.events);
      UpdateKeepsTable(ResetRunning, before);
      UpdateKeepsIssues(cfg, ResetRunning, before);
      RestartLeavesNoneRunning(before);
      InvInit(cfg, db.events, db.issues, slotPool.uids);
    }

    /** First half of `_claim_next_unique`: the claim in the database. */
    method ClaimFromDatabase(now: int) returns (ghost index: nat)
      requires TableOk(db.events) && !shuttingDown && claiming.None?
      modifies this, db
      ensures claiming.Some? ==> Enabled(cfg, old(Abs()), ClaimBegin(now, index))
      ensures claiming.Some? ==> Abs() == Do(cfg, old(Abs()), ClaimBegin(now, index))
      ensures claiming.None? ==> Abs() == old(Abs()) && forall i | 0 <= i < |db.events| :: !Eligible(db.events, now, i)
      ensures claiming.Some? ==> index < |old(db.events)| && var q := old(db.events)[index];
        claiming.value == q.(state := Running, attempts := q.attempts + 1)
        && Abs() == old(Abs()).(claiming := claiming, events := old(db.events)[index := claiming.value])
    {
      var row;
      row, index := db.ClaimNextEvent(now);
      claiming := row;
    }

    /** Second half: admit the row, or put it back if its key is already in flight. */
    method AdmitOrBounce()
      requires claiming.Some?
      modifies this, db
      ensures Abs() == FinishClaim(old(Abs()))
      ensures var s, row := old(Abs()), old(claiming).value;
        if KeyOf(row) in s.inflight then
          Abs() == s.(claiming := None, events := db.events)
          && RowsRequeued(s.events, db.events, row.delivery, {Running})
        else
          Abs() == s.(claiming := None, inflight := s.inflight + {KeyOf(row)},
                      runs := s.runs[s.nextTask := Run(row, Waiting, None)], nextTask := s.nextTask + 1)
    {
      var row := claiming.value;
      var key := KeyOf(row);
      claiming := None;
      if key in inflight {
        ghost var before := db.events;
        var _ := db.RequeueEvent(row.delivery, {Running});
        IsApply(Requeue(row.delivery, {Running}), before, db.events);
      } else {
        inflight := inflight + {key};
        runs := runs[nextTask := Run(row, Waiting, None)];
        nextTask := nextTask + 1;
      }
    }

    method AcquireSlot(t: nat) returns (started: bool)
      requires HasRun(Abs(), t, Waiting) && runs[t].slot.None?
      modifies this, slotPool
      ensures started <==> RunEnabled(old(Abs()), t, RunStep.AcquireSlot)
      ensures Abs() == if started then DoRun(cfg, old(Abs()), t, RunStep.AcquireSlot) else old(Abs())
      ensures started <==> slotPool.uids == [] || old(slotPool.available) != []
      ensures started ==> var s := old(Abs());
        var slot := if slotPool.uids == [] then None else Some(s.slots.available[0]);
        Abs() == s.(runs := s.runs[t := Run(s.runs[t].row, Dispatching, slot)], slots := slotPool.Slots(),
                    executions := s.executions + 1)
      ensures started && slotPool.uids != [] ==> slotPool.available == old(slotPool.available)[1..]
      ensures started && slotPool.uids != [] ==>
        slotPool.checkedOut == old(slotPool.checkedOut) + {old(slotPool.available)[0]}
    {
      var r := slotPool.Acquire();
      if r.Parked? { return false; }
      runs := runs[t := runs[t].(phase := Dispatching, slot := r.uid)];
      executions := executions + 1;
      return true;
    }

    /** The tail of `_dispatch_and_mark`, once the handler or the control command has returned. */
    method RecordReturn(t: nat)
      requires TableOk(db.events) && RunEnabled(Abs(), t, Return)
      modifies this, db
      ensures Abs() == DoRun(cfg, old(Abs()), t, Return)
      ensures Abs() == old(Abs()).(events := db.events, runs := old(runs)[t := old(runs)[t].(phase := Marked)])
      ensures var row, before := old(runs)[t].row, old(db.events);
        if row.control then RowsMarked(before, db.events, row.delivery, Done, NoReason)
        else if row.delivery in old(cancelled) then RowsMarked(before, db.events, row.delivery, Failed, OperatorCancel)
        else if HasRow(before, row.delivery, {Done, Failed, Skipped}) then db.events == before
        else RowsMarked(before, db.events, row.delivery, Done, NoReason)
    {
      var row := runs[t].row;
      ghost var before := db.events;
      if row.control {
        db.MarkEvent(row.delivery, Done, NoReason);
        IsApply(Mark(row.delivery, Done, NoReason), before, db.events);
      } else if row.delivery in cancelled {
        db.MarkEvent(row.delivery, Failed, OperatorCancel);
        IsApply(Mark(row.delivery, Failed, OperatorCancel), before, db.events);
      } else {
        var latest := db.GetEvent(row.delivery);
        SameRow(db.events);
        if latest.None? || !Inactive(latest.value.state) {
          db.MarkEvent(row.delivery, Done, NoReason);
          IsApply(Mark(row.delivery, Done, NoReason), before, db.events);
        }
      }
      runs := runs[t := runs[t].(phase := Marked)];
    }

    /** The `except Exception` branch of `_run_event`. */
    method HandleException(t: nat, error: Reason, at: int)
      requires RunEnabled(Abs(), t, Raise(error, at))
      modifies this, db
      ensures Abs() == DoRun(cfg, old(Abs()), t, Raise(error, at))
      ensures Abs() == old(Abs()).(events := db.events, runs := old(runs)[t := old(runs)[t].(phase := Marked)])
      ensures var row, before := old(runs)[t].row, old(db.events);
        if row.delivery in old(shutdownCancelled) then db.events == before
        else if row.delivery in old(cancelled) then RowsMarked(before, db.events, row.delivery, Failed, OperatorCancel)
        else if 0 < row.attempts <= cfg.maxRetries && HasRow(before, row.delivery, {Running, Failed})
        then RowsRetried(before, db.events, row.delivery, at, error)
        else RowsMarked(before, db.events, row.delivery, Failed, error)
    {
      var row := runs[t].row;
      if row.delivery in shutdownCancelled {
        // Left running: the next start requeues it.
      } else if row.delivery in cancelled {
        ghost var before := db.events;
        db.MarkEvent(row.delivery, Failed, OperatorCancel);
        IsApply(Mark(row.delivery, Failed, OperatorCancel), before, db.events);
      } else {
        RetryOrFail(row, error, at);
      }
      runs := runs[t := runs[t].(phase := Marked)];
    }

    method RetryOrFail(row: Row, error: Reason, at: int)
      modifies db
      ensures db.issues == old(db.issues)
      ensures db.events == RetriedOrFailed(cfg, row, error, at, old(db.events))
      ensures if 0 < row.attempts <= cfg.maxRetries && HasRow(old(db.events), row.delivery, {Running, Failed})
        then RowsRetried(old(db.events), db.events, row.delivery, at, error)
        else RowsMarked(old(db.events), db.events, row.delivery, Failed, error)
    {
      ghost var before := db.events;
      var retried := false;
      if 0 < row.attempts <= cfg.maxRetries {
        retried := db.ScheduleRetry(row.delivery, at, error);
        if retried { IsApply(Retry(row.delivery, at, error), before, db.events); }
        assert retried <==> CanMove(before, row.delivery, {Running, Failed});
      }
      if !retried {
        assert db.events == before;
        db.MarkEvent(row.delivery, Failed, error);
        IsApply(Mark(row.delivery, Failed, error), before, db.events);
      }
    }

    method ForgetDelivery(d: string)
      modifies this`cancelled, this`shutdownCancelled, this`cancelHooks, this`missed
      ensures cancelled == old(cancelled) - {d} && shutdownCancelled == old(shutdownCancelled) - {d}
      ensures cancelHooks == old(cancelHooks) - {d} && missed == old(missed) - {d}
    {
      cancelled := cancelled - {d};
      shutdownCancelled := shutdownCancelled - {d};
      cancelHooks := cancelHooks - {d};
      missed := missed - {d};
    }

    /** The `finally` of `_run_event` up to its first await. */
    method FinishRun(t: nat)
      requires RunEnabled(Abs(), t, Finalize)
      requires runs[t].slot.Some? ==> runs[t].slot.value in slotPool.checkedOut
      modifies this, slotPool
      ensures Abs() == DoRun(cfg, old(Abs()), t, Finalize)
      ensures var s := old(Abs()); var run := s.runs[t]; var d := run.row.delivery;
        Abs() == s.(runs := s.runs[t := Run(run.row, Closing, None)], shutdownCancelled := s.shutdownCancelled - {d},
                    signals := s.signals.(cancelled := s.signals.cancelled - {d}, hooks := s.signals.hooks - {d},
                                          missed := s.signals.missed - {d}),
                    slots := slotPool.Slots())
      ensures old(runs)[t].slot.None? ==> slotPool.Slots() == old(slotPool.Slots())
      ensures old(runs)[t].slot.Some? ==> var u := old(runs)[t].slot.value;
        slotPool.available == old(slotPool.available) + [u] && slotPool.checkedOut == old(slotPool.checkedOut) - {u}
    {
      ghost var s := Abs();
      var d := runs[t].row.delivery;
      ForgetDelivery(d);
      if runs[t].slot.Some? {
        var ok := slotPool.Release(runs[t].slot);
        assert ok;
      }
      assert slotPool.Slots() == ReturnSlot(s.slots, s.runs[t].slot);
      runs := runs[t := runs[t].(phase := Closing, slot := None)];
      assert Abs() == Finish(s, t);
    }

    method ReleaseKey(t: nat)
      requires RunEnabled(Abs(), t, Release)
      modifies this
      ensures Abs() == DoRun(cfg, old(Abs()), t, Release)
      ensures Abs() == old(Abs()).(inflight := old(inflight) - {KeyOf(old(runs)[t].row)}, runs := old(runs) - {t})
    {
      inflight := inflight - {KeyOf(runs[t].row)};
      runs := runs - {t};
    }

    /** `_arm_cancel` up to its test of `_cancelled`; a late hook is called on the spot. */
    method ArmCancelTest(t: nat, delivery: string)
      requires SignalEnabled(Abs(), ArmTest(t)) && delivery == ThreadOf(Abs(), t)
      modifies this
      ensures Abs() == DoSignal(old(Abs()), ArmTest(t))
      ensures var s := old(Abs()); var g := s.signals;
        Abs() == s.(signals := if delivery in g.cancelled
                               then g.(fired := g.fired + [g.nextHook], nextHook := g.nextHook + 1)
                               else g.(arming := g.arming[t := g.nextHook], nextHook := g.nextHook + 1))
    {
      var hook := nextHook;
      nextHook := nextHook + 1;
      if delivery in cancelled { fired := fired + [hook]; } else { arming := arming[t := hook]; }
    }

    method ArmCancelStore(t: nat, delivery: string)
      requires SignalEnabled(Abs(), ArmStore(t)) && delivery == ThreadOf(Abs(), t)
      modifies this
      ensures Abs() == DoSignal(old(Abs()), ArmStore(t))
      ensures var s := old(Abs()); var g := s.signals;
        Abs() == s.(signals := g.(hooks := g.hooks[delivery := g.arming[t]], arming := g.arming - {t}))
    {
      cancelHooks := cancelHooks[delivery := arming[t]];
      arming := arming - {t};
    }

    /** Take the hook of the delivery and call it, if there is one. */
    method FireHook(delivery: string) returns (hit: bool)
      modifies this`fired, this`cancelHooks, this`missed
      ensures Signals(cancelled, cancelHooks, arming, fired, nextHook, missed)
        == Fire(old(Signals(cancelled, cancelHooks, arming, fired, nextHook, missed)), delivery)
      ensures hit <==> delivery in old(cancelHooks)
    {
      hit := delivery in cancelHooks;
      if hit {
        fired := fired + [cancelHooks[delivery]];
        cancelHooks := cancelHooks - {delivery};
        missed := missed - {delivery};
      }
    }

    /** The return value says whether a hook was called. */
    method CancelEvent(delivery: string) returns (hit: bool)
      modifies this
      ensures Abs() == DoSignal(old(Abs()), Cancel(delivery))
      ensures hit <==> delivery in old(cancelHooks)
      ensures Abs() == old(Abs()).(signals := Abs().signals)
      ensures cancelled == old(cancelled) + {delivery} && arming == old(arming) && nextHook == old(nextHook)
      ensures cancelHooks == old(cancelHooks) - {delivery}
      ensures fired == if hit then old(fired) + [old(cancelHooks)[delivery]] else old(fired)
    {
      ghost var s := Abs();
      hit := FireHook(delivery);
      cancelled := cancelled + {delivery};
      if ArmingFor(s, delivery) { missed := missed + {delivery}; }
    }

    /** `stop`: the dispatcher is cancelled, whatever its claim has reached. */
    method BeginStop()
      modifies this
      ensures Abs() == Do(cfg, old(Abs()), StopBegin)
      ensures Abs() == old(Abs()).(stopping := true, claiming := None, sweep := {})
    {
      shuttingDown := true;
      claiming := None;
      sweep := {};
    }

    /** `stop`, after the drain timeout, for one task that is still running. */
    method InterruptForShutdown(t: nat)
      requires SignalEnabled(Abs(), StopInterrupt(t))
      modifies this
      ensures Abs() == DoSignal(old(Abs()), StopInterrupt(t))
      ensures var d := old(runs)[t].row.delivery;
        Abs() == old(Abs()).(signals := Abs().signals, shutdownCancelled := old(shutdownCancelled) + {d})
        && cancelled == old(cancelled) && arming == old(arming) && nextHook == old(nextHook)
        && cancelHooks == old(cancelHooks) - {d}
        && fired == if d in old(cancelHooks) then old(fired) + [old(cancelHooks)[d]] else old(fired)
    {
      var d := runs[t].row.delivery;
      shutdownCancelled := shutdownCancelled + {d};
      var _ := FireHook(d);
    }

    /** `_redispatch_stranded` for one candidate: abandoned once its budget is spent, else checked once more. */
    method CheckCandidate(key: string, spent: nat) returns (control: Option<bool>)
      requires !shuttingDown && Found(key, spent) in sweep
      modifies this, db
      ensures spent >= cfg.cap ==> control.None? && SweepEnabled(cfg, old(Abs()), SweepAbandon(key, spent))
      ensures spent >= cfg.cap ==> Abs() == DoSweep(old(Abs()), SweepAbandon(key, spent))
      ensures spent >= cfg.cap ==> Abs() == old(Abs()).(issues := db.issues)
      ensures spent >= cfg.cap ==>
        db.issues == if key in old(db.issues) then old(db.issues)[key := Abandoned] else old(db.issues)
      ensures spent < cfg.cap && control.None? ==> Abs() == old(Abs())
      ensures spent < cfg.cap && control.None? ==>
        forall i: nat | IsNewest(db.events, key, i) :: db.events[i].state != Failed
      ensures control.Some? ==> exists i: nat | i < |db.events| && db.events[i].control == control.value ::
        var step := SweepCheck(key, spent, i);
        SweepEnabled(cfg, old(Abs()), step) && Abs() == DoSweep(old(Abs()), step)
      ensures control.Some? ==> Abs() == old(Abs()).(sweep := old(sweep) + {Checked(key, spent, control.value)})
    {
      if spent >= cfg.cap {
        db.SetIssueState(key, Abandoned);
        return None;
      }
      var latest := db.LatestEventForIssue(key);
      if latest.None? || db.events[latest.value].state != Failed { return None; }
      control := Some(db.events[latest.value].control);
      sweep := sweep + {Checked(key, spent, control.value)};
      assert SweepEnabled(cfg, old(Abs()), SweepCheck(key, spent, latest.value));
    }

    /** `_redispatch_stranded` for one candidate, after its latest row has been read. */
    method Redispatch(key: string, spent: nat, control: bool, now: int) returns (queued: bool)
      requires SweepEnabled(cfg, Abs(), SweepInsert(key, spent, control, now))
      modifies db
      ensures Abs() == DoSweep(old(Abs()), SweepInsert(key, spent, control, now))
      ensures queued <==> !Has(old(db.events), RedispatchId(key, spent + 1))
      ensures Abs() == old(Abs()).(events := db.events)
      ensures db.events == old(db.events) + if !queued then [] else
        [Row(RedispatchId(key, spent + 1), Some(key), control, Queued, 0, NoReason, None, now, 0)]
    {
      queued := db.RecordEvent(RedispatchRow(key, spent, control, now));
    }
  }
}
