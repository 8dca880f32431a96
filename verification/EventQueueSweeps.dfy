/** How a failing event, the redispatch sweep and the operator's cancel fit together. */
module EventQueueSweeps {
  import opened Basics
  import opened EventQueue
  import opened EventQueueSafety
  import opened EventQueueRuns

  /** Row i is the only active row of its issue, and the last one that was not skipped. */
  ghost predicate LastOfIssue(events: seq<Row>, key: string, i: nat) {
    IsLatest(events, key, i)
    && forall j | 0 <= j < |events| && j != i && events[j].issueKey == Some(key) :: Inactive(events[j].state)
  }

  /** The issue can still be worked on: it is in flight, or it has no row and the failure is transient. */
  predicate WorthAnother(issues: map<string, IssueState>, key: string, error: Reason) {
    if key in issues then InFlightIssue(issues[key]) else error.Fault? && error.transient
  }

  /** Row i has a new outcome, and the other rows are as they were. */
  predicate OneRowChanged(before: seq<Row>, after: seq<Row>, i: nat) {
    |after| == |before| && i < |before|
    && (forall j | 0 <= j < |before| && j != i :: after[j] == before[j])
    && after[i].issueKey == before[i].issueKey && after[i].attempts == before[i].attempts && after[i].state != Skipped
  }

  lemma MarkChangesOne(u: Update, events: seq<Row>, i: nat)
    requires TableOk(events) && i < |events| && (u.Mark? || u.Retry?) && u.delivery == events[i].delivery
    requires (u.Mark? ==> u.state != Skipped) && events[i].state == Running
    ensures OneRowChanged(events, Apply(u, events), i)
  {
    forall j | 0 <= j < |events| && j != i ensures events[j].delivery != events[i].delivery {
      if j < i { assert Compatible(events[j], events[i]); } else { assert Compatible(events[i], events[j]); }
    }
  }

  lemma StillLast(before: seq<Row>, after: seq<Row>, key: string, i: nat)
    requires LastOfIssue(before, key, i) && OneRowChanged(before, after, i)
    ensures LastOfIssue(after, key, i) && forall j: nat | IsLatest(after, key, j) :: j == i
  {
  }

  /** A last row that has failed strands its issue exactly when it has used its attempts, was not cancelled, and the
      issue can still be worked on; one that is active does not. */
  lemma StrandedByLast(c: Config, s: State, key: string, i: nat)
    requires LastOfIssue(s.events, key, i) && forall j: nat | IsLatest(s.events, key, j) :: j == i
    ensures Stranded(c, s, key) <==>
      (s.events[i].state == Failed && s.events[i].attempts >= c.maxRetries && !MentionsCancel(s.events[i].error)
      && WorthAnother(s.issues, key, s.events[i].error))
  {
  }

  /**
   A failing handler whose row is the last one of its issue is either retried by the queue or found by the next sweep,
   and never both: while attempts are left its row is queued and the issue is not stranded; after that the issue is
   stranded if and only if the error does not mention a cancel and the issue can still be worked on.
   */
  lemma RetriedOrSwept(c: Config, s: State, t: nat, error: Reason, at: int, key: string, i: nat)
    requires Inv(c, s) && RunEnabled(s, t, Raise(error, at)) && LastOfIssue(s.events, key, i)
    requires s.events[i].delivery == s.runs[t].row.delivery && s.events[i].state == Running
    requires s.events[i].attempts == s.runs[t].row.attempts > 0
    requires s.events[i].delivery !in s.signals.cancelled && s.events[i].delivery !in s.shutdownCancelled
    ensures |DoRun(c, s, t, Raise(error, at)).events| == |s.events|
    ensures var z := DoRun(c, s, t, Raise(error, at)); s.events[i].attempts <= c.maxRetries ==>
      z.events[i].state == Queued && z.events[i].availableAt == Some(at) && !Stranded(c, z, key)
    ensures var z := DoRun(c, s, t, Raise(error, at)); s.events[i].attempts > c.maxRetries ==>
      z.events[i].state == Failed && z.events[i].error == error
      && (Stranded(c, z, key) <==> !MentionsCancel(error) && WorthAnother(s.issues, key, error))
  {
    var z := DoRun(c, s, t, Raise(error, at));
    var u := RaiseUpdates(c, s, t, error, at, i);
    MarkChangesOne(u, s.events, i);
    StillLast(s.events, z.events, key, i);
    StrandedByLast(c, z, key, i);
  }

  lemma RaiseUpdates(c: Config, s: State, t: nat, error: Reason, at: int, i: nat) returns (u: Update)
    requires RunEnabled(s, t, Raise(error, at)) && i < |s.events|
    requires s.events[i].delivery == s.runs[t].row.delivery && s.events[i].state == Running
    requires s.runs[t].row.attempts > 0
    requires s.events[i].delivery !in s.signals.cancelled && s.events[i].delivery !in s.shutdownCancelled
    ensures var d := s.events[i].delivery;
      u == if s.runs[t].row.attempts <= c.maxRetries then Retry(d, at, error) else Mark(d, Failed, error)
    ensures var z := DoRun(c, s, t, Raise(error, at)); z.events == Apply(u, s.events) && z.issues == s.issues
  {
    var d := s.events[i].delivery;
    assert CanMove(s.events, d, {Running, Failed});
    u := if s.runs[t].row.attempts <= c.maxRetries then Retry(d, at, error) else Mark(d, Failed, error);
  }

  /** A run that ends as cancelled does not strand its issue, so no sweep runs its work again. */
  lemma CancelledNotSwept(c: Config, s: State, t: nat, last: RunStep, key: string, i: nat)
    requires Inv(c, s) && CancelWaits(s, t) && (last.Return? || last.Raise?) && RunEnabled(s, t, last)
    requires LastOfIssue(s.events, key, i) && s.events[i].state == Running
    requires s.events[i].delivery == s.runs[t].row.delivery
    ensures !Stranded(c, DoRun(c, s, t, last), key)
  {
    var u := Mark(s.events[i].delivery, Failed, OperatorCancel);
    var z := DoRun(c, s, t, last);
    assert z.events == Apply(u, s.events);
    MarkChangesOne(u, s.events, i);
    StillLast(s.events, z.events, key, i);
    StrandedByLast(c, z, key, i);
  }
}
