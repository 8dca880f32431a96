/** The rolling cap on the submissions of one user. */
module Admission {
  import opened Basics
  import opened Text

  type Delivery = string
  type Login = string

  datatype Row = Row(delivery: Delivery, login: Login, ts: int)

  /** The answer to one submission; `used` counts the matching rows. */
  datatype Answer = Answer(accepted: bool, duplicate: bool, used: nat)

  /** The rows of a user in a closed span of time. */
  function Count(rows: seq<Row>, login: Login, from: int, to: int): nat {
    if rows == [] then 0
    else
      var r := rows[|rows| - 1];
      Count(rows[..|rows| - 1], login, from, to) + if r.login == login && from <= r.ts <= to then 1 else 0
  }

  function CountSince(rows: seq<Row>, login: Login, since: int): nat {
    if rows == [] then 0
    else
      var r := rows[|rows| - 1];
      CountSince(rows[..|rows| - 1], login, since) + if r.login == login && since <= r.ts then 1 else 0
  }

  /** The places of the rows of a user from `since` on. */
  ghost function RowsSince(rows: seq<Row>, login: Login, since: int): set<nat> {
    set i: nat | i < |rows| && rows[i].login == login && since <= rows[i].ts
  }

  lemma {:induction false} CountIsSize(rows: seq<Row>, login: Login, since: int)
    ensures CountSince(rows, login, since) == |RowsSince(rows, login, since)|
  {
    if rows != [] {
      var n := |rows| - 1;
      var init, counted := RowsSince(rows[..n], login, since), RowsSince(rows, login, since);
      CountIsSize(rows[..n], login, since);
      if rows[n].login == login && since <= rows[n].ts {
        assert counted == init + {n};
      } else {
        assert counted == init;
      }
    }
  }

  predicate Recorded(rows: seq<Row>, delivery: Delivery) {
    exists i | 0 <= i < |rows| :: rows[i].delivery == delivery
  }

  class Submissions {
    var rows: seq<Row>

    constructor ()
      ensures rows == []
    {
      rows := [];
    }

    /** The `SELECT COUNT(*)` of a login from `since` on. */
    method CountFrom(login: Login, since: int) returns (n: nat)
      ensures n == CountSince(rows, login, since)
    {
      n := 0;
      for i := 0 to |rows|
        invariant n == CountSince(rows[..i], login, since)
      {
        assert rows[..i + 1][..i] == rows[..i];
        if rows[i].login == login && since <= rows[i].ts { n := n + 1; }
      }
      assert rows[..|rows|] == rows;
    }

    /** `admit_submission`; `now` is the clock at the insert. */
    method AdmitSubmission(delivery: Delivery, login: Login, since: int, cap: Option<int>, now: int) returns (a: Answer)
      modifies this
      ensures a.duplicate <==> Recorded(old(rows), delivery)
      ensures !a.accepted <==> !a.duplicate && cap.Some? && CountSince(old(rows), Lower(login), since) >= cap.value
      ensures rows == if a.accepted && !a.duplicate then old(rows) + [Row(delivery, Lower(login), now)] else old(rows)
      ensures rows == Admitted(old(rows), Call(delivery, login, since, cap, now))
      ensures since <= now ==> a.used == CountSince(rows, Lower(login), since)
      ensures !a.accepted <==>
        !a.duplicate && cap.Some? && |RowsSince(old(rows), Lower(login), since)| >= cap.value
      ensures since <= now ==> a.used == |RowsSince(rows, Lower(login), since)|
    {
      var who := Lower(login);
      CountIsSize(rows, who, since);
      var used := CountFrom(who, since);
      if exists i | 0 <= i < |rows| :: rows[i].delivery == delivery { return Answer(true, true, used); }
      if cap.Some? && used >= cap.value { return Answer(false, false, used); }
      assert (rows + [Row(delivery, who, now)])[..|rows|] == rows;
      rows := rows + [Row(delivery, who, now)];
      a := Answer(true, false, used + 1);
      CountIsSize(rows, who, since);
    }
  }

  /******* Runs *******/

  datatype Call = Call(delivery: Delivery, login: Login, since: int, cap: Option<int>, now: int)

  /** What `admit_submission` makes of the table. */
  function Admitted(rows: seq<Row>, c: Call): seq<Row> {
    if Recorded(rows, c.delivery) || (c.cap.Some? && CountSince(rows, Lower(c.login), c.since) >= c.cap.value) then rows
    else rows + [Row(c.delivery, Lower(c.login), c.now)]
  }

  function AfterAll(calls: seq<Call>): seq<Row> {
    if calls == [] then [] else Admitted(AfterAll(calls[..|calls| - 1]), calls[|calls| - 1])
  }

  /** The calls of a user are counted over at least the window, against a cap of at most `cap`. */
  predicate Capped(calls: seq<Call>, login: Login, window: nat, cap: nat) {
    forall i | 0 <= i < |calls| && Lower(calls[i].login) == login ::
      calls[i].cap.Some? && calls[i].cap.value <= cap && calls[i].since <= calls[i].now - window
  }

  lemma {:induction false} SpanWithinSince(rows: seq<Row>, login: Login, from: int, to: int, since: int)
    requires since <= from
    ensures Count(rows, login, from, to) <= CountSince(rows, login, since)
  {
    if rows != [] { SpanWithinSince(rows[..|rows| - 1], login, from, to, since); }
  }

  /**
   In every closed span of the length of the window a user has at most `cap` submissions, whether or not one
   ends it, and even if the clock jumps.
   */
  lemma {:induction false} AtMostCap(calls: seq<Call>, login: Login, window: nat, cap: nat, from: int)
    requires Capped(calls, login, window, cap)
    ensures Count(AfterAll(calls), login, from, from + window) <= cap
  {
    if calls != [] {
      var init, c := calls[..|calls| - 1], calls[|calls| - 1];
      var rows := AfterAll(init);
      AtMostCap(init, login, window, cap, from);
      assert (rows + [Row(c.delivery, Lower(c.login), c.now)])[..|rows|] == rows;
      if Lower(c.login) == login && from <= c.now <= from + window {
        SpanWithinSince(rows, login, from, from + window, c.since);
      }
    }
  }

  /** A delivery that comes again changes nothing, also when the cap has been reached since. */
  lemma DuplicateIsNoop(calls: seq<Call>, c: Call, again: Call)
    requires again.delivery == c.delivery && Admitted(AfterAll(calls), c) != AfterAll(calls)
    ensures Admitted(Admitted(AfterAll(calls), c), again) == Admitted(AfterAll(calls), c)
  {
    var rows := Admitted(AfterAll(calls), c);
    assert rows[|rows| - 1].delivery == c.delivery;
  }

  /** No delivery is counted twice. */
  lemma {:induction false} DeliveriesDistinct(calls: seq<Call>)
    ensures forall i, j | 0 <= i < j < |AfterAll(calls)| :: AfterAll(calls)[i].delivery != AfterAll(calls)[j].delivery
  {
    if calls != [] {
      var rows := AfterAll(calls[..|calls| - 1]);
      DeliveriesDistinct(calls[..|calls| - 1]);
      var c := calls[|calls| - 1];
      if Admitted(rows, c) != rows {
        assert !Recorded(rows, c.delivery);
        forall i | 0 <= i < |rows| ensures rows[i].delivery != c.delivery {
          assert rows[i].delivery == c.delivery ==> Recorded(rows, c.delivery);
        }
        assert AfterAll(calls) == rows + [Row(c.delivery, Lower(c.login), c.now)];
      }
    }
  }
}
