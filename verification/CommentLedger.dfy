/** Posting one logical comment at most once: an intent row is written first, and retries reconcile with the thread. */
module CommentLedger {
  import opened Basics
  import opened Text

  datatype RowState = Pending | Failed | Done

  datatype Row = Row(state: RowState, remoteId: nat, attempts: nat)

  /** A comment of the thread; `ours` marks the copies of the logical comment. */
  datatype Comment = Comment(id: nat, body: string, ours: bool)

  datatype State = State(row: Option<Row>, thread: seq<Comment>)

  /** Where the process dies, if it does. */
  datatype Crash = NoCrash | BeforeBegin | BeforePost | AfterPost

  /** What becomes of the post: `kept` is the body the server stores if it lands. */
  datatype Post = Post(lands: bool, kept: string, answered: bool)

  /** What the world does to one attempt. */
  datatype Attempt = Attempt(listing: bool, crash: Crash, post: Post, id: nat)

  datatype Outcome = Deduped(id: nat) | Posted(id: nat) | Raised | Died

  /******* The attempt as a function *******/

  /** Which comments reconcile with the one to post. */
  type Wanted = Comment -> bool

  function SameText(body: string): Wanted {
    (c: Comment) => Strip(c.body) == Strip(body)
  }

  function FirstMatch(thread: seq<Comment>, w: Wanted): Option<nat> {
    if thread == [] then None
    else if w(thread[0]) then Some(thread[0].id)
    else FirstMatch(thread[1..], w)
  }

  lemma {:induction false} FirstMatchIs(thread: seq<Comment>, w: Wanted)
    ensures FirstMatch(thread, w).None? <==> forall i | 0 <= i < |thread| :: !w(thread[i])
    ensures FirstMatch(thread, w).Some? ==> FirstIs(thread, w, FirstMatch(thread, w).value)
  {
    if thread != [] {
      var rest := thread[1..];
      FirstMatchIs(rest, w);
      assert forall i | 0 <= i < |rest| :: rest[i] == thread[i + 1];
      if w(thread[0]) {
        assert FirstIs(thread, w, thread[0].id);
      } else if i :| 0 <= i < |rest| && w(rest[i]) && rest[i].id == FirstMatch(rest, w).value
                     && forall j | 0 <= j < i :: !w(rest[j]) {
        assert w(thread[i + 1]) && forall j | 0 <= j < i + 1 :: !w(thread[j]);
      }
    }
  }

  /** The first comment that is wanted has this id. */
  ghost predicate FirstIs(thread: seq<Comment>, w: Wanted, id: nat) {
    exists i :: 0 <= i < |thread| && w(thread[i]) && thread[i].id == id && forall j | 0 <= j < i :: !w(thread[j])
  }

  function Begun(row: Option<Row>): Row {
    if row.None? then Row(Pending, 0, 1) else row.value.(state := Pending, attempts := row.value.attempts + 1)
  }

  function Finished(s: State, id: nat): State {
    if s.row.None? then s else s.(row := Some(s.row.value.(state := Done, remoteId := id)))
  }

  /** Intent, post, and the record of what came back. */
  function PostFrom(s: State, a: Attempt): State {
    if a.crash == BeforeBegin then s
    else
      var begun := s.(row := Some(Begun(s.row)));
      if a.crash == BeforePost then begun
      else
        var sent := if a.post.lands then begun.(thread := begun.thread + [Comment(a.id, a.post.kept, true)]) else begun;
        if a.crash == AfterPost then sent
        else if a.post.lands && a.post.answered then Finished(sent, a.id)
        else sent.(row := Some(sent.row.value.(state := Failed)))
  }

  function Try(s: State, w: Wanted, a: Attempt): State {
    if s.row.None? then PostFrom(s, a)
    else if s.row.value.state == Done then s
    else
      var found := if a.listing then FirstMatch(s.thread, w) else None;
      if found.None? then PostFrom(s, a)
      else if a.crash == BeforeBegin then s
      else Finished(s, found.value)
  }

  /******* What an attempt does *******/

  predicate IsDone(row: Option<Row>) { row.Some? && row.value.state == Done }

  /** A comment of the thread has the text, up to white space around it. */
  ghost predicate HasCopy(thread: seq<Comment>, body: string) {
    exists i :: 0 <= i < |thread| && Strip(thread[i].body) == Strip(body)
  }

  /** The first comment of the thread with the text has this id. */
  ghost predicate FirstCopy(thread: seq<Comment>, body: string, id: nat) {
    exists i :: 0 <= i < |thread| && Strip(thread[i].body) == Strip(body) && thread[i].id == id
      && forall j | 0 <= j < i :: Strip(thread[j].body) != Strip(body)
  }

  /** An earlier attempt is found in the thread. */
  ghost predicate Reconciled(row: Option<Row>, thread: seq<Comment>, body: string, a: Attempt) {
    row.Some? && row.value.state != Done && a.listing && HasCopy(thread, body)
  }

  lemma FirstCopyIs(thread: seq<Comment>, body: string)
    ensures FirstMatch(thread, SameText(body)).Some? <==> HasCopy(thread, body)
    ensures FirstMatch(thread, SameText(body)).Some? ==>
      FirstCopy(thread, body, FirstMatch(thread, SameText(body)).value)
  {
    FirstMatchIs(thread, SameText(body));
  }

  /**
   Intent, post and record: posted exactly when the post lands and is answered and the process lives, raised exactly
   when it lives and the post fails or is not answered; what row and thread hold at each place where it dies.
   */
  ghost predicate PostDone(row: Option<Row>, thread: seq<Comment>, a: Attempt, r: Outcome,
                           after: Option<Row>, copies: seq<Comment>)
  {
    var attempts := if row.Some? then row.value.attempts + 1 else 1;
    var remoteId := if row.Some? then row.value.remoteId else 0;
    var sent := thread + (if a.post.lands then [Comment(a.id, a.post.kept, true)] else []);
    match a.crash
    case BeforeBegin => r == Died && after == row && copies == thread
    case BeforePost => r == Died && after == Some(Row(Pending, remoteId, attempts)) && copies == thread
    case AfterPost => r == Died && after == Some(Row(Pending, remoteId, attempts)) && copies == sent
    case NoCrash =>
      copies == sent
      && if a.post.lands && a.post.answered then r == Posted(a.id) && after == Some(Row(Done, a.id, attempts))
         else r == Raised && after == Some(Row(Failed, remoteId, attempts))
  }

  /******* The ledger and the thread *******/

  class Ledger {
    var row: Option<Row>
    var thread: seq<Comment>

    constructor ()
      ensures State(row, thread) == START
    {
      row, thread := None, [];
    }

    /** `begin_side_effect`. */
    method BeginSideEffect()
      modifies this`row
      ensures row == Some(Begun(old(row)))
      ensures old(row).None? ==> row == Some(Row(Pending, 0, 1))
      ensures old(row).Some? ==> row == Some(Row(Pending, old(row).value.remoteId, old(row).value.attempts + 1))
    {
      if row.None? {
        row := Some(Row(Pending, 0, 1));
      } else {
        row := Some(Row(Pending, row.value.remoteId, row.value.attempts + 1));
      }
    }

    /** `finish_side_effect`: an update, so nothing happens without a row. */
    method FinishSideEffect(id: nat)
      modifies this`row
      ensures State(row, thread) == Finished(old(State(row, thread)), id)
      ensures row.Some? <==> old(row).Some?
      ensures row.Some? ==> row == Some(Row(Done, id, old(row).value.attempts))
    {
      if row.Some? { row := Some(row.value.(state := Done, remoteId := id)); }
    }

    /** `fail_side_effect`. */
    method FailSideEffect()
      modifies this`row
      ensures old(row).Some? ==> row == Some(old(row).value.(state := Failed))
      ensures old(row).None? ==> row == None
    {
      if row.Some? { row := Some(row.value.(state := Failed)); }
    }

    /** The reconciliation with the comments of the thread, by body. */
    method FindExisting(body: string) returns (found: Option<nat>)
      ensures found == FirstMatch(thread, SameText(body))
    {
      found := FindFirst(SameText(body));
    }

    /** Its loop. */
    method FindFirst(w: Wanted) returns (found: Option<nat>)
      ensures found == FirstMatch(thread, w)
    {
      var i := 0;
      while i < |thread|
        invariant 0 <= i <= |thread| && FirstMatch(thread, w) == FirstMatch(thread[i..], w)
      {
        assert thread[i..][1..] == thread[i + 1..];
        if w(thread[i]) { return Some(thread[i].id); }
        i := i + 1;
      }
      found := None;
    }

    /** The intent row, the post, and the record of what came back. */
    method PostNew(a: Attempt) returns (r: Outcome)
      modifies this
      ensures State(row, thread) == PostFrom(old(State(row, thread)), a)
      ensures PostDone(old(row), old(thread), a, r, row, thread)
    {
      if a.crash == BeforeBegin { return Died; }
      BeginSideEffect();
      if a.crash == BeforePost { return Died; }
      if a.post.lands { thread := thread + [Comment(a.id, a.post.kept, true)]; }
      if a.crash == AfterPost { return Died; }
      if !a.post.lands || !a.post.answered {
        FailSideEffect();
        return Raised;
      }
      FinishSideEffect(a.id);
      r := Posted(a.id);
    }

    /** `_post_comment_idempotent`. */
    method PostCommentIdempotent(body: string, a: Attempt) returns (r: Outcome)
      modifies this
      ensures State(row, thread) == Try(old(State(row, thread)), SameText(body), a)
      ensures IsDone(old(row)) ==> r == Deduped(old(row).value.remoteId) && row == old(row) && thread == old(thread)
      ensures Reconciled(old(row), old(thread), body, a) ==>
        thread == old(thread)
        && if a.crash == BeforeBegin then r == Died && row == old(row)
           else r.Deduped? && FirstCopy(thread, body, r.id) && row == Some(Row(Done, r.id, old(row).value.attempts))
      ensures !IsDone(old(row)) && !Reconciled(old(row), old(thread), body, a) ==>
        PostDone(old(row), old(thread), a, r, row, thread)
    {
      FirstCopyIs(thread, body);
      if row.Some? && row.value.state == Done { return Deduped(row.value.remoteId); }
      if row.Some? && a.listing {
        var found := FindExisting(body);
        if found.Some? {
          if a.crash == BeforeBegin { return Died; }
          FinishSideEffect(found.value);
          return Deduped(found.value);
        }
      }
      r := PostNew(a);
    }
  }

  /******* Runs *******/

  const START := State(None, [])

  /** The orchestrator tries, or someone else writes to the thread. */
  datatype Event = Tried(a: Attempt) | Other(comment: Comment)

  /** The server keeps the text of a comment, up to white space at its ends. */
  predicate Possible(w: Wanted, e: Event) {
    match e
    case Tried(a) => w(Comment(a.id, a.post.kept, true))
    case Other(c) => !c.ours
  }

  function Happen(s: State, w: Wanted, e: Event): State {
    match e
    case Tried(a) => Try(s, w, a)
    case Other(c) => s.(thread := s.thread + [c])
  }

  function After(w: Wanted, events: seq<Event>): State {
    if events == [] then START else Happen(After(w, events[..|events| - 1]), w, events[|events| - 1])
  }

  function Copies(thread: seq<Comment>): nat {
    if thread == [] then 0 else Copies(thread[..|thread| - 1]) + if thread[|thread| - 1].ours then 1 else 0
  }

  predicate BlindRetry(s: State, e: Event) {
    e.Tried? && s.row.Some? && s.row.value.state != Done && !e.a.listing
  }

  /** The retries whose reconciliation listing failed. */
  function BlindRetries(w: Wanted, events: seq<Event>): nat {
    if events == [] then 0
    else
      var init := events[..|events| - 1];
      BlindRetries(w, init) + if BlindRetry(After(w, init), events[|events| - 1]) then 1 else 0
  }

  ghost predicate Sound(s: State, w: Wanted, blind: nat) {
    Copies(s.thread) <= 1 + blind
    && (Copies(s.thread) > 0 ==> s.row.Some?)
    && (forall i | 0 <= i < |s.thread| && s.thread[i].ours :: w(s.thread[i]))
    && (s.row.Some? && s.row.value.state == Done ==>
      exists i | 0 <= i < |s.thread| :: w(s.thread[i]) && s.thread[i].id == s.row.value.remoteId)
  }

  lemma {:induction false} NoneOurs(thread: seq<Comment>)
    requires forall i | 0 <= i < |thread| :: !thread[i].ours
    ensures Copies(thread) == 0
  {
    if thread != [] { NoneOurs(thread[..|thread| - 1]); }
  }

  lemma Appended(thread: seq<Comment>, c: Comment)
    ensures Copies(thread + [c]) == Copies(thread) + if c.ours then 1 else 0
  {
  }

  lemma RowChanged(s: State, w: Wanted, blind: nat, r: Row)
    requires Sound(s, w, blind) && r.state != Done
    ensures Sound(s.(row := Some(r)), w, blind)
  {
  }

  /** One more copy, where the bound has room for it. */
  lemma CopyAdded(s: State, w: Wanted, blind: nat, c: Comment)
    requires Sound(s, w, blind) && s.row.Some? && s.row.value.state != Done && Copies(s.thread) <= blind
    requires c.ours && w(c)
    ensures var t := s.(thread := s.thread + [c]); Sound(t, w, blind) && Sound(Finished(t, c.id), w, blind)
  {
    Appended(s.thread, c);
    var thread := s.thread + [c];
    assert thread[|s.thread|] == c;
    assert forall i | 0 <= i < |s.thread| :: thread[i] == s.thread[i];
  }

  lemma PostSound(s: State, w: Wanted, a: Attempt, blind: nat)
    requires Sound(s, w, blind) && w(Comment(a.id, a.post.kept, true))
    requires s.row.Some? ==> s.row.value.state != Done
    requires Copies(s.thread) <= blind
    ensures Sound(PostFrom(s, a), w, blind)
  {
    var c := Comment(a.id, a.post.kept, true);
    var begun := s.(row := Some(Begun(s.row)));
    var sent := if a.post.lands then begun.(thread := begun.thread + [c]) else begun;
    RowChanged(s, w, blind, Begun(s.row));
    CopyAdded(begun, w, blind, c);
    RowChanged(sent, w, blind, sent.row.value.(state := Failed));
    PostIs(s, a, begun, sent);
  }

  lemma PostIs(s: State, a: Attempt, begun: State, sent: State)
    requires begun == s.(row := Some(Begun(s.row)))
    requires sent == if a.post.lands then begun.(thread := begun.thread + [Comment(a.id, a.post.kept, true)]) else begun
    ensures PostFrom(s, a) in {s, begun, sent, sent.(row := Some(sent.row.value.(state := Failed)))}
      || (a.post.lands && PostFrom(s, a) == Finished(sent, a.id))
  {
  }

  lemma StepSound(s: State, w: Wanted, e: Event, blind: nat)
    requires Sound(s, w, blind) && Possible(w, e)
    ensures Sound(Happen(s, w, e), w, blind + if BlindRetry(s, e) then 1 else 0)
  {
    match e
    case Other(c) =>
      Appended(s.thread, c);
      var t := s.thread + [c];
      assert forall i | 0 <= i < |s.thread| :: t[i] == s.thread[i];
    case Tried(a) =>
      if s.row.None? {
        PostSound(s, w, a, blind);
      } else if s.row.value.state != Done {
        var found := if a.listing then FirstMatch(s.thread, w) else None;
        if found.Some? {
          FirstMatchIs(s.thread, w);
        } else {
          if a.listing {
            FirstMatchIs(s.thread, w);
            NoneOurs(s.thread);
          }
          PostSound(s, w, a, blind + if a.listing then 0 else 1);
        }
      }
  }

  /**
   However often the post is tried and wherever the process dies, the thread has at most one copy more than
   there were retries without a listing; a copy has a ledger row; and a row that says done has its comment.
   */
  lemma {:induction false} AtMostOnce(w: Wanted, events: seq<Event>)
    requires forall i | 0 <= i < |events| :: Possible(w, events[i])
    ensures Sound(After(w, events), w, BlindRetries(w, events))
  {
    if events != [] {
      var init := events[..|events| - 1];
      AtMostOnce(w, init);
      StepSound(After(w, init), w, events[|events| - 1], BlindRetries(w, init));
    }
  }

  /** Every retry lands, is not answered, and has no listing. */
  function Unlucky(body: string, n: nat): seq<Event> {
    seq(n, _ => UnluckyOnce(body))
  }

  function UnluckyOnce(body: string): Event { Tried(Attempt(false, NoCrash, Post(true, body, false), 0)) }

  /** The bound is reached: n + 1 such attempts leave n + 1 copies. */
  lemma {:induction false} BoundIsReached(w: Wanted, body: string, n: nat)
    ensures Copies(After(w, Unlucky(body, n + 1)).thread) == n + 1
    ensures BlindRetries(w, Unlucky(body, n + 1)) == n
    ensures After(w, Unlucky(body, n + 1)).row.Some? && After(w, Unlucky(body, n + 1)).row.value.state == Failed
  {
    var init := Unlucky(body, n);
    if n > 0 { BoundIsReached(w, body, n - 1); }
    assert Unlucky(body, n + 1) == init + [UnluckyOnce(body)];
    OneMore(w, init, UnluckyOnce(body));
    UnluckyMore(After(w, init), w, body);
  }

  lemma OneMore(w: Wanted, init: seq<Event>, e: Event)
    ensures After(w, init + [e]) == Happen(After(w, init), w, e)
    ensures BlindRetries(w, init + [e]) == BlindRetries(w, init) + if BlindRetry(After(w, init), e) then 1 else 0
  {
    assert (init + [e])[..|init|] == init;
  }

  /** One more attempt that lands, is not answered, and had no listing. */
  lemma UnluckyMore(s: State, w: Wanted, body: string)
    requires s.row.Some? ==> s.row.value.state == Failed
    ensures var e := UnluckyOnce(body); var z := Happen(s, w, e);
      Copies(z.thread) == Copies(s.thread) + 1 && z.row.Some? && z.row.value.state == Failed
      && (BlindRetry(s, e) <==> s.row.Some?)
  {
    Appended(s.thread, Comment(0, body, true));
  }

  /** A row that is done stays done, and the thread gets no further copy. */
  lemma DoneIsFinal(s: State, w: Wanted, e: Event)
    requires s.row.Some? && s.row.value.state == Done && Possible(w, e)
    ensures Happen(s, w, e).row == s.row && Copies(Happen(s, w, e).thread) == Copies(s.thread)
  {
    if e.Other? { Appended(s.thread, e.comment); }
  }
}
