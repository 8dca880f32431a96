/** The local index of issues, kept current by page-budgeted syncs from a watermark that is rewound by an overlap. */
module IssueIndex {
  import opened Basics

  const OVERLAP := 120   // seconds
  const PAGE_SIZE := 100
  const MAX_PAGES := 30
  const BUDGET := 3000   // PAGE_SIZE * MAX_PAGES

  type Number = nat

  datatype Entry = Entry(number: Number, updated: int, content: string)

  type Items = map<Number, Entry>

  predicate Keyed(items: Items) { forall k | k in items :: items[k].number == k }

  /** `_overlapped`; None asks for everything. */
  function Since(watermark: Option<int>): Option<int> {
    if watermark.Some? then Some(watermark.value - OVERLAP) else None
  }

  predicate AtLeast(e: Entry, since: Option<int>) { since.Some? ==> since.value <= e.updated }

  predicate Ascending(s: seq<Entry>) {
    forall i, j | 0 <= i < j < |s| :: s[i].updated <= s[j].updated
  }

  /** What the pages of the server say, one after another: all entries from `since` on, oldest update first. */
  ghost predicate Lists(listing: seq<Entry>, remote: Items, since: Option<int>) {
    Ascending(listing) && (forall i, j | 0 <= i < j < |listing| :: listing[i].number != listing[j].number)
    && (forall i | 0 <= i < |listing| ::
      listing[i].number in remote && remote[listing[i].number] == listing[i] && AtLeast(listing[i], since))
    && forall k | k in remote && AtLeast(remote[k], since) :: remote[k] in listing
  }

  function Min(a: nat, b: nat): nat { if a < b then a else b }

  function PageOf(listing: seq<Entry>, page: nat): seq<Entry>
    requires page >= 1
  {
    listing[Min((page - 1) * PAGE_SIZE, |listing|)..Min(page * PAGE_SIZE, |listing|)]
  }

  function Ingest(index: Items, batch: seq<Entry>): Items {
    if batch == [] then index
    else var e := batch[|batch| - 1]; Ingest(index, batch[..|batch| - 1])[e.number := e]
  }

  /** The watermark after a tick that got through: its start if the listing was exhausted, else the newest
      update seen. */
  function NextWatermark(listing: seq<Entry>, startedAt: int): int {
    if |listing| < BUDGET then startedAt else listing[BUDGET - 1].updated
  }

  /** How many entries a tick reads before it ends or a request fails. */
  function Reach(listing: seq<Entry>, failing: Option<nat>): nat {
    var all := Min(BUDGET, |listing|);
    if failing.Some? && 1 <= failing.value <= MAX_PAGES && (failing.value - 1) * PAGE_SIZE <= |listing| then
      Min((failing.value - 1) * PAGE_SIZE, all) else all
  }

  predicate Fails(listing: seq<Entry>, failing: Option<nat>) {
    failing.Some? && 1 <= failing.value <= MAX_PAGES && (failing.value - 1) * PAGE_SIZE <= |listing|
  }

  class IssueIndexSync {
    var index: Items
    var watermark: Option<int>

    constructor ()
      ensures index == map[] && watermark == None
    {
      index, watermark := map[], None;
    }

    /** `upsert_issue_index` for every entry of a page. */
    method IngestPage(batch: seq<Entry>, seen: Option<int>) returns (lastSeen: Option<int>)
      requires Ascending(batch)
      requires seen.Some? && batch != [] ==> seen.value <= batch[0].updated
      modifies this`index
      ensures index == Ingest(old(index), batch)
      ensures lastSeen == if batch == [] then seen else Some(batch[|batch| - 1].updated)
    {
      lastSeen := seen;
      for n := 0 to |batch|
        invariant index == Ingest(old(index), batch[..n])
        invariant lastSeen == if n == 0 then seen else Some(batch[n - 1].updated)
      {
        assert batch[..n + 1][..n] == batch[..n];
        index := index[batch[n].number := batch[n]];
        if lastSeen.None? || batch[n].updated > lastSeen.value { lastSeen := Some(batch[n].updated); }
      }
      assert batch[..|batch|] == batch;
    }

    /** `sync_repo`. The request for page `failing`, if it comes to that, ends the tick with an error. */
    method SyncRepo(listing: seq<Entry>, startedAt: int, failing: Option<nat>) returns (ok: bool, ingested: nat)
      requires Ascending(listing)
      modifies this
      ensures ok <==> !Fails(listing, failing)
      ensures ingested == Reach(listing, failing) && index == Ingest(old(index), listing[..ingested])
      ensures watermark == if ok then Some(NextWatermark(listing, startedAt)) else old(watermark)
      ensures !ok <==> failing.Some? && 1 <= failing.value <= MAX_PAGES && (failing.value - 1) * PAGE_SIZE <= |listing|
      ensures ok ==> ingested == if |listing| < BUDGET then |listing| else BUDGET
      ensures !ok ==> ingested == (failing.value - 1) * PAGE_SIZE && watermark == old(watermark)
      ensures ok && |listing| < BUDGET ==> watermark == Some(startedAt)
      ensures ok && |listing| >= BUDGET ==> watermark == Some(listing[BUDGET - 1].updated)
      ensures Updated(old(index), index, listing[..ingested])
    {
      ok, ingested := ReadPages(listing, startedAt, failing);
      IngestUpdates(old(index), listing[..ingested]);
    }

    /** The loop over the pages, and the new watermark. */
    method ReadPages(listing: seq<Entry>, startedAt: int, failing: Option<nat>) returns (ok: bool, ingested: nat)
      requires Ascending(listing)
      modifies this
      ensures ok <==> !Fails(listing, failing)
      ensures ingested == Reach(listing, failing) && index == Ingest(old(index), listing[..ingested])
      ensures watermark == if ok then Some(NextWatermark(listing, startedAt)) else old(watermark)
    {
      ingested, ok := 0, true;
      var exhausted, lastSeen := false, None;
      var page := 1;
      while page <= MAX_PAGES && !exhausted
        invariant 1 <= page <= MAX_PAGES + 1 && watermark == old(watermark)
        invariant ingested == Min((page - 1) * PAGE_SIZE, |listing|)
        invariant exhausted <==> |listing| < (page - 1) * PAGE_SIZE
        invariant NotBefore(listing, failing, page)
        invariant index == Ingest(old(index), listing[..ingested])
        invariant lastSeen == if ingested == 0 then None else Some(listing[ingested - 1].updated)
      {
        if failing == Some(page) {
          ReachAtFailure(listing, failing, page);
          return false, ingested;
        }
        var batch := PageOf(listing, page);
        PageStep(old(index), listing, page, ingested, batch);
        lastSeen := IngestPage(batch, lastSeen);
        ingested := ingested + |batch|;
        if |batch| < PAGE_SIZE { exhausted := true; }
        page := page + 1;
      }
      ReachAtEnd(listing, failing, page);
      if exhausted { watermark := Some(startedAt); } else if lastSeen.Some? { watermark := lastSeen; }
    }
  }

  /** No request before that for `page` has failed. */
  predicate NotBefore(listing: seq<Entry>, failing: Option<nat>, page: nat) {
    failing.Some? && 1 <= failing.value < page ==> |listing| < (failing.value - 1) * PAGE_SIZE
  }

  lemma ReachAtFailure(listing: seq<Entry>, failing: Option<nat>, page: nat)
    requires failing == Some(page) && 1 <= page <= MAX_PAGES && |listing| >= (page - 1) * PAGE_SIZE
    ensures Fails(listing, failing) && Reach(listing, failing) == Min((page - 1) * PAGE_SIZE, |listing|)
  {
  }

  lemma ReachAtEnd(listing: seq<Entry>, failing: Option<nat>, page: nat)
    requires NotBefore(listing, failing, page) && 1 <= page <= MAX_PAGES + 1
    requires page == MAX_PAGES + 1 || |listing| < (page - 1) * PAGE_SIZE
    ensures !Fails(listing, failing) && Reach(listing, failing) == Min((page - 1) * PAGE_SIZE, |listing|)
    ensures |listing| < (page - 1) * PAGE_SIZE <==> |listing| < BUDGET
  {
  }

  lemma PageStep(index: Items, listing: seq<Entry>, page: nat, from: nat, batch: seq<Entry>)
    requires Ascending(listing) && page >= 1 && from == Min((page - 1) * PAGE_SIZE, |listing|)
    requires batch == PageOf(listing, page)
    ensures from + |batch| == Min(page * PAGE_SIZE, |listing|)
    ensures Ascending(batch) && (batch != [] && from > 0 ==> listing[from - 1].updated <= batch[0].updated)
    ensures batch != [] ==> batch[|batch| - 1] == listing[from + |batch| - 1]
    ensures |batch| < PAGE_SIZE <==> |listing| < page * PAGE_SIZE
    ensures Ingest(Ingest(index, listing[..from]), batch) == Ingest(index, listing[..from + |batch|])
  {
    var to := Min(page * PAGE_SIZE, |listing|);
    PageBounds(|listing|, page, from, to);
    SliceStep(index, listing, from, to, batch);
  }

  lemma SliceStep(index: Items, listing: seq<Entry>, from: nat, to: nat, batch: seq<Entry>)
    requires Ascending(listing) && from <= to <= |listing| && batch == listing[from..to]
    ensures Ascending(batch) && (batch != [] && from > 0 ==> listing[from - 1].updated <= batch[0].updated)
    ensures batch != [] ==> batch[|batch| - 1] == listing[to - 1]
    ensures Ingest(Ingest(index, listing[..from]), batch) == Ingest(index, listing[..to])
  {
    SliceAt(listing, from, to);
    SliceAscending(listing, from, to, batch);
    IngestConcat(index, listing[..from], batch);
  }

  lemma PageBounds(n: nat, page: nat, from: nat, to: nat)
    requires page >= 1 && from == Min((page - 1) * PAGE_SIZE, n) && to == Min(page * PAGE_SIZE, n)
    ensures from <= to <= n && (to - from < PAGE_SIZE <==> n < page * PAGE_SIZE)
  {
  }

  lemma SliceAscending(listing: seq<Entry>, from: nat, to: nat, batch: seq<Entry>)
    requires Ascending(listing) && from <= to <= |listing| && |batch| == to - from
    requires forall i | 0 <= i < to - from :: batch[i] == listing[from + i]
    ensures Ascending(batch)
    ensures batch != [] && from > 0 ==> listing[from - 1].updated <= batch[0].updated
    ensures batch != [] ==> batch[|batch| - 1] == listing[to - 1]
  {
    forall i, j | 0 <= i < j < |batch|
      ensures batch[i].updated <= batch[j].updated { InOrder(listing, from + i, from + j); }
    if batch != [] && from > 0 { InOrder(listing, from - 1, from); }
  }

  lemma InOrder(listing: seq<Entry>, i: nat, j: nat)
    requires Ascending(listing) && i < j < |listing|
    ensures listing[i].updated <= listing[j].updated
  {
  }

  lemma SliceAt<T>(s: seq<T>, from: nat, to: nat)
    requires from <= to <= |s|
    ensures |s[from..to]| == to - from && forall i | 0 <= i < to - from :: s[from..to][i] == s[from + i]
    ensures s[..from] + s[from..to] == s[..to]
  {
  }

  lemma {:induction false} IngestConcat(index: Items, a: seq<Entry>, b: seq<Entry>)
    ensures Ingest(index, a + b) == Ingest(Ingest(index, a), b)
  {
    if b == [] {
      assert a + b == a;
    } else {
      assert (a + b)[..|a + b| - 1] == a + b[..|b| - 1];
      IngestConcat(index, a, b[..|b| - 1]);
    }
  }

  /** Entry i of the batch is the last one for number k. */
  predicate GivenAt(batch: seq<Entry>, k: Number, i: nat) {
    i < |batch| && batch[i].number == k && forall j | i < j < |batch| :: batch[j].number != k
  }

  /** The index has the last entry given for number k, or what it had if none was given. */
  ghost predicate UpdatedAt(before: Items, after: Items, batch: seq<Entry>, k: Number) {
    (forall i: nat | GivenAt(batch, k, i) :: k in after && after[k] == batch[i])
    && ((forall i | 0 <= i < |batch| :: batch[i].number != k) ==>
      (k in after <==> k in before) && (k in before ==> after[k] == before[k]))
  }

  ghost predicate Updated(before: Items, after: Items, batch: seq<Entry>) {
    forall k :: UpdatedAt(before, after, batch, k)
  }

  lemma {:induction false} IngestUpdates(before: Items, batch: seq<Entry>)
    ensures Updated(before, Ingest(before, batch), batch)
  {
    if batch != [] {
      var init, last := batch[..|batch| - 1], batch[|batch| - 1];
      IngestUpdates(before, init);
      assert batch == init + [last];
      forall k ensures UpdatedAt(before, Ingest(before, batch), batch, k) {
        assert UpdatedAt(before, Ingest(before, init), init, k);
        OneMoreEntry(before, Ingest(before, init), init, last, k);
      }
    }
  }

  lemma OneMoreEntry(before: Items, after: Items, init: seq<Entry>, last: Entry, k: Number)
    requires UpdatedAt(before, after, init, k)
    ensures UpdatedAt(before, after[last.number := last], init + [last], k)
  {
    var batch, index := init + [last], after[last.number := last];
    assert batch[|init|] == last && forall i | 0 <= i < |init| :: batch[i] == init[i];
    forall i: nat | GivenAt(batch, k, i) ensures k in index && index[k] == batch[i] {
      if k != last.number { assert GivenAt(init, k, i); }
    }
  }

  /******* What the index promises *******/

  /** Every remote item last updated before the watermark less the overlap is indexed as it is. */
  ghost predicate Current(remote: Items, index: Items, watermark: Option<int>) {
    watermark.Some? ==>
      forall k | k in remote && remote[k].updated < watermark.value - OVERLAP :: k in index && index[k] == remote[k]
  }

  /** The remote and the local side, with the clock of each. */
  datatype State = State(remote: Items, index: Items, watermark: Option<int>, now: int, serverNow: int)

  datatype Step =
    | Tick(listing: seq<Entry>, failing: Option<nat>)
    | Pass(localNow: int, remoteNow: int)          // both clocks advance
    | Update(k: Number, content: string)           // on the server
    | Remove(rk: Number)                           // on the server
    | Webhook(wk: Number)                          // a delivery brings the current state of an item
    | Prune                                        // a complete enumeration drops what the server no longer has

  ghost predicate Enabled(s: State, t: Step) {
    match t
    case Tick(listing, _) => Lists(listing, s.remote, Since(s.watermark))
    case Pass(l, r) => s.now <= l && s.serverNow <= r && l - r <= OVERLAP
    case Webhook(k) => k in s.remote
    case _ => true
  }

  ghost function Do(s: State, t: Step): State {
    match t
    case Tick(listing, failing) =>
      s.(index := Ingest(s.index, listing[..Reach(listing, failing)]),
         watermark := if Fails(listing, failing) then s.watermark else Some(NextWatermark(listing, s.now)))
    case Pass(l, r) => s.(now := l, serverNow := r)
    case Update(k, content) => s.(remote := s.remote[k := Entry(k, s.serverNow, content)])
    case Remove(k) => s.(remote := s.remote - {k})
    case Webhook(k) => if k in s.remote then s.(index := s.index[k := s.remote[k]]) else s
    case Prune => s.(index := map k | k in s.index && k in s.remote :: s.index[k])
  }

  /** The local clock is at most the overlap ahead of the server's, and the server stamps with its clock. */
  ghost predicate Inv(s: State) {
    Keyed(s.remote) && Current(s.remote, s.index, s.watermark)
    && s.now - s.serverNow <= OVERLAP
    && (forall k | k in s.remote :: s.remote[k].updated <= s.serverNow)
    && (s.watermark.Some? ==> s.watermark.value <= s.serverNow + OVERLAP)
  }

  lemma {:induction false} IngestKeeps(index: Items, batch: seq<Entry>, remote: Items, k: Number)
    requires Keyed(remote) && k in remote && k in index && index[k] == remote[k]
    requires forall i | 0 <= i < |batch| :: batch[i].number in remote && remote[batch[i].number] == batch[i]
    ensures k in Ingest(index, batch) && Ingest(index, batch)[k] == remote[k]
  {
    if batch != [] { IngestKeeps(index, batch[..|batch| - 1], remote, k); }
  }

  lemma {:induction false} IngestBrings(index: Items, batch: seq<Entry>, remote: Items, j: nat)
    requires Keyed(remote) && j < |batch|
    requires forall i | 0 <= i < |batch| :: batch[i].number in remote && remote[batch[i].number] == batch[i]
    ensures batch[j].number in Ingest(index, batch) && Ingest(index, batch)[batch[j].number] == remote[batch[j].number]
  {
    if j < |batch| - 1 { IngestBrings(index, batch[..|batch| - 1], remote, j); }
  }

  lemma TickCurrent(s: State, listing: seq<Entry>, failing: Option<nat>, k: Number)
    requires Inv(s) && Lists(listing, s.remote, Since(s.watermark)) && k in s.remote
    requires var w := Do(s, Tick(listing, failing)).watermark; w.Some? && s.remote[k].updated < w.value - OVERLAP
    ensures var i := Do(s, Tick(listing, failing)).index; k in i && i[k] == s.remote[k]
  {
    var batch := listing[..Reach(listing, failing)];
    assert forall i | 0 <= i < |batch| :: batch[i] == listing[i];
    if AtLeast(s.remote[k], Since(s.watermark)) && !Fails(listing, failing) {
      var j :| 0 <= j < |listing| && listing[j] == s.remote[k];
      assert j < |batch|;
      IngestBrings(s.index, batch, s.remote, j);
    } else {
      IngestKeeps(s.index, batch, s.remote, k);
    }
  }

  lemma TickInv(s: State, listing: seq<Entry>, failing: Option<nat>)
    requires Inv(s) && Enabled(s, Tick(listing, failing))
    ensures Inv(Do(s, Tick(listing, failing)))
  {
    var t := Do(s, Tick(listing, failing));
    if t.watermark.Some? {
      forall k | k in t.remote && t.remote[k].updated < t.watermark.value - OVERLAP
        ensures k in t.index && t.index[k] == t.remote[k] {
        TickCurrent(s, listing, failing, k);
      }
    }
  }

  lemma StepInv(s: State, t: Step)
    requires Inv(s) && Enabled(s, t)
    ensures Inv(Do(s, t))
  {
    if t.Tick? { TickInv(s, t.listing, t.failing); }
  }

  ghost predicate Feasible(s: State, steps: seq<Step>)
    decreases |steps|
  {
    steps == [] || (Enabled(s, steps[0]) && Feasible(Do(s, steps[0]), steps[1..]))
  }

  ghost function After(s: State, steps: seq<Step>): State
    decreases |steps|
  {
    if steps == [] then s else After(Do(s, steps[0]), steps[1..])
  }

  /** After every run of ticks, complete, cut or failed, and whatever is updated in between, the index is
      current up to the overlap. */
  lemma {:induction false} AlwaysCurrent(s: State, steps: seq<Step>)
    requires Inv(s) && Feasible(s, steps)
    ensures Inv(After(s, steps))
    ensures var t := After(s, steps); Current(t.remote, t.index, t.watermark)
    decreases |steps|
  {
    if steps != [] {
      StepInv(s, steps[0]);
      AlwaysCurrent(Do(s, steps[0]), steps[1..]);
    }
  }

  /** Why the overlap must cover the skew: with a local clock further ahead an update can be lost. */
  lemma SkewLosesUpdate(s: State, k: Number, content: string)
    requires Keyed(s.remote) && s.watermark.Some? && s.serverNow < s.watermark.value - OVERLAP
    requires k in s.index && s.index[k].content != content
    ensures var t := Do(s, Update(k, content));
      !Current(t.remote, t.index, t.watermark)
      && forall listing: seq<Entry> | Lists(listing, t.remote, Since(t.watermark)) :: forall i | 0 <= i < |listing| ::
        listing[i].number != k
  {
  }

  /******* Progress *******/

  /** The items a closed window of the length of the overlap holds. */
  ghost function Window(remote: Items, from: int): set<Number> {
    set k | k in remote && from <= remote[k].updated <= from + OVERLAP
  }

  /** The items that the next tick has to list. */
  ghost function Due(remote: Items, since: Option<int>): set<Number> {
    set k | k in remote && AtLeast(remote[k], since)
  }

  ghost function Numbers(s: seq<Entry>): set<Number> { set i | 0 <= i < |s| :: s[i].number }

  lemma {:induction false} DistinctSize(s: seq<Entry>)
    requires forall i, j | 0 <= i < j < |s| :: s[i].number != s[j].number
    ensures |Numbers(s)| == |s|
  {
    if s != [] {
      var init, last := s[..|s| - 1], s[|s| - 1];
      DistinctSize(init);
      assert Numbers(s) == Numbers(init) + {last.number} by {
        assert forall i | 0 <= i < |init| :: init[i] == s[i];
        assert s[|s| - 1].number in Numbers(s);
        assert forall i | 0 <= i < |init| :: s[i].number in Numbers(s);
      }
      assert last.number !in Numbers(init);
    }
  }

  lemma DueSize(listing: seq<Entry>, remote: Items, since: Option<int>)
    requires Keyed(remote) && Lists(listing, remote, since)
    ensures |Due(remote, since)| == |listing|
  {
    DistinctSize(listing);
    forall k | k in Due(remote, since) ensures k in Numbers(listing) {
      var i :| 0 <= i < |listing| && listing[i] == remote[k];
      assert listing[i].number == k;
    }
    assert Numbers(listing) == Due(remote, since);
  }

  /** A cut tick leaves `since` where it was, or moves it back, exactly when a closed window of the overlap
      from `since` on holds a budget of items. */
  lemma StuckIff(listing: seq<Entry>, remote: Items, watermark: int, startedAt: int)
    requires Keyed(remote) && Lists(listing, remote, Since(Some(watermark))) && |listing| >= BUDGET
    ensures NextWatermark(listing, startedAt) <= watermark <==> |Window(remote, watermark - OVERLAP)| >= BUDGET
  {
    var from := watermark - OVERLAP;
    var first := listing[..BUDGET];
    if listing[BUDGET - 1].updated <= watermark {
      DistinctSize(first);
      forall n | n in Numbers(first) ensures n in Window(remote, from) {
        var i :| 0 <= i < |first| && first[i].number == n;
        assert listing[i] == first[i];
      }
      SubsetSize(Numbers(first), Window(remote, from));
    } else {
      var less := listing[..BUDGET - 1];
      DistinctSize(less);
      forall k | k in Window(remote, from) ensures k in Numbers(less) {
        var i :| 0 <= i < |listing| && listing[i] == remote[k];
        assert i < BUDGET - 1;
        assert less[i].number == k;
      }
      SubsetSize(Window(remote, from), Numbers(less));
    }
  }

  ghost predicate Sparse(remote: Items) {
    forall from :: |Window(remote, from)| < BUDGET
  }

  /** On a sparse remote a cut tick leaves strictly fewer items for the next one. */
  lemma CutTickProgress(listing: seq<Entry>, remote: Items, since: Option<int>, startedAt: int)
    requires Keyed(remote) && Sparse(remote) && Lists(listing, remote, since) && |listing| >= BUDGET
    ensures var next := Since(Some(NextWatermark(listing, startedAt)));
      Due(remote, next) < Due(remote, since) && |Due(remote, next)| < |Due(remote, since)|
  {
    var last := listing[BUDGET - 1].updated;
    var next := Since(Some(last));
    var first := listing[..BUDGET];
    DistinctSize(first);
    if forall i | 0 <= i < BUDGET :: last - OVERLAP <= first[i].updated {
      forall n | n in Numbers(first) ensures n in Window(remote, last - OVERLAP) {
        var i :| 0 <= i < |first| && first[i].number == n;
        assert listing[i] == first[i];
      }
      SubsetSize(Numbers(first), Window(remote, last - OVERLAP));
    }
    var i :| 0 <= i < BUDGET && first[i].updated < last - OVERLAP;
    var k := listing[i].number;
    assert k in Due(remote, since) && k !in Due(remote, next);
    assert since.Some? ==> since.value <= listing[i].updated;
    SubsetSize(Due(remote, next), Due(remote, since));
  }

  /** Ticks against a remote that does not change, each cut by the budget. */
  ghost predicate CutTicks(remote: Items, watermark: Option<int>, ticks: seq<seq<Entry>>)
    decreases |ticks|
  {
    ticks != [] ==>
      Lists(ticks[0], remote, Since(watermark)) && |ticks[0]| >= BUDGET
      && CutTicks(remote, Some(ticks[0][BUDGET - 1].updated), ticks[1..])
  }

  /** On a sparse remote that does not change, every run of ticks comes to a complete one. */
  lemma {:induction false} CompleteSoon(remote: Items, watermark: Option<int>, ticks: seq<seq<Entry>>)
    requires Keyed(remote) && Sparse(remote) && CutTicks(remote, watermark, ticks)
    ensures |ticks| <= |Due(remote, Since(watermark))| <= |remote|
    decreases |ticks|
  {
    if ticks != [] {
      CutTickProgress(ticks[0], remote, Since(watermark), 0);
      CompleteSoon(remote, Some(ticks[0][BUDGET - 1].updated), ticks[1..]);
    }
    SubsetSize(Due(remote, Since(watermark)), remote.Keys);
  }

  /** Once stuck, a remote that does not change is never synced to the end, and the watermark never goes
      forward again. */
  lemma StuckForever(remote: Items, watermark: int, listing: seq<Entry>, next: seq<Entry>, startedAt: int, later: int)
    requires Keyed(remote) && Lists(listing, remote, Since(Some(watermark))) && |listing| >= BUDGET
    requires NextWatermark(listing, startedAt) <= watermark
    requires Lists(next, remote, Since(Some(NextWatermark(listing, startedAt))))
    ensures |next| >= BUDGET && NextWatermark(next, later) <= NextWatermark(listing, startedAt)
  {
    var w := NextWatermark(listing, startedAt);
    DueSize(listing, remote, Since(Some(watermark)));
    DueSize(next, remote, Since(Some(w)));
    SubsetSize(Due(remote, Since(Some(watermark))), Due(remote, Since(Some(w))));
    if next[BUDGET - 1].updated > w {
      var first, less := listing[..BUDGET], next[..BUDGET - 1];
      DistinctSize(first);
      DistinctSize(less);
      forall n | n in Numbers(first) ensures n in Numbers(less) {
        var i :| 0 <= i < BUDGET && listing[i].number == n;
        var j :| 0 <= j < |next| && next[j] == remote[n];
        assert listing[i].updated <= w;
        assert j < BUDGET - 1;
        assert less[j].number == n;
      }
      SubsetSize(Numbers(first), Numbers(less));
    }
  }

  ghost predicate Answers(server: Option<int> -> seq<Entry>, remote: Items) {
    forall since :: Lists(server(since), remote, since)
  }

  ghost predicate Stuck(server: Option<int> -> seq<Entry>, watermark: int) {
    var listing := server(Since(Some(watermark)));
    |listing| >= BUDGET && listing[BUDGET - 1].updated <= watermark
  }

  lemma {:induction false} StuckRun(server: Option<int> -> seq<Entry>, remote: Items, watermark: int, n: nat)
    returns (ticks: seq<seq<Entry>>)
    requires Keyed(remote) && Answers(server, remote) && Stuck(server, watermark)
    ensures |ticks| == n && CutTicks(remote, Some(watermark), ticks)
    decreases n
  {
    if n == 0 {
      ticks := [];
    } else {
      var listing := server(Since(Some(watermark)));
      var w := listing[BUDGET - 1].updated;
      StuckForever(remote, watermark, listing, server(Since(Some(w))), 0, 0);
      var rest := StuckRun(server, remote, w, n - 1);
      ticks := [listing] + rest;
      assert ticks[1..] == rest;
    }
  }

  /** No run of cut ticks is longer than the remote is large, from whatever watermark it starts. */
  ghost predicate Ends(remote: Items) {
    forall watermark, ticks | Run(remote, watermark, ticks) :: |ticks| <= |remote|
  }

  ghost predicate Run(remote: Items, watermark: Option<int>, ticks: seq<seq<Entry>>) {
    CutTicks(remote, watermark, ticks)
  }

  /**
   Against a remote that does not change, the syncs from every watermark come to an end exactly when every
   closed window of the length of the overlap holds fewer items than the page budget.
   */
  lemma CompletesIffSparse(server: Option<int> -> seq<Entry>, remote: Items)
    requires Keyed(remote) && Answers(server, remote)
    ensures Sparse(remote) <==> Ends(remote)
  {
    if Sparse(remote) {
      forall watermark, ticks | Run(remote, watermark, ticks) ensures |ticks| <= |remote| {
        CompleteSoon(remote, watermark, ticks);
      }
    } else {
      var from :| |Window(remote, from)| >= BUDGET;
      var listing := server(Since(Some(from + OVERLAP)));
      assert Lists(listing, remote, Some(from));
      DueSize(listing, remote, Some(from));
      SubsetSize(Window(remote, from), Due(remote, Some(from)));
      StuckIff(listing, remote, from + OVERLAP, 0);
      var ticks := StuckRun(server, remote, from + OVERLAP, |remote| + 1);
      assert Run(remote, Some(from + OVERLAP), ticks);
    }
  }
}
