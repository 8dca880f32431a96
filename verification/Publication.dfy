/**
 The publication gate: verification evidence for HEAD, message rewriting, the author and
 cleanliness checks, and the push with a pinned head and a lease on the remote branch.
 */
module Publication {
  import opened Basics
  import opened CommitMessages
  import opened Rewriter
  import opened RewriterProofs

  /******* Verification phases and receipts *******/

  datatype PhaseName = Fast | Targeted | Full

  datatype Ran = Skip | TimedOut | Exit(code: int)

  datatype Entry = Entry(phase: PhaseName, ran: Ran)

  /** The commands of every phase, and the phases a publication must pass. */
  datatype Policy = Policy(fast: seq<string>, targeted: seq<string>, full: seq<string>, required: set<PhaseName>) {
    function Commands(p: PhaseName): seq<string> {
      match p case Fast => fast case Targeted => targeted case Full => full
    }
  }

  /** How command k of a phase ends when it is run. */
  type Runner = (PhaseName, nat) -> Ran

  const ALL_PHASES: seq<PhaseName> := [Fast, Targeted, Full]

  function Phases(includeTests: bool): seq<PhaseName> { if includeTests then ALL_PHASES else [Fast] }

  /** What a phase reports if nothing in it refuses. */
  function Entries(policy: Policy, skip: bool, name: PhaseName): seq<Entry> {
    if policy.Commands(name) == [] then []
    else if skip then [Entry(name, Skip)]
    else seq(|policy.Commands(name)|, _ => Entry(name, Exit(0)))
  }

  function AllEntries(policy: Policy, skip: bool, names: seq<PhaseName>): seq<Entry> {
    if names == [] then [] else
      AllEntries(policy, skip, names[..|names| - 1]) + Entries(policy, skip, names[|names| - 1])
  }

  predicate PhasePasses(policy: Policy, skip: bool, run: Runner, name: PhaseName) {
    if policy.Commands(name) == [] then name !in policy.required
    else skip || forall k: nat | k < |policy.Commands(name)| :: run(name, k) == Exit(0)
  }

  /** `_run_policy_phases`; None when the tool call is refused. */
  method RunPolicyPhases(policy: Policy, skip: bool, includeTests: bool, run: Runner)
    returns (phases: Option<seq<Entry>>)
    ensures phases.Some? <==>
      forall i | 0 <= i < |Phases(includeTests)| :: PhasePasses(policy, skip, run, Phases(includeTests)[i])
    ensures phases.Some? ==> phases.value == AllEntries(policy, skip, Phases(includeTests))
    ensures phases.Some? <==> GatePasses(policy, skip, includeTests, run)
    ensures phases.Some? ==> IsRecord(phases.value, policy, skip, includeTests)
  {
    phases := RunPhases(policy, skip, Phases(includeTests), run);
    PassesAll(policy, skip, includeTests, run);
    EntriesCounted(policy, skip, includeTests);
  }

  /** No required phase that runs is without commands, and every command of such a phase ends with 0 unless checks
      are skipped. */
  ghost predicate GatePasses(policy: Policy, skip: bool, includeTests: bool, run: Runner) {
    (forall name | name in policy.required && (includeTests || name == Fast) :: policy.Commands(name) != [])
    && (skip || forall name, k: nat | (includeTests || name == Fast) && k < |policy.Commands(name)| ::
                  run(name, k) == Exit(0))
  }

  /** The record has an entry for every command that ran, or one for every phase that was skipped, and no other. */
  ghost predicate IsRecord(phases: seq<Entry>, policy: Policy, skip: bool, includeTests: bool) {
    forall name: PhaseName, ran: Ran ::
      multiset(phases)[Entry(name, ran)] == Expected(policy, skip, includeTests, name, ran)
  }

  lemma PassesAll(policy: Policy, skip: bool, includeTests: bool, run: Runner)
    ensures (forall i | 0 <= i < |Phases(includeTests)| :: PhasePasses(policy, skip, run, Phases(includeTests)[i]))
      <==> GatePasses(policy, skip, includeTests, run)
  {
    PhasesAre(includeTests);
    var names := Phases(includeTests);
    if forall i | 0 <= i < |names| :: PhasePasses(policy, skip, run, names[i]) {
      forall name: PhaseName | includeTests || name == Fast ensures PhasePasses(policy, skip, run, name) {
        assert name in names;
        var i :| 0 <= i < |names| && names[i] == name;
      }
      AllRun(policy, skip, includeTests, run);
    }
    if GatePasses(policy, skip, includeTests, run) {
      forall i | 0 <= i < |names| ensures PhasePasses(policy, skip, run, names[i]) {
        assert names[i] in names;
        OneRun(policy, skip, includeTests, run, names[i]);
      }
    }
  }

  lemma AllRun(policy: Policy, skip: bool, includeTests: bool, run: Runner)
    requires forall name: PhaseName | includeTests || name == Fast :: PhasePasses(policy, skip, run, name)
    ensures GatePasses(policy, skip, includeTests, run)
  {
    forall name | name in policy.required && (includeTests || name == Fast) ensures policy.Commands(name) != [] {
      assert PhasePasses(policy, skip, run, name);
    }
    if !skip {
      forall name, k: nat | (includeTests || name == Fast) && k < |policy.Commands(name)|
        ensures run(name, k) == Exit(0) {
        assert PhasePasses(policy, skip, run, name);
      }
    }
  }

  lemma OneRun(policy: Policy, skip: bool, includeTests: bool, run: Runner, name: PhaseName)
    requires GatePasses(policy, skip, includeTests, run) && (includeTests || name == Fast)
    ensures PhasePasses(policy, skip, run, name)
  {
  }

  /** Its loops. */
  method RunPhases(policy: Policy, skip: bool, names: seq<PhaseName>, run: Runner) returns (phases: Option<seq<Entry>>)
    ensures phases.Some? <==> forall i | 0 <= i < |names| :: PhasePasses(policy, skip, run, names[i])
    ensures phases.Some? ==> phases.value == AllEntries(policy, skip, names)
  {
    var found := [];
    for i := 0 to |names|
      invariant forall j | 0 <= j < i :: PhasePasses(policy, skip, run, names[j])
      invariant found == AllEntries(policy, skip, names[..i])
    {
      var name := names[i];
      var commands := policy.Commands(name);
      assert names[..i + 1][..i] == names[..i];
      if commands == [] {
        if name in policy.required { return None; }
      } else if skip {
        found := found + [Entry(name, Skip)];
      } else {
        var before := found;
        for k := 0 to |commands|
          invariant forall j: nat | j < k :: run(name, j) == Exit(0)
          invariant found == before + seq(k, _ => Entry(name, Exit(0)))
        {
          var ran := run(name, k);
          if ran != Exit(0) { return None; }
          found := found + [Entry(name, ran)];
        }
      }
    }
    assert names[..|names|] == names;
    phases := Some(found);
  }

  /** How often a phase and its end are recorded: once for every command that ran, or once if checks are skipped. */
  function Expected(policy: Policy, skip: bool, includeTests: bool, name: PhaseName, ran: Ran): nat {
    var n := |policy.Commands(name)|;
    if n == 0 || !(includeTests || name == Fast) then 0
    else if skip then (if ran == Skip then 1 else 0)
    else if ran == Exit(0) then n else 0
  }

  lemma PhasesAre(includeTests: bool)
    ensures forall name: PhaseName :: name in Phases(includeTests) <==> includeTests || name == Fast
    ensures Phases(includeTests) == if includeTests then [Fast, Targeted, Full] else [Fast]
  {
    forall name: PhaseName ensures name in ALL_PHASES {
      match name
      case Fast => assert ALL_PHASES[0] == Fast;
      case Targeted => assert ALL_PHASES[1] == Targeted;
      case Full => assert ALL_PHASES[2] == Full;
    }
  }

  lemma {:induction false} Repeated(n: nat, e: Entry, x: Entry)
    ensures multiset(seq(n, _ => e))[x] == if x == e then n else 0
  {
    if n > 0 {
      Repeated(n - 1, e, x);
      assert seq(n, _ => e) == seq(n - 1, _ => e) + [e];
    }
  }

  lemma EntriesCount(policy: Policy, skip: bool, name: PhaseName, x: Entry)
    ensures multiset(Entries(policy, skip, name))[x]
      == if x.phase == name then Expected(policy, skip, true, name, x.ran) else 0
  {
    Repeated(|policy.Commands(name)|, Entry(name, Exit(0)), x);
  }

  lemma EntriesCounted(policy: Policy, skip: bool, includeTests: bool)
    ensures IsRecord(AllEntries(policy, skip, Phases(includeTests)), policy, skip, includeTests)
  {
    PhasesAre(includeTests);
    forall name: PhaseName, ran: Ran
      ensures multiset(AllEntries(policy, skip, Phases(includeTests)))[Entry(name, ran)]
        == Expected(policy, skip, includeTests, name, ran)
    {
      var x := Entry(name, ran);
      if includeTests { ThreePhases(policy, skip, x); } else { OnePhase(policy, skip, x); }
    }
  }

  lemma OnePhase(policy: Policy, skip: bool, x: Entry)
    ensures multiset(AllEntries(policy, skip, [Fast]))[x]
      == if x.phase == Fast then Expected(policy, skip, true, Fast, x.ran) else 0
  {
    EntriesCount(policy, skip, Fast, x);
    LastPhase(policy, skip, [], Fast, x);
    assert [] + [Fast] == [Fast] && AllEntries(policy, skip, []) == [];
  }

  lemma LastPhase(policy: Policy, skip: bool, init: seq<PhaseName>, name: PhaseName, x: Entry)
    ensures multiset(AllEntries(policy, skip, init + [name]))[x]
      == multiset(AllEntries(policy, skip, init))[x] + multiset(Entries(policy, skip, name))[x]
  {
    assert (init + [name])[..|init|] == init;
    assert AllEntries(policy, skip, init + [name]) == AllEntries(policy, skip, init) + Entries(policy, skip, name);
  }

  lemma ThreePhases(policy: Policy, skip: bool, x: Entry)
    ensures multiset(AllEntries(policy, skip, [Fast, Targeted, Full]))[x]
      == Expected(policy, skip, true, x.phase, x.ran)
  {
    OnePhase(policy, skip, x);
    EntriesCount(policy, skip, Targeted, x);
    EntriesCount(policy, skip, Full, x);
    LastPhase(policy, skip, [Fast], Targeted, x);
    LastPhase(policy, skip, [Fast, Targeted], Full, x);
    assert [Fast] + [Targeted] == [Fast, Targeted] && [Fast, Targeted] + [Full] == [Fast, Targeted, Full];
  }

  /** The check of one required phase in `_require_verification_receipt`. */
  ghost predicate Evidence(phases: seq<Entry>, name: PhaseName) {
    Has(phases, name) && forall i | 0 <= i < |phases| && phases[i].phase == name :: phases[i].ran == Exit(0)
  }

  ghost predicate Satisfies(policy: Policy, phases: seq<Entry>) {
    forall name | name in policy.required :: Evidence(phases, name)
  }

  ghost predicate Has(phases: seq<Entry>, name: PhaseName) {
    exists i | 0 <= i < |phases| :: phases[i].phase == name
  }

  /** `_require_verification_receipt` on the phases of a receipt. */
  method CheckEvidence(policy: Policy, phases: seq<Entry>) returns (ok: bool)
    ensures ok <==> Satisfies(policy, phases)
    ensures ok <==> forall name | name in policy.required ::
      (exists i :: 0 <= i < |phases| && phases[i].phase == name)
      && forall i | 0 <= i < |phases| && phases[i].phase == name :: phases[i].ran == Exit(0)
  {
    for k := 0 to 3
      invariant forall j | 0 <= j < k && ALL_PHASES[j] in policy.required :: Evidence(phases, ALL_PHASES[j])
    {
      var name := ALL_PHASES[k];
      if name in policy.required {
        var found, passed := false, true;
        for i := 0 to |phases|
          invariant found <==> Has(phases[..i], name)
          invariant passed <==> forall j | 0 <= j < i && phases[j].phase == name :: phases[j].ran == Exit(0)
        {
          assert phases[..i + 1] == phases[..i] + [phases[i]];
          HasConcat(phases[..i], [phases[i]], name);
          assert Has([phases[i]], name) <==> phases[i].phase == name by {
            if phases[i].phase == name { assert [phases[i]][0].phase == name; }
          }
          if phases[i].phase == name {
            found := true;
            if phases[i].ran != Exit(0) { passed := false; }
          }
        }
        assert phases[..|phases|] == phases;
        if !found || !passed {
          assert !Evidence(phases, name);
          return false;
        }
      }
    }
    forall name | name in policy.required ensures Evidence(phases, name) {
      match name
      case Fast => assert ALL_PHASES[0] == Fast;
      case Targeted => assert ALL_PHASES[1] == Targeted;
      case Full => assert ALL_PHASES[2] == Full;
    }
    ok := true;
  }

  lemma HasConcat(a: seq<Entry>, b: seq<Entry>, name: PhaseName)
    ensures Has(a + b, name) <==> Has(a, name) || Has(b, name)
  {
    if Has(a + b, name) {
      var i :| 0 <= i < |a + b| && (a + b)[i].phase == name;
      if i >= |a| { assert b[i - |a|].phase == name; }
    }
    if i :| 0 <= i < |a| && a[i].phase == name { assert (a + b)[i].phase == name; }
    if i :| 0 <= i < |b| && b[i].phase == name { assert (a + b)[|a| + i].phase == name; }
  }

  lemma HasEntries(policy: Policy, skip: bool, last: PhaseName, name: PhaseName)
    requires policy.Commands(name) != []
    ensures Has(Entries(policy, skip, last), name) <==> name == last
  {
    if name == last { assert Entries(policy, skip, last)[0].phase == name; }
  }

  lemma {:induction false} EntriesOf(policy: Policy, skip: bool, names: seq<PhaseName>, name: PhaseName)
    ensures forall i | 0 <= i < |AllEntries(policy, skip, names)| ::
      AllEntries(policy, skip, names)[i].ran == if skip then Skip else Exit(0)
    ensures policy.Commands(name) != [] ==> (name in names <==> Has(AllEntries(policy, skip, names), name))
  {
    if names != [] {
      var init, last := names[..|names| - 1], names[|names| - 1];
      EntriesOf(policy, skip, init, name);
      if policy.Commands(name) != [] {
        assert names == init + [last];
        HasConcat(AllEntries(policy, skip, init), Entries(policy, skip, last), name);
        HasEntries(policy, skip, last, name);
      }
    }
  }

  /** A full gate that passes gives the evidence its policy requires, unless the checks were skipped. */
  lemma GateGivesEvidence(policy: Policy, skip: bool, run: Runner)
    requires forall i | 0 <= i < |ALL_PHASES| :: PhasePasses(policy, skip, run, ALL_PHASES[i])
    ensures Satisfies(policy, AllEntries(policy, skip, ALL_PHASES)) <==> !skip || policy.required == {}
  {
    assert ALL_PHASES[0] == Fast && ALL_PHASES[1] == Targeted && ALL_PHASES[2] == Full;
    forall name: PhaseName ensures name in ALL_PHASES { match name case Fast => case Targeted => case Full => }
    forall name | name in policy.required
      ensures Evidence(AllEntries(policy, skip, ALL_PHASES), name) <==> !skip
    {
      var i :| 0 <= i < |ALL_PHASES| && ALL_PHASES[i] == name;
      assert PhasePasses(policy, skip, run, ALL_PHASES[i]);
      EntriesOf(policy, skip, ALL_PHASES, name);
    }
    if skip && policy.required != {} {
      var name :| name in policy.required;
      assert !Evidence(AllEntries(policy, skip, ALL_PHASES), name);
    }
  }

  /******* The push *******/

  datatype PushOutcome = HeadDrift | Rejected | Pushed(head: Sha)

  /** Commits of others that move HEAD, by when they land. */
  datatype Drift = Drift(
    inGates: Option<Sha>, beforeRequire: Option<Sha>, beforeListing: Option<Sha>, beforeMove: Option<Sha>,
    beforeSnapshot: Option<Sha>, beforeCheck: Option<Sha>, beforePush: Option<Sha>)

  /** The answers of git and of the network that the model does not compute. */
  datatype Answers =
    Answers(rewrite: Faults, relisted: Option<seq<Sha>>, clean: bool,
            explicitUrl: bool, accepted: bool, refreshed: bool)

  /** Who the commits must be by. */
  datatype Author = Author(name: string, email: string)

  predicate By(c: Commit, who: Author) { c.author.name == who.name && c.author.email == who.email }

  predicate Authored(store: map<Sha, Commit>, shas: seq<Sha>, who: Author) {
    forall i | 0 <= i < |shas| && shas[i] in store :: By(store[shas[i]], who)
  }

  /** HEAD when the rewrite compares and swaps it. */
  function BeforeMove(head: Sha, d: Drift): Sha { Drifted(Drifted(head, d.beforeListing), d.beforeMove) }

  /** The rewrite stops the push: a message needs a repair, and a command fails or HEAD has moved meanwhile. */
  ghost predicate Refuses(h: History, shas: seq<Sha>, f: Faults, head: Sha)
    requires Known(h, shas)
  {
    !f.listing && Detected(h, shas, f) && !(Succeeds(h, shas, f) && head == shas[|shas| - 1] && !f.update)
  }

  /** The author gate, the clean tree, the head check, and the answer of the server. */
  ghost predicate Passes(store: map<Sha, Commit>, who: Author, a: Answers, d: Drift, snapshot: Sha) {
    a.relisted.Some? && a.clean && a.accepted && Drifted(snapshot, d.beforeCheck) == snapshot
    && forall s | s in a.relisted.value && s in store ::
         store[s].author.email == who.email && store[s].author.name == who.name
  }

  /** The remote is as it was last seen, or has what is pushed already. */
  predicate LeaseHolds(remote: Option<Sha>, tracking: Option<Sha>, d: Drift, snapshot: Sha) {
    remote == tracking || remote == Some(Drifted(snapshot, d.beforePush))
  }

  /** The gates pass: every phase of a policy, or the built-in ones. */
  ghost predicate Allowed(policy: Option<Policy>, skip: bool, run: Runner, builtIn: bool) {
    if policy.None? then builtIn else GatePasses(policy.value, skip, true, run)
  }

  ghost predicate Receipt(policy: Policy, receipts: map<Sha, seq<Entry>>, head: Sha) {
    head in receipts && Satisfies(policy, receipts[head])
  }

  class Checkout {
    const repo: Repo
    var remote: Option<Sha>    // the branch on the remote
    var tracking: Option<Sha>  // the remote-tracking ref
    var receipts: map<Sha, seq<Entry>>  // the latest receipt of every head

    constructor (repo: Repo)
      ensures this.repo == repo && remote == None && tracking == None && receipts == map[]
    {
      this.repo, remote, tracking, receipts := repo, None, None, map[];
    }

    /**
     `git_ops.push`. HEAD may move (`late`) between the head check and `git push`. A push of what the remote
     already has is up to date: it succeeds without a look at the lease.
     */
    method Push(expected: Option<Sha>, a: Answers, late: Option<Sha>) returns (r: PushOutcome)
      modifies this`remote, this`tracking, repo`head
      ensures r.HeadDrift? <==> expected.Some? && expected.value != old(repo.head)
      ensures r.Pushed? <==>
        (!r.HeadDrift? && a.accepted
        && (old(remote) == old(tracking) || old(remote) == Some(Drifted(old(repo.head), late))))
      ensures r.Pushed? ==> r.head == old(repo.head) && remote == Some(Drifted(old(repo.head), late))
      ensures remote != old(remote) ==> r.Pushed? && old(remote) == old(tracking)
      ensures r.Pushed? ==> tracking == if !a.explicitUrl then remote
                                        else if a.refreshed then Some(r.head) else old(tracking)
      ensures var step := PushHead(old(repo.head), late, a.explicitUrl, a.refreshed);
        !r.HeadDrift? && a.accepted ==> Lease(remote, tracking) == Taken(old(Lease(remote, tracking)), step)
      ensures !r.Pushed? ==> remote == old(remote) && tracking == old(tracking)
      ensures repo.head == if r.HeadDrift? then old(repo.head) else Drifted(old(repo.head), late)
    {
      var head := repo.head;
      if expected.Some? && head != expected.value { return HeadDrift; }
      var lease := tracking;
      repo.head := Drifted(repo.head, late);
      if !a.accepted { return Rejected; }
      if remote != Some(repo.head) {
        if remote != lease { return Rejected; }
        remote := Some(repo.head);
      }
      if a.explicitUrl {
        if a.refreshed { tracking := Some(head); }
      } else {
        tracking := remote;
      }
      r := Pushed(head);
    }

    /** The identity gate of `_guarded_push_branch`. */
    method CheckAuthors(shas: seq<Sha>, who: Author) returns (offending: seq<Sha>)
      ensures offending == [] <==> Authored(repo.store, shas, who)
      ensures forall s :: s in offending <==>
        (s in shas && s in repo.store
        && (repo.store[s].author.email != who.email || repo.store[s].author.name != who.name))
    {
      offending := [];
      for i := 0 to |shas|
        invariant forall s :: s in offending <==> s in shas[..i] && s in repo.store && !By(repo.store[s], who)
        invariant offending == [] <==> Authored(repo.store, shas[..i], who)
      {
        assert shas[..i + 1] == shas[..i] + [shas[i]];
        assert Authored(repo.store, shas[..i + 1], who) <==>
          Authored(repo.store, shas[..i], who) && (shas[i] in repo.store ==> By(repo.store[shas[i]], who))
        by {
          if Authored(repo.store, shas[..i + 1], who) {
            assert shas[..i + 1][i] == shas[i];
            forall j | 0 <= j < i && shas[..i][j] in repo.store ensures By(repo.store[shas[..i][j]], who) {
              assert shas[..i + 1][j] == shas[..i][j];
            }
          }
        }
        if shas[i] in repo.store && !By(repo.store[shas[i]], who) { offending := offending + [shas[i]]; }
      }
      assert shas[..|shas|] == shas;
    }

    /** `_guarded_push_branch` up to the head snapshot; None when the rewrite refuses the push. */
    method Prepare(shas: seq<Sha>, coauthor: string, a: Answers, d: Drift) returns (snapshot: Option<Sha>)
      requires Addressed(repo.At(coauthor)) && Known(repo.At(coauthor), shas) && repo.head in repo.store
      modifies repo
      ensures Addressed(repo.At(coauthor)) && Grows(old(repo.store), repo.store)
      ensures snapshot.None? <==> Refuses(old(repo.At(coauthor)), shas, a.rewrite, BeforeMove(old(repo.head), d))
      ensures snapshot.Some? ==> repo.head == snapshot.value
      ensures snapshot.Some? && d.beforeSnapshot.Some? ==> snapshot.value == d.beforeSnapshot.value
      ensures snapshot.Some? && Quiet(d) ==>
        snapshot.value in repo.store && repo.store[snapshot.value].tree == old(repo.store)[old(repo.head)].tree
    {
      repo.head := Drifted(repo.head, d.beforeListing);
      ghost var h, h0 := repo.At(coauthor), repo.head;
      var outcome := repo.Normalize(shas, coauthor, a.rewrite, d.beforeMove);
      Rewritten(h, shas, outcome, repo.store, repo.head, Drifted(h0, d.beforeMove));
      if outcome == Refused { return None; }
      repo.head := Drifted(repo.head, d.beforeSnapshot);
      snapshot := Some(repo.head);
    }

    /** `_guarded_push_branch` on the commits `shas` that the push would publish; the pushed head, if there is one. */
    method GuardedPush(shas: seq<Sha>, coauthor: string, who: Author, a: Answers, d: Drift)
      returns (r: Option<Sha>, ghost snapshot: Option<Sha>)
      requires Addressed(repo.At(coauthor)) && Known(repo.At(coauthor), shas) && repo.head in repo.store
      modifies this`remote, this`tracking, repo
      ensures snapshot.None? <==> Refuses(old(repo.At(coauthor)), shas, a.rewrite, BeforeMove(old(repo.head), d))
      ensures r.Some? <==>
        (snapshot.Some? && Passes(repo.store, who, a, d, snapshot.value)
        && LeaseHolds(old(remote), old(tracking), d, snapshot.value))
      ensures r.Some? ==> r == snapshot
      ensures r.Some? ==> remote == Some(Drifted(r.value, d.beforePush))
      ensures remote != old(remote) ==> r.Some? && old(remote) == old(tracking)
      ensures r.Some? ==> Drifted(r.value, d.beforeCheck) == r.value
      ensures r.Some? ==> a.clean && a.relisted.Some? && Authored(repo.store, a.relisted.value, who)
      ensures r.Some? && d.beforeSnapshot.Some? ==> r.value == d.beforeSnapshot.value
      ensures r.Some? && Quiet(d) ==>
        r.value in repo.store && repo.store[r.value].tree == old(repo.store)[old(repo.head)].tree
      ensures r.None? ==> remote == old(remote) && tracking == old(tracking)
    {
      var head := Prepare(shas, coauthor, a, d);
      snapshot := head;
      r := None;
      if head.None? || a.relisted.None? { return; }
      var offending := CheckAuthors(a.relisted.value, who);
      if offending != [] || !a.clean { return; }
      repo.head := Drifted(repo.head, d.beforeCheck);
      var pushed := Push(head, a, d.beforePush);
      r := if pushed.Pushed? then Some(pushed.head) else None;
    }

    /** The gates, the receipt check and the push of `gh_open_pr`. Without a policy the built-in gates pass or
        fail as a whole. */
    method OpenPr(policy: Option<Policy>, skip: bool, run: Runner, builtIn: bool,
                  shas: seq<Sha>, coauthor: string, who: Author, a: Answers, d: Drift)
      returns (r: Option<Sha>, ghost snapshot: Option<Sha>)
      requires Addressed(repo.At(coauthor)) && Known(repo.At(coauthor), shas)
      requires Verified(repo.head, d) in repo.store
      modifies this, repo
      ensures snapshot.Some? <==>
        (Allowed(policy, skip, run, builtIn)
        && (policy.Some? ==> Receipt(policy.value, receipts, Verified(old(repo.head), d)))
        && !Refuses(old(repo.At(coauthor)), shas, a.rewrite, BeforeMove(Verified(old(repo.head), d), d)))
      ensures r.Some? <==>
        (snapshot.Some? && Passes(repo.store, who, a, d, snapshot.value)
        && LeaseHolds(old(remote), old(tracking), d, snapshot.value))
      ensures r.Some? ==> r == snapshot
      ensures r.Some? ==> remote == Some(Drifted(r.value, d.beforePush))
      ensures remote != old(remote) ==> r.Some? && old(remote) == old(tracking)
      ensures r.Some? ==> Drifted(r.value, d.beforeCheck) == r.value
      ensures r.Some? ==> a.relisted.Some? && Authored(repo.store, a.relisted.value, who)
      ensures r.Some? && policy.Some? ==> var v := Verified(old(repo.head), d);
        v in receipts && Satisfies(policy.value, receipts[v])
      ensures r.Some? && Quiet(d) ==>
        r.value in repo.store && repo.store[r.value].tree == old(repo.store)[Verified(old(repo.head), d)].tree
      ensures r.None? ==> remote == old(remote) && tracking == old(tracking)
    {
      r, snapshot := None, None;
      if policy.Some? {
        var phases := RunPolicyPhases(policy.value, skip, true, run);
        repo.head := Drifted(repo.head, d.inGates);
        if phases.None? { return; }
        receipts := receipts[repo.head := phases.value];
      } else {
        repo.head := Drifted(repo.head, d.inGates);
        if !builtIn { return; }
        receipts := receipts[repo.head := []];  // no entry of a phase that a policy can require
      }
      repo.head := Drifted(repo.head, d.beforeRequire);
      if policy.Some? {
        if repo.head !in receipts { return; }
        var evident := CheckEvidence(policy.value, receipts[repo.head]);
        if !evident { return; }
      }
      r, snapshot := GuardedPush(shas, coauthor, who, a, d);
    }
  }

  /** Nobody moves HEAD from the receipt check to the head snapshot. */
  predicate Quiet(d: Drift) {
    d.beforeListing.None? && d.beforeMove.None? && d.beforeSnapshot.None?
  }

  /** HEAD when the receipt is required. */
  function Verified(head: Sha, d: Drift): Sha {
    Drifted(Drifted(head, d.inGates), d.beforeRequire)
  }

  lemma HeadRewritten(h: History, shas: seq<Sha>)
    requires Addressed(h) && Known(h, shas) && shas != []
    ensures var last := shas[|shas| - 1]; var new_ := Images(h, shas)[last];
      last in Images(h, shas) && new_ in NewStore(h, shas) && NewStore(h, shas)[new_].tree == h.store[last].tree
  {
    var init := shas[..|shas| - 1];
    assert shas[|shas| - 1] in Elements(shas);
    NewStoreGrows(h, init);
  }

  /** What a run of the rewriter leaves behind, whatever its outcome. */
  lemma Rewritten(h: History, shas: seq<Sha>, r: Outcome, store: map<Sha, Commit>, head: Sha, drifted: Sha)
    requires Addressed(h) && Known(h, shas) && exists n | 0 <= n <= |shas| :: store == NewStore(h, shas[..n])
    requires r == Moved ==>
      shas != [] && drifted == shas[|shas| - 1] && store == NewStore(h, shas) && head == Images(h, shas)[drifted]
    requires r != Moved ==> head == drifted
    ensures Addressed(h.(store := store)) && Grows(h.store, store)
    ensures drifted in h.store ==> head in store && store[head].tree == h.store[drifted].tree
  {
    var n :| 0 <= n <= |shas| && store == NewStore(h, shas[..n]);
    NewStoreGrows(h, shas[..n]);
    if r == Moved { HeadRewritten(h, shas); }
  }

  /** The author gate gives the same verdict on a range and on its rewritten form. */
  lemma GateIgnoresRewrite(h: History, shas: seq<Sha>, who: Author)
    requires Ready(h, shas)
    ensures Authored(h.store, shas, who) <==> Authored(NewStore(h, shas), ImagesOf(Images(h, shas), shas), who)
  {
    var again := ImagesOf(Images(h, shas), shas);
    forall i | 0 <= i < |shas|
      ensures again[i] in NewStore(h, shas) && (By(h.store[shas[i]], who) <==> By(NewStore(h, shas)[again[i]], who))
    {
      RecordRewritten(h, shas, i);
    }
  }

  /******* The lease over a run *******/

  /** The remote branch, as the remote has it and as the workspace last saw it. */
  datatype Lease = Lease(remote: Option<Sha>, tracking: Option<Sha>)

  /** A push of HEAD, where HEAD may move at the last moment. */
  datatype LeaseStep =
    | Fetch
    | Other(value: Option<Sha>)
    | PushHead(head: Sha, late: Option<Sha>, explicitUrl: bool, refreshed: bool)

  /** What a push step sends. */
  function Sent(s: LeaseStep): Sha
    requires s.PushHead?
  {
    Drifted(s.head, s.late)
  }

  function Taken(l: Lease, s: LeaseStep): Lease {
    match s
    case Fetch => l.(tracking := l.remote)
    case Other(v) => l.(remote := v)
    case PushHead(head, _, url, refreshed) =>
      if l.remote != l.tracking && l.remote != Some(Sent(s)) then l
      else Lease(Some(Sent(s)), if !url then Some(Sent(s)) else if refreshed then Some(head) else l.tracking)
  }

  function AfterAll(l: Lease, steps: seq<LeaseStep>): Lease {
    if steps == [] then l else Taken(AfterAll(l, steps[..|steps| - 1]), steps[|steps| - 1])
  }

  /** Work on the remote that was not seen stays there, and stays unseen, as long as no push sends that
      very work. */
  lemma {:induction false} UnseenSurvives(l: Lease, steps: seq<LeaseStep>)
    requires l.remote != l.tracking
    requires forall i | 0 <= i < |steps| :: steps[i].PushHead? && l.remote != Some(Sent(steps[i]))
    ensures AfterAll(l, steps) == l
  {
    if steps != [] {
      UnseenSurvives(l, steps[..|steps| - 1]);
    }
  }

  /** A push changes the remote only if the remote is what the tracking ref says. */
  lemma ReplacesOnlySeen(l: Lease, s: LeaseStep)
    requires s.PushHead?
    ensures Taken(l, s).remote != l.remote ==> l.remote == l.tracking
    ensures Taken(l, s).remote == Some(Sent(s)) <==> l.remote == l.tracking || l.remote == Some(Sent(s))
  {
  }

  /** After a push the tracking ref shows what the remote has. */
  predicate Shows(l: Lease, s: LeaseStep)
    requires s.PushHead?
  {
    !s.explicitUrl || (if s.refreshed then s.head == Sent(s) else l.tracking == Some(Sent(s)))
  }

  /**
   The push after one that got through is refused exactly when the tracking ref does not show what was sent, because
   the URL was explicit and HEAD moved late or the ref was not refreshed, and the next push sends something else.
   */
  lemma LateDriftBlocks(l: Lease, first: LeaseStep, next: LeaseStep)
    requires first.PushHead? && next.PushHead?
    requires l.remote == l.tracking || l.remote == Some(Sent(first))
    ensures AfterAll(l, [first, next]).remote != Some(Sent(next)) <==> !Shows(l, first) && Sent(next) != Sent(first)
    ensures !Shows(l, first) && Sent(next) != Sent(first) ==> AfterAll(l, [first, next]) == AfterAll(l, [first])
  {
    assert [first, next][..1] == [first] && [first][..0] == [];
    assert AfterAll(l, []) == l;
  }
}
