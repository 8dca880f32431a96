/**
 The message rewriter: it rebuilds the commits a push would publish, in a content-addressed
 store, so that every message is in normal form, and moves HEAD by compare-and-swap.
 */
module Rewriter {
  import opened Basics
  import opened CommitMessages

  type Sha = string

  datatype Identity = Identity(name: string, email: string, date: string)
  datatype Commit = Commit(tree: string, parents: seq<Sha>, author: Identity, committer: Identity, message: string)

  /** Which messages a push repairs, and what the repaired message is. */
  datatype Rule = Rule(broken: string -> bool, fixed: string -> string)

  function RuleFor(coauthor: string): Rule {
    Rule(m => NeedsFix(m, coauthor), m => Rebuilt(m, coauthor))
  }

  /** The object store, the hash that names its commits, and the rule for messages. */
  datatype History = History(hash: Commit -> Sha, store: map<Sha, Commit>, rule: Rule)

  ghost predicate Injective(hash: Commit -> Sha) {
    forall c, d :: hash(c) == hash(d) ==> c == d
  }

  ghost predicate Addressed(h: History) {
    Injective(h.hash) && forall s | s in h.store :: h.hash(h.store[s]) == s
  }

  /******* The rewrite *******/

  function ImageOf(img: map<Sha, Sha>, p: Sha): Sha {
    if p in img then img[p] else p
  }

  function ImagesOf(img: map<Sha, Sha>, ps: seq<Sha>): seq<Sha> {
    seq(|ps|, i requires 0 <= i < |ps| => ImageOf(img, ps[i]))
  }

  predicate Rebuilds(h: History, img: map<Sha, Sha>, s: Sha)
    requires s in h.store
  {
    h.rule.broken(h.store[s].message) || ImagesOf(img, h.store[s].parents) != h.store[s].parents
  }

  /** The record `git commit-tree` writes for s. */
  function NewRecord(h: History, img: map<Sha, Sha>, s: Sha): Commit
    requires s in h.store
  {
    h.store[s].(parents := ImagesOf(img, h.store[s].parents), message := h.rule.fixed(h.store[s].message))
  }

  function NewName(h: History, img: map<Sha, Sha>, s: Sha): Sha
    requires s in h.store
  {
    if Rebuilds(h, img, s) then h.hash(NewRecord(h, img, s)) else s
  }

  predicate Known(h: History, shas: seq<Sha>) { forall i | 0 <= i < |shas| :: shas[i] in h.store }

  /** `rewritten` after the commits of shas. */
  function Images(h: History, shas: seq<Sha>): (img: map<Sha, Sha>)
    requires Known(h, shas)
    ensures img.Keys == Elements(shas)
  {
    if shas == [] then map[]
    else
      var before := Images(h, shas[..|shas| - 1]);
      assert shas == shas[..|shas| - 1] + [shas[|shas| - 1]];
      before[shas[|shas| - 1] := NewName(h, before, shas[|shas| - 1])]
  }

  /** The store after the commits of shas. */
  function NewStore(h: History, shas: seq<Sha>): map<Sha, Commit>
    requires Known(h, shas)
    decreases |shas|, 0
  {
    if shas == [] then h.store else Stepped(h, shas[..|shas| - 1], shas[|shas| - 1])
  }

  function Stepped(h: History, before: seq<Sha>, s: Sha): map<Sha, Commit>
    requires Known(h, before) && s in h.store
    decreases |before|, 1
  {
    var made := NewRecord(h, Images(h, before), s);
    if Rebuilds(h, Images(h, before), s) then NewStore(h, before)[h.hash(made) := made] else NewStore(h, before)
  }

  /** Which of the git commands fail, each named by the commit it is run on; `update`, that `git update-ref`
      cannot lock the ref. */
  datatype Faults = Faults(listing: bool, message: set<Sha>, fields: set<Sha>, build: set<Sha>, update: bool)

  datatype Outcome = Skipped | Refused | Moved

  predicate AllShown(shas: seq<Sha>, f: Faults) { forall i | 0 <= i < |shas| :: shas[i] !in f.message }

  /** What is kept of every message that was inspected: `messages`. */
  function Candidates(store: map<Sha, Commit>, shas: seq<Sha>, coauthor: string): map<Sha, string> {
    map s | s in shas && s in store :: Candidate(Shown(store[s].message), coauthor)
  }

  function ToRepair(h: History, shas: seq<Sha>): set<Sha>
    requires Known(h, shas)
  {
    set s | s in shas && h.rule.broken(h.store[s].message)
  }

  ghost predicate DetectedAt(h: History, shas: seq<Sha>, f: Faults, i: int)
    requires Known(h, shas)
  {
    0 <= i < |shas| && h.rule.broken(h.store[shas[i]].message) && forall j | 0 <= j <= i :: shas[j] !in f.message
  }

  /** A message to repair is found before `git log` fails. */
  ghost predicate Detected(h: History, shas: seq<Sha>, f: Faults)
    requires Known(h, shas)
  {
    exists i :: DetectedAt(h, shas, f, i)
  }

  predicate Builds(h: History, img: map<Sha, Sha>, f: Faults, s: Sha)
    requires s in h.store
  {
    s !in f.fields && (Rebuilds(h, img, s) ==> s !in f.build)
  }

  predicate BuiltAt(h: History, shas: seq<Sha>, f: Faults, i: nat)
    requires Known(h, shas) && i < |shas|
  {
    Builds(h, Images(h, shas[..i]), f, shas[i])
  }

  /** No command of the second loop fails. */
  predicate AllBuilt(h: History, shas: seq<Sha>, f: Faults)
    requires Known(h, shas)
  {
    forall i | 0 <= i < |shas| :: BuiltAt(h, shas, f, i)
  }

  ghost predicate Succeeds(h: History, shas: seq<Sha>, f: Faults)
    requires Known(h, shas)
    ensures Succeeds(h, shas, f) ==> shas != []
  {
    !f.listing && Detected(h, shas, f) && AllShown(shas, f) && AllBuilt(h, shas, f)
  }

  /** The second loop has built the first n commits. */
  ghost predicate BuiltUpTo(h: History, shas: seq<Sha>, n: nat, rewritten: map<Sha, Sha>, store: map<Sha, Commit>,
                            f: Faults)
    requires Known(h, shas)
  {
    n <= |shas| && rewritten == Images(h, shas[..n]) && store == NewStore(h, shas[..n]) && AllBuilt(h, shas[..n], f)
  }

  class Repo {
    const hash: Commit -> Sha
    var store: map<Sha, Commit>
    var head: Sha

    constructor (hash: Commit -> Sha, store: map<Sha, Commit>, head: Sha)
      ensures this.hash == hash && this.store == store && this.head == head
    {
      this.hash, this.store, this.head := hash, store, head;
    }

    ghost function At(coauthor: string): History
      reads this
    {
      History(hash, store, RuleFor(coauthor))
    }

    /** `git update-ref HEAD new old`. */
    method CompareAndSwapHead(new_: Sha, old_: Sha, locked: bool) returns (ok: bool)
      modifies this`head
      ensures ok <==> old(head) == old_ && !locked
      ensures head == if ok then new_ else old(head)
    {
      ok := head == old_ && !locked;
      if ok { head := new_; }
    }

    /** The first loop of `_normalize_unpushed_messages`: the candidates, and the commits to repair. */
    method Inspect(shas: seq<Sha>, coauthor: string, f: Faults)
      returns (messages: map<Sha, string>, repaired: seq<Sha>, shown: bool)
      requires Known(At(coauthor), shas)
      ensures shown <==> AllShown(shas, f)
      ensures repaired != [] <==> Detected(At(coauthor), shas, f)
      ensures shown ==> Elements(repaired) == ToRepair(At(coauthor), shas)
      ensures shown ==> messages == Candidates(store, shas, coauthor)
    {
      messages, repaired := map[], [];
      var i := 0;
      while i < |shas|
        invariant 0 <= i <= |shas|
        invariant AllShown(shas[..i], f)
        invariant Elements(repaired) == ToRepair(At(coauthor), shas[..i])
        invariant messages == Candidates(store, shas[..i], coauthor)
      {
        var sha := shas[i];
        FoundBefore(At(coauthor), shas, f, i, repaired);
        if sha in f.message { return messages, repaired, false; }
        var candidate, needed := Inspected(store[sha].message, coauthor);
        InspectStep(At(coauthor), shas, f, i, repaired);
        CandidatesStep(store, shas, coauthor, i);
        if needed { repaired := repaired + [sha]; }
        messages := messages[sha := candidate];
        i := i + 1;
      }
      assert shas[..i] == shas;
      FoundBefore(At(coauthor), shas, f, i, repaired);
      shown := true;
    }

    /** The second loop: rebuild every commit that needs it, on top of the rebuilt parents. */
    method Rebuild(shas: seq<Sha>, coauthor: string, messages: map<Sha, string>, needsFix: set<Sha>, f: Faults)
      returns (rewritten: map<Sha, Sha>, ok: bool)
      requires Addressed(At(coauthor)) && Known(At(coauthor), shas)
      requires needsFix == ToRepair(At(coauthor), shas)
      requires messages == Candidates(store, shas, coauthor)
      modifies this`store
      ensures exists n | 0 <= n <= |shas| :: store == NewStore(old(At(coauthor)), shas[..n])
      ensures ok <==> AllBuilt(old(At(coauthor)), shas, f)
      ensures ok ==> rewritten == Images(old(At(coauthor)), shas) && store == NewStore(old(At(coauthor)), shas)
    {
      ghost var h := At(coauthor);
      rewritten := map[];
      var i := 0;
      while i < |shas|
        invariant 0 <= i <= |shas|
        invariant BuiltUpTo(h, shas, i, rewritten, store, f)
      {
        rewritten, ok := RebuildNext(h, shas, i, rewritten, coauthor, messages, needsFix, f);
        if !ok { return; }
        i := i + 1;
      }
      assert shas[..i] == shas;
      ok := true;
    }

    /** One pass of the second loop. */
    method RebuildNext(ghost h: History, shas: seq<Sha>, i: nat, rewritten: map<Sha, Sha>, ghost coauthor: string,
                       messages: map<Sha, string>, needsFix: set<Sha>, f: Faults) returns (r: map<Sha, Sha>, ok: bool)
      requires Addressed(h) && Known(h, shas) && i < |shas| && h.hash == hash && h.rule == RuleFor(coauthor)
      requires BuiltUpTo(h, shas, i, rewritten, store, f)
      requires needsFix == ToRepair(h, shas) && messages == Candidates(h.store, shas, coauthor)
      modifies this`store
      ensures ok ==> BuiltUpTo(h, shas, i + 1, r, store, f)
      ensures !ok ==> store == NewStore(h, shas[..i]) && !AllBuilt(h, shas, f)
    {
      var sha := shas[i];
      BuiltStep(h, shas, f, i);
      NewStoreGrows(h, shas[..i]);
      CandidateFixes(h.store, shas, coauthor, sha);
      r, ok := RebuildOne(sha, rewritten, sha in needsFix, messages[sha], f);
      if ok { RebuildStep(h, shas, i); }
    }

    method RebuildOne(sha: Sha, rewritten: map<Sha, Sha>, needed: bool, message: string, f: Faults)
      returns (r: map<Sha, Sha>, ok: bool)
      requires sha in store
      modifies this`store
      ensures var c := old(store)[sha];
        var made := c.(parents := ImagesOf(rewritten, c.parents), message := Stored(Text.RStripNewlines(message)));
        if sha in f.fields then !ok && store == old(store)
        else if !needed && made.parents == c.parents then ok && store == old(store) && r == rewritten[sha := sha]
        else if sha in f.build then !ok && store == old(store)
        else ok && store == old(store)[hash(made) := made] && r == rewritten[sha := hash(made)]
    {
      if sha in f.fields { return rewritten, false; }
      var c := store[sha];
      var parents := ImagesOf(rewritten, c.parents);
      if !needed && parents == c.parents { return rewritten[sha := sha], true; }
      if sha in f.build { return rewritten, false; }
      var made := c.(parents := parents, message := Stored(Text.RStripNewlines(message)));
      store := store[hash(made) := made];
      return rewritten[sha := hash(made)], true;
    }

    /** `_normalize_unpushed_messages`. Someone else may move HEAD (`drift`) before the last step. */
    method Normalize(shas: seq<Sha>, coauthor: string, f: Faults, drift: Option<Sha>) returns (r: Outcome)
      requires Addressed(At(coauthor)) && Known(At(coauthor), shas)
      modifies this
      ensures r == Skipped <==> f.listing || !Detected(old(At(coauthor)), shas, f)
      ensures r == Moved <==>
        Succeeds(old(At(coauthor)), shas, f) && Drifted(old(head), drift) == shas[|shas| - 1] && !f.update
      ensures r == Moved ==> store == NewStore(old(At(coauthor)), shas)
      ensures r == Moved ==> head == Images(old(At(coauthor)), shas)[shas[|shas| - 1]]
      ensures r != Moved ==> head == Drifted(old(head), drift)
      ensures exists n | 0 <= n <= |shas| :: store == NewStore(old(At(coauthor)), shas[..n])
      ensures r == Skipped ==> store == old(store)
    {
      assert NewStore(At(coauthor), shas[..0]) == store;
      r := Skipped;
      if f.listing || shas == [] {
        head := Drifted(head, drift);
        return;
      }
      var messages, repaired, shown := Inspect(shas, coauthor, f);
      if !shown || repaired == [] {
        head := Drifted(head, drift);
        return if repaired == [] then Skipped else Refused;
      }
      var rewritten, ok := Rebuild(shas, coauthor, messages, Elements(repaired), f);
      head := Drifted(head, drift);
      if !ok { return Refused; }
      assert shas[|shas| - 1] in Elements(shas);
      var moved := CompareAndSwapHead(rewritten[shas[|shas| - 1]], shas[|shas| - 1], f.update);
      r := if moved then Moved else Refused;
    }
  }

  function Drifted(head: Sha, drift: Option<Sha>): Sha {
    if drift.Some? then drift.value else head
  }

  method Inspected(stored: string, coauthor: string) returns (candidate: string, needed: bool)
    ensures candidate == Candidate(Shown(stored), coauthor) && (needed <==> RuleFor(coauthor).broken(stored))
  {
    var message := Shown(stored);
    var fixed := RepairMessageEscapes(message);
    candidate := WithTrailer(if fixed.Some? then fixed.value else message, coauthor);
    needed := candidate != message;
  }

  lemma FoundBefore(h: History, shas: seq<Sha>, f: Faults, n: nat, repaired: seq<Sha>)
    requires Known(h, shas) && n <= |shas| && AllShown(shas[..n], f)
    requires Elements(repaired) == ToRepair(h, shas[..n])
    ensures n == |shas| || shas[n] in f.message ==> (repaired != [] <==> Detected(h, shas, f))
    ensures n < |shas| && shas[n] in f.message ==> !AllShown(shas, f)
  {
    ShownPrefix(shas, f, n);
    if repaired != [] {
      assert repaired[0] in ToRepair(h, shas[..n]);
      var i := ToRepairAt(h, shas, n, repaired[0]);
      assert DetectedAt(h, shas, f, i);
    }
    if Detected(h, shas, f) && (n == |shas| || shas[n] in f.message) {
      var i :| DetectedAt(h, shas, f, i);
      ToRepairHas(h, shas, n, i);
      assert shas[i] in Elements(repaired);
    }
  }

  lemma ShownPrefix(shas: seq<Sha>, f: Faults, n: nat)
    requires n <= |shas| && AllShown(shas[..n], f)
    ensures forall j | 0 <= j < n :: shas[j] !in f.message
  {
  }

  lemma ToRepairAt(h: History, shas: seq<Sha>, n: nat, s: Sha) returns (i: nat)
    requires Known(h, shas) && n <= |shas| && s in ToRepair(h, shas[..n])
    ensures i < n && shas[i] == s && h.rule.broken(h.store[s].message)
  {
    i :| i < n && shas[i] == s;
  }

  lemma ToRepairHas(h: History, shas: seq<Sha>, n: nat, i: nat)
    requires Known(h, shas) && i < n <= |shas| && h.rule.broken(h.store[shas[i]].message)
    ensures shas[i] in ToRepair(h, shas[..n])
  {
  }

  lemma InspectStep(h: History, shas: seq<Sha>, f: Faults, i: nat, repaired: seq<Sha>)
    requires Known(h, shas) && i < |shas| && AllShown(shas[..i], f) && shas[i] !in f.message
    ensures AllShown(shas[..i + 1], f)
    ensures ToRepair(h, shas[..i + 1]) == ToRepair(h, shas[..i])
      + if h.rule.broken(h.store[shas[i]].message) then {shas[i]} else {}
    ensures Elements(repaired + [shas[i]]) == Elements(repaired) + {shas[i]}
  {
  }

  lemma CandidatesStep(store: map<Sha, Commit>, shas: seq<Sha>, coauthor: string, i: nat)
    requires i < |shas| && shas[i] in store
    ensures Candidates(store, shas[..i + 1], coauthor)
      == Candidates(store, shas[..i], coauthor)[shas[i] := Candidate(Shown(store[shas[i]].message), coauthor)]
  {
  }

  lemma CandidateFixes(store: map<Sha, Commit>, shas: seq<Sha>, coauthor: string, s: Sha)
    requires s in shas && s in store
    ensures s in Candidates(store, shas, coauthor)
    ensures Stored(Text.RStripNewlines(Candidates(store, shas, coauthor)[s]))
      == RuleFor(coauthor).fixed(store[s].message)
  {
  }

  lemma BuiltStep(h: History, shas: seq<Sha>, f: Faults, i: nat)
    requires Known(h, shas) && i < |shas| && AllBuilt(h, shas[..i], f)
    ensures AllBuilt(h, shas[..i + 1], f) <==> BuiltAt(h, shas, f, i)
    ensures !BuiltAt(h, shas, f, i) ==> !AllBuilt(h, shas, f)
  {
    var next := shas[..i + 1];
    forall j | 0 <= j < i ensures BuiltAt(h, next, f, j) {
      BuiltPrefix(h, shas, f, i, j);
      BuiltPrefix(h, shas, f, i + 1, j);
    }
    BuiltPrefix(h, shas, f, i + 1, i);
  }

  lemma BuiltPrefix(h: History, shas: seq<Sha>, f: Faults, n: nat, j: nat)
    requires Known(h, shas) && j < n <= |shas|
    ensures BuiltAt(h, shas[..n], f, j) <==> BuiltAt(h, shas, f, j)
  {
    assert shas[..n][..j] == shas[..j];
  }

  lemma RebuildStep(h: History, shas: seq<Sha>, i: nat)
    requires Known(h, shas) && i < |shas|
    ensures Images(h, shas[..i + 1]) == Images(h, shas[..i])[shas[i] := NewName(h, Images(h, shas[..i]), shas[i])]
    ensures NewStore(h, shas[..i + 1]) == Stepped(h, shas[..i], shas[i])
  {
    assert shas[..i + 1][..i] == shas[..i] && shas[..i + 1][i] == shas[i];
  }

  lemma {:induction false} NewStoreGrows(h: History, shas: seq<Sha>)
    requires Known(h, shas) && Addressed(h)
    ensures Addressed(h.(store := NewStore(h, shas)))
    ensures forall s | s in h.store :: s in NewStore(h, shas) && NewStore(h, shas)[s] == h.store[s]
  {
    if shas != [] {
      NewStoreGrows(h, shas[..|shas| - 1]);
    }
  }
}
