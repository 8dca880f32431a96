/** What a rewrite does to the commit graph, for every range listed parents-first. */
module RewriterProofs {
  import opened Basics
  import opened CommitMessages
  import opened Rewriter

  /** No commit comes twice, and none before a parent of it that is listed too. */
  ghost predicate ParentsFirst(h: History, shas: seq<Sha>) {
    Known(h, shas) && NoDuplicates(shas)
    && forall i, p | 0 <= i < |shas| && p in h.store[shas[i]].parents && p in shas :: p in shas[..i]
  }

  /** A repaired message is a new one, and is not repaired again. */
  ghost predicate Repairs(rule: Rule) {
    forall m | rule.broken(m) :: rule.fixed(m) != m
  }

  lemma RuleRepairs(coauthor: string)
    ensures Repairs(RuleFor(coauthor))
  {
    forall m | NeedsFix(m, coauthor) ensures Rebuilt(m, coauthor) != m { FixChangesMessage(m, coauthor); }
  }

  ghost predicate Ready(h: History, shas: seq<Sha>) {
    Addressed(h) && Repairs(h.rule) && ParentsFirst(h, shas)
  }

  /******* The rewrite as a fixpoint *******/

  lemma {:induction false} ImagesPrefix(h: History, shas: seq<Sha>, n: nat, s: Sha)
    requires Known(h, shas) && NoDuplicates(shas) && n <= |shas| && s in shas[..n]
    ensures s in Images(h, shas) && Images(h, shas)[s] == Images(h, shas[..n])[s]
  {
    if n < |shas| {
      var init := shas[..|shas| - 1];
      assert shas[..n] == init[..n];
      ImagesPrefix(h, init, n, s);
    } else {
      assert shas[..n] == shas;
    }
  }

  lemma SameParentImages(h: History, shas: seq<Sha>, i: nat)
    requires ParentsFirst(h, shas) && i < |shas|
    ensures ImagesOf(Images(h, shas[..i]), h.store[shas[i]].parents)
      == ImagesOf(Images(h, shas), h.store[shas[i]].parents)
  {
    var ps := h.store[shas[i]].parents;
    forall k | 0 <= k < |ps| ensures ImageOf(Images(h, shas[..i]), ps[k]) == ImageOf(Images(h, shas), ps[k]) {
      if ps[k] in shas { ImagesPrefix(h, shas, i, ps[k]); }
    }
  }

  /** The final map gives every listed commit the name of its record under that same map. */
  lemma NameIsFixpoint(h: History, shas: seq<Sha>, i: nat)
    requires ParentsFirst(h, shas) && i < |shas|
    ensures shas[i] in Images(h, shas) && Images(h, shas)[shas[i]] == NewName(h, Images(h, shas), shas[i])
  {
    RebuildStep(h, shas, i);
    assert shas[..i + 1][i] == shas[i];
    ImagesPrefix(h, shas, i + 1, shas[i]);
    SameParentImages(h, shas, i);
  }

  ghost predicate Grows(before: map<Sha, Commit>, after: map<Sha, Commit>) {
    forall s | s in before :: s in after && after[s] == before[s]
  }

  lemma StepGrows(h: History, before: seq<Sha>, s: Sha)
    requires Known(h, before) && s in h.store && Addressed(h)
    ensures Grows(NewStore(h, before), Stepped(h, before, s))
  {
    NewStoreGrows(h, before);
  }

  lemma {:induction false} StoreKeepsPrefix(h: History, shas: seq<Sha>, n: nat)
    requires Known(h, shas) && Addressed(h) && n <= |shas|
    ensures Grows(NewStore(h, shas[..n]), NewStore(h, shas))
  {
    if n < |shas| {
      var init := shas[..|shas| - 1];
      assert shas[..n] == init[..n];
      StoreKeepsPrefix(h, init, n);
      StepGrows(h, init, shas[|shas| - 1]);
    } else {
      assert shas[..n] == shas;
    }
  }

  /** Every listed commit is in the new store with its tree, identities and dates, and with the images of its
      parents. */
  lemma RecordRewritten(h: History, shas: seq<Sha>, i: nat)
    requires Ready(h, shas) && i < |shas|
    ensures var img, s := Images(h, shas), shas[i];
      s in img && img[s] in NewStore(h, shas)
      && NewStore(h, shas)[img[s]] == h.store[s].(parents := ImagesOf(img, h.store[s].parents),
           message := if Rebuilds(h, img, s) then h.rule.fixed(h.store[s].message) else h.store[s].message)
  {
    NameIsFixpoint(h, shas, i);
    SameParentImages(h, shas, i);
    StepRecords(h, shas, i);
    StoreKeepsPrefix(h, shas, i + 1);
  }

  /** The step writes the record of the commit, or keeps the commit, under its new name. */
  lemma StepRecords(h: History, shas: seq<Sha>, i: nat)
    requires Known(h, shas) && Addressed(h) && i < |shas|
    ensures var before, s := Images(h, shas[..i]), shas[i];
      Bound(NewStore(h, shas[..i + 1]), NewName(h, before, s),
        if Rebuilds(h, before, s) then NewRecord(h, before, s) else h.store[s])
  {
    RebuildStep(h, shas, i);
    NewStoreGrows(h, shas[..i]);
  }

  predicate Bound(store: map<Sha, Commit>, s: Sha, c: Commit) { s in store && store[s] == c }

  lemma NewNameKept(h: History, img: map<Sha, Sha>, s: Sha)
    requires Addressed(h) && Repairs(h.rule) && s in h.store
    ensures NewName(h, img, s) == s <==> !Rebuilds(h, img, s)
  {
  }

  /******* Which commits keep their name *******/

  /** A line of descent inside the range, oldest first. */
  ghost predicate Chain(h: History, shas: seq<Sha>, path: seq<Sha>) {
    path != [] && Known(h, path) && (forall k | 0 <= k < |path| :: path[k] in shas)
    && forall k | 0 < k < |path| :: path[k - 1] in h.store[path[k]].parents
  }

  ghost predicate TaintsBy(h: History, shas: seq<Sha>, path: seq<Sha>, s: Sha) {
    Chain(h, shas, path) && path[|path| - 1] == s && h.rule.broken(h.store[path[0]].message)
  }

  /** The commit, or one of its ancestors in the range, has a message to repair. */
  ghost predicate Tainted(h: History, shas: seq<Sha>, s: Sha) {
    exists path :: TaintsBy(h, shas, path, s)
  }

  lemma {:induction false} TaintedChanges(h: History, shas: seq<Sha>, path: seq<Sha>, s: Sha)
    requires Ready(h, shas) && TaintsBy(h, shas, path, s)
    ensures s in Images(h, shas) && Images(h, shas)[s] != s
    decreases |path|
  {
    var i :| 0 <= i < |shas| && shas[i] == s;
    NameIsFixpoint(h, shas, i);
    NewNameKept(h, Images(h, shas), s);
    if |path| > 1 {
      var init := path[..|path| - 1];
      var p := init[|init| - 1];
      assert forall k | 0 <= k < |init| :: init[k] == path[k];
      TaintedChanges(h, shas, init, p);
      var ps := h.store[s].parents;
      var k :| 0 <= k < |ps| && ps[k] == p;
      assert ImagesOf(Images(h, shas), ps)[k] != ps[k];
    }
  }

  lemma TaintedParent(h: History, shas: seq<Sha>, p: Sha, s: Sha)
    requires Known(h, shas) && s in shas && p in h.store[s].parents && Tainted(h, shas, p)
    ensures Tainted(h, shas, s)
  {
    var path :| TaintsBy(h, shas, path, p);
    var i :| 0 <= i < |shas| && shas[i] == s;
    assert TaintsBy(h, shas, path + [s], s);
  }

  lemma {:induction false} UntaintedKept(h: History, shas: seq<Sha>, i: nat)
    requires Ready(h, shas) && i < |shas| && !Tainted(h, shas, shas[i])
    ensures shas[i] in Images(h, shas) && Images(h, shas)[shas[i]] == shas[i]
    decreases i
  {
    var s := shas[i];
    NameIsFixpoint(h, shas, i);
    assert Chain(h, shas, [s]);
    assert !TaintsBy(h, shas, [s], s);
    var ps := h.store[s].parents;
    forall k | 0 <= k < |ps| ensures ImageOf(Images(h, shas), ps[k]) == ps[k] {
      if ps[k] in shas {
        var j := UntaintedParent(h, shas, i, ps[k]);
        UntaintedKept(h, shas, j);
      }
    }
    assert ImagesOf(Images(h, shas), ps) == ps;
  }

  lemma UntaintedParent(h: History, shas: seq<Sha>, i: nat, p: Sha) returns (j: nat)
    requires ParentsFirst(h, shas) && i < |shas| && !Tainted(h, shas, shas[i])
    requires p in h.store[shas[i]].parents && p in shas
    ensures j < i && shas[j] == p && !Tainted(h, shas, p)
  {
    j :| 0 <= j < i && shas[..i][j] == p;
    if Tainted(h, shas, p) { TaintedParent(h, shas, p, shas[i]); }
  }

  /** A commit keeps its name exactly when neither it nor an ancestor of it in the range has a message to repair. */
  lemma KeptIff(h: History, shas: seq<Sha>, s: Sha)
    requires Ready(h, shas) && s in shas
    ensures s in Images(h, shas) && (Images(h, shas)[s] == s <==> !Tainted(h, shas, s))
  {
    var i :| 0 <= i < |shas| && shas[i] == s;
    if Tainted(h, shas, s) {
      var path :| TaintsBy(h, shas, path, s);
      TaintedChanges(h, shas, path, s);
    } else {
      UntaintedKept(h, shas, i);
    }
  }

  /******* When distinct commits stay distinct *******/

  /** The commits that the range is built on: closed under parents, and apart from the range. */
  ghost predicate Base(h: History, shas: seq<Sha>, base: set<Sha>) {
    (forall s | s in base :: s in h.store && s !in shas)
    && (forall s, p | s in base && p in h.store[s].parents :: p in base)
    && forall i, p | 0 <= i < |shas| && shas[i] in h.store && p in h.store[shas[i]].parents :: p in shas || p in base
  }

  ghost function Settled(h: History, shas: seq<Sha>, s: Sha): Commit
    requires s in h.store
  {
    h.store[s].(message := if Tainted(h, shas, s) then h.rule.fixed(h.store[s].message) else h.store[s].message)
  }

  /** Two commits that differ only in what the repair of their messages removes. */
  ghost predicate Twins(h: History, shas: seq<Sha>, a: Sha, b: Sha) {
    a != b && a in h.store && b in h.store && Settled(h, shas, a) == Settled(h, shas, b)
  }

  ghost predicate In(shas: seq<Sha>, base: set<Sha>, s: Sha) { s in shas || s in base }

  ghost predicate Distinct(h: History, shas: seq<Sha>, base: set<Sha>)
    requires Known(h, shas)
  {
    forall a, b | In(shas, base, a) && In(shas, base, b) && a != b ::
      ImageOf(Images(h, shas), a) != ImageOf(Images(h, shas), b)
  }

  lemma SettledImage(h: History, shas: seq<Sha>, base: set<Sha>, s: Sha)
    requires Ready(h, shas) && Base(h, shas, base) && In(shas, base, s)
    ensures s in h.store
    ensures var img := Images(h, shas);
      ImageOf(img, s) == h.hash(Settled(h, shas, s).(parents := ImagesOf(img, h.store[s].parents)))
  {
    var img := Images(h, shas);
    if s in shas {
      var i :| 0 <= i < |shas| && shas[i] == s;
      NameIsFixpoint(h, shas, i);
      KeptIff(h, shas, s);
      NewNameKept(h, img, s);
    } else {
      var ps := h.store[s].parents;
      assert forall k | 0 <= k < |ps| :: ps[k] in base && ImageOf(img, ps[k]) == ps[k];
      assert ImagesOf(img, ps) == ps;
      assert !Tainted(h, shas, s);
    }
  }

  lemma TwinsCollide(h: History, shas: seq<Sha>, base: set<Sha>, a: Sha, b: Sha)
    requires Ready(h, shas) && Base(h, shas, base) && In(shas, base, a) && In(shas, base, b) && Twins(h, shas, a, b)
    ensures ImageOf(Images(h, shas), a) == ImageOf(Images(h, shas), b)
  {
    SettledImage(h, shas, base, a);
    SettledImage(h, shas, base, b);
  }

  ghost function Rank(shas: seq<Sha>, s: Sha): nat {
    if s in shas then var i :| 0 <= i < |shas| && shas[i] == s; i + 1 else 0
  }

  lemma RankOfParent(h: History, shas: seq<Sha>, p: Sha, s: Sha)
    requires ParentsFirst(h, shas) && s in shas && p in h.store[s].parents
    ensures Rank(shas, p) < Rank(shas, s)
  {
  }

  /** A collision goes back, parent by parent, to a pair of twins. */
  lemma {:induction false} CollisionHasTwins(h: History, shas: seq<Sha>, base: set<Sha>, a: Sha, b: Sha)
    returns (c: Sha, d: Sha)
    requires Ready(h, shas) && Base(h, shas, base) && In(shas, base, a) && In(shas, base, b) && a != b
    requires ImageOf(Images(h, shas), a) == ImageOf(Images(h, shas), b)
    ensures In(shas, base, c) && In(shas, base, d) && Twins(h, shas, c, d)
    decreases Rank(shas, a) + Rank(shas, b)
  {
    SettledImage(h, shas, base, a);
    SettledImage(h, shas, base, b);
    var img, ps, qs := Images(h, shas), h.store[a].parents, h.store[b].parents;
    assert Settled(h, shas, a).(parents := ImagesOf(img, ps)) == Settled(h, shas, b).(parents := ImagesOf(img, qs));
    assert |ps| == |qs| by { assert |ImagesOf(img, ps)| == |ImagesOf(img, qs)|; }
    if ps == qs {
      c, d := a, b;
    } else {
      var k :| 0 <= k < |ps| && ps[k] != qs[k];
      assert ImageOf(img, ps[k]) == ImagesOf(img, ps)[k] == ImagesOf(img, qs)[k] == ImageOf(img, qs[k]);
      if a in shas { RankOfParent(h, shas, ps[k], a); }
      if b in shas { RankOfParent(h, shas, qs[k], b); }
      c, d := CollisionHasTwins(h, shas, base, ps[k], qs[k]);
    }
  }

  /** The rewritten history has the shape of the old one exactly when the old one has no twins. */
  lemma DistinctIff(h: History, shas: seq<Sha>, base: set<Sha>)
    requires Ready(h, shas) && Base(h, shas, base)
    ensures Distinct(h, shas, base) <==> !exists a, b :: In(shas, base, a) && In(shas, base, b) && Twins(h, shas, a, b)
  {
    if a, b :| In(shas, base, a) && In(shas, base, b) && Twins(h, shas, a, b) {
      TwinsCollide(h, shas, base, a, b);
    }
    if !Distinct(h, shas, base) {
      var a, b :| In(shas, base, a) && In(shas, base, b) && a != b
               && ImageOf(Images(h, shas), a) == ImageOf(Images(h, shas), b);
      var c, d := CollisionHasTwins(h, shas, base, a, b);
    }
  }

  /******* After the rewrite *******/

  /** Once HEAD has moved no commit of the new range needs a repair, so the next pass skips it. */
  lemma SecondPassSkips(h: History, shas: seq<Sha>, again: seq<Sha>, coauthor: string, f: Faults)
    requires Ready(h, shas) && h.rule == RuleFor(coauthor) && !HasEscape(TrailerLine(coauthor))
    requires forall s | s in again :: s in Images(h, shas).Values
    ensures var h' := h.(store := NewStore(h, shas)); Known(h', again) && !Detected(h', again, f)
  {
    var h' := h.(store := NewStore(h, shas));
    forall k | 0 <= k < |again| ensures again[k] in h'.store && !h.rule.broken(h'.store[again[k]].message) {
      assert again[k] in again;
      var s :| s in Images(h, shas) && Images(h, shas)[s] == again[k];
      assert s in Elements(shas);
      var i :| 0 <= i < |shas| && shas[i] == s;
      RecordRewritten(h, shas, i);
      RebuiltIsNormal(h.store[s].message, coauthor);
    }
  }

  /** A second run of the whole rewriter on a rewritten range changes nothing. */
  method NormalizeTwice(repo: Repo, shas: seq<Sha>, again: seq<Sha>, coauthor: string, f: Faults, g: Faults)
    returns (first: Outcome, second: Outcome)
    requires Addressed(repo.At(coauthor)) && ParentsFirst(repo.At(coauthor), shas) && !HasEscape(TrailerLine(coauthor))
    requires forall s | s in again :: s in Images(repo.At(coauthor), shas).Values
    requires Succeeds(repo.At(coauthor), shas, f) && !f.update && repo.head == shas[|shas| - 1]
    modifies repo
    ensures first == Moved && second == Skipped
    ensures old(repo.head) in old(repo.store) && repo.head in repo.store
    ensures repo.store[repo.head].tree == old(repo.store)[old(repo.head)].tree
  {
    ghost var h := repo.At(coauthor);
    first := repo.Normalize(shas, coauthor, f, None);
    AfterMove(h, shas, again, coauthor, g);
    assert repo.At(coauthor) == h.(store := NewStore(h, shas));
    second := repo.Normalize(again, coauthor, g, None);
  }

  /** What the second run finds. */
  lemma AfterMove(h: History, shas: seq<Sha>, again: seq<Sha>, coauthor: string, g: Faults)
    requires Addressed(h) && ParentsFirst(h, shas) && shas != []
    requires h.rule == RuleFor(coauthor) && !HasEscape(TrailerLine(coauthor))
    requires forall s | s in again :: s in Images(h, shas).Values
    ensures var m := h.(store := NewStore(h, shas)); Addressed(m) && Known(m, again) && !Detected(m, again, g)
    ensures var last := shas[|shas| - 1]; var img := Images(h, shas);
      last in img && last in h.store && img[last] in NewStore(h, shas)
      && NewStore(h, shas)[img[last]].tree == h.store[last].tree
  {
    RuleRepairs(coauthor);
    NewStoreGrows(h, shas);
    SecondPassSkips(h, shas, again, coauthor, g);
    RecordRewritten(h, shas, |shas| - 1);
  }
}
