/**
 How a commit message is normalized before a push: literal `\n` escapes outside backtick spans
 become newlines and the co-author trailer is appended when it is missing.
 */
module CommitMessages {
  import opened Basics
  import opened Text

  const ESCAPE := "\\n"        // a backslash and an n
  const CRLF_ESCAPE := "\\r\\n"

  /******* The string operations *******/

  /** `s.split("`")`. */
  function Split(s: string): (parts: seq<string>)
    ensures |parts| >= 1 && forall p | p in parts :: '`' !in p
  {
    if s == [] then [[]]
    else
      var rest := Split(s[1..]);
      if s[0] == '`' then [[]] + rest else [[s[0]] + rest[0]] + rest[1..]
  }

  /** `"`".join(parts)`. */
  function Join(parts: seq<string>): string
    requires |parts| >= 1
  {
    if |parts| == 1 then parts[0] else parts[0] + "`" + Join(parts[1..])
  }

  /** `s.replace(pat, "\n")`: leftmost matches, never overlapping. */
  function Replace(s: string, pat: string): string
    requires pat != []
  {
    if s == [] then []
    else if pat <= s then ['\n'] + Replace(s[|pat|..], pat)
    else [s[0]] + Replace(s[1..], pat)
  }

  function RepairPart(p: string): string {
    Replace(Replace(p, CRLF_ESCAPE), ESCAPE)
  }

  /** Repair every second part; the first one is repaired when `outside`. */
  function RepairParts(parts: seq<string>, outside: bool): seq<string> {
    seq(|parts|, i requires 0 <= i < |parts| => if (i % 2 == 0) == outside then RepairPart(parts[i]) else parts[i])
  }

  /** `_repair_message_escapes`. */
  function Repair(message: string): Option<string> {
    var parts := Split(message);
    var fixed := RepairParts(parts, true);
    if fixed == parts then None else Some(Join(fixed))
  }

  /** The loop of `_repair_message_escapes` over the parts outside code spans. */
  method RepairOutsideSpans(split: seq<string>) returns (parts: seq<string>, changed: bool)
    ensures parts == RepairParts(split, true) && (changed <==> parts != split)
  {
    parts, changed := split, false;
    ghost var target := RepairParts(split, true);
    ghost var first := 0;
    var i := 0;
    while i < |parts|
      invariant 0 <= i <= |parts| + 1 && i % 2 == 0 && |parts| == |split|
      invariant forall j | 0 <= j < i && j < |parts| :: parts[j] == target[j]
      invariant forall j | i <= j < |parts| :: parts[j] == split[j]
      invariant if changed then first < i && first < |parts| && parts[first] != split[first] else parts == split
    {
      RepairPartsAt(split, i);
      var fixed := RepairPart(parts[i]);
      if fixed != parts[i] {
        if !changed { first := i; }
        parts := parts[i := fixed];
        changed := true;
      }
      i := i + 2;
    }
    assert parts == target;
  }

  lemma RepairPartsAt(parts: seq<string>, i: nat)
    requires i % 2 == 0 && i < |parts|
    ensures RepairParts(parts, true)[i] == RepairPart(parts[i])
    ensures i + 1 < |parts| ==> RepairParts(parts, true)[i + 1] == parts[i + 1]
  {
  }

  /** `_repair_message_escapes`. */
  method RepairMessageEscapes(message: string) returns (repaired: Option<string>)
    ensures repaired == Repair(message)
  {
    if !Contains(message, ESCAPE) {
      CleanWithoutEscapes(message);
      RepairIff(message);
      return None;
    }
    var parts, changed := RepairOutsideSpans(Split(message));
    repaired := if changed then Some(Join(parts)) else None;
  }

  /** `coauthor_trailer_line`. */
  function TrailerLine(coauthor: string): string {
    var who := Strip(coauthor);
    if who == [] then [] else "Co-authored-by: " + who
  }

  /** `with_coauthor_trailer`. */
  function WithTrailer(message: string, coauthor: string): string {
    var trailer := TrailerLine(coauthor);
    if trailer == [] || Contains(message, trailer) then message else RStrip(message) + "\n\n" + trailer
  }

  /** What the rewriter compares a message with. */
  function Candidate(message: string, coauthor: string): string {
    var repaired := Repair(message);
    WithTrailer(if repaired.Some? then repaired.value else message, coauthor)
  }

  /** `git log --format=%B` ends the stored message with one more newline. */
  function Shown(stored: string): string { stored + "\n" }

  /** `git commit-tree -m` completes the last line. */
  function Stored(m: string): string { if m == [] then [] else m + "\n" }

  predicate NeedsFix(stored: string, coauthor: string) {
    Candidate(Shown(stored), coauthor) != Shown(stored)
  }

  /** The message `commit-tree` stores for a commit it rebuilds. */
  function Rebuilt(stored: string, coauthor: string): string {
    Stored(RStripNewlines(Candidate(Shown(stored), coauthor)))
  }

  /******* Escapes and code spans *******/

  function Ticks(s: string): nat {
    if s == [] then 0 else (if s[0] == '`' then 1 else 0) + Ticks(s[1..])
  }

  predicate EscapeAt(s: string, i: int) {
    0 <= i && i + 2 <= |s| && s[i] == '\\' && s[i + 1] == 'n'
  }

  ghost predicate HasEscape(s: string) {
    exists i :: EscapeAt(s, i)
  }

  /** Every escape sits behind an odd number of backticks (an even one when not `outside`). */
  ghost predicate CleanFrom(s: string, outside: bool) {
    forall i | EscapeAt(s, i) :: (Ticks(s[..i]) % 2 == 0) != outside
  }

  ghost predicate Clean(s: string) { CleanFrom(s, true) }

  ghost predicate PartsClean(parts: seq<string>, outside: bool) {
    forall i | 0 <= i < |parts| && (i % 2 == 0) == outside :: !HasEscape(parts[i])
  }

  lemma CleanWithoutEscapes(s: string)
    requires !Contains(s, ESCAPE)
    ensures !HasEscape(s) && Clean(s)
  {
    forall i ensures !EscapeAt(s, i) {
      if EscapeAt(s, i) {
        assert s[i..i + 2] == ESCAPE;
        ContainsAt(s, ESCAPE, i);
      }
    }
  }

  lemma CleanHead(s: string, outside: bool)
    requires s != []
    ensures CleanFrom(s, outside) <==>
      (EscapeAt(s, 0) ==> !outside) && CleanFrom(s[1..], if s[0] == '`' then !outside else outside)
  {
    var t, inner := s[1..], if s[0] == '`' then !outside else outside;
    assert s[..0] == [];
    forall i | 0 <= i && EscapeAt(t, i)
      ensures EscapeAt(s, i + 1) && ((Ticks(s[..i + 1]) % 2 == 0) != outside <==> (Ticks(t[..i]) % 2 == 0) != inner)
    {
      assert s[..i + 1][1..] == t[..i];
    }
    if CleanFrom(s, outside) {
      forall i | EscapeAt(t, i) ensures (Ticks(t[..i]) % 2 == 0) != inner { assert EscapeAt(s, i + 1); }
    }
    if (EscapeAt(s, 0) ==> !outside) && CleanFrom(t, inner) {
      forall i | EscapeAt(s, i) ensures (Ticks(s[..i]) % 2 == 0) != outside {
        if i > 0 { assert EscapeAt(t, i - 1); }
      }
    }
  }

  lemma HasEscapeHead(c: char, p: string)
    ensures HasEscape([c] + p) <==> (c == '\\' && p != [] && p[0] == 'n') || HasEscape(p)
  {
    if HasEscape(p) {
      var i :| EscapeAt(p, i);
      assert EscapeAt([c] + p, i + 1);
    }
    if c == '\\' && p != [] && p[0] == 'n' { assert EscapeAt([c] + p, 0); }
    if HasEscape([c] + p) {
      var i :| EscapeAt([c] + p, i);
      if i > 0 { assert EscapeAt(p, i - 1); }
    }
  }

  lemma SplitHead(s: string)
    ensures var h := Split(s)[0];
      if s == [] || s[0] == '`' then h == [] else h != [] && h[0] == s[0]
  {
  }

  lemma PartsCleanTick(rest: seq<string>, outside: bool)
    ensures PartsClean([[]] + rest, outside) <==> PartsClean(rest, !outside)
  {
    var parts := [[]] + rest;
    if PartsClean(parts, outside) {
      forall i | 0 <= i < |rest| && (i % 2 == 0) == !outside ensures !HasEscape(rest[i]) {
        assert parts[i + 1] == rest[i];
      }
    }
    if PartsClean(rest, !outside) {
      forall i | 0 <= i < |parts| && (i % 2 == 0) == outside ensures !HasEscape(parts[i]) {
        if i > 0 { assert parts[i] == rest[i - 1]; }
      }
    }
  }

  lemma PartsCleanChar(c: char, rest: seq<string>, outside: bool)
    requires rest != []
    ensures PartsClean([[c] + rest[0]] + rest[1..], outside) <==>
      ((c == '\\' && rest[0] != [] && rest[0][0] == 'n') ==> !outside) && PartsClean(rest, outside)
  {
    var parts := [[c] + rest[0]] + rest[1..];
    HasEscapeHead(c, rest[0]);
    assert forall i | 1 <= i < |rest| :: parts[i] == rest[i];
    if PartsClean(rest, outside) && !PartsClean(parts, outside) {
      var i :| 0 <= i < |parts| && (i % 2 == 0) == outside && HasEscape(parts[i]);
      assert i == 0;
    }
    if PartsClean(parts, outside) {
      forall i | 0 <= i < |rest| && (i % 2 == 0) == outside ensures !HasEscape(rest[i]) {
        assert !HasEscape(parts[i]);
      }
    }
  }

  /** The position view and the split view of code spans agree. */
  lemma {:induction false} CleanParts(s: string, outside: bool)
    ensures CleanFrom(s, outside) <==> PartsClean(Split(s), outside)
  {
    if s == [] {
      assert Split(s) == [[]];
    } else {
      var rest := Split(s[1..]);
      CleanHead(s, outside);
      if s[0] == '`' {
        CleanParts(s[1..], !outside);
        PartsCleanTick(rest, outside);
      } else {
        CleanParts(s[1..], outside);
        PartsCleanChar(s[0], rest, outside);
        SplitHead(s[1..]);
      }
    }
  }

  lemma CleanPrefix(s: string, t: string)
    requires t <= s && Clean(s)
    ensures Clean(t)
  {
    forall i | EscapeAt(t, i) ensures Ticks(t[..i]) % 2 == 1 {
      assert EscapeAt(s, i) && s[..i] == t[..i];
    }
  }

  /** A suffix that starts with a newline and holds no escape keeps a message clean. */
  lemma CleanAppend(s: string, t: string)
    requires Clean(s) && t != [] && t[0] != 'n' && !HasEscape(t)
    ensures Clean(s + t)
  {
    forall i | EscapeAt(s + t, i) ensures Ticks((s + t)[..i]) % 2 == 1 {
      if i + 2 <= |s| {
        assert EscapeAt(s, i) && (s + t)[..i] == s[..i];
      } else if i >= |s| {
        assert EscapeAt(t, i - |s|);
      }
    }
  }

  /******* Replacing *******/

  /** s and r agree before p, where an escape of s has become a newline. */
  ghost predicate DiffersAt(s: string, r: string, p: nat) {
    p < |s| && p < |r| && s[..p] == r[..p] && s[p] == '\\' && r[p] == '\n'
  }

  lemma {:induction false} ReplaceKeeps(s: string, pat: string)
    requires pat == ESCAPE || pat == CRLF_ESCAPE
    ensures !HasEscape(s) ==> Replace(s, pat) == s
    ensures '`' !in s ==> '`' !in Replace(s, pat)
  {
    if s != [] {
      if pat <= s {
        assert EscapeAt(s, |pat| - 2);
        assert s[|pat|..] <= s[|pat|..] && forall c | c in s[|pat|..] :: c in s;
        ReplaceKeeps(s[|pat|..], pat);
      } else {
        HasEscapeHead(s[0], s[1..]);
        assert s == [s[0]] + s[1..];
        ReplaceKeeps(s[1..], pat);
      }
    }
  }

  lemma {:induction false} ReplaceRemoves(s: string)
    ensures !HasEscape(Replace(s, ESCAPE))
    ensures var r := Replace(s, ESCAPE); r != [] && r[0] == 'n' ==> s != [] && s[0] == 'n'
  {
    if s != [] {
      if ESCAPE <= s {
        ReplaceRemoves(s[2..]);
        HasEscapeHead('\n', Replace(s[2..], ESCAPE));
      } else {
        ReplaceRemoves(s[1..]);
        HasEscapeHead(s[0], Replace(s[1..], ESCAPE));
        assert |s| >= 2 ==> (s[..2] == ESCAPE <==> s[0] == '\\' && s[1..][0] == 'n');
      }
    }
  }

  lemma {:induction false} ReplaceDiffers(s: string, pat: string) returns (p: nat)
    requires pat == ESCAPE || pat == CRLF_ESCAPE
    requires Replace(s, pat) != s
    ensures DiffersAt(s, Replace(s, pat), p)
  {
    if pat <= s {
      p := 0;
    } else {
      var q := ReplaceDiffers(s[1..], pat);
      p := q + 1;
      assert s[..p] == [s[0]] + s[1..][..q];
      assert Replace(s, pat)[..p] == [s[0]] + Replace(s[1..], pat)[..q];
    }
  }

  lemma RepairPartFacts(p: string)
    ensures !HasEscape(RepairPart(p))
    ensures RepairPart(p) == p <==> !HasEscape(p)
    ensures '`' !in p ==> '`' !in RepairPart(p)
  {
    ReplaceRemoves(Replace(p, CRLF_ESCAPE));
    ReplaceKeeps(p, CRLF_ESCAPE);
    ReplaceKeeps(Replace(p, CRLF_ESCAPE), ESCAPE);
  }

  lemma RepairPartDiffers(s: string) returns (p: nat)
    requires RepairPart(s) != s
    ensures DiffersAt(s, RepairPart(s), p)
  {
    var u := Replace(s, CRLF_ESCAPE);
    if u == s {
      p := ReplaceDiffers(s, ESCAPE);
    } else if Replace(u, ESCAPE) == u {
      p := ReplaceDiffers(s, CRLF_ESCAPE);
    } else {
      var p1 := ReplaceDiffers(s, CRLF_ESCAPE);
      var p2 := ReplaceDiffers(u, ESCAPE);
      p := if p2 < p1 then p2 else p1;
      var v := Replace(u, ESCAPE);
      assert s[..p] == s[..p1][..p] && u[..p] == u[..p1][..p];
      assert u[..p] == u[..p2][..p] && v[..p] == v[..p2][..p];
      if p2 < p1 { assert s[p] == s[..p1][p] == u[p]; } else { assert v[p] == v[..p2][p] == u[..p2][p]; }
    }
  }

  /******* Splitting and joining *******/

  lemma {:induction false} JoinSplit(s: string)
    ensures Join(Split(s)) == s
  {
    if s != [] {
      var rest := Split(s[1..]);
      JoinSplit(s[1..]);
      if s[0] == '`' {
        assert ([[]] + rest)[1..] == rest;
      } else {
        assert ([[s[0]] + rest[0]] + rest[1..])[1..] == rest[1..];
      }
    }
  }

  lemma {:induction false} SplitPart(a: string, s: string)
    requires '`' !in a
    ensures Split(a + "`" + s) == [a] + Split(s)
    ensures Split(a) == [a]
  {
    if a == [] {
      assert a + "`" + s == "`" + s && ("`" + s)[1..] == s;
    } else {
      SplitPart(a[1..], s);
      assert (a + "`" + s)[1..] == a[1..] + "`" + s;
      assert [a[0]] + a[1..] == a;
      assert ([a[1..]] + Split(s))[1..] == Split(s);
    }
  }

  lemma {:induction false} SplitJoin(parts: seq<string>)
    requires |parts| >= 1 && forall p | p in parts :: '`' !in p
    ensures Split(Join(parts)) == parts
  {
    assert parts[0] in parts;
    if |parts| == 1 {
      SplitPart(parts[0], []);
    } else {
      SplitJoin(parts[1..]);
      SplitPart(parts[0], Join(parts[1..]));
      assert parts == [parts[0]] + parts[1..];
    }
  }

  lemma DiffersBehind(head: string, s: string, r: string, q: nat)
    requires DiffersAt(s, r, q)
    ensures DiffersAt(head + s, head + r, |head| + q)
  {
  }

  lemma DiffersBefore(s: string, r: string, p: nat, a: string, b: string)
    requires DiffersAt(s, r, p)
    ensures DiffersAt(s + a, r + b, p)
  {
  }

  /** Two lists that agree up to part k, where they differ at q, join to strings that differ. */
  lemma {:induction false} JoinDiffers(parts: seq<string>, fixed: seq<string>, k: nat, q: nat) returns (p: nat)
    requires k < |parts| == |fixed| && parts[..k] == fixed[..k] && DiffersAt(parts[k], fixed[k], q)
    ensures DiffersAt(Join(parts), Join(fixed), p)
  {
    if k == 0 {
      p := q;
      if |parts| > 1 {
        DiffersBefore(parts[0], fixed[0], q, "`" + Join(parts[1..]), "`" + Join(fixed[1..]));
        assert parts[0] + ("`" + Join(parts[1..])) == Join(parts);
        assert fixed[0] + ("`" + Join(fixed[1..])) == Join(fixed);
      }
    } else {
      assert parts[0] == parts[..k][0] == fixed[..k][0] == fixed[0];
      assert parts[1..][..k - 1] == parts[..k][1..] && fixed[1..][..k - 1] == fixed[..k][1..];
      var r := JoinDiffers(parts[1..], fixed[1..], k - 1, q);
      DiffersBehind(parts[0] + "`", Join(parts[1..]), Join(fixed[1..]), r);
      p := |parts[0] + "`"| + r;
    }
  }

  lemma {:induction false} FirstDifference<T>(a: seq<T>, b: seq<T>) returns (k: nat)
    requires |a| == |b| && a != b
    ensures k < |a| && a[..k] == b[..k] && a[k] != b[k]
  {
    var n := |a| - 1;
    assert a == a[..n] + [a[n]] && b == b[..n] + [b[n]];
    if a[..n] == b[..n] {
      k := n;
    } else {
      k := FirstDifference(a[..n], b[..n]);
      assert a[..k] == a[..n][..k] && b[..k] == b[..n][..k];
    }
  }

  /******* What a repair does *******/

  lemma FixedParts(parts: seq<string>, outside: bool)
    requires forall p | p in parts :: '`' !in p
    ensures forall p | p in RepairParts(parts, outside) :: '`' !in p
    ensures PartsClean(RepairParts(parts, outside), outside)
    ensures RepairParts(parts, outside) == parts <==> PartsClean(parts, outside)
  {
    var fixed := RepairParts(parts, outside);
    forall i | 0 <= i < |parts|
      ensures '`' !in fixed[i] && ((i % 2 == 0) == outside ==>
        !HasEscape(fixed[i]) && (fixed[i] == parts[i] <==> !HasEscape(parts[i])))
    {
      RepairPartFacts(parts[i]);
      assert parts[i] in parts;
    }
    if PartsClean(parts, outside) {
      forall i | 0 <= i < |parts| ensures fixed[i] == parts[i] {
        if (i % 2 == 0) == outside { assert !HasEscape(parts[i]); }
      }
    }
  }

  /** A repair happens exactly when an escape is outside the code spans, and leaves none there. */
  lemma RepairIff(message: string)
    ensures Repair(message).None? <==> Clean(message)
    ensures Repair(message).Some? ==> Clean(Repair(message).value)
  {
    var fixed := RepairParts(Split(message), true);
    CleanParts(message, true);
    FixedParts(Split(message), true);
    SplitJoin(fixed);
    CleanParts(Join(fixed), true);
  }

  /** A repair leaves the number of parts and every code span as they were. */
  lemma RepairKeepsSpans(message: string, i: nat)
    requires Repair(message).Some? && i < |Split(message)|
    ensures |Split(Repair(message).value)| == |Split(message)|
    ensures i % 2 == 1 ==> Split(Repair(message).value)[i] == Split(message)[i]
    ensures i % 2 == 0 ==> Split(Repair(message).value)[i] == RepairPart(Split(message)[i])
  {
    FixedParts(Split(message), true);
    SplitJoin(RepairParts(Split(message), true));
  }

  lemma RepairDiffers(message: string) returns (p: nat)
    requires Repair(message).Some?
    ensures DiffersAt(message, Repair(message).value, p)
  {
    JoinSplit(message);
    var parts := Split(message);
    var fixed := RepairParts(parts, true);
    var k := FirstDifference(parts, fixed);
    var q := RepairPartDiffers(parts[k]);
    p := JoinDiffers(parts, fixed, k, q);
  }

  /******* The trailer *******/

  lemma TrailerShape(coauthor: string)
    ensures var t := TrailerLine(coauthor); t != [] ==> t[0] == 'C' && !IsSpace(t[|t| - 1])
  {
  }

  lemma DropEndAppend(a: string, t: string, p: char -> bool)
    requires forall c | c in t :: p(c)
    ensures DropEnd(a + t, p) == DropEnd(a, p)
  {
    if t == [] {
      assert a + t == a;
    } else {
      assert (a + t)[..|a + t| - 1] == a + t[..|t| - 1];
      assert (a + t)[|a + t| - 1] == t[|t| - 1] && t[|t| - 1] in t;
      assert forall c | c in t[..|t| - 1] :: c in t;
      DropEndAppend(a, t[..|t| - 1], p);
    }
  }

  /** Base of the candidate: the message after repair. */
  function Repaired(message: string): string {
    var r := Repair(message);
    if r.Some? then r.value else message
  }

  predicate Appends(message: string, coauthor: string) {
    TrailerLine(coauthor) != [] && !Contains(Repaired(message), TrailerLine(coauthor))
  }

  /** Where an escape was repaired the candidate differs, even if the trailer that is appended matches. */
  lemma RepairedDiffers(message: string, coauthor: string)
    requires Repair(message).Some?
    ensures RStripNewlines(message) != RStripNewlines(Candidate(message, coauthor))
  {
    var f := Repair(message).value;
    var p := RepairDiffers(message);
    var m' := RStripNewlines(message);
    assert p < |m'| && m'[p] == '\\';
    if Appends(message, coauthor) {
      AppendedDiffers(message, f, TrailerLine(coauthor), p, coauthor);
    } else {
      assert Candidate(message, coauthor) == f;
      assert p < |RStripNewlines(f)| ==> RStripNewlines(f)[p] == '\n';
    }
  }

  lemma AppendedDiffers(message: string, f: string, trailer: string, p: nat, coauthor: string)
    requires DiffersAt(message, f, p) && trailer == TrailerLine(coauthor) && trailer != []
    ensures RStripNewlines(message) != RStripNewlines(RStrip(f) + "\n\n" + trailer)
  {
    TrailerShape(coauthor);
    var c := RStrip(f) + "\n\n" + trailer;
    assert c[|c| - 1] == trailer[|trailer| - 1];
    assert RStripNewlines(c) == c;
    assert c[|RStrip(f)| + 2] == trailer[0];
    TailDiffers(message, f, c, RStrip(f), p);
  }

  /** If c continues a stripped f with two newlines and a letter, it cannot be message without its last newlines. */
  lemma TailDiffers(message: string, f: string, c: string, a: string, p: nat)
    requires DiffersAt(message, f, p)
    requires a <= f && forall i | |a| <= i < |f| :: IsSpace(f[i])
    requires a <= c && |c| >= |a| + 3 && c[|a|] == '\n' && c[|a| + 1] == '\n' && c[|a| + 2] == 'C'
    ensures RStripNewlines(message) != c
  {
  }

  lemma MissingTrailerDiffers(message: string, coauthor: string, c: string)
    requires c == RStrip(message) + "\n\n" + TrailerLine(coauthor)
    requires TrailerLine(coauthor) != [] && !Contains(message, TrailerLine(coauthor))
    ensures RStripNewlines(message) != RStripNewlines(c)
  {
  }

  /** A message that was changed does not come back, not even up to trailing newlines. */
  lemma ChangedMessageDiffers(message: string, coauthor: string)
    requires !Clean(message) || Appends(message, coauthor)
    ensures RStripNewlines(message) != RStripNewlines(Candidate(message, coauthor))
  {
    RepairIff(message);
    if Repair(message).Some? {
      RepairedDiffers(message, coauthor);
    } else {
      MissingTrailerDiffers(message, coauthor, Candidate(message, coauthor));
    }
  }

  /** The rewriter changes a commit exactly when an escape is outside the spans or the trailer is missing. */
  lemma NeedsFixIff(stored: string, coauthor: string)
    ensures NeedsFix(stored, coauthor) <==> !Clean(Shown(stored)) || Appends(Shown(stored), coauthor)
  {
    var m := Shown(stored);
    if !Clean(m) || Appends(m, coauthor) {
      ChangedMessageDiffers(m, coauthor);
    } else {
      RepairIff(m);
    }
  }

  /** A commit that needs a fix gets a new message. */
  lemma FixChangesMessage(stored: string, coauthor: string)
    requires NeedsFix(stored, coauthor)
    ensures Rebuilt(stored, coauthor) != stored
  {
    NeedsFixIff(stored, coauthor);
    ChangedMessageDiffers(Shown(stored), coauthor);
    var k := RStripNewlines(Candidate(Shown(stored), coauthor));
    DropEndAppend(stored, "\n", IsNewline);
    if k != [] {
      DropEndAppend(k, "\n", IsNewline);
    }
  }

  /******* Normal form *******/

  lemma CandidateClean(message: string, coauthor: string)
    requires !HasEscape(TrailerLine(coauthor))
    ensures Clean(Candidate(message, coauthor))
  {
    RepairIff(message);
    CandidateIs(message, coauthor);
    AppendedClean(Repaired(message), TrailerLine(coauthor));
  }

  lemma AppendedClean(f: string, t: string)
    requires Clean(f) && !HasEscape(t)
    ensures Clean(RStrip(f) + "\n\n" + t)
  {
    HasEscapeHead('\n', t);
    HasEscapeHead('\n', ['\n'] + t);
    CleanPrefix(f, RStrip(f));
    CleanAppend(RStrip(f), ['\n'] + (['\n'] + t));
    assert RStrip(f) + "\n\n" + t == RStrip(f) + (['\n'] + (['\n'] + t));
  }

  /** The candidate carries the trailer, also without its trailing newlines. */
  lemma CandidateHasTrailer(message: string, coauthor: string)
    ensures TrailerLine(coauthor) == [] || Contains(RStripNewlines(Candidate(message, coauthor)), TrailerLine(coauthor))
  {
    var t, c := TrailerLine(coauthor), Candidate(message, coauthor);
    if t != [] {
      TrailerShape(coauthor);
      if Appends(message, coauthor) { ContainsEnd(RStrip(Repaired(message)) + "\n\n", t); }
      KeptByRStrip(c, t);
    }
  }

  lemma KeptByRStrip(c: string, t: string)
    requires Contains(c, t) && t != [] && !IsSpace(t[|t| - 1])
    ensures Contains(RStripNewlines(c), t)
  {
    var i :| 0 <= i <= |c| && t <= c[i..];
    var r := RStripNewlines(c);
    assert c[i..][|t| - 1] == t[|t| - 1];
    assert c[i..i + |t|] == t;
    assert r[i..i + |t|] == c[i..i + |t|];
    ContainsAt(r, t, i);
  }

  /** What a message that git shows after a rewrite looks like. */
  lemma ShownRebuilt(stored: string, coauthor: string)
    ensures var r := RStripNewlines(Candidate(Shown(stored), coauthor));
      Shown(Rebuilt(stored, coauthor)) == r + (if r == [] then "\n" else "\n\n")
  {
  }

  /** One pass reaches the normal form: clean, with the trailer, and left alone by a second pass. */
  lemma RebuiltIsNormal(stored: string, coauthor: string)
    requires !HasEscape(TrailerLine(coauthor))
    ensures Clean(Shown(Rebuilt(stored, coauthor)))
    ensures TrailerLine(coauthor) == [] || Contains(Rebuilt(stored, coauthor), TrailerLine(coauthor))
    ensures !NeedsFix(Rebuilt(stored, coauthor), coauthor)
  {
    var m, again := Shown(stored), Rebuilt(stored, coauthor);
    var r := RStripNewlines(Candidate(m, coauthor));
    ShownRebuilt(stored, coauthor);
    CandidateClean(m, coauthor);
    CleanPrefix(Candidate(m, coauthor), r);
    CleanAppend(r, if r == [] then "\n" else "\n\n");
    CandidateHasTrailer(m, coauthor);
    if TrailerLine(coauthor) != [] {
      ContainsPrefix(r, again, TrailerLine(coauthor));
      ContainsPrefix(again, Shown(again), TrailerLine(coauthor));
    }
    RepairIff(Shown(again));
    NeedsFixIff(again, coauthor);
  }

  /** A commit that needed no fix and is rebuilt for its parents keeps its message up to trailing newlines. */
  lemma UnfixedMessageKept(stored: string, coauthor: string)
    requires !NeedsFix(stored, coauthor)
    ensures Rebuilt(stored, coauthor) == Stored(RStripNewlines(stored))
  {
    DropEndAppend(stored, "\n", IsNewline);
  }

  /** A trailer with an escape spoils a message: an empty one, or one that leaves a code span open. */
  lemma EscapedTrailerUnstable(coauthor: string) returns (stored: string)
    requires HasEscape(TrailerLine(coauthor))
    ensures NeedsFix(Rebuilt(stored, coauthor), coauthor)
  {
    var head, i := OpeningFor(TrailerLine(coauthor));
    UnstableBehind(head, coauthor, i);
    stored := Stored(head);
  }

  lemma OpeningFor(t: string) returns (head: string, i: int)
    requires HasEscape(t)
    ensures EscapeAt(t, i) && (Ticks(head) + Ticks(t[..i])) % 2 == 0
    ensures !HasEscape(head) && 'C' !in head && RStrip(head) == head
  {
    i :| EscapeAt(t, i);
    head := if Ticks(t[..i]) % 2 == 0 then [] else ['`'];
    assert ['`'][1..] == [];
  }

  lemma UnstableBehind(head: string, coauthor: string, i: int)
    requires var t := TrailerLine(coauthor); EscapeAt(t, i) && (Ticks(head) + Ticks(t[..i])) % 2 == 0
    requires !HasEscape(head) && 'C' !in head && RStrip(head) == head
    ensures NeedsFix(Rebuilt(Stored(head), coauthor), coauthor)
  {
    TrailerUnclean(head, TrailerLine(coauthor), i);
    RebuiltWithTrailer(head, coauthor);
    NeedsFixIff(Rebuilt(Stored(head), coauthor), coauthor);
  }

  lemma TrailerUnclean(head: string, t: string, i: int)
    requires EscapeAt(t, i) && (Ticks(head) + Ticks(t[..i])) % 2 == 0
    ensures !Clean(head + "\n\n" + t + "\n\n")
  {
    TicksAppend(head, "\n\n");
    assert Ticks("\n\n") == 0 by { assert "\n\n"[1..] == "\n" && "\n"[1..] == ""; }
    NotCleanBehind(head + "\n\n", t, "\n\n", i);
  }

  /** A message without escapes and without the trailer gets the trailer. */
  lemma RebuiltWithTrailer(head: string, coauthor: string)
    requires TrailerLine(coauthor) != []
    requires !HasEscape(head) && 'C' !in head && RStrip(head) == head
    ensures Shown(Rebuilt(Stored(head), coauthor)) == head + "\n\n" + TrailerLine(coauthor) + "\n\n"
  {
    var m, t := Shown(Stored(head)), TrailerLine(coauthor);
    TrailerShape(coauthor);
    PlainMessage(head, m, t);
    RepairIff(m);
    CandidateIs(m, coauthor);
    var r := head + "\n\n" + t;
    assert r[|r| - 1] == t[|t| - 1];
    ShownRebuilt(Stored(head), coauthor);
  }

  lemma PlainMessage(head: string, m: string, t: string)
    requires m == Shown(Stored(head)) && t != [] && t[0] == 'C'
    requires !HasEscape(head) && 'C' !in head && RStrip(head) == head
    ensures Clean(m) && !Contains(m, t) && RStrip(m) == head
  {
    var tail := if head == [] then ['\n'] else ['\n', '\n'];
    assert m == head + tail;
    assert forall i | 0 <= i < |m| :: m[i] != 'C';
    assert forall i | EscapeAt(m, i) :: EscapeAt(head, i);
    DropEndAppend(head, tail, IsSpace);
  }

  lemma CandidateIs(message: string, coauthor: string)
    ensures Candidate(message, coauthor) ==
      if Appends(message, coauthor)
        then RStrip(Repaired(message)) + "\n\n" + TrailerLine(coauthor) else Repaired(message)
  {
  }

  lemma TicksAppend(a: string, b: string)
    ensures Ticks(a + b) == Ticks(a) + Ticks(b)
  {
    if a == [] {
      assert a + b == b;
    } else {
      assert (a + b)[1..] == a[1..] + b;
    }
  }

  lemma NotCleanBehind(head: string, t: string, tail: string, i: int)
    requires EscapeAt(t, i) && (Ticks(head) + Ticks(t[..i])) % 2 == 0
    ensures !Clean(head + t + tail)
  {
    var s := head + t + tail;
    assert s[..|head| + i] == head + t[..i];
    TicksAppend(head, t[..i]);
    assert EscapeAt(s, |head| + i);
  }

  /** Normalizing is idempotent on every message exactly when the trailer holds no escape itself. */
  lemma IdempotentIff(coauthor: string)
    ensures (forall stored :: !NeedsFix(Rebuilt(stored, coauthor), coauthor)) <==> !HasEscape(TrailerLine(coauthor))
  {
    if HasEscape(TrailerLine(coauthor)) {
      var stored := EscapedTrailerUnstable(coauthor);
    } else {
      forall stored ensures !NeedsFix(Rebuilt(stored, coauthor), coauthor) { RebuiltIsNormal(stored, coauthor); }
    }
  }

  lemma {:induction false} SplitAppend(a: string, t: string)
    ensures Split(a + t) == Spliced(Split(a), Split(t))
  {
    if a == [] {
      assert a + t == t;
      assert [] + Split(t)[0] == Split(t)[0];
      assert Spliced([[]], Split(t)) == Split(t);
    } else {
      SplitAppend(a[1..], t);
      assert (a + t)[1..] == a[1..] + t && (a + t)[0] == a[0];
      if a[0] == '`' { SplicedTick(Split(a[1..]), Split(t)); } else { SplicedChar(a[0], Split(a[1..]), Split(t)); }
    }
  }

  lemma SplicedTick(rest: seq<string>, t: seq<string>)
    requires |rest| >= 1 && |t| >= 1
    ensures [[]] + Spliced(rest, t) == Spliced([[]] + rest, t)
  {
  }

  lemma SplicedChar(c: char, rest: seq<string>, t: seq<string>)
    requires |rest| >= 1 && |t| >= 1
    ensures [[c] + Spliced(rest, t)[0]] + Spliced(rest, t)[1..] == Spliced([[c] + rest[0]] + rest[1..], t)
  {
    if |rest| == 1 { assert [c] + (rest[0] + t[0]) == ([c] + rest[0]) + t[0]; }
  }

  /** The last part of a continues with the first one of t. */
  function Spliced(a: seq<string>, t: seq<string>): seq<string>
    requires |a| >= 1 && |t| >= 1
  {
    a[..|a| - 1] + [a[|a| - 1] + t[0]] + t[1..]
  }

  lemma SplitStable(a: string, b: string, t: string, i: nat)
    requires '`' !in b && i + 1 < |Split(a + b)|
    ensures i + 1 < |Split(a + t)| && Split(a + t)[i] == Split(a + b)[i]
  {
    SplitPart(b, []);
    SplitAppend(a, b);
    SplitAppend(a, t);
  }

  /** Every closed code span of a message is in the candidate as it was. */
  lemma CandidateKeepsSpans(message: string, coauthor: string, i: nat)
    requires i % 2 == 1 && i + 1 < |Split(message)|
    ensures i + 1 < |Split(Candidate(message, coauthor))|
    ensures Split(Candidate(message, coauthor))[i] == Split(message)[i]
  {
    RepairedKeepsSpans(message, i);
    CandidateIs(message, coauthor);
    AppendKeepsSpans(Repaired(message), "\n\n", TrailerLine(coauthor), i);
  }

  lemma AppendKeepsSpans(f: string, nl: string, t: string, i: nat)
    requires i + 1 < |Split(f)|
    ensures i + 1 < |Split(RStrip(f) + nl + t)| && Split(RStrip(f) + nl + t)[i] == Split(f)[i]
  {
    StrippedEnd(f);
    var a := RStrip(f);
    assert f == a + f[|a|..];
    SplitStable(a, f[|a|..], nl + t, i);
    assert a + nl + t == a + (nl + t);
  }

  lemma RepairedKeepsSpans(message: string, i: nat)
    requires i % 2 == 1 && i < |Split(message)|
    ensures |Split(Repaired(message))| == |Split(message)| && Split(Repaired(message))[i] == Split(message)[i]
  {
    if Repair(message).Some? { RepairKeepsSpans(message, i); }
  }

  lemma StrippedEnd(f: string)
    ensures '`' !in f[|RStrip(f)|..]
  {
  }
}
