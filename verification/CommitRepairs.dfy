/** What text a repair leaves: each escape outside the code spans becomes one newline, and everything else stays. */
module CommitRepairs {
  import opened Basics
  import opened Text
  import opened CommitMessages

  /** The text ends in a literal carriage return, which belongs to an escape behind it. */
  predicate EndsInCr(s: string) {
    |s| >= 2 && s[|s| - 2] == '\\' && s[|s| - 1] == 'r'
  }

  function Literal(crlf: bool): string { if crlf then CRLF_ESCAPE else ESCAPE }

  /******* One part *******/

  lemma NoMatchBefore(a: string, pat: string, b: string)
    requires pat == ESCAPE || pat == CRLF_ESCAPE
    requires a != [] && !HasEscape(a)
    ensures !(pat <= a + pat + b) && !HasEscape(a[1..])
  {
    var s := a + pat + b;
    MatchEnds(pat, s);
    assert s[|a|] == pat[0] && s[|a| + 1] == pat[1] && (|pat| == 4 ==> s[|a| + 2] == pat[2]);
    assert |pat| <= |a| ==> s[|pat| - 2] == a[|pat| - 2] && s[|pat| - 1] == a[|pat| - 1] && !EscapeAt(a, |pat| - 2);
    assert forall i | EscapeAt(a[1..], i) :: EscapeAt(a, i + 1);
  }

  lemma HeadAndRest(a: string, t: string, b: string)
    requires a != []
    ensures (a + t + b)[0] == a[0] && (a + t + b)[1..] == a[1..] + t + b
    ensures [a[0]] + (a[1..] + t + b) == a + t + b
  {
  }

  lemma MatchEnds(pat: string, s: string)
    requires pat == ESCAPE || pat == CRLF_ESCAPE
    ensures pat <= s ==> |s| >= |pat| && s[|pat| - 2] == '\\' && s[|pat| - 1] == 'n'
  {
    assert pat <= s ==> s[|pat| - 2] == pat[|pat| - 2] && s[|pat| - 1] == pat[|pat| - 1];
  }

  /** The first match becomes a newline. */
  lemma {:induction false} ReplaceFirst(a: string, pat: string, b: string)
    requires pat == ESCAPE || pat == CRLF_ESCAPE
    requires !HasEscape(a)
    ensures Replace(a + pat + b, pat) == a + "\n" + Replace(b, pat)
  {
    var s := a + pat + b;
    if a == [] {
      assert s == pat + b && s[|pat|..] == b;
    } else {
      NoMatchBefore(a, pat, b);
      HeadAndRest(a, pat, b);
      ReplaceFirst(a[1..], pat, b);
      HeadAndRest(a, "\n", Replace(b, pat));
    }
  }

  /** A plain escape is no match for the longer pattern. */
  lemma {:induction false} CrLfSkips(a: string, b: string)
    requires !HasEscape(a) && !EndsInCr(a)
    ensures Replace(a + ESCAPE + b, CRLF_ESCAPE) == a + ESCAPE + Replace(b, CRLF_ESCAPE)
  {
    var s := a + ESCAPE + b;
    if a == [] {
      SkipEscape(b);
      assert s == ESCAPE + b && a + ESCAPE + Replace(b, CRLF_ESCAPE) == ESCAPE + Replace(b, CRLF_ESCAPE);
    } else {
      NoLongMatch(a, b);
      HeadAndRest(a, ESCAPE, b);
      CrLfSkips(a[1..], b);
      HeadAndRest(a, ESCAPE, Replace(b, CRLF_ESCAPE));
    }
  }

  lemma SkipEscape(b: string)
    ensures Replace(ESCAPE + b, CRLF_ESCAPE) == ESCAPE + Replace(b, CRLF_ESCAPE)
  {
    var s := ESCAPE + b;
    assert s[0] == '\\' && s[1] == 'n' && s[1..] == ['n'] + b && s[1..][1..] == b;
    assert !(CRLF_ESCAPE <= s) && !(CRLF_ESCAPE <= s[1..]);
    assert Replace(s[1..], CRLF_ESCAPE) == ['n'] + Replace(b, CRLF_ESCAPE);
    assert ['\\'] + (['n'] + Replace(b, CRLF_ESCAPE)) == ESCAPE + Replace(b, CRLF_ESCAPE);
  }

  lemma NoLongMatch(a: string, b: string)
    requires a != [] && !HasEscape(a) && !EndsInCr(a)
    ensures !(CRLF_ESCAPE <= a + ESCAPE + b) && !HasEscape(a[1..]) && !EndsInCr(a[1..])
  {
    var s := a + ESCAPE + b;
    if CRLF_ESCAPE <= s {
      assert s[0] == '\\' && s[1] == 'r' && s[2] == '\\' && s[3] == 'n';
      if |a| >= 4 { assert EscapeAt(a, 2); }
    }
    assert forall i | EscapeAt(a[1..], i) :: EscapeAt(a, i + 1);
  }

  lemma {:induction false} ReplaceOver(a: string, b: string)
    requires !HasEscape(a)
    ensures Replace(a + "\n" + b, ESCAPE) == a + "\n" + Replace(b, ESCAPE)
  {
    var s := a + "\n" + b;
    NoMatchOver(a, b);
    if a == [] {
      assert s[1..] == b;
    } else {
      HeadAndRest(a, "\n", b);
      ReplaceOver(a[1..], b);
      HeadAndRest(a, "\n", Replace(b, ESCAPE));
    }
  }

  lemma NoMatchOver(a: string, b: string)
    requires !HasEscape(a)
    ensures !(ESCAPE <= a + "\n" + b) && (a != [] ==> !HasEscape(a[1..]))
  {
    var s := a + "\n" + b;
    assert !EscapeAt(a, 0) && s[0] == if a != [] then a[0] else '\n';
    assert |a| >= 1 ==> s[1] == if |a| >= 2 then a[1] else '\n';
    MatchEnds(ESCAPE, s);
    if a != [] { assert forall i | EscapeAt(a[1..], i) :: EscapeAt(a, i + 1); }
  }

  /** Behind text without an escape, an escape of either kind becomes one newline, and what follows is repaired by
      itself. A part without an escape stays. */
  lemma RepairPartAt(a: string, crlf: bool, b: string)
    requires !HasEscape(a) && (crlf || !EndsInCr(a))
    ensures RepairPart(a + Literal(crlf) + b) == a + "\n" + RepairPart(b)
    ensures RepairPart(a) == a
  {
    RepairPartFacts(a);
    if crlf {
      ReplaceFirst(a, CRLF_ESCAPE, b);
      ReplaceOver(a, Replace(b, CRLF_ESCAPE));
    } else {
      CrLfSkips(a, b);
      ReplaceFirst(a, ESCAPE, Replace(b, CRLF_ESCAPE));
    }
  }

  /******* A message between its backticks *******/

  /** The repair of a text that begins inside or outside a code span. */
  function RepairedFrom(s: string, outside: bool): string {
    Join(RepairParts(Split(s), outside))
  }

  lemma RepairedIs(message: string)
    ensures Repaired(message) == RepairedFrom(message, true)
  {
    JoinSplit(message);
  }

  /** The text up to the first backtick and the text behind it are repaired by themselves. */
  lemma RepairedAfterTick(p: string, s: string, outside: bool)
    requires '`' !in p
    ensures RepairedFrom(p + "`" + s, outside)
      == (if outside then RepairPart(p) else p) + "`" + RepairedFrom(s, !outside)
  {
    SplitPart(p, s);
    FirstRepaired(p, Split(s), outside);
    JoinHead(if outside then RepairPart(p) else p, RepairParts(Split(s), !outside));
  }

  lemma JoinHead(p: string, rest: seq<string>)
    requires rest != []
    ensures Join([p] + rest) == p + "`" + Join(rest)
  {
    assert ([p] + rest)[1..] == rest;
  }

  lemma SplitFirst(p: string, s: string)
    requires '`' !in p
    ensures Split(p + s) == [p + Split(s)[0]] + Split(s)[1..]
  {
    SplitPart(p, []);
    SplitAppend(p, s);
  }

  lemma JoinFirst(p: string, q: string, rest: seq<string>)
    ensures Join([p + q] + rest) == p + Join([q] + rest)
  {
    assert ([p + q] + rest)[1..] == rest && ([q] + rest)[1..] == rest;
    if rest != [] { assert p + q + ("`" + Join(rest)) == p + (q + ("`" + Join(rest))); }
  }

  /** The first part up to its first escape. */
  lemma RepairedFirstPart(a: string, crlf: bool, b: string)
    requires '`' !in a && !HasEscape(a) && (crlf || !EndsInCr(a))
    ensures RepairedFrom(a + Literal(crlf) + b, true) == a + "\n" + RepairedFrom(b, true)
  {
    var h, t := Split(b)[0], Split(b)[1..];
    SplitFirst(a + Literal(crlf), b);
    assert Split(b) == [h] + t;
    RepairPartAt(a, crlf, h);
    FirstRepaired(a + Literal(crlf) + h, t, true);
    FirstRepaired(h, t, true);
    JoinFirst(a + "\n", RepairPart(h), RepairParts(t, false));
  }

  lemma FirstRepaired(h: string, t: seq<string>, outside: bool)
    ensures RepairParts([h] + t, outside) == [if outside then RepairPart(h) else h] + RepairParts(t, !outside)
  {
  }

  /** The parity of the backticks in a says where a text that follows it begins. */
  predicate EndsOutside(a: string, outside: bool) { (Ticks(a) % 2 == 0) == outside }

  lemma BehindTick(p: string, s: string, outside: bool)
    requires '`' !in p && CleanFrom(p + "`" + s, outside)
    ensures (outside ==> !HasEscape(p)) && CleanFrom(s, !outside)
    ensures EndsOutside(p + "`" + s, outside) <==> EndsOutside(s, !outside)
  {
    CleanParts(p + "`" + s, outside);
    CleanParts(s, !outside);
    SplitPart(p, s);
    CleanTail(p, Split(s), outside);
    TicksBehind(p, s);
  }

  lemma CleanTail(p: string, rest: seq<string>, outside: bool)
    requires PartsClean([p] + rest, outside)
    ensures (outside ==> !HasEscape(p)) && PartsClean(rest, !outside)
  {
    var parts := [p] + rest;
    assert outside ==> !HasEscape(parts[0]);
    forall i | 0 <= i < |rest| && (i % 2 == 0) == !outside ensures !HasEscape(rest[i]) {
      assert parts[i + 1] == rest[i];
    }
  }

  lemma TicksBehind(p: string, s: string)
    requires '`' !in p
    ensures Ticks(p + "`" + s) == 1 + Ticks(s)
  {
    assert p + "`" + s == p + ("`" + s) && ("`" + s)[1..] == s;
    TicksAppend(p, "`" + s);
    NoTicks(p);
  }

  lemma {:induction false} NoTicks(p: string)
    requires '`' !in p
    ensures Ticks(p) == 0
  {
    if p != [] { NoTicks(p[1..]); }
  }

  lemma {:induction false} FirstTick(a: string) returns (p: string, s: string)
    requires '`' in a
    ensures '`' !in p && a == p + "`" + s && |s| < |a|
  {
    if a[0] == '`' {
      p, s := [], a[1..];
    } else {
      assert a == [a[0]] + a[1..];
      var q;
      q, s := FirstTick(a[1..]);
      p := [a[0]] + q;
    }
  }

  lemma {:induction false} RepairedAtFrom(a: string, crlf: bool, b: string, outside: bool)
    requires CleanFrom(a, outside) && EndsOutside(a, outside) && (crlf || !EndsInCr(a))
    ensures RepairedFrom(a + Literal(crlf) + b, outside) == a + "\n" + RepairedFrom(b, true)
    decreases |a|
  {
    if '`' in a {
      var p, s := FirstTick(a);
      BehindTick(p, s, outside);
      RepairedAtFrom(s, crlf, b, !outside);
      RepairPartFacts(p);
      RepairedAfterTick(p, s + Literal(crlf) + b, outside);
      Regroup(a, p, s, Literal(crlf), b);
      Regroup(a, p, s, "\n", RepairedFrom(b, true));
    } else {
      NoTicks(a);
      NoEscapeWithoutTicks(a);
      RepairedFirstPart(a, crlf, b);
    }
  }

  lemma Regroup(a: string, p: string, s: string, t: string, b: string)
    requires a == p + "`" + s
    ensures a + t + b == p + "`" + (s + t + b)
  {
  }

  lemma NoEscapeWithoutTicks(a: string)
    requires '`' !in a && Clean(a)
    ensures !HasEscape(a)
  {
    forall i ensures !EscapeAt(a, i) {
      if EscapeAt(a, i) {
        assert forall c | c in a[..i] :: c in a;
        NoTicks(a[..i]);
      }
    }
  }

  /**
   The repair of a message, from left to right: text without an escape outside the spans stays, the first such escape
   becomes one newline, and the text behind it is repaired as a message of its own.
   */
  lemma RepairedAt(a: string, crlf: bool, b: string)
    requires Clean(a) && EndsOutside(a, true) && (crlf || !EndsInCr(a))
    ensures Repaired(a) == a && Repaired(a + Literal(crlf) + b) == a + "\n" + Repaired(b)
  {
    RepairIff(a);
    RepairedIs(b);
    RepairedIs(a + Literal(crlf) + b);
    RepairedAtFrom(a, crlf, b, true);
  }

  /** Every message that is not clean has a first escape outside its spans. */
  lemma FirstOutside(message: string) returns (a: string, crlf: bool, b: string)
    requires !Clean(message)
    ensures message == a + Literal(crlf) + b && Clean(a) && EndsOutside(a, true) && (crlf || !EndsInCr(a))
    ensures Repaired(message) == a + "\n" + Repaired(b)
  {
    var k :| EscapeAt(message, k) && Ticks(message[..k]) % 2 == 0;
    assert OutsideAt(message, k);
    var i := FirstEscape(message, |message|);
    crlf := EndsInCr(message[..i]);
    a := if crlf then message[..i - 2] else message[..i];
    b := message[i + 2..];
    PrefixClean(message, i, |a|);
    if crlf { CrIsNoTick(message, i); }
    CutAtEscape(message, i);
    RepairedAt(a, crlf, b);
  }

  lemma CutAtEscape(s: string, i: nat)
    requires EscapeAt(s, i)
    ensures s == s[..i] + ESCAPE + s[i + 2..]
    ensures EndsInCr(s[..i]) ==> s == s[..i - 2] + CRLF_ESCAPE + s[i + 2..]
  {
    assert s[i..i + 2] == ESCAPE && s == s[..i] + s[i..i + 2] + s[i + 2..];
    if EndsInCr(s[..i]) {
      var end := s[i - 2..i];
      assert end == ['\\', 'r'] && s[..i] == s[..i - 2] + end;
      assert end + ESCAPE == CRLF_ESCAPE;
    }
  }

  predicate OutsideAt(s: string, i: int) { EscapeAt(s, i) && Ticks(s[..i]) % 2 == 0 }

  lemma {:induction false} FirstEscape(s: string, n: nat) returns (i: nat)
    requires exists j :: OutsideAt(s, j) && j < n
    ensures OutsideAt(s, i) && i < n && forall j | 0 <= j < i :: !OutsideAt(s, j)
  {
    if j :| 0 <= j < n - 1 && OutsideAt(s, j) {
      i := FirstEscape(s, n - 1);
    } else {
      i := n - 1;
    }
  }

  lemma PrefixClean(s: string, i: nat, n: nat)
    requires n <= i && OutsideAt(s, i) && forall j | 0 <= j < i :: !OutsideAt(s, j)
    ensures Clean(s[..n])
  {
    forall j | EscapeAt(s[..n], j) ensures Ticks(s[..n][..j]) % 2 == 1 {
      assert EscapeAt(s, j) && s[..n][..j] == s[..j] && !OutsideAt(s, j);
    }
  }

  lemma CrIsNoTick(s: string, i: nat)
    requires i <= |s| && EndsInCr(s[..i])
    ensures Ticks(s[..i - 2]) == Ticks(s[..i])
  {
    var cr := s[i - 2..i];
    assert s[..i] == s[..i - 2] + cr && '`' !in cr;
    TicksAppend(s[..i - 2], cr);
    NoTicks(cr);
  }

  /** `strip()`: what goes is white space at both ends, and none is left there. */
  lemma StrippedName(s: string) returns (front: string, end: string)
    ensures s == front + Strip(s) + end && RStrip(s) == front + Strip(s)
    ensures AllAre(front, IsSpace) && AllAre(end, IsSpace)
    ensures var r := Strip(s); r != [] ==> !IsSpace(r[0]) && !IsSpace(r[|r| - 1])
  {
    front, end := StrippedEnds(s, IsSpace);
  }

  /** `with_coauthor_trailer` written out: a message without the line gets it behind a blank line, as its last line. */
  lemma TrailerAdded(message: string, coauthor: string, line: string)
    requires Strip(coauthor) != [] && line == "Co-authored-by: " + Strip(coauthor)
    ensures Candidate(message, coauthor) ==
      if Contains(Repaired(message), line) then Repaired(message) else RStrip(Repaired(message)) + "\n\n" + line
  {
    CandidateIs(message, coauthor);
  }
}
