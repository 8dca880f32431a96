/** The string operations of the Python standard library that the models use. */
module Text {

  /** `str.isspace` for one character, the set `strip` and `split` use. */
  predicate IsSpace(c: char) {
    var n := c as int;
    (9 <= n <= 13) || (28 <= n <= 32) || n == 0x85 || n == 0xA0 || n == 0x1680 || (0x2000 <= n <= 0x200A)
    || n == 0x2028 || n == 0x2029 || n == 0x202F || n == 0x205F || n == 0x3000
  }

  /** `pat in s`. */
  predicate Contains(s: string, pat: string) {
    exists i | 0 <= i <= |s| :: pat <= s[i..]
  }

  /** Drop the longest suffix of characters that satisfy p. */
  function DropEnd(s: string, p: char -> bool): (r: string)
    ensures r <= s
    ensures r != [] ==> !p(r[|r| - 1])
    ensures forall i | |r| <= i < |s| :: p(s[i])
  {
    if s == [] || !p(s[|s| - 1]) then s else DropEnd(s[..|s| - 1], p)
  }

  function DropStart(s: string, p: char -> bool): (r: string)
    ensures |r| <= |s| && r == s[|s| - |r|..]
    ensures r != [] ==> !p(r[0])
    ensures forall i | 0 <= i < |s| - |r| :: p(s[i])
  {
    if s == [] || !p(s[0]) then s else DropStart(s[1..], p)
  }

  predicate AllAre(s: string, p: char -> bool) { forall i | 0 <= i < |s| :: p(s[i]) }

  lemma DroppedEnd(s: string, p: char -> bool) returns (end: string)
    ensures s == DropEnd(s, p) + end && AllAre(end, p)
  {
    end := s[|DropEnd(s, p)|..];
  }

  lemma DroppedStart(s: string, p: char -> bool) returns (front: string)
    ensures s == front + DropStart(s, p) && AllAre(front, p)
  {
    var n := |s| - |DropStart(s, p)|;
    front := s[..n];
    assert s == s[..n] + s[n..];
  }

  /** What is dropped at both ends. */
  lemma StrippedEnds(s: string, p: char -> bool) returns (front: string, end: string)
    ensures DropEnd(s, p) == front + DropStart(DropEnd(s, p), p) && AllAre(front, p) && AllAre(end, p)
    ensures s == front + DropStart(DropEnd(s, p), p) + end
    ensures var r := DropStart(DropEnd(s, p), p); r != [] ==> !p(r[0]) && !p(r[|r| - 1])
  {
    end := DroppedEnd(s, p);
    front := DroppedStart(DropEnd(s, p), p);
    LastStays(front, DropStart(DropEnd(s, p), p));
  }

  lemma LastStays(a: string, b: string)
    ensures b != [] ==> (a + b)[|a + b| - 1] == b[|b| - 1]
  {
  }

  /** `s.rstrip()`. */
  function RStrip(s: string): string { DropEnd(s, IsSpace) }

  predicate IsNewline(c: char) { c == '\n' }

  /** `s.rstrip("\n")`. */
  function RStripNewlines(s: string): string { DropEnd(s, IsNewline) }

  /** `s.strip()`. */
  function Strip(s: string): string { DropStart(RStrip(s), IsSpace) }

  /** `s.lower()` and `s.upper()`, on ASCII letters. */
  function Lower(s: string): string {
    seq(|s|, i requires 0 <= i < |s| => if 'A' <= s[i] <= 'Z' then (s[i] as int + 32) as char else s[i])
  }

  function Upper(s: string): string {
    seq(|s|, i requires 0 <= i < |s| => if 'a' <= s[i] <= 'z' then (s[i] as int - 32) as char else s[i])
  }

  lemma ContainsAt(s: string, pat: string, i: nat)
    requires i + |pat| <= |s| && s[i..i + |pat|] == pat
    ensures Contains(s, pat)
  {
    assert pat <= s[i..];
  }

  lemma ContainsEnd(a: string, pat: string)
    ensures Contains(a + pat, pat)
  {
    assert (a + pat)[|a|..] == pat;
  }

  lemma ContainsPrefix(a: string, b: string, pat: string)
    requires a <= b && Contains(a, pat)
    ensures Contains(b, pat)
  {
    var i :| 0 <= i <= |a| && pat <= a[i..];
    assert b[i..i + |pat|] == pat;
    ContainsAt(b, pat, i);
  }

  /******* Lines *******/

  /** The characters at which `str.splitlines` ends a line. */
  predicate IsLineBreak(c: char) {
    var n := c as int;
    (10 <= n <= 13) || (28 <= n <= 30) || n == 0x85 || n == 0x2028 || n == 0x2029
  }

  function FirstBreak(s: string): (n: nat)
    ensures n <= |s| && (forall i | 0 <= i < n :: !IsLineBreak(s[i])) && (n < |s| ==> IsLineBreak(s[n]))
  {
    if s == [] || IsLineBreak(s[0]) then 0 else 1 + FirstBreak(s[1..])
  }

  /** The length of the first line of s with its line break; a carriage return and the newline after it are one. */
  function LineLength(s: string): (m: nat)
    requires s != []
    ensures 1 <= m <= |s|
  {
    var n := FirstBreak(s);
    if n == |s| then n else if n + 1 < |s| && s[n] == '\r' && s[n + 1] == '\n' then n + 2 else n + 1
  }

  /** `s.splitlines()`. */
  function SplitLines(s: string): seq<string> {
    if s == [] then [] else [s[..FirstBreak(s)]] + SplitLines(s[LineLength(s)..])
  }

  /** `s.splitlines(keepends=True)`. */
  function KeepLines(s: string): seq<string> {
    if s == [] then [] else [s[..LineLength(s)]] + KeepLines(s[LineLength(s)..])
  }

  /** What a line with its newline splits into: more than one piece if it has other line breaks inside. */
  function Fragments(line: string): seq<string> { SplitLines(line + ['\n']) }

  function AllFragments(lines: seq<string>): seq<string> {
    if lines == [] then [] else Fragments(lines[0]) + AllFragments(lines[1..])
  }

  function Unlines(lines: seq<string>): string {
    if lines == [] then [] else lines[0] + ['\n'] + Unlines(lines[1..])
  }

  /** The text of some lines without its last newline. */
  function Unterminated(lines: seq<string>): string
    requires lines != []
  {
    if |lines| == 1 then lines[0] else lines[0] + ['\n'] + Unterminated(lines[1..])
  }

  lemma FirstBreakIs(s: string, n: nat)
    requires n < |s| && IsLineBreak(s[n]) && forall i | 0 <= i < n :: !IsLineBreak(s[i])
    ensures FirstBreak(s) == n
  {
  }

  predicate Merges(a: string, b: string) {
    a != [] && b != [] && a[|a| - 1] == '\r' && b[0] == '\n'
  }

  /** A line with its break stays the first line of what it begins, and takes a newline after its carriage return. */
  lemma FirstLineIs(a: string, b: string)
    requires a != [] && LineLength(a) == |a| && IsLineBreak(a[|a| - 1])
    ensures LineLength(a + b) == if Merges(a, b) then |a| + 1 else |a|
    ensures FirstBreak(a + b) == FirstBreak(a)
  {
    var n, s := FirstBreak(a), a + b;
    assert s[n] == a[n];
    FirstBreakIs(s, n);
    assert |a| == n + 1 || (|a| == n + 2 && a[n] == '\r' && a[n + 1] == '\n');
  }

  /** The first line is not changed by what follows later lines. */
  lemma FirstLineStays(a: string, b: string)
    requires a != [] && LineLength(a) < |a|
    ensures FirstBreak(a + b) == FirstBreak(a) && LineLength(a + b) == LineLength(a)
  {
    FirstBreakIs(a + b, FirstBreak(a));
  }

  lemma SplitsAs(s: string, first: string, rest: seq<string>)
    requires s != [] && s[..FirstBreak(s)] == first && SplitLines(s[LineLength(s)..]) == rest
    ensures SplitLines(s) == [first] + rest
  {
  }

  lemma SplitBoth(a: string, ab: string, first: string, rest: seq<string>, more: seq<string>)
    requires a != [] && a[..FirstBreak(a)] == first && SplitLines(a[LineLength(a)..]) == rest
    requires ab != [] && ab[..FirstBreak(ab)] == first && SplitLines(ab[LineLength(ab)..]) == rest + more
    ensures SplitLines(ab) == SplitLines(a) + more
  {
    SplitsAs(a, first, rest);
    SplitsAs(ab, first, rest + more);
    OneMore(first, rest, more);
  }

  lemma OneMore<T>(first: T, rest: seq<T>, more: seq<T>)
    ensures [first] + (rest + more) == [first] + rest + more
  {
  }

  lemma {:induction false} SplitAfter(a: string, b: string)
    requires a != [] && IsLineBreak(a[|a| - 1]) && !Merges(a, b)
    ensures SplitLines(a + b) == SplitLines(a) + SplitLines(b)
    decreases |a|
  {
    var m, n := LineLength(a), FirstBreak(a);
    if m < |a| { SplitAfter(a[m..], b); }
    FirstOfBoth(a, b, m, n);
    if m == |a| { assert a[m..] == [] && [] + SplitLines(b) == SplitLines(b); }
    SplitBoth(a, a + b, a[..n], SplitLines(a[m..]), SplitLines(b));
  }

  lemma FirstOfBoth(a: string, b: string, m: nat, n: nat)
    requires a != [] && IsLineBreak(a[|a| - 1]) && !Merges(a, b) && m == LineLength(a) && n == FirstBreak(a)
    ensures FirstBreak(a + b) == n && LineLength(a + b) == m
    ensures (a + b)[..n] == a[..n] && (a + b)[m..] == a[m..] + b
  {
    if m == |a| { FirstLineIs(a, b); } else { FirstLineStays(a, b); }
  }

  lemma {:induction false} SplitUnlines(lines: seq<string>)
    ensures SplitLines(Unlines(lines)) == AllFragments(lines)
  {
    if lines != [] {
      SplitAfter(lines[0] + ['\n'], Unlines(lines[1..]));
      SplitUnlines(lines[1..]);
    }
  }

  /** The end of a line that has its newline still to come, or has it in part. */
  predicate CleanEnd(line: string) {
    line != [] && (IsLineBreak(line[|line| - 1]) ==> line[|line| - 1] == '\r')
  }

  /** Such a line splits the same without its newline. */
  lemma {:induction false} SplitLast(line: string)
    requires CleanEnd(line)
    ensures SplitLines(line) == Fragments(line)
    decreases |line|
  {
    var s, m := line + ['\n'], LineLength(line);
    if FirstBreak(line) == |line| {
      FirstBreakIs(s, |line|);
      WholeLine(line, s, |line|);
    } else if m == |line| {
      FirstBreakIs(s, |line| - 1);
      WholeLine(line, s, |line| - 1);
    } else {
      FirstLineStays(line, ['\n']);
      assert s[m..] == line[m..] + ['\n'] && s[..FirstBreak(line)] == line[..FirstBreak(line)];
      SplitLast(line[m..]);
    }
  }

  lemma WholeLine(line: string, s: string, n: nat)
    requires line != [] && s == line + ['\n'] && n == FirstBreak(line) == FirstBreak(s) && n <= |line|
    requires LineLength(line) == |line| && LineLength(s) == |s|
    ensures SplitLines(line) == SplitLines(s)
  {
    assert line[|line|..] == [] && s[|s|..] == [] && s[..n] == line[..n];
  }

  lemma {:induction false} SplitUnterminated(lines: seq<string>)
    requires lines != [] && CleanEnd(lines[|lines| - 1])
    ensures SplitLines(Unterminated(lines)) == AllFragments(lines)
  {
    if |lines| == 1 {
      SplitLast(lines[0]);
      assert lines[1..] == [] && Fragments(lines[0]) + [] == Fragments(lines[0]);
    } else {
      assert lines[1..][|lines[1..]| - 1] == lines[|lines| - 1];
      SplitUnterminated(lines[1..]);
      SplitAfter(lines[0] + ['\n'], Unterminated(lines[1..]));
    }
  }

  /** A prefix without line breaks goes to the first piece of a line. */
  lemma FragmentsFront(front: string, line: string)
    requires forall i | 0 <= i < |front| :: !IsLineBreak(front[i])
    ensures Fragments(line) != []
    ensures Fragments(front + line) == [front + Fragments(line)[0]] + Fragments(line)[1..]
  {
    var s, t := line + ['\n'], front + line + ['\n'];
    FrontLength(front, s, t, FirstBreak(s), |line|);
    SplitsAs(s, s[..FirstBreak(s)], SplitLines(s[LineLength(s)..]));
    SplitsAs(t, front + s[..FirstBreak(s)], SplitLines(s[LineLength(s)..]));
  }

  lemma FrontLength(front: string, s: string, t: string, n: nat, end: nat)
    requires forall i | 0 <= i < |front| :: !IsLineBreak(front[i])
    requires t == front + s && n == FirstBreak(s) && end < |s| && IsLineBreak(s[end])
    ensures FirstBreak(t) == |front| + n && t[..|front| + n] == front + s[..n]
    ensures LineLength(t) == |front| + LineLength(s) && t[LineLength(t)..] == s[LineLength(s)..]
  {
    assert n < |s|;
    assert t[|front| + n] == s[n];
    FirstBreakIs(t, |front| + n);
    assert n + 1 < |s| ==> t[|front| + n + 1] == s[n + 1];
    Behind(front, s, n, LineLength(s));
  }

  lemma Behind(front: string, s: string, n: nat, m: nat)
    requires n <= |s| && m <= |s|
    ensures (front + s)[..|front| + n] == front + s[..n] && (front + s)[|front| + m..] == s[m..]
  {
  }
}
