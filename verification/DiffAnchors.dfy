/** Which lines of a pull request a review comment can be anchored to, read from a unified diff. */
module DiffAnchors {
  import opened Basics
  import opened Decimals
  import opened Text

  /******* The parser *******/

  function DigitCount(s: string): (n: nat)
    ensures n <= |s| && AllDigits(s[..n]) && (n < |s| ==> !IsDigit(s[n]))
  {
    if s == [] || !IsDigit(s[0]) then 0
    else
      var n := DigitCount(s[1..]);
      assert s[..n + 1] == [s[0]] + s[1..][..n];
      n + 1
  }

  /** `(\d+)(?:,\d+)?` at the start of s: the number, and what follows. */
  function MatchRange(s: string): Option<(nat, string)> {
    var n := DigitCount(s);
    var rest := s[n..];
    var count := if rest != [] && rest[0] == ',' then DigitCount(rest[1..]) else 0;
    if n == 0 then None
    else Some((Value(s[..n]), if count > 0 then rest[1 + count..] else rest))
  }

  /** `_DIFF_HUNK_RE`: the line numbers at which a hunk starts in the old and in the new file. */
  function MatchHunk(raw: string): Option<(nat, nat)> {
    if !("@@ -" <= raw) then None
    else
      var old_ := MatchRange(raw[4..]);
      if old_.None? || !(" +" <= old_.value.1) then None
      else
        var new_ := MatchRange(old_.value.1[2..]);
        if new_.None? || !(" @@" <= new_.value.1) then None else Some((old_.value.0, new_.value.0))
  }

  /** What the parser sees of a line. */
  datatype Token = Head(o: nat, n: nat) | Marker | Plus | Minus | Other

  function TokenOf(raw: string): Token {
    var m := MatchHunk(raw);
    if m.Some? then Head(m.value.0, m.value.1)
    else if raw == [] then Other
    else if raw[0] == '\\' then Marker
    else if raw[0] == '+' then Plus
    else if raw[0] == '-' then Minus
    else Other
  }

  function Tokens(lines: seq<string>): seq<Token> { seq(|lines|, i requires 0 <= i < |lines| => TokenOf(lines[i])) }

  /** The counters: the next line of each file, once a hunk has begun. */
  datatype Counters = Counters(right: set<nat>, left: set<nat>, next: Option<(nat, nat)>)

  const START := Counters({}, {}, None)

  function Advance(c: Counters, t: Token): Counters {
    if t.Head? then c.(next := Some((t.o, t.n)))
    else if c.next.None? || t.Marker? then c
    else
      var (o, n) := c.next.value;
      if t.Plus? then c.(right := c.right + {n}, next := Some((o, n + 1)))
      else if t.Minus? then c.(left := c.left + {o}, next := Some((o + 1, n)))
      else Counters(c.right + {n}, c.left + {o}, Some((o + 1, n + 1)))
  }

  function AdvanceAll(c: Counters, ts: seq<Token>): Counters
    decreases |ts|
  {
    if ts == [] then c else AdvanceAll(Advance(c, ts[0]), ts[1..])
  }

  lemma {:induction false} AdvanceConcat(c: Counters, a: seq<Token>, b: seq<Token>)
    ensures AdvanceAll(c, a + b) == AdvanceAll(AdvanceAll(c, a), b)
    decreases |a|
  {
    if a == [] {
      assert a + b == b;
    } else {
      assert (a + b)[1..] == a[1..] + b;
      AdvanceConcat(Advance(c, a[0]), a[1..], b);
    }
  }

  datatype Sides = Sides(right: set<nat>, left: set<nat>)

  function AnchorableLines(patch: string): Sides {
    var c := AdvanceAll(START, Tokens(SplitLines(patch)));
    Sides(c.right, c.left)
  }

  /** `_diff_anchorable_lines`. */
  method DiffAnchorableLines(patch: string) returns (sides: Sides)
    ensures sides == AnchorableLines(patch)
  {
    var right: set<nat>, left: set<nat> := {}, {};
    var oldLine: Option<nat>, newLine: Option<nat> := None, None;
    var lines := SplitLines(patch);
    var i := 0;
    while i < |lines|
      invariant 0 <= i <= |lines|
      invariant oldLine.Some? <==> newLine.Some?
      invariant AdvanceAll(START, Tokens(lines))
        == AdvanceAll(Counters(right, left, Pair(oldLine, newLine)), Tokens(lines)[i..])
    {
      AdvanceAt(Counters(right, left, Pair(oldLine, newLine)), Tokens(lines), i);
      right, left, oldLine, newLine := ReadLine(lines[i], right, left, oldLine, newLine);
      i := i + 1;
    }
    sides := Sides(right, left);
  }

  /** The body of the loop: one line and the counters. */
  method ReadLine(raw: string, right0: set<nat>, left0: set<nat>, old0: Option<nat>, new0: Option<nat>)
    returns (right: set<nat>, left: set<nat>, oldLine: Option<nat>, newLine: Option<nat>)
    requires old0.Some? <==> new0.Some?
    ensures oldLine.Some? <==> newLine.Some?
    ensures Counters(right, left, Pair(oldLine, newLine))
      == Advance(Counters(right0, left0, Pair(old0, new0)), TokenOf(raw))
  {
    right, left, oldLine, newLine := right0, left0, old0, new0;
    var m := MatchHunk(raw);
    if m.Some? {
      oldLine, newLine := Some(m.value.0), Some(m.value.1);
      return;
    }
    if raw != [] && raw[0] == '\\' { return; }
    if ("+++" <= raw || "---" <= raw) && (newLine.None? || oldLine.None?) { return; }
    if newLine.None? || oldLine.None? { return; }
    if raw != [] && raw[0] == '+' {
      right := right + {newLine.value};
      newLine := Some(newLine.value + 1);
    } else if raw != [] && raw[0] == '-' {
      left := left + {oldLine.value};
      oldLine := Some(oldLine.value + 1);
    } else {
      right, left := right + {newLine.value}, left + {oldLine.value};
      newLine, oldLine := Some(newLine.value + 1), Some(oldLine.value + 1);
    }
  }

  lemma AdvanceAt(c: Counters, ts: seq<Token>, i: nat)
    requires i < |ts|
    ensures AdvanceAll(c, ts[i..]) == AdvanceAll(Advance(c, ts[i]), ts[i + 1..])
  {
    assert ts[i..][0] == ts[i] && ts[i..][1..] == ts[i + 1..];
  }

  function Pair(o: Option<nat>, n: Option<nat>): Option<(nat, nat)> {
    if o.Some? && n.Some? then Some((o.value, n.value)) else None
  }

  /******* Edit scripts, and the diff that shows one *******/

  /** One line of a hunk. `unended` marks the last line of a file that lacks a newline; `bare` an empty context
      line without its space. */
  datatype Cell =
    | Keep(text: string, unended: bool, bare: bool)
    | Add(text: string, unended: bool)
    | Del(text: string, unended: bool)

  /** Lines that both files have and the diff leaves out, then the lines it shows. */
  datatype Hunk = Hunk(skipped: seq<string>, cells: seq<Cell>, heading: string)

  /** A line of a file, and whether a hunk shows it. */
  datatype Line = Line(text: string, shown: bool)

  function Hidden(texts: seq<string>): seq<Line> { seq(|texts|, i requires 0 <= i < |texts| => Line(texts[i], false)) }

  function NewCell(c: Cell): seq<Line> { if c.Del? then [] else [Line(c.text, true)] }

  function OldCell(c: Cell): seq<Line> { if c.Add? then [] else [Line(c.text, true)] }

  function NewCells(cells: seq<Cell>): seq<Line> {
    if cells == [] then [] else NewCell(cells[0]) + NewCells(cells[1..])
  }

  function OldCells(cells: seq<Cell>): seq<Line> {
    if cells == [] then [] else OldCell(cells[0]) + OldCells(cells[1..])
  }

  /** The new file up to the end of the last hunk. */
  function NewFile(hunks: seq<Hunk>): seq<Line> {
    if hunks == [] then []
    else var h := hunks[|hunks| - 1]; NewFile(hunks[..|hunks| - 1]) + Hidden(h.skipped) + NewCells(h.cells)
  }

  function OldFile(hunks: seq<Hunk>): seq<Line> {
    if hunks == [] then []
    else var h := hunks[|hunks| - 1]; OldFile(hunks[..|hunks| - 1]) + Hidden(h.skipped) + OldCells(h.cells)
  }

  /** The numbers, from 1, of the lines that a hunk shows. */
  function ShownNumbers(file: seq<Line>): set<nat> {
    set i | 0 <= i < |file| && file[i].shown :: i + 1
  }

  const NO_NEWLINE := "\\ No newline at end of file"

  function RawCell(c: Cell): string {
    match c
    case Keep(text, _, bare) => if bare && text == [] then [] else " " + text
    case Add(text, _) => "+" + text
    case Del(text, _) => "-" + text
  }

  function CellLines(c: Cell): seq<string> {
    [RawCell(c)] + (if c.unended then [NO_NEWLINE] else [])
  }

  function BodyLines(cells: seq<Cell>): seq<string> {
    if cells == [] then [] else CellLines(cells[0]) + BodyLines(cells[1..])
  }

  /** A range of a header: a count of one is left out. */
  function PrintRange(start: nat, count: nat): string {
    Print(start) + (if count == 1 then [] else "," + Print(count))
  }

  /** An empty range names the line before it, the others their first line. */
  function RangeStart(before: nat, count: nat): nat { if count == 0 then before else before + 1 }

  /** The lines at which a hunk starts, and how many it has, in both files. */
  function HeadToken(hunks: seq<Hunk>): Token
    requires hunks != []
  {
    var init, h := hunks[..|hunks| - 1], hunks[|hunks| - 1];
    Head(RangeStart(|OldFile(init)| + |h.skipped|, |OldCells(h.cells)|),
         RangeStart(|NewFile(init)| + |h.skipped|, |NewCells(h.cells)|))
  }

  function Header(t: Token, oldCount: nat, newCount: nat, heading: string): string
    requires t.Head?
  {
    "@@ -" + PrintRange(t.o, oldCount) + (" +" + (PrintRange(t.n, newCount) + (" @@" + heading)))
  }

  function HunkHeader(hunks: seq<Hunk>): string
    requires hunks != []
  {
    var h := hunks[|hunks| - 1];
    Header(HeadToken(hunks), |OldCells(h.cells)|, |NewCells(h.cells)|, h.heading)
  }

  /** The diff: lines before the first hunk, then every hunk with its header. */
  function DiffLines(preamble: seq<string>, hunks: seq<Hunk>): seq<string> {
    if hunks == [] then preamble
    else DiffLines(preamble, hunks[..|hunks| - 1]) + [HunkHeader(hunks)] + BodyLines(hunks[|hunks| - 1].cells)
  }

  /** Whatever a line breaks into besides its first piece looks like a marker to the parser. */
  predicate Harmless(line: string) {
    forall i | 1 <= i < |Fragments(line)| :: Fragments(line)[i] != [] && Fragments(line)[i][0] == '\\'
  }

  predicate GoodPreamble(preamble: seq<string>) {
    forall i | 0 <= i < |AllFragments(preamble)| :: MatchHunk(AllFragments(preamble)[i]).None?
  }

  predicate GoodHunks(hunks: seq<Hunk>) {
    forall i | 0 <= i < |hunks| :: Harmless(hunks[i].heading) && GoodCells(hunks[i].cells)
  }

  predicate GoodCells(cells: seq<Cell>) {
    forall i | 0 <= i < |cells| :: Harmless(cells[i].text)
  }

  /******* Headers *******/

  lemma MatchPrintedRange(start: nat, count: nat, rest: string)
    requires rest != [] && !IsDigit(rest[0]) && rest[0] != ','
    ensures MatchRange(PrintRange(start, count) + rest) == Some((start, rest))
  {
    var d := Print(start);
    ValueOfPrint(start);
    if count == 1 {
      assert PrintRange(start, count) + rest == d + rest;
      MatchDigits(d, d + rest, rest);
    } else {
      assert PrintRange(start, count) + rest == d + ([','] + (Print(count) + rest));
      MatchCounted(d, Print(count), rest);
    }
  }

  lemma MatchCounted(d: string, count: string, rest: string)
    requires AllDigits(d) && d != [] && AllDigits(count) && count != [] && rest != [] && !IsDigit(rest[0])
    ensures MatchRange(d + ([','] + (count + rest))) == Some((Value(d), rest))
  {
    var tail := [','] + (count + rest);
    MatchDigits(d, d + tail, tail);
    MatchDigits(count, count + rest, rest);
    AfterCount(count, rest);
  }

  lemma AfterCount(count: string, rest: string)
    ensures ([','] + (count + rest))[1..] == count + rest
    ensures ([','] + (count + rest))[1 + |count|..] == rest
  {
  }

  lemma MatchDigits(d: string, s: string, rest: string)
    requires AllDigits(d) && s == d + rest && (rest == [] || !IsDigit(rest[0]))
    ensures DigitCount(s) == |d| && s[..|d|] == d && s[|d|..] == rest
  {
  }

  lemma AfterPrefix(pre: string, rest: string)
    ensures pre <= pre + rest && (pre + rest)[|pre|..] == rest
  {
  }

  lemma MatchHeader(oldStart: nat, oldCount: nat, newStart: nat, newCount: nat, tail: string)
    ensures
      MatchHunk("@@ -" + PrintRange(oldStart, oldCount)
                + (" +" + (PrintRange(newStart, newCount) + (" @@" + tail)))) == Some((oldStart, newStart))
  {
    var last := " @@" + tail;
    var second := PrintRange(newStart, newCount) + last;
    var mid := " +" + second;
    var first := PrintRange(oldStart, oldCount) + mid;
    assert "@@ -" + PrintRange(oldStart, oldCount) + mid == "@@ -" + first;
    MatchPrintedRange(oldStart, oldCount, mid);
    MatchPrintedRange(newStart, newCount, last);
    MatchParts("@@ -" + first, first, oldStart, mid, second, newStart, last);
  }

  lemma MatchParts(raw: string, first: string, oldStart: nat, mid: string, second: string, newStart: nat, last: string)
    requires raw == "@@ -" + first && mid == " +" + second && " @@" <= last
    requires MatchRange(first) == Some((oldStart, mid)) && MatchRange(second) == Some((newStart, last))
    ensures MatchHunk(raw) == Some((oldStart, newStart))
  {
    AfterPrefix("@@ -", first);
    AfterPrefix(" +", second);
  }

  /******* The parser follows the script *******/

  /** The counters after some lines, when more lines of the same hunk are to come. */
  ghost predicate Follows(c: Counters, old_: seq<Line>, new_: seq<Line>, oldMore: bool, newMore: bool) {
    c.right == ShownNumbers(new_) && c.left == ShownNumbers(old_)
    && c.next.Some?
    && (oldMore ==> c.next.value.0 == |old_| + 1)
    && (newMore ==> c.next.value.1 == |new_| + 1)
  }

  lemma ShownAppend(file: seq<Line>, more: seq<Line>)
    ensures |more| == 1 && more[0].shown ==> ShownNumbers(file + more) == ShownNumbers(file) + {|file| + 1}
    ensures (forall i | 0 <= i < |more| :: !more[i].shown) ==> ShownNumbers(file + more) == ShownNumbers(file)
  {
    var all := file + more;
    assert forall i | 0 <= i < |file| :: all[i] == file[i];
    assert forall i | 0 <= i < |more| :: all[|file| + i] == more[i];
    forall n | n in ShownNumbers(file) ensures n in ShownNumbers(all) { assert all[n - 1].shown; }
    if |more| == 1 && more[0].shown { assert all[|file|].shown; }
  }

  function CellTokens(c: Cell): seq<Token> {
    [Kind(c)] + (if c.unended then [Marker] else [])
  }

  function BodyTokens(cells: seq<Cell>): seq<Token> {
    if cells == [] then [] else CellTokens(cells[0]) + BodyTokens(cells[1..])
  }

  lemma OneCell(c: Counters, old_: seq<Line>, new_: seq<Line>, cell: Cell, oldMore: bool, newMore: bool)
    requires Follows(c, old_, new_, oldMore || !cell.Add?, newMore || !cell.Del?)
    ensures Follows(AdvanceAll(c, CellTokens(cell)), old_ + OldCell(cell), new_ + NewCell(cell), oldMore, newMore)
  {
    ShownAppend(old_, OldCell(cell));
    ShownAppend(new_, NewCell(cell));
    var t := CellTokens(cell)[0];
    assert CellTokens(cell)[1..] == (if cell.unended then [Marker] else []);
    assert AdvanceAll(Advance(c, t), CellTokens(cell)[1..]) == Advance(c, t);
  }

  lemma {:induction false} CellsFollow(c: Counters, old_: seq<Line>, new_: seq<Line>, cells: seq<Cell>)
    requires Follows(c, old_, new_, OldCells(cells) != [], NewCells(cells) != [])
    ensures Follows(AdvanceAll(c, BodyTokens(cells)), old_ + OldCells(cells), new_ + NewCells(cells), false, false)
    decreases |cells|
  {
    if cells == [] {
      assert old_ + OldCells(cells) == old_ && new_ + NewCells(cells) == new_;
    } else {
      var cell, rest := cells[0], cells[1..];
      var old1, new1 := old_ + OldCell(cell), new_ + NewCell(cell);
      CellsSplit(old_, new_, cells, cell, rest);
      OneCell(c, old_, new_, cell, OldCells(rest) != [], NewCells(rest) != []);
      CellsFollow(AdvanceAll(c, CellTokens(cell)), old1, new1, rest);
      AdvanceConcat(c, CellTokens(cell), BodyTokens(rest));
    }
  }

  lemma CellsSplit(old_: seq<Line>, new_: seq<Line>, cells: seq<Cell>, cell: Cell, rest: seq<Cell>)
    requires cells != [] && cell == cells[0] && rest == cells[1..]
    ensures old_ + OldCell(cell) + OldCells(rest) == old_ + OldCells(cells)
    ensures new_ + NewCell(cell) + NewCells(rest) == new_ + NewCells(cells)
    ensures OldCells(cells) != [] <==> OldCells(rest) != [] || !cell.Add?
    ensures NewCells(cells) != [] <==> NewCells(rest) != [] || !cell.Del?
  {
    Associates(old_, OldCell(cell), OldCells(rest));
    Associates(new_, NewCell(cell), NewCells(rest));
    assert cell.Add? ==> OldCells(cells) == OldCells(rest);
    assert cell.Del? ==> NewCells(cells) == NewCells(rest);
  }

  lemma Associates<T>(a: seq<T>, b: seq<T>, c: seq<T>)
    ensures a + b + c == a + (b + c)
  {
  }

  function HunkTokens(hunks: seq<Hunk>): seq<Token> {
    if hunks == [] then []
    else HunkTokens(hunks[..|hunks| - 1]) + [HeadToken(hunks)] + BodyTokens(hunks[|hunks| - 1].cells)
  }

  lemma HeadFollows(c: Counters, hunks: seq<Hunk>, h: Hunk)
    requires hunks != [] && h == hunks[|hunks| - 1]
    requires var init := hunks[..|hunks| - 1];
      c.right == ShownNumbers(NewFile(init)) && c.left == ShownNumbers(OldFile(init))
    ensures var init := hunks[..|hunks| - 1];
      Follows(Advance(c, HeadToken(hunks)), OldFile(init) + Hidden(h.skipped), NewFile(init) + Hidden(h.skipped),
        OldCells(h.cells) != [], NewCells(h.cells) != [])
  {
    ShownAppend(OldFile(hunks[..|hunks| - 1]), Hidden(h.skipped));
    ShownAppend(NewFile(hunks[..|hunks| - 1]), Hidden(h.skipped));
  }

  lemma {:induction false} HunksFollow(hunks: seq<Hunk>)
    ensures var c := AdvanceAll(START, HunkTokens(hunks));
      c.right == ShownNumbers(NewFile(hunks)) && c.left == ShownNumbers(OldFile(hunks))
    decreases |hunks|
  {
    if hunks != [] {
      var init, h := hunks[..|hunks| - 1], hunks[|hunks| - 1];
      HunksFollow(init);
      var c := AdvanceAll(START, HunkTokens(init));
      HeadFollows(c, hunks, h);
      var before, after := OldFile(init) + Hidden(h.skipped), NewFile(init) + Hidden(h.skipped);
      CellsFollow(Advance(c, HeadToken(hunks)), before, after, h.cells);
      AdvanceConcat(START, HunkTokens(init) + [HeadToken(hunks)], BodyTokens(h.cells));
      AdvanceConcat(START, HunkTokens(init), [HeadToken(hunks)]);
      assert AdvanceAll(c, [HeadToken(hunks)]) == AdvanceAll(Advance(c, HeadToken(hunks)), []);
    }
  }

  /******* The printed diff reads as the script *******/

  /** Markers move no counter, so they can be left out. */
  function Visible(ts: seq<Token>): seq<Token> {
    if ts == [] then [] else (if ts[0].Marker? then [] else [ts[0]]) + Visible(ts[1..])
  }

  lemma {:induction false} VisibleConcat(a: seq<Token>, b: seq<Token>)
    ensures Visible(a + b) == Visible(a) + Visible(b)
  {
    if a == [] {
      assert a + b == b;
    } else {
      assert (a + b)[1..] == a[1..] + b;
      VisibleConcat(a[1..], b);
    }
  }

  lemma {:induction false} MarkersIgnored(c: Counters, ts: seq<Token>)
    ensures AdvanceAll(c, Visible(ts)) == AdvanceAll(c, ts)
    decreases |ts|
  {
    if ts != [] {
      MarkersIgnored(Advance(c, ts[0]), ts[1..]);
      assert ts[0].Marker? ==> Advance(c, ts[0]) == c && Visible(ts) == Visible(ts[1..]);
      assert !ts[0].Marker? ==> Visible(ts)[0] == ts[0] && Visible(ts)[1..] == Visible(ts[1..]);
    }
  }

  /** What the parser sees of some lines. */
  function Seen(lines: seq<string>): seq<Token> { Visible(Tokens(AllFragments(lines))) }

  lemma {:induction false} FragmentsConcat(a: seq<string>, b: seq<string>)
    ensures AllFragments(a + b) == AllFragments(a) + AllFragments(b)
  {
    if a == [] {
      assert a + b == b;
    } else {
      assert (a + b)[1..] == a[1..] + b && (a + b)[0] == a[0];
      FragmentsConcat(a[1..], b);
      Associates(Fragments(a[0]), AllFragments(a[1..]), AllFragments(b));
    }
  }

  lemma SeenConcat(a: seq<string>, b: seq<string>)
    ensures Seen(a + b) == Seen(a) + Seen(b)
  {
    FragmentsConcat(a, b);
    TokensConcat(AllFragments(a), AllFragments(b));
    VisibleConcat(Tokens(AllFragments(a)), Tokens(AllFragments(b)));
  }

  lemma TokensConcat(a: seq<string>, b: seq<string>)
    ensures Tokens(a + b) == Tokens(a) + Tokens(b)
  {
  }

  lemma {:induction false} OnlyMarkers(ts: seq<Token>)
    requires forall i | 0 <= i < |ts| :: ts[i].Marker?
    ensures Visible(ts) == []
  {
    if ts != [] { OnlyMarkers(ts[1..]); }
  }

  /** A harmless line is seen as its first piece. */
  lemma LineSeen(line: string, first: string, rest: seq<string>)
    requires Fragments(line) == [first] + rest && forall i | 0 <= i < |rest| :: TokenOf(rest[i]).Marker?
    ensures Seen([line]) == Visible([TokenOf(first)])
  {
    OneLineFragments(line);
    TokensConcat([first], rest);
    assert Tokens([first]) == [TokenOf(first)];
    OnlyMarkers(Tokens(rest));
    VisibleConcat([TokenOf(first)], Tokens(rest));
    assert Visible([TokenOf(first)]) + [] == Visible([TokenOf(first)]);
  }

  lemma OneLineFragments(line: string)
    ensures AllFragments([line]) == Fragments(line)
  {
    assert [line][1..] == [] && Fragments(line) + [] == Fragments(line);
  }

  lemma BackslashIsMarker(line: string)
    requires line != [] && line[0] == '\\'
    ensures TokenOf(line).Marker?
  {
    assert !("@@ -" <= line);
  }

  /** A harmless line behind a prefix is seen as the prefix and its first piece. */
  lemma FrontSeen(front: string, line: string)
    requires Harmless(line) && forall i | 0 <= i < |front| :: !IsLineBreak(front[i])
    ensures Fragments(line) != [] && Seen([front + line]) == Visible([TokenOf(front + Fragments(line)[0])])
  {
    FragmentsFront(front, line);
    var rest := Fragments(line)[1..];
    forall i | 0 <= i < |rest| ensures TokenOf(rest[i]).Marker? {
      assert rest[i] == Fragments(line)[i + 1];
      BackslashIsMarker(rest[i]);
    }
    LineSeen(front + line, front + Fragments(line)[0], rest);
  }

  lemma VisibleOne(t: Token)
    ensures Visible([t]) == if t.Marker? then [] else [t]
  {
    assert [t][1..] == [];
  }

  lemma PlainLine(line: string)
    requires forall i | 0 <= i < |line| :: !IsLineBreak(line[i])
    ensures Fragments(line) == [line]
  {
    var s := line + ['\n'];
    FirstBreakIs(s, |line|);
    assert s[..|line|] == line && s[|s|..] == [];
    SplitsAs(s, line, []);
    assert [line] + [] == [line];
  }

  /** How the parser is to see a line of a hunk. */
  function Kind(c: Cell): Token {
    match c case Keep(_, _, _) => Other case Add(_, _) => Plus case Del(_, _) => Minus
  }

  lemma KindOf(c: Cell, rest: string)
    ensures TokenOf([if c.Keep? then ' ' else if c.Add? then '+' else '-'] + rest) == Kind(c)
  {
    var raw := [if c.Keep? then ' ' else if c.Add? then '+' else '-'] + rest;
    assert raw[0] != '@' && !("@@ -" <= raw);
  }

  lemma RawSeen(c: Cell)
    requires Harmless(c.text)
    ensures Seen([RawCell(c)]) == [Kind(c)]
  {
    if RawCell(c) == [] {
      PlainLine([]);
      LineSeen([], [], []);
      VisibleOne(Other);
    } else {
      var front := [if c.Keep? then ' ' else if c.Add? then '+' else '-'];
      assert RawCell(c) == front + c.text;
      FrontSeen(front, c.text);
      KindOf(c, Fragments(c.text)[0]);
      VisibleOne(Kind(c));
    }
  }

  lemma MarkerSeen()
    ensures Seen([NO_NEWLINE]) == []
  {
    assert forall i | 0 <= i < |NO_NEWLINE| :: !IsLineBreak(NO_NEWLINE[i]);
    assert NO_NEWLINE[0] == '\\';
    PlainLine(NO_NEWLINE);
    BackslashIsMarker(NO_NEWLINE);
    LineSeen(NO_NEWLINE, NO_NEWLINE, []);
    VisibleOne(Marker);
  }

  lemma CellSeen(c: Cell)
    requires Harmless(c.text)
    ensures Seen(CellLines(c)) == Visible(CellTokens(c))
  {
    RawSeen(c);
    VisibleOne(Kind(c));
    if c.unended {
      MarkerSeen();
      SeenConcat([RawCell(c)], [NO_NEWLINE]);
      VisibleConcat([Kind(c)], [Marker]);
      VisibleOne(Marker);
    } else {
      assert CellLines(c) == [RawCell(c)] && CellTokens(c) == [Kind(c)];
    }
  }

  lemma {:induction false} BodySeen(cells: seq<Cell>)
    requires GoodCells(cells)
    ensures Seen(BodyLines(cells)) == Visible(BodyTokens(cells))
  {
    if cells != [] {
      CellSeen(cells[0]);
      BodySeen(cells[1..]);
      SeenConcat(CellLines(cells[0]), BodyLines(cells[1..]));
      VisibleConcat(CellTokens(cells[0]), BodyTokens(cells[1..]));
    }
  }

  /** What comes before the heading. */
  function HeaderFront(t: Token, oc: nat, nc: nat): string
    requires t.Head?
  {
    "@@ -" + PrintRange(t.o, oc) + " +" + PrintRange(t.n, nc) + " @@"
  }

  lemma HeaderParts(t: Token, oc: nat, nc: nat, heading: string)
    requires t.Head?
    ensures Header(t, oc, nc, heading) == HeaderFront(t, oc, nc) + heading
  {
  }

  lemma FrontHasNoBreak(t: Token, oc: nat, nc: nat)
    requires t.Head?
    ensures forall i | 0 <= i < |HeaderFront(t, oc, nc)| :: !IsLineBreak(HeaderFront(t, oc, nc)[i])
  {
    assert forall c | IsDigit(c) :: !IsLineBreak(c);
    var a, b := PrintRange(t.o, oc), PrintRange(t.n, nc);
    assert (forall i | 0 <= i < |a| :: !IsLineBreak(a[i])) && forall i | 0 <= i < |b| :: !IsLineBreak(b[i]);
  }

  lemma HeaderToken(t: Token, oc: nat, nc: nat, heading: string)
    requires t.Head?
    ensures TokenOf(Header(t, oc, nc, heading)) == t
  {
    MatchHeader(t.o, oc, t.n, nc, heading);
  }

  lemma HeaderSeen(t: Token, oc: nat, nc: nat, heading: string)
    requires t.Head? && Harmless(heading)
    ensures Seen([Header(t, oc, nc, heading)]) == [t]
  {
    FrontHasNoBreak(t, oc, nc);
    FrontSeen(HeaderFront(t, oc, nc), heading);
    HeaderParts(t, oc, nc, heading);
    HeaderParts(t, oc, nc, Fragments(heading)[0]);
    HeaderToken(t, oc, nc, Fragments(heading)[0]);
    VisibleOne(t);
  }

  lemma HunkHeaderSeen(hunks: seq<Hunk>)
    requires hunks != [] && Harmless(hunks[|hunks| - 1].heading)
    ensures Seen([HunkHeader(hunks)]) == [HeadToken(hunks)]
  {
    var h := hunks[|hunks| - 1];
    HeaderSeen(HeadToken(hunks), |OldCells(h.cells)|, |NewCells(h.cells)|, h.heading);
  }

  lemma {:induction false} DiffSeen(preamble: seq<string>, hunks: seq<Hunk>)
    requires GoodHunks(hunks)
    ensures Seen(DiffLines(preamble, hunks)) == Seen(preamble) + Visible(HunkTokens(hunks))
    decreases |hunks|
  {
    if hunks != [] {
      var init, h := hunks[..|hunks| - 1], hunks[|hunks| - 1];
      DiffSeen(preamble, init);
      HunkHeaderSeen(hunks);
      BodySeen(h.cells);
      SeenThree(DiffLines(preamble, init), [HunkHeader(hunks)], BodyLines(h.cells));
      VisibleThree(HunkTokens(init), HeadToken(hunks), BodyTokens(h.cells));
      Associates(Seen(preamble), Visible(HunkTokens(init)), [HeadToken(hunks)] + Visible(BodyTokens(h.cells)));
    }
  }

  lemma SeenThree(a: seq<string>, b: seq<string>, c: seq<string>)
    ensures Seen(a + b + c) == Seen(a) + (Seen(b) + Seen(c))
  {
    SeenConcat(a + b, c);
    SeenConcat(a, b);
  }

  lemma VisibleThree(a: seq<Token>, t: Token, b: seq<Token>)
    requires !t.Marker?
    ensures Visible(a + [t] + b) == Visible(a) + ([t] + Visible(b))
  {
    VisibleConcat(a + [t], b);
    VisibleConcat(a, [t]);
    VisibleOne(t);
  }

  lemma {:induction false} PreambleIgnored(ts: seq<Token>)
    requires forall i | 0 <= i < |ts| :: !ts[i].Head?
    ensures AdvanceAll(START, ts) == START
  {
    if ts != [] {
      PreambleIgnored(ts[1..]);
    }
  }

  lemma PreambleSeen(preamble: seq<string>)
    requires GoodPreamble(preamble)
    ensures AdvanceAll(START, Seen(preamble)) == START
  {
    MarkersIgnored(START, Tokens(AllFragments(preamble)));
    PreambleIgnored(Tokens(AllFragments(preamble)));
  }

  /** Reading the pieces of the diff of an edit script gives exactly the shown lines of both files. */
  lemma ReadsScript(preamble: seq<string>, hunks: seq<Hunk>)
    requires GoodPreamble(preamble) && GoodHunks(hunks)
    ensures var c := AdvanceAll(START, Tokens(AllFragments(DiffLines(preamble, hunks))));
      c.right == ShownNumbers(NewFile(hunks)) && c.left == ShownNumbers(OldFile(hunks))
  {
    MarkersIgnored(START, Tokens(AllFragments(DiffLines(preamble, hunks))));
    DiffSeen(preamble, hunks);
    PreambleSeen(preamble);
    AdvanceConcat(START, Seen(preamble), Visible(HunkTokens(hunks)));
    MarkersIgnored(START, HunkTokens(hunks));
    HunksFollow(hunks);
  }

  /**
   The anchorable lines of a diff are exactly the shown lines of the new and of the old file, for every
   edit script between two files, every context, and whatever the lines begin with. A line may even have other
   line breaks inside, if what follows them is harmless.
   */
  lemma AnchorsExact(preamble: seq<string>, hunks: seq<Hunk>, tail: seq<string>)
    requires GoodPreamble(preamble) && GoodHunks(hunks)
    ensures AnchorableLines(Unlines(DiffLines(preamble, hunks)))
      == Sides(ShownNumbers(NewFile(hunks) + Hidden(tail)), ShownNumbers(OldFile(hunks) + Hidden(tail)))
    ensures var lines := DiffLines(preamble, hunks);
      lines != [] && CleanEnd(lines[|lines| - 1]) ==>
      AnchorableLines(Unterminated(lines))
      == Sides(ShownNumbers(NewFile(hunks) + Hidden(tail)), ShownNumbers(OldFile(hunks) + Hidden(tail)))
  {
    var lines := DiffLines(preamble, hunks);
    SplitUnlines(lines);
    if lines != [] && CleanEnd(lines[|lines| - 1]) { SplitUnterminated(lines); }
    ReadsScript(preamble, hunks);
    ShownAppend(NewFile(hunks), Hidden(tail));
    ShownAppend(OldFile(hunks), Hidden(tail));
  }

  /******* Exactly which lines are read as themselves *******/

  /** Lines without any line break but the carriage return of a CRLF are harmless. */
  lemma CrLfIsHarmless(line: string)
    requires forall i | 0 <= i < |line| :: IsLineBreak(line[i]) ==> i == |line| - 1 && line[i] == '\r'
    ensures Harmless(line)
  {
    if line != [] && line[|line| - 1] == '\r' {
      var s := line + ['\n'];
      FirstBreakIs(s, |line| - 1);
      assert s[|s|..] == [];
      SplitsAs(s, line[..|line| - 1], []);
    } else {
      PlainLine(line);
    }
  }

  lemma {:induction false} SameNext(c: Counters, d: Counters, ts: seq<Token>)
    requires c.next == d.next
    ensures AdvanceAll(c, ts).next == AdvanceAll(d, ts).next
    decreases |ts|
  {
    if ts != [] { SameNext(Advance(c, ts[0]), Advance(d, ts[0]), ts[1..]); }
  }

  /** A hunk header among the tokens makes the counters forget where they were. */
  lemma {:induction false} HeadForgets(c: Counters, d: Counters, ts: seq<Token>)
    requires c.next.Some? && d.next.Some? && exists i | 0 <= i < |ts| :: ts[i].Head?
    ensures AdvanceAll(c, ts).next == AdvanceAll(d, ts).next && AdvanceAll(c, ts).next.Some?
    decreases |ts|
  {
    if ts[0].Head? {
      SameNext(Advance(c, ts[0]), Advance(d, ts[0]), ts[1..]);
      StaysInside(Advance(c, ts[0]), ts[1..]);
    } else {
      var i :| 0 <= i < |ts| && ts[i].Head?;
      assert ts[1..][i - 1].Head?;
      HeadForgets(Advance(c, ts[0]), Advance(d, ts[0]), ts[1..]);
    }
  }

  lemma {:induction false} StaysInside(c: Counters, ts: seq<Token>)
    requires c.next.Some?
    ensures AdvanceAll(c, ts).next.Some?
    decreases |ts|
  {
    if ts != [] { StaysInside(Advance(c, ts[0]), ts[1..]); }
  }

  /** Without one, every token that is seen moves a counter on. */
  lemma {:induction false} TokensMove(c: Counters, ts: seq<Token>)
    requires c.next.Some? && forall i | 0 <= i < |ts| :: !ts[i].Head? && !ts[i].Marker?
    ensures AdvanceAll(c, ts).next.Some?
    ensures var (o, n) := c.next.value; var (p, q) := AdvanceAll(c, ts).next.value; p + q >= o + n + |ts|
    decreases |ts|
  {
    if ts != [] { TokensMove(Advance(c, ts[0]), ts[1..]); }
  }

  lemma {:induction false} VisibleHasNoMarker(ts: seq<Token>)
    ensures forall i | 0 <= i < |Visible(ts)| :: !Visible(ts)[i].Marker?
    ensures Visible(ts) == [] <==> forall i | 0 <= i < |ts| :: ts[i].Marker?
  {
    if ts != [] { VisibleHasNoMarker(ts[1..]); }
  }

  /** Tokens that are not all markers move some counters. */
  lemma SomeCountersMove(own: Token, ts: seq<Token>) returns (c: Counters)
    requires Visible(ts) != [] && !own.Head? && !own.Marker?
    ensures c.next.Some? && AdvanceAll(Advance(c, own), ts) != Advance(c, own)
  {
    var vs := Visible(ts);
    VisibleHasNoMarker(ts);
    c := Counters({}, {}, Some((0, 0)));
    if exists i | 0 <= i < |vs| :: vs[i].Head? {
      HeadForgets(Advance(c, own), Advance(c, own), vs);
      var end := AdvanceAll(Advance(c, own), vs).next.value;
      var far := Counters({}, {}, Some((end.0 + 1, 0)));
      HeadForgets(Advance(c, own), Advance(far, own), vs);
      c := far;
    } else {
      TokensMove(Advance(c, own), vs);
    }
    MarkersIgnored(Advance(c, own), ts);
  }

  lemma RawFragments(c: Cell)
    ensures Fragments(RawCell(c)) != [] && TokenOf(Fragments(RawCell(c))[0]) == Kind(c)
    ensures Harmless(c.text) <==>
      forall i | 1 <= i < |Fragments(RawCell(c))| :: TokenOf(Fragments(RawCell(c))[i]).Marker?
  {
    if RawCell(c) == [] {
      PlainLine([]);
    } else {
      var front := [if c.Keep? then ' ' else if c.Add? then '+' else '-'];
      assert RawCell(c) == front + c.text;
      FragmentsFront(front, c.text);
      KindOf(c, Fragments(c.text)[0]);
      MarkersAre(Fragments(RawCell(c)), Fragments(c.text));
    }
  }

  lemma MarkersAre(raw: seq<string>, pieces: seq<string>)
    requires pieces != [] && raw != [] && raw[1..] == pieces[1..]
    ensures (forall i | 1 <= i < |raw| :: TokenOf(raw[i]).Marker?)
      <==> (forall i | 1 <= i < |pieces| :: pieces[i] != [] && pieces[i][0] == '\\')
  {
    assert |raw| == |raw[1..]| + 1 && |pieces| == |pieces[1..]| + 1;
    forall i | 1 <= i < |raw| ensures raw[i] == pieces[i] { assert raw[i] == raw[1..][i - 1]; }
    forall i | 1 <= i < |pieces| && pieces[i] != [] && pieces[i][0] == '\\' ensures TokenOf(pieces[i]).Marker? {
      BackslashIsMarker(pieces[i]);
    }
  }

  lemma TailMarkers(fs: seq<string>, ts: seq<Token>)
    requires |ts| == |fs| - 1 && forall i | 0 <= i < |ts| :: ts[i] == TokenOf(fs[i + 1])
    ensures (forall i | 0 <= i < |ts| :: ts[i].Marker?) <==> (forall i | 1 <= i < |fs| :: TokenOf(fs[i]).Marker?)
  {
    if forall i | 0 <= i < |ts| :: ts[i].Marker? {
      forall i | 1 <= i < |fs| ensures TokenOf(fs[i]).Marker? { assert ts[i - 1].Marker?; }
    }
  }

  /**
   A shown line is read as itself in every hunk and at every place exactly when each piece behind an inner line break
   begins with a backslash.
   */
  lemma ReadAsItselfIff(cell: Cell)
    ensures (forall c: Counters | c.next.Some? ::
      AdvanceAll(c, Tokens(Fragments(RawCell(cell)))) == Advance(c, Kind(cell)))
      <==> Harmless(cell.text)
  {
    var fs := Fragments(RawCell(cell));
    RawFragments(cell);
    var own, ts := Kind(cell), Tokens(fs)[1..];
    assert Tokens(fs)[0] == own && forall i | 0 <= i < |ts| :: ts[i] == TokenOf(fs[i + 1]);
    VisibleHasNoMarker(ts);
    TailMarkers(fs, ts);
    if Visible(ts) == [] {
      forall c: Counters | c.next.Some? ensures AdvanceAll(c, Tokens(fs)) == Advance(c, own) {
        MarkersIgnored(Advance(c, own), ts);
      }
    } else {
      var c := SomeCountersMove(own, ts);
      assert AdvanceAll(c, Tokens(fs)) == AdvanceAll(Advance(c, own), ts);
    }
  }

  /**
   So any other line break inside a line, a form feed say, can mislead the parser: removing the only line of a file then
   seems to show a line of the new file, which is empty.
   */
  lemma InnerBreakMisread(a: string, c: char, b: string, hunks: seq<Hunk>)
    requires InnerBreak(a, c, b) && TokenOf(b) == Other
    requires hunks == [Hunk([], [Del(a + [c] + b, false)], [])]
    ensures ShownNumbers(NewFile(hunks)) == {} && AnchorableLines(Unlines(DiffLines([], hunks))).right == {0}
  {
    OneDeletion(hunks, a + [c] + b);
    var head, raw := HunkHeader(hunks), ['-'] + (a + [c] + b);
    SplitUnlines([head, raw]);
    FragmentsConcat([head], [raw]);
    assert [head] + [raw] == [head, raw];
    PlainLine([]);
    HunkHeaderSeen(hunks);
    TwoPieces(a, c, b);
    MisreadTokens(head, raw, a, b, HeadToken(hunks));
  }

  ghost predicate InnerBreak(a: string, c: char, b: string) {
    IsLineBreak(c) && c != '\r' && c != '\n' && forall x | x in a || x in b :: !IsLineBreak(x)
  }

  lemma TwoPieces(a: string, c: char, b: string)
    requires InnerBreak(a, c, b)
    ensures Fragments(['-'] + (a + [c] + b)) == [['-'] + a, b]
  {
    EndsAtBreak(['-'] + a, c);
    PlainLine(b);
    SplitAfter(['-'] + a + [c], b + ['\n']);
    MovePrefix(a, c, b, ['\n']);
  }

  lemma MovePrefix(a: string, c: char, b: string, nl: string)
    ensures ['-'] + (a + [c] + b) + nl == ['-'] + a + [c] + (b + nl)
  {
  }

  lemma EndsAtBreak(a: string, c: char)
    requires IsLineBreak(c) && forall i | 0 <= i < |a| :: !IsLineBreak(a[i])
    ensures SplitLines(a + [c]) == [a]
  {
    var s := a + [c];
    FirstBreakIs(s, |a|);
    assert s[..|a|] == a && s[|s|..] == [];
    SplitsAs(s, a, []);
  }

  lemma MisreadTokens(head: string, raw: string, a: string, b: string, t: Token)
    requires Seen([head]) == [t] && t == Head(1, 0) && Fragments(raw) == [['-'] + a, b] && TokenOf(b) == Other
    ensures AdvanceAll(START, Tokens(AllFragments([head]) + AllFragments([raw]))).right == {0}
  {
    KindOf(Del(a, false), a);
    OneLineFragments(raw);
    TokensConcat(AllFragments([head]), Fragments(raw));
    assert Tokens(Fragments(raw)) == [Minus, Other];
    AdvanceConcat(START, Tokens(AllFragments([head])), [Minus, Other]);
    MarkersIgnored(START, Tokens(AllFragments([head])));
    OneToken(START, t);
    TwoTokens(Advance(START, t), Minus, Other);
  }

  lemma OneDeletion(hunks: seq<Hunk>, text: string)
    requires hunks == [Hunk([], [Del(text, false)], [])]
    ensures NewFile(hunks) == [] && HeadToken(hunks) == Head(1, 0)
    ensures DiffLines([], hunks) == [HunkHeader(hunks), ['-'] + text]
  {
    var cells := hunks[0].cells;
    assert hunks[..0] == [] && cells[1..] == [];
    assert OldCells(cells) == [Line(text, true)] && NewCells(cells) == [];
    assert NewFile(hunks[..0]) == [] && OldFile(hunks[..0]) == [] && DiffLines([], hunks[..0]) == [];
    assert CellLines(cells[0]) == [['-'] + text];
    assert BodyLines(cells) == CellLines(cells[0]) + BodyLines([]);
  }

  lemma TwoTokens(c: Counters, a: Token, b: Token)
    ensures AdvanceAll(c, [a, b]) == Advance(Advance(c, a), b)
  {
    assert [a, b][1..] == [b];
    OneToken(Advance(c, a), b);
  }

  lemma OneToken(c: Counters, t: Token)
    ensures AdvanceAll(c, [t]) == Advance(c, t)
  {
    assert [t][1..] == [];
  }

  /******* Review comments *******/

  datatype Comment =
    Comment(path: string, line: int, side: string, startLine: Option<int>, startSide: string, body: string)

  datatype Rejection = NotInDiff | NoPatch | LineNotShown | SidesDiffer | StartAfterLine | StartNotShown

  function Lines(patch: string, side: string): set<nat> {
    if side == "RIGHT" then AnchorableLines(patch).right else AnchorableLines(patch).left
  }

  ghost predicate IsIn(line: int, lines: set<nat>) { line >= 0 && line in lines }

  /** The comment can be anchored: its line, and its first line if it has one, are shown on the same side. */
  ghost predicate Anchorable(c: Comment, side: string, byPath: map<string, string>) {
    c.path in byPath && byPath[c.path] != [] && IsIn(c.line, Lines(byPath[c.path], Upper(side)))
    && (c.startLine.Some? ==>
      (c.startSide == [] || Upper(c.startSide) == Upper(side)) && c.startLine.value <= c.line
      && IsIn(c.startLine.value, Lines(byPath[c.path], Upper(side))))
  }

  ghost predicate HasPatch(c: Comment, byPath: map<string, string>) { c.path in byPath && byPath[c.path] != [] }

  ghost predicate LineShown(c: Comment, side: string, byPath: map<string, string>) {
    HasPatch(c, byPath) && IsIn(c.line, Lines(byPath[c.path], Upper(side)))
  }

  /** The parsed diffs, kept across the comments of one review. */
  class AnchorCache {
    var parsed: map<string, Sides>

    constructor ()
      ensures parsed == map[]
    {
      parsed := map[];
    }

    ghost predicate Correct(byPath: map<string, string>)
      reads this
    {
      forall p | p in parsed :: p in byPath && parsed[p] == AnchorableLines(byPath[p])
    }

    /** `_anchor_rejection`. */
    method AnchorRejection(c: Comment, side: string, byPath: map<string, string>) returns (r: Option<Rejection>)
      requires Correct(byPath)
      modifies this
      ensures Correct(byPath)
      ensures r.None? <==> Anchorable(c, side, byPath)
      ensures r == Some(NotInDiff) <==> c.path !in byPath
      ensures r == Some(NoPatch) <==> c.path in byPath && byPath[c.path] == []
      ensures r == Some(LineNotShown) <==> HasPatch(c, byPath) && !IsIn(c.line, Lines(byPath[c.path], Upper(side)))
      ensures r == Some(SidesDiffer) <==>
        LineShown(c, side, byPath) && c.startLine.Some? && c.startSide != [] && Upper(c.startSide) != Upper(side)
      ensures r == Some(StartAfterLine) <==>
        (LineShown(c, side, byPath) && c.startLine.Some?
        && (c.startSide == [] || Upper(c.startSide) == Upper(side)) && c.startLine.value > c.line)
    {
      if c.path !in byPath { return Some(NotInDiff); }
      if byPath[c.path] == [] { return Some(NoPatch); }
      if c.path !in parsed {
        var sides := DiffAnchorableLines(byPath[c.path]);
        parsed := parsed[c.path := sides];
      }
      var normSide := Upper(side);
      var lines := if normSide == "RIGHT" then parsed[c.path].right else parsed[c.path].left;
      if c.line < 0 || c.line !in lines { return Some(LineNotShown); }
      if c.startLine.Some? {
        var startSide := Upper(if c.startSide == [] then side else c.startSide);
        if startSide != normSide { return Some(SidesDiffer); }
        if c.startLine.value > c.line { return Some(StartAfterLine); }
        var startLines := if startSide == "RIGHT" then parsed[c.path].right else parsed[c.path].left;
        if c.startLine.value < 0 || c.startLine.value !in startLines { return Some(StartNotShown); }
      }
      r := None;
    }
  }

  function SideOf(c: Comment): string { Upper(if c.side == [] then "RIGHT" else c.side) }

  /** The comments that can be anchored (or those that cannot), in order. */
  ghost function Select(staged: seq<Comment>, byPath: map<string, string>, want: bool): seq<Comment> {
    Picked(staged, CanAnchor(byPath), want)
  }

  ghost function CanAnchor(byPath: map<string, string>): Comment -> bool {
    c => Anchorable(c, SideOf(c), byPath)
  }

  ghost function Picked<T(!new)>(staged: seq<T>, p: T -> bool, want: bool): seq<T> {
    if staged == [] then []
    else
      var c := staged[|staged| - 1];
      Picked(staged[..|staged| - 1], p, want) + (if p(c) == want then [c] else [])
  }

  /** The comment is on the new side, which is also where one without a side is. */
  predicate OnRight(c: Comment) { c.side == [] || Upper(c.side) == "RIGHT" }

  /** The lines of the diff that can be named on the side of the comment. */
  ghost function LinesFor(c: Comment, patch: string): set<nat> {
    if OnRight(c) then AnchorableLines(patch).right else AnchorableLines(patch).left
  }

  /** The range of the comment stays on its side. */
  predicate OneSided(c: Comment) {
    c.startSide == [] || Upper(c.startSide) == if c.side == [] then "RIGHT" else Upper(c.side)
  }

  /** A comment that is posted: its line, and its first line if it has one, can be named on its side. */
  ghost predicate Postable(c: Comment, byPath: map<string, string>) {
    HasPatch(c, byPath) && IsIn(c.line, LinesFor(c, byPath[c.path]))
    && (c.startLine.Some? ==>
      OneSided(c) && c.startLine.value <= c.line && IsIn(c.startLine.value, LinesFor(c, byPath[c.path])))
  }

  lemma PostableIs(c: Comment, byPath: map<string, string>)
    ensures Anchorable(c, SideOf(c), byPath) <==> Postable(c, byPath)
  {
    UpperTwice(if c.side == [] then "RIGHT" else c.side);
    assert Upper("RIGHT") == "RIGHT" && Upper([]) == [];
  }

  /** `picked` are the elements of s at the given places, in order. */
  predicate ArePicks<T(==)>(s: seq<T>, places: seq<nat>, picked: seq<T>) {
    |picked| == |places| && (forall k | 0 <= k < |places| :: places[k] < |s| && picked[k] == s[places[k]])
    && forall j, k | 0 <= j < k < |places| :: places[j] < places[k]
  }

  ghost function Places<T(!new)>(s: seq<T>, p: T -> bool, want: bool): seq<nat> {
    if s == [] then []
    else Places(s[..|s| - 1], p, want) + (if p(s[|s| - 1]) == want then [|s| - 1] else [])
  }

  lemma {:induction false} PickedInOrder<T(!new)>(s: seq<T>, p: T -> bool, want: bool)
    ensures ArePicks(s, Places(s, p, want), Picked(s, p, want))
    ensures forall i | 0 <= i < |s| :: i in Places(s, p, want) <==> p(s[i]) == want
    ensures forall i | i in Places(s, p, want) :: i < |s|
  {
    if s != [] {
      var init := s[..|s| - 1];
      PickedInOrder(init, p, want);
      assert forall i | 0 <= i < |init| :: init[i] == s[i];
    }
  }

  /** The postable comments of `staged` (or the others) are `kept`, each once and in order. */
  ghost predicate Keeps(staged: seq<Comment>, byPath: map<string, string>, kept: seq<Comment>, want: bool) {
    exists places :: ArePicks(staged, places, kept)
      && forall i | 0 <= i < |staged| :: i in places <==> Postable(staged[i], byPath) == want
  }

  lemma SelectKeeps(staged: seq<Comment>, byPath: map<string, string>, want: bool)
    ensures Keeps(staged, byPath, Select(staged, byPath, want), want)
  {
    PickedInOrder(staged, CanAnchor(byPath), want);
    forall i | 0 <= i < |staged| ensures CanAnchor(byPath)(staged[i]) == Postable(staged[i], byPath) {
      PostableIs(staged[i], byPath);
    }
    assert ArePicks(staged, Places(staged, CanAnchor(byPath), want), Select(staged, byPath, want));
  }

  /** `_filter_anchorable_comments`. */
  method FilterAnchorable(staged: seq<Comment>, byPath: map<string, string>)
    returns (anchorable: seq<Comment>, dropped: seq<Comment>)
    ensures anchorable == Select(staged, byPath, true) && dropped == Select(staged, byPath, false)
    ensures Keeps(staged, byPath, anchorable, true) && Keeps(staged, byPath, dropped, false)
  {
    var cache := new AnchorCache();
    anchorable, dropped := [], [];
    for i := 0 to |staged|
      invariant fresh(cache) && cache.Correct(byPath)
      invariant anchorable == Select(staged[..i], byPath, true) && dropped == Select(staged[..i], byPath, false)
    {
      var c := staged[i];
      assert staged[..i + 1][..i] == staged[..i];
      var r := cache.AnchorRejection(c, SideOf(c), byPath);
      if r.None? { anchorable := anchorable + [c]; } else { dropped := dropped + [c]; }
    }
    assert staged[..|staged|] == staged;
    SelectKeeps(staged, byPath, true);
    SelectKeeps(staged, byPath, false);
  }

  /** Nothing is lost, doubled or changed, and each part holds what it should. */
  lemma FilterPartitions(staged: seq<Comment>, byPath: map<string, string>)
    ensures multiset(Select(staged, byPath, true)) + multiset(Select(staged, byPath, false)) == multiset(staged)
    ensures forall c | c in Select(staged, byPath, true) :: Anchorable(c, SideOf(c), byPath)
    ensures forall c | c in Select(staged, byPath, false) :: !Anchorable(c, SideOf(c), byPath)
  {
    PickedPartitions(staged, CanAnchor(byPath));
    PickedFits(staged, CanAnchor(byPath), true);
    PickedFits(staged, CanAnchor(byPath), false);
  }

  lemma {:induction false} PickedPartitions<T(!new)>(staged: seq<T>, p: T -> bool)
    ensures multiset(Picked(staged, p, true)) + multiset(Picked(staged, p, false)) == multiset(staged)
  {
    if staged != [] {
      var init, c := staged[..|staged| - 1], staged[|staged| - 1];
      PickedPartitions(init, p);
      assert staged == init + [c];
      PickedLast(staged, p, true);
      PickedLast(staged, p, false);
      PutIn(Picked(init, p, true), Picked(init, p, false), init, c);
    }
  }

  lemma PickedLast<T(!new)>(staged: seq<T>, p: T -> bool, want: bool)
    requires staged != []
    ensures var init, c := staged[..|staged| - 1], staged[|staged| - 1];
      Picked(staged, p, want) == if p(c) == want then Picked(init, p, want) + [c] else Picked(init, p, want)
  {
  }

  lemma PutIn<T>(a: seq<T>, b: seq<T>, s: seq<T>, c: T)
    requires multiset(a) + multiset(b) == multiset(s)
    ensures multiset(a + [c]) + multiset(b) == multiset(s + [c])
    ensures multiset(a) + multiset(b + [c]) == multiset(s + [c])
  {
    OneMoreElement(a, c);
    OneMoreElement(b, c);
    OneMoreElement(s, c);
  }

  lemma OneMoreElement<T>(s: seq<T>, c: T)
    ensures multiset(s + [c]) == multiset(s) + multiset{c}
  {
  }

  lemma {:induction false} PickedFits<T(!new)>(staged: seq<T>, p: T -> bool, want: bool)
    ensures forall c | c in Picked(staged, p, want) :: p(c) == want
  {
    if staged != [] { PickedFits(staged[..|staged| - 1], p, want); }
  }

  /** On a printed diff, a comment is posted exactly when every line it names is shown on its side. */
  lemma AnchorsToShownLines(c: Comment, byPath: map<string, string>, preamble: seq<string>, hunks: seq<Hunk>)
    requires GoodPreamble(preamble) && GoodHunks(hunks) && DiffLines(preamble, hunks) != []
    requires c.path in byPath && byPath[c.path] == Unlines(DiffLines(preamble, hunks))
    ensures var file := if c.side == [] || Upper(c.side) == "RIGHT" then NewFile(hunks) else OldFile(hunks);
      var side := if c.side == [] then "RIGHT" else Upper(c.side);
      Postable(c, byPath) <==>
        Shown(file, c.line)
        && (c.startLine.Some? ==> c.startSide == [] || Upper(c.startSide) == side)
        && (c.startLine.Some? ==> c.startLine.value <= c.line && Shown(file, c.startLine.value))
  {
    AnchorsExact(preamble, hunks, []);
    assert NewFile(hunks) + Hidden([]) == NewFile(hunks) && OldFile(hunks) + Hidden([]) == OldFile(hunks);
    assert Upper([]) == [];
    ShownIff(NewFile(hunks), c.line);
    ShownIff(OldFile(hunks), c.line);
    if c.startLine.Some? {
      ShownIff(NewFile(hunks), c.startLine.value);
      ShownIff(OldFile(hunks), c.startLine.value);
    }
    assert byPath[c.path] != [];
  }

  ghost predicate Shown(file: seq<Line>, n: int) { 1 <= n <= |file| && file[n - 1].shown }

  lemma ShownIff(file: seq<Line>, n: int)
    ensures IsIn(n, ShownNumbers(file)) <==> Shown(file, n)
  {
  }

  lemma UpperTwice(s: string)
    ensures Upper(Upper(s)) == Upper(s)
  {
  }
}
