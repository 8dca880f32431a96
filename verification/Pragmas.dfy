/** Slash commands in the body of an issue or a comment: lines that hold nothing else are commands, the rest is
    the body. */
module Pragmas {
  import opened Basics
  import opened Text

  type Pair = (string, string)

  /******* Words and lines *******/

  function WordLength(s: string): (n: nat)
    ensures n <= |s| && (forall i | 0 <= i < n :: !IsSpace(s[i])) && (n < |s| ==> IsSpace(s[n]))
  {
    if s == [] || IsSpace(s[0]) then 0 else 1 + WordLength(s[1..])
  }

  /** `s.split()`. */
  function Words(s: string): (words: seq<string>)
    ensures forall w | w in words :: w != []
  {
    if s == [] then []
    else if IsSpace(s[0]) then Words(s[1..])
    else [s[..WordLength(s)]] + Words(s[WordLength(s)..])
  }

  /** `"".join(lines)`. */
  function Joined(lines: seq<string>): string {
    if lines == [] then [] else lines[0] + Joined(lines[1..])
  }

  predicate IsCrOrNl(c: char) { c == '\r' || c == '\n' }

  /** `s.strip("\r\n")`. */
  function StripNewlines(s: string): string { DropStart(DropEnd(s, IsCrOrNl), IsCrOrNl) }

  /******* The parser *******/

  predicate IsKeyChar(c: char) {
    'a' <= c <= 'z' || 'A' <= c <= 'Z' || '0' <= c <= '9' || c == '_' || c == '-'
  }

  /** `_KEY_RE`, on ASCII. */
  predicate IsKey(s: string) {
    s != [] && ('a' <= s[0] <= 'z' || 'A' <= s[0] <= 'Z') && forall i | 0 <= i < |s| :: IsKeyChar(s[i])
  }

  function IndexOf(s: string, c: char): (n: nat)
    ensures n <= |s| && (forall i | 0 <= i < n :: s[i] != c) && (n < |s| ==> s[n] == c)
  {
    if s == [] || s[0] == c then 0 else 1 + IndexOf(s[1..], c)
  }

  predicate IsCommand(tok: string) { tok != [] && tok[0] == '/' }

  /** The pairs of a line of words, or None if a word is not part of a command. */
  function Pairs(tokens: seq<string>): (r: Option<seq<Pair>>)
    ensures r.Some? && tokens != [] ==> r.value != []
  {
    if tokens == [] then Some([])
    else
      var tok := tokens[0];
      if !IsCommand(tok) || |tok| < 2 then None
      else if '=' in tok then
        var n := IndexOf(tok, '=');
        var rest := Pairs(tokens[1..]);
        if !IsKey(tok[1..n]) || tok[n + 1..] == [] || rest.None? then None
        else Some([(Lower(tok[1..n]), tok[n + 1..])] + rest.value)
      else if !IsKey(tok[1..]) || |tokens| == 1 || IsCommand(tokens[1]) then None
      else
        var rest := Pairs(tokens[2..]);
        if rest.None? then None else Some([(Lower(tok[1..]), tokens[1])] + rest.value)
  }

  /** `_parse_command_line`. */
  function Command(line: string): Option<seq<Pair>> {
    var tokens := Words(line);
    if tokens == [] || !IsCommand(tokens[0]) then None else Pairs(tokens)
  }

  datatype Parsed = Parsed(body: string, pragmas: seq<Pair>)

  /** How a line is read. */
  type Reader = string -> Option<seq<Pair>>

  function Kept(lines: seq<string>, f: Reader): seq<string> {
    if lines == [] then [] else (if f(lines[0]).None? then [lines[0]] else []) + Kept(lines[1..], f)
  }

  function Found(lines: seq<string>, f: Reader): seq<Pair> {
    if lines == [] then [] else (var c := f(lines[0]); if c.None? then [] else c.value) + Found(lines[1..], f)
  }

  function ParseWith(body: string, f: Reader): Parsed {
    Parsed(StripNewlines(Joined(Kept(KeepLines(body), f))), Found(KeepLines(body), f))
  }

  function Parse(body: string): Parsed { ParseWith(body, Command) }

  /** `_parse_command_line`: the words, and the loop over them. */
  method ParseCommandLine(line: string) returns (r: Option<seq<Pair>>)
    ensures r == Command(line)
  {
    var tokens := Words(line);
    if tokens == [] || !IsCommand(tokens[0]) { return None; }
    r := ParseTokens(tokens);
  }

  method ParseTokens(tokens: seq<string>) returns (r: Option<seq<Pair>>)
    requires tokens != []
    ensures r == Pairs(tokens)
  {
    var pairs: seq<Pair> := [];
    var i := 0;
    assert tokens[0..] == tokens;
    ContinuedEmpty(Pairs(tokens));
    while i < |tokens|
      invariant 0 <= i <= |tokens|
      invariant Pairs(tokens) == Continued(pairs, Pairs(tokens[i..]))
    {
      var tok := tokens[i];
      PairsStep(tokens, i);
      if !IsCommand(tok) || |tok| < 2 { return None; }
      if '=' in tok {
        var n := IndexOf(tok, '=');
        if !IsKey(tok[1..n]) || tok[n + 1..] == [] { return None; }
        ContinuedStep(pairs, (Lower(tok[1..n]), tok[n + 1..]), Pairs(tokens[i + 1..]));
        pairs := pairs + [(Lower(tok[1..n]), tok[n + 1..])];
        i := i + 1;
        continue;
      }
      if !IsKey(tok[1..]) { return None; }
      if i + 1 >= |tokens| || IsCommand(tokens[i + 1]) { return None; }
      ContinuedStep(pairs, (Lower(tok[1..]), tokens[i + 1]), Pairs(tokens[i + 2..]));
      pairs := pairs + [(Lower(tok[1..]), tokens[i + 1])];
      i := i + 2;
    }
    assert tokens[i..] == [] && pairs + [] == pairs;
    r := if pairs == [] then None else Some(pairs);
  }

  function Continued(pairs: seq<Pair>, rest: Option<seq<Pair>>): Option<seq<Pair>> {
    if rest.None? then None else Some(pairs + rest.value)
  }

  lemma ContinuedEmpty(rest: Option<seq<Pair>>)
    ensures Continued([], rest) == rest
  {
    if rest.Some? { assert [] + rest.value == rest.value; }
  }

  lemma ContinuedStep(pairs: seq<Pair>, p: Pair, rest: Option<seq<Pair>>)
    ensures Continued(pairs, if rest.None? then None else Some([p] + rest.value)) == Continued(pairs + [p], rest)
  {
    if rest.Some? { assert pairs + ([p] + rest.value) == pairs + [p] + rest.value; }
  }

  /** `parse_pragmas`. */
  method ParsePragmas(body: string) returns (cleaned: string, found: seq<Pair>)
    ensures Parsed(cleaned, found) == Parse(body)
  {
    var kept: seq<string>;
    kept, found := SortLines(KeepLines(body));
    cleaned := StripNewlines(Joined(kept));
  }

  method SortLines(lines: seq<string>) returns (kept: seq<string>, found: seq<Pair>)
    ensures kept == Kept(lines, Command) && found == Found(lines, Command)
  {
    kept, found := [], [];
    for i := 0 to |lines|
      invariant kept + Kept(lines[i..], Command) == Kept(lines, Command)
      invariant found + Found(lines[i..], Command) == Found(lines, Command)
    {
      var bare := DropEnd(lines[i], IsCrOrNl);
      CommandWithoutEnd(lines[i]);
      SortStep(lines, i, kept, found, Command);
      var commands := ParseCommandLine(bare);
      if commands.None? {
        kept := kept + [lines[i]];
      } else {
        found := found + commands.value;
      }
    }
    assert lines[|lines|..] == [];
  }

  lemma SortStep(lines: seq<string>, i: nat, kept: seq<string>, found: seq<Pair>, f: Reader)
    requires i < |lines|
    ensures kept + Kept(lines[i..], f) ==
      (if f(lines[i]).None? then kept + [lines[i]] else kept) + Kept(lines[i + 1..], f)
    ensures found + Found(lines[i..], f) ==
      (if f(lines[i]).None? then found else found + f(lines[i]).value) + Found(lines[i + 1..], f)
  {
  }

  lemma SortHead(lines: seq<string>, f: Reader)
    requires lines != []
    ensures Kept(lines, f) == (if f(lines[0]).None? then [lines[0]] else []) + Kept(lines[1..], f)
    ensures Found(lines, f) == (if f(lines[0]).None? then [] else f(lines[0]).value) + Found(lines[1..], f)
  {
  }

  lemma CommandWithoutEnd(line: string)
    ensures Command(DropEnd(line, IsCrOrNl)) == Command(line)
  {
    WordsWithoutEnd(line);
  }

  lemma PairsStep(tokens: seq<string>, i: nat)
    requires i < |tokens|
    ensures tokens[i..][0] == tokens[i] && tokens[i..][1..] == tokens[i + 1..]
    ensures i + 1 < |tokens| ==> tokens[i..][1] == tokens[i + 1] && tokens[i..][2..] == tokens[i + 2..]
  {
  }

  /******* Words do not see line breaks at the end *******/

  lemma {:induction false} WordsBlank(b: string)
    requires forall i | 0 <= i < |b| :: IsSpace(b[i])
    ensures Words(b) == []
  {
    if b != [] { WordsBlank(b[1..]); }
  }

  lemma {:induction false} WordsTrailing(s: string, b: string)
    requires forall i | 0 <= i < |b| :: IsSpace(b[i])
    ensures Words(s + b) == Words(s)
  {
    var t := s + b;
    if s == [] {
      assert t == b;
      WordsBlank(b);
    } else if IsSpace(s[0]) {
      assert t[1..] == s[1..] + b;
      WordsTrailing(s[1..], b);
    } else if t != [] {
      var n := WordLength(s);
      WordLengthIs(t, n);
      assert t[..n] == s[..n] && t[n..] == s[n..] + b;
      WordsTrailing(s[n..], b);
    }
  }

  lemma WordLengthIs(s: string, n: nat)
    requires n <= |s| && (forall i | 0 <= i < n :: !IsSpace(s[i])) && (n < |s| ==> IsSpace(s[n]))
    ensures WordLength(s) == n
  {
  }

  lemma WordsWithoutEnd(line: string)
    ensures Words(DropEnd(line, IsCrOrNl)) == Words(line)
  {
    var bare := DropEnd(line, IsCrOrNl);
    assert line == bare + line[|bare|..];
    WordsTrailing(bare, line[|bare|..]);
  }

  /******* Lines *******/

  lemma {:induction false} JoinedKeepLines(s: string)
    ensures Joined(KeepLines(s)) == s
  {
    if s != [] { JoinedKeepLines(s[LineLength(s)..]); }
  }

  /** No line is a command. */
  ghost predicate NoCommands(s: string, f: Reader)
    decreases |s|
  {
    s == [] || (f(s[..LineLength(s)]).None? && NoCommands(s[LineLength(s)..], f))
  }

  lemma {:induction false} NoCommandsParse(s: string, f: Reader)
    requires NoCommands(s, f)
    ensures Kept(KeepLines(s), f) == KeepLines(s) && Found(KeepLines(s), f) == []
    ensures ParseWith(s, f) == Parsed(StripNewlines(s), [])
  {
    if s != [] {
      NoCommandsParse(s[LineLength(s)..], f);
    }
    JoinedKeepLines(s);
  }

  predicate AllSpace(b: string) { forall i | 0 <= i < |b| :: IsSpace(b[i]) }

  /** The reader does not see white space at the end of a line, nor in a blank one. */
  ghost predicate Insensitive(f: Reader) {
    (forall s, b | AllSpace(b) :: f(s + b) == f(s)) && forall b | AllSpace(b) :: f(b).None?
  }

  lemma CommandInsensitive()
    ensures Insensitive(Command)
  {
    forall s, b | AllSpace(b) ensures Command(s + b) == Command(s) { WordsTrailing(s, b); }
    forall b | AllSpace(b) ensures Command(b).None? { WordsBlank(b); }
  }

  lemma NoCommandsHead(s: string, m: nat, f: Reader)
    requires s != [] && LineLength(s) == m
    ensures NoCommands(s, f) <==> f(s[..m]).None? && NoCommands(s[m..], f)
  {
  }

  /** A newline or carriage return in front of a text adds no command, nor does taking one away. */
  lemma NoCommandsFront(c: char, t: string, f: Reader)
    requires Insensitive(f) && IsCrOrNl(c) && NoCommands([c] + t, f)
    ensures NoCommands(t, f)
  {
    var s := [c] + t;
    FirstBreakIs(s, 0);
    var m := LineLength(s);
    NoCommandsHead(s, m, f);
    if m == 1 {
      assert s[1..] == t;
    } else {
      assert s[2..] == t[1..];
      FirstBreakIs(t, 0);
      NoCommandsHead(t, 1, f);
      assert AllSpace(t[..1]);
    }
  }

  lemma NoCommandsFrontNewline(t: string, f: Reader)
    requires Insensitive(f) && NoCommands(['\n'] + t, f)
    ensures NoCommands(t, f)
  {
  }

  lemma {:induction false} NoCommandsBack(t: string, c: char, f: Reader)
    requires Insensitive(f) && IsCrOrNl(c) && NoCommands(t + [c], f)
    ensures NoCommands(t, f)
    decreases |t|
  {
    if t != [] {
      var m := LineLength(t);
      if !IsLineBreak(t[m - 1]) || (m == |t| && Merges(t, [c])) {
        OneLineBack(t, c, f);
      } else {
        FirstLineBack(t, c, m, f);
        NoCommandsBack(t[m..], c, f);
        NoCommandsHead(t, m, f);
      }
    }
  }

  /** The text is one line, and c belongs to it. */
  lemma OneLineBack(t: string, c: char, f: Reader)
    requires Insensitive(f) && t != [] && IsCrOrNl(c) && NoCommands(t + [c], f)
    requires !IsLineBreak(t[LineLength(t) - 1]) || (LineLength(t) == |t| && Merges(t, [c]))
    ensures NoCommands(t, f)
  {
    OneLineLength(t, c);
    NoCommandsOne(t + [c], f);
    assert AllSpace([c]) && f(t + [c]) == f(t);
    NoCommandsOne(t, f);
  }

  lemma NoCommandsOne(t: string, f: Reader)
    requires t != [] && LineLength(t) == |t|
    ensures NoCommands(t, f) <==> f(t).None?
  {
    assert t[..|t|] == t && t[|t|..] == [];
    NoCommandsHead(t, |t|, f);
  }

  lemma OneLineLength(t: string, c: char)
    requires t != [] && IsCrOrNl(c)
    requires !IsLineBreak(t[LineLength(t) - 1]) || (LineLength(t) == |t| && Merges(t, [c]))
    ensures LineLength(t) == |t| && LineLength(t + [c]) == |t| + 1
  {
  }

  lemma FirstLineBack(t: string, c: char, m: nat, f: Reader)
    requires t != [] && IsCrOrNl(c) && NoCommands(t + [c], f) && LineLength(t) == m && IsLineBreak(t[m - 1])
    requires !(m == |t| && Merges(t, [c]))
    ensures f(t[..m]).None? && NoCommands(t[m..] + [c], f)
  {
    FirstLineStays(t, c, m);
    NoCommandsHead(t + [c], m, f);
  }

  lemma FirstLineStays(t: string, c: char, m: nat)
    requires t != [] && LineLength(t) == m && IsLineBreak(t[m - 1]) && !(m == |t| && Merges(t, [c]))
    ensures var s := t + [c]; LineLength(s) == m && s[..m] == t[..m] && s[m..] == t[m..] + [c]
  {
    FirstBreakIs(t + [c], FirstBreak(t));
  }

  lemma {:induction false} NoCommandsStripped(s: string, f: Reader)
    requires Insensitive(f) && NoCommands(s, f)
    ensures NoCommands(StripNewlines(s), f)
  {
    NoCommandsDropEnd(s, f);
    NoCommandsDropStart(DropEnd(s, IsCrOrNl), f);
  }

  lemma {:induction false} NoCommandsDropEnd(s: string, f: Reader)
    requires Insensitive(f) && NoCommands(s, f)
    ensures NoCommands(DropEnd(s, IsCrOrNl), f)
    decreases |s|
  {
    if s != [] && IsCrOrNl(s[|s| - 1]) {
      assert s == s[..|s| - 1] + [s[|s| - 1]];
      NoCommandsBack(s[..|s| - 1], s[|s| - 1], f);
      NoCommandsDropEnd(s[..|s| - 1], f);
    }
  }

  lemma {:induction false} NoCommandsDropStart(s: string, f: Reader)
    requires Insensitive(f) && NoCommands(s, f)
    ensures NoCommands(DropStart(s, IsCrOrNl), f)
    decreases |s|
  {
    if s != [] && IsCrOrNl(s[0]) {
      assert s == [s[0]] + s[1..];
      NoCommandsFront(s[0], s[1..], f);
      NoCommandsDropStart(s[1..], f);
    }
  }

  /******* Parsing what was parsed *******/

  /** Lines as they come from a text: each with its break, but for the last one. */
  ghost predicate AreLines(lines: seq<string>) {
    forall i | 0 <= i < |lines| :: lines[i] != [] && LineLength(lines[i]) == |lines[i]|
      && (i < |lines| - 1 ==> IsLineBreak(lines[i][|lines[i]| - 1]))
  }

  lemma {:induction false} KeepLinesAreLines(s: string)
    ensures AreLines(KeepLines(s))
  {
    if s != [] {
      var m := LineLength(s);
      KeepLinesAreLines(s[m..]);
      FirstLineAlone(s, m);
      var rest := KeepLines(s[m..]);
      assert KeepLines(s) == [s[..m]] + rest;
      assert rest != [] ==> m < |s|;
    }
  }

  lemma FirstLineAlone(s: string, m: nat)
    requires s != [] && LineLength(s) == m
    ensures LineLength(s[..m]) == m && (m < |s| ==> IsLineBreak(s[m - 1]))
  {
  }

  lemma {:induction false} KeptAreLines(lines: seq<string>, f: Reader)
    requires AreLines(lines)
    ensures AreLines(Kept(lines, f)) && (|Kept(lines, f)| > 0 ==> |lines| > 0)
    ensures forall i | 0 <= i < |Kept(lines, f)| :: f(Kept(lines, f)[i]).None?
  {
    if lines != [] {
      assert forall i | 0 <= i < |lines[1..]| :: lines[1..][i] == lines[i + 1];
      KeptAreLines(lines[1..], f);
      SortHead(lines, f);
      if f(lines[0]).None? { LinesMore(lines[0], Kept(lines[1..], f)); }
    }
  }

  lemma LinesMore(line: string, rest: seq<string>)
    requires AreLines(rest) && line != [] && LineLength(line) == |line|
    requires rest != [] ==> IsLineBreak(line[|line| - 1])
    ensures AreLines([line] + rest)
  {
  }

  /** Joining lines that are no commands makes no command, even where two line breaks become one. */
  lemma {:induction false} JoinedNoCommands(lines: seq<string>, f: Reader)
    requires Insensitive(f) && AreLines(lines) && forall i | 0 <= i < |lines| :: f(lines[i]).None?
    ensures NoCommands(Joined(lines), f)
  {
    if lines != [] {
      assert forall i | 0 <= i < |lines[1..]| :: lines[1..][i] == lines[i + 1];
      JoinedNoCommands(lines[1..], f);
      var a, b := lines[0], Joined(lines[1..]);
      if |lines| == 1 {
        assert a + b == a && a[..|a|] == a && a[|a|..] == [];
        NoCommandsHead(a, |a|, f);
      } else {
        NoCommandsConcat(a, b, f);
      }
    }
  }

  lemma NoCommandsConcat(a: string, b: string, f: Reader)
    requires Insensitive(f) && a != [] && LineLength(a) == |a| && IsLineBreak(a[|a| - 1])
    requires f(a).None? && NoCommands(b, f)
    ensures NoCommands(a + b, f)
  {
    FirstLineIs(a, b);
    if Merges(a, b) {
      MergedConcat(a, b, b[1..], f);
    } else {
      assert (a + b)[..|a|] == a && (a + b)[|a|..] == b;
      NoCommandsHead(a + b, |a|, f);
    }
  }

  lemma MergedConcat(a: string, b: string, t: string, f: Reader)
    requires Insensitive(f) && f(a).None? && NoCommands(b, f) && b == ['\n'] + t
    requires LineLength(a + b) == |a| + 1
    ensures NoCommands(a + b, f)
  {
    assert (a + b)[..|a| + 1] == a + ['\n'] && (a + b)[|a| + 1..] == t;
    assert AllSpace(['\n']) && f(a + ['\n']) == f(a);
    NoCommandsFrontNewline(t, f);
    NoCommandsHead(a + b, |a| + 1, f);
  }

  lemma {:induction false} StripTwice(s: string)
    ensures StripNewlines(StripNewlines(s)) == StripNewlines(s)
  {
  }

  lemma ParseTwiceWith(body: string, f: Reader)
    requires Insensitive(f)
    ensures ParseWith(ParseWith(body, f).body, f) == Parsed(ParseWith(body, f).body, [])
  {
    var lines := KeepLines(body);
    KeepLinesAreLines(body);
    KeptAreLines(lines, f);
    JoinedNoCommands(Kept(lines, f), f);
    NoCommandsStripped(Joined(Kept(lines, f)), f);
    NoCommandsParse(ParseWith(body, f).body, f);
    StripTwice(Joined(Kept(lines, f)));
  }

  /** Parsing a cleaned body finds nothing and changes nothing. */
  lemma ParseTwice(body: string)
    ensures Parse(Parse(body).body) == Parsed(Parse(body).body, [])
  {
    CommandInsensitive();
    ParseTwiceWith(body, Command);
  }

  /******* Printing and parsing *******/

  predicate IsLowerKey(k: string) { IsKey(k) && Lower(k) == k }

  /** A pair that a command can say: a lower-case key, and a value that is one word. */
  predicate Sayable(p: Pair) {
    IsLowerKey(p.0) && p.1 != [] && forall i | 0 <= i < |p.1| :: !IsSpace(p.1[i])
  }

  function PrintOne(p: Pair): string { ['/'] + p.0 + ['='] + p.1 }

  lemma PrintedWord(p: Pair)
    requires Sayable(p)
    ensures forall i | 0 <= i < |PrintOne(p)| :: !IsSpace(PrintOne(p)[i])
  {
  }

  lemma PrintedCommand(p: Pair)
    requires Sayable(p)
    ensures Command(PrintOne(p) + ['\n']) == Some([p])
  {
    var tok := PrintOne(p);
    PrintedWord(p);
    WordsTrailing(tok, ['\n']);
    OneWord(tok);
    PairsOfOne(p, tok);
  }

  lemma OneWord(tok: string)
    requires tok != [] && forall i | 0 <= i < |tok| :: !IsSpace(tok[i])
    ensures Words(tok) == [tok]
  {
    WordLengthIs(tok, |tok|);
    assert tok[..|tok|] == tok && tok[|tok|..] == [];
  }

  lemma PairsOfOne(p: Pair, tok: string)
    requires Sayable(p) && tok == PrintOne(p)
    ensures Pairs([tok]) == Some([p])
  {
    var n := |p.0| + 1;
    assert forall i | 0 <= i < n :: tok[i] != '=';
    IndexOfIs(tok, '=', n);
    assert tok[n] in tok && tok[1..n] == p.0 && tok[n + 1..] == p.1;
    assert [tok][1..] == [] && [p] + [] == [p];
  }

  lemma {:induction false} IndexOfIs(s: string, c: char, n: nat)
    requires n < |s| && s[n] == c && forall i | 0 <= i < n :: s[i] != c
    ensures IndexOf(s, c) == n
  {
  }

  /** A line that ends in a newline, and only there. */
  predicate WholeLine(line: string) {
    line != [] && line[|line| - 1] == '\n' && LineLength(line) == |line|
  }

  lemma PrintedLine(p: Pair)
    requires Sayable(p)
    ensures WholeLine(PrintOne(p) + ['\n'])
  {
  }

  lemma WholeLineFirst(line: string, rest: string)
    requires WholeLine(line)
    ensures KeepLines(line + rest) == [line] + KeepLines(rest)
  {
    FirstLineIs(line, rest);
    assert (line + rest)[..|line|] == line && (line + rest)[|line|..] == rest;
  }

  predicate WholeLines(lines: seq<string>) {
    lines == [] || (WholeLine(lines[0]) && WholeLines(lines[1..]))
  }

  lemma {:induction false} KeepLinesJoined(lines: seq<string>, body: string)
    requires WholeLines(lines)
    ensures KeepLines(Joined(lines) + body) == lines + KeepLines(body)
  {
    if lines == [] {
      assert Joined(lines) + body == body;
    } else {
      KeepLinesJoined(lines[1..], body);
      KeepLinesMore(lines[0], Joined(lines[1..]) + body, lines[1..], KeepLines(body));
      JoinedHead(lines[0], lines[1..], body);
      assert lines == [lines[0]] + lines[1..];
    }
  }

  lemma KeepLinesMore(line: string, tail: string, rest: seq<string>, more: seq<string>)
    requires WholeLine(line) && KeepLines(tail) == rest + more
    ensures KeepLines(line + tail) == [line] + rest + more
  {
    WholeLineFirst(line, tail);
    assert [line] + rest + more == [line] + (rest + more);
  }

  lemma JoinedHead(line: string, rest: seq<string>, body: string)
    ensures Joined([line] + rest) + body == line + (Joined(rest) + body)
  {
  }

  lemma {:induction false} CommandLines(lines: seq<string>, pairs: seq<Pair>, rest: seq<string>, f: Reader)
    requires |lines| == |pairs| && forall i | 0 <= i < |lines| :: f(lines[i]) == Some([pairs[i]])
    ensures Kept(lines + rest, f) == Kept(rest, f) && Found(lines + rest, f) == pairs + Found(rest, f)
  {
    if lines == [] {
      assert lines + rest == rest && pairs + Found(rest, f) == Found(rest, f);
    } else {
      CommandLines(lines[1..], pairs[1..], rest, f);
      assert (lines + rest)[0] == lines[0] && (lines + rest)[1..] == lines[1..] + rest;
      SortHead(lines + rest, f);
      assert pairs + Found(rest, f) == [pairs[0]] + (pairs[1..] + Found(rest, f));
    }
  }

  /** The commands as lines. */
  function Print(pairs: seq<Pair>): seq<string> {
    if pairs == [] then [] else [PrintOne(pairs[0]) + ['\n']] + Print(pairs[1..])
  }

  lemma {:induction false} PrintedLines(pairs: seq<Pair>)
    requires forall i | 0 <= i < |pairs| :: Sayable(pairs[i])
    ensures WholeLines(Print(pairs)) && |Print(pairs)| == |pairs|
    ensures forall i | 0 <= i < |pairs| :: Command(Print(pairs)[i]) == Some([pairs[i]])
  {
    if pairs != [] {
      PrintedLine(pairs[0]);
      PrintedCommand(pairs[0]);
      PrintedLines(pairs[1..]);
      var line, rest := PrintOne(pairs[0]) + ['\n'], Print(pairs[1..]);
      assert Print(pairs) == [line] + rest && ([line] + rest)[1..] == rest;
    }
  }

  /** Pragmas printed above a body without commands are read back, in order, with the body. */
  lemma PrintParse(pairs: seq<Pair>, body: string)
    requires forall i | 0 <= i < |pairs| :: Sayable(pairs[i])
    requires NoCommands(body, Command)
    ensures Parse(Joined(Print(pairs)) + body) == Parsed(StripNewlines(body), pairs)
  {
    PrintedLines(pairs);
    KeepLinesJoined(Print(pairs), body);
    PrintParseWith(Print(pairs), pairs, body, Joined(Print(pairs)) + body, Command);
  }

  lemma PrintParseWith(lines: seq<string>, pairs: seq<Pair>, body: string, text: string, f: Reader)
    requires |lines| == |pairs| && forall i | 0 <= i < |lines| :: f(lines[i]) == Some([pairs[i]])
    requires NoCommands(body, f) && KeepLines(text) == lines + KeepLines(body)
    ensures ParseWith(text, f) == Parsed(StripNewlines(body), pairs)
  {
    NoCommandsParse(body, f);
    CommandLines(lines, pairs, KeepLines(body), f);
    JoinedKeepLines(body);
    assert pairs + [] == pairs;
  }
}
