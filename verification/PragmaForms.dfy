/** Which words are commands, in both of their forms, and what a text with lines of commands anywhere is read as. */
module PragmaForms {
  import opened Basics
  import opened Text
  import opened Pragmas

  /** A command as it is written: `/key=value`, or `/key` and then the value as the next word. */
  datatype Said = WithEquals(key: string, value: string) | WithSpace(key: string, value: string)

  predicate Good(c: Said) {
    IsKey(c.key) && c.value != [] && (c.WithSpace? ==> c.value[0] != '/')
  }

  predicate AllGood(cs: seq<Said>) { forall c | c in cs :: Good(c) }

  function TokensOf(c: Said): seq<string> {
    if c.WithEquals? then [['/'] + c.key + ['='] + c.value] else [['/'] + c.key, c.value]
  }

  function Tokens(cs: seq<Said>): seq<string> {
    if cs == [] then [] else TokensOf(cs[0]) + Tokens(cs[1..])
  }

  /** Keys are read in lower case. */
  function Meaning(cs: seq<Said>): seq<Pair> {
    if cs == [] then [] else [(Lower(cs[0].key), cs[0].value)] + Meaning(cs[1..])
  }

  /******* Words *******/

  lemma EqualsToken(c: Said)
    requires Good(c) && c.WithEquals?
    ensures var tok := TokensOf(c)[0]; var n := IndexOf(tok, '=');
      IsCommand(tok) && |tok| >= 2 && '=' in tok && tok[1..n] == c.key && tok[n + 1..] == c.value
  {
    var tok, n := TokensOf(c)[0], |c.key| + 1;
    assert forall i | 0 <= i < n :: tok[i] != '=';
    IndexOfIs(tok, '=', n);
    assert tok[n] in tok;
  }

  lemma SpaceToken(c: Said)
    requires Good(c) && c.WithSpace?
    ensures var tok := TokensOf(c)[0]; IsCommand(tok) && |tok| >= 2 && '=' !in tok && tok[1..] == c.key
    ensures !IsCommand(c.value)
  {
  }

  lemma ReadsOne(c: Said, rest: seq<string>)
    requires Good(c)
    ensures Pairs(TokensOf(c) + rest)
      == if Pairs(rest).None? then None else Some([(Lower(c.key), c.value)] + Pairs(rest).value)
  {
    var tokens := TokensOf(c) + rest;
    assert tokens[0] == TokensOf(c)[0];
    if c.WithEquals? {
      EqualsToken(c);
      assert tokens[1..] == rest;
    } else {
      SpaceToken(c);
      assert tokens[1] == c.value && tokens[2..] == rest;
    }
  }

  lemma {:induction false} ReadsAll(cs: seq<Said>)
    requires AllGood(cs)
    ensures Pairs(Tokens(cs)) == Some(Meaning(cs))
  {
    if cs != [] {
      assert cs[0] in cs && forall c | c in cs[1..] :: c in cs;
      ReadsAll(cs[1..]);
      ReadsOne(cs[0], Tokens(cs[1..]));
    }
  }

  /** The first command of words that are commands. */
  function FirstSaid(tokens: seq<string>): Said
    requires Pairs(tokens).Some? && tokens != []
  {
    var tok := tokens[0];
    if '=' in tok then WithEquals(tok[1..IndexOf(tok, '=')], tok[IndexOf(tok, '=') + 1..])
    else WithSpace(tok[1..], tokens[1])
  }

  lemma FirstIsGood(tokens: seq<string>)
    requires Pairs(tokens).Some? && tokens != [] && [] !in tokens
    ensures var c := FirstSaid(tokens); var rest := tokens[|TokensOf(c)|..];
      Good(c) && |TokensOf(c)| <= |tokens| && tokens == TokensOf(c) + rest && |rest| < |tokens|
      && Pairs(rest).Some? && Pairs(tokens).value == [(Lower(c.key), c.value)] + Pairs(rest).value
  {
    var tok, c := tokens[0], FirstSaid(tokens);
    if '=' in tok {
      var n := IndexOf(tok, '=');
      assert tok == ['/'] + tok[1..n] + ['='] + tok[n + 1..];
    } else {
      assert tok == ['/'] + tok[1..];
    }
  }

  lemma {:induction false} WasSaid(tokens: seq<string>) returns (cs: seq<Said>)
    requires Pairs(tokens).Some? && [] !in tokens
    ensures AllGood(cs) && tokens == Tokens(cs) && Pairs(tokens).value == Meaning(cs)
    decreases |tokens|
  {
    if tokens == [] {
      cs := [];
    } else {
      var c := FirstSaid(tokens);
      FirstIsGood(tokens);
      var rest := WasSaid(tokens[|TokensOf(c)|..]);
      cs := [c] + rest;
      assert cs[1..] == rest;
    }
  }

  /** Words are read as pairs exactly when they are commands, in either form and nothing else, and then as the pairs
      they say. */
  lemma PairsIff(tokens: seq<string>, pairs: seq<Pair>)
    requires [] !in tokens
    ensures Pairs(tokens) == Some(pairs) <==>
      exists cs :: AllGood(cs) && tokens == Tokens(cs) && pairs == Meaning(cs)
  {
    if Pairs(tokens) == Some(pairs) {
      var cs := WasSaid(tokens);
    }
    if cs :| AllGood(cs) && tokens == Tokens(cs) && pairs == Meaning(cs) { ReadsAll(cs); }
  }

  /** A line is read as pairs exactly when its words are commands. */
  lemma CommandIff(line: string, pairs: seq<Pair>)
    ensures Command(line) == Some(pairs) <==>
      exists cs :: cs != [] && AllGood(cs) && Words(line) == Tokens(cs) && pairs == Meaning(cs)
  {
    if Command(line) == Some(pairs) {
      var cs := WasSaid(Words(line));
      assert cs != [];
    }
    if cs :| cs != [] && AllGood(cs) && Words(line) == Tokens(cs) && pairs == Meaning(cs) { SaidLine(line, cs); }
  }

  lemma SaidLine(line: string, cs: seq<Said>)
    requires cs != [] && AllGood(cs) && Words(line) == Tokens(cs)
    ensures Command(line) == Some(Meaning(cs))
  {
    ReadsAll(cs);
    assert cs[0] in cs && Tokens(cs)[0] == TokensOf(cs[0])[0];
    if cs[0].WithEquals? { EqualsToken(cs[0]); } else { SpaceToken(cs[0]); }
  }

  /******* Words of a line *******/

  predicate IsWord(w: string) { w != [] && forall i | 0 <= i < |w| :: !IsSpace(w[i]) }

  predicate IsGap(g: string) { forall i | 0 <= i < |g| :: IsSpace(g[i]) }

  /** The words, each with white space before it. */
  function Spread(ws: seq<string>, gaps: seq<string>): string
    requires |gaps| == |ws|
  {
    if ws == [] then [] else gaps[0] + ws[0] + Spread(ws[1..], gaps[1..])
  }

  /** Words with white space between them, and perhaps before and behind, are read back. */
  lemma {:induction false} WordsBack(ws: seq<string>, gaps: seq<string>, end: string)
    requires |gaps| == |ws| && IsGap(end) && forall w | w in ws :: IsWord(w)
    requires forall i | 0 <= i < |gaps| :: IsGap(gaps[i]) && (i > 0 ==> gaps[i] != [])
    ensures Words(Spread(ws, gaps) + end) == ws
  {
    if ws == [] {
      WordsBlank(end);
      assert Spread(ws, gaps) + end == end;
    } else {
      var w, tail := ws[0], Spread(ws[1..], gaps[1..]);
      assert w in ws && forall v | v in ws[1..] :: v in ws;
      WordsBack(ws[1..], gaps[1..], end);
      SpreadGap(ws[1..], gaps[1..], end);
      WordBehindGap(gaps[0], w, tail, end);
      assert ws == [w] + ws[1..];
    }
  }

  lemma WordBehindGap(gap: string, w: string, tail: string, end: string)
    requires IsGap(gap) && IsWord(w) && (tail + end != [] ==> IsSpace((tail + end)[0]))
    ensures Words(gap + w + tail + end) == [w] + Words(tail + end)
  {
    FirstWord(w, tail + end);
    GapSkipped(gap, w + (tail + end));
    Regroup(gap, w, tail, end);
  }

  lemma Regroup<T>(a: seq<T>, b: seq<T>, c: seq<T>, d: seq<T>)
    ensures a + b + c + d == a + (b + (c + d))
  {
  }

  lemma SpreadGap(ws: seq<string>, gaps: seq<string>, end: string)
    requires |gaps| == |ws| && IsGap(end) && (ws != [] ==> IsGap(gaps[0]) && gaps[0] != [])
    ensures var s := Spread(ws, gaps) + end; s != [] ==> IsSpace(s[0])
  {
    if ws != [] { assert (Spread(ws, gaps) + end)[0] == gaps[0][0]; }
  }

  lemma FirstWord(w: string, rest: string)
    requires IsWord(w) && (rest != [] ==> IsSpace(rest[0]))
    ensures Words(w + rest) == [w] + Words(rest)
  {
    var s := w + rest;
    WordLengthIs(s, |w|);
    assert s[..|w|] == w && s[|w|..] == rest;
  }

  lemma {:induction false} GapSkipped(g: string, s: string)
    requires IsGap(g)
    ensures Words(g + s) == Words(s)
  {
    if g == [] {
      assert g + s == s;
    } else {
      assert (g + s)[1..] == g[1..] + s;
      GapSkipped(g[1..], s);
    }
  }

  /******* Texts *******/

  function AllMeanings(groups: seq<seq<Said>>): seq<Pair> {
    if groups == [] then [] else Meaning(groups[0]) + AllMeanings(groups[1..])
  }

  /** Line i says the commands of group i. */
  predicate Says(lines: seq<string>, groups: seq<seq<Said>>) {
    |lines| == |groups|
    && forall i | 0 <= i < |lines| :: groups[i] != [] && AllGood(groups[i]) && Words(lines[i]) == Tokens(groups[i])
  }

  lemma {:induction false} GroupsFound(lines: seq<string>, groups: seq<seq<Said>>, rest: seq<string>)
    requires Says(lines, groups)
    ensures Kept(lines + rest, Command) == Kept(rest, Command)
    ensures Found(lines + rest, Command) == AllMeanings(groups) + Found(rest, Command)
  {
    if lines == [] {
      assert lines + rest == rest && AllMeanings(groups) + Found(rest, Command) == Found(rest, Command);
    } else {
      assert forall i | 0 <= i < |lines[1..]| :: lines[1..][i] == lines[i + 1] && groups[1..][i] == groups[i + 1];
      GroupsFound(lines[1..], groups[1..], rest);
      SaidLine(lines[0], groups[0]);
      OneLineFound(lines[0], lines[1..], rest, Meaning(groups[0]), AllMeanings(groups[1..]), Command);
      assert lines == [lines[0]] + lines[1..];
    }
  }

  lemma OneLineFound(line: string, lines: seq<string>, rest: seq<string>, here: seq<Pair>, later: seq<Pair>, f: Reader)
    requires f(line) == Some(here)
    requires Found(lines + rest, f) == later + Found(rest, f)
    ensures Kept([line] + lines + rest, f) == Kept(lines + rest, f)
    ensures Found([line] + lines + rest, f) == here + later + Found(rest, f)
  {
    var all := [line] + lines + rest;
    assert all == [line] + (lines + rest) && all[0] == line && all[1..] == lines + rest;
    SortHead(all, f);
    assert here + (later + Found(rest, f)) == here + later + Found(rest, f);
  }

  lemma {:induction false} PlainKept(lines: seq<string>, rest: seq<string>, f: Reader)
    requires forall i | 0 <= i < |lines| :: f(lines[i]).None?
    ensures Kept(lines + rest, f) == lines + Kept(rest, f)
    ensures Found(lines + rest, f) == Found(rest, f)
  {
    if lines == [] {
      assert lines + rest == rest && lines + Kept(rest, f) == Kept(rest, f);
    } else {
      PlainKept(lines[1..], rest, f);
      var all := lines + rest;
      assert all[0] == lines[0] && all[1..] == lines[1..] + rest;
      SortHead(all, f);
      assert [lines[0]] + (lines[1..] + Kept(rest, f)) == lines + Kept(rest, f);
    }
  }

  lemma {:induction false} JoinedConcat(a: seq<string>, b: seq<string>)
    ensures Joined(a + b) == Joined(a) + Joined(b)
  {
    if a == [] {
      assert a + b == b;
    } else {
      assert (a + b)[0] == a[0] && (a + b)[1..] == a[1..] + b;
      JoinedConcat(a[1..], b);
    }
  }

  /**
   Lines of commands, in either form and any number on a line, between text that has none: they are read in order, and
   the body is the text without them.
   */
  lemma SaidParse(above: seq<string>, lines: seq<string>, groups: seq<seq<Said>>, below: string)
    requires WholeLines(above) && forall i | 0 <= i < |above| :: Command(above[i]).None?
    requires WholeLines(lines) && Says(lines, groups) && NoCommands(below, Command)
    ensures Parse(Joined(above) + (Joined(lines) + below))
      == Parsed(StripNewlines(Joined(above) + below), AllMeanings(groups))
  {
    GroupsFound(lines, groups, KeepLines(below));
    BetweenText(above, lines, AllMeanings(groups), below, Command);
  }

  /** `strip("\r\n")`: what goes is carriage returns and newlines at both ends, and none is left there. */
  lemma StrippedText(s: string) returns (front: string, end: string)
    ensures s == front + StripNewlines(s) + end && AllAre(front, IsCrOrNl) && AllAre(end, IsCrOrNl)
    ensures var r := StripNewlines(s); r != [] ==> !IsCrOrNl(r[0]) && !IsCrOrNl(r[|r| - 1])
  {
    front, end := StrippedEnds(s, IsCrOrNl);
  }

  /** Lower case does not see the case of a key, and changes only capital letters. */
  lemma LowerIs(s: string)
    ensures |Lower(s)| == |s| && Lower(Upper(s)) == Lower(s)
    ensures forall i | 0 <= i < |s| :: !('A' <= Lower(s)[i] <= 'Z') && (!('A' <= s[i] <= 'Z') ==> Lower(s)[i] == s[i])
  {
  }

  lemma BetweenText(above: seq<string>, lines: seq<string>, pairs: seq<Pair>, below: string, f: Reader)
    requires WholeLines(above) && forall i | 0 <= i < |above| :: f(above[i]).None?
    requires WholeLines(lines) && NoCommands(below, f)
    requires Kept(lines + KeepLines(below), f) == Kept(KeepLines(below), f)
    requires Found(lines + KeepLines(below), f) == pairs + Found(KeepLines(below), f)
    ensures ParseWith(Joined(above) + (Joined(lines) + below), f) == Parsed(StripNewlines(Joined(above) + below), pairs)
  {
    var rest := KeepLines(below);
    KeepLinesJoined(lines, below);
    KeepLinesJoined(above, Joined(lines) + below);
    PlainKept(above, lines + rest, f);
    NoCommandsParse(below, f);
    JoinedConcat(above, rest);
    JoinedKeepLines(below);
    assert pairs + [] == pairs;
  }
}
