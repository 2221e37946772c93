/**
 The policy decides every command line of words, symbols, separators and comments exactly
 as `ShellTerms` says, and every edit.
 */
module ShellScripts {
  import opened Prelude
  import opened ShellWords
  import opened RepositoryPolicy
  import opened ShellTerms
  import opened ShellSegments

  // ------------------------------------------------------------------ scripts

  lemma OperatorDecodes(alnum: Alnum, s: string, first: bool)
    requires s != "" && IsOperator(s[0])
    ensures DecodeFrom(alnum, s, first, Unquoted) == Prepend([s[0]], DecodeFrom(alnum, s[1..], false, Unquoted))
  {
  }

  lemma {:induction false} DecodeSymbol(alnum: Alnum, s: string, first: bool)
    requires forall i | 0 <= i < |s| :: IsOperator(s[i])
    ensures DecodeFrom(alnum, s, first, Unquoted) == Some(s)
  {
    if s == "" {
    } else {
      OperatorDecodes(alnum, s, first);
      DecodeSymbol(alnum, s[1..], false);
      assert s == [s[0]] + s[1..];
    }
  }

  lemma DecodeLexeme(host: Host, x: Lexeme)
    requires LexemeOk(x) && TextOf(x) != "\n"
    ensures ValueOf(host, x) == Value(TextOf(x), Decode(host.alnum, TextOf(x)))
  {
    match x
    case Grammar(ps) => DecodeIsQuoteRemoval(host.alnum, ps);
    case Symbol(s) => DecodeSymbol(host.alnum, s, true);
  }

  function TokenOf(x: Lexeme): Piece {
    Token(if x.Grammar? then Word else if x.text == "\n" then NewLine else Operator, TextOf(x))
  }

  function TokensOf(xs: seq<Lexeme>): seq<Piece> {
    if xs == [] then [] else [TokenOf(xs[0])] + TokensOf(xs[1..])
  }

  lemma {:induction false} SymbolCloses(s: string, tail: string)
    requires forall i | 0 <= i < |s| :: IsOperator(s[i])
    requires tail == "" || !IsOperator(tail[0])
    ensures OperatorRest(s + tail) == tail
  {
    if s == "" {
      Neutral(tail);
    } else {
      assert (s + tail)[1..] == s[1..] + tail;
      SymbolCloses(s[1..], tail);
    }
  }

  lemma LexWord(ps: seq<Part>, tail: string)
    requires ps != [] && WordOk(ps) && (tail == "" || tail[0] == ' ')
    ensures Pieces(Show(ps) + tail) == [Token(Word, Show(ps))] + Pieces(tail)
  {
    var t := Show(ps);
    var s := t + tail;
    assert s[|t|..] == tail && s[..|t|] == t;
    LongestMatch(ps, tail);
    assert WordRest(tail) == tail;
    assert |ShowPart(ps[0])| > 0;
  }

  lemma LexSymbol(t: string, tail: string)
    requires t != "" && (forall i | 0 <= i < |t| :: IsOperator(t[i])) && (tail == "" || tail[0] == ' ')
    ensures Pieces(t + tail) == [Token(Operator, t)] + Pieces(tail)
  {
    var s := t + tail;
    assert s[|t|..] == tail && s[..|t|] == t;
    assert IsOperator(s[0]) && ElementRest(s).None?;
    assert WordRest(s) == s;
    SymbolCloses(t, tail);
  }

  lemma LexNewLine(tail: string)
    ensures Pieces("\n" + tail) == [Token(NewLine, "\n")] + Pieces(tail)
  {
    var s := "\n" + tail;
    assert s[0] == '\n' && s[..1] == "\n" && s[1..] == tail;
    assert WordRest(s) == s;
  }

  /** A lexeme at the front of a text that goes on with a space, or ends. */
  lemma LexOne(x: Lexeme, tail: string)
    requires LexemeOk(x) && (tail == "" || tail[0] == ' ')
    ensures Pieces(TextOf(x) + tail) == [TokenOf(x)] + Pieces(tail)
  {
    match x
    case Grammar(ps) =>
      LexWord(ps, tail);
    case Symbol(text) =>
      if text == "\n" {
        LexNewLine(tail);
      } else {
        LexSymbol(text, tail);
      }
  }

  lemma {:induction false} LexLine(xs: seq<Lexeme>)
    requires forall x <- xs :: LexemeOk(x)
    ensures Tokens(Pieces(Line(xs))) == TokensOf(xs)
  {
    if xs == [] {
    } else {
      var rest := Line(xs[1..]);
      var tail := if |xs| == 1 then "" else " " + rest;
      assert LexemeOk(xs[0]);
      Associative(TextOf(xs[0]), " ", rest);
      Neutral(TextOf(xs[0]));
      LexOne(xs[0], tail);
      TokensCons(TokenOf(xs[0]), Pieces(tail));
      SpaceSkipped(rest);
      LexLine(xs[1..]);
    }
  }

  function TextsOf(xs: seq<Lexeme>): seq<string> {
    if xs == [] then [] else [TextOf(xs[0])] + TextsOf(xs[1..])
  }

  lemma {:induction false} TokensSplit(a: seq<Lexeme>, b: seq<Lexeme>)
    ensures TokensOf(a + b) == TokensOf(a) + TokensOf(b)
  {
    if a == [] {
      Neutral(b);
      Neutral(TokensOf(b));
    } else {
      assert (a + b)[1..] == a[1..] + b;
      TokensSplit(a[1..], b);
      Associative([TokenOf(a[0])], TokensOf(a[1..]), TokensOf(b));
    }
  }

  lemma HashExactly(text: string)
    ensures OccursAt(text, 0, "#") <==> Hashed(text)
    ensures Separates(text) <==> EndsCommand(text)
  {
    if |text| > 0 {
      assert text[0..1] == [text[0]];
    }
  }

  /** Words go to the segment. */
  lemma {:induction false} WordsSegment(xs: seq<Lexeme>, more: seq<Piece>, segment: seq<string>)
    requires forall x <- xs :: !EndsCommand(TextOf(x)) && !Hashed(TextOf(x))
    ensures Segments(TokensOf(xs) + more, segment, false) == Segments(more, segment + TextsOf(xs), false)
  {
    if xs == [] {
      Neutral(more);
      Neutral(segment);
    } else {
      var t := TextOf(xs[0]);
      HashExactly(t);
      assert (TokensOf(xs) + more)[1..] == TokensOf(xs[1..]) + more;
      WordsSegment(xs[1..], more, segment + [t]);
      Associative(segment, [t], TextsOf(xs[1..]));
    }
  }

  /** A comment goes nowhere. */
  lemma {:induction false} CommentHidden(xs: seq<Lexeme>, more: seq<Piece>, segment: seq<string>, comment: bool)
    requires forall x <- xs :: TextOf(x) != "\n"
    requires comment || (xs != [] && Hashed(TextOf(xs[0])))
    ensures Segments(TokensOf(xs) + more, segment, comment) == Segments(more, segment, true)
  {
    if xs == [] {
      Neutral(more);
    } else {
      HashExactly(TextOf(xs[0]));
      assert (TokensOf(xs) + more)[1..] == TokensOf(xs[1..]) + more;
      CommentHidden(xs[1..], more, segment, true);
    }
  }

  /** The end of a command closes its segment. */
  lemma EndCloses(end: string, more: seq<Piece>, segment: seq<string>, comment: bool)
    requires EndsCommand(end) && (comment ==> end == "\n")
    ensures Segments([TokenOf(Symbol(end))] + more, segment, comment) == [segment] + Segments(more, [], false)
  {
    HashExactly(end);
    assert ([TokenOf(Symbol(end))] + more)[1..] == more;
    assert !Hashed(end);
  }

  /** A command's tokens, and whatever follows its end. */
  lemma CommandSegment(c: Command, more: seq<Piece>)
    requires CommandOk(c)
    ensures Segments(TokensOf(c.words + c.comment) + more, [], false)
         == Segments(more, TextsOf(c.words), c.comment != [])
  {
    TokensSplit(c.words, c.comment);
    Associative(TokensOf(c.words), TokensOf(c.comment), more);
    WordsSegment(c.words, TokensOf(c.comment) + more, []);
    Neutral(TextsOf(c.words));
    if c.comment == [] {
      Neutral(more);
    } else {
      CommentHidden(c.comment, more, TextsOf(c.words), false);
    }
  }

  function SegmentsOf(script: seq<Command>): seq<seq<string>> {
    if script == [] then [] else [TextsOf(script[0].words)] + SegmentsOf(script[1..])
  }

  /** A script is cut into its commands. */
  lemma {:induction false} ScriptSegments(script: seq<Command>)
    requires script != [] && forall c <- script :: CommandOk(c)
    ensures Segments(TokensOf(Flat(script)), [], false) == SegmentsOf(script)
  {
    var c := script[0];
    var front := c.words + c.comment;
    assert CommandOk(c);
    if |script| == 1 {
      Neutral(front);
      Neutral(TokensOf(front));
      CommandSegment(c, []);
      assert script[1..] == [];
    } else {
      var rest := Flat(script[1..]);
      assert ([Symbol(c.end)] + rest)[1..] == rest;
      TokensSplit(front, [Symbol(c.end)] + rest);
      CommandSegment(c, [TokenOf(Symbol(c.end))] + TokensOf(rest));
      EndCloses(c.end, TokensOf(rest), TextsOf(c.words), c.comment != []);
      ScriptSegments(script[1..]);
    }
  }

  lemma {:induction false} FlatOk(script: seq<Command>)
    requires script != [] && forall c <- script :: CommandOk(c)
    ensures forall x <- Flat(script) :: LexemeOk(x)
  {
    var c := script[0];
    assert CommandOk(c);
    if |script| > 1 {
      FlatOk(script[1..]);
      assert LexemeOk(Symbol(c.end));
    }
  }

  lemma {:induction false} SeenValues(host: Host, xs: seq<Lexeme>)
    requires forall x <- xs :: LexemeOk(x) && TextOf(x) != "\n"
    ensures Seen(host, TextsOf(xs)) == ValuesOf(host, xs)
  {
    if xs == [] {
    } else {
      SeenValues(host, xs[1..]);
      assert LexemeOk(xs[0]);
      DecodeLexeme(host, xs[0]);
      assert ValuesOf(host, xs)[1..] == ValuesOf(host, xs[1..]);
      assert Seen(host, TextsOf(xs))[1..] == Seen(host, TextsOf(xs[1..]));
    }
  }

  lemma {:induction false} SeenCommands(host: Host, script: seq<Command>)
    requires forall c <- script :: CommandOk(c)
    ensures SeenAll(host, SegmentsOf(script)) == CommandsOf(host, script)
  {
    if script == [] {
    } else {
      assert CommandOk(script[0]);
      SeenValues(host, script[0].words);
      SeenCommands(host, script[1..]);
      assert CommandsOf(host, script)[1..] == CommandsOf(host, script[1..]);
      assert SeenAll(host, SegmentsOf(script))[1..] == SeenAll(host, SegmentsOf(script[1..]));
    }
  }

  /**
   Main result for shell calls: for every command line of words, quoted in any way,
   symbols, separators and comments, the call is an effect if and only if one of its
   commands writes to a repository, by a redirection or by its tool, from the directory
   that the commands before it lead to.
   */
  lemma ScriptExactly(host: Host, script: seq<Command>, cwd: Option<Path>)
    requires script != [] && (forall c <- script :: CommandOk(c)) && Absolute(cwd)
    ensures Implementation(host, Shell(Line(Flat(script))), cwd)
       <==> ScriptWrites(host, CommandsOf(host, script), cwd)
  {
    FlatOk(script);
    LexLine(Flat(script));
    ScriptSegments(script);
    SegmentsExactly(host, SegmentsOf(script), cwd);
    SeenCommands(host, script);
  }

  // ---------------------------------------------------------- quoted commands

  /** A command of quoted values. */
  function QuotedCommand(values: seq<string>, end: string): Command {
    Command(QuotedLexemes(values), [], end)
  }

  function QuotedLexemes(values: seq<string>): (r: seq<Lexeme>)
    ensures |r| == |values| && forall i | 0 <= i < |values| :: r[i] == Grammar(QuotedParts(values[i], ""))
  {
    seq(|values|, i requires 0 <= i < |values| => Grammar(QuotedParts(values[i], "")))
  }

  /** What is seen of quoted values: the values. */
  function QuotedValues(values: seq<string>): (r: seq<Value>)
    ensures |r| == |values| && forall i | 0 <= i < |values| :: r[i] == Value(Quoted(values[i]), Some(values[i]))
  {
    seq(|values|, i requires 0 <= i < |values| => Value(Quoted(values[i]), Some(values[i])))
  }

  lemma QuotedPrints(value: string)
    ensures Show(QuotedParts(value, "")) == Quoted(value) && QuoteRemoval(QuotedParts(value, "")) == value
  {
    QuotedShows(value, "");
    Neutral(ReplaceQuotes(value));
    Associative("'", ReplaceQuotes(value), "'");
    Neutral(value);
  }

  lemma QuotedLexeme(host: Host, value: string)
    ensures var x := Grammar(QuotedParts(value, ""));
            LexemeOk(x) && TextOf(x) == Quoted(value) && ValueOf(host, x) == Value(Quoted(value), Some(value))
  {
    QuotedPrints(value);
    QuotedIsWord(value, "");
    NothingActive(host.alnum, QuotedParts(value, ""), true);
  }

  lemma QuotedIsPlain(value: string)
    ensures !EndsCommand(Quoted(value)) && !Hashed(Quoted(value)) && !Redirection(Quoted(value))
    ensures !Assignment(Quoted(value)) && !Dashed(Quoted(value))
  {
    assert Quoted(value)[0] == '\'';
  }

  lemma QuotedCommandOk(host: Host, values: seq<string>, end: string)
    requires EndsCommand(end)
    ensures CommandOk(QuotedCommand(values, end))
    ensures ValuesOf(host, QuotedLexemes(values)) == QuotedValues(values)
  {
    forall i | 0 <= i < |values|
      ensures var x := QuotedLexemes(values)[i];
              && LexemeOk(x) && !EndsCommand(TextOf(x)) && !Hashed(TextOf(x))
              && ValueOf(host, x) == Value(Quoted(values[i]), Some(values[i]))
    {
      QuotedLexeme(host, values[i]);
      QuotedIsPlain(values[i]);
    }
  }

  /** Nothing quoted redirects or assigns. */
  lemma QuotedIsCommand(host: Host, values: seq<string>, cwd: Option<Path>)
    ensures !RedirectsInto(host, QuotedValues(values), cwd) && Behind(QuotedValues(values)) == QuotedValues(values)
  {
    forall i | 0 <= i < |values|
      ensures !Redirection(Quoted(values[i])) && !Assignment(Quoted(values[i]))
    {
      QuotedIsPlain(values[i]);
    }
  }

  lemma ToolOfName(name: string)
    requires '/' !in name && name != "" && name != "."
    ensures forall raw: string :: Tool(Value(raw, Some(name))) == name
  {
    OnePart(name, "");
    Neutral(name);
  }

  /** Where `cd` with one argument leads. */
  function Entered(d: string, cwd: Option<Path>): Option<Path> {
    if d == "-" || d == "--" || d == "-L" || d == "-P" then None else Resolved(d, cwd)
  }

  lemma CdWithOne(host: Host, d: string, cwd: Option<Path>)
    ensures var ws := QuotedValues(["cd", d]);
            !CommandWrites(host, ws, cwd) && DirectoryBehind(ws, cwd) == Entered(d, cwd)
  {
    var ws := QuotedValues(["cd", d]);
    QuotedIsCommand(host, ["cd", d], cwd);
    ToolOfName("cd");
    NamesDiffer();
    assert ws[1..] == QuotedValues([d]) && ws[1..][1..] == [];
    assert CdTarget([], cwd) == None;
  }

  lemma PlainTerms(host: Host, tool: string, args: seq<Value>, cwd: Option<Path>)
    requires tool == "tee" || tool == "touch" || tool == "rm"
    ensures ToolWrites(host, tool, args, cwd) <==> exists a <- args :: Written(host, a, cwd)
  {
    PlainNames();
  }

  lemma ValuesWritten(host: Host, values: seq<string>, cwd: Option<Path>)
    ensures (exists a <- QuotedValues(values) :: Written(host, a, cwd))
       <==> exists v <- values :: Reaches(host, Some(v), cwd)
  {
    var ws := QuotedValues(values);
    forall i | 0 <= i < |values|
      ensures Written(host, ws[i], cwd) <==> Reaches(host, Some(values[i]), cwd)
    {
      QuotedIsPlain(values[i]);
    }
    if v :| v in values && Reaches(host, Some(v), cwd) {
      var i :| 0 <= i < |values| && values[i] == v;
      assert ws[i] in ws;
    }
    if a :| a in ws && Written(host, a, cwd) {
      var i :| 0 <= i < |ws| && ws[i] == a;
      assert values[i] in values;
    }
  }

  lemma ToolWithValues(host: Host, tool: string, values: seq<string>, cwd: Option<Path>)
    requires tool == "tee" || tool == "touch" || tool == "rm"
    ensures CommandWrites(host, QuotedValues([tool] + values), cwd)
       <==> exists v <- values :: Reaches(host, Some(v), cwd)
  {
    var ws := QuotedValues([tool] + values);
    QuotedIsCommand(host, [tool] + values, cwd);
    assert tool[0] == 't' || tool[0] == 'r';
    ToolOfName(tool);
    assert ws[1..] == QuotedValues(values) && ws[0] == Value(Quoted(tool), Some(tool));
    PlainTerms(host, tool, QuotedValues(values), cwd);
    ValuesWritten(host, values, cwd);
  }

  lemma {:induction false} QuotedLine(values: seq<string>)
    ensures Line(QuotedLexemes(values)) == JoinQuoted(values)
  {
    if values == [] {
    } else {
      QuotedPrints(values[0]);
      assert QuotedLexemes(values)[1..] == QuotedLexemes(values[1..]);
      QuotedLine(values[1..]);
    }
  }

  lemma {:induction false} LineSplit(a: seq<Lexeme>, b: seq<Lexeme>)
    requires a != [] && b != []
    ensures Line(a + b) == Line(a) + " " + Line(b)
  {
    assert (a + b)[1..] == a[1..] + b;
    if |a| > 1 {
      LineSplit(a[1..], b);
      Associative(TextOf(a[0]) + " ", Line(a[1..]), " ");
      Associative(TextOf(a[0]) + " ", Line(a[1..]) + " ", Line(b));
    }
  }

  lemma TwoCommands(first: seq<string>, end: string, second: seq<string>)
    requires first != [] && second != []
    ensures Line(Flat([QuotedCommand(first, end), QuotedCommand(second, ";")]))
         == JoinQuoted(first) + " " + (end + " " + JoinQuoted(second))
  {
    var script := [QuotedCommand(first, end), QuotedCommand(second, ";")];
    var a, b := QuotedLexemes(first), QuotedLexemes(second);
    assert script[1..] == [QuotedCommand(second, ";")];
    Neutral(a);
    Neutral(b);
    assert Flat(script) == a + ([Symbol(end)] + b);
    LineSplit(a, [Symbol(end)] + b);
    assert ([Symbol(end)] + b)[1..] == b;
    QuotedLine(first);
    QuotedLine(second);
    Associative(end, " ", JoinQuoted(second));
  }

  /**
   After `cd d` the tool's arguments count from `d`, itself seen from the directory
   before it: the call is an effect if and only if one of them names something in a
   repository from there, or the directory is not known.
   */
  lemma CdThenTool(host: Host, d: string, end: string, tool: string, values: seq<string>, cwd: Option<Path>)
    requires (end == "&&" || end == ";") && (tool == "tee" || tool == "touch" || tool == "rm") && Absolute(cwd)
    ensures Implementation(host, Shell(JoinQuoted(["cd", d]) + " " + (end + " " + JoinQuoted([tool] + values))), cwd)
       <==> exists v <- values :: Reaches(host, Some(v), Entered(d, cwd))
  {
    var first, second := ["cd", d], [tool] + values;
    var script := [QuotedCommand(first, end), QuotedCommand(second, ";")];
    QuotedCommandOk(host, first, end);
    QuotedCommandOk(host, second, ";");
    TwoCommands(first, end, second);
    ScriptExactly(host, script, cwd);
    CdWithOne(host, d, cwd);
    ToolWithValues(host, tool, values, Entered(d, cwd));
    TwoWrites(host, CommandsOf(host, script), QuotedValues(first), QuotedValues(second), cwd);
  }

  lemma TwoWrites(host: Host, commands: seq<seq<Value>>, first: seq<Value>, second: seq<Value>, cwd: Option<Path>)
    requires |commands| == 2 && commands[0] == first && commands[1] == second
    ensures ScriptWrites(host, commands, cwd) <==>
              CommandWrites(host, first, cwd) || CommandWrites(host, second, DirectoryBehind(first, cwd))
  {
    ScriptStep(host, commands, cwd);
    ScriptStep(host, commands[1..], DirectoryBehind(first, cwd));
    assert commands[1..][1..] == [];
  }

  // -------------------------------------------------------------------- edits

  lemma TargetOfEdit(host: Host, target: string, cwd: Path)
    ensures RepositoryPath(host, ParsePath(target), cwd) <==> TargetInside(host, target, cwd)
  {
    var p := ParsePath(target);
    if p.parts != [] && |p.parts[0]| > 0 {
      assert p.parts[0][0..1] == [p.parts[0][0]];
    }
  }

  /** Main result for edits, in a known directory or not. */
  lemma EditExactly(host: Host, targets: seq<string>, cwd: Option<Path>)
    requires Absolute(cwd)
    ensures Implementation(host, Edit(targets), cwd) <==> EditWrites(host, targets, cwd)
  {
    if cwd.Some? {
      forall t | t in targets
        ensures RepositoryPath(host, ParsePath(t), cwd.value) <==> TargetInside(host, t, cwd.value)
      {
        TargetOfEdit(host, t, cwd.value);
      }
    }
  }
}
