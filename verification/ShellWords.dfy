/**
 The shell-word lexer `SHELL_WORDS` and the quote decoder `_shell_literal` of
 src/league/delegation_policy.py, with the quoter of
 integrations/pi/league-runtime.ts.

 The reference semantics is a small syntax tree for one word of the POSIX.1-2017
 Shell Command Language: `Show` prints the tree, `QuoteRemoval` gives its value
 (section 2.6.7) and `Active` says whether an expansion, glob, tilde or brace in
 it would be performed by the shell. The lexer and the decoder are proved
 against that tree.
 */
module ShellWords {
  import opened Prelude

  /** Python's `str.isalnum` on one character; its Unicode table is an input. */
  type Alnum = char -> bool

  // ---------------------------------------------------------------- lexer

  predicate IsOperator(c: char) { c in ";&|<>" }

  /** `[^\s;&|<>'"\\]`, a character that stands for itself in a word. */
  predicate IsBare(c: char) {
    !IsSpace(c) && !IsOperator(c) && c != '\'' && c != '"' && c != '\\'
  }

  /** What is left after `[^']*'`, or None when the quote never closes. */
  function SingleRest(s: string): (r: Option<string>)
    ensures r.Some? ==> |r.value| < |s|
  {
    if s == "" then None else if s[0] == '\'' then Some(s[1..]) else SingleRest(s[1..])
  }

  /** What is left after `(?:\\[\s\S]|[^"\\])*"`. */
  function DoubleRest(s: string): (r: Option<string>)
    ensures r.Some? ==> |r.value| < |s|
  {
    if s == "" then None
    else if s[0] == '"' then Some(s[1..])
    else if s[0] != '\\' then DoubleRest(s[1..])
    else if |s| >= 2 then DoubleRest(s[2..])
    else None
  }

  /**
   What is left after one element of a word. The four alternatives of the pattern
   start with different characters and each can end in one place only, so the
   backtracking matcher has no choice.
   */
  function ElementRest(s: string): (r: Option<string>)
    ensures r.Some? ==> |r.value| < |s|
  {
    if s == "" then None
    else if s[0] == '\\' then (if |s| >= 2 then Some(s[2..]) else None)
    else if s[0] == '\'' then SingleRest(s[1..])
    else if s[0] == '"' then DoubleRest(s[1..])
    else if IsBare(s[0]) then Some(s[1..])
    else None
  }

  /** What is left after the longest run of elements. */
  function WordRest(s: string): (r: string)
    ensures |r| <= |s|
    decreases |s|
  {
    if ElementRest(s).Some? then WordRest(ElementRest(s).value) else s
  }

  function OperatorRest(s: string): (r: string)
    ensures |r| <= |s|
  {
    if s != "" && IsOperator(s[0]) then OperatorRest(s[1..]) else s
  }

  datatype Kind = Word | Operator | NewLine | Stray

  /** What `finditer` does with the command: each match, and the characters it skips. */
  datatype Piece = Skip(text: string) | Token(kind: Kind, text: string)

  /** The text of `s` in front of its suffix `rest`. */
  function Front(s: string, rest: string): string
    requires |rest| <= |s|
  {
    s[..|s| - |rest|]
  }

  function FirstPiece(s: string): (p: Piece)
    requires s != ""
    ensures 0 < |p.text| <= |s| && p.text == s[..|p.text|]
  {
    if |WordRest(s)| < |s| then Token(Word, Front(s, WordRest(s)))
    else if IsOperator(s[0]) then Token(Operator, Front(s, OperatorRest(s)))
    else if s[0] == '\n' then Token(NewLine, s[..1])
    else if !IsSpace(s[0]) then Token(Stray, s[..1])
    else Skip(s[..1])
  }

  function Pieces(s: string): seq<Piece> {
    if s == "" then [] else [FirstPiece(s)] + Pieces(s[|FirstPiece(s).text|..])
  }

  function Texts(ps: seq<Piece>): string {
    if ps == [] then "" else ps[0].text + Texts(ps[1..])
  }

  /** The tokens in order: the values of `match.group()`. */
  function Tokens(ps: seq<Piece>): seq<Piece> {
    if ps == [] then []
    else if ps[0].Token? then [ps[0]] + Tokens(ps[1..])
    else Tokens(ps[1..])
  }

  // -------------------------------------------------------------- decoder

  datatype Quote = Unquoted | InSingle | InDouble

  /** The characters after `$` that make it an expansion. */
  predicate Expands(alnum: Alnum, following: char, q: Quote) {
    alnum(following) || following in "_@*#?$!({[-" || (q == Unquoted && following in "'\"")
  }

  /** The text before the first `}`, or None. */
  function UpToBrace(s: string): (r: Option<string>) {
    if s == "" then None
    else if s[0] == '}' then Some("")
    else if UpToBrace(s[1..]).Some? then Some([s[0]] + UpToBrace(s[1..]).value)
    else None
  }

  /** `re.search(r"\{[^}]*?(?:,|\.\.)[^}]*\}", s)` finds something. */
  predicate BraceList(s: string) {
    exists i | 0 <= i < |s| ::
      s[i] == '{' && UpToBrace(s[i + 1..]).Some? && Listed(UpToBrace(s[i + 1..]).value)
  }

  predicate Listed(body: string) {
    ',' in body || exists j | 0 <= j < |body| :: OccursAt(body, j, "..")
  }

  /** The tests that make an unquoted character something other than itself. */
  predicate Globs(s: string, first: bool)
    requires s != ""
  {
    || s[0] in "*?"
    || (s[0] == '[' && ']' in s[1..])
    || (s[0] == '~' && first)
    || (s[0] == '{' && BraceList(s))
  }

  predicate Substitutes(alnum: Alnum, s: string, q: Quote)
    requires s != ""
  {
    s[0] == '`' || (s[0] == '$' && |s| > 1 && Expands(alnum, s[1], q))
  }

  function Prepend(front: string, r: Option<string>): Option<string> {
    if r.Some? then Some(front + r.value) else None
  }

  /** The characters a backslash quotes inside double quotes. */
  predicate SlashQuotes(c: char) { c in "$`\"\\\n" }

  /**
   What `_shell_literal` adds to its value from the suffix `s` on, in quoting state
   `q`; `first` says that the suffix is the whole word.
   */
  function DecodeFrom(alnum: Alnum, s: string, first: bool, q: Quote): Option<string> {
    if s == "" then (if q == Unquoted then Some("") else None)
    else if s[0] == '\\' && q != InSingle && |s| == 1 then None
    else if s[0] == '\\' && q != InSingle && (q == Unquoted || SlashQuotes(s[1])) then
      Prepend(if s[1] == '\n' then "" else [s[1]], DecodeFrom(alnum, s[2..], false, q))
    else if s[0] == '"' && q != InSingle then
      DecodeFrom(alnum, s[1..], false, if q == Unquoted then InDouble else Unquoted)
    else if s[0] == '\'' && q != InDouble then
      DecodeFrom(alnum, s[1..], false, if q == Unquoted then InSingle else Unquoted)
    else if q != InSingle && Substitutes(alnum, s, q) then None
    else if q == Unquoted && Globs(s, first) then None
    else Prepend([s[0]], DecodeFrom(alnum, s[1..], false, q))
  }

  function Decode(alnum: Alnum, word: string): Option<string> {
    DecodeFrom(alnum, word, true, Unquoted)
  }

  lemma PrependAssociates(a: string, b: string, r: Option<string>)
    ensures Prepend(a, Prepend(b, r)) == Prepend(a + b, r)
  {
    if r.Some? {
      assert a + (b + r.value) == a + b + r.value;
    }
  }

  lemma PrependNothing(r: Option<string>)
    ensures Prepend("", r) == r
  {
    if r.Some? {
      assert "" + r.value == r.value;
    }
  }

  /** `_shell_literal`: the loop over `index`, `quote` and `value`. */
  method ShellLiteral(alnum: Alnum, word: string) returns (r: Option<string>)
    ensures r == Decode(alnum, word)
  {
    var value := "";
    var quote := Unquoted;
    var index := 0;
    PrependNothing(Decode(alnum, word));
    assert word[0..] == word;
    while index < |word|
      invariant 0 <= index <= |word|
      invariant Decode(alnum, word)
             == Prepend(value, DecodeFrom(alnum, word[index..], index == 0, quote))
    {
      var rest := word[index..];
      var head := rest[0];
      assert rest[1..] == word[index + 1..];
      if head == '\\' && quote != InSingle {
        if |rest| == 1 {
          return None;
        }
        assert rest[2..] == word[index + 2..];
        if quote == Unquoted || SlashQuotes(rest[1]) {
          ghost var tail := DecodeFrom(alnum, word[index + 2..], false, quote);
          PrependAssociates(value, if rest[1] == '\n' then "" else [rest[1]], tail);
          assert value + "" == value;
          if rest[1] != '\n' {
            value := value + [rest[1]];
          }
          index := index + 2;
          continue;
        }
      }
      if head == '"' && quote != InSingle {
        quote := if quote == Unquoted then InDouble else Unquoted;
      } else if head == '\'' && quote != InDouble {
        quote := if quote == Unquoted then InSingle else Unquoted;
      } else if quote != InSingle && Substitutes(alnum, rest, quote) {
        return None;
      } else if quote == Unquoted && Globs(rest, index == 0) {
        return None;
      } else {
        PrependAssociates(value, [head], DecodeFrom(alnum, word[index + 1..], false, quote));
        value := value + [head];
      }
      index := index + 1;
    }
    assert value + "" == value;
    return if quote == Unquoted then Some(value) else None;
  }

  // ------------------------------------------- reference syntax of a word

  datatype Item = Raw(c: char) | Slash(c: char)

  datatype Part =
    | Bare(c: char)
    | Escaped(c: char)
    | Single(body: string)
    | Double(items: seq<Item>)

  predicate ItemOk(x: Item) { x.Slash? || (x.c != '"' && x.c != '\\') }

  predicate PartOk(p: Part) {
    match p
    case Bare(c) => IsBare(c)
    case Escaped(_) => true
    case Single(body) => '\'' !in body
    case Double(items) => forall x <- items :: ItemOk(x)
  }

  predicate WordOk(ps: seq<Part>) { forall p <- ps :: PartOk(p) }

  function ShowItem(x: Item): string { if x.Raw? then [x.c] else ['\\', x.c] }

  function ShowItems(xs: seq<Item>): string {
    if xs == [] then "" else ShowItem(xs[0]) + ShowItems(xs[1..])
  }

  function ShowPart(p: Part): (r: string)
    ensures |r| > 0
  {
    match p
    case Bare(c) => [c]
    case Escaped(c) => ['\\', c]
    case Single(body) => "'" + body + "'"
    case Double(items) => "\"" + ShowItems(items) + "\""
  }

  /** The text of a word. */
  function Show(ps: seq<Part>): string {
    if ps == [] then "" else ShowPart(ps[0]) + Show(ps[1..])
  }

  function ItemValue(x: Item): string {
    match x
    case Raw(c) => [c]
    case Slash(c) => if c == '\n' then "" else if c == '$' || c == '`' || c == '"' || c == '\\' then [c] else ['\\', c]
  }

  /** Quote removal inside double quotes: a backslash quotes five characters only. */
  function ItemsValue(xs: seq<Item>): string {
    if xs == [] then "" else ItemValue(xs[0]) + ItemsValue(xs[1..])
  }

  function PartValue(p: Part): string {
    match p
    case Bare(c) => [c]
    case Escaped(c) => if c == '\n' then "" else [c]
    case Single(body) => body
    case Double(items) => ItemsValue(items)
  }

  /** Quote removal, section 2.6.7 of the POSIX.1-2017 Shell Command Language. */
  function QuoteRemoval(ps: seq<Part>): string {
    if ps == [] then "" else PartValue(ps[0]) + QuoteRemoval(ps[1..])
  }

  /** What makes a `$` before it an expansion, in double quotes or outside: a parameter, a command or an arithmetic. */
  predicate Introduces(alnum: Alnum, c: char) {
    alnum(c) || c == '_' || c == '@' || c == '*' || c == '#' || c == '?' || c == '$' || c == '!' || c == '(' || c == '{'
    || c == '[' || c == '-'
  }

  /** From `i` to `j` stands a `{` and the next `}` behind it, and at `m` between them a comma or two dots. */
  predicate BracesAt(s: string, i: nat, m: nat, j: nat) {
    && i < m < j < |s| && s[i] == '{' && s[j] == '}' && (forall k | i < k < j :: s[k] != '}')
    && (s[m] == ',' || (m + 1 < j && s[m] == '.' && s[m + 1] == '.'))
  }

  predicate Braces(s: string) {
    exists i, m, j | 0 <= i < m < j < |s| :: BracesAt(s, i, m, j)
  }

  /** A raw `$` or backquote that starts an expansion inside double quotes, `after` being the text behind it. */
  predicate ItemActive(alnum: Alnum, x: Item, after: string) {
    x.Raw? && (x.c == '`' || (x.c == '$' && after != "" && Introduces(alnum, after[0])))
  }

  predicate ItemsActive(alnum: Alnum, xs: seq<Item>) {
    xs != [] &&
    (ItemActive(alnum, xs[0], ShowItems(xs[1..]) + "\"") || ItemsActive(alnum, xs[1..]))
  }

  /**
   The first part starts something the shell would expand: a substitution, a glob, a
   tilde at the start of the word, or a brace list. Quoted and escaped parts never
   do, except for substitutions in double quotes.
   */
  predicate PartActive(alnum: Alnum, p: Part, after: string, first: bool) {
    match p
    case Bare(c) =>
      || c == '`' || c == '*' || c == '?'
      || (c == '$' && after != "" && (Introduces(alnum, after[0]) || after[0] == '\'' || after[0] == '"'))
      || (c == '[' && ']' in after)
      || (c == '~' && first)
      || (c == '{' && Braces("{" + after))
    case Double(items) => ItemsActive(alnum, items)
    case _ => false
  }

  predicate Active(alnum: Alnum, ps: seq<Part>, first: bool := true) {
    ps != [] &&
    (PartActive(alnum, ps[0], Show(ps[1..]), first) || Active(alnum, ps[1..], false))
  }

  // --------------------------------------------- the lexer against the tree

  lemma {:induction false} SingleCloses(body: string, tail: string)
    requires '\'' !in body
    ensures SingleRest(body + "'" + tail) == Some(tail)
  {
    var s := body + "'" + tail;
    if body == "" {
      assert s[1..] == tail;
    } else {
      assert s[0] == body[0] && s[1..] == body[1..] + "'" + tail;
      SingleCloses(body[1..], tail);
    }
  }

  lemma {:induction false} DoubleCloses(xs: seq<Item>, tail: string)
    requires forall x <- xs :: ItemOk(x)
    ensures DoubleRest(ShowItems(xs) + "\"" + tail) == Some(tail)
  {
    var s := ShowItems(xs) + "\"" + tail;
    if xs == [] {
      assert s[1..] == tail;
    } else {
      var head := ShowItem(xs[0]);
      var rest := ShowItems(xs[1..]) + "\"" + tail;
      assert ItemOk(xs[0]);
      assert s == head + rest;
      assert s[|head|..] == rest && s[0] == head[0];
      DoubleCloses(xs[1..], tail);
    }
  }

  lemma Quotation(q: char, body: string, tail: string)
    ensures ([q] + body + [q] + tail)[0] == q
    ensures ([q] + body + [q] + tail)[1..] == body + [q] + tail
  {
  }

  /** A printed part is read as one element, whatever follows it. */
  lemma {:induction false} ElementOfPart(p: Part, tail: string)
    requires PartOk(p)
    ensures ElementRest(ShowPart(p) + tail) == Some(tail)
  {
    match p
    case Bare(c) =>
      assert ([c] + tail)[1..] == tail;
    case Escaped(c) =>
      assert (['\\', c] + tail)[2..] == tail;
    case Single(body) =>
      Quotation('\'', body, tail);
      SingleCloses(body, tail);
    case Double(items) =>
      Quotation('"', ShowItems(items), tail);
      DoubleCloses(items, tail);
  }

  lemma {:induction false} SingleBody(s: string) returns (body: string)
    requires SingleRest(s).Some?
    ensures '\'' !in body && s == body + "'" + SingleRest(s).value
  {
    if s[0] == '\'' {
      body := "";
    } else {
      var rest := SingleBody(s[1..]);
      body := [s[0]] + rest;
    }
  }

  lemma {:induction false} DoubleItems(s: string) returns (xs: seq<Item>)
    requires DoubleRest(s).Some?
    ensures forall x <- xs :: ItemOk(x)
    ensures s == ShowItems(xs) + "\"" + DoubleRest(s).value
  {
    if s[0] == '"' {
      xs := [];
    } else {
      var first := if s[0] == '\\' then Slash(s[1]) else Raw(s[0]);
      var n := |ShowItem(first)|;
      assert s == ShowItem(first) + s[n..];
      var rest := DoubleItems(s[n..]);
      xs := ConsItem(first, rest, s[n..], "\"" + DoubleRest(s).value);
    }
  }

  lemma ConsItem(first: Item, rest: seq<Item>, text: string, tail: string) returns (xs: seq<Item>)
    requires text == ShowItems(rest) + tail
    ensures xs == [first] + rest
    ensures ShowItem(first) + text == ShowItems(xs) + tail
  {
    xs := [first] + rest;
    assert xs[1..] == rest;
  }

  /** Every element the lexer reads is the print of a part. */
  lemma {:induction false} PartOfElement(s: string) returns (p: Part)
    requires ElementRest(s).Some?
    ensures PartOk(p) && s == ShowPart(p) + ElementRest(s).value
  {
    if s[0] == '\\' {
      p := Escaped(s[1]);
    } else if s[0] == '\'' {
      var body := SingleBody(s[1..]);
      p := Single(body);
      assert s == ['\''] + s[1..];
    } else if s[0] == '"' {
      var items := DoubleItems(s[1..]);
      p := Double(items);
      assert s == ['"'] + s[1..];
    } else {
      p := Bare(s[0]);
    }
  }

  /** What the lexer takes as a word is the print of a well-formed word. */
  lemma {:induction false} WordOfText(s: string) returns (ps: seq<Part>)
    ensures WordOk(ps) && s == Show(ps) + WordRest(s)
    decreases |s|
  {
    if ElementRest(s).Some? {
      var p := PartOfElement(s);
      var rest := WordOfText(ElementRest(s).value);
      ps := [p] + rest;
      ShowCons(p, rest, WordRest(s));
    } else {
      ps := [];
    }
  }

  lemma ShowCons(p: Part, rest: seq<Part>, tail: string)
    ensures Show([p] + rest) + tail == ShowPart(p) + (Show(rest) + tail)
  {
    assert ([p] + rest)[1..] == rest;
  }

  /**
   The greedy match is the longest one: after any well-formed word at the front of
   the text, the lexer goes on exactly as if it started behind that word.
   */
  lemma {:induction false} LongestMatch(ps: seq<Part>, tail: string)
    requires WordOk(ps)
    ensures WordRest(Show(ps) + tail) == WordRest(tail)
  {
    if ps == [] {
      assert Show(ps) + tail == tail;
    } else {
      assert PartOk(ps[0]);
      assert Show(ps) + tail == ShowPart(ps[0]) + (Show(ps[1..]) + tail);
      ElementOfPart(ps[0], Show(ps[1..]) + tail);
      LongestMatch(ps[1..], tail);
    }
  }

  lemma FirstIsThere(s: string)
    requires s != ""
    ensures var p := FirstPiece(s);
            && Pieces(s) == [p] + Pieces(s[|p.text|..]) && s == p.text + s[|p.text|..]
            && |p.text| > 0 && (p.Skip? ==> |p.text| == 1 && IsSpace(p.text[0]) && p.text[0] != '\n')
  {
    var p := FirstPiece(s);
    assert s == p.text + s[|p.text|..];
  }

  lemma TextsCons(p: Piece, rest: seq<Piece>)
    ensures Texts([p] + rest) == p.text + Texts(rest)
  {
    assert ([p] + rest)[1..] == rest;
  }

  /**
   Lexing loses nothing: the tokens and the skipped characters in order are the
   command, each skipped character is white space other than a line feed, and no
   token is empty.
   */
  lemma {:induction false} PiecesRebuild(s: string)
    ensures Texts(Pieces(s)) == s
    ensures forall p <- Pieces(s) ::
              |p.text| > 0 && (p.Skip? ==> |p.text| == 1 && IsSpace(p.text[0]) && p.text[0] != '\n')
  {
    if s == "" {
    } else {
      var p := FirstPiece(s);
      FirstIsThere(s);
      PiecesRebuild(s[|p.text|..]);
      TextsCons(p, Pieces(s[|p.text|..]));
    }
  }

  // ------------------------------------------- the decoder against the tree

  lemma {:induction false} DecodeSingle(alnum: Alnum, body: string, tail: string)
    requires '\'' !in body
    ensures DecodeFrom(alnum, body + "'" + tail, false, InSingle)
         == Prepend(body, DecodeFrom(alnum, tail, false, Unquoted))
  {
    var s := body + "'" + tail;
    var rest := DecodeFrom(alnum, tail, false, Unquoted);
    if body == "" {
      assert s[1..] == tail;
      PrependNothing(rest);
    } else {
      assert s[0] == body[0] && s[1..] == body[1..] + "'" + tail;
      DecodeSingle(alnum, body[1..], tail);
      PrependAssociates([body[0]], body[1..], rest);
      assert [body[0]] + body[1..] == body;
    }
  }

  /** One item inside double quotes, with at least the closing quote after it. */
  lemma {:induction false} DecodeItem(alnum: Alnum, x: Item, after: string)
    requires ItemOk(x) && after != ""
    ensures DecodeFrom(alnum, ShowItem(x) + after, false, InDouble)
         == if ItemActive(alnum, x, after) then None
            else Prepend(ItemValue(x), DecodeFrom(alnum, after, false, InDouble))
  {
    var s := ShowItem(x) + after;
    match x
    case Raw(c) =>
      assert s[0] == c && s[1..] == after && s[1] == after[0];
    case Slash(c) =>
      assert s[0] == '\\' && s[1] == c && s[2..] == after && s[1..] == [c] + after;
      if !SlashQuotes(c) {
        DecodePlainAfterSlash(alnum, c, after);
        PrependAssociates("\\", [c], DecodeFrom(alnum, after, false, InDouble));
        assert "\\" + [c] == ['\\', c];
      }
  }

  lemma DecodePlainAfterSlash(alnum: Alnum, c: char, after: string)
    requires !SlashQuotes(c)
    ensures DecodeFrom(alnum, [c] + after, false, InDouble)
         == Prepend([c], DecodeFrom(alnum, after, false, InDouble))
  {
    var s := [c] + after;
    assert s[0] == c && s[1..] == after;
  }

  lemma {:induction false} DecodeDouble(alnum: Alnum, xs: seq<Item>, tail: string)
    requires forall x <- xs :: ItemOk(x)
    ensures DecodeFrom(alnum, ShowItems(xs) + "\"" + tail, false, InDouble)
         == if ItemsActive(alnum, xs) then None
            else Prepend(ItemsValue(xs), DecodeFrom(alnum, tail, false, Unquoted))
  {
    var s := ShowItems(xs) + "\"" + tail;
    var rest := DecodeFrom(alnum, tail, false, Unquoted);
    if xs == [] {
      assert s[0] == '"' && s[1..] == tail;
      PrependNothing(rest);
    } else {
      var closing := ShowItems(xs[1..]) + "\"";
      var after := closing + tail;
      assert s == ShowItem(xs[0]) + after && after[0] == closing[0];
      assert ItemOk(xs[0]);
      DecodeItem(alnum, xs[0], after);
      assert ItemActive(alnum, xs[0], after) == ItemActive(alnum, xs[0], closing);
      DecodeDouble(alnum, xs[1..], tail);
      PrependAssociates(ItemValue(xs[0]), ItemsValue(xs[1..]), rest);
    }
  }

  lemma ExpandsExactly(alnum: Alnum, c: char)
    ensures Expands(alnum, c, InDouble) <==> Introduces(alnum, c)
    ensures Expands(alnum, c, Unquoted) <==> Introduces(alnum, c) || c == '\'' || c == '"'
  {
  }

  lemma {:induction false} FirstBrace(s: string)
    ensures UpToBrace(s).Some? <==> '}' in s
    ensures UpToBrace(s).Some? ==>
              var body := UpToBrace(s).value;
              |body| < |s| && body == s[..|body|] && s[|body|] == '}' && '}' !in body
  {
    if s == "" || s[0] == '}' {
    } else {
      FirstBrace(s[1..]);
      assert s == [s[0]] + s[1..];
    }
  }

  lemma {:induction false} BraceIsFirst(s: string, p: nat)
    requires p < |s| && s[p] == '}'
    ensures UpToBrace(s).Some? && |UpToBrace(s).value| <= p
  {
    if s[0] != '}' {
      BraceIsFirst(s[1..], p - 1);
    }
  }

  lemma ListedExactly(body: string)
    ensures Listed(body) <==> exists m | 0 <= m < |body| ::
              body[m] == ',' || (m + 1 < |body| && body[m] == '.' && body[m + 1] == '.')
  {
    forall j | 0 <= j < |body|
      ensures OccursAt(body, j, "..") <==> j + 1 < |body| && body[j] == '.' && body[j + 1] == '.'
    {
      if j + 2 <= |body| {
        assert body[j..j + 2] == [body[j], body[j + 1]];
      }
    }
    if j :| 0 <= j < |body| && OccursAt(body, j, "..") {
      assert body[j] == '.' && body[j + 1] == '.';
    }
  }

  lemma BodyFound(s: string, i: nat) returns (m: nat, j: nat)
    requires i < |s| && s[i] == '{' && UpToBrace(s[i + 1..]).Some? && Listed(UpToBrace(s[i + 1..]).value)
    ensures BracesAt(s, i, m, j)
  {
    var rest := s[i + 1..];
    var body := UpToBrace(rest).value;
    FirstBrace(rest);
    ListedExactly(body);
    var k :| 0 <= k < |body| && (body[k] == ',' || (k + 1 < |body| && body[k] == '.' && body[k + 1] == '.'));
    m, j := i + 1 + k, i + 1 + |body|;
    assert forall k | 0 <= k < |body| :: body[k] == s[i + 1 + k];
    assert forall k | i < k < j :: s[k] == body[k - i - 1];
  }

  lemma BracesFound(s: string, i: nat, m: nat, j: nat)
    requires BracesAt(s, i, m, j)
    ensures BraceList(s)
  {
    var rest := s[i + 1..];
    FirstBrace(rest);
    assert rest[j - i - 1] == '}';
    var body := UpToBrace(rest).value;
    assert rest[|body|] == s[i + 1 + |body|];
    BraceIsFirst(rest, j - i - 1);
    ListedExactly(body);
    assert body[m - i - 1] == s[m];
    assert m + 1 < j ==> body[m - i] == s[m + 1];
  }

  /** The search for a brace list finds what `Braces` says. */
  lemma BracesExactly(s: string)
    ensures BraceList(s) <==> Braces(s)
  {
    if i: nat :| i < |s| && s[i] == '{' && UpToBrace(s[i + 1..]).Some? && Listed(UpToBrace(s[i + 1..]).value) {
      var m, j := BodyFound(s, i);
      assert s[i] == '{' && s[j] == '}';
    }
    if i: nat, m: nat, j: nat :| BracesAt(s, i, m, j) {
      BracesFound(s, i, m, j);
    }
  }

  lemma {:induction false} DecodeBare(alnum: Alnum, c: char, after: string, first: bool)
    requires IsBare(c)
    ensures DecodeFrom(alnum, [c] + after, first, Unquoted)
         == if PartActive(alnum, Bare(c), after, first) then None
            else Prepend([c], DecodeFrom(alnum, after, false, Unquoted))
  {
    var s := [c] + after;
    assert s[0] == c && s[1..] == after;
    assert after != "" ==> s[1] == after[0];
    BracesExactly("{" + after);
    if after != "" {
      ExpandsExactly(alnum, after[0]);
    }
  }

  /** One part of a word, in front of any text. */
  lemma {:induction false} DecodePart(alnum: Alnum, p: Part, after: string, first: bool)
    requires PartOk(p)
    ensures DecodeFrom(alnum, ShowPart(p) + after, first, Unquoted)
         == if PartActive(alnum, p, after, first) then None
            else Prepend(PartValue(p), DecodeFrom(alnum, after, false, Unquoted))
  {
    match p
    case Bare(c) =>
      DecodeBare(alnum, c, after, first);
    case Escaped(c) =>
      var s := ['\\', c] + after;
      assert s[0] == '\\' && s[1] == c && s[2..] == after;
    case Single(body) =>
      Quotation('\'', body, after);
      DecodeSingle(alnum, body, after);
    case Double(items) =>
      Quotation('"', ShowItems(items), after);
      DecodeDouble(alnum, items, after);
  }

  lemma {:induction false} DecodeParts(alnum: Alnum, ps: seq<Part>, first: bool)
    requires WordOk(ps)
    ensures DecodeFrom(alnum, Show(ps), first, Unquoted)
         == if Active(alnum, ps, first) then None else Some(QuoteRemoval(ps))
  {
    if ps == [] {
    } else {
      assert PartOk(ps[0]);
      DecodePart(alnum, ps[0], Show(ps[1..]), first);
      DecodeParts(alnum, ps[1..], false);
    }
  }

  /**
   Main result for one word: the decoder returns None exactly when something in
   the word is active, and otherwise returns the POSIX quote removal of the word.
   */
  lemma DecodeIsQuoteRemoval(alnum: Alnum, ps: seq<Part>)
    requires WordOk(ps)
    ensures Decode(alnum, Show(ps)) == if Active(alnum, ps) then None else Some(QuoteRemoval(ps))
  {
    DecodeParts(alnum, ps, true);
  }

  /**
   The lexer and the decoder stay in step: every word token of every command is a
   well-formed word, so the decoder never ends in an open quote or on a dangling
   backslash and None means that the word is active.
   */
  lemma {:induction false} LexerAndDecoderAgree(alnum: Alnum, s: string, k: nat) returns (ps: seq<Part>)
    requires k < |Pieces(s)| && Pieces(s)[k].Token? && Pieces(s)[k].kind == Word
    ensures WordOk(ps) && ps != [] && Pieces(s)[k].text == Show(ps)
    ensures Decode(alnum, Pieces(s)[k].text)
         == if Active(alnum, ps) then None else Some(QuoteRemoval(ps))
  {
    if k == 0 {
      ps := WordOfText(s);
      assert Front(s, WordRest(s)) == Show(ps);
      DecodeIsQuoteRemoval(alnum, ps);
    } else {
      ps := LexerAndDecoderAgree(alnum, s[|FirstPiece(s).text|..], k - 1);
    }
  }

  // ------------------------------------------------------------- the quoter

  /** `quoted`: single quotes around the value, each `'` in it spelled `'"'"'`. */
  function Quoted(value: string): string {
    "'" + ReplaceQuotes(value) + "'"
  }

  function ReplaceQuotes(value: string): string {
    if value == "" then ""
    else (if value[0] == '\'' then "'\"'\"'" else [value[0]]) + ReplaceQuotes(value[1..])
  }

  /** The part `"'"`. */
  const DOUBLED_QUOTE := Double([Raw('\'')])

  /** The tree of a quoted value, `body` being what the open single quote holds already. */
  function QuotedParts(value: string, body: string): seq<Part> {
    if value == "" then [Single(body)]
    else if value[0] == '\'' then [Single(body), DOUBLED_QUOTE] + QuotedParts(value[1..], "")
    else QuotedParts(value[1..], body + [value[0]])
  }

  /** The text of `QuotedParts`. */
  function QuotedText(value: string, body: string): string {
    "'" + (body + ReplaceQuotes(value) + "'")
  }

  lemma TwoParts(p: Part, q: Part, rest: seq<Part>)
    ensures Show([p, q] + rest) == ShowPart(p) + (ShowPart(q) + Show(rest))
    ensures QuoteRemoval([p, q] + rest) == PartValue(p) + (PartValue(q) + QuoteRemoval(rest))
  {
    assert ([p, q] + rest)[1..] == [q] + rest && ([q] + rest)[1..] == rest;
  }

  /** `'"'"'` closes the body, shows one quote and opens the next body. */
  lemma QuotedStep(body: string, rest: seq<Part>)
    ensures var ps := [Single(body), DOUBLED_QUOTE] + rest;
            && Show(ps) == "'" + (body + ("'\"'\"" + Show(rest)))
            && QuoteRemoval(ps) == body + ("'" + QuoteRemoval(rest))
  {
    TwoParts(Single(body), DOUBLED_QUOTE, rest);
    DoubledQuoteShape();
    ClosedBody(body, Show(rest));
  }

  lemma DoubledQuoteShape()
    ensures ShowPart(DOUBLED_QUOTE) == "\"'\"" && PartValue(DOUBLED_QUOTE) == "'"
  {
    assert ShowItem(Raw('\'')) == "'" && ItemValue(Raw('\'')) == "'";
    assert [Raw('\'')][1..] == [];
    Neutral("'");
  }

  lemma ClosedBody(body: string, shown: string)
    ensures ("'" + body + "'") + ("\"'\"" + shown) == "'" + (body + ("'\"'\"" + shown))
  {
    var x := "\"'\"" + shown;
    Associative("'" + body, "'", x);
    Associative("'", body, "'" + x);
    Associative("'", "\"'\"", shown);
  }

  lemma QuoteReplaced(value: string, body: string)
    requires value != "" && value[0] == '\''
    ensures QuotedText(value, body) == "'" + (body + ("'\"'\"" + QuotedText(value[1..], "")))
  {
    var more := ReplaceQuotes(value[1..]);
    Neutral(more);
    assert ReplaceQuotes(value) == "'\"'\"" + ("'" + more);
  }

  predicate QuotedPart(p: Part) { p == DOUBLED_QUOTE || (p.Single? && '\'' !in p.body) }

  lemma {:induction false} QuotedIsWord(value: string, body: string)
    requires '\'' !in body
    ensures forall p <- QuotedParts(value, body) :: QuotedPart(p)
    decreases |value|
  {
    if value == "" {
    } else {
      if value[0] == '\'' {
        QuotedIsWord(value[1..], "");
      } else {
        QuotedIsWord(value[1..], body + [value[0]]);
      }
    }
  }

  lemma {:induction false} QuotedShows(value: string, body: string)
    ensures Show(QuotedParts(value, body)) == QuotedText(value, body)
    ensures QuoteRemoval(QuotedParts(value, body)) == body + value
    decreases |value|
  {
    if value == "" {
      assert [Single(body)][1..] == [];
    } else if value[0] == '\'' {
      QuotedShows(value[1..], "");
      QuotedStep(body, QuotedParts(value[1..], ""));
      QuoteReplaced(value, body);
      Neutral(value[1..]);
      assert value == "'" + value[1..];
    } else {
      QuotedShows(value[1..], body + [value[0]]);
      Associative(body, [value[0]], value[1..]);
      Associative(body, [value[0]], ReplaceQuotes(value[1..]));
      assert value == [value[0]] + value[1..];
    }
  }

  lemma {:induction false} NothingActive(alnum: Alnum, ps: seq<Part>, first: bool)
    requires forall p <- ps :: QuotedPart(p)
    ensures !Active(alnum, ps, first)
  {
    if ps == [] {
    } else {
      assert QuotedPart(ps[0]);
      NothingActive(alnum, ps[1..], false);
    }
  }

  /** A quoted value is one word, and it decodes to the value. */
  lemma DecodeQuoted(alnum: Alnum, value: string, tail: string)
    ensures Decode(alnum, Quoted(value)) == Some(value)
    ensures WordRest(Quoted(value) + tail) == WordRest(tail)
  {
    var ps := QuotedParts(value, "");
    QuotedIsWord(value, "");
    QuotedShows(value, "");
    Neutral(ReplaceQuotes(value));
    Associative("'", ReplaceQuotes(value), "'");
    Neutral(value);
    assert WordOk(ps);
    NothingActive(alnum, ps, true);
    DecodeIsQuoteRemoval(alnum, ps);
    LongestMatch(ps, tail);
  }

  /** The quoted strings with a space between neighbours. */
  function JoinQuoted(values: seq<string>): string {
    if values == [] then ""
    else if |values| == 1 then Quoted(values[0])
    else Quoted(values[0]) + " " + JoinQuoted(values[1..])
  }

  function DecodedTokens(alnum: Alnum, ts: seq<Piece>): seq<Option<string>> {
    if ts == [] then [] else [Decode(alnum, ts[0].text)] + DecodedTokens(alnum, ts[1..])
  }

  function Somes(values: seq<string>): seq<Option<string>> {
    if values == [] then [] else [Some(values[0])] + Somes(values[1..])
  }

  /** A quoted value at the front of a text that goes on with a space, or ends. */
  lemma LexOneQuoted(alnum: Alnum, value: string, tail: string)
    requires tail == "" || tail[0] == ' '
    ensures Pieces(Quoted(value) + tail) == [Token(Word, Quoted(value))] + Pieces(tail)
  {
    var q := Quoted(value);
    DecodeQuoted(alnum, value, tail);
    assert WordRest(tail) == tail;
    assert (q + tail)[..|q|] == q && (q + tail)[|q|..] == tail;
    assert |q| >= 2 && FirstPiece(q + tail) == Token(Word, q);
  }

  lemma LexJoined(alnum: Alnum, values: seq<string>)
    requires values != []
    ensures Tokens(Pieces(JoinQuoted(values)))
         == [Token(Word, Quoted(values[0]))] + Tokens(Pieces(JoinQuoted(values[1..])))
  {
    var joined := JoinQuoted(values[1..]);
    var tail := if |values| == 1 then "" else " " + joined;
    Associative(Quoted(values[0]), " ", joined);
    Neutral(Quoted(values[0]));
    assert JoinQuoted(values) == Quoted(values[0]) + tail;
    LexOneQuoted(alnum, values[0], tail);
    TokensCons(Token(Word, Quoted(values[0])), Pieces(tail));
    SpaceSkipped(joined);
  }

  lemma TokensCons(t: Piece, ps: seq<Piece>)
    requires t.Token?
    ensures Tokens([t] + ps) == [t] + Tokens(ps)
  {
    assert ([t] + ps)[1..] == ps;
  }

  lemma SpaceSkipped(s: string)
    ensures Tokens(Pieces(" " + s)) == Tokens(Pieces(s))
  {
    var spaced := " " + s;
    assert WordRest(spaced) == spaced;
    assert spaced[1..] == s && spaced[..1] == " ";
  }

  /**
   Main result for the quoter: quote every string of a list, join with spaces, lex
   with SHELL_WORDS and decode each token, and the list comes back. Nothing is
   assumed of the strings.
   */
  lemma {:induction false} QuoteRoundTrip(alnum: Alnum, values: seq<string>)
    ensures DecodedTokens(alnum, Tokens(Pieces(JoinQuoted(values)))) == Somes(values)
    ensures forall t <- Tokens(Pieces(JoinQuoted(values))) :: t.Token? && t.kind == Word
  {
    if values == [] {
    } else {
      QuoteRoundTrip(alnum, values[1..]);
      DecodeQuoted(alnum, values[0], "");
      LexJoined(alnum, values);
    }
  }
}
