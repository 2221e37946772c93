/**
 `frontmatter_document` of scripts/validate-engineering-impact.py: a leading block of
 `key: value` lines between `---` lines, with JSON or plain values, and the body after
 it. The main result is that a document assembled from proper fields parses to exactly
 those fields.
 */
module FrontMatter {
  import opened Prelude
  import opened Json

  datatype Refusal = NoFrontMatter | InvalidField | UnsupportedSyntax | InvalidJson

  // ------------------------------------------------------------------- lines

  /** Where `str.splitlines` breaks. */
  predicate LineBreak(c: char) {
    '\n' <= c <= '\r' || '\U{1C}' <= c <= '\U{1E}' || c == '\U{85}' || c == '\U{2028}' || c == '\U{2029}'
  }

  predicate OneLine(s: string) { forall c <- s :: !LineBreak(c) }

  /** The characters before the first line break. */
  function FirstLine(s: string): (l: string)
    ensures |l| <= |s|
  {
    if s == "" || LineBreak(s[0]) then "" else [s[0]] + FirstLine(s[1..])
  }

  /** `str.splitlines` */
  function SplitLines(s: string): seq<string>
    decreases |s|
  {
    if s == "" then []
    else
      var l := FirstLine(s);
      var rest := s[|l|..];
      [l] + (if rest == "" then []
             else if |rest| > 1 && rest[0] == '\r' && rest[1] == '\n' then SplitLines(rest[2..])
             else SplitLines(rest[1..]))
  }

  // ------------------------------------------------------------ the delimiters

  /** The text after `\r?\n` at the front of `s`. */
  function AfterNewline(s: string): (r: Option<string>)
    ensures r.Some? ==> |r.value| < |s|
  {
    if |s| > 1 && s[0] == '\r' && s[1] == '\n' then Some(s[2..])
    else if s != "" && s[0] == '\n' then Some(s[1..])
    else None
  }

  /** The text after a closing delimiter `\r?\n---(?:\r?\n|\Z)` at the front of `s`. */
  function AfterClose(s: string): (r: Option<string>)
    ensures r.Some? ==> |r.value| < |s|
  {
    if AfterNewline(s).None? then None else AfterDashes(AfterNewline(s).value)
  }

  function AfterDashes(t: string): (r: Option<string>)
    ensures r.Some? ==> |r.value| <= |t|
  {
    if !OccursAt(t, 0, "---") then None
    else if |t| == 3 then Some("")
    else AfterNewline(t[3..])
  }

  /** Up to the first closing delimiter, and what follows it. */
  function SplitClose(s: string): Option<(string, string)> {
    if AfterClose(s).Some? then Some(("", AfterClose(s).value))
    else if s == "" then None
    else
      var r := SplitClose(s[1..]);
      if r.None? then None else Some(([s[0]] + r.value.0, r.value.1))
  }

  /** The block and the text behind it. */
  function Split(markdown: string): Option<(string, string)> {
    if !OccursAt(markdown, 0, "---") || AfterNewline(markdown[3..]).None? then None
    else SplitClose(AfterNewline(markdown[3..]).value)
  }

  // ------------------------------------------------------------------ a field

  function BeforeColon(line: string): (k: string)
    ensures k <= line && |k| < |line| ==> line[|k|] == ':'
  {
    if line == "" || line[0] == ':' then "" else [line[0]] + BeforeColon(line[1..])
  }

  /** `re.fullmatch(r"-?\d+", raw)` */
  predicate IntegerText(raw: string) {
    raw != "" && (IsDigit(raw[0]) || (raw[0] == '-' && |raw| > 1)) && forall k | 0 < k < |raw| :: IsDigit(raw[k])
  }

  predicate Structured(raw: string) {
    raw != "" && (raw[0] in "[{\"" || raw in ["true", "false", "null"] || IntegerText(raw))
  }

  function Decode(raw: string): Result<Value, Refusal>
    requires raw != ""
  {
    if raw[0] in "'|>&*!" then Err(UnsupportedSyntax)
    else if !Structured(raw) then Ok(Str(raw))
    else if Loads(raw).Some? then Ok(Loads(raw).value)
    else Err(InvalidJson)
  }

  /** One pass of the loop over the lines. */
  function ReadLine(line: string, values: map<string, Value>): Result<map<string, Value>, Refusal> {
    if Strip(line) == "" then Ok(values)
    else
      var before := BeforeColon(line);
      if |before| >= |line| then Err(InvalidField)
      else
        var key, raw := Strip(before), Strip(line[|before| + 1..]);
        if key == "" || key in values || raw == "" then Err(InvalidField)
        else
          var value := Decode(raw);
          if value.Err? then Err(value.error) else Ok(values[key := value.value])
  }

  function ReadLines(lines: seq<string>, values: map<string, Value>): Result<map<string, Value>, Refusal> {
    if lines == [] then Ok(values)
    else
      var r := ReadLine(lines[0], values);
      if r.Err? then r else ReadLines(lines[1..], r.value)
  }

  /** `frontmatter_document`: the values and the stripped body. */
  function Document(markdown: string): Result<(map<string, Value>, string), Refusal> {
    var parts := Split(markdown);
    if parts.None? then Err(NoFrontMatter)
    else
      var values := ReadLines(SplitLines(parts.value.0), map[]);
      if values.Err? then Err(values.error) else Ok((values.value, Strip(parts.value.1)))
  }

  /** The function with its loop. */
  method FrontmatterDocument(markdown: string) returns (r: Result<(map<string, Value>, string), Refusal>)
    ensures r == Document(markdown)
  {
    var parts := Split(markdown);
    if parts.None? {
      return Err(NoFrontMatter);
    }
    var values: map<string, Value> := map[];
    var lines := SplitLines(parts.value.0);
    assert lines[0..] == lines;
    for i := 0 to |lines|
      invariant ReadLines(lines[i..], values) == ReadLines(lines, map[])
    {
      var line := lines[i];
      assert lines[i..][1..] == lines[i + 1..];
      if Strip(line) == "" {
        continue;
      }
      var before := BeforeColon(line);
      if |before| >= |line| {
        return Err(InvalidField);
      }
      var key, raw := Strip(before), Strip(line[|before| + 1..]);
      if key == "" || key in values || raw == "" {
        return Err(InvalidField);
      }
      var value := Decode(raw);
      if value.Err? {
        return Err(value.error);
      }
      values := values[key := value.value];
    }
    return Ok((values, Strip(parts.value.1)));
  }

  // ------------------------------------------------------ assembled documents

  datatype Field = Field(key: string, text: string, value: Value)

  /** A key without a colon, and a text of one line that decodes to the value. */
  predicate FieldOk(f: Field) {
    && f.key != "" && Trimmed(f.key) && OneLine(f.key) && ':' !in f.key && f.key[0] != '-'
    && f.text != "" && Trimmed(f.text) && OneLine(f.text)
    && Decode(f.text) == Ok(f.value)
  }

  function LineOf(f: Field): string { f.key + (": " + f.text) }

  function LinesOf(fields: seq<Field>): seq<string> {
    if fields == [] then [] else [LineOf(fields[0])] + LinesOf(fields[1..])
  }

  function Join(lines: seq<string>): string
    requires lines != []
  {
    if |lines| == 1 then lines[0] else lines[0] + ("\n" + Join(lines[1..]))
  }

  function Assemble(fields: seq<Field>, rest: string): string
    requires fields != []
  {
    "---\n" + (Join(LinesOf(fields)) + ("\n---\n" + rest))
  }

  predicate DistinctKeys(fields: seq<Field>) {
    forall i, j | 0 <= i < j < |fields| :: fields[i].key != fields[j].key
  }

  function ValuesOf(fields: seq<Field>): map<string, Value> {
    if fields == [] then map[]
        else ValuesOf(fields[..|fields| - 1])[fields[|fields| - 1].key := fields[|fields| - 1].value]
  }

  /** A line that can stand between the delimiters: of one line, not empty, and not a delimiter. */
  predicate Inner(line: string) { line != "" && OneLine(line) && line[0] != '-' }

  lemma LineIsInner(f: Field)
    requires FieldOk(f)
    ensures Inner(LineOf(f))
  {
    assert LineOf(f)[0] == f.key[0];
    forall c | c in LineOf(f)
      ensures !LineBreak(c)
    {
      assert c in f.key || c in ": " || c in f.text;
    }
  }

  lemma {:induction false} LinesAreInner(fields: seq<Field>)
    requires forall f <- fields :: FieldOk(f)
    ensures |LinesOf(fields)| == |fields|
    ensures forall l <- LinesOf(fields) :: Inner(l)
  {
    if fields == [] {
    } else {
      LineIsInner(fields[0]);
      LinesAreInner(fields[1..]);
    }
  }

  // The block ends where it should.

  lemma {:induction false} SkipLine(line: string, s: string)
    requires OneLine(line) && SplitClose(s).Some?
    ensures SplitClose(line + s) == Some((line + SplitClose(s).value.0, SplitClose(s).value.1))
  {
    if line == "" {
      Neutral(s);
      Neutral(SplitClose(s).value.0);
    } else {
      assert (line + s)[1..] == line[1..] + s;
      assert (line + s)[0] == line[0] && !LineBreak(line[0]);
      SkipLine(line[1..], s);
      assert [line[0]] + (line[1..] + SplitClose(s).value.0) == line + SplitClose(s).value.0;
    }
  }

  lemma ClosesHere(rest: string)
    ensures SplitClose("\n---\n" + rest) == Some(("", rest))
  {
    var s := "\n---\n" + rest;
    assert s[1..] == "---\n" + rest;
    assert s[1..][..3] == "---";
    assert s[1..][3..] == "\n" + rest;
    assert ("\n" + rest)[1..] == rest;
  }

  lemma NewlineGoesOn(t: string)
    requires t != "" && t[0] != '-' && SplitClose(t).Some?
    ensures SplitClose("\n" + t) == Some(("\n" + SplitClose(t).value.0, SplitClose(t).value.1))
  {
    assert ("\n" + t)[1..] == t;
    assert "---"[0] == '-';
    if |t| >= 3 {
      assert t[0..3][0] == t[0];
    }
  }

  lemma {:induction false} BlockSplits(lines: seq<string>, rest: string)
    requires lines != [] && forall l <- lines :: Inner(l)
    ensures SplitClose(Join(lines) + ("\n---\n" + rest)) == Some((Join(lines), rest))
    decreases |lines|
  {
    var close := "\n---\n" + rest;
    assert Inner(lines[0]);
    if |lines| == 1 {
      ClosesHere(rest);
      SkipLine(lines[0], close);
      Neutral(lines[0]);
    } else {
      var t := Join(lines[1..]) + close;
      BlockSplits(lines[1..], rest);
      assert Inner(lines[1]) && t[0] == lines[1][0];
      NewlineGoesOn(t);
      SkipLine(lines[0], "\n" + t);
      Regroup(lines[0], "\n", Join(lines[1..]), close);
    }
  }

  // The lines come apart again.

  lemma {:induction false} FirstLineStops(line: string, s: string)
    requires OneLine(line) && (s == "" || LineBreak(s[0]))
    ensures FirstLine(line + s) == line
  {
    if line == "" {
      Neutral(s);
    } else {
      assert (line + s)[1..] == line[1..] + s;
      FirstLineStops(line[1..], s);
    }
  }

  lemma {:induction false} JoinSplits(lines: seq<string>)
    requires lines != [] && forall l <- lines :: Inner(l)
    ensures SplitLines(Join(lines)) == lines
    decreases |lines|
  {
    assert Inner(lines[0]);
    if |lines| == 1 {
      FirstLineStops(lines[0], "");
      Neutral(lines[0]);
      assert [lines[0]] == lines;
    } else {
      JoinSplits(lines[1..]);
      LineThenRest(lines[0], Join(lines[1..]));
      assert [lines[0]] + lines[1..] == lines;
    }
  }

  lemma LineThenRest(line: string, t: string)
    requires Inner(line)
    ensures SplitLines(line + ("\n" + t)) == [line] + SplitLines(t)
  {
    FirstLineStops(line, "\n" + t);
    assert (line + ("\n" + t))[|line|..] == "\n" + t;
    assert ("\n" + t)[1..] == t;
  }

  // Each line gives its field.

  lemma {:induction false} ColonFound(key: string, s: string)
    requires ':' !in key
    ensures BeforeColon(key + (":" + s)) == key
  {
    if key == "" {
      Neutral(":" + s);
    } else {
      assert (key + (":" + s))[1..] == key[1..] + (":" + s);
      ColonFound(key[1..], s);
    }
  }

  lemma LineNotBlank(f: Field)
    requires FieldOk(f)
    ensures Strip(LineOf(f)) != ""
  {
    var line := LineOf(f);
    assert Trimmed(line) by {
      assert line[0] == f.key[0] && line[|line| - 1] == f.text[|f.text| - 1];
    }
    StripFixpoint(line);
  }

  lemma LineReads(f: Field, values: map<string, Value>)
    requires FieldOk(f) && f.key !in values
    ensures ReadLine(LineOf(f), values) == Ok(values[f.key := f.value])
  {
    LineNotBlank(f);
    ColonFound(f.key, " " + f.text);
    assert LineOf(f) == f.key + (":" + (" " + f.text));
    assert LineOf(f)[|f.key| + 1..] == " " + f.text;
    StripFixpoint(f.key);
    StripSurrounded(" ", f.text, "");
    assert " " + f.text + "" == " " + f.text;
  }

  lemma {:induction false} ValuesHaveKeys(fields: seq<Field>)
    ensures forall k :: k in ValuesOf(fields) <==> exists i | 0 <= i < |fields| :: fields[i].key == k
  {
    if fields == [] {
    } else {
      var n := |fields| - 1;
      ValuesHaveKeys(fields[..n]);
      forall k
        ensures k in ValuesOf(fields) <==> exists i | 0 <= i < |fields| :: fields[i].key == k
      {
        if i :| 0 <= i < |fields| && fields[i].key == k && i < n {
          assert fields[..n][i].key == k;
        }
        if k in ValuesOf(fields[..n]) {
          var i :| 0 <= i < n && fields[..n][i].key == k;
          assert fields[i].key == k;
        }
      }
    }
  }

  lemma {:induction false} FieldsRead(fields: seq<Field>, i: nat)
    requires i <= |fields| && DistinctKeys(fields) && forall f <- fields :: FieldOk(f)
    ensures ReadLines(LinesOf(fields[i..]), ValuesOf(fields[..i])) == Ok(ValuesOf(fields))
    decreases |fields| - i
  {
    if i == |fields| {
      assert fields[..i] == fields;
    } else {
      ValuesHaveKeys(fields[..i]);
      LineReads(fields[i], ValuesOf(fields[..i]));
      FieldsRead(fields, i + 1);
      assert fields[i..][1..] == fields[i + 1..];
      assert fields[..i + 1][..i] == fields[..i];
    }
  }

  /** An assembled document parses to exactly its fields and the stripped text behind them. */
  lemma AssembledParses(fields: seq<Field>, rest: string)
    requires fields != [] && DistinctKeys(fields) && forall f <- fields :: FieldOk(f)
    ensures Document(Assemble(fields, rest)) == Ok((ValuesOf(fields), Strip(rest)))
  {
    var lines := LinesOf(fields);
    LinesAreInner(fields);
    BlockSplits(lines, rest);
    JoinSplits(lines);
    FieldsRead(fields, 0);
    OpensAt(Join(lines) + ("\n---\n" + rest));
    assert fields[0..] == fields;
  }

  lemma OpensAt(t: string)
    ensures Split("---\n" + t) == SplitClose(t)
  {
    var s := "---\n" + t;
    assert s[0..3] == "---";
    assert s[3..] == "\n" + t;
    assert ("\n" + t)[1..] == t;
  }
}
