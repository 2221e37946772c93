/**
 What a document with front matter says, written out: its two delimiters, and lines that
 give each key once. The parser reads exactly this.
 */
module FrontMatterExact {
  import opened Prelude
  import opened Json
  import opened FrontMatter

  // ---------------------------------------------------------------- delimiters

  /** A line ending stands at `p` and ends before `q`. */
  predicate Break(s: string, p: nat, q: nat) {
    && p < q <= |s|
    && ((q == p + 1 && s[p] == '\n') || (q == p + 2 && s[p] == '\r' && s[p + 1] == '\n'))
  }

  predicate Dashes(s: string, p: nat) { p + 3 <= |s| && s[p] == '-' && s[p + 1] == '-' && s[p + 2] == '-' }

  /** A closing delimiter stands at `p`, and the text goes on at `q`. */
  predicate Closes(s: string, p: nat, d: nat, q: nat) {
    Break(s, p, d) && Dashes(s, d) && ((q == |s| == d + 3) || Break(s, d + 3, q))
  }

  /** The first closing delimiter from `i` on. */
  ghost predicate FirstClose(s: string, i: nat, p: nat, d: nat, q: nat) {
    i <= p && Closes(s, p, d, q) && forall e: nat, f: nat, g: nat | i <= e < p :: !Closes(s, e, f, g)
  }

  /** The block between the opening delimiter and the first closing one, and what is behind it. */
  ghost predicate Splits(m: string, block: string, rest: string) {
    Dashes(m, 0) && exists i: nat, p: nat, d: nat, q: nat :: SplitsAt(m, block, rest, i, p, d, q)
  }

  ghost predicate SplitsAt(m: string, block: string, rest: string, i: nat, p: nat, d: nat, q: nat) {
    Break(m, 3, i) && FirstClose(m, i, p, d, q) && block == m[i..p] && rest == m[q..]
  }

  lemma BreakExactly(s: string, p: nat)
    requires p <= |s|
    ensures AfterNewline(s[p..]).Some? ==>
              var q := |s| - |AfterNewline(s[p..]).value|;
              Break(s, p, q) && AfterNewline(s[p..]).value == s[q..]
    ensures forall q: nat | Break(s, p, q) :: AfterNewline(s[p..]) == Some(s[q..])
  {
  }

  lemma DashesExactly(s: string, p: nat)
    requires p <= |s|
    ensures OccursAt(s[p..], 0, "---") <==> Dashes(s, p)
  {
    var u := s[p..];
    if |u| >= 3 {
      assert u[0..3] == [u[0], u[1], u[2]];
    }
  }

  lemma CloseExactly(s: string, p: nat) returns (d: nat, q: nat)
    requires p <= |s|
    ensures AfterClose(s[p..]).Some? ==> Closes(s, p, d, q) && AfterClose(s[p..]) == Some(s[q..])
    ensures forall e: nat, f: nat | Closes(s, p, e, f) :: AfterClose(s[p..]) == Some(s[f..])
  {
    d, q := 0, 0;
    BreakExactly(s, p);
    var after := AfterNewline(s[p..]);
    if after.Some? {
      d := |s| - |after.value|;
      DashesExactly(s, d);
      if Dashes(s, d) {
        BreakExactly(s, d + 3);
        assert s[d..][3..] == s[d + 3..];
        var last := AfterNewline(s[d + 3..]);
        q := if last.Some? then |s| - |last.value| else |s|;
      }
    }
    forall e: nat, f: nat | Closes(s, p, e, f)
      ensures AfterClose(s[p..]) == Some(s[f..])
    {
      assert Break(s, p, e);
    }
  }

  lemma {:induction false} SplitCloseExactly(s: string, c: nat) returns (p: nat, d: nat, q: nat)
    requires c <= |s|
    ensures SplitClose(s[c..]).Some? ==> FirstClose(s, c, p, d, q) && SplitClose(s[c..]) == Some((s[c..p], s[q..]))
    ensures SplitClose(s[c..]).None? ==> forall e: nat, f: nat, g: nat | c <= e :: !Closes(s, e, f, g)
    decreases |s| - c
  {
    p := c;
    d, q := CloseExactly(s, c);
    if AfterClose(s[c..]).Some? {
      assert s[c..c] == "";
    } else if c < |s| {
      assert s[c..][1..] == s[c + 1..];
      p, d, q := SplitCloseExactly(s, c + 1);
      if SplitClose(s[c + 1..]).Some? {
        assert s[c..p] == [s[c]] + s[c + 1..p];
      }
    }
  }

  lemma SplitsOnce(m: string, block: string, rest: string, block': string, rest': string)
    requires Splits(m, block, rest) && Splits(m, block', rest')
    ensures block == block' && rest == rest'
  {
    var i: nat, p: nat, d: nat, q: nat :| SplitsAt(m, block, rest, i, p, d, q);
    var i': nat, p': nat, d': nat, q': nat :| SplitsAt(m, block', rest', i', p', d', q');
    assert i == i';
    assert p == p' by {
      assert Closes(m, p, d, q) && Closes(m, p', d', q');
    }
    assert d == d' && q == q';
  }

  lemma SplitGives(m: string)
    ensures Split(m).Some? ==> Splits(m, Split(m).value.0, Split(m).value.1)
    ensures Split(m).None? ==> forall block: string, rest: string :: !Splits(m, block, rest)
  {
    DashesExactly(m, 0);
    assert m[0..] == m;
    if Dashes(m, 0) {
      BreakExactly(m, 3);
      if AfterNewline(m[3..]).Some? {
        var i := |m| - |AfterNewline(m[3..]).value|;
        var p, d, q := SplitCloseExactly(m, i);
        if SplitClose(m[i..]).Some? {
          assert SplitsAt(m, m[i..p], m[q..], i, p, d, q);
        }
      }
    }
  }

  /** The parser finds the two delimiters as `Splits` says. */
  lemma SplitExactly(m: string, block: string, rest: string)
    ensures Split(m) == Some((block, rest)) <==> Splits(m, block, rest)
  {
    SplitGives(m);
    if Splits(m, block, rest) && Split(m).Some? {
      SplitsOnce(m, block, rest, Split(m).value.0, Split(m).value.1);
    }
  }

  // --------------------------------------------------------------------- lines

  /** The first colon of the line. */
  predicate Colon(line: string, k: nat) { k < |line| && line[k] == ':' && forall j | 0 <= j < k :: line[j] != ':' }

  /** A list, an object, a string, one of three words, or a number: what has to be JSON. */
  predicate JsonLike(raw: string) {
    && |raw| > 0
    && (raw[0] == '[' || raw[0] == '{' || raw[0] == '"' || raw == "true" || raw == "false" || raw == "null"
        || ((IsDigit(raw[0]) || (raw[0] == '-' && |raw| > 1)) && forall k | 0 < k < |raw| :: IsDigit(raw[k])))
  }

  /** What a text stands for: JSON, or itself; some first characters are refused. */
  predicate TextSays(raw: string, v: Value) {
    && |raw| > 0 && raw[0] != '\'' && raw[0] != '|' && raw[0] != '>' && raw[0] != '&' && raw[0] != '*' && raw[0] != '!'
    && if JsonLike(raw) then Loads(raw) == Some(v) else v == Str(raw)
  }

  predicate LineSays(line: string, key: string, v: Value) {
    exists k | 0 <= k < |line| ::
      Colon(line, k) && Strip(line[..k]) == key && key != "" && TextSays(Strip(line[k + 1..]), v)
  }

  /** Every line that is not blank gives a value beyond those of `before`. */
  predicate EachLine(lines: seq<string>, before: map<string, Value>, v: map<string, Value>) {
    forall i | 0 <= i < |lines| :: NonBlank(lines[i]) ==> GivesNew(lines[i], before, v)
  }

  predicate GivesNew(line: string, before: map<string, Value>, v: map<string, Value>) {
    exists key | key in v && key !in before :: LineSays(line, key, v[key])
  }

  /** Every such value is given by a line. */
  predicate EachKey(lines: seq<string>, before: map<string, Value>, v: map<string, Value>) {
    forall key | key in v && key !in before :: GivenBy(lines, key, v[key])
  }

  predicate GivenBy(lines: seq<string>, key: string, v: Value) {
    exists i | 0 <= i < |lines| :: LineSays(lines[i], key, v)
  }

  /** No value is given twice. */
  predicate Once(lines: seq<string>, v: map<string, Value>) {
    forall i, j, key | 0 <= i < j < |lines| && key in v ::
      !(LineSays(lines[i], key, v[key]) && LineSays(lines[j], key, v[key]))
  }

  /** The lines that are not blank give the values beyond those of `before`, each key once. */
  predicate Says(lines: seq<string>, before: map<string, Value>, v: map<string, Value>) {
    && before.Keys <= v.Keys && (forall key <- before :: v[key] == before[key])
    && EachLine(lines, before, v) && EachKey(lines, before, v) && Once(lines, v)
  }

  lemma {:induction false} ColonExactly(line: string)
    ensures var k := |BeforeColon(line)|;
            if k < |line| then Colon(line, k) && BeforeColon(line) == line[..k]
            else forall j | 0 <= j < |line| :: line[j] != ':'
  {
    if line == "" || line[0] == ':' {
    } else {
      ColonExactly(line[1..]);
      assert line == [line[0]] + line[1..];
    }
  }

  lemma TextExactly(raw: string, v: Value)
    requires raw != ""
    ensures FrontMatter.Decode(raw) == Ok(v) <==> TextSays(raw, v)
  {
  }

  lemma OneColon(line: string, k: nat, j: nat)
    requires Colon(line, k) && Colon(line, j)
    ensures k == j
  {
  }

  lemma {:induction false} LeftHasText(s: string, k: nat)
    requires k < |s| && !IsSpace(s[k])
    ensures StripLeft(s) != "" && exists j | 0 <= j < |StripLeft(s)| :: !IsSpace(StripLeft(s)[j])
  {
    if !IsSpace(s[0]) {
    } else {
      LeftHasText(s[1..], k - 1);
    }
  }

  lemma {:induction false} RightHasText(s: string, k: nat)
    requires k < |s| && !IsSpace(s[k])
    ensures StripRight(s) != ""
  {
    if !IsSpace(s[|s| - 1]) {
    } else {
      RightHasText(s[..|s| - 1], k);
    }
  }

  /** A line with a colon is not blank. */
  lemma ColonIsText(line: string, k: nat)
    requires Colon(line, k)
    ensures NonBlank(line)
  {
    LeftHasText(line, k);
    var j :| 0 <= j < |StripLeft(line)| && !IsSpace(StripLeft(line)[j]);
    RightHasText(StripLeft(line), j);
  }

  /** What the one line of a field gives; it gives only that. */
  lemma LineIs(line: string, k: nat, key: string, v: Value)
    requires Colon(line, k)
    ensures LineSays(line, key, v) <==>
              Strip(line[..k]) == key && key != "" && TextSays(Strip(line[k + 1..]), v)
  {
    if LineSays(line, key, v) {
      var j :| 0 <= j < |line| && Colon(line, j) && Strip(line[..j]) == key && key != ""
               && TextSays(Strip(line[j + 1..]), v);
      OneColon(line, k, j);
    }
  }

  /** One line of the loop: it gives one new key a value, or the document is refused. */
  lemma ReadLineExactly(line: string, before: map<string, Value>)
    ensures !NonBlank(line) ==>
              ReadLine(line, before) == Ok(before) && forall key: string, v: Value :: !LineSays(line, key, v)
    ensures NonBlank(line) && ReadLine(line, before).Err? ==>
              forall key: string, v: Value :: LineSays(line, key, v) ==> key in before
    ensures NonBlank(line) && ReadLine(line, before).Ok? ==>
              exists key: string, v: Value :: key !in before && LineSays(line, key, v)
                                              && ReadLine(line, before).value == before[key := v]
  {
    var k := |BeforeColon(line)|;
    ColonExactly(line);
    if k < |line| {
      ColonIsText(line, k);
      var key, raw := Strip(line[..k]), Strip(line[k + 1..]);
      forall other: string, w: Value
        ensures LineSays(line, other, w) <==> key == other && key != "" && TextSays(raw, w)
      {
        LineIs(line, k, other, w);
      }
      if raw != "" {
        forall w: Value
          ensures FrontMatter.Decode(raw) == Ok(w) <==> TextSays(raw, w)
        {
          TextExactly(raw, w);
        }
        if key != "" && key !in before && FrontMatter.Decode(raw).Ok? {
          assert LineSays(line, key, FrontMatter.Decode(raw).value);
        }
      }
    }
  }

  /** A line says one thing. */
  lemma OneMeaning(line: string, key: string, v: Value, other: string, w: Value)
    requires LineSays(line, key, v) && LineSays(line, other, w)
    ensures key == other && v == w
  {
    var k := |BeforeColon(line)|;
    ColonExactly(line);
    LineIs(line, k, key, v);
    LineIs(line, k, other, w);
  }

  lemma RestLines(lines: seq<string>, v: map<string, Value>)
    requires lines != []
    ensures Once(lines, v) ==> Once(lines[1..], v)
    ensures forall key: string, w: Value ::
              GivenBy(lines, key, w) <==> LineSays(lines[0], key, w) || GivenBy(lines[1..], key, w)
  {
    var rest := lines[1..];
    forall key: string, w: Value
      ensures GivenBy(lines, key, w) <==> LineSays(lines[0], key, w) || GivenBy(rest, key, w)
    {
      if GivenBy(rest, key, w) {
        var i :| 0 <= i < |rest| && LineSays(rest[i], key, w);
        assert LineSays(lines[i + 1], key, w);
      }
      if i :| 0 <= i < |lines| && LineSays(lines[i], key, w) {
        if i > 0 {
          assert LineSays(rest[i - 1], key, w);
        }
      }
    }
    if Once(lines, v) {
      forall i, j, key | 0 <= i < j < |rest| && key in v
        ensures !(LineSays(rest[i], key, v[key]) && LineSays(rest[j], key, v[key]))
      {
        assert rest[i] == lines[i + 1] && rest[j] == lines[j + 1];
      }
    }
  }

  lemma OnceCons(lines: seq<string>, v: map<string, Value>)
    requires lines != [] && Once(lines[1..], v)
    requires forall key | key in v && LineSays(lines[0], key, v[key]) :: !GivenBy(lines[1..], key, v[key])
    ensures Once(lines, v)
  {
    var rest := lines[1..];
    forall i, j, key | 0 <= i < j < |lines| && key in v
      ensures !(LineSays(lines[i], key, v[key]) && LineSays(lines[j], key, v[key]))
    {
      assert lines[j] == rest[j - 1];
      if i > 0 {
        assert lines[i] == rest[i - 1];
      }
    }
  }

  lemma EachRest(lines: seq<string>, before: map<string, Value>, v: map<string, Value>)
    requires lines != []
    ensures EachLine(lines, before, v) <==>
              (NonBlank(lines[0]) ==> GivesNew(lines[0], before, v)) && EachLine(lines[1..], before, v)
  {
    var rest := lines[1..];
    assert forall i | 0 <= i < |rest| :: rest[i] == lines[i + 1];
    if EachLine(rest, before, v) && (NonBlank(lines[0]) ==> GivesNew(lines[0], before, v)) {
      forall i | 0 <= i < |lines|
        ensures NonBlank(lines[i]) ==> GivesNew(lines[i], before, v)
      {
        if i > 0 {
          assert lines[i] == rest[i - 1];
        }
      }
    }
  }

  lemma BlankStep(lines: seq<string>, before: map<string, Value>, v: map<string, Value>)
    requires lines != [] && !NonBlank(lines[0])
    ensures Says(lines, before, v) <==> Says(lines[1..], before, v)
  {
    ReadLineExactly(lines[0], before);
    RestLines(lines, v);
    EachRest(lines, before, v);
    if Once(lines[1..], v) {
      OnceCons(lines, v);
    }
  }

  lemma FirstGives(line: string, before: map<string, Value>, key: string, w: Value, v: map<string, Value>)
    requires GivesNew(line, before, v) && LineSays(line, key, w)
    ensures key in v && v[key] == w
  {
    var first :| first in v && first !in before && LineSays(line, first, v[first]);
    OneMeaning(line, key, w, first, v[first]);
  }

  lemma KeysOn(lines: seq<string>, before: map<string, Value>, key: string, w: Value, v: map<string, Value>)
    requires lines != [] && EachKey(lines, before, v) && LineSays(lines[0], key, w)
    ensures EachKey(lines[1..], before[key := w], v)
  {
    RestLines(lines, v);
    forall other | other in v && other !in before[key := w]
      ensures GivenBy(lines[1..], other, v[other])
    {
      assert GivenBy(lines, other, v[other]);
      if LineSays(lines[0], other, v[other]) {
        OneMeaning(lines[0], key, w, other, v[other]);
      }
    }
  }

  /** A line that gives a new key its value goes first. */
  lemma SaysOn(lines: seq<string>, before: map<string, Value>, key: string, w: Value, v: map<string, Value>)
    requires lines != [] && key !in before && LineSays(lines[0], key, w) && NonBlank(lines[0])
    requires Says(lines, before, v)
    ensures Says(lines[1..], before[key := w], v)
  {
    RestLines(lines, v);
    EachRest(lines, before, v);
    FirstGives(lines[0], before, key, w, v);
    LinesOn(lines, before, key, w, v);
    KeysOn(lines, before, key, w, v);
  }

  lemma LinesOn(lines: seq<string>, before: map<string, Value>, key: string, w: Value, v: map<string, Value>)
    requires lines != [] && EachLine(lines[1..], before, v) && Once(lines, v)
    requires key in v && v[key] == w && LineSays(lines[0], key, w)
    ensures EachLine(lines[1..], before[key := w], v)
  {
    var rest := lines[1..];
    forall i | 0 <= i < |rest| && NonBlank(rest[i])
      ensures GivesNew(rest[i], before[key := w], v)
    {
      var other :| other in v && other !in before && LineSays(rest[i], other, v[other]);
      assert rest[i] == lines[i + 1];
      assert other != key;
    }
  }

  lemma SaysBack(lines: seq<string>, before: map<string, Value>, key: string, w: Value, v: map<string, Value>)
    requires lines != [] && key !in before && LineSays(lines[0], key, w) && NonBlank(lines[0])
    requires Says(lines[1..], before[key := w], v)
    ensures Says(lines, before, v)
  {
    var rest, more := lines[1..], before[key := w];
    RestLines(lines, v);
    assert key in more && v[key] == more[key] == w;
    LinesBack(rest, before, key, w, v);
    EachRest(lines, before, v);
    NotAgain(rest, more, key, v);
    forall other | other in v && LineSays(lines[0], other, v[other])
      ensures !GivenBy(rest, other, v[other])
    {
      OneMeaning(lines[0], key, w, other, v[other]);
    }
    OnceCons(lines, v);
  }

  lemma LinesBack(lines: seq<string>, before: map<string, Value>, key: string, w: Value, v: map<string, Value>)
    requires EachLine(lines, before[key := w], v)
    ensures EachLine(lines, before, v)
  {
    forall i | 0 <= i < |lines| && NonBlank(lines[i])
      ensures GivesNew(lines[i], before, v)
    {
      var other :| other in v && other !in before[key := w] && LineSays(lines[i], other, v[other]);
    }
  }

  lemma NewIsOther(line: string, before: map<string, Value>, key: string, v: map<string, Value>)
    requires GivesNew(line, before, v) && key in before && key in v
    ensures !LineSays(line, key, v[key])
  {
    var other :| other in v && other !in before && LineSays(line, other, v[other]);
    if LineSays(line, key, v[key]) {
      OneMeaning(line, key, v[key], other, v[other]);
    }
  }

  /** What was given before is given by none of the lines. */
  lemma NotAgain(lines: seq<string>, before: map<string, Value>, key: string, v: map<string, Value>)
    requires EachLine(lines, before, v) && key in before && key in v
    ensures !GivenBy(lines, key, v[key])
  {
    forall i | 0 <= i < |lines|
      ensures !LineSays(lines[i], key, v[key])
    {
      if NonBlank(lines[i]) {
        NewIsOther(lines[i], before, key, v);
      } else {
        ReadLineExactly(lines[i], before);
      }
    }
  }

  /** The loop reads exactly what the lines say. */
  lemma {:induction false} ReadLinesExactly(lines: seq<string>, before: map<string, Value>, v: map<string, Value>)
    ensures ReadLines(lines, before) == Ok(v) <==> Says(lines, before, v)
    decreases lines
  {
    if lines == [] {
      if Says(lines, before, v) {
        assert forall key | key in v :: key in before;
        assert v == before;
      }
    } else {
      ReadLineExactly(lines[0], before);
      if !NonBlank(lines[0]) {
        BlankStep(lines, before, v);
        ReadLinesExactly(lines[1..], before, v);
      } else if ReadLine(lines[0], before).Ok? {
        var key: string, w: Value :| key !in before && LineSays(lines[0], key, w)
                                     && ReadLine(lines[0], before).value == before[key := w];
        if Says(lines, before, v) {
          SaysOn(lines, before, key, w, v);
        }
        if Says(lines[1..], before[key := w], v) {
          SaysBack(lines, before, key, w, v);
        }
        ReadLinesExactly(lines[1..], before[key := w], v);
      } else {
        EachRest(lines, before, v);
      }
    }
  }

  /** A document parses to these values and this body exactly if it says so. */
  lemma DocumentExactly(markdown: string, v: map<string, Value>, body: string)
    ensures Document(markdown) == Ok((v, body)) <==>
              exists block: string, rest: string ::
                Splits(markdown, block, rest) && Says(SplitLines(block), map[], v) && body == Strip(rest)
  {
    SplitGives(markdown);
    if Split(markdown).Some? {
      var (block, rest) := Split(markdown).value;
      ReadLinesExactly(SplitLines(block), map[], v);
      forall block': string, rest': string | Splits(markdown, block', rest')
        ensures block' == block && rest' == rest
      {
        SplitsOnce(markdown, block, rest, block', rest');
      }
    }
  }
}
