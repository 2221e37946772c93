/**
 The lines of a transition log as src/agent_watcher.py writes and reads them: printing
 with `json.dumps`, whose output is ASCII, and strict decoding of UTF-8 and of JSON
 objects without repeated names, with the checks of a transition's fields.
 */
module TransitionText {
  import opened Prelude
  import opened UpdateLog
  import opened UpdateReader
  import opened Json
  import RecordPair

  // ------------------------------------------------------------------ UTF-8

  predicate Continues(b: Byte) { 0x80 <= b < 0xC0 }

  /** How many bytes the first character takes; 0 where the bytes are not well formed. */
  function Width(b: Bytes): (n: nat)
    requires b != []
    ensures n <= |b|
  {
    if b[0] < 0x80 then 1
    else if 0xC2 <= b[0] < 0xE0 && |b| >= 2 && Continues(b[1]) then 2
    else if 0xE0 <= b[0] < 0xF0 && |b| >= 3 && Continues(b[1]) && Continues(b[2])
            && (b[0] == 0xE0 ==> b[1] >= 0xA0) && (b[0] == 0xED ==> b[1] < 0xA0) then 3
    else if 0xF0 <= b[0] < 0xF5 && |b| >= 4 && Continues(b[1]) && Continues(b[2]) && Continues(b[3])
            && (b[0] == 0xF0 ==> b[1] >= 0x90) && (b[0] == 0xF4 ==> b[1] < 0x90) then 4
    else 0
  }

  /** The first character. */
  function Scalar(b: Bytes): char
    requires b != [] && Width(b) > 0
  {
    match Width(b)
    case 1 => b[0] as char
    case 2 => ((b[0] as int - 0xC0) * 0x40 + (b[1] as int - 0x80)) as char
    case 3 => ((b[0] as int - 0xE0) * 0x1000 + (b[1] as int - 0x80) * 0x40 + (b[2] as int - 0x80)) as char
    case _ =>
      ((b[0] as int - 0xF0) * 0x40000 + (b[1] as int - 0x80) * 0x1000 + (b[2] as int - 0x80) * 0x40
       + (b[3] as int - 0x80)) as char
  }

  /** `decode("utf-8", errors="strict")` */
  function FromUtf8(b: Bytes): Option<string>
    decreases |b|
  {
    if b == [] then Some("")
    else if Width(b) == 0 then None
    else
      var rest := FromUtf8(b[Width(b)..]);
      if rest.None? then None else Some([Scalar(b)] + rest.value)
  }

  predicate IsAscii(s: string) { forall i | 0 <= i < |s| :: s[i] < '\U{80}' }

  function Ascii(s: string): (b: Bytes)
    requires IsAscii(s)
    ensures |b| == |s| && forall i | 0 <= i < |s| :: b[i] as int == s[i] as int
  {
    seq(|s|, i requires 0 <= i < |s| => s[i] as int as Byte)
  }

  lemma {:induction false} AsciiIsUtf8(s: string)
    requires IsAscii(s)
    ensures FromUtf8(Ascii(s)) == Some(s)
  {
    if s == "" {
    } else {
      AsciiIsUtf8(s[1..]);
      assert Ascii(s)[1..] == Ascii(s[1..]);
      assert s == [s[0]] + s[1..];
    }
  }

  lemma FirstStays(x: Bytes, y: Bytes)
    requires x != [] && Width(x) > 0
    ensures x + y != [] && Width(x + y) == Width(x) && Scalar(x + y) == Scalar(x)
    ensures (x + y)[Width(x)..] == x[Width(x)..] + y
  {
  }

  /** What decodes keeps its characters when more text follows. */
  lemma {:induction false} Utf8Append(x: Bytes, y: Bytes)
    requires FromUtf8(x).Some? && FromUtf8(y).Some?
    ensures FromUtf8(x + y) == Some(FromUtf8(x).value + FromUtf8(y).value)
    decreases |x|
  {
    if x == [] {
      Neutral(y);
      Neutral(FromUtf8(y).value);
    } else {
      Utf8Append(x[Width(x)..], y);
      FirstStays(x, y);
      Associative([Scalar(x)], FromUtf8(x[Width(x)..]).value, FromUtf8(y).value);
    }
  }

  // ---------------------------------------------------------------- printing

  function HexUnit(n: nat): string
    requires n < 0x10000
  {
    ['\\', 'u', HexDigit(n / 16 / 16 / 16), HexDigit(n / 16 / 16 % 16), HexDigit(n / 16 % 16), HexDigit(n % 16)]
  }

  /** The escape of a character with `ensure_ascii`: beyond the basic plane, a pair of surrogates. */
  function EscapeAscii(c: char): string {
    var n := c as int;
    if n < 0x7F then Escape(c)
    else if n < 0x10000 then HexUnit(n)
    else HexUnit(0xD800 + (n - 0x10000) / 0x400) + HexUnit(0xDC00 + (n - 0x10000) % 0x400)
  }

  function EscapeEach(escape: char -> string, s: string): string {
    if s == "" then "" else escape(s[0]) + EscapeEach(escape, s[1..])
  }

  function QuoteAscii(s: string): string { "\"" + (EscapeEach(EscapeAscii, s) + "\"") }

  function Field(name: string, value: string): string { QuoteAscii(name) + (":" + QuoteAscii(value)) }

  /** `json.dumps(transition, separators=(",", ":"))` */
  function Dump(t: Transition): string {
    "{" + (Field("at", t.at) + ("," + (Field("status", t.status) + ("," + (Field("update", t.update) + "}")))))
  }

  /** Printed text is ASCII and has no line break. */
  predicate Plain(s: string) { forall i | 0 <= i < |s| :: ' ' <= s[i] <= '~' }

  lemma PlainAppend(a: string, b: string)
    requires Plain(a) && Plain(b)
    ensures Plain(a + b)
  {
  }

  lemma HexUnitIsPlain(n: nat)
    requires n < 0x10000
    ensures Plain(HexUnit(n))
  {
  }

  lemma EscapeIsPlain(c: char)
    ensures Plain(EscapeAscii(c))
  {
    var n := c as int;
    if 0x7F <= n < 0x10000 {
      HexUnitIsPlain(n);
    } else if n >= 0x10000 {
      HexUnitIsPlain(0xD800 + (n - 0x10000) / 0x400);
      HexUnitIsPlain(0xDC00 + (n - 0x10000) % 0x400);
    }
  }

  lemma {:induction false} EachIsPlain(escape: char -> string, s: string)
    requires forall c: char :: Plain(escape(c))
    ensures Plain(EscapeEach(escape, s))
  {
    if s == "" {
    } else {
      EachIsPlain(escape, s[1..]);
      PlainAppend(escape(s[0]), EscapeEach(escape, s[1..]));
    }
  }

  lemma QuoteIsPlain(s: string)
    ensures Plain(QuoteAscii(s))
  {
    forall c: char
      ensures Plain(EscapeAscii(c))
    {
      EscapeIsPlain(c);
    }
    EachIsPlain(EscapeAscii, s);
  }

  lemma FieldIsPlain(name: string, value: string)
    ensures Plain(Field(name, value))
  {
    QuoteIsPlain(name);
    QuoteIsPlain(value);
  }

  lemma DumpIsPlain(t: Transition)
    ensures Plain(Dump(t)) && Dump(t) != "" && Dump(t)[0] == '{' && IsAscii(Dump(t))
  {
    FieldIsPlain("at", t.at);
    FieldIsPlain("status", t.status);
    FieldIsPlain("update", t.update);
  }

  function DumpLine(t: Transition): Bytes {
    DumpIsPlain(t);
    Ascii(Dump(t))
  }

  // --------------------------------------------------------- printed text parses

  lemma HexDigitValue(d: int)
    requires 0 <= d < 16
    ensures IsHex(HexDigit(d)) && HexValue(HexDigit(d)) == d
  {
  }

  lemma HexSum(n: nat)
    requires n < 0x10000
    ensures n / 16 / 16 / 16 * 4096 + n / 16 / 16 % 16 * 256 + n / 16 % 16 * 16 + n % 16 == n
  {
  }

  lemma UnitOfDigits(a: int, b: int, c: int, d: int, tail: string)
    requires 0 <= a < 16 && 0 <= b < 16 && 0 <= c < 16 && 0 <= d < 16
    ensures Unit([HexDigit(a), HexDigit(b), HexDigit(c), HexDigit(d)] + tail) == Some(a * 4096 + b * 256 + c * 16 + d)
  {
    HexDigitValue(a);
    HexDigitValue(b);
    HexDigitValue(c);
    HexDigitValue(d);
  }

  lemma UnitOfHex(n: nat, tail: string)
    requires n < 0x10000
    ensures Unit((HexUnit(n) + tail)[2..]) == Some(n)
    ensures (HexUnit(n) + tail)[2..][4..] == tail && (HexUnit(n) + tail)[6..] == tail
  {
    var digits := [HexDigit(n / 16 / 16 / 16), HexDigit(n / 16 / 16 % 16), HexDigit(n / 16 % 16), HexDigit(n % 16)];
    assert (HexUnit(n) + tail)[2..] == digits + tail;
    UnitOfDigits(n / 16 / 16 / 16, n / 16 / 16 % 16, n / 16 % 16, n % 16, tail);
    HexSum(n);
  }

  lemma UnescapeUnit(n: nat, tail: string)
    requires n < 0xD800 || 0xE000 <= n < 0x10000
    ensures Unescape((HexUnit(n) + tail)[1..]) == Some((n as char, tail))
  {
    var s := (HexUnit(n) + tail)[1..];
    UnitOfHex(n, tail);
    assert s[0] == 'u' && s[1..] == (HexUnit(n) + tail)[2..] && s[5..] == tail;
  }

  lemma UnescapePair(high: nat, low: nat, tail: string)
    requires 0xD800 <= high < 0xDC00 <= low < 0xE000
    ensures Unescape((HexUnit(high) + (HexUnit(low) + tail))[1..])
         == Some(((0x10000 + (high - 0xD800) * 0x400 + (low - 0xDC00)) as char, tail))
  {
    var rest := HexUnit(low) + tail;
    var s := (HexUnit(high) + rest)[1..];
    UnitOfHex(high, rest);
    UnitOfHex(low, tail);
    assert s[0] == 'u' && s[1..] == (HexUnit(high) + rest)[2..] && s[5..] == rest;
    assert s[5] == '\\' && s[6] == 'u' && s[7..] == rest[2..] && s[11..] == rest[6..];
  }

  /** In front of any text, `e` is read as the character `c`. */
  predicate ReadsAs(e: string, c: char, tail: string) {
    && e != "" && e[0] >= ' ' && e[0] != '"'
    && if e[0] == '\\' then Unescape((e + tail)[1..]) == Some((c, tail)) else e == [c]
  }

  lemma UnescapeAscii(c: char, tail: string)
    ensures ReadsAs(EscapeAscii(c), c, tail)
  {
    var n := c as int;
    if n < 0x7F {
      UnescapeEscape(c, tail);
    } else if n < 0x10000 {
      UnescapeUnit(n, tail);
    } else {
      var high, low := 0xD800 + (n - 0x10000) / 0x400, 0xDC00 + (n - 0x10000) % 0x400;
      UnescapePair(high, low, tail);
      Associative(HexUnit(high), HexUnit(low), tail);
    }
  }

  lemma ParseNext(e: string, c: char, rest: string, text: string, tail: string)
    requires ReadsAs(e, c, rest) && ParseText(rest) == Some((text, tail))
    ensures ParseText(e + rest) == Some(([c] + text, tail))
  {
    assert e[0] != '\\' ==> (e + rest)[1..] == rest;
  }

  lemma {:induction false} ParseEach(escape: char -> string, s: string, tail: string)
    requires forall c: char, rest: string :: ReadsAs(escape(c), c, rest)
    ensures ParseText(EscapeEach(escape, s) + ("\"" + tail)) == Some((s, tail))
  {
    if s == "" {
      Neutral("\"" + tail);
      assert ("\"" + tail)[1..] == tail;
    } else {
      ParseEach(escape, s[1..], tail);
      ParseNext(escape(s[0]), s[0], EscapeEach(escape, s[1..]) + ("\"" + tail), s[1..], tail);
      Associative(escape(s[0]), EscapeEach(escape, s[1..]), "\"" + tail);
      assert s == [s[0]] + s[1..];
    }
  }

  lemma ParseQuotedAscii(s: string, tail: string)
    ensures ParseString(QuoteAscii(s) + tail) == Some((s, tail))
    ensures ParseValue(QuoteAscii(s) + tail) == Some((Str(s), tail))
    ensures Opens(QuoteAscii(s) + tail)
  {
    forall c: char, rest: string
      ensures ReadsAs(EscapeAscii(c), c, rest)
    {
      UnescapeAscii(c, rest);
    }
    var text := EscapeEach(EscapeAscii, s);
    ParseEach(EscapeAscii, s, tail);
    Regroup("\"", text, "\"", tail);
    assert ("\"" + (text + ("\"" + tail)))[1..] == text + ("\"" + tail);
  }

  lemma ParseField(name: string, value: string, tail: string)
    ensures ParseMember(Field(name, value) + tail) == Some((Member(name, Str(value)), tail))
    ensures Opens(Field(name, value) + tail)
  {
    var rest := QuoteAscii(value) + tail;
    ParseQuotedAscii(name, ":" + rest);
    ParseQuotedAscii(value, tail);
    OneMember(QuoteAscii(name) + (":" + rest), name, rest, Str(value), tail);
    Regroup(QuoteAscii(name), ":", QuoteAscii(value), tail);
  }

  function Fields(t: Transition): seq<Member> {
    [Member("at", Str(t.at)), Member("status", Str(t.status)), Member("update", Str(t.update))]
  }

  /** Three members, one behind the other. */
  lemma ParseThree(a: string, b: string, c: string, k: Member, m: Member, n: Member)
    requires Opens(a + ("," + (b + ("," + (c + "}"))))) && Opens(b + ("," + (c + "}"))) && Opens(c + "}")
    requires ParseMember(c + "}") == Some((n, "}"))
    requires ParseMember(b + ("," + (c + "}"))) == Some((m, "," + (c + "}")))
    requires ParseMember(a + ("," + (b + ("," + (c + "}"))))) == Some((k, "," + (b + ("," + (c + "}")))))
    ensures ParseValue("{" + (a + ("," + (b + ("," + (c + "}")))))) == Some((Obj([k, m, n]), ""))
  {
    var last := c + "}";
    var second := b + ("," + last);
    Neutral("}");
    LastMember(last, n, "");
    NextMember(second, m, last, [n], "");
    assert [m] + [n] == [m, n] && [k] + [m, n] == [k, m, n];
    NextMember(a + ("," + second), k, second, [m, n], "");
    ParseObject(a + ("," + second), [k, m, n], "");
  }

  lemma LoadsWhole(s: string, v: Value)
    requires s != "" && !Blank(s[0]) && ParseValue(s) == Some((v, ""))
    ensures Loads(s) == Some(v)
  {
  }

  lemma DumpLoads(t: Transition)
    ensures Loads(Dump(t)) == Some(Obj(Fields(t)))
  {
    var a, b, c := Field("at", t.at), Field("status", t.status), Field("update", t.update);
    ParseField("update", t.update, "}");
    ParseField("status", t.status, "," + (c + "}"));
    ParseField("at", t.at, "," + (b + ("," + (c + "}"))));
    ParseThree(a, b, c, Member("at", Str(t.at)), Member("status", Str(t.status)), Member("update", Str(t.update)));
    LoadsWhole(Dump(t), Obj(Fields(t)));
  }

  // ---------------------------------------------------------- strict decoding

  /** No object repeats a name: `_object_without_duplicate_keys` */
  predicate UniqueNames(v: Value)
    decreases v
  {
    match v
    case Arr(items) => forall i | 0 <= i < |items| :: UniqueNames(items[i])
    case Obj(ms) =>
      && (forall i, j | 0 <= i < j < |ms| :: ms[i].name != ms[j].name)
      && (forall i | 0 <= i < |ms| :: UniqueNames(ms[i].value))
    case _ => true
  }

  predicate HasText(ms: seq<Member>, name: string) { name in Names(ms) && Lookup(ms, name).Str? }

  /** `_decode_strict_object`, and the field types that `_validate_transition` asks for. */
  function TransitionOf(v: Option<Value>): Option<Transition> {
    if v.Some? && v.value.Obj? && UniqueNames(v.value)
       && HasText(v.value.members, "status") && HasText(v.value.members, "at") && HasText(v.value.members, "update")
    then
      var ms := v.value.members;
      Some(Transition(Lookup(ms, "status").text, Lookup(ms, "at").text, Lookup(ms, "update").text))
    else None
  }

  function DecodeLine(timestamp: string -> bool, line: Bytes): Option<Transition> {
    var text := FromUtf8(line);
    if text.None? then None
    else
      var t := TransitionOf(Loads(text.value));
      if t.Some? && AcceptableTo(timestamp, t.value) then t else None
  }

  /** The program's own codec; `timestamp` is what `datetime.fromisoformat` accepts with a UTC offset. */
  function StrictCodec(timestamp: string -> bool): Codec {
    Codec((b: Bytes) => FromUtf8(b).Some?, (b: Bytes) => DecodeLine(timestamp, b), timestamp)
  }

  lemma FieldNames()
    ensures "at" != "status" && "at" != "update" && "status" != "update"
  {
    assert |"at"| == 2;
    assert "status"[0] != "update"[0];
  }

  lemma FieldsDecode(t: Transition)
    ensures TransitionOf(Some(Obj(Fields(t)))) == Some(t)
  {
    FieldNames();
    var ms := Fields(t);
    assert ms[0] in ms && ms[1] in ms && ms[2] in ms;
    assert "at" in Names(ms) && "status" in Names(ms) && "update" in Names(ms);
    forall i | 0 <= i < |ms|
      ensures UniqueNames(ms[i].value)
    {
    }
  }

  /** A printed transition decodes to itself exactly when its fields are acceptable. */
  lemma DumpDecodes(timestamp: string -> bool, t: Transition)
    ensures DecodeLine(timestamp, DumpLine(t)) == if AcceptableTo(timestamp, t) then Some(t) else None
    ensures FromUtf8(DumpLine(t)) == Some(Dump(t))
  {
    DumpText(t);
    DumpLoads(t);
    FieldsDecode(t);
  }

  /** Somewhere in the value an object gives a name twice. */
  predicate RepeatsName(v: Value)
    decreases v
  {
    match v
    case Arr(items) => exists i | 0 <= i < |items| :: RepeatsName(items[i])
    case Obj(ms) =>
      || (exists i, j | 0 <= i < j < |ms| :: ms[i].name == ms[j].name)
      || (exists i | 0 <= i < |ms| :: RepeatsName(ms[i].value))
    case _ => false
  }

  lemma {:induction false} RepeatsExactly(v: Value)
    ensures RepeatsName(v) <==> !UniqueNames(v)
    decreases v
  {
    match v
    case Arr(items) =>
      forall i | 0 <= i < |items|
        ensures RepeatsName(items[i]) <==> !UniqueNames(items[i])
      {
        RepeatsExactly(items[i]);
      }
    case Obj(ms) =>
      forall i | 0 <= i < |ms|
        ensures RepeatsName(ms[i].value) <==> !UniqueNames(ms[i].value)
      {
        RepeatsExactly(ms[i].value);
      }
    case _ =>
  }

  /** Where no name is given twice, looking a name up finds the one member that has it. */
  lemma LookupExactly(ms: seq<Member>, name: string, text: string)
    requires UniqueNames(Obj(ms))
    ensures HasText(ms, name) && Lookup(ms, name).text == text <==> Member(name, Str(text)) in ms
  {
    if Member(name, Str(text)) in ms {
      var found := Member(name, Lookup(ms, name));
      var i :| 0 <= i < |ms| && ms[i] == Member(name, Str(text));
      var j :| 0 <= j < |ms| && ms[j] == found;
      assert i == j;
    }
  }

  /** What a line has to say to be read as a transition: one object without repeated names, and its three texts. */
  ghost predicate SaysTransition(timestamp: string -> bool, line: Bytes, t: Transition, ms: seq<Member>) {
    && FromUtf8(line).Some? && Loads(FromUtf8(line).value) == Some(Obj(ms)) && !RepeatsName(Obj(ms))
    && Member("status", Str(t.status)) in ms && Member("at", Str(t.at)) in ms && Member("update", Str(t.update)) in ms
    && NonBlank(t.at) && timestamp(t.at) && NonBlank(t.update) && (MaterialWord(t.status) || OngoingWord(t.status))
  }

  /** The strict decoder reads exactly such lines, and as they say. */
  lemma DecodeExactly(timestamp: string -> bool, line: Bytes, t: Transition)
    ensures DecodeLine(timestamp, line) == Some(t) <==> exists ms :: SaysTransition(timestamp, line, t, ms)
  {
    AcceptableExactly(timestamp, t);
    if FromUtf8(line).Some? && Loads(FromUtf8(line).value).Some? && Loads(FromUtf8(line).value).value.Obj? {
      var ms := Loads(FromUtf8(line).value).value.members;
      RepeatsExactly(Obj(ms));
      if UniqueNames(Obj(ms)) {
        LookupExactly(ms, "status", t.status);
        LookupExactly(ms, "at", t.at);
        LookupExactly(ms, "update", t.update);
      }
      assert DecodeLine(timestamp, line) == Some(t) <==> SaysTransition(timestamp, line, t, ms);
    }
  }

  lemma DecodedIsObject(timestamp: string -> bool, x: Bytes)
    requires DecodeLine(timestamp, x).Some?
    ensures FromUtf8(x).Some? && Loads(FromUtf8(x).value).Some? && Loads(FromUtf8(x).value).value.Obj?
  {
  }

  lemma UnloadedIsRefused(timestamp: string -> bool, x: Bytes)
    requires FromUtf8(x).Some? && Loads(FromUtf8(x).value).None?
    ensures DecodeLine(timestamp, x).None?
  {
  }

  lemma ObjectStarts(d: string)
    requires d != "" && d[0] == '{'
    ensures SkipBlanks(d) == d
  {
  }

  lemma DumpText(t: Transition)
    ensures FromUtf8(DumpLine(t)) == Some(Dump(t)) && SkipBlanks(Dump(t)) != ""
  {
    DumpIsPlain(t);
    AsciiIsUtf8(Dump(t));
    ObjectStarts(Dump(t));
  }

  /** Behind an object there is nothing to read but blanks. */
  lemma JoinedIsRefused(timestamp: string -> bool, x: Bytes, y: Bytes, d: string)
    requires DecodeLine(timestamp, x).Some? && FromUtf8(y) == Some(d) && SkipBlanks(d) != ""
    ensures DecodeLine(timestamp, x + y).None?
  {
    DecodedIsObject(timestamp, x);
    Utf8Append(x, y);
    LoadsOnce(FromUtf8(x).value, Loads(FromUtf8(x).value).value, d);
    UnloadedIsRefused(timestamp, x + y);
  }

  /** So two transitions printed on one line are refused. */
  lemma DumpJoinedIsRefused(timestamp: string -> bool, x: Bytes, t: Transition)
    requires DecodeLine(timestamp, x).Some?
    ensures DecodeLine(timestamp, x + DumpLine(t)).None?
  {
    DumpText(t);
    JoinedIsRefused(timestamp, x, DumpLine(t), Dump(t));
  }

  /** The program's own printing and decoding are as `RecordPair` assumes them. */
  lemma StrictPrints(timestamp: string -> bool)
    ensures RecordPair.Prints(StrictCodec(timestamp), DumpLine)
  {
    var codec := StrictCodec(timestamp);
    forall t: Transition | Acceptable(codec, t)
      ensures OneLine(DumpLine(t)) && codec.utf8(DumpLine(t)) && codec.decode(DumpLine(t)) == Some(t)
    {
      DumpIsPlain(t);
      DumpDecodes(timestamp, t);
    }
    forall x: Bytes, t: Transition | codec.decode(x).Some?
      ensures codec.decode(x + DumpLine(t)).None?
    {
      DumpJoinedIsRefused(timestamp, x, t);
    }
  }
}
