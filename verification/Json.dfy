/**
 JSON values as the Python runtime prints and parses them (RFC 8259): `json.dumps` with
 `ensure_ascii=False` and no spaces, and `json.loads`. Numbers are integers.
 */
module Json {
  import opened Prelude

  /** An object is its members as written; looking up a name gives the last of them. */
  datatype Value =
    | Null
    | Bool(flag: bool)
    | Int(number: int)
    | Str(text: string)
    | Arr(items: seq<Value>)
    | Obj(members: seq<Member>)

  datatype Member = Member(name: string, value: Value)

  function Names(ms: seq<Member>): set<string> { set m <- ms :: m.name }

  function Lookup(ms: seq<Member>, name: string): (v: Value)
    requires name in Names(ms)
    ensures Member(name, v) in ms
  {
    if ms[|ms| - 1].name == name then ms[|ms| - 1].value else Lookup(ms[..|ms| - 1], name)
  }

  // ---------------------------------------------------------------- printing

  /** The escape of a character inside a string (section 7). */
  function Escape(c: char): string {
    match c
    case '"' => "\\\""
    case '\\' => "\\\\"
    case '\n' => "\\n"
    case '\r' => "\\r"
    case '\t' => "\\t"
    case '\U{0C}' => "\\f"
    case '\U{08}' => "\\b"
    case _ => if c < ' ' then "\\u00" + [HexDigit(c as int / 16), HexDigit(c as int % 16)] else [c]
  }

  function HexDigit(d: int): char
    requires 0 <= d < 16
  {
    if d < 10 then ('0' as int + d) as char else ('a' as int + d - 10) as char
  }

  function EscapeAll(s: string): string {
    if s == "" then "" else Escape(s[0]) + EscapeAll(s[1..])
  }

  function Quote(s: string): string { "\"" + (EscapeAll(s) + "\"") }

  function PrintInt(n: int): string { if n < 0 then "-" + Decimal(-n) else Decimal(n) }

  /** `json.dumps(v, ensure_ascii=False, separators=(",", ":"))` */
  function Print(v: Value): string
    decreases v
  {
    match v
    case Null => "null"
    case Bool(b) => if b then "true" else "false"
    case Int(n) => PrintInt(n)
    case Str(s) => Quote(s)
    case Arr(items) => "[" + (PrintItems(items) + "]")
    case Obj(members) => "{" + (PrintMembers(members) + "}")
  }

  function PrintItems(items: seq<Value>): string
    decreases items
  {
    if items == [] then ""
    else if |items| == 1 then Print(items[0])
    else Print(items[0]) + ("," + PrintItems(items[1..]))
  }

  function PrintMembers(ms: seq<Member>): string
    decreases ms
  {
    if ms == [] then ""
    else if |ms| == 1 then PrintMember(ms[0])
    else PrintMember(ms[0]) + ("," + PrintMembers(ms[1..]))
  }

  function PrintMember(m: Member): string
    decreases m
  {
    Quote(m.name) + (":" + Print(m.value))
  }

  // ----------------------------------------------------------------- parsing

  predicate Blank(c: char) { c == ' ' || c == '\t' || c == '\n' || c == '\r' }

  function SkipBlanks(s: string): (r: string)
    ensures |r| <= |s|
  {
    if s != "" && Blank(s[0]) then SkipBlanks(s[1..]) else s
  }

  /** What a parser has read, and the text after it. */
  type Parsed<T> = Option<(T, string)>

  predicate IsHex(c: char) { IsDigit(c) || 'a' <= c <= 'f' || 'A' <= c <= 'F' }

  function HexValue(c: char): (d: int)
    requires IsHex(c)
    ensures 0 <= d < 16
  {
    if IsDigit(c) then c as int - '0' as int
    else if c >= 'a' then c as int - 'a' as int + 10
    else c as int - 'A' as int + 10
  }

  /** Four hexadecimal digits at the front of `s`. */
  function Unit(s: string): (u: Option<int>)
    ensures u.Some? ==> |s| >= 4 && 0 <= u.value < 0x10000
  {
    if |s| >= 4 && IsHex(s[0]) && IsHex(s[1]) && IsHex(s[2]) && IsHex(s[3]) then
      Some(HexValue(s[0]) * 4096 + HexValue(s[1]) * 256 + HexValue(s[2]) * 16 + HexValue(s[3]))
    else None
  }

  /** The character of the escape behind a backslash; a surrogate counts only in a pair. */
  function Unescape(s: string): (r: Parsed<char>)
    ensures r.Some? ==> |r.value.1| < |s|
  {
    if s == "" then None
    else
      match s[0]
      case '"' => Some(('"', s[1..]))
      case '\\' => Some(('\\', s[1..]))
      case '/' => Some(('/', s[1..]))
      case 'b' => Some(('\U{08}', s[1..]))
      case 'f' => Some(('\U{0C}', s[1..]))
      case 'n' => Some(('\n', s[1..]))
      case 'r' => Some(('\r', s[1..]))
      case 't' => Some(('\t', s[1..]))
      case 'u' =>
        var high := Unit(s[1..]);
        if high.None? then None
        else if high.value < 0xD800 || 0xE000 <= high.value then Some((high.value as char, s[5..]))
        else if high.value < 0xDC00 && |s| >= 7 && s[5] == '\\' && s[6] == 'u' then
          var low := Unit(s[7..]);
          if low.Some? && 0xDC00 <= low.value < 0xE000 then
            Some(((0x10000 + (high.value - 0xD800) * 0x400 + (low.value - 0xDC00)) as char, s[11..]))
          else None
        else None
      case _ => None
  }

  /** The rest of a string, up to its closing quote. */
  function ParseText(s: string): (r: Parsed<string>)
    ensures r.Some? ==> |r.value.1| < |s|
    decreases |s|
  {
    if s == "" || s[0] < ' ' then None
    else if s[0] == '"' then Some(("", s[1..]))
    else
      var first := if s[0] == '\\' then Unescape(s[1..]) else Some((s[0], s[1..]));
      if first.None? then None
      else
        var rest := ParseText(first.value.1);
        if rest.None? then None else Some(([first.value.0] + rest.value.0, rest.value.1))
  }

  function ParseString(s: string): (r: Parsed<string>)
    ensures r.Some? ==> |r.value.1| < |s|
  {
    if s != "" && s[0] == '"' then ParseText(s[1..]) else None
  }

  /** The leading digits of `s`. */
  function Digits(s: string): (d: string)
    ensures d <= s && forall k | 0 <= k < |d| :: IsDigit(d[k])
  {
    if s != "" && IsDigit(s[0]) then [s[0]] + Digits(s[1..]) else ""
  }

  /** An integer without superfluous zeros; a fraction or an exponent is not modelled. */
  function ParseNat(s: string): (r: Parsed<nat>)
    ensures r.Some? ==> |r.value.1| < |s|
  {
    var d := Digits(s);
    if d == "" then None
    else
      var taken := if d[0] == '0' then "0" else d;
      var rest := s[|taken|..];
      if rest != "" && rest[0] in ".eE" then None else Some((Numeral(taken), rest))
  }

  function ParseInt(s: string): (r: Parsed<int>)
    ensures r.Some? ==> |r.value.1| < |s|
  {
    if s != "" && s[0] == '-' then
      var n := ParseNat(s[1..]);
      if n.None? then None
      else
        var magnitude: int := n.value.0;
        Some((-magnitude, n.value.1))
    else
      var n := ParseNat(s);
      if n.None? then None else Some((n.value.0, n.value.1))
  }

  function ParseValue(s: string): (r: Parsed<Value>)
    ensures r.Some? ==> |r.value.1| < |s|
    decreases |s|, 0
  {
    if s == "" then None
    else if s[0] == '-' || IsDigit(s[0]) then ParseNumber(s)
    else if s[0] == '"' then
      var t := ParseString(s);
      if t.None? then None else Some((Str(t.value.0), t.value.1))
    else if s[0] == '[' then
      var t := SkipBlanks(s[1..]);
      if t != "" && t[0] == ']' then Some((Arr([]), t[1..]))
      else
        var items := ParseItems(t);
        if items.None? then None else Some((Arr(items.value.0), items.value.1))
    else if s[0] == '{' then
      var t := SkipBlanks(s[1..]);
      if t != "" && t[0] == '}' then Some((Obj([]), t[1..]))
      else
        var members := ParseMembers(t);
        if members.None? then None else Some((Obj(members.value.0), members.value.1))
    else if s[0] == 'n' then
      if OccursAt(s, 0, "null") then Some((Null, s[4..])) else None
    else if s[0] == 't' then
      if OccursAt(s, 0, "true") then Some((Bool(true), s[4..])) else None
    else if s[0] == 'f' then
      if OccursAt(s, 0, "false") then Some((Bool(false), s[5..])) else None
    else None
  }

  function ParseNumber(s: string): (r: Parsed<Value>)
    ensures r.Some? ==> |r.value.1| < |s|
  {
    var n := ParseInt(s);
    if n.None? then None else Some((Int(n.value.0), n.value.1))
  }

  /** The items of an array up to its closing bracket. */
  function ParseItems(s: string): (r: Parsed<seq<Value>>)
    ensures r.Some? ==> |r.value.1| < |s|
    decreases |s|, 1
  {
    var first := ParseValue(s);
    if first.None? then None
    else
      var t := SkipBlanks(first.value.1);
      if t == "" then None
      else if t[0] == ']' then Some(([first.value.0], t[1..]))
      else if t[0] != ',' then None
      else
        var rest := ParseItems(SkipBlanks(t[1..]));
        if rest.None? then None else Some(([first.value.0] + rest.value.0, rest.value.1))
  }

  function ParseMember(s: string): (r: Parsed<Member>)
    ensures r.Some? ==> |r.value.1| < |s|
    decreases |s|, 1
  {
    var name := ParseString(s);
    if name.None? then None
    else
      var t := SkipBlanks(name.value.1);
      if t == "" || t[0] != ':' then None
      else
        var value := ParseValue(SkipBlanks(t[1..]));
        if value.None? then None else Some((Member(name.value.0, value.value.0), value.value.1))
  }

  /** The members of an object up to its closing brace. */
  function ParseMembers(s: string): (r: Parsed<seq<Member>>)
    ensures r.Some? ==> |r.value.1| < |s|
    decreases |s|, 2
  {
    var first := ParseMember(s);
    if first.None? then None
    else
      var t := SkipBlanks(first.value.1);
      if t == "" then None
      else if t[0] == '}' then Some(([first.value.0], t[1..]))
      else if t[0] != ',' then None
      else
        var rest := ParseMembers(SkipBlanks(t[1..]));
        if rest.None? then None else Some(([first.value.0] + rest.value.0, rest.value.1))
  }

  /** `json.loads` */
  function Loads(s: string): Option<Value> {
    var v := ParseValue(SkipBlanks(s));
    if v.Some? && SkipBlanks(v.value.1) == "" then Some(v.value.0) else None
  }

  // -------------------------------------------------------------- round trip

  /** Text behind a value that does not prolong it. */
  predicate Ends(tail: string) { tail == "" || tail[0] in ",]}" }

  lemma UnescapeEscape(c: char, tail: string)
    ensures Escape(c) != "" && Escape(c)[0] >= ' ' && Escape(c)[0] != '"'
    ensures Escape(c)[0] == '\\' ==> Unescape((Escape(c) + tail)[1..]) == Some((c, tail))
    ensures Escape(c)[0] != '\\' ==> Escape(c) == [c]
  {
    var e := Escape(c) + tail;
    if c < ' ' && |Escape(c)| == 6 {
      assert e[1..][1..] == ['0', '0', HexDigit(c as int / 16), HexDigit(c as int % 16)] + tail;
      assert Unit(e[1..][1..]) == Some(c as int);
      assert e[1..][5..] == tail;
    } else if |Escape(c)| == 2 {
      assert e[1..][1..] == tail;
    }
  }

  lemma {:induction false} ParseEscaped(s: string, tail: string)
    ensures ParseText(EscapeAll(s) + ("\"" + tail)) == Some((s, tail))
  {
    if s == "" {
      Neutral("\"" + tail);
      assert ("\"" + tail)[1..] == tail;
    } else {
      var rest := EscapeAll(s[1..]) + ("\"" + tail);
      ParseEscaped(s[1..], tail);
      ParseOne(s[0], rest, s[1..], tail);
      Associative(Escape(s[0]), EscapeAll(s[1..]), "\"" + tail);
      assert s == [s[0]] + s[1..];
    }
  }

  lemma ParseOne(c: char, rest: string, text: string, tail: string)
    requires ParseText(rest) == Some((text, tail))
    ensures ParseText(Escape(c) + rest) == Some(([c] + text, tail))
  {
    UnescapeEscape(c, rest);
    var e := Escape(c) + rest;
    if Escape(c)[0] != '\\' {
      assert e[1..] == rest;
    }
  }

  lemma ParseQuoted(s: string, tail: string)
    ensures ParseString(Quote(s) + tail) == Some((s, tail))
  {
    ParseEscaped(s, tail);
    Associative("\"", EscapeAll(s) + "\"", tail);
    Associative(EscapeAll(s), "\"", tail);
    assert ("\"" + (EscapeAll(s) + ("\"" + tail)))[1..] == EscapeAll(s) + ("\"" + tail);
  }

  lemma {:induction false} DigitsThen(d: string, tail: string)
    requires forall k | 0 <= k < |d| :: IsDigit(d[k])
    requires tail == "" || !IsDigit(tail[0])
    ensures Digits(d + tail) == d
  {
    if d == "" {
      assert d + tail == tail;
    } else {
      assert (d + tail)[1..] == d[1..] + tail;
      DigitsThen(d[1..], tail);
    }
  }

  lemma ParseDecimal(n: nat, tail: string)
    requires Ends(tail)
    ensures ParseNat(Decimal(n) + tail) == Some((n, tail))
  {
    DigitsThen(Decimal(n), tail);
    NumeralOfDecimal(n);
    assert (Decimal(n) + tail)[|Decimal(n)|..] == tail;
  }

  lemma ParseNegative(n: nat, t: string, tail: string)
    requires ParseNat(t) == Some((n, tail))
    ensures ParseInt("-" + t) == Some((0 - n, tail))
  {
    assert ("-" + t)[1..] == t;
  }

  lemma ParsePrintedInt(n: int, tail: string)
    requires Ends(tail)
    ensures ParseInt(PrintInt(n) + tail) == Some((n, tail))
  {
    if n < 0 {
      ParseDecimal(-n, tail);
      ParseNegative(-n, Decimal(-n) + tail, tail);
      assert PrintInt(n) + tail == "-" + (Decimal(-n) + tail);
    } else {
      ParseDecimal(n, tail);
    }
  }

  /** No printed value starts with a blank or a closing bracket. */
  lemma PrintStarts(v: Value)
    ensures Print(v) != "" && Opens(Print(v))
  {
  }

  predicate Opens(t: string) { t != "" && !Blank(t[0]) && t[0] != ']' && t[0] != '}' }

  // The grammar's productions, one by one.

  lemma NumberValue(t: string, n: int, tail: string)
    requires ParseInt(t) == Some((n, tail)) && t != "" && (t[0] == '-' || IsDigit(t[0]))
    ensures ParseValue(t) == Some((Int(n), tail))
  {
  }

  lemma ParseArray(t: string, items: seq<Value>, tail: string)
    requires Opens(t) && ParseItems(t) == Some((items, tail))
    ensures ParseValue("[" + t) == Some((Arr(items), tail))
  {
    assert ("[" + t)[1..] == t;
  }

  lemma ParseObject(t: string, ms: seq<Member>, tail: string)
    requires Opens(t) && ParseMembers(t) == Some((ms, tail))
    ensures ParseValue("{" + t) == Some((Obj(ms), tail))
  {
    assert ("{" + t)[1..] == t;
  }

  lemma ParseEmpty(tail: string)
    ensures ParseValue("[]" + tail) == Some((Arr([]), tail))
    ensures ParseValue("{}" + tail) == Some((Obj([]), tail))
  {
    assert ("[]" + tail)[1..] == "]" + tail && ("]" + tail)[1..] == tail;
    assert ("{}" + tail)[1..] == "}" + tail && ("}" + tail)[1..] == tail;
  }

  lemma LastItem(t: string, v: Value, tail: string)
    requires ParseValue(t) == Some((v, "]" + tail))
    ensures ParseItems(t) == Some(([v], tail))
  {
    assert ("]" + tail)[1..] == tail;
  }

  lemma NextItem(t: string, v: Value, rest: string, items: seq<Value>, tail: string)
    requires ParseValue(t) == Some((v, "," + rest)) && Opens(rest) && ParseItems(rest) == Some((items, tail))
    ensures ParseItems(t) == Some(([v] + items, tail))
  {
    assert ("," + rest)[1..] == rest;
  }

  lemma LastMember(t: string, m: Member, tail: string)
    requires ParseMember(t) == Some((m, "}" + tail))
    ensures ParseMembers(t) == Some(([m], tail))
  {
    assert ("}" + tail)[1..] == tail;
  }

  lemma NextMember(t: string, m: Member, rest: string, ms: seq<Member>, tail: string)
    requires ParseMember(t) == Some((m, "," + rest)) && Opens(rest) && ParseMembers(rest) == Some((ms, tail))
    ensures ParseMembers(t) == Some(([m] + ms, tail))
  {
    assert ("," + rest)[1..] == rest;
  }

  lemma OneMember(t: string, name: string, rest: string, v: Value, tail: string)
    requires ParseString(t) == Some((name, ":" + rest)) && Opens(rest) && ParseValue(rest) == Some((v, tail))
    ensures ParseMember(t) == Some((Member(name, v), tail))
  {
    assert (":" + rest)[1..] == rest;
  }

  /** Every printed value parses back, whatever text ends it. */
  lemma {:induction false} ParsePrinted(v: Value, tail: string)
    requires Ends(tail)
    ensures ParseValue(Print(v) + tail) == Some((v, tail))
    decreases v
  {
    match v
    case Null => assert (Print(v) + tail)[4..] == tail;
    case Bool(b) => assert (Print(v) + tail)[|Print(v)|..] == tail;
    case Int(n) =>
      ParsePrintedInt(n, tail);
      NumberValue(PrintInt(n) + tail, n, tail);
    case Str(s) => ParseQuoted(s, tail);
    case Arr(items) =>
      if items == [] {
        ParseEmpty(tail);
        assert Print(v) == "[]";
      } else {
        ParsePrintedItems(items, tail);
        ParseArray(PrintItems(items) + ("]" + tail), items, tail);
        Regroup("[", PrintItems(items), "]", tail);
      }
    case Obj(members) =>
      if members == [] {
        ParseEmpty(tail);
        assert Print(v) == "{}";
      } else {
        ParsePrintedMembers(members, tail);
        ParseObject(PrintMembers(members) + ("}" + tail), members, tail);
        Regroup("{", PrintMembers(members), "}", tail);
      }
  }

  lemma Regroup(a: string, b: string, c: string, d: string)
    ensures (a + (b + c)) + d == a + (b + (c + d))
  {
    Associative(a, b + c, d);
    Associative(b, c, d);
  }

  lemma {:induction false} ParsePrintedItems(items: seq<Value>, tail: string)
    requires items != []
    ensures ParseItems(PrintItems(items) + ("]" + tail)) == Some((items, tail)) && Opens(PrintItems(items))
    decreases items
  {
    PrintStarts(items[0]);
    if |items| == 1 {
      ParsePrinted(items[0], "]" + tail);
      LastItem(Print(items[0]) + ("]" + tail), items[0], tail);
      assert [items[0]] == items;
    } else {
      var rest := PrintItems(items[1..]) + ("]" + tail);
      ParsePrintedItems(items[1..], tail);
      ParsePrinted(items[0], "," + rest);
      NextItem(Print(items[0]) + ("," + rest), items[0], rest, items[1..], tail);
      Regroup(Print(items[0]), ",", PrintItems(items[1..]), "]" + tail);
      assert [items[0]] + items[1..] == items;
    }
  }

  lemma {:induction false} ParsePrintedMembers(ms: seq<Member>, tail: string)
    requires ms != []
    ensures ParseMembers(PrintMembers(ms) + ("}" + tail)) == Some((ms, tail)) && Opens(PrintMembers(ms))
    decreases ms
  {
    if |ms| == 1 {
      ParsePrintedMember(ms[0], "}" + tail);
      LastMember(PrintMember(ms[0]) + ("}" + tail), ms[0], tail);
      assert [ms[0]] == ms;
    } else {
      var rest := PrintMembers(ms[1..]) + ("}" + tail);
      ParsePrintedMembers(ms[1..], tail);
      ParsePrintedMember(ms[0], "," + rest);
      NextMember(PrintMember(ms[0]) + ("," + rest), ms[0], rest, ms[1..], tail);
      Regroup(PrintMember(ms[0]), ",", PrintMembers(ms[1..]), "}" + tail);
      assert [ms[0]] + ms[1..] == ms;
    }
  }

  lemma {:induction false} ParsePrintedMember(m: Member, tail: string)
    requires Ends(tail)
    ensures ParseMember(PrintMember(m) + tail) == Some((m, tail)) && Opens(PrintMember(m))
    decreases m
  {
    var rest := Print(m.value) + tail;
    ParseQuoted(m.name, ":" + rest);
    ParsePrinted(m.value, tail);
    PrintStarts(m.value);
    OneMember(Quote(m.name) + (":" + rest), m.name, rest, m.value, tail);
    Regroup(Quote(m.name), ":", Print(m.value), tail);
  }

  /** Parsing what was printed gives the value back. */
  lemma PrintedLoads(v: Value)
    ensures Loads(Print(v)) == Some(v)
  {
    ParsePrinted(v, "");
    PrintStarts(v);
    Neutral(Print(v));
  }

  // ---------------------------------------------------- text behind a value

  lemma {:induction false} SkipAppend(s: string, d: string)
    ensures SkipBlanks(s) != "" ==> SkipBlanks(s + d) == SkipBlanks(s) + d
    ensures SkipBlanks(s) == "" ==> SkipBlanks(s + d) == SkipBlanks(d)
  {
    if s == "" {
      Neutral(d);
    } else if Blank(s[0]) {
      SkipAppend(s[1..], d);
      assert (s + d)[1..] == s[1..] + d;
    }
  }

  lemma UnescapeAppend(s: string, d: string)
    requires Unescape(s).Some?
    ensures Unescape(s + d) == Some((Unescape(s).value.0, Unescape(s).value.1 + d))
  {
    assert (s + d)[1..] == s[1..] + d;
    if s[0] == 'u' {
      assert (s + d)[5..] == s[5..] + d;
      if |s| >= 7 {
        assert (s + d)[7..] == s[7..] + d;
      }
      if |s| >= 11 {
        assert (s + d)[11..] == s[11..] + d;
      }
    }
  }

  lemma {:induction false} TextAppend(s: string, d: string)
    requires ParseText(s).Some?
    ensures ParseText(s + d) == Some((ParseText(s).value.0, ParseText(s).value.1 + d))
    decreases |s|
  {
    assert (s + d)[1..] == s[1..] + d;
    if s[0] == '"' {
    } else if s[0] == '\\' {
      UnescapeAppend(s[1..], d);
      TextAppend(Unescape(s[1..]).value.1, d);
    } else {
      TextAppend(s[1..], d);
    }
  }

  lemma StringAppend(s: string, d: string)
    requires ParseString(s).Some?
    ensures ParseString(s + d) == Some((ParseString(s).value.0, ParseString(s).value.1 + d))
  {
    assert (s + d)[1..] == s[1..] + d;
    TextAppend(s[1..], d);
  }

  lemma {:induction false} DigitsAppend(s: string, d: string)
    requires Digits(s) != s
    ensures Digits(s + d) == Digits(s)
  {
    if s == "" || !IsDigit(s[0]) {
    } else {
      assert (s + d)[1..] == s[1..] + d;
      assert s == [s[0]] + s[1..];
      DigitsAppend(s[1..], d);
    }
  }

  lemma NatAppend(s: string, d: string)
    requires ParseNat(s).Some? && ParseNat(s).value.1 != ""
    ensures ParseNat(s + d) == Some((ParseNat(s).value.0, ParseNat(s).value.1 + d))
  {
    var digits := Digits(s);
    var taken := if digits[0] == '0' then "0" else digits;
    assert (s + d)[|taken|..] == s[|taken|..] + d;
    if digits == s {
      assert digits[0] == '0' && s[0] == '0';
      LeadingDigit(s + d);
    } else {
      DigitsAppend(s, d);
    }
  }

  lemma LeadingDigit(s: string)
    requires s != "" && IsDigit(s[0])
    ensures Digits(s) != "" && Digits(s)[0] == s[0]
  {
  }

  lemma NumberAppend(s: string, d: string)
    requires ParseNumber(s).Some? && ParseNumber(s).value.1 != ""
    ensures ParseNumber(s + d) == Some((ParseNumber(s).value.0, ParseNumber(s).value.1 + d))
  {
    if s[0] == '-' {
      assert (s + d)[1..] == s[1..] + d;
      NatAppend(s[1..], d);
    } else {
      NatAppend(s, d);
    }
  }

  lemma WordAppend(s: string, d: string, word: string)
    requires OccursAt(s, 0, word)
    ensures OccursAt(s + d, 0, word) && (s + d)[|word|..] == s[|word|..] + d
  {
    assert (s + d)[..|word|] == s[..|word|];
  }

  /** A value that ends before the text does is read in the same way when more text follows. */
  lemma {:induction false} ValueAppend(s: string, d: string)
    requires ParseValue(s).Some? && (ParseValue(s).value.0.Int? ==> ParseValue(s).value.1 != "")
    ensures ParseValue(s + d) == Some((ParseValue(s).value.0, ParseValue(s).value.1 + d))
    decreases |s|, 1
  {
    if s[0] == '-' || IsDigit(s[0]) {
      NumberAppend(s, d);
    } else if s[0] == '"' {
      StringAppend(s, d);
    } else if s[0] == '[' {
      ArrayAppend(s, d);
    } else if s[0] == '{' {
      ObjectAppend(s, d);
    } else {
      WordAppend(s, d, if s[0] == 'n' then "null" else if s[0] == 't' then "true" else "false");
    }
  }

  lemma {:induction false} ArrayAppend(s: string, d: string)
    requires s != "" && s[0] == '[' && ParseValue(s).Some?
    ensures ParseValue(s + d) == Some((ParseValue(s).value.0, ParseValue(s).value.1 + d))
    decreases |s|, 0
  {
    assert (s + d)[1..] == s[1..] + d;
    SkipAppend(s[1..], d);
    var t := SkipBlanks(s[1..]);
    if t != "" && t[0] == ']' {
      assert (t + d)[1..] == t[1..] + d;
    } else {
      ItemsAppend(t, d);
    }
  }

  lemma {:induction false} ObjectAppend(s: string, d: string)
    requires s != "" && s[0] == '{' && ParseValue(s).Some?
    ensures ParseValue(s + d) == Some((ParseValue(s).value.0, ParseValue(s).value.1 + d))
    decreases |s|, 0
  {
    assert (s + d)[1..] == s[1..] + d;
    SkipAppend(s[1..], d);
    var t := SkipBlanks(s[1..]);
    if t != "" && t[0] == '}' {
      assert (t + d)[1..] == t[1..] + d;
    } else {
      MembersAppend(t, d);
    }
  }

  lemma {:induction false} ItemsAppend(s: string, d: string)
    requires ParseItems(s).Some?
    ensures ParseItems(s + d) == Some((ParseItems(s).value.0, ParseItems(s).value.1 + d))
    decreases |s|, 2
  {
    ValueAppend(s, d);
    var r := ParseValue(s).value.1;
    SkipAppend(r, d);
    var t := SkipBlanks(r);
    assert (t + d)[1..] == t[1..] + d;
    if t[0] == ',' {
      SkipAppend(t[1..], d);
      ItemsAppend(SkipBlanks(t[1..]), d);
    }
  }

  lemma {:induction false} MemberAppend(s: string, d: string)
    requires ParseMember(s).Some? && ParseMember(s).value.1 != ""
    ensures ParseMember(s + d) == Some((ParseMember(s).value.0, ParseMember(s).value.1 + d))
    decreases |s|, 2
  {
    StringAppend(s, d);
    var r := ParseString(s).value.1;
    SkipAppend(r, d);
    var t := SkipBlanks(r);
    assert (t + d)[1..] == t[1..] + d;
    SkipAppend(t[1..], d);
    ValueAppend(SkipBlanks(t[1..]), d);
  }

  lemma {:induction false} MembersAppend(s: string, d: string)
    requires ParseMembers(s).Some?
    ensures ParseMembers(s + d) == Some((ParseMembers(s).value.0, ParseMembers(s).value.1 + d))
    decreases |s|, 3
  {
    MemberAppend(s, d);
    var r := ParseMember(s).value.1;
    SkipAppend(r, d);
    var t := SkipBlanks(r);
    assert (t + d)[1..] == t[1..] + d;
    if t[0] == ',' {
      SkipAppend(t[1..], d);
      MembersAppend(SkipBlanks(t[1..]), d);
    }
  }

  /** Text is read as one value only: with another behind an object it is refused. */
  lemma LoadsOnce(s: string, v: Value, d: string)
    requires Loads(s) == Some(v) && v.Obj? && SkipBlanks(d) != ""
    ensures Loads(s + d).None?
  {
    SkipAppend(s, d);
    ValueAppend(SkipBlanks(s), d);
    SkipAppend(ParseValue(SkipBlanks(s)).value.1, d);
  }
}
