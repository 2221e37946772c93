/**
 Append-only transition logs: the bytes of an `updates.jsonl`, its raw lines as
 `bytes.splitlines(keepends=True)` finds them, and what growth leaves unchanged.
 */
module UpdateLog {
  import opened Prelude

  newtype Byte = x: int | 0 <= x < 256

  type Bytes = seq<Byte>

  const LF: Byte := 10
  const CR: Byte := 13

  /** The end of the raw line that starts at byte `p`. */
  function LineEnd(log: Bytes, p: nat): (e: nat)
    requires p < |log|
    ensures p < e <= |log|
    ensures forall q | p <= q < e - 1 :: log[q] != LF
    decreases |log| - p
  {
    if log[p] == LF then p + 1
    else if log[p] == CR then (if p + 1 < |log| && log[p + 1] == LF then p + 2 else p + 1)
    else if p + 1 == |log| then p + 1
    else LineEnd(log, p + 1)
  }

  /** A line that ends in a line feed starts at byte `p`: `raw_line.endswith(b"\n")`. */
  predicate Whole(log: Bytes, p: nat) {
    p < |log| && log[LineEnd(log, p) - 1] == LF
  }

  /** `rstrip("\r\n")` */
  function Chop(raw: Bytes): Bytes {
    if raw != [] && (raw[|raw| - 1] == LF || raw[|raw| - 1] == CR) then Chop(raw[..|raw| - 1]) else raw
  }

  function Text(log: Bytes, p: nat): Bytes
    requires p < |log|
  {
    Chop(log[p..LineEnd(log, p)])
  }

  /** A line and the byte offset it starts at. */
  datatype Line = Line(offset: nat, text: Bytes)

  /** The whole lines from byte `c` on, up to the first that is not whole. */
  function Lines(log: Bytes, c: nat): seq<Line>
    decreases |log| - c
  {
    if Whole(log, c) then [Line(c, Text(log, c))] + Lines(log, LineEnd(log, c)) else []
  }

  /** Where those lines end. */
  function Next(log: Bytes, c: nat): (n: nat)
    ensures c <= n
    ensures c <= |log| ==> n <= |log|
    decreases |log| - c
  {
    if Whole(log, c) then Next(log, LineEnd(log, c)) else c
  }

  /** The last raw line from byte `c` on, whole or torn. */
  function LastLine(log: Bytes, c: nat): (l: Line)
    requires c < |log|
    ensures c <= l.offset < |log|
    decreases |log| - c
  {
    if LineEnd(log, c) == |log| then Line(c, Text(log, c)) else LastLine(log, LineEnd(log, c))
  }

  /** A place where a reader that takes only whole lines can stand. */
  predicate Boundary(log: Bytes, c: nat) {
    c <= |log| && (c > 0 ==> log[c - 1] == LF)
  }

  /** The log has the whole line `text` at byte `offset`. */
  predicate IsLine(log: Bytes, offset: nat, text: Bytes) {
    Boundary(log, offset) && Whole(log, offset) && Text(log, offset) == text
  }

  // ---------------------------------------------- growth of a log

  lemma {:induction false} EndStable(log: Bytes, grown: Bytes, p: nat)
    requires log <= grown && p < |log|
    requires LineEnd(log, p) < |log| || Whole(log, p)
    ensures LineEnd(grown, p) == LineEnd(log, p)
    decreases |log| - p
  {
    if log[p] == LF || log[p] == CR {
    } else {
      EndStable(log, grown, p + 1);
    }
  }

  lemma IsLineGrows(log: Bytes, grown: Bytes, offset: nat, text: Bytes)
    requires log <= grown && IsLine(log, offset, text)
    ensures IsLine(grown, offset, text)
  {
    EndStable(log, grown, offset);
    var e := LineEnd(log, offset);
    assert grown[offset..e] == log[offset..e];
  }

  /** The first whole line survives growth. */
  lemma FirstLineGrows(log: Bytes, grown: Bytes, c: nat)
    requires log <= grown && Whole(log, c)
    ensures Whole(grown, c) && LineEnd(grown, c) == LineEnd(log, c) && Text(grown, c) == Text(log, c)
  {
    EndStable(log, grown, c);
    assert grown[c..LineEnd(log, c)] == log[c..LineEnd(log, c)];
  }

  /** Reading a grown log is reading the old one and then going on from where that ended. */
  lemma {:induction false} NextOfGrowth(log: Bytes, grown: Bytes, c: nat)
    requires log <= grown && c <= |log|
    ensures Next(grown, c) == Next(grown, Next(log, c))
    decreases |log| - c
  {
    if !Whole(log, c) {
    } else {
      FirstLineGrows(log, grown, c);
      NextOfGrowth(log, grown, LineEnd(log, c));
    }
  }

  lemma {:induction false} LinesOfGrowth(log: Bytes, grown: Bytes, c: nat)
    requires log <= grown && c <= |log|
    ensures Lines(grown, c) == Lines(log, c) + Lines(grown, Next(log, c))
    decreases |log| - c
  {
    if !Whole(log, c) {
    } else {
      var e := LineEnd(log, c);
      FirstLineGrows(log, grown, c);
      LinesOfGrowth(log, grown, e);
      Associative([Line(c, Text(log, c))], Lines(log, e), Lines(grown, Next(log, e)));
    }
  }

  lemma {:induction false} NextIsBoundary(log: Bytes, c: nat)
    requires Boundary(log, c)
    ensures Boundary(log, Next(log, c)) && !Whole(log, Next(log, c))
    decreases |log| - c
  {
    if !Whole(log, c) {
    } else {
      NextIsBoundary(log, LineEnd(log, c));
    }
  }

  // ------------------------------------- the lines a read returns

  /** From a boundary, a read returns whole lines of the log that it passes. */
  lemma {:induction false} LinesAreLines(log: Bytes, c: nat, l: Line)
    requires Boundary(log, c) && l in Lines(log, c)
    ensures IsLine(log, l.offset, l.text) && c <= l.offset < Next(log, c)
    decreases |log| - c
  {
    if l == Line(c, Text(log, c)) {
    } else {
      LinesAreLines(log, LineEnd(log, c), l);
    }
  }

  /** It returns all of them. */
  lemma {:induction false} LinesAreAll(log: Bytes, c: nat, offset: nat, text: Bytes)
    requires IsLine(log, offset, text) && c <= offset < Next(log, c)
    ensures Line(offset, text) in Lines(log, c)
    decreases |log| - c
  {
    if offset == c {
    } else {
      assert log[offset - 1] == LF;
      LinesAreAll(log, LineEnd(log, c), offset, text);
    }
  }

  /** A line never starts after the last one. */
  lemma {:induction false} LineBeforeLast(log: Bytes, c: nat, offset: nat)
    requires c <= offset < |log| && (c == offset || log[offset - 1] == LF)
    ensures offset <= LastLine(log, c).offset
    decreases |log| - c
  {
    if offset == c {
    } else {
      LineBeforeLast(log, LineEnd(log, c), offset);
    }
  }

  /** The last line only moves forward as a log grows. */
  lemma {:induction false} LastLineGrows(log: Bytes, grown: Bytes, c: nat)
    requires log <= grown && c < |log|
    ensures LastLine(log, c).offset <= LastLine(grown, c).offset
    decreases |log| - c
  {
    if LineEnd(log, c) == |log| {
    } else {
      EndStable(log, grown, c);
      LastLineGrows(log, grown, LineEnd(log, c));
    }
  }

  // ------------------------------------------------------ an appended line

  predicate OneLine(text: Bytes) {
    text != [] && forall i | 0 <= i < |text| :: text[i] != LF && text[i] != CR
  }

  lemma {:induction false} EndOfText(log: Bytes, text: Bytes, i: nat)
    requires OneLine(text) && i < |text|
    ensures LineEnd(log + text + [LF], |log| + i) == |log| + |text| + 1
    decreases |text| - i
  {
    var grown := log + text + [LF];
    assert grown[|log| + i] == text[i];
    if i + 1 < |text| {
      EndOfText(log, text, i + 1);
    } else {
      assert grown[|log| + |text|] == LF;
    }
  }

  lemma ChopLine(text: Bytes)
    requires OneLine(text)
    ensures Chop(text + [LF]) == text
  {
    assert (text + [LF])[..|text|] == text;
  }

  /** The appended line, in the grown log. */
  lemma NewLine(log: Bytes, text: Bytes)
    requires OneLine(text)
    ensures var grown := log + text + [LF];
            && LineEnd(grown, |log|) == |grown| && Text(grown, |log|) == text
                && LastLine(grown, |log|) == Line(|log|, text)
  {
    var grown := log + text + [LF];
    EndOfText(log, text, 0);
    assert grown[|log|..|grown|] == text + [LF];
    ChopLine(text);
  }
}
