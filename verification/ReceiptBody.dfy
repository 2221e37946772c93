/**
 The body of a receipt, cut at its gaps, is a heading and one summary exactly when it is
 two paragraphs with a blank line between them, and the validator as a whole.
 */
module ReceiptBody {
  import opened Prelude
  import opened Json
  import opened FrontMatter
  import opened Receipt
  import opened ReceiptValidity
  import opened ReceiptExact
  import T = ReceiptTerms

  // --------------------------------------------------------------------- gaps

  /** The last line feed in the blanks at the front. */
  lemma {:induction false} LastBreak(t: string) returns (k: nat)
    requires AfterLastNewline(t).Some?
    ensures k < |t| && t[k] == '\n' && T.Blank(t[..k]) && AfterLastNewline(t) == Some(t[k + 1..])
    ensures AfterLastNewline(t[k + 1..]).None?
  {
    if AfterLastNewline(t[1..]).Some? {
      k := LastBreak(t[1..]);
      assert t[..k + 1] == [t[0]] + t[1..][..k];
      k := k + 1;
    } else {
      k := 0;
    }
  }

  lemma {:induction false} BreakFound(t: string, k: nat)
    requires k < |t| && t[k] == '\n' && T.Blank(t[..k])
    ensures AfterLastNewline(t).Some?
  {
    if k == 0 {
    } else {
      assert t[..k][0] == t[0] && t[1..][..k - 1] == t[..k][1..];
      BreakFound(t[1..], k - 1);
    }
  }

  /** A gap starts at `p`, has a line feed at `n`, and ends with the one at `k`. */
  predicate Gap(s: string, p: nat, n: nat, k: nat) {
    && p <= n < k < |s| && s[n] == '\n' && s[k] == '\n' && T.Blank(s[p..k + 1])
    && AfterLastNewline(s[k + 1..]).None?
  }

  lemma GapIs(s: string, p: nat) returns (n: nat, k: nat)
    requires p < |s| && AfterGap(s[p..]).Some?
    ensures Gap(s, p, n, k) && n <= p + 1 && AfterGap(s[p..]) == Some(s[k + 1..])
  {
    var u := s[p..];
    n := if u[0] == '\r' then p + 1 else p;
    var t := AfterNewline(u).value;
    assert t == s[n + 1..];
    var m := LastBreak(t);
    k := n + 1 + m;
    assert t[m + 1..] == s[k + 1..];
    forall i | p <= i <= k
      ensures IsSpace(s[i])
    {
      if n < i < k {
        assert s[i] == t[..m][i - n - 1];
      }
    }
  }

  lemma GapThere(s: string, i: nat, j: nat)
    requires T.BlankLine(s, i, j)
    ensures AfterGap(s[i..]).Some?
  {
    var u := s[i..];
    assert u[0] == '\n' && AfterNewline(u) == Some(u[1..]);
    assert u[1..][j - i - 1] == s[j];
    assert u[1..][..j - i - 1] == s[i..j][1..];
    BreakFound(u[1..], j - i - 1);
  }

  lemma {:induction false} GapFound(s: string, p: nat)
    requires p <= |s| && AfterGap(s[p..]).Some?
    ensures SplitGap(s).Some? && |SplitGap(s).value.0| <= p
  {
    if p == 0 || AfterGap(s).Some? {
      assert s[0..] == s;
    } else {
      assert s[1..][p - 1..] == s[p..];
      GapFound(s[1..], p - 1);
    }
  }

  lemma {:induction false} SplitAt(s: string)
    requires SplitGap(s).Some?
    ensures var (a, rest) := SplitGap(s).value;
            |a| < |s| && a == s[..|a|] && AfterGap(s[|a|..]) == Some(rest)
  {
    if AfterGap(s).Some? {
      assert s[0..] == s;
    } else {
      SplitAt(s[1..]);
      var a := SplitGap(s[1..]).value.0;
      assert s[..|a| + 1] == [s[0]] + s[1..][..|a|];
      assert s[|a| + 1..] == s[1..][|a|..];
    }
  }

  /** Where the first gap is, and that there is none before it. */
  lemma FirstGap(s: string) returns (p: nat, n: nat, k: nat)
    requires SplitGap(s).Some?
    ensures Gap(s, p, n, k) && n <= p + 1 && SplitGap(s) == Some((s[..p], s[k + 1..])) && T.OneParagraph(s[..p])
  {
    SplitAt(s);
    p := |SplitGap(s).value.0|;
    n, k := GapIs(s, p);
    forall i, j | 0 <= i < j < p
      ensures !T.BlankLine(s[..p], i, j)
    {
      if T.BlankLine(s[..p], i, j) {
        assert s[..p][i..j] == s[i..j];
        GapThere(s, i, j);
        GapFound(s, i);
      }
    }
  }

  lemma GapHasBlankLine(s: string, p: nat, n: nat, k: nat)
    requires Gap(s, p, n, k)
    ensures T.BlankLine(s, n, k)
  {
    forall i | 0 <= i < k - n
      ensures IsSpace(s[n..k][i])
    {
      assert s[n..k][i] == s[p..k + 1][n - p + i];
    }
  }

  /** There is a gap exactly if there is more than one paragraph. */
  lemma GapExactly(s: string)
    ensures SplitGap(s).None? <==> T.OneParagraph(s)
  {
    if SplitGap(s).Some? {
      var p, n, k := FirstGap(s);
      GapHasBlankLine(s, p, n, k);
    } else if !T.OneParagraph(s) {
      var i, j :| 0 <= i < j < |s| && T.BlankLine(s, i, j);
      GapThere(s, i, j);
      GapFound(s, i);
      assert false;
    }
  }

  // -------------------------------------------------------------------- blanks

  /** Something in the text is not white space. */
  predicate Said(s: string) { exists i | 0 <= i < |s| :: !IsSpace(s[i]) }

  lemma {:induction false} LeftBlank(b: string, s: string)
    requires T.Blank(b)
    ensures StripLeft(b + s) == StripLeft(s)
  {
    if b == "" {
      Neutral(s);
    } else {
      assert (b + s)[1..] == b[1..] + s;
      LeftBlank(b[1..], s);
    }
  }

  lemma {:induction false} RightBlank(s: string, b: string)
    requires T.Blank(b)
    ensures StripRight(s + b) == StripRight(s)
  {
    if b == "" {
      Neutral(s);
    } else {
      var m := |b| - 1;
      assert (s + b)[..|s + b| - 1] == s + b[..m];
      assert (s + b)[|s + b| - 1] == b[m];
      RightBlank(s, b[..m]);
    }
  }

  lemma {:induction false} BothEnds(s: string)
    ensures Said(s) ==> StripLeft(s) != "" && Said(StripLeft(s))
    ensures !Said(s) ==> StripLeft(s) == ""
  {
    if s == "" || !IsSpace(s[0]) {
    } else {
      BothEnds(s[1..]);
      if Said(s) {
        var i :| 0 <= i < |s| && !IsSpace(s[i]);
        assert s[1..][i - 1] == s[i];
      }
      if Said(s[1..]) {
        var i :| 0 <= i < |s[1..]| && !IsSpace(s[1..][i]);
        assert s[i + 1] == s[1..][i];
      }
    }
  }

  lemma {:induction false} RightEnd(s: string)
    requires Said(s)
    ensures StripRight(s) != ""
  {
    if IsSpace(s[|s| - 1]) {
      var i :| 0 <= i < |s| && !IsSpace(s[i]);
      assert s[..|s| - 1][i] == s[i];
      RightEnd(s[..|s| - 1]);
    }
  }

  lemma StripSaid(s: string)
    ensures Strip(s) != "" <==> Said(s)
  {
    BothEnds(s);
    if Said(s) {
      RightEnd(StripLeft(s));
    }
  }

  /** White space behind the text makes no difference. */
  lemma StripTail(s: string, b: string)
    requires T.Blank(b)
    ensures Strip(s + b) == Strip(s)
  {
    if Said(s) {
      LeftTail(s, b);
      RightBlank(StripLeft(s), b);
    } else {
      var both := s + b;
      forall i | 0 <= i < |both|
        ensures IsSpace(both[i])
      {
      }
      StripSaid(both);
      StripSaid(s);
    }
  }

  lemma {:induction false} LeftTail(s: string, b: string)
    requires Said(s)
    ensures StripLeft(s + b) == StripLeft(s) + b
  {
    if !IsSpace(s[0]) {
    } else {
      var i :| 0 <= i < |s| && !IsSpace(s[i]);
      assert s[1..][i - 1] == s[i];
      assert (s + b)[1..] == s[1..] + b;
      LeftTail(s[1..], b);
    }
  }

  lemma {:induction false} LeftTrims(s: string)
    ensures StripLeft(s) == "" || !IsSpace(StripLeft(s)[0])
  {
    if s == "" || !IsSpace(s[0]) {
    } else {
      LeftTrims(s[1..]);
    }
  }

  lemma {:induction false} RightTrims(s: string)
    ensures StripRight(s) == "" || (!IsSpace(StripRight(s)[|StripRight(s)| - 1]) && StripRight(s)[0] == s[0])
  {
    if s == "" || !IsSpace(s[|s| - 1]) {
    } else {
      RightTrims(s[..|s| - 1]);
    }
  }

  /** What is stripped has no white space at its ends. */
  lemma StripTrims(s: string)
    ensures Trimmed(Strip(s))
  {
    LeftTrims(s);
    RightTrims(StripLeft(s));
  }

  // ------------------------------------------------------------ squeezed lengths

  lemma {:induction false} SqueezeLeft(s: string)
    ensures T.SqueezedLength(StripLeft(s), false) == T.SqueezedLength(s, false)
  {
    if s == "" || !IsSpace(s[0]) {
    } else {
      SqueezeLeft(s[1..]);
    }
  }

  lemma {:induction false} SqueezeTail(s: string, c: char, inside: bool)
    requires IsSpace(c)
    ensures T.SqueezedLength(s + [c], inside) == T.SqueezedLength(s, inside)
  {
    if s == "" {
      assert (s + [c])[1..] == "";
    } else {
      assert (s + [c])[1..] == s[1..] + [c];
      SqueezeTail(s[1..], c, !IsSpace(s[0]));
    }
  }

  lemma {:induction false} SqueezeRight(s: string)
    ensures T.SqueezedLength(StripRight(s), false) == T.SqueezedLength(s, false)
  {
    if s == "" || !IsSpace(s[|s| - 1]) {
    } else {
      var m := |s| - 1;
      SqueezeRight(s[..m]);
      SqueezeTail(s[..m], s[m], false);
      assert s == s[..m] + [s[m]];
    }
  }

  lemma SqueezeStrip(s: string)
    ensures T.SqueezedLength(Strip(s), false) == T.SqueezedLength(s, false)
  {
    SqueezeLeft(s);
    SqueezeRight(StripLeft(s));
  }

  /** A word adds its length. */
  lemma {:induction false} SqueezeWord(w: string, rest: string)
    requires forall i | 0 <= i < |w| :: !IsSpace(w[i])
    requires rest == "" || IsSpace(rest[0])
    ensures T.SqueezedLength(w + rest, true) == |w| + T.SqueezedLength(rest, false)
  {
    if w == "" {
      Neutral(rest);
    } else {
      assert (w + rest)[1..] == w[1..] + rest;
      SqueezeWord(w[1..], rest);
    }
  }

  lemma {:induction false} WordIsSolid(s: string)
    ensures forall i | 0 <= i < |FirstWord(s)| :: !IsSpace(FirstWord(s)[i])
  {
    if s == "" || IsSpace(s[0]) {
    } else {
      WordIsSolid(s[1..]);
    }
  }

  /** The length of the collapsed text, counted on the text itself. */
  lemma {:induction false} CollapseExactly(s: string)
    ensures T.SqueezedLength(s, false) == if Collapse(s) == "" then 0 else |Collapse(s)| + 1
    decreases |s|
  {
    StripLeftShrinks(s);
    SqueezeLeft(s);
    LeftTrims(s);
    var t := StripLeft(s);
    if t == "" {
    } else {
      var w := FirstWord(t);
      WordIsSolid(t);
      CollapseExactly(t[|w|..]);
      assert t == w + t[|w|..];
      assert (w + t[|w|..])[1..] == w[1..] + t[|w|..];
      SqueezeWord(w[1..], t[|w|..]);
    }
  }

  lemma {:induction false} SqueezeBlank(b: string, s: string)
    requires T.Blank(b)
    ensures T.SqueezedLength(b + s, false) == T.SqueezedLength(s, false)
  {
    LeftBlank(b, s);
    SqueezeLeft(b + s);
    SqueezeLeft(s);
  }

  // ---------------------------------------------------------------- paragraphs

  lemma BlankAll(s: string, p: nat, k: nat)
    requires p <= k < |s| && T.Blank(s[p..k + 1])
    ensures forall i | p <= i <= k :: IsSpace(s[i])
  {
    forall i | p <= i <= k
      ensures IsSpace(s[i])
    {
      assert s[p..k + 1][i - p] == s[i];
    }
  }

  lemma SubSlice(s: string, p: nat, q: nat, a: nat, b: nat)
    requires p <= q <= |s| && a <= b <= q - p
    ensures s[p..q][a..b] == s[p + a..p + b]
  {
    var u, v := s[p..q][a..b], s[p + a..p + b];
    forall m | 0 <= m < b - a
      ensures u[m] == v[m]
    {
    }
  }

  lemma {:induction false} SomeParagraph(s: string)
    requires Said(s)
    ensures Paragraphs(s) != []
    decreases |s|
  {
    if SplitGap(s).None? {
      StripSaid(s);
    } else {
      var p, n, k := FirstGap(s);
      StripSaid(s[..p]);
      var i :| 0 <= i < |s| && !IsSpace(s[i]);
      if i < p {
        assert s[..p][i] == s[i];
      } else {
        BlankAll(s, p, k);
        assert s[k + 1..][i - k - 1] == s[i];
        SomeParagraph(s[k + 1..]);
      }
    }
  }

  lemma SplitParagraphs(s: string, p: nat, k: nat)
    requires p <= k < |s| && SplitGap(s) == Some((s[..p], s[k + 1..]))
    ensures Paragraphs(s) == Kept(s[..p]) + Paragraphs(s[k + 1..])
  {
  }

  /** Behind a gap, what ends with a letter is one paragraph or at least two. */
  lemma SecondGap(r: string)
    requires AfterLastNewline(r).None? && r != "" && !IsSpace(r[|r| - 1]) && SplitGap(r).Some?
    ensures |Paragraphs(r)| >= 2
  {
    var p, n, k := FirstGap(r);
    if !Said(r[..p]) {
      assert forall i | 0 <= i < n :: IsSpace(r[i]) by {
        assert forall i | 0 <= i < p :: r[i] == r[..p][i];
        assert forall i | p <= i < n :: r[i] == r[p..k + 1][i - p];
      }
      BreakFound(r, n);
      assert false;
    }
    StripSaid(r[..p]);
    var rest := r[k + 1..];
    BlankAll(r, p, k);
    assert rest[|rest| - 1] == r[|r| - 1];
    SomeParagraph(rest);
    SplitParagraphs(r, p, k);
  }

  lemma OneKept(s: string)
    ensures SplitGap(s).None? ==> |Paragraphs(s)| <= 1
  {
  }

  /** A body that the validator accepts has its two parts. */
  lemma ValidHasParts(title: string, body: string)
    requires Trimmed(body) && BodyValid(title, body)
    ensures T.Body(title, body)
  {
    OneKept(body);
    var p, n, k := FirstGap(body);
    var r := body[k + 1..];
    BlankAll(body, p, k);
    assert body[..p][0] == body[0];
    StripSaid(body[..p]);
    assert r[|r| - 1] == body[|body| - 1];
    SplitParagraphs(body, p, k);
    assert Paragraphs(body) == [Strip(body[..p])] + Paragraphs(r);
    if SplitGap(r).Some? {
      SecondGap(r);
      assert false;
    }
    assert Paragraphs(r) == Kept(r);
    SummaryLength(r);
    GapExactly(r);
    PartsAre(title, body, p, n, k);
  }

  lemma SummaryLength(r: string)
    ensures T.SqueezedLength(r, false) == if Collapse(Strip(r)) == "" then 0 else |Collapse(Strip(r))| + 1
  {
    SqueezeStrip(r);
    CollapseExactly(Strip(r));
  }

  lemma PartsAre(title: string, body: string, p: nat, n: nat, k: nat)
    requires Gap(body, p, n, k) && T.OneParagraph(body[..p]) && Strip(body[..p]) == "# " + title
    requires T.OneParagraph(body[k + 1..]) && 2 <= T.SqueezedLength(body[k + 1..], false) <= 281
    ensures T.Body(title, body)
  {
    var g := body[p..k + 1];
    GapHasBlankLine(body, p, n, k);
    SubSlice(body, p, k + 1, n - p, k - p);
    assert g[n - p] == '\n' && g[k - p] == '\n';
    assert T.BlankLine(g, n - p, k - p);
    assert T.Parts(title, body, p, k + 1);
  }

  lemma BlankWithin(s: string, i: nat, n: nat, k: nat)
    requires T.BlankLine(s, n, k) && k < i <= |s|
    ensures !T.OneParagraph(s[..i])
  {
    assert s[..i][n..k] == s[n..k];
    assert T.BlankLine(s[..i], n, k);
  }

  /** The first gap lies over the blank line of the parts, so that both cut the same. */
  lemma GapOverlaps(body: string, i: nat, j: nat) returns (p: nat, k: nat)
    requires i < j <= |body| && T.OneParagraph(body[..i]) && T.Blank(body[i..j]) && !T.OneParagraph(body[i..j])
    ensures p <= k < |body| && SplitGap(body) == Some((body[..p], body[k + 1..]))
    ensures T.Blank(body[p..k + 1]) && AfterLastNewline(body[k + 1..]).None? && p < j && i <= k
  {
    var g := body[i..j];
    var x, y :| 0 <= x < y < |g| && T.BlankLine(g, x, y);
    SubSlice(body, i, j, x, y);
    assert body[i + x] == g[x] && body[i + y] == g[y];
    GapThere(body, i + x, i + y);
    GapFound(body, i + x);
    var n;
    p, n, k := FirstGap(body);
    if k < i {
      GapHasBlankLine(body, p, n, k);
      BlankWithin(body, i, n, k);
      assert false;
    }
  }

  /** The texts before two cuts in the same blanks strip to the same. */
  lemma SameBefore(s: string, i: nat, p: nat, j: nat, k: nat)
    requires i < j <= |s| && p <= k < |s| && p < j && i <= k && T.Blank(s[i..j]) && T.Blank(s[p..k + 1])
    ensures Strip(s[..i]) == Strip(s[..p])
  {
    if p <= i {
      assert forall m | 0 <= m < i - p :: s[p..i][m] == s[p..k + 1][m];
      StripTail(s[..p], s[p..i]);
      assert s[..i] == s[..p] + s[p..i];
    } else {
      assert forall m | 0 <= m < p - i :: s[i..p][m] == s[i..j][m];
      StripTail(s[..i], s[i..p]);
      assert s[..p] == s[..i] + s[i..p];
    }
  }

  /** And the texts behind them squeeze to the same length, and are both one paragraph. */
  lemma SameBehind(s: string, i: nat, p: nat, j: nat, k: nat)
    requires i < j <= |s| && p <= k < |s| && p < j && i <= k && T.Blank(s[i..j]) && T.Blank(s[p..k + 1])
    requires AfterLastNewline(s[k + 1..]).None? && T.OneParagraph(s[j..])
    ensures T.SqueezedLength(s[j..], false) == T.SqueezedLength(s[k + 1..], false)
    ensures T.OneParagraph(s[k + 1..])
  {
    var e := k + 1;
    if e <= j {
      assert forall m | 0 <= m < j - e :: s[e..j][m] == s[i..j][e - i + m];
      assert s[e..] == s[e..j] + s[j..];
      SqueezeBlank(s[e..j], s[j..]);
      StillOne(s[e..j], s[j..]);
    } else {
      assert forall m | 0 <= m < e - j :: s[j..e][m] == s[p..e][j - p + m];
      assert s[j..] == s[j..e] + s[e..];
      SqueezeBlank(s[j..e], s[e..]);
      BackOne(s[j..e], s[e..]);
    }
  }

  lemma StillOne(b: string, s: string)
    requires T.Blank(b) && T.OneParagraph(s) && AfterLastNewline(b + s).None?
    ensures T.OneParagraph(b + s)
  {
    var all := b + s;
    forall x, y | 0 <= x < y < |all|
      ensures !T.BlankLine(all, x, y)
    {
      if all[x] == '\n' && x < |b| {
        assert all[..x] == b[..x];
        BreakFound(all, x);
      } else if x >= |b| {
        assert all[x..y] == s[x - |b|..y - |b|];
        assert T.BlankLine(all, x, y) <==> T.BlankLine(s, x - |b|, y - |b|);
      }
    }
  }

  lemma BackOne(b: string, s: string)
    requires T.OneParagraph(b + s)
    ensures T.OneParagraph(s)
  {
    forall x, y | 0 <= x < y < |s|
      ensures T.BlankLine(s, x, y) <==> T.BlankLine(b + s, x + |b|, y + |b|)
    {
      assert (b + s)[x + |b|..y + |b|] == s[x..y];
    }
  }

  /** A body with its two parts is accepted. */
  lemma PartsAreValid(title: string, body: string, i: nat, j: nat)
    requires i < j <= |body| && T.Parts(title, body, i, j)
    ensures BodyValid(title, body)
  {
    var p, k := GapOverlaps(body, i, j);
    var r := body[k + 1..];
    SameBefore(body, i, p, j, k);
    SameBehind(body, i, p, j, k);
    GapExactly(r);
    SummaryLength(r);
    assert Strip(r) != "" by {
      assert Collapse("") == "";
    }
    SplitParagraphs(body, p, k);
    assert Paragraphs(r) == [Strip(r)];
    assert Paragraphs(body) == ["# " + title, Strip(r)];
  }

  /** The check of the body, for every stripped body. */
  lemma BodyExactly(title: string, body: string)
    requires Trimmed(body)
    ensures BodyValid(title, body) <==> T.Body(title, body)
  {
    if BodyValid(title, body) {
      ValidHasParts(title, body);
    }
    if T.Body(title, body) {
      var i, j :| 0 <= i < j <= |body| && T.Parts(title, body, i, j);
      PartsAreValid(title, body, i, j);
    }
  }

  lemma BodyIsTrimmed(markdown: string)
    requires Document(markdown).Ok?
    ensures Trimmed(Document(markdown).value.1)
  {
    StripTrims(Split(markdown).value.1);
  }

  /**
   The validator accepts a text if and only if it parses and its fields and body say what
   is asked of a receipt, and it returns the fields.
   */
  lemma ReceiptExactly(markdown: string, x: Expected)
    ensures Validate(markdown, x).Ok? <==>
              && Document(markdown).Ok? && T.Front(Document(markdown).value.0, x)
              && T.Body(x.title, Document(markdown).value.1)
    ensures Validate(markdown, x).Ok? ==> Validate(markdown, x).value == Document(markdown).value.0
  {
    ValidateByParts(markdown, x);
    ValidateReturns(markdown, x);
    if Document(markdown).Ok? {
      FrontExactly(Document(markdown).value.0, x);
      BodyIsTrimmed(markdown);
      BodyExactly(x.title, Document(markdown).value.1);
    }
  }

  lemma ValidateReturns(markdown: string, x: Expected)
    ensures Validate(markdown, x).Ok? ==>
              Document(markdown).Ok? && Validate(markdown, x).value == Document(markdown).value.0
  {
  }
}
