/**
 The main results about receipts: the exact round trip, and exactly when the validator
 accepts what the scaffold wrote.
 */
module ReceiptValidity {
  import opened Prelude
  import opened Json
  import opened FrontMatter
  import opened Receipt
  import opened Sorting
  import opened ReceiptRoundTrip

  // ---------------------------------------------------- the values, one by one

  lemma {:induction false} ValueAt(f: seq<Field>, i: nat)
    requires DistinctKeys(f) && i < |f|
    ensures f[i].key in ValuesOf(f) && ValuesOf(f)[f[i].key] == f[i].value
    decreases |f|
  {
    var n := |f| - 1;
    if i >= n {
    } else {
      ValueAt(f[..n], i);
      assert f[i].key != f[n].key;
    }
  }

  /** `v` holds exactly the sixteen fields of a rendered receipt. */
  predicate Carries(v: map<string, Value>, pr: int, title: string, classification: string, refs: seq<string>) {
    && v.Keys == (set k <- RECEIPT_KEYS)
    && HasKeys(v)
    && CarriesScalars(v, pr, title, classification)
    && v[REFS_KEY] == Arr(Strings(refs))
    && v[HEAD_COMMIT_KEY] == Null && v[MERGE_COMMIT_KEY] == Null && v[MERGED_AT_KEY] == Null
    && v[SOURCES_KEY] == SourcesOf(pr)
    && v[VERIFICATION_KEY] == VerificationOf(pr)
    && v[VISIBILITY_KEY] == Str("public-safe")
    && v[ELIGIBILITY_KEY] == Str("eligible")
  }

  predicate CarriesScalars(v: map<string, Value>, pr: int, title: string, classification: string)
    requires HasKeys(v)
  {
    && v[SCHEMA_VERSION_KEY] == Int(1)
    && v[REPOSITORY_KEY] == Str(REPOSITORY)
    && v[PR_KEY] == Int(pr)
    && v[TITLE_KEY] == Str(title)
    && v[CLASSIFICATION_KEY] == Str(classification)
    && v[RECONSTRUCTED_KEY] == Bool(false)
    && v[CONFIDENCE_KEY] == Str("verified")
    && v[UNKNOWNS_KEY] == Arr([])
  }

  lemma KeySet(f: seq<Field>)
    requires |f| == |RECEIPT_KEYS| && forall i | 0 <= i < |f| :: f[i].key == RECEIPT_KEYS[i]
    ensures ValuesOf(f).Keys == (set k <- RECEIPT_KEYS)
  {
    ValuesHaveKeys(f);
    var keys := RECEIPT_KEYS;
    forall k
      ensures k in ValuesOf(f) <==> k in keys
    {
      if k in keys {
        var i :| 0 <= i < |keys| && keys[i] == k;
        assert f[i].key == k;
      }
    }
  }

  lemma RenderedCarries(f: seq<Field>, pr: int, title: string, classification: string, refs: seq<string>)
    requires Rendered(f, pr, title, classification, refs)
    ensures Carries(ValuesOf(f), pr, title, classification, refs)
  {
    FieldsDistinct(f, pr, title, classification, refs);
    KeySet(f);
    ValueAt(f, 0);
    ValueAt(f, 1);
    ValueAt(f, 2);
    ValueAt(f, 3);
    ValueAt(f, 4);
    ValueAt(f, 5);
    ValueAt(f, 6);
    ValueAt(f, 7);
    ValueAt(f, 8);
    ValueAt(f, 9);
    ValueAt(f, 10);
    ValueAt(f, 11);
    ValueAt(f, 12);
    ValueAt(f, 13);
    ValueAt(f, 14);
    ValueAt(f, 15);
  }

  lemma BodyStrips(title: string, summary: string)
    requires ProperLine(summary, 280)
    ensures Strip(BodyOf(title, summary) + "\n") == BodyOf(title, summary)
  {
    ProperIsSmooth(summary, 280);
    var body := BodyOf(title, summary);
    assert body[0] == '#';
    assert body[|body| - 1] == summary[|summary| - 1];
    StripSurrounded("", body, "\n");
    Neutral(body);
  }

  /**
   Parsing what the scaffold writes gives exactly the fields it was asked for and the
   two paragraphs of the body: no title or summary breaks a line, a quoted value, the
   delimiter or the body.
   */
  lemma ScaffoldParses(q: Request)
    requires Accepted(q)
    ensures Document(Scaffold(q).value).Ok?
    ensures var d := Document(Scaffold(q).value).value;
            && Carries(d.0, q.pr, q.title, q.classification, Sorted(q.refs))
            && d.1 == BodyOf(q.title, q.summary)
  {
    var refs := Sorted(q.refs);
    FieldsAreRendered(q.pr, q.title, q.classification, refs);
    RenderedParses(FieldsOf(q.pr, q.title, q.classification, refs), q.pr, q.title, q.summary, q.classification, refs);
  }

  lemma RenderedParses(f: seq<Field>, pr: int, title: string, summary: string, classification: string,
                       refs: seq<string>)
    requires ProperLine(title, 160) && ProperLine(summary, 280)
    requires classification in CLASSIFICATIONS && forall r <- refs :: RecordRef(r)
    requires Rendered(f, pr, title, classification, refs)
    ensures f != [] && Document(Assemble(f, BodyOf(title, summary) + "\n")).Ok?
    ensures var d := Document(Assemble(f, BodyOf(title, summary) + "\n")).value;
            Carries(d.0, pr, title, classification, refs) && d.1 == BodyOf(title, summary)
  {
    FieldsProper(f, pr, title, classification, refs);
    FieldsDistinct(f, pr, title, classification, refs);
    RenderedCarries(f, pr, title, classification, refs);
    AssembledParses(f, BodyOf(title, summary) + "\n");
    BodyStrips(title, summary);
  }

  // ------------------------------------------------------------------ the body

  lemma {:induction false} GapSkips(line: string, s: string)
    requires OneLine(line) && s != "" && SplitGap(s).Some?
    ensures SplitGap(line + s) == Some((line + SplitGap(s).value.0, SplitGap(s).value.1))
  {
    if line == "" {
      Neutral(s);
      Neutral(SplitGap(s).value.0);
    } else {
      assert (line + s)[1..] == line[1..] + s;
      assert !LineBreak(line[0]) && (line + s)[0] == line[0];
      GapSkips(line[1..], s);
      assert [line[0]] + (line[1..] + SplitGap(s).value.0) == line + SplitGap(s).value.0;
    }
  }

  lemma {:induction false} NoGap(line: string)
    requires OneLine(line)
    ensures SplitGap(line).None?
  {
    if line == "" {
    } else {
      assert !LineBreak(line[0]);
      NoGap(line[1..]);
    }
  }

  lemma GapHere(t: string)
    requires t != "" && !IsSpace(t[0])
    ensures SplitGap("\n\n" + t) == Some(("", t))
  {
    assert ("\n\n" + t)[1..] == "\n" + t;
    assert ("\n" + t)[1..] == t;
    assert AfterLastNewline(t).None?;
    assert AfterLastNewline("\n" + t) == Some(t);
  }

  lemma BodySplits(title: string, summary: string)
    requires ProperLine(title, 160) && ProperLine(summary, 280)
    ensures SplitGap(BodyOf(title, summary)) == Some(("# " + title, summary)) && SplitGap(summary).None?
  {
    ProperIsSmooth(title, 160);
    ProperIsSmooth(summary, 280);
    OneLineParts("# ", title);
    GapHere(summary);
    GapSkips("# " + title, "\n\n" + summary);
    NoGap(summary);
    Associative("# ", title, "\n\n" + summary);
    Neutral("# " + title);
  }

  lemma HeadingIsKept(title: string)
    requires ProperLine(title, 160)
    ensures Kept("# " + title) == ["# " + title]
  {
    ProperIsSmooth(title, 160);
    var heading := "# " + title;
    assert heading[0] == '#' && heading[|heading| - 1] == title[|title| - 1];
    StripFixpoint(heading);
  }

  /** The body of a receipt has exactly two paragraphs, the heading and the summary. */
  lemma BodyHasTwoParagraphs(title: string, summary: string)
    requires ProperLine(title, 160) && ProperLine(summary, 280)
    ensures Paragraphs(BodyOf(title, summary)) == ["# " + title, summary]
  {
    BodySplits(title, summary);
    HeadingIsKept(title);
    assert Paragraphs(summary) == [summary];
  }

  /** Collapsing white space never makes text longer, and leaves something of proper text. */
  lemma {:induction false} CollapseShrinks(s: string)
    ensures |Collapse(s)| <= |s|
    ensures s != "" && IsSpace(s[0]) && Collapse(s) != "" ==> |Collapse(s)| < |s|
    ensures s != "" && !IsSpace(s[0]) ==> Collapse(s) != ""
    decreases |s|
  {
    StripLeftShrinks(s);
    var t := StripLeft(s);
    if t == "" {
    } else {
      var w := FirstWord(t);
      CollapseShrinks(t[|w|..]);
    }
  }

  lemma BodyIsValid(title: string, summary: string)
    requires ProperLine(title, 160) && ProperLine(summary, 280)
    ensures BodyValid(title, BodyOf(title, summary))
  {
    BodyHasTwoParagraphs(title, summary);
    ProperIsSmooth(summary, 280);
    CollapseShrinks(summary);
  }

  // -------------------------------------------------------------- the checks

  lemma RepositoryIsName()
    ensures RepositoryName(REPOSITORY) && "verified" in CONFIDENCE_VALUES
  {
    assert "verified" == CONFIDENCE_VALUES[0];
  }

  lemma FieldsCheck(v: map<string, Value>, x: Expected, pr: int, title: string, classification: string)
    requires v.Keys == (set k <- RECEIPT_KEYS) && HasKeys(v) && CarriesScalars(v, pr, title, classification)
    requires 1 <= |title| <= 160 && classification in CLASSIFICATIONS
    ensures FieldsValid(v, x) <==>
              x.repository == REPOSITORY && x.pr == pr && x.title == title && x.classification == classification
  {
    RepositoryIsName();
  }

  lemma RefsAreStringList(refs: seq<string>)
    requires |refs| <= 16 && NoDuplicates(refs) && forall r <- refs :: 1 <= |r| <= 180
    ensures StringList(Arr(Strings(refs)), 16, 180) && |Strings(refs)| == |refs|
    ensures forall i | 0 <= i < |refs| :: Strings(refs)[i] == Str(refs[i])
  {
    StringsAreTexts(refs);
    var v := Arr(Strings(refs));
    forall i | 0 <= i < |refs|
      ensures v.items[i].Str? && 1 <= |v.items[i].text| <= 180
    {
      assert refs[i] in refs;
    }
  }

  lemma {:induction false} StringsAreTexts(refs: seq<string>)
    ensures |Strings(refs)| == |refs| && forall i | 0 <= i < |refs| :: Strings(refs)[i] == Str(refs[i])
  {
    if refs == [] {
    } else {
      StringsAreTexts(refs[1..]);
    }
  }

  lemma ResolveCheck(x: Expected, refs: seq<string>, items: seq<Value>)
    requires |items| == |refs| && forall i | 0 <= i < |refs| :: items[i] == Str(refs[i])
    ensures (forall i | 0 <= i < |items| :: Resolves(x, items[i].text)) <==> forall r <- refs :: Resolves(x, r)
  {
    forall i | 0 <= i < |items|
      ensures items[i].text in refs
    {
      assert refs[i] in refs;
    }
    if forall i | 0 <= i < |items| :: Resolves(x, items[i].text) {
      forall r | r in refs
        ensures Resolves(x, r)
      {
        var i :| 0 <= i < |refs| && refs[i] == r;
        assert Resolves(x, items[i].text);
      }
    }
  }

  lemma RefListCheck(x: Expected, refs: seq<string>)
    requires RefsAccepted(x.classification, refs)
    ensures RefListValid(Arr(Strings(refs)), x) <==> forall r <- refs :: Resolves(x, r)
  {
    forall r | r in refs
      ensures 1 <= |r| <= 180 && RecordRef(r)
    {
    }
    RefsAreStringList(refs);
    ResolveCheck(x, refs, Strings(refs));
    forall i | 0 <= i < |refs|
      ensures RecordRef(Strings(refs)[i].text)
    {
      assert refs[i] in refs;
    }
  }

  lemma RefsCheck(v: map<string, Value>, x: Expected, refs: seq<string>)
    requires HasKeys(v) && v[REFS_KEY] == Arr(Strings(refs)) && RefsAccepted(x.classification, refs)
    requires v[HEAD_COMMIT_KEY] == Null && v[MERGE_COMMIT_KEY] == Null && v[MERGED_AT_KEY] == Null
    ensures RefsValid(v, x) <==> forall r <- refs :: Resolves(x, r)
  {
    RefListCheck(x, refs);
  }

  // ------------------------------------------------------- sources and evidence

  function SourceOf(pr: int): Value {
    Obj([Member(LABEL_KEY, Str(LabelOf(pr))), Member(URL_KEY, Str(PrUrl(REPOSITORY, pr))),
         Member(KIND_KEY, Str(PULL_REQUEST))])
  }

  lemma ThreeMembers(a: Member, b: Member, c: Member)
    requires a.name != b.name && a.name != c.name && b.name != c.name
    ensures var ms := [a, b, c];
            && Names(ms) == {a.name, b.name, c.name}
            && Lookup(ms, a.name) == a.value && Lookup(ms, b.name) == b.value && Lookup(ms, c.name) == c.value
  {
    var ms := [a, b, c];
    assert ms[..2] == [a, b] && ms[..2][..1] == [a];
    assert a in ms && b in ms && c in ms;
    assert a in ms[..2] && b in ms[..2];
    assert Lookup(ms[..2][..1], a.name) == a.value;
    assert Lookup(ms[..2], a.name) == a.value && Lookup(ms[..2], b.name) == b.value;
  }

  lemma SourceMembers(pr: int)
    ensures var ms := SourceOf(pr).members;
            && Names(ms) == {LABEL_KEY, URL_KEY, KIND_KEY}
            && Lookup(ms, LABEL_KEY) == Str(LabelOf(pr))
            && Lookup(ms, URL_KEY) == Str(PrUrl(REPOSITORY, pr))
            && Lookup(ms, KIND_KEY) == Str(PULL_REQUEST)
  {
    var ms := SourceOf(pr).members;
    assert |LABEL_KEY| == 5 && |URL_KEY| == 3 && |KIND_KEY| == 4;
    ThreeMembers(ms[0], ms[1], ms[2]);
  }

  lemma UrlIsHttps(pr: int)
    ensures OccursAt(PrUrl(REPOSITORY, pr), 0, "https://") && |PrUrl(REPOSITORY, pr)| == 58 + |PrintInt(pr)|
    ensures |LabelOf(pr)| == 14 + |PrintInt(pr)|
  {
    var url := PrUrl(REPOSITORY, pr);
    assert |HOME| == 30;
    assert url[..8] == HOME[..8];
    assert HOME[..8] == "https://";
  }

  lemma SourceCheck(pr: int)
    ensures SourceValid(SourceOf(pr)) <==> |PrintInt(pr)| <= 146
  {
    SourceMembers(pr);
    UrlIsHttps(pr);
    assert PULL_REQUEST == SOURCE_KINDS[1];
  }

  lemma SourcesCheck(v: map<string, Value>, x: Expected, pr: int)
    requires HasKeys(v) && v[SOURCES_KEY] == SourcesOf(pr)
    ensures SourcesValid(v, x) <==> |PrintInt(pr)| <= 146 && ExpectedUrl(x) == PrUrl(REPOSITORY, pr)
  {
    SourceMembers(pr);
    SourceCheck(pr);
    var items := v[SOURCES_KEY].items;
    assert items == [SourceOf(pr)];
    if |PrintInt(pr)| <= 146 {
      assert Cites(items[0], ExpectedUrl(x)) <==> ExpectedUrl(x) == PrUrl(REPOSITORY, pr);
    }
  }

  lemma TwoMembers(a: Member, b: Member)
    requires a.name != b.name
    ensures var ms := [a, b];
            Names(ms) == {a.name, b.name} && Lookup(ms, a.name) == a.value && Lookup(ms, b.name) == b.value
  {
    var ms := [a, b];
    assert ms[..1] == [a] && a in ms && b in ms;
    assert Lookup(ms[..1], a.name) == a.value;
  }

  lemma EvidenceIsList(pr: int)
    requires |PrintInt(pr)| <= 146
    ensures StringList(Arr([Str("pull-request:" + PrintInt(pr))]), 32, 512)
  {
  }

  lemma VerificationCheck(v: map<string, Value>, pr: int)
    requires HasKeys(v) && v[VERIFICATION_KEY] == VerificationOf(pr) && |PrintInt(pr)| <= 146
    requires v[HEAD_COMMIT_KEY] == Null && v[MERGE_COMMIT_KEY] == Null && v[MERGED_AT_KEY] == Null
    requires v[VISIBILITY_KEY] == Str("public-safe") && v[ELIGIBILITY_KEY] == Str("eligible")
    ensures VerificationValid(v)
  {
    var ms := v[VERIFICATION_KEY].members;
    assert |STATE_KEY| == 5 && |EVIDENCE_KEY| == 12;
    TwoMembers(ms[0], ms[1]);
    EvidenceIsList(pr);
  }

  // ----------------------------------------------------- exactly when it is valid

  /** The pull request that the receipt is checked against is the one it was written for. */
  predicate SamePullRequest(q: Request, x: Expected) {
    && x.repository == REPOSITORY && x.pr == q.pr && x.title == q.title && x.classification == q.classification
    && (x.prUrl.Some? && x.prUrl.value != "" ==> x.prUrl.value == PrUrl(REPOSITORY, q.pr))
  }

  predicate SameFields(q: Request, x: Expected) {
    x.repository == REPOSITORY && x.pr == q.pr && x.title == q.title && x.classification == q.classification
  }

  lemma CarriedFields(v: map<string, Value>, q: Request, x: Expected, refs: seq<string>)
    requires Carries(v, q.pr, q.title, q.classification, refs)
    requires 1 <= |q.title| <= 160 && q.classification in CLASSIFICATIONS
    ensures FieldsValid(v, x) <==> SameFields(q, x)
  {
    FieldsCheck(v, x, q.pr, q.title, q.classification);
  }

  lemma CarriedRefs(v: map<string, Value>, q: Request, x: Expected, refs: seq<string>)
    requires Carries(v, q.pr, q.title, q.classification, refs)
    requires RefsAccepted(q.classification, refs) && x.classification == q.classification
    ensures RefsValid(v, x) <==> forall r <- refs :: Resolves(x, r)
  {
    RefsCheck(v, x, refs);
  }

  lemma CarriedSources(v: map<string, Value>, q: Request, x: Expected, refs: seq<string>)
    requires Carries(v, q.pr, q.title, q.classification, refs)
    ensures SourcesValid(v, x) <==> |PrintInt(q.pr)| <= 146 && ExpectedUrl(x) == PrUrl(REPOSITORY, q.pr)
    ensures |PrintInt(q.pr)| <= 146 ==> VerificationValid(v)
  {
    SourcesCheck(v, x, q.pr);
    if |PrintInt(q.pr)| <= 146 {
      VerificationCheck(v, q.pr);
    }
  }

  /** The four checks of the front matter, as one. */
  predicate FrontValid(v: map<string, Value>, x: Expected) {
    HasKeys(v) && FieldsValid(v, x) && RefsValid(v, x) && SourcesValid(v, x) && VerificationValid(v)
  }

  lemma AllChecks(v: map<string, Value>, x: Expected, a: bool, b: bool, c: bool)
    requires HasKeys(v) && (FieldsValid(v, x) <==> a) && (a ==> (RefsValid(v, x) <==> b))
    requires (SourcesValid(v, x) <==> c) && (c ==> VerificationValid(v))
    ensures FrontValid(v, x) <==> a && b && c
  {
  }

  lemma SameByParts(q: Request, x: Expected)
    ensures SamePullRequest(q, x) <==> SameFields(q, x) && ExpectedUrl(x) == PrUrl(REPOSITORY, q.pr)
  {
  }

  lemma CarriedIsValid(v: map<string, Value>, q: Request, x: Expected, refs: seq<string>)
    requires Carries(v, q.pr, q.title, q.classification, refs)
    requires 1 <= |q.title| <= 160 && q.classification in CLASSIFICATIONS && RefsAccepted(q.classification, refs)
    ensures FrontValid(v, x) <==>
              SamePullRequest(q, x) && (forall r <- refs :: Resolves(x, r)) && |PrintInt(q.pr)| <= 146
  {
    CarriedFields(v, q, x, refs);
    if x.classification == q.classification {
      CarriedRefs(v, q, x, refs);
    }
    CarriedSources(v, q, x, refs);
    SameByParts(q, x);
    var resolves := forall r <- refs :: Resolves(x, r);
    AllChecks(v, x, SameFields(q, x), resolves, |PrintInt(q.pr)| <= 146 && ExpectedUrl(x) == PrUrl(REPOSITORY, q.pr));
  }

  lemma ValidateByParts(markdown: string, x: Expected)
    ensures Validate(markdown, x).Ok? <==>
              && Document(markdown).Ok? && FrontValid(Document(markdown).value.0, x)
              && BodyValid(x.title, Document(markdown).value.1)
  {
  }

  /**
   The validator accepts what the scaffold wrote if and only if it is asked about the
   same pull request, every reference resolves with the matching type, and the number
   has at most 146 digits, as the label `Pull request #<number>` is limited to 160.
   */
  lemma ScaffoldValidExactly(q: Request, x: Expected)
    requires Accepted(q)
    ensures Validate(Scaffold(q).value, x).Ok? <==>
              && SamePullRequest(q, x)
              && (forall r <- Sorted(q.refs) :: Resolves(x, r))
              && q.pr < Power10(146)
  {
    ScaffoldParses(q);
    CarriedIsValid(Document(Scaffold(q).value).value.0, q, x, Sorted(q.refs));
    ValidateByParts(Scaffold(q).value, x);
    BodyIsValid(q.title, q.summary);
    DecimalLength(q.pr, 146);
  }

  function HugeRequest(): Request { Request(Power10(146), "t", "s", "none", []) }

  /** So with a longer number the scaffold writes a receipt that its own validator refuses. */
  lemma HugeNumberIsRefused()
    ensures Accepted(HugeRequest())
    ensures var q := HugeRequest();
            Validate(Scaffold(q).value, Expected(REPOSITORY, q.pr, q.title, q.classification, map[], None)).Err?
  {
    var q := HugeRequest();
    HugeIsAccepted();
    ScaffoldValidExactly(q, Expected(REPOSITORY, q.pr, q.title, q.classification, map[], None));
  }

  lemma HugeIsAccepted()
    ensures Accepted(HugeRequest())
  {
    Power10Positive(146);
    StripFixpoint("t");
    StripFixpoint("s");
    assert CLASSIFICATIONS[0] == "none";
  }
}
