/**
 The printer and the parser of Engineering receipts agree: every receipt that the
 scaffold writes parses back to exactly what was asked for, and the validator accepts it
 exactly when the pull request it is checked against is the same one, the references
 resolve, and the number has at most 146 digits.
 */
module ReceiptRoundTrip {
  import opened Prelude
  import opened Json
  import opened FrontMatter
  import opened Receipt
  import opened Sorting

  // ------------------------------------------- printed JSON stays on its line

  /** Characters that break a line and that JSON does not escape. */
  predicate HighBreak(c: char) { c == '\U{85}' || c == '\U{2028}' || c == '\U{2029}' }

  predicate SmoothText(s: string) { forall c <- s :: !HighBreak(c) }

  predicate Smooth(v: Value)
    decreases v
  {
    match v
    case Str(s) => SmoothText(s)
    case Arr(items) => SmoothItems(items)
    case Obj(members) => SmoothMembers(members)
    case _ => true
  }

  predicate SmoothItems(items: seq<Value>)
    decreases items
  {
    items == [] || (Smooth(items[0]) && SmoothItems(items[1..]))
  }

  predicate SmoothMembers(ms: seq<Member>)
    decreases ms
  {
    ms == [] || (SmoothText(ms[0].name) && Smooth(ms[0].value) && SmoothMembers(ms[1..]))
  }

  lemma OneLineParts(a: string, b: string)
    ensures OneLine(a + b) <==> OneLine(a) && OneLine(b)
  {
    assert forall c :: c in a + b <==> c in a || c in b;
  }

  lemma EscapeOneLine(c: char)
    requires !HighBreak(c)
    ensures OneLine(Escape(c))
  {
  }

  lemma {:induction false} EscapeAllOneLine(s: string)
    requires SmoothText(s)
    ensures OneLine(EscapeAll(s))
  {
    if s == "" {
    } else {
      EscapeOneLine(s[0]);
      EscapeAllOneLine(s[1..]);
      OneLineParts(Escape(s[0]), EscapeAll(s[1..]));
    }
  }

  lemma QuoteOneLine(s: string)
    requires SmoothText(s)
    ensures OneLine(Quote(s))
  {
    EscapeAllOneLine(s);
    OneLineParts(EscapeAll(s), "\"");
    OneLineParts("\"", EscapeAll(s) + "\"");
  }

  lemma {:induction false} PrintOneLine(v: Value)
    requires Smooth(v)
    ensures OneLine(Print(v))
    decreases v
  {
    match v
    case Null =>
    case Bool(b) =>
    case Int(n) => OneLineParts("-", Decimal(if n < 0 then -n else n));
    case Str(s) => QuoteOneLine(s);
    case Arr(items) =>
      ItemsOneLine(items);
      OneLineParts(PrintItems(items), "]");
      OneLineParts("[", PrintItems(items) + "]");
    case Obj(members) =>
      MembersOneLine(members);
      OneLineParts(PrintMembers(members), "}");
      OneLineParts("{", PrintMembers(members) + "}");
  }

  lemma {:induction false} ItemsOneLine(items: seq<Value>)
    requires SmoothItems(items)
    ensures OneLine(PrintItems(items))
    decreases items
  {
    if items == [] {
    } else {
      PrintOneLine(items[0]);
      ItemsOneLine(items[1..]);
      OneLineParts(",", PrintItems(items[1..]));
      OneLineParts(Print(items[0]), "," + PrintItems(items[1..]));
    }
  }

  lemma {:induction false} MembersOneLine(ms: seq<Member>)
    requires SmoothMembers(ms)
    ensures OneLine(PrintMembers(ms))
    decreases ms
  {
    if ms == [] {
    } else {
      QuoteOneLine(ms[0].name);
      PrintOneLine(ms[0].value);
      OneLineParts(":", Print(ms[0].value));
      OneLineParts(Quote(ms[0].name), ":" + Print(ms[0].value));
      MembersOneLine(ms[1..]);
      OneLineParts(",", PrintMembers(ms[1..]));
      OneLineParts(PrintMember(ms[0]), "," + PrintMembers(ms[1..]));
    }
  }

  // ------------------------------------------------------- the fields are proper

  predicate Wordy(c: char) { 'a' <= c <= 'z' || 'A' <= c <= 'Z' || c == '-' }

  /** Letters and hyphens, starting with a letter. */
  predicate Word(s: string) {
    s != "" && s[0] != '-' && forall c <- s :: Wordy(c)
  }

  lemma WordIsProper(s: string)
    requires Word(s)
    ensures Trimmed(s) && OneLine(s) && ':' !in s
  {
    assert Wordy(s[0]) && Wordy(s[|s| - 1]);
  }

  /** A bare word that is not a JSON literal is kept as text. */
  lemma WordDecodes(s: string)
    requires Word(s) && s !in ["true", "false", "null"]
    ensures Decode(s) == Ok(Str(s))
  {
    assert Wordy(s[0]);
    WordlikeIsPlain(s[0]);
  }

  lemma WordlikeIsPlain(c: char)
    requires Wordy(c) && c != '-'
    ensures c !in "'|>&*!" && c !in "[{\"" && !IsDigit(c)
  {
  }

  lemma TextFieldOk(key: string, text: string)
    requires Word(key) && Word(text) && text !in ["true", "false", "null"]
    ensures FieldOk(TextField(key, text))
  {
    WordIsProper(key);
    WordIsProper(text);
    WordDecodes(text);
  }

  /** What starts and ends a printed value. */
  lemma PrintEnds(v: Value)
    ensures Print(v) != "" && Trimmed(Print(v)) && Print(v)[0] !in "'|>&*!"
    ensures Structured(Print(v))
  {
    match v
    case Null =>
    case Bool(_) =>
    case Int(n) => IntIsIntegerText(n);
    case Str(s) => assert Print(v)[0] == '"';
    case Arr(items) => assert Print(v)[0] == '[';
    case Obj(members) => assert Print(v)[0] == '{';
  }

  lemma IntIsIntegerText(n: int)
    ensures IntegerText(PrintInt(n)) && Trimmed(PrintInt(n)) && PrintInt(n)[0] !in "'|>&*!"
  {
  }

  lemma JsonFieldOk(key: string, v: Value)
    requires Word(key) && Smooth(v)
    ensures FieldOk(JsonField(key, v))
  {
    WordIsProper(key);
    PrintEnds(v);
    PrintOneLine(v);
    PrintedLoads(v);
  }

  lemma KeysAreWords(i: nat)
    requires i < |RECEIPT_KEYS|
    ensures Word(RECEIPT_KEYS[i])
  {
  }

  lemma ClassificationIsWord(c: string)
    requires c in CLASSIFICATIONS
    ensures Word(c) && c !in ["true", "false", "null"]
  {
    var i :| 0 <= i < |CLASSIFICATIONS| && CLASSIFICATIONS[i] == c;
    ClassificationWord(i);
  }

  lemma ClassificationWord(i: nat)
    requires i < |CLASSIFICATIONS|
    ensures Word(CLASSIFICATIONS[i]) && CLASSIFICATIONS[i] !in ["true", "false", "null"]
  {
  }

  /** The length and first letter of a key, which tell the keys apart. */
  function Tag(key: string): int { if key == "" then 0 else 1000 * |key| + key[0] as int }

  lemma KeysAreDistinct()
    ensures NoDuplicates(RECEIPT_KEYS)
  {
    assert Tag(SCHEMA_VERSION_KEY) == 13115 && Tag(REPOSITORY_KEY) == 10114 && Tag(PR_KEY) == 2112
        && Tag(TITLE_KEY) == 5116;
    assert Tag(CLASSIFICATION_KEY) == 14099 && Tag(REFS_KEY) == 14114 && Tag(RECONSTRUCTED_KEY) == 13114;
    assert Tag(CONFIDENCE_KEY) == 10099 && Tag(UNKNOWNS_KEY) == 8117 && Tag(HEAD_COMMIT_KEY) == 10104;
    assert Tag(MERGE_COMMIT_KEY) == 11109 && Tag(MERGED_AT_KEY) == 8109 && Tag(SOURCES_KEY) == 7115;
    assert Tag(VERIFICATION_KEY) == 12118 && Tag(VISIBILITY_KEY) == 10118 && Tag(ELIGIBILITY_KEY) == 22112;
    forall i, j | 0 <= i < j < |RECEIPT_KEYS|
      ensures RECEIPT_KEYS[i] != RECEIPT_KEYS[j]
    {
      assert Tag(RECEIPT_KEYS[i]) != Tag(RECEIPT_KEYS[j]);
    }
  }

  // -------------------------------------------------- the values are smooth

  lemma ProperIsSmooth(s: string, maximum: nat)
    requires ProperLine(s, maximum)
    ensures SmoothText(s) && OneLine(s) && Trimmed(s)
  {
    StripFixpoint(s);
    forall c | c in s
      ensures !HighBreak(c) && !LineBreak(c)
    {
      assert !Control(c);
    }
  }

  lemma RefIsSmooth(s: string)
    requires RecordRef(s)
    ensures SmoothText(s)
  {
    var at :| 0 <= at < |s| && s[at] == '@' && Slug(s[..at]) && Revision(s[at + 1..]);
    forall k | 0 <= k < |s|
      ensures !HighBreak(s[k])
    {
      if k < at {
        assert s[..at][k] == s[k];
      } else if k > at {
        assert s[at + 1..][k - at - 1] == s[k];
      }
    }
  }

  lemma {:induction false} RefsAreSmooth(refs: seq<string>)
    requires forall r <- refs :: RecordRef(r)
    ensures SmoothItems(Strings(refs)) && |Strings(refs)| == |refs|
    ensures forall i | 0 <= i < |refs| :: Strings(refs)[i] == Str(refs[i])
  {
    if refs == [] {
    } else {
      RefIsSmooth(refs[0]);
      RefsAreSmooth(refs[1..]);
    }
  }

  lemma SmoothParts(a: string, b: string)
    ensures SmoothText(a + b) <==> SmoothText(a) && SmoothText(b)
  {
    assert forall c :: c in a + b <==> c in a || c in b;
  }

  lemma NumeralIsSmooth(n: int)
    ensures SmoothText(PrintInt(n))
  {
  }

  predicate SmoothMember(m: Member) { SmoothText(m.name) && Smooth(m.value) }

  lemma {:induction false} SmoothAll(ms: seq<Member>)
    requires forall m <- ms :: SmoothMember(m)
    ensures SmoothMembers(ms)
  {
    if ms == [] {
    } else {
      assert SmoothMember(ms[0]);
      SmoothAll(ms[1..]);
    }
  }

  lemma LabelIsSmooth(pr: int)
    ensures SmoothText(LabelOf(pr)) && SmoothText("pull-request:" + PrintInt(pr))
  {
    NumeralIsSmooth(pr);
    SmoothParts("Pull request #", PrintInt(pr));
    SmoothParts("pull-request:", PrintInt(pr));
  }

  lemma UrlIsSmooth(pr: int)
    ensures SmoothText(PrUrl(REPOSITORY, pr))
  {
    NumeralIsSmooth(pr);
    HomeIsSmooth();
    SmoothParts("/pull/", PrintInt(pr));
    SmoothParts(REPOSITORY, "/pull/" + PrintInt(pr));
    SmoothParts(HOME, REPOSITORY + ("/pull/" + PrintInt(pr)));
  }

  lemma HomeIsSmooth()
    ensures SmoothText(HOME) && SmoothText(REPOSITORY) && SmoothText("/pull/")
  {
  }

  lemma KeysAreSmooth()
    ensures SmoothText(LABEL_KEY) && SmoothText(URL_KEY) && SmoothText(KIND_KEY) && SmoothText(PULL_REQUEST)
    ensures SmoothText(STATE_KEY) && SmoothText(EVIDENCE_KEY) && SmoothText("verified")
  {
  }

  lemma {:induction false} OneItem(v: Value)
    requires Smooth(v)
    ensures Smooth(Arr([v]))
  {
    assert SmoothItems([v][1..]);
  }

  lemma SourcesAreSmooth(pr: int)
    ensures Smooth(SourcesOf(pr)) && Smooth(VerificationOf(pr))
  {
    LabelIsSmooth(pr);
    UrlIsSmooth(pr);
    KeysAreSmooth();
    SmoothAll(SourcesOf(pr).items[0].members);
    OneItem(SourcesOf(pr).items[0]);
    OneItem(Str("pull-request:" + PrintInt(pr)));
    SmoothAll(VerificationOf(pr).members);
  }


  // ------------------------------------------------------------- the round trip

  lemma WordKeys()
    ensures Word(SCHEMA_VERSION_KEY) && Word(REPOSITORY_KEY) && Word(PR_KEY) && Word(TITLE_KEY)
            && Word(CLASSIFICATION_KEY)
    ensures Word(REFS_KEY) && Word(RECONSTRUCTED_KEY) && Word(CONFIDENCE_KEY) && Word(UNKNOWNS_KEY)
            && Word(HEAD_COMMIT_KEY)
    ensures Word(MERGE_COMMIT_KEY) && Word(MERGED_AT_KEY) && Word(SOURCES_KEY) && Word(VERIFICATION_KEY)
    ensures Word(VISIBILITY_KEY) && Word(ELIGIBILITY_KEY)
  {
    forall i: nat | i < |RECEIPT_KEYS|
      ensures Word(RECEIPT_KEYS[i])
    {
      KeysAreWords(i);
    }
    assert Word(RECEIPT_KEYS[0]) && Word(RECEIPT_KEYS[1]) && Word(RECEIPT_KEYS[2]) && Word(RECEIPT_KEYS[3]);
    assert Word(RECEIPT_KEYS[4]) && Word(RECEIPT_KEYS[5]) && Word(RECEIPT_KEYS[6]) && Word(RECEIPT_KEYS[7]);
    assert Word(RECEIPT_KEYS[8]) && Word(RECEIPT_KEYS[9]) && Word(RECEIPT_KEYS[10]) && Word(RECEIPT_KEYS[11]);
    assert Word(RECEIPT_KEYS[12]) && Word(RECEIPT_KEYS[13]) && Word(RECEIPT_KEYS[14]) && Word(RECEIPT_KEYS[15]);
  }

  lemma PlainTextFields()
    ensures FieldOk(TextField(REPOSITORY_KEY, REPOSITORY)) && FieldOk(TextField(CONFIDENCE_KEY, "verified"))
    ensures FieldOk(TextField(VISIBILITY_KEY, "public-safe")) && FieldOk(TextField(ELIGIBILITY_KEY, "eligible"))
  {
    WordKeys();
    PlainTexts();
    TextFieldOk(REPOSITORY_KEY, REPOSITORY);
    TextFieldOk(CONFIDENCE_KEY, "verified");
    TextFieldOk(VISIBILITY_KEY, "public-safe");
    TextFieldOk(ELIGIBILITY_KEY, "eligible");
  }

  lemma PlainTexts()
    ensures Word(REPOSITORY) && Word("verified") && Word("public-safe") && Word("eligible")
    ensures REPOSITORY !in ["true", "false", "null"] && "verified" !in ["true", "false", "null"]
    ensures "public-safe" !in ["true", "false", "null"] && "eligible" !in ["true", "false", "null"]
  {
  }

  lemma ConstantFields()
    ensures FieldOk(JsonField(SCHEMA_VERSION_KEY, Int(1))) && FieldOk(JsonField(RECONSTRUCTED_KEY, Bool(false)))
    ensures FieldOk(JsonField(UNKNOWNS_KEY, Arr([]))) && FieldOk(JsonField(HEAD_COMMIT_KEY, Null))
    ensures FieldOk(JsonField(MERGE_COMMIT_KEY, Null)) && FieldOk(JsonField(MERGED_AT_KEY, Null))
  {
    WordKeys();
    JsonFieldOk(SCHEMA_VERSION_KEY, Int(1));
    JsonFieldOk(RECONSTRUCTED_KEY, Bool(false));
    JsonFieldOk(UNKNOWNS_KEY, Arr([]));
    JsonFieldOk(HEAD_COMMIT_KEY, Null);
    JsonFieldOk(MERGE_COMMIT_KEY, Null);
    JsonFieldOk(MERGED_AT_KEY, Null);
  }

  lemma RequestedFields(pr: int, title: string, classification: string, refs: seq<string>)
    requires ProperLine(title, 160) && classification in CLASSIFICATIONS && forall r <- refs :: RecordRef(r)
    ensures FieldOk(JsonField(PR_KEY, Int(pr))) && FieldOk(JsonField(TITLE_KEY, Str(title)))
    ensures FieldOk(TextField(CLASSIFICATION_KEY, classification)) && FieldOk(JsonField(REFS_KEY, Arr(Strings(refs))))
    ensures FieldOk(JsonField(SOURCES_KEY, SourcesOf(pr))) && FieldOk(JsonField(VERIFICATION_KEY, VerificationOf(pr)))
  {
    WordKeys();
    JsonFieldOk(PR_KEY, Int(pr));
    ProperIsSmooth(title, 160);
    JsonFieldOk(TITLE_KEY, Str(title));
    ClassificationIsWord(classification);
    TextFieldOk(CLASSIFICATION_KEY, classification);
    RefsAreSmooth(refs);
    JsonFieldOk(REFS_KEY, Arr(Strings(refs)));
    SourcesAreSmooth(pr);
    JsonFieldOk(SOURCES_KEY, SourcesOf(pr));
    JsonFieldOk(VERIFICATION_KEY, VerificationOf(pr));
  }

  /** `f` is the list of rendered fields, one by one. */
  predicate Rendered(f: seq<Field>, pr: int, title: string, classification: string, refs: seq<string>) {
    |f| == 16 && LeadingRendered(f, pr, title, classification, refs) && TrailingRendered(f[8..], pr)
  }

  predicate LeadingRendered(f: seq<Field>, pr: int, title: string, classification: string, refs: seq<string>) {
    && |f| >= 8
    && f[0] == JsonField(SCHEMA_VERSION_KEY, Int(1))
    && f[1] == TextField(REPOSITORY_KEY, REPOSITORY)
    && f[2] == JsonField(PR_KEY, Int(pr))
    && f[3] == JsonField(TITLE_KEY, Str(title))
    && f[4] == TextField(CLASSIFICATION_KEY, classification)
    && f[5] == JsonField(REFS_KEY, Arr(Strings(refs)))
    && f[6] == JsonField(RECONSTRUCTED_KEY, Bool(false))
    && f[7] == TextField(CONFIDENCE_KEY, "verified")
  }

  predicate TrailingRendered(f: seq<Field>, pr: int) {
    && |f| == 8
    && f[0] == JsonField(UNKNOWNS_KEY, Arr([]))
    && f[1] == JsonField(HEAD_COMMIT_KEY, Null)
    && f[2] == JsonField(MERGE_COMMIT_KEY, Null)
    && f[3] == JsonField(MERGED_AT_KEY, Null)
    && f[4] == JsonField(SOURCES_KEY, SourcesOf(pr))
    && f[5] == JsonField(VERIFICATION_KEY, VerificationOf(pr))
    && f[6] == TextField(VISIBILITY_KEY, "public-safe")
    && f[7] == TextField(ELIGIBILITY_KEY, "eligible")
  }

  lemma FieldsAreRendered(pr: int, title: string, classification: string, refs: seq<string>)
    ensures Rendered(FieldsOf(pr, title, classification, refs), pr, title, classification, refs)
  {
    var a, b := LeadingFields(pr, title, classification, refs), TrailingFields(pr);
    LeadingAreRendered(a, b, pr, title, classification, refs);
    TrailingAreRendered(pr);
    assert (a + b)[8..] == b;
  }

  lemma LeadingAreRendered(a: seq<Field>, b: seq<Field>, pr: int, title: string, classification: string,
                           refs: seq<string>)
    requires a == LeadingFields(pr, title, classification, refs)
    ensures |a| == 8 && LeadingRendered(a + b, pr, title, classification, refs)
  {
  }

  lemma TrailingAreRendered(pr: int)
    ensures TrailingRendered(TrailingFields(pr), pr)
  {
  }

  lemma FieldsProper(f: seq<Field>, pr: int, title: string, classification: string, refs: seq<string>)
    requires ProperLine(title, 160) && classification in CLASSIFICATIONS && forall r <- refs :: RecordRef(r)
    requires Rendered(f, pr, title, classification, refs)
    ensures forall x <- f :: FieldOk(x)
  {
    PlainTextFields();
    ConstantFields();
    RequestedFields(pr, title, classification, refs);
    AllProper(f);
  }

  lemma AllProper(f: seq<Field>)
    requires |f| == 16
    requires FieldOk(f[0]) && FieldOk(f[1]) && FieldOk(f[2]) && FieldOk(f[3]) && FieldOk(f[4]) && FieldOk(f[5])
    requires FieldOk(f[6]) && FieldOk(f[7]) && FieldOk(f[8]) && FieldOk(f[9]) && FieldOk(f[10]) && FieldOk(f[11])
    requires FieldOk(f[12]) && FieldOk(f[13]) && FieldOk(f[14]) && FieldOk(f[15])
    ensures forall x <- f :: FieldOk(x)
  {
    forall x | x in f
      ensures FieldOk(x)
    {
      var i :| 0 <= i < 16 && f[i] == x;
    }
  }

  lemma FieldsDistinct(f: seq<Field>, pr: int, title: string, classification: string, refs: seq<string>)
    requires Rendered(f, pr, title, classification, refs)
    ensures DistinctKeys(f) && forall i | 0 <= i < |f| :: f[i].key == RECEIPT_KEYS[i]
  {
    KeysAreDistinct();
    forall i | 0 <= i < |f|
      ensures f[i].key == RECEIPT_KEYS[i]
    {
    }
  }
}
