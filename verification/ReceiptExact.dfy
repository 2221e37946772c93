/**
 The validator accepts a receipt if and only if it says what `ReceiptTerms` asks, for
 every text.
 */
module ReceiptExact {
  import opened Prelude
  import opened Json
  import opened FrontMatter
  import opened Receipt
  import opened ReceiptValidity
  import opened Sorting
  import opened Permutations
  import T = ReceiptTerms

  // ------------------------------------------------------------------- fields

  function KeySet(): set<string> {
    {SCHEMA_VERSION_KEY, REPOSITORY_KEY, PR_KEY, TITLE_KEY, CLASSIFICATION_KEY, REFS_KEY, RECONSTRUCTED_KEY,
     CONFIDENCE_KEY, UNKNOWNS_KEY, HEAD_COMMIT_KEY, MERGE_COMMIT_KEY, MERGED_AT_KEY, SOURCES_KEY, VERIFICATION_KEY,
     VISIBILITY_KEY, ELIGIBILITY_KEY}
  }

  lemma KeyIsListed(k: string)
    ensures k in KeySet() <==> k in RECEIPT_KEYS
  {
    var ks := RECEIPT_KEYS;
    assert ks[0] in ks && ks[1] in ks && ks[2] in ks && ks[3] in ks && ks[4] in ks && ks[5] in ks && ks[6] in ks
           && ks[7] in ks && ks[8] in ks && ks[9] in ks && ks[10] in ks && ks[11] in ks && ks[12] in ks && ks[13] in ks
           && ks[14] in ks && ks[15] in ks;
  }

  lemma KeysExactly(v: map<string, Value>)
    ensures v.Keys == (set k <- RECEIPT_KEYS) <==> T.Fields(v)
    ensures T.Fields(v) ==> HasKeys(v)
  {
    forall k: string
      ensures k in KeySet() <==> k in RECEIPT_KEYS
    {
      KeyIsListed(k);
    }
    assert KeySet() == set k <- RECEIPT_KEYS;
    assert v.Keys == KeySet() <==> T.Fields(v);
  }

  lemma TextsExactly(v: Value, most: nat, longest: nat)
    ensures StringList(v, most, longest) <==> T.Texts(v, most, longest)
  {
  }

  lemma NameExactly(s: string)
    ensures RepositoryName(s) <==> |s| > 0 && forall i | 0 <= i < |s| :: T.NameChar(s[i])
  {
    assert forall i | 0 <= i < |s| :: s[i] in s;
  }

  lemma ClassificationExactly(s: string)
    ensures s in CLASSIFICATIONS <==> T.Classification(s)
  {
    var cs := CLASSIFICATIONS;
    assert cs[0] in cs && cs[1] in cs && cs[2] in cs && cs[3] in cs && cs[4] in cs && cs[5] in cs && cs[6] in cs;
  }

  lemma ConfidenceExactly(s: string)
    ensures s in CONFIDENCE_VALUES <==> T.Confidence(s)
  {
    var qs := CONFIDENCE_VALUES;
    assert qs[0] in qs && qs[1] in qs && qs[2] in qs && qs[3] in qs && qs[4] in qs;
  }

  lemma KindExactly(s: string)
    ensures s in SOURCE_KINDS <==> T.SourceKind(s)
  {
    var ks := SOURCE_KINDS;
    assert ks[0] in ks && ks[1] in ks && ks[2] in ks && ks[3] in ks && ks[4] in ks && ks[5] in ks;
  }

  lemma AskedExactly(v: map<string, Value>, x: Expected)
    requires T.Fields(v)
    ensures FieldsValid(v, x) <==> T.Asked(v, x)
  {
    KeysExactly(v);
    NameExactly(x.repository);
    ClassificationExactly(x.classification);
    if v["confidence"].Str? {
      ConfidenceExactly(v["confidence"].text);
    }
    TextsExactly(v["unknowns"], 32, 512);
  }

  // ---------------------------------------------------- references and facts

  lemma SlugExactly(s: string)
    ensures Slug(s) <==> T.SlugOf(s)
  {
    if T.SlugOf(s) {
      forall k | 0 < k < |s|
        ensures s[k - 1] == '-' ==> s[k] != '-'
      {
      }
    }
  }

  lemma ReferenceAt(s: string, at: nat)
    requires at < |s|
    ensures s[at] == '@' && Slug(s[..at]) && Revision(s[at + 1..]) <==>
              0 < at < |s| - 1 && s[at] == '@' && T.SlugOf(s[..at]) && T.RevisionOf(s, at)
  {
    SlugExactly(s[..at]);
    var revision := s[at + 1..];
    assert forall k | at < k < |s| :: s[k] == revision[k - at - 1];
    assert forall k | 0 <= k < |revision| :: revision[k] == s[at + 1 + k];
  }

  lemma ReferenceExactly(s: string)
    ensures RecordRef(s) <==> T.Reference(s)
  {
    forall at: nat | at < |s|
      ensures s[at] == '@' && Slug(s[..at]) && Revision(s[at + 1..]) <==>
                0 < at < |s| - 1 && s[at] == '@' && T.SlugOf(s[..at]) && T.RevisionOf(s, at)
    {
      ReferenceAt(s, at);
    }
  }

  lemma ReferencesExactly(v: Value, x: Expected)
    ensures RefListValid(v, x) <==> T.References(v, x)
  {
    TextsExactly(v, 16, 180);
    if v.Arr? && forall i | 0 <= i < |v.items| :: v.items[i].Str? {
      forall i | 0 <= i < |v.items|
        ensures RecordRef(v.items[i].text) <==> T.Reference(v.items[i].text)
      {
        ReferenceExactly(v.items[i].text);
      }
    }
  }

  lemma CommitExactly(v: Value)
    ensures v == Null || (v.Str? && Commit(v.text)) <==> T.CommitOrNull(v)
  {
    if v.Str? {
      assert forall i | 0 <= i < |v.text| :: v.text[i] in v.text;
    }
  }

  lemma TimeExactly(s: string)
    ensures Timestamp(s) <==> T.Time(s)
  {
    assert |TIME_SHAPE| == 20;
    assert forall k: nat | k < 20 ::
        TIME_SHAPE[k] == 'd' <==> k != 4 && k != 7 && k != 10 && k != 13 && k != 16 && k != 19;
  }

  lemma FactsExactly(v: map<string, Value>, x: Expected)
    requires T.Fields(v)
    ensures HasKeys(v)
    ensures RefsValid(v, x) <==>
              && T.References(v["richRecordRefs"], x) && T.CommitOrNull(v["headCommit"])
              && T.CommitOrNull(v["mergeCommit"]) && T.TimeOrNull(v["mergedAt"])
  {
    KeysExactly(v);
    ReferencesExactly(v["richRecordRefs"], x);
    CommitExactly(v["headCommit"]);
    CommitExactly(v["mergeCommit"]);
    if v["mergedAt"].Str? {
      TimeExactly(v["mergedAt"].text);
    }
  }

  // ------------------------------------------------------ sources and evidence

  lemma SourceExactly(s: Value)
    ensures SourceValid(s) <==> T.Source(s)
  {
    if s.Obj? && Names(s.members) == {"label", "url", "kind"} {
      var kind, url := Lookup(s.members, "kind"), Lookup(s.members, "url");
      if kind.Str? {
        KindExactly(kind.text);
      }
      if url.Str? {
        assert OccursAt(url.text, 0, "https://") <==> "https://" <= url.text;
      }
    }
  }

  lemma UrlExactly(x: Expected)
    ensures ExpectedUrl(x) == T.Url(x)
  {
    Associative("https://github.com/Vinosaamaa/", x.repository, "/pull/" + PrintInt(x.pr));
    Associative("https://github.com/Vinosaamaa/" + x.repository, "/pull/", PrintInt(x.pr));
  }

  lemma AllSources(items: seq<Value>)
    ensures (forall i | 0 <= i < |items| :: SourceValid(items[i]))
       <==> forall i | 0 <= i < |items| :: T.Source(items[i])
  {
    forall i | 0 <= i < |items|
      ensures SourceValid(items[i]) <==> T.Source(items[i])
    {
      SourceExactly(items[i]);
    }
  }

  lemma CitedExactly(items: seq<Value>, x: Expected)
    requires forall i | 0 <= i < |items| :: SourceValid(items[i]) && T.Source(items[i])
    ensures (exists i | 0 <= i < |items| :: Cites(items[i], ExpectedUrl(x))) <==>
              exists i | 0 <= i < |items| :: T.Source(items[i]) && T.Cited(items[i], x)
  {
    UrlExactly(x);
    forall i | 0 <= i < |items|
      ensures Cites(items[i], ExpectedUrl(x)) <==> T.Cited(items[i], x)
    {
    }
  }

  lemma ListExactly(items: seq<Value>, x: Expected)
    ensures (forall i | 0 <= i < |items| :: SourceValid(items[i]))
            && (exists i | 0 <= i < |items| :: SourceValid(items[i]) && Cites(items[i], ExpectedUrl(x)))
       <==> (forall i | 0 <= i < |items| :: T.Source(items[i]))
            && exists i | 0 <= i < |items| :: T.Source(items[i]) && T.Cited(items[i], x)
  {
    AllSources(items);
    if forall i | 0 <= i < |items| :: T.Source(items[i]) {
      CitedExactly(items, x);
    }
  }

  lemma SourcesAre(v: map<string, Value>, x: Expected, items: seq<Value>)
    requires HasKeys(v) && v[SOURCES_KEY] == Arr(items)
    ensures SourcesValid(v, x) <==>
              && 1 <= |items| <= 32 && (forall i | 0 <= i < |items| :: SourceValid(items[i]))
              && exists i | 0 <= i < |items| :: SourceValid(items[i]) && Cites(items[i], ExpectedUrl(x))
  {
  }

  lemma SourcesExactly(v: map<string, Value>, x: Expected)
    requires T.Fields(v)
    ensures HasKeys(v)
    ensures SourcesValid(v, x) <==> T.Sources(v["sources"], x)
  {
    KeysExactly(v);
    if v["sources"].Arr? {
      SourcesAre(v, x, v["sources"].items);
      ListExactly(v["sources"].items, x);
    }
  }

  lemma StatesDiffer()
    ensures "verified" != "not-recorded"
  {
    assert |"verified"| == 8 && |"not-recorded"| == 12;
  }

  lemma EvidenceExactly(v: map<string, Value>)
    requires T.Fields(v)
    ensures HasKeys(v)
    ensures VerificationValid(v) <==>
              T.Evidence(v) && v["visibility"] == Str("public-safe") && v["publicationEligibility"] == Str("eligible")
  {
    KeysExactly(v);
    StatesDiffer();
    var e := v["verification"];
    if e.Obj? && Names(e.members) == {"state", "evidenceRefs"} {
      TextsExactly(Lookup(e.members, "evidenceRefs"), 32, 512);
    }
  }

  lemma FrontExactly(v: map<string, Value>, x: Expected)
    ensures FrontValid(v, x) <==> T.Front(v, x)
  {
    KeysExactly(v);
    if T.Fields(v) {
      AskedExactly(v, x);
      FactsExactly(v, x);
      SourcesExactly(v, x);
      EvidenceExactly(v);
    }
  }

  // ------------------------------------------------------------- the scaffold

  lemma LineExactly(s: string, longest: nat)
    ensures ProperLine(s, longest) <==> T.OneLineOf(s, longest)
  {
    StripFixpoint(s);
    assert forall i | 0 <= i < |s| :: s[i] in s;
  }

  lemma {:induction false} HashesExactly(s: string)
    ensures Hashes(s) <= |s| && (forall i | 0 <= i < Hashes(s) :: s[i] == '#')
    ensures Hashes(s) < |s| ==> s[Hashes(s)] != '#'
  {
    if s == "" || s[0] != '#' {
    } else {
      HashesExactly(s[1..]);
    }
  }

  lemma HeadingExactly(s: string)
    ensures Heading(s) <==> T.HeadingLine(s)
  {
    HashesExactly(s);
    assert IsSpace('#') == false;
  }

  lemma PermutedRefs(a: seq<string>, b: seq<string>)
    requires multiset(a) == multiset(b) && forall i, j | 0 <= i < j < |a| :: a[i] != a[j]
    ensures |a| == |b| && (forall x :: x in a <==> x in b) && NoDuplicates(b)
  {
    PermutedMembers(a, b);
    forall i, j | 0 <= i < j < |b|
      ensures b[i] != b[j]
    {
      if b[i] == b[j] {
        TwoPlaces(b, i, j);
        var p, q := TwoOccurrences(a, b[i]);
        assert false;
      }
    }
  }

  lemma RefsExactly(classification: string, refs: seq<string>)
    ensures RefsAccepted(classification, Sorted(refs)) <==>
              && |refs| <= 16 && (forall i, j | 0 <= i < j < |refs| :: refs[i] != refs[j])
              && (forall i | 0 <= i < |refs| :: |refs[i]| <= 180 && T.Reference(refs[i]))
              && (classification == "none" <==> refs == [])
  {
    var sorted := Sorted(refs);
    SortedKeeps(refs);
    assert |multiset(sorted)| == |sorted| && |multiset(refs)| == |refs|;
    forall x: string
      ensures x in sorted <==> x in refs
      ensures RecordRef(x) <==> T.Reference(x)
    {
      assert x in multiset(sorted) <==> x in multiset(refs);
      ReferenceExactly(x);
    }
    assert forall i | 0 <= i < |refs| :: refs[i] in refs;
    if NoDuplicates(sorted) {
      PermutedRefs(sorted, refs);
    }
    if forall i, j | 0 <= i < j < |refs| :: refs[i] != refs[j] {
      PermutedRefs(refs, sorted);
    }
  }

  lemma ScaffoldIfAccepted(q: Request)
    ensures Scaffold(q).Some? <==> Accepted(q)
  {
  }

  lemma AcceptedExactly(q: Request)
    ensures Accepted(q) <==> T.RequestOk(q)
  {
    LineExactly(q.title, 160);
    LineExactly(q.summary, 280);
    HeadingExactly(q.summary);
    ClassificationExactly(q.classification);
    RefsExactly(q.classification, q.refs);
  }

  /** A receipt is written for exactly the requests on these terms. */
  lemma ScaffoldExactly(q: Request)
    ensures Scaffold(q).Some? <==> T.RequestOk(q)
  {
    ScaffoldIfAccepted(q);
    AcceptedExactly(q);
  }
}
