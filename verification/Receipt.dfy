/**
 The printer and the validator of forward Engineering receipts:
 scripts/new-engineering-receipt.py renders front matter with JSON values, and
 scripts/validate-engineering-impact.py parses and validates it.
 */
module Receipt {
  import opened Prelude
  import opened Json
  import opened FrontMatter
  import opened Sorting

  const REPOSITORY := "league-of-orchestrator"
  const HOME := "https://github.com/Vinosaamaa/"

  /** The required fields of the receipt schema. */
  const SCHEMA_VERSION_KEY := "schemaVersion"
  const REPOSITORY_KEY := "repository"
  const PR_KEY := "pr"
  const TITLE_KEY := "title"
  const CLASSIFICATION_KEY := "classification"
  const REFS_KEY := "richRecordRefs"
  const RECONSTRUCTED_KEY := "reconstructed"
  const CONFIDENCE_KEY := "confidence"
  const UNKNOWNS_KEY := "unknowns"
  const HEAD_COMMIT_KEY := "headCommit"
  const MERGE_COMMIT_KEY := "mergeCommit"
  const MERGED_AT_KEY := "mergedAt"
  const SOURCES_KEY := "sources"
  const VERIFICATION_KEY := "verification"
  const VISIBILITY_KEY := "visibility"
  const ELIGIBILITY_KEY := "publicationEligibility"

  const RECEIPT_KEYS: seq<string> :=
    [SCHEMA_VERSION_KEY, REPOSITORY_KEY, PR_KEY, TITLE_KEY, CLASSIFICATION_KEY, REFS_KEY, RECONSTRUCTED_KEY,
     CONFIDENCE_KEY, UNKNOWNS_KEY, HEAD_COMMIT_KEY, MERGE_COMMIT_KEY, MERGED_AT_KEY, SOURCES_KEY, VERIFICATION_KEY,
     VISIBILITY_KEY, ELIGIBILITY_KEY]

  const CLASSIFICATIONS: seq<string> :=
    ["none", "change-note", "adr", "architecture-review", "feature-retrospective", "postmortem", "capability-dossier"]

  const PULL_REQUEST := "pull-request"

  // ------------------------------------------------------------ the scaffold

  /** What the command line asks for. */
  datatype Request = Request(pr: int, title: string, summary: string, classification: string, refs: seq<string>)

  predicate Control(c: char) { c < ' ' || '\U{7F}' <= c <= '\U{9F}' || c == '\U{2028}' || c == '\U{2029}' }

  /** What `one_line` lets through. */
  predicate ProperLine(s: string, maximum: nat) {
    s != "" && s == Strip(s) && (forall c <- s :: !Control(c)) && |s| <= maximum
  }

  /** The number of leading `#` characters. */
  function Hashes(s: string): nat { if s != "" && s[0] == '#' then 1 + Hashes(s[1..]) else 0 }

  /** `^#{1,6}\s` matches. */
  predicate Heading(s: string) {
    1 <= Hashes(s) <= 6 && Hashes(s) < |s| && IsSpace(s[Hashes(s)])
  }

  predicate LowerOrDigit(c: char) { 'a' <= c <= 'z' || IsDigit(c) }

  /** `[a-z0-9]+(?:-[a-z0-9]+)*` */
  predicate Slug(s: string) {
    && s != "" && s[0] != '-' && s[|s| - 1] != '-'
    && (forall k | 0 <= k < |s| :: LowerOrDigit(s[k]) || s[k] == '-')
    && (forall k | 0 < k < |s| :: s[k - 1] == '-' ==> s[k] != '-')
  }

  /** `[1-9]\d*` */
  predicate Revision(s: string) {
    s != "" && s[0] != '0' && forall k | 0 <= k < |s| :: IsDigit(s[k])
  }

  /** `^[a-z0-9]+(?:-[a-z0-9]+)*@[1-9]\d*$` */
  predicate RecordRef(s: string) {
    exists at | 0 <= at < |s| :: s[at] == '@' && Slug(s[..at]) && Revision(s[at + 1..])
  }

  /** The checks of `run` on the reference list and the classification. */
  predicate RefsAccepted(classification: string, refs: seq<string>) {
    && |refs| <= 16 && NoDuplicates(refs)
    && (forall r <- refs :: |r| <= 180 && RecordRef(r))
    && (classification == "none" <==> refs == [])
  }

  predicate Accepted(q: Request) {
    && q.pr >= 1
    && ProperLine(q.title, 160) && ProperLine(q.summary, 280) && !Heading(q.summary)
    && q.classification in CLASSIFICATIONS
    && RefsAccepted(q.classification, Sorted(q.refs))
  }

  function Strings(s: seq<string>): seq<Value> {
    if s == [] then [] else [Str(s[0])] + Strings(s[1..])
  }

  function PrUrl(repository: string, pr: int): string
  {
    HOME + (repository + ("/pull/" + PrintInt(pr)))
  }

  function LabelOf(pr: int): string { "Pull request #" + PrintInt(pr) }

  const LABEL_KEY := "label"
  const URL_KEY := "url"
  const KIND_KEY := "kind"
  const STATE_KEY := "state"
  const EVIDENCE_KEY := "evidenceRefs"

  function SourcesOf(pr: int): Value {
    Arr([Obj([Member(LABEL_KEY, Str(LabelOf(pr))), Member(URL_KEY, Str(PrUrl(REPOSITORY, pr))),
              Member(KIND_KEY, Str(PULL_REQUEST))])])
  }

  function VerificationOf(pr: int): Value {
    Obj([Member(STATE_KEY, Str("verified")), Member(EVIDENCE_KEY, Arr([Str("pull-request:" + PrintInt(pr))]))])
  }

  /** A field printed as JSON, and one whose value is written as it is. */
  function JsonField(key: string, v: Value): Field { Field(key, Print(v), v) }
  function TextField(key: string, text: string): Field { Field(key, text, Str(text)) }

  /** The lines of the front matter that `render` writes, with the values they stand for. */
  function FieldsOf(pr: int, title: string, classification: string, refs: seq<string>): seq<Field> {
    LeadingFields(pr, title, classification, refs) + TrailingFields(pr)
  }

  function LeadingFields(pr: int, title: string, classification: string, refs: seq<string>): seq<Field> {
    [ JsonField(SCHEMA_VERSION_KEY, Int(1)),
      TextField(REPOSITORY_KEY, REPOSITORY),
      JsonField(PR_KEY, Int(pr)),
      JsonField(TITLE_KEY, Str(title)),
      TextField(CLASSIFICATION_KEY, classification),
      JsonField(REFS_KEY, Arr(Strings(refs))),
      JsonField(RECONSTRUCTED_KEY, Bool(false)),
      TextField(CONFIDENCE_KEY, "verified") ]
  }

  function TrailingFields(pr: int): seq<Field> {
    [ JsonField(UNKNOWNS_KEY, Arr([])),
      JsonField(HEAD_COMMIT_KEY, Null),
      JsonField(MERGE_COMMIT_KEY, Null),
      JsonField(MERGED_AT_KEY, Null),
      JsonField(SOURCES_KEY, SourcesOf(pr)),
      JsonField(VERIFICATION_KEY, VerificationOf(pr)),
      TextField(VISIBILITY_KEY, "public-safe"),
      TextField(ELIGIBILITY_KEY, "eligible") ]
  }

  function BodyOf(title: string, summary: string): string { "# " + (title + ("\n\n" + summary)) }

  /** `render` */
  function Render(pr: int, title: string, summary: string, classification: string, refs: seq<string>): string {
    Assemble(FieldsOf(pr, title, classification, refs), BodyOf(title, summary) + "\n")
  }

  /** What `run` writes into `pr-<pr>.md`, if it accepts the request. */
  function Scaffold(q: Request): Option<string> {
    if Accepted(q) then Some(Render(q.pr, q.title, q.summary, q.classification, Sorted(q.refs))) else None
  }

  // ----------------------------------------------------------- the validator

  /** What the pull request says, the records that exist at its head, and its URL if known. */
  datatype Expected = Expected(repository: string, pr: int, title: string, classification: string,
                               index: map<string, string>, prUrl: Option<string>)

  /** `string_list` */
  predicate StringList(v: Value, maxItems: nat, maxLength: nat) {
    && v.Arr? && |v.items| <= maxItems
    && (forall i | 0 <= i < |v.items| :: v.items[i].Str? && 1 <= |v.items[i].text| <= maxLength)
    && (forall i, j | 0 <= i < j < |v.items| :: v.items[i] != v.items[j])
  }

  /** `^[A-Za-z0-9_.-]+$` */
  predicate RepositoryName(s: string) {
    s != "" && forall c <- s :: LowerOrDigit(c) || 'A' <= c <= 'Z' || c == '_' || c == '.' || c == '-'
  }

  const CONFIDENCE_VALUES: seq<string> := ["verified", "high", "medium", "low", "unknown"]

  /** `validate_receipt_fields` */
  predicate FieldsValid(v: map<string, Value>, x: Expected) {
    && v.Keys == (set k <- RECEIPT_KEYS)
    && HasKeys(v)
    && v[SCHEMA_VERSION_KEY] == Int(1)
    && v[REPOSITORY_KEY] == Str(x.repository) && RepositoryName(x.repository)
    && v[PR_KEY] == Int(x.pr)
    && v[TITLE_KEY] == Str(x.title) && 1 <= |x.title| <= 160
    && v[CLASSIFICATION_KEY] == Str(x.classification) && x.classification in CLASSIFICATIONS
    && v[RECONSTRUCTED_KEY] == Bool(false)
    && v[CONFIDENCE_KEY].Str? && v[CONFIDENCE_KEY].text in CONFIDENCE_VALUES
    && StringList(v[UNKNOWNS_KEY], 32, 512)
  }

  predicate HasKeys(v: map<string, Value>) {
    && SCHEMA_VERSION_KEY in v && REPOSITORY_KEY in v && PR_KEY in v && TITLE_KEY in v && CLASSIFICATION_KEY in v
    && REFS_KEY in v && RECONSTRUCTED_KEY in v && CONFIDENCE_KEY in v && UNKNOWNS_KEY in v && HEAD_COMMIT_KEY in v
    && MERGE_COMMIT_KEY in v && MERGED_AT_KEY in v && SOURCES_KEY in v && VERIFICATION_KEY in v
    && VISIBILITY_KEY in v && ELIGIBILITY_KEY in v
  }

  /** `^[0-9a-f]{40}$` */
  predicate Commit(s: string) {
    |s| == 40 && forall c <- s :: IsDigit(c) || 'a' <= c <= 'f'
  }

  const TIME_SHAPE := "dddd-dd-ddTdd:dd:ddZ"

  /** `^\d{4}-\d{2}-\d{2}T\d{2}:\d{2}:\d{2}Z$` */
  predicate Timestamp(s: string) {
    |s| == |TIME_SHAPE| && forall k | 0 <= k < |s| :: if TIME_SHAPE[k] == 'd' then IsDigit(s[k])
        else s[k] == TIME_SHAPE[k]
  }

  /** `validate_record_refs`, and that the references fit the classification and resolve. */
  predicate RefListValid(v: Value, x: Expected) {
    && StringList(v, 16, 180)
    && (forall i | 0 <= i < |v.items| :: RecordRef(v.items[i].text))
    && (x.classification == "none" <==> v.items == [])
    && (forall i | 0 <= i < |v.items| :: Resolves(x, v.items[i].text))
  }

  /** `validate_receipt_record_refs` */
  predicate RefsValid(v: map<string, Value>, x: Expected)
    requires HasKeys(v)
  {
    && RefListValid(v[REFS_KEY], x)
    && (v[HEAD_COMMIT_KEY] == Null || (v[HEAD_COMMIT_KEY].Str? && Commit(v[HEAD_COMMIT_KEY].text)))
    && (v[MERGE_COMMIT_KEY] == Null || (v[MERGE_COMMIT_KEY].Str? && Commit(v[MERGE_COMMIT_KEY].text)))
    && (v[MERGED_AT_KEY] == Null || (v[MERGED_AT_KEY].Str? && Timestamp(v[MERGED_AT_KEY].text)))
  }

  /** A record reference exists at the head and has the matching type. */
  predicate Resolves(x: Expected, ref: string) { ref in x.index && x.index[ref] == x.classification }

  const SOURCE_KINDS: seq<string> := ["issue", PULL_REQUEST, "commit", "release", "run", "documentation"]

  predicate SourceValid(source: Value) {
    && source.Obj? && Names(source.members) == {LABEL_KEY, URL_KEY, KIND_KEY}
    && var caption, url, kind := Lookup(source.members, LABEL_KEY), Lookup(source.members, URL_KEY),
        Lookup(source.members, KIND_KEY);
       && caption.Str? && 1 <= |caption.text| <= 160
       && url.Str? && OccursAt(url.text, 0, "https://") && |url.text| <= 2048
       && kind.Str? && kind.text in SOURCE_KINDS
  }

  function ExpectedUrl(x: Expected): string {
    if x.prUrl.Some? && x.prUrl.value != "" then x.prUrl.value else PrUrl(x.repository, x.pr)
  }

  predicate Cites(source: Value, url: string)
    requires SourceValid(source)
  {
    Lookup(source.members, KIND_KEY) == Str(PULL_REQUEST) && Lookup(source.members, URL_KEY) == Str(url)
  }

  /** `validate_receipt_sources` */
  predicate SourcesValid(v: map<string, Value>, x: Expected)
    requires HasKeys(v)
  {
    && v[SOURCES_KEY].Arr? && 1 <= |v[SOURCES_KEY].items| <= 32
    && (forall i | 0 <= i < |v[SOURCES_KEY].items| :: SourceValid(v[SOURCES_KEY].items[i]))
    && (exists i | 0 <= i < |v[SOURCES_KEY].items| :: Cites(v[SOURCES_KEY].items[i], ExpectedUrl(x)))
  }

  /** `validate_receipt_verification` */
  predicate VerificationValid(v: map<string, Value>)
    requires HasKeys(v)
  {
    && v[VERIFICATION_KEY].Obj? && Names(v[VERIFICATION_KEY].members) == {STATE_KEY, EVIDENCE_KEY}
    && var state, evidence := Lookup(v[VERIFICATION_KEY].members, STATE_KEY),
        Lookup(v[VERIFICATION_KEY].members, EVIDENCE_KEY);
       && (state == Str("verified") || state == Str("not-recorded"))
       && StringList(evidence, 32, 512)
       && (v[HEAD_COMMIT_KEY] != Null || v[MERGE_COMMIT_KEY] != Null || v[MERGED_AT_KEY] != Null ==>
             state == Str("verified") && evidence.items != [])
       && v[VISIBILITY_KEY] == Str("public-safe") && v[ELIGIBILITY_KEY] == Str("eligible")
  }

  /** In the blanks at the front of `t`, the text after their last line feed. */
  function AfterLastNewline(t: string): (r: Option<string>)
    ensures r.Some? ==> |r.value| < |t|
  {
    if t == "" || !IsSpace(t[0]) then None
    else if AfterLastNewline(t[1..]).Some? then AfterLastNewline(t[1..])
    else if t[0] == '\n' then Some(t[1..])
    else None
  }

  /** The text after `\r?\n\s*\r?\n` at the front of `s`. */
  function AfterGap(s: string): (r: Option<string>)
    ensures r.Some? ==> |r.value| < |s|
  {
    if AfterNewline(s).None? then None else AfterLastNewline(AfterNewline(s).value)
  }

  /** The text before the first gap, and that behind it. */
  function SplitGap(s: string): (r: Option<(string, string)>)
    ensures r.Some? ==> |r.value.1| < |s|
  {
    if s == "" then None
    else if AfterGap(s).Some? then Some(("", AfterGap(s).value))
    else
      var r := SplitGap(s[1..]);
      if r.None? then None else Some(([s[0]] + r.value.0, r.value.1))
  }

  /** The stripped pieces between the gaps that are not empty. */
  function Paragraphs(s: string): seq<string>
    decreases |s|
  {
    var parts := SplitGap(s);
    if parts.None? then Kept(s) else Kept(parts.value.0) + Paragraphs(parts.value.1)
  }

  function Kept(piece: string): seq<string> { if Strip(piece) == "" then [] else [Strip(piece)] }

  function FirstWord(s: string): (w: string)
    ensures w <= s && (|w| < |s| ==> IsSpace(s[|w|])) && (s != "" && !IsSpace(s[0]) ==> w != "")
  {
    if s == "" || IsSpace(s[0]) then "" else [s[0]] + FirstWord(s[1..])
  }

  /** `s.split()`, joined by single spaces. */
  function Collapse(s: string): string
    decreases |s|
  {
    StripLeftShrinks(s);
    var t := StripLeft(s);
    if t == "" then ""
    else
      var w := FirstWord(t);
      var rest := Collapse(t[|w|..]);
      if rest == "" then w else w + (" " + rest)
  }

  /** `validate_receipt_body` */
  predicate BodyValid(title: string, body: string) {
    && |Paragraphs(body)| == 2
    && Paragraphs(body)[0] == "# " + title
    && 1 <= |Collapse(Paragraphs(body)[1])| <= 280
  }

  datatype Invalid = Unparsed(why: Refusal) | Fields | References | Sources | Verification | Body

  /** `validate_receipt` */
  function Validate(markdown: string, x: Expected): Result<map<string, Value>, Invalid> {
    var d := Document(markdown);
    if d.Err? then Err(Unparsed(d.error))
    else if !FieldsValid(d.value.0, x) then Err(Fields)
    else if !RefsValid(d.value.0, x) then Err(References)
    else if !SourcesValid(d.value.0, x) then Err(Sources)
    else if !VerificationValid(d.value.0) then Err(Verification)
    else if !BodyValid(x.title, d.value.1) then Err(Body)
    else Ok(d.value.0)
  }
}
