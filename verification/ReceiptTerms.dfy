/**
 What a forward receipt has to say, written out without the validator's own definitions:
 its fields and their values, its references, sources and evidence, and its body.
 `ReceiptExact` proves that the validator accepts exactly the receipts that say this.
 */
module ReceiptTerms {
  import opened Prelude
  import opened Json
  import R = Receipt

  // ------------------------------------------------------------------- fields

  predicate Fields(v: map<string, Value>) {
    v.Keys == {"schemaVersion", "repository", "pr", "title", "classification", "richRecordRefs", "reconstructed",
               "confidence", "unknowns", "headCommit", "mergeCommit", "mergedAt", "sources", "verification",
               "visibility", "publicationEligibility"}
  }

  /** At most so many different texts, none of them empty or too long. */
  predicate Texts(v: Value, most: nat, longest: nat) {
    && v.Arr? && |v.items| <= most
    && (forall i | 0 <= i < |v.items| :: v.items[i].Str? && 0 < |v.items[i].text| <= longest)
    && (forall i, j | 0 <= i < j < |v.items| :: v.items[i] != v.items[j])
  }

  predicate NameChar(c: char) {
    'a' <= c <= 'z' || 'A' <= c <= 'Z' || '0' <= c <= '9' || c == '_' || c == '.' || c == '-'
  }

  predicate Classification(s: string) {
    s == "none" || s == "change-note" || s == "adr" || s == "architecture-review" || s == "feature-retrospective"
    || s == "postmortem" || s == "capability-dossier"
  }

  predicate Confidence(s: string) { s == "verified" || s == "high" || s == "medium" || s == "low" || s == "unknown" }

  /** Repository, number, title and classification as asked. */
  predicate Asked(v: map<string, Value>, x: R.Expected)
    requires Fields(v)
  {
    && v["schemaVersion"] == Int(1)
    && v["repository"] == Str(x.repository)
    && |x.repository| > 0 && (forall i | 0 <= i < |x.repository| :: NameChar(x.repository[i]))
    && v["pr"] == Int(x.pr)
    && v["title"] == Str(x.title) && 1 <= |x.title| <= 160
    && v["classification"] == Str(x.classification) && Classification(x.classification)
    && v["reconstructed"] == Bool(false)
    && v["confidence"].Str? && Confidence(v["confidence"].text)
    && Texts(v["unknowns"], 32, 512)
  }

  // ---------------------------------------------------- references and facts

  predicate SlugChar(c: char) { 'a' <= c <= 'z' || '0' <= c <= '9' }

  /** Lower-case letters and digits, with single dashes between them. */
  predicate SlugOf(s: string) {
    && |s| > 0 && SlugChar(s[0]) && SlugChar(s[|s| - 1])
    && forall k | 0 < k < |s| :: SlugChar(s[k]) || (s[k] == '-' && SlugChar(s[k - 1]))
  }

  /** `name@revision`, the revision a number without leading zeros. */
  predicate Reference(s: string) {
    exists at | 0 < at < |s| - 1 :: s[at] == '@' && SlugOf(s[..at]) && RevisionOf(s, at)
  }

  predicate RevisionOf(s: string, at: nat)
    requires at < |s| - 1
  {
    '1' <= s[at + 1] <= '9' && forall k | at < k < |s| :: '0' <= s[k] <= '9'
  }

  /** References for a material receipt only, each to a record of the receipt's own classification. */
  predicate References(v: Value, x: R.Expected) {
    && Texts(v, 16, 180)
    && (x.classification == "none" <==> |v.items| == 0)
    && forall i | 0 <= i < |v.items| ::
         Reference(v.items[i].text) && v.items[i].text in x.index && x.index[v.items[i].text] == x.classification
  }

  predicate CommitOrNull(v: Value) {
    v == Null || (v.Str? && |v.text| == 40
                  && forall i | 0 <= i < 40 :: '0' <= v.text[i] <= '9' || 'a' <= v.text[i] <= 'f')
  }

  /** `2026-01-31T23:59:59Z`, or null. */
  predicate TimeOrNull(v: Value) { v == Null || (v.Str? && Time(v.text)) }

  predicate Time(s: string) {
    && |s| == 20 && s[4] == '-' && s[7] == '-' && s[10] == 'T' && s[13] == ':' && s[16] == ':' && s[19] == 'Z'
    && forall k | 0 <= k < 20 ::
         k != 4 && k != 7 && k != 10 && k != 13 && k != 16 && k != 19 ==> '0' <= s[k] <= '9'
  }

  // ------------------------------------------------------------- the scaffold

  predicate ControlChar(c: char) {
    '\0' <= c <= '\U{1F}' || '\U{7F}' <= c <= '\U{9F}' || c == '\U{2028}' || c == '\U{2029}'
  }

  /** One line of text without control characters or white space at its ends. */
  predicate OneLineOf(s: string, longest: nat) {
    && 1 <= |s| <= longest && !IsSpace(s[0]) && !IsSpace(s[|s| - 1])
    && forall i | 0 <= i < |s| :: !ControlChar(s[i])
  }

  /** One to six hash signs and white space. */
  predicate HeadingLine(s: string) {
    exists n | 1 <= n <= 6 && n < |s| :: IsSpace(s[n]) && forall i | 0 <= i < n :: s[i] == '#'
  }

  /** What a request has to be for its receipt to be written. */
  predicate RequestOk(q: R.Request) {
    && q.pr >= 1 && OneLineOf(q.title, 160) && OneLineOf(q.summary, 280) && !HeadingLine(q.summary)
    && Classification(q.classification)
    && |q.refs| <= 16 && (forall i, j | 0 <= i < j < |q.refs| :: q.refs[i] != q.refs[j])
    && (forall i | 0 <= i < |q.refs| :: |q.refs[i]| <= 180 && Reference(q.refs[i]))
    && (q.classification == "none" <==> q.refs == [])
  }

  // ------------------------------------------------------ sources and evidence

  predicate SourceKind(s: string) {
    s == "issue" || s == "pull-request" || s == "commit" || s == "release" || s == "run" || s == "documentation"
  }

  predicate Source(s: Value) {
    && s.Obj? && Names(s.members) == {"label", "url", "kind"}
    && var caption, url, kind := Lookup(s.members, "label"), Lookup(s.members, "url"), Lookup(s.members, "kind");
       && caption.Str? && 1 <= |caption.text| <= 160
       && url.Str? && "https://" <= url.text && |url.text| <= 2048
       && kind.Str? && SourceKind(kind.text)
  }

  /** The URL of the pull request: the one given, or the one its number makes. */
  function Url(x: R.Expected): string {
    if x.prUrl.Some? && |x.prUrl.value| > 0 then x.prUrl.value
    else "https://github.com/Vinosaamaa/" + x.repository + "/pull/" + PrintInt(x.pr)
  }

  predicate Cited(s: Value, x: R.Expected)
    requires Source(s)
  {
    Lookup(s.members, "kind") == Str("pull-request") && Lookup(s.members, "url") == Str(Url(x))
  }

  predicate Sources(v: Value, x: R.Expected) {
    && v.Arr? && 1 <= |v.items| <= 32
    && (forall i | 0 <= i < |v.items| :: Source(v.items[i]))
    && exists i | 0 <= i < |v.items| :: Source(v.items[i]) && Cited(v.items[i], x)
  }

  /** Facts about commits and the merge come only with verified evidence. */
  predicate Evidence(v: map<string, Value>)
    requires Fields(v)
  {
    var e := v["verification"];
    && e.Obj? && Names(e.members) == {"state", "evidenceRefs"}
    && Texts(Lookup(e.members, "evidenceRefs"), 32, 512)
    && (Lookup(e.members, "state") == Str("verified")
        || (Lookup(e.members, "state") == Str("not-recorded")
            && v["headCommit"] == Null && v["mergeCommit"] == Null && v["mergedAt"] == Null))
    && ((v["headCommit"] == Null && v["mergeCommit"] == Null && v["mergedAt"] == Null)
        || Lookup(e.members, "evidenceRefs").items != [])
  }

  predicate Front(v: map<string, Value>, x: R.Expected) {
    && Fields(v) && Asked(v, x) && References(v["richRecordRefs"], x)
    && CommitOrNull(v["headCommit"]) && CommitOrNull(v["mergeCommit"]) && TimeOrNull(v["mergedAt"])
    && Sources(v["sources"], x) && Evidence(v)
    && v["visibility"] == Str("public-safe") && v["publicationEligibility"] == Str("eligible")
  }

  // --------------------------------------------------------------------- body

  predicate Blank(s: string) { forall i | 0 <= i < |s| :: IsSpace(s[i]) }

  /** Two line feeds with nothing but white space between them. */
  predicate BlankLine(s: string, i: nat, j: nat) {
    i < j < |s| && s[i] == '\n' && s[j] == '\n' && Blank(s[i..j])
  }

  predicate OneParagraph(s: string) { forall i, j | 0 <= i < j < |s| :: !BlankLine(s, i, j) }

  /** The length of the text's words with one space between neighbours; `inside` says that a word goes on. */
  function SqueezedLength(s: string, inside: bool): nat {
    if s == "" then 0
    else if IsSpace(s[0]) then SqueezedLength(s[1..], false)
    else (if inside then 1 else 2) + SqueezedLength(s[1..], true)
  }

  /** A heading with the title, a blank line, and one paragraph of at most 280 characters. */
  ghost predicate Body(title: string, body: string) {
    exists i, j | 0 <= i < j <= |body| :: Parts(title, body, i, j)
  }

  predicate Parts(title: string, body: string, i: nat, j: nat)
    requires i < j <= |body|
  {
    && OneParagraph(body[..i]) && Strip(body[..i]) == "# " + title
    && Blank(body[i..j]) && !OneParagraph(body[i..j])
    && OneParagraph(body[j..]) && 2 <= SqueezedLength(body[j..], false) <= 281
  }
}
