/**
 What a manifest has to say and to prove for its cleanup to be planned, written out
 without the planner's own definitions: the owner, the proofs that each class of task
 needs, the resources, the retained repository, the issue-coupled close and the final
 actions. `CleanupAccepted` proves that the planner accepts exactly these manifests.
 */
module CleanupTerms {
  import opened Prelude
  import opened CleanupPlan

  predicate IsName(v: Data) { v.Text? && |v.text| > 0 }

  predicate NonEmptyDict(v: Data) { v.Dict? && |v.fields| > 0 }

  /** The gate of this name in this area of the proof is `True`. */
  predicate Proves(proof: Data, area: string, gate: string) {
    && proof.Dict? && area in proof.fields
    && proof.fields[area].Dict? && gate in proof.fields[area].fields
    && proof.fields[area].fields[gate] == Flag(true)
  }

  // ------------------------------------------------------------------ owner

  /** Champions, hidden workers and tasks that are not persistent. */
  predicate OrdinaryOwner(owner: Data) {
    && (Get(owner, "role") == Text("champion") || Get(owner, "role") == Text("hidden-worker")
        || Get(owner, "role") == Text("task"))
    && Get(owner, "persistent") == Flag(false)
  }

  /** A Shotcaller that is the predecessor of a switched rollover, at the version asked for. */
  predicate RolledOverOwner(owner: Data, requested: Data, rollover: Data) {
    && Get(owner, "role") == Text("shotcaller")
    && requested.Dict? && requested.fields.Keys == {"operation_id", "expected_version"}
    && rollover.Dict? && Get(rollover, "state") == Text("switched")
    && Get(rollover, "predecessor_agent_id") == Get(owner, "id")
    && Get(rollover, "version") == Get(requested, "expected_version")
  }

  predicate OwnerTerms(manifest: Data, canonical: Canonical) {
    var owner := Get(manifest, "owner");
    && IsName(Get(manifest, "task_id")) && owner.Dict? && IsName(Get(owner, "id"))
    && NonEmptyDict(Get(manifest, "identity"))
    && (OrdinaryOwner(owner) || RolledOverOwner(owner, Get(manifest, "rollover"), canonical.rollover))
    && Get(manifest, "pending_decisions_clear") == Flag(true)
    && !canonical.unresolved
  }

  // ----------------------------------------------------------------- proofs

  /** Whether a proof is needed by a task of this class and disposition, with or without a retained worktree. */
  predicate Needed(class_: string, disposition: string, retains: bool, p: seq<string>) {
    || p == ["identity", "exact"]
    || p == ["endpoint", "terminal_or_idle"]
    || (class_ != "analysis" && p == ["git", "exact_registration"])
    || (class_ != "analysis" && !retains && (p == ["git", "clean"] || p == ["git", "no_unpublished"]))
    || ((class_ == "pr_ci" || class_ == "deployed_service") && disposition == "completed" && !retains
        && (p == ["publication", "exact_head"] || p == ["publication", "ci_green"]
            || p == ["publication", "integrated"]))
    || (class_ == "deployed_service" && disposition == "completed"
        && (p == ["deployment", "exact_revision"] || p == ["deployment", "smoke_passed"]))
    || (retains && (p == ["acceptance", "required_gates_complete"] || p == ["release", "required_gates_complete"]))
    || ((disposition == "rejected" || disposition == "cancelled") && p == ["decision", "explicit"])
    || (disposition == "failed" && p == ["failure", "preserved"])
  }

  ghost predicate ProofTerms(class_: string, disposition: string, retains: bool, proof: Data) {
    && proof.Dict?
    && forall area: string, gate: string ::
         Needed(class_, disposition, retains, [area, gate]) ==> Proves(proof, area, gate)
  }

  predicate ClassTerms(class_: string, disposition: string, retains: bool) {
    && (class_ == "analysis" || class_ == "local_git" || class_ == "pr_ci" || class_ == "deployed_service")
    && (disposition == "completed" || disposition == "rejected" || disposition == "cancelled"
        || disposition == "failed")
    && (retains ==> disposition == "completed" && (class_ == "pr_ci" || class_ == "deployed_service"))
  }

  function ClassOf(manifest: Data): string {
    if Get(manifest, "task_class").Text? then Get(manifest, "task_class").text else ""
  }

  function DispositionOf(manifest: Data): string {
    if Get(manifest, "disposition").Text? then Get(manifest, "disposition").text else ""
  }

  /** The manifest lists a registered worktree. */
  predicate KeepsWorktree(manifest: Data) {
    && Get(manifest, "resources").List?
    && exists v <- Get(manifest, "resources").items :: Get(v, "resource_type") == Text("registered_worktree")
  }

  ghost predicate PolicyTerms(manifest: Data) {
    && ClassTerms(ClassOf(manifest), DispositionOf(manifest), KeepsWorktree(manifest))
    && ProofTerms(ClassOf(manifest), DispositionOf(manifest), KeepsWorktree(manifest), Get(manifest, "proof"))
    && (Get(manifest, "legacy_identity") == Nothing || Get(manifest, "legacy_identity") == Get(manifest, "identity"))
  }

  // -------------------------------------------------------------- resources

  /** A text that is not empty and has no surrounding white space. */
  predicate ExactText(v: Data) { v.Text? && v.text != "" && Trimmed(v.text) }

  predicate ExactTexts(v: Data) {
    && ExactText(Get(v, "resource_id")) && ExactText(Get(v, "task_id")) && ExactText(Get(v, "owner_id"))
    && ExactText(Get(v, "owner_role")) && ExactText(Get(v, "resource_type")) && ExactText(Get(v, "cleanup_action"))
    && ExactText(Get(v, "adapter_kind")) && ExactText(Get(v, "applicability_reason"))
  }

  predicate RegistrationTerms(v: Data) {
    var role, lifetime := Get(v, "owner_role"), Get(v, "lifetime");
    && ExactTexts(v)
    && (role == Text("champion") || role == Text("hidden-worker") || role == Text("task"))
    && (lifetime == Text("task_owned") || lifetime == Text("shared_lease") || lifetime == Text("persistent_retain"))
    && Get(v, "applicable").Flag? && NonEmptyDict(Get(v, "expected_identity"))
    && (lifetime == Text("shared_lease") ==>
          Get(v, "cleanup_action") == Text("release_lease") && Get(v, "adapter_kind") == Text("lease"))
    && (lifetime == Text("persistent_retain") ==>
          Get(v, "cleanup_action") == Text("retain") && Get(v, "adapter_kind") == Text("retain"))
  }

  /** The resource that an acceptable registration is. */
  function ResourceOf(v: Data): Resource
    requires RegistrationTerms(v)
  {
    Resource(Get(v, "resource_id").text, Get(v, "task_id").text, Get(v, "owner_id").text, Get(v, "owner_role").text,
             Get(v, "resource_type").text, Get(v, "lifetime").text, Get(v, "expected_identity").fields,
             Get(v, "cleanup_action").text, Get(v, "adapter_kind").text, Get(v, "applicable").flag,
             Get(v, "applicability_reason").text)
  }

  function ResourcesOf(vs: seq<Data>): (rs: seq<Resource>)
    requires forall v <- vs :: RegistrationTerms(v)
    ensures |rs| == |vs| && forall i | 0 <= i < |vs| :: rs[i] == ResourceOf(vs[i])
  {
    seq(|vs|, i requires 0 <= i < |vs| => ResourceOf(vs[i]))
  }

  /** The manifest's list of resources, which may be missing. */
  function Listed(manifest: Data): seq<Data> {
    if Get(manifest, "resources").List? then Get(manifest, "resources").items else []
  }

  predicate ListTerms(manifest: Data, key: string) {
    manifest.Dict? && key in manifest.fields ==> manifest.fields[key].List?
  }

  /** Declared and registered resources against each other, the adapters, the task and the owner. */
  predicate AgreementTerms(rs: seq<Resource>, registered: seq<Resource>, task: Data, owner: Data,
                           adapters: set<string>)
  {
    && (forall i, j | 0 <= i < j < |rs| :: rs[i].id != rs[j].id)
    && (forall r <- rs :: r.adapter in adapters) && (forall r <- registered :: r.adapter in adapters)
    && (forall r <- registered :: r in rs)
    && (forall r <- rs :: task == Text(r.task) && owner == Text(r.owner) && r.applicable)
  }

  predicate ResourceTerms(manifest: Data, canonical: Canonical, adapters: set<string>) {
    && ListTerms(manifest, "resources")
    && (forall v <- Listed(manifest) :: RegistrationTerms(v))
    && (forall v <- canonical.registered :: RegistrationTerms(v))
    && AgreementTerms(ResourcesOf(Listed(manifest)), ResourcesOf(canonical.registered), Get(manifest, "task_id"),
                      Get(Get(manifest, "owner"), "id"), adapters)
  }

  // -------------------------------------------------------------- retention

  predicate Repository(r: Resource) { r.kind == "standalone_repository" || r.kind == "registered_worktree" }

  predicate FilledTexts(m: map<string, Data>) { forall k <- m :: m[k].Text? && NonBlank(m[k].text) }

  predicate LowerHex64(s: string) { |s| == 64 && forall i | 0 <= i < |s| :: '0' <= s[i] <= '9' || 'a' <= s[i] <= 'f' }

  /** A registered worktree that is kept with a snapshot of its bytes. */
  predicate WorktreeIdentity(r: Resource) {
    && r.kind == "registered_worktree" && FilledTexts(r.expected)
    && {"repository", "worktree", "branch", "head", "snapshot_sha256"} <= r.expected.Keys
    && r.expected.Keys <= {"repository", "worktree", "branch", "head", "snapshot_sha256", "assigned_branch"}
    && r.expected["repository"] != r.expected["worktree"] && LowerHex64(r.expected["snapshot_sha256"].text)
  }

  /** A standalone clone that is kept, whose base is a remote reference. */
  predicate CloneIdentity(r: Resource) {
    && r.kind == "standalone_repository" && FilledTexts(r.expected)
    && r.expected.Keys == {"repository", "worktree", "branch", "head", "base_ref", "merge_commit"}
    && r.expected["repository"] == r.expected["worktree"] && "refs/remotes/" <= r.expected["base_ref"].text
  }

  /** The one repository that is retained, and what may be retained at all. */
  predicate RetainedTerms(rs: seq<Resource>, r: Resource, retention: Data, owner: Data, class_: string,
                          disposition: string, proof: Data, worktree: bool)
  {
    && retention.Dict? && retention.fields.Keys == {"resource_id", "reason", "acceptance_receipt", "release_receipt"}
    && FilledTexts(retention.fields) && retention.fields["resource_id"] == Text(r.id)
    && Get(owner, "role") == Text("champion") && Get(owner, "persistent") == Flag(false)
    && disposition == "completed" && (class_ == "pr_ci" || class_ == "deployed_service")
    && Proves(proof, "acceptance", "required_gates_complete") && Proves(proof, "release", "required_gates_complete")
    && Get(owner, "id") == Text(r.owner) && r.role == "champion" && r.applicable
    && r.lifetime == "persistent_retain" && r.action == "retain" && r.adapter == "retain"
    && (if worktree then WorktreeIdentity(r) else CloneIdentity(r))
    && forall x <- rs :: x.lifetime != "task_owned"
  }

  /** Something is to be retained: the manifest asks for it, or lists a repository. */
  predicate Retaining(rs: seq<Resource>, retention: Data) { retention != Nothing || exists r <- rs :: Repository(r) }

  predicate OnlyRepository(rs: seq<Resource>, i: nat) {
    i < |rs| && Repository(rs[i]) && forall j | 0 <= j < |rs| && j != i :: !Repository(rs[j])
  }

  predicate RetentionTerms(rs: seq<Resource>, retention: Data, owner: Data, class_: string, disposition: string,
                           proof: Data, worktree: bool)
  {
    if !Retaining(rs, retention) then !worktree
    else
      exists i: nat | i < |rs| ::
        OnlyRepository(rs, i) && RetainedTerms(rs, rs[i], retention, owner, class_, disposition, proof, worktree)
  }

  // ------------------------------------------------------ issue-coupled close

  predicate CloseTerms(continuation: Data, owner: Data, class_: string, disposition: string, proof: Data) {
    continuation == Nothing
    || (&& Get(owner, "role") == Text("champion") && disposition == "completed"
        && (class_ == "pr_ci" || class_ == "deployed_service")
        && continuation.Dict? && Proves(continuation, "acceptance", "required_gates_complete")
        && Get(continuation, "cleanup_evidence") == proof)
  }

  // ----------------------------------------------------------- final actions

  /** The final actions of a plan, each with its kind and its adapter. */
  function FinalPlan(class_: string, retained: bool, close: bool): seq<(string, string)> {
    [("session_exit", "harness"), ("endpoint_close", "backend")]
    + (if class_ == "analysis" || retained then [] else [("worktree_remove", "git"), ("branch_delete", "git")])
    + [("callsign_release", "callsign")]
    + (if close then [("issue_close", "issue")] else [])
  }

  predicate FinalItem(item: Data, kind: string, adapter: string, adapters: set<string>) {
    && item.Dict? && Get(item, "action_kind") == Text(kind)
    && Get(item, "adapter_kind") == Text(adapter) && adapter in adapters
    && NonEmptyDict(Get(item, "expected_identity")) && NonEmptyDict(Get(item, "intended_state"))
  }

  function FinalListed(manifest: Data): seq<Data> {
    if Get(manifest, "final_actions").List? then Get(manifest, "final_actions").items else []
  }

  predicate FinalItems(items: seq<Data>, plan: seq<(string, string)>, adapters: set<string>) {
    |items| == |plan| && forall i | 0 <= i < |plan| :: FinalItem(items[i], plan[i].0, plan[i].1, adapters)
  }

  // ------------------------------------------------------------------- order

  /** The resources that a plan acts on: all but those only kept, by their ids. */
  ghost predicate ActingOf(rs: seq<Resource>, acting: seq<Resource>) {
    && (forall i, j | 0 <= i < j < |acting| :: StringLess(acting[i].id, acting[j].id))
    && (forall r :: r in acting <==> r in rs && (r.lifetime == "persistent_retain" ==> Repository(r)))
  }

  function PlanKinds(acting: seq<Resource>, final: seq<(string, string)>): seq<string> {
    ["archive_identity_evidence"]
    + seq(|acting|, i requires 0 <= i < |acting| => acting[i].action)
    + seq(|final|, i requires 0 <= i < |final| => final[i].0)
  }

  /** Some `a` stands before every `b`. */
  predicate Precedes(kinds: seq<string>, a: string, b: string) {
    exists i | 0 <= i < |kinds| :: kinds[i] == a && b !in kinds[..i]
  }

  predicate OrderedPair(kinds: seq<string>, a: string, b: string) { a in kinds && b in kinds ==> Precedes(kinds, a, b) }

  /** Endpoint, worktree, branch, callsign: what of these is in the plan first occurs in this order. */
  predicate OrderTerms(kinds: seq<string>) {
    && OrderedPair(kinds, "endpoint_close", "worktree_remove") && OrderedPair(kinds, "endpoint_close", "branch_delete")
    && OrderedPair(kinds, "endpoint_close", "callsign_release")
    && OrderedPair(kinds, "worktree_remove", "branch_delete")
    && OrderedPair(kinds, "worktree_remove", "callsign_release")
    && OrderedPair(kinds, "branch_delete", "callsign_release")
  }

  predicate VersionTerms(manifest: Data) {
    var version := Get(manifest, "expected_cleanup_version");
    manifest.Dict? && "expected_cleanup_version" in manifest.fields ==> version.Number? && version.number >= 0
  }

  // ---------------------------------------------------------------- the plan

  /** An action's id: the operation's, a colon, and the ordinal in decimal, with zeros up to three digits. */
  predicate IdOf(operation: string, n: nat, id: string) {
    && operation + ":" <= id
    && var digits := id[|operation| + 1..];
       && |digits| >= 3 && (forall k | 0 <= k < |digits| :: IsDigit(digits[k])) && Numeral(digits) == n
       && (|digits| > 3 ==> digits[0] != '0')
  }

  /** The first action records the identity, the resources and what is retained. */
  predicate ArchiveItem(a: Action, identity: Data, rs: seq<Resource>, retention: Data) {
    && a.kind == "archive_identity_evidence" && a.adapter == "archive" && a.resource == Nothing
    && Dict(a.expected) == identity && a.intended == Archive(rs, retention)
  }

  /** The action for a resource is what its registration says, and is done when it is completed or retained. */
  predicate ResourceItem(a: Action, r: Resource) {
    && a.kind == r.action && a.adapter == r.adapter && a.resource == Text(r.id) && a.expected == r.expected
    && a.intended == Intent(map[if Repository(r) then "retained" else "completed" := Flag(true)])
  }

  /** A final action is what the manifest says. */
  predicate FinalFrom(a: Action, item: Data, kind: string, adapter: string) {
    && a.kind == kind && a.adapter == adapter && a.resource == Get(item, "resource_id")
    && Dict(a.expected) == Get(item, "expected_identity")
    && a.intended.Intent? && Dict(a.intended.state) == Get(item, "intended_state")
  }
}
