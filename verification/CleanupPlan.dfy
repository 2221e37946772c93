/**
 `CleanupPlanner.plan` of src/league/cleanup.py with the policy, the resource
 registration and the retention rule it relies on: from a manifest of parsed JSON values
 to the ordered list of cleanup actions, or a refusal.
 */
module CleanupPlan {
  import opened Prelude

  // ------------------------------------------------------------ parsed values

  datatype Data =
    | Nothing
    | Flag(flag: bool)
    | Number(number: int)
    | Text(text: string)
    | List(items: seq<Data>)
    | Dict(fields: map<string, Data>)

  /** `mapping.get(key)` */
  function Get(v: Data, key: string): Data {
    if v.Dict? && key in v.fields then v.fields[key] else Nothing
  }

  /** A mapping that is not empty. */
  predicate Filled(v: Data) { v.Dict? && v.fields != map[] }

  predicate IsText(v: Data, s: string) { v == Text(s) }

  /** `_proof`: the value at a dotted path is `True`. */
  predicate Proven(proof: Data, path: seq<string>) {
    if path == [] then proof == Flag(true)
    else proof.Dict? && path[0] in proof.fields && Proven(proof.fields[path[0]], path[1..])
  }

  datatype Refusal =
    | ManifestInvalid | OwnerRefused | PendingDecision | PublicationUnresolved | ClassUnsupported
    | DispositionUnsupported
    | RetentionRefused | ProofMissing | LegacyMismatch | ResourceInvalid | ResourceOwnerRefused | SharedRefused
    | PersistentRefused | AdapterUnknown | ResourceProofMissing | ResourceMismatch | ResourceNotApplicable
    | IssueCloseIneligible | ThreadArchiveInvalid | ActionMismatch | ActionUnsupported | AdapterMismatch | OrderInvalid

  // ------------------------------------------------------------------ policy

  datatype Policy = Policy(taskClass: string, disposition: string, requirements: seq<seq<string>>, retains: bool)

  const EXACT_IDENTITY := ["identity", "exact"]
  const TERMINAL_ENDPOINT := ["endpoint", "terminal_or_idle"]

  /** `POLICY_REQUIREMENTS` */
  function Requirements(taskClass: string): seq<seq<string>> {
    var git := [["git", "exact_registration"], ["git", "clean"], ["git", "no_unpublished"]];
    var publication := [["publication", "exact_head"], ["publication", "ci_green"], ["publication", "integrated"]];
    var deployment := [["deployment", "exact_revision"], ["deployment", "smoke_passed"]];
    [EXACT_IDENTITY, TERMINAL_ENDPOINT]
    + (if taskClass == "analysis" then [] else git)
    + (if taskClass == "pr_ci" || taskClass == "deployed_service" then publication else [])
    + (if taskClass == "deployed_service" then deployment else [])
  }

  function Without(rs: seq<seq<string>>, heads: seq<string>): seq<seq<string>> {
    if rs == [] then []
    else (if rs[0] != [] && rs[0][0] in heads then [] else [rs[0]]) + Without(rs[1..], heads)
  }

  function WithoutPaths(rs: seq<seq<string>>, paths: seq<seq<string>>): seq<seq<string>> {
    if rs == [] then [] else (if rs[0] in paths then [] else [rs[0]]) + WithoutPaths(rs[1..], paths)
  }

  /** `select_cleanup_policy` */
  function SelectPolicy(taskClass: string, disposition: string, retain: bool): Result<Policy, Refusal> {
    if taskClass !in ["analysis", "local_git", "pr_ci", "deployed_service"] then Err(ClassUnsupported)
    else if disposition !in ["completed", "rejected", "cancelled", "failed"] then Err(DispositionUnsupported)
    else if retain && (disposition != "completed" || taskClass !in ["pr_ci", "deployed_service"])
        then Err(RetentionRefused)
    else
      var base := Requirements(taskClass);
      var kept :=
        if retain then
          Without(WithoutPaths(base, [["git", "clean"], ["git", "no_unpublished"]]), ["publication"])
          + [["acceptance", "required_gates_complete"], ["release", "required_gates_complete"]]
        else base;
      var final :=
        if disposition == "rejected" || disposition == "cancelled" then
          Without(kept, ["publication", "deployment"]) + [["decision", "explicit"]]
        else if disposition == "failed" then Without(kept, ["publication", "deployment"]) + [["failure", "preserved"]]
        else kept;
      Ok(Policy(taskClass, disposition, final, retain))
  }

  // --------------------------------------------------------------- resources

  datatype Resource = Resource(
    id: string, task: string, owner: string, role: string, kind: string, lifetime: string,
    expected: map<string, Data>, action: string, adapter: string, applicable: bool, reason: string)

  /** A string that is not empty and has no surrounding white space. */
  predicate Exact(v: Data) { v.Text? && v.text != "" && Strip(v.text) == v.text }

  /** `ResourceRegistration.from_mapping` */
  function Register(v: Data): Result<Resource, Refusal> {
    var id, task, owner, role := Get(v, "resource_id"), Get(v, "task_id"), Get(v, "owner_id"), Get(v, "owner_role");
    var kind, lifetime, expected := Get(v, "resource_type"), Get(v, "lifetime"), Get(v, "expected_identity");
    var action, adapter := Get(v, "cleanup_action"), Get(v, "adapter_kind");
    var applicable, reason := Get(v, "applicable"), Get(v, "applicability_reason");
    if !lifetime.Text? || lifetime.text !in ["task_owned", "shared_lease", "persistent_retain"]
        then Err(ResourceInvalid)
    else if !(Exact(id) && Exact(task) && Exact(owner) && Exact(role) && Exact(kind) && Exact(action)
              && Exact(adapter) && Exact(reason)) then Err(ResourceInvalid)
    else if role.text == "shotcaller" then Err(ResourceOwnerRefused)
    else if role.text !in ["champion", "hidden-worker", "task"] then Err(ResourceInvalid)
    else if !applicable.Flag? || !Filled(expected) then Err(ResourceInvalid)
    else if lifetime.text == "shared_lease" && (action.text != "release_lease" || adapter.text != "lease")
        then Err(SharedRefused)
    else if lifetime.text == "persistent_retain" && (action.text != "retain" || adapter.text != "retain")
        then Err(PersistentRefused)
    else Ok(Resource(id.text, task.text, owner.text, role.text, kind.text, lifetime.text, expected.fields,
                     action.text, adapter.text, applicable.flag, reason.text))
  }

  function RegisterAll(vs: seq<Data>): Result<seq<Resource>, Refusal> {
    if vs == [] then Ok([])
    else
      var first := Register(vs[0]);
      if first.Err? then Err(first.error)
      else
        var rest := RegisterAll(vs[1..]);
        if rest.Err? then rest else Ok([first.value] + rest.value)
  }

  /** `RETAINED_REPOSITORY_TYPES` */
  predicate IsRepository(r: Resource) { r.kind == "standalone_repository" || r.kind == "registered_worktree" }

  function Repositories(rs: seq<Resource>): seq<Resource> {
    if rs == [] then [] else (if IsRepository(rs[0]) then [rs[0]] else []) + Repositories(rs[1..])
  }

  predicate AllTexts(m: map<string, Data>) {
    forall k <- m :: m[k].Text? && Strip(m[k].text) != ""
  }

  predicate Sha256(s: string) { |s| == 64 && forall c <- s :: IsDigit(c) || 'a' <= c <= 'f' }

  /** What makes a retained repository's own registration acceptable. */
  predicate RetainedIdentity(r: Resource, policy: Policy) {
    var base := if policy.retains then {"repository", "worktree", "branch", "head", "snapshot_sha256"}
                else {"repository", "worktree", "branch", "head", "base_ref", "merge_commit"};
    var keys := if policy.retains && "assigned_branch" in r.expected then base + {"assigned_branch"} else base;
    && r.expected.Keys == keys && AllTexts(r.expected)
    && r.kind == (if policy.retains then "registered_worktree" else "standalone_repository")
    && "repository" in r.expected && "worktree" in r.expected
    && (policy.retains ==>
          r.expected["repository"] != r.expected["worktree"]
          && "snapshot_sha256" in r.expected && r.expected["snapshot_sha256"].Text?
              && Sha256(r.expected["snapshot_sha256"].text))
    && (!policy.retains ==>
          r.expected["repository"] == r.expected["worktree"]
          && "base_ref" in r.expected && r.expected["base_ref"].Text?
              && OccursAt(r.expected["base_ref"].text, 0, "refs/remotes/"))
  }

  /** The evidence that a retention has to come with. */
  predicate RetentionEvidence(retention: Data, owner: Data, policy: Policy, proof: Data) {
    && retention.Dict?
    && retention.fields.Keys == {"resource_id", "reason", "acceptance_receipt", "release_receipt"}
    && AllTexts(retention.fields)
    && Get(owner, "role") == Text("champion") && Get(owner, "persistent") == Flag(false)
    && policy.disposition == "completed" && policy.taskClass in ["pr_ci", "deployed_service"]
    && Proven(proof, ["acceptance", "required_gates_complete"])
    && Proven(proof, ["release", "required_gates_complete"])
  }

  /** A registration that keeps a Champion's own repository and does nothing to it. */
  predicate KeepsOwn(r: Resource, owner: Data) {
    && Text(r.owner) == Get(owner, "id") && r.role == "champion" && r.applicable
    && r.lifetime == "persistent_retain" && r.action == "retain" && r.adapter == "retain"
  }

  /** `retained_repository_resource` */
  function Retained(retention: Data, rs: seq<Resource>, owner: Data, policy: Policy, proof: Data)
    : Result<Option<Resource>, Refusal>
  {
    var repositories := Repositories(rs);
    if retention == Nothing && repositories == [] then
      if policy.retains then Err(RetentionRefused) else Ok(None)
    else if |repositories| != 1 || !RetentionEvidence(retention, owner, policy, proof) then Err(RetentionRefused)
    else
      var r := repositories[0];
      if && Text(r.id) == retention.fields["resource_id"] && KeepsOwn(r, owner) && RetainedIdentity(r, policy)
         && (forall x <- rs :: x.lifetime != "task_owned")
      then Ok(Some(r)) else Err(RetentionRefused)
  }

  // ----------------------------------------------------------------- actions

  /** The archive action records the whole case; the others say what is expected and intended. */
  datatype Action = Action(id: string, ordinal: nat, kind: string, adapter: string, resource: Data,
                           expected: map<string, Data>, intended: Intent)

  datatype Intent =
    | Archive(resources: seq<Resource>, retention: Data)
    | Intent(state: map<string, Data>)

  function Pad(n: nat): string {
    var d := Decimal(n);
    if |d| == 1 then "00" + d else if |d| == 2 then "0" + d else d
  }

  /** `f"{operation_id}:{ordinal:03d}"` */
  function ActionId(operation: string, n: nat): string { operation + (":" + Pad(n)) }

  function InsertById(r: Resource, rs: seq<Resource>): seq<Resource> {
    if rs == [] then [r] else if StringLess(rs[0].id, r.id) then [rs[0]] + InsertById(r, rs[1..]) else [r] + rs
  }

  /** `sorted(resources, key=lambda item: item.resource_id)` */
  function SortedById(rs: seq<Resource>): seq<Resource> {
    if rs == [] then [] else InsertById(rs[0], SortedById(rs[1..]))
  }

  /** Resources that are retained and are not repositories take no action. */
  predicate PlainlyRetained(r: Resource) { r.lifetime == "persistent_retain" && !IsRepository(r) }

  function Acting(rs: seq<Resource>): seq<Resource> {
    if rs == [] then [] else (if PlainlyRetained(rs[0]) then [] else [rs[0]]) + Acting(rs[1..])
  }

  function ResourceAction(operation: string, n: nat, r: Resource): Action {
    Action(ActionId(operation, n), n, r.action, r.adapter, Text(r.id), r.expected,
           Intent(map[if IsRepository(r) then "retained" else "completed" := Flag(true)]))
  }

  function ResourceActions(operation: string, n: nat, rs: seq<Resource>): seq<Action>
    decreases rs
  {
    if rs == [] then [] else [ResourceAction(operation, n, rs[0])] + ResourceActions(operation, n + 1, rs[1..])
  }

  /** `FINAL_ACTION_ADAPTERS` */
  function FinalAdapter(kind: string): string {
    match kind
    case "session_exit" => "harness"
    case "endpoint_close" => "backend"
    case "worktree_remove" => "git"
    case "branch_delete" => "git"
    case "callsign_release" => "callsign"
    case _ => "issue"
  }

  const FINAL_ACTION_KINDS: seq<string> :=
    ["session_exit", "endpoint_close", "worktree_remove", "branch_delete", "callsign_release", "issue_close"]

  /** `required_final` */
  function RequiredFinal(policy: Policy, retained: bool, continuation: bool): seq<string> {
    ["session_exit", "endpoint_close"]
    + (if policy.taskClass != "analysis" && !retained then ["worktree_remove", "branch_delete"] else [])
    + ["callsign_release"]
    + (if continuation then ["issue_close"] else [])
  }

  /** The kinds of the final actions that are mappings. */
  function FinalKinds(items: seq<Data>): seq<Data> {
    if items == [] then [] else (if items[0].Dict? then [Get(items[0], "action_kind")] else []) + FinalKinds(items[1..])
  }

  function Texts(kinds: seq<string>): seq<Data> {
    if kinds == [] then [] else [Text(kinds[0])] + Texts(kinds[1..])
  }

  /** One final action of the manifest, checked. */
  function FinalAction(operation: string, n: nat, item: Data, adapters: set<string>): Result<Action, Refusal> {
    var kind, adapter := Get(item, "action_kind"), Get(item, "adapter_kind");
    var expected, intended := Get(item, "expected_identity"), Get(item, "intended_state");
    if !kind.Text? || kind.text !in FINAL_ACTION_KINDS then Err(ActionUnsupported)
    else if !adapter.Text? || adapter.text !in adapters then Err(AdapterUnknown)
    else if adapter.text != FinalAdapter(kind.text) then Err(AdapterMismatch)
    else if !Filled(expected) || !Filled(intended) then Err(ManifestInvalid)
    else Ok(Action(ActionId(operation, n), n, kind.text, adapter.text, Get(item, "resource_id"),
                   expected.fields, Intent(intended.fields)))
  }

  function FinalActions(operation: string, n: nat, items: seq<Data>, adapters: set<string>)
    : Result<seq<Action>, Refusal>
    decreases items
  {
    if items == [] then Ok([])
    else
      var first := FinalAction(operation, n, items[0], adapters);
      if first.Err? then Err(first.error)
      else
        var rest := FinalActions(operation, n + 1, items[1..], adapters);
        if rest.Err? then rest else Ok([first.value] + rest.value)
  }

  function Kinds(actions: seq<Action>): seq<string> {
    if actions == [] then [] else [actions[0].kind] + Kinds(actions[1..])
  }

  /** `ordered.index(name)` */
  function IndexOf(kinds: seq<string>, kind: string): nat {
    if kinds == [] || kinds[0] == kind then 0 else 1 + IndexOf(kinds[1..], kind)
  }

  const RELEASES: seq<string> := ["endpoint_close", "worktree_remove", "branch_delete", "callsign_release"]

  /** The first occurrences of the release actions are in their order. */
  predicate ReleasesInOrder(kinds: seq<string>) {
    forall i, j | 0 <= i < j < |RELEASES| && RELEASES[i] in kinds && RELEASES[j] in kinds ::
      IndexOf(kinds, RELEASES[i]) <= IndexOf(kinds, RELEASES[j])
  }

  // -------------------------------------------------------------- the planner

  /** What the storage knows: open publications, the rollover asked about, and the registered resources. */
  datatype Canonical = Canonical(unresolved: bool, rollover: Data, registered: seq<Data>)

  predicate Named(v: Data) { v.Text? && v.text != "" }

  /** A Shotcaller owns a cleanup only as the exact predecessor of a switched rollover. */
  predicate RoleOk(manifest: Data, owner: Data, canonical: Canonical) {
    var role, requested := Get(owner, "role"), Get(manifest, "rollover");
    if role == Text("shotcaller") then
      && requested.Dict? && requested.fields.Keys == {"operation_id", "expected_version"}
      && canonical.rollover.Dict? && Get(canonical.rollover, "state") == Text("switched")
      && Get(canonical.rollover, "predecessor_agent_id") == Get(owner, "id")
      && Get(canonical.rollover, "version") == Get(requested, "expected_version")
    else
      role in [Text("champion"), Text("hidden-worker"), Text("task")] && Get(owner, "persistent") == Flag(false)
  }

  /** The checks on task, owner, identity, decisions and publications. */
  function OwnerObjection(manifest: Data, canonical: Canonical): Option<Refusal> {
    var task, owner, identity := Get(manifest, "task_id"), Get(manifest, "owner"), Get(manifest, "identity");
    if !Named(task) || !owner.Dict? || !Named(Get(owner, "id")) || !Filled(identity) then Some(ManifestInvalid)
    else if !RoleOk(manifest, owner, canonical) then Some(OwnerRefused)
    else if Get(manifest, "pending_decisions_clear") != Flag(true) then Some(PendingDecision)
    else if canonical.unresolved then Some(PublicationUnresolved)
    else None
  }

  function TextOf(v: Data): string { if v.Text? then v.text else "" }

  function ResourceValues(manifest: Data): Result<seq<Data>, Refusal> {
    if !manifest.Dict? || "resources" !in manifest.fields then Ok([])
    else if !manifest.fields["resources"].List? then Err(ResourceInvalid)
    else Ok(manifest.fields["resources"].items)
  }

  predicate RetainsWorktree(manifest: Data) {
    var resources := Get(manifest, "resources");
    resources.List? && exists r <- resources.items :: Get(r, "resource_type") == Text("registered_worktree")
  }

  predicate UniqueIds(rs: seq<Resource>) {
    forall i, j | 0 <= i < j < |rs| :: rs[i].id != rs[j].id
  }

  /** The checks of the declared resources against the storage, the adapters, the task and the owner. */
  function ResourceObjection(rs: seq<Resource>, registered: seq<Resource>, task: Data, owner: Data,
                             adapters: set<string>): Option<Refusal>
  {
    if !UniqueIds(rs) then Some(ResourceInvalid)
    else if exists r <- rs + registered :: r.adapter !in adapters then Some(AdapterUnknown)
    else if exists r <- registered :: forall d <- rs :: d.id != r.id then Some(ResourceProofMissing)
    else if exists r <- registered :: r !in rs then Some(ResourceMismatch)
    else if exists r <- rs :: Text(r.task) != task || Text(r.owner) != Get(owner, "id") then Some(ResourceMismatch)
    else if exists r <- rs :: !r.applicable then Some(ResourceNotApplicable)
    else None
  }

  /** The checks of an issue-coupled close. */
  function ContinuationObjection(continuation: Data, owner: Data, policy: Policy, proof: Data): Option<Refusal> {
    if continuation == Nothing then None
    else if Get(owner, "role") != Text("champion") || policy.disposition != "completed"
            || policy.taskClass !in ["pr_ci", "deployed_service"] then Some(IssueCloseIneligible)
    else if !continuation.Dict? || Get(Get(continuation, "acceptance"), "required_gates_complete") != Flag(true)
            || Get(continuation, "cleanup_evidence") != proof then Some(ThreadArchiveInvalid)
    else None
  }

  function ArchiveAction(operation: string, identity: Data, rs: seq<Resource>, retention: Data): Action {
    Action(ActionId(operation, 0), 0, "archive_identity_evidence", "archive", Nothing,
           if identity.Dict? then identity.fields else map[], Archive(rs, retention))
  }

  /** The plan's actions: the archive, the acting resources by id, and the policy's final actions. */
  function Assemble(operation: string, identity: Data, rs: seq<Resource>, retention: Data, items: seq<Data>,
                    adapters: set<string>)
    : Result<seq<Action>, Refusal>
  {
    Complete(operation, [ArchiveAction(operation, identity, rs, retention)]
        + ResourceActions(operation, 1, Acting(SortedById(rs))),
             items, adapters)
  }

  /** The final actions after those already planned. */
  function Complete(operation: string, front: seq<Action>, items: seq<Data>,
                    adapters: set<string>): Result<seq<Action>, Refusal>
  {
    var tail := FinalActions(operation, |front|, items, adapters);
    if tail.Err? then tail else InOrder(front + tail.value)
  }

  function InOrder(actions: seq<Action>): Result<seq<Action>, Refusal> {
    if ReleasesInOrder(Kinds(actions)) then Ok(actions) else Err(OrderInvalid)
  }

  /** The declared resources, registered and checked. */
  function DeclaredResources(manifest: Data, canonical: Canonical, adapters: set<string>)
    : Result<seq<Resource>, Refusal>
  {
    var values := ResourceValues(manifest);
    if values.Err? then Err(values.error)
    else
      var rs, registered := RegisterAll(values.value), RegisterAll(canonical.registered);
      if rs.Err? then Err(rs.error)
      else if registered.Err? then Err(registered.error)
      else
        var objection := ResourceObjection(rs.value, registered.value, Get(manifest, "task_id"),
                                           Get(manifest, "owner"), adapters);
        if objection.Some? then Err(objection.value) else rs
  }

  /** The policy of a manifest whose owner and proof are in order. */
  function ManifestPolicy(manifest: Data, canonical: Canonical): Result<Policy, Refusal> {
    var proof, legacy := Get(manifest, "proof"), Get(manifest, "legacy_identity");
    var policy := SelectPolicy(TextOf(Get(manifest, "task_class")), TextOf(Get(manifest, "disposition")),
                               RetainsWorktree(manifest));
    if OwnerObjection(manifest, canonical).Some? then Err(OwnerObjection(manifest, canonical).value)
    else if policy.Err? then policy
    else if !proof.Dict? || (exists p <- policy.value.requirements :: !Proven(proof, p)) then Err(ProofMissing)
    else if legacy != Nothing && legacy != Get(manifest, "identity") then Err(LegacyMismatch)
    else policy
  }

  /** The checks up to the final actions: the policy, the resources, and whether a repository is retained. */
  function Prepare(manifest: Data, canonical: Canonical, adapters: set<string>)
    : Result<(Policy, seq<Resource>, bool), Refusal>
  {
    var owner, proof := Get(manifest, "owner"), Get(manifest, "proof");
    var policy, rs := ManifestPolicy(manifest, canonical), DeclaredResources(manifest, canonical, adapters);
    if policy.Err? then Err(policy.error)
    else if rs.Err? then Err(rs.error)
    else
      var retained := Retained(Get(manifest, "repository_retention"), rs.value, owner, policy.value, proof);
      var continuation := ContinuationObjection(Get(manifest, "continuation_archive"), owner, policy.value, proof);
      if retained.Err? then Err(retained.error)
      else if continuation.Some? then Err(continuation.value)
      else Ok((policy.value, rs.value, retained.value.Some?))
  }

  function FinalItems(manifest: Data): Option<seq<Data>> {
    if !manifest.Dict? || "final_actions" !in manifest.fields then Some([])
    else if manifest.fields["final_actions"].List? then Some(manifest.fields["final_actions"].items)
    else None
  }

  predicate VersionOk(manifest: Data) {
    manifest.Dict? && "expected_cleanup_version" in manifest.fields ==>
      manifest.fields["expected_cleanup_version"].Number? && manifest.fields["expected_cleanup_version"].number >= 0
  }

  /** `CleanupPlanner.plan`: the actions that are handed to the storage. */
  function Plan(manifest: Data, operation: string, canonical: Canonical, adapters: set<string>)
    : Result<seq<Action>, Refusal>
  {
    var prepared := Prepare(manifest, canonical, adapters);
    if prepared.Err? then Err(prepared.error)
    else
      var (policy, rs, retained) := prepared.value;
      var items := FinalItems(manifest);
      var retention := if retained then Get(manifest, "repository_retention") else Nothing;
      if items.None? then Err(ManifestInvalid)
      else if FinalKinds(items.value) != Texts(RequiredFinal(policy, retained,
                                                             Get(manifest, "continuation_archive") != Nothing))
      then Err(ActionMismatch)
      else
        var actions := Assemble(operation, Get(manifest, "identity"), rs, retention, items.value, adapters);
        if actions.Ok? && !VersionOk(manifest) then Err(ManifestInvalid) else actions
  }

  lemma NextResource(operation: string, n: nat, r: Resource, rest: seq<Resource>)
    ensures ResourceActions(operation, n, [r] + rest) == [ResourceAction(operation, n, r)]
            + ResourceActions(operation, n + 1, rest)
  {
    assert ([r] + rest)[1..] == rest;
  }

  /** The loop over the sorted resources, with its counter. */
  method AddResources(operation: string, archive: Action, sorted: seq<Resource>) returns (actions: seq<Action>)
    ensures actions == [archive] + ResourceActions(operation, 1, Acting(sorted))
  {
    actions := [archive];
    var ordinal := 1;
    assert sorted[0..] == sorted;
    for i := 0 to |sorted|
      invariant |actions| == ordinal
      invariant [archive] + ResourceActions(operation, 1, Acting(sorted))
             == actions + ResourceActions(operation, ordinal, Acting(sorted[i..]))
    {
      assert sorted[i..][1..] == sorted[i + 1..];
      ghost var rest := Acting(sorted[i + 1..]);
      Neutral(rest);
      if sorted[i].lifetime == "persistent_retain" && !IsRepository(sorted[i]) {
        assert Acting(sorted[i..]) == rest;
        continue;
      }
      assert Acting(sorted[i..]) == [sorted[i]] + rest;
      NextResource(operation, ordinal, sorted[i], rest);
      Associative(actions, [ResourceAction(operation, ordinal, sorted[i])],
                  ResourceActions(operation, ordinal + 1, rest));
      actions := actions + [ResourceAction(operation, ordinal, sorted[i])];
      ordinal := ordinal + 1;
    }
    Neutral(actions);
  }

  /** The loop over the final actions of the manifest. */
  method AddFinals(operation: string, front: seq<Action>, items: seq<Data>, adapters: set<string>)
    returns (r: Result<seq<Action>, Refusal>)
    ensures var finals := FinalActions(operation, |front|, items, adapters);
            r == if finals.Ok? then Ok(front + finals.value) else finals
  {
    var actions := front;
    ghost var finals := FinalActions(operation, |front|, items, adapters);
    assert items[0..] == items;
    for i := 0 to |items|
      invariant |actions| == |front| + i
      invariant var rest := FinalActions(operation, |actions|, items[i..], adapters);
                if finals.Ok? then rest.Ok? && front + finals.value == actions + rest.value else rest == finals
    {
      assert items[i..][1..] == items[i + 1..];
      var action := FinalAction(operation, |actions|, items[i], adapters);
      if action.Err? {
        return Err(action.error);
      }
      ghost var rest := FinalActions(operation, |actions| + 1, items[i + 1..], adapters);
      if rest.Ok? {
        Associative(actions, [action.value], rest.value);
      }
      actions := actions + [action.value];
    }
    Neutral(actions);
    return Ok(actions);
  }

  /** The part of `plan` that builds the list of actions. */
  method BuildActions(operation: string, identity: Data, rs: seq<Resource>, retention: Data, items: seq<Data>,
                      adapters: set<string>)
    returns (r: Result<seq<Action>, Refusal>)
    ensures r == Assemble(operation, identity, rs, retention, items, adapters)
  {
    var actions := AddResources(operation, ArchiveAction(operation, identity, rs, retention), SortedById(rs));
    r := AddFinals(operation, actions, items, adapters);
    if r.Ok? {
      r := InOrder(r.value);
    }
  }

  /** `plan` as a whole: its checks in order, then the list. */
  method MakePlan(manifest: Data, operation: string, canonical: Canonical, adapters: set<string>)
    returns (r: Result<seq<Action>, Refusal>)
    ensures r == Plan(manifest, operation, canonical, adapters)
  {
    var prepared := Prepare(manifest, canonical, adapters);
    if prepared.Err? {
      return Err(prepared.error);
    }
    var (policy, rs, retained) := prepared.value;
    var items := FinalItems(manifest);
    if items.None? {
      return Err(ManifestInvalid);
    }
    if FinalKinds(items.value) != Texts(RequiredFinal(policy, retained,
                                                      Get(manifest, "continuation_archive") != Nothing)) {
      return Err(ActionMismatch);
    }
    var retention := if retained then Get(manifest, "repository_retention") else Nothing;
    r := BuildActions(operation, Get(manifest, "identity"), rs, retention, items.value, adapters);
    if r.Ok? && !VersionOk(manifest) {
      r := Err(ManifestInvalid);
    }
  }
}
