/**
 A manifest whose plan removes a worktree that nothing proves to be clean or published:
 an analysis task that has registered the worktree as a resource to remove, behind an
 endpoint to close.
 */
module CleanupUnproven {
  import opened Prelude
  import opened CleanupPlan
  import opened CleanupPlanLaws
  import opened CleanupAccepted
  import opened CleanupContents
  import T = CleanupTerms

  const EVIDENCE := Dict(map["id" := Text("x")])

  function Registration(id: string, action: string, adapter: string): Data {
    Dict(map["resource_id" := Text(id), "task_id" := Text("t"), "owner_id" := Text("o"), "owner_role" := Text("task"),
             "resource_type" := Text("x"), "lifetime" := Text("task_owned"), "expected_identity" := EVIDENCE,
             "cleanup_action" := Text(action), "adapter_kind" := Text(adapter), "applicable" := Flag(true),
             "applicability_reason" := Text("x")])
  }

  function Final(kind: string, adapter: string): Data {
    Dict(map["action_kind" := Text(kind), "adapter_kind" := Text(adapter), "expected_identity" := EVIDENCE,
             "intended_state" := EVIDENCE])
  }

  const OWNER := Dict(map["id" := Text("o"), "role" := Text("task"), "persistent" := Flag(false)])

  /** The endpoint is idle and the identity exact; nothing is said about git. */
  const PROOF := Dict(map["identity" := Dict(map["exact" := Flag(true)]),
                          "endpoint" := Dict(map["terminal_or_idle" := Flag(true)])])

  const RESOURCES := [Registration("a", "endpoint_close", "backend"), Registration("b", "worktree_remove", "git")]
  const FINALS := [Final("session_exit", "harness"), Final("endpoint_close", "backend"),
                   Final("callsign_release", "callsign")]

  const MANIFEST := Dict(map[
    "task_id" := Text("t"), "owner" := OWNER, "identity" := EVIDENCE, "pending_decisions_clear" := Flag(true),
    "task_class" := Text("analysis"), "disposition" := Text("completed"), "proof" := PROOF,
    "resources" := List(RESOURCES), "final_actions" := List(FINALS)])

  const STORED := Canonical(false, Nothing, [])
  const ADAPTERS := {"archive", "harness", "backend", "git", "callsign"}

  // ------------------------------------------------- what the parts say, by field

  predicate IsOwner(owner: Data) {
    && owner.Dict? && Get(owner, "id") == Text("o") && Get(owner, "role") == Text("task")
    && Get(owner, "persistent") == Flag(false)
  }

  predicate IsProof(proof: Data) {
    && T.Proves(proof, "identity", "exact") && T.Proves(proof, "endpoint", "terminal_or_idle")
    && Get(proof, "git") == Nothing
  }

  predicate IsRegistration(v: Data, id: string, action: string, adapter: string) {
    && Get(v, "resource_id") == Text(id) && Get(v, "task_id") == Text("t") && Get(v, "owner_id") == Text("o")
    && Get(v, "owner_role") == Text("task") && Get(v, "resource_type") == Text("x")
    && Get(v, "lifetime") == Text("task_owned") && T.NonEmptyDict(Get(v, "expected_identity"))
    && Get(v, "cleanup_action") == Text(action) && Get(v, "adapter_kind") == Text(adapter)
    && Get(v, "applicable") == Flag(true) && Get(v, "applicability_reason") == Text("x")
  }

  predicate IsManifest(m: Data) {
    && m.Dict? && Get(m, "task_id") == Text("t") && IsOwner(Get(m, "owner")) && T.NonEmptyDict(Get(m, "identity"))
    && Get(m, "pending_decisions_clear") == Flag(true)
    && Get(m, "task_class") == Text("analysis") && Get(m, "disposition") == Text("completed")
    && IsProof(Get(m, "proof")) && Get(m, "legacy_identity") == Nothing && Get(m, "repository_retention") == Nothing
    && Get(m, "continuation_archive") == Nothing && "expected_cleanup_version" !in m.fields
  }

  predicate IsListed(m: Data) {
    && Get(m, "resources").List? && |Get(m, "resources").items| == 2
    && IsRegistration(Get(m, "resources").items[0], "a", "endpoint_close", "backend")
    && IsRegistration(Get(m, "resources").items[1], "b", "worktree_remove", "git")
    && Get(m, "final_actions").List? && |Get(m, "final_actions").items| == 3
    && T.FinalItem(Get(m, "final_actions").items[0], "session_exit", "harness", ADAPTERS)
    && T.FinalItem(Get(m, "final_actions").items[1], "endpoint_close", "backend", ADAPTERS)
    && T.FinalItem(Get(m, "final_actions").items[2], "callsign_release", "callsign", ADAPTERS)
  }

  lemma EvidenceFilled()
    ensures T.NonEmptyDict(EVIDENCE)
  {
    assert "id" in EVIDENCE.fields;
  }

  lemma PartsSay()
    ensures IsOwner(OWNER) && IsProof(PROOF)
  {
  }

  lemma RegistrationSays(id: string, action: string, adapter: string)
    ensures IsRegistration(Registration(id, action, adapter), id, action, adapter)
  {
    EvidenceFilled();
  }

  lemma FinalSays(kind: string, adapter: string)
    requires adapter in ADAPTERS
    ensures T.FinalItem(Final(kind, adapter), kind, adapter, ADAPTERS)
  {
    EvidenceFilled();
  }

  lemma Fields()
    ensures MANIFEST.Dict? && Get(MANIFEST, "task_id") == Text("t") && Get(MANIFEST, "owner") == OWNER
    ensures Get(MANIFEST, "identity") == EVIDENCE && Get(MANIFEST, "pending_decisions_clear") == Flag(true)
    ensures Get(MANIFEST, "task_class") == Text("analysis") && Get(MANIFEST, "disposition") == Text("completed")
  {
  }

  lemma ProofAndLists()
    ensures Get(MANIFEST, "proof") == PROOF && Get(MANIFEST, "resources") == List(RESOURCES)
    ensures Get(MANIFEST, "final_actions") == List(FINALS)
  {
  }

  lemma Missing()
    ensures Get(MANIFEST, "legacy_identity") == Nothing && Get(MANIFEST, "repository_retention") == Nothing
    ensures Get(MANIFEST, "continuation_archive") == Nothing && "expected_cleanup_version" !in MANIFEST.fields
  {
  }

  lemma ManifestSays(m: Data)
    requires m.Dict? && Get(m, "task_id") == Text("t") && Get(m, "owner") == OWNER
    requires Get(m, "identity") == EVIDENCE && Get(m, "pending_decisions_clear") == Flag(true)
    requires Get(m, "task_class") == Text("analysis") && Get(m, "disposition") == Text("completed")
    requires Get(m, "proof") == PROOF && Get(m, "legacy_identity") == Nothing
    requires Get(m, "repository_retention") == Nothing && Get(m, "continuation_archive") == Nothing
    requires "expected_cleanup_version" !in m.fields
    ensures IsManifest(m)
  {
    EvidenceFilled();
    PartsSay();
  }

  lemma ListsSay(m: Data, resources: seq<Data>, finals: seq<Data>)
    requires Get(m, "resources") == List(resources) && Get(m, "final_actions") == List(finals)
    requires |resources| == 2 && resources[0] == Registration("a", "endpoint_close", "backend")
    requires resources[1] == Registration("b", "worktree_remove", "git")
    requires |finals| == 3 && finals[0] == Final("session_exit", "harness")
    requires finals[1] == Final("endpoint_close", "backend") && finals[2] == Final("callsign_release", "callsign")
    ensures IsListed(m)
  {
    RegistrationSays("a", "endpoint_close", "backend");
    RegistrationSays("b", "worktree_remove", "git");
    FinalSays("session_exit", "harness");
    FinalSays("endpoint_close", "backend");
    FinalSays("callsign_release", "callsign");
  }

  // --------------------------------------------------------------- it is accepted

  lemma OwnerMeets(m: Data)
    requires IsManifest(m)
    ensures T.OwnerTerms(m, STORED)
  {
  }

  lemma AnalysisNeeds(proof: Data, area: string, gate: string)
    requires IsProof(proof) && T.Needed("analysis", "completed", false, [area, gate])
    ensures T.Proves(proof, area, gate)
  {
    DispositionsDiffer();
  }

  lemma NothingKept(m: Data)
    requires IsListed(m)
    ensures !T.KeepsWorktree(m)
  {
    assert |"x"| == 1 && |"registered_worktree"| == 19;
    forall v | v in Get(m, "resources").items
      ensures Get(v, "resource_type") == Text("x")
    {
    }
  }

  lemma PolicyMeets(m: Data)
    requires IsManifest(m) && IsListed(m)
    ensures T.PolicyTerms(m)
  {
    NothingKept(m);
    forall area: string, gate: string | T.Needed("analysis", "completed", false, [area, gate])
      ensures T.Proves(Get(m, "proof"), area, gate)
    {
      AnalysisNeeds(Get(m, "proof"), area, gate);
    }
  }

  /** The resource that such a registration is. */
  predicate IsResource(r: Resource, id: string, action: string, adapter: string) {
    && r.id == id && r.task == "t" && r.owner == "o" && r.kind == "x" && r.lifetime == "task_owned"
    && r.action == action && r.adapter == adapter && r.applicable
  }

  lemma RegistrationMeets(v: Data, id: string, action: string, adapter: string)
    requires IsRegistration(v, id, action, adapter)
    requires T.ExactText(Text(id)) && T.ExactText(Text(action)) && T.ExactText(Text(adapter))
    ensures T.RegistrationTerms(v) && IsResource(T.ResourceOf(v), id, action, adapter)
  {
    assert |"task_owned"| == 10 && |"shared_lease"| == 12 && |"persistent_retain"| == 17;
  }

  lemma TwoRegistrations(vs: seq<Data>)
    requires |vs| == 2 && T.RegistrationTerms(vs[0]) && T.RegistrationTerms(vs[1])
    ensures (forall v <- vs :: T.RegistrationTerms(v)) && |T.ResourcesOf(vs)| == 2
    ensures T.ResourcesOf(vs)[0] == T.ResourceOf(vs[0]) && T.ResourcesOf(vs)[1] == T.ResourceOf(vs[1])
  {
    forall v | v in vs
      ensures T.RegistrationTerms(v)
    {
      assert v == vs[0] || v == vs[1];
    }
  }

  lemma TextsExact()
    ensures T.ExactText(Text("a")) && T.ExactText(Text("endpoint_close")) && T.ExactText(Text("backend"))
    ensures T.ExactText(Text("b")) && T.ExactText(Text("worktree_remove")) && T.ExactText(Text("git"))
  {
  }

  lemma ListMeets(vs: seq<Data>)
    requires |vs| == 2 && IsRegistration(vs[0], "a", "endpoint_close", "backend")
    requires IsRegistration(vs[1], "b", "worktree_remove", "git")
    ensures (forall v <- vs :: T.RegistrationTerms(v)) && |T.ResourcesOf(vs)| == 2
    ensures IsResource(T.ResourcesOf(vs)[0], "a", "endpoint_close", "backend")
    ensures IsResource(T.ResourcesOf(vs)[1], "b", "worktree_remove", "git")
  {
    TextsExact();
    RegistrationMeets(vs[0], "a", "endpoint_close", "backend");
    RegistrationMeets(vs[1], "b", "worktree_remove", "git");
    TwoRegistrations(vs);
  }

  lemma ResourcesMeet(m: Data)
    requires IsManifest(m) && IsListed(m)
    ensures Registered(m) && |ResourcesIn(m)| == 2
    ensures IsResource(ResourcesIn(m)[0], "a", "endpoint_close", "backend")
    ensures IsResource(ResourcesIn(m)[1], "b", "worktree_remove", "git")
  {
    ListMeets(T.Listed(m));
  }

  lemma AgreementMeets(rs: seq<Resource>)
    requires |rs| == 2 && IsResource(rs[0], "a", "endpoint_close", "backend")
    requires IsResource(rs[1], "b", "worktree_remove", "git")
    ensures T.AgreementTerms(rs, [], Text("t"), Text("o"), ADAPTERS)
  {
    assert "a"[0] < "b"[0];
  }

  lemma DeclarationsMeet(m: Data)
    requires IsManifest(m) && IsListed(m)
    ensures T.ResourceTerms(m, STORED, ADAPTERS)
  {
    ResourcesMeet(m);
    AgreementMeets(ResourcesIn(m));
    assert T.ResourcesOf(STORED.registered) == [];
  }

  lemma NoRepositories(rs: seq<Resource>)
    requires forall r <- rs :: r.kind == "x" && r.lifetime == "task_owned"
    ensures !T.Retaining(rs, Nothing) && forall r <- rs :: !T.Repository(r) && r.lifetime != "persistent_retain"
  {
    assert |"x"| == 1 && |"registered_worktree"| == 19 && |"standalone_repository"| == 21;
    assert |"task_owned"| == 10 && |"persistent_retain"| == 17;
  }

  lemma AnalysisFinals()
    ensures T.FinalPlan("analysis", false, false)
         == [("session_exit", "harness"), ("endpoint_close", "backend"), ("callsign_release", "callsign")]
  {
  }

  lemma NoneRetained(rs: seq<Resource>)
    requires |rs| == 2 && IsResource(rs[0], "a", "endpoint_close", "backend")
    requires IsResource(rs[1], "b", "worktree_remove", "git")
    ensures !T.Retaining(rs, Nothing)
  {
    NoRepositories(rs);
  }

  lemma NothingRetained(m: Data)
    requires IsManifest(m) && IsListed(m)
    ensures Registered(m) && !Retains(m)
  {
    ResourcesMeet(m);
    NoneRetained(ResourcesIn(m));
  }

  lemma FinalsAsked(m: Data)
    requires IsManifest(m) && IsListed(m)
    ensures Registered(m) && !Retains(m)
    ensures FinalsOf(m)
         == [("session_exit", "harness"), ("endpoint_close", "backend"), ("callsign_release", "callsign")]
  {
    NothingRetained(m);
    AnalysisFinals();
  }

  lemma FinalsMeet(items: seq<Data>, finals: seq<(string, string)>)
    requires finals == [("session_exit", "harness"), ("endpoint_close", "backend"), ("callsign_release", "callsign")]
    requires |items| == 3 && T.FinalItem(items[0], "session_exit", "harness", ADAPTERS)
    requires T.FinalItem(items[1], "endpoint_close", "backend", ADAPTERS)
    requires T.FinalItem(items[2], "callsign_release", "callsign", ADAPTERS)
    ensures T.FinalItems(items, finals, ADAPTERS)
  {
  }

  lemma AllActing(rs: seq<Resource>)
    requires |rs| == 2 && IsResource(rs[0], "a", "endpoint_close", "backend")
    requires IsResource(rs[1], "b", "worktree_remove", "git")
    ensures T.ActingOf(rs, rs)
  {
    NoRepositories(rs);
    assert "a"[0] < "b"[0];
  }

  lemma KindsAre(rs: seq<Resource>, finals: seq<(string, string)>)
    requires |rs| == 2 && rs[0].action == "endpoint_close" && rs[1].action == "worktree_remove"
    requires finals == [("session_exit", "harness"), ("endpoint_close", "backend"), ("callsign_release", "callsign")]
    ensures T.PlanKinds(rs, finals) == ["archive_identity_evidence", "endpoint_close", "worktree_remove",
                                        "session_exit", "endpoint_close", "callsign_release"]
  {
  }

  lemma InOrder(kinds: seq<string>)
    requires kinds == ["archive_identity_evidence", "endpoint_close", "worktree_remove", "session_exit",
                       "endpoint_close", "callsign_release"]
    ensures T.OrderTerms(kinds)
  {
    ReleaseNames();
    assert |"archive_identity_evidence"| == 25 && |"session_exit"| == 12 && |"endpoint_close"| == 14;
    assert |"worktree_remove"| == 15 && |"branch_delete"| == 13 && |"callsign_release"| == 16;
    assert kinds[..1] == ["archive_identity_evidence"];
    assert kinds[..2] == ["archive_identity_evidence", "endpoint_close"];
    assert "branch_delete" !in kinds;
  }

  lemma OrderMeets(m: Data)
    requires IsManifest(m) && IsListed(m)
    ensures Registered(m) && OrderedActing(m, ResourcesIn(m))
  {
    ResourcesMeet(m);
    FinalsAsked(m);
    AllActing(ResourcesIn(m));
    KindsAre(ResourcesIn(m), FinalsOf(m));
    InOrder(T.PlanKinds(ResourcesIn(m), FinalsOf(m)));
  }

  lemma PreparedMeets(m: Data)
    requires IsManifest(m) && IsListed(m)
    ensures Prepared(m, STORED, ADAPTERS)
  {
    OwnerMeets(m);
    PolicyMeets(m);
    DeclarationsMeet(m);
    FinalsAsked(m);
    NothingKept(m);
  }

  lemma Accepted(m: Data)
    requires IsManifest(m) && IsListed(m)
    ensures Acceptable(m, STORED, ADAPTERS)
  {
    PreparedMeets(m);
    FinalsAsked(m);
    FinalsMeet(T.FinalListed(m), FinalsOf(m));
    OrderMeets(m);
  }

  /** The manifest gets a plan in which the worktree is removed, and nothing has proven it clean. */
  lemma UnprovenRemoval(operation: string) returns (actions: seq<Action>)
    ensures Planned(MANIFEST, operation, STORED, ADAPTERS, actions)
    ensures exists a <- actions :: a.kind == "worktree_remove"
    ensures !T.Proves(Get(MANIFEST, "proof"), "git", "clean")
  {
    Fields();
    ProofAndLists();
    Missing();
    ManifestSays(MANIFEST);
    ListsSay(MANIFEST, RESOURCES, FINALS);
    actions := PlanOf(MANIFEST, operation);
  }

  lemma PlanOf(m: Data, operation: string) returns (actions: seq<Action>)
    requires IsManifest(m) && IsListed(m)
    ensures Planned(m, operation, STORED, ADAPTERS, actions)
    ensures exists a <- actions :: a.kind == "worktree_remove"
  {
    Accepted(m);
    PlanAcceptedExactly(m, operation, STORED, ADAPTERS);
    actions := Plan(m, operation, STORED, ADAPTERS).value;
    var acting := PlanContents(m, operation, STORED, ADAPTERS, actions);
    OrderMeets(m);
    ResourcesMeet(m);
    RemovalIsThere(m, actions, acting);
  }

  lemma RemovalIsThere(m: Data, actions: seq<Action>, acting: seq<Resource>)
    requires Registered(m) && T.ActingOf(ResourcesIn(m), acting) && |ResourcesIn(m)| == 2 && |actions| > |acting|
    requires IsResource(ResourcesIn(m)[1], "b", "worktree_remove", "git")
    requires forall i | 0 <= i < |acting| :: T.ResourceItem(actions[1 + i], acting[i])
    ensures exists a <- actions :: a.kind == "worktree_remove"
  {
    NoRepositories([ResourcesIn(m)[1]]);
    var r := ResourcesIn(m)[1];
    assert r in acting;
    var i :| 0 <= i < |acting| && acting[i] == r;
    assert T.ResourceItem(actions[1 + i], acting[i]) && actions[1 + i] in actions;
  }
}
