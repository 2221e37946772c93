/**
 The planner accepts a manifest if and only if it meets the terms of `CleanupTerms`, and
 what its plan then contains, field by field.
 */
module CleanupAccepted {
  import opened Prelude
  import opened CleanupPlan
  import opened CleanupPlanLaws
  import opened CleanupPlanOrder
  import T = CleanupTerms

  // ------------------------------------------------------------------ owner

  lemma DictSize(v: Data)
    ensures Filled(v) <==> T.NonEmptyDict(v)
  {
    if v.Dict? && |v.fields| > 0 {
      var k :| k in v.fields;
    }
  }

  lemma RolesDiffer()
    ensures "shotcaller" != "champion" && "shotcaller" != "hidden-worker" && "shotcaller" != "task"
  {
    assert |"shotcaller"| == 10 && |"champion"| == 8 && |"hidden-worker"| == 13 && |"task"| == 4;
  }

  lemma OwnerExactly(manifest: Data, canonical: Canonical)
    ensures OwnerObjection(manifest, canonical).None? <==> T.OwnerTerms(manifest, canonical)
  {
    DictSize(Get(manifest, "identity"));
    RolesDiffer();
  }

  // ----------------------------------------------------------------- proofs

  lemma {:induction false} KeptHeads(rs: seq<seq<string>>, heads: seq<string>, p: seq<string>)
    ensures p in Without(rs, heads) <==> p in rs && !(p != [] && p[0] in heads)
  {
    if rs == [] {
    } else {
      KeptHeads(rs[1..], heads, p);
      assert rs == [rs[0]] + rs[1..];
    }
  }

  lemma {:induction false} KeptPaths(rs: seq<seq<string>>, paths: seq<seq<string>>, p: seq<string>)
    ensures p in WithoutPaths(rs, paths) <==> p in rs && p !in paths
  {
    if rs == [] {
    } else {
      KeptPaths(rs[1..], paths, p);
      assert rs == [rs[0]] + rs[1..];
    }
  }

  /** What a class of task needs before its disposition is looked at. */
  predicate NeededByClass(class_: string, p: seq<string>) {
    || p == ["identity", "exact"] || p == ["endpoint", "terminal_or_idle"]
    || (class_ != "analysis"
        && (p == ["git", "exact_registration"] || p == ["git", "clean"] || p == ["git", "no_unpublished"]))
    || ((class_ == "pr_ci" || class_ == "deployed_service")
        && (p == ["publication", "exact_head"] || p == ["publication", "ci_green"]
            || p == ["publication", "integrated"]))
    || (class_ == "deployed_service" && (p == ["deployment", "exact_revision"] || p == ["deployment", "smoke_passed"]))
  }

  lemma ClassNeeds(class_: string, p: seq<string>)
    ensures p in Requirements(class_) <==> NeededByClass(class_, p)
  {
  }

  lemma AreasDiffer()
    ensures "git" != "publication" && "git" != "deployment" && "identity" != "publication" && "identity" != "deployment"
    ensures "endpoint" != "publication" && "endpoint" != "deployment" && "deployment" != "publication"
  {
    assert |"git"| == 3 && |"identity"| == 8 && |"endpoint"| == 8 && |"deployment"| == 10 && |"publication"| == 11;
  }

  lemma GitGatesDiffer()
    ensures "exact_registration" != "clean" && "exact_registration" != "no_unpublished"
  {
    assert |"exact_registration"| == 18 && |"clean"| == 5 && |"no_unpublished"| == 14;
  }

  lemma DispositionsDiffer()
    ensures "completed" != "rejected" && "completed" != "cancelled" && "completed" != "failed"
    ensures "failed" != "rejected" && "failed" != "cancelled"
  {
    assert |"rejected"| == 8 && |"failed"| == 6 && |"cancelled"| == 9;
    assert "completed"[1] == 'o' && "cancelled"[1] == 'a';
  }

  /** The requirements of a task with a worktree to keep. */
  lemma RetainedNeeds(class_: string, p: seq<string>)
    requires class_ == "pr_ci" || class_ == "deployed_service"
    ensures p in Without(WithoutPaths(Requirements(class_), [["git", "clean"], ["git", "no_unpublished"]]),
                         ["publication"])
                 + [["acceptance", "required_gates_complete"], ["release", "required_gates_complete"]]
       <==> T.Needed(class_, "completed", true, p)
  {
    var paths := [["git", "clean"], ["git", "no_unpublished"]];
    ClassNeeds(class_, p);
    KeptPaths(Requirements(class_), paths, p);
    KeptHeads(WithoutPaths(Requirements(class_), paths), ["publication"], p);
    AreasDiffer();
    GitGatesDiffer();
    DispositionsDiffer();
  }

  /** The requirements of a task that ends without completion. */
  lemma EndedNeeds(class_: string, p: seq<string>)
    ensures p in Without(Requirements(class_), ["publication", "deployment"]) <==>
              NeededByClass(class_, p) && p[0] != "publication" && p[0] != "deployment"
  {
    ClassNeeds(class_, p);
    KeptHeads(Requirements(class_), ["publication", "deployment"], p);
  }

  lemma FailedNeeds(class_: string, p: seq<string>)
    ensures p in Without(Requirements(class_), ["publication", "deployment"]) + [["failure", "preserved"]]
       <==> T.Needed(class_, "failed", false, p)
  {
    EndedNeeds(class_, p);
    AreasDiffer();
    DispositionsDiffer();
  }

  lemma DecidedNeeds(class_: string, disposition: string, p: seq<string>)
    requires disposition == "rejected" || disposition == "cancelled"
    ensures p in Without(Requirements(class_), ["publication", "deployment"]) + [["decision", "explicit"]]
       <==> T.Needed(class_, disposition, false, p)
  {
    EndedNeeds(class_, p);
    AreasDiffer();
    DispositionsDiffer();
  }

  lemma CompletedNeeds(class_: string, p: seq<string>)
    ensures p in Requirements(class_) <==> T.Needed(class_, "completed", false, p)
  {
    ClassNeeds(class_, p);
    DispositionsDiffer();
  }

  lemma RequirementsExactly(class_: string, disposition: string, retains: bool, p: seq<string>)
    requires T.ClassTerms(class_, disposition, retains)
    ensures SelectPolicy(class_, disposition, retains).Ok?
    ensures p in SelectPolicy(class_, disposition, retains).value.requirements
       <==> T.Needed(class_, disposition, retains, p)
  {
    DispositionsDiffer();
    if retains {
      RetainedNeeds(class_, p);
    } else if disposition == "completed" {
      CompletedNeeds(class_, p);
    } else if disposition == "failed" {
      FailedNeeds(class_, p);
    } else {
      DecidedNeeds(class_, disposition, p);
    }
  }

  lemma PolicyFields(class_: string, disposition: string, retains: bool)
    ensures SelectPolicy(class_, disposition, retains).Ok? <==> T.ClassTerms(class_, disposition, retains)
    ensures SelectPolicy(class_, disposition, retains).Ok? ==>
              var policy := SelectPolicy(class_, disposition, retains).value;
              policy.taskClass == class_ && policy.disposition == disposition && policy.retains == retains
  {
  }

  lemma ProvenTwice(proof: Data, area: string, gate: string)
    ensures Proven(proof, [area, gate]) <==> T.Proves(proof, area, gate)
  {
    assert [area, gate][1..] == [gate] && [gate][1..] == [];
    if proof.Dict? && area in proof.fields {
      assert Proven(proof, [area, gate]) <==> Proven(proof.fields[area], [gate]);
      assert proof.fields[area].Dict? && gate in proof.fields[area].fields ==>
          (Proven(proof.fields[area], [gate]) <==> Proven(proof.fields[area].fields[gate], []));
    }
  }

  lemma NeededIsPath(class_: string, disposition: string, retains: bool, p: seq<string>)
    requires T.Needed(class_, disposition, retains, p)
    ensures |p| == 2 && p == [p[0], p[1]]
  {
  }

  lemma ProofsExactly(class_: string, disposition: string, retains: bool, proof: Data)
    requires T.ClassTerms(class_, disposition, retains) && proof.Dict?
    ensures SelectPolicy(class_, disposition, retains).Ok?
    ensures (forall p <- SelectPolicy(class_, disposition, retains).value.requirements :: Proven(proof, p))
       <==> T.ProofTerms(class_, disposition, retains, proof)
  {
    PolicyFields(class_, disposition, retains);
    var requirements := SelectPolicy(class_, disposition, retains).value.requirements;
    if forall p <- requirements :: Proven(proof, p) {
      forall area: string, gate: string | T.Needed(class_, disposition, retains, [area, gate])
        ensures T.Proves(proof, area, gate)
      {
        RequirementsExactly(class_, disposition, retains, [area, gate]);
        ProvenTwice(proof, area, gate);
      }
    }
    if T.ProofTerms(class_, disposition, retains, proof) {
      forall p | p in requirements
        ensures Proven(proof, p)
      {
        RequirementsExactly(class_, disposition, retains, p);
        NeededIsPath(class_, disposition, retains, p);
        ProvenTwice(proof, p[0], p[1]);
      }
    }
  }

  /** The stages of the policy's choice. */
  lemma PolicyStages(manifest: Data, canonical: Canonical, owned: bool, policy: Result<Policy, Refusal>)
    requires owned == OwnerObjection(manifest, canonical).None?
    requires policy == SelectPolicy(TextOf(Get(manifest, "task_class")), TextOf(Get(manifest, "disposition")),
                                    RetainsWorktree(manifest))
    ensures var proof, legacy := Get(manifest, "proof"), Get(manifest, "legacy_identity");
            ManifestPolicy(manifest, canonical).Ok? <==>
              && owned && policy.Ok? && proof.Dict? && (forall p <- policy.value.requirements :: Proven(proof, p))
              && (legacy == Nothing || legacy == Get(manifest, "identity"))
    ensures ManifestPolicy(manifest, canonical).Ok? ==> ManifestPolicy(manifest, canonical) == policy
  {
  }

  lemma SameClass(manifest: Data)
    ensures TextOf(Get(manifest, "task_class")) == T.ClassOf(manifest)
    ensures TextOf(Get(manifest, "disposition")) == T.DispositionOf(manifest)
    ensures RetainsWorktree(manifest) == T.KeepsWorktree(manifest)
  {
  }

  lemma PolicyExactly(manifest: Data, canonical: Canonical)
    ensures ManifestPolicy(manifest, canonical).Ok? <==> T.OwnerTerms(manifest, canonical) && T.PolicyTerms(manifest)
    ensures ManifestPolicy(manifest, canonical).Ok? ==>
              var policy := ManifestPolicy(manifest, canonical).value;
              policy.taskClass == T.ClassOf(manifest) && policy.disposition == T.DispositionOf(manifest)
              && policy.retains == T.KeepsWorktree(manifest)
  {
    var class_, disposition, retains := T.ClassOf(manifest), T.DispositionOf(manifest), T.KeepsWorktree(manifest);
    var policy := SelectPolicy(class_, disposition, retains);
    SameClass(manifest);
    OwnerExactly(manifest, canonical);
    PolicyStages(manifest, canonical, T.OwnerTerms(manifest, canonical), policy);
    PolicyFields(class_, disposition, retains);
    if policy.Ok? && Get(manifest, "proof").Dict? {
      ProofsExactly(class_, disposition, retains, Get(manifest, "proof"));
    }
  }

  // -------------------------------------------------------------- resources

  lemma ExactExactly(v: Data)
    ensures Exact(v) <==> T.ExactText(v)
  {
    if v.Text? {
      StripFixpoint(v.text);
    }
  }

  lemma ExactsExactly(v: Data)
    ensures T.ExactTexts(v) <==>
              && Exact(Get(v, "resource_id")) && Exact(Get(v, "task_id")) && Exact(Get(v, "owner_id"))
              && Exact(Get(v, "owner_role")) && Exact(Get(v, "resource_type")) && Exact(Get(v, "cleanup_action"))
              && Exact(Get(v, "adapter_kind")) && Exact(Get(v, "applicability_reason"))
  {
    ExactExactly(Get(v, "resource_id"));
    ExactExactly(Get(v, "task_id"));
    ExactExactly(Get(v, "owner_id"));
    ExactExactly(Get(v, "owner_role"));
    ExactExactly(Get(v, "resource_type"));
    ExactExactly(Get(v, "cleanup_action"));
    ExactExactly(Get(v, "adapter_kind"));
    ExactExactly(Get(v, "applicability_reason"));
  }

  lemma ExactIsText(v: Data)
    requires Exact(v)
    ensures v.Text?
  {
  }

  /** A registration is accepted exactly on its terms, and says what it says. */
  lemma RegisterExactly(v: Data)
    ensures Register(v).Ok? <==> T.RegistrationTerms(v)
    ensures T.RegistrationTerms(v) ==> Register(v) == Ok(T.ResourceOf(v))
  {
    ExactsExactly(v);
    DictSize(Get(v, "expected_identity"));
    RolesDiffer();
  }

  lemma {:induction false} EachExactly(register: Data -> Result<Resource, Refusal>, vs: seq<Data>)
    ensures Each(register, vs).Ok? <==> forall v <- vs :: register(v).Ok?
    ensures Each(register, vs).Ok? ==>
              |Each(register, vs).value| == |vs|
              && forall i | 0 <= i < |vs| :: register(vs[i]) == Ok(Each(register, vs).value[i])
  {
    if vs == [] {
    } else {
      EachExactly(register, vs[1..]);
      assert vs == [vs[0]] + vs[1..];
    }
  }

  lemma RegisterAllExactly(vs: seq<Data>)
    ensures RegisterAll(vs).Ok? <==> forall v <- vs :: T.RegistrationTerms(v)
    ensures (forall v <- vs :: T.RegistrationTerms(v)) ==> RegisterAll(vs) == Ok(T.ResourcesOf(vs))
  {
    RegisterAllIsEach(vs);
    EachExactly(Register, vs);
    forall v | v in vs
      ensures Register(v).Ok? <==> T.RegistrationTerms(v)
      ensures T.RegistrationTerms(v) ==> Register(v) == Ok(T.ResourceOf(v))
    {
      RegisterExactly(v);
    }
    if forall v <- vs :: T.RegistrationTerms(v) {
      SameResources(RegisterAll(vs).value, vs);
    }
  }

  lemma SameResources(rs: seq<Resource>, vs: seq<Data>)
    requires forall v <- vs :: T.RegistrationTerms(v)
    requires |rs| == |vs| && forall i | 0 <= i < |vs| :: T.ResourceOf(vs[i]) == rs[i]
    ensures rs == T.ResourcesOf(vs)
  {
  }

  lemma AgreementExactly(rs: seq<Resource>, registered: seq<Resource>, task: Data, owner: Data, adapters: set<string>)
    ensures ResourceObjection(rs, registered, task, owner, adapters).None?
       <==> T.AgreementTerms(rs, registered, task, Get(owner, "id"), adapters)
  {
    assert forall r :: r in rs + registered <==> r in rs || r in registered;
  }

  lemma ValuesExactly(manifest: Data)
    requires manifest.Dict?
    ensures ResourceValues(manifest).Ok? <==> T.ListTerms(manifest, "resources")
    ensures ResourceValues(manifest).Ok? ==> ResourceValues(manifest).value == T.Listed(manifest)
  {
  }

  lemma DeclaredIs(manifest: Data, canonical: Canonical, adapters: set<string>, values: seq<Data>)
    requires ResourceValues(manifest) == Ok(values)
    ensures var rs, registered := RegisterAll(values), RegisterAll(canonical.registered);
            && (DeclaredResources(manifest, canonical, adapters).Ok? <==>
                  && rs.Ok? && registered.Ok?
                  && ResourceObjection(rs.value, registered.value, Get(manifest, "task_id"), Get(manifest, "owner"),
                                       adapters).None?)
            && (DeclaredResources(manifest, canonical, adapters).Ok? ==>
                  DeclaredResources(manifest, canonical, adapters) == rs)
  {
  }

  lemma DeclaredExactly(manifest: Data, canonical: Canonical, adapters: set<string>)
    requires manifest.Dict?
    ensures DeclaredResources(manifest, canonical, adapters).Ok? <==> T.ResourceTerms(manifest, canonical, adapters)
    ensures T.ResourceTerms(manifest, canonical, adapters) ==>
              DeclaredResources(manifest, canonical, adapters) == Ok(T.ResourcesOf(T.Listed(manifest)))
  {
    ValuesExactly(manifest);
    if T.ListTerms(manifest, "resources") {
      var values := T.Listed(manifest);
      DeclaredIs(manifest, canonical, adapters, values);
      RegisterAllExactly(values);
      RegisterAllExactly(canonical.registered);
      if (forall v <- values :: T.RegistrationTerms(v)) && forall v <- canonical.registered :: T.RegistrationTerms(v) {
        AgreementExactly(T.ResourcesOf(values), T.ResourcesOf(canonical.registered), Get(manifest, "task_id"),
                         Get(manifest, "owner"), adapters);
      }
    }
  }

  // -------------------------------------------------------------- retention

  lemma {:induction false} NoRepository(rs: seq<Resource>)
    ensures Repositories(rs) == [] <==> forall r <- rs :: !T.Repository(r)
  {
    if rs == [] {
    } else {
      NoRepository(rs[1..]);
      assert rs == [rs[0]] + rs[1..] && rs[0] in rs;
      if IsRepository(rs[0]) {
        assert Repositories(rs)[0] == rs[0];
      } else {
        assert Repositories(rs) == Repositories(rs[1..]);
      }
    }
  }

  lemma {:induction false} OneRepository(rs: seq<Resource>, i: nat)
    requires T.OnlyRepository(rs, i)
    ensures Repositories(rs) == [rs[i]]
  {
    var rest := rs[1..];
    assert forall j | 0 <= j < |rest| :: rest[j] == rs[j + 1];
    if i == 0 {
      NoRepository(rest);
    } else {
      assert T.OnlyRepository(rest, i - 1);
      OneRepository(rest, i - 1);
    }
  }

  lemma {:induction false} FindRepository(rs: seq<Resource>) returns (i: nat)
    requires |Repositories(rs)| == 1
    ensures T.OnlyRepository(rs, i)
  {
    var rest := rs[1..];
    assert forall j | 0 < j < |rs| :: rs[j] == rest[j - 1];
    if IsRepository(rs[0]) {
      NoRepository(rest);
      i := 0;
    } else {
      i := FindRepository(rest);
      i := i + 1;
    }
  }

  lemma KeysExactly(keys: set<string>)
    ensures var base := {"repository", "worktree", "branch", "head", "snapshot_sha256"};
            base <= keys <= base + {"assigned_branch"}
            <==> keys == if "assigned_branch" in keys then base + {"assigned_branch"} else base
  {
  }

  lemma HexExactly(s: string)
    ensures Sha256(s) <==> T.LowerHex64(s)
  {
    assert forall i | 0 <= i < |s| :: s[i] in s;
  }

  lemma WorktreeExactly(r: Resource, policy: Policy)
    requires policy.retains
    ensures RetainedIdentity(r, policy) <==> T.WorktreeIdentity(r)
  {
    var base := {"repository", "worktree", "branch", "head", "snapshot_sha256"};
    assert base + {"assigned_branch"}
        == {"repository", "worktree", "branch", "head", "snapshot_sha256", "assigned_branch"};
    KeysExactly(r.expected.Keys);
    if "snapshot_sha256" in r.expected && r.expected["snapshot_sha256"].Text? {
      HexExactly(r.expected["snapshot_sha256"].text);
    }
    assert AllTexts(r.expected) <==> T.FilledTexts(r.expected);
    KindsDiffer();
  }

  lemma KindsDiffer()
    ensures "standalone_repository" != "registered_worktree"
  {
    assert |"standalone_repository"| == 21 && |"registered_worktree"| == 19;
  }

  lemma CloneExactly(r: Resource, policy: Policy)
    requires !policy.retains
    ensures RetainedIdentity(r, policy) <==> T.CloneIdentity(r)
  {
    assert AllTexts(r.expected) <==> T.FilledTexts(r.expected);
    if "base_ref" in r.expected && r.expected["base_ref"].Text? {
      var text := r.expected["base_ref"].text;
      assert OccursAt(text, 0, "refs/remotes/") <==> "refs/remotes/" <= text;
    }
  }

  lemma RetentionExactly(manifest: Data, rs: seq<Resource>, policy: Policy)
    ensures var retention, owner, proof := Get(manifest, "repository_retention"), Get(manifest, "owner"),
                                           Get(manifest, "proof");
            && (Retained(retention, rs, owner, policy, proof).Ok? <==>
                  T.RetentionTerms(rs, retention, owner, policy.taskClass, policy.disposition, proof, policy.retains))
            && (Retained(retention, rs, owner, policy, proof).Ok? ==>
                  (Retained(retention, rs, owner, policy, proof).value.Some? <==> T.Retaining(rs, retention)))
  {
    var retention, owner := Get(manifest, "repository_retention"), Get(manifest, "owner");
    var proof := Get(manifest, "proof");
    NoRepository(rs);
    if !T.Retaining(rs, retention) {
    } else if |Repositories(rs)| == 1 {
      var i := FindRepository(rs);
      OneRepository(rs, i);
      OnlyOneIndex(rs, i);
      RetainedExactly(retention, rs, i, owner, policy, proof);
    } else if i: nat :| i < |rs| && T.OnlyRepository(rs, i) {
      OneRepository(rs, i);
      assert false;
    }
  }

  lemma OnlyOneIndex(rs: seq<Resource>, i: nat)
    requires T.OnlyRepository(rs, i)
    ensures forall j: nat :: T.OnlyRepository(rs, j) <==> j == i
  {
  }

  /** What retention asks apart from the identity of the repository. */
  predicate RetentionAsked(retention: Data, rs: seq<Resource>, r: Resource, owner: Data, policy: Policy, proof: Data) {
    && retention.Dict? && retention.fields.Keys == {"resource_id", "reason", "acceptance_receipt", "release_receipt"}
    && AllTexts(retention.fields) && Text(r.id) == retention.fields["resource_id"]
    && Get(owner, "role") == Text("champion") && Get(owner, "persistent") == Flag(false)
    && policy.disposition == "completed" && (policy.taskClass == "pr_ci" || policy.taskClass == "deployed_service")
    && T.Proves(proof, "acceptance", "required_gates_complete") && T.Proves(proof, "release", "required_gates_complete")
    && Text(r.owner) == Get(owner, "id") && r.role == "champion" && r.applicable
    && r.lifetime == "persistent_retain" && r.action == "retain" && r.adapter == "retain"
    && forall x <- rs :: x.lifetime != "task_owned"
  }

  lemma EvidenceExactly(retention: Data, owner: Data, policy: Policy, proof: Data)
    ensures RetentionEvidence(retention, owner, policy, proof) <==>
              && retention.Dict?
              && retention.fields.Keys == {"resource_id", "reason", "acceptance_receipt", "release_receipt"}
              && AllTexts(retention.fields)
              && Get(owner, "role") == Text("champion") && Get(owner, "persistent") == Flag(false)
              && policy.disposition == "completed"
              && (policy.taskClass == "pr_ci" || policy.taskClass == "deployed_service")
              && T.Proves(proof, "acceptance", "required_gates_complete")
              && T.Proves(proof, "release", "required_gates_complete")
  {
    ProvenTwice(proof, "acceptance", "required_gates_complete");
    ProvenTwice(proof, "release", "required_gates_complete");
  }

  lemma RetainedUnfold(retention: Data, rs: seq<Resource>, r: Resource, owner: Data, policy: Policy, proof: Data,
                       evidence: bool, identity: bool)
    requires Repositories(rs) == [r]
    requires evidence == RetentionEvidence(retention, owner, policy, proof) && identity == RetainedIdentity(r, policy)
    ensures Retained(retention, rs, owner, policy, proof).Ok? <==>
              && evidence && Text(r.id) == retention.fields["resource_id"] && KeepsOwn(r, owner) && identity
              && forall x <- rs :: x.lifetime != "task_owned"
    ensures Retained(retention, rs, owner, policy, proof).Ok? ==>
              Retained(retention, rs, owner, policy, proof).value == Some(r)
  {
  }

  lemma AskedExactly(retention: Data, rs: seq<Resource>, r: Resource, owner: Data, policy: Policy, proof: Data)
    ensures T.RetainedTerms(rs, r, retention, owner, policy.taskClass, policy.disposition, proof, policy.retains)
       <==> RetentionAsked(retention, rs, r, owner, policy, proof)
            && if policy.retains then T.WorktreeIdentity(r) else T.CloneIdentity(r)
  {
    if retention.Dict? {
      assert AllTexts(retention.fields) <==> T.FilledTexts(retention.fields);
    }
  }

  lemma RetainedExactly(retention: Data, rs: seq<Resource>, i: nat, owner: Data, policy: Policy, proof: Data)
    requires i < |rs| && Repositories(rs) == [rs[i]]
    ensures Retained(retention, rs, owner, policy, proof).Ok? <==>
              T.RetainedTerms(rs, rs[i], retention, owner, policy.taskClass, policy.disposition, proof, policy.retains)
    ensures Retained(retention, rs, owner, policy, proof).Ok? ==>
              Retained(retention, rs, owner, policy, proof).value == Some(rs[i])
  {
    if policy.retains {
      WorktreeExactly(rs[i], policy);
    } else {
      CloneExactly(rs[i], policy);
    }
    EvidenceExactly(retention, owner, policy, proof);
    RetainedUnfold(retention, rs, rs[i], owner, policy, proof, RetentionEvidence(retention, owner, policy, proof),
                   RetainedIdentity(rs[i], policy));
    AskedExactly(retention, rs, rs[i], owner, policy, proof);
  }

  // ------------------------------------------------------ issue-coupled close

  lemma CloseExactly(continuation: Data, owner: Data, policy: Policy, proof: Data)
    ensures ContinuationObjection(continuation, owner, policy, proof).None?
       <==> T.CloseTerms(continuation, owner, policy.taskClass, policy.disposition, proof)
  {
  }

  /** Everything before the final actions. */
  lemma PreparedExactly(manifest: Data, canonical: Canonical, adapters: set<string>)
    requires manifest.Dict?
    ensures Prepare(manifest, canonical, adapters).Ok? <==> Prepared(manifest, canonical, adapters)
    ensures Prepare(manifest, canonical, adapters).Ok? ==>
              var p, rs := Prepare(manifest, canonical, adapters).value, T.ResourcesOf(T.Listed(manifest));
              && p.0.taskClass == T.ClassOf(manifest) && p.1 == rs
              && (p.2 <==> T.Retaining(rs, Get(manifest, "repository_retention")))
  {
    PolicyExactly(manifest, canonical);
    DeclaredExactly(manifest, canonical, adapters);
    if ManifestPolicy(manifest, canonical).Ok? && DeclaredResources(manifest, canonical, adapters).Ok? {
      var policy := ManifestPolicy(manifest, canonical).value;
      RetentionExactly(manifest, T.ResourcesOf(T.Listed(manifest)), policy);
      CloseExactly(Get(manifest, "continuation_archive"), Get(manifest, "owner"), policy, Get(manifest, "proof"));
    }
  }

  ghost predicate Prepared(manifest: Data, canonical: Canonical, adapters: set<string>) {
    var owner, proof := Get(manifest, "owner"), Get(manifest, "proof");
    var class_, disposition := T.ClassOf(manifest), T.DispositionOf(manifest);
    && T.OwnerTerms(manifest, canonical) && T.PolicyTerms(manifest) && T.ResourceTerms(manifest, canonical, adapters)
    && T.RetentionTerms(T.ResourcesOf(T.Listed(manifest)), Get(manifest, "repository_retention"), owner, class_,
                        disposition, proof, T.KeepsWorktree(manifest))
    && T.CloseTerms(Get(manifest, "continuation_archive"), owner, class_, disposition, proof)
  }

  // ----------------------------------------------------------- final actions

  function KindsOf(plan: seq<(string, string)>): seq<string> {
    seq(|plan|, i requires 0 <= i < |plan| => plan[i].0)
  }

  lemma FinalKindsPlanned(policy: Policy, retained: bool, close: bool)
    ensures RequiredFinal(policy, retained, close) == KindsOf(T.FinalPlan(policy.taskClass, retained, close))
  {
  }

  lemma AdapterPlanned(class_: string, retained: bool, close: bool, i: nat)
    requires i < |T.FinalPlan(class_, retained, close)|
    ensures var (kind, adapter) := T.FinalPlan(class_, retained, close)[i];
            FinalAdapter(kind) == adapter && kind in FINAL_ACTION_KINDS
  {
    var plan := T.FinalPlan(class_, retained, close);
    assert plan[i] in plan;
    assert plan[i] in [("session_exit", "harness"), ("endpoint_close", "backend"), ("worktree_remove", "git"),
                       ("branch_delete", "git"), ("callsign_release", "callsign"), ("issue_close", "issue")];
    FinalAdapters();
  }

  lemma FinalAdapters()
    ensures FinalAdapter("session_exit") == "harness" && FinalAdapter("endpoint_close") == "backend"
    ensures FinalAdapter("worktree_remove") == "git" && FinalAdapter("branch_delete") == "git"
    ensures FinalAdapter("callsign_release") == "callsign" && FinalAdapter("issue_close") == "issue"
    ensures FINAL_ACTION_KINDS == ["session_exit", "endpoint_close", "worktree_remove", "branch_delete",
                                   "callsign_release", "issue_close"]
  {
    assert "issue_close"[0] == 'i';
  }

  lemma FinalItemExactly(operation: string, n: nat, item: Data, adapters: set<string>, kind: string, adapter: string)
    requires FinalAdapter(kind) == adapter && kind in FINAL_ACTION_KINDS
    ensures FinalAction(operation, n, item, adapters).Ok? && Get(item, "action_kind") == Text(kind)
       <==> T.FinalItem(item, kind, adapter, adapters)
    ensures T.FinalItem(item, kind, adapter, adapters) ==>
              FinalAction(operation, n, item, adapters) == Ok(FinalOf(operation, n, item, kind, adapter))
  {
    DictSize(Get(item, "expected_identity"));
    DictSize(Get(item, "intended_state"));
  }

  /** The action that a final item of the manifest becomes. */
  function FinalOf(operation: string, n: nat, item: Data, kind: string, adapter: string): Action
    requires Get(item, "expected_identity").Dict? && Get(item, "intended_state").Dict?
  {
    Action(ActionId(operation, n), n, kind, adapter, Get(item, "resource_id"), Get(item, "expected_identity").fields,
           Intent(Get(item, "intended_state").fields))
  }

  /** A list of final actions with their own adapters. */
  predicate OwnAdapters(plan: seq<(string, string)>) {
    forall i | 0 <= i < |plan| :: FinalAdapter(plan[i].0) == plan[i].1 && plan[i].0 in FINAL_ACTION_KINDS
  }

  /** One action for each item, numbered on, where one failure fails all. */
  function EachFrom(act: (nat, Data) -> Result<Action, Refusal>, n: nat, items: seq<Data>): Result<seq<Action>, Refusal>
    decreases items
  {
    if items == [] then Ok([])
    else
      var first, rest := act(n, items[0]), EachFrom(act, n + 1, items[1..]);
      if first.Err? then Err(first.error) else if rest.Err? then rest else Ok([first.value] + rest.value)
  }

  lemma {:induction false} EachFromAt(act: (nat, Data) -> Result<Action, Refusal>, n: nat, items: seq<Data>, i: nat)
    requires EachFrom(act, n, items).Ok? && i < |items|
    ensures |EachFrom(act, n, items).value| == |items|
    ensures act(n + i, items[i]) == Ok(EachFrom(act, n, items).value[i])
    decreases items
  {
    if |items| == 1 {
      assert items[1..] == [];
    } else {
      EachFromAt(act, n + 1, items[1..], if i == 0 then 0 else i - 1);
    }
  }

  lemma {:induction false} FinalsAreEach(operation: string, n: nat, items: seq<Data>, adapters: set<string>)
    ensures FinalActions(operation, n, items, adapters)
         == EachFrom((m: nat, item: Data) => FinalAction(operation, m, item, adapters), n, items)
    decreases items
  {
    if items == [] {
    } else {
      FinalsAreEach(operation, n + 1, items[1..], adapters);
    }
  }

  lemma FinalAt(operation: string, n: nat, items: seq<Data>, adapters: set<string>, i: nat)
    requires FinalActions(operation, n, items, adapters).Ok? && i < |items|
    ensures |FinalActions(operation, n, items, adapters).value| == |items|
    ensures FinalAction(operation, n + i, items[i], adapters)
         == Ok(FinalActions(operation, n, items, adapters).value[i])
  {
    FinalsAreEach(operation, n, items, adapters);
    EachFromAt((m: nat, item: Data) => FinalAction(operation, m, item, adapters), n, items, i);
  }

  lemma {:induction false} ItemsGiveFinals(operation: string, n: nat, items: seq<Data>, plan: seq<(string, string)>,
                                           adapters: set<string>)
    requires OwnAdapters(plan) && T.FinalItems(items, plan, adapters)
    ensures FinalActions(operation, n, items, adapters).Ok? && FinalKinds(items) == Texts(KindsOf(plan))
    decreases items
  {
    if items == [] {
    } else {
      ItemsGiveFinals(operation, n + 1, items[1..], plan[1..], adapters);
      FinalItemExactly(operation, n, items[0], adapters, plan[0].0, plan[0].1);
      assert KindsOf(plan)[1..] == KindsOf(plan[1..]);
    }
  }

  lemma FinalsGiveItems(operation: string, n: nat, items: seq<Data>, plan: seq<(string, string)>, adapters: set<string>)
    requires OwnAdapters(plan)
    requires FinalActions(operation, n, items, adapters).Ok? && FinalKinds(items) == Texts(KindsOf(plan))
    ensures T.FinalItems(items, plan, adapters)
  {
    var actions := FinalActions(operation, n, items, adapters).value;
    FinalsNumbered(operation, n, items, adapters);
    TextsInjective(Kinds(actions), KindsOf(plan));
    KindsLength(actions);
    forall i | 0 <= i < |plan|
      ensures T.FinalItem(items[i], plan[i].0, plan[i].1, adapters)
    {
      FinalAt(operation, n, items, adapters, i);
      FinalNumbered(operation, n + i, items[i], adapters);
      KindsAt(actions, i);
      FinalItemExactly(operation, n + i, items[i], adapters, plan[i].0, plan[i].1);
    }
  }

  lemma {:induction false} KindsLength(actions: seq<Action>)
    ensures |Kinds(actions)| == |actions|
  {
    if actions == [] {
    } else {
      KindsLength(actions[1..]);
    }
  }

  // ------------------------------------------------------------------- order

  lemma {:induction false} IndexIsFirst(kinds: seq<string>, kind: string)
    requires kind in kinds
    ensures IndexOf(kinds, kind) < |kinds| && kinds[IndexOf(kinds, kind)] == kind
    ensures kind !in kinds[..IndexOf(kinds, kind)]
  {
    if kinds[0] == kind {
    } else {
      IndexIsFirst(kinds[1..], kind);
      var i := IndexOf(kinds[1..], kind);
      assert kinds[..i + 1] == [kinds[0]] + kinds[1..][..i];
    }
  }

  lemma FirstIsFirst(kinds: seq<string>, kind: string, p: nat)
    requires p < |kinds| && kinds[p] == kind
    ensures IndexOf(kinds, kind) <= p
  {
    IndexIsFirst(kinds, kind);
    var i := IndexOf(kinds, kind);
    assert forall q | 0 <= q < i :: kinds[q] == kinds[..i][q];
  }

  lemma PairExactly(kinds: seq<string>, a: string, b: string)
    requires a != b
    ensures (a in kinds && b in kinds ==> IndexOf(kinds, a) <= IndexOf(kinds, b)) <==> T.OrderedPair(kinds, a, b)
  {
    if a in kinds && b in kinds {
      IndexIsFirst(kinds, a);
      IndexIsFirst(kinds, b);
      var i, j := IndexOf(kinds, a), IndexOf(kinds, b);
      if i <= j {
        assert kinds[..i] == kinds[..j][..i];
        assert kinds[i] == a && b !in kinds[..i];
      } else {
        forall p | 0 <= p < |kinds| && kinds[p] == a
          ensures b in kinds[..p]
        {
          FirstIsFirst(kinds, a, p);
          assert kinds[..p][j] == b;
        }
      }
    }
  }

  lemma ReleaseNames()
    ensures RELEASES == ["endpoint_close", "worktree_remove", "branch_delete", "callsign_release"]
    ensures RELEASES[0] != RELEASES[1] && RELEASES[0] != RELEASES[2] && RELEASES[0] != RELEASES[3]
    ensures RELEASES[1] != RELEASES[2] && RELEASES[1] != RELEASES[3] && RELEASES[2] != RELEASES[3]
  {
    assert |"endpoint_close"| == 14 && |"worktree_remove"| == 15 && |"branch_delete"| == 13;
    assert |"callsign_release"| == 16;
  }

  lemma OrderExactly(kinds: seq<string>)
    ensures ReleasesInOrder(kinds) <==> T.OrderTerms(kinds)
  {
    ReleaseNames();
    PairExactly(kinds, RELEASES[0], RELEASES[1]);
    PairExactly(kinds, RELEASES[0], RELEASES[2]);
    PairExactly(kinds, RELEASES[0], RELEASES[3]);
    PairExactly(kinds, RELEASES[1], RELEASES[2]);
    PairExactly(kinds, RELEASES[1], RELEASES[3]);
    PairExactly(kinds, RELEASES[2], RELEASES[3]);
  }
}
