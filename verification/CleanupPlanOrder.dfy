/**
 The order in which a manifest lists its resources does not matter: a manifest with the
 same resources in another order is accepted as well, with the same plan, except that
 the archive records the resources as the manifest lists them.
 */
module CleanupPlanOrder {
  import opened Prelude
  import opened CleanupPlan
  import opened CleanupPlanLaws
  import opened Permutations

  // ------------------------------------------------------------ permutations

  lemma UniqueIsOnce(rs: seq<Resource>, r: Resource)
    requires UniqueIds(rs)
    ensures multiset(rs)[r] <= 1
  {
    if multiset(rs)[r] >= 2 {
      var i, j := TwoOccurrences(rs, r);
      assert false;
    }
  }

  lemma UniqueIdsPermuted(rs: seq<Resource>, others: seq<Resource>)
    requires UniqueIds(rs) && multiset(rs) == multiset(others)
    ensures UniqueIds(others)
  {
    PermutedMembers(rs, others);
    forall i, j | 0 <= i < j < |others|
      ensures others[i].id != others[j].id
    {
      UniqueIsOnce(rs, others[i]);
      if others[i] == others[j] {
        TwoPlaces(others, i, j);
      } else {
        assert others[i] in others && others[j] in others;
        var p: nat :| p < |rs| && rs[p] == others[i];
        var q: nat :| q < |rs| && rs[q] == others[j];
        assert rs[if p < q then p else q].id != rs[if p < q then q else p].id;
      }
    }
  }

  // ------------------------------------------------------ registered resources

  /** `[register(value) for value in values]`, where one failure fails all. */
  function Each(register: Data -> Result<Resource, Refusal>, vs: seq<Data>): Result<seq<Resource>, Refusal> {
    if vs == [] then Ok([])
    else
      var first, rest := register(vs[0]), Each(register, vs[1..]);
      if first.Err? then Err(first.error) else if rest.Err? then rest else Ok([first.value] + rest.value)
  }

  lemma {:induction false} RegisterAllIsEach(vs: seq<Data>)
    ensures RegisterAll(vs) == Each(Register, vs)
  {
    if vs == [] {
    } else {
      RegisterAllIsEach(vs[1..]);
    }
  }

  lemma {:induction false} EachAppend(register: Data -> Result<Resource, Refusal>, a: seq<Data>, b: seq<Data>)
    ensures Each(register, a + b).Ok? <==> Each(register, a).Ok? && Each(register, b).Ok?
    ensures Each(register, a + b).Ok? ==>
              Each(register, a + b).value == Each(register, a).value + Each(register, b).value
  {
    if a == [] {
      Neutral(b);
    } else {
      EachAppend(register, a[1..], b);
      assert (a + b)[1..] == a[1..] + b;
    }
  }

  lemma EachWithin(register: Data -> Result<Resource, Refusal>, a: seq<Data>, v: Data, b: seq<Data>)
    requires Each(register, a + b).Ok? && register(v).Ok?
    ensures Each(register, a + ([v] + b)).Ok?
    ensures multiset(Each(register, a + ([v] + b)).value) == multiset{register(v).value}
            + multiset(Each(register, a + b).value)
  {
    assert [v][1..] == [];
    EachAppend(register, a, b);
    EachAppend(register, [v], b);
    EachAppend(register, a, [v] + b);
  }

  lemma TakenOut(vs: seq<Data>, a: seq<Data>, b: seq<Data>)
    requires vs != [] && multiset(vs) == multiset(a + ([vs[0]] + b))
    ensures multiset(vs[1..]) == multiset(a + b)
  {
    assert vs == [vs[0]] + vs[1..];
    assert multiset(vs) == multiset{vs[0]} + multiset(vs[1..]);
    assert multiset(a + ([vs[0]] + b)) == multiset{vs[0]} + multiset(a + b);
    assert multiset(vs[1..]) == multiset(vs) - multiset{vs[0]};
    assert multiset(a + b) == multiset(a + ([vs[0]] + b)) - multiset{vs[0]};
  }

  /** In another order the same values give the same resources. */
  lemma {:induction false} EachPermuted(register: Data -> Result<Resource, Refusal>, vs: seq<Data>, ws: seq<Data>)
    requires multiset(vs) == multiset(ws) && Each(register, vs).Ok?
    ensures Each(register, ws).Ok? && multiset(Each(register, ws).value) == multiset(Each(register, vs).value)
    decreases |vs|
  {
    PermutedMembers(vs, ws);
    if vs == [] {
      assert ws == [];
    } else {
      assert vs[0] in vs && vs[0] in ws;
      var j: nat :| j < |ws| && ws[j] == vs[0];
      var a, b := ws[..j], ws[j + 1..];
      assert ws == a + ([vs[0]] + b);
      TakenOut(vs, a, b);
      EachPermuted(register, vs[1..], a + b);
      EachWithin(register, a, vs[0], b);
    }
  }

  lemma RegisterPermuted(vs: seq<Data>, ws: seq<Data>)
    requires multiset(vs) == multiset(ws) && RegisterAll(vs).Ok?
    ensures RegisterAll(ws).Ok? && multiset(RegisterAll(ws).value) == multiset(RegisterAll(vs).value)
  {
    RegisterAllIsEach(vs);
    RegisterAllIsEach(ws);
    EachPermuted(Register, vs, ws);
  }

  // ------------------------------------------------------- the planner's checks

  lemma ObjectionPermuted(rs: seq<Resource>, others: seq<Resource>, registered: seq<Resource>, task: Data, owner: Data,
                          adapters: set<string>)
    requires multiset(rs) == multiset(others) && ResourceObjection(rs, registered, task, owner, adapters).None?
    ensures ResourceObjection(others, registered, task, owner, adapters).None?
  {
    PermutedMembers(rs, others);
    UniqueIdsPermuted(rs, others);
  }

  lemma {:induction false} RepositoriesCount(rs: seq<Resource>, x: Resource)
    ensures multiset(Repositories(rs))[x] == if IsRepository(x) then multiset(rs)[x] else 0
  {
    if rs == [] {
    } else {
      RepositoriesCount(rs[1..], x);
      assert rs == [rs[0]] + rs[1..];
    }
  }

  lemma RepositoriesSame(rs: seq<Resource>, others: seq<Resource>)
    requires multiset(rs) == multiset(others)
    ensures multiset(Repositories(rs)) == multiset(Repositories(others))
  {
    forall x
      ensures multiset(Repositories(rs))[x] == multiset(Repositories(others))[x]
    {
      RepositoriesCount(rs, x);
      RepositoriesCount(others, x);
    }
  }

  lemma RepositoriesPermuted(rs: seq<Resource>, others: seq<Resource>)
    requires multiset(rs) == multiset(others)
    ensures |Repositories(rs)| == |Repositories(others)|
    ensures |Repositories(rs)| == 1 ==> Repositories(rs) == Repositories(others)
  {
    RepositoriesSame(rs, others);
    PermutedMembers(Repositories(rs), Repositories(others));
    if |Repositories(rs)| == 1 {
      assert Repositories(rs)[0] in Repositories(others);
    }
  }

  lemma RetainedPermuted(retention: Data, rs: seq<Resource>, others: seq<Resource>, owner: Data, policy: Policy,
                         proof: Data)
    requires multiset(rs) == multiset(others)
    ensures Retained(retention, others, owner, policy, proof) == Retained(retention, rs, owner, policy, proof)
  {
    RepositoriesPermuted(rs, others);
    PermutedMembers(rs, others);
  }

  // ----------------------------------------------------- order of the resources

  /** Resources in another order are sorted into the same list. */
  lemma SortIgnoresOrder(rs: seq<Resource>, others: seq<Resource>)
    requires UniqueIds(rs) && UniqueIds(others) && multiset(rs) == multiset(others)
    ensures SortedById(rs) == SortedById(others)
  {
    SortAscends(rs);
    SortAscends(others);
    SortKeeps(rs);
    SortKeeps(others);
    AscendingIsUnique(SortedById(rs), SortedById(others));
  }

  lemma FirstReplaced(a: Action, b: Action, rest: seq<Action>)
    requires a.kind == b.kind
    ensures [b] + rest == ([a] + rest)[0 := b] && Kinds([b] + rest) == Kinds([a] + rest)
  {
    assert ([a] + rest)[1..] == rest && ([b] + rest)[1..] == rest;
  }

  lemma ArchiveReplaced(operation: string, a: Action, b: Action, middle: seq<Action>, items: seq<Data>,
                        adapters: set<string>)
    requires a.kind == b.kind
    ensures var x, y := Complete(operation, [a] + middle, items, adapters),
            Complete(operation, [b] + middle, items, adapters);
            && (x.Err? ==> y == x)
            && (x.Ok? ==> y.Ok? && |x.value| > 0 && y.value == x.value[0 := b])
  {
    var tail := FinalActions(operation, 1 + |middle|, items, adapters);
    if tail.Ok? {
      FirstReplaced(a, b, middle + tail.value);
      assert [a] + middle + tail.value == [a] + (middle + tail.value);
      assert [b] + middle + tail.value == [b] + (middle + tail.value);
    }
  }

  /** In another order the same resources give the same actions, except that the archive lists them in theirs. */
  lemma AssembleIgnoresOrder(operation: string, identity: Data, rs: seq<Resource>, others: seq<Resource>,
                         retention: Data, items: seq<Data>, adapters: set<string>)
    requires UniqueIds(rs) && UniqueIds(others) && multiset(rs) == multiset(others)
    ensures var a := Assemble(operation, identity, rs, retention, items, adapters);
            var b := Assemble(operation, identity, others, retention, items, adapters);
            && (a.Err? ==> b == a)
            && (a.Ok? ==>
                  b.Ok? && |a.value| > 0
                  && b.value == a.value[0 := ArchiveAction(operation, identity, others, retention)])
  {
    SortIgnoresOrder(rs, others);
    ArchiveReplaced(operation, ArchiveAction(operation, identity, rs, retention),
                    ArchiveAction(operation, identity, others, retention),
                    ResourceActions(operation, 1, Acting(SortedById(rs))), items, adapters);
  }

  // ---------------------------------------------------------------- manifests

  /** `other` is `manifest` with its resources in another order. */
  predicate Reordered(manifest: Data, other: Data) {
    && manifest.Dict? && other.Dict? && "resources" in manifest.fields && "resources" in other.fields
    && manifest.fields["resources"].List? && other.fields["resources"].List?
    && other.fields == manifest.fields["resources" := other.fields["resources"]]
    && multiset(other.fields["resources"].items) == multiset(manifest.fields["resources"].items)
  }

  lemma ReorderedBack(manifest: Data, other: Data)
    requires Reordered(manifest, other)
    ensures Reordered(other, manifest)
  {
    assert manifest.fields == other.fields["resources" := manifest.fields["resources"]];
  }

  lemma OtherKeysSame(manifest: Data, other: Data, key: string)
    requires Reordered(manifest, other) && key != "resources"
    ensures Get(other, key) == Get(manifest, key)
    ensures key in other.fields <==> key in manifest.fields
    ensures key in manifest.fields ==> other.fields[key] == manifest.fields[key]
  {
  }

  lemma KeysDiffer(key: string)
    requires key in ["task_id", "owner", "identity", "rollover", "pending_decisions_clear", "proof", "legacy_identity",
                     "task_class", "disposition", "repository_retention", "continuation_archive", "final_actions",
                     "expected_cleanup_version"]
    ensures key != "resources"
  {
    assert |"resources"| == 9;
  }

  lemma SameAt(manifest: Data, other: Data, key: string)
    requires Reordered(manifest, other)
    requires key in ["task_id", "owner", "identity", "rollover", "pending_decisions_clear", "proof", "legacy_identity",
                     "task_class", "disposition", "repository_retention", "continuation_archive", "final_actions",
                     "expected_cleanup_version"]
    ensures Get(other, key) == Get(manifest, key)
    ensures key in other.fields <==> key in manifest.fields
    ensures key in manifest.fields ==> other.fields[key] == manifest.fields[key]
  {
    KeysDiffer(key);
    OtherKeysSame(manifest, other, key);
  }

  lemma OwnerSame(manifest: Data, other: Data, canonical: Canonical)
    requires Reordered(manifest, other)
    ensures OwnerObjection(other, canonical) == OwnerObjection(manifest, canonical)
  {
    SameAt(manifest, other, "task_id");
    SameAt(manifest, other, "owner");
    SameAt(manifest, other, "identity");
    SameAt(manifest, other, "rollover");
    SameAt(manifest, other, "pending_decisions_clear");
  }

  lemma RetainsSame(manifest: Data, other: Data)
    requires Reordered(manifest, other)
    ensures RetainsWorktree(other) <==> RetainsWorktree(manifest)
  {
    PermutedMembers(manifest.fields["resources"].items, other.fields["resources"].items);
  }

  lemma PolicySame(manifest: Data, other: Data, canonical: Canonical)
    requires Reordered(manifest, other)
    ensures ManifestPolicy(other, canonical) == ManifestPolicy(manifest, canonical)
  {
    OwnerSame(manifest, other, canonical);
    RetainsSame(manifest, other);
    SameAt(manifest, other, "proof");
    SameAt(manifest, other, "legacy_identity");
    SameAt(manifest, other, "task_class");
    SameAt(manifest, other, "disposition");
    SameAt(manifest, other, "identity");
  }

  lemma DeclaredReordered(manifest: Data, other: Data, canonical: Canonical, adapters: set<string>)
    requires Reordered(manifest, other) && DeclaredResources(manifest, canonical, adapters).Ok?
    ensures DeclaredResources(other, canonical, adapters).Ok?
    ensures multiset(DeclaredResources(other, canonical, adapters).value)
            == multiset(DeclaredResources(manifest, canonical, adapters).value)
  {
    var vs, ws := manifest.fields["resources"].items, other.fields["resources"].items;
    RegisterPermuted(vs, ws);
    SameAt(manifest, other, "task_id");
    SameAt(manifest, other, "owner");
    ObjectionPermuted(RegisterAll(vs).value, RegisterAll(ws).value, RegisterAll(canonical.registered).value,
                      Get(manifest, "task_id"), Get(manifest, "owner"), adapters);
  }

  lemma PreparedReordered(manifest: Data, other: Data, canonical: Canonical, adapters: set<string>)
    requires Reordered(manifest, other) && Prepare(manifest, canonical, adapters).Ok?
    ensures Prepare(other, canonical, adapters).Ok?
    ensures var p, q := Prepare(manifest, canonical, adapters).value, Prepare(other, canonical, adapters).value;
            q.0 == p.0 && q.2 == p.2 && multiset(q.1) == multiset(p.1)
  {
    PolicySame(manifest, other, canonical);
    DeclaredReordered(manifest, other, canonical, adapters);
    SameAt(manifest, other, "owner");
    SameAt(manifest, other, "proof");
    SameAt(manifest, other, "repository_retention");
    SameAt(manifest, other, "continuation_archive");
    RetainedPermuted(Get(manifest, "repository_retention"), DeclaredResources(manifest, canonical, adapters).value,
                     DeclaredResources(other, canonical, adapters).value, Get(manifest, "owner"),
                     ManifestPolicy(manifest, canonical).value, Get(manifest, "proof"));
  }

  lemma TailSame(manifest: Data, other: Data)
    requires Reordered(manifest, other)
    ensures FinalItems(other) == FinalItems(manifest) && (VersionOk(other) <==> VersionOk(manifest))
    ensures Get(other, "continuation_archive") == Get(manifest, "continuation_archive")
    ensures Get(other, "repository_retention") == Get(manifest, "repository_retention")
    ensures Get(other, "identity") == Get(manifest, "identity")
  {
    SameAt(manifest, other, "final_actions");
    SameAt(manifest, other, "expected_cleanup_version");
    SameAt(manifest, other, "continuation_archive");
    SameAt(manifest, other, "repository_retention");
    SameAt(manifest, other, "identity");
  }

  /** An accepted manifest's plan, and that of the same manifest with its resources in another order. */
  lemma AcceptedReordered(manifest: Data, other: Data, operation: string, canonical: Canonical, adapters: set<string>)
    requires Reordered(manifest, other) && Plan(manifest, operation, canonical, adapters).Ok?
    ensures Prepare(other, canonical, adapters).Ok? && Plan(other, operation, canonical, adapters).Ok?
    ensures var a, b := Plan(manifest, operation, canonical, adapters).value,
            Plan(other, operation, canonical, adapters).value;
            && a != [] && b != [] && b == a[0 := b[0]]
            && b[0] == a[0].(intended := b[0].intended)
            && a[0].intended.Archive? && b[0].intended.Archive? && b[0].intended.retention == a[0].intended.retention
            && b[0].intended.resources == PlannedResources(other, canonical, adapters)
  {
    PreparedReordered(manifest, other, canonical, adapters);
    TailSame(manifest, other);
    var p, q := Prepare(manifest, canonical, adapters).value, Prepare(other, canonical, adapters).value;
    var items := FinalItems(manifest).value;
    var retention := if p.2 then Get(manifest, "repository_retention") else Nothing;
    PreparedIsUnique(manifest, canonical, adapters);
    PreparedIsUnique(other, canonical, adapters);
    AssembleIgnoresOrder(operation, Get(manifest, "identity"), p.1, q.1, retention, items, adapters);
    AssembledFirst(operation, Get(manifest, "identity"), p.1, retention, items, adapters);
  }

  lemma AssembledFirst(operation: string, identity: Data, rs: seq<Resource>, retention: Data, items: seq<Data>,
                       adapters: set<string>)
    requires Assemble(operation, identity, rs, retention, items, adapters).Ok?
    ensures var a := Assemble(operation, identity, rs, retention, items, adapters).value;
            a != [] && a[0] == ArchiveAction(operation, identity, rs, retention)
  {
    var archive, middle, tail := AssembledParts(operation, identity, rs, retention, items, adapters);
  }

  /**
   Two manifests that differ only in the order of their resources are both accepted or
   both refused, and their plans are the same except that each archive lists the
   resources as its own manifest does.
   */
  lemma PlanIgnoresOrder(manifest: Data, other: Data, operation: string, canonical: Canonical, adapters: set<string>)
    requires Reordered(manifest, other)
    ensures var a, b := Plan(manifest, operation, canonical, adapters), Plan(other, operation, canonical, adapters);
            && (a.Ok? <==> b.Ok?)
            && (a.Ok? ==>
                  && a.value != [] && b.value != [] && b.value == a.value[0 := b.value[0]]
                  && a.value[0].intended.Archive? && b.value[0].intended.Archive?
                  && b.value[0] == a.value[0].(intended := a.value[0].intended.(resources :=
                      b.value[0].intended.resources))
                  && multiset(b.value[0].intended.resources) == multiset(a.value[0].intended.resources))
  {
    if Plan(manifest, operation, canonical, adapters).Ok? {
      AcceptedReordered(manifest, other, operation, canonical, adapters);
      PreparedReordered(manifest, other, canonical, adapters);
      ReorderedBack(manifest, other);
      AcceptedReordered(other, manifest, operation, canonical, adapters);
    } else if Plan(other, operation, canonical, adapters).Ok? {
      ReorderedBack(manifest, other);
      AcceptedReordered(other, manifest, operation, canonical, adapters);
      assert false;
    }
  }
}
