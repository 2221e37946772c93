/**
 What an accepted cleanup plan looks like, whatever the manifest: numbered actions with
 distinct ids, the archive first, every acting resource once and in id order, the
 policy's final actions last, and nothing removed when a repository is retained.
 */
module CleanupPlanLaws {
  import opened Prelude
  import opened CleanupPlan

  // ------------------------------------------------------------- action ids

  lemma {:induction false} LeadingZero(s: string)
    requires forall k | 0 <= k < |s| :: IsDigit(s[k])
    ensures Numeral("0" + s) == Numeral(s)
  {
    if s == "" {
      assert ("0" + s)[..0] == "";
    } else {
      var n := |s| - 1;
      assert ("0" + s)[..n + 1] == "0" + s[..n];
      LeadingZero(s[..n]);
    }
  }

  lemma PadNumeral(n: nat)
    ensures forall k | 0 <= k < |Pad(n)| :: IsDigit(Pad(n)[k])
    ensures Numeral(Pad(n)) == n
  {
    var d := Decimal(n);
    NumeralOfDecimal(n);
    LeadingZero(d);
    LeadingZero("0" + d);
    assert "00" + d == "0" + ("0" + d);
  }

  /** Actions of one operation with the same id are the same. */
  lemma ActionIdsDistinct(operation: string, m: nat, n: nat)
    requires ActionId(operation, m) == ActionId(operation, n)
    ensures m == n
  {
    assert Pad(m) == ActionId(operation, m)[|operation| + 1..];
    assert Pad(n) == ActionId(operation, n)[|operation| + 1..];
    PadNumeral(m);
    PadNumeral(n);
  }

  predicate Numbered(operation: string, actions: seq<Action>, first: nat) {
    forall i | 0 <= i < |actions| :: actions[i].ordinal == first + i && actions[i].id == ActionId(operation, first + i)
  }

  lemma {:induction false} ResourceAt(operation: string, n: nat, rs: seq<Resource>, i: nat)
    requires i < |rs|
    ensures |ResourceActions(operation, n, rs)| == |rs|
    ensures ResourceActions(operation, n, rs)[i] == ResourceAction(operation, n + i, rs[i])
    decreases rs
  {
    if |rs| == 1 {
      assert rs[1..] == [];
    } else {
      ResourceAt(operation, n + 1, rs[1..], if i == 0 then 0 else i - 1);
      assert ResourceActions(operation, n, rs)
             == [ResourceAction(operation, n, rs[0])] + ResourceActions(operation, n + 1, rs[1..]);
    }
  }

  lemma ResourcesNumbered(operation: string, n: nat, rs: seq<Resource>)
    ensures var actions := ResourceActions(operation, n, rs);
            && |actions| == |rs| && Numbered(operation, actions, n)
            && forall i | 0 <= i < |rs| :: actions[i] == ResourceAction(operation, n + i, rs[i])
  {
    forall i | 0 <= i < |rs|
      ensures |ResourceActions(operation, n, rs)| == |rs|
      ensures ResourceActions(operation, n, rs)[i] == ResourceAction(operation, n + i, rs[i])
    {
      ResourceAt(operation, n, rs, i);
    }
  }

  lemma FinalNumbered(operation: string, n: nat, item: Data, adapters: set<string>)
    requires FinalAction(operation, n, item, adapters).Ok?
    ensures var a := FinalAction(operation, n, item, adapters).value;
            a.ordinal == n && a.id == ActionId(operation, n) && item.Dict? && Get(item, "action_kind") == Text(a.kind)
  {
  }

  lemma FinalsUnfold(operation: string, n: nat, items: seq<Data>, adapters: set<string>,
                     first: Result<Action, Refusal>, rest: Result<seq<Action>, Refusal>)
    requires items != [] && FinalActions(operation, n, items, adapters).Ok?
    requires first == FinalAction(operation, n, items[0], adapters)
    requires rest == FinalActions(operation, n + 1, items[1..], adapters)
    ensures first.Ok? && rest.Ok? && FinalActions(operation, n, items, adapters).value == [first.value] + rest.value
  {
  }

  lemma NumberedCons(operation: string, a: Action, rest: seq<Action>, n: nat)
    requires a.ordinal == n && a.id == ActionId(operation, n) && Numbered(operation, rest, n + 1)
    ensures Numbered(operation, [a] + rest, n) && Kinds([a] + rest) == [a.kind] + Kinds(rest)
    ensures Texts([a.kind] + Kinds(rest)) == [Text(a.kind)] + Texts(Kinds(rest))
  {
    assert ([a] + rest)[1..] == rest;
    assert ([a.kind] + Kinds(rest))[1..] == Kinds(rest);
  }

  lemma {:induction false} FinalsNumbered(operation: string, n: nat, items: seq<Data>, adapters: set<string>)
    requires FinalActions(operation, n, items, adapters).Ok?
    ensures var actions := FinalActions(operation, n, items, adapters).value;
            && |actions| == |items| && Numbered(operation, actions, n)
            && Texts(Kinds(actions)) == FinalKinds(items)
    decreases items
  {
    if items == [] {
    } else {
      var first := FinalAction(operation, n, items[0], adapters);
      var rest := FinalActions(operation, n + 1, items[1..], adapters);
      FinalsUnfold(operation, n, items, adapters, first, rest);
      FinalsNumbered(operation, n + 1, items[1..], adapters);
      FinalNumbered(operation, n, items[0], adapters);
      NumberedCons(operation, first.value, rest.value, n);
    }
  }

  // ------------------------------------------------------------------ sorting

  predicate Ascending(rs: seq<Resource>) {
    forall i, j | 0 <= i < j < |rs| :: StringLess(rs[i].id, rs[j].id)
  }

  lemma {:induction false} InsertKeeps(r: Resource, rs: seq<Resource>)
    ensures multiset(InsertById(r, rs)) == multiset([r] + rs)
  {
    if rs == [] || !StringLess(rs[0].id, r.id) {
    } else {
      InsertKeeps(r, rs[1..]);
      assert rs == [rs[0]] + rs[1..];
    }
  }

  lemma {:induction false} SortKeeps(rs: seq<Resource>)
    ensures multiset(SortedById(rs)) == multiset(rs)
  {
    if rs == [] {
    } else {
      SortKeeps(rs[1..]);
      InsertKeeps(rs[0], SortedById(rs[1..]));
      assert rs == [rs[0]] + rs[1..];
    }
  }

  lemma {:induction false} InsertAscends(r: Resource, rs: seq<Resource>)
    requires Ascending(rs) && forall x <- rs :: x.id != r.id
    ensures Ascending(InsertById(r, rs))
  {
    if rs == [] {
    } else {
      StringLessTotal(rs[0].id, r.id);
      if StringLess(rs[0].id, r.id) {
        InsertAscends(r, rs[1..]);
        InsertKeeps(r, rs[1..]);
        var out := InsertById(r, rs[1..]);
        forall x | x in out
          ensures StringLess(rs[0].id, x.id)
        {
          assert x in multiset([r] + rs[1..]);
        }
      } else {
        forall x | x in rs
          ensures StringLess(r.id, x.id)
        {
          if x != rs[0] {
            StringLessTransitive(r.id, rs[0].id, x.id);
          }
        }
      }
    }
  }

  lemma {:induction false} SortAscends(rs: seq<Resource>)
    requires UniqueIds(rs)
    ensures Ascending(SortedById(rs))
  {
    if rs == [] {
    } else {
      SortAscends(rs[1..]);
      SortKeeps(rs[1..]);
      forall x | x in SortedById(rs[1..])
        ensures x.id != rs[0].id
      {
        assert x in multiset(rs[1..]);
      }
      InsertAscends(rs[0], SortedById(rs[1..]));
    }
  }

  lemma FirstIsLeast(a: seq<Resource>, b: seq<Resource>)
    requires Ascending(a) && Ascending(b) && a != [] && b != [] && a[0] in b && b[0] in a
    ensures a[0] == b[0]
  {
    var i :| 0 <= i < |b| && b[i] == a[0];
    var j :| 0 <= j < |a| && a[j] == b[0];
    StringLessTotal(a[0].id, b[0].id);
  }

  /** There is only one way to put resources in ascending order. */
  lemma {:induction false} AscendingIsUnique(a: seq<Resource>, b: seq<Resource>)
    requires Ascending(a) && Ascending(b) && multiset(a) == multiset(b)
    ensures a == b
  {
    assert |multiset(a)| == |a| && |multiset(b)| == |b|;
    if a == [] {
    } else {
      assert a[0] in multiset(b) && b[0] in multiset(a);
      FirstIsLeast(a, b);
      RestEqual(a, b);
      AscendingIsUnique(a[1..], b[1..]);
      assert a == [a[0]] + a[1..] && b == [b[0]] + b[1..];
    }
  }

  lemma RestEqual(a: seq<Resource>, b: seq<Resource>)
    requires a != [] && b != [] && a[0] == b[0] && multiset(a) == multiset(b)
    ensures multiset(a[1..]) == multiset(b[1..])
  {
    assert a == [a[0]] + a[1..] && b == [b[0]] + b[1..];
    assert multiset(a[1..]) == multiset(a) - multiset{a[0]};
    assert multiset(b[1..]) == multiset(b) - multiset{b[0]};
  }

  lemma {:induction false} ActingOnly(rs: seq<Resource>)
    requires Ascending(rs)
    ensures Ascending(Acting(rs))
    ensures forall r :: r in Acting(rs) <==> r in rs && !PlainlyRetained(r)
  {
    if rs == [] {
    } else {
      ActingOnly(rs[1..]);
      assert rs == [rs[0]] + rs[1..];
      forall x | x in Acting(rs[1..])
        ensures StringLess(rs[0].id, x.id)
      {
        assert x in rs[1..];
      }
    }
  }

  // ---------------------------------------------------------- accepted plans

  /** `actions` is the plan that `plan` makes of a manifest with these resources. */
  predicate Planned(manifest: Data, operation: string, canonical: Canonical, adapters: set<string>,
                    actions: seq<Action>)
  {
    Plan(manifest, operation, canonical, adapters) == Ok(actions)
  }

  function PlannedResources(manifest: Data, canonical: Canonical, adapters: set<string>): seq<Resource>
    requires Prepare(manifest, canonical, adapters).Ok?
  {
    Prepare(manifest, canonical, adapters).value.1
  }

  lemma PreparedIsUnique(manifest: Data, canonical: Canonical, adapters: set<string>)
    requires Prepare(manifest, canonical, adapters).Ok?
    ensures UniqueIds(PlannedResources(manifest, canonical, adapters))
  {
    PreparedIsDeclared(manifest, canonical, adapters);
    DeclaredIsUnique(manifest, canonical, adapters);
  }

  lemma PreparedIsDeclared(manifest: Data, canonical: Canonical, adapters: set<string>)
    requires Prepare(manifest, canonical, adapters).Ok?
    ensures DeclaredResources(manifest, canonical, adapters) == Ok(PlannedResources(manifest, canonical, adapters))
  {
  }

  lemma DeclaredIsUnique(manifest: Data, canonical: Canonical, adapters: set<string>)
    requires DeclaredResources(manifest, canonical, adapters).Ok?
    ensures UniqueIds(DeclaredResources(manifest, canonical, adapters).value)
  {
  }

  lemma {:induction false} TextsInjective(a: seq<string>, b: seq<string>)
    requires Texts(a) == Texts(b)
    ensures a == b
  {
    if a == [] || b == [] {
    } else {
      assert Texts(a)[0] == Texts(b)[0] && Texts(a)[1..] == Texts(b)[1..];
      TextsInjective(a[1..], b[1..]);
      assert a == [a[0]] + a[1..] && b == [b[0]] + b[1..];
    }
  }

  /** The list of actions in its three parts. */
  lemma AssembledParts(operation: string, identity: Data, rs: seq<Resource>, retention: Data, items: seq<Data>,
                       adapters: set<string>)
    returns (archive: Action, middle: seq<Action>, tail: seq<Action>)
    requires Assemble(operation, identity, rs, retention, items, adapters).Ok?
    ensures Assemble(operation, identity, rs, retention, items, adapters).value == [archive] + middle + tail
    ensures archive == ArchiveAction(operation, identity, rs, retention)
    ensures middle == ResourceActions(operation, 1, Acting(SortedById(rs)))
    ensures Numbered(operation, tail, 1 + |middle|) && Texts(Kinds(tail)) == FinalKinds(items)
  {
    archive, middle := ArchiveAction(operation, identity, rs, retention),
        ResourceActions(operation, 1, Acting(SortedById(rs)));
    tail := FinalActions(operation, 1 + |middle|, items, adapters).value;
    FinalsNumbered(operation, 1 + |middle|, items, adapters);
  }

  lemma PartsAreNumbered(operation: string, archive: Action, middle: seq<Action>, tail: seq<Action>)
    requires archive.ordinal == 0 && archive.id == ActionId(operation, 0)
    requires Numbered(operation, middle, 1) && Numbered(operation, tail, 1 + |middle|)
    ensures Numbered(operation, [archive] + middle + tail, 0)
  {
    var actions := [archive] + middle + tail;
    forall i | 0 <= i < |actions|
      ensures actions[i].ordinal == i && actions[i].id == ActionId(operation, i)
    {
      if 0 < i <= |middle| {
        assert actions[i] == middle[i - 1];
      } else if i > |middle| {
        assert actions[i] == tail[i - 1 - |middle|];
      }
    }
  }

  lemma NumberedIsDistinct(operation: string, actions: seq<Action>)
    requires Numbered(operation, actions, 0)
    ensures forall i, j | 0 <= i < j < |actions| :: actions[i].id != actions[j].id
  {
    forall i, j | 0 <= i < j < |actions|
      ensures actions[i].id != actions[j].id
    {
      if actions[i].id == actions[j].id {
        ActionIdsDistinct(operation, i, j);
      }
    }
  }

  /** What an accepted manifest has been found to be. */
  lemma PlanIsAssembled(manifest: Data, operation: string, canonical: Canonical, adapters: set<string>,
                        actions: seq<Action>)
    returns (rs: seq<Resource>, retention: Data, items: seq<Data>)
    requires Planned(manifest, operation, canonical, adapters, actions)
    ensures Prepare(manifest, canonical, adapters).Ok? && rs == PlannedResources(manifest, canonical, adapters)
    ensures var p := Prepare(manifest, canonical, adapters).value;
            FinalKinds(items) == Texts(RequiredFinal(p.0, p.2, Get(manifest, "continuation_archive") != Nothing))
    ensures Assemble(operation, Get(manifest, "identity"), rs, retention, items, adapters) == Ok(actions)
  {
    var p := Prepare(manifest, canonical, adapters).value;
    rs, retention := p.1, if p.2 then Get(manifest, "repository_retention") else Nothing;
    items := FinalItems(manifest).value;
  }

  /** Ordinals count up from 0, and no two actions have the same id. */
  lemma PlanIsNumbered(manifest: Data, operation: string, canonical: Canonical, adapters: set<string>,
                       actions: seq<Action>)
    requires Planned(manifest, operation, canonical, adapters, actions)
    ensures Numbered(operation, actions, 0)
    ensures forall i, j | 0 <= i < j < |actions| :: actions[i].id != actions[j].id
  {
    var rs, retention, items := PlanIsAssembled(manifest, operation, canonical, adapters, actions);
    var archive, middle, tail := AssembledParts(operation, Get(manifest, "identity"), rs, retention, items, adapters);
    ResourcesNumbered(operation, 1, Acting(SortedById(rs)));
    PartsAreNumbered(operation, archive, middle, tail);
    NumberedIsDistinct(operation, actions);
  }

  lemma SortedMembers(rs: seq<Resource>)
    requires UniqueIds(rs)
    ensures Ascending(Acting(SortedById(rs)))
    ensures forall r :: r in Acting(SortedById(rs)) <==> r in rs && !PlainlyRetained(r)
  {
    SortAscends(rs);
    SortKeeps(rs);
    ActingOnly(SortedById(rs));
    forall r
      ensures r in SortedById(rs) <==> r in rs
    {
      assert r in multiset(SortedById(rs)) <==> r in multiset(rs);
    }
  }

  lemma PartsInPlace(archive: Action, middle: seq<Action>, tail: seq<Action>)
    ensures var actions := [archive] + middle + tail;
            && actions[0] == archive && actions[1 + |middle|..] == tail
            && forall i | 0 <= i < |middle| :: actions[1 + i] == middle[i]
  {
  }

  /** Every resource that the storage has registered for the task is declared, exactly as registered. */
  lemma RegisteredIsDeclared(manifest: Data, canonical: Canonical, adapters: set<string>)
    requires DeclaredResources(manifest, canonical, adapters).Ok?
    ensures RegisterAll(canonical.registered).Ok?
    ensures forall r <- RegisterAll(canonical.registered).value ::
            r in DeclaredResources(manifest, canonical, adapters).value
  {
    var rs, registered := RegisterAll(ResourceValues(manifest).value).value, RegisterAll(canonical.registered).value;
    RegisteredIsAmong(rs, registered, Get(manifest, "task_id"), Get(manifest, "owner"), adapters);
  }

  lemma RegisteredIsAmong(rs: seq<Resource>, registered: seq<Resource>, task: Data, owner: Data, adapters: set<string>)
    requires ResourceObjection(rs, registered, task, owner, adapters).None?
    ensures forall r <- registered :: r in rs
  {
  }

  /**
   Between the archive and the final actions of the policy stands one action for each
   resource that is not plainly retained, in the order of the ids, and nothing else: those
   declared, and so all those that the storage has registered for the task.
   */
  lemma PlanCoversResources(manifest: Data, operation: string, canonical: Canonical, adapters: set<string>,
                            actions: seq<Action>)
    returns (acting: seq<Resource>)
    requires Planned(manifest, operation, canonical, adapters, actions)
    ensures Prepare(manifest, canonical, adapters).Ok? && Ascending(acting)
    ensures forall r :: r in acting <==> r in PlannedResources(manifest, canonical, adapters) && !PlainlyRetained(r)
    ensures RegisterAll(canonical.registered).Ok?
    ensures forall r <- RegisterAll(canonical.registered).value :: r in acting || PlainlyRetained(r)
    ensures |actions| > |acting| && actions[0].kind == "archive_identity_evidence"
    ensures forall i | 0 <= i < |acting| :: actions[1 + i] == ResourceAction(operation, 1 + i, acting[i])
    ensures var p := Prepare(manifest, canonical, adapters).value;
            Kinds(actions[1 + |acting|..]) == RequiredFinal(p.0, p.2, Get(manifest, "continuation_archive") != Nothing)
  {
    var rs, retention, items := PlanIsAssembled(manifest, operation, canonical, adapters, actions);
    var archive, middle, tail := AssembledParts(operation, Get(manifest, "identity"), rs, retention, items, adapters);
    PreparedIsUnique(manifest, canonical, adapters);
    PreparedIsDeclared(manifest, canonical, adapters);
    RegisteredIsDeclared(manifest, canonical, adapters);
    SortedMembers(rs);
    acting := Acting(SortedById(rs));
    ResourcesNumbered(operation, 1, acting);
    PartsInPlace(archive, middle, tail);
    var p := Prepare(manifest, canonical, adapters).value;
    TextsInjective(Kinds(tail), RequiredFinal(p.0, p.2, Get(manifest, "continuation_archive") != Nothing));
  }

  // ------------------------------------------------------ retained repositories

  lemma {:induction false} RepositoryFound(rs: seq<Resource>, r: Resource)
    requires r in rs && IsRepository(r)
    ensures Repositories(rs) != []
  {
    if r == rs[0] {
    } else {
      RepositoryFound(rs[1..], r);
    }
  }

  /** Registered resources obey their lifetime's rule. */
  predicate LifetimeOk(r: Resource) {
    && r.lifetime in ["task_owned", "shared_lease", "persistent_retain"]
    && (r.lifetime == "shared_lease" ==> r.action == "release_lease")
    && (r.lifetime == "persistent_retain" ==> r.action == "retain")
  }

  lemma RegisteredOk(v: Data)
    requires Register(v).Ok?
    ensures LifetimeOk(Register(v).value)
  {
  }

  lemma {:induction false} AllRegisteredOk(vs: seq<Data>)
    requires RegisterAll(vs).Ok?
    ensures forall r <- RegisterAll(vs).value :: LifetimeOk(r)
  {
    if vs == [] {
    } else {
      RegisteredOk(vs[0]);
      AllRegisteredOk(vs[1..]);
    }
  }

  lemma DeclaredOk(manifest: Data, canonical: Canonical, adapters: set<string>)
    requires DeclaredResources(manifest, canonical, adapters).Ok?
    ensures forall r <- DeclaredResources(manifest, canonical, adapters).value :: LifetimeOk(r)
  {
    AllRegisteredOk(ResourceValues(manifest).value);
  }

  lemma RetainedRule(retention: Data, rs: seq<Resource>, owner: Data, policy: Policy, proof: Data, r: Resource)
    requires Retained(retention, rs, owner, policy, proof).Ok? && r in rs && IsRepository(r)
    ensures Retained(retention, rs, owner, policy, proof).value.Some?
    ensures forall x <- rs :: x.lifetime != "task_owned"
  {
    RepositoryFound(rs, r);
  }

  predicate Removes(kind: string) { kind == "worktree_remove" || kind == "branch_delete" }

  lemma {:induction false} KindsAt(actions: seq<Action>, i: nat)
    requires i < |actions|
    ensures |Kinds(actions)| == |actions| && Kinds(actions)[i] == actions[i].kind
  {
    if |actions| == 1 {
      assert actions[1..] == [];
    } else {
      KindsAt(actions[1..], if i == 0 then 0 else i - 1);
    }
  }

  lemma RetainedFinal(policy: Policy, continuation: bool, i: nat)
    requires i < |RequiredFinal(policy, true, continuation)|
    ensures !Removes(RequiredFinal(policy, true, continuation)[i])
  {
  }

  /** A prepared manifest with a repository retains it, and owns nothing else. */
  lemma RetainedPrepared(manifest: Data, canonical: Canonical, adapters: set<string>, r: Resource)
    requires Prepare(manifest, canonical, adapters).Ok?
    requires r in PlannedResources(manifest, canonical, adapters) && IsRepository(r)
    ensures Prepare(manifest, canonical, adapters).value.2
    ensures forall x <- PlannedResources(manifest, canonical, adapters) :: LifetimeOk(x) && x.lifetime != "task_owned"
  {
    var p := Prepare(manifest, canonical, adapters).value;
    DeclaredOk(manifest, canonical, adapters);
    RetainedRule(Get(manifest, "repository_retention"), p.1, Get(manifest, "owner"), p.0, Get(manifest, "proof"), r);
  }

  lemma KeptAction(operation: string, n: nat, r: Resource)
    requires LifetimeOk(r) && r.lifetime != "task_owned"
    ensures !Removes(ResourceAction(operation, n, r).kind)
  {
  }

  lemma FinalKindAt(tail: seq<Action>, policy: Policy, continuation: bool, i: nat)
    requires Kinds(tail) == RequiredFinal(policy, true, continuation) && i < |tail|
    ensures !Removes(tail[i].kind)
  {
    KindsAt(tail, i);
    RetainedFinal(policy, continuation, i);
  }

  lemma NothingRemoved(operation: string, actions: seq<Action>, acting: seq<Resource>, policy: Policy,
                       continuation: bool, i: nat)
    requires i < |actions| && |acting| < |actions| && actions[0].kind == "archive_identity_evidence"
    requires forall k | 0 <= k < |acting| :: actions[1 + k] == ResourceAction(operation, 1 + k, acting[k])
    requires forall x <- acting :: LifetimeOk(x) && x.lifetime != "task_owned"
    requires Kinds(actions[1 + |acting|..]) == RequiredFinal(policy, true, continuation)
    ensures !Removes(actions[i].kind)
  {
    if 0 < i <= |acting| {
      var k := i - 1;
      assert actions[1 + k] == ResourceAction(operation, 1 + k, acting[k]);
      KeptAction(operation, i, acting[k]);
    } else if i > |acting| {
      FinalKindAt(actions[1 + |acting|..], policy, continuation, i - 1 - |acting|);
    }
  }

  /** Where a repository is to be retained, an accepted plan removes no worktree and deletes no branch. */
  lemma RetainedPlanRemovesNothing(manifest: Data, operation: string, canonical: Canonical, adapters: set<string>,
                                   actions: seq<Action>, r: Resource, i: nat)
    requires Planned(manifest, operation, canonical, adapters, actions) && i < |actions|
    requires Prepare(manifest, canonical, adapters).Ok?
    requires r in PlannedResources(manifest, canonical, adapters) && IsRepository(r)
    ensures !Removes(actions[i].kind)
  {
    RetainedPrepared(manifest, canonical, adapters, r);
    var acting := PlanCoversResources(manifest, operation, canonical, adapters, actions);
    NothingRemoved(operation, actions, acting, Prepare(manifest, canonical, adapters).value.0,
                   Get(manifest, "continuation_archive") != Nothing, i);
  }
}
