/**
 Which manifests get a cleanup plan, exactly, and what the plan then contains, action by
 action and field by field.
 */
module CleanupContents {
  import opened Prelude
  import opened CleanupPlan
  import opened CleanupPlanLaws
  import opened CleanupAccepted
  import T = CleanupTerms

  /** A manifest whose listed resources are all registrations. */
  predicate Registered(manifest: Data) { forall v <- T.Listed(manifest) :: T.RegistrationTerms(v) }

  function ResourcesIn(manifest: Data): seq<Resource>
    requires Registered(manifest)
  {
    T.ResourcesOf(T.Listed(manifest))
  }

  predicate Retains(manifest: Data)
    requires Registered(manifest)
  {
    T.Retaining(ResourcesIn(manifest), Get(manifest, "repository_retention"))
  }

  /** The final actions that the terms ask of a manifest. */
  function FinalsOf(manifest: Data): seq<(string, string)>
    requires Registered(manifest)
  {
    T.FinalPlan(T.ClassOf(manifest), Retains(manifest), Get(manifest, "continuation_archive") != Nothing)
  }

  /** The manifest meets every term, and the releases are in order in the plan that it asks for. */
  ghost predicate Acceptable(manifest: Data, canonical: Canonical, adapters: set<string>) {
    && manifest.Dict? && Prepared(manifest, canonical, adapters)
    && T.ListTerms(manifest, "final_actions") && T.FinalItems(T.FinalListed(manifest), FinalsOf(manifest), adapters)
    && (exists acting :: OrderedActing(manifest, acting))
    && T.VersionTerms(manifest)
  }

  ghost predicate OrderedActing(manifest: Data, acting: seq<Resource>)
    requires Registered(manifest)
  {
    T.ActingOf(ResourcesIn(manifest), acting) && T.OrderTerms(T.PlanKinds(acting, FinalsOf(manifest)))
  }

  // -------------------------------------------------- the resources acted on

  lemma {:induction false} ActingIsUnique(a: seq<Resource>, b: seq<Resource>)
    requires Ascending(a) && Ascending(b) && forall r :: r in a <==> r in b
    ensures a == b
  {
    assert (a == [] || a[0] in a) && (b == [] || b[0] in b);
    if a == [] || b == [] {
    } else {
      assert a[0] in b && b[0] in a;
      FirstIsLeast(a, b);
      forall r
        ensures r in a[1..] <==> r in b[1..]
      {
        RestMembers(a, r);
        RestMembers(b, r);
      }
      ActingIsUnique(a[1..], b[1..]);
      assert a == [a[0]] + a[1..] && b == [b[0]] + b[1..];
    }
  }

  lemma RestMembers(a: seq<Resource>, r: Resource)
    requires Ascending(a) && a != []
    ensures r in a[1..] <==> r in a && r != a[0]
  {
    StringLessTotal(r.id, r.id);
    assert a == [a[0]] + a[1..];
    if r in a[1..] {
      var i :| 0 <= i < |a[1..]| && a[1..][i] == r;
      assert StringLess(a[0].id, a[i + 1].id);
    }
  }

  lemma ActingExactly(rs: seq<Resource>, acting: seq<Resource>)
    requires UniqueIds(rs)
    ensures T.ActingOf(rs, acting) <==> acting == Acting(SortedById(rs))
  {
    SortedMembers(rs);
    var sorted := Acting(SortedById(rs));
    if T.ActingOf(rs, acting) {
      ActingIsUnique(acting, sorted);
    }
  }

  // ------------------------------------------------------------- final actions

  lemma FinalsOwnAdapters(class_: string, retained: bool, close: bool)
    ensures OwnAdapters(T.FinalPlan(class_, retained, close))
  {
    forall i | 0 <= i < |T.FinalPlan(class_, retained, close)|
      ensures var (kind, adapter) := T.FinalPlan(class_, retained, close)[i];
              FinalAdapter(kind) == adapter && kind in FINAL_ACTION_KINDS
    {
      AdapterPlanned(class_, retained, close, i);
    }
  }

  /** The final actions are those asked for, checked, exactly on their terms. */
  lemma FinalsExactly(operation: string, n: nat, items: seq<Data>, plan: seq<(string, string)>, adapters: set<string>)
    requires OwnAdapters(plan)
    ensures FinalActions(operation, n, items, adapters).Ok? && FinalKinds(items) == Texts(KindsOf(plan))
       <==> T.FinalItems(items, plan, adapters)
  {
    if T.FinalItems(items, plan, adapters) {
      ItemsGiveFinals(operation, n, items, plan, adapters);
    } else if FinalActions(operation, n, items, adapters).Ok? && FinalKinds(items) == Texts(KindsOf(plan)) {
      FinalsGiveItems(operation, n, items, plan, adapters);
    }
  }

  lemma FinalsContent(operation: string, n: nat, items: seq<Data>, plan: seq<(string, string)>, adapters: set<string>)
    requires OwnAdapters(plan) && T.FinalItems(items, plan, adapters)
    ensures var finals := FinalActions(operation, n, items, adapters);
            && finals.Ok? && |finals.value| == |plan|
            && forall i | 0 <= i < |plan| ::
                 finals.value[i] == FinalOf(operation, n + i, items[i], plan[i].0, plan[i].1)
  {
    ItemsGiveFinals(operation, n, items, plan, adapters);
    FinalsNumbered(operation, n, items, adapters);
    forall i | 0 <= i < |plan|
      ensures FinalActions(operation, n, items, adapters).value[i]
           == FinalOf(operation, n + i, items[i], plan[i].0, plan[i].1)
    {
      FinalAt(operation, n, items, adapters, i);
      FinalItemExactly(operation, n + i, items[i], adapters, plan[i].0, plan[i].1);
    }
  }

  // ------------------------------------------------------------------- the list

  lemma {:induction false} KindsPointwise(actions: seq<Action>, kinds: seq<string>)
    requires |kinds| == |actions| && forall i | 0 <= i < |kinds| :: actions[i].kind == kinds[i]
    ensures Kinds(actions) == kinds
  {
    if actions == [] {
    } else {
      KindsPointwise(actions[1..], kinds[1..]);
      assert kinds == [kinds[0]] + kinds[1..];
    }
  }

  /** Items with an identity and an intended state for each final action. */
  predicate Matching(items: seq<Data>, finals: seq<(string, string)>) {
    |items| == |finals|
    && forall i | 0 <= i < |items| :: Get(items[i], "expected_identity").Dict? && Get(items[i], "intended_state").Dict?
  }

  function ActionOf(operation: string, n: nat, r: Resource): Action {
    Action(ActionId(operation, n), n, r.action, r.adapter, Text(r.id), r.expected,
           Intent(map[if T.Repository(r) then "retained" else "completed" := Flag(true)]))
  }

  /** A whole list of actions: the archive, one action for each resource acted on, and the final actions. */
  function ListOf(operation: string, archive: Action, acting: seq<Resource>, items: seq<Data>,
                  finals: seq<(string, string)>): seq<Action>
    requires Matching(items, finals)
  {
    [archive]
    + seq(|acting|, i requires 0 <= i < |acting| => ActionOf(operation, 1 + i, acting[i]))
    + seq(|finals|, i requires 0 <= i < |finals| =>
        FinalOf(operation, 1 + |acting| + i, items[i], finals[i].0, finals[i].1))
  }

  lemma ListKinds(operation: string, archive: Action, acting: seq<Resource>, items: seq<Data>,
                  finals: seq<(string, string)>)
    requires Matching(items, finals) && archive.kind == "archive_identity_evidence"
    ensures Kinds(ListOf(operation, archive, acting, items, finals)) == T.PlanKinds(acting, finals)
  {
    var actions, kinds := ListOf(operation, archive, acting, items, finals), T.PlanKinds(acting, finals);
    forall i | 0 <= i < |kinds|
      ensures actions[i].kind == kinds[i]
    {
      if i == 0 {
      } else if i <= |acting| {
        assert actions[i] == ActionOf(operation, i, acting[i - 1]);
      } else {
        var k := i - 1 - |acting|;
        assert actions[i] == FinalOf(operation, i, items[k], finals[k].0, finals[k].1);
      }
    }
    KindsPointwise(actions, kinds);
  }

  lemma SameList(operation: string, archive: Action, acting: seq<Resource>, items: seq<Data>,
                 finals: seq<(string, string)>, middle: seq<Action>, tail: seq<Action>)
    requires Matching(items, finals) && |middle| == |acting| && |tail| == |finals|
    requires forall i | 0 <= i < |acting| :: middle[i] == ResourceAction(operation, 1 + i, acting[i])
    requires forall i | 0 <= i < |tail| ::
               tail[i] == FinalOf(operation, 1 + |acting| + i, items[i], finals[i].0, finals[i].1)
    ensures [archive] + middle + tail == ListOf(operation, archive, acting, items, finals)
  {
    forall i | 0 <= i < |acting|
      ensures middle[i] == ActionOf(operation, 1 + i, acting[i])
    {
    }
    assert middle == seq(|acting|, i requires 0 <= i < |acting| => ActionOf(operation, 1 + i, acting[i]));
    assert tail == seq(|finals|, i requires 0 <= i < |finals| =>
      FinalOf(operation, 1 + |acting| + i, items[i], finals[i].0, finals[i].1));
  }

  lemma ItemsMatch(items: seq<Data>, finals: seq<(string, string)>, adapters: set<string>)
    requires T.FinalItems(items, finals, adapters)
    ensures Matching(items, finals)
  {
    forall i | 0 <= i < |items|
      ensures Get(items[i], "expected_identity").Dict? && Get(items[i], "intended_state").Dict?
    {
      assert T.FinalItem(items[i], finals[i].0, finals[i].1, adapters);
    }
  }

  /** What the planner assembles when the final actions are as they should be. */
  lemma AssembledExactly(operation: string, identity: Data, rs: seq<Resource>, retention: Data, items: seq<Data>,
                         finals: seq<(string, string)>, adapters: set<string>)
    requires OwnAdapters(finals) && T.FinalItems(items, finals, adapters)
    ensures Matching(items, finals)
    ensures Assemble(operation, identity, rs, retention, items, adapters)
         == InOrder(ListOf(operation, ArchiveAction(operation, identity, rs, retention), Acting(SortedById(rs)), items,
                           finals))
  {
    var acting, archive := Acting(SortedById(rs)), ArchiveAction(operation, identity, rs, retention);
    var middle := ResourceActions(operation, 1, acting);
    ItemsMatch(items, finals, adapters);
    FinalsContent(operation, 1 + |acting|, items, finals, adapters);
    ResourcesNumbered(operation, 1, acting);
    SameList(operation, archive, acting, items, finals, middle,
             FinalActions(operation, 1 + |acting|, items, adapters).value);
    assert |[archive] + middle| == 1 + |acting|;
  }

  /** With the right final actions, only the order of the releases can be wrong. */
  lemma OrderDecides(operation: string, identity: Data, rs: seq<Resource>, retention: Data, items: seq<Data>,
                     finals: seq<(string, string)>, adapters: set<string>)
    requires OwnAdapters(finals) && T.FinalItems(items, finals, adapters)
    ensures Assemble(operation, identity, rs, retention, items, adapters).Ok?
       <==> T.OrderTerms(T.PlanKinds(Acting(SortedById(rs)), finals))
  {
    var acting, archive := Acting(SortedById(rs)), ArchiveAction(operation, identity, rs, retention);
    AssembledExactly(operation, identity, rs, retention, items, finals, adapters);
    ListKinds(operation, archive, acting, items, finals);
    OrderExactly(T.PlanKinds(acting, finals));
  }

  /** The last stage of the planner: the right final actions, and the releases in order. */
  lemma LastStageExactly(operation: string, identity: Data, rs: seq<Resource>, retention: Data, items: seq<Data>,
                         finals: seq<(string, string)>, adapters: set<string>)
    requires OwnAdapters(finals)
    ensures FinalKinds(items) == Texts(KindsOf(finals))
            && Assemble(operation, identity, rs, retention, items, adapters).Ok?
       <==> T.FinalItems(items, finals, adapters) && T.OrderTerms(T.PlanKinds(Acting(SortedById(rs)), finals))
  {
    FinalsExactly(operation, 1 + |ResourceActions(operation, 1, Acting(SortedById(rs)))|, items, finals, adapters);
    if T.FinalItems(items, finals, adapters) {
      OrderDecides(operation, identity, rs, retention, items, finals, adapters);
    } else if Assemble(operation, identity, rs, retention, items, adapters).Ok? {
      AssembledNeedsFinals(operation, identity, rs, retention, items, adapters);
    }
  }

  lemma AssembledNeedsFinals(operation: string, identity: Data, rs: seq<Resource>, retention: Data, items: seq<Data>,
                             adapters: set<string>)
    requires Assemble(operation, identity, rs, retention, items, adapters).Ok?
    ensures FinalActions(operation, 1 + |ResourceActions(operation, 1, Acting(SortedById(rs)))|, items, adapters).Ok?
  {
  }

  // -------------------------------------------------------------- main results

  /** What of the archive's intended state is only recorded when a repository is retained. */
  function RetentionOf(manifest: Data, retained: bool): Data {
    if retained then Get(manifest, "repository_retention") else Nothing
  }

  /** `plan` in stages. */
  lemma PlanStages(manifest: Data, operation: string, canonical: Canonical, adapters: set<string>,
                   p: (Policy, seq<Resource>, bool), items: seq<Data>)
    requires Prepare(manifest, canonical, adapters) == Ok(p) && FinalItems(manifest) == Some(items)
    ensures var list :=
              Assemble(operation, Get(manifest, "identity"), p.1, RetentionOf(manifest, p.2), items, adapters);
            && (Plan(manifest, operation, canonical, adapters).Ok? <==>
                  && FinalKinds(items)
                     == Texts(RequiredFinal(p.0, p.2, Get(manifest, "continuation_archive") != Nothing))
                  && list.Ok? && VersionOk(manifest))
            && (Plan(manifest, operation, canonical, adapters).Ok? ==>
                  Plan(manifest, operation, canonical, adapters) == list)
  {
  }

  lemma PlanNeedsPrepared(manifest: Data, operation: string, canonical: Canonical, adapters: set<string>)
    requires Plan(manifest, operation, canonical, adapters).Ok?
    ensures manifest.Dict? && Prepare(manifest, canonical, adapters).Ok? && FinalItems(manifest).Some?
  {
  }

  lemma SameLists(manifest: Data)
    requires manifest.Dict?
    ensures FinalItems(manifest).Some? <==> T.ListTerms(manifest, "final_actions")
    ensures FinalItems(manifest).Some? ==> FinalItems(manifest).value == T.FinalListed(manifest)
    ensures VersionOk(manifest) <==> T.VersionTerms(manifest)
  {
  }

  lemma PreparedIs(manifest: Data, canonical: Canonical, adapters: set<string>)
    returns (p: (Policy, seq<Resource>, bool))
    requires manifest.Dict? && Prepared(manifest, canonical, adapters)
    ensures Registered(manifest) && Get(manifest, "identity").Dict? && UniqueIds(ResourcesIn(manifest))
    ensures Prepare(manifest, canonical, adapters) == Ok(p) && p.1 == ResourcesIn(manifest) && p.2 == Retains(manifest)
    ensures RequiredFinal(p.0, p.2, Get(manifest, "continuation_archive") != Nothing) == KindsOf(FinalsOf(manifest))
  {
    PreparedExactly(manifest, canonical, adapters);
    p := Prepare(manifest, canonical, adapters).value;
    FinalKindsPlanned(p.0, p.2, Get(manifest, "continuation_archive") != Nothing);
  }

  /** The plan of a prepared manifest. */
  lemma PlanOfPrepared(manifest: Data, operation: string, canonical: Canonical, adapters: set<string>)
    requires manifest.Dict? && Prepared(manifest, canonical, adapters) && T.ListTerms(manifest, "final_actions")
    ensures Registered(manifest) && UniqueIds(ResourcesIn(manifest)) && Get(manifest, "identity").Dict?
    ensures var plan := Plan(manifest, operation, canonical, adapters);
            var items, finals := T.FinalListed(manifest), FinalsOf(manifest);
            var acting := Acting(SortedById(ResourcesIn(manifest)));
            && (plan.Ok? <==> T.FinalItems(items, finals, adapters) && T.OrderTerms(T.PlanKinds(acting, finals))
                              && T.VersionTerms(manifest))
            && (plan.Ok? ==>
                  plan == Assemble(operation, Get(manifest, "identity"), ResourcesIn(manifest),
                                   RetentionOf(manifest, Retains(manifest)), items, adapters))
  {
    var p := PreparedIs(manifest, canonical, adapters);
    SameLists(manifest);
    PlanStages(manifest, operation, canonical, adapters, p, T.FinalListed(manifest));
    FinalsOwnAdapters(T.ClassOf(manifest), Retains(manifest), Get(manifest, "continuation_archive") != Nothing);
    LastStageExactly(operation, Get(manifest, "identity"), p.1, RetentionOf(manifest, p.2), T.FinalListed(manifest),
                     FinalsOf(manifest), adapters);
  }

  /** A manifest gets a plan if and only if it meets the terms. */
  lemma PlanAcceptedExactly(manifest: Data, operation: string, canonical: Canonical, adapters: set<string>)
    ensures Plan(manifest, operation, canonical, adapters).Ok? <==> Acceptable(manifest, canonical, adapters)
  {
    if Plan(manifest, operation, canonical, adapters).Ok? {
      PlanNeedsPrepared(manifest, operation, canonical, adapters);
      PlanIsAcceptable(manifest, operation, canonical, adapters);
    }
    if Acceptable(manifest, canonical, adapters) {
      AcceptableIsPlanned(manifest, operation, canonical, adapters);
    }
  }

  lemma PlanIsAcceptable(manifest: Data, operation: string, canonical: Canonical, adapters: set<string>)
    requires Plan(manifest, operation, canonical, adapters).Ok?
    requires manifest.Dict? && Prepare(manifest, canonical, adapters).Ok? && FinalItems(manifest).Some?
    ensures Acceptable(manifest, canonical, adapters)
  {
    PreparedExactly(manifest, canonical, adapters);
    SameLists(manifest);
    PlanOfPrepared(manifest, operation, canonical, adapters);
    var acting := Acting(SortedById(ResourcesIn(manifest)));
    ActingExactly(ResourcesIn(manifest), acting);
    assert OrderedActing(manifest, acting);
  }

  lemma AcceptableIsPlanned(manifest: Data, operation: string, canonical: Canonical, adapters: set<string>)
    requires Acceptable(manifest, canonical, adapters)
    ensures Plan(manifest, operation, canonical, adapters).Ok?
  {
    PlanOfPrepared(manifest, operation, canonical, adapters);
    var acting :| OrderedActing(manifest, acting);
    ActingExactly(ResourcesIn(manifest), acting);
  }

  // -------------------------------------------------------------- what a plan holds

  lemma PaddedId(operation: string, n: nat)
    ensures T.IdOf(operation, n, ActionId(operation, n))
  {
    PadNumeral(n);
    assert ActionId(operation, n) == (operation + ":") + Pad(n);
    assert ActionId(operation, n)[|operation| + 1..] == Pad(n);
    assert |Pad(n)| > 3 ==> Pad(n) == Decimal(n);
  }

  lemma ListNumbered(operation: string, archive: Action, acting: seq<Resource>, items: seq<Data>,
                     finals: seq<(string, string)>, i: nat)
    requires Matching(items, finals) && archive.ordinal == 0 && archive.id == ActionId(operation, 0)
    requires i < |ListOf(operation, archive, acting, items, finals)|
    ensures var a := ListOf(operation, archive, acting, items, finals)[i];
            a.ordinal == i && a.id == ActionId(operation, i)
  {
    var list, n := ListOf(operation, archive, acting, items, finals), 1 + |acting|;
    if 0 < i < n {
      assert list[i] == ActionOf(operation, i, acting[i - 1]);
    } else if n <= i {
      assert list[i] == FinalOf(operation, i, items[i - n], finals[i - n].0, finals[i - n].1);
    }
  }

  lemma ListContents(operation: string, archive: Action, acting: seq<Resource>, items: seq<Data>,
                     finals: seq<(string, string)>)
    requires Matching(items, finals)
    ensures var list, n := ListOf(operation, archive, acting, items, finals), 1 + |acting|;
            && |list| == n + |finals| && list[0] == archive
            && (forall i | 0 <= i < |acting| :: T.ResourceItem(list[1 + i], acting[i]))
            && (forall i | 0 <= i < |finals| :: T.FinalFrom(list[n + i], items[i], finals[i].0, finals[i].1))
  {
    var list, n := ListOf(operation, archive, acting, items, finals), 1 + |acting|;
    forall i | 0 <= i < |acting|
      ensures T.ResourceItem(list[1 + i], acting[i])
    {
      assert list[1 + i] == ActionOf(operation, 1 + i, acting[i]);
    }
    forall i | 0 <= i < |finals|
      ensures T.FinalFrom(list[n + i], items[i], finals[i].0, finals[i].1)
    {
      assert list[n + i] == FinalOf(operation, n + i, items[i], finals[i].0, finals[i].1);
    }
  }

  lemma PlanIsList(manifest: Data, operation: string, canonical: Canonical, adapters: set<string>, actions: seq<Action>)
    returns (archive: Action, acting: seq<Resource>)
    requires Planned(manifest, operation, canonical, adapters, actions)
    ensures Acceptable(manifest, canonical, adapters) && T.ActingOf(ResourcesIn(manifest), acting)
    ensures archive == ArchiveAction(operation, Get(manifest, "identity"), ResourcesIn(manifest),
                                     RetentionOf(manifest, Retains(manifest)))
    ensures Get(manifest, "identity").Dict? && Matching(T.FinalListed(manifest), FinalsOf(manifest))
    ensures actions == ListOf(operation, archive, acting, T.FinalListed(manifest), FinalsOf(manifest))
  {
    PlanAcceptedExactly(manifest, operation, canonical, adapters);
    PlanOfPrepared(manifest, operation, canonical, adapters);
    var identity, retention := Get(manifest, "identity"), RetentionOf(manifest, Retains(manifest));
    acting := Acting(SortedById(ResourcesIn(manifest)));
    archive := ArchiveAction(operation, identity, ResourcesIn(manifest), retention);
    ActingExactly(ResourcesIn(manifest), acting);
    FinalsOwnAdapters(T.ClassOf(manifest), Retains(manifest), Get(manifest, "continuation_archive") != Nothing);
    AssembledExactly(operation, identity, ResourcesIn(manifest), retention, T.FinalListed(manifest), FinalsOf(manifest),
                     adapters);
  }

  /**
   A plan is the archive of the manifest's identity, one action for each resource it acts
   on, in the order of their ids, and the final actions of the manifest.
   */
  lemma PlanContents(manifest: Data, operation: string, canonical: Canonical, adapters: set<string>,
                     actions: seq<Action>)
    returns (acting: seq<Resource>)
    requires Planned(manifest, operation, canonical, adapters, actions)
    ensures Acceptable(manifest, canonical, adapters) && T.ActingOf(ResourcesIn(manifest), acting)
    ensures |actions| == 1 + |acting| + |FinalsOf(manifest)| && |T.FinalListed(manifest)| == |FinalsOf(manifest)|
    ensures T.ArchiveItem(actions[0], Get(manifest, "identity"), ResourcesIn(manifest),
                          if Retains(manifest) then Get(manifest, "repository_retention") else Nothing)
    ensures forall i | 0 <= i < |acting| :: T.ResourceItem(actions[1 + i], acting[i])
    ensures forall i | 0 <= i < |FinalsOf(manifest)| ::
              T.FinalFrom(actions[1 + |acting| + i], T.FinalListed(manifest)[i], FinalsOf(manifest)[i].0,
                          FinalsOf(manifest)[i].1)
  {
    var archive;
    archive, acting := PlanIsList(manifest, operation, canonical, adapters, actions);
    ListContents(operation, archive, acting, T.FinalListed(manifest), FinalsOf(manifest));
  }

  /** The actions of a plan are numbered on from 0, and their ids show it in decimal. */
  lemma PlanNumbers(manifest: Data, operation: string, canonical: Canonical, adapters: set<string>,
                    actions: seq<Action>, i: nat)
    requires Planned(manifest, operation, canonical, adapters, actions) && i < |actions|
    ensures actions[i].ordinal == i && T.IdOf(operation, i, actions[i].id)
  {
    var archive, acting := PlanIsList(manifest, operation, canonical, adapters, actions);
    ListNumbered(operation, archive, acting, T.FinalListed(manifest), FinalsOf(manifest), i);
    PaddedId(operation, i);
  }

  // ------------------------------------------------------ removals and their proofs

  predicate GitProven(manifest: Data) {
    var proof := Get(manifest, "proof");
    && T.Proves(proof, "git", "exact_registration") && T.Proves(proof, "git", "clean")
    && T.Proves(proof, "git", "no_unpublished")
  }

  lemma AcceptedTerms(manifest: Data, canonical: Canonical, adapters: set<string>)
    requires Acceptable(manifest, canonical, adapters)
    ensures T.PolicyTerms(manifest) && (T.KeepsWorktree(manifest) ==> Retains(manifest))
  {
  }

  lemma NeededIsProven(manifest: Data, area: string, gate: string)
    requires T.PolicyTerms(manifest)
    requires T.Needed(T.ClassOf(manifest), T.DispositionOf(manifest), T.KeepsWorktree(manifest), [area, gate])
    ensures T.Proves(Get(manifest, "proof"), area, gate)
  {
  }

  lemma GitNeeded(class_: string, disposition: string)
    requires class_ != "analysis"
    ensures T.Needed(class_, disposition, false, ["git", "exact_registration"])
    ensures T.Needed(class_, disposition, false, ["git", "clean"])
    ensures T.Needed(class_, disposition, false, ["git", "no_unpublished"])
  {
  }

  /** A task with code that keeps no repository has proven its worktree clean and published. */
  lemma CodeIsProven(manifest: Data, canonical: Canonical, adapters: set<string>)
    requires Acceptable(manifest, canonical, adapters) && T.ClassOf(manifest) != "analysis" && !Retains(manifest)
    ensures GitProven(manifest)
  {
    AcceptedTerms(manifest, canonical, adapters);
    GitNeeded(T.ClassOf(manifest), T.DispositionOf(manifest));
    NeededIsProven(manifest, "git", "exact_registration");
    NeededIsProven(manifest, "git", "clean");
    NeededIsProven(manifest, "git", "no_unpublished");
  }

  lemma FinalRemoves(class_: string, retained: bool, close: bool, i: nat)
    requires i < |T.FinalPlan(class_, retained, close)| && Removes(T.FinalPlan(class_, retained, close)[i].0)
    ensures class_ != "analysis" && !retained
  {
  }

  lemma RetainingOwnsNothing(manifest: Data, canonical: Canonical, adapters: set<string>)
    requires Acceptable(manifest, canonical, adapters) && Retains(manifest)
    ensures forall r <- ResourcesIn(manifest) :: r.lifetime != "task_owned"
  {
  }

  lemma RemovesOwned(v: Data)
    requires T.RegistrationTerms(v) && Removes(T.ResourceOf(v).action)
    ensures T.ResourceOf(v).lifetime == "task_owned"
  {
    ActionsDiffer();
  }

  /** Where a repository is kept no resource's own action removes anything. */
  lemma KeptRemoves(manifest: Data, canonical: Canonical, adapters: set<string>, r: Resource)
    requires Acceptable(manifest, canonical, adapters) && r in ResourcesIn(manifest) && Removes(r.action)
    ensures r.lifetime == "task_owned" && !Retains(manifest)
  {
    var rs, vs := ResourcesIn(manifest), T.Listed(manifest);
    var i :| 0 <= i < |rs| && rs[i] == r;
    RemovesOwned(vs[i]);
    if Retains(manifest) {
      RetainingOwnsNothing(manifest, canonical, adapters);
    }
  }

  lemma ActionsDiffer()
    ensures !Removes("retain") && !Removes("release_lease")
  {
  }

  /**
   A plan that removes a worktree or a branch without the proofs that it is registered,
   clean and published is made exactly when the task is an analysis and lists a resource
   whose own cleanup action is such a removal. The final actions never do that.
   */
  lemma UnprovenRemovalExactly(manifest: Data, operation: string, canonical: Canonical, adapters: set<string>,
                               actions: seq<Action>)
    requires Planned(manifest, operation, canonical, adapters, actions)
    ensures Registered(manifest)
    ensures (exists a <- actions :: Removes(a.kind)) && !GitProven(manifest) <==>
              && T.ClassOf(manifest) == "analysis" && (exists r <- ResourcesIn(manifest) :: Removes(r.action))
              && !GitProven(manifest)
  {
    var acting := PlanContents(manifest, operation, canonical, adapters, actions);
    var n := 1 + |acting|;
    if r :| r in ResourcesIn(manifest) && Removes(r.action) {
      KeptRemoves(manifest, canonical, adapters, r);
      assert r in acting;
      var i :| 0 <= i < |acting| && acting[i] == r;
      assert T.ResourceItem(actions[1 + i], acting[i]) && actions[1 + i] in actions;
    }
    if i :| 0 <= i < |actions| && Removes(actions[i].kind) {
      if !GitProven(manifest) {
        RemovalSource(manifest, canonical, adapters, actions, acting, i);
      }
    }
  }

  lemma ResourceRemoval(manifest: Data, canonical: Canonical, adapters: set<string>, r: Resource)
    requires Acceptable(manifest, canonical, adapters) && r in ResourcesIn(manifest) && Removes(r.action)
    ensures T.ClassOf(manifest) == "analysis" || GitProven(manifest)
  {
    KeptRemoves(manifest, canonical, adapters, r);
    if T.ClassOf(manifest) != "analysis" {
      CodeIsProven(manifest, canonical, adapters);
    }
  }

  lemma FinalRemoval(manifest: Data, canonical: Canonical, adapters: set<string>, k: nat)
    requires Acceptable(manifest, canonical, adapters) && k < |FinalsOf(manifest)| && Removes(FinalsOf(manifest)[k].0)
    ensures GitProven(manifest)
  {
    FinalRemoves(T.ClassOf(manifest), Retains(manifest), Get(manifest, "continuation_archive") != Nothing, k);
    CodeIsProven(manifest, canonical, adapters);
  }

  /** A removal in a plan is a final action, or the own action of a resource. */
  lemma RemovalAt(actions: seq<Action>, acting: seq<Resource>, finals: seq<(string, string)>, i: nat)
    returns (k: nat, final: bool)
    requires |actions| == 1 + |acting| + |finals| && actions[0].kind == "archive_identity_evidence"
    requires forall k | 0 <= k < |acting| :: actions[1 + k].kind == acting[k].action
    requires forall k | 0 <= k < |finals| :: actions[1 + |acting| + k].kind == finals[k].0
    requires i < |actions| && Removes(actions[i].kind)
    ensures if final then k < |finals| && Removes(finals[k].0) else k < |acting| && Removes(acting[k].action)
  {
    assert i > 0;
    final := i > |acting|;
    k := if final then i - 1 - |acting| else i - 1;
    if final {
      assert actions[1 + |acting| + k] == actions[i];
    } else {
      assert actions[1 + k] == actions[i];
    }
  }

  /** Where a removal in a plan comes from. */
  lemma RemovalSource(manifest: Data, canonical: Canonical, adapters: set<string>, actions: seq<Action>,
                      acting: seq<Resource>, i: nat)
    requires Acceptable(manifest, canonical, adapters) && forall r <- acting :: r in ResourcesIn(manifest)
    requires |actions| == 1 + |acting| + |FinalsOf(manifest)| && actions[0].kind == "archive_identity_evidence"
    requires forall k | 0 <= k < |acting| :: actions[1 + k].kind == acting[k].action
    requires forall k | 0 <= k < |FinalsOf(manifest)| :: actions[1 + |acting| + k].kind == FinalsOf(manifest)[k].0
    requires i < |actions| && Removes(actions[i].kind) && !GitProven(manifest)
    ensures T.ClassOf(manifest) == "analysis" && exists r <- ResourcesIn(manifest) :: Removes(r.action)
  {
    var k, final := RemovalAt(actions, acting, FinalsOf(manifest), i);
    if final {
      FinalRemoval(manifest, canonical, adapters, k);
    } else {
      assert acting[k] in acting;
      ResourceRemoval(manifest, canonical, adapters, acting[k]);
    }
  }

  lemma PublicationNeeded(class_: string)
    requires class_ == "pr_ci" || class_ == "deployed_service"
    ensures T.Needed(class_, "completed", false, ["publication", "exact_head"])
    ensures T.Needed(class_, "completed", false, ["publication", "ci_green"])
    ensures T.Needed(class_, "completed", false, ["publication", "integrated"])
  {
  }

  lemma DeploymentNeeded(retains: bool)
    ensures T.Needed("deployed_service", "completed", retains, ["deployment", "exact_revision"])
    ensures T.Needed("deployed_service", "completed", retains, ["deployment", "smoke_passed"])
  {
  }

  /** A completed task with a pull request whose repository is not kept is published, and deployed if it has to be. */
  lemma PublishedIsProven(manifest: Data, operation: string, canonical: Canonical, adapters: set<string>,
                          actions: seq<Action>)
    requires Planned(manifest, operation, canonical, adapters, actions)
    requires T.DispositionOf(manifest) == "completed"
    requires T.ClassOf(manifest) == "pr_ci" || T.ClassOf(manifest) == "deployed_service"
    ensures Registered(manifest)
    ensures !Retains(manifest) ==>
              && T.Proves(Get(manifest, "proof"), "publication", "exact_head")
              && T.Proves(Get(manifest, "proof"), "publication", "ci_green")
              && T.Proves(Get(manifest, "proof"), "publication", "integrated")
    ensures T.ClassOf(manifest) == "deployed_service" ==>
              && T.Proves(Get(manifest, "proof"), "deployment", "exact_revision")
              && T.Proves(Get(manifest, "proof"), "deployment", "smoke_passed")
  {
    PlanAcceptedExactly(manifest, operation, canonical, adapters);
    AcceptedTerms(manifest, canonical, adapters);
    if !Retains(manifest) {
      PublicationNeeded(T.ClassOf(manifest));
      NeededIsProven(manifest, "publication", "exact_head");
      NeededIsProven(manifest, "publication", "ci_green");
      NeededIsProven(manifest, "publication", "integrated");
    }
    if T.ClassOf(manifest) == "deployed_service" {
      DeploymentNeeded(T.KeepsWorktree(manifest));
      NeededIsProven(manifest, "deployment", "exact_revision");
      NeededIsProven(manifest, "deployment", "smoke_passed");
    }
  }
}
