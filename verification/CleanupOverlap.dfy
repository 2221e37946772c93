/**
 Why at-most-once needs the lease to outlive the work: the fence protects receipts, not
 effects. In every plan, each action can have its effect from two executors that overlap.
 */
module CleanupOverlap {
  import opened Prelude
  import opened CleanupSaga
  import opened CleanupRuns
  import CleanupPlan

  /** Each action's resource is as expected, and `after` has an observation of its intended state. */
  predicate Undone(x: Setup, after: seq<Identity>) {
    && |after| == |x.actions|
    && forall k: nat | k < |x.actions| ::
         && x.actions[k].adapter in x.adapters
         && Intended(x, k, after[k]) && !Intended(x, k, x.actions[k].expected)
  }

  /** What is observed once the first `m` actions are done. */
  function Observed(x: Setup, after: seq<Identity>, m: nat): (obs: seq<Identity>)
    requires |after| == |x.actions|
    ensures |obs| == |x.actions|
  {
    seq(|x.actions|, i requires 0 <= i < |x.actions| => if i < m then after[i] else x.actions[i].expected)
  }

  function Below(n: nat, m: nat): (done: seq<bool>)
    ensures |done| == n
  {
    seq(n, i => i < m)
  }

  function From(m: nat, n: nat): seq<nat>
    requires m <= n
  {
    seq(n - m, i requires 0 <= i < n - m => m + i)
  }

  /** The first `m` actions are done, each by one effect with its receipt, and the others are not. */
  predicate Progress(x: Setup, after: seq<Identity>, s: Sys, m: nat)
    requires |after| == |x.actions|
  {
    && m <= |x.actions| && s.obs == Observed(x, after, m)
    && s.effects == seq(|x.actions|, i => if i < m then 1 else 0)
    && s.store.states == seq(|x.actions|, i => if i < m then Done else Planned)
    && (forall k <- s.store.receipts :: k < m)
    && (s.store.phase == Pending || s.store.phase == Executing)
  }

  /** An executor that found `m` actions done when it began and is now at action `next`. */
  function Worker(x: Setup, after: seq<Identity>, fence: nat, m: nat, next: nat, stage: Stage): Executor
    requires |after| == |x.actions| && m <= next && m <= |x.actions|
  {
    Executor(fence, Below(|x.actions|, m), Observed(x, after, m), From(m, |x.actions|), next - m, stage)
  }

  /** The same executor after `j` preflight inspections. */
  function Checker(x: Setup, after: seq<Identity>, fence: nat, m: nat, j: nat): Executor
    requires |after| == |x.actions| && j <= |x.actions|
  {
    Executor(fence, Below(|x.actions|, m), Observed(x, after, m)[..j], if m <= j then From(m, j) else [], 0, Checking)
  }

  /** A run of `x` that ends in `s`. */
  predicate Reaches(x: Setup, states: seq<Sys>, steps: seq<Step>, s: Sys) {
    Run(x, states, steps) && states[|steps|] == s
  }

  lemma Extend(x: Setup, states: seq<Sys>, steps: seq<Step>, s: Sys, step: Step, s': Sys)
    returns (states': seq<Sys>, steps': seq<Step>)
    requires Reaches(x, states, steps, s) && Shaped(x, s) && Next(x, s, step, s')
    ensures Reaches(x, states', steps', s')
  {
    states', steps' := states + [s'], steps + [step];
    forall i: nat | i < |steps'|
      ensures StepAt(x, states', steps', i)
    {
      if i < |steps| {
        assert StepAt(x, states, steps, i);
      }
    }
  }

  lemma ReachesShaped(x: Setup, states: seq<Sys>, steps: seq<Step>, s: Sys)
    requires Reaches(x, states, steps, s)
    ensures Inv(x, s) && Shaped(x, s)
  {
    RunKeeps(x, states, steps, |steps|);
    InvShapes(x, s);
  }

  /** What an executor does last is what it does. */
  lemma MovedTwice(s: Sys, pid: nat, e: Executor, e': Executor)
    ensures Moved(Moved(s, pid, e), pid, e') == Moved(s, pid, e')
  {
    assert s.running[pid := e][pid := e'] == s.running[pid := e'];
  }

  // ------------------------------------------------------- claim and preflight

  function Claimed(s: Sys): Sys {
    s.(store := s.store.(phase := Executing, fence := s.store.fence + 1))
  }

  function Loaded(s: Sys): Executor { Executor(s.store.fence + 1, [], [], [], 0, Loading) }

  lemma ClaimNext(x: Setup, after: seq<Identity>, s: Sys, pid: nat, m: nat)
    requires Shaped(x, s) && |after| == |x.actions| && Progress(x, after, s, m) && pid !in s.running
    ensures Next(x, s, ClaimStep(pid, s.store.fence, false), Moved(Claimed(s), pid, Loaded(s)))
  {
  }

  lemma LoadNext(x: Setup, after: seq<Identity>, s: Sys, pid: nat, m: nat)
    requires Shaped(x, Moved(Claimed(s), pid, Loaded(s))) && |after| == |x.actions| && Progress(x, after, s, m)
    ensures Next(x, Moved(Claimed(s), pid, Loaded(s)), LoadStep(pid),
                 Moved(Claimed(s), pid, Checker(x, after, s.store.fence + 1, m, 0)))
  {
    assert Flags(s.store.states) == Below(|x.actions|, m);
    assert Loaded(s).(done := Flags(s.store.states), stage := Checking) == Checker(x, after, s.store.fence + 1, m, 0);
    MovedTwice(Claimed(s), pid, Loaded(s), Checker(x, after, s.store.fence + 1, m, 0));
  }

  lemma ClaimAndLoad(x: Setup, after: seq<Identity>, states: seq<Sys>, steps: seq<Step>, s: Sys, pid: nat, m: nat)
    returns (states': seq<Sys>, steps': seq<Step>)
    requires Undone(x, after) && Reaches(x, states, steps, s) && Progress(x, after, s, m) && pid !in s.running
    ensures Reaches(x, states', steps', Moved(Claimed(s), pid, Checker(x, after, s.store.fence + 1, m, 0)))
  {
    ReachesShaped(x, states, steps, s);
    ClaimNext(x, after, s, pid, m);
    var claimed := Moved(Claimed(s), pid, Loaded(s));
    states', steps' := Extend(x, states, steps, s, ClaimStep(pid, s.store.fence, false), claimed);
    ReachesShaped(x, states', steps', claimed);
    LoadNext(x, after, s, pid, m);
    states', steps' := Extend(x, states', steps', claimed, LoadStep(pid),
                              Moved(Claimed(s), pid, Checker(x, after, s.store.fence + 1, m, 0)));
  }

  lemma CheckerSees(x: Setup, after: seq<Identity>, fence: nat, m: nat, j: nat)
    requires Undone(x, after) && j < |x.actions|
    ensures var e, o := Checker(x, after, fence, m, j), Observed(x, after, m)[j];
            Objection(x, e, o).None? && Seen(e, o) == Checker(x, after, fence, m, j + 1)
  {
    var all := Observed(x, after, m);
    assert all[..j + 1] == all[..j] + [all[j]];
    if m <= j {
      assert From(m, j + 1) == From(m, j) + [j];
    }
  }

  lemma CheckNext(x: Setup, after: seq<Identity>, s: Sys, pid: nat, fence: nat, m: nat, j: nat)
    requires Undone(x, after) && j < |x.actions| && Progress(x, after, s, m)
    requires Shaped(x, Moved(s, pid, Checker(x, after, fence, m, j)))
    ensures Next(x, Moved(s, pid, Checker(x, after, fence, m, j)), CheckStep(pid),
                 Moved(s, pid, Checker(x, after, fence, m, j + 1)))
  {
    CheckerSees(x, after, fence, m, j);
    MovedTwice(s, pid, Checker(x, after, fence, m, j), Checker(x, after, fence, m, j + 1));
  }

  lemma PassNext(x: Setup, after: seq<Identity>, s: Sys, pid: nat, fence: nat, m: nat)
    requires |after| == |x.actions| && Progress(x, after, s, m)
    requires Shaped(x, Moved(s, pid, Checker(x, after, fence, m, |x.actions|)))
    ensures Next(x, Moved(s, pid, Checker(x, after, fence, m, |x.actions|)), CheckStep(pid),
                 Moved(s, pid, Worker(x, after, fence, m, m, Looking)))
  {
    assert Observed(x, after, m)[..|x.actions|] == Observed(x, after, m);
    MovedTwice(s, pid, Checker(x, after, fence, m, |x.actions|), Worker(x, after, fence, m, m, Looking));
  }

  /** The rest of preflight, from its `j`-th inspection on. */
  lemma {:induction false} CheckAll(x: Setup, after: seq<Identity>, states: seq<Sys>, steps: seq<Step>, s: Sys,
                                    pid: nat, fence: nat, m: nat, j: nat)
    returns (states': seq<Sys>, steps': seq<Step>)
    requires Undone(x, after) && j <= |x.actions| && Progress(x, after, s, m)
    requires Reaches(x, states, steps, Moved(s, pid, Checker(x, after, fence, m, j)))
    ensures Reaches(x, states', steps', Moved(s, pid, Worker(x, after, fence, m, m, Looking)))
    decreases |x.actions| - j
  {
    var now := Moved(s, pid, Checker(x, after, fence, m, j));
    ReachesShaped(x, states, steps, now);
    if j == |x.actions| {
      PassNext(x, after, s, pid, fence, m);
      states', steps' :=
        Extend(x, states, steps, now, CheckStep(pid), Moved(s, pid, Worker(x, after, fence, m, m, Looking)));
    } else {
      CheckNext(x, after, s, pid, fence, m, j);
      states', steps' :=
        Extend(x, states, steps, now, CheckStep(pid), Moved(s, pid, Checker(x, after, fence, m, j + 1)));
      states', steps' := CheckAll(x, after, states', steps', s, pid, fence, m, j + 1);
    }
  }

  /** A claim and a clean preflight. */
  lemma Start(x: Setup, after: seq<Identity>, states: seq<Sys>, steps: seq<Step>, s: Sys, pid: nat, m: nat)
    returns (states': seq<Sys>, steps': seq<Step>)
    requires Undone(x, after) && Reaches(x, states, steps, s) && Progress(x, after, s, m) && pid !in s.running
    ensures Progress(x, after, Claimed(s), m)
    ensures Reaches(x, states', steps', Moved(Claimed(s), pid, Worker(x, after, s.store.fence + 1, m, m, Looking)))
  {
    states', steps' := ClaimAndLoad(x, after, states, steps, s, pid, m);
    states', steps' := CheckAll(x, after, states', steps', Claimed(s), pid, s.store.fence + 1, m, 0);
  }

  // ------------------------------------------------------------- the actions

  /** An executor at action `k` of the plan. */
  function AtAction(x: Setup, after: seq<Identity>, s: Sys, pid: nat, fence: nat, m: nat, k: nat, stage: Stage): Sys
    requires |after| == |x.actions| && m <= k && m <= |x.actions|
  {
    Moved(s, pid, Worker(x, after, fence, m, k, stage))
  }

  lemma LookNext(x: Setup, after: seq<Identity>, s: Sys, pid: nat, fence: nat, m: nat, k: nat)
    requires Undone(x, after) && m <= k < |x.actions| && Progress(x, after, s, k)
    requires Shaped(x, AtAction(x, after, s, pid, fence, m, k, Looking))
    ensures Next(x, AtAction(x, after, s, pid, fence, m, k, Looking), LookStep(pid),
                 AtAction(x, after, s, pid, fence, m, k, Ready(x.actions[k].expected)))
  {
    assert NextAction(AtAction(x, after, s, pid, fence, m, k, Looking), pid) == k;
    MovedTwice(s, pid, Worker(x, after, fence, m, k, Looking),
               Worker(x, after, fence, m, k, Ready(x.actions[k].expected)));
  }

  /** The inspection before action `k`. */
  lemma Look(x: Setup, after: seq<Identity>, states: seq<Sys>, steps: seq<Step>, s: Sys, pid: nat, fence: nat, m: nat,
             k: nat)
    returns (states': seq<Sys>, steps': seq<Step>)
    requires Undone(x, after) && m <= k < |x.actions| && Progress(x, after, s, k)
    requires Reaches(x, states, steps, AtAction(x, after, s, pid, fence, m, k, Looking))
    ensures Reaches(x, states', steps', AtAction(x, after, s, pid, fence, m, k, Ready(x.actions[k].expected)))
  {
    ReachesShaped(x, states, steps, AtAction(x, after, s, pid, fence, m, k, Looking));
    LookNext(x, after, s, pid, fence, m, k);
    states', steps' := Extend(x, states, steps, AtAction(x, after, s, pid, fence, m, k, Looking), LookStep(pid),
                              AtAction(x, after, s, pid, fence, m, k, Ready(x.actions[k].expected)));
  }

  /** The world after one more effect on action `k`. */
  function Effected(x: Setup, after: seq<Identity>, s: Sys, k: nat): Sys
    requires |after| == |x.actions| == |s.obs| == |s.effects| && k < |x.actions|
  {
    s.(obs := s.obs[k := after[k]], effects := s.effects[k := s.effects[k] + 1])
  }

  lemma ApplyNext(x: Setup, after: seq<Identity>, s: Sys, pid: nat, fence: nat, m: nat, k: nat)
    requires Undone(x, after) && m <= k < |x.actions| == |s.obs| == |s.effects|
    requires Shaped(x, AtAction(x, after, s, pid, fence, m, k, Ready(x.actions[k].expected)))
    ensures Next(x, AtAction(x, after, s, pid, fence, m, k, Ready(x.actions[k].expected)), ApplyStep(pid),
                 AtAction(x, after, Effected(x, after, s, k), pid, fence, m, k, Acted(x.actions[k].expected)))
  {
    var ready, acted := Ready(x.actions[k].expected), Acted(x.actions[k].expected);
    assert NextAction(AtAction(x, after, s, pid, fence, m, k, ready), pid) == k;
    MovedTwice(Effected(x, after, s, k), pid, Worker(x, after, fence, m, k, ready),
               Worker(x, after, fence, m, k, acted));
  }

  lemma Apply(x: Setup, after: seq<Identity>, states: seq<Sys>, steps: seq<Step>, s: Sys, pid: nat, fence: nat, m: nat,
              k: nat)
    returns (states': seq<Sys>, steps': seq<Step>)
    requires Undone(x, after) && m <= k < |x.actions| == |s.obs| == |s.effects|
    requires Reaches(x, states, steps, AtAction(x, after, s, pid, fence, m, k, Ready(x.actions[k].expected)))
    ensures Reaches(x, states', steps', AtAction(x, after, Effected(x, after, s, k), pid, fence, m, k,
                                                 Acted(x.actions[k].expected)))
  {
    ReachesShaped(x, states, steps, AtAction(x, after, s, pid, fence, m, k, Ready(x.actions[k].expected)));
    ApplyNext(x, after, s, pid, fence, m, k);
    states', steps' := Extend(x, states, steps, AtAction(x, after, s, pid, fence, m, k, Ready(x.actions[k].expected)),
                              ApplyStep(pid),
                              AtAction(x, after, Effected(x, after, s, k), pid, fence, m, k,
                                       Acted(x.actions[k].expected)));
  }

  function ReceiptOf(x: Setup, after: seq<Identity>, k: nat): Receipt
    requires k < |x.actions| == |after|
  {
    Receipt(Applied, x.actions[k].expected, after[k])
  }

  function Receipted(x: Setup, after: seq<Identity>, s: Sys, k: nat): Sys
    requires |after| == |x.actions| == |s.store.states| && k < |x.actions|
  {
    s.(store := s.store.(states := s.store.states[k := Done],
                         receipts := s.store.receipts[k := ReceiptOf(x, after, k)]))
  }

  lemma VerifyNext(x: Setup, after: seq<Identity>, s: Sys, pid: nat, fence: nat, m: nat, k: nat)
    requires Undone(x, after) && m <= k < |x.actions| == |s.obs| && s.obs[k] == after[k]
    requires Shaped(x, AtAction(x, after, s, pid, fence, m, k, Acted(x.actions[k].expected)))
    ensures Next(x, AtAction(x, after, s, pid, fence, m, k, Acted(x.actions[k].expected)), VerifyStep(pid),
                 AtAction(x, after, s, pid, fence, m, k, Recording(ReceiptOf(x, after, k))))
  {
    var acted, recording := Acted(x.actions[k].expected), Recording(ReceiptOf(x, after, k));
    assert NextAction(AtAction(x, after, s, pid, fence, m, k, acted), pid) == k;
    MovedTwice(s, pid, Worker(x, after, fence, m, k, acted), Worker(x, after, fence, m, k, recording));
  }

  lemma RecordNext(x: Setup, after: seq<Identity>, s: Sys, pid: nat, fence: nat, m: nat, k: nat)
    requires Undone(x, after) && m <= k < |x.actions| == |s.store.states|
    requires s.store.phase == Executing && s.store.fence == fence && k !in s.store.receipts
             && s.store.states[k] == Planned
    requires Shaped(x, AtAction(x, after, s, pid, fence, m, k, Recording(ReceiptOf(x, after, k))))
    ensures Next(x, AtAction(x, after, s, pid, fence, m, k, Recording(ReceiptOf(x, after, k))), RecordStep(pid),
                 AtAction(x, after, Receipted(x, after, s, k), pid, fence, m, k + 1, Looking))
  {
    var recording := Recording(ReceiptOf(x, after, k));
    assert NextAction(AtAction(x, after, s, pid, fence, m, k, recording), pid) == k;
    MovedTwice(Receipted(x, after, s, k), pid, Worker(x, after, fence, m, k, recording),
               Worker(x, after, fence, m, k + 1, Looking));
  }

  lemma VerifyAndRecord(x: Setup, after: seq<Identity>, states: seq<Sys>, steps: seq<Step>, s: Sys,
                        pid: nat, fence: nat, m: nat, k: nat)
    returns (states': seq<Sys>, steps': seq<Step>)
    requires Undone(x, after) && m <= k < |x.actions| == |s.obs| == |s.store.states| && s.obs[k] == after[k]
    requires s.store.phase == Executing && s.store.fence == fence && k !in s.store.receipts
             && s.store.states[k] == Planned
    requires Reaches(x, states, steps, AtAction(x, after, s, pid, fence, m, k, Acted(x.actions[k].expected)))
    ensures Reaches(x, states', steps', AtAction(x, after, Receipted(x, after, s, k), pid, fence, m, k + 1, Looking))
  {
    var recording := AtAction(x, after, s, pid, fence, m, k, Recording(ReceiptOf(x, after, k)));
    ReachesShaped(x, states, steps, AtAction(x, after, s, pid, fence, m, k, Acted(x.actions[k].expected)));
    VerifyNext(x, after, s, pid, fence, m, k);
    states', steps' :=
      Extend(x, states, steps, AtAction(x, after, s, pid, fence, m, k, Acted(x.actions[k].expected)), VerifyStep(pid),
             recording);
    ReachesShaped(x, states', steps', recording);
    RecordNext(x, after, s, pid, fence, m, k);
    states', steps' := Extend(x, states', steps', recording, RecordStep(pid),
                              AtAction(x, after, Receipted(x, after, s, k), pid, fence, m, k + 1, Looking));
  }

  /** The world after action `k` is done and recorded. */
  function Finished(x: Setup, after: seq<Identity>, s: Sys, k: nat): Sys
    requires |after| == |x.actions| == |s.obs| == |s.effects| == |s.store.states| && k < |x.actions|
  {
    Receipted(x, after, Effected(x, after, s, k), k)
  }

  lemma FinishedIsProgress(x: Setup, after: seq<Identity>, s: Sys, k: nat)
    requires |after| == |x.actions| && k < |x.actions| && Progress(x, after, s, k)
    ensures Progress(x, after, Finished(x, after, s, k), k + 1)
  {
  }

  lemma Do(x: Setup, after: seq<Identity>, states: seq<Sys>, steps: seq<Step>, s: Sys, pid: nat, fence: nat, m: nat,
           k: nat)
    returns (states': seq<Sys>, steps': seq<Step>)
    requires Undone(x, after) && m <= k < |x.actions| && Progress(x, after, s, k)
    requires s.store.phase == Executing && s.store.fence == fence
    requires Reaches(x, states, steps, AtAction(x, after, s, pid, fence, m, k, Looking))
    ensures Reaches(x, states', steps', AtAction(x, after, Finished(x, after, s, k), pid, fence, m, k + 1, Looking))
  {
    states', steps' := Look(x, after, states, steps, s, pid, fence, m, k);
    states', steps' := Apply(x, after, states', steps', s, pid, fence, m, k);
    states', steps' := VerifyAndRecord(x, after, states', steps', Effected(x, after, s, k), pid, fence, m, k);
  }

  /** An executor works up to action `k`. */
  lemma {:induction false} DoUpTo(x: Setup, after: seq<Identity>, states: seq<Sys>, steps: seq<Step>, s: Sys,
                                  pid: nat, fence: nat, m: nat, i: nat, k: nat)
    returns (states': seq<Sys>, steps': seq<Step>, s': Sys)
    requires Undone(x, after) && m <= i <= k <= |x.actions| && Progress(x, after, s, i)
    requires s.store.phase == Executing && s.store.fence == fence
    requires Reaches(x, states, steps, AtAction(x, after, s, pid, fence, m, i, Looking))
    ensures Progress(x, after, s', k) && s'.running == s.running
    ensures Reaches(x, states', steps', AtAction(x, after, s', pid, fence, m, k, Looking))
    decreases k - i
  {
    if i == k {
      states', steps', s' := states, steps, s;
    } else {
      states', steps' := Do(x, after, states, steps, s, pid, fence, m, i);
      FinishedIsProgress(x, after, s, i);
      states', steps', s' := DoUpTo(x, after, states', steps', Finished(x, after, s, i), pid, fence, m, i + 1, k);
    }
  }

  // --------------------------------------------------------------- the overlap

  function Unclaimed(x: Setup, after: seq<Identity>): Sys
    requires |after| == |x.actions|
  {
    Sys(Store(Pending, 0, seq(|x.actions|, i => Planned), map[]), Observed(x, after, 0), seq(|x.actions|, i => 0),
        map[])
  }

  /** One executor at its work, about to act on `k`, and its lease about to run out. */
  lemma FirstIsReady(x: Setup, after: seq<Identity>, k: nat) returns (states: seq<Sys>, steps: seq<Step>, s: Sys)
    requires Undone(x, after) && k < |x.actions|
    ensures Progress(x, after, s, k) && Reaches(x, states, steps, s)
    ensures s.running == map[1 := Worker(x, after, 1, 0, k, Ready(x.actions[k].expected))]
  {
    s := Unclaimed(x, after);
    states, steps := [s], [];
    states, steps := Start(x, after, states, steps, s, 1, 0);
    states, steps, s := DoUpTo(x, after, states, steps, Claimed(s), 1, 1, 0, 0, k);
    states, steps := Look(x, after, states, steps, s, 1, 1, 0, k);
    s := states[|steps|];
  }

  /** Another executor claims the operation and inspects the same action. */
  lemma BothAreReady(x: Setup, after: seq<Identity>, k: nat)
    returns (states: seq<Sys>, steps: seq<Step>, s: Sys, fence: nat)
    requires Undone(x, after) && k < |x.actions|
    ensures Progress(x, after, s, k) && Reaches(x, states, steps, s)
    ensures s.running == map[1 := Worker(x, after, 1, 0, k, Ready(x.actions[k].expected)),
                             2 := Worker(x, after, fence, k, k, Ready(x.actions[k].expected))]
  {
    states, steps, s := FirstIsReady(x, after, k);
    fence := s.store.fence + 1;
    states, steps := Start(x, after, states, steps, s, 2, k);
    states, steps := Look(x, after, states, steps, Claimed(s), 2, fence, k, k);
    s := states[|steps|];
  }

  /**
   In every plan whose resources are as expected, every action has a run in which it has its
   effect twice: one executor inspects it and stalls until its lease has run out, a second
   claims the operation and acts, and then the first acts. The archive and all other actions
   before it have had theirs once.
   */
  lemma OverlapRepeatsEffect(x: Setup, after: seq<Identity>, k: nat) returns (states: seq<Sys>, steps: seq<Step>)
    requires Undone(x, after) && k < |x.actions|
    ensures Run(x, states, steps)
    ensures states[|steps|].effects == seq(|x.actions|, i => if i < k then 1 else if i == k then 2 else 0)
  {
    var s, fence;
    states, steps, s, fence := BothAreReady(x, after, k);
    var first, second := s.running[1], s.running[2];
    assert s == Moved(s, 2, second);
    states, steps := Apply(x, after, states, steps, s, 2, fence, k, k);
    s := states[|steps|];
    assert s == Moved(s, 1, first);
    states, steps := Apply(x, after, states, steps, s, 1, 1, 0, k);
  }

  // ------------------------------------------------------------------ a plan

  /**
   The plan of an analysis task: `session_exit` prompts the agent to exit without looking
   whether it has been prompted before, so doing it twice prompts twice.
   */
  function Example(): Setup {
    var archive: Identity := map["task_id" := "task:1"];
    var session: Identity := map["agent_name" := "mika", "pane_id" := "w1:p1", "session_id" := "s1"];
    var endpoint: Identity :=
      map["pane_id" := "w1:p1", "terminal_id" := "t1", "runtime_instance_id" := "r1", "runtime_generation" := "g1"];
    var callsign: Identity := map["assignment_id" := "a1", "callsign" := "mika", "expected_version" := "2"];
    Setup([Action("archive_identity_evidence", "archive", archive), Action("session_exit", "harness", session),
           Action("endpoint_close", "backend", endpoint), Action("callsign_release", "callsign", callsign)],
          {"archive", "harness", "backend", "callsign"},
          (a: Action, o: Identity) => o == Reached(a))
  }

  /** The intended state of an action of the example. */
  function Reached(a: Action): Identity {
    if a.kind == "archive_identity_evidence" then map["archived" := "true", "task_id" := "task:1"]
    else map["completed" := "true", "action" := a.kind]
  }

  function ReachedAll(actions: seq<Action>): seq<Identity> {
    seq(|actions|, i requires 0 <= i < |actions| => Reached(actions[i]))
  }

  /** It begins with the archive and goes on with the final actions that the policy requires. */
  lemma ExampleIsPlan()
    ensures |Example().actions| == 4 && Example().actions[0].kind == "archive_identity_evidence"
    ensures var policy := CleanupPlan.SelectPolicy("analysis", "completed", false);
            && policy.Ok?
            && [Example().actions[1].kind, Example().actions[2].kind, Example().actions[3].kind]
               == CleanupPlan.RequiredFinal(policy.value, false, false)
    ensures forall i | 1 <= i < 4 :: Example().actions[i].adapter == CleanupPlan.FinalAdapter(Example().actions[i].kind)
  {
  }

  /** None of its actions is done at first, so each of them can have its effect twice. */
  lemma ExampleIsUndone()
    ensures Undone(Example(), ReachedAll(Example().actions))
  {
    forall a | a in Example().actions
      ensures Reached(a) != a.expected
    {
      assert "archived" in Reached(a) || "completed" in Reached(a);
    }
  }

  /** So the agent can be prompted twice to exit. */
  lemma ExampleExitsTwice() returns (states: seq<Sys>, steps: seq<Step>)
    ensures Run(Example(), states, steps) && states[|steps|].effects == [1, 2, 0, 0]
  {
    ExampleIsUndone();
    states, steps := OverlapRepeatsEffect(Example(), ReachedAll(Example().actions), 1);
  }
}
