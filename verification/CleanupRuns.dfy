/**
 What holds over whole runs of cleanup executions: crashes at any point, between an
 effect and its receipt too, any number of later claims, and executors whose lease ran
 out while they were working.
 */
module CleanupRuns {
  import opened Prelude
  import opened CleanupSaga

  // ----------------------------------------------------- whose step it is

  function Actor(step: Step): Option<nat> { if step == Drift then None else Some(step.pid) }

  /** A step leaves all other executors as they are. */
  lemma OthersStay(x: Setup, s: Sys, step: Step, s': Sys, q: nat)
    requires Shaped(x, s) && Next(x, s, step, s') && Actor(step) != Some(q)
    ensures q in s.running <==> q in s'.running
    ensures q in s.running ==> s'.running[q] == s.running[q]
  {
  }

  // -------------------------------------------------------------- receipts

  /** Receipts form a prefix of the plan, and each names an intended state that was observed. */
  lemma ReceiptsFormPrefix(x: Setup, states: seq<Sys>, steps: seq<Step>, i: nat, k: nat)
    requires Run(x, states, steps) && i < |states| && k in states[i].store.receipts
    ensures k < |x.actions| && AllBefore(states[i].store, k) && ReceiptOk(x, k, states[i].store.receipts[k])
  {
    RunKeeps(x, states, steps, i);
  }

  /** A receipt once recorded is never changed or dropped, so an action has at most one. */
  lemma {:induction false} ReceiptsAreFinal(x: Setup, states: seq<Sys>, steps: seq<Step>, i: nat, j: nat)
    requires Run(x, states, steps) && i <= j < |states|
    ensures StoreGrows(states[i].store, states[j].store)
    decreases j
  {
    if i == j {
    } else {
      ReceiptsAreFinal(x, states, steps, i, j - 1);
      RunStep(x, states, steps, j - 1);
    }
  }

  // ------------------------------------------------------ before an effect

  /** An effect on an action comes after the receipts of all actions before it, so after the archive's. */
  lemma EffectAfterReceipts(x: Setup, states: seq<Sys>, steps: seq<Step>, i: nat, k: nat)
    requires Run(x, states, steps) && i < |steps| && k < |x.actions|
    requires |states[i].effects| == |states[i + 1].effects| == |x.actions|
    requires states[i + 1].effects[k] != states[i].effects[k]
    ensures steps[i].ApplyStep? && HasNext(states[i], steps[i].pid) && k == NextAction(states[i], steps[i].pid)
    ensures states[i + 1].effects[k] == states[i].effects[k] + 1
    ensures AllBefore(states[i].store, k)
  {
    RunStep(x, states, steps, i);
    NextIsAfterReceipts(x, states[i], steps[i].pid);
  }

  /** The step that made an executor ready. */
  lemma ReadyStep(x: Setup, s: Sys, step: Step, s': Sys, pid: nat)
    requires Inv(x, s) && Shaped(x, s) && Next(x, s, step, s')
    requires HasNext(s', pid) && s'.running[pid].stage.Ready?
    ensures pid in s.running
    ensures || s.running[pid] == s'.running[pid]
            || (&& step == LookStep(pid) && HasNext(s, pid) && NextAction(s, pid) == NextAction(s', pid) < |s.obs|
                && s.obs[NextAction(s, pid)] == s'.running[pid].stage.before)
  {
    if Actor(step) != Some(pid) {
      OthersStay(x, s, step, s', pid);
    }
  }

  /** Only preflight extends what an executor has seen. */
  lemma SeenStays(x: Setup, s: Sys, step: Step, s': Sys, pid: nat)
    requires Inv(x, s) && Shaped(x, s) && Next(x, s, step, s') && pid in s'.running && step != CheckStep(pid)
    ensures if pid in s.running then s'.running[pid].seen == s.running[pid].seen else s'.running[pid].seen == []
    ensures pid in s.running && s.running[pid].seen != [] ==> s'.running[pid].done == s.running[pid].done
  {
    if Actor(step) != Some(pid) {
      OthersStay(x, s, step, s', pid);
    } else if step.LoadStep? {
      assert ExecutorOk(x, s.store, s.running[pid]);
    }
  }

  lemma CheckSees(x: Setup, s: Sys, s': Sys, pid: nat, k: nat)
    requires Inv(x, s) && Shaped(x, s) && Next(x, s, CheckStep(pid), s') && pid in s'.running
             && k < |s'.running[pid].seen|
    ensures pid in s.running && s'.running[pid].done == s.running[pid].done
    ensures || (k < |s.running[pid].seen| && s'.running[pid].seen[k] == s.running[pid].seen[k])
            || (k < |s.obs| && s'.running[pid].seen[k] == s.obs[k])
  {
    assert ExecutorOk(x, s.store, s.running[pid]);
  }

  /** The step that checked an action in preflight. */
  lemma SeenStep(x: Setup, s: Sys, step: Step, s': Sys, pid: nat, k: nat)
    requires Inv(x, s) && Shaped(x, s) && Next(x, s, step, s') && pid in s'.running && k < |s'.running[pid].seen|
    ensures pid in s.running
    ensures || (k < |s.running[pid].seen| && s.running[pid].seen[k] == s'.running[pid].seen[k]
                && s.running[pid].done == s'.running[pid].done)
            || (step == CheckStep(pid) && k < |s.obs| && s'.running[pid].seen[k] == s.obs[k])
  {
    if step == CheckStep(pid) {
      CheckSees(x, s, s', pid, k);
    } else {
      SeenStays(x, s, step, s', pid);
    }
  }

  /**
   `apply` is called only after an inspection of the same executor that showed exactly
   the expected identity and not the intended state.
   */
  lemma {:induction false} ReadyWasInspected(x: Setup, states: seq<Sys>, steps: seq<Step>, i: nat, pid: nat)
      returns (j: nat)
    requires Run(x, states, steps) && i < |states| && HasNext(states[i], pid) && states[i].running[pid].stage.Ready?
    ensures j < i && steps[j] == LookStep(pid)
    ensures var k := NextAction(states[i], pid);
            k < |x.actions| == |states[j].obs| && states[j].obs[k] == x.actions[k].expected
                && !Intended(x, k, states[j].obs[k])
    ensures forall m | j < m <= i :: pid in states[m].running && states[m].running[pid] == states[i].running[pid]
  {
    assert i > 0;
    RunStep(x, states, steps, i - 1);
    assert ExecutorOk(x, states[i].store, states[i].running[pid]);
    ReadyStep(x, states[i - 1], steps[i - 1], states[i], pid);
    if states[i - 1].running[pid] == states[i].running[pid] {
      j := ReadyWasInspected(x, states, steps, i - 1, pid);
    } else {
      j := i - 1;
    }
  }

  /** An executor has seen an action before, or has just checked it and found it acceptable. */
  lemma SeenAt(x: Setup, states: seq<Sys>, steps: seq<Step>, i: nat, pid: nat, k: nat)
    requires Run(x, states, steps) && i < |steps| && pid in states[i + 1].running
             && k < |states[i + 1].running[pid].seen|
    ensures pid in states[i].running && k < |x.actions| == |states[i + 1].running[pid].done|
    ensures || (k < |states[i].running[pid].seen| && states[i].running[pid].done == states[i + 1].running[pid].done)
            || (&& steps[i] == CheckStep(pid) && |states[i].obs| == |x.actions|
                && (|| Intended(x, k, states[i].obs[k])
                    || (!states[i + 1].running[pid].done[k] && states[i].obs[k] == x.actions[k].expected)))
  {
    RunStep(x, states, steps, i);
    var e := states[i + 1].running[pid];
    assert ExecutorOk(x, states[i + 1].store, e) && PreflightOk(x, e, k);
    SeenStep(x, states[i], steps[i], states[i + 1], pid, k);
  }

  /** An executor is at work from one moment to another. */
  predicate Alive(states: seq<Sys>, j: nat, i: nat, pid: nat)
    requires i < |states|
  {
    forall m | j <= m <= i :: pid in states[m].running
  }

  /** Every action an executor has seen in preflight was acceptable when it was seen. */
  lemma {:induction false} SeenWasAcceptable(x: Setup, states: seq<Sys>, steps: seq<Step>, i: nat, pid: nat, k: nat)
      returns (j: nat)
    requires Run(x, states, steps) && i < |states| && pid in states[i].running && k < |states[i].running[pid].seen|
    ensures j < i && steps[j] == CheckStep(pid) && k < |x.actions| == |states[j].obs|
    ensures |states[i].running[pid].done| == |x.actions|
    ensures Intended(x, k, states[j].obs[k])
         || (!states[i].running[pid].done[k] && states[j].obs[k] == x.actions[k].expected)
    ensures Alive(states, j, i, pid)
  {
    assert i > 0;
    SeenAt(x, states, steps, i - 1, pid, k);
    var e, e' := states[i - 1].running[pid], states[i].running[pid];
    if k < |e.seen| && e.done == e'.done {
      j := SeenWasAcceptable(x, states, steps, i - 1, pid, k);
    } else {
      j := i - 1;
    }
  }

  /** So an executor acts only after a preflight, in the same execution, in which every action was acceptable. */
  lemma EffectAfterCleanPreflight(x: Setup, states: seq<Sys>, steps: seq<Step>, i: nat, k: nat) returns (j: nat)
    requires Run(x, states, steps) && i < |steps| && steps[i].ApplyStep? && k < |x.actions|
    ensures j < i && steps[j] == CheckStep(steps[i].pid) && |states[j].obs| == |x.actions|
    ensures Intended(x, k, states[j].obs[k]) || states[j].obs[k] == x.actions[k].expected
    ensures Alive(states, j, i, steps[i].pid)
  {
    RunStep(x, states, steps, i);
    assert ExecutorOk(x, states[i].store, states[i].running[steps[i].pid]);
    j := SeenWasAcceptable(x, states, steps, i, steps[i].pid, k);
  }

  /** An executor that is still checking has applied nothing since its claim. */
  lemma {:induction false} CheckingHasNoEffect(x: Setup, states: seq<Sys>, steps: seq<Step>, c: nat, i: nat, pid: nat)
    requires Run(x, states, steps) && c <= i < |states|
    requires forall m | c <= m <= i :: pid in states[m].running
    requires states[i].running[pid].stage in {Loading, Checking}
    ensures forall m | c <= m < i :: steps[m] != ApplyStep(pid)
    decreases i
  {
    if c == i {
    } else {
      EarlyStage(x, states, steps, i - 1, pid);
      CheckingHasNoEffect(x, states, steps, c, i - 1, pid);
    }
  }

  lemma EarlyStage(x: Setup, states: seq<Sys>, steps: seq<Step>, i: nat, pid: nat)
    requires Run(x, states, steps) && i < |steps| && pid in states[i].running && pid in states[i + 1].running
    requires states[i + 1].running[pid].stage in {Loading, Checking}
    ensures states[i].running[pid].stage in {Loading, Checking} && steps[i] != ApplyStep(pid)
  {
    assert StepAt(x, states, steps, i);
  }

  /**
   If preflight finds a drifted or regressed action, the executor that found it is gone,
   and it has had no effect at all.
   */
  lemma RefusedPreflightHasNoEffect(x: Setup, states: seq<Sys>, steps: seq<Step>, c: nat, i: nat, pid: nat)
    requires Run(x, states, steps) && c <= i < |steps|
    requires forall m | c <= m <= i :: pid in states[m].running
    requires steps[i] == CheckStep(pid) && |states[i].running[pid].seen| < |x.actions|
    requires |states[i].running[pid].done| == |states[i].obs| == |x.actions|
    requires var e := states[i].running[pid]; Objection(x, e, states[i].obs[|e.seen|]).Some?
    ensures pid !in states[i + 1].running && states[i + 1].effects == states[i].effects
    ensures forall m | c <= m < i :: steps[m] != ApplyStep(pid)
  {
    RunStep(x, states, steps, i);
    CheckingHasNoEffect(x, states, steps, c, i, pid);
  }

  // ----------------------------------------------------------- at most once

  /** Step `i` has an effect on action `k`. */
  predicate EffectOn(states: seq<Sys>, steps: seq<Step>, i: nat, k: nat) {
    && i < |steps| < |states| && k < |states[i].effects| == |states[i + 1].effects|
    && states[i + 1].effects[k] != states[i].effects[k]
  }

  /**
   The effect of step `i` on action `k` rests on an outdated inspection: its executor
   inspected the action at step `l` and did nothing since, and at `j` in between another
   executor had that effect.
   */
  predicate Outdated(states: seq<Sys>, steps: seq<Step>, l: nat, j: nat, i: nat, k: nat) {
    && l < j < i && EffectOn(states, steps, j, k) && EffectOn(states, steps, i, k)
    && steps[i].ApplyStep? && steps[l] == LookStep(steps[i].pid)
    && forall m | l < m < i :: Actor(steps[m]) != Some(steps[i].pid)
  }

  ghost predicate Overtaken(states: seq<Sys>, steps: seq<Step>, i: nat, k: nat) {
    exists l: nat, j: nat :: Outdated(states, steps, l, j, i, k)
  }

  /** An effect is one more effect, and one on a known action of the plan. */
  lemma EffectIsOne(x: Setup, states: seq<Sys>, steps: seq<Step>, i: nat, k: nat)
    requires Run(x, states, steps) && i < |steps| && k < |x.actions|
    ensures |states[i].effects| == |states[i + 1].effects| == |x.actions|
    ensures states[i + 1].effects[k] == states[i].effects[k] + if EffectOn(states, steps, i, k) then 1 else 0
  {
    RunStep(x, states, steps, i);
    if EffectOn(states, steps, i, k) {
      EffectAfterReceipts(x, states, steps, i, k);
    }
  }

  lemma {:induction false} EffectsGrow(x: Setup, states: seq<Sys>, steps: seq<Step>, i: nat, n: nat, k: nat)
    requires Run(x, states, steps) && i <= n < |states| && k < |x.actions|
    ensures |states[i].effects| == |states[n].effects| == |x.actions|
    ensures states[i].effects[k] <= states[n].effects[k]
    decreases n
  {
    if i == n {
      RunKeeps(x, states, steps, i);
    } else {
      EffectsGrow(x, states, steps, i, n - 1, k);
      EffectIsOne(x, states, steps, n - 1, k);
    }
  }

  /** The step at which the effects on an action go beyond `v`. */
  lemma {:induction false} EffectBeyond(x: Setup, states: seq<Sys>, steps: seq<Step>, a: nat, n: nat, k: nat, v: nat)
    returns (i: nat)
    requires Run(x, states, steps) && a <= n < |states| && k < |x.actions|
    requires |states[a].effects| == |states[n].effects| == |x.actions|
    requires states[a].effects[k] <= v < states[n].effects[k]
    ensures a <= i < n && EffectOn(states, steps, i, k) && states[i].effects[k] == v
    decreases n
  {
    EffectIsOne(x, states, steps, n - 1, k);
    if states[n - 1].effects[k] > v {
      i := EffectBeyond(x, states, steps, a, n - 1, k, v);
    } else {
      i := n - 1;
    }
  }

  /** An executor that stays ready takes no step. */
  lemma ReadyIsIdle(x: Setup, s: Sys, step: Step, s': Sys, pid: nat)
    requires Shaped(x, s) && Next(x, s, step, s')
    requires pid in s.running && pid in s'.running && s'.running[pid] == s.running[pid] && s.running[pid].stage.Ready?
    ensures Actor(step) != Some(pid)
  {
  }

  lemma ReadyStaysIdle(x: Setup, states: seq<Sys>, steps: seq<Step>, m: nat, pid: nat, e: Executor)
    requires Run(x, states, steps) && m < |steps| && e.stage.Ready?
    requires pid in states[m].running && states[m].running[pid] == e
    requires pid in states[m + 1].running && states[m + 1].running[pid] == e
    ensures Actor(steps[m]) != Some(pid)
  {
    assert StepAt(x, states, steps, m);
    ReadyIsIdle(x, states[m], steps[m], states[m + 1], pid);
  }

  /** What is inspected as expected has had no effect so far. */
  lemma LookedWithoutEffect(x: Setup, states: seq<Sys>, steps: seq<Step>, l: nat, k: nat, pid: nat)
    requires Run(x, states, steps) && l < |steps| && k < |x.actions| && steps[l] == LookStep(pid)
    requires k < |states[l].obs| && states[l].obs[k] == x.actions[k].expected && !Intended(x, k, states[l].obs[k])
    ensures |states[l].effects| == |states[l + 1].effects| == |x.actions|
    ensures states[l].effects[k] == states[l + 1].effects[k] == 0
  {
    RunStep(x, states, steps, l);
  }

  /** What was inspected as expected had had no effect at the inspection. */
  lemma InspectedWithoutEffect(x: Setup, states: seq<Sys>, steps: seq<Step>, i: nat, k: nat) returns (l: nat)
    requires Run(x, states, steps) && EffectOn(states, steps, i, k) && k < |x.actions|
    ensures steps[i].ApplyStep? && l < i && steps[l] == LookStep(steps[i].pid)
    ensures forall m | l < m < i :: Actor(steps[m]) != Some(steps[i].pid)
    ensures |states[l].effects| == |states[l + 1].effects| == |x.actions|
    ensures states[l].effects[k] == states[l + 1].effects[k] == 0
  {
    RunStep(x, states, steps, i);
    EffectAfterReceipts(x, states, steps, i, k);
    var pid := steps[i].pid;
    l := ReadyWasInspected(x, states, steps, i, pid);
    LookedWithoutEffect(x, states, steps, l, k, pid);
    forall m | l < m < i
      ensures Actor(steps[m]) != Some(pid)
    {
      assert pid in states[m].running && pid in states[m + 1].running;
      ReadyStaysIdle(x, states, steps, m, pid, states[i].running[pid]);
    }
  }

  /** An effect after an effect rests on an inspection before the first. */
  lemma SecondIsOutdated(x: Setup, states: seq<Sys>, steps: seq<Step>, i: nat, k: nat)
    requires Run(x, states, steps) && EffectOn(states, steps, i, k) && k < |x.actions| && states[i].effects[k] > 0
    ensures Overtaken(states, steps, i, k)
  {
    var l := InspectedWithoutEffect(x, states, steps, i, k);
    RunKeeps(x, states, steps, i);
    var j := EffectBeyond(x, states, steps, l + 1, i, k, 0);
    assert Outdated(states, steps, l, j, i, k);
  }

  /**
   An action has had its effect at most once if and only if no executor acted on it after
   another had done so since its own inspection: whatever crashes, drift, lapsed leases
   and stale executors there are, nothing else repeats an effect.
   */
  lemma AppliedOnceExactly(x: Setup, states: seq<Sys>, steps: seq<Step>, n: nat, k: nat)
    requires Run(x, states, steps) && n < |states| && k < |x.actions|
    ensures k < |states[n].effects|
    ensures states[n].effects[k] <= 1 <==> forall i: nat | i < n :: !Overtaken(states, steps, i, k)
  {
    EffectsGrow(x, states, steps, 0, n, k);
    if states[n].effects[k] > 1 {
      var i := EffectBeyond(x, states, steps, 0, n, k, 1);
      SecondIsOutdated(x, states, steps, i, k);
    }
    forall i: nat | i < n && Overtaken(states, steps, i, k)
      ensures states[n].effects[k] > 1
    {
      var l: nat, j: nat :| Outdated(states, steps, l, j, i, k);
      EffectIsOne(x, states, steps, j, k);
      EffectsGrow(x, states, steps, j + 1, i, k);
      EffectIsOne(x, states, steps, i, k);
      EffectsGrow(x, states, steps, i + 1, n, k);
    }
  }

  // ------------------------------------------- while no lease runs out early

  /** Effects are only ever had by executors whose fence is the current one: no lease runs out under an effect. */
  predicate Exclusive(states: seq<Sys>, steps: seq<Step>) {
    |states| == |steps| + 1 &&
    forall i | 0 <= i < |steps| && steps[i].ApplyStep? ::
      steps[i].pid in states[i].running && states[i].running[steps[i].pid].fence == states[i].store.fence
  }

  /** All actions were completed when the executor read the operation, so it has nothing to do. */
  predicate NothingToDo(e: Executor) {
    forall k | 0 <= k < |e.done| :: e.done[k]
  }

  /** Executors share the current fence only after completion, and then they have nothing to do. */
  predicate AloneOk(s: Sys) {
    && (forall p <- s.running :: s.running[p].fence <= s.store.fence)
    && (forall p <- s.running, q <- s.running :: p != q && s.running[p].fence == s.running[q].fence == s.store.fence ==>
          s.store.phase == Completed)
    && (s.store.phase == Completed ==>
          forall p <- s.running :: s.running[p].fence == s.store.fence ==> NothingToDo(s.running[p]))
  }

  lemma IdleHasNoNext(x: Setup, s: Store, e: Executor)
    requires ExecutorOk(x, s, e) && NothingToDo(e)
    ensures e.prepared == []
  {
    if |e.prepared| > 0 {
      PreparedIsUndone(x, s, e, 0);
      assert false;
    }
  }

  lemma PreparedIsUndone(x: Setup, s: Store, e: Executor, j: nat)
    requires ExecutorOk(x, s, e) && j < |e.prepared|
    ensures e.prepared[j] < |e.done| && !e.done[e.prepared[j]]
  {
    assert e.stage != Loading;
  }

  /** One executor goes on, or ends; where the operation is completed, by an executor with the current fence. */
  lemma AloneStays(s: Sys, s': Sys, pid: nat)
    requires AloneOk(s) && pid in s.running && s'.store.fence == s.store.fence
    requires forall q <- s'.running :: q in s.running && (q != pid ==> s'.running[q] == s.running[q])
    requires pid in s'.running ==> s'.running[pid].fence == s.running[pid].fence && s'.store.phase == s.store.phase
    requires pid in s'.running && NothingToDo(s.running[pid]) && s.store.phase == Completed
             ==> NothingToDo(s'.running[pid])
    requires s'.store.phase == s.store.phase || (s.store.phase == Executing && s'.store.phase != Completed)
          || (s'.store.phase == Completed && s.running[pid].fence == s.store.fence && pid !in s'.running)
    ensures AloneOk(s')
  {
  }

  lemma RefusedAlone(s: Sys, pid: nat, code: Refusal)
    requires AloneOk(s) && pid in s.running
    ensures AloneOk(Refused(s, pid, code))
  {
    AloneStays(s, Refused(s, pid, code), pid);
  }

  /** An executor goes on with what it has read. */
  lemma MovedAlone(s: Sys, s': Sys, pid: nat)
    requires AloneOk(s) && pid in s.running && pid in s'.running && s'.running == s.running[pid := s'.running[pid]]
    requires s'.store.fence == s.store.fence && s'.store.phase == s.store.phase
    requires s'.running[pid].fence == s.running[pid].fence && s'.running[pid].done == s.running[pid].done
    ensures AloneOk(s')
  {
    AloneStays(s, s', pid);
  }

  lemma LoadAlone(x: Setup, s: Sys, step: Step, s': Sys)
    requires Inv(x, s) && Shaped(x, s) && AloneOk(s) && Next(x, s, step, s') && step.LoadStep?
    ensures AloneOk(s')
  {
    AloneStays(s, s', step.pid);
  }

  lemma CheckAlone(x: Setup, s: Sys, step: Step, s': Sys)
    requires Inv(x, s) && Shaped(x, s) && AloneOk(s) && Next(x, s, step, s') && step.CheckStep?
    ensures AloneOk(s')
  {
    var e := s.running[step.pid];
    if step.pid in s'.running {
      MovedAlone(s, s', step.pid);
    } else {
      RefusedAlone(s, step.pid, Objection(x, e, s.obs[|e.seen|]).value);
    }
  }

  lemma LookAlone(x: Setup, s: Sys, step: Step, s': Sys)
    requires Inv(x, s) && Shaped(x, s) && AloneOk(s) && Next(x, s, step, s') && step.LookStep?
    ensures AloneOk(s')
  {
    if step.pid in s'.running {
      MovedAlone(s, s', step.pid);
    } else {
      RefusedAlone(s, step.pid, IdentityMismatch);
    }
  }

  lemma VerifyAlone(x: Setup, s: Sys, step: Step, s': Sys)
    requires Inv(x, s) && Shaped(x, s) && AloneOk(s) && Next(x, s, step, s') && step.VerifyStep?
    ensures AloneOk(s')
  {
    if step.pid in s'.running {
      MovedAlone(s, s', step.pid);
    } else {
      RefusedAlone(s, step.pid, VerificationFailed);
    }
  }

  lemma RecordAlone(x: Setup, s: Sys, step: Step, s': Sys)
    requires Inv(x, s) && Shaped(x, s) && AloneOk(s) && Next(x, s, step, s') && step.RecordStep?
    ensures AloneOk(s')
  {
    var r := Record(s.store, s.running[step.pid].fence, NextAction(s, step.pid), s.running[step.pid].stage.receipt);
    if r.Ok? {
      MovedAlone(s, s', step.pid);
    } else {
      RefusedAlone(s, step.pid, r.error);
    }
  }

  lemma FinalizeAlone(x: Setup, s: Sys, step: Step, s': Sys)
    requires Inv(x, s) && Shaped(x, s) && AloneOk(s) && Next(x, s, step, s') && step.FinalizeStep?
    ensures AloneOk(s')
  {
    var r := Finalize(s.store, s.running[step.pid].fence);
    if r.Ok? {
      AloneStays(s, s', step.pid);
    } else {
      RefusedAlone(s, step.pid, r.error);
    }
  }

  lemma ClaimAlone(x: Setup, s: Sys, step: Step, s': Sys)
    requires Shaped(x, s) && AloneOk(s) && Next(x, s, step, s') && step.ClaimStep?
    ensures AloneOk(s')
  {
  }

  lemma StepAlone(x: Setup, s: Sys, step: Step, s': Sys)
    requires Inv(x, s) && Shaped(x, s) && AloneOk(s) && Next(x, s, step, s')
    ensures AloneOk(s')
  {
    match step
    case ClaimStep(_, _, _) => ClaimAlone(x, s, step, s');
    case LoadStep(_) => LoadAlone(x, s, step, s');
    case CheckStep(_) => CheckAlone(x, s, step, s');
    case LookStep(_) => LookAlone(x, s, step, s');
    case ApplyStep(pid) => MovedAlone(s, s', pid);
    case VerifyStep(_) => VerifyAlone(x, s, step, s');
    case RecordStep(_) => RecordAlone(x, s, step, s');
    case FinalizeStep(_) => FinalizeAlone(x, s, step, s');
    case RaiseStep(pid, code) => RefusedAlone(s, pid, code);
    case CrashStep(pid) => AloneStays(s, s', pid);
    case Drift =>
  }

  lemma {:induction false} RunAlone(x: Setup, states: seq<Sys>, steps: seq<Step>, i: nat)
    requires Run(x, states, steps) && i < |states|
    ensures AloneOk(states[i])
  {
    if i == 0 {
    } else {
      RunAlone(x, states, steps, i - 1);
      RunStep(x, states, steps, i - 1);
      StepAlone(x, states[i - 1], steps[i - 1], states[i]);
    }
  }

  /** Of two executors none has work to do with the current fence, unless the other has another fence. */
  lemma OneHasWork(x: Setup, s: Sys, p: nat, q: nat)
    requires Inv(x, s) && AloneOk(s) && p in s.running && HasNext(s, q) && p != q
    requires s.running[q].fence == s.store.fence
    ensures s.running[p].fence < s.store.fence
  {
    if s.running[p].fence == s.store.fence {
      assert ExecutorOk(x, s.store, s.running[q]);
      IdleHasNoNext(x, s.store, s.running[q]);
      assert false;
    }
  }

  /** Two executors that overlap on an action do not both act with the current fence. */
  lemma OutdatedIsStale(x: Setup, states: seq<Sys>, steps: seq<Step>, l: nat, j: nat, i: nat, k: nat)
    requires Run(x, states, steps) && Outdated(states, steps, l, j, i, k) && k < |x.actions|
    ensures !Exclusive(states, steps)
  {
    RunStep(x, states, steps, i);
    RunStep(x, states, steps, j);
    RunAlone(x, states, steps, j);
    EffectAfterReceipts(x, states, steps, j, k);
    StaysWhileIdle(x, states, steps, j, i, steps[i].pid);
    ReceiptsAreFinal(x, states, steps, j, i);
    if Exclusive(states, steps) {
      OneHasWork(x, states[j], steps[i].pid, steps[j].pid);
      assert false;
    }
  }

  /** Without a step of its own an executor stays as it is. */
  lemma {:induction false} StaysWhileIdle(x: Setup, states: seq<Sys>, steps: seq<Step>, j: nat, i: nat, pid: nat)
    requires Run(x, states, steps) && j <= i < |states| && pid in states[i].running
    requires forall m | j <= m < i :: Actor(steps[m]) != Some(pid)
    ensures pid in states[j].running && states[j].running[pid] == states[i].running[pid]
    decreases i
  {
    if j == i {
    } else {
      RunStep(x, states, steps, i - 1);
      OthersStay(x, states[i - 1], steps[i - 1], states[i], pid);
      StaysWhileIdle(x, states, steps, j, i - 1, pid);
    }
  }

  /** So no action ever has its effect twice as long as no lease runs out under an effect. */
  lemma AppliedAtMostOnce(x: Setup, states: seq<Sys>, steps: seq<Step>, n: nat, k: nat)
    requires Run(x, states, steps) && Exclusive(states, steps) && n < |states| && k < |x.actions|
    ensures k < |states[n].effects| && states[n].effects[k] <= 1
  {
    AppliedOnceExactly(x, states, steps, n, k);
    forall i: nat | i < n
      ensures !Overtaken(states, steps, i, k)
    {
      if Overtaken(states, steps, i, k) {
        var l: nat, j: nat :| Outdated(states, steps, l, j, i, k);
        OutdatedIsStale(x, states, steps, l, j, i, k);
      }
    }
  }

  // ----------------------------------------------------------- finalization

  /** A finalized operation has, for good, one receipt for each action, of an intended state. */
  lemma FinalizedHasReceipts(x: Setup, states: seq<Sys>, steps: seq<Step>, i: nat, k: nat)
    requires Run(x, states, steps) && i < |states| && states[i].store.phase == Completed && k < |x.actions|
    ensures k in states[i].store.receipts && Intended(x, k, states[i].store.receipts[k].after)
  {
    RunKeeps(x, states, steps, i);
  }

  /** Nobody else undoes what is in its intended state. */
  predicate Stable(x: Setup, states: seq<Sys>, steps: seq<Step>)
    requires Run(x, states, steps)
  {
    forall i | 0 <= i < |steps| && steps[i] == Drift :: Undisturbed(x, states[i], states[i + 1])
  }

  predicate Undisturbed(x: Setup, s: Sys, s': Sys) {
    |s.obs| == |s'.obs| == |x.actions| &&
    forall k | 0 <= k < |x.actions| && Intended(x, k, s.obs[k]) :: Intended(x, k, s'.obs[k])
  }

  /** The executor has found the action intended: completed in preflight, recorded, or about to be. */
  predicate Confirmed(e: Executor, k: nat) {
    || (k < |e.seen| && k < |e.done| && e.done[k])
    || (e.next <= |e.prepared| && k in e.prepared[..e.next])
    || (e.stage.Recording? && e.next < |e.prepared| && e.prepared[e.next] == k)
  }

  predicate ConfirmedOk(x: Setup, s: Sys) {
    |s.obs| == |x.actions| &&
    forall pid <- s.running, k | 0 <= k < |x.actions| && Confirmed(s.running[pid], k) :: Intended(x, k, s.obs[k])
  }

  /** What becomes confirmed has just been observed in its intended state. */
  lemma NewlyConfirmed(x: Setup, s: Sys, step: Step, s': Sys, pid: nat, k: nat)
    requires Inv(x, s) && Shaped(x, s) && Next(x, s, step, s') && pid in s'.running && k < |x.actions|
    requires Confirmed(s'.running[pid], k)
    ensures pid in s.running
    ensures Confirmed(s.running[pid], k) || (s'.obs == s.obs && Intended(x, k, s.obs[k]))
  {
    match step
    case CheckStep(_) => CheckConfirms(x, s, step, s', pid, k);
    case LookStep(_) => ObservedConfirms(x, s, step, s', pid, k);
    case VerifyStep(_) => ObservedConfirms(x, s, step, s', pid, k);
    case RecordStep(_) => RecordConfirms(x, s, step, s', pid, k);
    case _ => OtherConfirms(x, s, step, s', pid, k);
  }

  lemma OtherConfirms(x: Setup, s: Sys, step: Step, s': Sys, pid: nat, k: nat)
    requires Inv(x, s) && Shaped(x, s) && Next(x, s, step, s') && pid in s'.running
    requires !step.CheckStep? && !step.LookStep? && !step.VerifyStep? && !step.RecordStep?
    requires Confirmed(s'.running[pid], k)
    ensures pid in s.running && Confirmed(s.running[pid], k)
  {
    if pid in s.running {
      assert ExecutorOk(x, s.store, s.running[pid]);
    }
  }

  lemma ObservedConfirms(x: Setup, s: Sys, step: Step, s': Sys, pid: nat, k: nat)
    requires Inv(x, s) && Shaped(x, s) && Next(x, s, step, s') && pid in s'.running && k < |x.actions|
    requires step.LookStep? || step.VerifyStep?
    requires Confirmed(s'.running[pid], k)
    ensures pid in s.running && (Confirmed(s.running[pid], k) || (s'.obs == s.obs && Intended(x, k, s.obs[k])))
  {
  }

  lemma CheckConfirms(x: Setup, s: Sys, step: Step, s': Sys, pid: nat, k: nat)
    requires Inv(x, s) && Shaped(x, s) && Next(x, s, step, s') && pid in s'.running && k < |x.actions|
    requires step.CheckStep? && Confirmed(s'.running[pid], k)
    ensures pid in s.running && (Confirmed(s.running[pid], k) || (s'.obs == s.obs && Intended(x, k, s.obs[k])))
  {
    var e := s.running[step.pid];
    assert ExecutorOk(x, s.store, e);
    if pid == step.pid && |e.seen| < |x.actions| {
      SeenConfirms(x, s.store, e, s.obs[|e.seen|], k);
    }
  }

  lemma SeenConfirms(x: Setup, s: Store, e: Executor, o: Identity, k: nat)
    requires ExecutorOk(x, s, e) && e.stage == Checking && |e.seen| < |x.actions| && Objection(x, e, o).None?
    requires Confirmed(Seen(e, o), k)
    ensures Confirmed(e, k) || (k == |e.seen| && Intended(x, k, o))
  {
  }

  lemma RecordConfirms(x: Setup, s: Sys, step: Step, s': Sys, pid: nat, k: nat)
    requires Inv(x, s) && Shaped(x, s) && Next(x, s, step, s') && pid in s'.running
    requires step.RecordStep? && Confirmed(s'.running[pid], k)
    ensures pid in s.running && Confirmed(s.running[pid], k)
  {
    if pid != step.pid {
      OthersStay(x, s, step, s', pid);
    } else {
      assert Record(s.store, s.running[pid].fence, NextAction(s, pid), s.running[pid].stage.receipt).Ok?;
      NextConfirms(s.running[pid], s'.running[pid], k);
    }
  }

  lemma NextConfirms(e: Executor, e': Executor, k: nat)
    requires e.next < |e.prepared| && e.stage.Recording? && e' == e.(next := e.next + 1, stage := Looking)
    requires Confirmed(e', k)
    ensures Confirmed(e, k)
  {
    assert e.prepared[..e.next + 1] == e.prepared[..e.next] + [e.prepared[e.next]];
  }

  lemma StepConfirms(x: Setup, s: Sys, step: Step, s': Sys)
    requires Inv(x, s) && Shaped(x, s) && ConfirmedOk(x, s) && Next(x, s, step, s')
    requires step == Drift ==> Undisturbed(x, s, s')
    ensures ConfirmedOk(x, s')
  {
    NothingUndone(x, s, step, s');
    forall pid, k | pid in s'.running && 0 <= k < |x.actions| && Confirmed(s'.running[pid], k)
      ensures Intended(x, k, s'.obs[k])
    {
      NewlyConfirmed(x, s, step, s', pid, k);
    }
  }

  lemma NothingUndone(x: Setup, s: Sys, step: Step, s': Sys)
    requires Shaped(x, s) && Next(x, s, step, s') && (step == Drift ==> Undisturbed(x, s, s'))
    ensures Undisturbed(x, s, s')
  {
  }

  lemma {:induction false} RunConfirms(x: Setup, states: seq<Sys>, steps: seq<Step>, i: nat)
    requires Run(x, states, steps) && Stable(x, states, steps) && i < |states|
    ensures ConfirmedOk(x, states[i])
  {
    if i == 0 {
    } else {
      RunConfirms(x, states, steps, i - 1);
      RunStep(x, states, steps, i - 1);
      StepConfirms(x, states[i - 1], steps[i - 1], states[i]);
    }
  }

  /** Where nobody undoes intended states, a run that finalizes leaves every action in its own. */
  lemma FinalizeLeavesIntended(x: Setup, states: seq<Sys>, steps: seq<Step>, i: nat, k: nat)
    requires Run(x, states, steps) && Stable(x, states, steps) && i < |steps| && k < |x.actions|
    requires steps[i].FinalizeStep? && states[i + 1].store.phase == Completed
    ensures |states[i + 1].obs| == |x.actions| && Intended(x, k, states[i + 1].obs[k])
  {
    var s, pid := states[i], steps[i].pid;
    RunConfirms(x, states, steps, i);
    RunStep(x, states, steps, i);
    var e := s.running[pid];
    assert ExecutorOk(x, s.store, e);
    assert e.prepared[..e.next] == e.prepared;
    assert Confirmed(e, k);
  }
}
