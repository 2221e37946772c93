/**
 What the storage makes of a refusal. An executor that holds the operation and meets a
 resource that is neither as intended nor as expected, a completed action that has changed,
 or an unknown adapter blocks the operation for good; a failing adapter and an effect that
 is not verified leave it open. And what is in order goes through: receipts are recorded
 and the operation is completed.
 */
module CleanupBlocks {
  import opened Prelude
  import opened CleanupSaga
  import opened CleanupRuns

  // ------------------------------------------------------ what is still planned

  /** No action is stopped while the operation is open. */
  predicate NoneStopped(s: Store) {
    s.phase == Pending || s.phase == Executing ==> forall k | 0 <= k < |s.states| :: s.states[k] != Stopped
  }

  /** What an executor has found unfinished and not recorded since. */
  predicate StillToDo(e: Executor, k: nat) {
    k < |e.done| && !e.done[k] && e.next <= |e.prepared| && k !in e.prepared[..e.next]
  }

  predicate ToDoIsPlanned(s: Store, e: Executor) {
    e.stage != Loading ==> forall k: nat | k < |s.states| && StillToDo(e, k) :: s.states[k] == Planned
  }

  /** The executor holds the operation. */
  predicate Owns(s: Store, e: Executor) { s.phase == Executing && e.fence == s.fence }

  predicate OpenOk(s: Sys) {
    && NoneStopped(s.store)
    && forall pid <- s.running :: Owns(s.store, s.running[pid]) ==> ToDoIsPlanned(s.store, s.running[pid])
  }

  /** One executor moves and the store stays. */
  lemma MovedOpen(s: Sys, pid: nat, e: Executor)
    requires OpenOk(s) && (Owns(s.store, e) ==> ToDoIsPlanned(s.store, e))
    ensures OpenOk(Moved(s, pid, e))
  {
  }

  lemma RefusedOpen(s: Sys, pid: nat, code: Refusal)
    requires OpenOk(s) && pid in s.running
    ensures OpenOk(Refused(s, pid, code))
  {
  }

  lemma ClaimOpen(x: Setup, s: Sys, step: Step, s': Sys)
    requires Inv(x, s) && Shaped(x, s) && OpenOk(s) && Next(x, s, step, s') && step.ClaimStep?
    ensures OpenOk(s')
  {
    forall pid | pid in s.running
      ensures s.running[pid].fence <= s.store.fence
    {
      assert ExecutorOk(x, s.store, s.running[pid]);
    }
  }

  lemma LoadOpen(x: Setup, s: Sys, step: Step, s': Sys)
    requires Inv(x, s) && Shaped(x, s) && OpenOk(s) && Next(x, s, step, s') && step.LoadStep?
    ensures OpenOk(s')
  {
    MovedOpen(s, step.pid, s'.running[step.pid]);
  }

  lemma CheckOpen(x: Setup, s: Sys, step: Step, s': Sys)
    requires Inv(x, s) && Shaped(x, s) && OpenOk(s) && Next(x, s, step, s') && step.CheckStep?
    ensures OpenOk(s')
  {
    var e := s.running[step.pid];
    assert ExecutorOk(x, s.store, e);
    if step.pid in s'.running {
      var e' := s'.running[step.pid];
      assert e'.next == e.next == 0 && e'.done == e.done;
      assert e'.prepared[..0] == e.prepared[..0] == [];
      assert forall k: nat :: StillToDo(e', k) ==> StillToDo(e, k);
      MovedOpen(s, step.pid, e');
    } else {
      RefusedOpen(s, step.pid, Objection(x, e, s.obs[|e.seen|]).value);
    }
  }

  lemma SameToDo(s: Store, e: Executor, e': Executor)
    requires e.stage != Loading && (Owns(s, e) ==> ToDoIsPlanned(s, e))
    requires e' == e.(stage := e'.stage)
    ensures Owns(s, e') ==> ToDoIsPlanned(s, e')
  {
    assert forall k: nat :: StillToDo(e', k) ==> StillToDo(e, k);
  }

  lemma LookOpen(x: Setup, s: Sys, step: Step, s': Sys)
    requires Inv(x, s) && Shaped(x, s) && OpenOk(s) && Next(x, s, step, s') && step.LookStep?
    ensures OpenOk(s')
  {
    if step.pid in s'.running {
      SameToDo(s.store, s.running[step.pid], s'.running[step.pid]);
      MovedOpen(s, step.pid, s'.running[step.pid]);
    } else {
      RefusedOpen(s, step.pid, IdentityMismatch);
    }
  }

  lemma ApplyOpen(x: Setup, s: Sys, step: Step, s': Sys)
    requires Shaped(x, s) && OpenOk(s) && Next(x, s, step, s') && step.ApplyStep?
    ensures OpenOk(s')
  {
    SameToDo(s.store, s.running[step.pid], s'.running[step.pid]);
    MovedOpen(s.(obs := s'.obs, effects := s'.effects), step.pid, s'.running[step.pid]);
  }

  lemma VerifyOpen(x: Setup, s: Sys, step: Step, s': Sys)
    requires Shaped(x, s) && OpenOk(s) && Next(x, s, step, s') && step.VerifyStep?
    ensures OpenOk(s')
  {
    if step.pid in s'.running {
      SameToDo(s.store, s.running[step.pid], s'.running[step.pid]);
      MovedOpen(s, step.pid, s'.running[step.pid]);
    } else {
      RefusedOpen(s, step.pid, VerificationFailed);
    }
  }

  /** The executor that records is the only one that holds the operation. */
  lemma RecordedOpen(x: Setup, s: Sys, pid: nat, store: Store, e': Executor)
    requires Inv(x, s) && OpenOk(s) && AloneOk(s) && HasNext(s, pid) && s.running[pid].stage.Recording?
    requires Record(s.store, s.running[pid].fence, NextAction(s, pid), s.running[pid].stage.receipt) == Ok(store)
    requires e' == s.running[pid].(next := s.running[pid].next + 1, stage := Looking)
    ensures OpenOk(Moved(s.(store := store), pid, e'))
  {
    assert ExecutorOk(x, s.store, s.running[pid]);
    OneLessToDo(s.running[pid], e');
  }

  /** What is left to do after an action is what was left before, without that action. */
  lemma OneLessToDo(e: Executor, e': Executor)
    requires e.next < |e.prepared| && e' == e.(next := e.next + 1, stage := Looking)
    ensures forall i: nat :: StillToDo(e', i) ==> StillToDo(e, i) && i != e.prepared[e.next]
  {
    assert e.prepared[..e.next + 1] == e.prepared[..e.next] + [e.prepared[e.next]];
  }

  lemma RecordOpen(x: Setup, s: Sys, step: Step, s': Sys)
    requires Inv(x, s) && Shaped(x, s) && OpenOk(s) && AloneOk(s) && Next(x, s, step, s') && step.RecordStep?
    ensures OpenOk(s')
  {
    var e := s.running[step.pid];
    var r := Record(s.store, e.fence, NextAction(s, step.pid), e.stage.receipt);
    if r.Ok? {
      RecordedOpen(x, s, step.pid, r.value, s'.running[step.pid]);
    } else {
      RefusedOpen(s, step.pid, r.error);
    }
  }

  lemma FinalizeOpen(x: Setup, s: Sys, step: Step, s': Sys)
    requires Shaped(x, s) && OpenOk(s) && Next(x, s, step, s') && step.FinalizeStep?
    ensures OpenOk(s')
  {
    var r := Finalize(s.store, s.running[step.pid].fence);
    if r.Err? {
      RefusedOpen(s, step.pid, r.error);
    }
  }

  lemma StepOpen(x: Setup, s: Sys, step: Step, s': Sys)
    requires Inv(x, s) && Shaped(x, s) && OpenOk(s) && AloneOk(s) && Next(x, s, step, s')
    ensures OpenOk(s')
  {
    match step
    case ClaimStep(_, _, _) => ClaimOpen(x, s, step, s');
    case LoadStep(_) => LoadOpen(x, s, step, s');
    case CheckStep(_) => CheckOpen(x, s, step, s');
    case LookStep(_) => LookOpen(x, s, step, s');
    case ApplyStep(_) => ApplyOpen(x, s, step, s');
    case VerifyStep(_) => VerifyOpen(x, s, step, s');
    case RecordStep(_) => RecordOpen(x, s, step, s');
    case FinalizeStep(_) => FinalizeOpen(x, s, step, s');
    case RaiseStep(pid, code) => RefusedOpen(s, pid, code);
    case CrashStep(pid) =>
    case Drift =>
  }

  lemma {:induction false} RunOpen(x: Setup, states: seq<Sys>, steps: seq<Step>, i: nat)
    requires Run(x, states, steps) && i < |states|
    ensures OpenOk(states[i])
  {
    if i == 0 {
    } else {
      RunOpen(x, states, steps, i - 1);
      RunStep(x, states, steps, i - 1);
      RunAlone(x, states, steps, i - 1);
      StepOpen(x, states[i - 1], steps[i - 1], states[i]);
    }
  }

  // ------------------------------------------------------ what blocks for good

  /** No claim goes through, whatever fence it expects and whether the lease has run out or not. */
  ghost predicate NeverClaimed(s: Store) {
    forall expected: nat, leased: bool :: Claim(s, expected, leased).Err?
  }

  lemma BlockedIsFinal(s: Store, code: Refusal)
    requires s.phase == Blocked(code) && code != IdentityMismatch
    ensures NeverClaimed(s)
  {
  }

  /** The executor `pid` holds the operation, and at step `i` it inspects action `k`, in preflight or before it. */
  predicate Inspects(states: seq<Sys>, steps: seq<Step>, i: nat, pid: nat, k: nat) {
    && i < |steps| < |states| && pid in states[i].running && Owns(states[i].store, states[i].running[pid])
    && k < |states[i].obs|
    && var e := states[i].running[pid];
       || (steps[i] == CheckStep(pid) && |e.seen| == k)
       || (steps[i] == LookStep(pid) && e.next < |e.prepared| && e.prepared[e.next] == k)
  }

  /** The action is one that the executor has found unfinished. */
  predicate Unfinished(s: Sys, pid: nat, k: nat) {
    pid in s.running && k < |s.running[pid].done| && !s.running[pid].done[k]
  }

  lemma InspectedIsToDo(x: Setup, states: seq<Sys>, steps: seq<Step>, i: nat, pid: nat, k: nat)
    requires Run(x, states, steps) && Inspects(states, steps, i, pid, k) && Unfinished(states[i], pid, k)
    ensures k < |x.actions| == |states[i].store.states| && states[i].store.states[k] == Planned
  {
    RunStep(x, states, steps, i);
    RunOpen(x, states, steps, i);
    var s, e := states[i], states[i].running[pid];
    assert ExecutorOk(x, s.store, e) && ToDoIsPlanned(s.store, e);
    assert e.stage != Loading;
    NotYetDone(e, k, steps[i].LookStep?);
    assert StillToDo(e, k);
  }

  lemma NotYetDone(e: Executor, k: nat, looking: bool)
    requires PreparedOk(e) && e.next <= |e.prepared|
    requires if looking then e.next < |e.prepared| && e.prepared[e.next] == k else |e.seen| == k
    ensures k !in e.prepared[..e.next]
  {
    forall j | 0 <= j < e.next
      ensures e.prepared[..e.next][j] != k
    {
      assert e.prepared[j] < if looking then e.prepared[e.next] else |e.seen|;
    }
  }

  lemma LookedIsUnfinished(x: Setup, states: seq<Sys>, steps: seq<Step>, i: nat, pid: nat, k: nat)
    requires Run(x, states, steps) && Inspects(states, steps, i, pid, k) && steps[i] == LookStep(pid)
    ensures Unfinished(states[i], pid, k) && k < |x.actions|
  {
    RunStep(x, states, steps, i);
    assert ExecutorOk(x, states[i].store, states[i].running[pid]);
  }

  /**
   An executor that holds the operation and finds, in preflight or right before it would
   act, that a resource is neither as intended nor as expected ends; the operation is
   blocked with the action stopped, and no claim ever goes through.
   */
  lemma DriftBlocks(x: Setup, states: seq<Sys>, steps: seq<Step>, i: nat, pid: nat, k: nat)
    requires Run(x, states, steps) && Inspects(states, steps, i, pid, k) && k < |x.actions|
    requires Unfinished(states[i], pid, k)
    requires x.actions[k].adapter in x.adapters
    requires !x.intended(x.actions[k], states[i].obs[k]) && states[i].obs[k] != x.actions[k].expected
    ensures pid !in states[i + 1].running
    ensures states[i + 1].store.phase == Blocked(IdentityMismatch) && k < |states[i].store.states|
    ensures states[i + 1].store.states == states[i].store.states[k := Stopped]
    ensures NeverClaimed(states[i + 1].store)
  {
    InspectedIsToDo(x, states, steps, i, pid, k);
    assert StepAt(x, states, steps, i);
    assert states[i + 1].store.states[k] == Stopped;
  }

  /** So does one that finds a completed action no longer intended, whose receipt stays. */
  lemma ChangedBlocks(x: Setup, states: seq<Sys>, steps: seq<Step>, i: nat, pid: nat, k: nat)
    requires Run(x, states, steps) && Inspects(states, steps, i, pid, k) && k < |x.actions|
    requires steps[i] == CheckStep(pid)
    requires x.actions[k].adapter in x.adapters
    requires k < |states[i].running[pid].done| && states[i].running[pid].done[k]
    requires !x.intended(x.actions[k], states[i].obs[k])
    ensures pid !in states[i + 1].running
    ensures states[i + 1].store == states[i].store.(phase := Blocked(CompletedChanged))
    ensures NeverClaimed(states[i + 1].store)
  {
    RunStep(x, states, steps, i);
    assert ExecutorOk(x, states[i].store, states[i].running[pid]);
    assert k in states[i].store.receipts;
    ChangedStep(x, states[i], pid, k, states[i + 1]);
    BlockedIsFinal(states[i + 1].store, CompletedChanged);
  }

  lemma ChangedStep(x: Setup, s: Sys, pid: nat, k: nat, s': Sys)
    requires Shaped(x, s) && Next(x, s, CheckStep(pid), s') && pid in s.running && Owns(s.store, s.running[pid])
    requires k == |s.running[pid].seen| < |x.actions| == |s.running[pid].done| == |s.store.states|
    requires s.running[pid].done[k] && s.store.states[k] == Done
    requires x.actions[k].adapter in x.adapters && !x.intended(x.actions[k], s.obs[k])
    ensures pid !in s'.running && s'.store == s.store.(phase := Blocked(CompletedChanged))
  {
  }

  /** And one that meets an action whose adapter is not registered. */
  lemma UnknownBlocks(x: Setup, states: seq<Sys>, steps: seq<Step>, i: nat, pid: nat, k: nat)
    requires Run(x, states, steps) && Inspects(states, steps, i, pid, k) && k < |x.actions|
    requires steps[i] == CheckStep(pid)
    requires x.actions[k].adapter !in x.adapters
    ensures pid !in states[i + 1].running
    ensures states[i + 1].store.phase == Blocked(AdapterUnknown) && NeverClaimed(states[i + 1].store)
    ensures Unfinished(states[i], pid, k) ==>
              k < |states[i].store.states| && states[i + 1].store.states == states[i].store.states[k := Stopped]
    ensures !Unfinished(states[i], pid, k) ==> states[i + 1].store.states == states[i].store.states
  {
    RunStep(x, states, steps, i);
    assert ExecutorOk(x, states[i].store, states[i].running[pid]);
    if Unfinished(states[i], pid, k) {
      InspectedIsToDo(x, states, steps, i, pid, k);
    } else {
      assert k in states[i].store.receipts;
    }
  }

  // ---------------------------------------------------------- what leaves it open

  /** An effect that is not found is no block: the store is as it was, and the next claim inspects again. */
  lemma UnverifiedLeavesOpen(x: Setup, states: seq<Sys>, steps: seq<Step>, i: nat, pid: nat, k: nat)
    requires Run(x, states, steps) && i < |steps| && steps[i] == VerifyStep(pid)
    requires HasNext(states[i], pid) && NextAction(states[i], pid) == k < |x.actions| == |states[i].obs|
    requires !x.intended(x.actions[k], states[i].obs[k])
    ensures pid !in states[i + 1].running && states[i + 1].store == states[i].store
  {
    assert StepAt(x, states, steps, i);
  }

  /** A refusal raised by an adapter or the storage blocks exactly if it is neither of the two recoverable ones. */
  lemma RaisedBlocksExactly(x: Setup, states: seq<Sys>, steps: seq<Step>, i: nat, pid: nat, code: Refusal)
    requires Run(x, states, steps) && i < |steps| && steps[i] == RaiseStep(pid, code)
    ensures pid in states[i].running && pid !in states[i + 1].running
    ensures if code == AdapterFailed || code == VerificationFailed || !Owns(states[i].store, states[i].running[pid])
            then states[i + 1].store == states[i].store
            else states[i + 1].store.phase == Blocked(code)
  {
    assert StepAt(x, states, steps, i);
  }

  /** An executor whose fence is no longer the current one changes nothing in the store. */
  lemma StaleChangesNothing(x: Setup, states: seq<Sys>, steps: seq<Step>, i: nat, pid: nat)
    requires Run(x, states, steps) && i < |steps| && Actor(steps[i]) == Some(pid) && pid in states[i].running
    requires states[i].running[pid].fence != states[i].store.fence
    ensures states[i + 1].store == states[i].store
  {
    assert StepAt(x, states, steps, i);
  }

  /**
   What a refusal with this code leaves of the store: nothing has changed if it is one of the
   two recoverable ones or the executor has lost the operation, and otherwise it is blocked.
   */
  ghost predicate RefusalLeft(s: Sys, pid: nat, code: Refusal, store: Store) {
    && pid in s.running
    && if code == AdapterFailed || code == VerificationFailed || !Owns(s.store, s.running[pid]) then store == s.store
       else store.phase == Blocked(code) && (code != IdentityMismatch ==> NeverClaimed(store))
  }

  lemma RefusedLeaves(s: Sys, pid: nat, code: Refusal)
    requires pid in s.running
    ensures RefusalLeft(s, pid, code, Refused(s, pid, code).store)
  {
    if code != IdentityMismatch && Refused(s, pid, code).store.phase == Blocked(code) {
      BlockedIsFinal(Refused(s, pid, code).store, code);
    }
  }

  // ------------------------------------------------------------ what goes through

  /** An inspection that shows the intended state, or what is expected, goes on without a refusal. */
  lemma InOrderGoesOn(x: Setup, states: seq<Sys>, steps: seq<Step>, i: nat, pid: nat, k: nat)
    requires Run(x, states, steps) && Inspects(states, steps, i, pid, k) && k < |x.actions|
    requires x.actions[k].adapter in x.adapters
    requires x.intended(x.actions[k], states[i].obs[k])
          || (Unfinished(states[i], pid, k) && states[i].obs[k] == x.actions[k].expected)
    ensures pid in states[i + 1].running && states[i + 1].store == states[i].store
    ensures steps[i] == LookStep(pid) ==>
              states[i + 1].running[pid].stage
              == (if x.intended(x.actions[k], states[i].obs[k])
                  then Recording(Receipt(Reconciled, states[i].obs[k], states[i].obs[k])) else Ready(states[i].obs[k]))
  {
    RunStep(x, states, steps, i);
    assert ExecutorOk(x, states[i].store, states[i].running[pid]);
  }

  /** The executor that holds the operation records its receipt, and the action is done. */
  lemma OwnerRecords(x: Setup, states: seq<Sys>, steps: seq<Step>, i: nat, pid: nat)
    requires Run(x, states, steps) && i < |steps| && steps[i] == RecordStep(pid)
    requires pid in states[i].running && Owns(states[i].store, states[i].running[pid])
    ensures HasNext(states[i], pid) && states[i].running[pid].stage.Recording? && pid in states[i + 1].running
    ensures var k, s, s' := NextAction(states[i], pid), states[i].store, states[i + 1].store;
            && k < |s.states| && s'.states == s.states[k := Done]
            && s'.receipts == s.receipts[k := states[i].running[pid].stage.receipt] && s'.phase == Executing
  {
    RunStep(x, states, steps, i);
    RunOpen(x, states, steps, i);
    var s, e := states[i], states[i].running[pid];
    assert ExecutorOk(x, s.store, e) && ToDoIsPlanned(s.store, e);
    var k := NextAction(s, pid);
    NotYetDone(e, k, true);
    assert StillToDo(e, k);
    assert k !in s.store.receipts;
  }

  /** And when it has nothing left to do, it completes the operation. */
  lemma OwnerFinalizes(x: Setup, states: seq<Sys>, steps: seq<Step>, i: nat, pid: nat)
    requires Run(x, states, steps) && i < |steps| && steps[i] == FinalizeStep(pid)
    requires pid in states[i].running && Owns(states[i].store, states[i].running[pid])
    ensures states[i + 1].store == states[i].store.(phase := Completed)
  {
    RunStep(x, states, steps, i);
    var s, e := states[i], states[i].running[pid];
    assert ExecutorOk(x, s.store, e);
    assert e.prepared[..e.next] == e.prepared;
    forall k | 0 <= k < |s.store.states|
      ensures s.store.states[k] == Done
    {
      if !e.done[k] {
        var j :| 0 <= j < |e.prepared| && e.prepared[j] == k;
      }
      assert k in s.store.receipts;
    }
  }

  /**
   A claim goes through exactly with the current fence, and with no live lease where the
   operation is being executed; a blocked operation can be claimed only where a changed
   identity blocked it after its last receipt.
   */
  lemma ClaimExactly(s: Store, expected: nat, leased: bool)
    ensures Claim(s, expected, leased).Ok? <==>
              && expected == s.fence
              && match s.phase
                 case Pending => true
                 case Executing => !leased
                 case Completed => true
                 case Blocked(code) =>
                   && code == IdentityMismatch && s.states != []
                   && forall k | 0 <= k < |s.states| :: s.states[k] == Done && k in s.receipts
    ensures Claim(s, expected, leased).Ok? ==>
              Claim(s, expected, leased).value
              == if s.phase == Completed then (s, expected)
                 else (s.(phase := Executing, fence := expected + 1), expected + 1)
  {
  }
}
