/**
 `CleanupExecutor.execute` itself, over the durable operation and the external resources
 it changes, while other executors take any steps of theirs between its own. The ghost
 history records what happens as steps of the cleanup state machine, so every theorem
 about its runs is one about any such calls, one after another or at the same time.
 */
module CleanupExecutor {
  import opened Prelude
  import opened CleanupBlocks
  import opened CleanupRuns
  import opened CleanupSaga

  /** How an execution ends, and how one action does when the execution goes on or not. */
  datatype End = Finalized | Crashed | Refused(code: Refusal)

  class Cleanup {
    const plan: Setup
    var store: Store
    var obs: seq<Identity>
    var effects: seq<nat>
    var running: map<nat, Executor>
    ghost var states: seq<Sys>
    ghost var steps: seq<Step>

    ghost function Now(): Sys
      reads this
    {
      Sys(store, obs, effects, running)
    }

    /** The history is a run of the state machine that ends now. */
    ghost predicate Valid()
      reads this
    {
      Run(plan, states, steps) && states[|steps|] == Now()
    }

    constructor (x: Setup, o: seq<Identity>)
      requires |o| == |x.actions|
      ensures Valid() && plan == x && running == map[]
    {
      plan, obs, running, steps := x, o, map[], [];
      store := Store(Pending, 0, seq(|x.actions|, i => Planned), map[]);
      effects := seq(|x.actions|, i => 0);
      new;
      states := [Now()];
    }

    /** Adds one step to the history. */
    ghost method Happened(step: Step)
      requires Run(plan, states, steps) && Shaped(plan, states[|steps|]) && Next(plan, states[|steps|], step, Now())
      modifies this`states, this`steps
      ensures Valid() && steps == old(steps) + [step] && states == old(states) + [Now()]
    {
      var ss, ts := states + [Now()], steps + [step];
      forall i: nat | i < |ts|
        ensures StepAt(plan, ss, ts, i)
      {
        if i < |steps| {
          assert StepAt(plan, states, steps, i);
        }
      }
      states, steps := ss, ts;
    }

    lemma Shape()
      requires Valid()
      ensures Shaped(plan, Now())
    {
      Kept();
      InvShapes(plan, Now());
    }

    lemma Kept()
      requires Valid()
      ensures Inv(plan, Now())
    {
      RunKeeps(plan, states, steps, |steps|);
    }

    /** The history goes on from an earlier one, and since then executor `pid` has not acted. */
    ghost predicate Since(before: seq<Step>, pid: nat)
      reads this`steps
    {
      before <= steps && forall m | |before| <= m < |steps| :: steps[m] != ApplyStep(pid)
    }

    /** Other executors take any steps, and anybody changes any resources as the adapters' contract allows. */
    method Others(pid: nat)
      requires Valid()
      modifies this
      ensures Valid() && Since(old(steps), pid)
      ensures pid in running <==> pid in old(running)
      ensures pid in running ==> running[pid] == old(running)[pid]
    {
      var turns: nat := *;
      while turns > 0
        invariant Valid() && Since(old(steps), pid)
        invariant pid in running <==> pid in old(running)
        invariant pid in running ==> running[pid] == old(running)[pid]
      {
        var step: Step, now: Sys := *, *;
        Shape();
        if Actor(step) != Some(pid) && Next(plan, Sys(store, obs, effects, running), step, now) {
          OthersStay(plan, Now(), step, now, pid);
          store, obs, effects, running := now.store, now.obs, now.effects, now.running;
          Happened(step);
        }
        turns := turns - 1;
      }
    }

    /** What the end of an execution has left behind, right after its last step. */
    ghost predicate Answered(pid: nat, end: End)
      reads this
    {
      && steps != [] && |states| == |steps| + 1 && Actor(steps[|steps| - 1]) == Some(pid) && pid !in running
      && match end
         case Finalized => steps[|steps| - 1] == FinalizeStep(pid) && store.phase == Completed
         case Crashed => steps[|steps| - 1] == CrashStep(pid) && store == states[|steps| - 1].store
         case Refused(code) => RefusalLeft(states[|steps| - 1], pid, code, store)
    }

    /** The process ends here. */
    method Crash(pid: nat)
      requires Valid() && pid in running
      modifies this`running, this`states, this`steps
      ensures Valid() && running == old(running) - {pid} && steps == old(steps) + [CrashStep(pid)]
      ensures Answered(pid, Crashed)
    {
      Shape();
      running := running - {pid};
      Happened(CrashStep(pid));
    }

    /** The handler of a refusal: block the operation unless the refusal is recoverable. */
    method Refuse(pid: nat, fence: nat, action: Option<nat>, code: Refusal, ghost step: Step)
      requires Valid() && pid in running && fence == running[pid].fence && action == Current(running[pid])
      requires Shaped(plan, Now()) && Next(plan, Now(), step, CleanupSaga.Refused(Now(), pid, code))
      requires Actor(step) == Some(pid)
      modifies this`store, this`running, this`states, this`steps
      ensures Valid() && running == old(running) - {pid} && steps == old(steps) + [step]
      ensures Answered(pid, End.Refused(code))
    {
      RefusedLeaves(Now(), pid, code);
      running := running - {pid};
      if !Recoverable(code) {
        store := Block(store, fence, action, code);
      }
      Happened(step);
    }

    /** At any point the process may die, or an adapter or the storage may raise any refusal. */
    method MayEnd(pid: nat, fence: nat, action: Option<nat>) returns (end: Option<End>)
      requires Valid() && pid in running && fence == running[pid].fence && action == Current(running[pid])
      modifies this`store, this`running, this`states, this`steps
      ensures Valid()
      ensures end.None? ==> store == old(store) && running == old(running) && steps == old(steps)
      ensures Since(old(steps), pid)
      ensures end.Some? ==> !end.value.Finalized? && running == old(running) - {pid} && Answered(pid, end.value)
    {
      if * {
        Crash(pid);
        return Some(Crashed);
      }
      if * {
        var code: Refusal := *;
        Shape();
        Refuse(pid, fence, action, code, RaiseStep(pid, code));
        return Some(Refused(code));
      }
      return None;
    }

    /** Puts a step of executor `pid` alone into the history. */
    method Move(pid: nat, e: Executor, step: Step)
      requires Valid() && Shaped(plan, Now()) && Next(plan, Now(), step, Moved(Now(), pid, e))
      modifies this`running, this`states, this`steps
      ensures Valid() && running == old(running)[pid := e] && steps == old(steps) + [step]
    {
      running := running[pid := e];
      Happened(step);
    }

    /** Claim the operation by its fence. */
    method Begin(pid: nat, expected: nat, leased: bool) returns (r: Result<nat, Refusal>)
      requires Valid() && pid !in running
      modifies this`store, this`running, this`states, this`steps
      ensures Valid() && old(steps) <= steps
      ensures r.Ok? <==> Claim(old(store), expected, leased).Ok?
      ensures r.Err? ==> r.error == Claim(old(store), expected, leased).error
      ensures r.Err? ==> running == old(running) && store == old(store) && steps == old(steps)
      ensures r.Ok? ==> (store, r.value) == Claim(old(store), expected, leased).value
      ensures r.Ok? ==> running == old(running)[pid := Executor(r.value, [], [], [], 0, Loading)]
    {
      Shape();
      var claimed := Claim(store, expected, leased);
      if claimed.Err? {
        return Err(claimed.error);
      }
      store := claimed.value.0;
      running := running[pid := Executor(claimed.value.1, [], [], [], 0, Loading)];
      Happened(ClaimStep(pid, expected, leased));
      return Ok(claimed.value.1);
    }

    /** Read the claimed operation. */
    method Read(pid: nat, fence: nat) returns (r: Result<seq<bool>, End>)
      requires Valid() && pid in running && running[pid] == Executor(fence, [], [], [], 0, Loading)
      modifies this
      ensures Valid() && Since(old(steps), pid)
      ensures r.Ok? ==> |r.value| == |plan.actions|
      ensures r.Ok? ==> pid in running && running[pid] == Executor(fence, r.value, [], [], 0, Checking)
      ensures r.Ok? ==> forall k | 0 <= k < |r.value| :: r.value[k] == (k in store.receipts)
      ensures r.Err? ==> pid !in running && !r.error.Finalized? && Answered(pid, r.error)
    {
      Others(pid);
      var ended := MayEnd(pid, fence, None);
      if ended.Some? {
        return Err(ended.value);
      }
      Shape();
      Kept();
      var done := Flags(store.states);
      Move(pid, Executor(fence, done, [], [], 0, Checking), LoadStep(pid));
      return Ok(done);
    }

    /** Preflight: the whole plan is inspected before anything is done. */
    method Preflight(pid: nat, fence: nat, done: seq<bool>) returns (r: Result<seq<nat>, End>, e: Executor)
      requires Valid() && |done| == |plan.actions|
      requires pid in running && running[pid] == Executor(fence, done, [], [], 0, Checking)
      modifies this
      ensures Valid() && Since(old(steps), pid)
      ensures r.Ok? ==> pid in running && running[pid] == e && e.fence == fence && e.prepared == r.value
                        && e.next == 0 && e.stage == Looking
      ensures r.Err? ==> pid !in running && !r.error.Finalized? && Answered(pid, r.error)
    {
      var k := 0;
      var prepared: seq<nat> := [];
      e := running[pid];
      while k < |plan.actions|
        invariant Valid() && k <= |plan.actions| && Since(old(steps), pid)
        invariant pid in running && running[pid] == e && e == Executor(fence, done, e.seen, prepared, 0, Checking)
        invariant |e.seen| == k
      {
        var ended;
        ended, e := CheckOne(pid, fence, k, e);
        if ended.Some? {
          return Err(ended.value), e;
        }
        if !done[k] {
          prepared := prepared + [k];
        }
        k := k + 1;
      }
      Shape();
      e := e.(stage := Looking);
      Move(pid, e, CheckStep(pid));
      return Ok(prepared), e;
    }

    /** The preflight inspection of one action. */
    method CheckOne(pid: nat, fence: nat, k: nat, e: Executor) returns (ended: Option<End>, e': Executor)
      requires Valid() && k < |plan.actions| == |e.done| && |e.seen| == k && e.stage == Checking && e.fence == fence
      requires pid in running && running[pid] == e
      modifies this
      ensures Valid() && Since(old(steps), pid)
      ensures ended.None? ==> pid in running && running[pid] == e'
                              && e' == e.(seen := e'.seen, prepared := if e.done[k] then e.prepared
                                  else e.prepared + [k])
                              && |e'.seen| == k + 1
      ensures ended.Some? ==> pid !in running && !ended.value.Finalized? && Answered(pid, ended.value)
    {
      e' := e;
      Others(pid);
      ended := MayEnd(pid, fence, Some(k));
      if ended.Some? {
        return;
      }
      Shape();
      var o := obs[k];
      var objection := Judge(k, e.done[k], o);
      assert objection == Objection(plan, e, o);
      if objection.Some? {
        Refuse(pid, fence, Some(k), objection.value, CheckStep(pid));
        return Some(Refused(objection.value)), e;
      }
      e' := Seen(e, o);
      Move(pid, e', CheckStep(pid));
    }

    /** The checks of preflight on one action. */
    method Judge(k: nat, completed: bool, o: Identity) returns (objection: Option<Refusal>)
      requires k < |plan.actions|
      ensures forall e: Executor | |e.seen| == k && |e.done| == |plan.actions| && e.done[k] == completed ::
                objection == Objection(plan, e, o)
    {
      var action := plan.actions[k];
      if action.adapter !in plan.adapters {
        return Some(AdapterUnknown);
      }
      if completed {
        return if plan.intended(action, o) then None else Some(CompletedChanged);
      }
      if !plan.intended(action, o) && o != action.expected {
        return Some(IdentityMismatch);
      }
      return None;
    }

    /** The adapter's `apply`: the intended state is reached, or nothing happens. */
    method Apply(pid: nat, k: nat)
      requires Valid() && HasNext(Now(), pid) && NextAction(Now(), pid) == k && running[pid].stage.Ready?
      modifies this`obs, this`effects, this`running, this`states, this`steps
      ensures Valid() && old(steps) <= steps
      ensures running == old(running)[pid := old(running)[pid].(stage := Acted(old(running)[pid].stage.before))]
    {
      Shape();
      var o: Identity := *;
      if plan.intended(plan.actions[k], o) {
        obs, effects := obs[k := o], effects[k := effects[k] + 1];
      }
      running := running[pid := running[pid].(stage := Acted(running[pid].stage.before))];
      Happened(ApplyStep(pid));
    }

    /** Inspect the next action, and act on it unless it is in its intended state already. */
    method BringAbout(pid: nat, fence: nat, k: nat, e: Executor) returns (r: Result<Receipt, End>)
      requires Valid() && pid in running && running[pid] == e && e.fence == fence && e.stage == Looking
      requires e.next < |e.prepared| && e.prepared[e.next] == k
      modifies this
      ensures Valid() && old(steps) <= steps
      ensures r.Ok? ==> pid in running && running[pid] == e.(stage := Recording(r.value))
      ensures r.Err? ==> pid !in running && !r.error.Finalized? && Answered(pid, r.error)
    {
      Others(pid);
      var ended := MayEnd(pid, fence, Some(k));
      if ended.Some? {
        return Err(ended.value);
      }
      Shape();
      var before := obs[k];
      if plan.intended(plan.actions[k], before) {
        r := Ok(Receipt(Reconciled, before, before));
        Move(pid, e.(stage := Recording(r.value)), LookStep(pid));
        return;
      }
      if before != plan.actions[k].expected {
        Refuse(pid, fence, Some(k), IdentityMismatch, LookStep(pid));
        return Err(Refused(IdentityMismatch));
      }
      Move(pid, e.(stage := Ready(before)), LookStep(pid));
      r := ApplyAndVerify(pid, fence, k, e, before);
    }

    method ApplyAndVerify(pid: nat, fence: nat, k: nat, e: Executor, before: Identity)
      returns (r: Result<Receipt, End>)
      requires Valid() && pid in running && running[pid] == e.(stage := Ready(before)) && e.fence == fence
      requires e.next < |e.prepared| && e.prepared[e.next] == k
      modifies this
      ensures Valid() && old(steps) <= steps
      ensures r.Ok? ==> pid in running && running[pid] == e.(stage := Recording(r.value))
      ensures r.Err? ==> pid !in running && !r.error.Finalized? && Answered(pid, r.error)
    {
      Others(pid);
      Apply(pid, k);
      Others(pid);
      var ended := MayEnd(pid, fence, Some(k));
      if ended.Some? {
        return Err(ended.value);
      }
      Shape();
      var after := obs[k];
      if !plan.intended(plan.actions[k], after) {
        Refuse(pid, fence, Some(k), VerificationFailed, VerifyStep(pid));
        return Err(Refused(VerificationFailed));
      }
      r := Ok(Receipt(Applied, before, after));
      Move(pid, e.(stage := Recording(r.value)), VerifyStep(pid));
    }

    /** Record the receipt of the action just dealt with. */
    method PutReceipt(pid: nat, fence: nat, k: nat, e: Executor, receipt: Receipt) returns (r: Option<End>)
      requires Valid() && pid in running && running[pid] == e.(stage := Recording(receipt)) && e.fence == fence
      requires e.next < |e.prepared| && e.prepared[e.next] == k
      modifies this
      ensures Valid() && old(steps) <= steps
      ensures r.None? ==> pid in running && running[pid] == e.(next := e.next + 1, stage := Looking)
      ensures r.Some? ==> pid !in running && !r.value.Finalized? && Answered(pid, r.value)
    {
      Others(pid);
      r := MayEnd(pid, fence, Some(k));
      if r.Some? {
        return;
      }
      Shape();
      var recorded := Record(store, fence, k, receipt);
      if recorded.Err? {
        Refuse(pid, fence, Some(k), recorded.error, RecordStep(pid));
        return Some(Refused(recorded.error));
      }
      store := recorded.value;
      running := running[pid := e.(next := e.next + 1, stage := Looking)];
      Happened(RecordStep(pid));
    }

    /** `execute`: whatever happens, the history it leaves is a run of the state machine. */
    method Execute(pid: nat, expected: nat, leased: bool) returns (end: End)
      requires Valid() && pid !in running
      modifies this
      ensures Valid() && pid !in running && old(steps) <= steps
      ensures Claim(old(store), expected, leased).Err? ==>
                end == Refused(Claim(old(store), expected, leased).error) && store == old(store)
                    && effects == old(effects)
      ensures Claim(old(store), expected, leased).Ok? ==> Answered(pid, end)
      ensures end == Finalized ==> Claim(old(store), expected, leased).Ok? && forall k | 0 <= k < |plan.actions| ::
                k in store.receipts && Intended(plan, k, store.receipts[k].after)
    {
      var claimed := Begin(pid, expected, leased);
      if claimed.Err? {
        return Refused(claimed.error);
      }
      var fence := claimed.value;
      var done := Read(pid, fence);
      if done.Err? {
        return done.error;
      }
      var checked, e := Preflight(pid, fence, done.value);
      if checked.Err? {
        return checked.error;
      }
      end := Perform(pid, fence, checked.value, e);
    }

    /** The actions that preflight has prepared, one by one, and then the end. */
    method Perform(pid: nat, fence: nat, prepared: seq<nat>, prepares: Executor) returns (end: End)
      requires Valid() && pid in running && running[pid] == prepares && prepares.fence == fence
      requires prepares.prepared == prepared && prepares.next == 0 && prepares.stage == Looking
      modifies this
      ensures Valid() && pid !in running && old(steps) <= steps
      ensures Answered(pid, end)
      ensures end == Finalized ==> forall k | 0 <= k < |plan.actions| ::
                k in store.receipts && Intended(plan, k, store.receipts[k].after)
    {
      var e := prepares;
      var j := 0;
      while j < |prepared|
        invariant Valid() && j <= |prepared| && old(steps) <= steps
        invariant e.prepared == prepared && e.fence == fence && e.next == j && e.stage == Looking
        invariant pid in running && running[pid] == e
      {
        var receipt := BringAbout(pid, fence, prepared[j], e);
        if receipt.Err? {
          return receipt.error;
        }
        var ended := PutReceipt(pid, fence, prepared[j], e, receipt.value);
        if ended.Some? {
          return ended.value;
        }
        e := e.(next := e.next + 1);
        j := j + 1;
      }
      end := Finish(pid, fence, e);
    }

    method Finish(pid: nat, fence: nat, e: Executor) returns (end: End)
      requires Valid() && pid in running && running[pid] == e && e.fence == fence
      requires e.stage == Looking && e.next == |e.prepared|
      modifies this
      ensures Valid() && pid !in running && old(steps) <= steps
      ensures Answered(pid, end)
      ensures end == Finalized ==> forall k | 0 <= k < |plan.actions| ::
                k in store.receipts && Intended(plan, k, store.receipts[k].after)
    {
      Others(pid);
      var ended := MayEnd(pid, fence, None);
      if ended.Some? {
        return ended.value;
      }
      Shape();
      var finalized := Finalize(store, fence);
      if finalized.Err? {
        Refuse(pid, fence, None, finalized.error, FinalizeStep(pid));
        return Refused(finalized.error);
      }
      store := finalized.value;
      running := running - {pid};
      Happened(FinalizeStep(pid));
      Kept();
      return Finalized;
    }
  }
}
