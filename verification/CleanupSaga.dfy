/**
 `CleanupExecutor.execute` of src/league/cleanup.py and the storage operations it uses,
 as a transition system: executors claim one operation by its fence, inspect and apply
 its actions through adapters, and record a receipt after each. They may crash anywhere,
 and a claim after a lease has expired may leave a stale executor running.

 The adapters' contract: `apply` leaves the resource as it was or brings it to its
 intended state, and the identity of a resource that was acted on never comes back.
 */
module CleanupSaga {
  import opened Prelude

  // -------------------------------------------------------- the operation

  type Identity = map<string, string>

  datatype Action = Action(kind: string, adapter: string, expected: Identity)

  /** The plan, the registered adapters, and their judgement whether an observation is the intended state. */
  datatype Setup = Setup(actions: seq<Action>, adapters: set<string>, intended: (Action, Identity) -> bool)

  predicate Intended(x: Setup, k: nat, o: Identity)
    requires k < |x.actions|
  {
    x.intended(x.actions[k], o)
  }

  datatype Refusal =
    | FenceConflict | OperationBlocked | Busy | IdentityMismatch | CompletedChanged | AdapterUnknown
    | AdapterFailed | VerificationFailed | ReceiptConflict | ActionConflict | Incomplete

  /** `RECOVERABLE_EXECUTION_REFUSALS` */
  predicate Recoverable(code: Refusal) { code == AdapterFailed || code == VerificationFailed }

  datatype Phase = Pending | Executing | Blocked(code: Refusal) | Completed

  datatype ActionState = Planned | Done | Stopped

  datatype Outcome = Reconciled | Applied

  datatype Receipt = Receipt(outcome: Outcome, before: Identity, after: Identity)

  datatype Store = Store(phase: Phase, fence: nat, states: seq<ActionState>, receipts: map<nat, Receipt>)

  /** `_all_cleanup_actions_receipted` */
  predicate AllReceipted(s: Store) {
    s.states != [] && forall k | 0 <= k < |s.states| :: s.states[k] == Done && k in s.receipts
  }

  /** `claim_cleanup_operation`: the store and the fence it hands out. `leased` is a lease that has not expired. */
  function Claim(s: Store, expected: nat, leased: bool): Result<(Store, nat), Refusal> {
    if s.fence != expected then Err(FenceConflict)
    else if s.phase == Completed then Ok((s, expected))
    else if s.phase.Blocked? && (s.phase.code != IdentityMismatch || !AllReceipted(s)) then Err(OperationBlocked)
    else if s.phase == Executing && leased then Err(Busy)
    else Ok((s.(phase := Executing, fence := expected + 1), expected + 1))
  }

  /** `record_cleanup_action_receipt` */
  function Record(s: Store, fence: nat, k: nat, r: Receipt): Result<Store, Refusal> {
    if s.phase != Executing || s.fence != fence then Err(FenceConflict)
    else if k in s.receipts then (if s.receipts[k] == r then Ok(s) else Err(ReceiptConflict))
    else if k >= |s.states| || s.states[k] != Planned then Err(ActionConflict)
    else Ok(s.(states := s.states[k := Done], receipts := s.receipts[k := r]))
  }

  /** `finalize_cleanup` */
  function Finalize(s: Store, fence: nat): Result<Store, Refusal> {
    if s.fence != fence then Err(FenceConflict)
    else if exists k | 0 <= k < |s.states| :: s.states[k] != Done then Err(Incomplete)
    else Ok(s.(phase := Completed))
  }

  /** `block_cleanup_operation`; its own refusals leave the store alone. */
  function Block(s: Store, fence: nat, action: Option<nat>, code: Refusal): Store {
    if s.fence != fence || s.phase != Executing then s
    else
      s.(phase := Blocked(code),
         states := if action.Some? && action.value < |s.states| && s.states[action.value] == Planned
                   then s.states[action.value := Stopped] else s.states)
  }

  // ----------------------------------------------------------- an executor

  datatype Stage =
    | Loading                   // claimed, about to read the operation
    | Checking                  // preflight
    | Looking                   // before the next prepared action
    | Ready(before: Identity)   // inspected, about to apply
    | Acted(before: Identity)   // applied, about to verify
    | Recording(receipt: Receipt)

  /**
   `done` is the action states it read, `seen` what its preflight has observed so far,
   `prepared` the actions it has to bring about, `next` its place among them.
   */
  datatype Executor = Executor(fence: nat, done: seq<bool>, seen: seq<Identity>, prepared: seq<nat>, next: nat,
                               stage: Stage)

  /** `current_action_id` */
  function Current(e: Executor): Option<nat> {
    match e.stage
    case Loading => None
    case Checking => Some(|e.seen|)
    case _ => if e.next < |e.prepared| then Some(e.prepared[e.next]) else None
  }

  /** External reality as the adapters show it, and how often each action had an effect. */
  datatype Sys = Sys(store: Store, obs: seq<Identity>, effects: seq<nat>, running: map<nat, Executor>)

  datatype Step =
    | ClaimStep(pid: nat, expected: nat, leased: bool)
    | LoadStep(pid: nat)
    | CheckStep(pid: nat)
    | LookStep(pid: nat)
    | ApplyStep(pid: nat)
    | VerifyStep(pid: nat)
    | RecordStep(pid: nat)
    | FinalizeStep(pid: nat)
    | RaiseStep(pid: nat, code: Refusal)  // an adapter or the storage raises a refusal
    | CrashStep(pid: nat)                 // the process ends, or a retryable refusal is raised
    | Drift                               // anybody else changes external reality

  function Gone(s: Sys, pid: nat): Sys { s.(running := s.running - {pid}) }

  /** A refusal ends the executor; one that is not recoverable blocks the operation. */
  function Refused(s: Sys, pid: nat, code: Refusal): Sys
    requires pid in s.running
  {
    var e := s.running[pid];
    if Recoverable(code) then Gone(s, pid) else Gone(s, pid).(store := Block(s.store, e.fence, Current(e), code))
  }

  function Moved(s: Sys, pid: nat, e: Executor): Sys { s.(running := s.running[pid := e]) }

  /** What preflight has against the next action, observed as `o`. */
  function Objection(x: Setup, e: Executor, o: Identity): Option<Refusal>
    requires |e.seen| < |x.actions| == |e.done|
  {
    var k := |e.seen|;
    if x.actions[k].adapter !in x.adapters then Some(AdapterUnknown)
    else if e.done[k] && !Intended(x, k, o) then Some(CompletedChanged)
    else if !e.done[k] && !Intended(x, k, o) && o != x.actions[k].expected then Some(IdentityMismatch)
    else None
  }

  /** An executor after one more preflight observation. */
  function Seen(e: Executor, o: Identity): Executor
    requires |e.seen| < |e.done|
  {
    e.(seen := e.seen + [o], prepared := if e.done[|e.seen|] then e.prepared else e.prepared + [|e.seen|])
  }

  /** One preflight inspection. */
  function Checked(x: Setup, s: Sys, pid: nat): Sys
    requires pid in s.running && |s.running[pid].seen| < |x.actions| == |s.obs| == |s.running[pid].done|
  {
    var e := s.running[pid];
    var o := s.obs[|e.seen|];
    var objection := Objection(x, e, o);
    if objection.Some? then Refused(s, pid, objection.value) else Moved(s, pid, Seen(e, o))
  }

  /** The inspection right before an action. */
  function Looked(x: Setup, s: Sys, pid: nat, k: nat): Sys
    requires pid in s.running && k < |x.actions| == |s.obs|
  {
    var e, o := s.running[pid], s.obs[k];
    if Intended(x, k, o) then Moved(s, pid, e.(stage := Recording(Receipt(Reconciled, o, o))))
    else if o != x.actions[k].expected then Refused(s, pid, IdentityMismatch)
    else Moved(s, pid, e.(stage := Ready(o)))
  }

  /** `apply` either does nothing or reaches the intended state, once. */
  predicate Applies(x: Setup, s: Sys, k: nat, s': Sys)
    requires k < |x.actions| == |s.obs| == |s.effects|
  {
    || (s'.obs == s.obs && s'.effects == s.effects)
    || (&& |s'.obs| == |s.obs| && Intended(x, k, s'.obs[k]) && s'.obs == s.obs[k := s'.obs[k]]
        && s'.effects == s.effects[k := s.effects[k] + 1])
  }

  /** Others change what they like, but an identity that was acted on does not come back. */
  predicate Drifts(x: Setup, s: Sys, s': Sys)
    requires |x.actions| == |s.obs| == |s.effects|
  {
    && s' == s.(obs := s'.obs)
    && |s'.obs| == |s.obs|
    && forall k | 0 <= k < |s.obs| && s.effects[k] > 0 ::
         Intended(x, k, s'.obs[k]) || s'.obs[k] != x.actions[k].expected
  }

  predicate Shaped(x: Setup, s: Sys) {
    && |x.actions| == |s.obs| == |s.effects| == |s.store.states|
    && forall pid <- s.running ::
         var e := s.running[pid];
         && (e.stage != Loading ==> |e.done| == |x.actions|)
         && |e.seen| <= |x.actions| && e.next <= |e.prepared|
         && forall j | 0 <= j < |e.prepared| :: e.prepared[j] < |x.actions|
  }

  predicate At(s: Sys, pid: nat, stage: Stage) { pid in s.running && s.running[pid].stage == stage }

  predicate HasNext(s: Sys, pid: nat) {
    pid in s.running && s.running[pid].next < |s.running[pid].prepared|
  }

  function NextAction(s: Sys, pid: nat): nat
    requires HasNext(s, pid)
  {
    s.running[pid].prepared[s.running[pid].next]
  }

  /** Which actions are completed. */
  function Flags(states: seq<ActionState>): (done: seq<bool>)
    ensures |done| == |states| && forall k | 0 <= k < |states| :: done[k] == (states[k] == Done)
  {
    if states == [] then [] else [states[0] == Done] + Flags(states[1..])
  }

  predicate Next(x: Setup, s: Sys, step: Step, s': Sys)
    requires Shaped(x, s)
  {
    match step
    case ClaimStep(pid, expected, leased) =>
      && pid !in s.running && Claim(s.store, expected, leased).Ok?
      && var (store, fence) := Claim(s.store, expected, leased).value;
         s' == Moved(s.(store := store), pid, Executor(fence, [], [], [], 0, Loading))
    case LoadStep(pid) =>
      && At(s, pid, Loading)
      && s' == Moved(s, pid, s.running[pid].(done := Flags(s.store.states), stage := Checking))
    case CheckStep(pid) =>
      && At(s, pid, Checking)
      && s' == if |s.running[pid].seen| < |x.actions| then Checked(x, s, pid)
               else Moved(s, pid, s.running[pid].(stage := Looking))
    case LookStep(pid) =>
      && At(s, pid, Looking) && HasNext(s, pid)
      && s' == Looked(x, s, pid, NextAction(s, pid))
    case ApplyStep(pid) =>
      && HasNext(s, pid) && s.running[pid].stage.Ready?
      && Applies(x, s, NextAction(s, pid), s')
      && s' == Moved(s.(obs := s'.obs, effects := s'.effects), pid,
                     s.running[pid].(stage := Acted(s.running[pid].stage.before)))
    case VerifyStep(pid) =>
      && HasNext(s, pid) && s.running[pid].stage.Acted?
      && var e, k := s.running[pid], NextAction(s, pid);
         s' == if !Intended(x, k, s.obs[k]) then Refused(s, pid, VerificationFailed)
               else Moved(s, pid, e.(stage := Recording(Receipt(Applied, e.stage.before, s.obs[k]))))
    case RecordStep(pid) =>
      && HasNext(s, pid) && s.running[pid].stage.Recording?
      && var e, r := s.running[pid], Record(s.store, s.running[pid].fence, NextAction(s, pid),
                                            s.running[pid].stage.receipt);
         s' == if r.Err? then Refused(s, pid, r.error)
               else Moved(s.(store := r.value), pid, e.(next := e.next + 1, stage := Looking))
    case FinalizeStep(pid) =>
      && At(s, pid, Looking) && !HasNext(s, pid)
      && var r := Finalize(s.store, s.running[pid].fence);
         s' == if r.Err? then Refused(s, pid, r.error) else Gone(s, pid).(store := r.value)
    case RaiseStep(pid, code) => pid in s.running && s' == Refused(s, pid, code)
    case CrashStep(pid) => pid in s.running && s' == Gone(s, pid)
    case Drift => Drifts(x, s, s')
  }

  /** A planned operation before any claim. */
  predicate Initial(x: Setup, s: Sys) {
    && |x.actions| == |s.obs| == |s.effects| == |s.store.states|
    && s.store.phase == Pending && s.store.receipts == map[] && s.running == map[]
    && (forall k | 0 <= k < |s.obs| :: s.store.states[k] == Planned && s.effects[k] == 0)
  }

  predicate StepAt(x: Setup, states: seq<Sys>, steps: seq<Step>, i: nat)
    requires i < |steps| < |states|
  {
    Shaped(x, states[i]) && Next(x, states[i], steps[i], states[i + 1])
  }

  predicate Run(x: Setup, states: seq<Sys>, steps: seq<Step>) {
    && |states| == |steps| + 1
    && Initial(x, states[0])
    && forall i: nat | i < |steps| :: StepAt(x, states, steps, i)
  }

  // ------------------------------------------------------------ invariants

  /** Receipts belong to completed actions, form a prefix of the plan, and name intended states. */
  predicate StoreOk(x: Setup, s: Store) {
    && |s.states| == |x.actions|
    && (forall k | 0 <= k < |s.states| :: s.states[k] == Done <==> k in s.receipts)
    && (forall k <- s.receipts :: k < |s.states| && ReceiptOk(x, k, s.receipts[k]))
    && (forall k <- s.receipts :: AllBefore(s, k))
    && (s.phase == Completed ==> AllBefore(s, |s.states|))
  }

  predicate ReceiptOk(x: Setup, k: nat, r: Receipt)
    requires k < |x.actions|
  {
    && Intended(x, k, r.after)
    && (r.outcome == Applied ==> r.before == x.actions[k].expected && !Intended(x, k, r.before))
    && (r.outcome == Reconciled ==> r.before == r.after)
  }

  /** Every action before the k-th has its receipt. */
  predicate AllBefore(s: Store, k: nat) {
    forall i: nat | i < k :: i in s.receipts
  }

  /** The preflight found the action in its intended state, or unfinished with the expected identity. */
  predicate PreflightOk(x: Setup, e: Executor, k: nat)
    requires k < |e.seen| <= |x.actions| == |e.done|
  {
    && x.actions[k].adapter in x.adapters
    && (Intended(x, k, e.seen[k]) || (!e.done[k] && e.seen[k] == x.actions[k].expected))
  }

  /** The prepared actions are those seen and not completed, in plan order. */
  predicate PreparedOk(e: Executor) {
    && |e.seen| <= |e.done|
    && (forall j | 0 <= j < |e.prepared| :: e.prepared[j] < |e.seen| && !e.done[e.prepared[j]])
    && (forall i, j | 0 <= i < j < |e.prepared| :: e.prepared[i] < e.prepared[j])
    && (forall k: nat | k < |e.seen| && !e.done[k] :: k in e.prepared)
  }

  predicate StageOk(x: Setup, e: Executor)
    requires forall j | 0 <= j < |e.prepared| :: e.prepared[j] < |x.actions|
  {
    && (e.stage.Ready? || e.stage.Acted? || e.stage.Recording? ==> e.next < |e.prepared|)
    && (e.stage.Ready? || e.stage.Acted? ==>
          var k := e.prepared[e.next]; e.stage.before == x.actions[k].expected && !Intended(x, k, e.stage.before))
    && (e.stage.Recording? ==> ReceiptOk(x, e.prepared[e.next], e.stage.receipt))
    && (e.stage == Loading || e.stage == Checking ==> e.next == 0)
    && (e.stage == Loading ==> e.seen == [] && e.prepared == [])
    && (e.stage != Loading && e.stage != Checking ==> |e.seen| == |x.actions|)
  }

  predicate ExecutorOk(x: Setup, s: Store, e: Executor) {
    && e.fence <= s.fence
    && |e.seen| <= |x.actions| && e.next <= |e.prepared|
    && (forall j | 0 <= j < |e.prepared| :: e.prepared[j] < |x.actions|)
    && StageOk(x, e)
    && (e.stage != Loading ==>
        && |e.done| == |x.actions|
        && (forall k | 0 <= k < |e.done| && e.done[k] :: k in s.receipts)
        && (forall k | 0 <= k < |e.seen| :: PreflightOk(x, e, k))
        && PreparedOk(e)
        && forall j | 0 <= j < e.next :: e.prepared[j] in s.receipts)
  }

  predicate RealityOk(x: Setup, s: Sys) {
    && |x.actions| == |s.obs| == |s.effects|
    && forall k | 0 <= k < |s.obs| && s.effects[k] > 0 ::
         Intended(x, k, s.obs[k]) || s.obs[k] != x.actions[k].expected
  }

  predicate Inv(x: Setup, s: Sys) {
    && StoreOk(x, s.store)
    && RealityOk(x, s)
    && forall pid <- s.running :: ExecutorOk(x, s.store, s.running[pid])
  }

  lemma InvShapes(x: Setup, s: Sys)
    requires Inv(x, s)
    ensures Shaped(x, s)
  {
    forall pid | pid in s.running
      ensures ExecutorOk(x, s.store, s.running[pid])
    {
    }
  }

  /** The receipts before an executor's next action are all there. */
  lemma NextIsAfterReceipts(x: Setup, s: Sys, pid: nat)
    requires Inv(x, s) && HasNext(s, pid) && s.running[pid].stage !in {Loading, Checking}
    ensures NextAction(s, pid) < |x.actions| && AllBefore(s.store, NextAction(s, pid))
  {
    var e := s.running[pid];
    assert ExecutorOk(x, s.store, e);
    forall i: nat | i < e.prepared[e.next]
      ensures i in s.store.receipts
    {
      if !e.done[i] {
        var j :| 0 <= j < |e.prepared| && e.prepared[j] == i;
        assert j < e.next;
      }
    }
  }

  // -------------------------------------------------------- steps keep them

  /** Storage operations forget no receipt and lower no fence. */
  predicate StoreGrows(s: Store, s': Store) {
    && s.fence <= s'.fence
    && forall k <- s.receipts :: k in s'.receipts && s'.receipts[k] == s.receipts[k]
  }

  lemma ExecutorStays(x: Setup, s: Store, s': Store, e: Executor)
    requires ExecutorOk(x, s, e) && StoreGrows(s, s')
    ensures ExecutorOk(x, s', e)
  {
  }

  /** An executor past loading may change its stage and go on. */
  lemma StageMoves(x: Setup, s: Store, e: Executor, e': Executor)
    requires ExecutorOk(x, s, e) && e.stage != Loading && e'.stage != Loading
    requires e' == e.(next := e'.next, stage := e'.stage) && e'.next <= |e.prepared| && StageOk(x, e')
    requires forall j | 0 <= j < e'.next :: e.prepared[j] in s.receipts
    ensures ExecutorOk(x, s, e')
  {
    forall k | 0 <= k < |e'.seen|
      ensures PreflightOk(x, e', k)
    {
      assert PreflightOk(x, e, k);
    }
  }

  /** A step that changes the store by a storage operation and at most one executor. */
  lemma OneMoves(x: Setup, s: Sys, s': Sys, pid: nat)
    requires Inv(x, s) && StoreOk(x, s'.store) && RealityOk(x, s') && StoreGrows(s.store, s'.store)
    requires forall q <- s'.running :: q != pid ==> q in s.running && s'.running[q] == s.running[q]
    requires pid in s'.running ==> ExecutorOk(x, s'.store, s'.running[pid])
    ensures Inv(x, s')
  {
    forall q | q in s'.running
      ensures ExecutorOk(x, s'.store, s'.running[q])
    {
      if q != pid {
        ExecutorStays(x, s.store, s'.store, s.running[q]);
      }
    }
  }

  lemma BlockOk(x: Setup, s: Store, fence: nat, action: Option<nat>, code: Refusal)
    requires StoreOk(x, s)
    ensures StoreOk(x, Block(s, fence, action, code)) && StoreGrows(s, Block(s, fence, action, code))
  {
  }

  lemma RefusedKeeps(x: Setup, s: Sys, pid: nat, code: Refusal)
    requires Inv(x, s) && pid in s.running
    ensures Inv(x, Refused(s, pid, code)) && StoreGrows(s.store, Refused(s, pid, code).store)
  {
    BlockOk(x, s.store, s.running[pid].fence, Current(s.running[pid]), code);
    OneMoves(x, s, Refused(s, pid, code), pid);
  }

  lemma ClaimKeeps(x: Setup, s: Sys, step: Step, s': Sys)
    requires Inv(x, s) && Shaped(x, s) && Next(x, s, step, s') && step.ClaimStep?
    ensures Inv(x, s') && StoreGrows(s.store, s'.store)
  {
    OneMoves(x, s, s', step.pid);
  }

  lemma LoadKeeps(x: Setup, s: Sys, step: Step, s': Sys)
    requires Inv(x, s) && Shaped(x, s) && Next(x, s, step, s') && step.LoadStep?
    ensures Inv(x, s') && StoreGrows(s.store, s'.store)
  {
    assert ExecutorOk(x, s.store, s.running[step.pid]);
    OneMoves(x, s, s', step.pid);
  }

  lemma SeenPrepares(e: Executor, o: Identity)
    requires PreparedOk(e) && |e.seen| < |e.done|
    ensures PreparedOk(Seen(e, o))
  {
    var e' := Seen(e, o);
    forall i: nat | i < |e'.seen| && !e'.done[i]
      ensures i in e'.prepared
    {
      if i < |e.seen| {
        assert i in e.prepared;
      } else {
        assert e'.prepared[|e.prepared|] == i;
      }
    }
  }

  lemma PassCheck(x: Setup, s: Store, e: Executor, o: Identity)
    requires ExecutorOk(x, s, e) && e.stage == Checking
    requires |e.seen| < |x.actions| && Objection(x, e, o).None?
    ensures ExecutorOk(x, s, Seen(e, o))
  {
    SeenPrepares(e, o);
    forall i | 0 <= i < |Seen(e, o).seen|
      ensures PreflightOk(x, Seen(e, o), i)
    {
      assert i < |e.seen| ==> PreflightOk(x, e, i);
    }
  }

  /** One executor changes its stage, and nothing else changes. */
  lemma StageStep(x: Setup, s: Sys, pid: nat, e': Executor)
    requires Inv(x, s) && pid in s.running && ExecutorOk(x, s.store, e')
    ensures Inv(x, Moved(s, pid, e'))
  {
    OneMoves(x, s, Moved(s, pid, e'), pid);
  }

  lemma CheckKeeps(x: Setup, s: Sys, step: Step, s': Sys)
    requires Inv(x, s) && Shaped(x, s) && Next(x, s, step, s') && step.CheckStep?
    ensures Inv(x, s') && StoreGrows(s.store, s'.store)
  {
    var pid, e := step.pid, s.running[step.pid];
    assert ExecutorOk(x, s.store, e);
    if |e.seen| == |x.actions| {
      StageMoves(x, s.store, e, e.(stage := Looking));
      StageStep(x, s, pid, e.(stage := Looking));
    } else {
      var o := s.obs[|e.seen|];
      var objection := Objection(x, e, o);
      if objection.Some? {
        RefusedKeeps(x, s, pid, objection.value);
      } else {
        PassCheck(x, s.store, e, o);
        StageStep(x, s, pid, Seen(e, o));
      }
    }
  }

  /** One executor goes on with a changed store. */
  lemma StoreStep(x: Setup, s: Sys, store: Store, pid: nat, e': Executor)
    requires Inv(x, s) && StoreOk(x, store) && StoreGrows(s.store, store) && ExecutorOk(x, store, e')
    ensures Inv(x, Moved(s.(store := store), pid, e'))
  {
    OneMoves(x, s, Moved(s.(store := store), pid, e'), pid);
  }

  lemma LookKeeps(x: Setup, s: Sys, step: Step, s': Sys)
    requires Inv(x, s) && Shaped(x, s) && Next(x, s, step, s') && step.LookStep?
    ensures Inv(x, s') && StoreGrows(s.store, s'.store)
  {
    var e, k := s.running[step.pid], NextAction(s, step.pid);
    assert ExecutorOk(x, s.store, e);
    var o := s.obs[k];
    if Intended(x, k, o) || o == x.actions[k].expected {
      var stage := if Intended(x, k, o) then Recording(Receipt(Reconciled, o, o)) else Ready(o);
      StageMoves(x, s.store, e, e.(stage := stage));
      StageStep(x, s, step.pid, e.(stage := stage));
    } else {
      RefusedKeeps(x, s, step.pid, IdentityMismatch);
    }
  }

  lemma ApplyKeeps(x: Setup, s: Sys, step: Step, s': Sys)
    requires Inv(x, s) && Shaped(x, s) && Next(x, s, step, s') && step.ApplyStep?
    ensures Inv(x, s') && StoreGrows(s.store, s'.store)
  {
    assert ExecutorOk(x, s.store, s.running[step.pid]);
    StageMoves(x, s.store, s.running[step.pid], s'.running[step.pid]);
    AppliedIsReal(x, s, NextAction(s, step.pid), s');
    OneMoves(x, s, s', step.pid);
  }

  lemma AppliedIsReal(x: Setup, s: Sys, k: nat, s': Sys)
    requires RealityOk(x, s) && k < |x.actions| && Applies(x, s, k, s')
    ensures RealityOk(x, s')
  {
  }

  lemma VerifyKeeps(x: Setup, s: Sys, step: Step, s': Sys)
    requires Inv(x, s) && Shaped(x, s) && Next(x, s, step, s') && step.VerifyStep?
    ensures Inv(x, s') && StoreGrows(s.store, s'.store)
  {
    assert ExecutorOk(x, s.store, s.running[step.pid]);
    if step.pid in s'.running {
      StageMoves(x, s.store, s.running[step.pid], s'.running[step.pid]);
      OneMoves(x, s, s', step.pid);
    } else {
      RefusedKeeps(x, s, step.pid, VerificationFailed);
    }
  }

  lemma RecordOk(x: Setup, s: Store, fence: nat, k: nat, r: Receipt)
    requires StoreOk(x, s) && k < |x.actions| && ReceiptOk(x, k, r) && AllBefore(s, k)
    requires Record(s, fence, k, r).Ok?
    ensures var s' := Record(s, fence, k, r).value;
            StoreOk(x, s') && StoreGrows(s, s') && k in s'.receipts
  {
  }

  /** Recording moves an executor to its next action. */
  lemma RecordedOk(x: Setup, s: Store, s': Store, e: Executor)
    requires ExecutorOk(x, s, e) && e.stage.Recording? && StoreGrows(s, s')
    requires e.prepared[e.next] in s'.receipts
    ensures ExecutorOk(x, s', e.(next := e.next + 1, stage := Looking))
  {
    ExecutorStays(x, s, s', e);
    StageMoves(x, s', e, e.(next := e.next + 1, stage := Looking));
  }

  /** The receipt that an executor is about to record keeps the store in order. */
  lemma ReceiptFits(x: Setup, s: Sys, pid: nat)
    requires Inv(x, s) && HasNext(s, pid) && s.running[pid].stage.Recording?
    requires Record(s.store, s.running[pid].fence, NextAction(s, pid), s.running[pid].stage.receipt).Ok?
    ensures var store := Record(s.store, s.running[pid].fence, NextAction(s, pid), s.running[pid].stage.receipt).value;
            StoreOk(x, store) && StoreGrows(s.store, store) && NextAction(s, pid) in store.receipts
  {
    assert ExecutorOk(x, s.store, s.running[pid]);
    NextIsAfterReceipts(x, s, pid);
    RecordOk(x, s.store, s.running[pid].fence, NextAction(s, pid), s.running[pid].stage.receipt);
  }

  /** An executor goes on after its receipt has been recorded. */
  lemma RecordedKeeps(x: Setup, s: Sys, pid: nat)
    requires Inv(x, s) && HasNext(s, pid) && s.running[pid].stage.Recording?
    requires Record(s.store, s.running[pid].fence, NextAction(s, pid), s.running[pid].stage.receipt).Ok?
    ensures var store := Record(s.store, s.running[pid].fence, NextAction(s, pid), s.running[pid].stage.receipt).value;
            && StoreGrows(s.store, store)
            && Inv(x, Moved(s.(store := store), pid, s.running[pid].(next := s.running[pid].next + 1,
                                                                     stage := Looking)))
  {
    var e := s.running[pid];
    var store := Record(s.store, e.fence, NextAction(s, pid), e.stage.receipt).value;
    ReceiptFits(x, s, pid);
    RecordedOk(x, s.store, store, e);
    StoreStep(x, s, store, pid, e.(next := e.next + 1, stage := Looking));
  }

  lemma RecordKeeps(x: Setup, s: Sys, step: Step, s': Sys)
    requires Inv(x, s) && Shaped(x, s) && Next(x, s, step, s') && step.RecordStep?
    ensures Inv(x, s') && StoreGrows(s.store, s'.store)
  {
    var e, k := s.running[step.pid], NextAction(s, step.pid);
    var r := Record(s.store, e.fence, k, e.stage.receipt);
    if r.Err? {
      RefusedKeeps(x, s, step.pid, r.error);
    } else {
      RecordedKeeps(x, s, step.pid);
    }
  }

  lemma FinalizeKeeps(x: Setup, s: Sys, step: Step, s': Sys)
    requires Inv(x, s) && Shaped(x, s) && Next(x, s, step, s') && step.FinalizeStep?
    ensures Inv(x, s') && StoreGrows(s.store, s'.store)
  {
    var r := Finalize(s.store, s.running[step.pid].fence);
    if r.Err? {
      RefusedKeeps(x, s, step.pid, r.error);
    } else {
      OneMoves(x, s, s', step.pid);
    }
  }

  lemma NextKeeps(x: Setup, s: Sys, step: Step, s': Sys)
    requires Inv(x, s) && Shaped(x, s) && Next(x, s, step, s')
    ensures Inv(x, s') && StoreGrows(s.store, s'.store)
  {
    match step
    case ClaimStep(_, _, _) => ClaimKeeps(x, s, step, s');
    case LoadStep(_) => LoadKeeps(x, s, step, s');
    case CheckStep(_) => CheckKeeps(x, s, step, s');
    case LookStep(_) => LookKeeps(x, s, step, s');
    case ApplyStep(_) => ApplyKeeps(x, s, step, s');
    case VerifyStep(_) => VerifyKeeps(x, s, step, s');
    case RecordStep(_) => RecordKeeps(x, s, step, s');
    case FinalizeStep(_) => FinalizeKeeps(x, s, step, s');
    case RaiseStep(pid, code) => RefusedKeeps(x, s, pid, code);
    case CrashStep(pid) => OneMoves(x, s, s', pid);
    case Drift => OneMoves(x, s, s', 0);
  }

  /** Every reachable state, with any number of crashes and of stale executors. */
  lemma {:induction false} RunKeeps(x: Setup, states: seq<Sys>, steps: seq<Step>, i: nat)
    requires Run(x, states, steps) && i < |states|
    ensures Inv(x, states[i])
  {
    if i == 0 {
      InitialOk(x, states[0]);
    } else {
      RunKeeps(x, states, steps, i - 1);
      assert StepAt(x, states, steps, i - 1);
      NextKeeps(x, states[i - 1], steps[i - 1], states[i]);
    }
  }

  lemma InitialOk(x: Setup, s: Sys)
    requires Initial(x, s)
    ensures Inv(x, s)
  {
  }

  /** The i-th step of a run, between two states that satisfy the invariant. */
  lemma RunStep(x: Setup, states: seq<Sys>, steps: seq<Step>, i: nat)
    requires Run(x, states, steps) && i < |steps|
    ensures Inv(x, states[i]) && Shaped(x, states[i]) && Next(x, states[i], steps[i], states[i + 1])
    ensures Inv(x, states[i + 1]) && StoreGrows(states[i].store, states[i + 1].store)
  {
    RunKeeps(x, states, steps, i);
    RunKeeps(x, states, steps, i + 1);
    assert StepAt(x, states, steps, i);
    NextKeeps(x, states[i], steps[i], states[i + 1]);
  }
}
