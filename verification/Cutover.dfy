/**
 The writer cutover of src/league/acceptance.py: a journalled switch of the writer
 pointer from one generation to another, and the reconciliation after a restart. Every
 file is replaced atomically, so a process is a script of writes that may stop anywhere.
 The operation's `fault_stage` records the journal stage at which the last crash left it.
 */
module Cutover {
  import opened Prelude

  datatype Pointer = Pointer(generation: string, writer: string, version: string)

  datatype Stage =
    | LockAcquired | BackupRecorded | OldWriterQuiesced | PointerPrepared
    | PointerSwitched | NewWriterActivated | GenerationVerified

  datatype JournalState = Executing | Reconciled | Completed

  datatype Journal = Journal(state: JournalState, stage: Stage, prior: Pointer, successor: Pointer,
                             selected: Option<string>)

  datatype OperationState = Planned | Running | Blocked | Done

  datatype Entry = Entry(state: OperationState, outcome: Option<string>)

  datatype Operation = Operation(state: OperationState, fault: Option<Stage>, history: seq<Entry>)

  /** The files of the cutover root. */
  datatype Files = Files(
    pointer: Pointer,
    prepared: Option<Pointer>,
    backup: Option<Pointer>,
    writers: seq<Pointer>,
    history: seq<seq<string>>,
    journal: Option<Journal>,
    operation: Operation)

  /** One atomic change of one file, or the check of `_coherent_sandbox_writer`. */
  datatype Write =
    | WriteOperation(state: OperationState, outcome: Option<string>)
    | WriteJournal(journal: Journal)
    | WriteBackup(prior: Pointer)
    | WriteWriters(values: seq<Pointer>)
    | WriteHistory
    | WritePrepared(next: Pointer)
    | ReplacePointer
    | Verify

  function Generations(ps: seq<Pointer>): seq<string> {
    if ps == [] then [] else [ps[0].generation] + Generations(ps[1..])
  }

  predicate Coherent(f: Files) {
    |f.writers| == 1 && f.writers[0].generation == f.pointer.generation
  }

  function Put(f: Files, w: Write): Files {
    match w
    case WriteOperation(state, outcome) =>
      f.(operation := Operation(state, f.operation.fault, f.operation.history + [Entry(state, outcome)]))
    case WriteJournal(j) => f.(journal := Some(j))
    case WriteBackup(prior) => f.(backup := Some(prior))
    case WriteWriters(values) => f.(writers := values)
    case WriteHistory => f.(history := f.history + [Generations(f.writers)])
    case WritePrepared(next) => f.(prepared := Some(next))
    case ReplacePointer => if f.prepared.Some? then f.(pointer := f.prepared.value, prepared := None) else f
    case Verify => f
  }

  /** `_execute_cutover_switch` */
  function ExecuteScript(prior: Pointer, successor: Pointer): seq<Write> {
    [ WriteOperation(Running, None),
      WriteJournal(Journal(Executing, LockAcquired, prior, successor, None)),
      WriteBackup(prior),
      WriteJournal(Journal(Executing, BackupRecorded, prior, successor, None)),
      WriteWriters([]),
      WriteHistory,
      WriteJournal(Journal(Executing, OldWriterQuiesced, prior, successor, None)),
      WritePrepared(successor),
      WriteJournal(Journal(Executing, PointerPrepared, prior, successor, None)),
      ReplacePointer,
      WriteJournal(Journal(Executing, PointerSwitched, prior, successor, None)),
      WriteWriters([successor]),
      WriteHistory,
      WriteJournal(Journal(Executing, NewWriterActivated, prior, successor, None)),
      Verify,
      WriteJournal(Journal(Executing, GenerationVerified, prior, successor, None)),
      WriteOperation(Done, Some("new")),
      WriteJournal(Journal(Completed, GenerationVerified, prior, successor, Some(successor.generation))) ]
  }

  /** The guards of `_reconcile_cutover_startup`. */
  predicate Recoverable(f: Files) {
    && f.journal.Some? && f.journal.value.state == Executing
    && f.journal.value.prior.generation != f.journal.value.successor.generation
    && Some(f.journal.value.stage) == f.operation.fault
    && (f.pointer == f.journal.value.prior || f.pointer == f.journal.value.successor)
  }

  /** `_reconcile_cutover_startup` behind its guards. */
  function RecoverScript(selected: Pointer, j: Journal, resume: bool): seq<Write> {
    [ WriteWriters([selected]),
      WriteHistory,
      Verify,
      WriteJournal(Journal(Reconciled, j.stage, j.prior, j.successor, Some(selected.generation))),
      WriteOperation(Blocked, None) ]
    + if resume then
        [ WriteOperation(Running, None),
          WriteOperation(Done, Some(if selected.generation == j.successor.generation then "new" else "old")) ]
      else []
  }

  // ------------------------------------------------------------------- runs

  /** Which process is at work, and how much of its script it has done. */
  datatype Process = Idle | Switching(k: nat) | Recovering(selected: Pointer, journal: Journal, resume: bool, k: nat)

  datatype Sys = Sys(files: Files, process: Process)

  datatype Step = Start | Advance | Finish | Crash | Recover(resume: bool)

  function Script(prior: Pointer, successor: Pointer, p: Process): seq<Write>
    requires !p.Idle?
  {
    match p
    case Switching(_) => ExecuteScript(prior, successor)
    case Recovering(selected, j, resume, _) => RecoverScript(selected, j, resume)
  }

  function Moved(p: Process): Process
    requires !p.Idle?
  {
    match p
    case Switching(k) => Switching(k + 1)
    case Recovering(selected, j, resume, k) => Recovering(selected, j, resume, k + 1)
  }

  /** A crash at any point; the operation's fault stage says what the journal had reached. */
  function Crashed(f: Files): Files {
    f.(operation := f.operation.(fault := if f.journal.Some? then Some(f.journal.value.stage) else f.operation.fault))
  }

  predicate Next(prior: Pointer, successor: Pointer, s: Sys, step: Step, s': Sys) {
    match step
    case Start =>
      s.process == Idle && s.files.operation.state == Planned && s' == s.(process := Switching(0))
    case Advance =>
      && !s.process.Idle? && s.process.k < |Script(prior, successor, s.process)|
      && var w := Script(prior, successor, s.process)[s.process.k];
         s' == if w == Verify && !Coherent(s.files) then s.(process := Idle)
               else Sys(Put(s.files, w), Moved(s.process))
    case Finish =>
      !s.process.Idle? && s.process.k == |Script(prior, successor, s.process)| && s' == s.(process := Idle)
    case Crash => !s.process.Idle? && s' == Sys(Crashed(s.files), Idle)
    case Recover(resume) =>
      && s.process == Idle && Recoverable(s.files)
      && s' == s.(process := Recovering(s.files.pointer, s.files.journal.value, resume, 0))
  }

  /** The root as `_cutover_case` prepares it. */
  predicate Initial(prior: Pointer, s: Sys) {
    && s.process == Idle
    && s.files == Files(prior, None, None, [prior], [[prior.generation]], None,
                        Operation(Planned, s.files.operation.fault, s.files.operation.history))
  }

  predicate StepAt(prior: Pointer, successor: Pointer, states: seq<Sys>, steps: seq<Step>, i: nat)
    requires i < |steps| < |states|
  {
    Next(prior, successor, states[i], steps[i], states[i + 1])
  }

  predicate Run(prior: Pointer, successor: Pointer, states: seq<Sys>, steps: seq<Step>) {
    && |states| == |steps| + 1
    && Initial(prior, states[0])
    && forall i: nat | i < |steps| :: StepAt(prior, successor, states, steps, i)
  }

  // -------------------------------------------------------------- invariant

  /** At most one writer is active, and it is the pointer's. */
  predicate WriterOk(prior: Pointer, successor: Pointer, f: Files) {
    && (f.pointer == prior || f.pointer == successor)
    && (f.writers == [] || f.writers == [f.pointer])
  }

  /** Each snapshot of the history has at most one writer; no old one after a new one. */
  predicate HistoryOk(prior: Pointer, successor: Pointer, f: Files) {
    && (forall i | 0 <= i < |f.history| ::
          f.history[i] == [] || f.history[i] == [prior.generation] || f.history[i] == [successor.generation])
    && (f.pointer == prior && prior.generation != successor.generation ==>
          forall i | 0 <= i < |f.history| :: f.history[i] != [successor.generation])
    && (prior.generation != successor.generation ==>
          forall i, j | 0 <= i < j < |f.history| && f.history[i] == [successor.generation] ::
              f.history[j] != [prior.generation])
  }

  predicate JournalOk(prior: Pointer, successor: Pointer, f: Files) {
    f.journal.Some? ==> f.journal.value.prior == prior && f.journal.value.successor == successor
  }

  /** How far a journal stage is in the switch. */
  function Rank(stage: Stage): nat {
    match stage
    case LockAcquired => 0
    case BackupRecorded => 1
    case OldWriterQuiesced => 2
    case PointerPrepared => 3
    case PointerSwitched => 4
    case NewWriterActivated => 5
    case GenerationVerified => 6
  }

  /**
   Each stage stands in the journal only after its effect: the backup of the old pointer,
   a moment without a writer, the prepared pointer, the replaced pointer, the new writer
   and its check; and the journal is completed only after the operation is done.
   */
  predicate StageOk(prior: Pointer, successor: Pointer, f: Files) {
    && (f.backup == None || f.backup == Some(prior))
    && (f.journal.Some? ==>
          var stage := Rank(f.journal.value.stage);
          && (stage >= 1 ==> f.backup == Some(prior))
          && (stage >= 2 ==> exists i | 0 <= i < |f.history| :: f.history[i] == [])
          && (stage == 3 ==> f.prepared == Some(successor) || f.pointer == successor)
          && (stage >= 4 ==> f.pointer == successor)
          && (stage >= 5 ==> f.writers == [successor] && [successor.generation] in f.history)
          && (stage == 6 ==> Coherent(f))
          && (f.journal.value.state == Completed ==>
                stage == 6 && f.operation.state == Done && EndsWith(f.operation, true)
                && f.journal.value.selected == Some(successor.generation)))
  }

  /** The stage that the journal shows before the k-th write. */
  function StageAt(k: nat): Stage {
    if k <= 3 then LockAcquired else if k <= 6 then BackupRecorded else if k <= 8 then OldWriterQuiesced
    else if k <= 10 then PointerPrepared else if k <= 13 then PointerSwitched else if k <= 15 then NewWriterActivated
    else GenerationVerified
  }

  /** What of the switch's effects on backup, history and operation is there before its k-th write. */
  predicate EffectsOk(prior: Pointer, successor: Pointer, f: Files, k: nat) {
    && (f.backup == None || f.backup == Some(prior)) && (k >= 3 ==> f.backup == Some(prior))
    && (f.journal.Some? ==> f.journal.value.stage == StageAt(k))
    && (k >= 6 ==> exists i | 0 <= i < |f.history| :: f.history[i] == [])
    && (k >= 13 ==> [successor.generation] in f.history)
    && (k >= 17 ==> f.operation.state == Done && EndsWith(f.operation, true))
    && (k == 18 ==> f.journal.Some? && f.journal.value.selected == Some(successor.generation))
  }

  /** What the switch has done before its k-th write. */
  predicate SwitchOk(prior: Pointer, successor: Pointer, f: Files, k: nat) {
    && k <= 18
    && f.pointer == (if k <= 9 then prior else successor)
    && f.writers == (if k <= 4 then [prior] else if k <= 11 then [] else [successor])
    && (8 <= k <= 9 ==> f.prepared == Some(successor))
    && (k <= 1 ==> f.journal == None)
    && (k >= 2 ==> f.journal.Some?)
    && (2 <= k <= 17 ==> f.journal.value.state == Executing)
    && (k == 18 ==> f.journal.value.state == Completed)
    && (k == 0 ==> f.operation.state == Planned)
    && (k > 0 ==> f.operation.state != Planned)
    && EffectsOk(prior, successor, f, k)
  }

  /** The operation's last entry records the outcome. */
  predicate EndsWith(o: Operation, switched: bool) {
    o.history != [] && o.history[|o.history| - 1] == Entry(Done, Some(if switched then "new" else "old"))
  }

  /** What a recovery has done before its k-th write. */
  predicate RecoverOk(f: Files, p: Process)
    requires p.Recovering?
  {
    && p.k <= |RecoverScript(p.selected, p.journal, p.resume)|
    && f.pointer == p.selected && f.operation.state != Planned
    && (p.k >= 1 ==> f.writers == [p.selected])
    && f.journal.Some? && p.journal.state == Executing
    && (p.k <= 3 ==> f.journal == Some(p.journal))
    && (p.k >= 4 ==> f.journal == Some(Journal(Reconciled, p.journal.stage, p.journal.prior, p.journal.successor,
                                               Some(p.selected.generation))))
    && (p.k >= 7 ==> EndsWith(f.operation, p.selected.generation == p.journal.successor.generation))
  }

  predicate ProcessOk(prior: Pointer, successor: Pointer, f: Files, p: Process) {
    match p
    case Idle =>
      && (f.operation.state == Planned ==> f.pointer == prior && f.writers == [prior] && f.journal == None)
      && (f.journal.Some? && f.journal.value.state != Executing ==> f.writers == [f.pointer])
    case Switching(k) => SwitchOk(prior, successor, f, k)
    case Recovering(_, j, _, _) => RecoverOk(f, p) && j.prior == prior && j.successor == successor
  }

  predicate Inv(prior: Pointer, successor: Pointer, s: Sys) {
    && WriterOk(prior, successor, s.files) && HistoryOk(prior, successor, s.files)
        && JournalOk(prior, successor, s.files) && StageOk(prior, successor, s.files)
    && ProcessOk(prior, successor, s.files, s.process)
  }

  // ------------------------------------------------------- steps keep them

  lemma GenerationsOfOne(p: Pointer)
    ensures Generations([p]) == [p.generation] && Generations([]) == []
  {
  }

  lemma EffectsAdvance(prior: Pointer, successor: Pointer, f: Files, k: nat)
    requires SwitchOk(prior, successor, f, k) && k < 18
    ensures EffectsOk(prior, successor, Put(f, ExecuteScript(prior, successor)[k]), k + 1)
  {
    var f' := Put(f, ExecuteScript(prior, successor)[k]);
    GenerationsOfOne(successor);
    if k == 5 {
      assert f'.history[|f.history|] == [];
    }
    if k > 5 {
      var i :| 0 <= i < |f.history| && f.history[i] == [];
      assert f'.history[i] == [];
    }
  }

  lemma SwitchStage(prior: Pointer, successor: Pointer, f: Files, k: nat)
    requires SwitchOk(prior, successor, f, k)
    ensures StageOk(prior, successor, f)
  {
  }

  /** One write of the switch. */
  lemma SwitchAdvances(prior: Pointer, successor: Pointer, f: Files, k: nat)
    requires SwitchOk(prior, successor, f, k) && k < 18
    ensures SwitchOk(prior, successor, Put(f, ExecuteScript(prior, successor)[k]), k + 1)
  {
    EffectsAdvance(prior, successor, f, k);
  }

  lemma SwitchKeeps(prior: Pointer, successor: Pointer, f: Files, k: nat)
    requires SwitchOk(prior, successor, f, k) && k < 18 && HistoryOk(prior, successor, f)
    ensures HistoryOk(prior, successor, Put(f, ExecuteScript(prior, successor)[k]))
  {
    GenerationsOfOne(successor);
  }

  lemma SwitchWriters(prior: Pointer, successor: Pointer, f: Files, k: nat)
    requires SwitchOk(prior, successor, f, k)
    ensures WriterOk(prior, successor, f)
  {
  }

  lemma SwitchJournal(prior: Pointer, successor: Pointer, f: Files, k: nat)
    requires JournalOk(prior, successor, f) && k < 18
    ensures JournalOk(prior, successor, Put(f, ExecuteScript(prior, successor)[k]))
  {
  }

  lemma RecoverAdvances(prior: Pointer, successor: Pointer, s: Sys)
    requires Inv(prior, successor, s) && s.process.Recovering?
    requires s.process.k < |Script(prior, successor, s.process)|
    ensures Inv(prior, successor, Sys(Put(s.files, Script(prior, successor, s.process)[s.process.k]), Moved(s.process)))
  {
    var f, f' := s.files, Put(s.files, Script(prior, successor, s.process)[s.process.k]);
    if i :| 0 <= i < |f.history| && f.history[i] == [] {
      assert f'.history[i] == [];
    }
    GenerationsOfOne(s.process.selected);
  }

  lemma AdvanceKeeps(prior: Pointer, successor: Pointer, s: Sys, s': Sys)
    requires Inv(prior, successor, s) && Next(prior, successor, s, Advance, s')
    ensures Inv(prior, successor, s')
  {
    if Script(prior, successor, s.process)[s.process.k] == Verify {
      VerifyHolds(prior, successor, s);
    }
    match s.process
    case Switching(k) =>
      SwitchAdvances(prior, successor, s.files, k);
      SwitchKeeps(prior, successor, s.files, k);
      SwitchJournal(prior, successor, s.files, k);
      SwitchWriters(prior, successor, s'.files, k + 1);
      SwitchStage(prior, successor, s'.files, k + 1);
    case Recovering(_, _, _, _) => RecoverAdvances(prior, successor, s);
  }

  /** The coherence check never fails, neither in a switch nor in a recovery. */
  lemma VerifyHolds(prior: Pointer, successor: Pointer, s: Sys)
    requires Inv(prior, successor, s) && !s.process.Idle?
    requires s.process.k < |Script(prior, successor, s.process)|
             && Script(prior, successor, s.process)[s.process.k] == Verify
    ensures Coherent(s.files)
  {
  }

  lemma NextKeeps(prior: Pointer, successor: Pointer, s: Sys, step: Step, s': Sys)
    requires Inv(prior, successor, s) && Next(prior, successor, s, step, s')
    ensures Inv(prior, successor, s')
  {
    match step
    case Advance => AdvanceKeeps(prior, successor, s, s');
    case _ =>
  }

  lemma InitialOk(prior: Pointer, successor: Pointer, s: Sys)
    requires Initial(prior, s)
    ensures Inv(prior, successor, s)
  {
    assert |s.files.history| == 1;
  }

  lemma {:induction false} RunKeeps(prior: Pointer, successor: Pointer, states: seq<Sys>, steps: seq<Step>, i: nat)
    requires Run(prior, successor, states, steps) && i < |states|
    ensures Inv(prior, successor, states[i])
  {
    if i == 0 {
      InitialOk(prior, successor, states[0]);
    } else {
      RunKeeps(prior, successor, states, steps, i - 1);
      assert StepAt(prior, successor, states, steps, i - 1);
      NextKeeps(prior, successor, states[i - 1], steps[i - 1], states[i]);
    }
  }

  // -------------------------------------------------------------- whole runs

  /** In every reachable state at most one writer is active, and it is the pointer's. */
  lemma OneWriter(prior: Pointer, successor: Pointer, states: seq<Sys>, steps: seq<Step>, i: nat)
    requires Run(prior, successor, states, steps) && i < |states|
    ensures WriterOk(prior, successor, states[i].files)
    ensures forall k | 0 <= k < |states[i].files.history| :: |states[i].files.history[k]| <= 1
  {
    RunKeeps(prior, successor, states, steps, i);
    var history := states[i].files.history;
    assert forall k | 0 <= k < |history| ::
        history[k] == [] || history[k] == [prior.generation] || history[k] == [successor.generation];
  }

  /** The write that replaces the pointer. */
  predicate Replaces(s: Sys, step: Step) { step == Advance && s.process == Switching(9) }

  lemma PointerMoves(prior: Pointer, successor: Pointer, s: Sys, step: Step, s': Sys)
    requires Inv(prior, successor, s) && Next(prior, successor, s, step, s')
    ensures s'.files.pointer == if Replaces(s, step) then successor else s.files.pointer
  {
  }

  /** The pointer is the new one exactly when its replacement has happened. */
  lemma {:induction false} PointerExactly(prior: Pointer, successor: Pointer, states: seq<Sys>, steps: seq<Step>,
                                          i: nat)
    requires Run(prior, successor, states, steps) && prior != successor && i < |states|
    ensures states[i].files.pointer == successor <==> exists j | 0 <= j < i :: Replaces(states[j], steps[j])
  {
    if i == 0 {
    } else {
      PointerExactly(prior, successor, states, steps, i - 1);
      RunKeeps(prior, successor, states, steps, i - 1);
      assert StepAt(prior, successor, states, steps, i - 1);
      PointerMoves(prior, successor, states[i - 1], steps[i - 1], states[i]);
    }
  }

  /** The write that records the backup. */
  predicate BacksUp(s: Sys, step: Step) { step == Advance && s.process == Switching(2) }

  lemma BackupMoves(prior: Pointer, successor: Pointer, s: Sys, step: Step, s': Sys)
    requires Inv(prior, successor, s) && Next(prior, successor, s, step, s')
    ensures s'.files.backup == if BacksUp(s, step) then Some(prior) else s.files.backup
  {
  }

  /** From the backup's write on, through crashes and recoveries, the backup is the old pointer. */
  lemma {:induction false} BackupExactly(prior: Pointer, successor: Pointer, states: seq<Sys>, steps: seq<Step>, i: nat)
    requires Run(prior, successor, states, steps) && i < |states|
    ensures states[i].files.backup ==
              if exists j | 0 <= j < i :: BacksUp(states[j], steps[j]) then Some(prior) else None
  {
    if i == 0 {
    } else {
      BackupExactly(prior, successor, states, steps, i - 1);
      RunKeeps(prior, successor, states, steps, i - 1);
      assert StepAt(prior, successor, states, steps, i - 1);
      BackupMoves(prior, successor, states[i - 1], steps[i - 1], states[i]);
    }
  }

  /** In every reachable state the journal shows no stage before its effect. */
  lemma StageAfterEffect(prior: Pointer, successor: Pointer, states: seq<Sys>, steps: seq<Step>, i: nat)
    requires Run(prior, successor, states, steps) && i < |states|
    ensures StageOk(prior, successor, states[i].files)
  {
    RunKeeps(prior, successor, states, steps, i);
  }

  /** Once the new writer has been active, the old one never is again. */
  lemma OldNeverReturns(prior: Pointer, successor: Pointer, states: seq<Sys>, steps: seq<Step>, i: nat, j: nat)
    requires Run(prior, successor, states, steps) && prior != successor && i <= j < |states|
    requires states[i].files.writers == [successor]
    ensures states[j].files.writers != [prior]
  {
    RunKeeps(prior, successor, states, steps, i);
    RunKeeps(prior, successor, states, steps, j);
    PointerExactly(prior, successor, states, steps, i);
    PointerExactly(prior, successor, states, steps, j);
    assert states[i].files.writers[0] == successor;
    var r :| 0 <= r < i && Replaces(states[r], steps[r]);
  }

  /**
   A recovery that runs to its end leaves exactly the pointer's writer active, which is
   the new one exactly when the pointer had been replaced; resumed, it records so.
   */
  lemma CompletedRecovery(prior: Pointer, successor: Pointer, states: seq<Sys>, steps: seq<Step>, i: nat)
    requires Run(prior, successor, states, steps) && prior != successor && i < |steps|
    requires steps[i] == Finish && states[i].process.Recovering?
    ensures var f := states[i + 1].files;
            && Coherent(f) && f.writers == [f.pointer]
            && (f.writers == [successor] <==> exists j | 0 <= j < i :: Replaces(states[j], steps[j]))
            && f.journal.Some? && f.journal.value.state == Reconciled
            && f.journal.value.selected == Some(f.pointer.generation)
            && (states[i].process.resume ==> EndsWith(f.operation, f.pointer.generation == successor.generation))
  {
    RunKeeps(prior, successor, states, steps, i);
    PointerExactly(prior, successor, states, steps, i);
    assert StepAt(prior, successor, states, steps, i);
    assert [states[i].files.pointer][0] == states[i].files.pointer;
  }

  /** After a crash, recovery is possible exactly when the journal is unfinished and the generations differ. */
  lemma CrashIsRecoverable(prior: Pointer, successor: Pointer, states: seq<Sys>, steps: seq<Step>, i: nat)
    requires Run(prior, successor, states, steps) && i < |steps| && steps[i] == Crash
    ensures var f := states[i + 1].files;
            Recoverable(f) <==>
              f.journal.Some? && f.journal.value.state == Executing && prior.generation != successor.generation
  {
    RunKeeps(prior, successor, states, steps, i);
    assert StepAt(prior, successor, states, steps, i);
  }

  /** A root whose journal is finished, by a switch or a recovery, is refused recovery, and is coherent. */
  lemma FinishedIsCoherent(prior: Pointer, successor: Pointer, states: seq<Sys>, steps: seq<Step>, i: nat)
    requires Run(prior, successor, states, steps) && i < |states| && states[i].process == Idle
    requires states[i].files.journal.Some? && states[i].files.journal.value.state != Executing
    ensures Coherent(states[i].files) && !Recoverable(states[i].files)
  {
    RunKeeps(prior, successor, states, steps, i);
  }

  // --------------------------------------------------- scripts, write by write

  /** The files after the first `n` writes of a script. */
  function Prefix(f: Files, script: seq<Write>, n: nat): Files
    requires n <= |script|
  {
    if n == 0 then f else Put(Prefix(f, script, n - 1), script[n - 1])
  }

  /** A process that has begun, after `n` writes of its script. */
  function Halfway(prior: Pointer, successor: Pointer, f: Files, p: Process, n: nat): Sys
    requires !p.Idle? && n <= |Script(prior, successor, p)|
  {
    Sys(Prefix(f, Script(prior, successor, p), n), p.(k := n))
  }

  lemma HalfwayOn(prior: Pointer, successor: Pointer, f: Files, p: Process, n: nat)
    requires !p.Idle? && p.k == 0 && n < |Script(prior, successor, p)|
    requires Inv(prior, successor, Halfway(prior, successor, f, p, n))
    ensures Next(prior, successor, Halfway(prior, successor, f, p, n), Advance, Halfway(prior, successor, f, p, n + 1))
  {
    if Script(prior, successor, p)[n] == Verify {
      VerifyHolds(prior, successor, Halfway(prior, successor, f, p, n));
    }
  }

  /** A process that has begun reaches, write by write, the prefixes of its script. */
  lemma {:induction false} PrefixIsReached(prior: Pointer, successor: Pointer, f: Files, p: Process, n: nat)
    requires !p.Idle? && p.k == 0 && Inv(prior, successor, Sys(f, p)) && n <= |Script(prior, successor, p)|
    ensures Inv(prior, successor, Halfway(prior, successor, f, p, n))
    ensures n < |Script(prior, successor, p)| ==>
              Next(prior, successor, Halfway(prior, successor, f, p, n), Advance,
                   Halfway(prior, successor, f, p, n + 1))
  {
    if n == 0 {
    } else {
      PrefixIsReached(prior, successor, f, p, n - 1);
      AdvanceKeeps(prior, successor, Halfway(prior, successor, f, p, n - 1), Halfway(prior, successor, f, p, n));
    }
    if n < |Script(prior, successor, p)| {
      HalfwayOn(prior, successor, f, p, n);
    }
  }
}
