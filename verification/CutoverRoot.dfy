/**
 The cutover functions of src/league/acceptance.py over the files of a cutover root,
 which they rewrite one by one. `left` is how many writes the process makes before it is
 killed; whatever that is, the files end up as a prefix of the function's script.
 */
module CutoverRoot {
  import opened Prelude
  import opened Cutover

  class Root {
    var pointer: Pointer
    var prepared: Option<Pointer>
    var backup: Option<Pointer>
    var writers: seq<Pointer>
    var history: seq<seq<string>>
    var journal: Option<Journal>
    var operation: Operation
    var left: nat
    ghost var start: Files
    ghost var script: seq<Write>
    ghost var done: nat

    function Contents(): Files
      reads this
    {
      Files(pointer, prepared, backup, writers, history, journal, operation)
    }

    /** So far, exactly the first writes of the script have been made. */
    ghost predicate OnScript()
      reads this
    {
      done <= |script| && Contents() == Prefix(start, script, done)
    }

    /** The root as `_cutover_case` prepares it. */
    constructor (prior: Pointer, fault: Option<Stage>, budget: nat)
      ensures Initial(prior, Sys(Contents(), Idle)) && left == budget
    {
      pointer, prepared, backup, writers, history := prior, None, None, [prior], [[prior.generation]];
      journal, operation, left := None, Operation(Planned, fault, [Entry(Planned, None)]), budget;
    }

    ghost method Begin(s: seq<Write>)
      modifies this`start, this`script, this`done
      ensures OnScript() && done == 0 && script == s && start == Contents()
    {
      start, script, done := Contents(), s, 0;
    }

    /** The next entry of the script is `w`. */
    ghost predicate Due(w: Write)
      reads this
    {
      OnScript() && done < |script| && script[done] == w
    }

    /** What a write does to the progress along the script: one entry more, or the process is dead. */
    twostate predicate Progress(alive: bool)
      reads this
    {
      && OnScript() && script == old(script) && start == old(start)
      && (alive <==> old(left) > 0)
      && (alive ==> done == old(done) + 1 && left == old(left) - 1)
      && (!alive ==> done == old(done) && left == 0 && Contents() == old(Contents()))
    }

    method OperationWrite(state: OperationState, outcome: Option<string>) returns (alive: bool)
      requires Due(WriteOperation(state, outcome))
      modifies this
      ensures Progress(alive)
    {
      if left == 0 {
        return false;
      }
      operation := Operation(state, operation.fault, operation.history + [Entry(state, outcome)]);
      left, done := left - 1, done + 1;
      return true;
    }

    method WriteCutoverJournal(j: Journal) returns (alive: bool)
      requires Due(WriteJournal(j))
      modifies this
      ensures Progress(alive)
    {
      if left == 0 {
        return false;
      }
      journal := Some(j);
      left, done := left - 1, done + 1;
      return true;
    }

    method WriteBackupPointer(p: Pointer) returns (alive: bool)
      requires Due(WriteBackup(p))
      modifies this
      ensures Progress(alive)
    {
      if left == 0 {
        return false;
      }
      backup := Some(p);
      left, done := left - 1, done + 1;
      return true;
    }

    method WriteNextPointer(p: Pointer) returns (alive: bool)
      requires Due(WritePrepared(p))
      modifies this
      ensures Progress(alive)
    {
      if left == 0 {
        return false;
      }
      prepared := Some(p);
      left, done := left - 1, done + 1;
      return true;
    }

    /** `os.replace(pointer.next.json, writer-pointer.json)` */
    method ReplaceWriterPointer() returns (alive: bool)
      requires Due(ReplacePointer)
      modifies this
      ensures Progress(alive)
    {
      if left == 0 {
        return false;
      }
      if prepared.Some? {
        pointer, prepared := prepared.value, None;
      }
      left, done := left - 1, done + 1;
      return true;
    }

    /** `_set_sandbox_writers`: the writers, then their snapshot in the history. */
    method SetSandboxWriters(values: seq<Pointer>) returns (alive: bool)
      requires |values| <= 1
      requires Due(WriteWriters(values)) && done + 1 < |script| && script[done + 1] == WriteHistory
      modifies this
      ensures OnScript() && script == old(script) && start == old(start)
      ensures alive <==> old(left) > 1
      ensures alive ==> done == old(done) + 2 && left == old(left) - 2
      ensures !alive ==> done == old(done) + old(left) && left == 0
    {
      if left == 0 {
        return false;
      }
      writers := values;
      left, done := left - 1, done + 1;
      if left == 0 {
        return false;
      }
      history := history + [Generations(values)];
      left, done := left - 1, done + 1;
      return true;
    }

    /** `_coherent_sandbox_writer`; reading takes no write, but the process may die before it. */
    method CoherentSandboxWriter() returns (alive: bool)
      requires Due(Verify) && Coherent(Contents())
      modifies this`left, this`done
      ensures Progress(alive)
    {
      if left == 0 {
        return false;
      }
      left, done := left - 1, done + 1;
      return true;
    }

    /** `_execute_cutover_switch` up to the recorded backup. */
    method RecordBackup(prior: Pointer, successor: Pointer) returns (alive: bool)
      requires OnScript() && done == 0 && script == ExecuteScript(prior, successor)
      modifies this
      ensures OnScript() && script == old(script) && start == old(start)
      ensures alive <==> old(left) >= 4
      ensures if alive then done == 4 && left == old(left) - 4 else done == old(left)
    {
      alive := OperationWrite(Running, None);
      if !alive { return; }
      alive := WriteCutoverJournal(Journal(Executing, LockAcquired, prior, successor, None));
      if !alive { return; }
      alive := WriteBackupPointer(prior);
      if !alive { return; }
      alive := WriteCutoverJournal(Journal(Executing, BackupRecorded, prior, successor, None));
    }

    /** From there to the quiesced old writer. */
    method QuiesceOldWriter(prior: Pointer, successor: Pointer) returns (alive: bool)
      requires OnScript() && done == 4 && script == ExecuteScript(prior, successor)
      modifies this
      ensures OnScript() && script == old(script) && start == old(start)
      ensures alive <==> old(left) >= 3
      ensures if alive then done == 7 && left == old(left) - 3 else done == 4 + old(left)
    {
      alive := SetSandboxWriters([]);
      if !alive { return; }
      alive := WriteCutoverJournal(Journal(Executing, OldWriterQuiesced, prior, successor, None));
    }

    /** From there to the switched pointer. */
    method SwitchPointer(prior: Pointer, successor: Pointer) returns (alive: bool)
      requires OnScript() && done == 7 && script == ExecuteScript(prior, successor)
      modifies this
      ensures OnScript() && script == old(script) && start == old(start)
      ensures alive <==> old(left) >= 4
      ensures if alive then done == 11 && left == old(left) - 4 else done == 7 + old(left)
    {
      alive := WriteNextPointer(successor);
      if !alive { return; }
      alive := WriteCutoverJournal(Journal(Executing, PointerPrepared, prior, successor, None));
      if !alive { return; }
      alive := ReplaceWriterPointer();
      if !alive { return; }
      alive := WriteCutoverJournal(Journal(Executing, PointerSwitched, prior, successor, None));
    }

    /** From there to the completed operation. */
    method ActivateNewWriter(prior: Pointer, successor: Pointer) returns (alive: bool)
      requires OnScript() && done == 11 && script == ExecuteScript(prior, successor)
      requires Inv(prior, successor, Sys(start, Switching(0)))
      modifies this
      ensures OnScript() && script == old(script) && start == old(start)
      ensures alive <==> old(left) >= 7
      ensures if alive then done == 18 && left == old(left) - 7 else done == 11 + old(left)
    {
      alive := SetSandboxWriters([successor]);
      if !alive { return; }
      alive := WriteCutoverJournal(Journal(Executing, NewWriterActivated, prior, successor, None));
      if !alive { return; }
      PrefixIsReached(prior, successor, start, Switching(0), done);
      VerifyHolds(prior, successor, Sys(Contents(), Switching(done)));
      alive := CoherentSandboxWriter();
      if !alive { return; }
      alive := WriteCutoverJournal(Journal(Executing, GenerationVerified, prior, successor, None));
      if !alive { return; }
      alive := OperationWrite(Done, Some("new"));
      if !alive { return; }
      alive := WriteCutoverJournal(Journal(Completed, GenerationVerified, prior, successor,
                                           Some(successor.generation)));
    }

    /**
     `_execute_cutover_switch`: the files are those after as many writes of the script as
     the process lived to make.
     */
    method ExecuteSwitch(prior: Pointer, successor: Pointer) returns (completed: bool)
      requires Inv(prior, successor, Sys(Contents(), Switching(0)))
      modifies this
      ensures completed <==> old(left) >= 18
      ensures var n := if completed then 18 else old(left);
              && Contents() == Prefix(old(Contents()), ExecuteScript(prior, successor), n)
              && Inv(prior, successor, Sys(Contents(), Switching(n)))
    {
      Begin(ExecuteScript(prior, successor));
      completed := RecordBackup(prior, successor);
      if completed {
        completed := QuiesceOldWriter(prior, successor);
      }
      if completed {
        completed := SwitchPointer(prior, successor);
      }
      if completed {
        completed := ActivateNewWriter(prior, successor);
      }
      PrefixIsReached(prior, successor, start, Switching(0), done);
    }

    /** The guards of `_reconcile_cutover_startup`, then its writes. */
    method ReconcileStartup(prior: Pointer, successor: Pointer, resume: bool)
      returns (r: Result<bool, string>)
      requires Inv(prior, successor, Sys(Contents(), Idle))
      modifies this
      ensures r.Ok? <==> Recoverable(old(Contents()))
      ensures r.Err? ==> Contents() == old(Contents())
      ensures r.Ok? ==>
        && var script := RecoverScript(old(pointer), old(journal).value, resume);
           var n := if r.value then |script| else old(left);
           && n <= |script|
           && Contents() == Prefix(old(Contents()), script, n)
           && Inv(prior, successor, Sys(Contents(), Recovering(old(pointer), old(journal).value, resume, n)))
    {
      if journal.None? || journal.value.state != Executing || journal.value.prior.generation
          == journal.value.successor.generation
         || operation.fault != Some(journal.value.stage) {
        return Err("cutover recovery journal is inconsistent");
      }
      if pointer != journal.value.prior && pointer != journal.value.successor {
        return Err("cutover pointer is not a journal generation");
      }
      ghost var process := Recovering(pointer, journal.value, resume, 0);
      Begin(RecoverScript(pointer, journal.value, resume));
      RecoveryBegins(prior, successor, Contents(), resume);
      var completed := WriteReconciled(prior, successor, journal.value, resume, process);
      PrefixIsReached(prior, successor, start, process, done);
      return Ok(completed);
    }

    method WriteReconciled(ghost prior: Pointer, ghost successor: Pointer, j: Journal, resume: bool,
                           ghost process: Process)
      returns (alive: bool)
      requires process == Recovering(pointer, j, resume, 0) && Inv(prior, successor, Sys(Contents(), process))
      requires OnScript() && done == 0 && start == Contents() && script == RecoverScript(pointer, j, resume)
      modifies this
      ensures OnScript() && script == old(script) && start == old(start)
      ensures alive <==> old(left) >= |script|
      ensures if alive then done == |script| else done == old(left)
    {
      var selected := pointer;
      alive := SetSandboxWriters([selected]);
      if !alive { return; }
      PrefixIsReached(prior, successor, start, process, done);
      VerifyHolds(prior, successor, Sys(Contents(), process.(k := done)));
      alive := CoherentSandboxWriter();
      if !alive { return; }
      alive := WriteCutoverJournal(Journal(Reconciled, j.stage, j.prior, j.successor, Some(selected.generation)));
      if !alive { return; }
      alive := OperationWrite(Blocked, None);
      if !alive || !resume { return; }
      alive := OperationWrite(Running, None);
      if !alive { return; }
      alive := OperationWrite(Done, Some(if selected.generation == j.successor.generation then "new" else "old"));
    }
  }

  /** A recovery starts from any state that its guards let through. */
  lemma RecoveryBegins(prior: Pointer, successor: Pointer, f: Files, resume: bool)
    requires Inv(prior, successor, Sys(f, Idle)) && Recoverable(f)
    ensures Inv(prior, successor, Sys(f, Recovering(f.pointer, f.journal.value, resume, 0)))
  {
  }
}
