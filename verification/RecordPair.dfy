/**
 `transition_record` of src/agent_watcher.py: one transition is appended to a record's
 log and its status snapshot rewritten, under the record lock. The pair stays in step,
 and a failed write leaves no partial record.
 */
module RecordPair {
  import opened Prelude
  import opened UpdateLog
  import opened UpdateReader
  import opened Delivery

  /**
   What is assumed of `json.dumps` and the strict decoder: an acceptable transition prints
   on one line and decodes to itself, and a line with something before it does not decode.
   `TransitionText` has the program's own.
   */
  ghost predicate Prints(codec: Codec, dump: Transition -> Bytes) {
    && (forall t: Transition | Acceptable(codec, t) ::
          OneLine(dump(t)) && codec.utf8(dump(t)) && codec.decode(dump(t)) == Some(t))
    && (forall x: Bytes, t: Transition | codec.decode(x).Some? :: codec.decode(x + dump(t)).None?)
  }

  // ------------------------------------------------------- appending to a log

  /** A line break ends the log, so what is appended starts a line of its own. */
  predicate Terminated(log: Bytes) { log == [] || log[|log| - 1] == LF }

  lemma {:induction false} LastLineIsWhole(log: Bytes, c: nat)
    requires c < |log| && Terminated(log)
    ensures LineEnd(log, c) == |log| ==> Whole(log, c)
  {
  }

  /** The lines before the appended one stay what they were. */
  lemma {:induction false} AppendKeepsLines(codec: Codec, log: Bytes, text: Bytes, c: nat)
    requires Terminated(log) && OneLine(text) && c <= |log| && AllReadable(codec, log, c)
    requires codec.utf8(text) && codec.decode(text).Some?
    ensures var grown := log + text + [LF];
            AllReadable(codec, grown, c) && LastLine(grown, c) == Line(|log|, text)
    decreases |log| - c
  {
    var grown := log + text + [LF];
    NewLine(log, text);
    if c == |log| {
    } else {
      assert log <= grown;
      LastLineIsWhole(log, c);
      EndStable(log, grown, c);
      assert grown[c..LineEnd(log, c)] == log[c..LineEnd(log, c)];
      AppendKeepsLines(codec, log, text, LineEnd(log, c));
    }
  }

  /** Appending to a terminated log and rewriting the snapshot keeps the pair in step. */
  lemma AppendKeepsPair(codec: Codec, dump: Transition -> Bytes, log: Bytes, before: Snapshot, t: Transition)
    requires Prints(codec, dump) && Acceptable(codec, t) && Terminated(log) && PairValid(codec, log, before)
    ensures PairValid(codec, log + dump(t) + [LF], before.(current := t)) && Terminated(log + dump(t) + [LF])
  {
    AppendKeepsLines(codec, log, dump(t), 0);
  }

  // ---------------------------------------------- an unterminated last line

  /** Appended to a log without a final line break, the new text continues the last line. */
  lemma {:induction false} JoinedLine(codec: Codec, log: Bytes, text: Bytes, c: nat)
    requires c < |log| && !Terminated(log) && log[|log| - 1] != CR && OneLine(text)
    ensures var grown := log + text + [LF]; var last := LastLine(log, c);
            && LastLine(grown, c).text == last.text + text
    decreases |log| - c
  {
    var grown := log + text + [LF];
    if LineEnd(log, c) < |log| {
      assert log <= grown;
      EndStable(log, grown, c);
      JoinedLine(codec, log, text, LineEnd(log, c));
    } else {
      var tail := log[c..];
      LastIsOneLine(log, c);
      assert log[..c] + (tail + text) + [LF] == grown;
      assert OneLine(tail + text);
      NewLine(log[..c], tail + text);
      assert Chop(tail) == tail;
      assert log[c..LineEnd(log, c)] == tail;
    }
  }

  lemma {:induction false} LastIsOneLine(log: Bytes, c: nat)
    requires c < |log| && LineEnd(log, c) == |log| && !Terminated(log) && log[|log| - 1] != CR
    ensures OneLine(log[c..])
    decreases |log| - c
  {
    if log[c] == LF || log[c] == CR || c + 1 == |log| {
    } else {
      LastIsOneLine(log, c + 1);
      assert log[c..] == [log[c]] + log[c + 1..];
    }
  }

  /** So the pair falls out of step: the joined line does not decode. */
  lemma UnterminatedBreaksPair(codec: Codec, dump: Transition -> Bytes, log: Bytes, before: Snapshot, t: Transition)
    requires Prints(codec, dump) && Acceptable(codec, t)
    requires PairValid(codec, log, before) && !Terminated(log) && log[|log| - 1] != CR
    ensures !PairValid(codec, log + dump(t) + [LF], before.(current := t))
  {
    JoinedLine(codec, log, dump(t), 0);
  }

  // ------------------------------------------------------------ the operation

  datatype Refusal = Invalid | NotInStep | NoPartialRecord | RollbackFailed

  /** What goes wrong with the writes: the append stops after some bytes, or the snapshot cannot be replaced. */
  datatype Fault = NoFault | AppendStops(written: nat) | SnapshotFails

  class Record {
    var log: Bytes
    var snapshot: Snapshot

    constructor (identity: Identity, t: Transition, line: Bytes)
      ensures log == line + [LF] && snapshot == Snapshot(identity, t)
    {
      log, snapshot := line + [LF], Snapshot(identity, t);
    }

    /** The two writes: the line, then the snapshot; a failure cuts the log back to its size before. */
    method WritePair(line: Bytes, t: Transition, fault: Fault, rollback: bool) returns (r: Option<Refusal>)
      modifies this
      ensures r.None? <==> fault == NoFault
      ensures r.None? ==> log == old(log) + line && snapshot == old(snapshot).(current := t)
      ensures r.Some? ==> snapshot == old(snapshot)
      ensures fault != NoFault && rollback ==> r == Some(NoPartialRecord) && log == old(log)
      ensures fault != NoFault && !rollback ==> r == Some(RollbackFailed) && old(log) <= log <= old(log) + line
    {
      var size := |log|;
      if fault.AppendStops? {
        log := log + line[..if fault.written < |line| then fault.written else |line|];
      } else {
        log := log + line;
      }
      if fault == NoFault {
        snapshot := snapshot.(current := t);
        return None;
      }
      if !rollback {
        return Some(RollbackFailed);
      }
      log := log[..size];
      return Some(NoPartialRecord);
    }

    /**
     `transition_record`: either the log gains exactly one line and the snapshot is that
     line's, or both are unchanged, unless truncating the log fails as well (`rollback`
     is whether it works). A last line without an end is the one way for the pair to
     fall out of step.
     */
    method TransitionRecord(codec: Codec, dump: Transition -> Bytes, status: string, at: string, update: string,
                            fault: Fault, rollback: bool)
      returns (r: Result<Transition, Refusal>)
      requires Prints(codec, dump)
      modifies this
      ensures r.Ok? ==> r.value == Transition(Lower(status), at, update) && MaterialWord(status)
                        && log == old(log) + (dump(r.value) + [LF]) && snapshot == old(snapshot).(current := r.value)
                        && PairValid(codec, log, snapshot)
      ensures r == Err(Invalid) <==>
                !(MaterialWord(status) && NonBlank(update) && NonBlank(at) && codec.timestamp(at)
                  && PairValid(codec, old(log), old(snapshot)))
      ensures r == Err(Invalid) || r == Err(NoPartialRecord) ==> log == old(log) && snapshot == old(snapshot)
      ensures r == Err(RollbackFailed) ==> snapshot == old(snapshot) && old(log) <= log
      ensures r != Err(Invalid) && fault != NoFault ==> r == Err(if rollback then NoPartialRecord else RollbackFailed)
      ensures r != Err(Invalid) && fault == NoFault && Terminated(old(log)) ==> r.Ok?
      ensures r == Err(NotInStep) ==>
                fault == NoFault && log == old(log) + (dump(snapshot.current) + [LF])
                && !PairValid(codec, log, snapshot)
      ensures r != Err(Invalid) && fault == NoFault && Unterminated(old(log)) ==>
                r == Err(NotInStep) && !PairValid(codec, log, snapshot)
      ensures PairValid(codec, old(log), old(snapshot)) && Terminated(old(log)) && r != Err(RollbackFailed) ==>
                PairValid(codec, log, snapshot) && Terminated(log)
    {
      var t := Transition(Lower(status), at, update);
      MaterialExactly(Transition(status, at, update));
      if !Requested(codec, log, snapshot, status, at, update) {
        return Err(Invalid);
      }
      LowerTwice(status);
      PairAfter(codec, dump, log, snapshot, t);
      var failed := WritePair(dump(t) + [LF], t, fault, rollback);
      if failed.Some? {
        return Err(failed.value);
      }
      if !PairValid(codec, log, snapshot) {
        return Err(NotInStep);
      }
      return Ok(t);
    }
  }

  /** The request is acceptable and the pair in step beforehand. */
  predicate Requested(codec: Codec, log: Bytes, snapshot: Snapshot, status: string, at: string, update: string) {
    && Lower(status) in DELIVERY_STATUSES && NonBlank(update) && NonBlank(at) && codec.timestamp(at)
    && PairValid(codec, log, snapshot)
  }

  predicate Unterminated(log: Bytes) { log != [] && log[|log| - 1] != LF && log[|log| - 1] != CR }

  lemma PairAfter(codec: Codec, dump: Transition -> Bytes, log: Bytes, before: Snapshot, t: Transition)
    requires Prints(codec, dump) && Acceptable(codec, t) && PairValid(codec, log, before)
    ensures Terminated(log) ==>
              PairValid(codec, log + (dump(t) + [LF]), before.(current := t)) && Terminated(log + (dump(t) + [LF]))
    ensures Unterminated(log) ==> !PairValid(codec, log + (dump(t) + [LF]), before.(current := t))
  {
    Associative(log, dump(t), [LF]);
    if Terminated(log) {
      AppendKeepsPair(codec, dump, log, before, t);
    } else if log[|log| - 1] != CR {
      UnterminatedBreaksPair(codec, dump, log, before, t);
    }
  }

  /** A completed transition is growth of the world, as the delivery state machine has it. */
  lemma TransitionGrows(world: World, path: string, text: Bytes, snapshot: Snapshot)
    requires path in world.logs
    ensures Grows(world, world.(logs := world.logs[path := world.logs[path] + text + [LF]],
                                snapshots := world.snapshots[path := snapshot]))
  {
    Associative(world.logs[path], text, [LF]);
  }
}
