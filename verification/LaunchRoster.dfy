/**
 `launch_champion`, `_reserve_callsign` and `_release_visible_callsign` of
 src/agent_watcher.py over the pool file and the records, while other launches and
 releases go on in between. The history of a roster is a run of the launch machine.
 */
module LaunchRoster {
  import opened Prelude
  import opened Sorting
  import opened Callsigns
  import opened Launches

  /** How a launch ends. */
  datatype End = Launched | NotReserved | Failed | Died

  class Roster {
    var available: map<string, seq<string>>
    var inUse: map<string, Assignment>
    var records: map<string, string>
    var running: map<nat, Launch>
    var holders: map<string, nat>
    var started: set<nat>
    ghost var states: seq<Scene>
    ghost var steps: seq<Step>

    function Visible(): Pool
      reads this
    {
      Pool(available, inUse)
    }

    function Now(): Scene
      reads this
    {
      Scene(Visible(), records.Keys, running, holders, started)
    }

    /** The history is a run of the launch machine that ends now. */
    ghost predicate Valid()
      reads this
    {
      Launches.Run(states, steps) && states[|steps|] == Now()
    }

    constructor (p: Pool)
      requires Sound(p)
      ensures Valid() && Visible() == p && records == map[] && running == map[] && started == {}
    {
      available, inUse, records := p.available, p.inUse, map[];
      running, holders, started, steps := map[], map[], {}, [];
      new;
      states := [Now()];
    }

    /** Adds one step to the history. */
    ghost method Happened(step: Step)
      requires Launches.Run(states, steps) && Next(states[|steps|], step, Now())
      modifies this`states, this`steps
      ensures Valid() && steps == old(steps) + [step] && states == old(states) + [Now()]
    {
      var ss, ts := states + [Now()], steps + [step];
      forall i: nat | i < |ts|
        ensures StepAt(ss, ts, i)
      {
        if i < |steps| {
          assert StepAt(states, steps, i);
        }
      }
      states, steps := ss, ts;
    }

    /** `_reserve_callsign` */
    method ReserveCallsign(callsign: string, record: string) returns (ok: bool)
      modifies this`available, this`inUse
      ensures ok <==> Reserve(old(Visible()), callsign, record).Some?
      ensures Visible() == if ok then Reserve(old(Visible()), callsign, record).value else old(Visible())
    {
      if CHAMPION !in available || callsign in inUse || callsign !in available[CHAMPION] {
        return false;
      }
      available := available[CHAMPION := Remove(available[CHAMPION], callsign)];
      inUse := inUse[callsign := Assignment(CHAMPION, record)];
      return true;
    }

    /** `_release_visible_callsign` */
    method ReleaseVisibleCallsign(callsign: string, role: string) returns (ok: bool)
      modifies this`available, this`inUse
      ensures ok <==> Release(old(Visible()), callsign, role).Some?
      ensures Visible() == if ok then Release(old(Visible()), callsign, role).value else old(Visible())
    {
      if callsign == "" || role !in [CHAMPION, "shotcaller"] {
        return false;
      }
      if callsign !in inUse || inUse[callsign].role != role || role !in available {
        return false;
      }
      inUse := inUse - {callsign};
      if callsign !in available[role] {
        available := available[role := Sorted(available[role] + [callsign])];
      }
      assert old(available) == old(available)[role := old(available)[role]];
      return true;
    }

    /** The history goes on from an earlier one, and in between launch `pid` has taken no step. */
    ghost predicate Since(before: seq<Step>, pid: nat)
      reads this`steps
    {
      before <= steps && forall m | |before| <= m < |steps| :: Actor(steps[m]) != Some(pid)
    }

    /** Launch `pid` reserved its name at step `r` of the history and has been at work since. */
    ghost predicate Under(r: nat, pid: nat, callsign: string, record: string)
      reads this
    {
      Spans(states, steps, r, |steps|, pid, callsign, record)
    }

    /** One step of another launch, or of anybody else, if there is one. */
    method OtherTurn(pid: nat)
      requires Valid()
      modifies this
      ensures Valid() && Since(old(steps), pid) && old(states) <= states
      ensures pid in running <==> pid in old(running)
      ensures pid in running ==> running[pid] == old(running)[pid]
      ensures pid in started <==> pid in old(started)
      ensures forall m | |old(states)| <= m < |states| :: states[m] == Now()
    {
      var step: Step, now: Scene, files: map<string, string> := *, *, *;
      if Actor(step) != Some(pid) && Next(Now(), step, now) && now.records == files.Keys {
        available, inUse, records := now.pool.available, now.pool.inUse, files;
        running, holders, started := now.running, now.holders, now.started;
        Happened(step);
      }
    }

    /** Other launches take any steps, names are released, records come and go. */
    method Others(pid: nat)
      requires Valid()
      modifies this
      ensures Valid() && Since(old(steps), pid) && old(states) <= states
      ensures pid in running <==> pid in old(running)
      ensures pid in running ==> running[pid] == old(running)[pid]
      ensures pid in started <==> pid in old(started)
      ensures forall m | |old(states)| <= m < |states| && pid in old(running) ::
                pid in states[m].running && states[m].running[pid] == old(running)[pid]
    {
      var turns: nat := *;
      while turns > 0
        invariant Valid() && Since(old(steps), pid) && old(states) <= states
        invariant pid in running <==> pid in old(running)
        invariant pid in running ==> running[pid] == old(running)[pid]
        invariant pid in started <==> pid in old(started)
        invariant forall m | |old(states)| <= m < |states| && pid in old(running) ::
                    pid in states[m].running && states[m].running[pid] == old(running)[pid]
      {
        OtherTurn(pid);
        turns := turns - 1;
      }
    }

    /** The part of `launch_champion` up to its reservation, at step `r` of the history. */
    method Begin(pid: nat, callsign: string, record: string) returns (ok: bool, ghost r: nat)
      requires Valid() && pid !in started && pid !in running && callsign != ""
      modifies this
      ensures Valid() && old(steps) <= steps
      ensures !ok ==> Since(old(steps), pid) && pid !in running && Reserve(Visible(), callsign, record).None?
      ensures ok ==> |old(steps)| <= r && Under(r, pid, callsign, record)
      ensures ok ==> pid in running && running[pid] == Launch(callsign, record, false)
    {
      Others(pid);
      r := |steps|;
      ok := ReserveCallsign(callsign, record);
      if ok {
        running := running[pid := Launch(callsign, record, false)];
        holders, started := holders[callsign := pid], started + {pid};
        Happened(ReserveStep(pid, callsign, record));
      }
    }

    /** Others go on, and the process ends without its handler, or does not. */
    method MayDie(pid: nat, ghost r: nat, ghost callsign: string, ghost record: string, dies: bool)
      requires Valid() && Under(r, pid, callsign, record)
      modifies this
      ensures Valid() && old(steps) <= steps && old(states) <= states
      ensures !dies ==> Under(r, pid, callsign, record) && pid in running && running[pid] == old(running)[pid]
      ensures dies ==> Over(r, pid, callsign, record) && steps[|steps| - 1] == DieStep(pid)
    {
      Others(pid);
      assert Under(r, pid, callsign, record);
      if dies {
        running := running - {pid};
        Happened(DieStep(pid));
      }
    }

    /** The last step of the history ended the launch that reserved at step `r`. */
    ghost predicate Over(r: nat, pid: nat, callsign: string, record: string)
      reads this
    {
      && steps != [] && Spans(states, steps, r, |steps| - 1, pid, callsign, record)
      && pid !in running
    }

    /** At step `f` the launch created its record, or failed, as it had started and as the record was missing. */
    ghost predicate Decided(f: nat, pid: nat, record: string, starts: bool, launched: bool)
      reads this
    {
      && f < |steps| < |states| && (launched <==> starts && record !in states[f].records)
      && steps[f] == if launched then CreateStep(pid) else FailStep(pid)
    }

    /**
     `launch_champion` from its reservation on. `starts` is whether the agent starts, shows
     the expected identity and gives a valid snapshot; `written` is whether the handler's
     release can write the pool. The process may die at work, or on the way to its release.
     */
    method LaunchChampion(pid: nat, callsign: string, record: string, snapshot: string, starts: bool, written: bool,
                          diesAtWork: bool, diesFailing: bool)
      returns (end: End, ghost r: nat, ghost f: nat)
      requires Valid() && pid !in started && pid !in running && callsign != ""
      modifies this
      ensures Valid() && old(steps) <= steps && pid !in running
      ensures end == NotReserved ==> Since(old(steps), pid) && Reserve(Visible(), callsign, record).None?
      ensures end != NotReserved ==> |old(steps)| <= r && Over(r, pid, callsign, record)
      ensures end != NotReserved && diesAtWork ==> end == Died
      ensures end != NotReserved && !diesAtWork ==> r < f && Decided(f, pid, record, starts, end == Launched)
      ensures end != NotReserved && !diesAtWork && end != Launched ==> end == if diesFailing then Died else Failed
      ensures end == Launched ==> f == |steps| - 1 && record in records && records[record] == snapshot
      ensures end == Died ==> steps[|steps| - 1] == DieStep(pid)
      ensures end == Failed ==> steps[|steps| - 1] == ReleaseStep(pid, written)
      ensures end == Failed || end == Died ==>
                (Holds(Now(), callsign, pid) <==>
                   (end == Died || !written) && NeverFreed(states, r, |steps| - 1, callsign))
    {
      var ok;
      ok, r := Begin(pid, callsign, record);
      f := 0;
      if !ok {
        return NotReserved, r, f;
      }
      end, f := GoOn(pid, callsign, record, snapshot, starts, written, diesAtWork, diesFailing, r);
      LaunchEndsExactly(states, steps, r, |steps| - 1, pid, callsign, record);
    }

    /** The launch behind its reservation. */
    method GoOn(pid: nat, callsign: string, record: string, snapshot: string, starts: bool, written: bool,
                diesAtWork: bool, diesFailing: bool, ghost r: nat) returns (end: End, ghost f: nat)
      requires Valid() && Under(r, pid, callsign, record) && running[pid] == Launch(callsign, record, false)
      modifies this
      ensures Valid() && old(steps) <= steps && Over(r, pid, callsign, record) && end != NotReserved
      ensures diesAtWork ==> end == Died
      ensures !diesAtWork ==> |old(steps)| <= f && Decided(f, pid, record, starts, end == Launched)
      ensures !diesAtWork && end != Launched ==> end == if diesFailing then Died else Failed
      ensures end == Launched ==> f == |steps| - 1 && record in records && records[record] == snapshot
      ensures end == Died ==> steps[|steps| - 1] == DieStep(pid)
      ensures end == Failed ==> steps[|steps| - 1] == ReleaseStep(pid, written)
    {
      MayDie(pid, r, callsign, record, diesAtWork);
      f := |steps|;
      if diesAtWork {
        return Died, f;
      }
      if starts && record !in records {
        records := records[record := snapshot];
        running := running - {pid};
        Happened(CreateStep(pid));
        return Launched, f;
      }
      running := running[pid := Launch(callsign, record, true)];
      Happened(FailStep(pid));
      end := HandleFailure(pid, callsign, record, written, diesFailing, r);
    }

    /** The handler of a launch that failed. */
    method HandleFailure(pid: nat, callsign: string, record: string, written: bool, dies: bool, ghost r: nat)
      returns (end: End)
      requires Valid() && Under(r, pid, callsign, record) && running[pid] == Launch(callsign, record, true)
      modifies this
      ensures Valid() && old(steps) <= steps && old(states) <= states && Over(r, pid, callsign, record)
      ensures end == if dies then Died else Failed
      ensures steps[|steps| - 1] == if dies then DieStep(pid) else ReleaseStep(pid, written)
    {
      MayDie(pid, r, callsign, record, dies);
      if dies {
        return Died;
      }
      running := running - {pid};
      if written {
        var freed := ReleaseVisibleCallsign(callsign, CHAMPION);
        if freed {
          holders := holders - {callsign};
        }
      }
      Happened(ReleaseStep(pid, written));
      return Failed;
    }
  }
}
