/**
 `launch_champion` of src/agent_watcher.py on the visible callsign pool, as a transition
 system: any number of launches reserve a name, start an agent, create a record, or fail
 and release the name, and each may die anywhere, while others release names and create
 or remove records.
 */
module Launches {
  import opened Prelude
  import opened Callsigns
  import opened Sorting

  /** A launch from its reservation on; `failing` is the way to its release. */
  datatype Launch = Launch(callsign: string, record: string, failing: bool)

  /**
   The pool file, the records that exist, and the launches that are running. As history,
   `holders` says which launch made the reservation of a name that is in use, and
   `started` which launches there have been.
   */
  datatype Scene = Scene(pool: Pool, records: set<string>, running: map<nat, Launch>, holders: map<string, nat>,
                         started: set<nat>)

  datatype Step =
    | ReserveStep(pid: nat, callsign: string, record: string)
    | CreateStep(pid: nat)                    // the record is created, and the launch is done
    | FailStep(pid: nat)                      // the start, the identity, the snapshot or the creation fails
    | ReleaseStep(pid: nat, written: bool)    // the handler's release, which may not be able to write the pool
    | DieStep(pid: nat)                       // the process ends without its handler
    | OtherRelease(callsign: string, role: string)
    | OtherRecords

  function Actor(step: Step): Option<nat> {
    if step.OtherRelease? || step.OtherRecords? then None else Some(step.pid)
  }

  function Gone(s: Scene, pid: nat): Scene { s.(running := s.running - {pid}) }

  /** A release that is written, or refused. */
  function Freed(s: Scene, callsign: string, role: string): Scene {
    var r := Release(s.pool, callsign, role);
    if r.Some? then s.(pool := r.value, holders := s.holders - {callsign}) else s
  }

  predicate Next(s: Scene, step: Step, s': Scene) {
    match step
    case ReserveStep(pid, callsign, record) =>
      && pid !in s.started && callsign != "" && Reserve(s.pool, callsign, record).Some?
      && s' == Scene(Reserve(s.pool, callsign, record).value, s.records,
                     s.running[pid := Launch(callsign, record, false)], s.holders[callsign := pid], s.started + {pid})
    case CreateStep(pid) =>
      && pid in s.running && !s.running[pid].failing && s.running[pid].record !in s.records
      && s' == Gone(s, pid).(records := s.records + {s.running[pid].record})
    case FailStep(pid) =>
      && pid in s.running && !s.running[pid].failing
      && s' == s.(running := s.running[pid := s.running[pid].(failing := true)])
    case ReleaseStep(pid, written) =>
      && pid in s.running && s.running[pid].failing
      && s' == if written then Freed(Gone(s, pid), s.running[pid].callsign, CHAMPION) else Gone(s, pid)
    case DieStep(pid) => pid in s.running && s' == Gone(s, pid)
    case OtherRelease(callsign, role) => s' == Freed(s, callsign, role)
    case OtherRecords => s' == s.(records := s'.records)
  }

  predicate Initial(s: Scene) {
    Sound(s.pool) && s.running == map[] && s.holders == map[] && s.started == {}
  }

  predicate StepAt(states: seq<Scene>, steps: seq<Step>, i: nat)
    requires i < |steps| < |states|
  {
    Next(states[i], steps[i], states[i + 1])
  }

  predicate Run(states: seq<Scene>, steps: seq<Step>) {
    && |states| == |steps| + 1
    && Initial(states[0])
    && forall i: nat | i < |steps| :: StepAt(states, steps, i)
  }

  // ------------------------------------------------------------ conservation

  predicate Inv(s: Scene) {
    && Sound(s.pool)
    && s.running.Keys <= s.started
    && forall c <- s.holders :: c in s.pool.inUse && s.pool.inUse[c].role == CHAMPION && s.holders[c] in s.started
  }

  /** The two pools have the same names for each role. */
  ghost predicate SameNames(p: Pool, q: Pool) {
    forall role: string :: Names(p, role) == Names(q, role)
  }

  lemma FreedKeeps(s: Scene, callsign: string, role: string)
    requires Inv(s)
    ensures Inv(Freed(s, callsign, role)) && SameNames(s.pool, Freed(s, callsign, role).pool)
  {
    if Release(s.pool, callsign, role).Some? {
      ReleaseConserves(s.pool, callsign, role);
    }
  }

  lemma StepKeeps(s: Scene, step: Step, s': Scene)
    requires Inv(s) && Next(s, step, s')
    ensures Inv(s') && SameNames(s.pool, s'.pool)
  {
    match step
    case ReserveStep(_, callsign, record) => ReserveConserves(s.pool, callsign, record);
    case ReleaseStep(pid, _) => FreedKeeps(Gone(s, pid), s.running[pid].callsign, CHAMPION);
    case OtherRelease(callsign, role) => FreedKeeps(s, callsign, role);
    case _ =>
  }

  /** However launches and releases interleave, and whichever of them die, no name is lost or doubled. */
  lemma {:induction false} LaunchesConserve(states: seq<Scene>, steps: seq<Step>, i: nat)
    requires Run(states, steps) && i < |states|
    ensures Inv(states[i]) && SameNames(states[0].pool, states[i].pool)
  {
    if i == 0 {
    } else {
      LaunchesConserve(states, steps, i - 1);
      assert StepAt(states, steps, i - 1);
      StepKeeps(states[i - 1], steps[i - 1], states[i]);
    }
  }

  lemma RunStep(states: seq<Scene>, steps: seq<Step>, i: nat)
    requires Run(states, steps) && i < |steps|
    ensures Inv(states[i]) && Inv(states[i + 1]) && Next(states[i], steps[i], states[i + 1])
    ensures SameNames(states[i].pool, states[i + 1].pool)
  {
    LaunchesConserve(states, steps, i);
    assert StepAt(states, steps, i);
    StepKeeps(states[i], steps[i], states[i + 1]);
  }

  // --------------------------------------------------- who holds which name

  /** The reservation of the name is that of launch `pid`. */
  predicate Holds(s: Scene, callsign: string, pid: nat) {
    callsign in s.holders && s.holders[callsign] == pid
  }

  /** Step `m` takes the name out of use. */
  predicate Frees(states: seq<Scene>, m: nat, callsign: string) {
    m + 1 < |states| && callsign in states[m].pool.inUse && callsign !in states[m + 1].pool.inUse
  }

  /** Launch `pid` reserves at step `r` and is at work until step `i`. */
  predicate Spans(states: seq<Scene>, steps: seq<Step>, r: nat, i: nat, pid: nat, callsign: string, record: string) {
    && |states| == |steps| + 1 && r < i < |states| && steps[r] == ReserveStep(pid, callsign, record)
    && forall m | r < m <= i :: AtWork(states[m], pid, callsign, record)
  }

  predicate AtWork(s: Scene, pid: nat, callsign: string, record: string) {
    pid in s.running && s.running[pid].callsign == callsign && s.running[pid].record == record
  }

  lemma StepHolds(s: Scene, step: Step, s': Scene, callsign: string, pid: nat)
    requires Inv(s) && Inv(s') && Next(s, step, s') && pid in s.started
    ensures Holds(s', callsign, pid) <==> Holds(s, callsign, pid) && callsign in s'.pool.inUse
    ensures pid in s'.started
  {
  }

  lemma HoldsOn(states: seq<Scene>, steps: seq<Step>, m: nat, callsign: string, pid: nat)
    requires Run(states, steps) && m < |steps| && pid in states[m].started
    ensures pid in states[m + 1].started
    ensures Holds(states[m + 1], callsign, pid) <==> Holds(states[m], callsign, pid) && !Frees(states, m, callsign)
  {
    RunStep(states, steps, m);
    StepHolds(states[m], steps[m], states[m + 1], callsign, pid);
  }

  lemma ReservedHolds(states: seq<Scene>, steps: seq<Step>, r: nat, pid: nat, callsign: string, record: string)
    requires Run(states, steps) && r < |steps| && steps[r] == ReserveStep(pid, callsign, record)
    ensures Holds(states[r + 1], callsign, pid) && pid in states[r + 1].started
  {
    assert StepAt(states, steps, r);
  }

  /** Nobody takes the name out of use between the steps `r` and `i`. */
  predicate NeverFreed(states: seq<Scene>, r: nat, i: nat, callsign: string) {
    forall m: nat | r < m < i :: !Frees(states, m, callsign)
  }

  /** A launch holds its name exactly as long as nobody has taken that out of use. */
  lemma {:induction false} HeldExactly(states: seq<Scene>, steps: seq<Step>, r: nat, i: nat, pid: nat,
                                       callsign: string, record: string)
    requires Run(states, steps) && r < i < |states| && steps[r] == ReserveStep(pid, callsign, record)
    ensures Holds(states[i], callsign, pid) <==> NeverFreed(states, r, i, callsign)
    ensures pid in states[i].started
    decreases i
  {
    if i == r + 1 {
      ReservedHolds(states, steps, r, pid, callsign, record);
    } else {
      HeldExactly(states, steps, r, i - 1, pid, callsign, record);
      HoldsOn(states, steps, i - 1, callsign, pid);
    }
  }

  // ------------------------------------------------------------ role of a name

  /** A name belongs to one role. */
  lemma OneRole(p: Pool, callsign: string, r: string, t: string)
    requires Sound(p) && callsign in Names(p, r) && callsign in Names(p, t)
    ensures r == t
  {
  }

  lemma NamesStay(states: seq<Scene>, steps: seq<Step>, i: nat, j: nat)
    requires Run(states, steps) && i < |states| && j < |states|
    ensures SameNames(states[i].pool, states[j].pool)
  {
    LaunchesConserve(states, steps, i);
    LaunchesConserve(states, steps, j);
    forall role: string
      ensures Names(states[i].pool, role) == Names(states[j].pool, role)
    {
      assert Names(states[0].pool, role) == Names(states[i].pool, role) == Names(states[j].pool, role);
    }
  }

  /** A name that a launch has reserved is a Champion's whenever it is in use. */
  lemma StaysChampion(states: seq<Scene>, steps: seq<Step>, r: nat, i: nat, pid: nat, callsign: string, record: string)
    requires Run(states, steps) && r < |steps| && i < |states| && steps[r] == ReserveStep(pid, callsign, record)
    requires callsign in states[i].pool.inUse
    ensures states[i].pool.inUse[callsign].role == CHAMPION && CHAMPION in states[i].pool.available
  {
    RunStep(states, steps, r);
    LaunchesConserve(states, steps, i);
    NamesStay(states, steps, r, i);
    assert callsign in Names(states[r].pool, CHAMPION);
    assert callsign in Names(states[i].pool, states[i].pool.inUse[callsign].role);
    OneRole(states[i].pool, callsign, CHAMPION, states[i].pool.inUse[callsign].role);
  }

  /** A release that is written takes the name out of use, if it is in use. */
  lemma WrittenReleaseFrees(states: seq<Scene>, steps: seq<Step>, r: nat, i: nat, pid: nat, callsign: string,
                            record: string)
    requires Run(states, steps) && Spans(states, steps, r, i, pid, callsign, record)
    requires i < |steps| && steps[i] == ReleaseStep(pid, true)
    ensures Frees(states, i, callsign) <==> callsign in states[i].pool.inUse
    ensures callsign !in states[i + 1].pool.inUse
  {
    RunStep(states, steps, r);
    RunStep(states, steps, i);
    if callsign in states[i].pool.inUse {
      StaysChampion(states, steps, r, i, pid, callsign, record);
    }
  }

  // ----------------------------------------------------------- what a launch does

  /**
   A failing launch takes the name from another launch, or from whoever else has it, if
   and only if the name was released in the meantime and is in use again: the release
   looks at the role and not at the record.
   */
  lemma ReleasesOthersExactly(states: seq<Scene>, steps: seq<Step>, r: nat, i: nat, pid: nat, callsign: string,
                              record: string)
    requires Run(states, steps) && Spans(states, steps, r, i, pid, callsign, record)
    requires i < |steps| && steps[i] == ReleaseStep(pid, true)
    ensures Frees(states, i, callsign) && !Holds(states[i], callsign, pid)
       <==> callsign in states[i].pool.inUse && !NeverFreed(states, r, i, callsign)
  {
    WrittenReleaseFrees(states, steps, r, i, pid, callsign, record);
    HeldExactly(states, steps, r, i, pid, callsign, record);
  }

  /**
   When a launch is over, its name is left in use without a record of its own if and only
   if it died or could not write its release, and nobody released the name in between.
   After a success the record exists, and the name is still its own under the same condition.
   */
  lemma LaunchEndsExactly(states: seq<Scene>, steps: seq<Step>, r: nat, i: nat, pid: nat, callsign: string,
                          record: string)
    requires Run(states, steps) && Spans(states, steps, r, i, pid, callsign, record)
    requires i < |steps| && pid !in states[i + 1].running
    ensures steps[i] == CreateStep(pid) ==> record in states[i + 1].records && record !in states[i].records
    ensures Holds(states[i + 1], callsign, pid) && steps[i] != CreateStep(pid)
       <==> && (steps[i] == DieStep(pid) || steps[i] == ReleaseStep(pid, false))
            && NeverFreed(states, r, i, callsign)
    ensures steps[i] == CreateStep(pid) ==> (Holds(states[i + 1], callsign, pid)
            <==> NeverFreed(states, r, i, callsign))
  {
    RunStep(states, steps, i);
    HeldExactly(states, steps, r, i, pid, callsign, record);
    assert AtWork(states[i], pid, callsign, record);
    LastStep(states[i], steps[i], states[i + 1], pid);
    if steps[i] == ReleaseStep(pid, true) {
      WrittenReleaseFrees(states, steps, r, i, pid, callsign, record);
    }
  }

  /** The steps that end a launch. */
  lemma LastStep(s: Scene, step: Step, s': Scene, pid: nat)
    requires Next(s, step, s') && pid in s.running && pid !in s'.running
    ensures step in {CreateStep(pid), DieStep(pid), ReleaseStep(pid, true), ReleaseStep(pid, false)}
    ensures step != ReleaseStep(pid, true) ==> s'.pool == s.pool && s'.holders == s.holders
  {
  }

  /** A failing launch that writes its release leaves the name free again in the Champions' list. */
  lemma FailureRestores(states: seq<Scene>, steps: seq<Step>, r: nat, i: nat, pid: nat, callsign: string,
                        record: string)
    requires Run(states, steps) && Spans(states, steps, r, i, pid, callsign, record)
    requires i < |steps| && steps[i] == ReleaseStep(pid, true)
    ensures callsign !in states[i + 1].pool.inUse
    ensures CHAMPION in states[i + 1].pool.available && callsign in states[i + 1].pool.available[CHAMPION]
  {
    RunStep(states, steps, r);
    RunStep(states, steps, i);
    WrittenReleaseFrees(states, steps, r, i, pid, callsign, record);
    NamesStay(states, steps, r, i + 1);
    assert callsign in Names(states[r].pool, CHAMPION);
    assert callsign in Names(states[i + 1].pool, CHAMPION);
  }

  // -------------------------------------------------- another's reservation

  function Mika(free: bool): Pool {
    if free then Pool(map[CHAMPION := ["mika"]], map[]) else Pool(map[CHAMPION := []],
                                                                  map["mika" := Assignment(CHAMPION, "R")])
  }

  lemma MikaMoves()
    ensures Sound(Mika(true)) && Sound(Mika(false))
    ensures Reserve(Mika(true), "mika", "R") == Some(Mika(false))
    ensures Release(Mika(false), "mika", CHAMPION) == Some(Mika(true))
  {
    assert Remove(["mika"], "mika") == [];
    assert [] + ["mika"] == ["mika"];
    assert Sorted(["mika"]) == ["mika"];
    assert Mika(false).inUse - {"mika"} == map[];
    assert Mika(true).available[CHAMPION := []] == Mika(false).available;
    assert Mika(true).inUse["mika" := Assignment(CHAMPION, "R")] == Mika(false).inUse;
    assert Mika(false).available[CHAMPION := ["mika"]] == Mika(true).available;
  }

  function FirstLaunch(failing: bool): map<nat, Launch> { map[1 := Launch("mika", "R", failing)] }

  function BothLaunches(): map<nat, Launch> { map[1 := Launch("mika", "R", true), 2 := Launch("mika", "R", false)] }

  function SecondLaunch(): map<nat, Launch> { map[2 := Launch("mika", "R", false)] }

  function Scenes(): seq<Scene> {
    [Scene(Mika(true), {}, map[], map[], {}),
     Scene(Mika(false), {}, FirstLaunch(false), map["mika" := 1], {1}),
     Scene(Mika(false), {}, FirstLaunch(true), map["mika" := 1], {1}),
     Scene(Mika(true), {}, FirstLaunch(true), map[], {1}),
     Scene(Mika(false), {}, BothLaunches(), map["mika" := 2], {1, 2}),
     Scene(Mika(true), {}, SecondLaunch(), map[], {1, 2})]
  }

  lemma FirstFails()
    ensures Initial(Scenes()[0]) && Next(Scenes()[0], ReserveStep(1, "mika", "R"), Scenes()[1])
    ensures Next(Scenes()[1], FailStep(1), Scenes()[2])
  {
    MikaMoves();
  }

  lemma SecondReserves()
    ensures Next(Scenes()[2], OtherRelease("mika", CHAMPION), Scenes()[3])
    ensures Next(Scenes()[3], ReserveStep(2, "mika", "R"), Scenes()[4])
  {
    MikaMoves();
    assert Scenes()[2].holders - {"mika"} == map[];
    assert Scenes()[3].running[2 := Launch("mika", "R", false)] == BothLaunches();
  }

  lemma FirstReleases()
    ensures Next(Scenes()[4], ReleaseStep(1, true), Scenes()[5])
  {
    MikaMoves();
    assert BothLaunches() - {1} == SecondLaunch();
    assert Scenes()[4].holders - {"mika"} == map[];
  }

  /**
   A failing launch does release another's reservation when its name has been released and
   reserved again meanwhile: launch 2 is at work on its name at the end, which is free.
   */
  lemma LaunchFreesAnother() returns (states: seq<Scene>, steps: seq<Step>)
    ensures Run(states, steps) && |steps| > 0 && steps[|steps| - 1] == ReleaseStep(1, true)
    ensures Holds(states[|steps| - 1], "mika", 2) && AtWork(states[|steps|], 2, "mika", "R")
    ensures "mika" !in states[|steps|].pool.inUse
  {
    states := Scenes();
    steps := [ReserveStep(1, "mika", "R"), FailStep(1), OtherRelease("mika", CHAMPION), ReserveStep(2, "mika", "R"),
              ReleaseStep(1, true)];
    FirstFails();
    SecondReserves();
    FirstReleases();
    forall i: nat | i < |steps|
      ensures StepAt(states, steps, i)
    {
      assert i == 0 || i == 1 || i == 2 || i == 3 || i == 4;
    }
  }
}
