/**
 The operations of src/agent_watcher.py that change the delivery state: the functions
 over the state dictionary, and the store that loads it, runs one of them and writes it
 back. Each is proved to take steps of the delivery state machine.
 */
module AgentWatcher {
  import opened Prelude
  import opened UpdateLog
  import opened UpdateReader
  import opened Delivery
  import opened DeliverySafety

  /** The dictionary that `Store.mutate` hands to its function. */
  class State {
    var initialized: bool
    var offsets: map<string, nat>
    var seen: set<EventId>
    var pending: map<EventId, Event>
    var delivered: map<EventId, Channel>
    var enabled: bool
    var waitActive: bool
    ghost var base: map<string, nat>
    ghost var settled: seq<Settlement>

    function Value(): Store
      reads this
    {
      Store(initialized, offsets, seen, pending, delivered, enabled, waitActive)
    }

    ghost function Contents(): Books
      reads this
    {
      Books(Value(), base, settled)
    }

    constructor (s: Store, ghost baseline: map<string, nat>, ghost history: seq<Settlement>)
      ensures Contents() == Books(s, baseline, history)
    {
      initialized, offsets, seen, pending := s.initialized, s.offsets, s.seen, s.pending;
      delivered, enabled, waitActive := s.delivered, s.enabled, s.waitActive;
      base, settled := baseline, history;
    }

    /** `_mark_state_delivered` */
    method MarkStateDelivered(id: EventId, channel: Channel) returns (marked: bool)
      modifies this
      ensures marked <==> id !in old(delivered)
      ensures marked ==> Settle(old(Contents()), id, channel, Contents())
      ensures !marked ==> Contents() == old(Contents())
    {
      if id in delivered {
        return false;
      }
      delivered := delivered[id := channel];
      while |delivered| > TABLE_LIMIT
        invariant id in delivered && delivered[id] == channel
        invariant forall k <- delivered :: k != id ==> k in old(delivered) && delivered[k] == old(delivered)[k]
        invariant |old(delivered)| < TABLE_LIMIT ==> delivered == old(delivered)[id := channel]
        invariant Contents() == old(Contents()).(store := old(Value()).(delivered := delivered))
        decreases |delivered|
      {
        HasAnotherKey(delivered, id);
        var first :| first in delivered && first != id;
        assert (delivered - {first}).Keys == delivered.Keys - {first};
        delivered := delivered - {first};
      }
      pending := pending - {id};
      settled := settled + [Settlement(id, channel)];
      return true;
    }

    /** `min` by source path and offset */
    static method FirstCandidate(candidates: map<EventId, Event>) returns (best: Event)
      requires candidates != map[]
      ensures exists id <- candidates :: candidates[id] == best
      ensures forall id <- candidates :: Earlier(best, candidates[id])
    {
      var keys := candidates.Keys;
      var first :| first in keys;
      best := candidates[first];
      keys := keys - {first};
      while keys != {}
        invariant keys <= candidates.Keys
        invariant exists id <- candidates :: candidates[id] == best
        invariant forall id <- candidates :: id in keys || Earlier(best, candidates[id])
        decreases |keys|
      {
        var key :| key in keys;
        EarlierOrder(candidates[key], best, best);
        if !Earlier(best, candidates[key]) {
          forall id | id in candidates && id !in keys
            ensures Earlier(candidates[key], candidates[id])
          {
            EarlierOrder(candidates[key], best, candidates[id]);
          }
          best := candidates[key];
        }
        keys := keys - {key};
      }
    }

    /** `_next_pending_event` */
    method NextPendingEvent() returns (r: Result<Option<Event>, Failure>)
      modifies this`pending
      ensures pending == old(pending) - delivered.Keys
      ensures r.Err? <==> exists id <- pending :: !CandidateOk(pending[id])
      ensures r == Ok(None) ==> pending == map[]
      ensures r.Ok? && (forall id <- pending :: pending[id].id == id) ==>
                if r.value.None? then pending == map[] else IsNext(Value(), r.value.value)
    {
      pending := pending - delivered.Keys;
      if exists id <- pending :: !CandidateOk(pending[id]) {
        return Err(ContractViolation);
      }
      if pending == map[] {
        return Ok(None);
      }
      var best := FirstCandidate(pending);
      return Ok(Some(best));
    }

    /** The part of `_scan_state` for one record: read from its cursor, queue what is new. */
    method ScanUpdates(codec: Codec, world: World, path: string) returns (ok: bool)
      requires Filed(world, path)
      modifies this
      ensures ok <==> ScanRecord(codec, world, path, old(Value())).Ok?
      ensures ok ==> Contents() == old(Contents()).(store := ScanRecord(codec, world, path, old(Value())).value)
    {
      var read := ReadUpdates(codec, path, world.snapshots[path].identity, world.logs[path], Offset(Value(), path),
                              seen);
      if read.Err? {
        return false;
      }
      offsets := offsets[path := read.value.next];
      seen := read.value.gathered.seen;
      var events := read.value.gathered.events;
      var i := 0;
      while i < |events|
        invariant 0 <= i <= |events|
        invariant Contents() == old(Contents()).(store := old(Value()).(offsets := offsets, seen := seen,
                                                                        pending := pending))
        invariant offsets == old(offsets)[path := read.value.next] && seen == read.value.gathered.seen
        invariant Enqueue(old(pending), delivered, events) == Enqueue(pending, delivered, events[i..])
      {
        assert events[i..][1..] == events[i + 1..];
        if events[i].id !in delivered {
          pending := pending[events[i].id := events[i]];
        }
        i := i + 1;
      }
      assert events[i..] == [];
      return true;
    }

    /** `list(seen)[-2048:]` of an unordered set: any elements beyond the limit go. */
    method TrimSeen()
      modifies this`seen
      ensures seen <= old(seen) && |seen| <= TABLE_LIMIT
    {
      while |seen| > TABLE_LIMIT
        invariant seen <= old(seen)
        decreases |seen|
      {
        var first :| first in seen;
        seen := seen - {first};
      }
    }

    /** The part of `_baseline_state` for one record: move its cursor behind its whole lines. */
    method BaselineUpdates(codec: Codec, world: World, path: string) returns (ok: bool)
      requires Filed(world, path)
      modifies this
      ensures ok <==> BaselineRecord(codec, world, path, old(Value())).Ok?
      ensures ok ==> Contents() == old(Contents()).(store := BaselineRecord(codec, world, path, old(Value())).value)
    {
      var read := ReadUpdates(codec, path, world.snapshots[path].identity, world.logs[path], 0, seen);
      if read.Err? {
        return false;
      }
      offsets := offsets[path := read.value.next];
      seen := read.value.gathered.seen;
      return true;
    }

    /** The loop of `_baseline_state` over the active records. */
    method BaselineAll(codec: Codec, world: World) returns (ok: bool)
      requires RosterValid(codec, world)
      modifies this
      ensures ok <==> BaselineRecords(codec, world, world.active, old(Value())).Ok?
      ensures ok ==>
        Contents() == old(Contents()).(store := BaselineRecords(codec, world, world.active, old(Value())).value)
    {
      var i := 0;
      while i < |world.active|
        invariant 0 <= i <= |world.active|
        invariant Contents() == old(Contents()).(store := Value())
        invariant BaselineRecords(codec, world, world.active, old(Value()))
                  == BaselineRecords(codec, world, world.active[i..], Value())
      {
        assert world.active[i..][1..] == world.active[i + 1..];
        ok := BaselineUpdates(codec, world, world.active[i]);
        if !ok {
          return;
        }
        i := i + 1;
      }
      assert world.active[i..] == [];
      return true;
    }

    /** `_baseline_state` */
    method BaselineState(codec: Codec, world: World) returns (ok: bool)
      requires RosterValid(codec, world) && !initialized
      modifies this
      ensures ok <==> Scan(codec, world, old(Contents())).Ok?
      ensures ok ==> ScanStep(codec, world, old(Contents()), Contents()) && pending == map[]
    {
      offsets, seen := map[], {};
      ok := BaselineAll(codec, world);
      if ok {
        initialized, pending, base := true, map[], offsets;
        TrimSeen();
      }
    }

    /** The loop of `_scan_state` over the active records. */
    method ScanAll(codec: Codec, world: World) returns (ok: bool)
      requires RosterValid(codec, world)
      modifies this
      ensures ok <==> ScanRecords(codec, world, world.active, old(Value())).Ok?
      ensures ok ==>
        Contents() == old(Contents()).(store := ScanRecords(codec, world, world.active, old(Value())).value)
    {
      var i := 0;
      while i < |world.active|
        invariant 0 <= i <= |world.active|
        invariant Contents() == old(Contents()).(store := Value())
        invariant ScanRecords(codec, world, world.active, old(Value()))
                  == ScanRecords(codec, world, world.active[i..], Value())
      {
        assert world.active[i..][1..] == world.active[i + 1..];
        ok := ScanUpdates(codec, world, world.active[i]);
        if !ok {
          return;
        }
        i := i + 1;
      }
      assert world.active[i..] == [];
      return true;
    }

    /** `_scan_state` */
    method ScanState(codec: Codec, world: World) returns (r: Result<Option<Event>, Failure>)
      modifies this
      ensures r.Err? <==> Scan(codec, world, old(Contents())).Err?
      ensures r.Ok? ==> ScanStep(codec, world, old(Contents()), Contents())
      ensures r.Ok? && (forall id <- pending :: pending[id].id == id) ==>
                if r.value.None? then pending == map[] else IsNext(Value(), r.value.value)
    {
      if !RosterValid(codec, world) {
        return Err(ContractViolation);
      }
      if !initialized {
        var ok := BaselineState(codec, world);
        return if ok then Ok(None) else Err(ContractViolation);
      }
      var ok := ScanAll(codec, world);
      if !ok {
        return Err(ContractViolation);
      }
      TrimSeen();
      r := NextPendingEvent();
    }
  }

  lemma HasAnotherKey(table: map<EventId, Channel>, id: EventId)
    requires |table| > 1 && id in table
    ensures exists k :: k in table && k != id
  {
    var rest := table.Keys - {id};
    assert table.Keys == rest + {id};
    assert |rest| > 0;
    var k :| k in rest;
  }

  /** The order of `_next_pending_event` is total and transitive. */
  lemma EarlierOrder(a: Event, b: Event, c: Event)
    ensures Earlier(a, b) || Earlier(b, a)
    ensures Earlier(a, a)
    ensures Earlier(a, b) && Earlier(b, c) ==> Earlier(a, c)
  {
    StringLessTotal(a.source, b.source);
    if StringLess(a.source, b.source) && StringLess(b.source, c.source) {
      StringLessTransitive(a.source, b.source, c.source);
    }
  }

  // ------------------------------------------------------- the state file

  /**
   The world as one delivery sees it: `worlds(0)` at its scan, `worlds(k)` when it holds a
   record lock for the `k`-th time. Between those, writers go on.
   */
  type Worlds = nat -> World

  /** Turns of the superseding loop, each under a record lock of its own. */
  ghost predicate Chain(codec: Codec, worlds: Worlds, chain: seq<Books>) {
    && chain != []
    && forall i: nat | i < |chain| - 1 :: Turn(codec, worlds, chain, i)
  }

  /** Turns that lead from one state to another. */
  ghost predicate Along(codec: Codec, worlds: Worlds, chain: seq<Books>, first: Books, last: Books) {
    Chain(codec, worlds, chain) && chain[0] == first && chain[|chain| - 1] == last
  }

  ghost predicate Turn(codec: Codec, worlds: Worlds, chain: seq<Books>, i: nat)
    requires i < |chain| - 1
  {
    Supersedes(codec, worlds(i + 1), chain[i], chain[i + 1])
  }

  lemma ChainGrows(codec: Codec, worlds: Worlds, chain: seq<Books>, b: Books)
    requires Chain(codec, worlds, chain) && Supersedes(codec, worlds(|chain|), chain[|chain| - 1], b)
    ensures Chain(codec, worlds, chain + [b])
  {
    var grown := chain + [b];
    forall i: nat | i < |grown| - 1
      ensures Turn(codec, worlds, grown, i)
    {
      if i < |chain| - 1 {
        assert Turn(codec, worlds, chain, i);
      }
    }
  }

  /** A pending event that `_pending_candidate` refuses. */
  predicate Bad(s: Store) { exists id <- s.pending :: !CandidateOk(s.pending[id]) }

  /** A candidate that is no log event, or is still the latest line of its record. */
  predicate StillLatest(codec: Codec, world: World, e: Event) { e.id.LogId? ==> Matches(codec, world, e) == Ok(true) }

  /** The freshness check of the candidate raises. */
  predicate CheckRaises(codec: Codec, world: World, e: Event) { e.id.LogId? && Matches(codec, world, e).Err? }

  /** Deliveries are enabled and no watcher waits. */
  predicate MayPrompt(s: Store, watch: Watch) { s.enabled && !(s.waitActive && watch != NoWatch) }

  /**
   What the answer to the candidate of a state has to be: a prompt if and only if it may be
   made and is sent, the candidate kept if and only if it may not be made or nobody is
   there, superseded if it is not the latest, and an error if a check or the prompt raises.
   */
  predicate Answers(codec: Codec, later: World, s: Store, watch: Watch, prompt: Prompt, e: Event,
                    r: Result<Outcome, Failure>)
  {
    if CheckRaises(codec, later, e) then r.Err?
    else if !StillLatest(codec, later, e) then r == Ok(AllSuperseded)
    else if !MayPrompt(s, watch) || prompt == Closed then r == Ok(Preserved(e))
    else if prompt == Sent then r == Ok(Prompted(e))
    else r.Err?
  }

  /** The same where there may be no candidate; `superseded` is whether the loop has marked any. */
  predicate AnswersNext(codec: Codec, later: World, s: Store, watch: Watch, prompt: Prompt, next: Option<Event>,
                        superseded: bool, r: Result<Outcome, Failure>) {
    if next.None? then r == Ok(if superseded then AllSuperseded else NothingPending)
    else Answers(codec, later, s, watch, prompt, next.value, r)
  }

  /** Why the loop raises in a state: a bad candidate, or a next one whose check raises. */
  ghost predicate LoopRaises(codec: Codec, world: World, s: Store) {
    Bad(s) || exists e | e in s.pending.Values :: IsNext(s, e) && CheckRaises(codec, world, e)
  }

  /**
   The answer of a delivery behind its scan: the loop raises, or it ends at a candidate that
   is still the latest, or at none, and the answer is the one to that candidate.
   */
  ghost predicate AnswersChain(codec: Codec, worlds: Worlds, watch: Watch, prompt: Prompt, chain: seq<Books>,
                               next: Option<Event>, r: Result<Outcome, Failure>)
    requires chain != []
  {
    var n, s := |chain|, chain[|chain| - 1].store;
    || (r.Err? && LoopRaises(codec, worlds(n), s))
    || (&& Candidate(s, next) && (next.Some? ==> StillLatest(codec, worlds(n), next.value))
        && AnswersNext(codec, worlds(n + 1), s, watch, prompt, next, n > 1, r))
  }

  /**
   What follows the scan of a direct delivery that commits: superseding turns, perhaps one
   more under the last record lock of the candidate, and then a prompt or none.
   */
  ghost predicate Concluded(codec: Codec, worlds: Worlds, watch: Watch, chain: seq<Books>, last: Books, prompted: bool,
                            after: Books)
  {
    && Chain(codec, worlds, chain)
    && var later := worlds(|chain| + 1);
       && (last == chain[|chain| - 1] || Supersedes(codec, later, chain[|chain| - 1], last))
       && if prompted then Prompts(codec, later, watch, last, after) else Keeps(watch, last, after)
  }

  /** A whole direct delivery that commits. */
  ghost predicate Delivered(codec: Codec, worlds: Worlds, watch: Watch,
                            before: Books, chain: seq<Books>, last: Books, prompted: bool, after: Books)
  {
    Concluded(codec, worlds, watch, chain, last, prompted, after) && ScanStep(codec, worlds(0), before, chain[0])
  }

  /** What the prompt to the Shotcaller's endpoint came to. */
  datatype Prompt = Sent | Closed | Raised

  /** The results of `deliver_transition` that return. */
  datatype Outcome = NothingPending | AllSuperseded | Preserved(event: Event) | Prompted(event: Event)

  class StateStore {
    var file: Store
    ghost var base: map<string, nat>
    ghost var settled: seq<Settlement>

    ghost function Contents(): Books
      reads this
    {
      Books(file, base, settled)
    }

    constructor ()
      ensures Contents() == Books(Store(false, map[], {}, map[], map[], true, false), map[], [])
    {
      file, base, settled := Store(false, map[], {}, map[], map[], true, false), map[], [];
    }

    /** The state with no delivery in progress, as the state machine sees it. */
    ghost function Machine(world: World, watch: Watch): Sys
      reads this
    {
      Sys(world, Contents(), None, watch)
    }

    /** The end of `mutate`: the dictionary replaces the file. */
    method Write(state: State)
      modifies this
      ensures Contents() == state.Contents()
    {
      file := state.Value();
      base, settled := state.base, state.settled;
    }

    /** `_scan_and_record` by a waiting watcher */
    method ScanAndRecord(codec: Codec, world: World) returns (r: Result<Option<Event>, Failure>)
      requires BooksOk(codec, world, Contents())
      modifies this
      ensures r.Err? <==> Scan(codec, world, old(Contents())).Err?
      ensures r.Err? ==> Contents() == old(Contents())
      ensures r.Ok? ==> if r.value.None? then file.pending == map[] else IsNext(file, r.value.value)
      ensures r.Ok? ==>
        Delivery.Next(codec, old(Machine(world, Waiting)), WaitScan,
             Machine(world, if r.value.None? then Waiting else Held(r.value.value)))
    {
      var state := new State(file, base, settled);
      r := state.ScanState(codec, world);
      if r.Ok? {
        ScanOk(codec, world, Contents(), state.Contents());
        PendingKeyed(codec, world, state.Contents());
        Write(state);
      }
    }

    /** `_mark_delivered` */
    method MarkDelivered(id: EventId, channel: Channel) returns (marked: bool)
      modifies this
      ensures marked <==> id !in old(file).delivered
      ensures Mark(old(Contents()), id, channel, Contents())
    {
      var state := new State(file, base, settled);
      marked := state.MarkStateDelivered(id, channel);
      Write(state);
    }

    /** `_claim_watcher_event`: the check of the held candidate, then its mark. */
    method ClaimWatcherEvent(codec: Codec, world: World, e: Event) returns (r: Result<bool, Failure>)
      modifies this
      ensures var held, checked, done := old(Machine(world, Held(e))), old(Machine(world, Fresh(e))),
              Machine(world, Waiting);
              if r.Err? || (e.id.LogId? && Matches(codec, world, e) == Ok(false))
              then Delivery.Next(codec, held, WaitCheck, done)
              else Delivery.Next(codec, held, WaitCheck, checked) && Delivery.Next(codec, checked, WaitMark, done)
      ensures r.Err? <==> e.id.LogId? && Matches(codec, world, e).Err?
      ensures r == Ok(true) <==> (e.id.LogId? ==> Matches(codec, world, e) == Ok(true)) && e.id !in old(file).delivered
      ensures r.Err? ==> Contents() == old(Contents())
    {
      if e.id.LogId? {
        var latest := Matches(codec, world, e);
        if latest.Err? {
          return Err(latest.error);
        }
        if !latest.value {
          var _ := MarkDelivered(e.id, Superseded);
          return Ok(false);
        }
      }
      var claimed := MarkDelivered(e.id, Watcher);
      return Ok(claimed);
    }

    /** The loop of `deliver_transition`: mark candidates as superseded up to one that is the latest of its record. */
    method SupersedeStale(codec: Codec, worlds: Worlds, state: State, first: Option<Event>)
      returns (r: Result<Option<Event>, Failure>, turns: nat, ghost chain: seq<Books>)
      requires Candidate(state.Value(), first)
      modifies state
      ensures r.Ok? ==>
        && Chain(codec, worlds, chain) && chain[0] == old(state.Contents()) && chain[|chain| - 1] == state.Contents()
        && turns == |chain| - 1
        && Candidate(state.Value(), r.value)
      ensures chain != [] && Chain(codec, worlds, chain) && chain[0] == old(state.Contents())
      ensures r.Ok? && r.value.Some? ==> StillLatest(codec, worlds(|chain|), r.value.value)
      ensures r.Err? ==> LoopRaises(codec, worlds(|chain|), chain[|chain| - 1].store)
    {
      var latest := false;
      r, turns, chain := Ok(first), 0, [state.Contents()];
      while !latest && r.Ok? && r.value.Some? && r.value.value.id.LogId?
        invariant r.Ok? ==> Candidate(state.Value(), r.value)
        invariant Along(codec, worlds, chain, old(state.Contents()), state.Contents())
        invariant turns == |chain| - 1
        invariant latest && r.Ok? && r.value.Some? ==> StillLatest(codec, worlds(|chain|), r.value.value)
        invariant r.Err? ==> LoopRaises(codec, worlds(|chain|), state.Value())
        decreases !latest, r.Ok?, |state.pending|
      {
        r, latest, turns, chain := OneTurn(codec, worlds, state, r.value.value, turns, chain, old(state.Contents()));
      }
    }

    /** A candidate that is no longer the latest leaves the state marked as superseded. */
    method SupersedeOne(codec: Codec, world: World, state: State, e: Event)
      requires Candidate(state.Value(), Some(e)) && e.id.LogId? && Matches(codec, world, e) == Ok(false)
      modifies state
      ensures Supersedes(codec, world, old(state.Contents()), state.Contents())
      ensures state.pending == old(state.pending) - {e.id}
      ensures Clean(state.Value()) && state.pending - state.delivered.Keys == state.pending
    {
      assert state.pending[e.id] == e;
      var _ := state.MarkStateDelivered(e.id, Superseded);
    }

    /** One turn of the loop; the pending events get fewer. */
    method SupersedeAndGoOn(codec: Codec, world: World, state: State, e: Event)
        returns (r: Result<Option<Event>, Failure>)
      requires Candidate(state.Value(), Some(e)) && e.id.LogId? && Matches(codec, world, e) == Ok(false)
      modifies state
      ensures Supersedes(codec, world, old(state.Contents()), state.Contents())
      ensures |state.pending| < |old(state.pending)|
      ensures r.Ok? ==> Candidate(state.Value(), r.value)
      ensures r.Err? ==> Bad(state.Value())
    {
      PendingShrinks(state.pending, e.id);
      SupersedeOne(codec, world, state, e);
      r := state.NextPendingEvent();
    }

    /** One turn of the loop: the check under the record lock, and the mark if the candidate is not the latest. */
    method CheckAndGoOn(codec: Codec, world: World, state: State, e: Event)
      returns (r: Result<Option<Event>, Failure>, latest: bool, moved: bool)
      requires Candidate(state.Value(), Some(e)) && e.id.LogId?
      modifies state
      ensures latest ==> Matches(codec, world, e) == Ok(true) && r == Ok(Some(e))
      ensures latest ==> state.Contents() == old(state.Contents())
      ensures latest <==> Matches(codec, world, e) == Ok(true)
      ensures r.Ok? && !latest ==> |state.pending| < |old(state.pending)|
      ensures r.Ok? ==> Candidate(state.Value(), r.value)
      ensures moved ==> Supersedes(codec, world, old(state.Contents()), state.Contents())
      ensures !moved ==> state.Contents() == old(state.Contents())
      ensures r.Ok? ==> moved == !latest
      ensures r.Err? ==> if moved then Bad(state.Value()) else CheckRaises(codec, world, e)
    {
      var matches := Matches(codec, world, e);
      if matches.Err? {
        return Err(matches.error), false, false;
      }
      if matches.value {
        return Ok(Some(e)), true, false;
      }
      r := SupersedeAndGoOn(codec, world, state, e);
      latest, moved := false, true;
    }

    /** The same turn, counted. */
    method OneTurn(codec: Codec, worlds: Worlds, state: State, e: Event, before: nat, ghost chain: seq<Books>,
                   ghost first: Books)
      returns (r: Result<Option<Event>, Failure>, latest: bool, turns: nat, ghost grown: seq<Books>)
      requires Candidate(state.Value(), Some(e)) && e.id.LogId?
      requires before == |chain| - 1 && Along(codec, worlds, chain, first, state.Contents())
      modifies state
      ensures turns == |grown| - 1 && Along(codec, worlds, grown, first, state.Contents())
      ensures r.Ok? ==> Candidate(state.Value(), r.value)
      ensures latest ==> r.Ok? && r.value.Some? && StillLatest(codec, worlds(|grown|), r.value.value)
      ensures r.Err? ==> LoopRaises(codec, worlds(|grown|), state.Value())
      ensures r.Ok? && !latest ==> |state.pending| < |old(state.pending)|
    {
      var moved;
      r, latest, moved := CheckAndGoOn(codec, worlds(before + 1), state, e);
      turns, grown := before, chain;
      if moved {
        ChainGrows(codec, worlds, chain, state.Contents());
        turns, grown := before + 1, chain + [state.Contents()];
      }
    }

    /** The mark after a prompt that was sent, and the commit; looking for a live wait has cleared its flag. */
    method MarkPrompted(codec: Codec, world: World, state: State, e: Event, watch: Watch)
      requires e in state.pending.Values && DirectReady(codec, world, watch, state.Value(), e)
      modifies this, state
      ensures Prompts(codec, world, watch, old(state.Contents()), Contents())
    {
      state.waitActive := false;
      var _ := state.MarkStateDelivered(e.id, Direct);
      Write(state);
    }

    /** `prompt_candidate` and the commit after it. */
    method PromptCandidate(codec: Codec, world: World, state: State, e: Event, watch: Watch, prompt: Prompt)
      returns (r: Result<Outcome, Failure>)
      requires Candidate(state.Value(), Some(e)) && StillLatest(codec, world, e)
      modifies this, state
      ensures Answers(codec, world, old(state.Value()), watch, prompt, e, r)
      ensures r.Err? ==> Contents() == old(Contents())
      ensures r == Ok(Preserved(e)) ==> IsNext(file, e)
      ensures r.Ok? ==>
        if r.value.Prompted? then Prompts(codec, world, watch, old(state.Contents()), Contents())
        else Keeps(watch, old(state.Contents()), Contents())
    {
      assert state.pending[e.id] == e;
      if !state.enabled || LiveWait(state.Value(), watch) {
        Write(state);
        return Ok(Preserved(e));
      }
      if prompt == Raised {
        return Err(ContractViolation);
      }
      if prompt == Closed {
        state.waitActive := false;
        Write(state);
        return Ok(Preserved(e));
      }
      MarkPrompted(codec, world, state, e, watch);
      return Ok(Prompted(e));
    }

    /** A candidate that turns out stale under the last record lock ends the delivery. */
    method SupersedeLast(codec: Codec, later: World, state: State, e: Event)
      requires Candidate(state.Value(), Some(e)) && e.id.LogId? && Matches(codec, later, e) == Ok(false)
      modifies this, state
      ensures Supersedes(codec, later, old(state.Contents()), Contents())
    {
      SupersedeOne(codec, later, state, e);
      Write(state);
    }

    /** What `deliver_transition` does with its candidate, under the record lock when it is a log event. */
    method FinishDelivery(codec: Codec, later: World, state: State, e: Event, watch: Watch, prompt: Prompt)
      returns (r: Result<Outcome, Failure>, ghost last: Books)
      requires Candidate(state.Value(), Some(e))
      modifies this, state
      ensures r.Err? ==> Contents() == old(Contents())
      ensures r.Ok? ==>
        && (last == old(state.Contents()) || Supersedes(codec, later, old(state.Contents()), last))
        && (if r.value.Prompted? then Prompts(codec, later, watch, last, Contents())
            else Keeps(watch, last, Contents()))
      ensures r.Ok? ==> r.value in {AllSuperseded, Preserved(e), Prompted(e)}
      ensures r == Ok(Preserved(e)) ==> IsNext(file, e)
      ensures r.Ok? && r.value != AllSuperseded && e.id.LogId? ==> Matches(codec, later, e) == Ok(true)
      ensures Answers(codec, later, old(state.Value()), watch, prompt, e, r)
    {
      last := state.Contents();
      if e.id.LogId? {
        var latest := Matches(codec, later, e);
        if latest.Err? {
          return Err(latest.error), last;
        }
        if !latest.value {
          SupersedeLast(codec, later, state, e);
          return Ok(AllSuperseded), Contents();
        }
      }
      r := PromptCandidate(codec, later, state, e, watch, prompt);
    }

    /** The scan of `deliver_transition`, on the dictionary that it works on. */
    method ScanFirst(codec: Codec, world: World) returns (r: Result<Option<Event>, Failure>, state: State)
      requires BooksOk(codec, world, Contents())
      ensures fresh(state)
      ensures r.Err? <==> Scan(codec, world, Contents()).Err?
      ensures r.Ok? ==> ScanStep(codec, world, Contents(), state.Contents()) && Candidate(state.Value(), r.value)
    {
      state := new State(file, base, settled);
      r := state.ScanState(codec, world);
      if r.Ok? {
        ScanOk(codec, world, Contents(), state.Contents());
        PendingKeyed(codec, world, state.Contents());
      }
    }

    /** What `deliver_transition` does after its loop. */
    method Conclude(codec: Codec, later: World, state: State, next: Option<Event>, superseded: bool, watch: Watch,
                    prompt: Prompt)
      returns (r: Result<Outcome, Failure>, ghost last: Books)
      requires Candidate(state.Value(), next)
      modifies this, state
      ensures r.Err? ==> Contents() == old(Contents())
      ensures r.Ok? ==>
        && (last == old(state.Contents()) || Supersedes(codec, later, old(state.Contents()), last))
        && (if r.value.Prompted? then Prompts(codec, later, watch, last, Contents())
            else Keeps(watch, last, Contents()))
      ensures r.Ok? && r.value.Preserved? ==> IsNext(file, r.value.event)
      ensures r.Ok? && (r.value.Preserved? || r.value.Prompted?) && r.value.event.id.LogId? ==>
                Matches(codec, later, r.value.event) == Ok(true)
      ensures r == Ok(NothingPending) ==> file.pending == map[] && last == old(state.Contents()) && !superseded
      ensures AnswersNext(codec, later, old(state.Value()), watch, prompt, next, superseded, r)
    {
      if next.None? {
        last := state.Contents();
        Write(state);
        return Ok(if superseded then AllSuperseded else NothingPending), last;
      }
      r, last := FinishDelivery(codec, later, state, next.value, watch, prompt);
    }

    /** `deliver_transition` behind its scan. */
    method Proceed(codec: Codec, worlds: Worlds, state: State, first: Option<Event>, watch: Watch, prompt: Prompt)
      returns (r: Result<Outcome, Failure>, ghost chain: seq<Books>, ghost last: Books, ghost next: Option<Event>)
      requires Candidate(state.Value(), first)
      modifies this, state
      ensures r.Err? ==> Contents() == old(Contents())
      ensures r.Ok? ==> Concluded(codec, worlds, watch, chain, last, r.value.Prompted?, Contents())
      ensures chain != [] && Chain(codec, worlds, chain) && chain[0] == old(state.Contents())
      ensures AnswersChain(codec, worlds, watch, prompt, chain, next, r)
      ensures r.Ok? && r.value.Preserved? ==> IsNext(file, r.value.event)
      ensures r.Ok? && (r.value.Preserved? || r.value.Prompted?) && r.value.event.id.LogId? ==>
                Matches(codec, worlds(|chain| + 1), r.value.event) == Ok(true)
      ensures r == Ok(NothingPending) ==> file.pending == map[] && last == chain[0]
    {
      var left, turns;
      left, turns, chain := SupersedeStale(codec, worlds, state, first);
      last := state.Contents();
      if left.Err? {
        return Err(left.error), chain, last, None;
      }
      next := left.value;
      r, last := Conclude(codec, worlds(turns + 2), state, left.value, turns > 0, watch, prompt);
    }

    /**
     `deliver_transition`: scan, supersede what is no longer the latest, then prompt for
     the next candidate or keep it. `watch` is what `_live_wait` can see.
     */
    method DeliverTransition(codec: Codec, worlds: Worlds, watch: Watch, prompt: Prompt)
      returns (r: Result<Outcome, Failure>, ghost chain: seq<Books>, ghost last: Books, ghost next: Option<Event>)
      requires BooksOk(codec, worlds(0), Contents())
      modifies this
      ensures r.Err? ==> Contents() == old(Contents())
      ensures Scan(codec, worlds(0), old(Contents())).Err? ==> r.Err?
      ensures Scan(codec, worlds(0), old(Contents())).Ok? ==>
        && chain != [] && Chain(codec, worlds, chain) && ScanStep(codec, worlds(0), old(Contents()), chain[0])
        && AnswersChain(codec, worlds, watch, prompt, chain, next, r)
      ensures r.Ok? ==> Delivered(codec, worlds, watch, old(Contents()), chain, last, r.value.Prompted?, Contents())
      ensures r.Ok? && r.value.Preserved? ==> IsNext(file, r.value.event)
      ensures r.Ok? && (r.value.Preserved? || r.value.Prompted?) && r.value.event.id.LogId? ==>
                Matches(codec, worlds(|chain| + 1), r.value.event) == Ok(true)
      ensures r == Ok(NothingPending) ==> file.pending == map[] && last == chain[0]
    {
      chain, last, next := [], Contents(), None;
      var scanned, state := ScanFirst(codec, worlds(0));
      if scanned.Err? {
        return Err(scanned.error), chain, last, next;
      }
      r, chain, last, next := Proceed(codec, worlds, state, scanned.value, watch, prompt);
    }
  }

  /** No pending event is in the table, and each is keyed by its id. */
  predicate Clean(s: Store) {
    forall id <- s.pending :: s.pending[id].id == id && id !in s.delivered
  }

  /** `next` is the next candidate of a state whose pending events are keyed and unmarked. */
  ghost predicate Candidate(s: Store, next: Option<Event>) {
    && Clean(s)
    && if next.None? then s.pending == map[] else IsNext(s, next.value)
  }

  /** Pending events are keyed by their ids. */
  predicate Keyed(s: Store) {
    forall id <- s.pending :: s.pending[id].id == id
  }

  lemma PendingKeyed(codec: Codec, world: World, b: Books)
    requires BooksOk(codec, world, b)
    ensures Keyed(b.store)
  {
    forall id | id in b.store.pending
      ensures b.store.pending[id].id == id
    {
      assert EventOk(codec, world, b, id, b.store.pending[id]);
    }
  }

  lemma PendingShrinks(pending: map<EventId, Event>, id: EventId)
    requires id in pending
    ensures |pending - {id}| < |pending|
  {
    assert (pending - {id}).Keys == pending.Keys - {id};
  }

  // ------------------------------------- a delivery is a run of the machine

  /** `states` and `steps` lead from `first` to `last` by steps of the state machine. */
  ghost predicate Leads(codec: Codec, first: Sys, states: seq<Sys>, steps: seq<Step>, last: Sys) {
    && |states| == |steps| + 1
    && states[0] == first && states[|steps|] == last
    && forall i | 0 <= i < |steps| :: Delivery.Next(codec, states[i], steps[i], states[i + 1])
  }

  lemma Onward(codec: Codec, first: Sys, states: seq<Sys>, steps: seq<Step>, s: Sys, step: Step, s': Sys)
    returns (states': seq<Sys>, steps': seq<Step>)
    requires Leads(codec, first, states, steps, s) && Delivery.Next(codec, s, step, s')
    ensures Leads(codec, first, states', steps', s')
  {
    states', steps' := states + [s'], steps + [step];
    forall i | 0 <= i < |steps'|
      ensures Delivery.Next(codec, states'[i], steps'[i], states'[i + 1])
    {
      if i < |steps| {
        assert Delivery.Next(codec, states[i], steps[i], states[i + 1]);
      }
    }
  }

  lemma BeginStep(codec: Codec, s: Sys, b: Books)
    requires s.work.None? && ScanStep(codec, s.world, s.books, b)
    ensures Delivery.Next(codec, s, DirectBegin, s.(work := Some(b)))
  {
  }

  lemma SupersedeStep(codec: Codec, s: Sys, s': Sys)
    requires s.work.Some? && s'.work.Some? && s' == s.(work := s'.work)
    requires Supersedes(codec, s.world, s.work.value, s'.work.value)
    ensures Delivery.Next(codec, s, DirectSupersede, s')
  {
  }

  /** Writers append to logs and rewrite snapshots between the record locks. */
  ghost predicate Growing(worlds: Worlds) {
    forall i: nat :: Grows(worlds(i), worlds(i + 1))
  }

  /** The machine while a delivery works on a copy of the state. */
  function Working(world: World, before: Books, work: Books, watch: Watch): Sys {
    Sys(world, before, Some(work), watch)
  }

  /** The writers' steps up to the next record lock. */
  lemma GrowStep(codec: Codec, worlds: Worlds, i: nat, before: Books, work: Books, watch: Watch)
    requires Growing(worlds)
    ensures Delivery.Next(codec, Working(worlds(i), before, work, watch), Grow,
                          Working(worlds(i + 1), before, work, watch))
  {
  }

  lemma {:induction false} ChainLeads(codec: Codec, worlds: Worlds, before: Books, watch: Watch, chain: seq<Books>,
                                      k: nat)
    returns (states: seq<Sys>, steps: seq<Step>)
    requires Growing(worlds) && Chain(codec, worlds, chain) && k < |chain|
    requires ScanStep(codec, worlds(0), before, chain[0])
    ensures Leads(codec, Sys(worlds(0), before, None, watch), states, steps,
                  Working(worlds(k), before, chain[k], watch))
  {
    var s := Sys(worlds(0), before, None, watch);
    if k == 0 {
      BeginStep(codec, s, chain[0]);
      states, steps := Onward(codec, s, [s], [], s, DirectBegin, Working(worlds(0), before, chain[0], watch));
    } else {
      states, steps := ChainLeads(codec, worlds, before, watch, chain, k - 1);
      var grown := Working(worlds(k), before, chain[k - 1], watch);
      GrowStep(codec, worlds, k - 1, before, chain[k - 1], watch);
      states, steps := Onward(codec, s, states, steps, Working(worlds(k - 1), before, chain[k - 1], watch), Grow,
                              grown);
      assert Turn(codec, worlds, chain, k - 1);
      SupersedeStep(codec, grown, Working(worlds(k), before, chain[k], watch));
      states, steps := Onward(codec, s, states, steps, grown, DirectSupersede,
                              Working(worlds(k), before, chain[k], watch));
    }
  }

  /** A direct delivery, from its scan to its commit, is a run of steps of the state machine. */
  lemma DeliveredLeads(codec: Codec, worlds: Worlds, watch: Watch,
                       before: Books, chain: seq<Books>, last: Books, prompted: bool, after: Books)
    returns (states: seq<Sys>, steps: seq<Step>)
    requires Growing(worlds)
    requires Delivered(codec, worlds, watch, before, chain, last, prompted, after)
    ensures Leads(codec, Sys(worlds(0), before, None, watch), states, steps,
                  Sys(worlds(|chain| + 1), after, None, watch))
  {
    var first, n, work := Sys(worlds(0), before, None, watch), |chain|, chain[|chain| - 1];
    states, steps := ChainLeads(codec, worlds, before, watch, chain, n - 1);
    GrowStep(codec, worlds, n - 1, before, work, watch);
    states, steps := Onward(codec, first, states, steps, Working(worlds(n - 1), before, work, watch), Grow,
                            Working(worlds(n), before, work, watch));
    GrowStep(codec, worlds, n, before, work, watch);
    var s := Working(worlds(n + 1), before, work, watch);
    states, steps := Onward(codec, first, states, steps, Working(worlds(n), before, work, watch), Grow, s);
    if last != work {
      SupersedeStep(codec, s, s.(work := Some(last)));
      states, steps := Onward(codec, first, states, steps, s, DirectSupersede, s.(work := Some(last)));
    }
    states, steps := Onward(codec, first, states, steps, s.(work := Some(last)),
                            if prompted then DirectSettle else DirectKeep, Sys(worlds(n + 1), after, None, watch));
  }
}
