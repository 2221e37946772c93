/**
 The delivery state machine of src/agent_watcher.py as a transition system. Logs grow,
 a watcher process scans and claims, direct delivery scans, supersedes and prompts, and
 all of them settle events in one durable state whose delivered table is bounded.

 A step is what happens under one lock: a state mutation that commits (`Store.mutate`
 writes nothing when its function raises), the freshness check under the record lock,
 or growth of the logs. Direct delivery holds the state lock for all its steps, so it
 works on a copy that it commits or drops, while logs go on growing.
 */
module Delivery {
  import opened Prelude
  import opened UpdateLog
  import opened UpdateReader

  // ------------------------------------------------------------ the state

  datatype Snapshot = Snapshot(identity: Identity, current: Transition)

  /** The files: a log and a status snapshot per record; `active` are the records in the Roster now. */
  datatype World = World(logs: map<string, Bytes>, snapshots: map<string, Snapshot>, active: seq<string>)

  datatype Channel = Watcher | Direct | Superseded

  /** The bound on `delivered_events`. */
  const TABLE_LIMIT: nat := 2048

  /** `state.json` */
  datatype Store = Store(
    initialized: bool,
    offsets: map<string, nat>,
    seen: set<EventId>,
    pending: map<EventId, Event>,
    delivered: map<EventId, Channel>,
    enabled: bool,
    waitActive: bool)

  datatype Settlement = Settlement(id: EventId, channel: Channel)

  /**
   The durable state with its history: `settled` records every successful mark, also
   those the table has forgotten, and `base` the cursors of the baseline.
   */
  datatype Books = Books(store: Store, base: map<string, nat>, settled: seq<Settlement>)

  /** The watcher process: not running, between scans, or holding a candidate. */
  datatype Watch = NoWatch | Waiting | Held(event: Event) | Fresh(event: Event)

  /** `work` is the copy a direct delivery holds the state lock for. */
  datatype Sys = Sys(world: World, books: Books, work: Option<Books>, watch: Watch)

  // ------------------------------------------------ records and freshness

  predicate AllReadable(codec: Codec, log: Bytes, c: nat)
    decreases |log| - c
  {
    c < |log| ==>
      codec.utf8(Text(log, c)) && codec.decode(Text(log, c)).Some? && AllReadable(codec, log, LineEnd(log, c))
  }

  /** `_validate_record_pair_unlocked`: every line is a transition and the last equals the snapshot. */
  predicate PairValid(codec: Codec, log: Bytes, snapshot: Snapshot) {
    && log != []
    && AllReadable(codec, log, 0)
    && codec.decode(LastLine(log, 0).text) == Some(snapshot.current)
  }

  /** The record has its two files. */
  predicate Filed(world: World, path: string) {
    path in world.logs && path in world.snapshots
  }

  predicate RosterValid(codec: Codec, world: World) {
    NoDuplicates(world.active) &&  // `glob` lists a path once
    forall p <- world.active :: Filed(world, p) && PairValid(codec, world.logs[p], world.snapshots[p])
  }

  /** `_event_matches_latest_unlocked`, with the checks of `_direct_event_record_dir`. */
  function Matches(codec: Codec, world: World, e: Event): Result<bool, Failure> {
    if !Filed(world, e.source) then Err(ContractViolation)
    else
      var log, snapshot := world.logs[e.source], world.snapshots[e.source];
      if !PairValid(codec, log, snapshot) || !Whole(log, e.offset) then Err(ContractViolation)
      else
        var text := Text(log, e.offset);
        if !codec.utf8(text) || codec.decode(text) != Some(e.body)
           || e.id != LogId(e.source, e.offset, text) || e.identity != snapshot.identity
        then Err(ContractViolation)
        else Ok(e.offset == LastLine(log, 0).offset && e.body == snapshot.current)
  }

  // ---------------------------------------------------------------- scans

  function Offset(s: Store, path: string): nat { if path in s.offsets then s.offsets[path] else 0 }

  /** The loop that queues the events of one read. */
  function Enqueue(pending: map<EventId, Event>, delivered: map<EventId, Channel>, events: seq<Event>): map<EventId,
      Event>
    decreases |events|
  {
    if events == [] then pending
    else if events[0].id in delivered then Enqueue(pending, delivered, events[1..])
    else Enqueue(pending[events[0].id := events[0]], delivered, events[1..])
  }

  function ScanRecord(codec: Codec, world: World, path: string, s: Store): Result<Store, Failure>
    requires Filed(world, path)
  {
    var r := ReadFrom(codec, path, world.snapshots[path].identity, world.logs[path], Offset(s, path), s.seen);
    if r.Err? then Err(r.error)
    else Ok(s.(offsets := s.offsets[path := r.value.next],
               seen := r.value.gathered.seen,
               pending := Enqueue(s.pending, s.delivered, r.value.gathered.events)))
  }

  /** The loop of `_scan_state` over the active records. */
  function ScanRecords(codec: Codec, world: World, paths: seq<string>, s: Store): Result<Store, Failure>
    requires forall p <- paths :: Filed(world, p)
  {
    if paths == [] then Ok(s)
    else
      var r := ScanRecord(codec, world, paths[0], s);
      if r.Err? then r else ScanRecords(codec, world, paths[1..], r.value)
  }

  function BaselineRecord(codec: Codec, world: World, path: string, s: Store): Result<Store, Failure>
    requires Filed(world, path)
  {
    var r := ReadFrom(codec, path, world.snapshots[path].identity, world.logs[path], 0, s.seen);
    if r.Err? then Err(r.error)
    else Ok(s.(offsets := s.offsets[path := r.value.next], seen := r.value.gathered.seen))
  }

  /** The loop of `_baseline_state`: cursors move, events are dropped. */
  function BaselineRecords(codec: Codec, world: World, paths: seq<string>, s: Store): Result<Store, Failure>
    requires forall p <- paths :: Filed(world, p)
  {
    if paths == [] then Ok(s)
    else
      var r := BaselineRecord(codec, world, paths[0], s);
      if r.Err? then r else BaselineRecords(codec, world, paths[1..], r.value)
  }

  /** `_pending_candidate` */
  predicate CandidateOk(e: Event) {
    && NonBlank(e.source) && NonBlank(e.identity.callsign) && NonBlank(e.identity.shotcaller)
    && NonBlank(e.body.status) && NonBlank(e.body.at) && NonBlank(e.body.update)
    && if e.id.LogId? then e.body.status in DELIVERY_STATUSES else e.body.status == "champion_stalled"
  }

  /** `_scan_state` up to the trimming of `seen`. A raised error leaves the state alone. */
  function Scan(codec: Codec, world: World, b: Books): Result<Books, Failure> {
    if !RosterValid(codec, world) then Err(ContractViolation)
    else if !b.store.initialized then
      var r := BaselineRecords(codec, world, world.active, b.store.(offsets := map[], seen := {}));
      if r.Err? then Err(r.error)
      else Ok(b.(store := r.value.(initialized := true, pending := map[]), base := r.value.offsets))
    else
      var r := ScanRecords(codec, world, world.active, b.store);
      if r.Err? then Err(r.error)
      else
        var pending := r.value.pending - r.value.delivered.Keys;
        if exists id <- pending :: !CandidateOk(pending[id]) then Err(ContractViolation)
        else Ok(b.(store := r.value.(pending := pending)))
  }

  lemma NonBlankHasText(s: string)
    requires s == "blocked" || s == "completed" || s == "complete" || s == "cancelled" || s == "canceled"
             || s == "failed" || s == "ready_to_land"
    ensures NonBlank(s)
  {
    assert !IsSpace(s[0]) && !IsSpace(s[|s| - 1]);
    StripFixpoint(s);
  }

  /**
   The event of a material line is an acceptable candidate only if its status is one of
   the seven words as they are, although the line is material in any case of letters.
   */
  lemma CandidateExactly(codec: Codec, path: string, who: Identity, l: Line, t: Transition)
    requires Acceptable(codec, t) && Material(t)
    requires NonBlank(path) && NonBlank(who.callsign) && NonBlank(who.shotcaller)
    ensures CandidateOk(EventOf(path, who, l, t)) <==>
              t.status == "blocked" || t.status == "completed" || t.status == "complete" || t.status == "cancelled"
              || t.status == "canceled" || t.status == "failed" || t.status == "ready_to_land"
  {
    DeliveryIsWord(t.status);
    if t.status in DELIVERY_STATUSES {
      NonBlankHasText(t.status);
    }
  }

  /** `Blocked` is a material status whose event is refused, and a scan with a refused candidate pending fails. */
  lemma CaseIsRefused(codec: Codec, path: string, who: Identity, l: Line, at: string, update: string)
    ensures var t := Transition("Blocked", at, update);
            Material(t) && !CandidateOk(EventOf(path, who, l, t))
  {
    var t := Transition("Blocked", at, update);
    MaterialExactly(t);
    assert SameButCase("Blocked", "blocked");
    DeliveryIsWord("Blocked");
    assert "Blocked"[0] == 'B';
  }

  /** A scan that commits, keeping any part of the seen set: `list(seen)[-2048:]`. */
  predicate ScanStep(codec: Codec, world: World, b: Books, b': Books) {
    var r := Scan(codec, world, b);
    && r.Ok?
    && b'.store.seen <= r.value.store.seen
    && b' == r.value.(store := r.value.store.(seen := b'.store.seen))
  }

  predicate Earlier(a: Event, b: Event) {
    StringLess(a.source, b.source) || (a.source == b.source && a.offset <= b.offset)
  }

  /** `e` is what `_next_pending_event` may return: a first candidate by source path and offset. */
  ghost predicate IsNext(s: Store, e: Event) {
    && e.id in s.pending && s.pending[e.id] == e && e.id !in s.delivered
    && forall id <- s.pending :: id in s.delivered || Earlier(e, s.pending[id])
  }

  // -------------------------------------------------------------- settling

  /** Inserting in the table evicts other keys, whichever, down to the limit. */
  ghost predicate TableAfter(before: map<EventId, Channel>, id: EventId, channel: Channel, after: map<EventId,
                             Channel>)
  {
    && id in after && after[id] == channel
    && (forall k <- after :: k != id ==> k in before && after[k] == before[k])
    && |after| <= TABLE_LIMIT
    && (|before| < TABLE_LIMIT ==> after == before[id := channel])
  }

  /** `_mark_state_delivered` returning True. */
  ghost predicate Settle(b: Books, id: EventId, channel: Channel, b': Books) {
    && id !in b.store.delivered
    && TableAfter(b.store.delivered, id, channel, b'.store.delivered)
    && b' == b.(store := b.store.(pending := b.store.pending - {id}, delivered := b'.store.delivered),
                settled := b.settled + [Settlement(id, channel)])
  }

  /** `_mark_delivered`: a mark, or nothing when the table still has the event. */
  ghost predicate Mark(b: Books, id: EventId, channel: Channel, b': Books) {
    if id in b.store.delivered then b' == b else Settle(b, id, channel, b')
  }

  /** `_live_wait`: the flag is set and the process that set it is running. */
  predicate LiveWait(s: Store, watch: Watch) { s.waitActive && watch != NoWatch }

  /** `_live_wait` returning False leaves the flag cleared. */
  function Woken(b: Books): Books { b.(store := b.store.(waitActive := false)) }

  // ----------------------------------------------------------------- steps

  datatype Step =
    | Grow            // writers append and rewrite snapshots; records come and go
    | WaitBegin       // mark_wait_active
    | WaitScan        // _scan_and_record by the watcher
    | WaitCheck       // _claim_watcher_event, the part under the record lock
    | WaitMark        // _claim_watcher_event, the mark after it
    | WaitEnd         // clear_wait, or the death of the process
    | DirectBegin     // deliver_transition takes the state lock and scans
    | DirectSupersede // one turn of its loop
    | DirectSettle    // prompt, mark and commit
    | DirectKeep      // commit without a mark
    | DirectAbort     // raise
    | EnsureBaseline  // _ensure_state_baseline
    | QueueStall      // reconcile_runtime queues a stalled event
    | Control         // enable or disable

  ghost predicate Grows(w: World, w': World) {
    forall p <- w.logs :: p in w'.logs && w.logs[p] <= w'.logs[p]
  }

  ghost predicate Next(codec: Codec, s: Sys, step: Step, s': Sys) {
    match step
    case Grow => Grows(s.world, s'.world) && s' == s.(world := s'.world)
    case WaitBegin =>
      && s.work.None? && s.watch == NoWatch
      && s' == s.(books := s.books.(store := s.books.store.(waitActive := true)), watch := Waiting)
    case WaitScan =>
      && s.work.None? && s.watch == Waiting
      && ScanStep(codec, s.world, s.books, s'.books)
      && (s'.watch == Waiting || (s'.watch.Held? && IsNext(s'.books.store, s'.watch.event)))
      && s' == s.(books := s'.books, watch := s'.watch)
    case WaitCheck =>
      s.watch.Held? && CheckStep(codec, s, s')
    case WaitMark =>
      && s.work.None? && s.watch.Fresh?
      && Mark(s.books, s.watch.event.id, Watcher, s'.books)
      && s' == s.(books := s'.books, watch := Waiting)
    case WaitEnd =>
      || s' == s.(watch := NoWatch)
      || (s.work.None? && s' == s.(watch := NoWatch, books := s.books.(store := s.books.store.(waitActive := false))))
    case DirectBegin =>
      && s.work.None? && s'.work.Some?
      && ScanStep(codec, s.world, s.books, s'.work.value)
      && s' == s.(work := s'.work)
    case DirectSupersede =>
      && s.work.Some? && s'.work.Some?
      && Supersedes(codec, s.world, s.work.value, s'.work.value)
      && s' == s.(work := s'.work)
    case DirectSettle =>
      && s.work.Some?
      && Prompts(codec, s.world, s.watch, s.work.value, s'.books)
      && s' == s.(books := s'.books, work := None)
    case DirectKeep =>
      && s.work.Some?
      && Keeps(s.watch, s.work.value, s'.books)
      && s' == s.(books := s'.books, work := None)
    case DirectAbort => s.work.Some? && s' == s.(work := None)
    case EnsureBaseline =>
      && s.work.None? && !s.books.store.initialized
      && ScanStep(codec, s.world, s.books, s'.books)
      && s' == s.(books := s'.books)
    case QueueStall =>
      && s.work.None? && s.books.store.initialized
      && (exists e: Event ::
            && e.id.StallId? && e.id !in s.books.store.delivered
            && s'.books == s.books.(store := s.books.store.(pending := s.books.store.pending[e.id := e])))
      && s' == s.(books := s'.books)
    case Control =>
      && s.work.None?
      && s' == s.(books := s.books.(store := s.books.store.(enabled := s'.books.store.enabled)))
  }

  /** The check of a held candidate under the record lock. */
  ghost predicate CheckStep(codec: Codec, s: Sys, s': Sys)
    requires s.watch.Held?
  {
    var e := s.watch.event;
    if e.id.StallId? then s' == s.(watch := Fresh(e))
    else
      match Matches(codec, s.world, e)
      case Ok(true) => s' == s.(watch := Fresh(e))
      case Ok(false) =>
        && s.work.None?
        && Mark(s.books, e.id, Superseded, s'.books)
        && s' == s.(books := s'.books, watch := Waiting)
      case Err(_) => s' == s.(watch := Waiting)
  }

  /** One turn of the loop: the next candidate is no longer the latest of its record. */
  ghost predicate Supersedes(codec: Codec, world: World, b: Books, b': Books) {
    exists e | e in b.store.pending.Values ::
      && IsNext(b.store, e) && e.id.LogId? && Matches(codec, world, e) == Ok(false)
      && Settle(b, e.id, Superseded, b')
  }

  /** The conditions under which `prompt_candidate` prompts. */
  ghost predicate DirectReady(codec: Codec, world: World, watch: Watch, s: Store, e: Event) {
    && IsNext(s, e)
    && (e.id.LogId? ==> Matches(codec, world, e) == Ok(true))
    && s.enabled
    && !LiveWait(s, watch)
  }

  ghost predicate Prompts(codec: Codec, world: World, watch: Watch, b: Books, b': Books) {
    exists e | e in b.store.pending.Values ::
      DirectReady(codec, world, watch, b.store, e) && Settle(Woken(b), e.id, Direct, b')
  }

  /** A commit without a mark; looking for a live wait may have cleared its flag. */
  predicate Keeps(watch: Watch, b: Books, b': Books) {
    b' == b || (!LiveWait(b.store, watch) && b' == Woken(b))
  }

  /** `DEFAULT_STATE`, with any logs and no process running. */
  predicate Initial(s: Sys) {
    && s.books == Books(Store(false, map[], {}, map[], map[], true, false), map[], [])
    && s.work.None?
    && s.watch == NoWatch
  }

  /** A run: any sequence of steps from the default state. */
  ghost predicate Run(codec: Codec, states: seq<Sys>, steps: seq<Step>) {
    && |states| == |steps| + 1
    && Initial(states[0])
    && forall i | 0 <= i < |steps| :: Next(codec, states[i], steps[i], states[i + 1])
  }
}
