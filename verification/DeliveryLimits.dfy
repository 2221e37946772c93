/**
 Two runs that show what the delivery state machine does not promise: a held candidate
 that is superseded and forgotten is settled a second time, and a watcher's mark may
 come after a later line, because it is made when the record lock is free again.
 Both use one record whose log repeats one material line.
 */
module DeliveryLimits {
  import opened Prelude
  import opened UpdateLog
  import opened UpdateReader
  import opened Delivery
  import opened DeliverySafety
  import opened DeliveryRuns
  import TransitionText

  /** The record: its path, its identity, and the line of its log with the transition that it decodes to. */
  datatype Case = Case(codec: Codec, path: string, who: Identity, text: Bytes, body: Transition)

  /** The line is one line, decodes to the transition, and is material; its events pass the candidate check. */
  ghost predicate Suited(x: Case) {
    && OneLine(x.text) && x.codec.utf8(x.text) && x.codec.decode(x.text) == Some(x.body)
    && (forall k: nat {:trigger FreshEvent(x.codec, x.path, x.who, Line(Place(x, k), x.text))} ::
          FreshEvent(x.codec, x.path, x.who, Line(Place(x, k), x.text)) == [Ev(x, k)])
    && (forall k: nat {:trigger CandidateOk(Ev(x, k))} :: CandidateOk(Ev(x, k)))
  }

  /** Where the `k`-th line starts. */
  function Place(x: Case, k: nat): nat {
    if k == 0 then 0 else Place(x, k - 1) + |x.text| + 1
  }

  /** The line, `n` times. */
  function Log(x: Case, n: nat): (log: Bytes)
    ensures |log| == Place(x, n)
  {
    if n == 0 then [] else Log(x, n - 1) + x.text + [LF]
  }

  function Id(x: Case, k: nat): EventId { LogId(x.path, Place(x, k), x.text) }

  function Ev(x: Case, k: nat): Event { Event(Id(x, k), x.who, x.path, Place(x, k), x.body) }

  lemma {:induction false} PlacesAscend(x: Case, i: nat, j: nat)
    requires i < j
    ensures Place(x, i) < Place(x, j)
    decreases j
  {
    if i + 1 == j {
    } else {
      PlacesAscend(x, i, j - 1);
    }
  }

  /** Different lines have different events. */
  lemma IdsDiffer(x: Case, i: nat, j: nat)
    ensures Id(x, i) == Id(x, j) <==> i == j
  {
    if i < j {
      PlacesAscend(x, i, j);
    } else if j < i {
      PlacesAscend(x, j, i);
    }
  }

  lemma AllIdsDiffer(x: Case)
    ensures forall i: nat, j: nat :: Id(x, i) == Id(x, j) <==> i == j
  {
    forall i: nat, j: nat
      ensures Id(x, i) == Id(x, j) <==> i == j
    {
      IdsDiffer(x, i, j);
    }
  }

  function Files(x: Case, n: nat): World {
    World(map[x.path := Log(x, n)], map[x.path := Snapshot(x.who, x.body)], [x.path])
  }

  /** The events of the lines from `c` up to `n`. */
  function Queue(x: Case, c: nat, n: nat): map<EventId, Event> { map k: nat | c <= k < n :: Id(x, k) := Ev(x, k) }

  // ------------------------------------------------------- reading the log

  lemma {:induction false} LogExtends(x: Case, m: nat, n: nat)
    requires m <= n
    ensures Log(x, m) <= Log(x, n)
    decreases n
  {
    if m == n {
    } else {
      LogExtends(x, m, n - 1);
    }
  }

  /** The `c`-th line of a log of `n` lines. */
  lemma LineAt(x: Case, n: nat, c: nat)
    requires OneLine(x.text) && c < n
    ensures Place(x, c) < |Log(x, n)| && LineEnd(Log(x, n), Place(x, c)) == Place(x, c + 1)
    ensures Whole(Log(x, n), Place(x, c)) && Text(Log(x, n), Place(x, c)) == x.text
  {
    var log := Log(x, c + 1);
    NewLine(Log(x, c), x.text);
    LogExtends(x, c + 1, n);
    FirstLineGrows(log, Log(x, n), Place(x, c));
  }

  /** From the `c`-th line on, the log is readable, and its last line is the last copy. */
  lemma {:induction false} LogIsReadable(x: Case, n: nat, c: nat)
    requires Suited(x) && c <= n
    ensures AllReadable(x.codec, Log(x, n), Place(x, c)) && UpdateLog.Next(Log(x, n), Place(x, c)) == Place(x, n)
    ensures c < n ==> LastLineIs(Log(x, n), Place(x, c), Line(Place(x, n - 1), x.text))
    ensures Readable(x.codec, Lines(Log(x, n), Place(x, c)))
    decreases n - c
  {
    if c == n {
    } else {
      LineAt(x, n, c);
      LogIsReadable(x, n, c + 1);
      ReadableCons(x.codec, Line(Place(x, c), x.text), Lines(Log(x, n), Place(x, c + 1)));
    }
  }

  predicate LastLineIs(log: Bytes, c: nat, l: Line) { c < |log| && LastLine(log, c) == l }

  lemma WellFormedMatches(codec: Codec, w: World, e: Event, last: nat)
    requires Filed(w, e.source) && w.snapshots[e.source] == Snapshot(e.identity, e.body)
    requires PairValid(codec, w.logs[e.source], w.snapshots[e.source])
    requires Whole(w.logs[e.source], e.offset) && e.id == LogId(e.source, e.offset, Text(w.logs[e.source], e.offset))
    requires codec.utf8(e.id.text) && codec.decode(e.id.text) == Some(e.body)
    requires LastLine(w.logs[e.source], 0).offset == last
    ensures Matches(codec, w, e) == Ok(e.offset == last)
  {
  }

  /** A line of this record is fresh exactly when it is the last. */
  lemma LineMatches(x: Case, n: nat, k: nat)
    requires Suited(x) && k < n
    ensures Matches(x.codec, Files(x, n), Ev(x, k)) == Ok(k == n - 1)
  {
    FilesValid(x, n);
    LogIsReadable(x, n, 0);
    LineAt(x, n, k);
    IdsDiffer(x, k, n - 1);
    WellFormedMatches(x.codec, Files(x, n), Ev(x, k), Place(x, n - 1));
  }

  lemma FilesValid(x: Case, n: nat)
    requires Suited(x) && n > 0
    ensures RosterValid(x.codec, Files(x, n))
  {
    LogIsReadable(x, n, 0);
  }

  lemma FreshHead(x: Case, n: nat, c: nat)
    requires Suited(x) && c < n
    ensures FreshEvents(x.codec, x.path, x.who, Lines(Log(x, n), Place(x, c)))
         == [Ev(x, c)] + FreshEvents(x.codec, x.path, x.who, Lines(Log(x, n), Place(x, c + 1)))
  {
    LineAt(x, n, c);
    FreshCons(x.codec, x.path, x.who, Line(Place(x, c), x.text), Lines(Log(x, n), Place(x, c + 1)));
  }

  lemma QueueStep(x: Case, a: nat, c: nat)
    requires a <= c
    ensures Queue(x, a, c)[Id(x, c) := Ev(x, c)] == Queue(x, a, c + 1)
  {
  }

  lemma EnqueueHead(pending: map<EventId, Event>, delivered: map<EventId, Channel>, e: Event, events: seq<Event>)
    requires e.id !in delivered
    ensures Enqueue(pending, delivered, [e] + events) == Enqueue(pending[e.id := e], delivered, events)
  {
    assert ([e] + events)[1..] == events;
  }

  /** No line from `a` on is in the table. */
  ghost predicate Unmarked(x: Case, a: nat, table: map<EventId, Channel>) {
    forall k: nat :: a <= k ==> Id(x, k) !in table
  }

  lemma {:induction false} QueueGrows(x: Case, a: nat, c: nat, n: nat, delivered: map<EventId, Channel>)
    requires Suited(x) && a <= c <= n && Unmarked(x, a, delivered)
    ensures Enqueue(Queue(x, a, c), delivered, FreshEvents(x.codec, x.path, x.who, Lines(Log(x, n), Place(x, c))))
            == Queue(x, a, n)
    decreases n - c
  {
    if c < n {
      FreshHead(x, n, c);
      EnqueueHead(Queue(x, a, c), delivered, Ev(x, c), FreshEvents(x.codec, x.path, x.who,
                                                                   Lines(Log(x, n), Place(x, c + 1))));
      QueueStep(x, a, c);
      QueueGrows(x, a, c + 1, n, delivered);
    } else {
      assert !Whole(Log(x, n), Place(x, c));
    }
  }

  // ------------------------------------------------------- the states

  /** Durable state with the cursor at `c`, the lines from `a` on pending, and this table and history. */
  function At(x: Case, c: nat, a: nat, table: map<EventId, Channel>, settled: seq<Settlement>, wait: bool): Books {
    Books(Store(true, map[x.path := Place(x, c)], {}, Queue(x, a, c), table, true, wait), map[x.path := Place(x, 1)],
          settled)
  }

  lemma ScanOne(codec: Codec, world: World, path: string, s: Store)
    requires Filed(world, path)
    ensures ScanRecords(codec, world, [path], s) == ScanRecord(codec, world, path, s)
    ensures BaselineRecords(codec, world, [path], s) == BaselineRecord(codec, world, path, s)
  {
    assert [path][1..] == [];
    var r := ScanRecord(codec, world, path, s);
    assert r.Ok? ==> ScanRecords(codec, world, [], r.value) == r;
    var q := BaselineRecord(codec, world, path, s);
    assert q.Ok? ==> BaselineRecords(codec, world, [], q.value) == q;
  }

  /** A read that starts with nothing seen takes every line behind the cursor. */
  lemma ReadsAll(codec: Codec, world: World, path: string, who: Identity, log: Bytes, from: nat, s: Store)
    requires Filed(world, path) && world.logs[path] == log && world.snapshots[path].identity == who
    requires s.offsets == map[path := from] && s.seen == {} && from <= |log| && Readable(codec, Lines(log, from))
    ensures var r := ScanRecord(codec, world, path, s);
            r.Ok? && r.value == s.(offsets := map[path := UpdateLog.Next(log, from)], seen := r.value.seen,
                                   pending := Enqueue(s.pending, s.delivered,
                                                      FreshEvents(codec, path, who, Lines(log, from))))
  {
    ReadIsOneRead(codec, path, who, log, from, {});
    assert Offset(s, path) == from;
  }

  lemma FilesOf(x: Case, n: nat)
    ensures var w := Files(x, n);
            Filed(w, x.path) && w.logs[x.path] == Log(x, n) && w.snapshots[x.path].identity == x.who
  {
  }

  lemma PlacesGrow(x: Case, c: nat, n: nat)
    requires c <= n
    ensures Place(x, c) <= Place(x, n)
  {
    if c < n {
      PlacesAscend(x, c, n);
    }
  }

  lemma ReadAt(x: Case, n: nat, c: nat, a: nat, s: Store)
    requires Suited(x) && 1 <= a <= c <= n && Unmarked(x, a, s.delivered)
    requires s.offsets == map[x.path := Place(x, c)] && s.pending == Queue(x, a, c) && s.seen == {}
    ensures var r := ScanRecord(x.codec, Files(x, n), x.path, s);
            r.Ok? && r.value == s.(offsets := map[x.path := Place(x, n)], seen := r.value.seen,
                                   pending := Queue(x, a, n))
  {
    FilesOf(x, n);
    LogIsReadable(x, n, c);
    QueueGrows(x, a, c, n, s.delivered);
    PlacesGrow(x, c, n);
    ReadsAll(x.codec, Files(x, n), x.path, x.who, Log(x, n), Place(x, c), s);
  }

  lemma QueueIsSound(x: Case, a: nat, n: nat, table: map<EventId, Channel>)
    requires Suited(x) && Unmarked(x, a, table)
    ensures Queue(x, a, n) - table.Keys == Queue(x, a, n)
    ensures forall id <- Queue(x, a, n) :: CandidateOk(Queue(x, a, n)[id])
  {
  }

  lemma ScanAt(x: Case, n: nat, c: nat, a: nat, table: map<EventId, Channel>, settled: seq<Settlement>, wait: bool)
    requires Suited(x) && 1 <= a <= c <= n && Unmarked(x, a, table)
    ensures ScanStep(x.codec, Files(x, n), At(x, c, a, table, settled, wait), At(x, n, a, table, settled, wait))
  {
    FilesValid(x, n);
    ReadAt(x, n, c, a, At(x, c, a, table, settled, wait).store);
    ScanOne(x.codec, Files(x, n), x.path, At(x, c, a, table, settled, wait).store);
    QueueIsSound(x, a, n, table);
  }

  const DEFAULT := Books(Store(false, map[], {}, map[], map[], true, false), map[], [])

  lemma Baseline(x: Case)
    requires Suited(x)
    ensures ScanStep(x.codec, Files(x, 1), DEFAULT, At(x, 1, 1, map[], [], false))
  {
    FilesValid(x, 1);
    ReadIsOneRead(x.codec, x.path, x.who, Log(x, 1), 0, {});
    LogIsReadable(x, 1, 0);
    ScanOne(x.codec, Files(x, 1), x.path, DEFAULT.store.(offsets := map[], seen := {}));
    assert Queue(x, 1, 1) == map[];
  }

  lemma FirstIsNext(x: Case, s: Store, a: nat, n: nat)
    requires s.pending == Queue(x, a, n) && a < n && Id(x, a) !in s.delivered
    ensures IsNext(s, Ev(x, a)) && Ev(x, a) in s.pending.Values
  {
    assert s.pending[Id(x, a)] == Ev(x, a);
    forall k: nat | a <= k < n
      ensures Place(x, a) <= Place(x, k)
    {
      if a < k {
        PlacesAscend(x, a, k);
      }
    }
  }

  lemma LogGrows(x: Case, m: nat, n: nat)
    requires m <= n
    ensures Grows(Files(x, m), Files(x, n))
  {
    LogExtends(x, m, n);
  }

  lemma RunExtends(codec: Codec, states: seq<Sys>, steps: seq<Step>, step: Step, s: Sys)
    requires Run(codec, states, steps) && Delivery.Next(codec, states[|steps|], step, s)
    ensures Run(codec, states + [s], steps + [step])
  {
    var ss, ts := states + [s], steps + [step];
    forall i | 0 <= i < |ts|
      ensures Delivery.Next(codec, ss[i], ts[i], ss[i + 1])
    {
      if i < |steps| {
        assert Delivery.Next(codec, states[i], steps[i], states[i + 1]);
      }
    }
  }

  /** A run of `x` that ends in `s`. */
  ghost predicate Reaches(x: Case, states: seq<Sys>, steps: seq<Step>, s: Sys) {
    Run(x.codec, states, steps) && states[|steps|] == s
  }

  lemma Then(x: Case, states: seq<Sys>, steps: seq<Step>, s: Sys, step: Step, s': Sys)
    returns (states': seq<Sys>, steps': seq<Step>)
    requires Reaches(x, states, steps, s) && Delivery.Next(x.codec, s, step, s')
    ensures Reaches(x, states', steps', s') && steps' == steps + [step]
  {
    RunExtends(x.codec, states, steps, step, s');
    states', steps' := states + [s'], steps + [step];
  }

  function Idle(x: Case): Sys { Sys(Files(x, 1), At(x, 1, 1, map[], [], false), None, NoWatch) }

  function Began(x: Case, n: nat): Sys { Sys(Files(x, n), At(x, 1, 1, map[], [], true), None, Waiting) }

  function Holding(x: Case, n: nat): Sys { Sys(Files(x, n), At(x, n, 1, map[], [], true), None, Held(Ev(x, 1))) }

  /** The common start: a baseline, a wait, and growth to `n` lines, the second one held. */
  lemma StartRuns(x: Case, n: nat) returns (states: seq<Sys>, steps: seq<Step>)
    requires Suited(x) && n >= 2
    ensures Reaches(x, states, steps, Holding(x, n))
  {
    states, steps := [Sys(Files(x, 1), DEFAULT, None, NoWatch)], [];
    Baseline(x);
    states, steps := Then(x, states, steps, states[0], EnsureBaseline, Idle(x));
    states, steps := Then(x, states, steps, Idle(x), WaitBegin, Began(x, 1));
    LogGrows(x, 1, n);
    states, steps := Then(x, states, steps, Began(x, 1), Grow, Began(x, n));
    ScanAt(x, n, 1, 1, map[], [], true);
    FirstIsNext(x, Holding(x, n).books.store, 1, n);
    states, steps := Then(x, states, steps, Began(x, n), WaitScan, Holding(x, n));
  }

  // ------------------------------------------- a mark after a later line

  function Marked(x: Case): Sys {
    Sys(Files(x, 3), At(x, 2, 2, map[Id(x, 1) := Watcher], [Settlement(Id(x, 1), Watcher)], true), None, Waiting)
  }

  lemma FirstMark(x: Case)
    ensures Settle(Holding(x, 2).books, Id(x, 1), Watcher, Marked(x).books)
  {
    QueueShrinks(x, 1, 2);
  }

  /** A run at whose end the watcher has marked a line that is no longer the last of its log. */
  lemma WatcherMayMarkLate(x: Case) returns (states: seq<Sys>, steps: seq<Step>)
    requires Suited(x)
    ensures Run(x.codec, states, steps) && |steps| > 0 && steps[|steps| - 1] == WaitMark
    ensures var s := states[|steps|];
            s.books.settled == [Settlement(Id(x, 1), Watcher)] && HasLater(s.world, Id(x, 1))
  {
    states, steps := StartRuns(x, 2);
    LineMatches(x, 2, 1);
    var checked := Holding(x, 2).(watch := Fresh(Ev(x, 1)));
    states, steps := Then(x, states, steps, Holding(x, 2), WaitCheck, checked);
    LogGrows(x, 2, 3);
    var grown := checked.(world := Files(x, 3));
    states, steps := Then(x, states, steps, checked, Grow, grown);
    FirstMark(x);
    states, steps := Then(x, states, steps, grown, WaitMark, Marked(x));
    LogIsReadable(x, 3, 0);
  }

  // --------------------------------------- a line settled a second time

  /** The table of the superseded lines from `lo` up to `hi`. */
  function Table(x: Case, lo: nat, hi: nat): map<EventId, Channel> {
    map k: nat | lo <= k < hi :: Id(x, k) := Superseded
  }

  lemma TableHas(x: Case, lo: nat, hi: nat, k: nat)
    ensures Id(x, k) in Table(x, lo, hi) <==> lo <= k < hi
  {
    AllIdsDiffer(x);
  }

  lemma TableStep(x: Case, lo: nat, hi: nat)
    requires lo <= hi
    ensures Table(x, lo, hi + 1) == Table(x, lo, hi)[Id(x, hi) := Superseded] && Id(x, hi) !in Table(x, lo, hi)
  {
    TableHas(x, lo, hi, hi);
  }

  lemma MapGrows(m: map<EventId, Channel>, id: EventId, channel: Channel)
    requires id !in m
    ensures |m[id := channel]| == |m| + 1
  {
    assert m[id := channel].Keys == m.Keys + {id};
  }

  lemma TableEmpty(x: Case, lo: nat)
    ensures Table(x, lo, lo) == map[]
  {
  }

  lemma {:induction false} TableSize(x: Case, lo: nat, hi: nat)
    requires lo <= hi
    ensures |Table(x, lo, hi)| == hi - lo
    decreases hi - lo
  {
    if lo == hi {
      TableEmpty(x, lo);
    } else {
      TableSize(x, lo, hi - 1);
      TableStep(x, lo, hi - 1);
      MapGrows(Table(x, lo, hi - 1), Id(x, hi - 1), Superseded);
    }
  }

  /** After superseding the lines `1..m`: the oldest are forgotten. */
  function Oldest(m: nat): nat { if m < TABLE_LIMIT then 1 else m + 1 - TABLE_LIMIT }

  function History(x: Case, m: nat): (h: seq<Settlement>)
    ensures |h| == m && forall i | 0 <= i < m :: h[i] == Settlement(Id(x, i + 1), Superseded)
  {
    seq(m, i requires 0 <= i < m => Settlement(Id(x, i + 1), Superseded))
  }

  function Superseding(x: Case, n: nat, m: nat): Books {
    At(x, n, m + 1, Table(x, Oldest(m), m + 1), History(x, m), true)
  }

  lemma TableMoves(x: Case, m: nat)
    ensures TableAfter(Table(x, Oldest(m), m + 1), Id(x, m + 1), Superseded, Table(x, Oldest(m + 1), m + 2))
  {
    TableSize(x, Oldest(m), m + 1);
    TableSize(x, Oldest(m + 1), m + 2);
    TableStep(x, Oldest(m), m + 1);
  }

  lemma QueueShrinks(x: Case, a: nat, n: nat)
    requires a < n
    ensures Queue(x, a, n) - {Id(x, a)} == Queue(x, a + 1, n)
  {
    AllIdsDiffer(x);
  }

  lemma HistoryGrows(x: Case, m: nat)
    ensures History(x, m + 1) == History(x, m) + [Settlement(Id(x, m + 1), Superseded)]
  {
  }

  lemma SupersedeSettles(x: Case, n: nat, m: nat)
    requires m + 2 < n
    ensures Settle(Superseding(x, n, m), Id(x, m + 1), Superseded, Superseding(x, n, m + 1))
  {
    TableMoves(x, m);
    QueueShrinks(x, m + 1, n);
    HistoryGrows(x, m);
    TableHas(x, Oldest(m), m + 1, m + 1);
  }

  lemma SupersedeNext(x: Case, n: nat, m: nat)
    requires Suited(x) && m + 2 < n
    ensures Delivery.Next(x.codec, Working(x, n, m), DirectSupersede, Working(x, n, m + 1))
  {
    TableHas(x, Oldest(m), m + 1, m + 1);
    FirstIsNext(x, Superseding(x, n, m).store, m + 1, n);
    LineMatches(x, n, m + 1);
    SupersedeSettles(x, n, m);
  }

  function Working(x: Case, n: nat, m: nat): Sys { Holding(x, n).(work := Some(Superseding(x, n, m))) }

  lemma BeginWork(x: Case, n: nat)
    requires Suited(x) && n >= 2
    ensures Delivery.Next(x.codec, Holding(x, n), DirectBegin, Working(x, n, 0))
  {
    ScanAt(x, n, n, 1, map[], [], true);
    assert Table(x, 1, 1) == map[] && History(x, 0) == [];
  }

  /** The run that goes on with a direct delivery that has superseded `m` lines. */
  lemma {:induction false} SupersedingRun(x: Case, n: nat, m: nat) returns (states: seq<Sys>, steps: seq<Step>)
    requires Suited(x) && m + 1 < n
    ensures Reaches(x, states, steps, Working(x, n, m))
  {
    if m == 0 {
      states, steps := StartRuns(x, n);
      BeginWork(x, n);
      states, steps := Then(x, states, steps, Holding(x, n), DirectBegin, Working(x, n, 0));
    } else {
      states, steps := SupersedingRun(x, n, m - 1);
      SupersedeNext(x, n, m - 1);
      states, steps := Then(x, states, steps, Working(x, n, m - 1), DirectSupersede, Working(x, n, m));
    }
  }

  /**
   While a watcher holds the first new line, a direct delivery supersedes it and enough
   later ones for the table to forget it; the watcher's check then settles it again.
   */
  lemma LineSettledTwice(x: Case) returns (states: seq<Sys>, steps: seq<Step>)
    requires Suited(x)
    ensures Run(x.codec, states, steps) && !SettledOnce(states[|steps|].books)
  {
    var m := TABLE_LIMIT + 1;
    var n := m + 2;
    states, steps := SupersedingRun(x, n, m);
    var kept := Working(x, n, m).(work := None, books := Superseding(x, n, m));
    states, steps := Then(x, states, steps, Working(x, n, m), DirectKeep, kept);
    var again := MarkAgain(x, n, m);
    var s := kept.(books := again, watch := Waiting);
    LineMatches(x, n, 1);
    states, steps := Then(x, states, steps, kept, WaitCheck, s);
    assert again.settled[0] == Settlement(Id(x, 1), Superseded) == again.settled[m];
  }

  lemma MarkAgain(x: Case, n: nat, m: nat) returns (b': Books)
    requires m == TABLE_LIMIT + 1 && m + 2 == n
    ensures Settle(Superseding(x, n, m), Id(x, 1), Superseded, b')
    ensures b'.settled == History(x, m) + [Settlement(Id(x, 1), Superseded)]
  {
    var b := Superseding(x, n, m);
    var table := Table(x, 3, m + 1)[Id(x, 1) := Superseded];
    TableSize(x, 3, m + 1);
    TableSize(x, 2, m + 1);
    TableHas(x, 2, m + 1, 1);
    TableHas(x, 3, m + 1, 1);
    b' := b.(store := b.store.(pending := b.store.pending - {Id(x, 1)}, delivered := table),
             settled := b.settled + [Settlement(Id(x, 1), Superseded)]);
  }

  // -------------------------------------------------------- a concrete case

  /** The program's own printing and decoding, on a record with this transition again and again. */
  function Recorded(timestamp: string -> bool, path: string, who: Identity, t: Transition): Case {
    Case(TransitionText.StrictCodec(timestamp), path, who, TransitionText.DumpLine(t), t)
  }

  lemma RecordedReads(timestamp: string -> bool, path: string, who: Identity, t: Transition)
    requires AcceptableTo(timestamp, t)
    ensures var x := Recorded(timestamp, path, who, t);
            OneLine(x.text) && x.codec.utf8(x.text) && x.codec.decode(x.text) == Some(t)
  {
    TransitionText.StrictPrints(timestamp);
    assert Acceptable(TransitionText.StrictCodec(timestamp), t);
  }

  lemma MaterialIsFresh(codec: Codec, path: string, who: Identity, l: Line, t: Transition)
    requires codec.decode(l.text) == Some(t) && Material(t)
    ensures FreshEvent(codec, path, who, l) == [Event(LogId(path, l.offset, l.text), who, path, l.offset, t)]
  {
  }

  /** Both runs exist for every material transition that the program writes. */
  lemma RecordedIsSuited(timestamp: string -> bool, path: string, who: Identity, t: Transition)
    requires AcceptableTo(timestamp, t) && t.status in DELIVERY_STATUSES && Material(t) && NonBlank(t.status)
    requires NonBlank(path) && NonBlank(who.callsign) && NonBlank(who.shotcaller)
    ensures Suited(Recorded(timestamp, path, who, t))
  {
    var x := Recorded(timestamp, path, who, t);
    RecordedReads(timestamp, path, who, t);
    forall k: nat
      ensures FreshEvent(x.codec, path, who, Line(Place(x, k), x.text)) == [Ev(x, k)]
    {
      MaterialIsFresh(x.codec, path, who, Line(Place(x, k), x.text), t);
    }
    forall k: nat
      ensures CandidateOk(Ev(x, k))
    {
      CandidateFrom(Ev(x, k));
    }
  }

  lemma CandidateFrom(e: Event)
    requires e.id.LogId? && e.body.status in DELIVERY_STATUSES
    requires NonBlank(e.source) && NonBlank(e.identity.callsign) && NonBlank(e.identity.shotcaller)
    requires NonBlank(e.body.status) && NonBlank(e.body.at) && NonBlank(e.body.update)
    ensures CandidateOk(e)
  {
  }

  /** A record whose transitions all say that it is blocked. */
  function Example(): Case {
    Recorded((at: string) => at == "2026-01-01T00:00:00Z", "A/updates.jsonl", Identity(false, "mika", "ada"),
             Transition("blocked", "2026-01-01T00:00:00Z", "x"))
  }

  lemma TextIsNonBlank(s: string)
    requires s != "" && Trimmed(s)
    ensures NonBlank(s)
  {
    StripFixpoint(s);
  }

  lemma ExampleTexts()
    ensures NonBlank("A/updates.jsonl") && NonBlank("mika") && NonBlank("ada") && NonBlank("blocked")
    ensures NonBlank("2026-01-01T00:00:00Z") && NonBlank("x")
  {
    TextIsNonBlank("A/updates.jsonl");
    TextIsNonBlank("mika");
    TextIsNonBlank("ada");
    TextIsNonBlank("2026-01-01T00:00:00Z");
    TextIsNonBlank("blocked");
    TextIsNonBlank("x");
  }

  lemma ExampleSuited()
    ensures Suited(Example())
  {
    BlockedIsMaterial();
    ExampleTexts();
    RecordedIsSuited((at: string) => at == "2026-01-01T00:00:00Z", "A/updates.jsonl", Identity(false, "mika", "ada"),
                     Transition("blocked", "2026-01-01T00:00:00Z", "x"));
  }

  lemma BlockedIsMaterial()
    ensures Lower("blocked") == "blocked" && "blocked" in DELIVERY_STATUSES && "blocked" in SUPPORTED_STATUSES
  {
    assert Lower("ed") == "ed";
    assert Lower("ked") == "ked";
    assert Lower("cked") == "cked";
    assert Lower("ocked") == "ocked";
    assert Lower("locked") == "locked";
    assert Lower("blocked") == "blocked";
    assert DELIVERY_STATUSES[0] == "blocked" == SUPPORTED_STATUSES[4];
  }
}
