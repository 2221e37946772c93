/**
 What holds over whole runs of the delivery state machine, however log growth, scans,
 watcher claims, direct deliveries and aborted mutations interleave and whatever the
 bounded table forgets.
 */
module DeliveryRuns {
  import opened Prelude
  import opened UpdateLog
  import opened UpdateReader
  import opened Delivery
  import opened DeliverySafety

  // ------------------------------------------------- consumed lines

  /** The lines consumed since the baseline are exactly those pending or settled, and none is both. */
  lemma PendingXorSettled(codec: Codec, states: seq<Sys>, steps: seq<Step>, i: nat, id: EventId)
    requires Run(codec, states, steps) && i < |states| && id.LogId?
    ensures var s := states[i];
            && (Consumed(codec, s.world, s.books, id) <==> id in s.books.store.pending || Settled(s.books, id))
            && !(id in s.books.store.pending && Settled(s.books, id))
  {
    RunKeeps(codec, states, steps, i);
    var world, b := states[i].world, states[i].books;
    if id in b.store.pending {
      assert EventOk(codec, world, b, id, b.store.pending[id]);
    }
    if Settled(b, id) {
      var k :| 0 <= k < |b.settled| && b.settled[k].id == id;
    }
  }

  /** No line is delivered twice, and deliveries of one record follow its log. */
  lemma DeliveredOnceInOrder(codec: Codec, states: seq<Sys>, steps: seq<Step>, i: nat, j: nat, k: nat)
    requires Run(codec, states, steps) && i < |states|
    requires j < k < |states[i].books.settled| && Delivers(states[i].books, j) && Delivers(states[i].books, k)
    ensures var settled := states[i].books.settled;
            && settled[j].id != settled[k].id
            && (settled[j].id.path == settled[k].id.path ==> settled[j].id.offset < settled[k].id.offset)
  {
    RunKeeps(codec, states, steps, i);
  }

  /** A superseded line always has a later line in the same log. */
  lemma SupersededHasLater(codec: Codec, states: seq<Sys>, steps: seq<Step>, i: nat, j: nat)
    requires Run(codec, states, steps) && i < |states|
    requires j < |states[i].books.settled| && states[i].books.settled[j].channel == Superseded
    requires states[i].books.settled[j].id.LogId?
    ensures HasLater(states[i].world, states[i].books.settled[j].id)
  {
    RunKeeps(codec, states, steps, i);
  }

  // ------------------------------------------------- the history only grows

  /** A direct delivery in progress has done nothing but supersede. */
  predicate WorkOk(books: Books, work: Books) {
    && books.settled <= work.settled
    && forall i | |books.settled| <= i < |work.settled| ::
         work.settled[i].id.LogId? && work.settled[i].channel == Superseded
  }

  predicate OnlySupersedes(s: Sys) {
    s.work.Some? ==> WorkOk(s.books, s.work.value)
  }

  lemma StepHistory(codec: Codec, s: Sys, step: Step, s': Sys)
    requires OnlySupersedes(s) && Delivery.Next(codec, s, step, s')
    ensures OnlySupersedes(s') && s.books.settled <= s'.books.settled
  {
  }

  lemma HistoryOn(codec: Codec, states: seq<Sys>, steps: seq<Step>, j: nat)
    requires Run(codec, states, steps) && j < |steps| && OnlySupersedes(states[j])
    ensures OnlySupersedes(states[j + 1]) && states[j].books.settled <= states[j + 1].books.settled
  {
    assert Delivery.Next(codec, states[j], steps[j], states[j + 1]);
    StepHistory(codec, states[j], steps[j], states[j + 1]);
  }

  lemma {:induction false} RunHistory(codec: Codec, states: seq<Sys>, steps: seq<Step>, i: nat, j: nat)
    requires Run(codec, states, steps) && i <= j < |states|
    ensures OnlySupersedes(states[j])
    ensures states[i].books.settled <= states[j].books.settled
    decreases j
  {
    if j == 0 {
    } else {
      RunHistory(codec, states, steps, if i < j then i else j - 1, j - 1);
      HistoryOn(codec, states, steps, j - 1);
    }
  }

  /** Once settled, a line is never queued again, although the table may forget it. */
  lemma NeverRequeued(codec: Codec, states: seq<Sys>, steps: seq<Step>, i: nat, j: nat, id: EventId)
    requires Run(codec, states, steps) && i <= j < |states|
    requires id.LogId? && Settled(states[i].books, id)
    ensures Settled(states[j].books, id) && id !in states[j].books.store.pending
  {
    RunHistory(codec, states, steps, i, j);
    var k :| 0 <= k < |states[i].books.settled| && states[i].books.settled[k].id == id;
    assert states[j].books.settled[k].id == id;
    RunKeeps(codec, states, steps, j);
  }

  // ------------------------------------------------- freshness at delivery

  /** The line of `id` is the last of its log and equal to its record's snapshot. */
  predicate IsLatest(codec: Codec, world: World, id: EventId) {
    && id.LogId? && Filed(world, id.path) && world.logs[id.path] != []
    && LastLine(world.logs[id.path], 0) == Line(id.offset, id.text)
    && codec.decode(id.text) == Some(world.snapshots[id.path].current)
  }

  lemma MatchIsLatest(codec: Codec, world: World, b: Books, e: Event)
    requires BooksOk(codec, world, b) && HeldOk(codec, world, b, e) && Matches(codec, world, e) == Ok(true)
    ensures IsLatest(codec, world, e.id)
  {
    MatchMeansLatest(codec, world, e);
  }

  lemma {:induction false} LineIsReadable(codec: Codec, log: Bytes, c: nat, offset: nat)
    requires c <= offset < |log| && (c == offset || log[offset - 1] == LF) && AllReadable(codec, log, c)
    ensures codec.utf8(Text(log, offset)) && codec.decode(Text(log, offset)).Some?
    decreases |log| - c
  {
    if offset == c {
    } else {
      LineIsReadable(codec, log, LineEnd(log, c), offset);
    }
  }

  /** While its record is in step and unrenamed, a pending event matches exactly if its line is the latest. */
  lemma MatchesExactly(codec: Codec, world: World, b: Books, e: Event)
    requires e.id.LogId? && EventOk(codec, world, b, e.id, e) && Filed(world, e.source)
    requires PairValid(codec, world.logs[e.source], world.snapshots[e.source])
    requires e.identity == world.snapshots[e.source].identity
    ensures Matches(codec, world, e) == Ok(IsLatest(codec, world, e.id))
  {
    var log := world.logs[e.source];
    LineIsReadable(codec, log, 0, e.offset);
    LastLineText(log, 0);
  }

  /**
   A direct delivery settles one event more than it superseded, and prompts a line only
   while it is the latest of its record.
   */
  lemma DirectIsLatest(codec: Codec, states: seq<Sys>, steps: seq<Step>, i: nat) returns (e: Event)
    requires Run(codec, states, steps) && i < |steps| && steps[i] == DirectSettle
    ensures states[i + 1].books.settled == states[i].work.value.settled + [Settlement(e.id, Direct)]
    ensures IsNext(states[i].work.value.store, e)
    ensures e.id.LogId? ==> IsLatest(codec, states[i].world, e.id)
  {
    RunKeeps(codec, states, steps, i);
    assert Delivery.Next(codec, states[i], DirectSettle, states[i + 1]);
    e := DirectTakesNext(codec, states[i], states[i + 1]);
    if e.id.LogId? {
      CandidateHeld(codec, states[i].world, states[i].work.value, e);
      MatchIsLatest(codec, states[i].world, states[i].work.value, e);
    }
  }

  lemma DirectTakesNext(codec: Codec, s: Sys, s': Sys) returns (e: Event)
    requires Delivery.Next(codec, s, DirectSettle, s')
    ensures IsNext(s.work.value.store, e)
    ensures e.id.LogId? ==> Matches(codec, s.world, e) == Ok(true)
    ensures Settle(Woken(s.work.value), e.id, Direct, s'.books)
  {
    e :| e in s.work.value.store.pending.Values && DirectReady(codec, s.world, s.watch, s.work.value.store, e)
         && Settle(Woken(s.work.value), e.id, Direct, s'.books);
  }

  lemma SupersedeTakesNext(codec: Codec, s: Sys, s': Sys) returns (e: Event)
    requires Delivery.Next(codec, s, DirectSupersede, s')
    ensures IsNext(s.work.value.store, e) && e.id.LogId?
    ensures Settle(s.work.value, e.id, Superseded, s'.work.value)
  {
    e :| e in s.work.value.store.pending.Values && IsNext(s.work.value.store, e) && e.id.LogId?
         && Settle(s.work.value, e.id, Superseded, s'.work.value);
  }

  /** A line the watcher is about to mark was checked at an earlier step, and was the latest then. */
  lemma {:induction false} WatcherCheckedLatest(codec: Codec, states: seq<Sys>, steps: seq<Step>, i: nat)
    returns (j: nat)
    requires Run(codec, states, steps) && i < |states| && states[i].watch.Fresh?
    ensures j < i && steps[j] == WaitCheck
    ensures forall k | j < k <= i :: states[k].watch == states[i].watch
    ensures states[i].watch.event.id.LogId? ==> IsLatest(codec, states[j].world, states[i].watch.event.id)
  {
    assert i > 0;
    var s, s' := states[i - 1], states[i];
    assert Delivery.Next(codec, s, steps[i - 1], s');
    if s.watch == s'.watch {
      j := WatcherCheckedLatest(codec, states, steps, i - 1);
    } else {
      j := i - 1;
      CheckedIsHeld(codec, s, steps[j], s');
      RunKeeps(codec, states, steps, j);
      if s'.watch.event.id.LogId? {
        MatchIsLatest(codec, s.world, s.books, s'.watch.event);
      }
    }
  }

  lemma CheckedIsHeld(codec: Codec, s: Sys, step: Step, s': Sys)
    requires Delivery.Next(codec, s, step, s') && s'.watch.Fresh? && s.watch != s'.watch
    ensures step == WaitCheck && s.watch == Held(s'.watch.event)
    ensures s'.watch.event.id.LogId? ==> Matches(codec, s.world, s'.watch.event) == Ok(true)
  {
  }

  // --------------------------------------- freshness at the watcher's mark

  /** Step `j` is the check that the line marked in state `i` rests on. */
  predicate CheckOf(states: seq<Sys>, steps: seq<Step>, j: nat, i: nat) {
    && j < i < |states| && j < |steps| && steps[j] == WaitCheck && states[i].watch.Fresh?
    && forall k | j < k <= i :: states[k].watch == states[i].watch
  }

  /** Step `m` appends to the log of a record, be it a whole line or part of one. */
  predicate Appends(states: seq<Sys>, m: nat, path: string) {
    && m + 1 < |states| && path in states[m].world.logs
    && (path in states[m + 1].world.logs ==> states[m + 1].world.logs[path] != states[m].world.logs[path])
  }

  /** From state `j` to state `i` nothing is appended to a record's log, and its snapshot stays what it is. */
  predicate Undisturbed(states: seq<Sys>, j: nat, i: nat, path: string)
    requires j < |states| && i < |states|
  {
    && (forall m: nat | j <= m < i :: !Appends(states, m, path))
    && path in states[j].world.snapshots && path in states[i].world.snapshots
    && states[i].world.snapshots[path].current == states[j].world.snapshots[path].current
  }

  lemma StepGrows(codec: Codec, s: Sys, step: Step, s': Sys)
    requires Delivery.Next(codec, s, step, s')
    ensures Grows(s.world, s'.world)
  {
  }

  /** A log is the same later exactly if no step in between has appended to it. */
  lemma {:induction false} LogKeptExactly(codec: Codec, states: seq<Sys>, steps: seq<Step>, j: nat, i: nat,
                                          path: string)
    requires Run(codec, states, steps) && j <= i < |states| && path in states[j].world.logs
    ensures path in states[i].world.logs && states[j].world.logs[path] <= states[i].world.logs[path]
    ensures states[j].world.logs[path] == states[i].world.logs[path] <==> forall m: nat | j <= m < i ::
            !Appends(states, m, path)
    decreases i
  {
    if i == j {
    } else {
      LogKeptExactly(codec, states, steps, j, i - 1, path);
      assert Delivery.Next(codec, states[i - 1], steps[i - 1], states[i]);
      StepGrows(codec, states[i - 1], steps[i - 1], states[i]);
      var log, before, after := states[j].world.logs[path], states[i - 1].world.logs[path], states[i].world.logs[path];
      assert Appends(states, i - 1, path) <==> before != after;
      assert log == after ==> log == before;
    }
  }

  lemma {:induction false} LastLineEnds(log: Bytes, c: nat)
    requires c < |log|
    ensures LineEnd(log, LastLine(log, c).offset) == |log|
    decreases |log| - c
  {
    if LineEnd(log, c) == |log| {
    } else {
      LastLineEnds(log, LineEnd(log, c));
    }
  }

  /** Behind a whole last line, whatever is appended starts another line. */
  lemma AppendedIsLater(log: Bytes, grown: Bytes)
    requires log != [] && log <= grown && Whole(log, LastLine(log, 0).offset)
    ensures log != grown ==> LastLine(grown, 0).offset > LastLine(log, 0).offset
  {
    LastLineEnds(log, 0);
    if log != grown {
      LineBeforeLast(grown, 0, |log|);
    }
  }

  lemma CheckedIsWhole(codec: Codec, s: Sys, step: Step, s': Sys)
    requires Inv(codec, s) && Delivery.Next(codec, s, step, s') && s'.watch.Fresh? && s.watch != s'.watch
    requires s'.watch.event.id.LogId?
    ensures var id := s'.watch.event.id;
            IsLatest(codec, s.world, id) && Whole(s.world.logs[id.path], id.offset)
  {
    CheckedIsHeld(codec, s, step, s');
    MatchIsLatest(codec, s.world, s.books, s'.watch.event);
  }

  /**
   The mark comes after the check: the line is still the latest then if and only if in
   between nothing was appended to its log, not even part of a line, and its record's
   snapshot is what it was.
   */
  lemma LatestAtMarkExactly(codec: Codec, states: seq<Sys>, steps: seq<Step>, j: nat, i: nat)
    requires Run(codec, states, steps) && CheckOf(states, steps, j, i) && states[i].watch.event.id.LogId?
    ensures IsLatest(codec, states[j].world, states[i].watch.event.id)
    ensures IsLatest(codec, states[i].world, states[i].watch.event.id)
       <==> Undisturbed(states, j, i, states[i].watch.event.id.path)
  {
    var id := states[i].watch.event.id;
    assert states[j + 1].watch == states[i].watch;
    RunKeeps(codec, states, steps, j);
    assert Delivery.Next(codec, states[j], steps[j], states[j + 1]);
    CheckedIsWhole(codec, states[j], steps[j], states[j + 1]);
    LogKeptExactly(codec, states, steps, j, i, id.path);
    AppendedIsLater(states[j].world.logs[id.path], states[i].world.logs[id.path]);
  }

  /** The watcher marks a log line. */
  predicate MarksLine(s: Sys, step: Step) { step == WaitMark && s.watch.Fresh? && s.watch.event.id.LogId? }

  /**
   Over a whole run, every line that the watcher marks is the latest of its record at the
   mark if and only if no record was disturbed between a check and its mark.
   */
  lemma MarkedLatestExactly(codec: Codec, states: seq<Sys>, steps: seq<Step>)
    requires Run(codec, states, steps)
    ensures (forall i: nat | i < |steps| && MarksLine(states[i], steps[i]) ::
               IsLatest(codec, states[i].world, states[i].watch.event.id))
       <==> (forall j: nat, i: nat | CheckOf(states, steps, j, i) && i < |steps| && MarksLine(states[i], steps[i]) ::
               Undisturbed(states, j, i, states[i].watch.event.id.path))
  {
    forall j: nat, i: nat | CheckOf(states, steps, j, i) && i < |steps| && MarksLine(states[i], steps[i])
      ensures IsLatest(codec, states[i].world, states[i].watch.event.id)
         <==> Undisturbed(states, j, i, states[i].watch.event.id.path)
    {
      LatestAtMarkExactly(codec, states, steps, j, i);
    }
    forall i: nat | i < |steps| && MarksLine(states[i], steps[i])
      ensures exists j: nat :: CheckOf(states, steps, j, i)
    {
      var j := WatcherCheckedLatest(codec, states, steps, i);
      assert CheckOf(states, steps, j, i);
    }
  }

  // ------------------------------------------------- outcomes that keep the candidate

  /**
   A direct delivery that does not prompt (disabled, watcher active, Shotcaller closed)
   has only superseded, and leaves its candidate the next one.
   */
  lemma KeepLeavesCandidate(codec: Codec, states: seq<Sys>, steps: seq<Step>, i: nat)
    requires Run(codec, states, steps) && i < |steps| && steps[i] == DirectKeep
    ensures WorkOk(states[i].books, states[i + 1].books)
    ensures forall e :: IsNext(states[i].work.value.store, e) ==> IsNext(states[i + 1].books.store, e)
  {
    RunHistory(codec, states, steps, i, i);
    assert Delivery.Next(codec, states[i], steps[i], states[i + 1]);
  }

  // ------------------------------------------------- settled at most once

  /** No log line has been settled twice, on whatever channels. */
  predicate SettledOnce(b: Books) {
    forall i, j | 0 <= i < j < |b.settled| && b.settled[i].id.LogId? :: b.settled[i].id != b.settled[j].id
  }

  /** The watcher marks a line that is neither pending nor remembered by the table. */
  predicate MarksStale(codec: Codec, s: Sys, step: Step) {
    && (step == WaitMark || step == WaitCheck)
    && (step == WaitMark ==> s.watch.Fresh?)
    && (step == WaitCheck ==> s.watch.Held? && Matches(codec, s.world, s.watch.event) == Ok(false))
    && var id := s.watch.event.id;
       id.LogId? && id !in s.books.store.pending && id !in s.books.store.delivered
  }

  /** A direct delivery in progress has added no repetition. */
  predicate WorkOnce(s: Sys) {
    s.work.Some? ==> (SettledOnce(s.books) <==> SettledOnce(s.work.value))
  }

  /** One more settlement repeats a line exactly when that line was settled before. */
  lemma MarkOnce(b: Books, id: EventId, channel: Channel, b': Books)
    requires Settle(b, id, channel, b')
    ensures SettledOnce(b') <==> SettledOnce(b) && !(id.LogId? && Settled(b, id))
  {
    SettleHistory(b, id, channel, b');
    var n := |b.settled|;
    if SettledOnce(b') {
      forall i, j | 0 <= i < j < n && b.settled[i].id.LogId?
        ensures b.settled[i].id != b.settled[j].id
      {
        assert b'.settled[i].id != b'.settled[j].id;
      }
      forall i | id.LogId? && 0 <= i < n
        ensures b.settled[i].id != id
      {
        assert b'.settled[i].id != b'.settled[n].id;
      }
    }
  }

  lemma SameOnce(b: Books, b': Books)
    requires b'.settled == b.settled
    ensures SettledOnce(b) <==> SettledOnce(b')
  {
  }

  /** A consumed line is settled exactly when it is not pending. */
  lemma StaleIsSettled(codec: Codec, world: World, b: Books, id: EventId)
    requires BooksOk(codec, world, b) && Consumed(codec, world, b, id)
    ensures Settled(b, id) <==> id !in b.store.pending
  {
    if Settled(b, id) {
      var k :| 0 <= k < |b.settled| && b.settled[k].id == id;
    }
  }

  /** The watcher's mark repeats a line exactly when it finds it neither pending nor in the table. */
  lemma HeldOnce(codec: Codec, world: World, b: Books, e: Event, channel: Channel, b': Books)
    requires BooksOk(codec, world, b) && (e.id.LogId? ==> Consumed(codec, world, b, e.id))
    requires Mark(b, e.id, channel, b')
    ensures SettledOnce(b') <==>
              SettledOnce(b) && !(e.id.LogId? && e.id !in b.store.pending && e.id !in b.store.delivered)
  {
    if e.id.LogId? {
      StaleIsSettled(codec, world, b, e.id);
    }
    if e.id !in b.store.delivered {
      MarkOnce(b, e.id, channel, b');
    }
  }

  lemma WatcherOnce(codec: Codec, s: Sys, step: Step, s': Sys)
    requires Inv(codec, s) && WorkOnce(s) && (step == WaitCheck || step == WaitMark)
    requires Delivery.Next(codec, s, step, s')
    ensures WorkOnce(s')
    ensures SettledOnce(s'.books) <==> SettledOnce(s.books) && !MarksStale(codec, s, step)
  {
    var e := s.watch.event;
    if step == WaitMark {
      HeldOnce(codec, s.world, s.books, e, Watcher, s'.books);
    } else if e.id.LogId? && Matches(codec, s.world, e) == Ok(false) {
      HeldOnce(codec, s.world, s.books, e, Superseded, s'.books);
    }
  }

  lemma DirectOnce(codec: Codec, s: Sys, step: Step, s': Sys)
    requires Inv(codec, s) && WorkOnce(s) && (step == DirectSupersede || step == DirectSettle)
    requires Delivery.Next(codec, s, step, s')
    ensures WorkOnce(s')
    ensures SettledOnce(s'.books) <==> SettledOnce(s.books)
  {
    var b := s.work.value;
    if step == DirectSupersede {
      var e := SupersedeTakesNext(codec, s, s');
      CandidateHeld(codec, s.world, b, e);
      StaleIsSettled(codec, s.world, b, e.id);
      MarkOnce(b, e.id, Superseded, s'.work.value);
    } else {
      var e := DirectTakesNext(codec, s, s');
      CandidateHeld(codec, s.world, b, e);
      if e.id.LogId? {
        StaleIsSettled(codec, s.world, b, e.id);
      }
      SameOnce(b, Woken(b));
      MarkOnce(Woken(b), e.id, Direct, s'.books);
    }
  }

  lemma OtherOnce(codec: Codec, s: Sys, step: Step, s': Sys)
    requires WorkOnce(s) && Delivery.Next(codec, s, step, s')
    requires step !in {WaitCheck, WaitMark, DirectSupersede, DirectSettle}
    ensures WorkOnce(s')
    ensures SettledOnce(s'.books) <==> SettledOnce(s.books)
  {
    if step == DirectKeep {
      SameOnce(s.work.value, s'.books);
    } else {
      SameOnce(s.books, s'.books);
      if step == DirectBegin {
        SameOnce(s.books, s'.work.value);
      }
    }
  }

  lemma StepOnce(codec: Codec, s: Sys, step: Step, s': Sys)
    requires Inv(codec, s) && WorkOnce(s) && Delivery.Next(codec, s, step, s')
    ensures WorkOnce(s')
    ensures SettledOnce(s'.books) <==> SettledOnce(s.books) && !MarksStale(codec, s, step)
  {
    if step == WaitCheck || step == WaitMark {
      WatcherOnce(codec, s, step, s');
    } else if step == DirectSupersede || step == DirectSettle {
      DirectOnce(codec, s, step, s');
    } else {
      OtherOnce(codec, s, step, s');
    }
  }

  /**
   The exact condition: log lines have been settled at most once if and only if no
   watcher mark so far found its line neither pending nor in the table.
   */
  lemma {:induction false} SettledOnceExactly(codec: Codec, states: seq<Sys>, steps: seq<Step>, n: nat)
    requires Run(codec, states, steps) && n < |states|
    ensures SettledOnce(states[n].books) <==> forall i | 0 <= i < n :: !MarksStale(codec, states[i], steps[i])
    ensures WorkOnce(states[n])
  {
    if n == 0 {
    } else {
      SettledOnceExactly(codec, states, steps, n - 1);
      RunKeeps(codec, states, steps, n - 1);
      StepOnce(codec, states[n - 1], steps[n - 1], states[n]);
    }
  }
}
