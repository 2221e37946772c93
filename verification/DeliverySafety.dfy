/**
 What every run of the delivery state machine keeps. `BooksOk` is the invariant of the
 durable state (and of the copy a direct delivery works on); `WatchOk` is that of the
 watcher process.
 */
module DeliverySafety {
  import opened Prelude
  import opened UpdateLog
  import opened UpdateReader
  import opened Delivery

  // ------------------------------------------------------------- invariants

  /** The id names a whole line of a log. */
  predicate LineId(world: World, id: EventId) {
    id.LogId? && id.path in world.logs && IsLine(world.logs[id.path], id.offset, id.text)
  }

  /** The id names a line the reader has passed. */
  predicate Passed(world: World, b: Books, id: EventId) {
    LineId(world, id) && id.path in b.store.offsets && id.offset < b.store.offsets[id.path]
  }

  function Base(b: Books, path: string): nat { if path in b.base then b.base[path] else 0 }

  predicate MaterialId(codec: Codec, id: EventId) {
    id.LogId? && codec.decode(id.text).Some? && Material(codec.decode(id.text).value)
  }

  /** A material line that the reader has passed since the baseline. */
  predicate Consumed(codec: Codec, world: World, b: Books, id: EventId) {
    Passed(world, b, id) && MaterialId(codec, id) && Base(b, id.path) <= id.offset
  }

  /** The id has been settled at some time. */
  predicate Settled(b: Books, id: EventId) {
    exists i | 0 <= i < |b.settled| :: b.settled[i].id == id
  }

  /** The i-th settlement delivered a line, by the watcher or by a direct prompt. */
  predicate Delivers(b: Books, i: nat)
    requires i < |b.settled|
  {
    b.settled[i].id.LogId? && b.settled[i].channel != Superseded
  }

  predicate CursorsOk(world: World, b: Books) {
    && (forall p <- b.store.offsets :: p in world.logs && Boundary(world.logs[p], b.store.offsets[p]))
    && (forall p <- b.base :: p in b.store.offsets && b.base[p] <= b.store.offsets[p])
    && (!b.store.initialized ==> b.store.offsets == map[] && b.store.pending == map[] && b.settled == [])
  }

  predicate SeenOk(b: Books) {
    forall id <- b.store.seen :: id.LogId? ==> id.path in b.store.offsets && id.offset < b.store.offsets[id.path]
  }

  /** A pending event is keyed by its id, and a log event carries its line. */
  predicate EventOk(codec: Codec, world: World, b: Books, id: EventId, e: Event) {
    && e.id == id
    && (id.LogId? ==>
        && Consumed(codec, world, b, id)
        && e.source == id.path && e.offset == id.offset && codec.decode(id.text) == Some(e.body))
  }

  predicate PendingOk(codec: Codec, world: World, b: Books) {
    forall id <- b.store.pending :: EventOk(codec, world, b, id, b.store.pending[id])
  }

  predicate SettledOk(codec: Codec, world: World, b: Books) {
    forall i | 0 <= i < |b.settled| && b.settled[i].id.LogId? ::
      b.settled[i].id !in b.store.pending && Consumed(codec, world, b, b.settled[i].id)
  }

  predicate TableOk(b: Books) {
    forall id <- b.store.delivered :: Settled(b, id) && id !in b.store.pending
  }

  /** Every material line passed since the baseline is pending or has been settled. */
  ghost predicate Conserved(codec: Codec, world: World, b: Books) {
    forall id: EventId ::
      Consumed(codec, world, b, id) ==> id in b.store.pending || Settled(b, id)
  }

  /** Delivered lines of one record are in the order of its log, so none is delivered twice. */
  predicate OrderOk(b: Books) {
    forall i, j | 0 <= i < j < |b.settled| ::
      Delivers(b, i) && Delivers(b, j) && b.settled[i].id.path == b.settled[j].id.path ==>
        b.settled[i].id.offset < b.settled[j].id.offset
  }

  /** A superseded line has a later line behind it. */
  predicate SupersededOk(world: World, b: Books) {
    forall i | 0 <= i < |b.settled| && b.settled[i].id.LogId? && b.settled[i].channel == Superseded ::
      HasLater(world, b.settled[i].id)
  }

  predicate HasLater(world: World, id: EventId) {
    id.LogId? && id.path in world.logs && world.logs[id.path] != [] &&
    id.offset < LastLine(world.logs[id.path], 0).offset
  }

  ghost predicate BooksOk(codec: Codec, world: World, b: Books) {
    && CursorsOk(world, b)
    && SeenOk(b)
    && PendingOk(codec, world, b)
    && SettledOk(codec, world, b)
    && TableOk(b)
    && Conserved(codec, world, b)
    && OrderOk(b)
    && SupersededOk(world, b)
  }

  /** Every delivered line of the record lies before the line of `id`. */
  predicate BeforeAll(b: Books, id: EventId) {
    id.LogId? ==>
      forall i | 0 <= i < |b.settled| && Delivers(b, i) && b.settled[i].id.path == id.path ::
        b.settled[i].id.offset < id.offset
  }

  /** No delivery has the line of `id`. */
  predicate NotDelivered(b: Books, id: EventId) {
    forall i | 0 <= i < |b.settled| && Delivers(b, i) :: b.settled[i].id != id
  }

  /**
   A running watcher has set the flag; what it holds is a passed line that has not been
   delivered; and once it has checked it, every delivered line lies before it.
   */
  predicate WatchOk(codec: Codec, world: World, b: Books, watch: Watch) {
    && (watch != NoWatch ==> b.store.waitActive)
    && (watch.Held? || watch.Fresh? ==> b.store.initialized)
    && (watch.Held? ==>
          NotDelivered(b, watch.event.id) && (watch.event.id.LogId? ==> HeldOk(codec, world, b, watch.event)))
    && (watch.Fresh? ==>
          BeforeAll(b, watch.event.id) && (watch.event.id.LogId? ==> HeldOk(codec, world, b, watch.event)))
  }

  predicate HeldOk(codec: Codec, world: World, b: Books, e: Event) {
    && Consumed(codec, world, b, e.id)
    && e.source == e.id.path && e.offset == e.id.offset
  }

  ghost predicate Inv(codec: Codec, s: Sys) {
    && BooksOk(codec, s.world, s.books)
    && WatchOk(codec, s.world, s.books, s.watch)
    && (s.work.Some? ==>
        && BooksOk(codec, s.world, s.work.value) && WatchOk(codec, s.world, s.work.value, s.watch)
        && s.work.value.store.initialized)
  }

  // ------------------------------------------------------------ log growth

  /** A line that ended before a boundary of the old log was there already. */
  lemma IsLineShrinks(log: Bytes, grown: Bytes, c: nat, offset: nat, text: Bytes)
    requires log <= grown && Boundary(log, c) && offset < c && IsLine(grown, offset, text)
    ensures IsLine(log, offset, text)
  {
    var e := LineEnd(log, offset);
    assert log[c - 1] == LF;
    if e == |log| && log[e - 1] != LF {
      assert false;
    }
    EndStable(log, grown, offset);
    assert grown[offset..e] == log[offset..e];
  }

  lemma PassedGrows(w: World, w': World, b: Books, id: EventId)
    requires Grows(w, w') && CursorsOk(w, b)
    ensures Passed(w, b, id) <==> Passed(w', b, id)
  {
    if id.LogId? && id.path in b.store.offsets && id.offset < b.store.offsets[id.path] {
      var log, grown := w.logs[id.path], w'.logs[id.path];
      if IsLine(log, id.offset, id.text) {
        IsLineGrows(log, grown, id.offset, id.text);
      }
      if IsLine(grown, id.offset, id.text) {
        IsLineShrinks(log, grown, b.store.offsets[id.path], id.offset, id.text);
      }
    }
  }

  lemma HasLaterGrows(w: World, w': World, id: EventId)
    requires Grows(w, w') && HasLater(w, id)
    ensures HasLater(w', id)
  {
    LastLineGrows(w.logs[id.path], w'.logs[id.path], 0);
  }

  lemma BooksGrow(codec: Codec, w: World, w': World, b: Books)
    requires Grows(w, w') && BooksOk(codec, w, b)
    ensures BooksOk(codec, w', b)
  {
    forall id
      ensures Passed(w, b, id) <==> Passed(w', b, id)
    {
      PassedGrows(w, w', b, id);
    }
    forall i | 0 <= i < |b.settled| && b.settled[i].id.LogId? && b.settled[i].channel == Superseded
      ensures HasLater(w', b.settled[i].id)
    {
      HasLaterGrows(w, w', b.settled[i].id);
    }
    assert PendingOk(codec, w', b) by {
      forall id | id in b.store.pending
        ensures EventOk(codec, w', b, id, b.store.pending[id])
      {
        assert EventOk(codec, w, b, id, b.store.pending[id]);
      }
    }
  }

  lemma WatchGrows(codec: Codec, w: World, w': World, b: Books, watch: Watch)
    requires Grows(w, w') && BooksOk(codec, w, b) && WatchOk(codec, w, b, watch)
    ensures WatchOk(codec, w', b, watch)
  {
    if watch.Held? || watch.Fresh? {
      PassedGrows(w, w', b, watch.event.id);
    }
  }

  // ----------------------------------------------------------------- scans

  /** Enqueuing keeps what is pending and adds exactly the events not in the table. */
  lemma {:induction false} EnqueueAdds(pending: map<EventId, Event>, delivered: map<EventId, Channel>,
                                       events: seq<Event>)
    ensures var r := Enqueue(pending, delivered, events);
            && (forall id <- pending :: id in r)
            && (forall e <- events :: e.id in delivered || e.id in r)
            && (forall id <- r :: (id in pending && r[id] == pending[id]) || (r[id] in events && r[id].id == id))
    decreases |events|
  {
    if events == [] {
    } else {
      var e, rest := events[0], events[1..];
      var next := if e.id in delivered then pending else pending[e.id := e];
      EnqueueAdds(next, delivered, rest);
      var r := Enqueue(pending, delivered, events);
      assert r == Enqueue(next, delivered, rest);
      assert events == [e] + rest;
      forall x | x in events
        ensures x.id in delivered || x.id in r
      {
        assert x == e || x in rest;
        assert e.id in delivered || e.id in next;
      }
      forall id | id in r
        ensures (id in pending && r[id] == pending[id]) || (r[id] in events && r[id].id == id)
      {
        assert (id in next && r[id] == next[id]) || (r[id] in rest && r[id].id == id);
      }
    }
  }

  /** What one record's read contributes, in terms of its log. */
  lemma ReadFacts(codec: Codec, world: World, path: string, b: Books)
    requires Filed(world, path) && CursorsOk(world, b) && SeenOk(b)
    requires ScanRecord(codec, world, path, b.store).Ok?
    ensures var log, c, s' := world.logs[path], Offset(b.store, path), ScanRecord(codec, world, path, b.store).value;
            && Boundary(log, c)
            && s'.offsets == b.store.offsets[path := UpdateLog.Next(log, c)]
            && Boundary(log, UpdateLog.Next(log, c))
            && s'.pending == Enqueue(b.store.pending, b.store.delivered,
                                     FreshEvents(codec, path, world.snapshots[path].identity, Lines(log, c)))
            && (forall id <- s'.seen :: id.LogId? ==>
                  if id.path == path then id.offset < UpdateLog.Next(log, c) else id in b.store.seen)
  {
    var log, c, who := world.logs[path], Offset(b.store, path), world.snapshots[path].identity;
    assert SeenBefore(b.store.seen, path, c);
    ReadIsOneRead(codec, path, who, log, c, b.store.seen);
    NextIsBoundary(log, c);
    var r := ReadFrom(codec, path, who, log, c, b.store.seen).value;
    forall id | id in r.gathered.seen
      ensures id in b.store.seen || (id.LogId? && id.path == path)
    {
      ReadAddsOwnIds(codec, path, who, log, StartAt(log, c), Gathered([], b.store.seen, false), id);
    }
  }

  /** A later cursor keeps every passed line passed. */
  lemma PassedStays(world: World, b: Books, b': Books, id: EventId)
    requires forall p <- b.store.offsets :: p in b'.store.offsets && b.store.offsets[p] <= b'.store.offsets[p]
    requires Passed(world, b, id)
    ensures Passed(world, b', id)
  {
  }

  /** The lines that one read passes. */
  predicate NewlyPassed(world: World, b: Books, path: string, id: EventId)
    requires Filed(world, path)
  {
    && LineId(world, id) && id.path == path
    && Offset(b.store, path) <= id.offset < UpdateLog.Next(world.logs[path], Offset(b.store, path))
  }

  lemma NewLineConsumed(codec: Codec, world: World, path: string, b: Books, b': Books, l: Line)
    requires Filed(world, path) && CursorsOk(world, b)
    requires b'.store.offsets == b.store.offsets[path := UpdateLog.Next(world.logs[path], Offset(b.store, path))]
    requires b'.base == b.base
    requires IsLine(world.logs[path], l.offset, l.text) && codec.decode(l.text).Some?
             && Material(codec.decode(l.text).value)
    requires Offset(b.store, path) <= l.offset < UpdateLog.Next(world.logs[path], Offset(b.store, path))
    ensures Consumed(codec, world, b', LogId(path, l.offset, l.text))
    ensures NewlyPassed(world, b, path, LogId(path, l.offset, l.text))
  {
  }

  /** A pending event after the read was pending before, or is that of a newly passed material line. */
  lemma ReadPending(codec: Codec, world: World, path: string, b: Books, b': Books, id: EventId)
    requires Filed(world, path) && CursorsOk(world, b) && SeenOk(b)
    requires ScanRecord(codec, world, path, b.store) == Ok(b'.store) && b' == b.(store := b'.store)
    requires id in b'.store.pending
    ensures || (id in b.store.pending && b'.store.pending[id] == b.store.pending[id])
            || (NewlyPassed(world, b, path, id) && EventOk(codec, world, b', id, b'.store.pending[id]))
  {
    ReadFacts(codec, world, path, b);
    var log, c, who := world.logs[path], Offset(b.store, path), world.snapshots[path].identity;
    var events := FreshEvents(codec, path, who, Lines(log, c));
    EnqueueAdds(b.store.pending, b.store.delivered, events);
    if !(id in b.store.pending && b'.store.pending[id] == b.store.pending[id]) {
      var l := FreshEventHasLine(codec, path, who, Lines(log, c), b'.store.pending[id]);
      LinesAreLines(log, c, l);
      NewLineConsumed(codec, world, path, b, b', l);
    }
  }

  /** A newly passed material line is pending after the read. */
  lemma ReadQueues(codec: Codec, world: World, path: string, b: Books, b': Books, id: EventId)
    requires Filed(world, path) && BooksOk(codec, world, b)
    requires ScanRecord(codec, world, path, b.store) == Ok(b'.store) && b' == b.(store := b'.store)
    requires NewlyPassed(world, b, path, id) && MaterialId(codec, id)
    ensures id in b'.store.pending
  {
    ReadFacts(codec, world, path, b);
    var log, c, who := world.logs[path], Offset(b.store, path), world.snapshots[path].identity;
    var events := FreshEvents(codec, path, who, Lines(log, c));
    EnqueueAdds(b.store.pending, b.store.delivered, events);
    LinesAreAll(log, c, id.offset, id.text);
    LineHasFreshEvent(codec, path, who, Lines(log, c), Line(id.offset, id.text));
  }

  lemma ScanRecordOk(codec: Codec, world: World, path: string, b: Books, b': Books)
    requires Filed(world, path) && BooksOk(codec, world, b) && b.store.initialized
    requires ScanRecord(codec, world, path, b.store) == Ok(b'.store) && b' == b.(store := b'.store)
    ensures BooksOk(codec, world, b')
    ensures forall p <- b.store.offsets :: p in b'.store.offsets && b.store.offsets[p] <= b'.store.offsets[p]
  {
    ReadFacts(codec, world, path, b);
    assert forall id :: Settled(b, id) <==> Settled(b', id);
    forall id | Passed(world, b, id)
      ensures Passed(world, b', id)
    {
      PassedStays(world, b, b', id);
    }
    forall id | id in b'.store.pending
      ensures EventOk(codec, world, b', id, b'.store.pending[id])
      ensures id in b.store.pending || NewlyPassed(world, b, path, id)
    {
      ReadPending(codec, world, path, b, b', id);
      if id in b.store.pending {
        assert EventOk(codec, world, b, id, b.store.pending[id]);
      }
    }
    forall id | Consumed(codec, world, b', id)
      ensures id in b'.store.pending || Settled(b', id)
    {
      EnqueueAdds(b.store.pending, b.store.delivered,
        FreshEvents(codec, path, world.snapshots[path].identity, Lines(world.logs[path], Offset(b.store, path))));
      if !Passed(world, b, id) {
        ReadQueues(codec, world, path, b, b', id);
      }
    }
    assert SettledOk(codec, world, b');
  }

  lemma {:induction false} ScanRecordsOk(codec: Codec, world: World, paths: seq<string>, b: Books, b': Books)
    requires forall p <- paths :: Filed(world, p)
    requires BooksOk(codec, world, b) && b.store.initialized
    requires ScanRecords(codec, world, paths, b.store) == Ok(b'.store) && b' == b.(store := b'.store)
    ensures BooksOk(codec, world, b')
    ensures forall p <- b.store.offsets :: p in b'.store.offsets && b.store.offsets[p] <= b'.store.offsets[p]
    ensures b'.store.delivered == b.store.delivered
    ensures b'.store.waitActive == b.store.waitActive && b'.store.initialized
    decreases |paths|
  {
    if paths == [] {
    } else {
      var mid := b.(store := ScanRecord(codec, world, paths[0], b.store).value);
      ScanRecordOk(codec, world, paths[0], b, mid);
      ScanRecordsOk(codec, world, paths[1..], mid, b');
    }
  }

  /** The part of the invariant that the baseline's loop builds up. */
  predicate ReadersOk(world: World, s: Store) {
    && (forall p <- s.offsets :: p in world.logs && Boundary(world.logs[p], s.offsets[p]))
    && (forall id <- s.seen :: id.LogId? ==> id.path in s.offsets && id.offset < s.offsets[id.path])
  }

  lemma {:induction false} BaselineOk(codec: Codec, world: World, paths: seq<string>, s: Store, s': Store)
    requires forall p <- paths :: Filed(world, p)
    requires NoDuplicates(paths)
    requires ReadersOk(world, s) && forall p <- paths :: p !in s.offsets
    requires BaselineRecords(codec, world, paths, s) == Ok(s')
    ensures ReadersOk(world, s') && s'.delivered == s.delivered && s'.waitActive == s.waitActive
    decreases |paths|
  {
    if paths == [] {
    } else {
      assert Filed(world, paths[0]);
      var p, log, who := paths[0], world.logs[paths[0]], world.snapshots[paths[0]].identity;
      ReadIsOneRead(codec, p, who, log, 0, s.seen);
      NextIsBoundary(log, 0);
      var r := ReadFrom(codec, p, who, log, 0, s.seen).value;
      forall id | id in r.gathered.seen
        ensures id in s.seen || (id.LogId? && id.path == p)
      {
        ReadAddsOwnIds(codec, p, who, log, StartAt(log, 0), Gathered([], s.seen, false), id);
      }
      var mid := BaselineRecord(codec, world, p, s).value;
      forall q | q in paths[1..]
        ensures q !in mid.offsets
      {
        var j :| 0 <= j < |paths[1..]| && paths[1..][j] == q;
        assert paths[0] != paths[j + 1];
      }
      BaselineOk(codec, world, paths[1..], mid, s');
    }
  }

  /** A scan that commits keeps the invariant, forgets no cursor and moves none back. */
  lemma ScanOk(codec: Codec, world: World, b: Books, b': Books)
    requires BooksOk(codec, world, b) && ScanStep(codec, world, b, b')
    ensures BooksOk(codec, world, b')
    ensures forall id: EventId :: Passed(world, b, id) ==> Passed(world, b', id)
    ensures b'.settled == b.settled && b'.store.waitActive == b.store.waitActive && b'.store.initialized
    ensures b.store.initialized ==> b'.base == b.base
  {
    if b.store.initialized {
      var full := b.(store := ScanRecords(codec, world, world.active, b.store).value);
      ScanRecordsOk(codec, world, world.active, b, full);
      assert full.store.pending - full.store.delivered.Keys == full.store.pending;
      TrimOk(codec, world, full, b');
    } else {
      var start := b.store.(offsets := map[], seen := {});
      var read := BaselineRecords(codec, world, world.active, start).value;
      BaselineOk(codec, world, world.active, start, read);
      assert forall id :: !Settled(b, id);
    }
  }

  /** Forgetting part of the seen set keeps the invariant. */
  lemma TrimOk(codec: Codec, world: World, b: Books, b': Books)
    requires BooksOk(codec, world, b)
    requires b' == b.(store := b.store.(seen := b'.store.seen)) && b'.store.seen <= b.store.seen
    ensures BooksOk(codec, world, b')
    ensures forall id: EventId :: Passed(world, b, id) ==> Passed(world, b', id)
  {
    assert forall id :: Passed(world, b, id) <==> Passed(world, b', id);
    assert forall id :: Settled(b, id) <==> Settled(b', id);
    assert PendingOk(codec, world, b') by {
      forall id | id in b'.store.pending
        ensures EventOk(codec, world, b', id, b'.store.pending[id])
      {
        assert EventOk(codec, world, b, id, b.store.pending[id]);
      }
    }
  }

  // --------------------------------------------------------------- settling

  lemma SettleHistory(b: Books, id: EventId, channel: Channel, b': Books)
    requires Settle(b, id, channel, b')
    ensures forall i | 0 <= i < |b.settled| :: b'.settled[i] == b.settled[i] && Delivers(b', i) == Delivers(b, i)
    ensures b'.settled[|b.settled|] == Settlement(id, channel)
    ensures forall x: EventId :: Settled(b', x) <==> Settled(b, x) || x == id
  {
    var n := |b.settled|;
    assert b'.settled[n] == Settlement(id, channel);
    forall x: EventId
      ensures Settled(b', x) <==> Settled(b, x) || x == id
    {
      if i :| 0 <= i < n && b.settled[i].id == x {
        assert b'.settled[i].id == x;
      }
      if Settled(b', x) {
        var i :| 0 <= i < |b'.settled| && b'.settled[i].id == x;
        assert i < n ==> b.settled[i].id == x;
      }
    }
  }

  lemma SettlePending(codec: Codec, world: World, b: Books, id: EventId, channel: Channel, b': Books)
    requires PendingOk(codec, world, b) && Settle(b, id, channel, b')
    ensures PendingOk(codec, world, b')
  {
    forall x | x in b'.store.pending
      ensures EventOk(codec, world, b', x, b'.store.pending[x])
    {
      assert EventOk(codec, world, b, x, b.store.pending[x]);
    }
  }

  lemma SettleOrder(b: Books, id: EventId, channel: Channel, b': Books)
    requires OrderOk(b) && Settle(b, id, channel, b')
    requires channel != Superseded ==> BeforeAll(b, id)
    ensures OrderOk(b')
  {
    SettleHistory(b, id, channel, b');
  }

  lemma SettleConserves(codec: Codec, world: World, b: Books, id: EventId, channel: Channel, b': Books)
    requires Conserved(codec, world, b) && Settle(b, id, channel, b')
    ensures Conserved(codec, world, b')
  {
    SettleHistory(b, id, channel, b');
    forall x | Consumed(codec, world, b', x)
      ensures x in b'.store.pending || Settled(b', x)
    {
      assert Consumed(codec, world, b, x);
    }
  }

  lemma SettleMarks(codec: Codec, world: World, b: Books, id: EventId, channel: Channel, b': Books)
    requires SettledOk(codec, world, b) && SupersededOk(world, b) && TableOk(b) && Settle(b, id, channel, b')
    requires id.LogId? ==> Consumed(codec, world, b, id)
    requires channel == Superseded && id.LogId? ==> HasLater(world, id)
    ensures SettledOk(codec, world, b') && SupersededOk(world, b') && TableOk(b')
  {
    SettleHistory(b, id, channel, b');
    forall i | 0 <= i < |b'.settled| && b'.settled[i].id.LogId?
      ensures b'.settled[i].id !in b'.store.pending && Consumed(codec, world, b', b'.settled[i].id)
      ensures b'.settled[i].channel == Superseded ==> HasLater(world, b'.settled[i].id)
    {
      if i < |b.settled| {
        assert b.settled[i].id !in b.store.pending && Consumed(codec, world, b, b.settled[i].id);
      }
    }
  }

  /**
   A mark keeps the invariant when a log event it marks is a consumed line, a delivery
   comes after all deliveries of its record, and a superseded line has a later one
   behind it.
   */
  lemma SettleOk(codec: Codec, world: World, b: Books, id: EventId, channel: Channel, b': Books)
    requires BooksOk(codec, world, b) && Settle(b, id, channel, b') && b.store.initialized
    requires id.LogId? ==> Consumed(codec, world, b, id)
    requires channel != Superseded ==> BeforeAll(b, id)
    requires channel == Superseded && id.LogId? ==> HasLater(world, id)
    ensures BooksOk(codec, world, b')
    ensures forall x: EventId :: Passed(world, b, x) <==> Passed(world, b', x)
  {
    SettlePending(codec, world, b, id, channel, b');
    SettleOrder(b, id, channel, b');
    SettleMarks(codec, world, b, id, channel, b');
    SettleConserves(codec, world, b, id, channel, b');
  }

  // -------------------------------------------------------------- freshness

  /** A match means: the event's line is the last of its log, whole, and equal to the snapshot. */
  lemma MatchMeansLatest(codec: Codec, world: World, e: Event)
    requires Matches(codec, world, e) == Ok(true)
    ensures Filed(world, e.source) && Whole(world.logs[e.source], e.offset)
    ensures LastLine(world.logs[e.source], 0) == Line(e.offset, Text(world.logs[e.source], e.offset))
    ensures codec.decode(Text(world.logs[e.source], e.offset)) == Some(world.snapshots[e.source].current)
    ensures e.body == world.snapshots[e.source].current
  {
    LastLineText(world.logs[e.source], 0);
  }

  lemma {:induction false} LastLineText(log: Bytes, c: nat)
    requires c < |log|
    ensures LastLine(log, c).text == Text(log, LastLine(log, c).offset)
    decreases |log| - c
  {
    if LineEnd(log, c) == |log| {
    } else {
      LastLineText(log, LineEnd(log, c));
    }
  }

  lemma PassedBeforeLast(world: World, b: Books, id: EventId)
    requires Passed(world, b, id)
    ensures world.logs[id.path] != [] && id.offset <= LastLine(world.logs[id.path], 0).offset
  {
    LineBeforeLast(world.logs[id.path], 0, id.offset);
  }

  /** A fresh candidate lies behind every delivered line of its record. */
  lemma MatchIsBehindAll(codec: Codec, world: World, b: Books, e: Event)
    requires BooksOk(codec, world, b) && HeldOk(codec, world, b, e) && NotDelivered(b, e.id)
    requires Matches(codec, world, e) == Ok(true)
    ensures BeforeAll(b, e.id)
  {
    forall i | 0 <= i < |b.settled| && Delivers(b, i) && b.settled[i].id.path == e.id.path
      ensures b.settled[i].id.offset < e.id.offset
    {
      PassedBeforeLast(world, b, b.settled[i].id);
      SameLine(world, b, b.settled[i].id, e.id);
    }
  }

  /** A passed line is determined by its path and offset. */
  lemma SameLine(world: World, b: Books, x: EventId, y: EventId)
    requires Passed(world, b, x) && Passed(world, b, y)
    ensures x.path == y.path && x.offset == y.offset ==> x == y
  {
  }

  /** A candidate that no longer matches has a later line behind it. */
  lemma MismatchHasLater(codec: Codec, world: World, b: Books, e: Event)
    requires HeldOk(codec, world, b, e) && Matches(codec, world, e) == Ok(false)
    ensures HasLater(world, e.id)
  {
    PassedBeforeLast(world, b, e.id);
    LastLineText(world.logs[e.source], 0);
  }

  lemma CandidateHeld(codec: Codec, world: World, b: Books, e: Event)
    requires BooksOk(codec, world, b) && IsNext(b.store, e)
    ensures e.id.LogId? ==> HeldOk(codec, world, b, e)
    ensures NotDelivered(b, e.id)
  {
    assert EventOk(codec, world, b, e.id, e);
  }

  // ------------------------------------------------------------------ steps

  lemma GrowKeeps(codec: Codec, s: Sys, s': Sys)
    requires Inv(codec, s) && Delivery.Next(codec, s, Grow, s')
    ensures Inv(codec, s')
  {
    BooksGrow(codec, s.world, s'.world, s.books);
    WatchGrows(codec, s.world, s'.world, s.books, s.watch);
    if s.work.Some? {
      BooksGrow(codec, s.world, s'.world, s.work.value);
      WatchGrows(codec, s.world, s'.world, s.work.value, s.watch);
    }
  }

  /** Flags play no part in the invariant of the durable state. */
  lemma FlagsKeep(codec: Codec, world: World, b: Books, b': Books)
    requires BooksOk(codec, world, b)
    requires b' == b.(store := b.store.(waitActive := b'.store.waitActive, enabled := b'.store.enabled))
    ensures BooksOk(codec, world, b')
    ensures forall id: EventId :: Passed(world, b, id) <==> Passed(world, b', id)
  {
    assert forall id :: Passed(world, b, id) <==> Passed(world, b', id);
    assert forall id :: Settled(b, id) <==> Settled(b', id);
    assert PendingOk(codec, world, b') by {
      forall id | id in b'.store.pending
        ensures EventOk(codec, world, b', id, b'.store.pending[id])
      {
        assert EventOk(codec, world, b, id, b.store.pending[id]);
      }
    }
  }

  lemma WaitScanKeeps(codec: Codec, s: Sys, s': Sys)
    requires Inv(codec, s) && Delivery.Next(codec, s, WaitScan, s')
    ensures Inv(codec, s')
  {
    ScanOk(codec, s.world, s.books, s'.books);
    if s'.watch.Held? {
      CandidateHeld(codec, s.world, s'.books, s'.watch.event);
    }
  }

  lemma WaitCheckKeeps(codec: Codec, s: Sys, s': Sys)
    requires Inv(codec, s) && Delivery.Next(codec, s, WaitCheck, s')
    ensures Inv(codec, s')
  {
    var e := s.watch.event;
    if e.id.LogId? && Matches(codec, s.world, e) == Ok(true) {
      MatchIsBehindAll(codec, s.world, s.books, e);
      if s.work.Some? {
        MatchIsBehindAll(codec, s.world, s.work.value, e);
      }
    } else if e.id.LogId? && Matches(codec, s.world, e) == Ok(false) {
      MismatchHasLater(codec, s.world, s.books, e);
      if e.id !in s.books.store.delivered {
        SettleOk(codec, s.world, s.books, e.id, Superseded, s'.books);
      }
    }
  }

  lemma WaitMarkKeeps(codec: Codec, s: Sys, s': Sys)
    requires Inv(codec, s) && Delivery.Next(codec, s, WaitMark, s')
    ensures Inv(codec, s')
  {
    if s.watch.event.id !in s.books.store.delivered {
      SettleOk(codec, s.world, s.books, s.watch.event.id, Watcher, s'.books);
    }
  }

  /** Beginning and ending a wait change flags and the process only. */
  lemma WaitEdgeKeeps(codec: Codec, s: Sys, step: Step, s': Sys)
    requires step == WaitBegin || step == WaitEnd
    requires Inv(codec, s) && Delivery.Next(codec, s, step, s')
    ensures Inv(codec, s')
  {
    FlagsKeep(codec, s.world, s.books, s'.books);
  }

  lemma DirectBeginKeeps(codec: Codec, s: Sys, s': Sys)
    requires Inv(codec, s) && Delivery.Next(codec, s, DirectBegin, s')
    ensures Inv(codec, s')
  {
    ScanOk(codec, s.world, s.books, s'.work.value);
  }

  /** What a mark leaves of the watcher's part: everything but its claim on the marked event. */
  lemma SupersedeKeepsWatch(codec: Codec, world: World, b: Books, id: EventId, b': Books, watch: Watch)
    requires Settle(b, id, Superseded, b') && WatchOk(codec, world, b, watch)
    ensures WatchOk(codec, world, b', watch)
  {
    SettleHistory(b, id, Superseded, b');
  }

  lemma DirectSupersedeKeeps(codec: Codec, s: Sys, s': Sys)
    requires Inv(codec, s) && Delivery.Next(codec, s, DirectSupersede, s')
    ensures Inv(codec, s')
  {
    var b, b' := s.work.value, s'.work.value;
    var e :| e in b.store.pending.Values && IsNext(b.store, e) && e.id.LogId?
             && Matches(codec, s.world, e) == Ok(false) && Settle(b, e.id, Superseded, b');
    CandidateHeld(codec, s.world, b, e);
    MismatchHasLater(codec, s.world, b, e);
    SettleOk(codec, s.world, b, e.id, Superseded, b');
    SupersedeKeepsWatch(codec, s.world, b, e.id, b', s.watch);
  }

  lemma DirectSettleKeeps(codec: Codec, s: Sys, s': Sys)
    requires Inv(codec, s) && Delivery.Next(codec, s, DirectSettle, s')
    ensures Inv(codec, s')
  {
    var b := s.work.value;
    var e :| e in b.store.pending.Values && DirectReady(codec, s.world, s.watch, b.store, e)
             && Settle(Woken(b), e.id, Direct, s'.books);
    assert s.watch == NoWatch;
    FlagsKeep(codec, s.world, b, Woken(b));
    CandidateHeld(codec, s.world, Woken(b), e);
    if e.id.LogId? {
      MatchIsBehindAll(codec, s.world, Woken(b), e);
    }
    SettleOk(codec, s.world, Woken(b), e.id, Direct, s'.books);
  }

  lemma DirectEndKeeps(codec: Codec, s: Sys, step: Step, s': Sys)
    requires step == DirectKeep || step == DirectAbort
    requires Inv(codec, s) && Delivery.Next(codec, s, step, s')
    ensures Inv(codec, s')
  {
    if step == DirectKeep {
      FlagsKeep(codec, s.world, s.work.value, s'.books);
    }
  }

  lemma BaselineKeeps(codec: Codec, s: Sys, s': Sys)
    requires Inv(codec, s) && Delivery.Next(codec, s, EnsureBaseline, s')
    ensures Inv(codec, s')
  {
    ScanOk(codec, s.world, s.books, s'.books);
  }

  lemma QueueStallKeeps(codec: Codec, s: Sys, s': Sys)
    requires Inv(codec, s) && Delivery.Next(codec, s, QueueStall, s')
    ensures Inv(codec, s')
  {
    var b, b' := s.books, s'.books;
    assert forall id :: Passed(s.world, b, id) <==> Passed(s.world, b', id);
    assert forall id :: Settled(b, id) <==> Settled(b', id);
    assert PendingOk(codec, s.world, b') by {
      forall id | id in b'.store.pending
        ensures EventOk(codec, s.world, b', id, b'.store.pending[id])
      {
        assert id in b.store.pending ==> EventOk(codec, s.world, b, id, b.store.pending[id]);
      }
    }
    assert Conserved(codec, s.world, b');
  }

  lemma ControlKeeps(codec: Codec, s: Sys, s': Sys)
    requires Inv(codec, s) && Delivery.Next(codec, s, Control, s')
    ensures Inv(codec, s')
  {
    FlagsKeep(codec, s.world, s.books, s'.books);
  }

  /** Every step keeps the invariant. */
  lemma WatcherKeeps(codec: Codec, s: Sys, step: Step, s': Sys)
    requires Inv(codec, s) && Delivery.Next(codec, s, step, s')
    requires step in {WaitBegin, WaitScan, WaitCheck, WaitMark, WaitEnd}
    ensures Inv(codec, s')
  {
    if step == WaitScan {
      WaitScanKeeps(codec, s, s');
    } else if step == WaitCheck {
      WaitCheckKeeps(codec, s, s');
    } else if step == WaitMark {
      WaitMarkKeeps(codec, s, s');
    } else {
      WaitEdgeKeeps(codec, s, step, s');
    }
  }

  lemma DirectKeeps(codec: Codec, s: Sys, step: Step, s': Sys)
    requires Inv(codec, s) && Delivery.Next(codec, s, step, s')
    requires step in {DirectBegin, DirectSupersede, DirectSettle, DirectKeep, DirectAbort}
    ensures Inv(codec, s')
  {
    if step == DirectBegin {
      DirectBeginKeeps(codec, s, s');
    } else if step == DirectSupersede {
      DirectSupersedeKeeps(codec, s, s');
    } else if step == DirectSettle {
      DirectSettleKeeps(codec, s, s');
    } else {
      DirectEndKeeps(codec, s, step, s');
    }
  }

  lemma NextKeeps(codec: Codec, s: Sys, step: Step, s': Sys)
    requires Inv(codec, s) && Delivery.Next(codec, s, step, s')
    ensures Inv(codec, s')
  {
    if step in {WaitBegin, WaitScan, WaitCheck, WaitMark, WaitEnd} {
      WatcherKeeps(codec, s, step, s');
    } else if step in {DirectBegin, DirectSupersede, DirectSettle, DirectKeep, DirectAbort} {
      DirectKeeps(codec, s, step, s');
    } else if step == Grow {
      GrowKeeps(codec, s, s');
    } else if step == EnsureBaseline {
      BaselineKeeps(codec, s, s');
    } else if step == QueueStall {
      QueueStallKeeps(codec, s, s');
    } else {
      ControlKeeps(codec, s, s');
    }
  }

  lemma InitialOk(codec: Codec, s: Sys)
    requires Initial(s)
    ensures Inv(codec, s)
  {
  }

  /** So every state of every run has it. */
  lemma {:induction false} RunKeeps(codec: Codec, states: seq<Sys>, steps: seq<Step>, i: nat)
    requires Run(codec, states, steps) && i < |states|
    ensures Inv(codec, states[i])
  {
    if i == 0 {
      InitialOk(codec, states[0]);
    } else {
      RunKeeps(codec, states, steps, i - 1);
      NextKeeps(codec, states[i - 1], steps[i - 1], states[i]);
    }
  }
}
