/**
 `_read_updates` of src/agent_watcher.py: from a byte cursor, the material events of
 the whole lines behind it. The main result is that a reader that polls a growing log
 sees what one read of the final log would show.
 */
module UpdateReader {
  import opened Prelude
  import opened UpdateLog

  /** One transition of a log, and the current state in a status snapshot. */
  datatype Transition = Transition(status: string, at: string, update: string)

  /**
   Strict UTF-8 decoding, strict JSON decoding with the transition's field checks, and
   the timestamps that those accept.
   */
  datatype Codec = Codec(utf8: Bytes -> bool, decode: Bytes -> Option<Transition>, timestamp: string -> bool)

  /** The fields of a record that its events carry. */
  datatype Identity = Identity(worker: bool, callsign: string, shotcaller: string)

  /** `_event_digest` and `_reconciliation_event_id`; SHA-256 is taken to be injective. */
  datatype EventId =
    | LogId(path: string, offset: nat, text: Bytes)
    | StallId(path: string, updatedAt: string, status: string, condition: string)

  datatype Event = Event(id: EventId, identity: Identity, source: string, offset: nat, body: Transition)

  datatype Failure = ContractViolation

  const DELIVERY_STATUSES: seq<string> :=
    ["blocked", "completed", "complete", "cancelled", "canceled", "failed", "ready_to_land"]

  const SUPPORTED_STATUSES: seq<string> := ["active", "started", "working", "progress"] + DELIVERY_STATUSES

  function Lower(s: string): string {
    if s == "" then ""
    else [if 'A' <= s[0] <= 'Z' then (s[0] as int + 32) as char else s[0]] + Lower(s[1..])
  }

  lemma {:induction false} LowerTwice(s: string)
    ensures Lower(Lower(s)) == Lower(s)
  {
    if s == "" {
    } else {
      LowerTwice(s[1..]);
      assert Lower(s)[1..] == Lower(s[1..]);
    }
  }

  predicate Material(t: Transition) { Lower(t.status) in DELIVERY_STATUSES }

  /** The same text but for the case of ASCII letters; `b` is in lower case. */
  predicate SameButCase(a: string, b: string) {
    |a| == |b| && forall i | 0 <= i < |a| ::
      if 'A' <= a[i] <= 'Z' then b[i] as int == a[i] as int + 32 else b[i] == a[i]
  }

  /** The statuses that are delivered, in any case of letters. */
  predicate MaterialWord(s: string) {
    SameButCase(s, "blocked") || SameButCase(s, "completed") || SameButCase(s, "complete")
    || SameButCase(s, "cancelled") || SameButCase(s, "canceled") || SameButCase(s, "failed")
    || SameButCase(s, "ready_to_land")
  }

  /** And those that a record may have without being delivered. */
  predicate OngoingWord(s: string) {
    SameButCase(s, "active") || SameButCase(s, "started") || SameButCase(s, "working") || SameButCase(s, "progress")
  }

  lemma {:induction false} LowerExactly(s: string, b: string)
    ensures Lower(s) == b <==> SameButCase(s, b)
  {
    if s == "" || b == "" {
    } else {
      LowerExactly(s[1..], b[1..]);
      assert s == [s[0]] + s[1..] && b == [b[0]] + b[1..];
      assert Lower(s)[1..] == Lower(s[1..]) && |Lower(s)| > 0;
      if SameButCase(s, b) {
        assert SameButCase(s[1..], b[1..]);
      }
    }
  }

  lemma DeliveryIsWord(s: string)
    ensures s in DELIVERY_STATUSES <==>
              s == "blocked" || s == "completed" || s == "complete" || s == "cancelled" || s == "canceled"
              || s == "failed" || s == "ready_to_land"
  {
    var ss := DELIVERY_STATUSES;
    assert ss[0] in ss && ss[1] in ss && ss[2] in ss && ss[3] in ss && ss[4] in ss && ss[5] in ss && ss[6] in ss;
  }

  /** A line of a log becomes an event exactly if its status is one of seven words, in any case of letters. */
  lemma MaterialExactly(t: Transition)
    ensures Material(t) <==> MaterialWord(t.status)
  {
    DeliveryIsWord(Lower(t.status));
    LowerExactly(t.status, "blocked");
    LowerExactly(t.status, "completed");
    LowerExactly(t.status, "complete");
    LowerExactly(t.status, "cancelled");
    LowerExactly(t.status, "canceled");
    LowerExactly(t.status, "failed");
    LowerExactly(t.status, "ready_to_land");
  }

  lemma SupportedIsWord(s: string)
    ensures s in SUPPORTED_STATUSES <==>
              s in DELIVERY_STATUSES || s == "active" || s == "started" || s == "working" || s == "progress"
  {
    var ss := ["active", "started", "working", "progress"];
    assert ss[0] in ss && ss[1] in ss && ss[2] in ss && ss[3] in ss;
    assert SUPPORTED_STATUSES == ss + DELIVERY_STATUSES;
  }

  /** The checks on a transition's fields, written out. */
  lemma AcceptableExactly(timestamp: string -> bool, t: Transition)
    ensures AcceptableTo(timestamp, t) <==>
              && NonBlank(t.at) && timestamp(t.at) && NonBlank(t.update)
              && (MaterialWord(t.status) || OngoingWord(t.status))
  {
    MaterialExactly(t);
    SupportedIsWord(Lower(t.status));
    LowerExactly(t.status, "active");
    LowerExactly(t.status, "started");
    LowerExactly(t.status, "working");
    LowerExactly(t.status, "progress");
  }

  /** The checks of `_validate_transition` on the fields. */
  predicate AcceptableTo(timestamp: string -> bool, t: Transition) {
    NonBlank(t.at) && timestamp(t.at) && Lower(t.status) in SUPPORTED_STATUSES && NonBlank(t.update)
  }

  predicate Acceptable(codec: Codec, t: Transition) { AcceptableTo(codec.timestamp, t) }

  /** What a read has gathered: the events, the enlarged `seen` set, and `saw_transition`. */
  datatype Gathered = Gathered(events: seq<Event>, seen: set<EventId>, saw: bool)

  function EventOf(path: string, who: Identity, l: Line, t: Transition): Event {
    Event(LogId(path, l.offset, l.text), who, path, l.offset, t)
  }

  /** One pass of the loop body over a whole line. */
  function GatherLine(codec: Codec, path: string, who: Identity, l: Line, g: Gathered): Result<Gathered, Failure> {
    var id := LogId(path, l.offset, l.text);
    if !codec.utf8(l.text) then Err(ContractViolation)
    else if id in g.seen then Ok(g)
    else if codec.decode(l.text).None? then Err(ContractViolation)
    else
      var t := codec.decode(l.text).value;
      Ok(Gathered(if Material(t) then g.events + [EventOf(path, who, l, t)] else g.events,
                  g.seen + {id}, true))
  }

  datatype Read = Read(next: nat, gathered: Gathered)

  /** Where a read starts: a log shorter than the cursor is read from the beginning. */
  function StartAt(log: Bytes, cursor: nat): (s: nat)
    ensures s <= |log|
  {
    if |log| < cursor then 0 else cursor
  }

  /** The loop from byte `c` of the log on. */
  function ReadLines(codec: Codec, path: string, who: Identity, log: Bytes, c: nat, g: Gathered): Result<Read, Failure>
    decreases |log| - c
  {
    if !Whole(log, c) then Ok(Read(c, g))
    else
      var r := GatherLine(codec, path, who, Line(c, Text(log, c)), g);
      if r.Err? then Err(r.error) else ReadLines(codec, path, who, log, LineEnd(log, c), r.value)
  }

  function ReadFrom(codec: Codec, path: string, who: Identity, log: Bytes, cursor: nat, seen: set<EventId>)
    : Result<Read, Failure>
  {
    ReadLines(codec, path, who, log, StartAt(log, cursor), Gathered([], seen, false))
  }

  /** `_read_updates`: the loop over the raw lines, `offset` counting the bytes it consumed. */
  method ReadUpdates(codec: Codec, path: string, who: Identity, log: Bytes, cursor: nat, seen: set<EventId>)
    returns (r: Result<Read, Failure>)
    ensures r == ReadFrom(codec, path, who, log, cursor, seen)
  {
    var offset := StartAt(log, cursor);
    var gathered := Gathered([], seen, false);
    while offset < |log|
      invariant 0 <= offset <= |log|
      invariant ReadFrom(codec, path, who, log, cursor, seen) == ReadLines(codec, path, who, log, offset, gathered)
    {
      var end := LineEnd(log, offset);
      if log[end - 1] != LF {
        break;
      }
      var taken := TakeLine(codec, path, who, Line(offset, Chop(log[offset..end])), gathered);
      if taken.Err? {
        return Err(taken.error);
      }
      gathered := taken.value;
      offset := end;
    }
    return Ok(Read(offset, gathered));
  }

  /** The checks of the loop body on one whole line. */
  method TakeLine(codec: Codec, path: string, who: Identity, l: Line, before: Gathered)
    returns (r: Result<Gathered, Failure>)
    ensures r == GatherLine(codec, path, who, l, before)
  {
    if !codec.utf8(l.text) {
      return Err(ContractViolation);
    }
    var digest := LogId(path, l.offset, l.text);
    if digest in before.seen {
      return Ok(before);
    }
    var value := codec.decode(l.text);
    if value.None? {
      return Err(ContractViolation);
    }
    var gathered := before.(seen := before.seen + {digest}, saw := true);
    if Material(value.value) {
      gathered := gathered.(events := gathered.events + [Event(digest, who, path, l.offset, value.value)]);
    }
    return Ok(gathered);
  }

  // ------------------------------------------------- the seen set

  /** The seen set holds nothing of this log from byte `c` on. */
  predicate SeenBefore(seen: set<EventId>, path: string, c: nat) {
    forall id <- seen :: id.LogId? && id.path == path ==> id.offset < c
  }

  /** What a read gathers when no line has been seen. */
  function FreshEvents(codec: Codec, path: string, who: Identity, ls: seq<Line>): seq<Event> {
    if ls == [] then []
    else FreshEvent(codec, path, who, ls[0]) + FreshEvents(codec, path, who, ls[1..])
  }

  function FreshEvent(codec: Codec, path: string, who: Identity, l: Line): seq<Event> {
    var t := codec.decode(l.text);
    if t.Some? && Material(t.value) then [EventOf(path, who, l, t.value)] else []
  }

  predicate Readable(codec: Codec, ls: seq<Line>) {
    forall l <- ls :: codec.utf8(l.text) && codec.decode(l.text).Some?
  }

  /**
   A seen set that ends before the cursor suppresses nothing: the read fails exactly
   on an unreadable line, otherwise returns every material line, and its seen set
   ends before the new cursor.
   */
  lemma {:induction false} SeenNeverSuppresses(
      codec: Codec, path: string, who: Identity, log: Bytes, c: nat, g: Gathered)
    requires SeenBefore(g.seen, path, c)
    ensures var r := ReadLines(codec, path, who, log, c, g);
            var ls := Lines(log, c);
            && (r.Ok? <==> Readable(codec, ls))
            && (r.Ok? ==>
                && r.value.next == Next(log, c)
                && r.value.gathered.events == g.events + FreshEvents(codec, path, who, ls)
                && SeenBefore(r.value.gathered.seen, path, r.value.next))
    decreases |log| - c
  {
    if !Whole(log, c) {
      Neutral(g.events);
    } else {
      var e := LineEnd(log, c);
      var l := Line(c, Text(log, c));
      var first := GatherLine(codec, path, who, l, g);
      assert LogId(path, c, l.text) !in g.seen;
      ReadableCons(codec, l, Lines(log, e));
      if first.Ok? {
        FreshCons(codec, path, who, l, Lines(log, e));
        SeenNeverSuppresses(codec, path, who, log, e, first.value);
        Neutral(g.events);
        Associative(g.events, FreshEvent(codec, path, who, l), FreshEvents(codec, path, who, Lines(log, e)));
      }
    }
  }

  lemma ReadableCons(codec: Codec, l: Line, ls: seq<Line>)
    ensures Readable(codec, [l] + ls)
        <==> codec.utf8(l.text) && codec.decode(l.text).Some? && Readable(codec, ls)
  {
    assert forall x :: x in [l] + ls <==> x == l || x in ls;
  }

  lemma FreshCons(codec: Codec, path: string, who: Identity, l: Line, ls: seq<Line>)
    ensures FreshEvents(codec, path, who, [l] + ls)
         == FreshEvent(codec, path, who, l) + FreshEvents(codec, path, who, ls)
  {
    assert ([l] + ls)[1..] == ls;
  }

  // ------------------------------------------------- polling a growing log

  /** The outcome of several reads: the final cursor and all events, or a failure. */
  type Polled = Result<(nat, seq<Event>), Failure>

  /**
   One read for each of the log's states `logs[i..]`, each from the cursor the last one
   left. `seens[j]` is the seen set the j-th read starts with.
   */
  function Poll(codec: Codec, path: string, who: Identity,
                logs: seq<Bytes>, seens: seq<set<EventId>>, i: nat, cursor: nat): Polled
    requires i <= |logs| == |seens|
    decreases |logs| - i
  {
    if i == |logs| then Ok((cursor, []))
    else
      var r := ReadFrom(codec, path, who, logs[i], cursor, seens[i]);
      if r.Err? then Err(r.error)
      else
        var rest := Poll(codec, path, who, logs, seens, i + 1, r.value.next);
        if rest.Err? then rest else Ok((rest.value.0, r.value.gathered.events + rest.value.1))
  }

  /**
   Each read may start with any part of the seen set the last one left, as
   `list(seen)[-2048:]` keeps an unspecified part, and with any ids of other logs.
   */
  predicate Handed(codec: Codec, path: string, who: Identity,
                   logs: seq<Bytes>, seens: seq<set<EventId>>, i: nat, cursor: nat)
    requires i < |logs| == |seens|
    decreases |logs| - i
  {
    var r := ReadFrom(codec, path, who, logs[i], cursor, seens[i]);
    r.Ok? && i + 1 < |logs| ==>
      && (forall id <- seens[i + 1] :: id.LogId? && id.path == path ==> id in r.value.gathered.seen)
      && Handed(codec, path, who, logs, seens, i + 1, r.value.next)
  }

  /** From the i-th state on, each state of the log extends the one before. */
  predicate Growing(logs: seq<Bytes>, i: nat)
    requires i < |logs|
    decreases |logs| - i
  {
    i + 1 < |logs| ==> logs[i] <= logs[i + 1] && Growing(logs, i + 1)
  }

  lemma {:induction false} GrowingToLast(logs: seq<Bytes>, i: nat)
    requires i < |logs| && Growing(logs, i)
    ensures logs[i] <= logs[|logs| - 1]
    decreases |logs| - i
  {
    if i + 1 >= |logs| {
    } else {
      GrowingToLast(logs, i + 1);
    }
  }

  /** What one read from the cursor to the end of the log yields, without any seen set. */
  function OneRead(codec: Codec, path: string, who: Identity, log: Bytes, cursor: nat): Polled
  {
    var ls := Lines(log, cursor);
    if Readable(codec, ls) then Ok((Next(log, cursor), FreshEvents(codec, path, who, ls)))
    else Err(ContractViolation)
  }

  /** A single read with a good seen set is the plain read. */
  lemma ReadIsOneRead(codec: Codec, path: string, who: Identity, log: Bytes, cursor: nat, seen: set<EventId>)
    requires cursor <= |log| && SeenBefore(seen, path, cursor)
    ensures var r := ReadFrom(codec, path, who, log, cursor, seen);
            && OneRead(codec, path, who, log, cursor)
               == (if r.Err? then Err(r.error) else Ok((r.value.next, r.value.gathered.events)))
            && (r.Ok? ==> SeenBefore(r.value.gathered.seen, path, r.value.next) && r.value.next <= |log|)
  {
    SeenNeverSuppresses(codec, path, who, log, cursor, Gathered([], seen, false));
    Neutral(FreshEvents(codec, path, who, Lines(log, cursor)));
    assert StartAt(log, cursor) == cursor;
    var r := ReadFrom(codec, path, who, log, cursor, seen);
    assert r.Err? ==> r.error == ContractViolation;
  }

  /** Reading a prefix of a log and then the rest is reading the log. */
  lemma OneReadSplits(codec: Codec, path: string, who: Identity, log: Bytes, grown: Bytes, cursor: nat)
    requires cursor <= |log| && log <= grown
    ensures var a := OneRead(codec, path, who, log, cursor);
            && (a.Err? ==> OneRead(codec, path, who, grown, cursor) == a)
            && (a.Ok? ==>
                && a.value.0 <= |log|
                && var b := OneRead(codec, path, who, grown, a.value.0);
                   OneRead(codec, path, who, grown, cursor)
                   == (if b.Err? then b else Ok((b.value.0, a.value.1 + b.value.1))))
  {
    var c := Next(log, cursor);
    NextOfGrowth(log, grown, cursor);
    LinesOfGrowth(log, grown, cursor);
    FreshAppend(codec, path, who, Lines(log, cursor), Lines(grown, c));
    ReadableAppend(codec, Lines(log, cursor), Lines(grown, c));
  }

  lemma ReadableAppend(codec: Codec, xs: seq<Line>, ys: seq<Line>)
    ensures Readable(codec, xs + ys) <==> Readable(codec, xs) && Readable(codec, ys)
  {
    assert forall l :: l in xs + ys <==> l in xs || l in ys;
  }

  lemma FreshAppend(codec: Codec, path: string, who: Identity, xs: seq<Line>, ys: seq<Line>)
    ensures FreshEvents(codec, path, who, xs + ys)
         == FreshEvents(codec, path, who, xs) + FreshEvents(codec, path, who, ys)
  {
    if xs == [] {
      Neutral(ys);
      Neutral(FreshEvents(codec, path, who, ys));
    } else {
      assert (xs + ys)[1..] == xs[1..] + ys;
      FreshAppend(codec, path, who, xs[1..], ys);
    }
  }

  /**
   Main result: however an append-only log grows between the polls, torn tails
   included, and whatever part of the seen set survives from poll to poll, the reads
   return together exactly the events of one read of the final log, in the same order,
   and leave the cursor at the same line boundary.
   */
  lemma {:induction false} PollingIsTimingIndependent(
      codec: Codec, path: string, who: Identity,
      logs: seq<Bytes>, seens: seq<set<EventId>>, i: nat, cursor: nat)
    requires i < |logs| == |seens| && Growing(logs, i)
    requires Boundary(logs[i], cursor) && SeenBefore(seens[i], path, cursor)
    requires Handed(codec, path, who, logs, seens, i, cursor)
    ensures Poll(codec, path, who, logs, seens, i, cursor) == OneRead(codec, path, who, logs[|logs| - 1], cursor)
    decreases |logs| - i
  {
    var r := ReadFrom(codec, path, who, logs[i], cursor, seens[i]);
    ReadIsOneRead(codec, path, who, logs[i], cursor, seens[i]);
    if i + 1 == |logs| {
      if r.Ok? {
        Neutral(r.value.gathered.events);
      }
    } else {
      GrowingToLast(logs, i);
      OneReadSplits(codec, path, who, logs[i], logs[|logs| - 1], cursor);
      if r.Ok? {
        CursorMoves(codec, path, who, logs[i], logs[i + 1], cursor, seens[i], seens[i + 1]);
        PollingIsTimingIndependent(codec, path, who, logs, seens, i + 1, r.value.next);
      }
    }
  }

  /** After a read, the cursor is a boundary of the grown log and the seen set ends before it. */
  lemma CursorMoves(codec: Codec, path: string, who: Identity, log: Bytes, grown: Bytes, cursor: nat,
                    seen: set<EventId>, kept: set<EventId>)
    requires log <= grown && Boundary(log, cursor) && SeenBefore(seen, path, cursor)
    requires ReadFrom(codec, path, who, log, cursor, seen).Ok?
    requires forall id <- kept :: id.LogId? && id.path == path ==>
               id in ReadFrom(codec, path, who, log, cursor, seen).value.gathered.seen
    ensures var next := ReadFrom(codec, path, who, log, cursor, seen).value.next;
            Boundary(log, next) && Boundary(grown, next) && SeenBefore(kept, path, next)
  {
    ReadIsOneRead(codec, path, who, log, cursor, seen);
    NextIsBoundary(log, cursor);
  }

  // ------------------------------------------------- what a read adds

  lemma {:induction false} ReadAddsOwnIds(codec: Codec, path: string, who: Identity, log: Bytes, c: nat, g: Gathered,
                                          id: EventId)
    requires ReadLines(codec, path, who, log, c, g).Ok?
    requires id in ReadLines(codec, path, who, log, c, g).value.gathered.seen
    ensures id in g.seen || (id.LogId? && id.path == path)
    decreases |log| - c
  {
    if !Whole(log, c) {
    } else {
      var r := GatherLine(codec, path, who, Line(c, Text(log, c)), g);
      ReadAddsOwnIds(codec, path, who, log, LineEnd(log, c), r.value, id);
    }
  }

  /** The fresh events are those of the material lines, one for each. */
  lemma {:induction false} FreshEventHasLine(codec: Codec, path: string, who: Identity, ls: seq<Line>, e: Event)
      returns (l: Line)
    requires e in FreshEvents(codec, path, who, ls)
    ensures l in ls && codec.decode(l.text).Some? && Material(codec.decode(l.text).value)
    ensures e == EventOf(path, who, l, codec.decode(l.text).value)
  {
    if e in FreshEvent(codec, path, who, ls[0]) {
      l := ls[0];
    } else {
      l := FreshEventHasLine(codec, path, who, ls[1..], e);
    }
  }

  lemma {:induction false} LineHasFreshEvent(codec: Codec, path: string, who: Identity, ls: seq<Line>, l: Line)
    requires l in ls && codec.decode(l.text).Some? && Material(codec.decode(l.text).value)
    ensures EventOf(path, who, l, codec.decode(l.text).value) in FreshEvents(codec, path, who, ls)
  {
    if l == ls[0] {
      assert EventOf(path, who, l, codec.decode(l.text).value) in FreshEvent(codec, path, who, l);
    } else {
      LineHasFreshEvent(codec, path, who, ls[1..], l);
    }
  }
}
