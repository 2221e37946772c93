/**
 `reconcile_runtime` of src/agent_watcher.py: a runtime that disagrees with its record is
 reported as stalled only when it has disagreed in the same way for several passes. The
 stored counters are shown to be the streaks of the history of observations.
 */
module Debounce {
  import opened Prelude
  import opened UpdateReader
  import opened Delivery

  /** What one pass finds out about one active record: its runtime condition against its durable state. */
  datatype Observation = Observation(key: string, who: Identity, updatedAt: string, status: string, condition: string)

  datatype Count = Count(condition: string, count: nat)

  type Counters = map<string, Count>

  predicate Settled(condition: string) { condition == "running" || condition == "terminal" }

  /** `_reconciliation_event_id` */
  function StallOf(o: Observation): EventId { StallId(o.key, o.updatedAt, o.status, o.condition) }

  function CountOf(counters: Counters, o: Observation): nat {
    if o.key in counters && counters[o.key].condition == o.condition then counters[o.key].count + 1 else 1
  }

  /** One observation's effect on the counters. */
  function Observe(counters: Counters, o: Observation): Counters {
    if Settled(o.condition) then counters - {o.key} else counters[o.key := Count(o.condition, CountOf(counters, o))]
  }

  function ObserveAll(counters: Counters, os: seq<Observation>): Counters
    decreases |os|
  {
    if os == [] then counters else ObserveAll(Observe(counters, os[0]), os[1..])
  }

  function Keys(os: seq<Observation>): set<string> { set o <- os :: o.key }

  /** The counters after one pass; records that are no longer active lose theirs. */
  function Pass(counters: Counters, os: seq<Observation>): Counters {
    var all := ObserveAll(counters, os);
    map k | k in all && k in Keys(os) :: all[k]
  }

  /** A pass looks at each record once. */
  predicate OncePerKey(os: seq<Observation>) {
    forall i, j | 0 <= i < j < |os| :: os[i].key != os[j].key
  }

  /** The mismatch is old enough, and has not been delivered. */
  predicate Queues(counters: Counters, o: Observation, consecutive: nat, delivered: set<EventId>) {
    !Settled(o.condition) && CountOf(counters, o) >= consecutive && StallOf(o) !in delivered
  }

  function StallText(o: Observation): string {
    "Runtime is stably " + o.condition + " while durable status remains " + o.status
    + "; inspect the exact Champion endpoint and record."
  }

  function StallEvent(o: Observation, at: string): Event {
    Event(StallOf(o), o.who, o.key, 0, Transition("champion_stalled", at, StallText(o)))
  }

  /** The ids that a pass queues, in order. */
  function Queued(counters: Counters, os: seq<Observation>, consecutive: nat, delivered: set<EventId>): seq<EventId>
    decreases |os|
  {
    if os == [] then []
    else
      (if Queues(counters, os[0], consecutive, delivered) then [StallOf(os[0])] else [])
      + Queued(Observe(counters, os[0]), os[1..], consecutive, delivered)
  }

  // ----------------------------------------------------------------- history

  /** What a step shows of one record: a mismatch, or nothing to complain about. */
  datatype Tick = Mismatch(condition: string) | Clear

  datatype Step = PassStep(os: seq<Observation>) | ResetStep

  function TickIn(os: seq<Observation>, key: string): Tick {
    if os == [] then Clear
    else if os[0].key == key then (if Settled(os[0].condition) then Clear else Mismatch(os[0].condition))
    else TickIn(os[1..], key)
  }

  function TickOf(step: Step, key: string): Tick {
    match step
    case PassStep(os) => TickIn(os, key)
    case ResetStep => Clear
  }

  function History(steps: seq<Step>, key: string): seq<Tick> {
    if steps == [] then [] else History(steps[..|steps| - 1], key) + [TickOf(steps[|steps| - 1], key)]
  }

  function After(counters: Counters, step: Step): Counters {
    match step
    case PassStep(os) => Pass(counters, os)
    case ResetStep => map[]
  }

  function Counted(steps: seq<Step>): Counters {
    if steps == [] then map[] else After(Counted(steps[..|steps| - 1]), steps[|steps| - 1])
  }

  predicate StepOk(step: Step) { step.PassStep? ==> OncePerKey(step.os) }

  /** `n` is the length of the longest suffix of ticks that are this mismatch, and is not 0. */
  predicate Streak(ticks: seq<Tick>, condition: string, n: nat) {
    && 1 <= n <= |ticks|
    && (forall i | |ticks| - n <= i < |ticks| :: ticks[i] == Mismatch(condition))
    && (n < |ticks| ==> ticks[|ticks| - n - 1] != Mismatch(condition))
  }

  /** The counter of a record is the streak at the end of its history, if it has one. */
  predicate Refines(counters: Counters, key: string, ticks: seq<Tick>) {
    if key in counters then Streak(ticks, counters[key].condition, counters[key].count)
    else ticks == [] || ticks[|ticks| - 1] == Clear
  }

  lemma {:induction false} ObserveOthers(counters: Counters, os: seq<Observation>, key: string)
    requires key !in Keys(os)
    ensures key in ObserveAll(counters, os) <==> key in counters
    ensures key in counters ==> ObserveAll(counters, os)[key] == counters[key]
    ensures TickIn(os, key) == Clear
    decreases |os|
  {
    if os == [] {
    } else {
      assert os[0] in os && os[0].key != key;
      assert forall o :: o in os[1..] ==> o in os;
      ObserveOthers(Observe(counters, os[0]), os[1..], key);
    }
  }

  /** A pass changes a record's counter by that record's tick alone. */
  lemma {:induction false} ObserveOwn(counters: Counters, os: seq<Observation>, key: string)
    requires OncePerKey(os) && key in Keys(os)
    ensures var all := ObserveAll(counters, os);
            match TickIn(os, key)
            case Clear => key !in all
            case Mismatch(c) =>
              key in all && all[key] == Count(c, if key in counters && counters[key].condition == c
                  then counters[key].count + 1 else 1)
    decreases |os|
  {
    var rest := os[1..];
    assert os == [os[0]] + rest;
    if os[0].key == key {
      assert key !in Keys(rest) by {
        forall i | 0 <= i < |rest|
          ensures rest[i].key != key
        {
          assert os[0].key != os[i + 1].key;
        }
      }
      ObserveOthers(Observe(counters, os[0]), rest, key);
    } else {
      ObserveOwn(Observe(counters, os[0]), rest, key);
    }
  }

  lemma PassTick(counters: Counters, os: seq<Observation>, key: string)
    requires OncePerKey(os)
    ensures match TickIn(os, key)
            case Clear => key !in Pass(counters, os)
            case Mismatch(c) =>
              && key in Pass(counters, os)
              && Pass(counters, os)[key] == Count(c, if key in counters && counters[key].condition == c
                  then counters[key].count + 1 else 1)
  {
    if key in Keys(os) {
      ObserveOwn(counters, os, key);
    } else {
      ObserveOthers(counters, os, key);
    }
  }

  /** The counter after one more tick is the streak after that tick. */
  lemma StepRefines(counters: Counters, step: Step, key: string, ticks: seq<Tick>)
    requires StepOk(step) && Refines(counters, key, ticks)
    ensures Refines(After(counters, step), key, ticks + [TickOf(step, key)])
  {
    if step.PassStep? {
      PassTick(counters, step.os, key);
    }
  }

  /** After any passes and resets, each stored counter is the streak of its record's history. */
  lemma {:induction false} CountersAreStreaks(steps: seq<Step>, key: string)
    requires forall s <- steps :: StepOk(s)
    ensures Refines(Counted(steps), key, History(steps, key))
  {
    if steps == [] {
    } else {
      var n := |steps| - 1;
      CountersAreStreaks(steps[..n], key);
      assert StepOk(steps[n]);
      StepRefines(Counted(steps[..n]), steps[n], key, History(steps[..n], key));
    }
  }

  // ------------------------------------------------------------ what is queued

  /** A pass queues exactly the mismatches of records whose counter reaches the limit. */
  lemma {:induction false} QueuedExactly(counters: Counters, os: seq<Observation>, consecutive: nat,
                                         delivered: set<EventId>, o: Observation)
    requires OncePerKey(os) && o in os
    ensures StallOf(o) in Queued(counters, os, consecutive, delivered) <==> Queues(counters, o, consecutive, delivered)
    decreases |os|
  {
    var rest, next := os[1..], Observe(counters, os[0]);
    assert os == [os[0]] + rest;
    if o == os[0] {
      NotQueuedLater(next, rest, consecutive, delivered, o);
    } else {
      var i :| 0 < i < |os| && os[i] == o;
      assert os[0].key != os[i].key;
      QueuedExactly(next, rest, consecutive, delivered, o);
    }
  }

  lemma {:induction false} NotQueuedLater(counters: Counters, os: seq<Observation>, consecutive: nat,
                                          delivered: set<EventId>, o: Observation)
    requires forall x <- os :: x.key != o.key
    ensures StallOf(o) !in Queued(counters, os, consecutive, delivered)
    decreases |os|
  {
    if os == [] {
    } else {
      assert os[0] in os;
      NotQueuedLater(Observe(counters, os[0]), os[1..], consecutive, delivered, o);
    }
  }

  /**
   A stalled event is queued by the last pass exactly when the record has shown that
   mismatch in at least the requested number of passes in a row, this one included, and
   the event is not in the delivered table.
   */
  lemma QueuedAfterStreak(steps: seq<Step>, os: seq<Observation>, consecutive: nat, delivered: set<EventId>,
                          o: Observation)
    requires (forall s <- steps :: StepOk(s)) && OncePerKey(os) && o in os && consecutive >= 2
    requires !Settled(o.condition)
    ensures var ticks := History(steps + [PassStep(os)], o.key);
            StallOf(o) in Queued(Counted(steps), os, consecutive, delivered) <==>
              && consecutive <= |ticks| && StallOf(o) !in delivered
              && forall i | |ticks| - consecutive <= i < |ticks| :: ticks[i] == Mismatch(o.condition)
  {
    var all := steps + [PassStep(os)];
    assert all[..|steps|] == steps;
    QueuedExactly(Counted(steps), os, consecutive, delivered, o);
    CountersAreStreaks(steps, o.key);
    OwnTick(os, o);
    LongStreak(Counted(steps), o, History(steps, o.key), consecutive);
  }

  lemma {:induction false} OwnTick(os: seq<Observation>, o: Observation)
    requires OncePerKey(os) && o in os && !Settled(o.condition)
    ensures TickIn(os, o.key) == Mismatch(o.condition)
    decreases |os|
  {
    assert os == [os[0]] + os[1..];
    var i :| 0 <= i < |os| && os[i] == o;
    if i == 0 {
    } else {
      assert os[0].key != os[i].key;
      OwnTick(os[1..], o);
    }
  }

  lemma LongStreak(counters: Counters, o: Observation, before: seq<Tick>, consecutive: nat)
    requires Refines(counters, o.key, before) && consecutive >= 2
    ensures var ticks := before + [Mismatch(o.condition)];
            CountOf(counters, o) >= consecutive <==>
              consecutive <= |ticks| && forall i | |ticks| - consecutive <= i < |ticks| ::
                  ticks[i] == Mismatch(o.condition)
  {
    var ticks := before + [Mismatch(o.condition)];
    if consecutive <= |ticks| && forall i | |ticks| - consecutive <= i < |ticks| :: ticks[i] == Mismatch(o.condition) {
      assert ticks[|ticks| - 2] == Mismatch(o.condition) && before[|before| - 1] == ticks[|ticks| - 2];
      assert o.key in counters;
      var c := counters[o.key];
      assert before[|before| - 1] == Mismatch(c.condition);
      assert c.count < |before| ==> ticks[|before| - c.count - 1] != Mismatch(c.condition);
    }
  }

  // -------------------------------------------------------------- the mutation

  /** The event of one of the observations. */
  predicate Reports(os: seq<Observation>, at: string, e: Event) {
    exists o <- os :: e == StallEvent(o, at)
  }

  /** Pending events after a pass: those queued are added, each under its id and as an observation has it. */
  predicate PendingAfter(before: map<EventId, Event>, queued: seq<EventId>, os: seq<Observation>, at: string,
                         after: map<EventId, Event>)
  {
    && after.Keys == before.Keys + (set id <- queued)
    && (forall id <- before :: id !in queued ==> after[id] == before[id])
    && (forall id <- queued :: id in after && after[id].id == id && Reports(os, at, after[id]))
  }

  lemma OneMoreQueued(before: map<EventId, Event>, queued: seq<EventId>, os: seq<Observation>, at: string,
                      after: map<EventId, Event>, o: Observation, e: Event)
    requires PendingAfter(before, queued, os, at, after) && o in os && e == StallEvent(o, at)
    ensures PendingAfter(before, queued + [e.id], os, at, after[e.id := e])
  {
    assert Reports(os, at, e);
  }

  class Reconciler {
    var reconciliation: Counters
    var pending: map<EventId, Event>
    var delivered: map<EventId, Channel>

    constructor ()
      ensures reconciliation == Counted([]) && pending == map[] && delivered == map[]
    {
      reconciliation, pending, delivered := map[], map[], map[];
    }

    /** The reset after a failed reconciliation in the wait loop. */
    method Reset()
      modifies this`reconciliation
      ensures reconciliation == After(old(reconciliation), ResetStep)
    {
      reconciliation := map[];
    }

    /** One observation: its counter, and its event if it is to be queued. */
    method ObserveOne(o: Observation, consecutive: nat, at: string,
                      ghost queued: seq<EventId>, ghost os: seq<Observation>, ghost before: map<EventId, Event>)
      returns (stalls: seq<EventId>)
      requires PendingAfter(before, queued, os, at, pending) && o in os
      modifies this`reconciliation, this`pending
      ensures reconciliation == Observe(old(reconciliation), o)
      ensures stalls == if Queues(old(reconciliation), o, consecutive, delivered.Keys) then [StallOf(o)] else []
      ensures PendingAfter(before, queued + stalls, os, at, pending)
    {
      if Settled(o.condition) {
        reconciliation := reconciliation - {o.key};
        Neutral(queued);
        return [];
      }
      var count := CountOf(reconciliation, o);
      reconciliation := reconciliation[o.key := Count(o.condition, count)];
      if count < consecutive || StallOf(o) in delivered {
        Neutral(queued);
        return [];
      }
      OneMoreQueued(before, queued, os, at, pending, o, StallEvent(o, at));
      pending := pending[StallOf(o) := StallEvent(o, at)];
      return [StallOf(o)];
    }

    /** The function that `reconcile_runtime` hands to `Store.mutate`, behind its check of `consecutive`. */
    method Reconcile(os: seq<Observation>, consecutive: int, at: string) returns (r: Result<seq<EventId>, Failure>)
      modifies this`reconciliation, this`pending
      ensures r.Err? <==> consecutive < 2 || consecutive > 10
      ensures r.Err? ==> reconciliation == old(reconciliation) && pending == old(pending)
      ensures r.Ok? ==> reconciliation == After(old(reconciliation), PassStep(os))
      ensures r.Ok? ==> r.value == Queued(old(reconciliation), os, consecutive, delivered.Keys)
      ensures r.Ok? ==> PendingAfter(old(pending), r.value, os, at, pending)
    {
      if consecutive < 2 || consecutive > 10 {
        return Err(ContractViolation);
      }
      var queued: seq<EventId> := [];
      var observed: set<string> := {};
      assert os[0..] == os;
      for i := 0 to |os|
        invariant ObserveAll(reconciliation, os[i..]) == ObserveAll(old(reconciliation), os)
        invariant queued + Queued(reconciliation, os[i..], consecutive, delivered.Keys)
               == Queued(old(reconciliation), os, consecutive, delivered.Keys)
        invariant observed == Keys(os[..i])
        invariant PendingAfter(old(pending), queued, os, at, pending)
      {
        var o := os[i];
        assert os[i..][1..] == os[i + 1..];
        KeysGrow(os, i);
        var stalls := ObserveOne(o, consecutive, at, queued, os, old(pending));
        observed := observed + {o.key};
        Associative(queued, stalls, Queued(reconciliation, os[i + 1..], consecutive, delivered.Keys));
        queued := queued + stalls;
      }
      Neutral(queued);
      assert os[..|os|] == os;
      reconciliation := map k | k in reconciliation && k in observed :: reconciliation[k];
      return Ok(queued);
    }
  }

  lemma KeysGrow(os: seq<Observation>, i: nat)
    requires i < |os|
    ensures Keys(os[..i + 1]) == Keys(os[..i]) + {os[i].key}
  {
    assert os[..i + 1] == os[..i] + [os[i]];
  }

  /** Each event that a pass queues is one that the delivery state machine may queue. */
  lemma QueuedIsDeliveryStep(codec: Codec, s: Sys, o: Observation, at: string)
    requires s.work.None? && s.books.store.initialized && StallOf(o) !in s.books.store.delivered
    ensures var e := StallEvent(o, at);
            Delivery.Next(codec, s, QueueStall,
              s.(books := s.books.(store := s.books.store.(pending := s.books.store.pending[e.id := e]))))
  {
    assert StallEvent(o, at).id.StallId?;
  }
}
