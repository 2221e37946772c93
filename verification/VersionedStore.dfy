/**
 prototypes/sqlite_store.py: rows with versions, updated by compare-and-swap in one
 transaction with an appended event. The tables are maps from their primary keys; an
 operation that breaks a constraint is rolled back.
 */
module VersionedStore {
  import opened Prelude

  datatype Project = Project(url: string, at: string)

  datatype Task = Task(project: string, summary: string, version: nat, owner: Option<string>, at: string)

  datatype Agent = Agent(callsign: string, task: string, status: string, version: nat, at: string, text: string,
                         retired: bool)

  /** Which row an event is about. */
  datatype Subject = OfAgent(agent: string) | OfTask(task: string)

  datatype Event = Event(subject: Subject, version: nat, kind: string, status: string, text: string, at: string)

  datatype Assignment = Assignment(owner: string, at: string)

  datatype Db = Db(
    projects: map<string, Project>,
    tasks: map<string, Task>,
    callsigns: map<string, string>,
    agents: map<string, Agent>,
    leases: map<string, string>,
    events: map<string, Event>,
    receipts: map<(string, nat), Assignment>)

  /** `agent:<id>:<version>` and `task:<id>:<version>` */
  function EventId(s: Subject, version: nat): string {
    match s
    case OfAgent(a) => "agent:" + (a + (":" + Decimal(version)))
    case OfTask(t) => "task:" + (t + (":" + Decimal(version)))
  }

  // ------------------------------------------------------------- statements

  /** Inserting into `events`: its key, the unique index on subject and version, and the references. */
  function InsertEvent(db: Db, id: string, e: Event): Option<Db> {
    if id in db.events
       || (exists k <- db.events :: db.events[k].subject == e.subject && db.events[k].version == e.version)
       || (match e.subject case OfAgent(a) => a !in db.agents case OfTask(t) => t !in db.tasks)
    then None
    else Some(db.(events := db.events[id := e]))
  }

  /** Inserting into `agent_instances`, with the unique index on live callsigns. */
  function InsertAgent(db: Db, id: string, a: Agent): Option<Db> {
    if id in db.agents || a.callsign !in db.callsigns || a.task !in db.tasks
       || (exists k <- db.agents :: db.agents[k].callsign == a.callsign && !db.agents[k].retired)
    then None
    else Some(db.(agents := db.agents[id := a]))
  }

  function InsertLease(db: Db, callsign: string, agent: string): Option<Db> {
    if callsign in db.leases || callsign !in db.callsigns || agent !in db.agents || agent in db.leases.Values then None
    else Some(db.(leases := db.leases[callsign := agent]))
  }

  function InsertReceipt(db: Db, task: string, version: nat, a: Assignment): Option<Db> {
    if (task, version) in db.receipts || task !in db.tasks || a.owner !in db.agents then None
    else Some(db.(receipts := db.receipts[(task, version) := a]))
  }

  /** The live agent at the expected version, which is what the update of a transition matches. */
  predicate Matches(db: Db, agent: string, expected: int) {
    agent in db.agents && db.agents[agent].version == expected && !db.agents[agent].retired
  }

  function UpdateAgent(db: Db, id: string, status: string, text: string, at: string): Db
    requires id in db.agents
  {
    var a := db.agents[id];
    db.(agents := db.agents[id := a.(status := status, version := a.version + 1, text := text, at := at)])
  }

  function UpdateOwner(db: Db, id: string, owner: string, at: string): Db
    requires id in db.tasks
  {
    var t := db.tasks[id];
    db.(tasks := db.tasks[id := t.(owner := Some(owner), version := t.version + 1, at := at)])
  }

  // ------------------------------------------------------------- operations

  datatype Op =
    | CreateProject(id: string, url: string, at: string)
    | CreateTask(id: string, project: string, summary: string, at: string)
    | AddCallsign(callsign: string, role: string)
    | Reserve(callsign: string, agent: string, task: string, at: string)
    | Transition(agent: string, expected: int, status: string, text: string, at: string)
    | Transfer(task: string, expected: int, owner: string, at: string)

  function ReserveRow(op: Op): Agent
    requires op.Reserve?
  {
    Agent(op.callsign, op.task, "working", 1, op.at, "reserved", false)
  }

  function ReserveEvent(op: Op): Event
    requires op.Reserve?
  {
    Event(OfAgent(op.agent), 1, "callsign_reserved", "working", "reserved", op.at)
  }

  function TransitionEvent(op: Op, version: nat): Event
    requires op.Transition?
  {
    Event(OfAgent(op.agent), version, "agent_transition", op.status, op.text, op.at)
  }

  function TransferEvent(op: Op, version: nat): Event
    requires op.Transfer?
  {
    Event(OfTask(op.task), version, "task_owner_transferred", "active", "owner transferred", op.at)
  }

  /** One operation: the new database, or a refusal. */
  function Apply(db: Db, op: Op): Option<Db> {
    match op
    case CreateProject(id, url, at) =>
      if id in db.projects || (exists p <- db.projects :: db.projects[p].url == url) then None
      else Some(db.(projects := db.projects[id := Project(url, at)]))
    case CreateTask(id, project, summary, at) =>
      if id in db.tasks || project !in db.projects then None
      else Some(db.(tasks := db.tasks[id := Task(project, summary, 1, None, at)]))
    case AddCallsign(callsign, role) =>
      if callsign in db.callsigns || role !in ["shotcaller", "champion", "hidden-worker"] then None
      else Some(db.(callsigns := db.callsigns[callsign := role]))
    case Reserve(callsign, agent, _, _) =>
      var one := InsertAgent(db, agent, ReserveRow(op));
      if one.None? then None
      else
        var two := InsertLease(one.value, callsign, agent);
        if two.None? then None else InsertEvent(two.value, EventId(OfAgent(agent), 1), ReserveEvent(op))
    case Transition(agent, expected, status, text, at) =>
      if !Matches(db, agent, expected) then None
      else
        var next := db.agents[agent].version + 1;
        InsertEvent(UpdateAgent(db, agent, status, text, at), EventId(OfAgent(agent), next), TransitionEvent(op, next))
    case Transfer(task, expected, owner, at) =>
      if !(owner in db.agents && db.agents[owner].task == task && !db.agents[owner].retired) then None
      else if task !in db.tasks || db.tasks[task].version != expected then None
      else
        var next := db.tasks[task].version + 1;
        var one := InsertEvent(UpdateOwner(db, task, owner, at), EventId(OfTask(task), next), TransferEvent(op, next));
        if one.None? then None else InsertReceipt(one.value, task, next, Assignment(owner, at))
  }

  /** A refused operation leaves the database as it was. */
  function After(db: Db, op: Op): Db {
    if Apply(db, op).Some? then Apply(db, op).value else db
  }

  const EMPTY := Db(map[], map[], map[], map[], map[], map[], map[])

  function Run(ops: seq<Op>): Db {
    if ops == [] then EMPTY else After(Run(ops[..|ops| - 1]), ops[|ops| - 1])
  }

  // ------------------------------------------------ event ids tell rows apart

  function TrailingDigits(s: string): string {
    if s != "" && IsDigit(s[|s| - 1]) then TrailingDigits(s[..|s| - 1]) + [s[|s| - 1]] else ""
  }

  lemma {:induction false} TrailingOf(x: string, c: string)
    requires forall k | 0 <= k < |c| :: IsDigit(c[k])
    ensures TrailingDigits(x + (":" + c)) == c
  {
    var s := x + (":" + c);
    if c == "" {
      assert s[|s| - 1] == ':';
    } else {
      var n := |c| - 1;
      assert s[..|s| - 1] == x + (":" + c[..n]);
      assert s[|s| - 1] == c[n];
      TrailingOf(x, c[..n]);
    }
  }

  lemma ColonApart(x: string, y: string, c: string, d: string)
    requires x + (":" + c) == y + (":" + d)
    requires forall k | 0 <= k < |c| :: IsDigit(c[k])
    requires forall k | 0 <= k < |d| :: IsDigit(d[k])
    ensures x == y && c == d
  {
    TrailingOf(x, c);
    TrailingOf(y, d);
    assert x == (x + (":" + c))[..|x|] && y == (y + (":" + d))[..|y|];
  }

  lemma PrefixApart(p: string, x: string, y: string)
    requires p + x == p + y
    ensures x == y
  {
    assert x == (p + x)[|p|..] && y == (p + y)[|p|..];
  }

  /** The names of events are injective, and those of agents and tasks are disjoint. */
  lemma EventIdsDistinct(s: Subject, m: nat, t: Subject, n: nat)
    requires EventId(s, m) == EventId(t, n)
    ensures s == t && m == n
  {
    assert "agent:"[0] == 'a' && "task:"[0] == 't';
    assert EventId(s, m)[0] == (if s.OfAgent? then 'a' else 't')
        && EventId(t, n)[0] == (if t.OfAgent? then 'a' else 't');
    var x := if s.OfAgent? then s.agent else s.task;
    var y := if t.OfAgent? then t.agent else t.task;
    PrefixApart(if s.OfAgent? then "agent:" else "task:", x + (":" + Decimal(m)), y + (":" + Decimal(n)));
    ColonApart(x, y, Decimal(m), Decimal(n));
    DecimalInjective(m, n);
  }

  // -------------------------------------------------------------- invariant

  /** The versions of a row that have an event: all of an agent's, a task's from the second on. */
  predicate Dated(db: Db, s: Subject, version: nat) {
    match s
    case OfAgent(a) => a in db.agents && 1 <= version <= db.agents[a].version
    case OfTask(t) => t in db.tasks && 2 <= version <= db.tasks[t].version
  }

  predicate HasEvent(db: Db, s: Subject, version: nat) {
    var id := EventId(s, version);
    id in db.events && db.events[id].subject == s && db.events[id].version == version
  }

  /** Events exist for exactly the dated versions, under their names. */
  ghost predicate EventsOk(db: Db) {
    && (forall id <- db.events :: id == EventId(db.events[id].subject, db.events[id].version)
                                  && Dated(db, db.events[id].subject, db.events[id].version))
    && (forall s: Subject, n: nat :: Dated(db, s, n) ==> HasEvent(db, s, n))
  }

  /** Receipts exist for exactly a task's versions from the second on, and the last names the owner. */
  ghost predicate ReceiptsOk(db: Db) {
    && (forall t: string, n: nat :: (t, n) in db.receipts <==> t in db.tasks && 2 <= n <= db.tasks[t].version)
    && (forall t <- db.tasks :: db.tasks[t].version >= 1
          && db.tasks[t].owner == if db.tasks[t].version == 1 then None
                                  else Some(db.receipts[(t, db.tasks[t].version)].owner))
  }

  /** What an agent's row shows: the part that transitions change. */
  datatype Snapshot = Snapshot(version: nat, status: string, text: string, at: string)

  function Shown(a: Agent): Snapshot { Snapshot(a.version, a.status, a.text, a.at) }

  /** An event applied to a snapshot. */
  function Applied(s: Snapshot, e: Event): Snapshot { Snapshot(e.version, e.status, e.text, e.at) }

  /** The snapshot that the first `n` events of an agent fold to. */
  function Replay(events: map<string, Event>, agent: string, n: nat): Snapshot
  {
    if n == 0 then Snapshot(0, "", "", "")
    else
      var id := EventId(OfAgent(agent), n);
      if id in events then Applied(Replay(events, agent, n - 1), events[id]) else Replay(events, agent, n - 1)
  }

  ghost predicate AgentsOk(db: Db) {
    && (forall a <- db.agents :: db.agents[a].version >= 1 && !db.agents[a].retired && db.agents[a].task in db.tasks
          && db.agents[a].callsign in db.callsigns
          && Shown(db.agents[a]) == Replay(db.events, a, db.agents[a].version))
    && (forall c <- db.leases :: db.leases[c] in db.agents && db.agents[db.leases[c]].callsign == c)
    && (forall a <- db.agents :: db.agents[a].callsign in db.leases && db.leases[db.agents[a].callsign] == a)
  }

  ghost predicate Inv(db: Db) {
    EventsOk(db) && ReceiptsOk(db) && AgentsOk(db)
  }

  lemma EmptyOk()
    ensures Inv(EMPTY)
  {
  }

  // ------------------------------------------------------ operations keep it

  /** A row gets its next version and that version's event. */
  lemma EventAdded(db: Db, db': Db, s: Subject, version: nat, e: Event)
    requires EventsOk(db) && e.subject == s && e.version == version
    requires !Dated(db, s, version) && Dated(db', s, version)
    requires forall r: Subject, n: nat :: Dated(db', r, n) <==> Dated(db, r, n) || (r == s && n == version)
    requires db'.events == db.events[EventId(s, version) := e]
    ensures EventsOk(db') && EventId(s, version) !in db.events
  {
    if EventId(s, version) in db.events {
      var o := db.events[EventId(s, version)];
      EventIdsDistinct(s, version, o.subject, o.version);
    }
    forall r: Subject, n: nat | Dated(db', r, n)
      ensures HasEvent(db', r, n)
    {
      if Dated(db, r, n) {
        assert HasEvent(db, r, n);
      }
    }
  }

  /** The next version's event breaks no constraint of the events table. */
  lemma NextEventFits(db: Db, s: Subject, version: nat, e: Event)
    requires EventsOk(db) && e.subject == s && e.version == version && !Dated(db, s, version)
    ensures EventId(s, version) !in db.events
    ensures !exists k <- db.events :: db.events[k].subject == s && db.events[k].version == version
  {
    if EventId(s, version) in db.events {
      var o := db.events[EventId(s, version)];
      EventIdsDistinct(s, version, o.subject, o.version);
    }
  }

  /** Events of later versions do not change what the first ones fold to. */
  lemma {:induction false} ReplayStays(events: map<string, Event>, id: string, e: Event, agent: string, n: nat)
    requires forall m: nat | 1 <= m <= n :: EventId(OfAgent(agent), m) != id
    ensures Replay(events[id := e], agent, n) == Replay(events, agent, n)
  {
    if n == 0 {
    } else {
      ReplayStays(events, id, e, agent, n - 1);
    }
  }

  lemma ReplayOthers(db: Db, id: string, e: Event, s: Subject, version: nat, agent: string)
    requires id == EventId(s, version) && agent in db.agents && !Dated(db, s, version)
    ensures Replay(db.events[id := e], agent, db.agents[agent].version)
            == Replay(db.events, agent, db.agents[agent].version)
  {
    forall m: nat | 1 <= m <= db.agents[agent].version
      ensures EventId(OfAgent(agent), m) != id
    {
      if EventId(OfAgent(agent), m) == id {
        EventIdsDistinct(OfAgent(agent), m, s, version);
      }
    }
    ReplayStays(db.events, id, e, agent, db.agents[agent].version);
  }

  // Transitions.

  /** A transition goes through exactly when the live agent is at the expected version. */
  lemma TransitionExactly(db: Db, op: Op)
    requires Inv(db) && op.Transition?
    ensures Apply(db, op).Some? <==> Matches(db, op.agent, op.expected)
  {
    if Matches(db, op.agent, op.expected) {
      TransitionFits(db, op);
    }
  }

  lemma TransitionFits(db: Db, op: Op)
    requires EventsOk(db) && op.Transition? && Matches(db, op.agent, op.expected)
    ensures Apply(db, op).Some?
  {
    var next := db.agents[op.agent].version + 1;
    NextEventFits(db, OfAgent(op.agent), next, TransitionEvent(op, next));
  }

  lemma ReceiptsStay(db: Db, db': Db)
    requires ReceiptsOk(db) && db'.tasks == db.tasks && db'.receipts == db.receipts
    ensures ReceiptsOk(db')
  {
  }

  lemma TransitionResult(db: Db, op: Op)
    requires op.Transition? && Apply(db, op).Some?
    ensures op.agent in db.agents
    ensures var a := db.agents[op.agent];
            var id, e := EventId(OfAgent(op.agent), a.version + 1), TransitionEvent(op, a.version + 1);
            Apply(db, op).value ==
              db.(agents := db.agents[op.agent := a.(status := op.status, version := a.version + 1, text := op.text,
                                                     at := op.at)],
                  events := db.events[id := e])
  {
  }

  lemma TransitionEvents(db: Db, db': Db, op: Op)
    requires EventsOk(db) && op.Transition? && op.agent in db.agents && db'.tasks == db.tasks
    requires var a := db.agents[op.agent];
             && db'.agents == db.agents[op.agent := a.(status := op.status, version := a.version + 1, text := op.text,
                                                       at := op.at)]
             && db'.events == db.events[EventId(OfAgent(op.agent), a.version + 1) := TransitionEvent(op, a.version + 1)]
    ensures EventsOk(db')
  {
    var next := db.agents[op.agent].version + 1;
    EventAdded(db, db', OfAgent(op.agent), next, TransitionEvent(op, next));
  }

  lemma TransitionShown(db: Db, db': Db, op: Op, agent: string)
    requires AgentsOk(db) && op.Transition? && op.agent in db.agents && agent in db.agents
    requires db'.tasks == db.tasks && db'.callsigns == db.callsigns
    requires var a := db.agents[op.agent];
             && db'.agents == db.agents[op.agent := a.(status := op.status, version := a.version + 1, text := op.text,
                                                       at := op.at)]
             && db'.events == db.events[EventId(OfAgent(op.agent), a.version + 1) := TransitionEvent(op, a.version + 1)]
    ensures db'.agents[agent].version >= 1 && !db'.agents[agent].retired && db'.agents[agent].task in db'.tasks
    ensures db'.agents[agent].callsign == db.agents[agent].callsign && db.agents[agent].callsign in db'.callsigns
    ensures Shown(db'.agents[agent]) == Replay(db'.events, agent, db'.agents[agent].version)
  {
    var next := db.agents[op.agent].version + 1;
    var s := OfAgent(op.agent);
    ReplayOthers(db, EventId(s, next), TransitionEvent(op, next), s, next, agent);
  }

  lemma TransitionAgents(db: Db, db': Db, op: Op)
    requires AgentsOk(db) && op.Transition? && op.agent in db.agents
    requires db'.tasks == db.tasks && db'.callsigns == db.callsigns && db'.leases == db.leases
    requires var a := db.agents[op.agent];
             && db'.agents == db.agents[op.agent := a.(status := op.status, version := a.version + 1, text := op.text,
                                                       at := op.at)]
             && db'.events == db.events[EventId(OfAgent(op.agent), a.version + 1) := TransitionEvent(op, a.version + 1)]
    ensures AgentsOk(db')
  {
    assert db'.agents.Keys == db.agents.Keys;
    forall a | a in db.agents
      ensures db'.agents[a].version >= 1 && !db'.agents[a].retired && db'.agents[a].task in db'.tasks
      ensures db'.agents[a].callsign == db.agents[a].callsign && db.agents[a].callsign in db'.callsigns
      ensures Shown(db'.agents[a]) == Replay(db'.events, a, db'.agents[a].version)
    {
      TransitionShown(db, db', op, a);
    }
  }

  lemma TransitionKeeps(db: Db, op: Op)
    requires Inv(db) && op.Transition? && Apply(db, op).Some?
    ensures Inv(Apply(db, op).value)
  {
    var db' := Apply(db, op).value;
    TransitionResult(db, op);
    TransitionEvents(db, db', op);
    TransitionAgents(db, db', op);
    ReceiptsStay(db, db');
  }

  // Reservations.

  /** A reservation goes through exactly when the agent is new, the callsign is known and free, and the task exists. */
  lemma ReserveExactly(db: Db, op: Op)
    requires Inv(db) && op.Reserve?
    ensures Apply(db, op).Some? <==>
              op.agent !in db.agents && op.callsign in db.callsigns && op.callsign !in db.leases && op.task in db.tasks
  {
    if op.agent !in db.agents && op.callsign in db.callsigns && op.callsign !in db.leases && op.task in db.tasks {
      NewAgentIsFree(db, op.agent, op.callsign);
      ReserveFits(db, op);
    }
  }

  lemma NewAgentIsFree(db: Db, agent: string, callsign: string)
    requires AgentsOk(db) && agent !in db.agents && callsign !in db.leases
    ensures agent !in db.leases.Values && forall a <- db.agents :: db.agents[a].callsign != callsign
  {
  }

  lemma ReserveFits(db: Db, op: Op)
    requires EventsOk(db) && op.Reserve?
    requires op.agent !in db.agents && op.callsign in db.callsigns && op.callsign !in db.leases && op.task in db.tasks
    requires op.agent !in db.leases.Values && forall a <- db.agents :: db.agents[a].callsign != op.callsign
    ensures Apply(db, op).Some?
  {
    NextEventFits(db, OfAgent(op.agent), 1, ReserveEvent(op));
  }

  lemma ReserveResult(db: Db, op: Op)
    requires op.Reserve? && Apply(db, op).Some?
    ensures op.agent !in db.agents && op.callsign in db.callsigns && op.callsign !in db.leases && op.task in db.tasks
    ensures Apply(db, op).value ==
              db.(agents := db.agents[op.agent := ReserveRow(op)], leases := db.leases[op.callsign := op.agent],
                  events := db.events[EventId(OfAgent(op.agent), 1) := ReserveEvent(op)])
  {
  }

  lemma ReserveEvents(db: Db, db': Db, op: Op)
    requires EventsOk(db) && op.Reserve? && op.agent !in db.agents && db'.tasks == db.tasks
    requires db'.agents == db.agents[op.agent := ReserveRow(op)]
    requires db'.events == db.events[EventId(OfAgent(op.agent), 1) := ReserveEvent(op)]
    ensures EventsOk(db')
  {
    EventAdded(db, db', OfAgent(op.agent), 1, ReserveEvent(op));
  }

  lemma ReserveAgents(db: Db, db': Db, op: Op)
    requires AgentsOk(db) && op.Reserve? && op.agent !in db.agents && op.callsign in db.callsigns
    requires op.callsign !in db.leases && op.task in db.tasks
    requires db'.tasks == db.tasks && db'.callsigns == db.callsigns
    requires db'.agents == db.agents[op.agent := ReserveRow(op)] && db'.leases == db.leases[op.callsign := op.agent]
    requires db'.events == db.events[EventId(OfAgent(op.agent), 1) := ReserveEvent(op)]
    ensures AgentsOk(db')
  {
    var id := EventId(OfAgent(op.agent), 1);
    forall a | a in db'.agents
      ensures Shown(db'.agents[a]) == Replay(db'.events, a, db'.agents[a].version)
    {
      if a == op.agent {
        assert Replay(db'.events, a, 1) == Applied(Replay(db'.events, a, 0), db'.events[id]);
      } else {
        ReplayOthers(db, id, ReserveEvent(op), OfAgent(op.agent), 1, a);
      }
    }
  }

  lemma ReserveKeeps(db: Db, op: Op)
    requires Inv(db) && op.Reserve? && Apply(db, op).Some?
    ensures Inv(Apply(db, op).value)
  {
    var db' := Apply(db, op).value;
    ReserveResult(db, op);
    ReserveEvents(db, db', op);
    ReserveAgents(db, db', op);
    ReceiptsStay(db, db');
  }

  // Owner transfers.

  /**
   A transfer goes through exactly when the new owner is a live agent of the task and the
   task is at the expected version.
   */
  lemma TransferExactly(db: Db, op: Op)
    requires Inv(db) && op.Transfer?
    ensures Apply(db, op).Some? <==>
              && op.owner in db.agents && db.agents[op.owner].task == op.task && !db.agents[op.owner].retired
              && db.tasks[op.task].version == op.expected
  {
    if op.owner in db.agents && db.agents[op.owner].task == op.task && !db.agents[op.owner].retired
       && db.tasks[op.task].version == op.expected {
      TransferFits(db, op);
    }
  }

  lemma TransferFits(db: Db, op: Op)
    requires EventsOk(db) && ReceiptsOk(db) && op.Transfer? && op.task in db.tasks
    requires op.owner in db.agents && db.agents[op.owner].task == op.task && !db.agents[op.owner].retired
    requires db.tasks[op.task].version == op.expected
    ensures Apply(db, op).Some?
  {
    var next := db.tasks[op.task].version + 1;
    NextEventFits(db, OfTask(op.task), next, TransferEvent(op, next));
    assert (op.task, next) !in db.receipts;
  }

  lemma TransferResult(db: Db, op: Op)
    requires op.Transfer? && Apply(db, op).Some?
    ensures op.task in db.tasks
    ensures var t := db.tasks[op.task];
            Apply(db, op).value ==
              db.(tasks := db.tasks[op.task := t.(owner := Some(op.owner), version := t.version + 1, at := op.at)],
                  events := db.events[EventId(OfTask(op.task), t.version + 1) := TransferEvent(op, t.version + 1)],
                  receipts := db.receipts[(op.task, t.version + 1) := Assignment(op.owner, op.at)])
  {
  }

  lemma TransferEvents(db: Db, db': Db, op: Op)
    requires EventsOk(db) && ReceiptsOk(db) && op.Transfer? && op.task in db.tasks && db'.agents == db.agents
    requires var t := db.tasks[op.task];
             && db'.tasks == db.tasks[op.task := t.(owner := Some(op.owner), version := t.version + 1, at := op.at)]
             && db'.events == db.events[EventId(OfTask(op.task), t.version + 1) := TransferEvent(op, t.version + 1)]
    ensures EventsOk(db')
  {
    var next := db.tasks[op.task].version + 1;
    EventAdded(db, db', OfTask(op.task), next, TransferEvent(op, next));
  }

  lemma TransferAgents(db: Db, db': Db, op: Op)
    requires AgentsOk(db) && op.Transfer? && op.task in db.tasks
    requires db'.agents == db.agents && db'.callsigns == db.callsigns && db'.leases == db.leases
    requires forall t <- db.tasks :: t in db'.tasks
    requires var n := db.tasks[op.task].version + 1;
             db'.events == db.events[EventId(OfTask(op.task), n) := TransferEvent(op, n)]
    ensures AgentsOk(db')
  {
    var next := db.tasks[op.task].version + 1;
    forall a | a in db.agents
      ensures Shown(db'.agents[a]) == Replay(db'.events, a, db'.agents[a].version)
    {
      ReplayOthers(db, EventId(OfTask(op.task), next), TransferEvent(op, next), OfTask(op.task), next, a);
    }
  }

  lemma TransferReceipts(db: Db, db': Db, op: Op)
    requires ReceiptsOk(db) && op.Transfer? && op.task in db.tasks
    requires var t := db.tasks[op.task];
             && db'.tasks == db.tasks[op.task := t.(owner := Some(op.owner), version := t.version + 1, at := op.at)]
             && db'.receipts == db.receipts[(op.task, t.version + 1) := Assignment(op.owner, op.at)]
    ensures ReceiptsOk(db')
  {
  }

  lemma TransferKeeps(db: Db, op: Op)
    requires Inv(db) && op.Transfer? && Apply(db, op).Some?
    ensures Inv(Apply(db, op).value)
  {
    var db' := Apply(db, op).value;
    TransferResult(db, op);
    TransferEvents(db, db', op);
    TransferAgents(db, db', op);
    TransferReceipts(db, db', op);
  }

  // New rows.

  /** New projects, tasks and callsigns have no events and no receipts. */
  lemma DatedStays(db: Db, db': Db)
    requires EventsOk(db) && db'.events == db.events && db'.agents == db.agents
    requires forall t <- db.tasks :: t in db'.tasks && db'.tasks[t].version == db.tasks[t].version
    requires forall t <- db'.tasks :: t !in db.tasks ==> db'.tasks[t].version == 1
    ensures EventsOk(db')
  {
    forall s: Subject, n: nat
      ensures Dated(db', s, n) <==> Dated(db, s, n)
    {
    }
    forall s: Subject, n: nat | Dated(db', s, n)
      ensures HasEvent(db', s, n)
    {
      assert HasEvent(db, s, n);
    }
  }

  lemma OtherKeeps(db: Db, op: Op)
    requires Inv(db) && (op.CreateProject? || op.CreateTask? || op.AddCallsign?) && Apply(db, op).Some?
    ensures Inv(Apply(db, op).value)
  {
    DatedStays(db, Apply(db, op).value);
  }

  lemma AfterKeeps(db: Db, op: Op)
    requires Inv(db)
    ensures Inv(After(db, op))
  {
    if Apply(db, op).Some? {
      match op
      case Transition(_, _, _, _, _) => TransitionKeeps(db, op);
      case Reserve(_, _, _, _) => ReserveKeeps(db, op);
      case Transfer(_, _, _, _) => TransferKeeps(db, op);
      case _ => OtherKeeps(db, op);
    }
  }

  /** Every database that operations can reach, refused ones among them. */
  lemma {:induction false} RunKeeps(ops: seq<Op>)
    ensures Inv(Run(ops))
  {
    if ops == [] {
      EmptyOk();
    } else {
      RunKeeps(ops[..|ops| - 1]);
      AfterKeeps(Run(ops[..|ops| - 1]), ops[|ops| - 1]);
    }
  }

  // ------------------------------------------------------------ what it means

  /** In a reachable database an agent's events are those of its versions, and it shows what they fold to. */
  lemma AgentHistory(ops: seq<Op>, agent: string, n: nat)
    requires agent in Run(ops).agents
    ensures var db := Run(ops);
            && (HasEvent(db, OfAgent(agent), n) <==> 1 <= n <= db.agents[agent].version)
            && Shown(db.agents[agent]) == Replay(db.events, agent, db.agents[agent].version)
  {
    RunKeeps(ops);
    var db := Run(ops);
    if Dated(db, OfAgent(agent), n) {
      assert HasEvent(db, OfAgent(agent), n);
    }
  }

  /** A task's events and receipts are those of its versions from the second on; the last receipt names its owner. */
  lemma TaskHistory(ops: seq<Op>, task: string, n: nat)
    requires task in Run(ops).tasks
    ensures var db := Run(ops); var t := db.tasks[task];
            && (HasEvent(db, OfTask(task), n) <==> 2 <= n <= t.version)
            && ((task, n) in db.receipts <==> 2 <= n <= t.version)
            && (t.version == 1 ==> t.owner == None)
            && (t.version > 1 ==>
                  (task, t.version) in db.receipts
                  && t.owner == Some(db.receipts[(task, t.version)].owner))
  {
    RunKeeps(ops);
    var db := Run(ops);
    if Dated(db, OfTask(task), n) {
      assert HasEvent(db, OfTask(task), n);
    }
  }
}
