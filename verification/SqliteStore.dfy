/**
 `SQLiteStorePrototype` of prototypes/sqlite_store.py as an object: its tables are
 fields, and each operation is a transaction that changes them row by row and puts them
 back when a statement fails.
 */
module SqliteStore {
  import opened Prelude
  import opened VersionedStore

  class SQLiteStorePrototype {
    var projects: map<string, Project>
    var tasks: map<string, Task>
    var callsigns: map<string, string>
    var agents: map<string, Agent>
    var leases: map<string, string>
    var events: map<string, Event>
    var receipts: map<(string, nat), Assignment>

    function Contents(): Db
      reads this
    {
      Db(projects, tasks, callsigns, agents, leases, events, receipts)
    }

    ghost predicate Valid()
      reads this
    {
      Inv(Contents())
    }

    constructor ()
      ensures Valid() && Contents() == EMPTY
    {
      projects, tasks, callsigns, agents, leases, events, receipts := map[], map[], map[], map[], map[], map[], map[];
    }

    method Rollback(saved: Db)
      modifies this
      ensures Contents() == saved
    {
      projects, tasks, callsigns := saved.projects, saved.tasks, saved.callsigns;
      agents, leases, events, receipts := saved.agents, saved.leases, saved.events, saved.receipts;
    }

    // Single inserts, which fail on a constraint and then change nothing.

    method PutEvent(id: string, e: Event) returns (ok: bool)
      modifies this`events
      ensures ok <==> InsertEvent(old(Contents()), id, e).Some?
      ensures Contents() == if ok then InsertEvent(old(Contents()), id, e).value else old(Contents())
    {
      if id in events || (exists k <- events :: events[k].subject == e.subject && events[k].version == e.version) {
        return false;
      }
      if (e.subject.OfAgent? && e.subject.agent !in agents) || (e.subject.OfTask? && e.subject.task !in tasks) {
        return false;
      }
      events := events[id := e];
      return true;
    }

    method PutAgent(id: string, a: Agent) returns (ok: bool)
      modifies this`agents
      ensures ok <==> InsertAgent(old(Contents()), id, a).Some?
      ensures Contents() == if ok then InsertAgent(old(Contents()), id, a).value else old(Contents())
    {
      if id in agents || a.callsign !in callsigns || a.task !in tasks {
        return false;
      }
      if exists k <- agents :: agents[k].callsign == a.callsign && !agents[k].retired {
        return false;
      }
      agents := agents[id := a];
      return true;
    }

    method PutLease(callsign: string, agent: string) returns (ok: bool)
      modifies this`leases
      ensures ok <==> InsertLease(old(Contents()), callsign, agent).Some?
      ensures Contents() == if ok then InsertLease(old(Contents()), callsign, agent).value else old(Contents())
    {
      if callsign in leases || agent in leases.Values || callsign !in callsigns || agent !in agents {
        return false;
      }
      leases := leases[callsign := agent];
      return true;
    }

    method PutReceipt(task: string, version: nat, a: Assignment) returns (ok: bool)
      modifies this`receipts
      ensures ok <==> InsertReceipt(old(Contents()), task, version, a).Some?
      ensures Contents() == if ok then InsertReceipt(old(Contents()), task, version, a).value else old(Contents())
    {
      if (task, version) in receipts || task !in tasks || a.owner !in agents {
        return false;
      }
      receipts := receipts[(task, version) := a];
      return true;
    }

    // The operations.

    method CreateProject(id: string, url: string, at: string) returns (ok: bool)
      requires Valid()
      modifies this
      ensures Valid() && Contents() == After(old(Contents()), Op.CreateProject(id, url, at))
      ensures ok <==> id !in old(projects) && forall p <- old(projects) :: old(projects)[p].url != url
    {
      AfterKeeps(Contents(), Op.CreateProject(id, url, at));
      if id in projects || (exists p <- projects :: projects[p].url == url) {
        return false;
      }
      projects := projects[id := Project(url, at)];
      return true;
    }

    method CreateTask(id: string, project: string, summary: string, at: string) returns (ok: bool)
      requires Valid()
      modifies this
      ensures Valid() && Contents() == After(old(Contents()), Op.CreateTask(id, project, summary, at))
      ensures ok <==> id !in old(tasks) && project in old(projects)
    {
      AfterKeeps(Contents(), Op.CreateTask(id, project, summary, at));
      if id in tasks || project !in projects {
        return false;
      }
      tasks := tasks[id := Task(project, summary, 1, None, at)];
      return true;
    }

    method AddCallsign(callsign: string, role: string) returns (ok: bool)
      requires Valid()
      modifies this
      ensures Valid() && Contents() == After(old(Contents()), Op.AddCallsign(callsign, role))
      ensures ok <==> callsign !in old(callsigns) && role in ["shotcaller", "champion", "hidden-worker"]
    {
      AfterKeeps(Contents(), Op.AddCallsign(callsign, role));
      if callsign in callsigns || role !in ["shotcaller", "champion", "hidden-worker"] {
        return false;
      }
      callsigns := callsigns[callsign := role];
      return true;
    }

    method ReserveCallsign(callsign: string, agent: string, task: string, at: string) returns (ok: bool)
      requires Valid()
      modifies this
      ensures Valid() && Contents() == After(old(Contents()), Reserve(callsign, agent, task, at))
      ensures ok <==>
                agent !in old(agents) && callsign in old(callsigns) && callsign !in old(leases) && task in old(tasks)
    {
      ReserveExactly(Contents(), Reserve(callsign, agent, task, at));
      AfterKeeps(Contents(), Reserve(callsign, agent, task, at));
      ok := ReserveTransaction(callsign, agent, task, at);
    }

    method ReserveTransaction(callsign: string, agent: string, task: string, at: string) returns (ok: bool)
      modifies this
      ensures Contents() == After(old(Contents()), Reserve(callsign, agent, task, at))
      ensures ok <==> Apply(old(Contents()), Reserve(callsign, agent, task, at)).Some?
    {
      var saved := Contents();
      ok := PutAgent(agent, Agent(callsign, task, "working", 1, at, "reserved", false));
      if ok {
        ok := PutLease(callsign, agent);
      }
      if ok {
        ok := PutEvent(EventId(OfAgent(agent), 1), Event(OfAgent(agent), 1, "callsign_reserved", "working", "reserved",
                                                         at));
      }
      if !ok {
        Rollback(saved);
      }
    }

    method Transition(agent: string, expected: int, status: string, text: string, at: string) returns (ok: bool)
      requires Valid()
      modifies this
      ensures Valid() && Contents() == After(old(Contents()), Op.Transition(agent, expected, status, text, at))
      ensures ok <==> Matches(old(Contents()), agent, expected)
    {
      TransitionExactly(Contents(), Op.Transition(agent, expected, status, text, at));
      AfterKeeps(Contents(), Op.Transition(agent, expected, status, text, at));
      ok := TransitionTransaction(agent, expected, status, text, at);
    }

    method TransitionTransaction(agent: string, expected: int, status: string, text: string, at: string)
        returns (ok: bool)
      modifies this
      ensures Contents() == After(old(Contents()), Op.Transition(agent, expected, status, text, at))
      ensures ok <==> Apply(old(Contents()), Op.Transition(agent, expected, status, text, at)).Some?
    {
      var saved := Contents();
      if !(agent in agents && agents[agent].version == expected && !agents[agent].retired) {
        return false;
      }
      var next := agents[agent].version + 1;
      agents := agents[agent := agents[agent].(status := status, version := next, text := text, at := at)];
      assert Contents() == UpdateAgent(saved, agent, status, text, at);
      ok := PutEvent(EventId(OfAgent(agent), next), Event(OfAgent(agent), next, "agent_transition", status, text, at));
      if !ok {
        Rollback(saved);
      }
    }

    method TransferTaskOwner(task: string, expected: int, owner: string, at: string) returns (ok: bool)
      requires Valid()
      modifies this
      ensures Valid() && Contents() == After(old(Contents()), Transfer(task, expected, owner, at))
      ensures ok <==> owner in old(agents) && old(agents)[owner].task == task && !old(agents)[owner].retired
                      && task in old(tasks) && old(tasks)[task].version == expected
    {
      TransferExactly(Contents(), Transfer(task, expected, owner, at));
      AfterKeeps(Contents(), Transfer(task, expected, owner, at));
      ok := TransferTransaction(task, expected, owner, at);
    }

    method TransferTransaction(task: string, expected: int, owner: string, at: string) returns (ok: bool)
      modifies this
      ensures Contents() == After(old(Contents()), Transfer(task, expected, owner, at))
      ensures ok <==> Apply(old(Contents()), Transfer(task, expected, owner, at)).Some?
    {
      var saved := Contents();
      if !(owner in agents && agents[owner].task == task && !agents[owner].retired) {
        return false;
      }
      if !(task in tasks && tasks[task].version == expected) {
        return false;
      }
      var next := tasks[task].version + 1;
      tasks := tasks[task := tasks[task].(owner := Some(owner), version := next, at := at)];
      assert Contents() == UpdateOwner(saved, task, owner, at);
      ok := PutEvent(EventId(OfTask(task), next),
                     Event(OfTask(task), next, "task_owner_transferred", "active", "owner transferred", at));
      if ok {
        ok := PutReceipt(task, next, Assignment(owner, at));
      }
      if !ok {
        Rollback(saved);
      }
    }
  }
}
