/** Expiry of tasks: it is exact, independent of the order of the map, and sensitive to when it is written. */
module OrchestrationExpiry {
  import opened Text
  import opened Orchestration
  import opened OrchestrationLaws
  import opened OrchestrationRuns

  function ExpiredTasks(tasks: map<string, Task>, ids: set<string>, now: Time): map<string, Task> {
    map id | id in tasks :: if id in ids && Expires(tasks[id], now) then TimeOut(tasks[id], now) else tasks[id]
  }

  function ExpiredAgents(agents: map<string, Agent>, tasks: map<string, Task>, ids: set<string>, now: Time)
    : map<string, Agent>
  {
    map id | id in agents ::
      if TaskDue(tasks, agents[id].currentTaskId, ids, now) then Release(agents[id], now) else agents[id]
  }

  predicate TaskDue(tasks: map<string, Task>, id: string, ids: set<string>, now: Time) {
    id in ids && id in tasks && Expires(tasks[id], now)
  }

  /** The memory in which exactly the due tasks among ids are timed out and exactly their agents are released. */
  function Expired(m: Mem, ids: set<string>, now: Time): Mem {
    m.(tasks := ExpiredTasks(m.tasks, ids, now), agents := ExpiredAgents(m.agents, m.tasks, ids, now))
  }

  lemma ExpiredTasksInsert(tasks: map<string, Task>, ids: set<string>, id: string, now: Time)
    requires id in tasks
    ensures ExpiredTasks(tasks, ids + {id}, now) ==
            if Expires(tasks[id], now) then ExpiredTasks(tasks, ids, now)[id := TimeOut(tasks[id], now)]
            else ExpiredTasks(tasks, ids, now)
  {
  }

  lemma ExpiredAgentsInsert(agents: map<string, Agent>, tasks: map<string, Task>, ids: set<string>, id: string,
                            a: string, now: Time)
    requires id in tasks
    requires Expires(tasks[id], now) ==> a in agents && agents[a].currentTaskId == id
    requires Expires(tasks[id], now) ==> forall x :: x in agents && agents[x].currentTaskId == id ==> x == a
    ensures ExpiredAgents(agents, tasks, ids + {id}, now) ==
            if Expires(tasks[id], now) then ExpiredAgents(agents, tasks, ids, now)[a := Release(agents[a], now)]
            else ExpiredAgents(agents, tasks, ids, now)
  {
    var before, after := ExpiredAgents(agents, tasks, ids, now), ExpiredAgents(agents, tasks, ids + {id}, now);
    forall x | x in agents && agents[x].currentTaskId != id ensures after[x] == before[x] {
    }
  }

  lemma ExpireOneExact(m: Mem, ids: set<string>, id: string, now: Time)
    requires Inv(m) && id in m.tasks
    ensures ExpireTaskLocked(Expired(m, ids, now), id, now).0 == Expired(m, ids + {id}, now)
  {
    var e, t := Expired(m, ids, now), m.tasks[id];
    assert t.id == id && IdOk(id);
    if id in ids {
      assert ids + {id} == ids;
      assert !Expires(e.tasks[id], now);
    } else {
      assert e.tasks[id] == t;
      if Expires(t, now) {
        OnlyItsAgent(m, id);
        assert e.agents[t.agentId] == m.agents[t.agentId];
      }
      ExpiredTasksInsert(m.tasks, ids, id, now);
      ExpiredAgentsInsert(m.agents, m.tasks, ids, id, t.agentId, now);
    }
  }

  lemma OnlyItsAgent(m: Mem, id: string)
    requires Inv(m) && id in m.tasks && m.tasks[id].state.Active()
    ensures forall a :: a in m.agents && m.agents[a].currentTaskId == id ==> a == m.tasks[id].agentId
    ensures m.tasks[id].agentId in m.agents && m.agents[m.tasks[id].agentId].currentTaskId == id
    ensures m.agents[m.tasks[id].agentId].id == m.tasks[id].agentId && m.tasks[id].id == id
  {
    assert IdOk(id) && TaskSettled(m.agents, m.tasks[id]);
    forall a | a in m.agents && m.agents[a].currentTaskId == id ensures a == m.tasks[id].agentId {
      assert AgentSettled(m.tasks, m.agents[a]);
    }
  }

  /** Every order of the map gives the same memory: the due tasks timed out, their agents idle, all else as it was. */
  lemma {:induction false} ExpiryExact(m: Mem, order: seq<string>, now: Time)
    requires Inv(m) && forall id :: id in order ==> id in m.tasks
    ensures ExpireTasksLocked(m, order, now).0 == Expired(m, SetOf(order), now)
  {
    if order == [] {
      NothingExpired(m, now);
    } else {
      var init, last := order[..|order| - 1], order[|order| - 1];
      assert last in order && forall id :: id in init ==> id in order;
      ExpiryExact(m, init, now);
      SetOfSnoc(order);
      ExpireOneExact(m, SetOf(init), last, now);
    }
  }

  lemma NothingExpired(m: Mem, now: Time)
    ensures SetOf([]) == {} && Expired(m, {}, now) == m
  {
    assert ExpiredTasks(m.tasks, {}, now) == m.tasks;
    assert ExpiredAgents(m.agents, m.tasks, {}, now) == m.agents;
  }

  lemma SetOfSnoc(ids: seq<string>)
    requires ids != []
    ensures SetOf(ids) == SetOf(ids[..|ids| - 1]) + {ids[|ids| - 1]}
  {
    assert ids == ids[..|ids| - 1] + [ids[|ids| - 1]];
  }

  /** A second expiry at the same time changes nothing and writes nothing. */
  lemma {:induction false} SecondExpiryIdle(m: Mem, order: seq<string>, now: Time)
    ensures var e := Expired(m, m.tasks.Keys, now); ExpireTasksLocked(e, order, now) == (e, Batch([], []))
  {
    if order != [] {
      SecondExpiryIdle(m, order[..|order| - 1], now);
    }
  }
}
