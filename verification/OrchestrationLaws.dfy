/** What every reachable state of the orchestrator satisfies: occupancy, naming and task history. */
module OrchestrationLaws {
  import opened Text
  import opened Orchestration

  ghost predicate IdOk(id: string) { id != "" && Trim(id) == id }

  ghost predicate PoolsOk(pools: map<string, Pool>) {
    && (forall id :: id in pools ==> pools[id].id == id && IdOk(id) && Normal(pools[id].name) != "")
    && (forall i, j :: i in pools && j in pools && Normal(pools[i].name) == Normal(pools[j].name) ==> i == j)
  }

  /** The agent's copy of its pool's name is right, and empty when it has no pool. */
  ghost predicate PoolKnown(pools: map<string, Pool>, a: Agent) {
    if a.poolId == "" then a.poolName == "" else a.poolId in pools && a.poolName == pools[a.poolId].name
  }

  ghost predicate SameName(a: Agent, b: Agent) { a.poolId == b.poolId && Normal(a.name) == Normal(b.name) }

  ghost predicate NamesOk(pools: map<string, Pool>, agents: map<string, Agent>) {
    && (forall id :: id in agents ==> PoolKnown(pools, agents[id]))
    && (forall i, j :: i in agents && j in agents && SameName(agents[i], agents[j]) ==> i == j)
  }

  /** A busy agent works on exactly the active task that names it, and an idle one has none. */
  ghost predicate AgentSettled(tasks: map<string, Task>, a: Agent) {
    if a.currentTaskId == "" then a.availability.Idle?
    else
      && a.availability.Busy?
      && a.currentTaskId in tasks
      && tasks[a.currentTaskId].agentId == a.id
      && tasks[a.currentTaskId].state.Active()
  }

  ghost predicate TaskSettled(agents: map<string, Agent>, t: Task) {
    t.state.Active() ==> t.agentId in agents && agents[t.agentId].currentTaskId == t.id
  }

  ghost predicate Occupancy(agents: map<string, Agent>, tasks: map<string, Task>) {
    && (forall id :: id in agents ==> agents[id].id == id && IdOk(id) && AgentSettled(tasks, agents[id]))
    && (forall id :: id in tasks ==> tasks[id].id == id && IdOk(id) && TaskSettled(agents, tasks[id]))
  }

  /** An active task has no result yet, and a result counts what its task holds. */
  predicate ResultCounted(t: Task) {
    t.result.Some? ==>
      && !t.state.Active()
      && t.result.value.transcriptEntries == |t.transcript|
      && t.result.value.outputArtifacts == |t.outputArtifacts|
  }

  /** Attempts count the retries, and the transcript is numbered from 1 without a gap. */
  ghost predicate TaskCounted(t: Task) {
    && t.attempt == t.retryCount + 1 && t.retryCount >= 0 && ResultCounted(t)
    && (forall i :: 0 <= i < |t.transcript| ==> t.transcript[i].sequence == i + 1)
  }

  ghost predicate Counted(tasks: map<string, Task>) { forall id :: id in tasks ==> TaskCounted(tasks[id]) }

  /** One task later in its life: nothing already recorded is rewritten, and a completed task is not touched at all. */
  ghost predicate Evolves(t: Task, u: Task) {
    && u.id == t.id && u.agentId == t.agentId && u.prompt == t.prompt && u.createdAt == t.createdAt
    && u.requestedBy == t.requestedBy && u.timeoutSeconds == t.timeoutSeconds && u.inputArtifacts == t.inputArtifacts
    && t.retryCount <= u.retryCount
    && t.transcript <= u.transcript && t.outputArtifacts <= u.outputArtifacts
    && (t.state.Completed? ==> u == t)
  }

  ghost predicate Inv(m: Mem) {
    PoolsOk(m.pools) && NamesOk(m.pools, m.agents) && Occupancy(m.agents, m.tasks) && Counted(m.tasks)
  }

  // Occupancy is a bijection between busy agents and active tasks.

  /** No agent has two active tasks, and no two agents work on the same one. */
  lemma OneTaskPerAgent(m: Mem, t: string, u: string)
    requires Inv(m) && t in m.tasks && u in m.tasks && m.tasks[t].state.Active() && m.tasks[u].state.Active()
    ensures m.tasks[t].agentId == m.tasks[u].agentId <==> t == u
  {
  }

  lemma BusyExactlyWithTask(m: Mem, a: string, t: string)
    requires Inv(m) && a in m.agents && t in m.tasks
    ensures m.agents[a].currentTaskId == t <==> m.tasks[t].state.Active() && m.tasks[t].agentId == a
    ensures m.agents[a].availability.Busy? <==> m.agents[a].currentTaskId != ""
  {
  }

  // Naming.

  /** With a pool name given, at most one agent matches, whatever the order of the map. */
  lemma PoolNameDisambiguates(m: Mem, target: Target, i: string, j: string)
    requires Inv(m) && Normal(target.poolName) != ""
    requires i in MatchingIds(m, target) && j in MatchingIds(m, target)
    ensures i == j
  {
    PoolFound(m, target, i);
    PoolFound(m, target, j);
    assert SameName(m.agents[i], m.agents[j]);
  }

  lemma PoolFound(m: Mem, target: Target, i: string)
    requires Inv(m) && Normal(target.poolName) != "" && i in MatchingIds(m, target)
    ensures var p := m.agents[i].poolId; p in m.pools && Normal(m.pools[p].name) == Normal(target.poolName)
  {
    assert Normal("") == "";
    assert PoolKnown(m.pools, m.agents[i]);
  }

  lemma ResolveNeverAmbiguous(m: Mem, target: Target)
    requires Inv(m) && Normal(target.poolName) != ""
    ensures ResolveAgent(m, target) != Err(AgentAmbiguous)
  {
    forall i, j | i in MatchingIds(m, target) && j in MatchingIds(m, target) ensures i == j {
      PoolNameDisambiguates(m, target, i, j);
    }
    AtMostOne(MatchingIds(m, target));
  }

  lemma AtMostOne(ids: set<string>)
    requires forall i, j :: i in ids && j in ids ==> i == j
    ensures |ids| <= 1
  {
    if ids != {} {
      var i :| i in ids;
      assert ids == {i};
    }
  }

  // Preservation, write by write.

  lemma NewPoolKeeps(m: Mem, p: Pool)
    requires Inv(m) && IdOk(p.id) && p.id !in m.pools && Normal(p.name) != "" && !HasPoolName(m, p.name)
    ensures Inv(m.(pools := m.pools[p.id := p]))
  {
    forall id | id in m.pools ensures Normal(m.pools[id].name) != Normal(p.name) {
      assert id !in PoolsNamed(m, p.name);
    }
    NewPoolKeepsPools(m.pools, p);
    NewPoolKeepsNames(m.pools, m.agents, p);
  }

  lemma NewPoolKeepsPools(pools: map<string, Pool>, p: Pool)
    requires PoolsOk(pools) && IdOk(p.id) && p.id !in pools && Normal(p.name) != ""
    requires forall id :: id in pools ==> Normal(pools[id].name) != Normal(p.name)
    ensures PoolsOk(pools[p.id := p])
  {
  }

  lemma NewPoolKeepsNames(pools: map<string, Pool>, agents: map<string, Agent>, p: Pool)
    requires NamesOk(pools, agents) && p.id !in pools
    ensures NamesOk(pools[p.id := p], agents)
  {
    forall id | id in agents ensures PoolKnown(pools[p.id := p], agents[id]) {
      assert PoolKnown(pools, agents[id]);
    }
  }

  lemma NewAgentKeeps(m: Mem, a: Agent)
    requires Inv(m) && IdOk(a.id) && a.id !in m.agents && a.currentTaskId == "" && a.availability.Idle?
    requires PoolKnown(m.pools, a) && !HasAgentName(m, a.name, a.poolId)
    ensures Inv(m.(agents := m.agents[a.id := a]))
  {
    NewAgentIsNew(m, a);
    NewAgentKeepsNames(m.pools, m.agents, a);
    NewAgentKeepsOccupancy(m.agents, m.tasks, a);
  }

  lemma NewAgentIsNew(m: Mem, a: Agent)
    requires !HasAgentName(m, a.name, a.poolId)
    ensures forall id :: id in m.agents ==> !SameName(m.agents[id], a)
  {
    forall id | id in m.agents ensures !SameName(m.agents[id], a) {
      assert id !in AgentsNamed(m, a.name, a.poolId);
    }
  }

  lemma NewAgentKeepsNames(pools: map<string, Pool>, agents: map<string, Agent>, a: Agent)
    requires NamesOk(pools, agents) && a.id !in agents && PoolKnown(pools, a)
    requires forall id :: id in agents ==> !SameName(agents[id], a)
    ensures NamesOk(pools, agents[a.id := a])
  {
    var after := agents[a.id := a];
    forall i, j | i in after && j in after && SameName(after[i], after[j]) ensures i == j {
      if i != a.id && j != a.id {
        assert SameName(agents[i], agents[j]);
      } else if i != a.id {
        assert !SameName(agents[i], a);
      }
    }
  }

  lemma NewAgentKeepsOccupancy(agents: map<string, Agent>, tasks: map<string, Task>, a: Agent)
    requires Occupancy(agents, tasks) && IdOk(a.id) && a.id !in agents && a.currentTaskId == "" && a.availability.Idle?
    ensures Occupancy(agents[a.id := a], tasks)
  {
    var after := agents[a.id := a];
    forall id | id in tasks ensures TaskSettled(after, tasks[id]) {
      assert TaskSettled(agents, tasks[id]);
    }
    forall id | id in after ensures after[id].id == id && IdOk(id) && AgentSettled(tasks, after[id]) {
      if id != a.id {
        assert AgentSettled(tasks, agents[id]);
      }
    }
  }

  ghost predicate SameIdentity(a: Agent, b: Agent) {
    a.id == b.id && a.name == b.name && a.poolId == b.poolId && a.poolName == b.poolName
  }

  lemma SameIdentityKeepsNames(pools: map<string, Pool>, agents: map<string, Agent>, a: Agent)
    requires NamesOk(pools, agents) && a.id in agents && SameIdentity(agents[a.id], a)
    ensures NamesOk(pools, agents[a.id := a])
  {
    var after := agents[a.id := a];
    forall id | id in after ensures PoolKnown(pools, after[id]) {
      assert PoolKnown(pools, agents[id]);
    }
    forall i, j | i in after && j in after && SameName(after[i], after[j]) ensures i == j {
      assert SameName(agents[i], agents[j]);
    }
  }

  /** Changing a task and its agent together keeps the invariant, if the pair is settled afterwards. */
  lemma PairKeepsOccupancy(agents: map<string, Agent>, tasks: map<string, Task>, t: Task, a: Agent)
    requires Occupancy(agents, tasks) && IdOk(t.id) && a.id in agents && t.agentId == a.id
    requires t.id in tasks ==> tasks[t.id].agentId == a.id
    requires agents[a.id].currentTaskId == t.id || agents[a.id].currentTaskId == ""
    requires if t.state.Active() then a.currentTaskId == t.id && a.availability.Busy?
             else a.currentTaskId == "" && a.availability.Idle?
    ensures Occupancy(agents[a.id := a], tasks[t.id := t])
  {
    var agents', tasks' := agents[a.id := a], tasks[t.id := t];
    forall id | id in tasks' ensures tasks'[id].id == id && IdOk(id) && TaskSettled(agents', tasks'[id]) {
      if id != t.id {
        assert TaskSettled(agents, tasks[id]);
      }
    }
    forall id | id in agents' ensures agents'[id].id == id && IdOk(id) && AgentSettled(tasks', agents'[id]) {
      if id != a.id {
        assert AgentSettled(tasks, agents[id]);
      }
    }
  }

  lemma PairKeeps(m: Mem, t: Task, a: Agent)
    requires Inv(m) && IdOk(t.id) && TaskCounted(t) && a.id in m.agents && t.agentId == a.id
    requires SameIdentity(m.agents[a.id], a)
    requires t.id in m.tasks ==> m.tasks[t.id].agentId == a.id
    requires m.agents[a.id].currentTaskId == t.id || m.agents[a.id].currentTaskId == ""
    requires if t.state.Active() then a.currentTaskId == t.id && a.availability.Busy?
             else a.currentTaskId == "" && a.availability.Idle?
    ensures Inv(m.(agents := m.agents[a.id := a], tasks := m.tasks[t.id := t]))
  {
    PairKeepsOccupancy(m.agents, m.tasks, t, a);
    SameIdentityKeepsNames(m.pools, m.agents, a);
  }

  /** Changing a task without touching what settles it. */
  lemma TaskKeeps(m: Mem, t: Task)
    requires Inv(m) && t.id in m.tasks && TaskCounted(t)
    requires t.agentId == m.tasks[t.id].agentId && t.state.Active() == m.tasks[t.id].state.Active()
    ensures Inv(m.(tasks := m.tasks[t.id := t]))
  {
    TaskKeepsOccupancy(m.agents, m.tasks, t);
  }

  lemma TaskKeepsOccupancy(agents: map<string, Agent>, tasks: map<string, Task>, t: Task)
    requires Occupancy(agents, tasks) && t.id in tasks
    requires t.agentId == tasks[t.id].agentId && t.state.Active() == tasks[t.id].state.Active()
    ensures Occupancy(agents, tasks[t.id := t])
  {
    var tasks' := tasks[t.id := t];
    forall id | id in tasks' ensures tasks'[id].id == id && IdOk(id) && TaskSettled(agents, tasks'[id]) {
      assert TaskSettled(agents, tasks[id]);
    }
    forall id | id in agents ensures AgentSettled(tasks', agents[id]) {
      assert AgentSettled(tasks, agents[id]);
    }
  }

  /** Ending an active task and releasing its agent. */
  ghost function Ended(m: Mem, id: string, u: Task, now: Time): Mem {
    m.(tasks := m.tasks[id := u],
       agents := if u.agentId in m.agents then m.agents[u.agentId := Release(m.agents[u.agentId], now)] else m.agents)
  }

  lemma EndKeeps(m: Mem, id: string, u: Task, now: Time)
    requires Inv(m) && id in m.tasks && m.tasks[id].state.Active()
    requires u.id == id && u.agentId == m.tasks[id].agentId && !u.state.Active() && TaskCounted(u)
    ensures Inv(Ended(m, id, u, now))
  {
    ActivePair(m, id);
    PairKeeps(m, u, Release(m.agents[u.agentId], now));
  }

  // Preservation, operation by operation.

  lemma CreatePoolKeeps(s: Svc, red: Redactor, name: string, workspace: string, id: string, now: Time)
    requires Inv(s.mem) && IdOk(id) && id !in s.mem.pools
    ensures Inv(CreatePool(s, red, name, workspace, id, now).0.mem)
  {
    if Normal(name) != "" && !HasPoolName(s.mem, name) {
      TrimTwice(name);
      NewPoolKeeps(s.mem, Pool(id, Trim(name), Trim(workspace), now));
    }
  }

  lemma CreateAgentKeeps(s: Svc, red: Redactor, req: AgentRequest, binding: Result<Option<Binding>>, id: string,
                         now: Time)
    requires Inv(s.mem) && IdOk(id) && id !in s.mem.agents
    ensures Inv(CreateAgent(s, red, req, binding, id, now).0.mem)
  {
    var (s', r) := CreateAgent(s, red, req, binding, id, now);
    if r.Ok? {
      CreatedAgent(s, red, req, binding, id, now);
      NewAgentKeeps(s.mem, r.value);
    } else {
      assert s' == s;
    }
  }

  /** An agent that is created has no task, the name of its pool, and a name that is new there. */
  lemma CreatedAgent(s: Svc, red: Redactor, req: AgentRequest, binding: Result<Option<Binding>>, id: string, now: Time)
    requires PoolsOk(s.mem.pools) && CreateAgent(s, red, req, binding, id, now).1.Ok?
    ensures var (s', r) := CreateAgent(s, red, req, binding, id, now);
            && r.value.id == id && r.value.currentTaskId == "" && r.value.availability.Idle?
            && PoolKnown(s.mem.pools, r.value) && !HasAgentName(s.mem, r.value.name, r.value.poolId)
            && s'.mem == s.mem.(agents := s.mem.agents[id := r.value])
  {
    TrimTwice(req.name);
    FoundPool(s.mem, req.poolId, req.poolName);
  }

  lemma FoundPool(m: Mem, poolId: string, poolName: string)
    requires PoolsOk(m.pools) && ResolvePool(m, poolId, poolName).Ok?
    ensures var p := ResolvePool(m, poolId, poolName).value;
            p.Some? ==> p.value.id != "" && p.value.id in m.pools && m.pools[p.value.id] == p.value
  {
  }

  /** An active task and its agent hold on to each other. */
  ghost predicate Engaged(m: Mem, id: string) {
    && id in m.tasks && m.tasks[id].id == id && m.tasks[id].state.Active()
    && var a := m.tasks[id].agentId; a in m.agents && m.agents[a].id == a && m.agents[a].currentTaskId == id
  }

  lemma ActivePair(m: Mem, id: string)
    requires Inv(m) && id in m.tasks && m.tasks[id].state.Active()
    ensures Engaged(m, id) && IdOk(id) && TaskCounted(m.tasks[id])
  {
    assert TaskSettled(m.agents, m.tasks[id]);
  }

  lemma ExpireTaskKeeps(m: Mem, taskId: string, now: Time)
    requires Inv(m)
    ensures Inv(ExpireTaskLocked(m, taskId, now).0)
  {
    var id := Trim(taskId);
    if id in m.tasks && Expires(m.tasks[id], now) {
      ActivePair(m, id);
      EndKeeps(m, id, TimeOut(m.tasks[id], now), now);
    }
  }

  lemma {:induction false} ExpireTasksKeeps(m: Mem, order: seq<string>, now: Time)
    requires Inv(m)
    ensures Inv(ExpireTasksLocked(m, order, now).0)
  {
    if order != [] {
      ExpireTasksKeeps(m, order[..|order| - 1], now);
      ExpireTaskKeeps(ExpireTasksLocked(m, order[..|order| - 1], now).0, order[|order| - 1], now);
    }
  }

  lemma DispatchTaskKeeps(s: Svc, red: Redactor, requestedBy: string, req: TaskRequest, id: string, ids: seq<string>,
                          now: Time)
    requires Inv(s.mem) && IdOk(id) && id !in s.mem.tasks && |ids| == |req.inputs|
    ensures Inv(DispatchTask(s, red, requestedBy, req, id, ids, now).0.mem)
  {
    var found, r := ResolveAgent(s.mem, req.target), DispatchTask(s, red, requestedBy, req, id, ids, now).1;
    if r.Ok? {
      ResolvedIsRegistered(s.mem, req.target);
      assert found.value.currentTaskId == "";
      PairKeeps(s.mem, r.value, Occupy(found.value, id, now));
    }
  }

  lemma ResolvedFrom(m: Mem, target: Target) returns (id: string)
    requires ResolveAgent(m, target).Ok?
    ensures id in m.agents && m.agents[id] == ResolveAgent(m, target).value
  {
    id := if Trim(target.agentId) != "" then Trim(target.agentId) else Pick(MatchingIds(m, target));
  }

  /** A resolved agent is one of the registered ones, and it is settled. */
  lemma ResolvedIsRegistered(m: Mem, target: Target)
    requires Inv(m) && ResolveAgent(m, target).Ok?
    ensures var a := ResolveAgent(m, target).value;
            && a.id in m.agents && m.agents[a.id] == a
            && (a.currentTaskId == "" || (a.availability.Busy? && Trim(a.currentTaskId) != ""))
  {
    var id := ResolvedFrom(m, target);
    AgentIsSettled(m, id);
  }

  lemma AgentIsSettled(m: Mem, id: string)
    requires Inv(m) && id in m.agents
    ensures var a := m.agents[id];
            a.id == id && (a.currentTaskId == "" || (a.availability.Busy? && Trim(a.currentTaskId) != ""))
  {
    var a := m.agents[id];
    assert AgentSettled(m.tasks, a);
    if a.currentTaskId != "" {
      assert IdOk(a.currentTaskId);
    }
  }

  lemma StartTaskKeeps(s: Svc, red: Redactor, taskId: string, now: Time)
    requires Inv(s.mem)
    ensures Inv(StartTask(s, red, taskId, now).0.mem)
  {
    var (s', r) := StartTask(s, red, taskId, now);
    if r.Ok? {
      assert TaskSettled(s.mem.agents, s.mem.tasks[Trim(taskId)]);
      PairKeeps(s.mem, r.value, Occupy(s.mem.agents[r.value.agentId], r.value.id, now));
    }
  }

  lemma CancelledCounted(t: Task, now: Time)
    requires TaskCounted(t)
    ensures TaskCounted(Stamped(t, Cancelled, now))
  {
  }

  lemma CancelTaskKeeps(s: Svc, red: Redactor, taskId: string, now: Time)
    requires Inv(s.mem)
    ensures Inv(CancelTask(s, red, taskId, now).0.mem)
  {
    var id := Trim(taskId);
    if id in s.mem.tasks && s.mem.tasks[id].state.Active() {
      ActivePair(s.mem, id);
      CancelledCounted(s.mem.tasks[id], now);
      EndKeeps(s.mem, id, Stamped(s.mem.tasks[id], Cancelled, now), now);
      CancelledMem(s, red, taskId, now);
    } else {
      assert CancelTask(s, red, taskId, now).0 == s;
    }
  }

  lemma CompleteTaskKeeps(s: Svc, red: Redactor, taskId: string, summary: string, outcome: string, now: Time)
    requires Inv(s.mem)
    ensures Inv(CompleteTask(s, red, taskId, summary, outcome, now).0.mem)
  {
    var id := Trim(taskId);
    if id in s.mem.tasks && s.mem.tasks[id].state.Active() {
      ActivePair(s.mem, id);
      CompletedMem(s, red, taskId, summary, outcome, now);
      var u := CompleteTask(s, red, taskId, summary, outcome, now).1.value;
      assert TaskCounted(u);
      EndKeeps(s.mem, id, u, now);
    } else {
      assert CompleteTask(s, red, taskId, summary, outcome, now).0 == s;
    }
  }

  lemma CancelledMem(s: Svc, red: Redactor, taskId: string, now: Time)
    requires Engaged(s.mem, Trim(taskId))
    ensures var t := s.mem.tasks[Trim(taskId)];
            CancelTask(s, red, taskId, now).0.mem == Ended(s.mem, t.id, Stamped(t, Cancelled, now), now)
  {
  }

  lemma CompletedMem(s: Svc, red: Redactor, taskId: string, summary: string, outcome: string, now: Time)
    requires Engaged(s.mem, Trim(taskId))
    ensures var t := s.mem.tasks[Trim(taskId)];
            var (s', r) := CompleteTask(s, red, taskId, summary, outcome, now);
            && r.Ok? && r.value.id == t.id && r.value.agentId == t.agentId && r.value.state.Completed?
            && r.value.attempt == t.attempt && r.value.retryCount == t.retryCount && r.value.transcript == t.transcript
            && ResultCounted(r.value)
            && Evolves(t, r.value)
            && s'.mem == Ended(s.mem, t.id, r.value, now)
  {
    var t := s.mem.tasks[Trim(taskId)];
    var stamped := Stamped(t, Completed, now);
    var last := CompleteTask(s, red, taskId, summary, outcome, now).1.value;
    assert s.mem.tasks[t.id := stamped][t.id := last] == s.mem.tasks[t.id := last];
  }

  /** What a retry that is accepted makes of its task and its agent. */
  lemma RetriedMem(s: Svc, red: Redactor, taskId: string, now: Time)
    requires RetryTask(s, red, taskId, now).1.Ok?
    ensures var ((s', r), id) := (RetryTask(s, red, taskId, now), Trim(taskId));
            && id in s.mem.tasks && r.value.agentId == s.mem.tasks[id].agentId && r.value.agentId in s.mem.agents
            && r.value.id == s.mem.tasks[id].id && r.value.state.Assigned? && r.value.result.None?
            && r.value.transcript == s.mem.tasks[id].transcript
            && r.value.attempt == s.mem.tasks[id].attempt + 1 && r.value.retryCount == s.mem.tasks[id].retryCount + 1
            && var a := s.mem.agents[r.value.agentId];
               && (Trim(a.currentTaskId) == "" || a.currentTaskId == r.value.id)
               && s'.mem == s.mem.(tasks := s.mem.tasks[r.value.id := r.value],
                                   agents := s.mem.agents[a.id := Occupy(a, r.value.id, now)])
  {
  }

  lemma RetryTaskKeeps(s: Svc, red: Redactor, taskId: string, now: Time)
    requires Inv(s.mem)
    ensures Inv(RetryTask(s, red, taskId, now).0.mem)
  {
    var (s', r) := RetryTask(s, red, taskId, now);
    if r.Ok? {
      RetriedMem(s, red, taskId, now);
      AgentIsSettled(s.mem, r.value.agentId);
      assert TaskCounted(s.mem.tasks[Trim(taskId)]);
      PairKeeps(s.mem, r.value, Occupy(s.mem.agents[r.value.agentId], r.value.id, now));
    } else {
      assert s' == s;
    }
  }

  lemma LongerCounted(t: Task, e: Entry, u: Task)
    requires TaskCounted(t) && e.sequence == |t.transcript| + 1 && u.transcript == t.transcript + [e]
    requires u.attempt == t.attempt && u.retryCount == t.retryCount && ResultCounted(u)
    ensures TaskCounted(u)
  {
  }

  lemma AppendTranscriptKeeps(s: Svc, red: Redactor, taskId: string, e: EntryRequest, now: Time)
    requires Inv(s.mem)
    ensures Inv(AppendTranscript(s, red, taskId, e, now).0.mem)
  {
    var r := AppendTranscript(s, red, taskId, e, now).1;
    if r.Ok? {
      var t := s.mem.tasks[Trim(taskId)];
      ActivePair(s.mem, t.id);
      LongerCounted(t, r.value.transcript[|t.transcript|], r.value);
      TaskKeeps(s.mem, r.value);
    }
  }

  lemma AddOutputArtifactKeeps(s: Svc, red: Redactor, taskId: string, req: ArtifactRequest, artifactId: string,
                               now: Time)
    requires Inv(s.mem)
    ensures Inv(AddOutputArtifact(s, red, taskId, req, artifactId, now).0.mem)
  {
    var (s', r) := AddOutputArtifact(s, red, taskId, req, artifactId, now);
    if r.Ok? {
      assert TaskCounted(s.mem.tasks[Trim(taskId)]);
      TaskKeeps(s.mem, r.value);
    }
  }

  // What the log keeps.

  /** The second memory holds what the first one holds, each agent and task as it is or sanitised. */
  ghost predicate Kept(red: Redactor, m: Mem, n: Mem) {
    && n.pools == m.pools && n.agents.Keys == m.agents.Keys && n.tasks.Keys == m.tasks.Keys
    && (forall id :: id in m.agents ==> n.agents[id] == m.agents[id] || n.agents[id] == SanitizeAgent(m.agents[id]))
    && (forall id :: id in m.tasks ==> n.tasks[id] == m.tasks[id] || n.tasks[id] == SanitizeTask(red, m.tasks[id]))
  }

  lemma KeptNames(red: Redactor, m: Mem, n: Mem)
    requires NamesOk(m.pools, m.agents) && Kept(red, m, n)
    ensures NamesOk(n.pools, n.agents)
  {
    forall i, j | i in n.agents && j in n.agents && SameName(n.agents[i], n.agents[j]) ensures i == j {
      assert SameName(m.agents[i], m.agents[j]);
    }
    forall id | id in n.agents ensures PoolKnown(n.pools, n.agents[id]) {
      assert PoolKnown(m.pools, m.agents[id]);
    }
  }

  ghost predicate SamePlace(a: Agent, b: Agent) {
    a.id == b.id && a.currentTaskId == b.currentTaskId && a.availability == b.availability
  }

  ghost predicate SameWork(t: Task, u: Task) { t.id == u.id && t.agentId == u.agentId && t.state == u.state }

  lemma KeptOccupancy(red: Redactor, m: Mem, n: Mem)
    requires Occupancy(m.agents, m.tasks) && Kept(red, m, n)
    ensures Occupancy(n.agents, n.tasks)
  {
    forall id | id in m.agents ensures SamePlace(m.agents[id], n.agents[id]) {
    }
    forall id | id in m.tasks ensures SameWork(m.tasks[id], n.tasks[id]) {
    }
    SameKeepsOccupancy(m.agents, m.tasks, n.agents, n.tasks);
  }

  lemma SameKeepsOccupancy(agents: map<string, Agent>, tasks: map<string, Task>, agents': map<string, Agent>,
                           tasks': map<string, Task>)
    requires Occupancy(agents, tasks) && agents'.Keys == agents.Keys && tasks'.Keys == tasks.Keys
    requires forall id :: id in agents ==> SamePlace(agents[id], agents'[id])
    requires forall id :: id in tasks ==> SameWork(tasks[id], tasks'[id])
    ensures Occupancy(agents', tasks')
  {
    forall id | id in agents' ensures agents'[id].id == id && IdOk(id) && AgentSettled(tasks', agents'[id]) {
      assert SamePlace(agents[id], agents'[id]) && AgentSettled(tasks, agents[id]);
    }
    forall id | id in tasks' ensures tasks'[id].id == id && IdOk(id) && TaskSettled(agents', tasks'[id]) {
      assert SameWork(tasks[id], tasks'[id]) && TaskSettled(agents, tasks[id]);
    }
  }

  /** Whatever the log keeps of a sound memory, sanitised in part or in whole, is a sound memory. */
  lemma KeptIsSound(red: Redactor, m: Mem, n: Mem)
    requires Inv(m) && Kept(red, m, n)
    ensures Inv(n)
  {
    KeptNames(red, m, n);
    KeptOccupancy(red, m, n);
    forall id | id in n.tasks ensures TaskCounted(n.tasks[id]) {
      SanitizedCounted(red, m.tasks[id]);
    }
  }

  lemma SanitizedCounted(red: Redactor, t: Task)
    requires TaskCounted(t)
    ensures TaskCounted(SanitizeTask(red, t))
  {
  }

  lemma SanitizedKeeps(red: Redactor, m: Mem)
    requires Inv(m)
    ensures Inv(Sanitized(red, m))
  {
    KeptIsSound(red, m, Sanitized(red, m));
  }
}
