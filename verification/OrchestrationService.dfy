/** The service and its store as the objects they are: maps updated in place and a log that is appended to. */
module OrchestrationServices {
  import opened Text
  import opened Orchestration
  import opened OrchestrationLaws

  class OrchestrationStore {
    const red: Redactor
    const size: Record -> nat // how many bytes a record takes as a line of the file
    var log: seq<Record>

    constructor (red: Redactor, size: Record -> nat)
      ensures this.red == red && this.size == size && log == []
    {
      this.red, this.size, log := red, size, [];
    }

    /** append, on the file that is never truncated. */
    method Append(r: Record)
      modifies this`log
      ensures log == old(log) + [SanitizeRecord(red, r)]
    {
      log := log + [SanitizeRecord(red, r)];
    }

    /** load: one pass over the records, the last writer of an identifier wins; nothing if some line is too long. */
    method LoadAll() returns (ok: bool, pools: map<string, Pool>, agents: map<string, Agent>, tasks: map<string, Task>)
      ensures ok <==> Readable(log, size)
      ensures Mem(pools, agents, tasks) == if ok then Load(log) else NO_MEM
    {
      ok, pools, agents, tasks := Readable(log, size), map[], map[], map[];
      if !ok {
        return;
      }
      for i := 0 to |log|
        invariant Mem(pools, agents, tasks) == Load(log[..i])
      {
        assert log[..i + 1][..i] == log[..i];
        match log[i] {
          case PoolRecord(pool) => if pool.id != "" { pools := pools[pool.id := pool]; }
          case AgentRecord(agent) => if agent.id != "" { agents := agents[agent.id := agent]; }
          case TaskRecord(task) => if task.id != "" { tasks := tasks[task.id := task]; }
        }
      }
      assert log[..|log|] == log;
    }
  }

  /** The order lists every one of the keys, and each once. */
  ghost predicate EachOnce(order: seq<string>, keys: set<string>) {
    (forall id :: id in order <==> id in keys) && (forall i, j :: 0 <= i < j < |order| ==> order[i] != order[j])
  }

  lemma OneMore(found: seq<string>, wanted: set<string>, left: set<string>, id: string)
    requires EachOnce(found, wanted - left) && id in left
    ensures EachOnce(if id in wanted then found + [id] else found, wanted - (left - {id}))
  {
  }

  lemma OnlyMatch(found: seq<string>, wanted: set<string>)
    requires EachOnce(found, wanted)
    ensures |found| == |wanted| && (|wanted| == 1 ==> found[0] == Pick(wanted))
  {
    ListsAll(found, wanted);
    if |wanted| == 1 {
      assert Pick(wanted) in found;
    }
  }

  lemma {:induction false} ListsAll(found: seq<string>, wanted: set<string>)
    requires EachOnce(found, wanted)
    ensures |found| == |wanted|
  {
    if found == [] {
      assert wanted == {};
    } else {
      var n := |found| - 1;
      ListsAll(found[..n], wanted - {found[n]});
    }
  }

  class OrchestrationService {
    const store: OrchestrationStore
    var pools: map<string, Pool>
    var agents: map<string, Agent>
    var tasks: map<string, Task>

    ghost function State(): Svc
      reads this, store
    {
      Svc(Mem(pools, agents, tasks), store.log)
    }

    /** newRemoteAgentOrchestrationService: it starts from the log, or from nothing when the log cannot be read. */
    constructor (store: OrchestrationStore)
      ensures this.store == store && State() == Restarted(Svc(NO_MEM, store.log), store.size)
    {
      this.store := store;
      pools, agents, tasks := map[], map[], map[];
      new;
      var ok, loadedPools, loadedAgents, loadedTasks := store.LoadAll();
      if ok {
        pools, agents, tasks := loadedPools, loadedAgents, loadedTasks;
      }
    }

    /** The loop over the pools, in whatever order the map yields them. */
    method FindPool(name: string) returns (found: Option<Pool>)
      ensures found.None? <==> PoolsNamed(State().mem, name) == {}
      ensures found.Some? ==> exists id :: id in PoolsNamed(State().mem, name) && found == Some(pools[id])
    {
      var left := pools.Keys;
      while left != {}
        invariant left <= pools.Keys && PoolsNamed(State().mem, name) <= left
      {
        var id :| id in left;
        if Normal(pools[id].name) == Normal(name) {
          assert id in PoolsNamed(State().mem, name);
          return Some(pools[id]);
        }
        left := left - {id};
      }
      return None;
    }

    method CreatePool(name: string, workspace: string, id: string, now: Time) returns (r: Result<Pool>)
      modifies this`pools, store`log
      ensures (State(), r) == Orchestration.CreatePool(old(State()), store.red, name, workspace, id, now)
    {
      if Normal(name) == "" {
        return Err(NameRequired);
      }
      var taken := FindPool(name);
      if taken.Some? {
        return Err(PoolNameTaken);
      }
      var pool := Pool(id, Trim(name), Trim(workspace), now);
      pools := pools[pool.id := pool];
      store.Append(PoolRecord(pool));
      return Ok(pool);
    }

    method ResolvePoolLocked(poolId: string, poolName: string) returns (r: Result<Option<Pool>>)
      requires Inv(State().mem)
      ensures r == ResolvePool(State().mem, poolId, poolName)
    {
      if Trim(poolId) != "" {
        if Trim(poolId) !in pools {
          return Err(PoolNotFound);
        }
        return Ok(Some(pools[Trim(poolId)]));
      }
      if Normal(poolName) == "" {
        return Ok(None);
      }
      var found := FindPool(poolName);
      if found.None? {
        return Err(PoolNotFound);
      }
      ghost var id :| id in PoolsNamed(State().mem, poolName) && found == Some(pools[id]);
      assert id == Pick(PoolsNamed(State().mem, poolName));
      return Ok(found);
    }

    /** The loop over the agents that looks for a name already used in the pool. */
    method AgentNameUsed(name: string, poolId: string) returns (used: bool)
      ensures used <==> HasAgentName(State().mem, name, poolId)
    {
      var left := agents.Keys;
      while left != {}
        invariant left <= agents.Keys && AgentsNamed(State().mem, name, poolId) <= left
      {
        var id :| id in left;
        if Normal(agents[id].name) == Normal(name) && agents[id].poolId == poolId {
          assert id in AgentsNamed(State().mem, name, poolId);
          return true;
        }
        left := left - {id};
      }
      return false;
    }

    method CreateAgent(req: AgentRequest, binding: Result<Option<Binding>>, id: string, now: Time)
      returns (r: Result<Agent>)
      requires Inv(State().mem)
      modifies this`agents, store`log
      ensures (State(), r) == Orchestration.CreateAgent(old(State()), store.red, req, binding, id, now)
    {
      if Normal(req.name) == "" {
        return Err(NameRequired);
      }
      var pool := ResolvePoolLocked(req.poolId, req.poolName);
      if pool.Err? {
        return Err(pool.error);
      }
      var poolId, poolName := "", "";
      if pool.value.Some? {
        poolId, poolName := pool.value.value.id, pool.value.value.name;
      }
      var used := AgentNameUsed(req.name, poolId);
      if used {
        return Err(AgentNameTaken);
      }
      if binding.Err? {
        return Err(binding.error);
      }
      var agent := Agent(id, Trim(req.name), poolId, poolName, Trim(req.workspaceSessionId), Idle, "",
                         if binding.value.None? then None else Some(now), binding.value, now, now);
      agents := agents[agent.id := agent];
      store.Append(AgentRecord(agent));
      return Ok(agent);
    }

    /** resolveAgentLocked: it collects the matches in map order and answers only if there is exactly one. */
    method ResolveAgentLocked(target: Target) returns (r: Result<Agent>)
      ensures r == ResolveAgent(State().mem, target)
    {
      if Trim(target.agentId) != "" {
        if Trim(target.agentId) !in agents {
          return Err(AgentNotFound);
        }
        return Ok(agents[Trim(target.agentId)]);
      }
      var matches: seq<Agent> := MatchingAgents(target);
      if |matches| == 0 {
        return Err(AgentNotFound);
      }
      if |matches| > 1 {
        return Err(AgentAmbiguous);
      }
      return Ok(matches[0]);
    }

    method IsMatch(id: string, target: Target) returns (hit: bool)
      requires id in agents
      ensures hit <==> id in MatchingIds(State().mem, target)
    {
      hit := Matches(agents[id], target);
    }

    /** The loop that collects the matches, in whatever order the map yields them. */
    method MatchingAgents(target: Target) returns (matches: seq<Agent>)
      ensures |matches| == |MatchingIds(State().mem, target)|
      ensures |matches| == 1 ==> matches[0] == agents[Pick(MatchingIds(State().mem, target))]
    {
      ghost var wanted, found: seq<string> := MatchingIds(State().mem, target), [];
      var left := agents.Keys;
      matches := [];
      while left != {}
        invariant left <= agents.Keys
        invariant |matches| == |found|
        invariant forall i :: 0 <= i < |found| ==> found[i] in agents && matches[i] == agents[found[i]]
        invariant EachOnce(found, wanted - left)
      {
        var id :| id in left;
        var hit := IsMatch(id, target);
        OneMore(found, wanted, left, id);
        if hit {
          matches, found := matches + [agents[id]], found + [id];
        }
        left := left - {id};
      }
      assert wanted - left == wanted;
      OnlyMatch(found, wanted);
    }

    /** updateTaskLocked. */
    method UpdateTaskLocked(task: Task)
      modifies this`tasks, store`log
      ensures State() == PutTask(old(State()), store.red, task)
    {
      tasks := tasks[task.id := task];
      store.Append(TaskRecord(task));
    }

    /** updateAgentLocked. */
    method UpdateAgentLocked(agent: Agent)
      modifies this`agents, store`log
      ensures State() == PutAgent(old(State()), store.red, agent)
    {
      agents := agents[agent.id := agent];
      store.Append(AgentRecord(agent));
    }

    method ExpireTimedOutTaskLocked(taskId: string, now: Time) returns (batch: Batch)
      modifies this`tasks, this`agents
      ensures (State().mem, batch) == ExpireTaskLocked(old(State().mem), taskId, now)
    {
      var id := Trim(taskId);
      if id !in tasks || !tasks[id].state.Active() {
        return Batch([], []);
      }
      var task := tasks[id];
      var deadline := Deadline(task);
      if deadline.None? || deadline.value > now {
        return Batch([], []);
      }
      task := TimeOut(task, now);
      tasks := tasks[task.id := task];
      if task.agentId in agents && agents[task.agentId].currentTaskId == task.id {
        var agent := Release(agents[task.agentId], now);
        agents := agents[agent.id := agent];
        return Batch([task], [agent]);
      }
      return Batch([task], []);
    }

    /** expireTimedOutTasksLocked: the map is walked in some order, which the caller cannot know. */
    method ExpireTimedOutTasksLocked(now: Time) returns (batch: Batch, ghost order: seq<string>)
      requires Inv(State().mem)
      modifies this`tasks, this`agents
      ensures (State().mem, batch) == ExpireTasksLocked(old(State().mem), order, now)
      ensures EachOnce(order, old(tasks.Keys))
    {
      ghost var before := State().mem;
      batch, order := Batch([], []), [];
      var left := tasks.Keys;
      while left != {}
        invariant left <= before.tasks.Keys
        invariant EachOnce(order, before.tasks.Keys - left)
        invariant (State().mem, batch) == ExpireTasksLocked(before, order, now)
        invariant State().log == old(State().log)
      {
        var id :| id in left;
        var b := ExpireTimedOutTaskLocked(id, now);
        ghost var longer := order + [id];
        assert longer[..|order|] == order;
        batch, order := Batch(batch.tasks + b.tasks, batch.agents + b.agents), longer;
        left := left - {id};
      }
    }

    method PersistBatch(batch: Batch)
      modifies store`log
      ensures store.log == Persist(old(store.log), store.red, batch)
    {
      ghost var before := store.log;
      for i := 0 to |batch.agents|
        invariant store.log == before + AgentRecords(store.red, batch.agents[..i])
      {
        assert AgentRecords(store.red, batch.agents[..i + 1]) ==
               AgentRecords(store.red, batch.agents[..i]) + [SanitizeRecord(store.red, AgentRecord(batch.agents[i]))];
        store.Append(AgentRecord(batch.agents[i]));
      }
      assert batch.agents[..|batch.agents|] == batch.agents;
      ghost var middle := store.log;
      for i := 0 to |batch.tasks|
        invariant store.log == middle + TaskRecords(store.red, batch.tasks[..i])
      {
        assert TaskRecords(store.red, batch.tasks[..i + 1]) ==
               TaskRecords(store.red, batch.tasks[..i]) + [SanitizeRecord(store.red, TaskRecord(batch.tasks[i]))];
        store.Append(TaskRecord(batch.tasks[i]));
      }
      assert batch.tasks[..|batch.tasks|] == batch.tasks;
    }

    /** expireTimedOutTasks. */
    method ExpireTimedOutTasks(now: Time) returns (ghost order: seq<string>)
      requires Inv(State().mem)
      modifies this`tasks, this`agents, store`log
      ensures State() == ExpireTasks(old(State()), store.red, order, now) && Inv(State().mem)
      ensures EachOnce(order, old(tasks.Keys))
    {
      ExpireTasksKeep(now);
      var batch;
      batch, order := ExpireTimedOutTasksLocked(now);
      PersistBatch(batch);
    }

    lemma ExpireTasksKeep(now: Time)
      requires Inv(State().mem)
      ensures forall order :: Inv(ExpireTasksLocked(State().mem, order, now).0)
    {
      forall order ensures Inv(ExpireTasksLocked(State().mem, order, now).0) {
        ExpireTasksKeeps(State().mem, order, now);
      }
    }

    /** expireTimedOutTask. */
    method ExpireTimedOutTask(taskId: string, now: Time)
      requires Inv(State().mem)
      modifies this`tasks, this`agents, store`log
      ensures State() == ExpireTask(old(State()), store.red, taskId, now) && Inv(State().mem)
    {
      ExpireTaskKeeps(State().mem, taskId, now);
      var batch := ExpireTimedOutTaskLocked(taskId, now);
      PersistBatch(batch);
    }

    method DispatchTask(requestedBy: string, req: TaskRequest, id: string, ids: seq<string>, now: Time)
      returns (r: Result<Task>, ghost order: seq<string>)
      requires Inv(State().mem) && |ids| == |req.inputs|
      modifies this`tasks, this`agents, store`log
      ensures EachOnce(order, old(tasks.Keys)) || ValidateTask(req).Some?
      ensures if ValidateTask(req).Some? then r == Err(ValidateTask(req).value) && State() == old(State())
              else (State(), r) == Orchestration.DispatchTask(ExpireTasks(old(State()), store.red, order, now),
                                                              store.red, requestedBy, req, id, ids, now)
    {
      order := [];
      var invalid := ValidateTask(req);
      if invalid.Some? {
        r := Err(invalid.value);
        return;
      }
      order := ExpireTimedOutTasks(now);
      var found := ResolveAgentLocked(req.target);
      if found.Err? {
        r := Err(found.error);
        return;
      }
      var agent := found.value;
      if agent.availability.Busy? && Trim(agent.currentTaskId) != "" {
        r := Err(AgentBusy);
        return;
      }
      var task := NewTask(agent, requestedBy, req, id, MakeArtifacts(req.inputs, ids, now), now);
      tasks := tasks[task.id := task];
      agent := Occupy(agent, task.id, now);
      agents := agents[agent.id := agent];
      store.Append(AgentRecord(agent));
      store.Append(TaskRecord(task));
      r := Ok(task);
    }

    method TransitionTaskLocked(taskId: string, allowed: set<TaskState>, next: TaskState, now: Time)
      returns (r: Result<Task>)
      modifies this`tasks, store`log
      ensures (State(), r) == Transition(old(State()), store.red, taskId, allowed, next, now)
    {
      var id := Trim(taskId);
      if id !in tasks {
        return Err(TaskNotFound);
      }
      if tasks[id].state !in allowed {
        return Err(TaskConflict);
      }
      var task := Stamped(tasks[id], next, now);
      UpdateTaskLocked(task);
      return Ok(task);
    }

    method ReleaseAgentLocked(task: Task, now: Time)
      modifies this`agents, store`log
      ensures State() == ReleaseAgent(old(State()), store.red, task, now)
    {
      if task.agentId in agents && agents[task.agentId].currentTaskId == task.id {
        UpdateAgentLocked(Release(agents[task.agentId], now));
      }
    }

    method StartTask(taskId: string, now: Time) returns (r: Result<Task>)
      requires Inv(State().mem)
      modifies this`tasks, this`agents, store`log
      ensures (State(), r) == Orchestration.StartTask(ExpireTask(old(State()), store.red, taskId, now), store.red,
                                                      taskId, now)
    {
      ExpireTimedOutTask(taskId, now);
      r := TransitionTaskLocked(taskId, {Assigned}, Running, now);
      if r.Err? {
        return;
      }
      if r.value.agentId in agents {
        UpdateAgentLocked(Occupy(agents[r.value.agentId], r.value.id, now));
      }
    }

    method CancelTask(taskId: string, now: Time) returns (r: Result<Task>)
      requires Inv(State().mem)
      modifies this`tasks, this`agents, store`log
      ensures (State(), r) == Orchestration.CancelTask(ExpireTask(old(State()), store.red, taskId, now), store.red,
                                                       taskId, now)
    {
      ExpireTimedOutTask(taskId, now);
      r := TransitionTaskLocked(taskId, {Assigned, Running}, Cancelled, now);
      if r.Ok? {
        ReleaseAgentLocked(r.value, now);
      }
    }

    method CompleteTask(taskId: string, summary: string, outcome: string, now: Time) returns (r: Result<Task>)
      requires Inv(State().mem)
      modifies this`tasks, this`agents, store`log
      ensures (State(), r) == Orchestration.CompleteTask(ExpireTask(old(State()), store.red, taskId, now), store.red,
                                                         taskId, summary, outcome, now)
    {
      ExpireTimedOutTask(taskId, now);
      r := TransitionTaskLocked(taskId, {Assigned, Running}, Completed, now);
      if r.Err? {
        return;
      }
      var named := if Trim(outcome) == "" then "completed" else Trim(outcome);
      var result := TaskResult(Trim(summary), named, |r.value.transcript|, |r.value.outputArtifacts|);
      var task := r.value.(result := Some(result));
      UpdateTaskLocked(task);
      ReleaseAgentLocked(task, now);
      r := Ok(task);
    }

    method RetryTask(taskId: string, now: Time) returns (r: Result<Task>, ghost order: seq<string>)
      requires Inv(State().mem)
      modifies this`tasks, this`agents, store`log
      ensures EachOnce(order, old(tasks.Keys))
      ensures (State(), r) == Orchestration.RetryTask(ExpireTasks(old(State()), store.red, order, now), store.red,
                                                      taskId, now)
    {
      order := ExpireTimedOutTasks(now);
      r := RetryTaskLocked(taskId, now);
    }

    /** The critical section of RetryTask. */
    method RetryTaskLocked(taskId: string, now: Time) returns (r: Result<Task>)
      modifies this`tasks, this`agents, store`log
      ensures (State(), r) == Orchestration.RetryTask(old(State()), store.red, taskId, now)
    {
      var id := Trim(taskId);
      if id !in tasks {
        return Err(TaskNotFound);
      }
      var task := tasks[id];
      if !task.state.Terminal() || task.state.Completed? {
        return Err(TaskConflict);
      }
      if task.agentId !in agents {
        return Err(AgentUnregistered);
      }
      var agent := agents[task.agentId];
      if Trim(agent.currentTaskId) != "" && agent.currentTaskId != task.id {
        return Err(AgentBusy);
      }
      task := task.(state := Assigned, attempt := task.attempt + 1, retryCount := task.retryCount + 1,
                    currentSession := agent.currentSession, assignedAt := Some(now), startedAt := None,
                    completedAt := None, cancelledAt := None, lastTransitionAt := now, result := None);
      UpdateTaskLocked(task);
      UpdateAgentLocked(Occupy(agent, task.id, now));
      r := Ok(task);
    }

    method AppendTranscript(taskId: string, e: EntryRequest, now: Time) returns (r: Result<Task>)
      requires Inv(State().mem)
      modifies this`tasks, this`agents, store`log
      ensures (State(), r) == Orchestration.AppendTranscript(ExpireTask(old(State()), store.red, taskId, now),
                                                             store.red, taskId, e, now)
    {
      ExpireTimedOutTask(taskId, now);
      r := AppendTranscriptLocked(taskId, e, now);
    }

    /** The critical section of AppendTranscript. */
    method AppendTranscriptLocked(taskId: string, e: EntryRequest, now: Time) returns (r: Result<Task>)
      modifies this`tasks, store`log
      ensures (State(), r) == Orchestration.AppendTranscript(old(State()), store.red, taskId, e, now)
    {
      var id := Trim(taskId);
      if id !in tasks {
        return Err(TaskNotFound);
      }
      var task := tasks[id];
      if !task.state.Active() {
        return Err(TaskConflict);
      }
      var at := if e.at.None? then now else e.at.value;
      var entry := Entry(|task.transcript| + 1, at, e.role, Trim(e.text), Trim(e.eventRef));
      task := task.(transcript := task.transcript + [entry]);
      if task.result.Some? {
        task := task.(result := Some(task.result.value.(transcriptEntries := |task.transcript|)));
      }
      task := task.(lastTransitionAt := at);
      UpdateTaskLocked(task);
      return Ok(task);
    }

    method AddOutputArtifact(taskId: string, req: ArtifactRequest, artifactId: string, now: Time)
      returns (r: Result<Task>)
      requires Inv(State().mem)
      modifies this`tasks, this`agents, store`log
      ensures (State(), r) == Orchestration.AddOutputArtifact(ExpireTask(old(State()), store.red, taskId, now),
                                                              store.red, taskId, req, artifactId, now)
    {
      ExpireTimedOutTask(taskId, now);
      r := AddOutputArtifactLocked(taskId, req, artifactId, now);
    }

    /** The critical section of AddOutputArtifact. */
    method AddOutputArtifactLocked(taskId: string, req: ArtifactRequest, artifactId: string, now: Time)
      returns (r: Result<Task>)
      modifies this`tasks, store`log
      ensures (State(), r) == Orchestration.AddOutputArtifact(old(State()), store.red, taskId, req, artifactId, now)
    {
      var id := Trim(taskId);
      if id !in tasks {
        return Err(TaskNotFound);
      }
      var task := tasks[id];
      if !task.state.Active() {
        return Err(TaskConflict);
      }
      task := task.(outputArtifacts := task.outputArtifacts + [MakeArtifact(req, artifactId, now)]);
      if task.result.Some? {
        task := task.(result := Some(task.result.value.(outputArtifacts := |task.outputArtifacts|)));
      }
      task := task.(lastTransitionAt := now);
      UpdateTaskLocked(task);
      return Ok(task);
    }
  }
}
