/**
 The remote-agent task orchestrator on values: pools, agents, tasks and the append-only log behind them.
 Times are whole seconds. Every function here is one critical section of the service; identifiers that
 newID draws are parameters.
 */
module Orchestration {
  import opened Text

  type Time = int

  datatype Result<+T> = Ok(value: T) | Err(error: Error)

  datatype Error =
    | NameRequired | PromptRequired | TargetRequired | NegativeTimeout | ArtifactNameRequired | ArtifactKindRequired
    | PoolNameTaken | PoolNotFound | AgentNameTaken | BindingRejected
    | AgentNotFound | AgentAmbiguous | AgentBusy | AgentUnregistered
    | TaskNotFound | TaskConflict

  datatype Availability = Idle | Busy | Offline

  datatype TaskState = Assigned | Running | Completed | Failed | TimedOut | Cancelled
  {
    predicate Active() { Assigned? || Running? }

    predicate Terminal() { !Active() }
  }

  datatype Binding = Binding(harnessRunId: string, sessionId: string, podName: string)

  datatype Pool = Pool(id: string, name: string, workspaceSessionId: string, createdAt: Time)

  datatype Agent = Agent(id: string, name: string, poolId: string, poolName: string, workspaceSessionId: string,
                         availability: Availability, currentTaskId: string, lastActivityAt: Option<Time>,
                         currentSession: Option<Binding>, createdAt: Time, updatedAt: Time)

  datatype Artifact = Artifact(id: string, name: string, kind: string, path: string, uri: string, createdAt: Time)

  datatype Entry = Entry(sequence: int, at: Time, role: string, text: string, eventRef: string)

  datatype TaskResult = TaskResult(summary: string, outcome: string, transcriptEntries: nat, outputArtifacts: nat)

  datatype Task = Task(id: string, requestedBy: string, agentId: string, agentName: string, poolId: string,
                       poolName: string, workspaceSessionId: string, prompt: string, state: TaskState,
                       timeoutSeconds: int32, attempt: int, retryCount: int, currentSession: Option<Binding>,
                       createdAt: Option<Time>, assignedAt: Option<Time>, startedAt: Option<Time>,
                       completedAt: Option<Time>, cancelledAt: Option<Time>, lastTransitionAt: Time,
                       result: Option<TaskResult>, inputArtifacts: seq<Artifact>, outputArtifacts: seq<Artifact>,
                       transcript: seq<Entry>)

  datatype Mem = Mem(pools: map<string, Pool>, agents: map<string, Agent>, tasks: map<string, Task>)

  datatype Record = PoolRecord(pool: Pool) | AgentRecord(agent: Agent) | TaskRecord(task: Task)

  datatype Svc = Svc(mem: Mem, log: seq<Record>)

  const NO_MEM := Mem(map[], map[], map[])

  // The store.

  /** The redaction of free text and of URIs, whatever it is. */
  datatype Redactor = Redactor(text: string -> string, uri: string -> string)

  function SanitizeBinding(b: Option<Binding>): Option<Binding> {
    match b
    case None => None
    case Some(b) => Some(Binding(Trim(b.harnessRunId), Trim(b.sessionId), Trim(b.podName)))
  }

  function SanitizeArtifact(red: Redactor, a: Artifact): Artifact {
    a.(name := red.text(a.name), path := red.text(a.path), uri := red.uri(a.uri))
  }

  function SanitizeArtifacts(red: Redactor, s: seq<Artifact>): seq<Artifact> {
    seq(|s|, i requires 0 <= i < |s| => SanitizeArtifact(red, s[i]))
  }

  function SanitizeEntry(red: Redactor, e: Entry): Entry {
    e.(text := red.text(e.text), eventRef := red.text(e.eventRef))
  }

  function SanitizeTranscript(red: Redactor, s: seq<Entry>): seq<Entry> {
    seq(|s|, i requires 0 <= i < |s| => SanitizeEntry(red, s[i]))
  }

  function SanitizeAgent(a: Agent): Agent { a.(currentSession := SanitizeBinding(a.currentSession)) }

  function SanitizeTask(red: Redactor, t: Task): Task {
    t.(prompt := red.text(t.prompt),
       currentSession := SanitizeBinding(t.currentSession),
       result := if t.result.None? then None
                 else Some(t.result.value.(summary := red.text(t.result.value.summary),
                                           outcome := red.text(t.result.value.outcome))),
       transcript := SanitizeTranscript(red, t.transcript),
       inputArtifacts := SanitizeArtifacts(red, t.inputArtifacts),
       outputArtifacts := SanitizeArtifacts(red, t.outputArtifacts))
  }

  /** sanitizeRemoteAgentStoreRecord. */
  function SanitizeRecord(red: Redactor, r: Record): Record {
    match r
    case PoolRecord(p) => r
    case AgentRecord(a) => AgentRecord(SanitizeAgent(a))
    case TaskRecord(t) => TaskRecord(SanitizeTask(red, t))
  }

  function Sanitized(red: Redactor, m: Mem): Mem {
    Mem(m.pools,
        map id | id in m.agents :: SanitizeAgent(m.agents[id]),
        map id | id in m.tasks :: SanitizeTask(red, m.tasks[id]))
  }

  function Replay(m: Mem, r: Record): Mem {
    match r
    case PoolRecord(p) => if p.id == "" then m else m.(pools := m.pools[p.id := p])
    case AgentRecord(a) => if a.id == "" then m else m.(agents := m.agents[a.id := a])
    case TaskRecord(t) => if t.id == "" then m else m.(tasks := m.tasks[t.id := t])
  }

  /** The last-writer-wins fold of load over a log that can be read. */
  function Load(log: seq<Record>): Mem {
    if log == [] then NO_MEM else Replay(Load(log[..|log| - 1]), log[|log| - 1])
  }

  // A line of the log is read back only if it fits the scanner's buffer of 10 MiB together with its newline.
  const RECORD_LIMIT := 10 * 1024 * 1024

  predicate Readable(log: seq<Record>, size: Record -> nat) {
    forall i :: 0 <= i < |log| ==> size(log[i]) < RECORD_LIMIT
  }

  /** A new service process: it starts from the log, or from nothing when the log cannot be read. */
  function Restarted(s: Svc, size: Record -> nat): Svc {
    Svc(if Readable(s.log, size) then Load(s.log) else NO_MEM, s.log)
  }

  function Save(s: Svc, red: Redactor, r: Record): Svc { s.(log := s.log + [SanitizeRecord(red, r)]) }

  function PutPool(s: Svc, red: Redactor, p: Pool): Svc {
    Save(s.(mem := s.mem.(pools := s.mem.pools[p.id := p])), red, PoolRecord(p))
  }

  /** updateAgentLocked. */
  function PutAgent(s: Svc, red: Redactor, a: Agent): Svc {
    Save(s.(mem := s.mem.(agents := s.mem.agents[a.id := a])), red, AgentRecord(a))
  }

  /** updateTaskLocked. */
  function PutTask(s: Svc, red: Redactor, t: Task): Svc {
    Save(s.(mem := s.mem.(tasks := s.mem.tasks[t.id := t])), red, TaskRecord(t))
  }

  // Pools and agents.

  /** Some element of a set that the Go loop meets first. */
  ghost function Pick(s: set<string>): (x: string)
    requires s != {}
    ensures x in s
  {
    var x :| x in s; x
  }

  ghost function PoolsNamed(m: Mem, name: string): set<string> {
    set id | id in m.pools && Normal(m.pools[id].name) == Normal(name)
  }

  ghost predicate HasPoolName(m: Mem, name: string) { PoolsNamed(m, name) != {} }

  ghost function CreatePool(s: Svc, red: Redactor, name: string, workspace: string, id: string, now: Time)
    : (Svc, Result<Pool>)
  {
    if Normal(name) == "" then (s, Err(NameRequired))
    else if HasPoolName(s.mem, name) then (s, Err(PoolNameTaken))
    else
      var pool := Pool(id, Trim(name), Trim(workspace), now);
      (PutPool(s, red, pool), Ok(pool))
  }

  /** resolvePoolLocked; the pool is None when the request names none. */
  ghost function ResolvePool(m: Mem, poolId: string, poolName: string): Result<Option<Pool>> {
    if Trim(poolId) != "" then
      if Trim(poolId) in m.pools then Ok(Some(m.pools[Trim(poolId)])) else Err(PoolNotFound)
    else if Normal(poolName) == "" then Ok(None)
    else if PoolsNamed(m, poolName) == {} then Err(PoolNotFound)
    else Ok(Some(m.pools[Pick(PoolsNamed(m, poolName))]))
  }

  ghost function AgentsNamed(m: Mem, name: string, poolId: string): set<string> {
    set id | id in m.agents && Normal(m.agents[id].name) == Normal(name) && m.agents[id].poolId == poolId
  }

  ghost predicate HasAgentName(m: Mem, name: string, poolId: string) { AgentsNamed(m, name, poolId) != {} }

  datatype AgentRequest = AgentRequest(name: string, poolId: string, poolName: string, workspaceSessionId: string)

  /** binding is what resolveSessionBinding answered from the cluster. */
  ghost function CreateAgent(s: Svc, red: Redactor, req: AgentRequest, binding: Result<Option<Binding>>, id: string,
                             now: Time)
    : (Svc, Result<Agent>)
  {
    if Normal(req.name) == "" then (s, Err(NameRequired))
    else
      var pool := ResolvePool(s.mem, req.poolId, req.poolName);
      if pool.Err? then (s, Err(pool.error))
      else
        var (poolId, poolName) := if pool.value.None? then ("", "") else (pool.value.value.id, pool.value.value.name);
        if HasAgentName(s.mem, req.name, poolId) then (s, Err(AgentNameTaken))
        else if binding.Err? then (s, Err(binding.error))
        else
          var agent := Agent(id, Trim(req.name), poolId, poolName, Trim(req.workspaceSessionId), Idle, "",
                             if binding.value.None? then None else Some(now), binding.value, now, now);
          (PutAgent(s, red, agent), Ok(agent))
  }

  datatype Target = Target(agentId: string, agentName: string, poolName: string, workspaceSessionId: string)

  predicate Matches(a: Agent, target: Target) {
    && Normal(a.name) == Normal(target.agentName)
    && (Normal(target.poolName) != "" ==> Normal(a.poolName) == Normal(target.poolName))
    && (Trim(target.workspaceSessionId) != "" ==> a.workspaceSessionId == Trim(target.workspaceSessionId))
  }

  ghost function MatchingIds(m: Mem, target: Target): set<string> {
    set id | id in m.agents && Matches(m.agents[id], target)
  }

  /** resolveAgentLocked. */
  ghost function ResolveAgent(m: Mem, target: Target): Result<Agent> {
    var ids := MatchingIds(m, target);
    if Trim(target.agentId) != "" then
      if Trim(target.agentId) in m.agents then Ok(m.agents[Trim(target.agentId)]) else Err(AgentNotFound)
    else if ids == {} then Err(AgentNotFound)
    else if |ids| > 1 then Err(AgentAmbiguous)
    else Ok(m.agents[Pick(ids)])
  }

  // Expiry.

  /** remoteAgentTaskDeadline. */
  function Deadline(t: Task): Option<Time> {
    var start := if t.startedAt.Some? then t.startedAt else if t.assignedAt.Some? then t.assignedAt else t.createdAt;
    if t.timeoutSeconds <= 0 || start.None? then None else Some(start.value + t.timeoutSeconds)
  }

  predicate Expires(t: Task, now: Time) {
    t.state.Active() && Deadline(t).Some? && Deadline(t).value <= now
  }

  function TimeOut(t: Task, now: Time): Task {
    t.(state := TimedOut, completedAt := Some(now), cancelledAt := None, lastTransitionAt := now,
       result := Some(TaskResult("task exceeded timeout", "timed_out", |t.transcript|, |t.outputArtifacts|)))
  }

  function Release(a: Agent, now: Time): Agent {
    a.(currentTaskId := "", availability := Idle, lastActivityAt := Some(now), updatedAt := now)
  }

  function Occupy(a: Agent, taskId: string, now: Time): Agent {
    a.(currentTaskId := taskId, availability := Busy, lastActivityAt := Some(now), updatedAt := now)
  }

  datatype Batch = Batch(tasks: seq<Task>, agents: seq<Agent>)

  /** expireTimedOutTaskLocked: the change in memory and the records still to be written. */
  function ExpireTaskLocked(m: Mem, taskId: string, now: Time): (Mem, Batch) {
    var id := Trim(taskId);
    if id !in m.tasks || !Expires(m.tasks[id], now) then (m, Batch([], []))
    else
      var task := TimeOut(m.tasks[id], now);
      var m' := m.(tasks := m.tasks[task.id := task]);
      if task.agentId in m.agents && m.agents[task.agentId].currentTaskId == task.id then
        var agent := Release(m.agents[task.agentId], now);
        (m'.(agents := m.agents[agent.id := agent]), Batch([task], [agent]))
      else (m', Batch([task], []))
  }

  /** expireTimedOutTasksLocked, visiting the tasks in the given order. */
  function ExpireTasksLocked(m: Mem, order: seq<string>, now: Time): (Mem, Batch) {
    if order == [] then (m, Batch([], []))
    else
      var (m0, b0) := ExpireTasksLocked(m, order[..|order| - 1], now);
      var (m1, b1) := ExpireTaskLocked(m0, order[|order| - 1], now);
      (m1, Batch(b0.tasks + b1.tasks, b0.agents + b1.agents))
  }

  function AgentRecords(red: Redactor, s: seq<Agent>): seq<Record> {
    seq(|s|, i requires 0 <= i < |s| => SanitizeRecord(red, AgentRecord(s[i])))
  }

  function TaskRecords(red: Redactor, s: seq<Task>): seq<Record> {
    seq(|s|, i requires 0 <= i < |s| => SanitizeRecord(red, TaskRecord(s[i])))
  }

  /** persistBatch: agents first, then tasks. */
  function Persist(log: seq<Record>, red: Redactor, b: Batch): seq<Record> {
    log + AgentRecords(red, b.agents) + TaskRecords(red, b.tasks)
  }

  /** expireTimedOutTasks, with nothing in between the change in memory and its records. */
  function ExpireTasks(s: Svc, red: Redactor, order: seq<string>, now: Time): Svc {
    var (m, b) := ExpireTasksLocked(s.mem, order, now);
    Svc(m, Persist(s.log, red, b))
  }

  function ExpireTask(s: Svc, red: Redactor, taskId: string, now: Time): Svc {
    var (m, b) := ExpireTaskLocked(s.mem, taskId, now);
    Svc(m, Persist(s.log, red, b))
  }

  // Tasks.

  datatype ArtifactRequest = ArtifactRequest(name: string, kind: string, path: string, uri: string)

  function MakeArtifact(req: ArtifactRequest, id: string, now: Time): Artifact {
    Artifact(id, Trim(req.name), req.kind, Trim(req.path), Trim(req.uri), now)
  }

  function MakeArtifacts(reqs: seq<ArtifactRequest>, ids: seq<string>, now: Time): seq<Artifact>
    requires |ids| == |reqs|
  {
    seq(|reqs|, i requires 0 <= i < |reqs| => MakeArtifact(reqs[i], ids[i], now))
  }

  datatype TaskRequest = TaskRequest(target: Target, prompt: string, timeoutSeconds: int32,
                                     inputs: seq<ArtifactRequest>)

  function ValidateInputs(inputs: seq<ArtifactRequest>): Option<Error> {
    if inputs == [] then None
    else if Trim(inputs[0].name) == "" then Some(ArtifactNameRequired)
    else if inputs[0].kind == "" then Some(ArtifactKindRequired)
    else ValidateInputs(inputs[1..])
  }

  /** validateRemoteAgentTaskCreateRequest. */
  function ValidateTask(req: TaskRequest): Option<Error> {
    if Trim(req.prompt) == "" then Some(PromptRequired)
    else if Trim(req.target.agentId) == "" && Trim(req.target.agentName) == "" then Some(TargetRequired)
    else if req.timeoutSeconds < 0 then Some(NegativeTimeout)
    else ValidateInputs(req.inputs)
  }

  function NewTask(agent: Agent, requestedBy: string, req: TaskRequest, id: string, inputs: seq<Artifact>, now: Time)
    : Task
  {
    Task(id, Trim(requestedBy), agent.id, agent.name, agent.poolId, agent.poolName, agent.workspaceSessionId,
         Trim(req.prompt), Assigned, req.timeoutSeconds, 1, 0, agent.currentSession,
         Some(now), Some(now), None, None, None, now, None, inputs, [], [])
  }

  /** The critical section of DispatchTask. */
  ghost function DispatchTask(s: Svc, red: Redactor, requestedBy: string, req: TaskRequest, id: string,
                              ids: seq<string>, now: Time)
    : (Svc, Result<Task>)
    requires |ids| == |req.inputs|
  {
    var found := ResolveAgent(s.mem, req.target);
    if found.Err? then (s, Err(found.error))
    else
      var agent := found.value;
      if agent.availability.Busy? && Trim(agent.currentTaskId) != "" then (s, Err(AgentBusy))
      else
        var task := NewTask(agent, requestedBy, req, id, MakeArtifacts(req.inputs, ids, now), now);
        (PutTask(PutAgent(s, red, Occupy(agent, id, now)), red, task), Ok(task))
  }

  /** The stamps that a transition to state next sets. */
  function Stamped(t: Task, next: TaskState, now: Time): Task {
    var t := t.(state := next, lastTransitionAt := now);
    match next
    case Assigned => t.(assignedAt := Some(now))
    case Running => t.(startedAt := Some(now))
    case Cancelled => t.(cancelledAt := Some(now))
    case _ => t.(completedAt := Some(now))
  }

  /** transitionTaskLocked. */
  function Transition(s: Svc, red: Redactor, taskId: string, allowed: set<TaskState>, next: TaskState, now: Time)
    : (Svc, Result<Task>)
  {
    var id := Trim(taskId);
    if id !in s.mem.tasks then (s, Err(TaskNotFound))
    else if s.mem.tasks[id].state !in allowed then (s, Err(TaskConflict))
    else
      var task := Stamped(s.mem.tasks[id], next, now);
      (PutTask(s, red, task), Ok(task))
  }

  /** Frees the agent of a task that has ended, if it still works on it. */
  function ReleaseAgent(s: Svc, red: Redactor, task: Task, now: Time): Svc {
    if task.agentId in s.mem.agents && s.mem.agents[task.agentId].currentTaskId == task.id
    then PutAgent(s, red, Release(s.mem.agents[task.agentId], now))
    else s
  }

  function StartTask(s: Svc, red: Redactor, taskId: string, now: Time): (Svc, Result<Task>) {
    var (s1, r) := Transition(s, red, taskId, {Assigned}, Running, now);
    if r.Err? then (s1, r)
    else if r.value.agentId !in s1.mem.agents then (s1, r)
    else (PutAgent(s1, red, Occupy(s1.mem.agents[r.value.agentId], r.value.id, now)), r)
  }

  function CancelTask(s: Svc, red: Redactor, taskId: string, now: Time): (Svc, Result<Task>) {
    var (s1, r) := Transition(s, red, taskId, {Assigned, Running}, Cancelled, now);
    if r.Err? then (s1, r) else (ReleaseAgent(s1, red, r.value, now), r)
  }

  function CompleteTask(s: Svc, red: Redactor, taskId: string, summary: string, outcome: string, now: Time)
    : (Svc, Result<Task>)
  {
    var (s1, r) := Transition(s, red, taskId, {Assigned, Running}, Completed, now);
    if r.Err? then (s1, r)
    else
      var outcome := if Trim(outcome) == "" then "completed" else Trim(outcome);
      var result := TaskResult(Trim(summary), outcome, |r.value.transcript|, |r.value.outputArtifacts|);
      var task := r.value.(result := Some(result));
      (ReleaseAgent(PutTask(s1, red, task), red, task, now), Ok(task))
  }

  function RetryTask(s: Svc, red: Redactor, taskId: string, now: Time): (Svc, Result<Task>) {
    var id := Trim(taskId);
    if id !in s.mem.tasks then (s, Err(TaskNotFound))
    else
      var task := s.mem.tasks[id];
      if !task.state.Terminal() || task.state.Completed? then (s, Err(TaskConflict))
      else if task.agentId !in s.mem.agents then (s, Err(AgentUnregistered))
      else
        var agent := s.mem.agents[task.agentId];
        if Trim(agent.currentTaskId) != "" && agent.currentTaskId != task.id then (s, Err(AgentBusy))
        else
          var again := task.(state := Assigned, attempt := task.attempt + 1, retryCount := task.retryCount + 1,
                             currentSession := agent.currentSession, assignedAt := Some(now), startedAt := None,
                             completedAt := None, cancelledAt := None, lastTransitionAt := now, result := None);
          (PutAgent(PutTask(s, red, again), red, Occupy(agent, again.id, now)), Ok(again))
  }

  datatype EntryRequest = EntryRequest(at: Option<Time>, role: string, text: string, eventRef: string)

  function AppendTranscript(s: Svc, red: Redactor, taskId: string, e: EntryRequest, now: Time): (Svc, Result<Task>) {
    var id := Trim(taskId);
    if id !in s.mem.tasks then (s, Err(TaskNotFound))
    else if !s.mem.tasks[id].state.Active() then (s, Err(TaskConflict))
    else
      var task := s.mem.tasks[id];
      var at := if e.at.None? then now else e.at.value;
      var transcript := task.transcript + [Entry(|task.transcript| + 1, at, e.role, Trim(e.text), Trim(e.eventRef))];
      var result := if task.result.None? then None else Some(task.result.value.(transcriptEntries := |transcript|));
      var longer := task.(transcript := transcript, result := result, lastTransitionAt := at);
      (PutTask(s, red, longer), Ok(longer))
  }

  function AddOutputArtifact(s: Svc, red: Redactor, taskId: string, req: ArtifactRequest, artifactId: string, now: Time)
    : (Svc, Result<Task>)
  {
    var id := Trim(taskId);
    if id !in s.mem.tasks then (s, Err(TaskNotFound))
    else if !s.mem.tasks[id].state.Active() then (s, Err(TaskConflict))
    else
      var task := s.mem.tasks[id];
      var outputs := task.outputArtifacts + [MakeArtifact(req, artifactId, now)];
      var result := if task.result.None? then None else Some(task.result.value.(outputArtifacts := |outputs|));
      var richer := task.(outputArtifacts := outputs, result := result, lastTransitionAt := now);
      (PutTask(s, red, richer), Ok(richer))
  }
}
