/** Whole runs of the orchestrator: the invariant, and the log that keeps what memory holds. */
module OrchestrationRuns {
  import opened Text
  import opened Orchestration
  import opened OrchestrationLaws

  datatype Op =
    | CreatePoolOp(name: string, workspace: string, id: string, now: Time)
    | CreateAgentOp(agentReq: AgentRequest, binding: Result<Option<Binding>>, id: string, now: Time)
    | ExpireAllOp(order: seq<string>, now: Time)
    | ExpireOneOp(taskId: string, now: Time)
    | DispatchOp(requestedBy: string, taskReq: TaskRequest, id: string, ids: seq<string>, now: Time)
    | StartOp(taskId: string, now: Time)
    | CancelOp(taskId: string, now: Time)
    | CompleteOp(taskId: string, summary: string, outcome: string, now: Time)
    | RetryOp(taskId: string, now: Time)
    | AppendOp(taskId: string, entry: EntryRequest, now: Time)
    | ArtifactOp(taskId: string, artifactReq: ArtifactRequest, artifactId: string, now: Time)
    | RestartOp

  ghost function Step(s: Svc, op: Op, red: Redactor, size: Record -> nat): Svc
    requires Possible(s, op)
  {
    match op
    case CreatePoolOp(name, workspace, id, now) => CreatePool(s, red, name, workspace, id, now).0
    case CreateAgentOp(req, binding, id, now) => CreateAgent(s, red, req, binding, id, now).0
    case ExpireAllOp(order, now) => ExpireTasks(s, red, order, now)
    case ExpireOneOp(taskId, now) => ExpireTask(s, red, taskId, now)
    case DispatchOp(requestedBy, req, id, ids, now) => DispatchTask(s, red, requestedBy, req, id, ids, now).0
    case StartOp(taskId, now) => StartTask(s, red, taskId, now).0
    case CancelOp(taskId, now) => CancelTask(s, red, taskId, now).0
    case CompleteOp(taskId, summary, outcome, now) => CompleteTask(s, red, taskId, summary, outcome, now).0
    case RetryOp(taskId, now) => RetryTask(s, red, taskId, now).0
    case AppendOp(taskId, entry, now) => AppendTranscript(s, red, taskId, entry, now).0
    case ArtifactOp(taskId, req, artifactId, now) => AddOutputArtifact(s, red, taskId, req, artifactId, now).0
    case RestartOp => Restarted(s, size)
  }

  /** The identifiers that newID draws are new. */
  ghost predicate Possible(s: Svc, op: Op) {
    match op
    case CreatePoolOp(_, _, id, _) => IdOk(id) && id !in s.mem.pools
    case CreateAgentOp(_, _, id, _) => IdOk(id) && id !in s.mem.agents
    case DispatchOp(_, req, id, ids, _) => IdOk(id) && id !in s.mem.tasks && |ids| == |req.inputs|
    case _ => true
  }

  ghost predicate Run(ss: seq<Svc>, ops: seq<Op>, red: Redactor, size: Record -> nat) {
    && |ss| == |ops| + 1
    && ss[0] == Svc(NO_MEM, [])
    && forall i :: 0 <= i < |ops| ==> Possible(ss[i], ops[i]) && ss[i + 1] == Step(ss[i], ops[i], red, size)
  }

  // The log mirrors memory.

  ghost predicate Mirrors(s: Svc, red: Redactor) { Load(s.log) == Sanitized(red, s.mem) }

  /** Agents and tasks about which the log may be out of date. */
  datatype Ids = Ids(agents: set<string>, tasks: set<string>)

  const NO_IDS := Ids({}, {})

  predicate AgentAgrees(l: map<string, Agent>, asIs: bool, m: map<string, Agent>, id: string) {
    && (id in l <==> id in m)
    && (id in m && id in l ==> l[id] == SanitizeAgent(m[id]) || (asIs && l[id] == m[id]))
  }

  predicate TaskAgrees(l: map<string, Task>, red: Redactor, asIs: bool, m: map<string, Task>, id: string) {
    && (id in l <==> id in m)
    && (id in m && id in l ==> l[id] == SanitizeTask(red, m[id]) || (asIs && l[id] == m[id]))
  }

  ghost predicate AgentsAgree(l: map<string, Agent>, asIs: bool, m: map<string, Agent>, off: set<string>) {
    forall id :: id !in off ==> AgentAgrees(l, asIs, m, id)
  }

  ghost predicate TasksAgree(l: map<string, Task>, red: Redactor, asIs: bool, m: map<string, Task>, off: set<string>) {
    forall id :: id !in off ==> TaskAgrees(l, red, asIs, m, id)
  }

  /**
   The log says of everything but off what memory says, sanitised or, if asIs allows it, as it is. After a restart
   memory holds what the log holds, so what is not written again since then is in the log as it is.
   */
  ghost predicate Agrees(s: Svc, red: Redactor, asIs: bool, off: Ids) {
    var l := Load(s.log);
    && l.pools == s.mem.pools
    && AgentsAgree(l.agents, asIs, s.mem.agents, off.agents)
    && TasksAgree(l.tasks, red, asIs, s.mem.tasks, off.tasks)
  }

  /** The log is a mirror when it is nowhere out of date. */
  lemma MirrorsAgreesEverywhere(s: Svc, red: Redactor)
    ensures Mirrors(s, red) <==> Agrees(s, red, false, NO_IDS)
  {
    var l, v := Load(s.log), Sanitized(red, s.mem);
    if Agrees(s, red, false, NO_IDS) {
      forall id ensures (id in l.agents <==> id in v.agents) && (id in l.agents ==> l.agents[id] == v.agents[id]) {
        assert AgentAgrees(l.agents, false, s.mem.agents, id);
      }
      forall id ensures (id in l.tasks <==> id in v.tasks) && (id in l.tasks ==> l.tasks[id] == v.tasks[id]) {
        assert TaskAgrees(l.tasks, red, false, s.mem.tasks, id);
      }
      assert l.agents == v.agents && l.tasks == v.tasks;
    }
  }

  lemma LoadSnoc(log: seq<Record>, r: Record)
    ensures Load(log + [r]) == Replay(Load(log), r)
  {
    assert (log + [r])[..|log|] == log;
  }

  lemma PutPoolAgrees(s: Svc, red: Redactor, asIs: bool, off: Ids, p: Pool)
    requires Agrees(s, red, asIs, off) && p.id != ""
    ensures Agrees(PutPool(s, red, p), red, asIs, off)
  {
    LoadSnoc(s.log, PoolRecord(p));
  }

  lemma AgentPutAgrees(l: map<string, Agent>, asIs: bool, m: map<string, Agent>, off: set<string>, a: Agent)
    requires AgentsAgree(l, asIs, m, off)
    ensures AgentsAgree(l[a.id := SanitizeAgent(a)], asIs, m[a.id := a], off - {a.id})
    ensures AgentsAgree(l[a.id := SanitizeAgent(a)], asIs, m[a.id := a], off)
  {
  }

  lemma TaskPutAgrees(l: map<string, Task>, red: Redactor, asIs: bool, m: map<string, Task>, off: set<string>, t: Task)
    requires TasksAgree(l, red, asIs, m, off)
    ensures TasksAgree(l[t.id := SanitizeTask(red, t)], red, asIs, m[t.id := t], off - {t.id})
    ensures TasksAgree(l[t.id := SanitizeTask(red, t)], red, asIs, m[t.id := t], off)
  {
    var l', m' := l[t.id := SanitizeTask(red, t)], m[t.id := t];
    forall id | id !in off - {t.id} ensures TaskAgrees(l', red, asIs, m', id) {
      if id != t.id {
        assert TaskAgrees(l, red, asIs, m, id);
      }
    }
  }

  lemma PutAgentAgrees(s: Svc, red: Redactor, asIs: bool, off: Ids, a: Agent)
    requires Agrees(s, red, asIs, off) && a.id != ""
    ensures Agrees(PutAgent(s, red, a), red, asIs, off.(agents := off.agents - {a.id}))
    ensures Agrees(PutAgent(s, red, a), red, asIs, off)
  {
    LoadSnoc(s.log, SanitizeRecord(red, AgentRecord(a)));
    AgentPutAgrees(Load(s.log).agents, asIs, s.mem.agents, off.agents, a);
  }

  lemma PutTaskAgrees(s: Svc, red: Redactor, asIs: bool, off: Ids, t: Task)
    requires Agrees(s, red, asIs, off) && t.id != ""
    ensures Agrees(PutTask(s, red, t), red, asIs, off.(tasks := off.tasks - {t.id}))
    ensures Agrees(PutTask(s, red, t), red, asIs, off)
  {
    LoadSnoc(s.log, SanitizeRecord(red, TaskRecord(t)));
    TaskPutAgrees(Load(s.log).tasks, red, asIs, s.mem.tasks, off.tasks, t);
  }

  // Batches.

  function OverlayAgents(m: map<string, Agent>, s: seq<Agent>): map<string, Agent> {
    if s == [] then m else OverlayAgents(m, s[..|s| - 1])[s[|s| - 1].id := s[|s| - 1]]
  }

  function OverlayTasks(m: map<string, Task>, s: seq<Task>): map<string, Task> {
    if s == [] then m else OverlayTasks(m, s[..|s| - 1])[s[|s| - 1].id := s[|s| - 1]]
  }

  function Overlaid(m: Mem, b: Batch): Mem {
    m.(agents := OverlayAgents(m.agents, b.agents), tasks := OverlayTasks(m.tasks, b.tasks))
  }

  ghost predicate Named(b: Batch) {
    && (forall i :: 0 <= i < |b.agents| ==> b.agents[i].id != "")
    && (forall i :: 0 <= i < |b.tasks| ==> b.tasks[i].id != "")
  }

  lemma {:induction false} OverlayAgentsConcat(m: map<string, Agent>, s: seq<Agent>, t: seq<Agent>)
    ensures OverlayAgents(m, s + t) == OverlayAgents(OverlayAgents(m, s), t)
  {
    if t == [] {
      assert s + t == s;
    } else {
      assert (s + t)[..|s + t| - 1] == s + t[..|t| - 1];
      OverlayAgentsConcat(m, s, t[..|t| - 1]);
    }
  }

  lemma {:induction false} OverlayTasksConcat(m: map<string, Task>, s: seq<Task>, t: seq<Task>)
    ensures OverlayTasks(m, s + t) == OverlayTasks(OverlayTasks(m, s), t)
  {
    if t == [] {
      assert s + t == s;
    } else {
      assert (s + t)[..|s + t| - 1] == s + t[..|t| - 1];
      OverlayTasksConcat(m, s, t[..|t| - 1]);
    }
  }

  lemma ExpireOneIsOverlay(m: Mem, taskId: string, now: Time)
    requires Inv(m)
    ensures var (m', b) := ExpireTaskLocked(m, taskId, now); m' == Overlaid(m, b) && Named(b)
  {
    var id := Trim(taskId);
    if id in m.tasks && Expires(m.tasks[id], now) {
      var task := TimeOut(m.tasks[id], now);
      assert m.tasks[id].id == id && IdOk(id) && TaskSettled(m.agents, m.tasks[id]);
      var agent := Release(m.agents[task.agentId], now);
      assert ExpireTaskLocked(m, taskId, now).1 == Batch([task], [agent]);
      OverlayOne(m, task, agent);
    }
  }

  lemma OverlayOne(m: Mem, t: Task, a: Agent)
    ensures Overlaid(m, Batch([t], [a])) == m.(tasks := m.tasks[t.id := t], agents := m.agents[a.id := a])
  {
    assert OverlayTasks(m.tasks, [t][..0]) == m.tasks && OverlayAgents(m.agents, [a][..0]) == m.agents;
  }

  /** An expiry changes memory by exactly the records of its batch. */
  lemma {:induction false} ExpiryIsOverlay(m: Mem, order: seq<string>, now: Time)
    requires Inv(m)
    ensures var (m', b) := ExpireTasksLocked(m, order, now); m' == Overlaid(m, b) && Named(b)
  {
    if order != [] {
      var init := order[..|order| - 1];
      ExpireTasksKeeps(m, init, now);
      ExpiryIsOverlay(m, init, now);
      var (m0, b0) := ExpireTasksLocked(m, init, now);
      ExpireOneIsOverlay(m0, order[|order| - 1], now);
      var (m1, b1) := ExpireTaskLocked(m0, order[|order| - 1], now);
      OverlayAgentsConcat(m.agents, b0.agents, b1.agents);
      OverlayTasksConcat(m.tasks, b0.tasks, b1.tasks);
    }
  }

  function AgentIds(s: seq<Agent>): set<string> { set a | a in s :: a.id }

  function TaskIds(s: seq<Task>): set<string> { set t | t in s :: t.id }

  function IdsOf(b: Batch): Ids { Ids(AgentIds(b.agents), TaskIds(b.tasks)) }

  lemma {:induction false} WriteAgents(s: Svc, red: Redactor, asIs: bool, off: Ids, agents: seq<Agent>)
    requires Agrees(s, red, asIs, off) && forall i :: 0 <= i < |agents| ==> agents[i].id != ""
    ensures Agrees(Svc(s.mem.(agents := OverlayAgents(s.mem.agents, agents)), s.log + AgentRecords(red, agents)), red,
                   asIs, off.(agents := off.agents - AgentIds(agents)))
  {
    if agents == [] {
      assert s.log + AgentRecords(red, agents) == s.log;
    } else {
      var init, last := agents[..|agents| - 1], agents[|agents| - 1];
      WriteAgents(s, red, asIs, off, init);
      var s0 := Svc(s.mem.(agents := OverlayAgents(s.mem.agents, init)), s.log + AgentRecords(red, init));
      var written := s0.log + [SanitizeRecord(red, AgentRecord(last))];
      assert s.log + AgentRecords(red, agents) == written;
      assert agents == init + [last];
      assert off.agents - AgentIds(agents) == off.agents - AgentIds(init) - {last.id};
      PutAgentAgrees(s0, red, asIs, off.(agents := off.agents - AgentIds(init)), last);
    }
  }

  lemma {:induction false} WriteTasks(s: Svc, red: Redactor, asIs: bool, off: Ids, tasks: seq<Task>)
    requires Agrees(s, red, asIs, off) && forall i :: 0 <= i < |tasks| ==> tasks[i].id != ""
    ensures Agrees(Svc(s.mem.(tasks := OverlayTasks(s.mem.tasks, tasks)), s.log + TaskRecords(red, tasks)), red,
                   asIs, off.(tasks := off.tasks - TaskIds(tasks)))
  {
    if tasks == [] {
      assert s.log + TaskRecords(red, tasks) == s.log;
    } else {
      var init, last := tasks[..|tasks| - 1], tasks[|tasks| - 1];
      WriteTasks(s, red, asIs, off, init);
      var s0 := Svc(s.mem.(tasks := OverlayTasks(s.mem.tasks, init)), s.log + TaskRecords(red, init));
      var written := s0.log + [SanitizeRecord(red, TaskRecord(last))];
      assert s.log + TaskRecords(red, tasks) == written;
      assert tasks == init + [last];
      assert off.tasks - TaskIds(tasks) == off.tasks - TaskIds(init) - {last.id};
      PutTaskAgrees(s0, red, asIs, off.(tasks := off.tasks - TaskIds(init)), last);
    }
  }

  /** Writing a batch as its change is made brings the log up to date about everything the batch records. */
  lemma PersistAgrees(s: Svc, red: Redactor, asIs: bool, off: Ids, b: Batch)
    requires Agrees(s, red, asIs, off) && Named(b)
    ensures Agrees(Svc(Overlaid(s.mem, b), Persist(s.log, red, b)), red, asIs,
                   Ids(off.agents - IdsOf(b).agents, off.tasks - IdsOf(b).tasks))
  {
    WriteAgents(s, red, asIs, off, b.agents);
    var s0 := Svc(s.mem.(agents := OverlayAgents(s.mem.agents, b.agents)), s.log + AgentRecords(red, b.agents));
    WriteTasks(s0, red, asIs, off.(agents := off.agents - IdsOf(b).agents), b.tasks);
    assert Overlaid(s.mem, b) == s0.mem.(tasks := OverlayTasks(s0.mem.tasks, b.tasks));
  }

  lemma AgreesOffMore(s: Svc, red: Redactor, asIs: bool, off: Ids, more: Ids)
    requires Agrees(s, red, asIs, off) && off.agents <= more.agents && off.tasks <= more.tasks
    ensures Agrees(s, red, asIs, more)
  {
  }

  // Every operation keeps the mirror.

  /** Every agent and task is filed under its own identifier. */
  ghost predicate Filed(m: Mem) {
    && (forall id :: id in m.agents ==> id != "" && m.agents[id].id == id)
    && (forall id :: id in m.tasks ==> id != "" && m.tasks[id].id == id)
  }

  lemma InvFiled(m: Mem)
    requires Inv(m)
    ensures Filed(m)
  {
  }

  lemma TransitionAgrees(s: Svc, red: Redactor, asIs: bool, off: Ids, taskId: string, allowed: set<TaskState>,
                         next: TaskState, now: Time)
    requires Agrees(s, red, asIs, off) && Filed(s.mem)
    ensures var (s', r) := Transition(s, red, taskId, allowed, next, now);
            && Agrees(s', red, asIs, off) && s'.mem.agents == s.mem.agents && (r.Ok? ==> r.value.id != "")
  {
    var id := Trim(taskId);
    if id in s.mem.tasks && s.mem.tasks[id].state in allowed {
      PutTaskAgrees(s, red, asIs, off, Stamped(s.mem.tasks[id], next, now));
    }
  }

  lemma ReleaseAgrees(s: Svc, red: Redactor, asIs: bool, off: Ids, task: Task, now: Time)
    requires Agrees(s, red, asIs, off) && forall id :: id in s.mem.agents ==> id != "" && s.mem.agents[id].id == id
    ensures Agrees(ReleaseAgent(s, red, task, now), red, asIs, off)
  {
    if task.agentId in s.mem.agents {
      PutAgentAgrees(s, red, asIs, off, Release(s.mem.agents[task.agentId], now));
    }
  }

  lemma StartAgrees(s: Svc, red: Redactor, asIs: bool, off: Ids, taskId: string, now: Time)
    requires Agrees(s, red, asIs, off) && Filed(s.mem)
    ensures Agrees(StartTask(s, red, taskId, now).0, red, asIs, off)
  {
    TransitionAgrees(s, red, asIs, off, taskId, {Assigned}, Running, now);
    var (s1, r) := Transition(s, red, taskId, {Assigned}, Running, now);
    if r.Ok? && r.value.agentId in s1.mem.agents {
      PutAgentAgrees(s1, red, asIs, off, Occupy(s1.mem.agents[r.value.agentId], r.value.id, now));
    }
  }

  lemma CancelAgrees(s: Svc, red: Redactor, asIs: bool, off: Ids, taskId: string, now: Time)
    requires Agrees(s, red, asIs, off) && Filed(s.mem)
    ensures Agrees(CancelTask(s, red, taskId, now).0, red, asIs, off)
  {
    TransitionAgrees(s, red, asIs, off, taskId, {Assigned, Running}, Cancelled, now);
    var (s1, r) := Transition(s, red, taskId, {Assigned, Running}, Cancelled, now);
    if r.Ok? {
      ReleaseAgrees(s1, red, asIs, off, r.value, now);
    }
  }

  lemma CompleteAgrees(s: Svc, red: Redactor, asIs: bool, off: Ids, taskId: string, summary: string, outcome: string,
                       now: Time)
    requires Agrees(s, red, asIs, off) && Filed(s.mem)
    ensures Agrees(CompleteTask(s, red, taskId, summary, outcome, now).0, red, asIs, off)
  {
    TransitionAgrees(s, red, asIs, off, taskId, {Assigned, Running}, Completed, now);
    var (s1, r) := Transition(s, red, taskId, {Assigned, Running}, Completed, now);
    if r.Ok? {
      var task := CompleteTask(s, red, taskId, summary, outcome, now).1.value;
      PutTaskAgrees(s1, red, asIs, off, task);
      ReleaseAgrees(PutTask(s1, red, task), red, asIs, off, task, now);
    }
  }

  lemma RetryAgrees(s: Svc, red: Redactor, asIs: bool, off: Ids, taskId: string, now: Time)
    requires Agrees(s, red, asIs, off) && Filed(s.mem)
    ensures Agrees(RetryTask(s, red, taskId, now).0, red, asIs, off)
  {
    var r := RetryTask(s, red, taskId, now).1;
    if r.Ok? {
      PutTaskAgrees(s, red, asIs, off, r.value);
      PutAgentAgrees(PutTask(s, red, r.value), red, asIs, off, Occupy(s.mem.agents[r.value.agentId], r.value.id, now));
    }
  }

  lemma AppendAgrees(s: Svc, red: Redactor, asIs: bool, off: Ids, taskId: string, e: EntryRequest, now: Time)
    requires Agrees(s, red, asIs, off) && Filed(s.mem)
    ensures Agrees(AppendTranscript(s, red, taskId, e, now).0, red, asIs, off)
  {
    var r := AppendTranscript(s, red, taskId, e, now).1;
    if r.Ok? {
      PutTaskAgrees(s, red, asIs, off, r.value);
    }
  }

  lemma ArtifactAgrees(s: Svc, red: Redactor, asIs: bool, off: Ids, taskId: string, req: ArtifactRequest,
                       artifactId: string, now: Time)
    requires Agrees(s, red, asIs, off) && Filed(s.mem)
    ensures Agrees(AddOutputArtifact(s, red, taskId, req, artifactId, now).0, red, asIs, off)
  {
    var r := AddOutputArtifact(s, red, taskId, req, artifactId, now).1;
    if r.Ok? {
      PutTaskAgrees(s, red, asIs, off, r.value);
    }
  }

  lemma CreateAgrees(s: Svc, op: Op, red: Redactor, asIs: bool, off: Ids, size: Record -> nat)
    requires Agrees(s, red, asIs, off) && Possible(s, op) && (op.CreatePoolOp? || op.CreateAgentOp?)
    ensures Agrees(Step(s, op, red, size), red, asIs, off)
  {
    match op
    case CreatePoolOp(name, workspace, id, now) =>
      var r := CreatePool(s, red, name, workspace, id, now).1;
      if r.Ok? {
        PutPoolAgrees(s, red, asIs, off, r.value);
      }
    case CreateAgentOp(req, binding, id, now) =>
      var r := CreateAgent(s, red, req, binding, id, now).1;
      if r.Ok? {
        PutAgentAgrees(s, red, asIs, off, r.value);
      }
  }

  lemma DispatchAgrees(s: Svc, red: Redactor, asIs: bool, off: Ids, requestedBy: string, req: TaskRequest, id: string,
                       ids: seq<string>, now: Time)
    requires Agrees(s, red, asIs, off) && Filed(s.mem) && id != "" && |ids| == |req.inputs|
    ensures Agrees(DispatchTask(s, red, requestedBy, req, id, ids, now).0, red, asIs, off)
  {
    var r := DispatchTask(s, red, requestedBy, req, id, ids, now).1;
    if r.Ok? {
      var found := ResolvedFrom(s.mem, req.target);
      var agent := Occupy(s.mem.agents[found], id, now);
      PutAgentAgrees(s, red, asIs, off, agent);
      PutTaskAgrees(PutAgent(s, red, agent), red, asIs, off, r.value);
    }
  }

  lemma ExpiryAgrees(s: Svc, op: Op, red: Redactor, asIs: bool, off: Ids, size: Record -> nat)
    requires Agrees(s, red, asIs, off) && Inv(s.mem) && (op.ExpireAllOp? || op.ExpireOneOp?)
    ensures Agrees(Step(s, op, red, size), red, asIs, off)
  {
    match op
    case ExpireAllOp(order, now) =>
      ExpiryIsOverlay(s.mem, order, now);
      WrittenAtOnce(s, red, asIs, off, ExpireTasksLocked(s.mem, order, now).1);
    case ExpireOneOp(taskId, now) =>
      ExpireOneIsOverlay(s.mem, taskId, now);
      WrittenAtOnce(s, red, asIs, off, ExpireTaskLocked(s.mem, taskId, now).1);
  }

  lemma WrittenAtOnce(s: Svc, red: Redactor, asIs: bool, off: Ids, b: Batch)
    requires Agrees(s, red, asIs, off) && Named(b)
    ensures Agrees(Svc(Overlaid(s.mem, b), Persist(s.log, red, b)), red, asIs, off)
  {
    PersistAgrees(s, red, asIs, off, b);
    AgreesOffMore(Svc(Overlaid(s.mem, b), Persist(s.log, red, b)), red, asIs,
                  Ids(off.agents - IdsOf(b).agents, off.tasks - IdsOf(b).tasks), off);
  }

  /** No operation puts the log out of date about anything it was not out of date about before. */
  lemma StepAgrees(s: Svc, op: Op, red: Redactor, asIs: bool, off: Ids, size: Record -> nat)
    requires Agrees(s, red, asIs, off) && Inv(s.mem) && Possible(s, op) && !op.RestartOp?
    ensures Agrees(Step(s, op, red, size), red, asIs, off)
  {
    InvFiled(s.mem);
    match op
    case CreatePoolOp(_, _, _, _) => CreateAgrees(s, op, red, asIs, off, size);
    case CreateAgentOp(_, _, _, _) => CreateAgrees(s, op, red, asIs, off, size);
    case ExpireAllOp(_, _) => ExpiryAgrees(s, op, red, asIs, off, size);
    case ExpireOneOp(_, _) => ExpiryAgrees(s, op, red, asIs, off, size);
    case DispatchOp(requester, req, id, ids, now) => DispatchAgrees(s, red, asIs, off, requester, req, id, ids, now);
    case StartOp(taskId, now) => StartAgrees(s, red, asIs, off, taskId, now);
    case CancelOp(taskId, now) => CancelAgrees(s, red, asIs, off, taskId, now);
    case CompleteOp(taskId, summary, outcome, now) => CompleteAgrees(s, red, asIs, off, taskId, summary, outcome, now);
    case RetryOp(taskId, now) => RetryAgrees(s, red, asIs, off, taskId, now);
    case AppendOp(taskId, entry, now) => AppendAgrees(s, red, asIs, off, taskId, entry, now);
    case ArtifactOp(taskId, req, artifactId, now) => ArtifactAgrees(s, red, asIs, off, taskId, req, artifactId, now);
  }

  lemma StepKeeps(s: Svc, op: Op, red: Redactor, size: Record -> nat)
    requires Inv(s.mem) && Possible(s, op) && !op.RestartOp?
    ensures Inv(Step(s, op, red, size).mem)
  {
    match op
    case CreatePoolOp(name, workspace, id, now) => CreatePoolKeeps(s, red, name, workspace, id, now);
    case CreateAgentOp(req, binding, id, now) => CreateAgentKeeps(s, red, req, binding, id, now);
    case ExpireAllOp(order, now) => ExpireTasksKeeps(s.mem, order, now);
    case ExpireOneOp(taskId, now) => ExpireTaskKeeps(s.mem, taskId, now);
    case DispatchOp(requestedBy, req, id, ids, now) => DispatchTaskKeeps(s, red, requestedBy, req, id, ids, now);
    case StartOp(taskId, now) => StartTaskKeeps(s, red, taskId, now);
    case CancelOp(taskId, now) => CancelTaskKeeps(s, red, taskId, now);
    case CompleteOp(taskId, summary, outcome, now) => CompleteTaskKeeps(s, red, taskId, summary, outcome, now);
    case RetryOp(taskId, now) => RetryTaskKeeps(s, red, taskId, now);
    case AppendOp(taskId, entry, now) => AppendTranscriptKeeps(s, red, taskId, entry, now);
    case ArtifactOp(taskId, req, artifactId, now) => AddOutputArtifactKeeps(s, red, taskId, req, artifactId, now);
  }

  lemma CreateKeepsTasks(s: Svc, op: Op, red: Redactor, size: Record -> nat)
    requires Possible(s, op) && (op.CreatePoolOp? || op.CreateAgentOp?)
    ensures Step(s, op, red, size).mem.tasks == s.mem.tasks
  {
  }

  // Restarts.

  /** The log only grows. */
  lemma StepExtendsLog(s: Svc, op: Op, red: Redactor, size: Record -> nat)
    requires Possible(s, op)
    ensures s.log <= Step(s, op, red, size).log
  {
    match op
    case CompleteOp(taskId, summary, outcome, now) => CompleteExtendsLog(s, red, taskId, summary, outcome, now);
    case RetryOp(taskId, now) => RetryExtendsLog(s, red, taskId, now);
    case AppendOp(taskId, entry, now) => AppendExtendsLog(s, red, taskId, entry, now);
    case DispatchOp(requester, req, id, ids, now) => DispatchExtendsLog(s, red, requester, req, id, ids, now);
    case _ =>
  }

  lemma CompleteExtendsLog(s: Svc, red: Redactor, taskId: string, summary: string, outcome: string, now: Time)
    ensures s.log <= CompleteTask(s, red, taskId, summary, outcome, now).0.log
  {
  }

  lemma DispatchExtendsLog(s: Svc, red: Redactor, requestedBy: string, req: TaskRequest, id: string,
                           ids: seq<string>, now: Time)
    requires |ids| == |req.inputs|
    ensures s.log <= DispatchTask(s, red, requestedBy, req, id, ids, now).0.log
  {
  }

  lemma RetryExtendsLog(s: Svc, red: Redactor, taskId: string, now: Time)
    ensures s.log <= RetryTask(s, red, taskId, now).0.log
  {
  }

  lemma AppendExtendsLog(s: Svc, red: Redactor, taskId: string, e: EntryRequest, now: Time)
    ensures s.log <= AppendTranscript(s, red, taskId, e, now).0.log
  {
  }

  lemma ReadablePrefix(log: seq<Record>, longer: seq<Record>, size: Record -> nat)
    requires log <= longer && Readable(longer, size)
    ensures Readable(log, size)
  {
    forall i | 0 <= i < |log| ensures size(log[i]) < RECORD_LIMIT {
      assert longer[i] == log[i];
    }
  }

  /** The log keeps memory when every agent and task in it is up to date, as it is or sanitised. */
  lemma KeptAgreesEverywhere(s: Svc, red: Redactor)
    ensures Kept(red, s.mem, Load(s.log)) <==> Agrees(s, red, true, NO_IDS)
  {
    var l := Load(s.log);
    if Agrees(s, red, true, NO_IDS) {
      forall id ensures id in l.agents <==> id in s.mem.agents {
        assert AgentAgrees(l.agents, true, s.mem.agents, id);
      }
      forall id ensures id in l.tasks <==> id in s.mem.tasks {
        assert TaskAgrees(l.tasks, red, true, s.mem.tasks, id);
      }
      forall id | id in s.mem.agents ensures AgentAgrees(l.agents, true, s.mem.agents, id) {
      }
      forall id | id in s.mem.tasks ensures TaskAgrees(l.tasks, red, true, s.mem.tasks, id) {
      }
    }
  }

  lemma StepKept(s: Svc, op: Op, red: Redactor, size: Record -> nat)
    requires Kept(red, s.mem, Load(s.log)) && Inv(s.mem) && Possible(s, op) && !op.RestartOp?
    ensures var s' := Step(s, op, red, size); Kept(red, s'.mem, Load(s'.log))
  {
    KeptAgreesEverywhere(s, red);
    StepAgrees(s, op, red, true, NO_IDS, size);
    KeptAgreesEverywhere(Step(s, op, red, size), red);
  }

  /**
   Replay refines memory: in every state of every run, restarts included, occupancy, naming and counting hold, and a
   readable log loads to what memory holds, each agent and task sanitised or, after a restart, as it is.
   */
  lemma {:induction false} ReplayRefinesMemory(ss: seq<Svc>, ops: seq<Op>, red: Redactor, size: Record -> nat, n: nat)
    requires Run(ss, ops, red, size) && n <= |ops|
    ensures Inv(ss[n].mem)
    ensures Readable(ss[n].log, size) ==> Kept(red, ss[n].mem, Load(ss[n].log))
    decreases n
  {
    if n > 0 {
      ReplayRefinesMemory(ss, ops, red, size, n - 1);
      var s, op := ss[n - 1], ops[n - 1];
      StepExtendsLog(s, op, red, size);
      if Readable(ss[n].log, size) {
        ReadablePrefix(s.log, ss[n].log, size);
      }
      if op.RestartOp? {
        RestartIsSound(s, red, size);
      } else {
        StepKeeps(s, op, red, size);
        if Readable(ss[n].log, size) {
          StepKept(s, op, red, size);
        }
      }
    }
  }

  lemma RestartIsSound(s: Svc, red: Redactor, size: Record -> nat)
    requires Inv(s.mem) && (Readable(s.log, size) ==> Kept(red, s.mem, Load(s.log)))
    ensures Inv(Restarted(s, size).mem)
  {
    if Readable(s.log, size) {
      KeptIsSound(red, s.mem, Load(s.log));
    }
  }

  /**
   A restart after any run brings the memory back, as it was or sanitised, exactly when the log can be read or nothing
   was held; and sanitised throughout exactly when, besides, the log mirrors memory.
   */
  lemma RestartRestores(ss: seq<Svc>, ops: seq<Op>, red: Redactor, size: Record -> nat)
    requires Run(ss, ops, red, size)
    ensures var s := ss[|ops|];
            Kept(red, s.mem, Restarted(s, size).mem) <==> Readable(s.log, size) || s.mem == NO_MEM
    ensures var s := ss[|ops|];
            Restarted(s, size).mem == Sanitized(red, s.mem)
            <==> (Readable(s.log, size) && Mirrors(s, red)) || s.mem == NO_MEM
  {
    var s := ss[|ops|];
    ReplayRefinesMemory(ss, ops, red, size, |ops|);
    NothingHeld(red, s.mem);
    if s.mem == NO_MEM && Readable(s.log, size) {
      KeptOfNothing(red, Load(s.log));
    }
  }

  /** One record of 10 MiB or more empties the memory of every process that starts afterwards. */
  lemma LargeRecordEmpties(s: Svc, size: Record -> nat)
    ensures (exists i :: 0 <= i < |s.log| && size(s.log[i]) >= 10 * 1024 * 1024) ==> Restarted(s, size).mem == NO_MEM
    ensures (forall i :: 0 <= i < |s.log| ==> size(s.log[i]) < 10 * 1024 * 1024) ==>
              Restarted(s, size).mem == Load(s.log)
  {
  }

  /** Records without an identifier are skipped, and each of the others takes the place of what had its identifier. */
  lemma LoadSkipsUnnamed(log: seq<Record>, r: Record)
    ensures var (m, n) := (Load(log), Load(log + [r]));
            match r
            case PoolRecord(p) => n == if p.id == "" then m else m.(pools := m.pools[p.id := p])
            case AgentRecord(a) => n == if a.id == "" then m else m.(agents := m.agents[a.id := a])
            case TaskRecord(t) => n == if t.id == "" then m else m.(tasks := m.tasks[t.id := t])
  {
    LoadSnoc(log, r);
  }

  lemma NothingHeld(red: Redactor, m: Mem)
    ensures Sanitized(red, m) == NO_MEM <==> m == NO_MEM
    ensures Kept(red, m, NO_MEM) <==> m == NO_MEM
  {
    if Sanitized(red, m) == NO_MEM {
      assert m.agents.Keys == Sanitized(red, m).agents.Keys && m.tasks.Keys == Sanitized(red, m).tasks.Keys;
    }
  }

  lemma KeptOfNothing(red: Redactor, n: Mem)
    requires Kept(red, NO_MEM, n)
    ensures n == NO_MEM
  {
  }
}
