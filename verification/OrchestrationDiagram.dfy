/** The state diagram of a task: which calls it accepts in which state, where they lead, and what its stamps tell. */
module OrchestrationDiagram {
  import opened Text
  import opened Orchestration
  import opened OrchestrationLaws
  import opened OrchestrationRuns

  // One call on one task.

  predicate OnOneTask(op: Op) {
    op.StartOp? || op.CancelOp? || op.CompleteOp? || op.RetryOp? || op.AppendOp? || op.ArtifactOp? || op.ExpireOneOp?
  }

  /**
   The states in which a call is accepted; a retry needs a free agent as well, and an expiry a deadline that is over.
   */
  predicate Applies(m: Mem, op: Op, t: Task) {
    match op
    case StartOp(_, _) => t.state.Assigned?
    case RetryOp(_, _) =>
      && (t.state.Failed? || t.state.TimedOut? || t.state.Cancelled?)
      && t.agentId in m.agents && m.agents[t.agentId].currentTaskId in {"", t.id}
    case ExpireOneOp(_, now) => t.state.Active() && Deadline(t).Some? && Deadline(t).value <= now
    case _ => OnOneTask(op) && t.state.Active()
  }

  /** The state a call leaves a task in. */
  function Next(op: Op, state: TaskState): TaskState {
    match op
    case StartOp(_, _) => Running
    case CancelOp(_, _) => Cancelled
    case CompleteOp(_, _, _, _) => Completed
    case RetryOp(_, _) => Assigned
    case ExpireOneOp(_, _) => TimedOut
    case _ => state
  }

  /** What a call adds to a task, and that it takes nothing away. */
  ghost predicate Gains(op: Op, t: Task, u: Task) {
    && u.id == t.id && u.agentId == t.agentId && u.prompt == t.prompt && u.timeoutSeconds == t.timeoutSeconds
    && t.transcript <= u.transcript && t.outputArtifacts <= u.outputArtifacts
    && |u.transcript| == |t.transcript| + (if op.AppendOp? then 1 else 0)
    && |u.outputArtifacts| == |t.outputArtifacts| + (if op.ArtifactOp? then 1 else 0)
    && u.attempt == t.attempt + (if op.RetryOp? then 1 else 0)
    && (op.AppendOp? ==> u.transcript[|t.transcript|].text == Trim(op.entry.text))
    && (op.AppendOp? ==> u.transcript[|t.transcript|].role == op.entry.role)
  }

  /** No task but the named one changes, and no agent but that of the named one. */
  ghost predicate OnlyTouches(m: Mem, n: Mem, id: string) {
    && n.pools == m.pools && n.tasks.Keys == m.tasks.Keys && n.agents.Keys == m.agents.Keys
    && (forall x :: x in m.tasks && x != id ==> n.tasks[x] == m.tasks[x])
    && (forall a :: a in m.agents && !(id in m.tasks && m.tasks[id].agentId == a) ==> n.agents[a] == m.agents[a])
  }

  /** The call follows the diagram: it applies and moves its task, or it changes nothing. */
  ghost predicate Turns(m: Mem, op: Op, n: Mem)
    requires OnOneTask(op)
  {
    var id := Trim(op.taskId);
    && OnlyTouches(m, n, id)
    && (if id in m.tasks && Applies(m, op, m.tasks[id])
        then n.tasks[id].state == Next(op, m.tasks[id].state) && Gains(op, m.tasks[id], n.tasks[id])
        else n == m)
  }

  /** It is answered with the task as it is filed, or refused for the right reason. */
  predicate Answers(m: Mem, op: Op, n: Mem, r: Result<Task>)
    requires OnOneTask(op)
  {
    var id := Trim(op.taskId);
    && (r.Ok? <==> id in m.tasks && Applies(m, op, m.tasks[id]))
    && (r.Ok? ==> id in n.tasks && r.value == n.tasks[id])
    && (r == Err(TaskNotFound) <==> id !in m.tasks)
  }

  /** A new record for one task, and at most one for its agent. */
  lemma OneRecordTouches(m: Mem, n: Mem, id: string, u: Task)
    requires id in m.tasks && n.pools == m.pools && n.tasks == m.tasks[id := u]
    requires var a := m.tasks[id].agentId;
             n.agents == m.agents || (a in m.agents && a in n.agents && n.agents == m.agents[a := n.agents[a]])
    ensures OnlyTouches(m, n, id)
  {
  }

  lemma RecordTurns(m: Mem, op: Op, n: Mem, u: Task)
    requires OnOneTask(op) && Trim(op.taskId) in m.tasks && n.pools == m.pools
    requires var t := m.tasks[Trim(op.taskId)];
             && Applies(m, op, t) && u.state == Next(op, t.state) && Gains(op, t, u)
             && n.tasks == m.tasks[Trim(op.taskId) := u]
             && (n.agents == m.agents
                 || (t.agentId in m.agents && t.agentId in n.agents
                     && n.agents == m.agents[t.agentId := n.agents[t.agentId]]))
    ensures Turns(m, op, n)
  {
    OneRecordTouches(m, n, Trim(op.taskId), u);
  }

  lemma StartTurns(s: Svc, red: Redactor, taskId: string, now: Time)
    requires Filed(s.mem)
    ensures var (s', r), op := StartTask(s, red, taskId, now), StartOp(taskId, now);
            Turns(s.mem, op, s'.mem) && Answers(s.mem, op, s'.mem, r)
  {
    var ((s', r), id) := (StartTask(s, red, taskId, now), Trim(taskId));
    if r.Ok? {
      OneRecordTouches(s.mem, s'.mem, id, r.value);
    } else {
      assert s' == s;
    }
  }

  lemma CancelTurns(s: Svc, red: Redactor, taskId: string, now: Time)
    requires Filed(s.mem)
    ensures var (s', r), op := CancelTask(s, red, taskId, now), CancelOp(taskId, now);
            Turns(s.mem, op, s'.mem) && Answers(s.mem, op, s'.mem, r)
  {
    var ((s', r), id) := (CancelTask(s, red, taskId, now), Trim(taskId));
    if r.Ok? {
      OneRecordTouches(s.mem, s'.mem, id, r.value);
    } else {
      assert s' == s;
    }
  }

  lemma CompletedRecord(s: Svc, red: Redactor, taskId: string, summary: string, outcome: string, now: Time)
    requires Filed(s.mem) && CompleteTask(s, red, taskId, summary, outcome, now).1.Ok?
    ensures var ((s', r), id) := (CompleteTask(s, red, taskId, summary, outcome, now), Trim(taskId));
            && id in s.mem.tasks && s.mem.tasks[id].state.Active()
            && s'.mem.tasks == s.mem.tasks[id := r.value] && s'.mem.pools == s.mem.pools
            && r.value.state.Completed? && Gains(CompleteOp(taskId, summary, outcome, now), s.mem.tasks[id], r.value)
  {
  }

  lemma CompletedAgent(s: Svc, red: Redactor, taskId: string, summary: string, outcome: string, now: Time)
    requires Filed(s.mem) && CompleteTask(s, red, taskId, summary, outcome, now).1.Ok?
    ensures var s' := CompleteTask(s, red, taskId, summary, outcome, now).0;
            var a := s.mem.tasks[Trim(taskId)].agentId;
            || s'.mem.agents == s.mem.agents
            || (a in s.mem.agents && s'.mem.agents == s.mem.agents[a := Release(s.mem.agents[a], now)])
  {
  }

  lemma CompletedTurns(s: Svc, red: Redactor, taskId: string, summary: string, outcome: string, now: Time)
    requires Filed(s.mem) && CompleteTask(s, red, taskId, summary, outcome, now).1.Ok?
    ensures var s' := CompleteTask(s, red, taskId, summary, outcome, now).0;
            var op := CompleteOp(taskId, summary, outcome, now);
            Turns(s.mem, op, s'.mem)
  {
    var (s', r) := CompleteTask(s, red, taskId, summary, outcome, now);
    CompletedRecord(s, red, taskId, summary, outcome, now);
    CompletedAgent(s, red, taskId, summary, outcome, now);
    RecordTurns(s.mem, CompleteOp(taskId, summary, outcome, now), s'.mem, r.value);
  }

  lemma CompleteTurns(s: Svc, red: Redactor, taskId: string, summary: string, outcome: string, now: Time)
    requires Filed(s.mem)
    ensures var (s', r) := CompleteTask(s, red, taskId, summary, outcome, now);
            var op := CompleteOp(taskId, summary, outcome, now);
            Turns(s.mem, op, s'.mem) && Answers(s.mem, op, s'.mem, r)
  {
    var (s', r) := CompleteTask(s, red, taskId, summary, outcome, now);
    if r.Ok? {
      CompletedRecord(s, red, taskId, summary, outcome, now);
      CompletedTurns(s, red, taskId, summary, outcome, now);
    } else {
      assert s' == s;
    }
  }

  lemma RetryTurns(s: Svc, red: Redactor, taskId: string, now: Time)
    requires Inv(s.mem)
    ensures var (s', r), op := RetryTask(s, red, taskId, now), RetryOp(taskId, now);
            Turns(s.mem, op, s'.mem) && Answers(s.mem, op, s'.mem, r)
  {
    InvFiled(s.mem);
    var id := Trim(taskId);
    if id in s.mem.tasks && s.mem.tasks[id].agentId in s.mem.agents {
      AgentIsSettled(s.mem, s.mem.tasks[id].agentId);
      RetryUnlessBusy(s, red, taskId, now);
    } else {
      RetryUnregistered(s, red, taskId, now);
    }
  }

  lemma RetryUnregistered(s: Svc, red: Redactor, taskId: string, now: Time)
    requires Trim(taskId) !in s.mem.tasks || s.mem.tasks[Trim(taskId)].agentId !in s.mem.agents
    ensures var (s', r), op := RetryTask(s, red, taskId, now), RetryOp(taskId, now);
            Turns(s.mem, op, s'.mem) && Answers(s.mem, op, s'.mem, r)
  {
    assert RetryTask(s, red, taskId, now).0 == s;
  }

  lemma RetryUnlessBusy(s: Svc, red: Redactor, taskId: string, now: Time)
    requires Filed(s.mem) && Trim(taskId) in s.mem.tasks && s.mem.tasks[Trim(taskId)].agentId in s.mem.agents
    requires var current := s.mem.agents[s.mem.tasks[Trim(taskId)].agentId].currentTaskId;
             current == "" || Trim(current) != ""
    ensures var (s', r), op := RetryTask(s, red, taskId, now), RetryOp(taskId, now);
            Turns(s.mem, op, s'.mem) && Answers(s.mem, op, s'.mem, r)
  {
    var ((s', r), id) := (RetryTask(s, red, taskId, now), Trim(taskId));
    if r.Ok? {
      OneRecordTouches(s.mem, s'.mem, id, r.value);
    } else {
      assert s' == s;
    }
  }

  lemma AppendTurns(s: Svc, red: Redactor, taskId: string, e: EntryRequest, now: Time)
    requires Filed(s.mem)
    ensures var (s', r), op := AppendTranscript(s, red, taskId, e, now), AppendOp(taskId, e, now);
            Turns(s.mem, op, s'.mem) && Answers(s.mem, op, s'.mem, r)
  {
    var ((s', r), id) := (AppendTranscript(s, red, taskId, e, now), Trim(taskId));
    if r.Ok? {
      OneRecordTouches(s.mem, s'.mem, id, r.value);
    } else {
      assert s' == s;
    }
  }

  lemma ArtifactTurns(s: Svc, red: Redactor, taskId: string, req: ArtifactRequest, artifactId: string, now: Time)
    requires Filed(s.mem)
    ensures var (s', r) := AddOutputArtifact(s, red, taskId, req, artifactId, now);
            var op := ArtifactOp(taskId, req, artifactId, now);
            Turns(s.mem, op, s'.mem) && Answers(s.mem, op, s'.mem, r)
  {
    var ((s', r), id) := (AddOutputArtifact(s, red, taskId, req, artifactId, now), Trim(taskId));
    if r.Ok? {
      OneRecordTouches(s.mem, s'.mem, id, r.value);
    } else {
      assert s' == s;
    }
  }

  lemma ExpireOneTurns(s: Svc, red: Redactor, taskId: string, now: Time)
    requires Filed(s.mem)
    ensures Turns(s.mem, ExpireOneOp(taskId, now), ExpireTask(s, red, taskId, now).mem)
  {
  }

  lemma StateCallTurns(s: Svc, op: Op, red: Redactor, size: Record -> nat)
    requires Inv(s.mem) && (op.StartOp? || op.CancelOp? || op.CompleteOp? || op.RetryOp?)
    ensures Turns(s.mem, op, Step(s, op, red, size).mem)
  {
    InvFiled(s.mem);
    match op
    case StartOp(taskId, now) => StartTurns(s, red, taskId, now);
    case CancelOp(taskId, now) => CancelTurns(s, red, taskId, now);
    case CompleteOp(taskId, summary, outcome, now) => CompleteTurns(s, red, taskId, summary, outcome, now);
    case RetryOp(taskId, now) => RetryTurns(s, red, taskId, now);
  }

  lemma ContentCallTurns(s: Svc, op: Op, red: Redactor, size: Record -> nat)
    requires Filed(s.mem) && (op.AppendOp? || op.ArtifactOp? || op.ExpireOneOp?)
    ensures Turns(s.mem, op, Step(s, op, red, size).mem)
  {
    match op
    case AppendOp(taskId, entry, now) => AppendTurns(s, red, taskId, entry, now);
    case ArtifactOp(taskId, req, artifactId, now) => ArtifactTurns(s, red, taskId, req, artifactId, now);
    case ExpireOneOp(taskId, now) => ExpireOneTurns(s, red, taskId, now);
  }

  /** In every state of every run a call on one task follows the diagram. */
  lemma RunFollowsDiagram(ss: seq<Svc>, ops: seq<Op>, red: Redactor, size: Record -> nat, k: nat)
    requires Run(ss, ops, red, size) && k < |ops| && OnOneTask(ops[k])
    ensures Turns(ss[k].mem, ops[k], ss[k + 1].mem)
  {
    ReplayRefinesMemory(ss, ops, red, size, k);
    InvFiled(ss[k].mem);
    assert ss[k + 1] == Step(ss[k], ops[k], red, size);
    if ops[k].AppendOp? || ops[k].ArtifactOp? || ops[k].ExpireOneOp? {
      ContentCallTurns(ss[k], ops[k], red, size);
    } else {
      StateCallTurns(ss[k], ops[k], red, size);
    }
  }

  /** The edges of the diagram. */
  predicate Edge(a: TaskState, b: TaskState) {
    || a == b
    || (a.Assigned? && b.Running?)
    || (a.Active() && (b.Completed? || b.TimedOut? || b.Cancelled?))
    || (a.Terminal() && !a.Completed? && b.Assigned?)
  }

  ghost predicate Edges(m: map<string, Task>, n: map<string, Task>) {
    forall id :: id in m ==> id in n && Edge(m[id].state, n[id].state)
  }

  ghost predicate OnlyTimesOut(m: map<string, Task>, n: map<string, Task>) {
    forall id :: id in m ==> id in n && (n[id] == m[id] || (m[id].state.Active() && n[id].state.TimedOut?))
  }

  lemma ExpireOneEdges(m: Mem, taskId: string, now: Time)
    requires Filed(m)
    ensures Filed(ExpireTaskLocked(m, taskId, now).0)
    ensures OnlyTimesOut(m.tasks, ExpireTaskLocked(m, taskId, now).0.tasks)
  {
  }

  lemma OnlyTimesOutTwice(k: map<string, Task>, m: map<string, Task>, n: map<string, Task>)
    requires OnlyTimesOut(k, m) && OnlyTimesOut(m, n)
    ensures OnlyTimesOut(k, n)
  {
    forall id | id in k ensures id in n && (n[id] == k[id] || (k[id].state.Active() && n[id].state.TimedOut?)) {
      assert id in m && (n[id] == m[id] || m[id].state.Active());
    }
  }

  lemma {:induction false} ExpiryEdges(m: Mem, order: seq<string>, now: Time)
    requires Filed(m)
    ensures Filed(ExpireTasksLocked(m, order, now).0)
    ensures OnlyTimesOut(m.tasks, ExpireTasksLocked(m, order, now).0.tasks)
  {
    if order != [] {
      var m0 := ExpireTasksLocked(m, order[..|order| - 1], now).0;
      ExpiryEdges(m, order[..|order| - 1], now);
      ExpireOneEdges(m0, order[|order| - 1], now);
      OnlyTimesOutTwice(m.tasks, m0.tasks, ExpireTaskLocked(m0, order[|order| - 1], now).0.tasks);
    }
  }

  /** Over every step of every run, whatever the call, no task leaves the edges of the diagram. */
  lemma RunKeepsToEdges(ss: seq<Svc>, ops: seq<Op>, red: Redactor, size: Record -> nat, k: nat)
    requires Run(ss, ops, red, size) && k < |ops|
    requires ops[k].RestartOp? ==> Readable(ss[k].log, size)
    ensures Edges(ss[k].mem.tasks, ss[k + 1].mem.tasks)
  {
    ReplayRefinesMemory(ss, ops, red, size, k);
    InvFiled(ss[k].mem);
    assert ss[k + 1] == Step(ss[k], ops[k], red, size);
    if OnOneTask(ops[k]) {
      RunFollowsDiagram(ss, ops, red, size, k);
    } else if ops[k].ExpireAllOp? {
      ExpiryEdges(ss[k].mem, ops[k].order, ops[k].now);
    } else if ops[k].RestartOp? {
      KeptEdges(red, ss[k].mem, ss[k + 1].mem);
    } else {
      NewKeepsTasks(ss[k], ops[k], red, size);
    }
  }

  lemma KeptEdges(red: Redactor, m: Mem, n: Mem)
    requires Kept(red, m, n)
    ensures Edges(m.tasks, n.tasks)
  {
  }

  lemma NewKeepsTasks(s: Svc, op: Op, red: Redactor, size: Record -> nat)
    requires Possible(s, op) && (op.CreatePoolOp? || op.CreateAgentOp? || op.DispatchOp?)
    ensures var n := Step(s, op, red, size).mem;
            forall id :: id in s.mem.tasks ==> id in n.tasks && n.tasks[id] == s.mem.tasks[id]
  {
  }

  /** A task as it is dispatched. */
  predicate Fresh(t: Task, id: string, agent: Agent, req: TaskRequest) {
    && t.id == id && t.agentId == agent.id && t.prompt == Trim(req.prompt) && t.timeoutSeconds == req.timeoutSeconds
    && t.state.Assigned? && t.attempt == 1 && t.currentSession == agent.currentSession
    && t.transcript == [] && t.outputArtifacts == [] && |t.inputArtifacts| == |req.inputs|
  }

  lemma DispatchedTo(s: Svc, red: Redactor, requestedBy: string, req: TaskRequest, id: string, ids: seq<string>,
                     now: Time)
    requires |ids| == |req.inputs| && ResolveAgent(s.mem, req.target).Ok?
    requires var a := ResolveAgent(s.mem, req.target).value;
             a.currentTaskId == "" || (a.availability.Busy? && Trim(a.currentTaskId) != "")
    ensures var (s', r) := DispatchTask(s, red, requestedBy, req, id, ids, now);
            var a := ResolveAgent(s.mem, req.target).value;
            if a.currentTaskId != "" then r.Err? && s' == s
            else
              && r.Ok? && Fresh(r.value, id, a, req)
              && s'.mem == s.mem.(agents := s.mem.agents[a.id := Occupy(a, id, now)],
                                  tasks := s.mem.tasks[id := r.value])
  {
    assert Trim("") == "";
  }

  /** A dispatch succeeds exactly when its target names one agent that has no task; it takes that agent and no other. */
  lemma DispatchTakesIdleAgent(s: Svc, red: Redactor, requestedBy: string, req: TaskRequest, id: string,
                               ids: seq<string>, now: Time)
    requires Inv(s.mem) && IdOk(id) && id !in s.mem.tasks && |ids| == |req.inputs|
    ensures var (s', r) := DispatchTask(s, red, requestedBy, req, id, ids, now);
            var found := ResolveAgent(s.mem, req.target);
            && (r.Ok? <==> found.Ok? && found.value.currentTaskId == "")
            && (r.Err? ==> s' == s)
            && (r.Ok? ==> Fresh(r.value, id, found.value, req) && s'.mem.tasks == s.mem.tasks[id := r.value])
            && (r.Ok? ==> s'.mem.agents.Keys == s.mem.agents.Keys && found.value.id in s'.mem.agents)
            && (r.Ok? ==> s'.mem.agents[found.value.id].currentTaskId == id)
            && (r.Ok? ==> forall a :: a in s.mem.agents && a != found.value.id ==> s'.mem.agents[a] == s.mem.agents[a])
  {
    if ResolveAgent(s.mem, req.target).Ok? {
      ResolvedIsRegistered(s.mem, req.target);
      assert Trim("") == "";
      DispatchedTo(s, red, requestedBy, req, id, ids, now);
    }
  }

  // What the stamps of a task tell.

  /** The stamps and the result that a state has, and no others; no task ever is Failed. */
  predicate StampsFit(t: Task) {
    && t.createdAt.Some? && t.assignedAt.Some?
    && match t.state
       case Assigned => t.startedAt.None? && t.completedAt.None? && t.cancelledAt.None? && t.result.None?
       case Running => t.startedAt.Some? && t.completedAt.None? && t.cancelledAt.None? && t.result.None?
       case Completed => t.completedAt.Some? && t.cancelledAt.None? && t.result.Some?
       case TimedOut => t.completedAt.Some? && t.cancelledAt.None? && t.result.Some?
       case Cancelled => t.completedAt.None? && t.cancelledAt.Some? && t.result.None?
       case Failed => false
  }

  predicate NotAfter(a: Option<Time>, b: Option<Time>) { a.Some? && b.Some? ==> a.value <= b.value }

  /** Created, assigned, started, ended: in that order, and none of it in the future. */
  predicate StampsInOrder(t: Task, now: Time) {
    && NotAfter(t.createdAt, t.assignedAt)
    && NotAfter(t.assignedAt, t.startedAt)
    && NotAfter(t.assignedAt, t.completedAt) && NotAfter(t.assignedAt, t.cancelledAt)
    && NotAfter(t.startedAt, t.completedAt) && NotAfter(t.startedAt, t.cancelledAt)
    && NotAfter(t.assignedAt, Some(now)) && NotAfter(t.startedAt, Some(now))
    && NotAfter(t.completedAt, Some(now)) && NotAfter(t.cancelledAt, Some(now))
  }

  /** The stamps fit, and are in order if the clock is. */
  predicate Legal(t: Task, now: Time, ordered: bool) { StampsFit(t) && (ordered ==> StampsInOrder(t, now)) }

  ghost predicate AllLegal(tasks: map<string, Task>, now: Time, ordered: bool) {
    forall id :: id in tasks ==> Legal(tasks[id], now, ordered)
  }

  lemma LaterLegal(tasks: map<string, Task>, before: Time, now: Time, ordered: bool)
    requires AllLegal(tasks, before, ordered) && (ordered ==> before <= now)
    ensures AllLegal(tasks, now, ordered)
  {
  }

  lemma PutLegal(tasks: map<string, Task>, t: Task, now: Time, ordered: bool)
    requires AllLegal(tasks, now, ordered) && Legal(t, now, ordered)
    ensures AllLegal(tasks[t.id := t], now, ordered)
  {
  }

  /** The transitions out of an active state, and back from an ended one. */
  lemma StampedLegal(t: Task, next: TaskState, now: Time, ordered: bool)
    requires Legal(t, now, ordered) && ((t.state.Assigned? && next.Running?) || (t.state.Active() && next.Cancelled?))
    ensures Legal(Stamped(t, next, now), now, ordered)
  {
  }

  lemma TransitionLegal(s: Svc, red: Redactor, taskId: string, allowed: set<TaskState>, next: TaskState, now: Time,
                        ordered: bool)
    requires Filed(s.mem) && AllLegal(s.mem.tasks, now, ordered)
    requires (allowed == {Assigned} && next.Running?) || (allowed == {Assigned, Running} && next.Cancelled?)
    ensures AllLegal(Transition(s, red, taskId, allowed, next, now).0.mem.tasks, now, ordered)
  {
    var id := Trim(taskId);
    if id in s.mem.tasks && s.mem.tasks[id].state in allowed {
      StampedLegal(s.mem.tasks[id], next, now, ordered);
      PutLegal(s.mem.tasks, Stamped(s.mem.tasks[id], next, now), now, ordered);
    }
  }

  lemma StartLegal(s: Svc, red: Redactor, taskId: string, now: Time, ordered: bool)
    requires Filed(s.mem) && AllLegal(s.mem.tasks, now, ordered)
    ensures AllLegal(StartTask(s, red, taskId, now).0.mem.tasks, now, ordered)
  {
    TransitionLegal(s, red, taskId, {Assigned}, Running, now, ordered);
  }

  lemma CancelLegal(s: Svc, red: Redactor, taskId: string, now: Time, ordered: bool)
    requires Filed(s.mem) && AllLegal(s.mem.tasks, now, ordered)
    ensures AllLegal(CancelTask(s, red, taskId, now).0.mem.tasks, now, ordered)
  {
    TransitionLegal(s, red, taskId, {Assigned, Running}, Cancelled, now, ordered);
  }

  lemma CompletedIsLegal(s: Svc, red: Redactor, taskId: string, summary: string, outcome: string, now: Time,
                         ordered: bool)
    requires Filed(s.mem) && AllLegal(s.mem.tasks, now, ordered)
    requires CompleteTask(s, red, taskId, summary, outcome, now).1.Ok?
    ensures var (s', r) := CompleteTask(s, red, taskId, summary, outcome, now);
            Legal(r.value, now, ordered) && s'.mem.tasks == s.mem.tasks[r.value.id := r.value]
  {
  }

  lemma CompleteLegal(s: Svc, red: Redactor, taskId: string, summary: string, outcome: string, now: Time, ordered: bool)
    requires Filed(s.mem) && AllLegal(s.mem.tasks, now, ordered)
    ensures AllLegal(CompleteTask(s, red, taskId, summary, outcome, now).0.mem.tasks, now, ordered)
  {
    var r := CompleteTask(s, red, taskId, summary, outcome, now).1;
    if r.Ok? {
      CompletedIsLegal(s, red, taskId, summary, outcome, now, ordered);
      PutLegal(s.mem.tasks, r.value, now, ordered);
    }
  }

  lemma RetryLegal(s: Svc, red: Redactor, taskId: string, now: Time, ordered: bool)
    requires Filed(s.mem) && AllLegal(s.mem.tasks, now, ordered)
    ensures AllLegal(RetryTask(s, red, taskId, now).0.mem.tasks, now, ordered)
  {
    var r := RetryTask(s, red, taskId, now).1;
    if r.Ok? {
      assert Legal(s.mem.tasks[Trim(taskId)], now, ordered);
      PutLegal(s.mem.tasks, r.value, now, ordered);
    }
  }

  lemma AppendLegal(s: Svc, red: Redactor, taskId: string, e: EntryRequest, now: Time, ordered: bool)
    requires Filed(s.mem) && AllLegal(s.mem.tasks, now, ordered)
    ensures AllLegal(AppendTranscript(s, red, taskId, e, now).0.mem.tasks, now, ordered)
  {
    var r := AppendTranscript(s, red, taskId, e, now).1;
    if r.Ok? {
      assert Legal(s.mem.tasks[Trim(taskId)], now, ordered);
      PutLegal(s.mem.tasks, r.value, now, ordered);
    }
  }

  lemma ArtifactLegal(s: Svc, red: Redactor, taskId: string, req: ArtifactRequest, artifactId: string, now: Time,
                      ordered: bool)
    requires Filed(s.mem) && AllLegal(s.mem.tasks, now, ordered)
    ensures AllLegal(AddOutputArtifact(s, red, taskId, req, artifactId, now).0.mem.tasks, now, ordered)
  {
    var r := AddOutputArtifact(s, red, taskId, req, artifactId, now).1;
    if r.Ok? {
      assert Legal(s.mem.tasks[Trim(taskId)], now, ordered);
      PutLegal(s.mem.tasks, r.value, now, ordered);
    }
  }

  lemma DispatchLegal(s: Svc, red: Redactor, requestedBy: string, req: TaskRequest, id: string, ids: seq<string>,
                      now: Time, ordered: bool)
    requires AllLegal(s.mem.tasks, now, ordered) && |ids| == |req.inputs|
    ensures AllLegal(DispatchTask(s, red, requestedBy, req, id, ids, now).0.mem.tasks, now, ordered)
  {
    var r := DispatchTask(s, red, requestedBy, req, id, ids, now).1;
    if r.Ok? {
      PutLegal(s.mem.tasks, r.value, now, ordered);
    }
  }

  lemma ExpireOneLegal(m: Mem, taskId: string, now: Time, ordered: bool)
    requires AllLegal(m.tasks, now, ordered)
    ensures AllLegal(ExpireTaskLocked(m, taskId, now).0.tasks, now, ordered)
  {
    var id := Trim(taskId);
    if id in m.tasks && Expires(m.tasks[id], now) {
      assert Legal(m.tasks[id], now, ordered);
      PutLegal(m.tasks, TimeOut(m.tasks[id], now), now, ordered);
    }
  }

  lemma {:induction false} ExpireAllLegal(m: Mem, order: seq<string>, now: Time, ordered: bool)
    requires AllLegal(m.tasks, now, ordered)
    ensures AllLegal(ExpireTasksLocked(m, order, now).0.tasks, now, ordered)
  {
    if order != [] {
      ExpireAllLegal(m, order[..|order| - 1], now, ordered);
      ExpireOneLegal(ExpireTasksLocked(m, order[..|order| - 1], now).0, order[|order| - 1], now, ordered);
    }
  }

  lemma CallLegal(s: Svc, op: Op, red: Redactor, size: Record -> nat, ordered: bool)
    requires Filed(s.mem) && Possible(s, op) && !op.RestartOp? && AllLegal(s.mem.tasks, op.now, ordered)
    ensures AllLegal(Step(s, op, red, size).mem.tasks, op.now, ordered)
  {
    if op.StartOp? || op.CancelOp? || op.CompleteOp? || op.RetryOp? {
      StateCallLegal(s, op, red, size, ordered);
    } else if op.AppendOp? || op.ArtifactOp? || op.DispatchOp? {
      ContentCallLegal(s, op, red, size, ordered);
    } else {
      OtherCallLegal(s, op, red, size, ordered);
    }
  }

  lemma StateCallLegal(s: Svc, op: Op, red: Redactor, size: Record -> nat, ordered: bool)
    requires Filed(s.mem) && (op.StartOp? || op.CancelOp? || op.CompleteOp? || op.RetryOp?)
    requires AllLegal(s.mem.tasks, op.now, ordered)
    ensures AllLegal(Step(s, op, red, size).mem.tasks, op.now, ordered)
  {
    match op
    case StartOp(taskId, now) => StartLegal(s, red, taskId, now, ordered);
    case CancelOp(taskId, now) => CancelLegal(s, red, taskId, now, ordered);
    case CompleteOp(taskId, summary, outcome, now) => CompleteLegal(s, red, taskId, summary, outcome, now, ordered);
    case RetryOp(taskId, now) => RetryLegal(s, red, taskId, now, ordered);
  }

  lemma ContentCallLegal(s: Svc, op: Op, red: Redactor, size: Record -> nat, ordered: bool)
    requires Filed(s.mem) && Possible(s, op) && (op.AppendOp? || op.ArtifactOp? || op.DispatchOp?)
    requires AllLegal(s.mem.tasks, op.now, ordered)
    ensures AllLegal(Step(s, op, red, size).mem.tasks, op.now, ordered)
  {
    match op
    case DispatchOp(requester, req, id, ids, now) => DispatchLegal(s, red, requester, req, id, ids, now, ordered);
    case AppendOp(taskId, entry, now) => AppendLegal(s, red, taskId, entry, now, ordered);
    case ArtifactOp(taskId, req, artifactId, now) => ArtifactLegal(s, red, taskId, req, artifactId, now, ordered);
  }

  lemma OtherCallLegal(s: Svc, op: Op, red: Redactor, size: Record -> nat, ordered: bool)
    requires Possible(s, op) && (op.CreatePoolOp? || op.CreateAgentOp? || op.ExpireAllOp? || op.ExpireOneOp?)
    requires AllLegal(s.mem.tasks, op.now, ordered)
    ensures AllLegal(Step(s, op, red, size).mem.tasks, op.now, ordered)
  {
    match op
    case CreatePoolOp(_, _, _, _) => CreateKeepsTasks(s, op, red, size);
    case CreateAgentOp(_, _, _, _) => CreateKeepsTasks(s, op, red, size);
    case ExpireAllOp(order, now) => ExpireAllLegal(s.mem, order, now, ordered);
    case ExpireOneOp(taskId, now) => ExpireOneLegal(s.mem, taskId, now, ordered);
  }

  /** What the clock showed: each call reads it once. */
  ghost predicate Clocked(ops: seq<Op>, times: seq<Time>) {
    |times| == |ops| + 1 && forall k :: 0 <= k < |ops| && !ops[k].RestartOp? ==> ops[k].now == times[k + 1]
  }

  ghost predicate NeverBack(times: seq<Time>) { forall k :: 0 < k < |times| ==> times[k - 1] <= times[k] }

  lemma KeptLegal(red: Redactor, m: Mem, n: Mem, now: Time, ordered: bool)
    requires AllLegal(m.tasks, now, ordered) && Kept(red, m, n)
    ensures AllLegal(n.tasks, now, ordered)
  {
    forall id | id in n.tasks ensures Legal(n.tasks[id], now, ordered) {
      assert Legal(m.tasks[id], now, ordered);
    }
  }

  lemma RestartLegal(ss: seq<Svc>, ops: seq<Op>, red: Redactor, size: Record -> nat, k: nat, now: Time, ordered: bool)
    requires Run(ss, ops, red, size) && k < |ops| && ops[k].RestartOp?
    requires AllLegal(ss[k].mem.tasks, now, ordered)
    ensures AllLegal(ss[k + 1].mem.tasks, now, ordered)
  {
    assert ss[k + 1] == Step(ss[k], ops[k], red, size);
    ReplayRefinesMemory(ss, ops, red, size, k);
    if Readable(ss[k].log, size) {
      KeptLegal(red, ss[k].mem, ss[k + 1].mem, now, ordered);
    }
  }

  /**
   The stamps tell the state: in every state of every run, restarts included, a task has exactly the stamps and the
   result that belong to its state, and no task is Failed; and if the clock never goes back, the stamps are in the order
   of the task's life.
   */
  lemma {:induction false} TasksStayLegal(ss: seq<Svc>, ops: seq<Op>, times: seq<Time>, red: Redactor,
                                          size: Record -> nat, n: nat)
    requires Run(ss, ops, red, size) && Clocked(ops, times) && n <= |ops|
    ensures AllLegal(ss[n].mem.tasks, times[n], NeverBack(times))
    decreases n
  {
    if n > 0 {
      var ordered := NeverBack(times);
      TasksStayLegal(ss, ops, times, red, size, n - 1);
      LaterLegal(ss[n - 1].mem.tasks, times[n - 1], times[n], ordered);
      if ops[n - 1].RestartOp? {
        RestartLegal(ss, ops, red, size, n - 1, times[n], ordered);
      } else {
        ReplayRefinesMemory(ss, ops, red, size, n - 1);
        InvFiled(ss[n - 1].mem);
        assert ss[n - 1 + 1] == Step(ss[n - 1], ops[n - 1], red, size);
        CallLegal(ss[n - 1], ops[n - 1], red, size, ordered);
      }
    }
  }
}
