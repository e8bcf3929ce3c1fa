/** What each call writes into its task and its agent, and which requests are refused. */
module OrchestrationCalls {
  import opened Text
  import opened Orchestration
  import opened OrchestrationLaws
  import opened OrchestrationRuns
  import opened OrchestrationDiagram

  // Which requests are refused.

  predicate InputOk(a: ArtifactRequest) { Trim(a.name) != "" && a.kind != "" }

  /** The first input at fault is the i-th, and this is what it lacks. */
  ghost predicate FirstFault(inputs: seq<ArtifactRequest>, i: nat, e: Error) {
    && i < |inputs| && (forall j :: 0 <= j < i ==> InputOk(inputs[j])) && !InputOk(inputs[i])
    && e == (if Trim(inputs[i].name) == "" then ArtifactNameRequired else ArtifactKindRequired)
  }

  lemma {:induction false} InputsExactly(inputs: seq<ArtifactRequest>)
    ensures ValidateInputs(inputs).None? <==> forall i :: 0 <= i < |inputs| ==> InputOk(inputs[i])
    ensures ValidateInputs(inputs).Some? ==> exists i: nat :: FirstFault(inputs, i, ValidateInputs(inputs).value)
  {
    if inputs != [] {
      if InputOk(inputs[0]) {
        InputsExactly(inputs[1..]);
        assert forall i :: 0 < i < |inputs| ==> inputs[i] == inputs[1..][i - 1];
        if ValidateInputs(inputs).Some? {
          var i: nat :| FirstFault(inputs[1..], i, ValidateInputs(inputs).value);
          assert FirstFault(inputs, i + 1, ValidateInputs(inputs).value);
        }
      } else {
        assert FirstFault(inputs, 0, ValidateInputs(inputs).value);
      }
    }
  }

  /** A task is asked for with a prompt, a target, no negative timeout, and inputs that have a name and a kind. */
  lemma ValidTaskExactly(req: TaskRequest)
    ensures ValidateTask(req).None?
            <==> && Trim(req.prompt) != "" && (Trim(req.target.agentId) != "" || Trim(req.target.agentName) != "")
                 && req.timeoutSeconds >= 0 && forall i :: 0 <= i < |req.inputs| ==> InputOk(req.inputs[i])
    ensures ValidateTask(req) == Some(PromptRequired) <==> Trim(req.prompt) == ""
  {
    InputsExactly(req.inputs);
  }

  /** A pool is created exactly under a name that is not blank and that no pool has, up to case and blanks. */
  lemma CreatePoolExactly(s: Svc, red: Redactor, name: string, workspace: string, id: string, now: Time)
    ensures var (s', r) := CreatePool(s, red, name, workspace, id, now);
            && (r.Ok? <==> Normal(name) != ""
                           && forall x :: x in s.mem.pools ==> Normal(s.mem.pools[x].name) != Normal(name))
            && (r.Err? ==> s' == s && r.error == if Normal(name) == "" then NameRequired else PoolNameTaken)
            && (r.Ok? ==> r.value == Pool(id, Trim(name), Trim(workspace), now))
            && (r.Ok? ==> s'.mem == s.mem.(pools := s.mem.pools[id := r.value]))
  {
    assert forall x :: x in s.mem.pools && Normal(s.mem.pools[x].name) == Normal(name) ==> x in PoolsNamed(s.mem, name);
  }

  /** The pool a request names: by id, else by name, up to case and blanks, else none. */
  ghost predicate NamesPool(m: Mem, poolId: string, poolName: string, p: Option<Pool>) {
    if Trim(poolId) != "" then p.Some? && Trim(poolId) in m.pools && p.value == m.pools[Trim(poolId)]
    else if Normal(poolName) == "" then p.None?
    else p.Some? && exists x :: x in m.pools && m.pools[x] == p.value && Normal(p.value.name) == Normal(poolName)
  }

  lemma ResolvePoolExactly(m: Mem, poolId: string, poolName: string)
    requires PoolsOk(m.pools)
    ensures forall p :: ResolvePool(m, poolId, poolName) == Ok(p) <==> NamesPool(m, poolId, poolName, p)
  {
    var named := PoolsNamed(m, poolName);
    assert forall x :: x in m.pools && Normal(m.pools[x].name) == Normal(poolName) ==> x in named;
  }

  /** An agent as it is created. */
  predicate Created(a: Agent, req: AgentRequest, pool: Option<Pool>, binding: Option<Binding>, id: string, now: Time) {
    && a.id == id && a.name == Trim(req.name) && a.workspaceSessionId == Trim(req.workspaceSessionId)
    && a.poolId == (if pool.Some? then pool.value.id else "")
    && a.poolName == (if pool.Some? then pool.value.name else "")
    && a.availability.Idle? && a.currentTaskId == "" && a.currentSession == binding
    && a.lastActivityAt == (if binding.Some? then Some(now) else None) && a.createdAt == a.updatedAt == now
  }

  /** The name is free in the pool. */
  ghost predicate NameFree(m: Mem, name: string, pool: Option<Pool>) {
    var poolId := if pool.Some? then pool.value.id else "";
    forall x :: x in m.agents && m.agents[x].poolId == poolId ==> Normal(m.agents[x].name) != Normal(name)
  }

  lemma NameFreeExactly(m: Mem, name: string, pool: Option<Pool>)
    ensures NameFree(m, name, pool) <==> !HasAgentName(m, name, if pool.Some? then pool.value.id else "")
  {
    var poolId := if pool.Some? then pool.value.id else "";
    if !NameFree(m, name, pool) {
      var x :| x in m.agents && m.agents[x].poolId == poolId && Normal(m.agents[x].name) == Normal(name);
      assert x in AgentsNamed(m, name, poolId);
    }
  }

  /** An agent is created exactly where its name is not blank, its pool is known, and its name is free in that pool. */
  lemma CreateAgentExactly(s: Svc, red: Redactor, req: AgentRequest, binding: Result<Option<Binding>>, id: string,
                           now: Time)
    requires PoolsOk(s.mem.pools)
    ensures var (s', r) := CreateAgent(s, red, req, binding, id, now);
            && (r.Ok? <==> Normal(req.name) != "" && binding.Ok?
                           && exists p :: NamesPool(s.mem, req.poolId, req.poolName, p) && NameFree(s.mem, req.name, p))
            && (r.Err? ==> s' == s)
            && (r.Ok? ==> exists p :: NamesPool(s.mem, req.poolId, req.poolName, p)
                                      && Created(r.value, req, p, binding.value, id, now))
            && (r.Ok? ==> s'.mem == s.mem.(agents := s.mem.agents[id := r.value]))
  {
    ResolvePoolExactly(s.mem, req.poolId, req.poolName);
    var pool := ResolvePool(s.mem, req.poolId, req.poolName);
    if pool.Ok? {
      NameFreeExactly(s.mem, req.name, pool.value);
      CreatedShape(s, red, req, binding, id, now, pool.value);
    }
  }

  lemma CreatedShape(s: Svc, red: Redactor, req: AgentRequest, binding: Result<Option<Binding>>, id: string, now: Time,
                     pool: Option<Pool>)
    requires ResolvePool(s.mem, req.poolId, req.poolName) == Ok(pool)
    ensures var (s', r) := CreateAgent(s, red, req, binding, id, now);
            var poolId := if pool.Some? then pool.value.id else "";
            && (r.Ok? <==> Normal(req.name) != "" && binding.Ok? && !HasAgentName(s.mem, req.name, poolId))
            && (r.Ok? ==> Created(r.value, req, pool, binding.value, id, now))
  {
  }

  /** A call on one task is refused because there is no such task, or because of its state. */
  predicate RefusedFor(m: Mem, taskId: string, r: Result<Task>) {
    r.Err? ==> r.error == if Trim(taskId) in m.tasks then TaskConflict else TaskNotFound
  }

  lemma TransitionsRefuse(s: Svc, red: Redactor, taskId: string, summary: string, outcome: string, now: Time)
    ensures RefusedFor(s.mem, taskId, StartTask(s, red, taskId, now).1)
    ensures RefusedFor(s.mem, taskId, CancelTask(s, red, taskId, now).1)
    ensures RefusedFor(s.mem, taskId, CompleteTask(s, red, taskId, summary, outcome, now).1)
  {
  }

  lemma AdditionsRefuse(s: Svc, red: Redactor, taskId: string, e: EntryRequest, req: ArtifactRequest,
                        artifactId: string, now: Time)
    ensures RefusedFor(s.mem, taskId, AppendTranscript(s, red, taskId, e, now).1)
    ensures RefusedFor(s.mem, taskId, AddOutputArtifact(s, red, taskId, req, artifactId, now).1)
  {
  }

  /** A retry is refused for the task's state first, then for its agent. */
  lemma RetryRefuses(s: Svc, red: Redactor, taskId: string, now: Time)
    ensures var r := RetryTask(s, red, taskId, now).1;
            r.Err? ==>
              r.error == if Trim(taskId) !in s.mem.tasks then TaskNotFound
                         else
                           var t := s.mem.tasks[Trim(taskId)];
                           if !t.state.Failed? && !t.state.TimedOut? && !t.state.Cancelled? then TaskConflict
                           else if t.agentId !in s.mem.agents then AgentUnregistered
                           else AgentBusy
  {
  }

  // Which agent a target names.

  /** The agent has the name, is in the pool and in the workspace that the target gives. */
  ghost predicate Suits(m: Mem, a: Agent, target: Target) {
    && Normal(a.name) == Normal(target.agentName)
    && (Normal(target.poolName) != "" ==>
          a.poolId in m.pools && Normal(m.pools[a.poolId].name) == Normal(target.poolName))
    && (Trim(target.workspaceSessionId) != "" ==> a.workspaceSessionId == Trim(target.workspaceSessionId))
  }

  lemma SuitsExactly(m: Mem, id: string, target: Target)
    requires Inv(m) && id in m.agents
    ensures id in MatchingIds(m, target) <==> Suits(m, m.agents[id], target)
  {
    assert PoolKnown(m.pools, m.agents[id]) && Normal("") == "";
  }

  /** The only agent that suits the target. */
  ghost predicate OnlySuits(m: Mem, target: Target, a: Agent) {
    && a.id in m.agents && m.agents[a.id] == a && Suits(m, a, target)
    && (forall x :: x in m.agents && Suits(m, m.agents[x], target) ==> x == a.id)
  }

  lemma SingleMatch(ids: set<string>, i: string)
    requires i in ids && forall j :: j in ids ==> j == i
    ensures |ids| == 1
  {
    assert ids == {i};
  }

  lemma OneOfOne(ids: set<string>, i: string, j: string)
    requires |ids| <= 1 && i in ids && j in ids
    ensures i == j
  {
    if i != j {
      assert {i, j} <= ids && |{i, j}| == 2;
      SubsetSize({i, j}, ids);
    }
  }

  lemma {:induction false} SubsetSize(a: set<string>, b: set<string>)
    requires a <= b
    ensures |a| <= |b|
    decreases a
  {
    if a != {} {
      var x :| x in a;
      SubsetSize(a - {x}, b - {x});
    }
  }

  /**
   A target that gives an agent's id names that agent. Any other names an agent exactly if that is the only one that
   suits it, and is refused as unknown exactly if none does.
   */
  lemma ResolveExactly(m: Mem, target: Target, a: Agent)
    requires Inv(m)
    ensures ResolveAgent(m, target) == Ok(a)
            <==> var id := Trim(target.agentId);
                 if id != "" then id in m.agents && m.agents[id] == a else OnlySuits(m, target, a)
    ensures Trim(target.agentId) == "" ==>
              (ResolveAgent(m, target) == Err(AgentNotFound)
               <==> forall x :: x in m.agents ==> !Suits(m, m.agents[x], target))
  {
    var ids := MatchingIds(m, target);
    forall x | x in m.agents ensures m.agents[x].id == x && (x in ids <==> Suits(m, m.agents[x], target)) {
      SuitsExactly(m, x, target);
    }
    if Trim(target.agentId) == "" {
      if ResolveAgent(m, target) == Ok(a) {
        forall x | x in ids ensures x == Pick(ids) {
          OneOfOne(ids, x, Pick(ids));
        }
      }
      if OnlySuits(m, target, a) {
        SingleMatch(ids, a.id);
      }
    }
  }

  // What a call writes.

  /** The time of the last transition is that of the call, but for an entry that brings a time of its own. */
  predicate SetsStamps(op: Op, t: Task, u: Task)
    requires OnOneTask(op)
  {
    var ends := op.CompleteOp? || op.ExpireOneOp?;
    && u.createdAt == t.createdAt
    && u.assignedAt == (if op.RetryOp? then Some(op.now) else t.assignedAt)
    && u.startedAt == (if op.StartOp? then Some(op.now) else if op.RetryOp? then None else t.startedAt)
    && u.completedAt == (if ends then Some(op.now) else if op.RetryOp? then None else t.completedAt)
    && u.cancelledAt == (if op.CancelOp? then Some(op.now)
                         else if op.RetryOp? || op.ExpireOneOp? then None else t.cancelledAt)
    && u.lastTransitionAt == if op.AppendOp? && op.entry.at.Some? then op.entry.at.value else op.now
  }

  /** The result counts what the task holds, and says what the call, or the timeout, has to say. */
  predicate SetsResult(op: Op, t: Task, u: Task) {
    match op
    case CompleteOp(_, summary, outcome, _) =>
      u.result == Some(TaskResult(Trim(summary), if Trim(outcome) == "" then "completed" else Trim(outcome),
                                  |t.transcript|, |t.outputArtifacts|))
    case ExpireOneOp(_, _) =>
      u.result == Some(TaskResult("task exceeded timeout", "timed_out", |t.transcript|, |t.outputArtifacts|))
    case RetryOp(_, _) => u.result.None?
    case _ => t.result.None? ==> u.result.None?
  }

  /** An entry or artifact is added as it was sent, trimmed; everything that a task was dispatched with stays. */
  predicate SetsContent(op: Op, t: Task, u: Task) {
    && u.requestedBy == t.requestedBy && u.agentName == t.agentName && u.poolId == t.poolId && u.poolName == t.poolName
    && u.workspaceSessionId == t.workspaceSessionId && u.inputArtifacts == t.inputArtifacts
    && (!op.RetryOp? ==> u.currentSession == t.currentSession)
    && u.transcript == t.transcript
                       + (if !op.AppendOp? then []
                          else [Entry(|t.transcript| + 1, if op.entry.at.Some? then op.entry.at.value else op.now,
                                      op.entry.role, Trim(op.entry.text), Trim(op.entry.eventRef))])
    && u.outputArtifacts == t.outputArtifacts
                            + (if !op.ArtifactOp? then []
                               else [Artifact(op.artifactId, Trim(op.artifactReq.name), op.artifactReq.kind,
                                              Trim(op.artifactReq.path), Trim(op.artifactReq.uri), op.now)])
  }

  predicate Active(a: Agent, now: Time) { a.lastActivityAt == Some(now) && a.updatedAt == now }

  /** The agent is on the task after a start or a retry, and free after its end. */
  ghost predicate SetsAgent(op: Op, id: string, a: Agent, b: Agent)
    requires OnOneTask(op)
  {
    var takes, ends := op.StartOp? || op.RetryOp?, op.CancelOp? || op.CompleteOp? || op.ExpireOneOp?;
    && SameIdentity(a, b) && b.currentSession == a.currentSession && b.createdAt == a.createdAt
    && b.workspaceSessionId == a.workspaceSessionId
    && if takes then b.currentTaskId == id && b.availability.Busy? && Active(b, op.now)
       else if ends && a.currentTaskId == id then b.currentTaskId == "" && b.availability.Idle? && Active(b, op.now)
       else b == a
  }

  ghost predicate WritesTask(m: Mem, op: Op, n: Mem)
    requires OnOneTask(op)
  {
    var id := Trim(op.taskId);
    && id in m.tasks && id in n.tasks
    && SetsStamps(op, m.tasks[id], n.tasks[id]) && SetsResult(op, m.tasks[id], n.tasks[id])
    && SetsContent(op, m.tasks[id], n.tasks[id])
  }

  ghost predicate WritesAgent(m: Mem, op: Op, n: Mem)
    requires OnOneTask(op)
  {
    var id := Trim(op.taskId);
    id in m.tasks && id in n.tasks && m.tasks[id].agentId in m.agents ==>
      var a := m.tasks[id].agentId;
      && a in n.agents && SetsAgent(op, id, m.agents[a], n.agents[a])
      && (op.RetryOp? ==> n.tasks[id].currentSession == m.agents[a].currentSession)
  }

  ghost predicate Writes(m: Mem, op: Op, n: Mem)
    requires OnOneTask(op)
  {
    WritesTask(m, op, n) && WritesAgent(m, op, n)
  }

  lemma StartWrites(s: Svc, red: Redactor, taskId: string, now: Time)
    requires Filed(s.mem) && StartTask(s, red, taskId, now).1.Ok?
    ensures Writes(s.mem, StartOp(taskId, now), StartTask(s, red, taskId, now).0.mem)
  {
  }

  lemma CancelWrites(s: Svc, red: Redactor, taskId: string, now: Time)
    requires Filed(s.mem) && CancelTask(s, red, taskId, now).1.Ok?
    ensures Writes(s.mem, CancelOp(taskId, now), CancelTask(s, red, taskId, now).0.mem)
  {
  }

  lemma CompleteWritesTask(s: Svc, red: Redactor, taskId: string, summary: string, outcome: string, now: Time)
    requires Filed(s.mem) && CompleteTask(s, red, taskId, summary, outcome, now).1.Ok?
    ensures WritesTask(s.mem, CompleteOp(taskId, summary, outcome, now),
                       CompleteTask(s, red, taskId, summary, outcome, now).0.mem)
  {
  }

  lemma CompleteWrites(s: Svc, red: Redactor, taskId: string, summary: string, outcome: string, now: Time)
    requires Filed(s.mem) && CompleteTask(s, red, taskId, summary, outcome, now).1.Ok?
    ensures Writes(s.mem, CompleteOp(taskId, summary, outcome, now),
                   CompleteTask(s, red, taskId, summary, outcome, now).0.mem)
  {
    CompleteWritesTask(s, red, taskId, summary, outcome, now);
  }

  lemma RetryWrites(s: Svc, red: Redactor, taskId: string, now: Time)
    requires Filed(s.mem) && RetryTask(s, red, taskId, now).1.Ok?
    ensures Writes(s.mem, RetryOp(taskId, now), RetryTask(s, red, taskId, now).0.mem)
  {
  }

  lemma AppendWrites(s: Svc, red: Redactor, taskId: string, e: EntryRequest, now: Time)
    requires Filed(s.mem) && AppendTranscript(s, red, taskId, e, now).1.Ok?
    ensures Writes(s.mem, AppendOp(taskId, e, now), AppendTranscript(s, red, taskId, e, now).0.mem)
  {
  }

  lemma ArtifactWrites(s: Svc, red: Redactor, taskId: string, req: ArtifactRequest, artifactId: string, now: Time)
    requires Filed(s.mem) && AddOutputArtifact(s, red, taskId, req, artifactId, now).1.Ok?
    ensures Writes(s.mem, ArtifactOp(taskId, req, artifactId, now),
                   AddOutputArtifact(s, red, taskId, req, artifactId, now).0.mem)
  {
  }

  lemma ExpiryWrites(s: Svc, red: Redactor, taskId: string, now: Time)
    requires Filed(s.mem) && Trim(taskId) in s.mem.tasks && Expires(s.mem.tasks[Trim(taskId)], now)
    ensures Writes(s.mem, ExpireOneOp(taskId, now), ExpireTask(s, red, taskId, now).mem)
  {
  }

  /** What a call appends to the log, of the agent and of the task it leaves in memory, and in which order. */
  ghost predicate Logs(s: Svc, s': Svc, red: Redactor, id: string, agentFirst: bool) {
    && id in s'.mem.tasks && s'.mem.tasks[id].agentId in s'.mem.agents
    && var t, a := TaskRecord(s'.mem.tasks[id]), AgentRecord(s'.mem.agents[s'.mem.tasks[id].agentId]);
       s'.log == s.log + (if agentFirst then [SanitizeRecord(red, a), SanitizeRecord(red, t)]
                          else [SanitizeRecord(red, t), SanitizeRecord(red, a)])
  }

  /** A dispatch logs its agent before its task. */
  lemma DispatchLogs(s: Svc, red: Redactor, requestedBy: string, req: TaskRequest, id: string, ids: seq<string>,
                     now: Time)
    requires Filed(s.mem) && |ids| == |req.inputs| && DispatchTask(s, red, requestedBy, req, id, ids, now).1.Ok?
    ensures Logs(s, DispatchTask(s, red, requestedBy, req, id, ids, now).0, red, id, true)
  {
    var found := ResolvedFrom(s.mem, req.target);
    var s' := DispatchTask(s, red, requestedBy, req, id, ids, now).0;
    assert s'.log == s.log + [SanitizeRecord(red, AgentRecord(Occupy(s.mem.agents[found], id, now))),
                              SanitizeRecord(red, TaskRecord(s'.mem.tasks[id]))];
  }

  /** A start and a retry log their task before its agent. */
  lemma StartLogs(s: Svc, red: Redactor, taskId: string, now: Time)
    requires Inv(s.mem) && StartTask(s, red, taskId, now).1.Ok?
    ensures Logs(s, StartTask(s, red, taskId, now).0, red, Trim(taskId), false)
  {
    InvFiled(s.mem);
    ActivePair(s.mem, Trim(taskId));
  }

  lemma RetryLogs(s: Svc, red: Redactor, taskId: string, now: Time)
    requires Filed(s.mem) && RetryTask(s, red, taskId, now).1.Ok?
    ensures Logs(s, RetryTask(s, red, taskId, now).0, red, Trim(taskId), false)
  {
  }

  lemma StateCallWrites(s: Svc, op: Op, red: Redactor, size: Record -> nat)
    requires Inv(s.mem) && (op.StartOp? || op.CancelOp? || op.CompleteOp? || op.RetryOp?)
    requires Trim(op.taskId) in s.mem.tasks && Applies(s.mem, op, s.mem.tasks[Trim(op.taskId)])
    ensures Writes(s.mem, op, Step(s, op, red, size).mem)
  {
    InvFiled(s.mem);
    match op
    case StartOp(taskId, now) =>
      StartTurns(s, red, taskId, now);
      StartWrites(s, red, taskId, now);
    case CancelOp(taskId, now) =>
      CancelTurns(s, red, taskId, now);
      CancelWrites(s, red, taskId, now);
    case CompleteOp(taskId, summary, outcome, now) =>
      CompleteTurns(s, red, taskId, summary, outcome, now);
      CompleteWrites(s, red, taskId, summary, outcome, now);
    case RetryOp(taskId, now) =>
      RetryTurns(s, red, taskId, now);
      RetryWrites(s, red, taskId, now);
  }

  lemma ContentCallWrites(s: Svc, op: Op, red: Redactor, size: Record -> nat)
    requires Filed(s.mem) && (op.AppendOp? || op.ArtifactOp? || op.ExpireOneOp?)
    requires Trim(op.taskId) in s.mem.tasks && Applies(s.mem, op, s.mem.tasks[Trim(op.taskId)])
    ensures Writes(s.mem, op, Step(s, op, red, size).mem)
  {
    match op
    case AppendOp(taskId, entry, now) =>
      AppendTurns(s, red, taskId, entry, now);
      AppendWrites(s, red, taskId, entry, now);
    case ArtifactOp(taskId, req, artifactId, now) =>
      ArtifactTurns(s, red, taskId, req, artifactId, now);
      ArtifactWrites(s, red, taskId, req, artifactId, now);
    case ExpireOneOp(taskId, now) => ExpiryWrites(s, red, taskId, now);
  }

  /**
   In every state of every run, a call on one task that applies there stamps the task with its own time, says in the
   result what it has to say, adds what was sent, and puts the agent on the task or sets it free.
   */
  lemma RunWrites(ss: seq<Svc>, ops: seq<Op>, red: Redactor, size: Record -> nat, k: nat)
    requires Run(ss, ops, red, size) && k < |ops| && OnOneTask(ops[k]) && Trim(ops[k].taskId) in ss[k].mem.tasks
    requires Applies(ss[k].mem, ops[k], ss[k].mem.tasks[Trim(ops[k].taskId)])
    ensures Writes(ss[k].mem, ops[k], ss[k + 1].mem)
  {
    ReplayRefinesMemory(ss, ops, red, size, k);
    InvFiled(ss[k].mem);
    assert ss[k + 1] == Step(ss[k], ops[k], red, size);
    if ops[k].AppendOp? || ops[k].ArtifactOp? || ops[k].ExpireOneOp? {
      ContentCallWrites(ss[k], ops[k], red, size);
    } else {
      StateCallWrites(ss[k], ops[k], red, size);
    }
  }

  /** The task that a dispatch makes, as its agent and the request say. */
  predicate Dispatched(t: Task, a: Agent, requestedBy: string, req: TaskRequest, ids: seq<string>, now: Time)
    requires |ids| == |req.inputs|
  {
    && t.requestedBy == Trim(requestedBy) && t.prompt == Trim(req.prompt) && t.timeoutSeconds == req.timeoutSeconds
    && t.agentId == a.id && t.agentName == a.name && t.poolId == a.poolId && t.poolName == a.poolName
    && t.workspaceSessionId == a.workspaceSessionId && t.currentSession == a.currentSession
    && t.createdAt == t.assignedAt == Some(now) && t.lastTransitionAt == now
    && t.startedAt == t.completedAt == t.cancelledAt == None && t.result.None?
    && |t.inputArtifacts| == |req.inputs|
    && forall i :: 0 <= i < |ids| ==>
         var r := req.inputs[i];
         t.inputArtifacts[i] == Artifact(ids[i], Trim(r.name), r.kind, Trim(r.path), Trim(r.uri), now)
  }

  /** Whom a dispatch takes, and with what: an agent that suits the target, in the workspace it asks for. */
  lemma DispatchWrites(s: Svc, red: Redactor, requestedBy: string, req: TaskRequest, id: string, ids: seq<string>,
                       now: Time)
    requires Inv(s.mem) && IdOk(id) && id !in s.mem.tasks && |ids| == |req.inputs|
    ensures var r := DispatchTask(s, red, requestedBy, req, id, ids, now).1;
            r.Ok? ==>
              && (exists a :: ResolveAgent(s.mem, req.target) == Ok(a)
                              && Dispatched(r.value, a, requestedBy, req, ids, now))
              && (var workspace := Trim(req.target.workspaceSessionId);
                  Trim(req.target.agentId) == "" && workspace != "" ==> r.value.workspaceSessionId == workspace)
  {
    var r := DispatchTask(s, red, requestedBy, req, id, ids, now).1;
    if r.Ok? {
      var a := ResolveAgent(s.mem, req.target).value;
      ResolveExactly(s.mem, req.target, a);
      assert Dispatched(r.value, a, requestedBy, req, ids, now);
    }
  }
}
