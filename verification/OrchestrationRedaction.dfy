/** No text gets into the log of the orchestrator that has not been redacted. */
module OrchestrationRedaction {
  import opened Text
  import opened Orchestration
  import opened OrchestrationLaws
  import opened OrchestrationRuns

  ghost predicate Redacted(f: string -> string, y: string) { exists x {:trigger f(x)} :: f(x) == y }

  ghost predicate CleanArtifact(red: Redactor, a: Artifact) {
    Redacted(red.text, a.name) && Redacted(red.text, a.path) && Redacted(red.uri, a.uri)
  }

  ghost predicate CleanEntry(red: Redactor, e: Entry) { Redacted(red.text, e.text) && Redacted(red.text, e.eventRef) }

  predicate CleanBinding(b: Option<Binding>) {
    b.Some? ==>
      && Trim(b.value.harnessRunId) == b.value.harnessRunId && Trim(b.value.sessionId) == b.value.sessionId
      && Trim(b.value.podName) == b.value.podName
  }

  /** Every free text and every URI of the task is what its redaction made of something. */
  ghost predicate CleanTask(red: Redactor, t: Task) {
    && Redacted(red.text, t.prompt) && CleanBinding(t.currentSession)
    && (t.result.Some? ==> Redacted(red.text, t.result.value.summary) && Redacted(red.text, t.result.value.outcome))
    && (forall i :: 0 <= i < |t.transcript| ==> CleanEntry(red, t.transcript[i]))
    && (forall i :: 0 <= i < |t.inputArtifacts| ==> CleanArtifact(red, t.inputArtifacts[i]))
    && (forall i :: 0 <= i < |t.outputArtifacts| ==> CleanArtifact(red, t.outputArtifacts[i]))
  }

  ghost predicate CleanRecord(red: Redactor, r: Record) {
    match r
    case PoolRecord(_) => true
    case AgentRecord(a) => CleanBinding(a.currentSession)
    case TaskRecord(t) => CleanTask(red, t)
  }

  lemma SanitizedTaskIsClean(red: Redactor, t: Task)
    ensures CleanTask(red, SanitizeTask(red, t))
  {
    SanitizedBindingIsClean(t.currentSession);
    forall i | 0 <= i < |t.transcript| ensures CleanEntry(red, SanitizeEntry(red, t.transcript[i])) {
      SanitizedEntryIsClean(red, t.transcript[i]);
    }
    forall i | 0 <= i < |t.inputArtifacts| ensures CleanArtifact(red, SanitizeArtifact(red, t.inputArtifacts[i])) {
      SanitizedArtifactIsClean(red, t.inputArtifacts[i]);
    }
    forall i | 0 <= i < |t.outputArtifacts| ensures CleanArtifact(red, SanitizeArtifact(red, t.outputArtifacts[i])) {
      SanitizedArtifactIsClean(red, t.outputArtifacts[i]);
    }
  }

  lemma SanitizedEntryIsClean(red: Redactor, e: Entry)
    ensures CleanEntry(red, SanitizeEntry(red, e))
  {
  }

  lemma SanitizedArtifactIsClean(red: Redactor, a: Artifact)
    ensures CleanArtifact(red, SanitizeArtifact(red, a))
  {
  }

  lemma SanitizedBindingIsClean(b: Option<Binding>)
    ensures CleanBinding(SanitizeBinding(b))
  {
    if b.Some? {
      TrimTwice(b.value.harnessRunId);
      TrimTwice(b.value.sessionId);
      TrimTwice(b.value.podName);
    }
  }

  lemma SanitizedIsClean(red: Redactor, r: Record)
    ensures CleanRecord(red, SanitizeRecord(red, r))
  {
    match r
    case PoolRecord(_) =>
    case AgentRecord(a) => SanitizedBindingIsClean(a.currentSession);
    case TaskRecord(t) => SanitizedTaskIsClean(red, t);
  }

  // Every record of the log has been sanitised on its way there.

  ghost predicate IsSanitized(red: Redactor, r: Record) {
    exists q {:trigger SanitizeRecord(red, q)} :: r == SanitizeRecord(red, q)
  }

  ghost predicate AllSanitized(red: Redactor, log: seq<Record>) {
    forall i :: 0 <= i < |log| ==> IsSanitized(red, log[i])
  }

  lemma SaveSanitizes(s: Svc, red: Redactor, r: Record)
    requires AllSanitized(red, s.log)
    ensures AllSanitized(red, Save(s, red, r).log)
  {
    assert IsSanitized(red, SanitizeRecord(red, r));
  }

  lemma PersistSanitizes(log: seq<Record>, red: Redactor, b: Batch)
    requires AllSanitized(red, log)
    ensures AllSanitized(red, Persist(log, red, b))
  {
    forall i | 0 <= i < |b.agents| ensures IsSanitized(red, AgentRecords(red, b.agents)[i]) {
      assert AgentRecords(red, b.agents)[i] == SanitizeRecord(red, AgentRecord(b.agents[i]));
    }
    forall i | 0 <= i < |b.tasks| ensures IsSanitized(red, TaskRecords(red, b.tasks)[i]) {
      assert TaskRecords(red, b.tasks)[i] == SanitizeRecord(red, TaskRecord(b.tasks[i]));
    }
  }

  lemma PutTaskSanitizes(s: Svc, red: Redactor, t: Task)
    requires AllSanitized(red, s.log)
    ensures AllSanitized(red, PutTask(s, red, t).log)
  {
    SaveSanitizes(s, red, TaskRecord(t));
  }

  lemma PutAgentSanitizes(s: Svc, red: Redactor, a: Agent)
    requires AllSanitized(red, s.log)
    ensures AllSanitized(red, PutAgent(s, red, a).log)
  {
    SaveSanitizes(s, red, AgentRecord(a));
  }

  lemma ReleaseSanitizes(s: Svc, red: Redactor, task: Task, now: Time)
    requires AllSanitized(red, s.log)
    ensures AllSanitized(red, ReleaseAgent(s, red, task, now).log)
  {
    if task.agentId in s.mem.agents && s.mem.agents[task.agentId].currentTaskId == task.id {
      PutAgentSanitizes(s, red, Release(s.mem.agents[task.agentId], now));
    }
  }

  lemma TransitionSanitizes(s: Svc, red: Redactor, taskId: string, allowed: set<TaskState>, next: TaskState, now: Time)
    requires AllSanitized(red, s.log)
    ensures AllSanitized(red, Transition(s, red, taskId, allowed, next, now).0.log)
  {
    var id := Trim(taskId);
    if id in s.mem.tasks && s.mem.tasks[id].state in allowed {
      PutTaskSanitizes(s, red, Stamped(s.mem.tasks[id], next, now));
    }
  }

  lemma CreateSanitizes(s: Svc, op: Op, red: Redactor, size: Record -> nat)
    requires AllSanitized(red, s.log) && Possible(s, op) && (op.CreatePoolOp? || op.CreateAgentOp?)
    ensures AllSanitized(red, Step(s, op, red, size).log)
  {
    match op
    case CreatePoolOp(name, workspace, id, now) =>
      var r := CreatePool(s, red, name, workspace, id, now).1;
      if r.Ok? {
        SaveSanitizes(s, red, PoolRecord(r.value));
      }
    case CreateAgentOp(req, binding, id, now) =>
      var r := CreateAgent(s, red, req, binding, id, now).1;
      if r.Ok? {
        PutAgentSanitizes(s, red, r.value);
      }
  }

  lemma DispatchSanitizes(s: Svc, red: Redactor, requestedBy: string, req: TaskRequest, id: string, ids: seq<string>,
                          now: Time)
    requires AllSanitized(red, s.log) && |ids| == |req.inputs|
    ensures AllSanitized(red, DispatchTask(s, red, requestedBy, req, id, ids, now).0.log)
  {
    var r := DispatchTask(s, red, requestedBy, req, id, ids, now).1;
    if r.Ok? {
      var agent := Occupy(ResolveAgent(s.mem, req.target).value, id, now);
      PutAgentSanitizes(s, red, agent);
      PutTaskSanitizes(PutAgent(s, red, agent), red, r.value);
    }
  }

  lemma StartSanitizes(s: Svc, red: Redactor, taskId: string, now: Time)
    requires AllSanitized(red, s.log)
    ensures AllSanitized(red, StartTask(s, red, taskId, now).0.log)
  {
    TransitionSanitizes(s, red, taskId, {Assigned}, Running, now);
    var (s1, r) := Transition(s, red, taskId, {Assigned}, Running, now);
    if r.Ok? && r.value.agentId in s1.mem.agents {
      PutAgentSanitizes(s1, red, Occupy(s1.mem.agents[r.value.agentId], r.value.id, now));
    }
  }

  lemma CancelSanitizes(s: Svc, red: Redactor, taskId: string, now: Time)
    requires AllSanitized(red, s.log)
    ensures AllSanitized(red, CancelTask(s, red, taskId, now).0.log)
  {
    TransitionSanitizes(s, red, taskId, {Assigned, Running}, Cancelled, now);
    var (s1, r) := Transition(s, red, taskId, {Assigned, Running}, Cancelled, now);
    if r.Ok? {
      ReleaseSanitizes(s1, red, r.value, now);
    }
  }

  lemma CompleteSanitizes(s: Svc, red: Redactor, taskId: string, summary: string, outcome: string, now: Time)
    requires AllSanitized(red, s.log)
    ensures AllSanitized(red, CompleteTask(s, red, taskId, summary, outcome, now).0.log)
  {
    TransitionSanitizes(s, red, taskId, {Assigned, Running}, Completed, now);
    var (s1, r) := Transition(s, red, taskId, {Assigned, Running}, Completed, now);
    if r.Ok? {
      var task := CompleteTask(s, red, taskId, summary, outcome, now).1.value;
      PutTaskSanitizes(s1, red, task);
      ReleaseSanitizes(PutTask(s1, red, task), red, task, now);
    }
  }

  lemma RetrySanitizes(s: Svc, red: Redactor, taskId: string, now: Time)
    requires AllSanitized(red, s.log)
    ensures AllSanitized(red, RetryTask(s, red, taskId, now).0.log)
  {
    var r := RetryTask(s, red, taskId, now).1;
    if r.Ok? {
      PutTaskSanitizes(s, red, r.value);
      PutAgentSanitizes(PutTask(s, red, r.value), red, Occupy(s.mem.agents[r.value.agentId], r.value.id, now));
    }
  }

  lemma AppendSanitizes(s: Svc, red: Redactor, taskId: string, e: EntryRequest, now: Time)
    requires AllSanitized(red, s.log)
    ensures AllSanitized(red, AppendTranscript(s, red, taskId, e, now).0.log)
  {
    var r := AppendTranscript(s, red, taskId, e, now).1;
    if r.Ok? {
      PutTaskSanitizes(s, red, r.value);
    }
  }

  lemma ArtifactSanitizes(s: Svc, red: Redactor, taskId: string, req: ArtifactRequest, artifactId: string, now: Time)
    requires AllSanitized(red, s.log)
    ensures AllSanitized(red, AddOutputArtifact(s, red, taskId, req, artifactId, now).0.log)
  {
    var r := AddOutputArtifact(s, red, taskId, req, artifactId, now).1;
    if r.Ok? {
      PutTaskSanitizes(s, red, r.value);
    }
  }

  lemma StepSanitizes(s: Svc, op: Op, red: Redactor, size: Record -> nat)
    requires AllSanitized(red, s.log) && Possible(s, op)
    ensures AllSanitized(red, Step(s, op, red, size).log)
  {
    match op
    case CreatePoolOp(_, _, _, _) => CreateSanitizes(s, op, red, size);
    case CreateAgentOp(_, _, _, _) => CreateSanitizes(s, op, red, size);
    case ExpireAllOp(order, now) => PersistSanitizes(s.log, red, ExpireTasksLocked(s.mem, order, now).1);
    case ExpireOneOp(taskId, now) => PersistSanitizes(s.log, red, ExpireTaskLocked(s.mem, taskId, now).1);
    case DispatchOp(requester, req, id, ids, now) => DispatchSanitizes(s, red, requester, req, id, ids, now);
    case StartOp(taskId, now) => StartSanitizes(s, red, taskId, now);
    case CancelOp(taskId, now) => CancelSanitizes(s, red, taskId, now);
    case CompleteOp(taskId, summary, outcome, now) => CompleteSanitizes(s, red, taskId, summary, outcome, now);
    case RetryOp(taskId, now) => RetrySanitizes(s, red, taskId, now);
    case AppendOp(taskId, entry, now) => AppendSanitizes(s, red, taskId, entry, now);
    case ArtifactOp(taskId, req, artifactId, now) => ArtifactSanitizes(s, red, taskId, req, artifactId, now);
    case RestartOp =>
  }

  lemma {:induction false} RunSanitizes(ss: seq<Svc>, ops: seq<Op>, red: Redactor, size: Record -> nat, n: nat)
    requires Run(ss, ops, red, size) && n <= |ops|
    ensures AllSanitized(red, ss[n].log)
    decreases n
  {
    if n > 0 {
      RunSanitizes(ss, ops, red, size, n - 1);
      assert ss[n - 1 + 1] == Step(ss[n - 1], ops[n - 1], red, size);
      StepSanitizes(ss[n - 1], ops[n - 1], red, size);
    }
  }

  /** In every state of every run no record of the log holds a prompt, result, entry or artifact that is unredacted. */
  lemma LogIsRedacted(ss: seq<Svc>, ops: seq<Op>, red: Redactor, size: Record -> nat, n: nat, i: nat)
    requires Run(ss, ops, red, size) && n <= |ops| && i < |ss[n].log|
    ensures CleanRecord(red, ss[n].log[i])
  {
    RunSanitizes(ss, ops, red, size, n);
    assert IsSanitized(red, ss[n].log[i]);
    var q {:trigger SanitizeRecord(red, q)} :| ss[n].log[i] == SanitizeRecord(red, q);
    SanitizedIsClean(red, q);
  }
}
