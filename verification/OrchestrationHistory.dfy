/** The history of a task over whole runs: nothing that was recorded is rewritten. */
module OrchestrationHistory {
  import opened Text
  import opened Orchestration
  import opened OrchestrationLaws
  import opened OrchestrationRuns
  import opened OrchestrationMirror
  import opened OrchestrationExpiry

  ghost predicate Grows(m: Mem, n: Mem) {
    forall id :: id in m.tasks ==> id in n.tasks && Evolves(m.tasks[id], n.tasks[id])
  }

  lemma PutGrows(m: Mem, t: Task)
    requires t.id !in m.tasks || Evolves(m.tasks[t.id], t)
    ensures Grows(m, m.(tasks := m.tasks[t.id := t]))
  {
  }

  lemma GrowsTransitive(k: Mem, m: Mem, n: Mem)
    requires Grows(k, m) && Grows(m, n)
    ensures Grows(k, n)
  {
    forall id | id in k.tasks ensures id in n.tasks && Evolves(k.tasks[id], n.tasks[id]) {
      assert Evolves(k.tasks[id], m.tasks[id]) && Evolves(m.tasks[id], n.tasks[id]);
    }
  }

  lemma {:induction false} ExpiryGrows(m: Mem, order: seq<string>, now: Time)
    requires Inv(m)
    ensures Grows(m, ExpireTasksLocked(m, order, now).0)
  {
    if order != [] {
      var init := order[..|order| - 1];
      ExpiryGrows(m, init, now);
      ExpireTasksKeeps(m, init, now);
      var m0 := ExpireTasksLocked(m, init, now).0;
      ExpireOneGrows(m0, order[|order| - 1], now);
      GrowsTransitive(m, m0, ExpireTaskLocked(m0, order[|order| - 1], now).0);
    }
  }

  lemma ExpireOneGrows(m: Mem, taskId: string, now: Time)
    requires Inv(m)
    ensures Grows(m, ExpireTaskLocked(m, taskId, now).0)
  {
    var id := Trim(taskId);
    if id in m.tasks && Expires(m.tasks[id], now) {
      assert m.tasks[id].id == id;
      PutGrows(m, TimeOut(m.tasks[id], now));
    }
  }

  lemma CompleteGrows(s: Svc, red: Redactor, taskId: string, summary: string, outcome: string, now: Time)
    requires Inv(s.mem)
    ensures Grows(s.mem, CompleteTask(s, red, taskId, summary, outcome, now).0.mem)
  {
    var id := Trim(taskId);
    if id in s.mem.tasks && s.mem.tasks[id].state.Active() {
      OnlyItsAgent(s.mem, id);
      CompletedMem(s, red, taskId, summary, outcome, now);
      EndedGrows(s.mem, id, CompleteTask(s, red, taskId, summary, outcome, now).1.value, now);
    } else {
      assert CompleteTask(s, red, taskId, summary, outcome, now).0 == s;
    }
  }

  lemma EndedGrows(m: Mem, id: string, u: Task, now: Time)
    requires id in m.tasks && Evolves(m.tasks[id], u)
    ensures Grows(m, Ended(m, id, u, now))
  {
  }

  lemma TransitionGrows(s: Svc, red: Redactor, taskId: string, allowed: set<TaskState>, next: TaskState, now: Time)
    requires Filed(s.mem) && Completed !in allowed
    ensures Grows(s.mem, Transition(s, red, taskId, allowed, next, now).0.mem)
  {
    var id := Trim(taskId);
    if id in s.mem.tasks && s.mem.tasks[id].state in allowed {
      PutGrows(s.mem, Stamped(s.mem.tasks[id], next, now));
    }
  }

  lemma RetryGrows(s: Svc, red: Redactor, taskId: string, now: Time)
    requires Filed(s.mem)
    ensures Grows(s.mem, RetryTask(s, red, taskId, now).0.mem)
  {
    var r := RetryTask(s, red, taskId, now).1;
    if r.Ok? {
      PutGrows(s.mem, r.value);
    }
  }

  lemma AppendGrows(s: Svc, red: Redactor, taskId: string, e: EntryRequest, now: Time)
    requires Filed(s.mem)
    ensures Grows(s.mem, AppendTranscript(s, red, taskId, e, now).0.mem)
  {
    var r := AppendTranscript(s, red, taskId, e, now).1;
    if r.Ok? {
      PutGrows(s.mem, r.value);
    }
  }

  lemma ArtifactGrows(s: Svc, red: Redactor, taskId: string, req: ArtifactRequest, artifactId: string, now: Time)
    requires Filed(s.mem)
    ensures Grows(s.mem, AddOutputArtifact(s, red, taskId, req, artifactId, now).0.mem)
  {
    var r := AddOutputArtifact(s, red, taskId, req, artifactId, now).1;
    if r.Ok? {
      PutGrows(s.mem, r.value);
    }
  }

  lemma DispatchGrows(s: Svc, red: Redactor, requestedBy: string, req: TaskRequest, id: string, ids: seq<string>,
                      now: Time)
    requires |ids| == |req.inputs| && id !in s.mem.tasks
    ensures Grows(s.mem, DispatchTask(s, red, requestedBy, req, id, ids, now).0.mem)
  {
    var r := DispatchTask(s, red, requestedBy, req, id, ids, now).1;
    if r.Ok? {
      PutGrows(s.mem, r.value);
    }
  }

  lemma StepGrows(s: Svc, op: Op, red: Redactor, size: Record -> nat)
    requires Inv(s.mem) && Possible(s, op) && !op.RestartOp?
    ensures Grows(s.mem, Step(s, op, red, size).mem)
  {
    InvFiled(s.mem);
    match op
    case CreatePoolOp(_, _, _, _) => CreateKeepsTasks(s, op, red, size);
    case CreateAgentOp(_, _, _, _) => CreateKeepsTasks(s, op, red, size);
    case DispatchOp(requester, req, id, ids, now) => DispatchGrows(s, red, requester, req, id, ids, now);
    case ExpireAllOp(order, now) => ExpiryGrows(s.mem, order, now);
    case ExpireOneOp(taskId, now) => ExpireOneGrows(s.mem, taskId, now);
    case StartOp(taskId, now) => TransitionGrows(s, red, taskId, {Assigned}, Running, now);
    case CancelOp(taskId, now) => TransitionGrows(s, red, taskId, {Assigned, Running}, Cancelled, now);
    case CompleteOp(taskId, summary, outcome, now) => CompleteGrows(s, red, taskId, summary, outcome, now);
    case RetryOp(taskId, now) => RetryGrows(s, red, taskId, now);
    case AppendOp(taskId, entry, now) => AppendGrows(s, red, taskId, entry, now);
    case ArtifactOp(taskId, req, artifactId, now) => ArtifactGrows(s, red, taskId, req, artifactId, now);
  }

  // Across restarts, as the log keeps a task.

  lemma SanitizedTranscriptGrows(red: Redactor, s: seq<Entry>, t: seq<Entry>)
    requires s <= t
    ensures SanitizeTranscript(red, s) <= SanitizeTranscript(red, t)
  {
  }

  lemma SanitizedArtifactsGrow(red: Redactor, s: seq<Artifact>, t: seq<Artifact>)
    requires s <= t
    ensures SanitizeArtifacts(red, s) <= SanitizeArtifacts(red, t)
  {
  }

  lemma SanitizedEvolves(red: Redactor, t: Task, u: Task)
    requires Evolves(t, u)
    ensures Evolves(SanitizeTask(red, t), SanitizeTask(red, u))
  {
    SanitizedTranscriptGrows(red, t.transcript, u.transcript);
    SanitizedArtifactsGrow(red, t.outputArtifacts, u.outputArtifacts);
  }

  lemma SanitizedGrows(red: Redactor, m: Mem, n: Mem)
    requires Grows(m, n)
    ensures Grows(Sanitized(red, m), Sanitized(red, n))
  {
    forall id | id in m.tasks ensures Evolves(SanitizeTask(red, m.tasks[id]), SanitizeTask(red, n.tasks[id])) {
      SanitizedEvolves(red, m.tasks[id], n.tasks[id]);
    }
  }

  /** The redactor that blanks all free text and every URI; what is left of a task is its structure. */
  const BLANK := Redactor(x => "", x => "")

  lemma BlankedTask(red: Redactor, t: Task)
    ensures SanitizeTask(BLANK, SanitizeTask(red, t)) == SanitizeTask(BLANK, t)
  {
    SanitizeBindingTwice(t.currentSession);
    assert SanitizeTranscript(BLANK, SanitizeTranscript(red, t.transcript)) == SanitizeTranscript(BLANK, t.transcript);
    BlankedArtifacts(red, t.inputArtifacts);
    BlankedArtifacts(red, t.outputArtifacts);
  }

  lemma BlankedArtifacts(red: Redactor, s: seq<Artifact>)
    ensures SanitizeArtifacts(BLANK, SanitizeArtifacts(red, s)) == SanitizeArtifacts(BLANK, s)
  {
  }

  /** What the log keeps of a task has the structure of the task. */
  lemma KeptStructure(red: Redactor, m: Mem, n: Mem)
    requires Kept(red, m, n)
    ensures Sanitized(BLANK, n).tasks == Sanitized(BLANK, m).tasks
  {
    forall id | id in m.tasks ensures SanitizeTask(BLANK, n.tasks[id]) == SanitizeTask(BLANK, m.tasks[id]) {
      BlankedTask(red, m.tasks[id]);
    }
  }

  /** What of its text a task may not lose: all of it, but for the result of a task that can still be retried. */
  predicate HistorySteady(red: Redactor, t: Task) {
    TextSteady(red, t) && (t.state.Completed? ==> ResultSteady(red, t))
  }

  lemma SanitizedEvolvesExactly(red: Redactor, t: Task)
    ensures Evolves(SanitizeTask(red, t), SanitizeTask(red, SanitizeTask(red, t))) <==> HistorySteady(red, t)
  {
    TaskSteadyExactly(red, t);
    TranscriptSteadyExactly(red, t.transcript);
    ArtifactsSteadyExactly(red, t.inputArtifacts);
    ArtifactsSteadyExactly(red, t.outputArtifacts);
  }

  ghost predicate AllSteady(red: Redactor, m: Mem) { forall id :: id in m.tasks ==> HistorySteady(red, m.tasks[id]) }

  lemma KeptText(red: Redactor, m: Mem, n: Mem)
    requires Kept(red, m, n) && AllSteady(red, m)
    ensures Grows(Sanitized(red, m), Sanitized(red, n))
  {
    forall id | id in m.tasks ensures Evolves(SanitizeTask(red, m.tasks[id]), SanitizeTask(red, n.tasks[id])) {
      assert HistorySteady(red, m.tasks[id]);
      SanitizedEvolvesExactly(red, m.tasks[id]);
    }
  }

  lemma RunStepGrows(ss: seq<Svc>, ops: seq<Op>, red: Redactor, size: Record -> nat, k: nat)
    requires Run(ss, ops, red, size) && k < |ops| && !ops[k].RestartOp?
    ensures Grows(ss[k].mem, ss[k + 1].mem)
  {
    ReplayRefinesMemory(ss, ops, red, size, k);
    StepGrows(ss[k], ops[k], red, size);
  }

  /** Every restart from i up to j can read the log. */
  ghost predicate ReadableRestarts(ss: seq<Svc>, ops: seq<Op>, size: Record -> nat, i: nat, j: nat) {
    j <= |ops| < |ss| && forall k :: i <= k < j && ops[k].RestartOp? ==> Readable(ss[k].log, size)
  }

  lemma SameTasksGrow(m: Mem, n: Mem)
    requires n.tasks == m.tasks
    ensures Grows(m, n)
  {
  }

  /** A restart that can read the log rewrites nothing but text, and none if a second redaction leaves it alone. */
  lemma RestartGrows(ss: seq<Svc>, ops: seq<Op>, red: Redactor, size: Record -> nat, k: nat)
    requires Run(ss, ops, red, size) && k < |ops| && ops[k].RestartOp? && Readable(ss[k].log, size)
    ensures Grows(Sanitized(BLANK, ss[k].mem), Sanitized(BLANK, ss[k + 1].mem))
    ensures AllSteady(red, ss[k].mem) ==> Grows(Sanitized(red, ss[k].mem), Sanitized(red, ss[k + 1].mem))
  {
    assert ss[k + 1] == Step(ss[k], ops[k], red, size);
    ReplayRefinesMemory(ss, ops, red, size, k);
    var m, n := ss[k].mem, ss[k + 1].mem;
    KeptStructure(red, m, n);
    SameTasksGrow(Sanitized(BLANK, m), Sanitized(BLANK, n));
    if AllSteady(red, m) {
      KeptText(red, m, n);
    }
  }

  /** A restart that finds a mirror keeps the text exactly when a second redaction leaves the history alone. */
  lemma RestartKeepsTextExactly(s: Svc, red: Redactor, size: Record -> nat)
    requires Mirrors(s, red) && Readable(s.log, size)
    ensures Grows(Sanitized(red, s.mem), Sanitized(red, Restarted(s, size).mem))
            <==> AllSteady(red, s.mem)
  {
    forall id | id in s.mem.tasks
      ensures Evolves(Sanitized(red, s.mem).tasks[id], Sanitized(red, Restarted(s, size).mem).tasks[id])
              <==> HistorySteady(red, s.mem.tasks[id])
    {
      SanitizedEvolvesExactly(red, s.mem.tasks[id]);
    }
  }

  lemma StructureStepGrows(ss: seq<Svc>, ops: seq<Op>, red: Redactor, size: Record -> nat, k: nat)
    requires Run(ss, ops, red, size) && k < |ops| && (ops[k].RestartOp? ==> Readable(ss[k].log, size))
    ensures Grows(Sanitized(BLANK, ss[k].mem), Sanitized(BLANK, ss[k + 1].mem))
  {
    if ops[k].RestartOp? {
      RestartGrows(ss, ops, red, size, k);
    } else {
      RunStepGrows(ss, ops, red, size, k);
      SanitizedGrows(BLANK, ss[k].mem, ss[k + 1].mem);
    }
  }

  lemma TextStepGrows(ss: seq<Svc>, ops: seq<Op>, red: Redactor, size: Record -> nat, k: nat)
    requires Run(ss, ops, red, size) && k < |ops|
    requires ops[k].RestartOp? ==> Readable(ss[k].log, size) && AllSteady(red, ss[k].mem)
    ensures Grows(Sanitized(red, ss[k].mem), Sanitized(red, ss[k + 1].mem))
  {
    if ops[k].RestartOp? {
      RestartGrows(ss, ops, red, size, k);
    } else {
      RunStepGrows(ss, ops, red, size, k);
      SanitizedGrows(red, ss[k].mem, ss[k + 1].mem);
    }
  }

  lemma {:induction false} GrowsAlong(ms: seq<Mem>, i: nat, j: nat)
    requires i <= j < |ms| && forall k :: i <= k < j ==> Grows(ms[k], ms[k + 1])
    ensures Grows(ms[i], ms[j])
    decreases j - i
  {
    if i < j {
      GrowsAlong(ms, i, j - 1);
      assert Grows(ms[j - 1], ms[j - 1 + 1]);
      GrowsTransitive(ms[i], ms[j - 1], ms[j]);
    }
  }

  /**
   Task history over whole runs, with any restarts that can read the log: the structure of a task only grows. Tasks
   stay, transcripts and outputs only gain entries, retry counts never fall and a completed task never changes again.
   */
  lemma HistoryGrows(ss: seq<Svc>, ops: seq<Op>, red: Redactor, size: Record -> nat, i: nat, j: nat)
    requires Run(ss, ops, red, size) && i <= j <= |ops| && ReadableRestarts(ss, ops, size, i, j)
    ensures Grows(Sanitized(BLANK, ss[i].mem), Sanitized(BLANK, ss[j].mem))
  {
    var ms := seq(|ss|, k requires 0 <= k < |ss| => Sanitized(BLANK, ss[k].mem));
    forall k | i <= k < j ensures Grows(ms[k], ms[k + 1]) {
      StructureStepGrows(ss, ops, red, size, k);
    }
    GrowsAlong(ms, i, j);
  }

  /** Every restart from i up to j finds a history that a second redaction leaves alone. */
  ghost predicate SteadyRestarts(ss: seq<Svc>, ops: seq<Op>, red: Redactor, i: nat, j: nat) {
    j <= |ops| < |ss| && forall k :: i <= k < j && ops[k].RestartOp? ==> AllSteady(red, ss[k].mem)
  }

  /** And so does its text as the log keeps it, if no restart finds text that a second redaction changes. */
  lemma TextGrows(ss: seq<Svc>, ops: seq<Op>, red: Redactor, size: Record -> nat, i: nat, j: nat)
    requires Run(ss, ops, red, size) && i <= j <= |ops| && ReadableRestarts(ss, ops, size, i, j)
    requires SteadyRestarts(ss, ops, red, i, j)
    ensures Grows(Sanitized(red, ss[i].mem), Sanitized(red, ss[j].mem))
  {
    var ms := seq(|ss|, k requires 0 <= k < |ss| => Sanitized(red, ss[k].mem));
    forall k | i <= k < j ensures Grows(ms[k], ms[k + 1]) {
      TextStepGrows(ss, ops, red, size, k);
    }
    GrowsAlong(ms, i, j);
  }

  /** Between restarts memory as it is grows. */
  lemma MemoryGrows(ss: seq<Svc>, ops: seq<Op>, red: Redactor, size: Record -> nat, i: nat, j: nat)
    requires Run(ss, ops, red, size) && i <= j <= |ops|
    requires forall k :: i <= k < j ==> !ops[k].RestartOp?
    ensures Grows(ss[i].mem, ss[j].mem)
  {
    var ms := seq(|ss|, k requires 0 <= k < |ss| => ss[k].mem);
    forall k | i <= k < j ensures Grows(ms[k], ms[k + 1]) {
      RunStepGrows(ss, ops, red, size, k);
    }
    GrowsAlong(ms, i, j);
  }

  /** The failing case, for text: the restart of the run that breaks the mirror rewrites the artifact of the task. */
  lemma RestartRewritesText(red: Redactor, size: Record -> nat, path: string, uri: string) returns (ss: seq<Svc>)
    requires Trim(path) == path && Trim(uri) == uri
    requires red.text(red.text(path)) != red.text(path) || red.uri(red.uri(uri)) != red.uri(uri)
    ensures Run(ss, RestartOps(path, uri), red, size)
    ensures Readable(ss[3].log, size) ==> !Grows(Sanitized(red, ss[2].mem), Sanitized(red, ss[3].mem))
  {
    ss := RestartRun(red, size, path, uri);
    if Readable(ss[3].log, size) {
      RestartFoundMirror(ss, RestartOps(path, uri), red, size);
      assert !ArtifactSteady(red, ss[2].mem.tasks["t"].inputArtifacts[0]);
      RestartKeepsTextExactly(ss[2], red, size);
    }
  }
}
