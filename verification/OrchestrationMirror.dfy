/** How faithfully the log mirrors memory: exactly, unless a restart is followed by a second redaction that differs. */
module OrchestrationMirror {
  import opened Text
  import opened Orchestration
  import opened OrchestrationLaws
  import opened OrchestrationRuns

  // Redacting twice.

  ghost predicate Idempotent(red: Redactor) {
    && (forall x {:trigger red.text(x)} :: red.text(red.text(x)) == red.text(x))
    && (forall x {:trigger red.uri(x)} :: red.uri(red.uri(x)) == red.uri(x))
  }

  /** Sanitising this memory a second time changes nothing. */
  ghost predicate Stable(red: Redactor, m: Mem) { Sanitized(red, Sanitized(red, m)) == Sanitized(red, m) }

  lemma SanitizeBindingTwice(b: Option<Binding>)
    ensures SanitizeBinding(SanitizeBinding(b)) == SanitizeBinding(b)
  {
    if b.Some? {
      TrimTwice(b.value.harnessRunId);
      TrimTwice(b.value.sessionId);
      TrimTwice(b.value.podName);
    }
  }

  // What a second sanitising leaves alone, field by field.

  predicate ArtifactSteady(red: Redactor, a: Artifact) {
    && red.text(red.text(a.name)) == red.text(a.name)
    && red.text(red.text(a.path)) == red.text(a.path)
    && red.uri(red.uri(a.uri)) == red.uri(a.uri)
  }

  predicate EntrySteady(red: Redactor, e: Entry) {
    red.text(red.text(e.text)) == red.text(e.text) && red.text(red.text(e.eventRef)) == red.text(e.eventRef)
  }

  predicate TextSteady(red: Redactor, t: Task) {
    && red.text(red.text(t.prompt)) == red.text(t.prompt)
    && (forall i :: 0 <= i < |t.transcript| ==> EntrySteady(red, t.transcript[i]))
    && (forall i :: 0 <= i < |t.inputArtifacts| ==> ArtifactSteady(red, t.inputArtifacts[i]))
    && (forall i :: 0 <= i < |t.outputArtifacts| ==> ArtifactSteady(red, t.outputArtifacts[i]))
  }

  predicate ResultSteady(red: Redactor, t: Task) {
    t.result.Some? ==>
      && red.text(red.text(t.result.value.summary)) == red.text(t.result.value.summary)
      && red.text(red.text(t.result.value.outcome)) == red.text(t.result.value.outcome)
  }

  predicate Steady(red: Redactor, t: Task) { TextSteady(red, t) && ResultSteady(red, t) }

  lemma ArtifactsSteadyExactly(red: Redactor, s: seq<Artifact>)
    ensures SanitizeArtifacts(red, SanitizeArtifacts(red, s)) == SanitizeArtifacts(red, s)
            <==> forall i :: 0 <= i < |s| ==> ArtifactSteady(red, s[i])
  {
    var once := SanitizeArtifacts(red, s);
    var twice := SanitizeArtifacts(red, once);
    assert twice == once <==> forall i :: 0 <= i < |s| ==> twice[i] == once[i];
    forall i | 0 <= i < |s| ensures twice[i] == once[i] <==> ArtifactSteady(red, s[i]) {
    }
  }

  lemma TranscriptSteadyExactly(red: Redactor, s: seq<Entry>)
    ensures SanitizeTranscript(red, SanitizeTranscript(red, s)) == SanitizeTranscript(red, s)
            <==> forall i :: 0 <= i < |s| ==> EntrySteady(red, s[i])
  {
    var once := SanitizeTranscript(red, s);
    var twice := SanitizeTranscript(red, once);
    assert twice == once <==> forall i :: 0 <= i < |s| ==> twice[i] == once[i];
    forall i | 0 <= i < |s| ensures twice[i] == once[i] <==> EntrySteady(red, s[i]) {
    }
  }

  lemma TaskSteadyExactly(red: Redactor, t: Task)
    ensures SanitizeTask(red, SanitizeTask(red, t)) == SanitizeTask(red, t)
            <==> Steady(red, t)
  {
    SanitizeBindingTwice(t.currentSession);
    TranscriptSteadyExactly(red, t.transcript);
    ArtifactsSteadyExactly(red, t.inputArtifacts);
    ArtifactsSteadyExactly(red, t.outputArtifacts);
  }

  lemma AgentsStable(red: Redactor, m: Mem)
    ensures Sanitized(red, Sanitized(red, m)).agents == Sanitized(red, m).agents
  {
    forall id | id in m.agents ensures SanitizeAgent(SanitizeAgent(m.agents[id])) == SanitizeAgent(m.agents[id]) {
      SanitizeBindingTwice(m.agents[id].currentSession);
    }
  }

  lemma TasksStableExactly(red: Redactor, m: Mem)
    ensures Sanitized(red, Sanitized(red, m)).tasks == Sanitized(red, m).tasks
            <==> forall id :: id in m.tasks ==> Steady(red, m.tasks[id])
  {
    var once, twice := Sanitized(red, m).tasks, Sanitized(red, Sanitized(red, m)).tasks;
    forall id | id in m.tasks ensures twice[id] == once[id] <==> Steady(red, m.tasks[id]) {
      TaskSteadyExactly(red, m.tasks[id]);
    }
    assert twice == once <==> forall id :: id in once ==> twice[id] == once[id];
  }

  /** A memory is stable exactly when redacting any text in it twice is redacting it once. */
  lemma StableExactly(red: Redactor, m: Mem)
    ensures Stable(red, m) <==> forall id :: id in m.tasks ==> Steady(red, m.tasks[id])
  {
    AgentsStable(red, m);
    TasksStableExactly(red, m);
  }

  // One restart.

  lemma StepMirrors(s: Svc, op: Op, red: Redactor, size: Record -> nat)
    requires Mirrors(s, red) && Inv(s.mem) && Possible(s, op) && !op.RestartOp?
    ensures Mirrors(Step(s, op, red, size), red)
  {
    MirrorsAgreesEverywhere(s, red);
    StepAgrees(s, op, red, false, NO_IDS, size);
    MirrorsAgreesEverywhere(Step(s, op, red, size), red);
  }

  /** After a restart that can read the log, the log mirrors memory exactly when sanitising twice is sanitising once. */
  lemma RestartMirrors(s: Svc, red: Redactor, size: Record -> nat)
    requires Mirrors(s, red) && Readable(s.log, size)
    ensures Mirrors(Restarted(s, size), red) <==> Stable(red, s.mem)
  {
  }

  // Whole runs.

  ghost predicate MirrorsUpTo(ss: seq<Svc>, red: Redactor, n: nat)
    requires n < |ss|
  {
    forall k :: 0 <= k <= n ==> Mirrors(ss[k], red)
  }

  ghost predicate StableRestarts(ss: seq<Svc>, ops: seq<Op>, red: Redactor, n: nat) {
    n <= |ops| < |ss| && forall k :: 0 <= k < n && ops[k].RestartOp? ==> Stable(red, ss[k].mem)
  }

  lemma MirrorsOneMore(ss: seq<Svc>, red: Redactor, n: nat)
    requires 0 < n < |ss|
    ensures MirrorsUpTo(ss, red, n) <==> MirrorsUpTo(ss, red, n - 1) && Mirrors(ss[n], red)
  {
  }

  lemma StableOneMore(ss: seq<Svc>, ops: seq<Op>, red: Redactor, n: nat)
    requires 0 < n <= |ops| < |ss|
    ensures StableRestarts(ss, ops, red, n)
            <==> StableRestarts(ss, ops, red, n - 1) && (ops[n - 1].RestartOp? ==> Stable(red, ss[n - 1].mem))
  {
  }

  /** The next state mirrors if this one does, unless it is a restart that finds an unstable memory. */
  lemma NextMirrors(ss: seq<Svc>, ops: seq<Op>, red: Redactor, size: Record -> nat, n: nat)
    requires Run(ss, ops, red, size) && n < |ops| && Readable(ss[n + 1].log, size) && Mirrors(ss[n], red)
    ensures Mirrors(ss[n + 1], red) <==> (ops[n].RestartOp? ==> Stable(red, ss[n].mem))
  {
    ReplayRefinesMemory(ss, ops, red, size, n);
    assert ss[n + 1] == Step(ss[n], ops[n], red, size);
    if ops[n].RestartOp? {
      RestartMirrors(ss[n], red, size);
    } else {
      StepMirrors(ss[n], ops[n], red, size);
    }
  }

  lemma EarlierReadable(ss: seq<Svc>, ops: seq<Op>, red: Redactor, size: Record -> nat, n: nat)
    requires Run(ss, ops, red, size) && n < |ops| && Readable(ss[n + 1].log, size)
    ensures Readable(ss[n].log, size)
  {
    assert ss[n + 1] == Step(ss[n], ops[n], red, size);
    StepExtendsLog(ss[n], ops[n], red, size);
    ReadablePrefix(ss[n].log, ss[n + 1].log, size);
  }

  /**
   The log mirrors memory exactly, all along a run that leaves it readable, exactly when every restart on the way found
   a memory that a second sanitising leaves alone; so always, if there is no restart.
   */
  lemma {:induction false} MirrorsExactly(ss: seq<Svc>, ops: seq<Op>, red: Redactor, size: Record -> nat, n: nat)
    requires Run(ss, ops, red, size) && n <= |ops| && Readable(ss[n].log, size)
    ensures MirrorsUpTo(ss, red, n) <==> StableRestarts(ss, ops, red, n)
    decreases n
  {
    if n == 0 {
      MirrorsAgreesEverywhere(ss[0], red);
    } else {
      EarlierReadable(ss, ops, red, size, n - 1);
      MirrorsExactly(ss, ops, red, size, n - 1);
      MirrorsOneMore(ss, red, n);
      StableOneMore(ss, ops, red, n);
      if MirrorsUpTo(ss, red, n - 1) {
        NextMirrors(ss, ops, red, size, n - 1);
      }
    }
  }

  // The redactors under which it always does.

  /** Both redactions trim first, as those of the service do. */
  ghost predicate TrimsFirst(red: Redactor) {
    && (forall x {:trigger red.text(x)} :: red.text(x) == red.text(Trim(x)))
    && (forall x {:trigger red.uri(x)} :: red.uri(x) == red.uri(Trim(x)))
  }

  ghost predicate AlwaysMirrors(red: Redactor) {
    forall ss: seq<Svc>, ops: seq<Op>, size: Record -> nat ::
      Run(ss, ops, red, size) && Readable(ss[|ops|].log, size) ==> Mirrors(ss[|ops|], red)
  }

  function Dispatched(path: string, uri: string): TaskRequest {
    TaskRequest(Target("a", "", "", ""), "p", 0, [ArtifactRequest("n", "k", path, uri)])
  }

  /** An agent is created, a task with one input is dispatched to it, and the service is restarted. */
  function RestartOps(path: string, uri: string): seq<Op> {
    [CreateAgentOp(AgentRequest("a", "", "", ""), Ok(None), "a", 0),
     DispatchOp("", Dispatched(path, uri), "t", ["i"], 0),
     RestartOp]
  }

  lemma DispatchedInput(red: Redactor, path: string, uri: string)
    requires Trim(path) == path && Trim(uri) == uri
    ensures var s1 := CreateAgent(Svc(NO_MEM, []), red, AgentRequest("a", "", "", ""), Ok(None), "a", 0).0;
            var s2 := DispatchTask(s1, red, "", Dispatched(path, uri), "t", ["i"], 0).0;
            && "t" in s2.mem.tasks && |s2.mem.tasks["t"].inputArtifacts| == 1
            && s2.mem.tasks["t"].inputArtifacts[0].path == path && s2.mem.tasks["t"].inputArtifacts[0].uri == uri
  {
    assert Trim("a") == "a" && Normal("a") == "a" && Trim("") == "" && Normal("") == "";
    assert PoolsNamed(NO_MEM, "") == {} && AgentsNamed(NO_MEM, "a", "") == {};
  }

  lemma ThreeSteps(ops: seq<Op>, red: Redactor, size: Record -> nat) returns (ss: seq<Svc>)
    requires |ops| == 3 && Possible(Svc(NO_MEM, []), ops[0]) && ops[2].RestartOp?
    requires Possible(Step(Svc(NO_MEM, []), ops[0], red, size), ops[1])
    ensures Run(ss, ops, red, size) && ss[2] == Step(Step(Svc(NO_MEM, []), ops[0], red, size), ops[1], red, size)
  {
    var s0 := Svc(NO_MEM, []);
    var s1 := Step(s0, ops[0], red, size);
    var s2 := Step(s1, ops[1], red, size);
    ss := [s0, s1, s2, Step(s2, ops[2], red, size)];
    assert forall i :: 0 <= i < 3 ==> Possible(ss[i], ops[i]) && ss[i + 1] == Step(ss[i], ops[i], red, size);
  }

  lemma RestartRun(red: Redactor, size: Record -> nat, path: string, uri: string) returns (ss: seq<Svc>)
    requires Trim(path) == path && Trim(uri) == uri
    ensures Run(ss, RestartOps(path, uri), red, size)
    ensures "t" in ss[2].mem.tasks && |ss[2].mem.tasks["t"].inputArtifacts| == 1
    ensures var a := ss[2].mem.tasks["t"].inputArtifacts[0]; a.path == path && a.uri == uri
  {
    assert Trim("a") == "a" && Trim("t") == "t";
    DispatchedInput(red, path, uri);
    ss := ThreeSteps(RestartOps(path, uri), red, size);
  }

  /** A restart at the end of a run without others finds a mirror. */
  lemma RestartFoundMirror(ss: seq<Svc>, ops: seq<Op>, red: Redactor, size: Record -> nat)
    requires Run(ss, ops, red, size) && ops != [] && Readable(ss[|ops|].log, size)
    requires forall k :: 0 <= k < |ops| - 1 ==> !ops[k].RestartOp?
    requires ops[|ops| - 1].RestartOp?
    ensures var n := |ops| - 1; Mirrors(ss[n], red) && Readable(ss[n].log, size) && ss[n + 1] == Restarted(ss[n], size)
  {
    EarlierReadable(ss, ops, red, size, |ops| - 1);
    MirrorsExactly(ss, ops, red, size, |ops| - 1);
    assert ss[|ops| - 1 + 1] == Step(ss[|ops| - 1], ops[|ops| - 1], red, size);
  }

  /**
   The failing case: if a path or a URI that an artifact can have is changed by a second redaction, then after three
   operations the log, as long as it can be read, does not mirror memory.
   */
  lemma RestartBreaksMirror(red: Redactor, size: Record -> nat, path: string, uri: string) returns (ss: seq<Svc>)
    requires Trim(path) == path && Trim(uri) == uri
    requires red.text(red.text(path)) != red.text(path) || red.uri(red.uri(uri)) != red.uri(uri)
    ensures Run(ss, RestartOps(path, uri), red, size)
    ensures Readable(ss[3].log, size) ==> !Mirrors(ss[3], red)
  {
    ss := RestartRun(red, size, path, uri);
    if Readable(ss[3].log, size) {
      RestartFoundMirror(ss, RestartOps(path, uri), red, size);
      assert !ArtifactSteady(red, ss[2].mem.tasks["t"].inputArtifacts[0]);
      StableExactly(red, ss[2].mem);
      RestartMirrors(ss[2], red, size);
    }
  }

  lemma IdempotentIsStable(red: Redactor, m: Mem)
    requires Idempotent(red)
    ensures Stable(red, m)
  {
    StableExactly(red, m);
    forall id | id in m.tasks ensures Steady(red, m.tasks[id]) {
    }
  }

  lemma IdempotentMirrors(ss: seq<Svc>, ops: seq<Op>, red: Redactor, size: Record -> nat)
    requires Run(ss, ops, red, size) && Readable(ss[|ops|].log, size) && Idempotent(red)
    ensures Mirrors(ss[|ops|], red)
  {
    forall k | 0 <= k < |ops| && ops[k].RestartOp? ensures Stable(red, ss[k].mem) {
      IdempotentIsStable(red, ss[k].mem);
    }
    MirrorsExactly(ss, ops, red, size, |ops|);
  }

  /**
   Under redactions that trim first, the log mirrors memory in every run that leaves it readable exactly when redacting
   twice is redacting once.
   */
  lemma AlwaysMirrorsExactly(red: Redactor)
    requires TrimsFirst(red)
    ensures AlwaysMirrors(red) <==> Idempotent(red)
  {
    if Idempotent(red) {
      forall ss: seq<Svc>, ops: seq<Op>, size: Record -> nat
        | Run(ss, ops, red, size) && Readable(ss[|ops|].log, size)
        ensures Mirrors(ss[|ops|], red)
      {
        IdempotentMirrors(ss, ops, red, size);
      }
    }
    if AlwaysMirrors(red) {
      forall x: string ensures red.text(red.text(x)) == red.text(x) && red.uri(red.uri(x)) == red.uri(x) {
        RedactsOnce(red, x);
      }
    }
  }

  lemma RedactsOnce(red: Redactor, x: string)
    requires TrimsFirst(red) && AlwaysMirrors(red)
    ensures red.text(red.text(x)) == red.text(x) && red.uri(red.uri(x)) == red.uri(x)
  {
    TrimTwice(x);
    if red.text(red.text(x)) != red.text(x) || red.uri(red.uri(x)) != red.uri(x) {
      NotAlwaysMirrors(red, Trim(x), Trim(x));
    }
  }

  lemma NotAlwaysMirrors(red: Redactor, path: string, uri: string)
    requires Trim(path) == path && Trim(uri) == uri
    requires red.text(red.text(path)) != red.text(path) || red.uri(red.uri(uri)) != red.uri(uri)
    ensures !AlwaysMirrors(red)
  {
    var size: Record -> nat := r => 0;
    var ss := RestartBreaksMirror(red, size, path, uri);
    NoMirrorAtEnd(ss, RestartOps(path, uri), red, size);
  }

  lemma NoMirrorAtEnd(ss: seq<Svc>, ops: seq<Op>, red: Redactor, size: Record -> nat)
    requires Run(ss, ops, red, size) && Readable(ss[|ops|].log, size) && !Mirrors(ss[|ops|], red)
    ensures !AlwaysMirrors(red)
  {
  }
}
