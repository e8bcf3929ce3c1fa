/** The bridge to one agent session: every critical section that moves it, and where any mix of them can lead. */
module SessionBridge {
  import opened Text
  import opened SessionPhases
  import opened SessionStore

  datatype Bridge = Bridge(phase: Phase, sessionId: string, nextSeq: int, events: seq<Event>, streaming: bool)

  /** The session that a run's status reports, if it reports one. */
  datatype StatusView = StatusView(sessionId: string, phase: Phase)

  datatype Op =
    | AttachOp                              // bridgeFor, the status reports no session
    | AdoptOp(view: StatusView)             // bridgeFor, the status reports one
    | EnsureOp                              // EnsureSession before it creates a session
    | ReadyOp(sessionId: string)            // EnsureSession with the session it created
    | FailOp                                // EnsureSession or Prompt after a failed request
    | StreamOp                              // ensureStreaming
    | StreamRefusedOp                       // its stream could not be opened
    | EventOp(at: Time, payload: Json)      // appendEvent
    | StreamEndOp(failed: bool)             // the end of consumeSSE
    | PromptOp                              // Prompt before it sends
    | StopOp                                // Stop before it closes the stream
    | StopFailOp                            // Stop after a DELETE that failed
    | StopDoneOp                            // Stop after a DELETE that succeeded, or failed on a stale connection
  {
    /** The ways in which a request that fails ends a session. */
    predicate Failure() { FailOp? || StreamRefusedOp? || StopFailOp? }
  }

  /** transitionLocked. */
  function Moved(b: Bridge, next: Phase): Bridge {
    if CanTransition(b.phase, next) then b.(phase := next) else b
  }

  function Step(b: Bridge, op: Op): Bridge {
    match op
    case AttachOp => b
    case AdoptOp(view) =>
      b.(phase := view.phase, sessionId := if Trim(view.sessionId) != "" then Trim(view.sessionId) else b.sessionId)
    case EnsureOp =>
      if CanTransition(b.phase, Provisioning) then b.(phase := Provisioning)
      else b.(phase := Resolve(b.phase, Provisioning))
    case ReadyOp(sessionId) => Moved(b.(sessionId := Trim(sessionId)), Ready)
    case FailOp => Moved(b, Failed)
    case StreamOp => b.(streaming := true)
    case StreamRefusedOp => Moved(b.(streaming := false), Failed)
    case EventOp(at, payload) =>
      var next := b.nextSeq + 1;
      b.(nextSeq := next, events := b.events + [Event(next, at, Sanitize(payload))])
    case StreamEndOp(failed) =>
      if b.phase.Stopping? then b.(streaming := false)
      else Moved(b.(streaming := false), if failed && !b.phase.Completed? then Failed else Completed)
    case PromptOp => Moved(b, Running)
    case StopOp => if b.phase.Terminal() then b else Moved(b, Stopping)
    case StopFailOp => Moved(b, Failed)
    case StopDoneOp => Moved(b, Completed)
  }

  /** The phase a critical section is after, and none if it is after none. */
  function Target(phase: Phase, op: Op): Phase {
    match op
    case EnsureOp => Provisioning
    case ReadyOp(_) => Ready
    case PromptOp => Running
    case StopOp => Stopping
    case StopDoneOp => Completed
    case FailOp => Failed
    case StreamRefusedOp => Failed
    case StopFailOp => Failed
    case StreamEndOp(failed) => if phase.Stopping? then NoPhase else if failed then Failed else Completed
    case _ => NoPhase
  }

  /**
   From a known phase every critical section but an adoption leads to the least upper bound of the phase and its
   target.
   */
  lemma StepIsJoin(b: Bridge, op: Op)
    requires !b.phase.Unknown? && !op.AdoptOp?
    ensures Step(b, op).phase == Resolve(b.phase, Target(b.phase, op))
  {
  }

  /** What an operation is after, unless it is the end of the stream. */
  function Goal(op: Op): Phase { Target(NoPhase, op) }

  /** Two operations that are after different ends. */
  predicate Disagree(first: Op, second: Op) {
    Goal(first).Terminal() && Goal(second).Terminal() && Goal(first) != Goal(second)
  }

  /** So two critical sections can be swapped, exactly unless they disagree on how a live session ends. */
  lemma StepsCommute(b: Bridge, first: Op, second: Op)
    requires !b.phase.Unknown? && !first.AdoptOp? && !second.AdoptOp? && !first.StreamEndOp? && !second.StreamEndOp?
    ensures Step(Step(b, first), second).phase == Step(Step(b, second), first).phase
            <==> b.phase.Terminal() || !Disagree(first, second)
  {
    TwoStepsJoin(b, first, second);
    TwoStepsJoin(b, second, first);
    ResolveSwaps(b.phase, Goal(first), Goal(second));
  }

  lemma TwoStepsJoin(b: Bridge, first: Op, second: Op)
    requires !b.phase.Unknown? && !first.AdoptOp? && !second.AdoptOp? && !first.StreamEndOp? && !second.StreamEndOp?
    ensures Step(Step(b, first), second).phase == Resolve(Resolve(b.phase, Goal(first)), Goal(second))
    ensures !Goal(first).Unknown? && !Goal(second).Unknown?
  {
    StepIsJoin(b, first);
    SameTarget(first, b.phase);
    StepIsJoin(Step(b, first), second);
    SameTarget(second, Step(b, first).phase);
  }

  lemma SameTarget(op: Op, phase: Phase)
    requires !op.StreamEndOp?
    ensures Target(phase, op) == Goal(op) && !Goal(op).Unknown?
  {
  }

  lemma ResolveSwaps(p: Phase, q: Phase, r: Phase)
    requires !p.Unknown? && !q.Unknown? && !r.Unknown?
    ensures Resolve(Resolve(p, q), r) == Resolve(Resolve(p, r), q)
            <==> p.Terminal() || !(q.Terminal() && r.Terminal() && q != r)
  {
  }

  ghost predicate Run(bs: seq<Bridge>, ops: seq<Op>) {
    |bs| == |ops| + 1 && forall i :: 0 <= i < |ops| ==> bs[i + 1] == Step(bs[i], ops[i])
  }

  ghost predicate NoAdoption(ops: seq<Op>, i: nat, j: nat) {
    j <= |ops| && forall k :: i <= k < j ==> !ops[k].AdoptOp?
  }

  lemma StepMovesUp(b: Bridge, op: Op)
    requires !op.AdoptOp?
    ensures Reaches(b.phase, Step(b, op).phase)
    ensures b.phase.Terminal() || b.phase.Unknown? ==> Step(b, op).phase == b.phase
  {
  }

  lemma ReachesTransitive(p: Phase, q: Phase, r: Phase)
    requires Reaches(p, q) && Reaches(q, r)
    ensures Reaches(p, r) && (!p.Unknown? ==> !r.Unknown?)
  {
    TransitionsAreAnOrder(p, q, r);
  }

  /**
   Phase progress: along any mix of critical sections without an adoption the phase only moves up its order, and a
   terminal phase never changes; neither does a phase that the bridge does not know.
   */
  lemma {:induction false} PhaseProgress(bs: seq<Bridge>, ops: seq<Op>, i: nat, j: nat)
    requires Run(bs, ops) && i <= j && NoAdoption(ops, i, j)
    ensures Reaches(bs[i].phase, bs[j].phase)
    ensures bs[i].phase.Terminal() || bs[i].phase.Unknown? ==> bs[j].phase == bs[i].phase
    ensures !bs[i].phase.Unknown? ==> !bs[j].phase.Unknown?
    decreases j - i
  {
    if i < j {
      PhaseProgress(bs, ops, i, j - 1);
      assert bs[j - 1 + 1] == Step(bs[j - 1], ops[j - 1]);
      StepMovesUp(bs[j - 1], ops[j - 1]);
      ReachesTransitive(bs[i].phase, bs[j - 1].phase, bs[j].phase);
    }
  }

  /** Stop leaves a terminal phase, whatever runs in between, exactly when the phase it found was a known one. */
  lemma StopEndsSession(bs: seq<Bridge>, ops: seq<Op>, i: nat, j: nat)
    requires Run(bs, ops) && i + 1 < j && NoAdoption(ops, i, j)
    requires ops[i].StopOp? && (ops[j - 1].StopDoneOp? || ops[j - 1].StopFailOp?)
    ensures bs[j].phase.Terminal() <==> !bs[i].phase.Unknown?
  {
    PhaseProgress(bs, ops, i, j - 1);
    assert bs[j - 1 + 1] == Step(bs[j - 1], ops[j - 1]);
    StopEndsAdopted(bs[j - 1], ops[j - 1]);
  }

  /**
   An adoption in between may take the phase anywhere, and only a phase that is unknown when Stop finishes survives
   it.
   */
  lemma StopEndsAdopted(b: Bridge, op: Op)
    requires op.StopDoneOp? || op.StopFailOp?
    ensures Step(b, op).phase.Terminal() <==> !b.phase.Unknown?
  {
  }

  /**
   Stop owns the outcome: once it has begun on a live session, the end of the stream, prompts and concurrent calls
   leave the phase at Stopping, and the outcome of its DELETE alone decides between Completed and Failed.
   */
  lemma {:induction false} StopOwnsOutcome(bs: seq<Bridge>, ops: seq<Op>, i: nat, j: nat)
    requires Run(bs, ops) && i < j && NoAdoption(ops, i, j)
    requires ops[i].StopOp? && !bs[i].phase.Terminal() && !bs[i].phase.Unknown?
    requires forall k :: i < k < j ==> !ops[k].Failure() && !ops[k].StopDoneOp?
    ensures bs[j].phase == Stopping
    ensures Step(bs[j], StopDoneOp).phase == Completed && Step(bs[j], StopFailOp).phase == Failed
    decreases j - i
  {
    assert bs[j - 1 + 1] == Step(bs[j - 1], ops[j - 1]);
    if i + 1 < j {
      StopOwnsOutcome(bs, ops, i, j - 1);
    }
  }

  /** Adoption is the one step that may lower a phase: a completed session is running again. */
  lemma AdoptionLowers()
    ensures exists b: Bridge, op: Op :: b.phase.Completed? && Step(b, op).phase.Running?
  {
    var b, op := Bridge(Completed, "", 0, [], false), AdoptOp(StatusView("", Running));
    assert Step(b, op).phase.Running?;
  }

  /**
   The life of a session: it is provisioned, becomes ready with the session the agent named, and runs with its first
   prompt.
   */
  lemma Lifecycle(b: Bridge, sessionId: string)
    requires b.phase.NoPhase? || b.phase.Provisioning?
    ensures var provisioned := Step(b, EnsureOp);
            var ready := Step(provisioned, ReadyOp(sessionId));
            var running := Step(ready, PromptOp);
            && provisioned.phase == Provisioning && ready.phase == Ready && ready.sessionId == Trim(sessionId)
            && running.phase == Running && running.sessionId == Trim(sessionId)
  {
  }

  /**
   How a live session ends: as its stream ends, and as Failed if a request fails; a stop goes by way of Stopping, and
   its DELETE decides.
   */
  lemma Endings(b: Bridge, failed: bool)
    requires b.phase.Provisioning? || b.phase.Ready? || b.phase.Running?
    ensures Step(b, StreamEndOp(failed)).phase == if failed then Failed else Completed
    ensures Step(b, FailOp).phase == Failed && Step(b, StreamRefusedOp).phase == Failed
    ensures var stopping := Step(b, StopOp);
            && stopping.phase == Stopping && Step(stopping, StreamEndOp(failed)).phase == Stopping
            && Step(stopping, StopDoneOp).phase == Completed && Step(stopping, StopFailOp).phase == Failed
  {
  }

  /** No critical section but these touches the session, the numbering or the stream. */
  lemma OnlyPhaseMoves(b: Bridge, op: Op)
    ensures op.ReadyOp? ==> Step(b, op).sessionId == Trim(op.sessionId)
    ensures op.AdoptOp? ==> Step(b, op).phase == op.view.phase
    ensures op.AdoptOp? && Trim(op.view.sessionId) != "" ==> Step(b, op).sessionId == Trim(op.view.sessionId)
    ensures !op.ReadyOp? && !(op.AdoptOp? && Trim(op.view.sessionId) != "") ==> Step(b, op).sessionId == b.sessionId
    ensures Step(b, op).nextSeq == b.nextSeq + (if op.EventOp? then 1 else 0)
    ensures op.EventOp? ==> Step(b, op).events == b.events + [Event(b.nextSeq + 1, op.at, Sanitize(op.payload))]
    ensures !op.EventOp? ==> Step(b, op).events == b.events
    ensures Step(b, op).streaming
            <==> op.StreamOp? || (b.streaming && !op.StreamEndOp? && !op.StreamRefusedOp?)
  {
  }

  // A new process.

  /** bridgeFor when the process holds no bridge for the run. */
  function Created(medium: Medium, log: seq<Record>, run: string, resumedFrom: string, status: Option<StatusView>)
    : Bridge
  {
    var sessionId := if status.Some? then Trim(status.value.sessionId) else "";
    var phase := if status.Some? && !status.value.phase.NoPhase? then status.value.phase else Provisioning;
    var persisted := LoadState(medium, log, {run});
    var newest := if Readable(medium, log) then Newest(log, {run, Trim(resumedFrom)}) else 0;
    var last := if persisted.Some? && persisted.value.lastSequence > 0 then persisted.value.lastSequence else 0;
    Bridge(if persisted.Some? && status.None? then Resolve(phase, persisted.value.phase) else phase,
           if persisted.Some? && sessionId == "" then persisted.value.sessionId else sessionId,
           if newest > last then newest else last,
           [], false)
  }

  /** GetState when the process holds no bridge for the run. */
  function Reported(medium: Medium, log: seq<Record>, run: string, resumedFrom: string, status: Option<StatusView>)
    : Phase
  {
    var base := if status.Some? then status.value.phase else NoPhase;
    var persisted := LoadState(medium, log, {run, resumedFrom});
    if persisted.Some? then if status.None? then Resolve(base, persisted.value.phase) else base
    else if base.NoPhase? then Provisioning
    else base
  }

  /** A restart without a status brings the phase that was saved last back exactly when that phase is a known one. */
  lemma RestartKeepsPhase(medium: Medium, log: seq<Record>, run: string, resumedFrom: string, i: nat)
    requires Readable(medium, log) && LastSave(log, {run}, i)
    ensures var saved := log[i].state.phase;
            Created(medium, log, run, resumedFrom, None).phase == saved <==> !saved.NoPhase? && !saved.Unknown?
  {
    LoadedState(medium, log, {run}, i);
  }

  /** With a status the phase is the one that the status reports, and Provisioning when it reports none. */
  lemma StatusDecidesPhase(medium: Medium, log: seq<Record>, run: string, resumedFrom: string, status: StatusView)
    ensures Created(medium, log, run, resumedFrom, Some(status)).phase
            == if status.phase.NoPhase? then Provisioning else status.phase
  {
  }

  /** The session a new bridge talks to: the one its status names, else the one that was saved last, else none. */
  lemma CreatedSession(medium: Medium, log: seq<Record>, run: string, resumedFrom: string, status: Option<StatusView>)
    ensures var session := Created(medium, log, run, resumedFrom, status).sessionId;
            if status.Some? && Trim(status.value.sessionId) != "" then session == Trim(status.value.sessionId)
            else
              && (forall i: nat :: Readable(medium, log) && LastSave(log, {run}, i) ==>
                    session == log[i].state.sessionId)
              && (!Readable(medium, log) || NoSave(log, {run}) ==> session == "")
  {
    LoadStateIsLast(medium, log, {run});
    forall i: nat | Readable(medium, log) && LastSave(log, {run}, i)
      ensures LoadState(medium, log, {run}) == Some(log[i].state)
    {
      LoadedState(medium, log, {run}, i);
    }
  }

  /** Something stored for the run that carries this sequence number: an event, or the state saved last. */
  ghost predicate Carries(log: seq<Record>, run: string, resumedFrom: string, n: int) {
    || (exists e :: Among(e, log, {run, Trim(resumedFrom)}) && e.sequence == n)
    || (exists i: nat :: LastSave(log, {run}, i) && log[i].state.lastSequence == n)
  }

  /** A new bridge numbers on from the greatest number of a readable log, and else from nothing. */
  lemma CreatedNumber(medium: Medium, log: seq<Record>, run: string, resumedFrom: string, status: Option<StatusView>)
    ensures var n := Created(medium, log, run, resumedFrom, status).nextSeq;
            && n >= 0
            && (n > 0 ==> Readable(medium, log) && Carries(log, run, resumedFrom, n))
            && (Readable(medium, log) ==> forall k :: Carries(log, run, resumedFrom, k) ==> k <= n)
  {
    NewestIsMaximum(log, {run, Trim(resumedFrom)});
    LoadStateIsLast(medium, log, {run});
    forall i: nat | Readable(medium, log) && LastSave(log, {run}, i)
      ensures LoadState(medium, log, {run}) == Some(log[i].state)
    {
      LoadedState(medium, log, {run}, i);
    }
  }

  /**
   A new bridge numbers on above every stored event of its run and of the run it resumes, exactly when it can read
   them.
   */
  lemma NumbersOnAbove(medium: Medium, log: seq<Record>, run: string, resumedFrom: string, status: Option<StatusView>)
    ensures var b := Created(medium, log, run, resumedFrom, status);
            (forall e :: Among(e, log, {run, Trim(resumedFrom)}) ==> e.sequence <= b.nextSeq)
            <==> Readable(medium, log) || Later(log, {run, Trim(resumedFrom)}, 0) == []
  {
    var runs := {run, Trim(resumedFrom)};
    NewestIsMaximum(log, runs);
    LaterIsExact(log, runs, 0);
    var later := Later(log, runs, 0);
    if !Readable(medium, log) && later != [] {
      assert later[0] in later;
    }
    if later == [] {
      forall e | Among(e, log, runs) ensures e.sequence <= 0 {
        assert e !in later;
      }
    }
  }

  /**
   What is reported without a bridge: with a status its phase, or Provisioning if it has none and nothing was saved;
   else the phase that was saved last for the run or the one it resumes, and Provisioning if none was.
   */
  lemma ReportedExactly(medium: Medium, log: seq<Record>, run: string, resumedFrom: string, status: Option<StatusView>)
    ensures var (phase, runs) := (Reported(medium, log, run, resumedFrom, status), {run, resumedFrom});
            var none := !Readable(medium, log) || NoSave(log, runs);
            && (status.Some? ==> phase == if status.value.phase.NoPhase? && none then Provisioning
                                          else status.value.phase)
            && (status.None? && none ==> phase == Provisioning)
            && (status.None? ==> forall i: nat :: Readable(medium, log) && LastSave(log, runs, i) ==>
                                   phase == log[i].state.phase)
  {
    LoadStateIsLast(medium, log, {run, resumedFrom});
    forall i: nat | Readable(medium, log) && LastSave(log, {run, resumedFrom}, i)
      ensures LoadState(medium, log, {run, resumedFrom}) == Some(log[i].state)
    {
      LoadedState(medium, log, {run, resumedFrom}, i);
    }
  }

  /** A saved state of a session that is over. */
  predicate Over(saved: Option<State>) { saved.Some? && saved.value.phase.Terminal() }

  /**
   Stop on a run without a bridge and a new bridge for it agree on whether the session is over exactly when the status
   decides, the log cannot be read, or the last state saved for the run and the last one saved for the run or the one
   it resumes say the same.
   */
  lemma StopAgreesExactly(medium: Medium, log: seq<Record>, run: string, resumedFrom: string,
                          status: Option<StatusView>)
    ensures (Reported(medium, log, run, resumedFrom, status).Terminal()
             <==> Created(medium, log, run, resumedFrom, status).phase.Terminal())
            <==> (|| status.Some? || !Readable(medium, log)
                  || (Over(LatestState(log, {run, resumedFrom})) <==> Over(LatestState(log, {run}))))
  {
  }

  /** So they agree on a run that resumes nothing. */
  lemma StopAgreesUnresumed(medium: Medium, log: seq<Record>, run: string, status: Option<StatusView>)
    ensures Reported(medium, log, run, "", status).Terminal()
            <==> Created(medium, log, run, "", status).phase.Terminal()
  {
    SameStates(log, run);
    StopAgreesExactly(medium, log, run, "", status);
  }

  lemma {:induction false} SameStates(log: seq<Record>, run: string)
    ensures LatestState(log, {run, ""}) == LatestState(log, {run})
  {
    if log != [] {
      SameStates(log[..|log| - 1], run);
    }
  }

  /**
   A fresh run resumed from one that ended: without a bridge, Stop answers that the session is over and does nothing,
   although a bridge for the run would start in Provisioning.
   */
  lemma StopSkipsResumedRun(medium: Medium, log: seq<Record>, run: string, resumedFrom: string)
    requires Readable(medium, log) && LatestState(log, {run}).None?
    requires LatestState(log, {resumedFrom}).Some? && LatestState(log, {resumedFrom}).value.phase.Terminal()
    ensures Reported(medium, log, run, resumedFrom, None).Terminal()
    ensures Created(medium, log, run, resumedFrom, None).phase == Provisioning
  {
    OnlyResumedStates(log, run, resumedFrom);
  }

  lemma {:induction false} OnlyResumedStates(log: seq<Record>, run: string, resumedFrom: string)
    requires LatestState(log, {run}).None?
    ensures LatestState(log, {run, resumedFrom}) == LatestState(log, {resumedFrom})
  {
    if log != [] {
      OnlyResumedStates(log[..|log| - 1], run, resumedFrom);
    }
  }
}
