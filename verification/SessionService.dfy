/** The session store and the session bridge as the objects they are. */
module SessionServices {
  import opened Text
  import opened SessionPhases
  import opened SessionStore
  import opened SessionBridge

  class AgentSessionStore {
    const medium: Medium
    var log: seq<Record>

    constructor (medium: Medium)
      ensures this.medium == medium && log == []
    {
      this.medium, log := medium, [];
    }

    method Append(r: Record)
      modifies this
      ensures log == Appended(medium, old(log), r)
    {
      log := log + [r];
      if medium.Memory? && |log| > MAX_MEM {
        log := log[|log| - MAX_MEM..];
      }
    }

    method SaveState(state: State)
      modifies this
      ensures log == Appended(medium, old(log), StateRecord(state.runId, state))
    {
      Append(StateRecord(state.runId, state));
    }

    /** AppendEvent: the payload is sanitised once more on its way to the log. */
    method AppendEvent(runId: string, event: Event)
      modifies this
      ensures log == Appended(medium, old(log), EventRecord(runId, event.(envelope := Sanitize(event.envelope))))
    {
      Append(EventRecord(runId, event.(envelope := Sanitize(event.envelope))));
    }

    method LoadState(runs: set<string>) returns (latest: Option<State>)
      ensures latest == SessionStore.LoadState(medium, log, runs)
      ensures latest.None? <==> !Readable(medium, log) || NoSave(log, runs)
      ensures forall i: nat :: Readable(medium, log) && LastSave(log, runs, i) ==> latest == Some(log[i].state)
    {
      LoadStateIsLast(medium, log, runs);
      var records := Records(medium, log);
      if records.None? {
        return None;
      }
      latest := None;
      for i := 0 to |log|
        invariant latest == LatestState(log[..i], runs)
      {
        assert log[..i + 1][..i] == log[..i];
        if log[i].StateRecord? && Wanted(log[i], runs) {
          latest := Some(log[i].state);
        }
      }
      assert log[..|log|] == log;
    }

    method ListEvents(runs: set<string>, offset: int, limit: int) returns (page: Option<Page>)
      ensures page == if Readable(medium, log) then Some(SessionStore.ListEvents(log, runs, offset, limit)) else None
    {
      var records := Records(medium, log);
      if records.None? {
        return None;
      }
      var size := if limit <= 0 then 100 else limit;
      if size > 500 {
        size := 500;
      }
      var out: seq<Event>, next := [], 0;
      for i := 0 to |log|
        invariant out == FirstOf(Later(log[..i], runs, offset), size) && next == Newest(log[..i], runs)
      {
        assert log[..i + 1][..i] == log[..i];
        var r := log[i];
        if r.StateRecord? || !Wanted(r, runs) {
          continue;
        }
        if r.event.sequence > next {
          next := r.event.sequence;
        }
        if r.event.sequence <= offset {
          continue;
        }
        if |out| < size {
          out := out + [r.event];
        }
      }
      assert log[..|log|] == log;
      return Some(Page(out, next));
    }
  }

  class AgentSessionBridge {
    const runId: string
    var phase: Phase
    var sessionId: string
    var nextSeq: int
    var events: seq<Event>
    var streaming: bool

    ghost function View(): Bridge
      reads this
    {
      Bridge(phase, sessionId, nextSeq, events, streaming)
    }

    /** The part of bridgeFor that creates a bridge: status first, then the saved state, then the stored events. */
    constructor (store: AgentSessionStore, run: string, resumedFrom: string, status: Option<StatusView>)
      ensures runId == run && View() == Created(store.medium, store.log, run, resumedFrom, status)
    {
      runId := run;
      sessionId := if status.Some? then Trim(status.value.sessionId) else "";
      phase := if status.Some? && !status.value.phase.NoPhase? then status.value.phase else Provisioning;
      nextSeq, events, streaming := 0, [], false;
      new;
      var persisted := store.LoadState({run});
      if persisted.Some? {
        if sessionId == "" {
          sessionId := persisted.value.sessionId;
        }
        if status.None? {
          phase := Resolve(phase, persisted.value.phase);
        }
        if persisted.value.lastSequence > nextSeq {
          nextSeq := persisted.value.lastSequence;
        }
      }
      var page := store.ListEvents({run, Trim(resumedFrom)}, 0, 1);
      if page.Some? && page.value.next > nextSeq {
        nextSeq := page.value.next;
      }
      NewestIsMaximum(store.log, {run, Trim(resumedFrom)});
    }

    /** The part of bridgeFor that finds a bridge. */
    method Attach(status: Option<StatusView>)
      modifies this
      ensures View() == Step(old(View()), if status.Some? then AdoptOp(status.value) else AttachOp)
    {
      if status.Some? {
        if Trim(status.value.sessionId) != "" {
          sessionId := Trim(status.value.sessionId);
        }
        phase := status.value.phase;
      }
    }

    method TransitionLocked(next: Phase) returns (moved: bool)
      modifies this`phase
      ensures moved <==> CanTransition(old(phase), next)
      ensures phase == if moved then next else old(phase)
    {
      moved := CanTransition(phase, next);
      if moved {
        phase := next;
      }
    }

    method Snapshot() returns (state: State)
      ensures state == State(runId, sessionId, phase, nextSeq)
    {
      return State(runId, sessionId, phase, nextSeq);
    }

    method AppendEvent(at: Time, payload: Json) returns (event: Event)
      modifies this`nextSeq, this`events
      ensures View() == Step(old(View()), EventOp(at, payload))
      ensures event == events[|events| - 1] && event.sequence == nextSeq
    {
      nextSeq := nextSeq + 1;
      event := Event(nextSeq, at, Sanitize(payload));
      events := events + [event];
    }

    /** EnsureSession before its first request. */
    method EnterProvisioning()
      modifies this`phase
      ensures View() == Step(old(View()), EnsureOp)
    {
      var moved := TransitionLocked(Provisioning);
      if !moved {
        phase := Resolve(phase, Provisioning);
      }
    }

    /** EnsureSession once the agent has answered with a session. */
    method BecomeReady(session: string)
      modifies this`phase, this`sessionId
      ensures View() == Step(old(View()), ReadyOp(session))
    {
      sessionId := Trim(session);
      var _ := TransitionLocked(Ready);
    }

    /** EnsureSession or Prompt after a request that failed. */
    method Fail()
      modifies this`phase
      ensures View() == Step(old(View()), FailOp)
    {
      var _ := TransitionLocked(Failed);
    }

    /** ensureStreaming: at most one stream at a time. */
    method BeginStreaming() returns (started: bool)
      modifies this`streaming
      ensures started <==> !old(streaming)
      ensures View() == Step(old(View()), StreamOp)
    {
      started := !streaming;
      streaming := true;
    }

    method StreamRefused()
      modifies this`phase, this`streaming
      ensures View() == Step(old(View()), StreamRefusedOp)
    {
      var _ := TransitionLocked(Failed);
      streaming := false;
    }

    /** The end of consumeSSE. */
    method EndStreaming(failed: bool)
      modifies this`phase, this`streaming
      ensures View() == Step(old(View()), StreamEndOp(failed))
    {
      streaming := false;
      match phase {
        case Stopping =>
        case Completed =>
          var _ := TransitionLocked(Completed);
        case _ =>
          if failed {
            var _ := TransitionLocked(Failed);
          } else {
            var _ := TransitionLocked(Completed);
          }
      }
    }

    /** Prompt before it sends. */
    method BeginPrompt()
      modifies this`phase
      ensures View() == Step(old(View()), PromptOp)
    {
      var _ := TransitionLocked(Running);
    }

    /** Stop, up to the point where it lets go of the stream. */
    method BeginStop() returns (over: bool)
      modifies this`phase
      ensures View() == Step(old(View()), StopOp)
      ensures over <==> old(phase).Terminal()
    {
      if phase.Terminal() {
        return true;
      }
      var _ := TransitionLocked(Stopping);
      return false;
    }

    /** Stop after its DELETE. */
    method FinishStop(failed: bool)
      modifies this`phase
      ensures View() == Step(old(View()), if failed then StopFailOp else StopDoneOp)
    {
      if failed {
        var _ := TransitionLocked(Failed);
      } else {
        var _ := TransitionLocked(Completed);
      }
    }
  }
}
