/**
 Expiry as it interleaves with other calls: memory changes under the lock, the batch of records is written after it
 has been released, one record after the other, and any number of calls and other records may come in between.
 */
module OrchestrationInterleaving {
  import opened Text
  import opened Orchestration
  import opened OrchestrationLaws
  import opened OrchestrationRuns
  import opened OrchestrationExpiry

  // One batch.

  ghost predicate DistinctBatch(b: Batch) {
    && (forall i, j :: 0 <= i < j < |b.agents| ==> b.agents[i].id != b.agents[j].id)
    && (forall i, j :: 0 <= i < j < |b.tasks| ==> b.tasks[i].id != b.tasks[j].id)
  }

  function Both(a: Ids, b: Ids): Ids { Ids(a.agents + b.agents, a.tasks + b.tasks) }

  lemma {:induction false} OverlayTasksAt(m: map<string, Task>, s: seq<Task>)
    requires forall i, j :: 0 <= i < j < |s| ==> s[i].id != s[j].id
    ensures forall i :: 0 <= i < |s| ==> s[i].id in OverlayTasks(m, s) && OverlayTasks(m, s)[s[i].id] == s[i]
    ensures forall id :: id in OverlayTasks(m, s) && id !in TaskIds(s) ==> id in m && OverlayTasks(m, s)[id] == m[id]
    ensures m.Keys <= OverlayTasks(m, s).Keys
  {
    if s != [] {
      var init := s[..|s| - 1];
      OverlayTasksAt(m, init);
      assert forall i :: 0 <= i < |init| ==> init[i] == s[i];
    }
  }

  lemma {:induction false} OverlayAgentsAt(m: map<string, Agent>, s: seq<Agent>)
    requires forall i, j :: 0 <= i < j < |s| ==> s[i].id != s[j].id
    ensures forall i :: 0 <= i < |s| ==> s[i].id in OverlayAgents(m, s) && OverlayAgents(m, s)[s[i].id] == s[i]
    ensures forall id :: id in OverlayAgents(m, s) && id !in AgentIds(s) ==> id in m && OverlayAgents(m, s)[id] == m[id]
    ensures m.Keys <= OverlayAgents(m, s).Keys
  {
    if s != [] {
      var init := s[..|s| - 1];
      OverlayAgentsAt(m, init);
      assert forall i :: 0 <= i < |init| ==> init[i] == s[i];
    }
  }

  /** The record t still says what memory says. */
  predicate TaskCurrent(m: map<string, Task>, red: Redactor, t: Task) {
    t.id in m && SanitizeTask(red, m[t.id]) == SanitizeTask(red, t)
  }

  predicate AgentCurrent(m: map<string, Agent>, a: Agent) { a.id in m && SanitizeAgent(m[a.id]) == SanitizeAgent(a) }

  /** No record of the batch, but for those about off, has been overtaken by memory. */
  ghost predicate Current(m: Mem, red: Redactor, b: Batch, off: Ids) {
    && (forall i :: 0 <= i < |b.tasks| && b.tasks[i].id !in off.tasks ==> TaskCurrent(m.tasks, red, b.tasks[i]))
    && (forall i :: 0 <= i < |b.agents| && b.agents[i].id !in off.agents ==> AgentCurrent(m.agents, b.agents[i]))
  }

  /** A log that agrees with the overlaid tasks agrees with the tasks exactly when the overlay says nothing new. */
  lemma TasksOverlaid(l: map<string, Task>, red: Redactor, m: map<string, Task>, off: set<string>, s: seq<Task>)
    requires TasksAgree(l, red, false, OverlayTasks(m, s), off)
    requires forall i, j :: 0 <= i < j < |s| ==> s[i].id != s[j].id
    ensures TasksAgree(l, red, false, m, off)
            <==> forall i :: 0 <= i < |s| && s[i].id !in off ==> TaskCurrent(m, red, s[i])
  {
    OverlayTasksAt(m, s);
    if TasksAgree(l, red, false, m, off) {
      forall i | 0 <= i < |s| && s[i].id !in off ensures TaskCurrent(m, red, s[i]) {
        assert TaskAgrees(l, red, false, m, s[i].id) && TaskAgrees(l, red, false, OverlayTasks(m, s), s[i].id);
      }
    }
    if forall i :: 0 <= i < |s| && s[i].id !in off ==> TaskCurrent(m, red, s[i]) {
      forall id | id !in off ensures TaskAgrees(l, red, false, m, id) {
        assert TaskAgrees(l, red, false, OverlayTasks(m, s), id);
        if i :| 0 <= i < |s| && s[i].id == id {
          assert TaskCurrent(m, red, s[i]);
        }
      }
    }
  }

  lemma AgentsOverlaid(l: map<string, Agent>, m: map<string, Agent>, off: set<string>, s: seq<Agent>)
    requires AgentsAgree(l, false, OverlayAgents(m, s), off)
    requires forall i, j :: 0 <= i < j < |s| ==> s[i].id != s[j].id
    ensures AgentsAgree(l, false, m, off) <==> forall i :: 0 <= i < |s| && s[i].id !in off ==> AgentCurrent(m, s[i])
  {
    OverlayAgentsAt(m, s);
    if AgentsAgree(l, false, m, off) {
      forall i | 0 <= i < |s| && s[i].id !in off ensures AgentCurrent(m, s[i]) {
        assert AgentAgrees(l, false, m, s[i].id) && AgentAgrees(l, false, OverlayAgents(m, s), s[i].id);
      }
    }
    if forall i :: 0 <= i < |s| && s[i].id !in off ==> AgentCurrent(m, s[i]) {
      forall id | id !in off ensures AgentAgrees(l, false, m, id) {
        assert AgentAgrees(l, false, OverlayAgents(m, s), id);
        if i :| 0 <= i < |s| && s[i].id == id {
          assert AgentCurrent(m, s[i]);
        }
      }
    }
  }

  /**
   A batch written late: if the log is out of date at most about what the batch records and about off, then writing the
   batch leaves it out of date at most about off exactly when memory has not overtaken a record of the batch elsewhere.
   */
  lemma LateBatchExact(s: Svc, red: Redactor, b: Batch, off: Ids)
    requires Agrees(s, red, false, Both(off, IdsOf(b))) && Named(b) && DistinctBatch(b)
    ensures Agrees(Svc(s.mem, Persist(s.log, red, b)), red, false, off) <==> Current(s.mem, red, b, off)
  {
    var written, over := Persist(s.log, red, b), Overlaid(s.mem, b);
    var all := Both(off, IdsOf(b));
    PersistAgrees(s, red, false, all, b);
    AgreesOffMore(Svc(over, written), red, false, Ids(all.agents - IdsOf(b).agents, all.tasks - IdsOf(b).tasks), off);
    TasksOverlaid(Load(written).tasks, red, s.mem.tasks, off.tasks, b.tasks);
    AgentsOverlaid(Load(written).agents, s.mem.agents, off.agents, b.agents);
  }

  /**
   The interleaving that the unlock before persistBatch allows: a retry between the two leaves the task assigned
   in memory and timed out in the log.
   */
  lemma LateBatchHidesRetry(s: Svc, red: Redactor, id: string, now: Time, later: Time)
    requires Inv(s.mem) && id in s.mem.tasks && Expires(s.mem.tasks[id], now)
    ensures var (m, b) := ExpireTaskLocked(s.mem, id, now);
            var (retried, r) := RetryTask(Svc(m, s.log), red, id, later);
            && r.Ok? && retried.mem.tasks[id].state.Assigned?
            && id in Load(Persist(retried.log, red, b)).tasks
            && Load(Persist(retried.log, red, b)).tasks[id].state.TimedOut?
  {
    ActivePair(s.mem, id);
    var t := TimeOut(s.mem.tasks[id], now);
    var a := Release(s.mem.agents[t.agentId], now);
    var (m, b) := ExpireTaskLocked(s.mem, id, now);
    assert b == Batch([t], [a]) && m.tasks[id] == t && m.agents[t.agentId] == a;
    RetriedAfterExpiry(Svc(m, s.log), red, id, later);
    LateRecordWins(RetryTask(Svc(m, s.log), red, id, later).0.log, red, t, a);
  }

  lemma RetriedAfterExpiry(s: Svc, red: Redactor, id: string, later: Time)
    requires IdOk(id) && id in s.mem.tasks && s.mem.tasks[id].id == id && s.mem.tasks[id].state.TimedOut?
    requires s.mem.tasks[id].agentId in s.mem.agents && s.mem.agents[s.mem.tasks[id].agentId].currentTaskId == ""
    ensures var (retried, r) := RetryTask(s, red, id, later);
            r.Ok? && id in retried.mem.tasks && retried.mem.tasks[id].state.Assigned?
  {
    assert Trim("") == "";
  }

  lemma LateRecordWins(log: seq<Record>, red: Redactor, t: Task, a: Agent)
    requires t.id != ""
    ensures t.id in Load(Persist(log, red, Batch([t], [a]))).tasks
    ensures Load(Persist(log, red, Batch([t], [a]))).tasks[t.id] == SanitizeTask(red, t)
  {
    var before, r := log + AgentRecords(red, [a]), SanitizeRecord(red, TaskRecord(t));
    assert Persist(log, red, Batch([t], [a])) == before + [r];
    LoadSnoc(before, r);
  }

  // Any number of batches.

  /** The service, and what is still to be written of each batch whose change is in memory. */
  datatype Shop = Shop(svc: Svc, pending: seq<Batch>)

  datatype Move =
    | Do(op: Op)
    | ExpireAll(order: seq<string>, now: Time)
    | ExpireOne(taskId: string, now: Time)
    | Write(i: nat)

  /** Any call but a restart, an expiry under the lock, or the writing of the next record of some pending batch. */
  ghost predicate Allowed(x: Shop, move: Move) {
    match move
    case Do(op) => Possible(x.svc, op) && !op.RestartOp?
    case Write(i) => i < |x.pending|
    case _ => true
  }

  /** The record that persistBatch writes next, agents before tasks, as a batch of its own. */
  function Head(b: Batch): Batch {
    if b.agents != [] then Batch([], [b.agents[0]]) else if b.tasks != [] then Batch([b.tasks[0]], []) else b
  }

  function Rest(b: Batch): Batch {
    if b.agents != [] then b.(agents := b.agents[1..]) else if b.tasks != [] then b.(tasks := b.tasks[1..]) else b
  }

  /** Record by record, a batch is written as persistBatch writes it. */
  lemma PersistByRecord(log: seq<Record>, red: Redactor, b: Batch)
    ensures Persist(Persist(log, red, Head(b)), red, Rest(b)) == Persist(log, red, b)
  {
    if b.agents != [] {
      assert AgentRecords(red, b.agents) == AgentRecords(red, [b.agents[0]]) + AgentRecords(red, b.agents[1..]);
    } else if b.tasks != [] {
      assert TaskRecords(red, b.tasks) == TaskRecords(red, [b.tasks[0]]) + TaskRecords(red, b.tasks[1..]);
    }
  }

  ghost function Moved(x: Shop, move: Move, red: Redactor, size: Record -> nat): Shop
    requires Allowed(x, move)
  {
    match move
    case Do(op) => x.(svc := Step(x.svc, op, red, size))
    case ExpireAll(order, now) =>
      var (m, b) := ExpireTasksLocked(x.svc.mem, order, now);
      Shop(x.svc.(mem := m), x.pending + [b])
    case ExpireOne(taskId, now) =>
      var (m, b) := ExpireTaskLocked(x.svc.mem, taskId, now);
      Shop(x.svc.(mem := m), x.pending + [b])
    case Write(i) =>
      Shop(x.svc.(log := Persist(x.svc.log, red, Head(x.pending[i]))), x.pending[i := Rest(x.pending[i])])
  }

  ghost predicate Interleaved(xs: seq<Shop>, moves: seq<Move>, red: Redactor, size: Record -> nat) {
    && |xs| == |moves| + 1
    && xs[0] == Shop(Svc(NO_MEM, []), [])
    && forall i :: 0 <= i < |moves| ==> Allowed(xs[i], moves[i]) && xs[i + 1] == Moved(xs[i], moves[i], red, size)
  }

  function PendingIds(pending: seq<Batch>): Ids {
    if pending == [] then NO_IDS else Both(IdsOf(pending[0]), PendingIds(pending[1..]))
  }

  /** The move writes no record that memory has overtaken, but for what pending batches will still record. */
  ghost predicate Harmless(x: Shop, move: Move, red: Redactor) {
    move.Write? && move.i < |x.pending| ==>
      var b := x.pending[move.i];
      Current(x.svc.mem, red, Head(b), PendingIds(x.pending[move.i := Rest(b)]))
  }

  ghost predicate AllNamed(pending: seq<Batch>) {
    forall i :: 0 <= i < |pending| ==> Named(pending[i]) && DistinctBatch(pending[i])
  }

  ghost predicate Sound(x: Shop, red: Redactor) {
    && Inv(x.svc.mem)
    && Agrees(x.svc, red, false, PendingIds(x.pending))
    && AllNamed(x.pending)
  }

  lemma {:induction false} PendingIdsConcat(p: seq<Batch>, q: seq<Batch>)
    ensures PendingIds(p + q) == Both(PendingIds(p), PendingIds(q))
  {
    if p == [] {
      assert p + q == q;
    } else {
      assert (p + q)[1..] == p[1..] + q && (p + q)[0] == p[0];
      PendingIdsConcat(p[1..], q);
    }
  }

  lemma PendingIdsOne(b: Batch)
    ensures PendingIds([b]) == IdsOf(b)
  {
    assert [b][1..] == [];
  }

  lemma BothSwaps(a: Ids, b: Ids, c: Ids)
    ensures Both(a, Both(b, c)) == Both(Both(a, c), b)
  {
  }

  lemma PendingIdsAround(pending: seq<Batch>, i: nat)
    requires i < |pending|
    ensures PendingIds(pending) == Both(Both(PendingIds(pending[..i]), PendingIds(pending[i + 1..])), IdsOf(pending[i]))
  {
    var init, one, tail := pending[..i], [pending[i]], pending[i + 1..];
    assert pending == init + (one + tail);
    PendingIdsConcat(init, one + tail);
    PendingIdsConcat(one, tail);
    PendingIdsOne(pending[i]);
    BothSwaps(PendingIds(init), PendingIds(one), PendingIds(tail));
  }

  lemma HeadAndRest(off: Ids, b: Batch)
    ensures Both(off, IdsOf(b)) == Both(Both(off, IdsOf(Rest(b))), IdsOf(Head(b)))
  {
    if b.agents != [] {
      assert b.agents == [b.agents[0]] + b.agents[1..];
    } else if b.tasks != [] {
      assert b.tasks == [b.tasks[0]] + b.tasks[1..];
    }
  }

  /** Before a record is written, what is pending is the record and what is pending afterwards. */
  lemma PendingIdsNext(pending: seq<Batch>, i: nat)
    requires i < |pending|
    ensures PendingIds(pending) == Both(PendingIds(pending[i := Rest(pending[i])]), IdsOf(Head(pending[i])))
  {
    var after := pending[i := Rest(pending[i])];
    PendingIdsAround(pending, i);
    PendingIdsAround(after, i);
    assert after[..i] == pending[..i] && after[i + 1..] == pending[i + 1..];
    HeadAndRest(Both(PendingIds(pending[..i]), PendingIds(pending[i + 1..])), pending[i]);
  }

  /** Memory changed by a batch that is not written yet: the log is out of date about the batch at most. */
  lemma OverlaidAgrees(s: Svc, red: Redactor, off: Ids, b: Batch)
    requires Agrees(s, red, false, off) && DistinctBatch(b)
    ensures Agrees(Svc(Overlaid(s.mem, b), s.log), red, false, Both(off, IdsOf(b)))
  {
    var l, over := Load(s.log), Overlaid(s.mem, b);
    OverlayTasksAt(s.mem.tasks, b.tasks);
    OverlayAgentsAt(s.mem.agents, b.agents);
    forall id | id !in off.tasks + TaskIds(b.tasks) ensures TaskAgrees(l.tasks, red, false, over.tasks, id) {
      assert TaskAgrees(l.tasks, red, false, s.mem.tasks, id);
      assert forall i :: 0 <= i < |b.tasks| ==> b.tasks[i].id in TaskIds(b.tasks);
    }
    forall id | id !in off.agents + AgentIds(b.agents) ensures AgentAgrees(l.agents, false, over.agents, id) {
      assert AgentAgrees(l.agents, false, s.mem.agents, id);
      assert forall i :: 0 <= i < |b.agents| ==> b.agents[i].id in AgentIds(b.agents);
    }
  }

  // The batch of one expiry records nothing twice.

  ghost predicate Released(m: Mem, b: Batch) {
    && DistinctBatch(b)
    && (forall i :: 0 <= i < |b.tasks| ==> b.tasks[i].id in m.tasks && !m.tasks[b.tasks[i].id].state.Active())
    && (forall i :: 0 <= i < |b.agents| ==> b.agents[i].id in m.agents && m.agents[b.agents[i].id].currentTaskId == "")
  }

  lemma ReleasedByOne(m: Mem, b: Batch, id: string, now: Time)
    requires Inv(m) && Released(m, b)
    ensures var (n, c) := ExpireTaskLocked(m, id, now); Released(n, Batch(b.tasks + c.tasks, b.agents + c.agents))
  {
    var key := Trim(id);
    if key in m.tasks && Expires(m.tasks[key], now) {
      ActivePair(m, key);
      var t := TimeOut(m.tasks[key], now);
      var a := Release(m.agents[t.agentId], now);
      assert ExpireTaskLocked(m, id, now) == (Ended(m, key, t, now), Batch([t], [a]));
      ReleasedMore(m, b, t, a, now);
    } else {
      assert b.tasks + [] == b.tasks && b.agents + [] == b.agents;
    }
  }

  lemma ReleasedMore(m: Mem, b: Batch, t: Task, a: Agent, now: Time)
    requires Released(m, b) && t.id in m.tasks && m.tasks[t.id].state.Active() && !t.state.Active()
    requires a.id in m.agents && m.agents[a.id].currentTaskId != "" && a == Release(m.agents[a.id], now)
    requires t.agentId == a.id
    ensures Released(Ended(m, t.id, t, now), Batch(b.tasks + [t], b.agents + [a]))
  {
  }

  lemma {:induction false} ReleasedByAll(m: Mem, order: seq<string>, now: Time)
    requires Inv(m)
    ensures var (n, b) := ExpireTasksLocked(m, order, now); Released(n, b)
  {
    if order != [] {
      var init := order[..|order| - 1];
      ReleasedByAll(m, init, now);
      ExpireTasksKeeps(m, init, now);
      var (m0, b0) := ExpireTasksLocked(m, init, now);
      ReleasedByOne(m0, b0, order[|order| - 1], now);
    }
  }

  lemma DoKeepsSound(x: Shop, op: Op, red: Redactor, size: Record -> nat)
    requires Sound(x, red) && Possible(x.svc, op) && !op.RestartOp?
    ensures Sound(Moved(x, Do(op), red, size), red)
  {
    StepKeeps(x.svc, op, red, size);
    StepAgrees(x.svc, op, red, false, PendingIds(x.pending), size);
  }

  lemma ExpiryKeepsSound(x: Shop, b: Batch, red: Redactor)
    requires Sound(x, red) && Named(b) && DistinctBatch(b) && Inv(Overlaid(x.svc.mem, b))
    ensures Sound(Shop(Svc(Overlaid(x.svc.mem, b), x.svc.log), x.pending + [b]), red)
  {
    PendingIdsConcat(x.pending, [b]);
    PendingIdsOne(b);
    OverlaidAgrees(x.svc, red, PendingIds(x.pending), b);
  }

  lemma WriteKeepsSound(x: Shop, i: nat, red: Redactor, size: Record -> nat)
    requires Sound(x, red) && i < |x.pending|
    ensures Sound(Moved(x, Write(i), red, size), red) <==> Harmless(x, Write(i), red)
  {
    var b := x.pending[i];
    var after := x.pending[i := Rest(b)];
    PendingIdsNext(x.pending, i);
    StillNamed(x.pending, i);
    LateBatchExact(x.svc, red, Head(b), PendingIds(after));
    assert Moved(x, Write(i), red, size) == Shop(Svc(x.svc.mem, Persist(x.svc.log, red, Head(b))), after);
  }

  lemma StillNamed(pending: seq<Batch>, i: nat)
    requires i < |pending| && AllNamed(pending)
    ensures AllNamed(pending[i := Rest(pending[i])]) && Named(Head(pending[i])) && DistinctBatch(Head(pending[i]))
  {
    PartsNamed(pending[i]);
  }

  lemma PartsNamed(b: Batch)
    requires Named(b) && DistinctBatch(b)
    ensures Named(Head(b)) && DistinctBatch(Head(b)) && Named(Rest(b)) && DistinctBatch(Rest(b))
  {
  }

  /** No record of a batch that is written at once has been overtaken, whatever else is pending. */
  lemma WrittenAtOnceIsHarmless(m: Mem, red: Redactor, order: seq<string>, now: Time, off: Ids)
    requires Inv(m)
    ensures var (n, b) := ExpireTasksLocked(m, order, now); Current(n, red, b, off)
  {
    var b := ExpireTasksLocked(m, order, now).1;
    ExpiryIsOverlay(m, order, now);
    ReleasedByAll(m, order, now);
    OverlayTasksAt(m.tasks, b.tasks);
    OverlayAgentsAt(m.agents, b.agents);
  }

  /** And so none is when the batch is written record by record while memory stays. */
  lemma CurrentByRecord(m: Mem, red: Redactor, b: Batch, off: Ids)
    ensures Current(m, red, b, off) <==> Current(m, red, Head(b), off) && Current(m, red, Rest(b), off)
  {
    if b.agents != [] {
      assert b.agents == [b.agents[0]] + b.agents[1..];
    } else if b.tasks != [] {
      assert b.tasks == [b.tasks[0]] + b.tasks[1..];
    }
  }

  lemma MoveKeepsSound(x: Shop, move: Move, red: Redactor, size: Record -> nat)
    requires Sound(x, red) && Allowed(x, move) && Harmless(x, move, red)
    ensures Sound(Moved(x, move, red, size), red)
  {
    match move
    case Do(op) => DoKeepsSound(x, op, red, size);
    case ExpireAll(order, now) =>
      ExpiryIsOverlay(x.svc.mem, order, now);
      ExpireTasksKeeps(x.svc.mem, order, now);
      ReleasedByAll(x.svc.mem, order, now);
      ExpiryKeepsSound(x, ExpireTasksLocked(x.svc.mem, order, now).1, red);
    case ExpireOne(taskId, now) =>
      ExpireOneIsOverlay(x.svc.mem, taskId, now);
      ExpireTaskKeeps(x.svc.mem, taskId, now);
      ReleasedByOne(x.svc.mem, Batch([], []), taskId, now);
      var b := ExpireTaskLocked(x.svc.mem, taskId, now).1;
      assert [] + b.tasks == b.tasks && [] + b.agents == b.agents;
      ExpiryKeepsSound(x, b, red);
    case Write(i) => WriteKeepsSound(x, i, red, size);
  }

  lemma {:induction false} SoundAlong(xs: seq<Shop>, moves: seq<Move>, red: Redactor, size: Record -> nat, n: nat)
    requires Interleaved(xs, moves, red, size) && n <= |moves|
    requires forall k :: 0 <= k < n ==> Harmless(xs[k], moves[k], red)
    ensures Sound(xs[n], red)
    decreases n
  {
    if n == 0 {
      MirrorsAgreesEverywhere(xs[0].svc, red);
    } else {
      SoundAlong(xs, moves, red, size, n - 1);
      assert xs[n - 1 + 1] == Moved(xs[n - 1], moves[n - 1], red, size);
      MoveKeepsSound(xs[n - 1], moves[n - 1], red, size);
    }
  }

  predicate AllWritten(pending: seq<Batch>) {
    forall i :: 0 <= i < |pending| ==> pending[i].agents == [] && pending[i].tasks == []
  }

  /**
   The log over any interleaving, record by record: as long as no record that was written had been overtaken, the log
   is out of date at most about what is still to be written, so it mirrors memory whenever all is written; and the next
   record keeps that up exactly when memory has not overtaken it.
   */
  lemma LogFollowsInterleaving(xs: seq<Shop>, moves: seq<Move>, red: Redactor, size: Record -> nat, n: nat)
    requires Interleaved(xs, moves, red, size) && n <= |moves|
    requires forall k :: 0 <= k < n ==> Harmless(xs[k], moves[k], red)
    ensures Sound(xs[n], red)
    ensures AllWritten(xs[n].pending) ==> Mirrors(xs[n].svc, red)
    ensures n < |moves| && moves[n].Write? ==> (Sound(xs[n + 1], red) <==> Harmless(xs[n], moves[n], red))
  {
    SoundAlong(xs, moves, red, size, n);
    if AllWritten(xs[n].pending) {
      NothingPending(xs[n], red);
    }
    if n < |moves| && moves[n].Write? {
      NextWrite(xs, moves, red, size, n);
    }
  }

  lemma {:induction false} NoIdsPending(pending: seq<Batch>)
    requires AllWritten(pending)
    ensures PendingIds(pending) == NO_IDS
  {
    if pending != [] {
      NoIdsPending(pending[1..]);
    }
  }

  lemma NothingPending(x: Shop, red: Redactor)
    requires Sound(x, red) && AllWritten(x.pending)
    ensures Mirrors(x.svc, red)
  {
    NoIdsPending(x.pending);
    MirrorsAgreesEverywhere(x.svc, red);
  }

  lemma NextWrite(xs: seq<Shop>, moves: seq<Move>, red: Redactor, size: Record -> nat, n: nat)
    requires Interleaved(xs, moves, red, size) && n < |moves| && moves[n].Write? && Sound(xs[n], red)
    ensures Sound(xs[n + 1], red) <==> Harmless(xs[n], moves[n], red)
  {
    assert xs[n + 1] == Moved(xs[n], moves[n], red, size);
    WriteKeepsSound(xs[n], moves[n].i, red, size);
  }

  // A record of a batch among the records of one call.

  /** Records that load to the same place, so that the later one wins. */
  predicate SamePlaced(r: Record, x: Record) {
    match r
    case PoolRecord(p) => x.PoolRecord? && x.pool.id == p.id
    case AgentRecord(a) => x.AgentRecord? && x.agent.id == a.id
    case TaskRecord(t) => x.TaskRecord? && x.task.id == t.id
  }

  ghost predicate Touches(q: seq<Record>, x: Record) { exists i :: 0 <= i < |q| && SamePlaced(q[i], x) }

  lemma PutsSwap<T>(m: map<string, T>, i: string, v: T, j: string, w: T)
    ensures m[j := w][i := v] == if i == j then m[i := v] else m[i := v][j := w]
  {
  }

  lemma ReplaySwaps(m: Mem, r: Record, x: Record)
    ensures SamePlaced(r, x) ==> Replay(Replay(m, x), r) == Replay(m, r)
    ensures !SamePlaced(r, x) ==> Replay(Replay(m, x), r) == Replay(Replay(m, r), x)
  {
    match (r, x)
    case (PoolRecord(p), PoolRecord(q)) => PutsSwap(m.pools, p.id, p, q.id, q);
    case (AgentRecord(a), AgentRecord(b)) => PutsSwap(m.agents, a.id, a, b.id, b);
    case (TaskRecord(t), TaskRecord(u)) => PutsSwap(m.tasks, t.id, t, u.id, u);
    case _ =>
  }

  lemma TouchesInit(q: seq<Record>, x: Record)
    requires q != []
    ensures Touches(q, x) <==> Touches(q[..|q| - 1], x) || SamePlaced(q[|q| - 1], x)
  {
  }

  lemma {:induction false} RecordBeforeCall(log: seq<Record>, x: Record, q: seq<Record>)
    ensures Load(log + [x] + q) == if Touches(q, x) then Load(log + q) else Load(log + q + [x])
  {
    if q == [] {
      assert log + [x] + q == log + q + [x];
    } else {
      var init, last := q[..|q| - 1], q[|q| - 1];
      RecordBeforeCall(log, x, init);
      TouchesInit(q, x);
      assert log + [x] + q == log + [x] + init + [last] && log + q == log + init + [last];
      LoadSnoc(log + [x] + init, last);
      LoadSnoc(log + init, last);
      LoadSnoc(log + init, x);
      LoadSnoc(log + q, x);
      ReplaySwaps(Load(log + init), last, x);
    }
  }

  /**
   A record of a batch may fall between the records p and q that one call writes under the lock. The log then loads as
   if it had fallen in front of the call, when a later record of the call takes its place, and else behind the call.
   */
  lemma AnyCutIsBetweenCalls(log: seq<Record>, p: seq<Record>, x: Record, q: seq<Record>)
    ensures Load(log + p + [x] + q) == if Touches(q, x) then Load(log + [x] + p + q) else Load(log + p + q + [x])
  {
    RecordBeforeCall(log + p, x, q);
    if Touches(q, x) {
      RecordBeforeCall(log, x, p + q);
      var i :| 0 <= i < |q| && SamePlaced(q[i], x);
      assert (p + q)[|p| + i] == q[i] && Touches(p + q, x);
      assert log + [x] + (p + q) == log + [x] + p + q && log + (p + q) == log + p + q;
    }
  }
}
