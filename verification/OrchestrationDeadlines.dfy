/** From when a task's timeout counts, told by its state and its stamps. */
module OrchestrationDeadlines {
  import opened Text
  import opened Orchestration
  import opened OrchestrationLaws
  import opened OrchestrationRuns
  import opened OrchestrationExpiry
  import opened OrchestrationDiagram

  /** A running task has had its timeout since it was started, one that waits to be started since it was assigned. */
  predicate TimeIsUp(t: Task, now: Time) {
    && t.timeoutSeconds > 0
    && ((t.state.Running? && t.startedAt.Some? && now >= t.startedAt.value + t.timeoutSeconds)
        || (t.state.Assigned? && t.assignedAt.Some? && now >= t.assignedAt.value + t.timeoutSeconds))
  }

  /** What a walk over all tasks at that time makes of one of them. */
  predicate TimedOutAfter(t: Task, u: Task, now: Time) {
    if TimeIsUp(t, now) then u.state.TimedOut? && u.completedAt == Some(now) && u.lastTransitionAt == now else u == t
  }

  /** The order lists all tasks and nothing else. */
  ghost predicate Covers(order: seq<string>, m: Mem) { forall id :: id in order <==> id in m.tasks }

  lemma ExpiredAt(tasks: map<string, Task>, ids: set<string>, now: Time, id: string)
    requires id in tasks && id in ids
    ensures var t := tasks[id]; ExpiredTasks(tasks, ids, now)[id] == if Expires(t, now) then TimeOut(t, now) else t
  {
  }

  lemma Walked(m: Mem, order: seq<string>, now: Time, id: string)
    requires Inv(m) && Covers(order, m) && id in m.tasks
    ensures var (after, t) := (ExpireTasksLocked(m, order, now).0, m.tasks[id]);
            id in after.tasks && after.tasks[id] == if Expires(t, now) then TimeOut(t, now) else t
  {
    ExpiryExact(m, order, now);
    ExpiredAt(m.tasks, SetOf(order), now, id);
  }

  lemma ExpiresExactly(t: Task, now: Time)
    requires StampsFit(t)
    ensures TimedOutAfter(t, if Expires(t, now) then TimeOut(t, now) else t, now)
  {
  }

  lemma WalkTimesOut(m: Mem, order: seq<string>, now: Time, id: string)
    requires Inv(m) && Covers(order, m) && id in m.tasks && StampsFit(m.tasks[id])
    ensures var after := ExpireTasksLocked(m, order, now).0;
            id in after.tasks && TimedOutAfter(m.tasks[id], after.tasks[id], now)
  {
    Walked(m, order, now, id);
    ExpiresExactly(m.tasks[id], now);
  }

  /** When each call read the clock; a restart does not read it. */
  function Times(ops: seq<Op>): (times: seq<Time>)
    ensures Clocked(ops, times)
  {
    seq(|ops| + 1, k requires 0 <= k <= |ops| => if k > 0 && !ops[k - 1].RestartOp? then ops[k - 1].now else 0)
  }

  /**
   In every state of every run, restarts included: a walk over the tasks, in whatever order, times out exactly the
   running tasks whose timeout has passed since they were started and the assigned ones whose timeout has passed since
   they were assigned. A task without a timeout never times out, and every other task stays as it is.
   */
  lemma TimeoutCountsFrom(ss: seq<Svc>, ops: seq<Op>, red: Redactor, size: Record -> nat, n: nat, order: seq<string>,
                          now: Time, id: string)
    requires Run(ss, ops, red, size) && n <= |ops| && Covers(order, ss[n].mem) && id in ss[n].mem.tasks
    ensures var after := ExpireTasksLocked(ss[n].mem, order, now).0;
            id in after.tasks && TimedOutAfter(ss[n].mem.tasks[id], after.tasks[id], now)
  {
    ReplayRefinesMemory(ss, ops, red, size, n);
    TasksStayLegal(ss, ops, Times(ops), red, size, n);
    WalkTimesOut(ss[n].mem, order, now, id);
  }

  // A call that gives a task its time again.

  /** The task has just been given its time: it runs, or waits to be started, since at. */
  predicate GivenTime(t: Task, at: Time) {
    || (t.state.Running? && t.startedAt == Some(at))
    || (t.state.Assigned? && t.startedAt.None? && t.assignedAt == Some(at))
  }

  /** A walk at now times the task out exactly when its whole timeout has passed since at. */
  ghost predicate TimesOutFrom(m: Mem, id: string, at: Time, order: seq<string>, now: Time)
    requires id in m.tasks
  {
    var (after, timeout) := (ExpireTasksLocked(m, order, now).0, m.tasks[id].timeoutSeconds);
    id in after.tasks && (after.tasks[id].state.TimedOut? <==> timeout > 0 && now >= at + timeout)
  }

  ghost predicate WholeTimeout(m: Mem, id: string, at: Time) {
    id in m.tasks && forall order, now :: Covers(order, m) ==> TimesOutFrom(m, id, at, order, now)
  }

  lemma GivenTimeExpires(t: Task, at: Time, now: Time)
    requires GivenTime(t, at)
    ensures Expires(t, now) <==> t.timeoutSeconds > 0 && now >= at + t.timeoutSeconds
  {
  }

  lemma WholeTimeoutFrom(m: Mem, id: string, at: Time)
    requires Inv(m) && id in m.tasks && GivenTime(m.tasks[id], at)
    ensures WholeTimeout(m, id, at)
  {
    forall order, now | Covers(order, m) ensures TimesOutFrom(m, id, at, order, now) {
      Walked(m, order, now, id);
      GivenTimeExpires(m.tasks[id], at, now);
    }
  }

  lemma DispatchGivesWholeTimeout(s: Svc, red: Redactor, requestedBy: string, req: TaskRequest, id: string,
                                  ids: seq<string>, at: Time)
    requires Inv(s.mem) && IdOk(id) && id !in s.mem.tasks && |ids| == |req.inputs|
    ensures var (s', r) := DispatchTask(s, red, requestedBy, req, id, ids, at);
            r.Ok? ==> r.value.id == id && WholeTimeout(s'.mem, id, at)
  {
    var (s', r) := DispatchTask(s, red, requestedBy, req, id, ids, at);
    if r.Ok? {
      DispatchTaskKeeps(s, red, requestedBy, req, id, ids, at);
      WholeTimeoutFrom(s'.mem, id, at);
    }
  }

  lemma StartGivesWholeTimeout(s: Svc, red: Redactor, taskId: string, at: Time)
    requires Inv(s.mem)
    ensures var (s', r) := StartTask(s, red, taskId, at); r.Ok? ==> WholeTimeout(s'.mem, Trim(taskId), at)
  {
    var (s', r) := StartTask(s, red, taskId, at);
    if r.Ok? {
      StartTaskKeeps(s, red, taskId, at);
      InvFiled(s.mem);
      WholeTimeoutFrom(s'.mem, Trim(taskId), at);
    }
  }

  lemma RetriedTask(s: Svc, red: Redactor, taskId: string, at: Time)
    requires Filed(s.mem) && RetryTask(s, red, taskId, at).1.Ok?
    ensures var (id, tasks) := (Trim(taskId), RetryTask(s, red, taskId, at).0.mem.tasks);
            id in tasks && GivenTime(tasks[id], at)
  {
  }

  /** A task that timed out long ago has its whole timeout again once it is retried, and once more when it starts. */
  lemma RetryGivesWholeTimeout(s: Svc, red: Redactor, taskId: string, at: Time)
    requires Inv(s.mem)
    ensures var (s', r) := RetryTask(s, red, taskId, at); r.Ok? ==> WholeTimeout(s'.mem, Trim(taskId), at)
  {
    if RetryTask(s, red, taskId, at).1.Ok? {
      InvFiled(s.mem);
      RetryTaskKeeps(s, red, taskId, at);
      RetriedTask(s, red, taskId, at);
      WholeTimeoutFrom(RetryTask(s, red, taskId, at).0.mem, Trim(taskId), at);
    }
  }
}
