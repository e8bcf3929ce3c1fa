# Verified models of the kocao control plane

kocao runs coding agents for work items on a board. This project models the four parts of it that keep state over
time, and proves what they promise their callers:

1. **The Symphony scheduler** decides at every poll which board items hold a slot, which wait in the retry queue and
   which wait for a slot (`Scheduler*.dfy`, `SymphonyProject.dfy`, `Backoff.dfy`, `RunNames.dfy`).
2. **The remote-agent orchestrator** hands tasks to agents, times them out, retries them and rebuilds its memory from
   an append-only log (`Orchestration*.dfy`).
3. **The agent session bridge and its event log** follow one session through its phases, number its events and page
   through them (`Session*.dfy`).
4. **The attach lease** decides which client may type into a shared terminal (`Attach*.dfy`).

Each part has the same shape. A module on values holds the data and, for every critical section, the function that
gives the new state (`Scheduler`, `Orchestration`, `SessionBridge`, `SessionStore`, `AttachLease`). A module with
classes holds the objects the Go code updates in place; every method is proved to compute the function of the old state
(`SymphonyProjects`, `OrchestrationServices`, `SessionServices`, `AttachServices`). The remaining modules prove what
the functions promise, for every input and over runs of any length. Where Go iterates over a map, the methods pick the
keys in an arbitrary order, so what is proved holds for every order. Times are integers, identifiers that are drawn at
random are parameters that are new, and answers of Kubernetes, of the agent and of the network are parameters.

`dafny verify dfyconfig.toml` checks everything.

## What the proofs found

These properties one would expect do not hold of the code. For each the exact condition under which the code meets it
is proved, and the failing case is shown.

- A pass can hold more claims than `maxConcurrentItems`: due retries listed before running items are admitted first,
  then the running items are added unchecked. The bound of one pass is the limit plus the number of carried claims, and
  it is attained (`SlotBound`, `SlotBoundAttained`). Over several passes there is no bound: under any limit some history
  from the empty status leads to any number of claims (`ClaimsClimb`).
- A failed item can be claimed before its delay is over: a ready time is stored in whole seconds. The claim comes no
  earlier than the begun second of the failure plus the delay (`NoEarlyRetryAfterFailure`), it does come then
  (`ClaimedAtEarliest`), and that is the full delay exactly when the failure was seen on a whole second
  (`FullDelayExactly`).
- The second pass of a reconcile undoes decisions of the first exactly when the newest run of a claimed item has ended
  (`SecondPassStable`).
- The limits of the status forget attempts: an entry survives exactly when it is among the first
  (`TruncationIsPrefix`), and one that was cut off starts over at attempt 1 (`ForgottenStartsOver`).
- A retried item is matched to its own finished run exactly when the cut of run names hides the attempt number
  (`RetryMatchesFinishedRun`). Of two runs created in the same second the one whose digits are greater counts as the
  newer (`TieBreak`), so the next attempt wins exactly unless the attempt before it is all nines
  (`NextAttemptWinsTie`); the first to lose is the tenth (`NineBeatsTen`).
- A batch of expired tasks is written after the lock is released, record by record. Over any interleaving the log is
  brought up to date exactly as long as memory has not overtaken a record that is written (`LateBatchExact`,
  `LogFollowsInterleaving`); a retry in between is lost to the log (`LateBatchHidesRetry`). A record of 10 MiB or more
  makes the whole orchestrator log unreadable (`LargeRecordEmpties`, `RestartRestores`).
- The redaction of URIs (`remote_agent_orchestration.go:337-366`) is not idempotent. One that `url.Parse` refuses is
  redacted as text, and the result may be one that it accepts, parses and encodes anew: `http://h/?z=1&token=x` with a
  control character behind it, or `/files/token=ab%xy,v1?z=1&a=2`. A restart makes redacted text the text in memory, and
  the next write redacts it again. So after a restart the log mirrors memory exactly when a second redaction changes
  nothing in it (`RestartMirrors`, `StableExactly`), along a run exactly when every restart found it so
  (`MirrorsExactly`), and in all runs exactly when redacting twice is redacting once (`AlwaysMirrorsExactly`);
  `RestartBreaksMirror` and `RestartRewritesText` are the failing case. Whatever the redaction, a readable log keeps
  every agent and task as it is or redacted, and all invariants hold across restarts (`ReplayRefinesMemory`); what the
  history of a task loses is at most text (`HistoryGrows`, `RestartKeepsTextExactly`).
- The session log is read with the scanner's default buffer: one record of 64 KiB or more, which the event stream
  accepts, makes the log unreadable, and the next process numbers events from 1 again (`SafeToOpenIsExact`,
  `LargeEventRestartsNumbering`).
- The events of a run and of the one it resumes rise together if the resumed run stores none once a bridge for the new
  run has been opened (`ResumedSequencesRise`). One that it does store later fits in exactly when its number is above
  all that are stored and below the next one of the new run (`LateStoreExactly`); two bridges at the same number
  collide (`BothStoreCollide`), and opening one over the other leads there from the empty log (`CollisionReached`).
- `next` of an event page is the overall maximum. Resuming from it misses nothing exactly when one page was enough
  (`ResumingFromNext`).
- `Stop` leaves a terminal phase exactly when it found a phase that it knows (`StopEndsSession`). Without a bridge it
  agrees with one on whether the session is over exactly when the states saved for the run and for the one it resumes
  say the same (`StopAgreesExactly`); on a fresh run resumed from one that ended it does nothing
  (`StopSkipsResumedRun`).
- The key of a repository joins owner and name with a slash, so two repositories can share one if an owner holds a slash
  (`SlashSharesKey`), and only then (`RepositoryKeyExactly`).
- A client that joins an empty terminal in the other mode drops the lease of the absent driver. The lease excludes
  others as long as nobody does so while it runs (`LeaseExclusion`), and whenever somebody does, another client can type
  at once (`SwitchBreaksExclusion`, `ModeSwitchDropsLease`).

Some code is never reached: the branch for ready retries behind the claim check, and the loop that promotes them, have
nothing to do (`ReadySetStaysEmpty`); no task is ever Failed, and an active task has no result to recount
(`TasksStayLegal`).

## Model

| member | source | states |
|---|---|---|
| `SymphonyProjects.SymphonyProject.ReconcileRuntime` | internal/operator/controllers/symphonyproject_controller.go:703-867 | the loops over candidates, ready retries, newcomers and deferred entries overwrite the status with the pass specified by `Pass`, whatever order the map of deferred retries is walked in |
| `SymphonyProjects.SymphonyProject.ScanCandidates` | internal/operator/controllers/symphonyproject_controller.go:732-791 | the candidate loop with its early exits is a fold of one visit per candidate |
| `SymphonyProjects.SymphonyProject.PromoteReadyRetries` | internal/operator/controllers/symphonyproject_controller.go:793-810 | the loop over sorted ready ids, with its two skips, is the recursive promotion |
| `SymphonyProjects.SymphonyProject.AdmitFreshCandidates` | internal/operator/controllers/symphonyproject_controller.go:812-828 | the loop with its break is the recursive admission that `AdmitFreshExact` characterises |
| `SymphonyProjects.SymphonyProject.DrainDeferred` | internal/operator/controllers/symphonyproject_controller.go:830-839 | draining the map in any order and sorting yields one queue |
| `SymphonyProjects.SymphonyProject.MaterialiseActiveClaims` | internal/operator/controllers/symphonyproject_controller.go:292-333 | each claim is refreshed in place by what was matched, found or created for it; the first error ends the loop and leaves its claim and all later ones alone |
| `SymphonyProjects.SymphonyProject.MapClaimsByItem` | internal/operator/controllers/symphonyproject_controller.go:1176-1182 | the last claim of an item wins |
| `SymphonyProjects.SymphonyProject.MapRetriesByItem` | internal/operator/controllers/symphonyproject_controller.go:1184-1190 | the last entry of an item wins |
| `SchedulerLaws.ReadySetStaysEmpty` | internal/operator/controllers/symphonyproject_controller.go:733-747 | no candidate reaches the ready set, so the promotion loop changes nothing |
| `SchedulerLaws.PlanPartitions` | internal/operator/controllers/symphonyproject_controller.go:732-839 | every candidate, and nothing else, ends in exactly one of claims, queue and waiting; one waits, or a due retry is queued, only when every slot is held |
| `SchedulerLaws.AdmitFreshExact` | internal/operator/controllers/symphonyproject_controller.go:812-828 | newcomers are admitted in board order, exactly as many as there are free slots |
| `SchedulerLaws.QueueLaws` | internal/operator/controllers/symphonyproject_controller.go:830-839 | the queue is in strict item order and holds exactly the deferred entries |
| `SchedulerLaws.PassExcludes` | internal/operator/controllers/symphonyproject_controller.go:703-867 | whatever the status was before, afterwards no item is claimed twice, queued twice or both, the queue is sorted and every item is on the board |
| `SchedulerLaws.SlotCount` | internal/operator/controllers/symphonyproject_controller.go:732-828 | exactly how many slots a pass holds: carried plus promoted ones, topped up with newcomers |
| `SchedulerLaws.SlotBound` | internal/operator/controllers/symphonyproject_controller.go:732-828 | at most the limit plus the carried claims, and at most the larger of the two when no retry is promoted |
| `SchedulerClaims.PlanFits` | internal/operator/controllers/symphonyproject_controller.go:732-1009 | each claim and queue entry of a pass is about the issue of its candidate as the board shows it; a claim is new, promoted, carried or shows a live run, with the attempt, phase, run and times that belong to that; an entry says why and until when it waits, or is the previous one verbatim |
| `SchedulerClaims.PassFits` | internal/operator/controllers/symphonyproject_controller.go:703-867 | so is what a pass leaves in the status, whatever its limits cut off |
| `SchedulerClaims.LastClaimIsRead` | internal/operator/controllers/symphonyproject_controller.go:1176-1182 | of several claims of an item exactly the last one is read |
| `SchedulerClaims.LastRetryIsRead` | internal/operator/controllers/symphonyproject_controller.go:1184-1190 | and of several queue entries |
| `SchedulerClaims.SortIdsSorts` | internal/operator/controllers/symphonyproject_controller.go:793 | sorting the ready ids orders them and keeps each as often as it was there |
| `SchedulerClaims.PromotionExactly` | internal/operator/controllers/symphonyproject_controller.go:794-810 | from whatever ready set, entries are promoted in order, one for each free slot, and the others deferred |
| `SchedulerClaims.StopsAtFirst` | internal/operator/controllers/symphonyproject_controller.go:313-327 | materialisation stops at the first claim that is refused, and runs to its end exactly when none is |
| `SchedulerClaims.MaterialisedExactly` | internal/operator/controllers/symphonyproject_controller.go:292-333 | a claim that is reached refers to the run found under the name it is after, else to the one created for it where its repository is listed, and else stays; from the first refusal on every claim stays |
| `SchedulerBounds.SlotBoundAttained` | internal/operator/controllers/symphonyproject_controller.go:732-791 | for every limit and every number of carried claims some pass holds their sum |
| `SchedulerBounds.CrowdFitsLimits` | internal/operator/controllers/symphonyproject_controller.go:850-851 | under status limits that would have kept its queue and keep those claims |
| `SchedulerClimb.ClimbStep` | internal/operator/controllers/symphonyproject_controller.go:732-791 | when everything on the board is claimed or due, one poll promotes as many entries as the limit allows on top of all claims there were |
| `SchedulerClimb.ClaimsClimb` | internal/operator/controllers/symphonyproject_controller.go:703-867 | under any limit some history from the empty status, with nothing cut off, leads to any number of claims |
| `SchedulerStability.SecondPassStable` | internal/operator/controllers/symphonyproject_controller.go:254-277 | with nothing truncated, the second pass of a reconcile keeps the claimed items, their attempts and the queue exactly when no claimed item's newest run has ended |
| `SchedulerStability.MaterialiseKeeps` | internal/operator/controllers/symphonyproject_controller.go:292-333 | materialisation changes neither which items are claimed nor their attempts |
| `SchedulerStability.PlanFromOne` | internal/operator/controllers/symphonyproject_controller.go:881-1009 | every claim a pass makes has attempt 1 or more, unless an attempt has reached the end of int32 |
| `SchedulerStability.QueueReadBack` | internal/operator/controllers/symphonyproject_controller.go:830-839 | the next pass reads from the queue exactly the entries that were deferred |
| `SchedulerHistory.QueuedStep` | internal/operator/controllers/symphonyproject_controller.go:733-747 | over one poll a queued item keeps its entry, up to how it is stored, or is claimed at the next attempt once due; at the head of the board it is claimed as soon as it is due |
| `SchedulerHistory.ClaimedStep` | internal/operator/controllers/symphonyproject_controller.go:748-789 | over one poll a claimed item keeps its slot and attempt unless its run ended, and then is queued at the same attempt with the right ready time, up to how it is stored |
| `SchedulerHistory.LiveClaimShowsRun` | internal/operator/controllers/symphonyproject_controller.go:869-879 | after a poll an item with a live run is claimed, and its claim names that run, its session and its phase |
| `SchedulerHistory.HistoryExclusive` | internal/operator/controllers/symphonyproject_controller.go:703-867 | exclusion of claims and queue holds after any number of polls |
| `SchedulerHistory.NoEarlyRetry` | internal/operator/controllers/symphonyproject_controller.go:733-747 | over any history, with statuses stored in whole seconds between reconciles, a queue entry stays until the first claim, which comes no earlier than the begun second of its ready time and at the next attempt |
| `SchedulerHistory.NoEarlyRetryAfterFailure` | internal/operator/controllers/symphonyproject_controller.go:903-920 | over any history a claim with attempt k that fails at t is not claimed again before the begun second of t plus retryDelay(k), and then with attempt k + 1 |
| `SchedulerHistory.FullDelayExactly` | internal/operator/controllers/symphonyproject_controller.go:908-912 | the stored entry waits the full delay exactly when the failure was seen on a whole second |
| `SchedulerHistory.ClaimedAtEarliest` | internal/operator/controllers/symphonyproject_controller.go:735-739 | a stored failure at the head of the board is claimed at that earliest moment |
| `SchedulerHistory.StoredKeepsIds` | internal/operator/controllers/symphonyproject_controller.go:1399-1407 | storing a status keeps its items, their order and their exclusion |
| `SchedulerHistory.StoredRoundsTimes` | internal/operator/controllers/symphonyproject_controller.go:1399-1407 | it rounds each time down to the second and changes nothing else |
| `SchedulerHistory.AttemptsNeverFall` | internal/operator/controllers/symphonyproject_controller.go:975-997 | over any history the attempt of an item that stays on the board never falls |
| `SchedulerTruncation.TruncationIsPrefix` | internal/operator/controllers/symphonyproject_controller.go:1201-1213 | a claim or queue entry survives the status limits exactly when it is among the first |
| `SchedulerTruncation.ForgottenStartsOver` | internal/operator/controllers/symphonyproject_controller.go:850-851 | an item in neither list can only be claimed or queued at attempt 1, so one that was cut off starts over |
| `SchedulerRuns.ListProjectRuns` | internal/operator/controllers/symphonyproject_controller.go:633-653 | the loop over listed runs keeps, for every item with a run, the one that was created last |
| `SchedulerRuns.NewestIsMaximal` | internal/operator/controllers/symphonyproject_controller.go:633-701 | no run of the item was created after the one kept, and of those created with it none has a greater name; every item with a run has one |
| `SchedulerRuns.NewestOrderFree` | internal/operator/controllers/symphonyproject_controller.go:633-701 | the order in which runs are listed does not matter |
| `SchedulerRuns.TieBreak` | internal/operator/controllers/symphonyproject_controller.go:696-701 | of two attempts whose runs were created in the same second, the later counts as newer exactly by the digits the run names show |
| `SchedulerRuns.NextAttemptWinsTie` | internal/operator/controllers/symphonyproject_controller.go:696-701 | with room for the numbers, the next attempt counts as newer exactly unless the attempt is all nines |
| `SchedulerRuns.NineBeatsTen` | internal/operator/controllers/symphonyproject_controller.go:696-701 | the first attempt to lose is the tenth |
| `SchedulerRuns.RetryMatchesFinishedRun` | internal/operator/controllers/symphonyproject_controller.go:302-315 | a retried item is matched to its finished run exactly when both attempts are cut to the same name |
| `SchedulerRuns.NewAttemptOwnRun` | internal/operator/controllers/symphonyproject_controller.go:302-331 | after materialisation its claim refers to another run than the finished one exactly when the cut tells the two attempts apart |
| `SchedulerRuns.FittingAttemptsDiffer` | internal/operator/controllers/symphonyproject_controller.go:1107-1116 | which it always does where there is room for the number |
| `Backoff.ComputeRetryDelay` | internal/operator/controllers/symphonyproject_controller.go:1011-1031 | for all int32 inputs the doubling loop gives base * 2^(attempt-1) cut at the ceiling, without overflow of int64 nanoseconds |
| `Backoff.RetryDelayMonotone` | internal/operator/controllers/symphonyproject_controller.go:1011-1031 | the delay is positive, at most the ceiling, and never shrinks as attempts grow |
| `Backoff.RetryDelayDoubles` | internal/operator/controllers/symphonyproject_controller.go:1021-1029 | each further attempt doubles the delay until the ceiling is met |
| `SchedulerDefaults.DefaultsAreInvisible` | internal/operator/api/v1alpha1/types.go:321-346 | storing the defaults in a project changes no limit and no delay of the scheduler, and doing it twice changes nothing |
| `SchedulerDefaults.UnsetRuntime` | internal/operator/controllers/symphonyproject_controller.go:1011-1031 | with nothing configured one item is worked on at a time, with delays of 1, 2, 4, 8 and then 15 minutes |
| `SchedulerDefaults.ValidExactlyBounded` | internal/operator/api/v1alpha1/types.go:388-396 | a defaulted runtime is valid exactly when the first delay is the base and every delay lies between base and maximum |
| `SchedulerDefaults.ValidateRepositories` | internal/operator/api/v1alpha1/types.go:397-407 | no fault exactly when every repository key is there and none repeats, else the first fault in order |
| `SchedulerDefaults.RepositoryKeyExactly` | internal/operator/api/v1alpha1/types.go:181-188 | a repository has a key exactly when owner and name are not blank; where owners hold no slash, keys agree exactly when owner and name do, up to case and blanks |
| `SchedulerDefaults.SlashSharesKey` | internal/operator/api/v1alpha1/types.go:181-188 | a slash in the owner makes two repositories share a key |
| `RunNames.SanitizeDNSLabel` | internal/operator/controllers/pod.go:318-349 | the loop with its dash flag computes the specified label |
| `RunNames.SanitizeIsLabel` | internal/operator/controllers/pod.go:318-349 | the result is never empty, has at most 50 characters and is a label of section 2.1 of RFC 1123 |
| `RunNames.SanitizeFixesExactlyLabels` | internal/operator/controllers/pod.go:318-349 | exactly such labels are left alone, so sanitising twice changes nothing |
| `RunNames.RunNameShape` | internal/operator/controllers/symphonyproject_controller.go:1107-1116 | a run name is the sanitised stem followed by the attempt, cut at 50 characters |
| `RunNames.RunNamesDiffer` | internal/operator/controllers/symphonyproject_controller.go:1107-1116 | two attempts have different run names exactly when the cut leaves a difference of their digits |
| `RunNames.RunNamesInjective` | internal/operator/controllers/symphonyproject_controller.go:1107-1116 | all attempts have names of their own exactly when the stem leaves room for ten digits |
| `OrchestrationServices.OrchestrationStore.LoadAll` | internal/controlplaneapi/remote_agent_orchestration.go:377-429 | one pass over the records is the last-writer-wins fold, and fails exactly when a line does not fit the scanner |
| `OrchestrationServices.OrchestrationService.constructor` | internal/controlplaneapi/remote_agent_orchestration.go:442-463 | a new service starts from what the log loads to, and empty when it cannot be loaded |
| `OrchestrationServices.OrchestrationService.CreatePool` | internal/controlplaneapi/remote_agent_orchestration.go:602-629 | a pool is created under a name new up to case and blanks, in memory and in the log, or refused without a trace |
| `OrchestrationServices.OrchestrationService.CreateAgent` | internal/controlplaneapi/remote_agent_orchestration.go:650-700 | an agent is created in the pool it names, under a name new in that pool, or refused without a trace |
| `OrchestrationServices.OrchestrationService.ResolveAgentLocked` | internal/controlplaneapi/remote_agent_orchestration.go:709-740 | in every map order: the agent of the id, else the only match, else not found or ambiguous |
| `OrchestrationServices.OrchestrationService.DispatchTask` | internal/controlplaneapi/remote_agent_orchestration.go:756-806 | after expiring due tasks in some order, the task and its agent change together, or nothing does |
| `OrchestrationServices.OrchestrationService.ExpireTimedOutTasksLocked` | internal/controlplaneapi/remote_agent_orchestration.go:869-877 | the walk over the map visits every task, and each once, in an order it does not choose |
| `OrchestrationServices.OrchestrationService.PersistBatch` | internal/controlplaneapi/remote_agent_orchestration.go:857-867 | agents are written before tasks, each in batch order |
| `OrchestrationServices.OrchestrationService.StartTask` | internal/controlplaneapi/remote_agent_orchestration.go:956-972 | only an assigned task that has not just expired starts, and its agent works on it |
| `OrchestrationServices.OrchestrationService.CancelTask` | internal/controlplaneapi/remote_agent_orchestration.go:974-990 | an active task is cancelled and its agent released |
| `OrchestrationServices.OrchestrationService.CompleteTask` | internal/controlplaneapi/remote_agent_orchestration.go:992-1019 | an active task is completed with its counted result and its agent released |
| `OrchestrationServices.OrchestrationService.RetryTask` | internal/controlplaneapi/remote_agent_orchestration.go:1021-1058 | a task that ended without success is assigned again to its agent if that is free |
| `OrchestrationServices.OrchestrationService.AppendTranscript` | internal/controlplaneapi/remote_agent_orchestration.go:1060-1085 | an entry numbered one above the last is appended to an active task |
| `OrchestrationServices.OrchestrationService.AddOutputArtifact` | internal/controlplaneapi/remote_agent_orchestration.go:1087-1106 | an artifact is appended to an active task |
| `OrchestrationRuns.StepKeeps` | internal/controlplaneapi/remote_agent_orchestration.go:602-1106 | every operation keeps naming, occupancy, task counting and that results count what their task holds |
| `OrchestrationRuns.StepAgrees` | internal/controlplaneapi/remote_agent_orchestration.go:602-1106 | no operation puts the log out of date about anything it was not out of date about before |
| `OrchestrationDiagram.RunFollowsDiagram` | internal/controlplaneapi/remote_agent_orchestration.go:879-1106 | in every state of every run a call on one task moves exactly its own task along the state diagram if it applies there, adds only what it is for, and otherwise changes nothing |
| `OrchestrationDiagram.RunKeepsToEdges` | internal/controlplaneapi/remote_agent_orchestration.go:756-1106 | over every step of every run, expiries and readable restarts included, under any redaction, no task leaves the edges of the diagram |
| `OrchestrationDiagram.TasksStayLegal` | internal/controlplaneapi/remote_agent_orchestration.go:816-1058 | in every state of every run restarts included, a task has exactly the stamps and the result that belong to its state, and no task is Failed; if the clock never goes back, the stamps are in the order of its life |
| `OrchestrationDiagram.StartTurns` | internal/controlplaneapi/remote_agent_orchestration.go:956-972 | a start is accepted exactly for an assigned task and answers with the task as stored |
| `OrchestrationDiagram.CancelTurns` | internal/controlplaneapi/remote_agent_orchestration.go:974-990 | a cancellation is accepted exactly for an active task |
| `OrchestrationDiagram.CompleteTurns` | internal/controlplaneapi/remote_agent_orchestration.go:992-1019 | so is a completion |
| `OrchestrationDiagram.RetryTurns` | internal/controlplaneapi/remote_agent_orchestration.go:1021-1058 | a retry is accepted exactly for a task that ended without success and whose agent is free; it keeps transcript and artifacts and counts one attempt more |
| `OrchestrationDiagram.AppendTurns` | internal/controlplaneapi/remote_agent_orchestration.go:1060-1085 | an entry is accepted exactly for an active task and adds one entry, trimmed, behind all others |
| `OrchestrationDiagram.ArtifactTurns` | internal/controlplaneapi/remote_agent_orchestration.go:1087-1106 | an artifact is accepted exactly for an active task and is added behind all others |
| `OrchestrationDiagram.DispatchTakesIdleAgent` | internal/controlplaneapi/remote_agent_orchestration.go:756-806 | a dispatch succeeds exactly when its target names one agent without a task, and takes that agent and no other |
| `OrchestrationCalls.RunWrites` | internal/controlplaneapi/remote_agent_orchestration.go:879-1106 | in every state of every run a call that applies stamps its task with its own time and no other stamp, says in the result what it has to say, adds what was sent, and puts the agent on the task or sets it free |
| `OrchestrationCalls.DispatchWrites` | internal/controlplaneapi/remote_agent_orchestration.go:742-806 | a dispatched task shows the agent it resolved to, the request and its inputs, trimmed, and stays in the workspace that the target asked for |
| `OrchestrationCalls.DispatchLogs` | internal/controlplaneapi/remote_agent_orchestration.go:790-806 | a dispatch logs its agent before its task |
| `OrchestrationCalls.StartLogs` | internal/controlplaneapi/remote_agent_orchestration.go:956-972 | a start logs its task before its agent |
| `OrchestrationCalls.ResolveExactly` | internal/controlplaneapi/remote_agent_orchestration.go:709-740 | a target without an agent id names an agent exactly if that is the only one with the name, the pool and the workspace it gives, and is unknown exactly if none has |
| `OrchestrationCalls.ValidTaskExactly` | internal/controlplaneapi/remote_agent_orchestration.go:547-566 | a request is valid exactly with a prompt, a target, no negative timeout, and a name and kind for each input |
| `OrchestrationCalls.CreatePoolExactly` | internal/controlplaneapi/remote_agent_orchestration.go:602-629 | a pool is created exactly under a name that is not blank and that no pool has, up to case and blanks |
| `OrchestrationCalls.CreateAgentExactly` | internal/controlplaneapi/remote_agent_orchestration.go:631-700 | an agent is created exactly where its name is not blank, its pool is known, its binding is granted and its name is free in the pool |
| `OrchestrationCalls.RetryRefuses` | internal/controlplaneapi/remote_agent_orchestration.go:1021-1045 | a retry is refused for the state of its task first, then for its agent |
| `OrchestrationLaws.OneTaskPerAgent` | internal/controlplaneapi/remote_agent_orchestration.go:756-806 | no agent has two active tasks and no task two agents |
| `OrchestrationLaws.BusyExactlyWithTask` | internal/controlplaneapi/remote_agent_orchestration.go:879-1058 | an agent's current task is exactly the active task that names it, and it is busy exactly when it has one |
| `OrchestrationLaws.PoolNameDisambiguates` | internal/controlplaneapi/remote_agent_orchestration.go:709-740 | with a pool name given at most one agent matches |
| `OrchestrationLaws.ResolveNeverAmbiguous` | internal/controlplaneapi/remote_agent_orchestration.go:709-740 | so such a target is never refused as ambiguous |
| `OrchestrationLaws.DispatchTaskKeeps` | internal/controlplaneapi/remote_agent_orchestration.go:756-806 | dispatch never takes an agent from an active task |
| `OrchestrationLaws.RetryTaskKeeps` | internal/controlplaneapi/remote_agent_orchestration.go:1021-1058 | nor does a retry, and attempt stays retry count + 1 |
| `OrchestrationLaws.AppendTranscriptKeeps` | internal/controlplaneapi/remote_agent_orchestration.go:1060-1085 | entry i of a transcript has number i + 1, across retries too |
| `OrchestrationLaws.KeptIsSound` | internal/controlplaneapi/remote_agent_orchestration.go:271-301 | what the log keeps of a sound memory, each record sanitised or as it is, is a sound memory |
| `OrchestrationLaws.SanitizedKeeps` | internal/controlplaneapi/remote_agent_orchestration.go:271-301 | so is the memory sanitised throughout |
| `OrchestrationRuns.ReplayRefinesMemory` | internal/controlplaneapi/remote_agent_orchestration.go:241-429 | in every state of every run, restarts included, under any redaction, memory is sound and a readable log loads to all it holds and no more, each agent and task sanitised or as it is |
| `OrchestrationRuns.RestartRestores` | internal/controlplaneapi/remote_agent_orchestration.go:377-463 | a restart brings memory back, as it was or sanitised, exactly when the log can be read or nothing was held; sanitised throughout exactly when, besides, the log mirrors memory |
| `OrchestrationRuns.LargeRecordEmpties` | internal/controlplaneapi/remote_agent_orchestration.go:377-463 | a process that starts on a log with a record of 10 MiB or more holds nothing, and on any other what the log loads to |
| `OrchestrationRuns.LoadSkipsUnnamed` | internal/controlplaneapi/remote_agent_orchestration.go:409-440 | a record without an identifier is skipped, any other takes the place of what had its identifier |
| `OrchestrationMirror.StableExactly` | internal/controlplaneapi/remote_agent_orchestration.go:271-366 | sanitising a memory twice is sanitising it once exactly when that is so of every text and URI in it |
| `OrchestrationRedaction.LogIsRedacted` | internal/controlplaneapi/remote_agent_orchestration.go:241-366 | in every state of every run no record of the log holds a prompt, result, entry or artifact that has not been redacted |
| `OrchestrationMirror.RestartMirrors` | internal/controlplaneapi/remote_agent_orchestration.go:442-463 | after a restart that can read a log that mirrors memory, it mirrors memory exactly when a second sanitising changes nothing |
| `OrchestrationMirror.MirrorsExactly` | internal/controlplaneapi/remote_agent_orchestration.go:241-463 | a log that can be read mirrors memory, sanitised, all along a run exactly when every restart found a memory that a second sanitising leaves alone |
| `OrchestrationMirror.AlwaysMirrorsExactly` | internal/controlplaneapi/remote_agent_orchestration.go:328-366 | for redactions that trim first, as these do, all runs keep the mirror exactly when redacting twice is redacting once |
| `OrchestrationMirror.RestartBreaksMirror` | internal/controlplaneapi/remote_agent_orchestration.go:337-366 | otherwise a run of three operations from nothing breaks it |
| `OrchestrationRuns.ExpiryIsOverlay` | internal/controlplaneapi/remote_agent_orchestration.go:869-913 | the batch of an expiry is exactly what it changed in memory |
| `OrchestrationExpiry.ExpiryExact` | internal/controlplaneapi/remote_agent_orchestration.go:816-913 | in every order exactly the active tasks past their deadline time out and exactly their agents become idle |
| `OrchestrationExpiry.SecondExpiryIdle` | internal/controlplaneapi/remote_agent_orchestration.go:869-913 | a second expiry at the same time changes and writes nothing |
| `OrchestrationDeadlines.TimeoutCountsFrom` | internal/controlplaneapi/remote_agent_orchestration.go:816-840 | in every state of every run a walk over the tasks times out exactly the running ones whose timeout has passed since they were started and the assigned ones whose timeout has passed since they were assigned; every other task stays |
| `OrchestrationDeadlines.DispatchGivesWholeTimeout` | internal/controlplaneapi/remote_agent_orchestration.go:756-806 | a dispatched task times out exactly when its whole timeout has passed since the dispatch |
| `OrchestrationDeadlines.StartGivesWholeTimeout` | internal/controlplaneapi/remote_agent_orchestration.go:956-972 | a start gives it the whole timeout again |
| `OrchestrationDeadlines.RetryGivesWholeTimeout` | internal/controlplaneapi/remote_agent_orchestration.go:1021-1058 | and so does a retry, however long ago the task timed out |
| `OrchestrationInterleaving.LateBatchExact` | internal/controlplaneapi/remote_agent_orchestration.go:842-867 | if the log is out of date at most about what a batch records, and about what others still will, writing it brings the log up to date exactly when memory has not overtaken one of its records |
| `OrchestrationInterleaving.LogFollowsInterleaving` | internal/controlplaneapi/remote_agent_orchestration.go:842-913 | over any interleaving of calls, expiries and single records written late the log is out of date at most about the records still to be written, mirrors memory when there are none, and each record keeps that up exactly when it has not been overtaken |
| `OrchestrationInterleaving.PersistByRecord` | internal/controlplaneapi/remote_agent_orchestration.go:857-867 | the single records of a batch, one after the other, are the batch as it is written |
| `OrchestrationInterleaving.AnyCutIsBetweenCalls` | internal/controlplaneapi/remote_agent_orchestration.go:857-867 | a record that falls between those of a call reads back as if it had fallen before the call, if a later record of the call takes its place, and else behind it |
| `OrchestrationInterleaving.WrittenAtOnceIsHarmless` | internal/controlplaneapi/remote_agent_orchestration.go:842-867 | no record of a batch written at once has been overtaken |
| `OrchestrationInterleaving.LateBatchHidesRetry` | internal/controlplaneapi/remote_agent_orchestration.go:842-867 | a retry before the batch is written is lost to the log |
| `OrchestrationHistory.HistoryGrows` | internal/controlplaneapi/remote_agent_orchestration.go:929-1106 | over any run, with restarts that can read the log, under any redaction, tasks stay, transcripts and outputs only gain entries, retry counts never fall and a completed task never changes, up to what its texts say |
| `OrchestrationHistory.TextGrows` | internal/controlplaneapi/remote_agent_orchestration.go:929-1106 | so do the texts as the log keeps them, if no restart finds history that a second redaction changes |
| `OrchestrationHistory.RestartKeepsTextExactly` | internal/controlplaneapi/remote_agent_orchestration.go:271-366 | a restart that finds a mirror rewrites no history exactly when a second redaction changes none |
| `OrchestrationHistory.RestartRewritesText` | internal/controlplaneapi/remote_agent_orchestration.go:337-366 | otherwise a run of three operations from nothing rewrites an artifact |
| `OrchestrationHistory.MemoryGrows` | internal/controlplaneapi/remote_agent_orchestration.go:929-1106 | between restarts all of it holds of memory as it is |
| `SessionPhases.NormalizeRoundTrip` | internal/operator/api/v1alpha1/types.go:455-474 | a normalised phase survives being stored and read back |
| `SessionPhases.NormalizeExactly` | internal/operator/api/v1alpha1/types.go:455-474 | which words name which phase, in whatever case and between blanks; any other text is kept, trimmed |
| `SessionPhases.TransitionsAreAnOrder` | internal/operator/api/v1alpha1/types.go:489-539 | the transition table is a partial order: up the ranks, and nowhere from unknown or terminal phases |
| `SessionPhases.ResolveIsJoin` | internal/controlplaneapi/agent_session.go:267-288 | among known phases reconciling is the least upper bound and associative, and commutes unless two terminal phases meet |
| `SessionPhases.ResolveUnknown` | internal/controlplaneapi/agent_session.go:267-288 | a phase that is not known gives way to a terminal one only, and never takes the place of another |
| `SessionServices.AgentSessionBridge.constructor` | internal/controlplaneapi/agent_session.go:459-490 | a new bridge combines status, saved state and stored events as `Created` says |
| `SessionServices.AgentSessionBridge.Attach` | internal/controlplaneapi/agent_session.go:437-457 | an existing bridge adopts what the status reports, and only that |
| `SessionServices.AgentSessionBridge.TransitionLocked` | internal/controlplaneapi/agent_session.go:290-298 | the phase moves exactly when the table allows it |
| `SessionServices.AgentSessionBridge.AppendEvent` | internal/controlplaneapi/agent_session.go:315-330 | the next number goes to the new, sanitised last event |
| `SessionServices.AgentSessionBridge.EnterProvisioning` | internal/controlplaneapi/agent_session.go:518-522 | EnsureSession's first critical section |
| `SessionServices.AgentSessionBridge.EndStreaming` | internal/controlplaneapi/agent_session.go:691-721 | the end of the stream leaves a stopping session to Stop |
| `SessionServices.AgentSessionBridge.BeginStop` | internal/controlplaneapi/agent_session.go:823-832 | Stop's first critical section, which tells whether the session was over |
| `SessionServices.AgentSessionBridge.FinishStop` | internal/controlplaneapi/agent_session.go:865-882 | Stop's last critical section, by the outcome of its DELETE |
| `SessionBridge.StepIsJoin` | internal/controlplaneapi/agent_session.go:496-882 | from a known phase every critical section leads to the least upper bound of the phase and the one it is after |
| `SessionBridge.Lifecycle` | internal/controlplaneapi/agent_session.go:496-761 | a session is provisioned, becomes ready with the session the agent named, and runs with its first prompt |
| `SessionBridge.Endings` | internal/controlplaneapi/agent_session.go:637-882 | a live session ends as its stream does, as Failed if a request fails, and by way of Stopping if it is stopped, as its DELETE decides |
| `SessionBridge.OnlyPhaseMoves` | internal/controlplaneapi/agent_session.go:315-882 | which critical sections touch the session id, the numbering and the stream, and how |
| `SessionBridge.StepsCommute` | internal/controlplaneapi/agent_session.go:496-882 | two critical sections other than the stream's end lead to the same phase in either order, unless they disagree on how a live session ends |
| `SessionBridge.PhaseProgress` | internal/controlplaneapi/agent_session.go:496-882 | along any interleaving without adoption the phase only moves up, and terminal and unknown phases never change |
| `SessionBridge.StopEndsSession` | internal/controlplaneapi/agent_session.go:812-882 | whatever runs in between, Stop leaves a terminal phase exactly when it found a known one |
| `SessionBridge.StopEndsAdopted` | internal/controlplaneapi/agent_session.go:865-882 | even with adoptions in between, exactly when the phase it finds at its end is a known one |
| `SessionBridge.StopOwnsOutcome` | internal/controlplaneapi/agent_session.go:694-706 | while Stop runs, stream end, prompts and other calls leave the phase alone, and its DELETE alone decides between Completed and Failed |
| `SessionBridge.AdoptionLowers` | internal/controlplaneapi/agent_session.go:450-451 | adopting a status can lower a phase, even a terminal one |
| `SessionBridge.RestartKeepsPhase` | internal/controlplaneapi/agent_session.go:474-485 | without a status a restart brings the phase of the last state saved for the run back exactly when it is a known one |
| `SessionBridge.StatusDecidesPhase` | internal/controlplaneapi/agent_session.go:459-473 | with a status a new bridge starts in the phase that reports, or in Provisioning |
| `SessionBridge.CreatedSession` | internal/controlplaneapi/agent_session.go:474-481 | a new bridge talks to the session its status names, else to the one that was saved last, else to none |
| `SessionBridge.CreatedNumber` | internal/controlplaneapi/agent_session.go:482-490 | a new bridge numbers on from the greatest number that a readable log holds in an event or in the last state saved, and else from nothing |
| `SessionBridge.NumbersOnAbove` | internal/controlplaneapi/agent_session.go:474-490 | a new bridge numbers above every stored event of its run and of the run it resumes, exactly when it can read them |
| `SessionBridge.ReportedExactly` | internal/controlplaneapi/agent_session.go:767-790 | without a bridge GetState reports the phase of the status, else the one saved last for the run or the one it resumes, else Provisioning |
| `SessionBridge.StopAgreesExactly` | internal/controlplaneapi/agent_session.go:767-822 | without a bridge, Stop and a new bridge agree on whether the session is over exactly when the status decides, the log cannot be read, or the states saved for the run and for the one it resumes say the same |
| `SessionBridge.StopAgreesUnresumed` | internal/controlplaneapi/agent_session.go:767-790 | so they agree on a run that resumes nothing |
| `SessionBridge.StopSkipsResumedRun` | internal/controlplaneapi/agent_session.go:812-822 | for a fresh run resumed from one that ended they do not |
| `SessionServices.AgentSessionStore.Append` | internal/controlplaneapi/agent_session_store.go:41-59 | the file only grows, and the log in memory keeps its last 50,000 records |
| `SessionServices.AgentSessionStore.LoadState` | internal/controlplaneapi/agent_session_store.go:101-125 | the loop finds the state saved last for the wanted runs, and none exactly when none was saved or the log cannot be read |
| `SessionServices.AgentSessionStore.ListEvents` | internal/controlplaneapi/agent_session_store.go:175-212 | the loop gives the first events above the offset, as many as the bounded limit, and the overall maximum |
| `SessionStore.SanitizeFixesExactlyClean` | internal/controlplaneapi/agent_session_store.go:127-173 | a payload is left alone exactly when every sensitive key at every depth is redacted already |
| `SessionStore.SanitizedIsClean` | internal/controlplaneapi/agent_session_store.go:127-173 | no sanitised payload holds anything but the mark under a sensitive key |
| `SessionStore.SensitiveExactly` | internal/controlplaneapi/agent_session_store.go:165-173 | a key is sensitive exactly when one of the seven words stands in it, in whatever case |
| `SessionStore.MembersSanitised` | internal/controlplaneapi/agent_session_store.go:142-163 | what stands under a sensitive key is replaced by the mark, and what stands under another is sanitised itself |
| `SessionStore.AppendedKeepsLast` | internal/controlplaneapi/agent_session_store.go:41-59 | the log is what it was and the record behind it; in memory the oldest records beyond 50,000 go |
| `SessionStore.LoadStateIsLast` | internal/controlplaneapi/agent_session_store.go:101-125 | a readable log answers with the state saved last for the wanted runs, and with none exactly when none was saved |
| `SessionStore.LaterIsExact` | internal/controlplaneapi/agent_session_store.go:175-212 | a listing draws on exactly the wanted events above the offset |
| `SessionStore.NewestIsMaximum` | internal/controlplaneapi/agent_session_store.go:175-212 | `next` is the maximum over all wanted events |
| `SessionStore.PagingIsGapFree` | internal/controlplaneapi/agent_session_store.go:175-212 | on a rising log, asking on from the last number terminates and shows every later event once, in order |
| `SessionStore.ResumingFromNext` | internal/controlplaneapi/agent_session_store.go:175-212 | asking on from `next` misses nothing exactly when one page was enough |
| `SessionHistory.SequencesRise` | internal/controlplaneapi/agent_session.go:315-490 | over any run of streaming, saving, crashes and new bridges, the stored numbers of a run rise strictly, if each bridge was opened safely |
| `SessionHistory.SafeToOpenIsExact` | internal/controlplaneapi/agent_session.go:474-490 | a bridge opened otherwise, with any status and resuming any run, repeats a number with its first event |
| `SessionHistory.LargeEventRestartsNumbering` | internal/controlplaneapi/agent_session_store.go:70-99 | one event that takes a line of 64 KiB leads there |
| `SessionHistory.RunPagesAreComplete` | internal/controlplaneapi/agent_session_store.go:175-212 | in every such state paging through a run shows all its stored events above the offset |
| `SessionHistory.ResumedSequencesRise` | internal/controlplaneapi/agent_session.go:487-490 | the events of a run and of the one it resumes rise together if the resumed run stores none after the first bridge for the new run is opened |
| `SessionHistory.ResumedPagesAreComplete` | internal/controlplaneapi/agent_session.go:1262 | then the pages the handlers list of both show all their events, once and in order |
| `SessionHistory.LateStoreExactly` | internal/controlplaneapi/agent_session.go:315-329 | an event of the resumed run stored later, followed by one of the new run, keeps them rising exactly when its number is above all stored and below that of the new run |
| `SessionHistory.BothStoreCollide` | internal/controlplaneapi/agent_session.go:315-329 | two live bridges that have come to the same number and both go on store a number twice |
| `SessionHistory.CollisionReached` | internal/controlplaneapi/agent_session.go:315-490 | a run from the empty log that opens the new run over the one it resumes, which goes on, ends so |
| `AttachServices.AttachService.Connect` | internal/controlplaneapi/attach.go:686-785 | look up or create the session, agree on the mode, join with the role the lease allows |
| `AttachServices.AttachService.CleanUp` | internal/controlplaneapi/attach.go:922-944 | an empty session is dropped exactly when its lease is over |
| `AttachServices.AttachSession.Join` | internal/controlplaneapi/attach.go:747-779 | reconnecting drivers and claims of a free lease become driver, everybody else a viewer |
| `AttachServices.AttachSession.Keepalive` | internal/controlplaneapi/attach.go:808-816 | only the driver's keepalive extends the lease |
| `AttachServices.AttachSession.TakeControl` | internal/controlplaneapi/attach.go:825-850 | control changes hands only when nobody else's lease runs |
| `AttachServices.AttachSession.Stdin` | internal/controlplaneapi/attach.go:853-880 | input is let through, and extends the lease, exactly for the driver |
| `AttachServices.AttachSession.Leave` | internal/controlplaneapi/attach.go:912-946 | leaving keeps the lease, and the last to leave sets the timer |
| `AttachLease.LeaseExclusion` | internal/controlplaneapi/attach.go:192-205 | over any run on a clock that never goes back, after input or a keepalive from the driver another client's input is let through only after the whole lease, across disconnects, cleanups and re-creation, if nobody switches the mode of the empty session while the lease runs |
| `AttachRights.TypingNeedsDriverToken` | internal/controlplaneapi/attach.go:747-880 | over any run, in both modes, nobody's input is let through who has not been let in with a driver's token before |
| `AttachRights.JoinerTypesExactly` | internal/controlplaneapi/attach.go:702-779 | a client that is let in can type at once exactly with a driver's token in collaborative mode, and in exclusive mode exactly if it holds the lease or has a driver's token while nobody does |
| `AttachRights.ControlTypesExactly` | internal/controlplaneapi/attach.go:825-850 | and the same after asking for control |
| `AttachRights.KeepaliveExactly` | internal/controlplaneapi/attach.go:808-816 | a keepalive gives the driver a whole lease from now, and changes nothing else |
| `AttachRights.ModesAgree` | internal/controlplaneapi/attach.go:702-718 | over any run every client of a terminal was let in with the mode that the terminal is in |
| `AttachLease.SwitchBreaksExclusion` | internal/controlplaneapi/attach.go:702-707 | from any reachable state in which the mode is switched within a lease, three more operations at that moment let another client type under a lease of its own |
| `AttachLease.ReconnectRegains` | internal/controlplaneapi/attach.go:763-769 | a driver that comes back within its lease is driver again, even on a viewer's token |
| `AttachLease.HandoverIsImmediate` | internal/controlplaneapi/attach.go:839-845 | the bound is tight: from the first instant after the lease any client with a driver's token can take over |
| `AttachLease.ModeSwitchDropsLease` | internal/controlplaneapi/attach.go:702-707 | switching the mode of an empty session lets another client type within the lease |
| `AttachLease.CleanupFindsLeaseOver` | internal/controlplaneapi/attach.go:918-938 | when the timer fires the lease is over, so the session goes unless somebody has come back |
| `AttachRights.CleanupExactly` | internal/controlplaneapi/attach.go:922-944 | the timer drops the terminal exactly when nobody is in it and no lease runs |
| `AttachRights.CleanupDelayExactly` | internal/controlplaneapi/attach.go:912-921 | it fires five seconds after the last client has left or its lease has run out, whichever is later |

## Left out

- Kubernetes, HTTP, websocket, server-sent-event, exec and GraphQL traffic: their answers are parameters of the steps.
- Reading the clock: one operation sees one time.
- The status of a project beyond claims and retry queue (events, errors, skips, token totals, counters), and the
  display and description fields of pools, agents and tasks: they are reported, and nothing is decided on them.
- `ensureClaimSession` and `ensureClaimRun`: what they answer, errors included, is a parameter.
- Duplicate item ids in a snapshot: distinct ids are a premise of the laws of a pass, not of the pass itself.
- SchedulerHistory.NoEarlyRetry: histories in which the status limits cut nothing off; what happens otherwise is
  stated by `TruncationIsPrefix` and `ForgottenStartsOver`.
- SchedulerClimb.ClaimsClimb: for numbers of claims that the status limits, which are int32, can keep.
- SchedulerHistory.AttemptsNeverFall: up to the last attempt that int32 can count, where Go wraps around.
- Case folding outside ASCII, except for the two characters that Go lower-cases into ASCII; the redaction regular
  expressions of the orchestrator are an arbitrary function on text.
- OrchestrationMirror.AlwaysMirrorsExactly: that the URI redaction fails the condition is read from the code, since
  parsing and encoding of URIs is not part of this model.
- A crash between the two records of one orchestrator operation, failing disk writes, and the limit of 50,000 records
  of the orchestrator log in memory: the mirror of memory does not claim to survive them.
- Resolving an agent's session binding against the cluster: its answer is a parameter of `CreateAgent`.
- Wrap-around of a sequence number at the end of int64, and lines of the session log broken by a crash while they are
  written.
- Subscribers of a bridge, its pod and server ids, runtime and agent kind, and the parsing of the event stream.
- SessionBridge.PhaseProgress: over one process. Snapshots are saved outside the lock, so the last saved phase may be
  an older one, and a restart then begins from it.
- The attach token, audit records, terminal sizes, the backend process, and the messages sent to clients.
- AttachServices.AttachService.Connect: looking a session up, agreeing on its mode and joining it are one step, where
  the code unlocks in between; live clients have different ids, and times are taken inside the lock.
- `derivePodName`, pod specifications, egress policy, configuration loading, image profiles, the command line and the
  web interface: mappings and plumbing.
