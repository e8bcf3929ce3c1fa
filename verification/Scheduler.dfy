/**
 The Symphony scheduler: one pass of reconcileProjectRuntime over a board snapshot.
 Times are nanoseconds. A pass is specified as a fold of Visit over the candidates, followed by the
 promotion of ready retries and the admission of fresh candidates.
 */
module Scheduler {
  import opened Text
  import Backoff
  import RunNames

  type Time = int

  datatype Issue = Issue(repository: string, number: int, nodeId: string, url: string, title: string)

  datatype Candidate = Candidate(itemId: string, issue: Issue)

  datatype RunPhase = Pending | Starting | Running | Succeeded | Failed | OtherPhase(text: string)
  {
    predicate Live() { Pending? || Starting? || Running? }

    function Label(): string {
      match this
      case Pending => "Pending"
      case Starting => "Starting"
      case Running => "Running"
      case Succeeded => "Succeeded"
      case Failed => "Failed"
      case OtherPhase(text) => text
    }
  }

  /** A HarnessRun as the scheduler reads it; failureReason is the reason of its Failed condition. */
  datatype Run = Run(name: string, sessionName: string, phase: RunPhase, failureReason: string)

  datatype RunRef = RunRef(sessionName: string, harnessRunName: string)

  datatype Claim = Claim(itemId: string, issue: Issue, attempt: int32, phase: string,
                         claimedAt: Option<Time>, lastUpdated: Option<Time>, runRef: RunRef)

  datatype Retry = Retry(itemId: string, issue: Issue, attempt: int32, reason: string,
                         readyAt: Option<Time>, lastErrorTime: Option<Time>)

  datatype Runtime = Runtime(maxConcurrentItems: int32, activeStatusItemLimit: int32, recentErrorLimit: int32,
                             retryBaseDelaySeconds: int32, retryMaxDelaySeconds: int32)
  {
    function MaxConcurrent(): (n: nat) { if maxConcurrentItems <= 0 then 1 else maxConcurrentItems }
    function ClaimLimit(): (n: nat) { if activeStatusItemLimit <= 0 then 20 else activeStatusItemLimit }
    function RetryLimit(): (n: nat) { if recentErrorLimit <= 0 then 20 else recentErrorLimit }
    function Delay(attempt: int32): int { Backoff.RetryDelay(retryBaseDelaySeconds, retryMaxDelaySeconds, attempt) }
  }

  datatype Status = Status(claims: seq<Claim>, retries: seq<Retry>)

  /** What one pass reads: the previous status by item, the newest run of each item and the clock. */
  datatype Inputs = Inputs(claims: map<string, Claim>, retries: map<string, Retry>, runs: map<string, Run>,
                           runtime: Runtime, now: Time)

  /** What one pass builds up while it walks the snapshot. */
  datatype Scan = Scan(claims: seq<Claim>, consumed: set<string>, deferred: map<string, Retry>,
                       ready: map<string, Retry>, readyIds: seq<string>, newcomers: seq<Candidate>)

  const ZERO_ISSUE := Issue("", 0, "", "", "")
  const ZERO_CLAIM := Claim("", ZERO_ISSUE, 0, "", None, None, RunRef("", ""))
  const ZERO_RETRY := Retry("", ZERO_ISSUE, 0, "", None, None)
  const EMPTY_SCAN := Scan([], {}, map[], map[], [], [])

  /** Go map reads: a missing key yields the zero value. */
  function ClaimAt(m: map<string, Claim>, id: string): Claim { if id in m then m[id] else ZERO_CLAIM }

  function RetryAt(m: map<string, Retry>, id: string): Retry { if id in m then m[id] else ZERO_RETRY }

  function ClaimsByItem(claims: seq<Claim>): map<string, Claim> {
    if claims == [] then map[]
    else var last := claims[|claims| - 1]; ClaimsByItem(claims[..|claims| - 1])[last.itemId := last]
  }

  function RetriesByItem(retries: seq<Retry>): map<string, Retry> {
    if retries == [] then map[]
    else var last := retries[|retries| - 1]; RetriesByItem(retries[..|retries| - 1])[last.itemId := last]
  }

  // The build* helpers.

  function NormalAttempt(attempt: int32): int32 { if attempt <= 0 then 1 else attempt }

  function BuildClaimWithoutRun(c: Candidate, previous: Claim, now: Time): Claim {
    Claim(c.itemId, c.issue, NormalAttempt(previous.attempt), FirstNonEmpty(previous.phase, "Claimed"),
          if previous.claimedAt.None? then Some(now) else previous.claimedAt, Some(now), previous.runRef)
  }

  function BuildClaimStatus(c: Candidate, run: Run, previous: Claim, now: Time): Claim {
    BuildClaimWithoutRun(c, previous, now)
    .(phase := run.phase.Label(), runRef := RunRef(Trim(run.sessionName), run.name))
  }

  function BuildClaimFromRetry(c: Candidate, r: Retry, now: Time): Claim {
    Claim(c.itemId, c.issue, Inc32(r.attempt), "Claimed", Some(now), Some(now), RunRef("", ""))
  }

  function BuildFreshClaim(c: Candidate, now: Time): Claim {
    Claim(c.itemId, c.issue, 1, "Claimed", Some(now), Some(now), RunRef("", ""))
  }

  function ClaimOrRetryAttempt(claim: Claim, retry: Retry): int32 {
    NormalAttempt(if claim.attempt <= 0 then retry.attempt else claim.attempt)
  }

  function BuildRetryStatus(c: Candidate, run: Run, claim: Claim, retry: Retry, rt: Runtime, now: Time): Retry {
    var attempt := ClaimOrRetryAttempt(claim, retry);
    Retry(c.itemId, c.issue, attempt, FirstNonEmpty(run.failureReason, "HarnessRunFailed"),
          if retry.readyAt.None? || retry.attempt != attempt then Some(now + rt.Delay(attempt)) else retry.readyAt,
          Some(now))
  }

  function BuildContinuationRetry(c: Candidate, claim: Claim, retry: Retry, now: Time): Retry {
    var attempt := NormalAttempt(claim.attempt);
    var stale := retry.readyAt.None? || !EqualFold(Trim(retry.reason), "Continuation") || retry.attempt != attempt;
    Retry(c.itemId, c.issue, attempt, "Continuation",
          if stale then Some(now + 1_000_000_000) else retry.readyAt, None)
  }

  predicate Due(r: Retry, now: Time) { r.readyAt.Some? && r.readyAt.value <= now }

  // One pass as a function.

  /** A retry entry either takes a slot at once or waits in the queue. */
  function Admit(p: Scan, c: Candidate, r: Retry, x: Inputs): Scan {
    if Due(r, x.now) && |p.claims| < x.runtime.MaxConcurrent()
    then p.(claims := p.claims + [BuildClaimFromRetry(c, r, x.now)], consumed := p.consumed + {c.itemId})
    else p.(deferred := p.deferred[c.itemId := r])
  }

  /** A carried claim keeps its slot unconditionally. */
  function Carry(p: Scan, claim: Claim): Scan {
    p.(claims := p.claims + [claim], consumed := p.consumed + {claim.itemId})
  }

  /** The body of the candidate loop. */
  function Visit(p: Scan, c: Candidate, x: Inputs): Scan {
    var id := c.itemId;
    var previousClaim, previousRetry := ClaimAt(x.claims, id), RetryAt(x.retries, id);
    if id in x.retries && id !in x.claims then Admit(p, c, previousRetry, x)
    else if id in x.runs && x.runs[id].phase.Succeeded? then
      Admit(p, c, BuildContinuationRetry(c, previousClaim, previousRetry, x.now), x)
    else if id in x.runs && x.runs[id].phase.Live() then
      Carry(p, BuildClaimStatus(c, x.runs[id], previousClaim, x.now))
    else if id in x.runs && x.runs[id].phase.Failed? then
      Admit(p, c, BuildRetryStatus(c, x.runs[id], previousClaim, previousRetry, x.runtime, x.now), x)
    else if id in x.claims then Carry(p, BuildClaimWithoutRun(c, previousClaim, x.now))
    else if id in x.retries then
      if Due(previousRetry, x.now) then p.(ready := p.ready[id := previousRetry], readyIds := p.readyIds + [id])
      else p.(deferred := p.deferred[id := previousRetry])
    else p.(newcomers := p.newcomers + [c])
  }

  function ScanAll(cs: seq<Candidate>, x: Inputs): Scan {
    if cs == [] then EMPTY_SCAN else Visit(ScanAll(cs[..|cs| - 1], x), cs[|cs| - 1], x)
  }

  function FindCandidate(cs: seq<Candidate>, id: string): Option<Candidate> {
    if cs == [] then None else if cs[0].itemId == id then Some(cs[0]) else FindCandidate(cs[1..], id)
  }

  /** The loop over readyRetryIDs. */
  function PromoteReady(p: Scan, ids: seq<string>, cs: seq<Candidate>, x: Inputs): Scan
    decreases ids
  {
    if ids == [] then p
    else
      var r := if ids[0] in p.ready then p.ready[ids[0]] else RetryAt(x.retries, ids[0]);
      var found := FindCandidate(cs, ids[0]);
      var p' :=
        if |p.claims| >= x.runtime.MaxConcurrent() then p.(deferred := p.deferred[ids[0] := r])
        else if found.None? then p
        else p.(claims := p.claims + [BuildClaimFromRetry(found.value, r, x.now)], consumed := p.consumed + {ids[0]});
      PromoteReady(p', ids[1..], cs, x)
  }

  /** The loop over freshCandidates. */
  function AdmitFresh(p: Scan, cs: seq<Candidate>, x: Inputs): Scan
    decreases cs
  {
    if cs == [] || |p.claims| >= x.runtime.MaxConcurrent() then p
    else if cs[0].itemId in p.consumed then AdmitFresh(p, cs[1..], x)
    else AdmitFresh(Carry(p, BuildFreshClaim(cs[0], x.now)), cs[1..], x)
  }

  function InputsOf(st: Status, runs: map<string, Run>, rt: Runtime, now: Time): Inputs {
    Inputs(ClaimsByItem(st.claims), RetriesByItem(st.retries), runs, rt, now)
  }

  /** Everything a pass decides, before truncation. */
  ghost function Plan(cs: seq<Candidate>, x: Inputs): Scan {
    var scanned := ScanAll(cs, x);
    AdmitFresh(PromoteReady(scanned, SortIds(scanned.readyIds), cs, x), scanned.newcomers, x)
  }

  /** sort.Strings on a slice. */
  function SortIds(ids: seq<string>): seq<string> {
    if ids == [] then [] else InsertId(ids[0], SortIds(ids[1..]))
  }

  function InsertId(id: string, sorted: seq<string>): seq<string> {
    if sorted == [] || !Less(sorted[0], id) then [id] + sorted else [sorted[0]] + InsertId(id, sorted[1..])
  }

  function Take<T>(s: seq<T>, limit: nat): seq<T> { if |s| <= limit then s else s[..limit] }

  /** The deferred retries in item order. */
  ghost function Queue(deferred: map<string, Retry>): (q: seq<Retry>)
    ensures |q| == |SortedKeys(deferred.Keys)|
  {
    var ids := SortedKeys(deferred.Keys);
    seq(|ids|, i requires 0 <= i < |ids| => RetryAt(deferred, ids[i]))
  }

  ghost function Pass(st: Status, cs: seq<Candidate>, runs: map<string, Run>, rt: Runtime, now: Time): Status {
    var plan := Plan(cs, InputsOf(st, runs, rt, now));
    Status(Take(plan.claims, rt.ClaimLimit()), Take(Queue(plan.deferred), rt.RetryLimit()))
  }

  // What the API server makes of a status.

  const SECOND := 1_000_000_000

  /** The begun second: metav1.Time is stored as RFC 3339 text, which has no fraction. */
  function WholeSecond(t: Time): (s: Time)
    ensures s <= t < s + SECOND && s % SECOND == 0
  {
    t - t % SECOND
  }

  function StoredTime(t: Option<Time>): Option<Time> { if t.None? then None else Some(WholeSecond(t.value)) }

  function StoredClaim(k: Claim)
    : Claim { k.(claimedAt := StoredTime(k.claimedAt), lastUpdated := StoredTime(k.lastUpdated)) }

  function StoredRetry(r: Retry)
    : Retry { r.(readyAt := StoredTime(r.readyAt), lastErrorTime := StoredTime(r.lastErrorTime)) }

  /** A status as the next reconcile reads it back. */
  function Stored(st: Status): Status {
    Status(seq(|st.claims|, i requires 0 <= i < |st.claims| => StoredClaim(st.claims[i])),
           seq(|st.retries|, i requires 0 <= i < |st.retries| => StoredRetry(st.retries[i])))
  }

  // The step between two passes.

  /** What materializeActiveClaims found or created for one claim. */
  datatype ClaimOutcome = Skipped | Matched(run: Run) | Ensured(sessionName: string, run: Run)

  /** The session and run that ensureClaimSession and ensureClaimRun answered with. */
  datatype Placement = Placement(sessionName: string, run: Run)

  function DesiredRun(project: string, k: Claim): string {
    RunNames.RunName(project, k.issue.repository, k.issue.number, k.attempt)
  }

  /** What becomes of one claim; placement is None when the project does not list the claim's repository. */
  function Outcome(project: string, k: Claim, runs: map<string, Run>, placement: Option<Placement>): ClaimOutcome {
    if Trim(k.itemId) == "" then Skipped
    else if k.itemId in runs && runs[k.itemId].name == DesiredRun(project, k) then Matched(runs[k.itemId])
    else if placement.None? then Skipped
    else Ensured(placement.value.sessionName, placement.value.run)
  }

  /** What asking for a claim's session and run brings: an error, or what they are where the repository is listed. */
  datatype Answer = Refused | Answered(placement: Option<Placement>)
  {
    function Placed(): Option<Placement> { if Refused? then None else placement }
  }

  /** The first claim on which the loop returns with an error, and the number of claims if there is none. */
  function FirstRefused(claims: seq<Claim>, answers: seq<Answer>): (n: nat)
    requires |answers| == |claims|
    ensures n <= |claims|
    decreases claims
  {
    if claims == [] then 0
    else if Trim(claims[0].itemId) != "" && answers[0].Refused? then 0
    else 1 + FirstRefused(claims[1..], answers[1..])
  }

  /** An error leaves its claim and all later ones as they were. */
  function Outcomes(project: string, claims: seq<Claim>, runs: map<string, Run>, answers: seq<Answer>)
    : seq<ClaimOutcome>
    requires |answers| == |claims|
  {
    seq(|claims|, i requires 0 <= i < |claims| =>
      if i < FirstRefused(claims, answers) then Outcome(project, claims[i], runs, answers[i].Placed()) else Skipped)
  }

  function Materialise(k: Claim, outcome: ClaimOutcome, now: Time): Claim {
    match outcome
    case Skipped => k
    case Matched(run) => BuildClaimStatus(Candidate(k.itemId, k.issue), run, k, now)
    case Ensured(sessionName, run) =>
      k.(runRef := RunRef(sessionName, run.name), phase := FirstNonEmpty(run.phase.Label(), "Pending"),
         lastUpdated := Some(now))
  }

  /** materializeActiveClaims: it refreshes each claim in place. */
  function MaterialiseAll(claims: seq<Claim>, outcomes: seq<ClaimOutcome>, now: Time): seq<Claim>
    requires |outcomes| == |claims|
  {
    seq(|claims|, i requires 0 <= i < |claims| => Materialise(claims[i], outcomes[i], now))
  }
}
