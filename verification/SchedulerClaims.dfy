/** What the claims and queue entries of a pass say: whose issue, which attempt, which run, and since when. */
module SchedulerClaims {
  import opened Text
  import opened Scheduler
  import opened SchedulerLaws

  /** The item's newest run decides on it: it is on its way or has ended. */
  predicate Decisive(x: Inputs, id: string) { id in x.runs && !x.runs[id].phase.OtherPhase? }

  /** The item waits in the queue and nothing else is known of it but its run. */
  predicate Queued(x: Inputs, id: string) { id in x.retries && id !in x.claims }

  /** A claim that begins now: nothing of an earlier one is left in it. */
  predicate Begins(k: Claim, now: Time) {
    k.phase == "Claimed" && k.claimedAt == Some(now) && k.runRef == RunRef("", "")
  }

  /** A claim that goes on: it has been held since when it was held before. */
  predicate GoesOn(k: Claim, x: Inputs) {
    && k.claimedAt == (if k.itemId in x.claims && x.claims[k.itemId].claimedAt.Some? then x.claims[k.itemId].claimedAt
                       else Some(x.now))
    && k.attempt == (if k.itemId in x.claims && x.claims[k.itemId].attempt > 0 then x.claims[k.itemId].attempt else 1)
  }

  /** The attempt whose run has ended: that of the claim, else, if it failed, of the queue entry, else the first. */
  function EndedAttempt(x: Inputs, id: string): int32
    requires id in x.runs
  {
    if id in x.claims && x.claims[id].attempt > 0 then x.claims[id].attempt
    else if x.runs[id].phase.Failed? && id in x.retries && x.retries[id].attempt > 0 then x.retries[id].attempt
    else 1
  }

  /** What the claim of a candidate says. */
  predicate ClaimFits(k: Claim, c: Candidate, x: Inputs) {
    var id := c.itemId;
    && k.itemId == id && k.issue == c.issue && k.lastUpdated == Some(x.now)
    && if Queued(x, id) then Begins(k, x.now) && k.attempt == Inc32(x.retries[id].attempt)
       else if Decisive(x, id) && x.runs[id].phase.Live() then
         && GoesOn(k, x) && k.phase == x.runs[id].phase.Label()
         && k.runRef == RunRef(Trim(x.runs[id].sessionName), x.runs[id].name)
       else if Decisive(x, id) then Begins(k, x.now) && k.attempt == Inc32(EndedAttempt(x, id))
       else if id in x.claims then
         && GoesOn(k, x) && k.runRef == x.claims[id].runRef
         && k.phase == if Trim(x.claims[id].phase) != "" then Trim(x.claims[id].phase) else "Claimed"
       else Begins(k, x.now) && k.attempt == 1
  }

  /** The previous entry of the item, if it has one with a ready time, is for this attempt. */
  predicate SameAttempt(x: Inputs, id: string, attempt: int32) {
    id in x.retries && x.retries[id].readyAt.Some? && x.retries[id].attempt == attempt
  }

  /** What the queue entry of a candidate says. */
  predicate EntryFits(r: Retry, c: Candidate, x: Inputs) {
    var id := c.itemId;
    if Queued(x, id) then r == x.retries[id]
    else
      && r.itemId == id && r.issue == c.issue && Decisive(x, id) && r.attempt == EndedAttempt(x, id)
      && if x.runs[id].phase.Failed? then
           && r.reason == (if Trim(x.runs[id].failureReason) != "" then Trim(x.runs[id].failureReason)
                           else "HarnessRunFailed")
           && r.lastErrorTime == Some(x.now)
           && r.readyAt == (if SameAttempt(x, id, r.attempt) then x.retries[id].readyAt
                            else Some(x.now + x.runtime.Delay(r.attempt)))
         else
           && x.runs[id].phase.Succeeded? && r.reason == "Continuation" && r.lastErrorTime.None?
           && r.readyAt == (if SameAttempt(x, id, r.attempt) && EqualFold(Trim(x.retries[id].reason), "Continuation")
                            then x.retries[id].readyAt else Some(x.now + SECOND))
  }

  /** Every claim and every entry made so far says what it should of some candidate of the board. */
  ghost predicate AllFit(p: Scan, cs: seq<Candidate>, x: Inputs) {
    && (forall k :: k in p.claims ==> exists c :: c in cs && ClaimFits(k, c, x))
    && (forall id :: id in p.deferred ==> exists c :: c in cs && c.itemId == id && EntryFits(p.deferred[id], c, x))
    && (forall c :: c in p.newcomers ==> c in cs && Untold(c, x))
  }

  /** Nothing is known of the candidate that would decide on it. */
  predicate Untold(c: Candidate, x: Inputs) {
    c.itemId !in x.claims && c.itemId !in x.retries && !Decisive(x, c.itemId)
  }

  lemma AdmitFits(p: Scan, c: Candidate, r: Retry, x: Inputs, cs: seq<Candidate>)
    requires AllFit(p, cs, x) && c in cs && EntryFits(r, c, x)
    requires ClaimFits(BuildClaimFromRetry(c, r, x.now), c, x)
    ensures AllFit(Admit(p, c, r, x), cs, x)
  {
  }

  lemma CarryFits(p: Scan, c: Candidate, k: Claim, x: Inputs, cs: seq<Candidate>)
    requires AllFit(p, cs, x) && c in cs && ClaimFits(k, c, x)
    ensures AllFit(Carry(p, k), cs, x)
  {
  }

  lemma QueuedFits(c: Candidate, x: Inputs)
    requires Queued(x, c.itemId)
    ensures EntryFits(x.retries[c.itemId], c, x)
    ensures ClaimFits(BuildClaimFromRetry(c, x.retries[c.itemId], x.now), c, x)
  {
  }

  lemma SuccessFits(c: Candidate, x: Inputs)
    requires !Queued(x, c.itemId) && c.itemId in x.runs && x.runs[c.itemId].phase.Succeeded?
    ensures var r := BuildContinuationRetry(c, ClaimAt(x.claims, c.itemId), RetryAt(x.retries, c.itemId), x.now);
            EntryFits(r, c, x) && ClaimFits(BuildClaimFromRetry(c, r, x.now), c, x)
  {
  }

  lemma FailureFits(c: Candidate, x: Inputs)
    requires !Queued(x, c.itemId) && c.itemId in x.runs && x.runs[c.itemId].phase.Failed?
    ensures var claim, retry := ClaimAt(x.claims, c.itemId), RetryAt(x.retries, c.itemId);
            var r := BuildRetryStatus(c, x.runs[c.itemId], claim, retry, x.runtime, x.now);
            EntryFits(r, c, x) && ClaimFits(BuildClaimFromRetry(c, r, x.now), c, x)
  {
    assert Trim("HarnessRunFailed") == "HarnessRunFailed";
  }

  lemma LiveFits(c: Candidate, x: Inputs)
    requires !Queued(x, c.itemId) && c.itemId in x.runs && x.runs[c.itemId].phase.Live()
    ensures ClaimFits(BuildClaimStatus(c, x.runs[c.itemId], ClaimAt(x.claims, c.itemId), x.now), c, x)
  {
  }

  lemma CarriedFits(c: Candidate, x: Inputs)
    requires c.itemId in x.claims && !Decisive(x, c.itemId)
    ensures ClaimFits(BuildClaimWithoutRun(c, x.claims[c.itemId], x.now), c, x)
  {
    assert Trim("Claimed") == "Claimed";
  }

  lemma VisitFits(p: Scan, c: Candidate, x: Inputs, cs: seq<Candidate>)
    requires AllFit(p, cs, x) && c in cs
    ensures AllFit(Visit(p, c, x), cs, x)
  {
    var id := c.itemId;
    var claim, retry := ClaimAt(x.claims, id), RetryAt(x.retries, id);
    if Queued(x, id) {
      QueuedFits(c, x);
      AdmitFits(p, c, retry, x, cs);
    } else if id in x.runs && x.runs[id].phase.Succeeded? {
      SuccessFits(c, x);
      AdmitFits(p, c, BuildContinuationRetry(c, claim, retry, x.now), x, cs);
    } else if id in x.runs && x.runs[id].phase.Live() {
      LiveFits(c, x);
      CarryFits(p, c, BuildClaimStatus(c, x.runs[id], claim, x.now), x, cs);
    } else if id in x.runs && x.runs[id].phase.Failed? {
      FailureFits(c, x);
      AdmitFits(p, c, BuildRetryStatus(c, x.runs[id], claim, retry, x.runtime, x.now), x, cs);
    } else if id in x.claims {
      CarriedFits(c, x);
      CarryFits(p, c, BuildClaimWithoutRun(c, claim, x.now), x, cs);
    }
  }

  lemma MoreFit(p: Scan, cs: seq<Candidate>, more: seq<Candidate>, x: Inputs)
    requires AllFit(p, cs, x) && forall c :: c in cs ==> c in more
    ensures AllFit(p, more, x)
  {
  }

  lemma {:induction false} ScanFits(cs: seq<Candidate>, x: Inputs)
    ensures AllFit(ScanAll(cs, x), cs, x)
  {
    if cs != [] {
      var init := cs[..|cs| - 1];
      ScanFits(init, x);
      MoreFit(ScanAll(init, x), init, cs, x);
      VisitFits(ScanAll(init, x), cs[|cs| - 1], x, cs);
    }
  }

  lemma {:induction false} AdmissionFits(p: Scan, waiting: seq<Candidate>, x: Inputs, cs: seq<Candidate>)
    requires AllFit(p, cs, x) && forall c :: c in waiting ==> c in cs && Untold(c, x)
    ensures AllFit(AdmitFresh(p, waiting, x), cs, x)
    decreases waiting
  {
    if waiting != [] && |p.claims| < x.runtime.MaxConcurrent() {
      if waiting[0].itemId in p.consumed {
        AdmissionFits(p, waiting[1..], x, cs);
      } else {
        CarryFits(p, waiting[0], BuildFreshClaim(waiting[0], x.now), x, cs);
        AdmissionFits(Carry(p, BuildFreshClaim(waiting[0], x.now)), waiting[1..], x, cs);
      }
    }
  }

  lemma OneOfEach(cs: seq<Candidate>, c: Candidate, d: Candidate)
    requires DistinctItems(cs) && c in cs && d in cs && c.itemId == d.itemId
    ensures c == d
  {
  }

  /**
   What a pass writes: each claim and each queue entry is about the issue of its candidate as the board shows it, at
   the right attempt, with the right run, reason and times; an entry that was only waiting stays verbatim.
   */
  lemma PlanFits(cs: seq<Candidate>, x: Inputs, c: Candidate)
    requires DistinctItems(cs) && c in cs
    ensures forall k :: k in Plan(cs, x).claims && k.itemId == c.itemId ==> ClaimFits(k, c, x)
    ensures c.itemId in Plan(cs, x).deferred ==> EntryFits(Plan(cs, x).deferred[c.itemId], c, x)
  {
    ReadySetStaysEmpty(cs, x);
    ScanFits(cs, x);
    AdmissionFits(ScanAll(cs, x), ScanAll(cs, x).newcomers, x, cs);
    forall d | d in cs && d.itemId == c.itemId ensures d == c {
      OneOfEach(cs, c, d);
    }
  }

  /** So it is with the status that a pass leaves, whatever its limits cut off. */
  lemma PassFits(st: Status, cs: seq<Candidate>, runs: map<string, Run>, rt: Runtime, now: Time, c: Candidate)
    requires DistinctItems(cs) && c in cs
    ensures var (x, after) := (InputsOf(st, runs, rt, now), Pass(st, cs, runs, rt, now));
            && (forall k :: k in after.claims && k.itemId == c.itemId ==> ClaimFits(k, c, x))
            && (forall r :: r in after.retries && r.itemId == c.itemId ==> EntryFits(r, c, x))
  {
    var x := InputsOf(st, runs, rt, now);
    RetriesByItemKeyed(st.retries);
    PlanFits(cs, x, c);
    PlanPartitions(cs, x);
    QueueLaws(Plan(cs, x).deferred);
  }

  // The promotion of ready retries, from whatever ready set.

  lemma {:induction false} FindCandidateExactly(cs: seq<Candidate>, id: string)
    ensures FindCandidate(cs, id).None? <==> id !in Ids(cs)
    ensures var found := FindCandidate(cs, id); found.Some? ==> found.value in cs && found.value.itemId == id
  {
    if cs != [] && cs[0].itemId != id {
      FindCandidateExactly(cs[1..], id);
      assert forall c :: c in cs ==> c == cs[0] || c in cs[1..];
    }
  }

  predicate Ordered(ids: seq<string>) { forall i, j :: 0 <= i < j < |ids| ==> !Less(ids[j], ids[i]) }

  lemma NotLessTransitive(a: string, b: string, c: string)
    requires !Less(b, a) && !Less(c, b)
    ensures !Less(c, a)
  {
    LessTrichotomy(a, b);
    LessTrichotomy(b, c);
    if Less(a, b) && Less(b, c) {
      LessTransitive(a, b, c);
    }
    LessTrichotomy(a, c);
  }

  lemma {:induction false} InsertIdSorts(id: string, ids: seq<string>)
    requires Ordered(ids)
    ensures Ordered(InsertId(id, ids)) && multiset(InsertId(id, ids)) == multiset(ids) + multiset{id}
  {
    if ids == [] {
    } else if !Less(ids[0], id) {
      forall j | 0 <= j < |ids| ensures !Less(ids[j], id) {
        if j > 0 {
          NotLessTransitive(id, ids[0], ids[j]);
        }
      }
    } else {
      InsertIdSorts(id, ids[1..]);
      var rest := InsertId(id, ids[1..]);
      LessTrichotomy(ids[0], id);
      assert ids == [ids[0]] + ids[1..];
      forall j | 0 <= j < |rest| ensures !Less(rest[j], ids[0]) {
        assert rest[j] in multiset(rest);
        assert rest[j] == id || rest[j] in ids[1..];
      }
    }
  }

  /** Sorting puts the ids in order and keeps each as often as it was there. */
  lemma {:induction false} SortIdsSorts(ids: seq<string>)
    ensures Ordered(SortIds(ids)) && multiset(SortIds(ids)) == multiset(ids)
  {
    if ids != [] {
      SortIdsSorts(ids[1..]);
      InsertIdSorts(ids[0], SortIds(ids[1..]));
      assert ids == [ids[0]] + ids[1..];
    }
  }

  /** The entry of a ready item. */
  function ReadyEntry(p: Scan, x: Inputs, id: string): Retry {
    if id in p.ready then p.ready[id] else RetryAt(x.retries, id)
  }

  predicate AllFound(ids: seq<string>, cs: seq<Candidate>) {
    forall i :: 0 <= i < |ids| ==> FindCandidate(cs, ids[i]).Some?
  }

  /** The claims that the entries of these items become: about the issue on the board, at the next attempt. */
  function Promotions(p: Scan, ids: seq<string>, cs: seq<Candidate>, x: Inputs): seq<Claim>
    requires AllFound(ids, cs)
  {
    seq(|ids|, i requires 0 <= i < |ids| =>
      Claim(FindCandidate(cs, ids[i]).value.itemId, FindCandidate(cs, ids[i]).value.issue,
            Inc32(ReadyEntry(p, x, ids[i]).attempt), "Claimed", Some(x.now), Some(x.now), RunRef("", "")))
  }

  function PromotedBy(p: Scan, ids: seq<string>, cs: seq<Candidate>, x: Inputs): Scan
    requires AllFound(ids, cs)
  {
    p.(claims := p.claims + Promotions(p, ids, cs, x), consumed := p.consumed + SetOf(ids))
  }

  lemma PromotesNext(p: Scan, ids: seq<string>, n: nat, cs: seq<Candidate>, x: Inputs)
    requires AllFound(ids, cs) && n < |ids| && |p.claims| + n < x.runtime.MaxConcurrent()
    ensures PromoteReady(PromotedBy(p, ids[..n], cs, x), ids[n..], cs, x)
            == PromoteReady(PromotedBy(p, ids[..n + 1], cs, x), ids[n + 1..], cs, x)
  {
    assert ids[..n + 1] == ids[..n] + [ids[n]] && ids[n..][1..] == ids[n + 1..] && ids[n..][0] == ids[n];
    assert Promotions(p, ids[..n + 1], cs, x)
        == Promotions(p, ids[..n], cs, x) + [Promotions(p, ids[..n + 1], cs, x)[n]];
    assert SetOf(ids[..n + 1]) == SetOf(ids[..n]) + {ids[n]};
    var before, after := PromotedBy(p, ids[..n], cs, x), PromotedBy(p, ids[..n + 1], cs, x);
    var k := BuildClaimFromRetry(FindCandidate(cs, ids[n]).value, ReadyEntry(p, x, ids[n]), x.now);
    assert after == before.(claims := before.claims + [k], consumed := before.consumed + {ids[n]});
  }

  lemma {:induction false} FreeSlotsPromote(p: Scan, ids: seq<string>, n: nat, cs: seq<Candidate>, x: Inputs)
    requires AllFound(ids, cs) && n <= |ids| && (n == 0 || |p.claims| + n <= x.runtime.MaxConcurrent())
    ensures PromoteReady(p, ids, cs, x) == PromoteReady(PromotedBy(p, ids[..n], cs, x), ids[n..], cs, x)
  {
    if n == 0 {
      assert ids[0..] == ids && PromotedBy(p, ids[..0], cs, x) == p;
    } else {
      FreeSlotsPromote(p, ids, n - 1, cs, x);
      PromotesNext(p, ids, n - 1, cs, x);
    }
  }

  /** The deferred entries with those of the ids among them. */
  function WithEntries(d: map<string, Retry>, p: Scan, ids: seq<string>, x: Inputs): map<string, Retry> {
    map id | id in d.Keys + SetOf(ids) :: if id in ids then ReadyEntry(p, x, id) else d[id]
  }

  lemma WithFirstEntry(d: map<string, Retry>, p: Scan, ids: seq<string>, x: Inputs)
    requires ids != []
    ensures WithEntries(d[ids[0] := ReadyEntry(p, x, ids[0])], p, ids[1..], x) == WithEntries(d, p, ids, x)
  {
    assert ids == [ids[0]] + ids[1..];
  }

  lemma WithNoEntry(d: map<string, Retry>, p: Scan, x: Inputs)
    ensures WithEntries(d, p, [], x) == d
  {
  }

  lemma {:induction false} FullSlotsDefer(p: Scan, d: map<string, Retry>, ids: seq<string>, cs: seq<Candidate>,
                                          x: Inputs)
    requires |p.claims| >= x.runtime.MaxConcurrent()
    ensures PromoteReady(p.(deferred := d), ids, cs, x) == p.(deferred := WithEntries(d, p, ids, x))
    decreases ids
  {
    if ids == [] {
      WithNoEntry(d, p, x);
    } else {
      FullSlotsDefer(p, d[ids[0] := ReadyEntry(p, x, ids[0])], ids[1..], cs, x);
      WithFirstEntry(d, p, ids, x);
    }
  }

  /** Whatever the ready set, its entries are promoted in order, one for each free slot, and the others deferred. */
  lemma PromotionExactly(p: Scan, ids: seq<string>, cs: seq<Candidate>, x: Inputs)
    requires AllFound(ids, cs)
    ensures var n := Vacancies(|p.claims|, |ids|, x.runtime.MaxConcurrent());
            PromoteReady(p, ids, cs, x)
            == PromotedBy(p, ids[..n], cs, x).(deferred := WithEntries(p.deferred, p, ids[n..], x))
  {
    var n := Vacancies(|p.claims|, |ids|, x.runtime.MaxConcurrent());
    FreeSlotsPromote(p, ids, n, cs, x);
    if n == |ids| {
      WithNoEntry(p.deferred, p, x);
    } else {
      var q := PromotedBy(p, ids[..n], cs, x);
      FullSlotsDefer(q, p.deferred, ids[n..], cs, x);
      SameEntries(p, q, p.deferred, ids[n..], x);
    }
  }

  lemma SameEntries(p: Scan, q: Scan, d: map<string, Retry>, ids: seq<string>, x: Inputs)
    requires q.ready == p.ready
    ensures WithEntries(d, q, ids, x) == WithEntries(d, p, ids, x)
  {
  }

  // What a pass reads from a status that names an item more than once.

  ghost predicate LastClaim(claims: seq<Claim>, i: nat) {
    i < |claims| && forall j :: i < j < |claims| ==> claims[j].itemId != claims[i].itemId
  }

  ghost predicate LastRetry(retries: seq<Retry>, i: nat) {
    i < |retries| && forall j :: i < j < |retries| ==> retries[j].itemId != retries[i].itemId
  }

  lemma LastClaimSnoc(claims: seq<Claim>, i: nat)
    requires claims != []
    ensures var n := |claims| - 1;
            LastClaim(claims, i)
            <==> i == n || (i < n && LastClaim(claims[..n], i) && claims[i].itemId != claims[n].itemId)
  {
    var init := claims[..|claims| - 1];
    assert forall j :: 0 <= j < |init| ==> init[j] == claims[j];
  }

  /** Of several claims of an item the last one is read, and every item with a claim has one. */
  lemma {:induction false} LastClaimIsRead(claims: seq<Claim>)
    ensures forall i: nat :: LastClaim(claims, i) ==>
              claims[i].itemId in ClaimsByItem(claims) && ClaimsByItem(claims)[claims[i].itemId] == claims[i]
    ensures forall id :: id in ClaimsByItem(claims) ==> exists i: nat :: LastClaim(claims, i) && claims[i].itemId == id
  {
    if claims != [] {
      var n := |claims| - 1;
      LastClaimIsRead(claims[..n]);
      forall i: nat | LastClaim(claims, i)
        ensures claims[i].itemId in ClaimsByItem(claims) && ClaimsByItem(claims)[claims[i].itemId] == claims[i]
      {
        LastClaimSnoc(claims, i);
      }
      forall id | id in ClaimsByItem(claims) ensures exists i: nat :: LastClaim(claims, i) && claims[i].itemId == id {
        LastClaimSnoc(claims, n);
        if id != claims[n].itemId {
          var i: nat :| LastClaim(claims[..n], i) && claims[..n][i].itemId == id;
          LastClaimSnoc(claims, i);
        }
      }
    }
  }

  lemma LastRetrySnoc(retries: seq<Retry>, i: nat)
    requires retries != []
    ensures var n := |retries| - 1;
            LastRetry(retries, i)
            <==> i == n || (i < n && LastRetry(retries[..n], i) && retries[i].itemId != retries[n].itemId)
  {
    var init := retries[..|retries| - 1];
    assert forall j :: 0 <= j < |init| ==> init[j] == retries[j];
  }

  /** And so it is with the entries of the queue. */
  lemma {:induction false} LastRetryIsRead(retries: seq<Retry>)
    ensures forall i: nat :: LastRetry(retries, i) ==>
              retries[i].itemId in RetriesByItem(retries) && RetriesByItem(retries)[retries[i].itemId] == retries[i]
    ensures forall id :: id in RetriesByItem(retries) ==>
              exists i: nat :: LastRetry(retries, i) && retries[i].itemId == id
  {
    if retries != [] {
      var n := |retries| - 1;
      LastRetryIsRead(retries[..n]);
      forall i: nat | LastRetry(retries, i)
        ensures retries[i].itemId in RetriesByItem(retries) && RetriesByItem(retries)[retries[i].itemId] == retries[i]
      {
        LastRetrySnoc(retries, i);
      }
      forall id | id in RetriesByItem(retries)
        ensures exists i: nat :: LastRetry(retries, i) && retries[i].itemId == id
      {
        LastRetrySnoc(retries, n);
        if id != retries[n].itemId {
          var i: nat :| LastRetry(retries[..n], i) && retries[..n][i].itemId == id;
          LastRetrySnoc(retries, i);
        }
      }
    }
  }

  // What materialisation writes.

  /** The claim is asked for and refused. */
  predicate Stops(k: Claim, answer: Answer) { Trim(k.itemId) != "" && answer.Refused? }

  /** The loop stops at the first claim that is refused, and runs to the end exactly when none is. */
  lemma {:induction false} StopsAtFirst(claims: seq<Claim>, answers: seq<Answer>)
    requires |answers| == |claims|
    ensures var n := FirstRefused(claims, answers);
            && (forall i :: 0 <= i < n ==> !Stops(claims[i], answers[i]))
            && (n < |claims| ==> Stops(claims[n], answers[n]))
    decreases claims
  {
    if claims != [] && !Stops(claims[0], answers[0]) {
      StopsAtFirst(claims[1..], answers[1..]);
      var n := FirstRefused(claims, answers);
      forall i | 0 <= i < n ensures !Stops(claims[i], answers[i]) {
        if i > 0 {
          assert !Stops(claims[1..][i - 1], answers[1..][i - 1]);
        }
      }
    }
  }

  /** The claim now refers to that run, as its session and phase say. */
  predicate RefersTo(k: Claim, was: Claim, sessionName: string, run: Run, phase: string, now: Time) {
    && k.itemId == was.itemId && k.issue == was.issue && k.runRef == RunRef(sessionName, run.name)
    && k.phase == phase && k.lastUpdated == Some(now)
  }

  /** What becomes of a claim that is reached: the run it refers to, and when. */
  predicate Becomes(project: string, k: Claim, was: Claim, runs: map<string, Run>, placement: Option<Placement>,
                    now: Time)
  {
    if Trim(was.itemId) == "" then k == was
    else if was.itemId in runs && runs[was.itemId].name == DesiredRun(project, was) then
      var run := runs[was.itemId];
      && RefersTo(k, was, Trim(run.sessionName), run, run.phase.Label(), now)
      && k.attempt == (if was.attempt > 0 then was.attempt else 1)
      && k.claimedAt == (if was.claimedAt.Some? then was.claimedAt else Some(now))
    else if placement.None? then k == was
    else
      var Placement(sessionName, run) := placement.value;
      var phase := Trim(run.phase.Label());
      && k.attempt == was.attempt && k.claimedAt == was.claimedAt
      && RefersTo(k, was, sessionName, run, if phase != "" then phase else "Pending", now)
  }

  lemma BecomesExactly(project: string, was: Claim, runs: map<string, Run>, placement: Option<Placement>, now: Time)
    ensures Becomes(project, Materialise(was, Outcome(project, was, runs, placement), now), was, runs, placement, now)
  {
    assert Trim("Pending") == "Pending";
  }

  /**
   What becomes of the i-th claim: nothing from the first refusal on; before it, a claim of an item refers to the run
   that was found for the item if that has the name it is after, else to the one created for it where its repository
   is listed, and else it stays as it was.
   */
  lemma MaterialisedExactly(project: string, claims: seq<Claim>, runs: map<string, Run>, answers: seq<Answer>,
                            now: Time, i: nat)
    requires |answers| == |claims| && i < |claims|
    ensures var k, was := MaterialiseAll(claims, Outcomes(project, claims, runs, answers), now)[i], claims[i];
            if exists j :: 0 <= j <= i && Stops(claims[j], answers[j]) then k == was
            else Becomes(project, k, was, runs, answers[i].Placed(), now)
  {
    StopsAtFirst(claims, answers);
    BecomesExactly(project, claims[i], runs, answers[i].Placed(), now);
  }
}
