/** The second pass of a reconcile, at the same time and on the same board, keeps what the first one decided. */
module SchedulerStability {
  import opened Text
  import Backoff
  import opened Scheduler
  import opened SchedulerLaws

  // Reading a status back by item.

  lemma {:induction false} RetriesReadBack(retries: seq<Retry>)
    requires AscendingRetries(retries)
    ensures forall r :: r in retries ==> r.itemId in RetriesByItem(retries) && RetriesByItem(retries)[r.itemId] == r
  {
    if retries != [] {
      var init, last := retries[..|retries| - 1], retries[|retries| - 1];
      RetriesReadBack(init);
      forall r | r in retries
        ensures r.itemId in RetriesByItem(retries) && RetriesByItem(retries)[r.itemId] == r
      {
        var i :| 0 <= i < |retries| && retries[i] == r;
        if i < |init| {
          assert r == init[i];
          LessTrichotomy(r.itemId, last.itemId);
        }
      }
    }
  }

  lemma QueueReadBack(deferred: map<string, Retry>)
    requires Keyed(deferred)
    ensures RetriesByItem(Queue(deferred)) == deferred
  {
    QueueLaws(deferred);
    RetriesByItemKeyed(Queue(deferred));
    RetriesReadBack(Queue(deferred));
    assert forall id :: id in deferred ==> deferred[id] in Queue(deferred);
  }

  lemma {:induction false} ClaimsReadBack(claims: seq<Claim>)
    requires DistinctClaims(claims)
    ensures ClaimsByItem(claims).Keys == ClaimIds(claims)
    ensures forall k :: k in claims ==> k.itemId in ClaimsByItem(claims) && ClaimsByItem(claims)[k.itemId] == k
  {
    if claims != [] {
      var init, last := claims[..|claims| - 1], claims[|claims| - 1];
      ClaimsReadBack(init);
      assert claims == init + [last];
      LastClaimApart(init, last);
      assert ClaimIds(claims) == ClaimIds(init) + {last.itemId};
    }
  }

  lemma LastClaimApart(init: seq<Claim>, last: Claim)
    requires DistinctClaims(init + [last])
    ensures forall k :: k in init ==> k.itemId != last.itemId
  {
    forall i | 0 <= i < |init| ensures init[i].itemId != last.itemId {
      assert (init + [last])[i] == init[i] && (init + [last])[|init|] == last;
    }
  }

  lemma {:induction false} ClaimCardinality(claims: seq<Claim>)
    requires DistinctClaims(claims)
    ensures |ClaimIds(claims)| == |claims|
  {
    if claims != [] {
      var init, last := claims[..|claims| - 1], claims[|claims| - 1];
      ClaimCardinality(init);
      assert claims == init + [last];
      assert last.itemId !in ClaimIds(init);
      assert ClaimIds(claims) == ClaimIds(init) + {last.itemId};
    }
  }

  // A scan only adds to what its prefixes decided.

  lemma PrefixSnoc(cs: seq<Candidate>, n: nat, x: Inputs)
    requires n < |cs| && DistinctItems(cs)
    ensures ScanAll(cs[..n + 1], x) == Visit(ScanAll(cs[..n], x), cs[n], x)
    ensures DistinctItems(cs[..n]) && cs[n].itemId !in Ids(cs[..n])
    ensures Ids(cs[..n + 1]) == Ids(cs[..n]) + {cs[n].itemId}
  {
    assert cs[..n + 1][..n] == cs[..n];
    assert cs[..n + 1] == cs[..n] + [cs[n]];
    AppendItem(cs[..n], cs[n]);
  }

  ghost predicate Extends(p: Scan, q: Scan) {
    && p.claims <= q.claims
    && p.consumed <= q.consumed
    && p.deferred.Keys <= q.deferred.Keys
    && (forall id :: id in p.deferred ==> q.deferred[id] == p.deferred[id])
    && Ids(p.newcomers) <= Ids(q.newcomers)
  }

  lemma VisitExtends(p: Scan, c: Candidate, x: Inputs, ids: set<string>)
    requires Partitioned(p, ids, x) && c.itemId !in ids && Keyed(x.retries)
    ensures Extends(p, Visit(p, c, x))
  {
    VisitIsOneOfThree(p, c, x);
    AppendItem(p.newcomers, c);
  }

  lemma {:induction false} ScanExtends(cs: seq<Candidate>, n: nat, x: Inputs)
    requires n <= |cs| && DistinctItems(cs) && Keyed(x.retries)
    ensures Extends(ScanAll(cs[..n], x), ScanAll(cs, x))
    decreases |cs| - n
  {
    if n == |cs| {
      assert cs[..n] == cs;
    } else {
      PrefixSnoc(cs, n, x);
      ScanPartitions(cs[..n], x);
      VisitExtends(ScanAll(cs[..n], x), cs[n], x, Ids(cs[..n]));
      ScanExtends(cs, n + 1, x);
    }
  }

  // The second pass.

  predicate SameRun(runs: map<string, Run>, later: map<string, Run>, id: string) {
    (id in later <==> id in runs) && (id in runs && id in later ==> later[id] == runs[id])
  }

  /** The inputs y of a second pass after a first pass on x. */
  ghost predicate SecondPass(cs: seq<Candidate>, x: Inputs, y: Inputs) {
    var q := Plan(cs, x);
    && y.now == x.now && y.runtime == x.runtime
    && y.claims.Keys == q.consumed
    && y.retries == q.deferred
    && (forall id :: id in q.consumed && id in y.runs ==> y.runs[id].phase.Live() || y.runs[id].phase.OtherPhase?)
    && (forall id :: id in Waiting(q) ==> SameRun(x.runs, y.runs, id))
  }

  /** What the candidate loop of the second pass has rebuilt after the items ids. */
  ghost predicate Rebuilt(s: Scan, q: Scan, ids: set<string>, y: Inputs) {
    && s.consumed == ids * q.consumed
    && s.deferred.Keys == ids * q.deferred.Keys
    && (forall id :: id in s.deferred ==> s.deferred[id] == q.deferred[id])
    && Ids(s.newcomers) == ids * Waiting(q)
    && (forall k :: k in s.claims ==> k.itemId in y.claims && k.attempt == NormalAttempt(y.claims[k.itemId].attempt))
  }

  /** How the first pass treated one candidate, told from its final plan. */
  lemma FirstVisit(cs: seq<Candidate>, n: nat, x: Inputs)
    requires n < |cs| && DistinctItems(cs) && Keyed(x.retries)
    ensures var p, c, q := ScanAll(cs[..n], x), cs[n], Plan(cs, x);
            && Partitioned(p, Ids(cs[..n]), x) && p.consumed <= q.consumed
            && (c.itemId in q.deferred && Due(q.deferred[c.itemId], x.now) ==> |p.claims| >= x.runtime.MaxConcurrent())
            && (c.itemId in Waiting(q) ==> Visit(p, c, x) == p.(newcomers := p.newcomers + [c]))
  {
    var p, c, q := ScanAll(cs[..n], x), cs[n], Plan(cs, x);
    PrefixSnoc(cs, n, x);
    ScanPartitions(cs[..n], x);
    ScanPartitions(cs, x);
    ScanExtends(cs, n, x);
    ScanExtends(cs, n + 1, x);
    ReadySetStaysEmpty(cs, x);
    AdmitFreshExact(ScanAll(cs, x), ScanAll(cs, x).newcomers, x);
    AppendItem(p.newcomers, c);
    VisitIsOneOfThree(p, c, x);
  }

  lemma RebuildClaimed(s: Scan, c: Candidate, q: Scan, ids: set<string>, y: Inputs)
    requires Rebuilt(s, q, ids, y) && c.itemId in q.consumed
    requires q.consumed !! q.deferred.Keys !! Waiting(q)
    requires y.claims.Keys == q.consumed && y.retries == q.deferred
    requires c.itemId in y.runs ==> y.runs[c.itemId].phase.Live() || y.runs[c.itemId].phase.OtherPhase?
    ensures Rebuilt(Visit(s, c, y), q, ids + {c.itemId}, y)
  {
    var k := if c.itemId in y.runs && y.runs[c.itemId].phase.Live()
             then BuildClaimStatus(c, y.runs[c.itemId], y.claims[c.itemId], y.now)
             else BuildClaimWithoutRun(c, y.claims[c.itemId], y.now);
    assert Visit(s, c, y) == Carry(s, k);
  }

  lemma RebuildDeferred(s: Scan, c: Candidate, q: Scan, ids: set<string>, y: Inputs)
    requires Rebuilt(s, q, ids, y) && c.itemId in q.deferred && c.itemId !in ids
    requires q.consumed !! q.deferred.Keys !! Waiting(q)
    requires y.claims.Keys == q.consumed && y.retries == q.deferred
    requires Due(q.deferred[c.itemId], y.now) ==> |s.claims| >= y.runtime.MaxConcurrent()
    ensures Rebuilt(Visit(s, c, y), q, ids + {c.itemId}, y)
  {
    assert Visit(s, c, y) == s.(deferred := s.deferred[c.itemId := q.deferred[c.itemId]]);
  }

  lemma RebuildWaiting(s: Scan, c: Candidate, q: Scan, ids: set<string>, y: Inputs)
    requires Rebuilt(s, q, ids, y) && c.itemId in Waiting(q)
    requires q.consumed !! q.deferred.Keys !! Waiting(q)
    requires y.claims.Keys == q.consumed && y.retries == q.deferred
    requires c.itemId in y.runs ==> y.runs[c.itemId].phase.OtherPhase?
    ensures Rebuilt(Visit(s, c, y), q, ids + {c.itemId}, y)
  {
    assert Visit(s, c, y) == s.(newcomers := s.newcomers + [c]);
    AppendItem(s.newcomers, c);
  }

  /** A candidate that is left waiting has no decisive run. */
  lemma NewcomerHasNoRun(p: Scan, c: Candidate, x: Inputs)
    requires Visit(p, c, x) == p.(newcomers := p.newcomers + [c])
    ensures c.itemId in x.runs ==> x.runs[c.itemId].phase.OtherPhase?
  {
    var q := Visit(p, c, x);
    assert |q.newcomers| == |p.newcomers| + 1;
  }

  lemma RebuildVisit(cs: seq<Candidate>, n: nat, x: Inputs, y: Inputs, s: Scan)
    requires n < |cs| && DistinctItems(cs) && Keyed(x.retries) && SecondPass(cs, x, y)
    requires s == ScanAll(cs[..n], y) && Partitioned(s, Ids(cs[..n]), y)
    requires Rebuilt(s, Plan(cs, x), Ids(cs[..n]), y)
    ensures Rebuilt(Visit(s, cs[n], y), Plan(cs, x), Ids(cs[..n]) + {cs[n].itemId}, y)
  {
    var c, q, p := cs[n], Plan(cs, x), ScanAll(cs[..n], x);
    FirstVisit(cs, n, x);
    PlanPartitions(cs, x);
    PrefixSnoc(cs, n, x);
    assert c in cs && c.itemId in Ids(cs);
    if c.itemId in q.consumed {
      RebuildClaimed(s, c, q, Ids(cs[..n]), y);
    } else if c.itemId in q.deferred {
      AtLeastAsMany(p, s);
      RebuildDeferred(s, c, q, Ids(cs[..n]), y);
    } else {
      NewcomerHasNoRun(p, c, x);
      RebuildWaiting(s, c, q, Ids(cs[..n]), y);
    }
  }

  lemma AtLeastAsMany(p: Scan, s: Scan)
    requires DistinctClaims(p.claims) && ClaimIds(p.claims) == p.consumed
    requires DistinctClaims(s.claims) && ClaimIds(s.claims) == s.consumed
    requires p.consumed <= s.consumed
    ensures |p.claims| <= |s.claims|
  {
    ClaimCardinality(p.claims);
    ClaimCardinality(s.claims);
    SubsetCardinality(p.consumed, s.consumed);
  }

  lemma {:induction false} SubsetCardinality(a: set<string>, b: set<string>)
    requires a <= b
    ensures |a| <= |b|
  {
    assert |b| == |a| + |b - a| by { assert b == a + (b - a); }
  }

  lemma RebuildNext(cs: seq<Candidate>, n: nat, x: Inputs, y: Inputs)
    requires n < |cs| && DistinctItems(cs) && Keyed(x.retries) && SecondPass(cs, x, y)
    requires Rebuilt(ScanAll(cs[..n], y), Plan(cs, x), Ids(cs[..n]), y)
    ensures Rebuilt(ScanAll(cs[..n + 1], y), Plan(cs, x), Ids(cs[..n + 1]), y)
  {
    PlanPartitions(cs, x);
    PrefixSnoc(cs, n, y);
    ScanPartitions(cs[..n], y);
    RebuildVisit(cs, n, x, y, ScanAll(cs[..n], y));
  }

  lemma {:induction false} Rebuild(cs: seq<Candidate>, n: nat, x: Inputs, y: Inputs)
    requires n <= |cs| && DistinctItems(cs) && Keyed(x.retries) && SecondPass(cs, x, y)
    ensures Rebuilt(ScanAll(cs[..n], y), Plan(cs, x), Ids(cs[..n]), y)
    decreases n
  {
    if n > 0 {
      Rebuild(cs, n - 1, x, y);
      RebuildNext(cs, n - 1, x, y);
    }
  }

  function Attempts(claims: seq<Claim>): set<(string, int32)> { set k | k in claims :: (k.itemId, k.attempt) }

  /** Nothing is lost to the status limits. */
  ghost predicate Untruncated(cs: seq<Candidate>, x: Inputs) {
    |Plan(cs, x).claims| <= x.runtime.ClaimLimit() && |Queue(Plan(cs, x).deferred)| <= x.runtime.RetryLimit()
  }

  lemma MaterialiseKeeps(claims: seq<Claim>, outcomes: seq<ClaimOutcome>, now: Time)
    requires |outcomes| == |claims| && DistinctClaims(claims)
    ensures var after := ClaimsByItem(MaterialiseAll(claims, outcomes, now));
            && after.Keys == ClaimIds(claims)
            && (forall k :: k in claims ==> NormalAttempt(after[k.itemId].attempt) == NormalAttempt(k.attempt))
  {
    var later := MaterialiseAll(claims, outcomes, now);
    forall i | 0 <= i < |claims|
      ensures later[i].itemId == claims[i].itemId
      ensures NormalAttempt(later[i].attempt) == NormalAttempt(claims[i].attempt)
    {
    }
    ClaimsReadBack(later);
    forall id | id in ClaimIds(claims) ensures id in ClaimIds(later) {
      var i :| 0 <= i < |claims| && claims[i].itemId == id;
      assert later[i] in later;
    }
    forall k | k in claims ensures NormalAttempt(ClaimsByItem(later)[k.itemId].attempt) == NormalAttempt(k.attempt) {
      var i :| 0 <= i < |claims| && claims[i] == k;
      assert later[i] in later;
    }
  }

  // Attempts start at 1.

  /** No attempt has run into the end of int32. */
  ghost predicate Countable(st: Status) {
    && (forall k :: k in st.claims ==> k.attempt < MAX_INT32)
    && (forall r :: r in st.retries ==> 0 <= r.attempt < MAX_INT32)
  }

  ghost predicate CountableInputs(x: Inputs) {
    && (forall id :: id in x.claims ==> x.claims[id].attempt < MAX_INT32)
    && (forall id :: id in x.retries ==> 0 <= x.retries[id].attempt < MAX_INT32)
  }

  lemma {:induction false} MappedClaims(claims: seq<Claim>)
    ensures forall id :: id in ClaimsByItem(claims) ==> ClaimsByItem(claims)[id] in claims
  {
    if claims != [] {
      MappedClaims(claims[..|claims| - 1]);
    }
  }

  lemma {:induction false} MappedRetries(retries: seq<Retry>)
    ensures forall id :: id in RetriesByItem(retries) ==> RetriesByItem(retries)[id] in retries
  {
    if retries != [] {
      MappedRetries(retries[..|retries| - 1]);
    }
  }

  ghost predicate FromOne(claims: seq<Claim>) { forall i :: 0 <= i < |claims| ==> claims[i].attempt >= 1 }

  lemma AdmitFromOne(p: Scan, c: Candidate, r: Retry, x: Inputs)
    requires FromOne(p.claims) && 0 <= r.attempt < MAX_INT32
    ensures FromOne(Admit(p, c, r, x).claims)
  {
  }

  lemma VisitFromOne(p: Scan, c: Candidate, x: Inputs)
    requires CountableInputs(x) && FromOne(p.claims)
    ensures FromOne(Visit(p, c, x).claims)
  {
    var id := c.itemId;
    var claim, retry := ClaimAt(x.claims, id), RetryAt(x.retries, id);
    if id in x.retries && id !in x.claims {
      AdmitFromOne(p, c, retry, x);
    } else if id in x.runs && x.runs[id].phase.Succeeded? {
      AdmitFromOne(p, c, BuildContinuationRetry(c, claim, retry, x.now), x);
    } else if id in x.runs && x.runs[id].phase.Live() {
      assert Visit(p, c, x) == Carry(p, BuildClaimStatus(c, x.runs[id], claim, x.now));
    } else if id in x.runs && x.runs[id].phase.Failed? {
      AdmitFromOne(p, c, BuildRetryStatus(c, x.runs[id], claim, retry, x.runtime, x.now), x);
    } else if id in x.claims {
      assert Visit(p, c, x) == Carry(p, BuildClaimWithoutRun(c, claim, x.now));
    }
  }

  lemma {:induction false} ScanFromOne(cs: seq<Candidate>, x: Inputs)
    requires CountableInputs(x)
    ensures FromOne(ScanAll(cs, x).claims)
  {
    if cs != [] {
      ScanFromOne(cs[..|cs| - 1], x);
      VisitFromOne(ScanAll(cs[..|cs| - 1], x), cs[|cs| - 1], x);
    }
  }

  lemma PlanFromOne(cs: seq<Candidate>, x: Inputs)
    requires DistinctItems(cs) && Keyed(x.retries) && CountableInputs(x)
    ensures FromOne(Plan(cs, x).claims)
  {
    ReadySetStaysEmpty(cs, x);
    ScanPartitions(cs, x);
    ScanFromOne(cs, x);
    AdmitFreshExact(ScanAll(cs, x), ScanAll(cs, x).newcomers, x);
  }

  /**
   What the second pass of a reconcile meets: untruncated claims that have been given their runs, and nobody else's
   changed.
   */
  ghost predicate Reconciled(st: Status, cs: seq<Candidate>, runs: map<string, Run>, later: map<string, Run>,
                             rt: Runtime, now: Time, outcomes: seq<ClaimOutcome>)
  {
    var q := Plan(cs, InputsOf(st, runs, rt, now));
    && DistinctItems(cs) && Untruncated(cs, InputsOf(st, runs, rt, now)) && Countable(st)
    && |outcomes| == |q.claims|
    && (forall id :: id in Waiting(q) ==> SameRun(runs, later, id))
  }

  /** No claimed item's newest run has ended. */
  ghost predicate NoneEnded(q: Scan, later: map<string, Run>) {
    forall id :: id in q.consumed && id in later ==> later[id].phase.Live() || later[id].phase.OtherPhase?
  }

  ghost function FirstPass(st: Status, cs: seq<Candidate>, runs: map<string, Run>, rt: Runtime, now: Time): Scan {
    Plan(cs, InputsOf(st, runs, rt, now))
  }

  ghost function SecondInputs(q: Scan, later: map<string, Run>, rt: Runtime, now: Time, outcomes: seq<ClaimOutcome>)
    : Inputs
    requires |outcomes| == |q.claims|
  {
    InputsOf(Status(MaterialiseAll(q.claims, outcomes, now), Queue(q.deferred)), later, rt, now)
  }

  lemma SecondReads(st: Status, cs: seq<Candidate>, runs: map<string, Run>, later: map<string, Run>,
                    rt: Runtime, now: Time, outcomes: seq<ClaimOutcome>)
    requires Reconciled(st, cs, runs, later, rt, now, outcomes)
    ensures var q := FirstPass(st, cs, runs, rt, now); var y := SecondInputs(q, later, rt, now, outcomes);
            && Keyed(InputsOf(st, runs, rt, now).retries)
            && y.claims.Keys == q.consumed && y.retries == q.deferred && Keyed(y.retries)
            && ClaimIds(q.claims) == q.consumed && q.consumed !! q.deferred.Keys && q.consumed <= Ids(cs)
            && (forall k :: k in q.claims ==> k.attempt >= 1 && NormalAttempt(y.claims[k.itemId].attempt) == k.attempt)
  {
    var x := InputsOf(st, runs, rt, now);
    var q := Plan(cs, x);
    RetriesByItemKeyed(st.retries);
    MappedClaims(st.claims);
    MappedRetries(st.retries);
    PlanFromOne(cs, x);
    PlanPartitions(cs, x);
    QueueReadBack(q.deferred);
    MaterialiseKeeps(q.claims, outcomes, now);
    forall k | k in q.claims ensures k.attempt >= 1 {
      var i :| 0 <= i < |q.claims| && q.claims[i] == k;
    }
  }

  /**
   Untruncated, the second pass of a reconcile claims the same items at the same attempts and queues the same entries,
   exactly when no claimed item's newest run has ended in between.
   */
  lemma SecondPassStable(st: Status, cs: seq<Candidate>, runs: map<string, Run>, later: map<string, Run>,
                         rt: Runtime, now: Time, outcomes: seq<ClaimOutcome>)
    requires Reconciled(st, cs, runs, later, rt, now, outcomes)
    ensures var first := Pass(st, cs, runs, rt, now);
            |outcomes| == |first.claims| &&
            var second := Pass(Status(MaterialiseAll(first.claims, outcomes, now), first.retries), cs, later, rt, now);
            (second.retries == first.retries && Attempts(second.claims) == Attempts(first.claims))
            <==> NoneEnded(FirstPass(st, cs, runs, rt, now), later)
  {
    var q := FirstPass(st, cs, runs, rt, now);
    var y := SecondInputs(q, later, rt, now, outcomes);
    SecondReads(st, cs, runs, later, rt, now, outcomes);
    if NoneEnded(q, later) {
      SecondPlan(cs, InputsOf(st, runs, rt, now), y);
      SameAttempts(q.claims, Plan(cs, y).claims, y.claims);
    } else {
      var id :| id in q.consumed && id in later && !(later[id].phase.Live() || later[id].phase.OtherPhase?);
      EndedLosesSlot(cs, y, id);
      LostAttempt(q.claims, Take(Plan(cs, y).claims, rt.ClaimLimit()), id);
    }
  }

  lemma LostAttempt(a: seq<Claim>, b: seq<Claim>, id: string)
    requires id in ClaimIds(a) && id !in ClaimIds(b)
    ensures Attempts(a) != Attempts(b)
  {
    var k :| k in a && k.itemId == id;
    assert (k.itemId, k.attempt) in Attempts(a);
    forall m | m in b ensures m.itemId != id {
      assert m.itemId in ClaimIds(b);
    }
  }

  /** A claimed item whose run has ended leaves the claims for the queue. */
  lemma EndedLosesSlot(cs: seq<Candidate>, y: Inputs, id: string)
    requires DistinctItems(cs) && Keyed(y.retries) && id in Ids(cs) && id in y.claims && id !in y.retries
    requires id in y.runs && (y.runs[id].phase.Failed? || y.runs[id].phase.Succeeded?)
    ensures forall limit: nat :: id !in ClaimIds(Take(Plan(cs, y).claims, limit))
  {
    var n :| 0 <= n < |cs| && cs[n].itemId == id;
    PrefixSnoc(cs, n, y);
    VisitOfClaim(ScanAll(cs[..n], y), cs[n], y);
    ScanExtends(cs, n + 1, y);
    EndedStaysQueued(cs, y, id);
  }

  lemma EndedStaysQueued(cs: seq<Candidate>, y: Inputs, id: string)
    requires DistinctItems(cs) && Keyed(y.retries) && id in ScanAll(cs, y).deferred
    ensures forall limit: nat :: id !in ClaimIds(Take(Plan(cs, y).claims, limit))
  {
    ReadySetStaysEmpty(cs, y);
    ScanPartitions(cs, y);
    AdmitFreshExact(ScanAll(cs, y), ScanAll(cs, y).newcomers, y);
    PlanPartitions(cs, y);
    var claims := Plan(cs, y).claims;
    forall limit: nat ensures id !in ClaimIds(Take(claims, limit)) {
      assert forall k :: k in Take(claims, limit) ==> k in claims;
    }
  }

  /** A visit to a claimed item: a finished run queues it, anything else keeps it. */
  lemma VisitOfClaim(p: Scan, c: Candidate, x: Inputs)
    requires c.itemId in x.claims && c.itemId !in x.retries
    ensures var v, id, attempt := Visit(p, c, x), c.itemId, NormalAttempt(x.claims[c.itemId].attempt);
            if id in x.runs && x.runs[id].phase.Failed? then
              && id in v.deferred && v.deferred[id].itemId == id && v.deferred[id].attempt == attempt
              && v.deferred[id].readyAt == Some(x.now + x.runtime.Delay(attempt))
            else if id in x.runs && x.runs[id].phase.Succeeded? then
              && id in v.deferred && v.deferred[id].itemId == id && v.deferred[id].attempt == attempt
              && v.deferred[id].reason == "Continuation" && v.deferred[id].readyAt == Some(x.now + 1_000_000_000)
            else
              && |v.claims| == |p.claims| + 1
              && v.claims[|p.claims|].itemId == id && v.claims[|p.claims|].attempt == attempt
  {
    var id, previous := c.itemId, x.claims[c.itemId];
    if id in x.runs && x.runs[id].phase.Failed? {
      var r := BuildRetryStatus(c, x.runs[id], previous, ZERO_RETRY, x.runtime, x.now);
      Backoff.RetryDelayMonotone(x.runtime.retryBaseDelaySeconds, x.runtime.retryMaxDelaySeconds, r.attempt, r.attempt);
      assert Visit(p, c, x) == Admit(p, c, r, x);
    } else if id in x.runs && x.runs[id].phase.Succeeded? {
      assert Visit(p, c, x) == Admit(p, c, BuildContinuationRetry(c, previous, ZERO_RETRY, x.now), x);
    }
  }

  /** With no newcomer or no free slot, the candidate loop already is the whole plan. */
  lemma PlanIsScan(cs: seq<Candidate>, y: Inputs)
    requires DistinctItems(cs) && Keyed(y.retries)
    requires ScanAll(cs, y).newcomers == [] || |ScanAll(cs, y).claims| >= y.runtime.MaxConcurrent()
    ensures Plan(cs, y) == ScanAll(cs, y)
  {
    ReadySetStaysEmpty(cs, y);
  }

  lemma SecondPlan(cs: seq<Candidate>, x: Inputs, y: Inputs)
    requires DistinctItems(cs) && Keyed(x.retries) && SecondPass(cs, x, y)
    ensures var q, s := Plan(cs, x), Plan(cs, y);
            && s.deferred == q.deferred && ClaimIds(s.claims) == ClaimIds(q.claims) && |s.claims| == |q.claims|
            && (forall k :: k in s.claims ==> k.itemId in y.claims)
            && (forall k :: k in s.claims ==> k.attempt == NormalAttempt(y.claims[k.itemId].attempt))
  {
    PlanPartitions(cs, x);
    Rebuild(cs, |cs|, x, y);
    assert cs[..|cs|] == cs;
    ScanPartitions(cs, y);
    var q, s := Plan(cs, x), ScanAll(cs, y);
    SameDecisions(s, q, Ids(cs), y);
    PlanIsScan(cs, y);
  }

  lemma Absorb(ids: set<string>, part: set<string>)
    requires part <= ids
    ensures ids * part == part
  {
  }

  lemma SameDecisions(s: Scan, q: Scan, ids: set<string>, y: Inputs)
    requires Rebuilt(s, q, ids, y) && q.consumed + q.deferred.Keys + Waiting(q) == ids
    requires DistinctClaims(s.claims) && ClaimIds(s.claims) == s.consumed
    requires DistinctClaims(q.claims) && ClaimIds(q.claims) == q.consumed
    requires Waiting(q) != {} ==> |q.claims| >= y.runtime.MaxConcurrent()
    ensures s.consumed == q.consumed && s.deferred == q.deferred && |s.claims| == |q.claims|
    ensures s.newcomers == [] || |s.claims| >= y.runtime.MaxConcurrent()
  {
    SameSets(s, q, ids, y);
    ClaimCardinality(s.claims);
    ClaimCardinality(q.claims);
    if s.newcomers != [] {
      assert s.newcomers[0].itemId in Ids(s.newcomers);
    }
  }

  lemma SameSets(s: Scan, q: Scan, ids: set<string>, y: Inputs)
    requires Rebuilt(s, q, ids, y) && q.consumed + q.deferred.Keys + Waiting(q) == ids
    ensures s.consumed == q.consumed && s.deferred == q.deferred && Ids(s.newcomers) == Waiting(q)
  {
    Absorb(ids, q.consumed);
    Absorb(ids, q.deferred.Keys);
    Absorb(ids, Waiting(q));
  }

  lemma SameAttempts(a: seq<Claim>, b: seq<Claim>, m: map<string, Claim>)
    requires ClaimIds(a) == ClaimIds(b)
    requires forall k :: k in a ==> k.attempt >= 1 && k.itemId in m && NormalAttempt(m[k.itemId].attempt) == k.attempt
    requires forall k :: k in b ==> k.itemId in m && k.attempt == NormalAttempt(m[k.itemId].attempt)
    ensures Attempts(a) == Attempts(b)
  {
    forall k | k in a ensures (k.itemId, k.attempt) in Attempts(b) {
      assert k.itemId in ClaimIds(b);
    }
    forall k | k in b ensures (k.itemId, k.attempt) in Attempts(a) {
      assert k.itemId in ClaimIds(a);
    }
  }
}
