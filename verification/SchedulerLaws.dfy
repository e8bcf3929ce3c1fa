/** Laws of a single scheduler pass: who is claimed, queued or waiting, and how many slots are held. */
module SchedulerLaws {
  import opened Text
  import opened Scheduler

  ghost predicate DistinctItems(cs: seq<Candidate>) {
    forall i, j :: 0 <= i < j < |cs| ==> cs[i].itemId != cs[j].itemId
  }

  ghost predicate DistinctClaims(claims: seq<Claim>) {
    forall i, j :: 0 <= i < j < |claims| ==> claims[i].itemId != claims[j].itemId
  }

  function Ids(cs: seq<Candidate>): set<string> { set c | c in cs :: c.itemId }

  function ClaimIds(claims: seq<Claim>): set<string> { set c | c in claims :: c.itemId }

  ghost predicate Keyed(retries: map<string, Retry>) {
    forall id :: id in retries ==> retries[id].itemId == id
  }

  // The state of the candidate loop.

  /** No candidate ever reaches the ready set: the two guards before it catch every such item. */
  lemma {:induction false} ReadySetStaysEmpty(cs: seq<Candidate>, x: Inputs)
    ensures ScanAll(cs, x).ready == map[] && ScanAll(cs, x).readyIds == []
    ensures PromoteReady(ScanAll(cs, x), SortIds(ScanAll(cs, x).readyIds), cs, x) == ScanAll(cs, x)
  {
    if cs != [] {
      ReadySetStaysEmpty(cs[..|cs| - 1], x);
    }
  }

  ghost predicate Partitioned(p: Scan, ids: set<string>, x: Inputs) {
    && ClaimIds(p.claims) == p.consumed
    && DistinctClaims(p.claims)
    && DistinctItems(p.newcomers)
    && p.consumed + p.deferred.Keys + Ids(p.newcomers) == ids
    && p.consumed !! p.deferred.Keys
    && p.consumed !! Ids(p.newcomers)
    && p.deferred.Keys !! Ids(p.newcomers)
    && Keyed(p.deferred)
    && (forall id :: id in p.deferred && Due(p.deferred[id], x.now) ==> |p.claims| >= x.runtime.MaxConcurrent())
  }

  lemma AppendClaim(claims: seq<Claim>, claim: Claim)
    requires DistinctClaims(claims) && claim.itemId !in ClaimIds(claims)
    ensures DistinctClaims(claims + [claim])
    ensures ClaimIds(claims + [claim]) == ClaimIds(claims) + {claim.itemId}
  {
    forall i | 0 <= i < |claims| ensures claims[i].itemId != claim.itemId {
      assert claims[i] in claims;
    }
  }

  lemma AppendItem(cs: seq<Candidate>, c: Candidate)
    ensures Ids(cs + [c]) == Ids(cs) + {c.itemId}
    ensures DistinctItems(cs) && c.itemId !in Ids(cs) ==> DistinctItems(cs + [c])
    ensures DistinctItems(cs + [c]) ==> DistinctItems(cs) && c.itemId !in Ids(cs)
  {
    if DistinctItems(cs + [c]) {
      forall i | 0 <= i < |cs| ensures cs[i].itemId != c.itemId {
        assert (cs + [c])[i] == cs[i] && (cs + [c])[|cs|] == c;
      }
      forall i, j | 0 <= i < j < |cs| ensures cs[i].itemId != cs[j].itemId {
        assert (cs + [c])[i] == cs[i] && (cs + [c])[j] == cs[j];
      }
    }
    if c.itemId !in Ids(cs) {
      forall i | 0 <= i < |cs| ensures cs[i].itemId != c.itemId { assert cs[i] in cs; }
    }
  }

  lemma LastItem(cs: seq<Candidate>)
    requires cs != [] && DistinctItems(cs)
    ensures DistinctItems(cs[..|cs| - 1]) && cs[|cs| - 1].itemId !in Ids(cs[..|cs| - 1])
    ensures Ids(cs) == Ids(cs[..|cs| - 1]) + {cs[|cs| - 1].itemId}
  {
    assert cs == cs[..|cs| - 1] + [cs[|cs| - 1]];
    AppendItem(cs[..|cs| - 1], cs[|cs| - 1]);
  }

  lemma ClaimPartitions(p: Scan, claim: Claim, ids: set<string>, x: Inputs)
    requires Partitioned(p, ids, x) && claim.itemId !in ids
    ensures Partitioned(Carry(p, claim), ids + {claim.itemId}, x)
  {
    AppendClaim(p.claims, claim);
    var q := Carry(p, claim);
    assert q.consumed + q.deferred.Keys + Ids(q.newcomers) == ids + {claim.itemId};
  }

  lemma DeferralPartitions(p: Scan, r: Retry, ids: set<string>, x: Inputs)
    requires Partitioned(p, ids, x) && r.itemId !in ids
    requires Due(r, x.now) ==> |p.claims| >= x.runtime.MaxConcurrent()
    ensures Partitioned(p.(deferred := p.deferred[r.itemId := r]), ids + {r.itemId}, x)
  {
    var q := p.(deferred := p.deferred[r.itemId := r]);
    assert q.deferred.Keys == p.deferred.Keys + {r.itemId};
    assert q.consumed + q.deferred.Keys + Ids(q.newcomers) == ids + {r.itemId};
  }

  lemma NewcomerPartitions(p: Scan, c: Candidate, ids: set<string>, x: Inputs)
    requires Partitioned(p, ids, x) && c.itemId !in ids
    ensures Partitioned(p.(newcomers := p.newcomers + [c]), ids + {c.itemId}, x)
  {
    AppendItem(p.newcomers, c);
    var q := p.(newcomers := p.newcomers + [c]);
    assert q.consumed + q.deferred.Keys + Ids(q.newcomers) == ids + {c.itemId};
  }

  /** A visit does exactly one of three things to its candidate: claim it, queue it, or leave it waiting. */
  ghost predicate VisitOutcome(p: Scan, c: Candidate, x: Inputs, q: Scan) {
    || (exists k: Claim :: k.itemId == c.itemId && q == Carry(p, k))
    || (exists r: Retry :: r.itemId == c.itemId && q == p.(deferred := p.deferred[r.itemId := r])
                           && (Due(r, x.now) ==> |p.claims| >= x.runtime.MaxConcurrent()))
    || q == p.(newcomers := p.newcomers + [c])
  }

  lemma AdmitOutcome(p: Scan, c: Candidate, r: Retry, x: Inputs)
    requires r.itemId == c.itemId
    ensures VisitOutcome(p, c, x, Admit(p, c, r, x))
  {
    var k := BuildClaimFromRetry(c, r, x.now);
    assert k.itemId == c.itemId;
    assert Admit(p, c, r, x) == Carry(p, k) || Admit(p, c, r, x) == p.(deferred := p.deferred[r.itemId := r]);
  }

  lemma VisitIsOneOfThree(p: Scan, c: Candidate, x: Inputs)
    requires Keyed(x.retries)
    ensures VisitOutcome(p, c, x, Visit(p, c, x))
  {
    var id := c.itemId;
    var claim, retry := ClaimAt(x.claims, id), RetryAt(x.retries, id);
    if id in x.retries && id !in x.claims {
      AdmitOutcome(p, c, retry, x);
    } else if id in x.runs && x.runs[id].phase.Succeeded? {
      AdmitOutcome(p, c, BuildContinuationRetry(c, claim, retry, x.now), x);
    } else if id in x.runs && x.runs[id].phase.Live() {
      assert Visit(p, c, x) == Carry(p, BuildClaimStatus(c, x.runs[id], claim, x.now));
    } else if id in x.runs && x.runs[id].phase.Failed? {
      AdmitOutcome(p, c, BuildRetryStatus(c, x.runs[id], claim, retry, x.runtime, x.now), x);
    } else if id in x.claims {
      assert Visit(p, c, x) == Carry(p, BuildClaimWithoutRun(c, claim, x.now));
    }
  }

  lemma VisitPartitions(p: Scan, c: Candidate, ids: set<string>, x: Inputs)
    requires Partitioned(p, ids, x) && Keyed(x.retries) && c.itemId !in ids
    ensures Partitioned(Visit(p, c, x), ids + {c.itemId}, x)
  {
    VisitIsOneOfThree(p, c, x);
    var q := Visit(p, c, x);
    if k: Claim :| k.itemId == c.itemId && q == Carry(p, k) {
      ClaimPartitions(p, k, ids, x);
    } else if r: Retry :| r.itemId == c.itemId && q == p.(deferred := p.deferred[r.itemId := r])
                          && (Due(r, x.now) ==> |p.claims| >= x.runtime.MaxConcurrent()) {
      DeferralPartitions(p, r, ids, x);
    } else {
      NewcomerPartitions(p, c, ids, x);
    }
  }

  lemma {:induction false} ScanPartitions(cs: seq<Candidate>, x: Inputs)
    requires DistinctItems(cs) && Keyed(x.retries)
    ensures Partitioned(ScanAll(cs, x), Ids(cs), x)
  {
    if cs != [] {
      LastItem(cs);
      ScanPartitions(cs[..|cs| - 1], x);
      VisitPartitions(ScanAll(cs[..|cs| - 1], x), cs[|cs| - 1], Ids(cs[..|cs| - 1]), x);
    }
  }

  // The admission of fresh candidates.

  function FreshClaims(cs: seq<Candidate>, now: Time): seq<Claim> {
    seq(|cs|, i requires 0 <= i < |cs| => BuildFreshClaim(cs[i], now))
  }

  /** How many of n waiting candidates the free slots take. */
  function Vacancies(taken: nat, n: nat, max: nat): (k: nat)
    ensures k <= n
  {
    if taken >= max then 0 else if n <= max - taken then n else max - taken
  }

  /** The loop with its skip and its break admits exactly a prefix, as long as the free slots. */
  lemma {:induction false} AdmitFreshExact(p: Scan, cs: seq<Candidate>, x: Inputs)
    requires DistinctItems(cs) && Ids(cs) !! p.consumed
    ensures var k := Vacancies(|p.claims|, |cs|, x.runtime.MaxConcurrent());
            AdmitFresh(p, cs, x) == p.(claims := p.claims + FreshClaims(cs[..k], x.now),
                                       consumed := p.consumed + Ids(cs[..k]))
    decreases cs
  {
    var k := Vacancies(|p.claims|, |cs|, x.runtime.MaxConcurrent());
    if k == 0 {
      assert Ids(cs[..0]) == {};
    } else {
      var p' := Carry(p, BuildFreshClaim(cs[0], x.now));
      assert cs[0] in cs;
      SplitHead(cs, k, x.now);
      AdmitFreshExact(p', cs[1..], x);
    }
  }

  lemma SplitHead(cs: seq<Candidate>, k: nat, now: Time)
    requires 0 < k <= |cs| && DistinctItems(cs)
    ensures Ids(cs[1..]) <= Ids(cs) - {cs[0].itemId}
    ensures Ids(cs[..k]) == {cs[0].itemId} + Ids(cs[1..][..k - 1])
    ensures FreshClaims(cs[..k], now) == [BuildFreshClaim(cs[0], now)] + FreshClaims(cs[1..][..k - 1], now)
  {
    forall c | c in cs[1..] ensures c in cs && c.itemId != cs[0].itemId {
      var j :| 1 <= j < |cs| && cs[j] == c;
    }
    assert cs[..k] == [cs[0]] + cs[1..][..k - 1];
  }

  lemma FreshClaimsAppend(claims: seq<Claim>, cs: seq<Candidate>, now: Time)
    requires DistinctClaims(claims) && DistinctItems(cs) && ClaimIds(claims) !! Ids(cs)
    ensures DistinctClaims(claims + FreshClaims(cs, now))
    ensures ClaimIds(claims + FreshClaims(cs, now)) == ClaimIds(claims) + Ids(cs)
  {
    var all := claims + FreshClaims(cs, now);
    forall i | 0 <= i < |cs| ensures all[|claims| + i].itemId == cs[i].itemId && cs[i].itemId in Ids(cs) {
      assert cs[i] in cs;
    }
    forall i | 0 <= i < |claims| ensures all[i] == claims[i] && claims[i].itemId in ClaimIds(claims) {
      assert claims[i] in claims;
    }
    forall id | id in Ids(cs) ensures id in ClaimIds(all) {
      var i :| 0 <= i < |cs| && cs[i].itemId == id;
      assert all[|claims| + i] in all;
    }
    forall id | id in ClaimIds(claims) ensures id in ClaimIds(all) {
      var i :| 0 <= i < |claims| && claims[i].itemId == id;
      assert all[i] in all;
    }
  }

  /** The candidates a pass leaves neither claimed nor queued. */
  ghost function Waiting(q: Scan): set<string> { Ids(q.newcomers) - q.consumed }

  /**
   Every candidate ends a pass in exactly one of the claims, the retry queue and the waiting set, and nothing
   else does; and a candidate waits, or a due retry is queued, only when every slot is held.
   */
  lemma PlanPartitions(cs: seq<Candidate>, x: Inputs)
    requires DistinctItems(cs) && Keyed(x.retries)
    ensures var q := Plan(cs, x);
            && ClaimIds(q.claims) == q.consumed && DistinctClaims(q.claims) && Keyed(q.deferred)
            && q.consumed !! q.deferred.Keys !! Waiting(q)
            && q.consumed + q.deferred.Keys + Waiting(q) == Ids(cs)
            && (Waiting(q) != {} ==> |q.claims| >= x.runtime.MaxConcurrent())
            && (forall id :: id in q.deferred && Due(q.deferred[id], x.now) ==> |q.claims| >= x.runtime.MaxConcurrent())
  {
    ReadySetStaysEmpty(cs, x);
    ScanPartitions(cs, x);
    var p := ScanAll(cs, x);
    AdmitFreshExact(p, p.newcomers, x);
    var k := Vacancies(|p.claims|, |p.newcomers|, x.runtime.MaxConcurrent());
    PrefixItems(p.newcomers, k);
    FreshClaimsAppend(p.claims, p.newcomers[..k], x.now);
    if k == |p.newcomers| {
      assert p.newcomers[..k] == p.newcomers;
    }
  }

  lemma PrefixItems(cs: seq<Candidate>, k: nat)
    requires k <= |cs| && DistinctItems(cs)
    ensures DistinctItems(cs[..k]) && Ids(cs[..k]) <= Ids(cs)
  {
  }

  // What a pass leaves in the status, whatever the status was before.

  ghost predicate AscendingRetries(retries: seq<Retry>) {
    forall i, j :: 0 <= i < j < |retries| ==> Less(retries[i].itemId, retries[j].itemId)
  }

  function RetryIds(retries: seq<Retry>): set<string> { set r | r in retries :: r.itemId }

  /** No item is claimed twice, queued twice, or both claimed and queued; the queue is in item order. */
  ghost predicate Exclusive(st: Status) {
    && DistinctClaims(st.claims)
    && AscendingRetries(st.retries)
    && ClaimIds(st.claims) !! RetryIds(st.retries)
  }

  lemma QueueLaws(deferred: map<string, Retry>)
    requires Keyed(deferred)
    ensures AscendingRetries(Queue(deferred)) && RetryIds(Queue(deferred)) == deferred.Keys
    ensures forall r :: r in Queue(deferred) <==> r.itemId in deferred && deferred[r.itemId] == r
  {
    var ids, q := SortedKeys(deferred.Keys), Queue(deferred);
    forall i | 0 <= i < |ids| ensures q[i].itemId == ids[i] && q[i] == deferred[ids[i]] {
      assert ids[i] in ids;
    }
    forall id | id in deferred ensures deferred[id] in q {
      assert id in ids;
      var i :| 0 <= i < |ids| && ids[i] == id;
      assert q[i] == deferred[id];
    }
  }

  lemma {:induction false} RetriesByItemKeyed(retries: seq<Retry>)
    ensures Keyed(RetriesByItem(retries)) && RetriesByItem(retries).Keys == RetryIds(retries)
  {
    if retries != [] {
      RetriesByItemKeyed(retries[..|retries| - 1]);
      assert retries == retries[..|retries| - 1] + [retries[|retries| - 1]];
    }
  }

  lemma PassExcludes(st: Status, cs: seq<Candidate>, runs: map<string, Run>, rt: Runtime, now: Time)
    requires DistinctItems(cs)
    ensures var st' := Pass(st, cs, runs, rt, now);
            Exclusive(st') && ClaimIds(st'.claims) + RetryIds(st'.retries) <= Ids(cs)
  {
    var x := InputsOf(st, runs, rt, now);
    RetriesByItemKeyed(st.retries);
    PlanPartitions(cs, x);
    QueueLaws(Plan(cs, x).deferred);
    TakeExcludes(Plan(cs, x).claims, Queue(Plan(cs, x).deferred), rt.ClaimLimit(), rt.RetryLimit());
  }

  lemma TakeExcludes(claims: seq<Claim>, retries: seq<Retry>, m: nat, n: nat)
    requires Exclusive(Status(claims, retries))
    ensures Exclusive(Status(Take(claims, m), Take(retries, n)))
    ensures ClaimIds(Take(claims, m)) <= ClaimIds(claims) && RetryIds(Take(retries, n)) <= RetryIds(retries)
  {
    assert forall c :: c in Take(claims, m) ==> c in claims;
    assert forall r :: r in Take(retries, n) ==> r in retries;
    assert ClaimIds(Take(claims, m)) <= ClaimIds(claims) && RetryIds(Take(retries, n)) <= RetryIds(retries);
  }

  // How many slots a pass holds.

  /** The item keeps a slot without asking for one: a live run, or a previous claim without a decisive run. */
  predicate Held(c: Candidate, x: Inputs) {
    var id := c.itemId;
    && (id in x.retries ==> id in x.claims)
    && (if id in x.runs && !x.runs[id].phase.OtherPhase? then x.runs[id].phase.Live() else id in x.claims)
  }

  function HeldCount(cs: seq<Candidate>, x: Inputs): nat {
    if cs == [] then 0 else HeldCount(cs[..|cs| - 1], x) + if Held(cs[|cs| - 1], x) then 1 else 0
  }

  /** The visits that turned a retry entry into a claim. */
  function PromotedCount(cs: seq<Candidate>, x: Inputs): nat {
    if cs == [] then 0
    else
      var before := cs[..|cs| - 1];
      PromotedCount(before, x)
      + if !Held(cs[|cs| - 1], x) && |ScanAll(cs, x).claims| > |ScanAll(before, x).claims| then 1 else 0
  }

  lemma VisitCounts(p: Scan, c: Candidate, x: Inputs)
    ensures var n := |Visit(p, c, x).claims|;
            if Held(c, x) then n == |p.claims| + 1
            else n == |p.claims| || (n == |p.claims| + 1 && |p.claims| < x.runtime.MaxConcurrent())
  {
  }

  lemma {:induction false} ScanCounts(cs: seq<Candidate>, x: Inputs)
    ensures |ScanAll(cs, x).claims| == HeldCount(cs, x) + PromotedCount(cs, x)
    ensures PromotedCount(cs, x) <= x.runtime.MaxConcurrent()
  {
    if cs != [] {
      ScanCounts(cs[..|cs| - 1], x);
      VisitCounts(ScanAll(cs[..|cs| - 1], x), cs[|cs| - 1], x);
    }
  }

  /** Exactly how many slots a pass holds: the held and promoted ones, topped up with newcomers to the limit. */
  lemma SlotCount(cs: seq<Candidate>, x: Inputs)
    requires DistinctItems(cs) && Keyed(x.retries)
    ensures var taken := HeldCount(cs, x) + PromotedCount(cs, x);
            |Plan(cs, x).claims| == taken + Vacancies(taken, |ScanAll(cs, x).newcomers|, x.runtime.MaxConcurrent())
  {
    ReadySetStaysEmpty(cs, x);
    ScanPartitions(cs, x);
    ScanCounts(cs, x);
    AdmitFreshExact(ScanAll(cs, x), ScanAll(cs, x).newcomers, x);
  }

  /** The slot bound: held slots come on top of the limit, and only promotions can make that happen. */
  lemma SlotBound(cs: seq<Candidate>, x: Inputs)
    requires DistinctItems(cs) && Keyed(x.retries)
    ensures var n, max := |Plan(cs, x).claims|, x.runtime.MaxConcurrent();
            && n <= max + HeldCount(cs, x)
            && (PromotedCount(cs, x) == 0 ==> n <= if HeldCount(cs, x) > max then HeldCount(cs, x) else max)
  {
    SlotCount(cs, x);
    ScanCounts(cs, x);
  }
}
