/** What the limits of the status cut off, and what the scheduler then no longer knows. */
module SchedulerTruncation {
  import opened Text
  import Backoff
  import opened Scheduler
  import opened SchedulerLaws
  import opened SchedulerStability
  import opened SchedulerHistory

  /** A pass keeps exactly the first claims it made and the first entries of its queue. */
  lemma TruncationIsPrefix(st: Status, cs: seq<Candidate>, runs: map<string, Run>, rt: Runtime, now: Time)
    requires DistinctItems(cs)
    ensures var q, b := Plan(cs, InputsOf(st, runs, rt, now)), Pass(st, cs, runs, rt, now);
            && (forall i :: 0 <= i < |q.claims| ==> (q.claims[i].itemId in ClaimIds(b.claims) <==> i < rt.ClaimLimit()))
            && (forall i :: 0 <= i < |Queue(q.deferred)| ==>
                  (Queue(q.deferred)[i].itemId in RetryIds(b.retries) <==> i < rt.RetryLimit()))
  {
    var x := InputsOf(st, runs, rt, now);
    RetriesByItemKeyed(st.retries);
    PlanPartitions(cs, x);
    QueueLaws(Plan(cs, x).deferred);
    TakenClaims(Plan(cs, x).claims, rt.ClaimLimit());
    TakenRetries(Queue(Plan(cs, x).deferred), rt.RetryLimit());
  }

  lemma TakenClaims(claims: seq<Claim>, limit: nat)
    requires DistinctClaims(claims)
    ensures forall i :: 0 <= i < |claims| ==> (claims[i].itemId in ClaimIds(Take(claims, limit)) <==> i < limit)
  {
    var taken := Take(claims, limit);
    forall i | 0 <= i < |claims| ensures claims[i].itemId in ClaimIds(taken) <==> i < limit {
      if i < limit {
        assert taken[i] in taken;
      }
      assert forall j :: 0 <= j < |taken| ==> taken[j] == claims[j];
    }
  }

  lemma TakenRetries(retries: seq<Retry>, limit: nat)
    requires AscendingRetries(retries)
    ensures forall i :: 0 <= i < |retries| ==> (retries[i].itemId in RetryIds(Take(retries, limit)) <==> i < limit)
  {
    var taken := Take(retries, limit);
    forall i | 0 <= i < |retries| ensures retries[i].itemId in RetryIds(taken) <==> i < limit {
      if i < limit {
        assert taken[i] in taken;
      }
      forall j | 0 <= j < |taken| && taken[j].itemId == retries[i].itemId ensures j == i {
        LessTrichotomy(retries[i].itemId, retries[j].itemId);
      }
    }
  }

  // An item that was cut off.

  /** Whatever has been decided for the item so far, it is at its first attempt. */
  ghost predicate AtFirst(p: Scan, id: string) {
    && (forall i :: 0 <= i < |p.claims| && p.claims[i].itemId == id ==> p.claims[i].attempt == 1)
    && (id in p.deferred ==> p.deferred[id].attempt == 1)
  }

  lemma VisitAtFirst(p: Scan, c: Candidate, x: Inputs, id: string)
    requires AtFirst(p, id) && Keyed(x.retries) && id !in x.claims && id !in x.retries
    ensures AtFirst(Visit(p, c, x), id)
  {
    if c.itemId == id {
      VisitOfUnknown(p, c, x);
    } else {
      VisitIsOneOfThree(p, c, x);
    }
  }

  lemma VisitOfUnknown(p: Scan, c: Candidate, x: Inputs)
    requires AtFirst(p, c.itemId) && c.itemId !in x.claims && c.itemId !in x.retries
    ensures AtFirst(Visit(p, c, x), c.itemId)
  {
    if c.itemId in x.runs && x.runs[c.itemId].phase.Failed? {
      Backoff.RetryDelayMonotone(x.runtime.retryBaseDelaySeconds, x.runtime.retryMaxDelaySeconds, 1, 1);
    }
  }

  lemma {:induction false} ScanAtFirst(cs: seq<Candidate>, x: Inputs, id: string)
    requires Keyed(x.retries) && id !in x.claims && id !in x.retries
    ensures AtFirst(ScanAll(cs, x), id)
  {
    if cs != [] {
      ScanAtFirst(cs[..|cs| - 1], x, id);
      VisitAtFirst(ScanAll(cs[..|cs| - 1], x), cs[|cs| - 1], x, id);
    }
  }

  /**
   Truncation forgets attempts: once an item is in neither list of the status, whether it is new or was cut off
   after any number of attempts, the next poll can only claim or queue it at attempt 1.
   */
  lemma ForgottenStartsOver(a: Status, poll: Poll, b: Status, id: string, attempt: int32)
    requires Exclusive(a) && Follows(a, poll, b) && Idle(a, id) && AtAttempt(b, id, attempt)
    ensures attempt == 1
  {
    var d := Decision(a, poll, b);
    AttemptDecided(poll, d, id, attempt);
    ForgottenDecision(a, poll, d, id, attempt);
  }

  lemma AttemptDecided(poll: Poll, d: Status, id: string, attempt: int32)
    requires AtAttempt(ReadBack(poll, d), id, attempt)
    ensures AtAttempt(d, id, attempt)
  {
    var b := ReadBack(poll, d);
    if k :| k in b.claims && k.itemId == id && k.attempt == attempt {
      var i :| 0 <= i < |b.claims| && b.claims[i] == k;
      assert d.claims[i] in d.claims;
    } else {
      var r :| r in b.retries && r.itemId == id && r.attempt == attempt;
      var i :| 0 <= i < |b.retries| && b.retries[i] == r;
      assert d.retries[i] in d.retries;
    }
  }

  lemma ForgottenDecision(a: Status, poll: Poll, d: Status, id: string, attempt: int32)
    requires Exclusive(a) && Decides(a, poll, d) && Idle(a, id) && AtAttempt(d, id, attempt)
    ensures attempt == 1
  {
    var x, cs := PollInputs(a, poll), poll.cs;
    InputsSeen(a, poll);
    ForgottenPlan(cs, x, id);
    PlanPartitions(cs, x);
    QueueLaws(Plan(cs, x).deferred);
    if k :| k in d.claims && k.itemId == id && k.attempt == attempt {
      assert k in Plan(cs, x).claims;
    } else {
      var r :| r in d.retries && r.itemId == id && r.attempt == attempt;
      assert r in Queue(Plan(cs, x).deferred);
    }
  }

  lemma ForgottenPlan(cs: seq<Candidate>, x: Inputs, id: string)
    requires DistinctItems(cs) && Keyed(x.retries) && id !in x.claims && id !in x.retries
    ensures AtFirst(Plan(cs, x), id)
  {
    ReadySetStaysEmpty(cs, x);
    ScanPartitions(cs, x);
    ScanAtFirst(cs, x, id);
    AdmitFreshExact(ScanAll(cs, x), ScanAll(cs, x).newcomers, x);
  }
}
