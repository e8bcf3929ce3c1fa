/** Histories of passes: retries are never early, are never lost, and attempts never fall. */
module SchedulerHistory {
  import opened Text
  import Backoff
  import opened Scheduler
  import opened SchedulerLaws
  import opened SchedulerStability

  /**
   One pass together with the materialisation of the previous claims that came before it. Of the two passes of a
   reconcile the second one is stored, and the next reconcile reads back what the API server made of it.
   */
  datatype Poll = Poll(outcomes: seq<ClaimOutcome>, materialisedAt: Time, cs: seq<Candidate>,
                       runs: map<string, Run>, runtime: Runtime, now: Time, stored: bool)

  function Materialised(a: Status, poll: Poll): Status
    requires |poll.outcomes| == |a.claims|
  {
    Status(MaterialiseAll(a.claims, poll.outcomes, poll.materialisedAt), a.retries)
  }

  ghost function PollInputs(a: Status, poll: Poll): Inputs
    requires |poll.outcomes| == |a.claims|
  {
    InputsOf(Materialised(a, poll), poll.runs, poll.runtime, poll.now)
  }

  /** The status d is what the pass of poll decides after a, on a board without duplicate items. */
  ghost predicate Decides(a: Status, poll: Poll, d: Status) {
    && |poll.outcomes| == |a.claims|
    && DistinctItems(poll.cs)
    && d == Pass(Materialised(a, poll), poll.cs, poll.runs, poll.runtime, poll.now)
  }

  function ReadBack(poll: Poll, d: Status): Status { if poll.stored then Stored(d) else d }

  /** The status b is what the next pass finds after poll. */
  ghost predicate Follows(a: Status, poll: Poll, b: Status) {
    && |poll.outcomes| == |a.claims|
    && DistinctItems(poll.cs)
    && b == ReadBack(poll, Pass(Materialised(a, poll), poll.cs, poll.runs, poll.runtime, poll.now))
  }

  lemma Decision(a: Status, poll: Poll, b: Status) returns (d: Status)
    requires Follows(a, poll, b)
    ensures Decides(a, poll, d) && b == ReadBack(poll, d)
  {
    d := Pass(Materialised(a, poll), poll.cs, poll.runs, poll.runtime, poll.now);
  }

  // Storing a status changes times only.

  lemma StoredKeepsIds(st: Status)
    ensures ClaimIds(Stored(st).claims) == ClaimIds(st.claims) && RetryIds(Stored(st).retries) == RetryIds(st.retries)
    ensures Exclusive(st) ==> Exclusive(Stored(st))
  {
    var s := Stored(st);
    forall id | id in ClaimIds(st.claims) ensures id in ClaimIds(s.claims) {
      var i :| 0 <= i < |st.claims| && st.claims[i].itemId == id;
      assert s.claims[i] in s.claims;
    }
    forall id | id in RetryIds(st.retries) ensures id in RetryIds(s.retries) {
      var i :| 0 <= i < |st.retries| && st.retries[i].itemId == id;
      assert s.retries[i] in s.retries;
    }
    if Exclusive(st) {
      forall i, j | 0 <= i < j < |s.retries| ensures Less(s.retries[i].itemId, s.retries[j].itemId) {
        assert Less(st.retries[i].itemId, st.retries[j].itemId);
      }
    }
  }

  predicate RoundedTo(t: Option<Time>, stored: Option<Time>) {
    && (t.Some? <==> stored.Some?)
    && (t.Some? ==> stored.value % SECOND == 0 && stored.value <= t.value < stored.value + SECOND)
  }

  /** Storing a status rounds each of its times down to the second and changes nothing else in it. */
  lemma StoredRoundsTimes(st: Status, i: nat)
    ensures |Stored(st).claims| == |st.claims| && |Stored(st).retries| == |st.retries|
    ensures i < |st.claims| ==>
              var (k, s) := (st.claims[i], Stored(st).claims[i]);
              && s.(claimedAt := k.claimedAt, lastUpdated := k.lastUpdated) == k
              && RoundedTo(k.claimedAt, s.claimedAt) && RoundedTo(k.lastUpdated, s.lastUpdated)
    ensures i < |st.retries| ==>
              var (r, s) := (st.retries[i], Stored(st).retries[i]);
              && s.(readyAt := r.readyAt, lastErrorTime := r.lastErrorTime) == r
              && RoundedTo(r.readyAt, s.readyAt) && RoundedTo(r.lastErrorTime, s.lastErrorTime)
  {
  }

  lemma ReadBackKeepsIds(poll: Poll, d: Status)
    ensures var b := ReadBack(poll, d);
            ClaimIds(b.claims) == ClaimIds(d.claims) && RetryIds(b.retries) == RetryIds(d.retries)
    ensures Exclusive(d) ==> Exclusive(ReadBack(poll, d))
  {
    StoredKeepsIds(d);
  }

  lemma ReadBackClaim(poll: Poll, d: Status, k: Claim)
    requires k in d.claims
    ensures k in ReadBack(poll, d).claims || StoredClaim(k) in ReadBack(poll, d).claims
  {
    var i :| 0 <= i < |d.claims| && d.claims[i] == k;
    assert Stored(d).claims[i] == StoredClaim(k);
  }

  lemma ReadBackRetry(poll: Poll, d: Status, r: Retry)
    requires r in d.retries
    ensures QueuedAs(ReadBack(poll, d), r)
  {
    var i :| 0 <= i < |d.retries| && d.retries[i] == r;
    assert Stored(d).retries[i] == StoredRetry(r);
  }

  /** The entry is in the queue, as it was made or as it was stored. */
  ghost predicate QueuedAs(st: Status, r: Retry) { r in st.retries || StoredRetry(r) in st.retries }

  ghost predicate Lossless(a: Status, poll: Poll) {
    |poll.outcomes| == |a.claims| && Untruncated(poll.cs, PollInputs(a, poll))
  }

  ghost predicate ClaimedWith(st: Status, id: string, attempt: int32) {
    exists k :: k in st.claims && k.itemId == id && k.attempt == attempt
  }

  ghost predicate Idle(st: Status, id: string) { id !in ClaimIds(st.claims) && id !in RetryIds(st.retries) }

  // One poll, seen from one item.

  lemma InputsSeen(a: Status, poll: Poll)
    requires Exclusive(a) && |poll.outcomes| == |a.claims|
    ensures var x := PollInputs(a, poll);
            && Keyed(x.retries) && x.claims.Keys == ClaimIds(a.claims) && x.retries.Keys == RetryIds(a.retries)
            && (forall r :: r in a.retries ==> x.retries[r.itemId] == r)
            && (forall k :: k in a.claims ==> NormalAttempt(x.claims[k.itemId].attempt) == NormalAttempt(k.attempt))
  {
    RetriesByItemKeyed(a.retries);
    RetriesReadBack(a.retries);
    MaterialiseKeeps(a.claims, poll.outcomes, poll.materialisedAt);
  }

  /** The status b holds what the visit to the n-th candidate decided. */
  ghost predicate Settled(x: Inputs, cs: seq<Candidate>, n: nat, b: Status)
    requires n < |cs|
  {
    var p, c := ScanAll(cs[..n], x), cs[n];
    var v := Visit(p, c, x);
    && (|v.claims| > |p.claims| ==> v.claims[|v.claims| - 1] in b.claims)
    && (c.itemId in v.deferred ==> v.deferred[c.itemId] in b.retries)
  }

  lemma VisitLasts(a: Status, poll: Poll, b: Status, n: nat)
    requires Exclusive(a) && Decides(a, poll, b) && Lossless(a, poll) && n < |poll.cs|
    ensures Settled(PollInputs(a, poll), poll.cs, n, b) && Exclusive(b)
  {
    var x := PollInputs(a, poll);
    var p, c, q := ScanAll(poll.cs[..n], x), poll.cs[n], Plan(poll.cs, x);
    InputsSeen(a, poll);
    PrefixSnoc(poll.cs, n, x);
    VisitIsOneOfThree(p, c, x);
    ScanExtends(poll.cs, n + 1, x);
    ReadySetStaysEmpty(poll.cs, x);
    ScanPartitions(poll.cs, x);
    AdmitFreshExact(ScanAll(poll.cs, x), ScanAll(poll.cs, x).newcomers, x);
    QueueLaws(q.deferred);
    PassExcludes(Materialised(a, poll), poll.cs, poll.runs, poll.runtime, poll.now);
  }

  predicate AtHead(cs: seq<Candidate>, id: string) { cs != [] && cs[0].itemId == id }

  /** A queued item that stays on the board keeps its entry verbatim, or is claimed once it is due. */
  lemma QueuedDecision(a: Status, poll: Poll, b: Status, r: Retry)
    requires Exclusive(a) && Decides(a, poll, b) && Lossless(a, poll)
    requires r in a.retries && r.itemId in Ids(poll.cs)
    ensures Exclusive(b)
    ensures || (r in b.retries && r.itemId !in ClaimIds(b.claims))
            || (Due(r, poll.now) && ClaimedWith(b, r.itemId, Inc32(r.attempt)) && r.itemId !in RetryIds(b.retries))
    ensures Due(r, poll.now) && AtHead(poll.cs, r.itemId) ==> ClaimedWith(b, r.itemId, Inc32(r.attempt))
  {
    var n := IndexOf(poll.cs, r.itemId);
    var c := poll.cs[n];
    InputsSeen(a, poll);
    VisitLasts(a, poll, b, n);
    var x := PollInputs(a, poll);
    var p := ScanAll(poll.cs[..n], x);
    assert r.itemId in x.retries && x.retries[r.itemId] == r && r.itemId !in x.claims;
    assert Visit(p, c, x) == Admit(p, c, r, x);
    if Due(r, poll.now) && |p.claims| < x.runtime.MaxConcurrent() {
      var k := BuildClaimFromRetry(c, r, poll.now);
      assert k in b.claims;
    } else {
      assert r in b.retries;
    }
  }

  /** What becomes of a claim: its slot is kept, or a queue entry with the same attempt replaces it. */
  ghost predicate ClaimFate(b: Status, poll: Poll, id: string, attempt: int32) {
    if id in poll.runs && poll.runs[id].phase.Failed? then
      exists r :: r in b.retries && r.itemId == id && r.attempt == attempt
                  && r.readyAt == Some(poll.now + poll.runtime.Delay(attempt))
    else if id in poll.runs && poll.runs[id].phase.Succeeded? then
      exists r :: r in b.retries && r.itemId == id && r.attempt == attempt && r.reason == "Continuation"
                  && r.readyAt == Some(poll.now + 1_000_000_000)
    else ClaimedWith(b, id, attempt)
  }

  lemma ClaimedDecision(a: Status, poll: Poll, b: Status, k: Claim)
    requires Exclusive(a) && Decides(a, poll, b) && Lossless(a, poll)
    requires k in a.claims && k.itemId in Ids(poll.cs)
    ensures Exclusive(b) && ClaimFate(b, poll, k.itemId, NormalAttempt(k.attempt))
  {
    var n := IndexOf(poll.cs, k.itemId);
    VisitLasts(a, poll, b, n);
    ClaimSettled(a, poll, b, k, n);
  }

  lemma IndexOf(cs: seq<Candidate>, id: string) returns (n: nat)
    requires id in Ids(cs)
    ensures n < |cs| && cs[n].itemId == id && (cs[0].itemId == id ==> n == 0)
  {
    n :| n < |cs| && cs[n].itemId == id;
    if cs[0].itemId == id {
      n := 0;
    }
  }

  lemma ClaimSettled(a: Status, poll: Poll, b: Status, k: Claim, n: nat)
    requires Exclusive(a) && |poll.outcomes| == |a.claims| && k in a.claims
    requires n < |poll.cs| && poll.cs[n].itemId == k.itemId && Settled(PollInputs(a, poll), poll.cs, n, b)
    ensures ClaimFate(b, poll, k.itemId, NormalAttempt(k.attempt))
  {
    ClaimSeen(a, poll, k);
    ClaimedVisit(ScanAll(poll.cs[..n], PollInputs(a, poll)), poll.cs[n], PollInputs(a, poll), b, poll);
  }

  lemma ClaimSeen(a: Status, poll: Poll, k: Claim)
    requires Exclusive(a) && |poll.outcomes| == |a.claims| && k in a.claims
    ensures var x := PollInputs(a, poll);
            && k.itemId in x.claims && k.itemId !in x.retries
            && NormalAttempt(x.claims[k.itemId].attempt) == NormalAttempt(k.attempt)
  {
    InputsSeen(a, poll);
    assert k.itemId in ClaimIds(a.claims);
  }

  lemma ClaimedVisit(p: Scan, c: Candidate, x: Inputs, b: Status, poll: Poll)
    requires x.runs == poll.runs && x.runtime == poll.runtime && x.now == poll.now
    requires c.itemId in x.claims && c.itemId !in x.retries
    requires var v := Visit(p, c, x);
             && (|v.claims| > |p.claims| ==> v.claims[|v.claims| - 1] in b.claims)
             && (c.itemId in v.deferred ==> v.deferred[c.itemId] in b.retries)
    ensures ClaimFate(b, poll, c.itemId, NormalAttempt(x.claims[c.itemId].attempt))
  {
    VisitOfClaim(p, c, x);
    var v := Visit(p, c, x);
    if c.itemId in x.runs && (x.runs[c.itemId].phase.Failed? || x.runs[c.itemId].phase.Succeeded?) {
      assert v.deferred[c.itemId] in b.retries;
    } else {
      assert v.claims[|v.claims| - 1] in b.claims;
    }
  }

  /** After a poll an item with a live run that was not queued is claimed, and its claim refers to that run. */
  lemma LiveDecision(a: Status, poll: Poll, b: Status, id: string)
    requires Exclusive(a) && Decides(a, poll, b) && Lossless(a, poll) && id in Ids(poll.cs)
    requires id !in RetryIds(a.retries)
    requires id in poll.runs && poll.runs[id].phase.Live()
    ensures exists k :: k in b.claims && k.itemId == id && k.phase == poll.runs[id].phase.Label() && k.claimedAt.Some?
                        && k.runRef == RunRef(Trim(poll.runs[id].sessionName), poll.runs[id].name)
  {
    var n := IndexOf(poll.cs, id);
    InputsSeen(a, poll);
    VisitLasts(a, poll, b, n);
    var x := PollInputs(a, poll);
    LiveVisit(ScanAll(poll.cs[..n], x), poll.cs[n], x);
    var claims := Visit(ScanAll(poll.cs[..n], x), poll.cs[n], x).claims;
    assert claims[|claims| - 1] in b.claims;
  }

  lemma LiveVisit(p: Scan, c: Candidate, x: Inputs)
    requires c.itemId !in x.retries && c.itemId in x.runs && x.runs[c.itemId].phase.Live()
    ensures var claims, run := Visit(p, c, x).claims, x.runs[c.itemId];
            && |claims| == |p.claims| + 1
            && var k := claims[|p.claims|];
            && k.itemId == c.itemId && k.phase == run.phase.Label() && k.claimedAt.Some?
            && k.runRef == RunRef(Trim(run.sessionName), run.name)
  {
  }

  // One poll, with what the API server makes of it.

  /** A queued item that stays on the board keeps its entry, up to storing, or is claimed once it is due. */
  lemma QueuedStep(a: Status, poll: Poll, b: Status, r: Retry)
    requires Exclusive(a) && Follows(a, poll, b) && Lossless(a, poll)
    requires r in a.retries && r.itemId in Ids(poll.cs)
    ensures Exclusive(b)
    ensures || (QueuedAs(b, r) && r.itemId !in ClaimIds(b.claims))
            || (Due(r, poll.now) && ClaimedWith(b, r.itemId, Inc32(r.attempt)) && r.itemId !in RetryIds(b.retries))
    ensures Due(r, poll.now) && AtHead(poll.cs, r.itemId) ==> ClaimedWith(b, r.itemId, Inc32(r.attempt))
  {
    var d := Decision(a, poll, b);
    QueuedDecision(a, poll, d, r);
    ReadBackKeepsIds(poll, d);
    if r in d.retries {
      ReadBackRetry(poll, d, r);
    }
    ReadBackClaimed(poll, d, r.itemId, Inc32(r.attempt));
  }

  lemma ReadBackClaimed(poll: Poll, d: Status, id: string, attempt: int32)
    ensures ClaimedWith(d, id, attempt) ==> ClaimedWith(ReadBack(poll, d), id, attempt)
  {
    if k :| k in d.claims && k.itemId == id && k.attempt == attempt {
      ReadBackClaim(poll, d, k);
    }
  }

  /** What becomes of a claim once it is read back: the same, with the ready time as it is stored. */
  ghost predicate ClaimOutcomeRead(b: Status, poll: Poll, id: string, attempt: int32) {
    if id in poll.runs && poll.runs[id].phase.Failed? then
      exists r :: QueuedAs(b, r) && r.itemId == id && r.attempt == attempt
                  && r.readyAt == Some(poll.now + poll.runtime.Delay(attempt))
    else if id in poll.runs && poll.runs[id].phase.Succeeded? then
      exists r :: QueuedAs(b, r) && r.itemId == id && r.attempt == attempt && r.reason == "Continuation"
                  && r.readyAt == Some(poll.now + SECOND)
    else ClaimedWith(b, id, attempt)
  }

  lemma ClaimedStep(a: Status, poll: Poll, b: Status, k: Claim)
    requires Exclusive(a) && Follows(a, poll, b) && Lossless(a, poll)
    requires k in a.claims && k.itemId in Ids(poll.cs)
    ensures Exclusive(b) && ClaimOutcomeRead(b, poll, k.itemId, NormalAttempt(k.attempt))
  {
    var d := Decision(a, poll, b);
    ClaimedDecision(a, poll, d, k);
    ReadBackKeepsIds(poll, d);
    ReadBackFate(poll, d, k.itemId, NormalAttempt(k.attempt));
  }

  lemma ReadBackFate(poll: Poll, d: Status, id: string, attempt: int32)
    requires ClaimFate(d, poll, id, attempt)
    ensures ClaimOutcomeRead(ReadBack(poll, d), poll, id, attempt)
  {
    if id in poll.runs && poll.runs[id].phase.Failed? {
      var r :| r in d.retries && r.itemId == id && r.attempt == attempt
               && r.readyAt == Some(poll.now + poll.runtime.Delay(attempt));
      ReadBackRetry(poll, d, r);
    } else if id in poll.runs && poll.runs[id].phase.Succeeded? {
      var r :| r in d.retries && r.itemId == id && r.attempt == attempt && r.reason == "Continuation"
               && r.readyAt == Some(poll.now + SECOND);
      ReadBackRetry(poll, d, r);
    } else {
      ReadBackClaimed(poll, d, id, attempt);
    }
  }

  /** After a poll an item with a live run that was not queued is claimed, and its claim refers to that run. */
  lemma LiveClaimShowsRun(a: Status, poll: Poll, b: Status, id: string)
    requires Exclusive(a) && Follows(a, poll, b) && Lossless(a, poll) && id in Ids(poll.cs)
    requires id !in RetryIds(a.retries)
    requires id in poll.runs && poll.runs[id].phase.Live()
    ensures exists k :: k in b.claims && k.itemId == id && k.phase == poll.runs[id].phase.Label() && k.claimedAt.Some?
                        && k.runRef == RunRef(Trim(poll.runs[id].sessionName), poll.runs[id].name)
  {
    var d := Decision(a, poll, b);
    LiveDecision(a, poll, d, id);
    var k :| k in d.claims && k.itemId == id && k.phase == poll.runs[id].phase.Label() && k.claimedAt.Some?
             && k.runRef == RunRef(Trim(poll.runs[id].sessionName), poll.runs[id].name);
    ReadBackClaim(poll, d, k);
    assert StoredClaim(k).itemId == id;
  }

  // Whole histories.

  /** Any number of polls from an exclusive status on, each without loss and with the item id on its board. */
  ghost predicate History(h: seq<Status>, ps: seq<Poll>, id: string) {
    && |h| == |ps| + 1 && Exclusive(h[0])
    && forall i :: 0 <= i < |ps| ==> Follows(h[i], ps[i], h[i + 1]) && Lossless(h[i], ps[i]) && id in Ids(ps[i].cs)
  }

  lemma FollowsExclusive(a: Status, poll: Poll, b: Status)
    requires Follows(a, poll, b)
    ensures Exclusive(b)
  {
    var d := Decision(a, poll, b);
    PassExcludes(Materialised(a, poll), poll.cs, poll.runs, poll.runtime, poll.now);
    ReadBackKeepsIds(poll, d);
  }

  lemma HistoryExclusive(h: seq<Status>, ps: seq<Poll>, id: string, n: nat)
    requires History(h, ps, id) && n <= |ps|
    ensures Exclusive(h[n])
  {
    if n > 0 {
      assert Follows(h[n - 1], ps[n - 1], h[n - 1 + 1]);
      FollowsExclusive(h[n - 1], ps[n - 1], h[n]);
    }
  }

  /** The entry r is in every status before the j-th, up to storing, and its item is not claimed. */
  ghost predicate QueuedUntil(h: seq<Status>, r: Retry, j: nat)
    requires j <= |h|
  {
    forall i :: 0 <= i < j ==> QueuedAs(h[i], r) && r.itemId !in ClaimIds(h[i].claims)
  }

  /** The j-th status is the first to claim r's item: when r was due as it may be stored, and at the next attempt. */
  ghost predicate FirstClaimAt(h: seq<Status>, ps: seq<Poll>, r: Retry, j: nat)
    requires |h| == |ps| + 1
  {
    && 0 < j <= |ps| && QueuedUntil(h, r, j)
    && Due(StoredRetry(r), ps[j - 1].now) && ClaimedWith(h[j], r.itemId, Inc32(r.attempt))
  }

  lemma StartsQueued(h: seq<Status>, r: Retry)
    requires h != [] && Exclusive(h[0]) && QueuedAs(h[0], r)
    ensures QueuedUntil(h, r, 1)
  {
    assert StoredRetry(r).itemId == r.itemId && r.itemId in RetryIds(h[0].retries);
  }

  lemma HistoryStep(h: seq<Status>, ps: seq<Poll>, id: string, i: nat)
    requires History(h, ps, id) && i < |ps|
    ensures Exclusive(h[i]) && Follows(h[i], ps[i], h[i + 1]) && Lossless(h[i], ps[i]) && id in Ids(ps[i].cs)
  {
    HistoryExclusive(h, ps, id, i);
  }

  /** After a poll the entry is still there and unclaimed, or was due as stored and is claimed at the next attempt. */
  ghost predicate StaysOrClaimed(poll: Poll, b: Status, r: Retry) {
    || (QueuedAs(b, r) && r.itemId !in ClaimIds(b.claims))
    || (Due(StoredRetry(r), poll.now) && ClaimedWith(b, r.itemId, Inc32(r.attempt)))
  }

  lemma OnePoll(a: Status, poll: Poll, b: Status, r: Retry)
    requires Exclusive(a) && Follows(a, poll, b) && Lossless(a, poll) && r.itemId in Ids(poll.cs) && QueuedAs(a, r)
    ensures StaysOrClaimed(poll, b, r)
  {
    StoredTwice(r);
    QueuedStep(a, poll, b, if r in a.retries then r else StoredRetry(r));
    DueWhenStored(r, poll.now);
  }

  lemma HistoryPoll(h: seq<Status>, ps: seq<Poll>, r: Retry, i: nat)
    requires History(h, ps, r.itemId) && i < |ps| && QueuedAs(h[i], r)
    ensures StaysOrClaimed(ps[i], h[i + 1], r)
  {
    HistoryStep(h, ps, r.itemId, i);
    OnePoll(h[i], ps[i], h[i + 1], r);
  }

  lemma LastQueued(h: seq<Status>, r: Retry, n: nat)
    requires 0 < n <= |h| && QueuedUntil(h, r, n)
    ensures QueuedAs(h[n - 1], r)
  {
  }

  lemma QueuedOneMore(h: seq<Status>, ps: seq<Poll>, r: Retry, n: nat)
    requires |h| == |ps| + 1 && 0 < n <= |ps| && QueuedUntil(h, r, n) && StaysOrClaimed(ps[n - 1], h[n], r)
    ensures QueuedUntil(h, r, n + 1) || FirstClaimAt(h, ps, r, n)
  {
  }

  lemma NextPoll(h: seq<Status>, ps: seq<Poll>, r: Retry, n: nat)
    requires History(h, ps, r.itemId) && 0 < n <= |ps| && QueuedUntil(h, r, n)
    ensures QueuedUntil(h, r, n + 1) || FirstClaimAt(h, ps, r, n)
  {
    LastQueued(h, r, n);
    HistoryPoll(h, ps, r, n - 1);
    QueuedOneMore(h, ps, r, n);
  }

  lemma {:induction false} QueuedAlong(h: seq<Status>, ps: seq<Poll>, r: Retry, n: nat)
    requires n <= |ps| == |h| - 1 && QueuedUntil(h, r, 1)
    requires forall k: nat :: 0 < k <= n && QueuedUntil(h, r, k) ==>
               QueuedUntil(h, r, k + 1) || FirstClaimAt(h, ps, r, k)
    ensures QueuedUntil(h, r, n + 1) || exists j :: 0 < j <= n && FirstClaimAt(h, ps, r, j)
  {
    if n > 0 {
      QueuedAlong(h, ps, r, n - 1);
    }
  }

  /**
   No early retry: over any history, a queue entry stays, up to storing, and unclaimed until the first poll that claims
   the item, and that poll comes no earlier than the second of the entry's ready time and claims the next attempt.
   */
  lemma NoEarlyRetry(h: seq<Status>, ps: seq<Poll>, r: Retry, n: nat)
    requires History(h, ps, r.itemId) && QueuedAs(h[0], r) && n <= |ps|
    ensures QueuedUntil(h, r, n + 1) || exists j :: 0 < j <= n && FirstClaimAt(h, ps, r, j)
  {
    StartsQueued(h, r);
    forall k: nat | 0 < k <= n && QueuedUntil(h, r, k)
      ensures QueuedUntil(h, r, k + 1) || FirstClaimAt(h, ps, r, k)
    {
      NextPoll(h, ps, r, k);
    }
    QueuedAlong(h, ps, r, n);
  }

  lemma StoredTwice(r: Retry)
    ensures StoredRetry(StoredRetry(r)) == StoredRetry(r)
  {
  }

  lemma DueWhenStored(r: Retry, now: Time)
    ensures Due(r, now) ==> Due(StoredRetry(r), now)
  {
  }

  lemma HistoryTail(h: seq<Status>, ps: seq<Poll>, id: string)
    requires History(h, ps, id) && ps != [] && Exclusive(h[1])
    ensures History(h[1..], ps[1..], id)
  {
    forall i | 0 <= i < |ps| - 1
      ensures Follows(h[1..][i], ps[1..][i], h[1..][i + 1]) && Lossless(h[1..][i], ps[1..][i])
      ensures id in Ids(ps[1..][i].cs)
    {
      assert Follows(h[i + 1], ps[i + 1], h[i + 2]);
    }
  }

  // From the failure on.

  lemma WholeSecondPlus(t: Time, delay: Time)
    requires delay % SECOND == 0
    ensures WholeSecond(t + delay) == WholeSecond(t) + delay
    ensures WholeSecond(t) + delay < t + delay <==> t % SECOND != 0
  {
  }

  /**
   The earliest moment at which a failed attempt may be claimed again: the begun second of the failure plus its
   delay.
   */
  function Earliest(failure: Poll, attempt: int32): Time { WholeSecond(failure.now) + failure.runtime.Delay(attempt) }

  lemma EarliestIsStored(failure: Poll, attempt: int32)
    ensures WholeSecond(failure.now + failure.runtime.Delay(attempt)) == Earliest(failure, attempt)
    ensures Earliest(failure, attempt) < failure.now + failure.runtime.Delay(attempt) <==> failure.now % SECOND != 0
  {
    var rt := failure.runtime;
    Backoff.RetryDelayIsWhole(rt.retryBaseDelaySeconds, rt.retryMaxDelaySeconds, attempt);
    WholeSecondPlus(failure.now, rt.Delay(attempt));
  }

  /** The entry that replaces the failed claim k, as the pass makes it. */
  ghost predicate FailureEntry(st: Status, failure: Poll, k: Claim, r: Retry) {
    && QueuedAs(st, r) && r.itemId == k.itemId && r.attempt == k.attempt
    && r.readyAt == Some(failure.now + failure.runtime.Delay(k.attempt))
  }

  lemma FailureQueues(a: Status, poll: Poll, b: Status, k: Claim) returns (r: Retry)
    requires Exclusive(a) && Follows(a, poll, b) && Lossless(a, poll) && k in a.claims && k.itemId in Ids(poll.cs)
    requires k.attempt >= 1 && k.itemId in poll.runs && poll.runs[k.itemId].phase.Failed?
    ensures FailureEntry(b, poll, k, r)
  {
    ClaimedStep(a, poll, b, k);
    r := FailureRead(b, poll, k);
  }

  lemma FailureRead(b: Status, poll: Poll, k: Claim) returns (r: Retry)
    requires ClaimOutcomeRead(b, poll, k.itemId, k.attempt) && k.itemId in poll.runs
    requires poll.runs[k.itemId].phase.Failed?
    ensures FailureEntry(b, poll, k, r)
  {
    r :| QueuedAs(b, r) && r.itemId == k.itemId && r.attempt == k.attempt
         && r.readyAt == Some(poll.now + poll.runtime.Delay(k.attempt));
  }

  lemma EntryIsStored(st: Status, failure: Poll, k: Claim, r: Retry)
    requires FailureEntry(st, failure, k, r)
    ensures StoredTime(r.readyAt) == Some(Earliest(failure, k.attempt))
  {
    EarliestIsStored(failure, k.attempt);
  }

  /** The j-th status is the first to claim the item again, no earlier than at that time and at the next attempt. */
  ghost predicate ClaimedFrom(h: seq<Status>, ps: seq<Poll>, earliest: Time, k: Claim, r: Retry, j: nat)
    requires |h| == |ps| + 1 && k.attempt < MAX_INT32
  {
    FirstClaimAt(h, ps, r, j) && ps[j - 1].now >= earliest && ClaimedWith(h[j], k.itemId, k.attempt + 1)
  }

  lemma NoEarlierThanStored(h: seq<Status>, ps: seq<Poll>, earliest: Time, k: Claim, r: Retry, n: nat)
    requires History(h, ps, r.itemId) && QueuedAs(h[0], r) && n <= |ps|
    requires r.itemId == k.itemId && r.attempt == k.attempt < MAX_INT32 && StoredTime(r.readyAt) == Some(earliest)
    ensures QueuedUntil(h, r, n + 1) || exists j :: 0 < j <= n && ClaimedFrom(h, ps, earliest, k, r, j)
  {
    NoEarlyRetry(h, ps, r, n);
    if !QueuedUntil(h, r, n + 1) {
      var j :| 0 < j <= n && FirstClaimAt(h, ps, r, j);
      assert ClaimedFrom(h, ps, earliest, k, r, j);
    }
  }

  /**
   A claim with attempt k whose run fails at time t is queued as r with ready time t + retryDelay(k); the next claim of
   the item has attempt k + 1 and comes no earlier than the begun second of t plus retryDelay(k).
   */
  lemma NoEarlyRetryAfterFailure(h: seq<Status>, ps: seq<Poll>, k: Claim, n: nat) returns (r: Retry)
    requires History(h, ps, k.itemId) && k in h[0].claims && 1 <= k.attempt < MAX_INT32 && 1 <= n <= |ps|
    requires k.itemId in ps[0].runs && ps[0].runs[k.itemId].phase.Failed?
    ensures FailureEntry(h[1], ps[0], k, r)
    ensures QueuedUntil(h[1..], r, n)
            || exists j :: 0 < j <= n - 1 && ClaimedFrom(h[1..], ps[1..], Earliest(ps[0], k.attempt), k, r, j)
  {
    assert Follows(h[0], ps[0], h[1]);
    r := FailureQueues(h[0], ps[0], h[1], k);
    EntryIsStored(h[1], ps[0], k, r);
    HistoryExclusive(h, ps, k.itemId, 1);
    HistoryTail(h, ps, r.itemId);
    NoEarlierThanStored(h[1..], ps[1..], Earliest(ps[0], k.attempt), k, r, n - 1);
  }

  /** That is the full delay exactly when the failure was seen on a whole second. */
  lemma FullDelayExactly(failure: Poll, r: Retry)
    requires r.readyAt == Some(failure.now + failure.runtime.Delay(r.attempt))
    ensures (forall now :: Due(StoredRetry(r), now) ==> now >= failure.now + failure.runtime.Delay(r.attempt))
            <==> failure.now % SECOND == 0
  {
    EarliestIsStored(failure, r.attempt);
    assert Due(StoredRetry(r), Earliest(failure, r.attempt));
  }

  /**
   And the code does claim that early: an item whose failure has been stored, at the head of the board at the earliest
   moment, is claimed there and then.
   */
  lemma ClaimedAtEarliest(a: Status, failure: Poll, b: Status, next: Poll, c: Status, k: Claim)
    requires Exclusive(a) && Follows(a, failure, b) && Lossless(a, failure) && Follows(b, next, c) && Lossless(b, next)
    requires k in a.claims && k.itemId in Ids(failure.cs) && 1 <= k.attempt < MAX_INT32
    requires k.itemId in failure.runs && failure.runs[k.itemId].phase.Failed? && failure.stored
    requires next.cs != [] && next.cs[0].itemId == k.itemId && next.now == Earliest(failure, k.attempt)
    ensures ClaimedWith(c, k.itemId, k.attempt + 1)
  {
    var r := FailureQueues(a, failure, b, k);
    EntryIsStored(b, failure, k, r);
    StoredIsRead(a, failure, b, r);
    FollowsExclusive(a, failure, b);
    DueIsClaimed(b, next, c, StoredRetry(r));
  }

  lemma DueIsClaimed(a: Status, poll: Poll, b: Status, r: Retry)
    requires Exclusive(a) && Follows(a, poll, b) && Lossless(a, poll) && r in a.retries && Due(r, poll.now)
    requires poll.cs != [] && poll.cs[0].itemId == r.itemId
    ensures ClaimedWith(b, r.itemId, Inc32(r.attempt))
  {
    assert poll.cs[0] in poll.cs;
    QueuedStep(a, poll, b, r);
  }

  lemma StoredIsRead(a: Status, poll: Poll, b: Status, r: Retry)
    requires Follows(a, poll, b) && poll.stored && QueuedAs(b, r)
    ensures StoredRetry(r) in b.retries
  {
    if r in b.retries {
      var d := Decision(a, poll, b);
      var i :| 0 <= i < |b.retries| && b.retries[i] == r;
      StoredTwice(d.retries[i]);
    }
  }

  ghost predicate QueuedAt(st: Status, id: string, attempt: int32) {
    exists r :: r in st.retries && r.itemId == id && r.attempt == attempt
  }

  ghost predicate AtAttempt(st: Status, id: string, attempt: int32) {
    ClaimedWith(st, id, attempt) || QueuedAt(st, id, attempt)
  }

  lemma QueuedAsAt(st: Status, r: Retry)
    requires QueuedAs(st, r)
    ensures QueuedAt(st, r.itemId, r.attempt)
  {
    assert StoredRetry(r).itemId == r.itemId && StoredRetry(r).attempt == r.attempt;
  }

  /** One poll leaves a tracked item at its attempt, or takes it to the next one by way of its queue entry. */
  lemma AttemptStep(a: Status, poll: Poll, b: Status, id: string, attempt: int32)
    requires Exclusive(a) && Follows(a, poll, b) && Lossless(a, poll) && id in Ids(poll.cs)
    requires AtAttempt(a, id, attempt) && attempt >= 1
    ensures AtAttempt(b, id, attempt) || (AtAttempt(b, id, Inc32(attempt)) && QueuedAt(a, id, attempt))
  {
    if r :| r in a.retries && r.itemId == id && r.attempt == attempt {
      QueuedStep(a, poll, b, r);
      if QueuedAs(b, r) {
        QueuedAsAt(b, r);
      }
    } else {
      var k :| k in a.claims && k.itemId == id && k.attempt == attempt;
      ClaimedStep(a, poll, b, k);
      ClaimKeepsAttempt(b, poll, id, attempt);
    }
  }

  lemma ClaimKeepsAttempt(b: Status, poll: Poll, id: string, attempt: int32)
    requires ClaimOutcomeRead(b, poll, id, attempt)
    ensures AtAttempt(b, id, attempt)
  {
    if r :| QueuedAs(b, r) && r.itemId == id && r.attempt == attempt {
      QueuedAsAt(b, r);
    }
  }

  /** No queue entry of the item has the largest int32 as its attempt. */
  ghost predicate CanCountOn(st: Status, id: string) {
    forall r :: r in st.retries && r.itemId == id ==> r.attempt < MAX_INT32
  }

  lemma AttemptGrows(a: Status, poll: Poll, b: Status, id: string, attempt: int32) returns (later: int32)
    requires Exclusive(a) && Follows(a, poll, b) && Lossless(a, poll) && id in Ids(poll.cs)
    requires AtAttempt(a, id, attempt) && attempt >= 1
    requires CanCountOn(a, id)
    ensures attempt <= later && AtAttempt(b, id, later)
  {
    AttemptStep(a, poll, b, id, attempt);
    if AtAttempt(b, id, attempt) {
      later := attempt;
    } else {
      var r :| r in a.retries && r.itemId == id && r.attempt == attempt;
      later := attempt + 1;
    }
  }

  /** The item is at that attempt or a later one. */
  ghost predicate AtLeast(st: Status, id: string, attempt: int32) {
    exists later: int32 :: attempt <= later && AtAttempt(st, id, later)
  }

  lemma AttemptsHold(h: seq<Status>, ps: seq<Poll>, id: string, attempt: int32, i: nat)
    requires History(h, ps, id) && i < |ps| && attempt >= 1 && AtLeast(h[i], id, attempt) && CanCountOn(h[i], id)
    ensures AtLeast(h[i + 1], id, attempt)
  {
    HistoryStep(h, ps, id, i);
    AttemptHolds(h[i], ps[i], h[i + 1], id, attempt);
  }

  lemma AttemptHolds(a: Status, poll: Poll, b: Status, id: string, attempt: int32)
    requires Exclusive(a) && Follows(a, poll, b) && Lossless(a, poll) && id in Ids(poll.cs)
    requires attempt >= 1 && AtLeast(a, id, attempt) && CanCountOn(a, id)
    ensures AtLeast(b, id, attempt)
  {
    var now: int32 :| attempt <= now && AtAttempt(a, id, now);
    var later := AttemptGrows(a, poll, b, id, now);
  }

  lemma {:induction false} AtLeastAlong(h: seq<Status>, id: string, attempt: int32, n: nat)
    requires n < |h| && AtLeast(h[0], id, attempt)
    requires forall i :: 0 < i < |h| && AtLeast(h[i - 1], id, attempt) ==> AtLeast(h[i], id, attempt)
    ensures AtLeast(h[n], id, attempt)
  {
    if n > 0 {
      AtLeastAlong(h, id, attempt, n - 1);
    }
  }

  lemma AtLeastNow(st: Status, id: string, attempt: int32)
    requires AtAttempt(st, id, attempt)
    ensures AtLeast(st, id, attempt)
  {
  }

  lemma AttemptsHoldLater(h: seq<Status>, ps: seq<Poll>, id: string, attempt: int32)
    requires History(h, ps, id) && attempt >= 1 && forall i :: 0 <= i < |h| ==> CanCountOn(h[i], id)
    ensures forall i :: 0 < i < |h| && AtLeast(h[i - 1], id, attempt) ==> AtLeast(h[i], id, attempt)
  {
    forall i | 0 < i < |h| && AtLeast(h[i - 1], id, attempt) ensures AtLeast(h[i], id, attempt) {
      AttemptsHold(h, ps, id, attempt, i - 1);
    }
  }

  /** Attempts never fall along a history in which the item can always be counted on. */
  lemma AttemptsNeverFall(h: seq<Status>, ps: seq<Poll>, id: string, attempt: int32, n: nat)
    requires History(h, ps, id) && n <= |ps| && AtAttempt(h[0], id, attempt) && attempt >= 1
    requires forall i :: 0 <= i < |h| ==> CanCountOn(h[i], id)
    ensures AtLeast(h[n], id, attempt)
  {
    AtLeastNow(h[0], id, attempt);
    AttemptsHoldLater(h, ps, id, attempt);
    AtLeastAlong(h, id, attempt, n);
  }
}
