/**
 The slots a project can come to hold: from the empty status, under any limit of concurrent items, some history leads
 to any number of claims.
 */
module SchedulerClimb {
  import opened Text
  import Backoff
  import opened Scheduler
  import opened SchedulerLaws
  import opened SchedulerStability
  import opened SchedulerHistory
  import opened SchedulerBounds

  /** All items are either claimed, or queued and due. */
  ghost predicate Ripe(st: Status, total: nat, now: Time) {
    Exclusive(st) && |st.claims| + |st.retries| == total && forall r :: r in st.retries ==> Due(r, now)
  }

  /** The queued items first, then the claimed ones. */
  function RipeBoard(st: Status): seq<Candidate> {
    seq(|st.retries| + |st.claims|, i requires 0 <= i < |st.retries| + |st.claims| =>
      Candidate(if i < |st.retries| then st.retries[i].itemId else st.claims[i - |st.retries|].itemId, ZERO_ISSUE))
  }

  function Limits(max: int32, total: int32): Runtime { Runtime(max, total, total, 60, 900) }

  function RipePoll(st: Status, max: int32, total: int32, now: Time): Poll {
    Poll(seq(|st.claims|, _ => Skipped), now, RipeBoard(st), map[], Limits(max, total), now, true)
  }

  lemma RipeBoardIsDistinct(st: Status)
    requires Exclusive(st)
    ensures DistinctItems(RipeBoard(st)) && |RipeBoard(st)| == |st.retries| + |st.claims|
  {
    var cs, q := RipeBoard(st), |st.retries|;
    forall i, j | 0 <= i < j < |cs| ensures cs[i].itemId != cs[j].itemId {
      if j < q {
        LessTrichotomy(st.retries[i].itemId, st.retries[j].itemId);
      } else if i < q {
        assert st.retries[i].itemId in RetryIds(st.retries) && st.claims[j - q].itemId in ClaimIds(st.claims);
      }
    }
  }

  function Smaller(a: nat, b: nat): nat { if a < b then a else b }

  /** What the scan of the first n items of a ripe board has come to. */
  ghost predicate Climbed(p: Scan, st: Status, max: nat, n: nat, now: Time) {
    var q := |st.retries|;
    && p.newcomers == []
    && |p.claims| == (if n <= q then Smaller(n, max) else Smaller(q, max) + (n - q))
    && (forall id :: id in p.deferred ==> Due(p.deferred[id], now))
  }

  /** The inputs of a pass over a ripe status in which no run is known. */
  ghost predicate RipeInputs(st: Status, x: Inputs, max: nat, now: Time) {
    && x.now == now && x.runtime.MaxConcurrent() == max && x.runs == map[]
    && (forall i :: 0 <= i < |st.retries| ==> RipeRetry(st.retries[i], x, now))
    && (forall i :: 0 <= i < |st.claims| ==> st.claims[i].itemId in x.claims && st.claims[i].itemId !in x.retries)
  }

  predicate RipeRetry(r: Retry, x: Inputs, now: Time) {
    r.itemId in x.retries && x.retries[r.itemId] == r && r.itemId !in x.claims && Due(r, now)
  }

  lemma ClimbVisit(p: Scan, st: Status, x: Inputs, max: nat, n: nat, now: Time)
    requires Climbed(p, st, max, n, now) && n < |RipeBoard(st)| && RipeInputs(st, x, max, now)
    ensures Climbed(Visit(p, RipeBoard(st)[n], x), st, max, n + 1, now)
  {
    if n < |st.retries| {
      assert RipeRetry(st.retries[n], x, now);
      assert Visit(p, RipeBoard(st)[n], x) == Admit(p, RipeBoard(st)[n], st.retries[n], x);
    } else {
      var k := st.claims[n - |st.retries|];
      assert k.itemId in x.claims && k.itemId !in x.retries;
      var carried := BuildClaimWithoutRun(RipeBoard(st)[n], x.claims[k.itemId], x.now);
      assert Visit(p, RipeBoard(st)[n], x) == Carry(p, carried);
    }
  }

  lemma ClimbNext(st: Status, cs: seq<Candidate>, x: Inputs, max: nat, n: nat, now: Time)
    requires RipeInputs(st, x, max, now) && cs == RipeBoard(st) && n < |cs|
    requires Climbed(ScanAll(cs[..n], x), st, max, n, now)
    ensures Climbed(ScanAll(cs[..n + 1], x), st, max, n + 1, now)
  {
    ClimbVisit(ScanAll(cs[..n], x), st, x, max, n, now);
    assert cs[..n + 1] == cs[..n] + [cs[n]];
    ScanSnoc(cs[..n], cs[n], x);
  }

  lemma {:induction false} ClimbScan(st: Status, cs: seq<Candidate>, x: Inputs, max: nat, n: nat, now: Time)
    requires RipeInputs(st, x, max, now) && cs == RipeBoard(st) && n <= |cs|
    ensures Climbed(ScanAll(cs[..n], x), st, max, n, now)
  {
    if n == 0 {
      assert cs[..0] == [];
    } else {
      ClimbScan(st, cs, x, max, n - 1, now);
      ClimbNext(st, cs, x, max, n - 1, now);
    }
  }

  lemma RipeSeen(st: Status, x: Inputs, max: nat, now: Time)
    requires Exclusive(st) && (forall r :: r in st.retries ==> Due(r, now))
    requires x.claims.Keys == ClaimIds(st.claims) && x.retries.Keys == RetryIds(st.retries)
    requires forall r :: r in st.retries ==> r.itemId in x.retries && x.retries[r.itemId] == r
    requires x.now == now && x.runtime.MaxConcurrent() == max && x.runs == map[]
    ensures RipeInputs(st, x, max, now)
  {
    forall i | 0 <= i < |st.retries| ensures RipeRetry(st.retries[i], x, now) {
      assert st.retries[i] in st.retries && st.retries[i].itemId in RetryIds(st.retries);
    }
    forall i | 0 <= i < |st.claims| ensures st.claims[i].itemId in x.claims && st.claims[i].itemId !in x.retries {
      assert st.claims[i] in st.claims && st.claims[i].itemId in ClaimIds(st.claims);
    }
  }

  lemma {:induction false} ItemCardinality(cs: seq<Candidate>)
    requires DistinctItems(cs)
    ensures |Ids(cs)| == |cs|
  {
    if cs != [] {
      LastItem(cs);
      ItemCardinality(cs[..|cs| - 1]);
    }
  }

  lemma {:induction false} RetryCardinality(retries: seq<Retry>)
    requires AscendingRetries(retries)
    ensures |RetryIds(retries)| == |retries|
  {
    if retries != [] {
      var init, last := retries[..|retries| - 1], retries[|retries| - 1];
      assert retries == init + [last];
      RetryCardinality(init);
      LastRetryApart(init, last);
    }
  }

  lemma LastRetryApart(init: seq<Retry>, last: Retry)
    requires AscendingRetries(init + [last])
    ensures last.itemId !in RetryIds(init) && RetryIds(init + [last]) == RetryIds(init) + {last.itemId}
  {
    var all := init + [last];
    forall i | 0 <= i < |init| ensures init[i].itemId != last.itemId {
      assert Less(all[i].itemId, all[|init|].itemId);
      LessTrichotomy(init[i].itemId, last.itemId);
    }
  }

  /** With no newcomer on the board, what is not claimed is queued. */
  lemma PlanAddsUp(cs: seq<Candidate>, x: Inputs)
    requires DistinctItems(cs) && Keyed(x.retries) && ScanAll(cs, x).newcomers == []
    ensures var q := Plan(cs, x); q == ScanAll(cs, x) && |q.claims| + |Queue(q.deferred)| == |cs|
  {
    PlanIsScan(cs, x);
    PlanPartitions(cs, x);
    var q := Plan(cs, x);
    assert Waiting(q) == {} by {
      assert Ids(q.newcomers) == {};
    }
    QueueLaws(q.deferred);
    ClaimCardinality(q.claims);
    RetryCardinality(Queue(q.deferred));
    ItemCardinality(cs);
    assert |q.consumed + q.deferred.Keys| == |q.consumed| + |q.deferred.Keys|;
  }

  /** One poll promotes as many due entries as the limit allows, on top of all claims there were. */
  lemma ClimbStep(a: Status, max: int32, total: int32, now: Time) returns (b: Status)
    requires max >= 1 && total >= 1 && Ripe(a, total, now)
    ensures var poll := RipePoll(a, max, total, now); Follows(a, poll, b) && Lossless(a, poll)
    ensures Ripe(b, total, now) && |b.claims| == |a.claims| + Smaller(|a.retries|, max)
  {
    var poll := RipePoll(a, max, total, now);
    var x := PollInputs(a, poll);
    RipeBoardIsDistinct(a);
    InputsSeen(a, poll);
    RipeSeen(a, x, max, now);
    ClimbScan(a, poll.cs, x, max, |poll.cs|, now);
    assert poll.cs[..|poll.cs|] == poll.cs;
    PlanAddsUp(poll.cs, x);
    var d := Pass(Materialised(a, poll), poll.cs, poll.runs, poll.runtime, poll.now);
    PlanPartitions(poll.cs, x);
    QueueLaws(Plan(poll.cs, x).deferred);
    b := ReadBack(poll, d);
    FollowsExclusive(a, poll, b);
    RipeStored(d, now);
  }

  lemma RipeStored(d: Status, now: Time)
    requires forall r :: r in d.retries ==> Due(r, now)
    ensures forall r :: r in Stored(d).retries ==> Due(r, now)
  {
    forall r | r in Stored(d).retries ensures Due(r, now) {
      var i :| 0 <= i < |Stored(d).retries| && Stored(d).retries[i] == r;
      DueWhenStored(d.retries[i], now);
      assert d.retries[i] in d.retries;
    }
  }

  // The first poll.

  const FAILED_RUN := Run("run", "session", Failed, "")

  function FirstPoll(max: int32, total: int32): Poll
    requires total >= 1
  {
    Poll([], 0, Board(total), map id | id in Ids(Board(total)) :: FAILED_RUN, Limits(max, total), 0, true)
  }

  /** Items with failed runs that nothing is known about are queued at attempt 1. */
  ghost predicate AllQueued(p: Scan, ready: Time) {
    p.newcomers == [] && p.claims == [] && forall id :: id in p.deferred ==> p.deferred[id].readyAt == Some(ready)
  }

  lemma QueueVisit(p: Scan, c: Candidate, x: Inputs)
    requires AllQueued(p, x.now + x.runtime.Delay(1)) && x.claims == map[] && x.retries == map[]
    requires c.itemId in x.runs && x.runs[c.itemId] == FAILED_RUN
    ensures AllQueued(Visit(p, c, x), x.now + x.runtime.Delay(1))
  {
    Backoff.RetryDelayMonotone(x.runtime.retryBaseDelaySeconds, x.runtime.retryMaxDelaySeconds, 1, 1);
  }

  lemma {:induction false} QueueScan(cs: seq<Candidate>, x: Inputs)
    requires x.claims == map[] && x.retries == map[]
    requires forall c :: c in cs ==> c.itemId in x.runs && x.runs[c.itemId] == FAILED_RUN
    ensures AllQueued(ScanAll(cs, x), x.now + x.runtime.Delay(1))
  {
    if cs != [] {
      QueueScan(cs[..|cs| - 1], x);
      QueueVisit(ScanAll(cs[..|cs| - 1], x), cs[|cs| - 1], x);
    }
  }

  lemma ClimbStart(max: int32, total: int32) returns (b: Status)
    requires max >= 1 && total >= 1
    ensures Follows(Status([], []), FirstPoll(max, total), b) && Lossless(Status([], []), FirstPoll(max, total))
    ensures b.claims == [] && Ripe(b, total, Limits(max, total).Delay(1))
  {
    var a, poll := Status([], []), FirstPoll(max, total);
    var x, cs := PollInputs(a, poll), poll.cs;
    BoardIds(total, 0);
    InputsSeen(a, poll);
    forall c | c in cs ensures c.itemId in x.runs && x.runs[c.itemId] == FAILED_RUN {
      assert c.itemId in Ids(cs);
    }
    QueueScan(cs, x);
    PlanAddsUp(cs, x);
    var d := Pass(Materialised(a, poll), cs, poll.runs, poll.runtime, poll.now);
    PlanPartitions(cs, x);
    QueueLaws(Plan(cs, x).deferred);
    b := ReadBack(poll, d);
    FollowsExclusive(a, poll, b);
    RipeStored(d, Limits(max, total).Delay(1));
  }

  // All the way up.

  /** A history from the empty status under a limit of concurrent items, in which the status limits cut nothing off. */
  ghost predicate Polled(h: seq<Status>, ps: seq<Poll>, max: nat) {
    && |h| == |ps| + 1 && h[0] == Status([], [])
    && (forall i :: 0 <= i < |ps| ==> Follows(h[i], ps[i], h[i + 1]) && Lossless(h[i], ps[i]))
    && (forall i :: 0 <= i < |ps| ==> ps[i].runtime.MaxConcurrent() == max)
  }

  lemma PolledSnoc(h: seq<Status>, ps: seq<Poll>, max: nat, poll: Poll, b: Status)
    requires Polled(h, ps, max) && Follows(h[|ps|], poll, b) && Lossless(h[|ps|], poll)
    requires poll.runtime.MaxConcurrent() == max
    ensures Polled(h + [b], ps + [poll], max)
  {
    var h', ps' := h + [b], ps + [poll];
    forall i | 0 <= i < |ps'|
      ensures Follows(h'[i], ps'[i], h'[i + 1]) && Lossless(h'[i], ps'[i]) && ps'[i].runtime.MaxConcurrent() == max
    {
      if i < |ps| {
        assert h'[i] == h[i] && ps'[i] == ps[i] && h'[i + 1] == h[i + 1];
      }
    }
  }

  lemma {:induction false} ClimbOn(h: seq<Status>, ps: seq<Poll>, max: int32, total: int32, now: Time)
    returns (h': seq<Status>, ps': seq<Poll>)
    requires max >= 1 && total >= 1 && Polled(h, ps, max) && Ripe(h[|ps|], total, now)
    ensures Polled(h', ps', max) && |h'[|ps'|].claims| == total
    decreases |h[|ps|].retries|
  {
    h', ps' := h, ps;
    if h[|ps|].retries != [] {
      var b := ClimbStep(h[|ps|], max, total, now);
      PolledSnoc(h, ps, max, RipePoll(h[|ps|], max, total, now), b);
      h', ps' := ClimbOn(h + [b], ps + [RipePoll(h[|ps|], max, total, now)], max, total, now);
    }
  }

  /**
   No multiple of the limit bounds the claims: for any limit and any number, some history from the empty status holds
   it.
   */
  lemma ClaimsClimb(max: int32, total: int32) returns (h: seq<Status>, ps: seq<Poll>)
    requires max >= 1 && total >= 1
    ensures Polled(h, ps, max) && |h[|ps|].claims| == total
  {
    var b := ClimbStart(max, total);
    h, ps := [Status([], [])], [];
    PolledSnoc(h, ps, max, FirstPoll(max, total), b);
    h, ps := ClimbOn(h + [b], ps + [FirstPoll(max, total)], max, total, Limits(max, total).Delay(1));
  }
}
