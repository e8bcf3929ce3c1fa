/** The slot bound is attained: for every limit and every number of carried claims there is such a pass. */
module SchedulerBounds {
  import opened Text
  import opened Scheduler
  import opened SchedulerLaws

  /** The i-th item of the board, named by repetitions of one letter. */
  function Item(i: nat): Candidate { Candidate(seq(i + 1, _ => 'x'), ZERO_ISSUE) }

  function Board(n: nat): seq<Candidate> { seq(n, i requires 0 <= i < n => Item(i)) }

  /** A queue in which the first n items are due. */
  function DueQueue(n: nat): seq<Retry> {
    seq(n, i requires 0 <= i < n => Retry(Item(i).itemId, ZERO_ISSUE, 1, "HarnessRunFailed", Some(0), None))
  }

  /** Live runs for items m up to n. */
  function LiveRuns(m: nat, n: nat): map<string, Run> {
    map id | id in Ids(Board(n)) - Ids(Board(m)) :: Run("run", "session", Running, "")
  }

  /** Limits that cut off nothing of what the crowd holds, as far as int32 can say so. */
  function CrowdRuntime(max: int32, held: nat): Runtime
    requires max >= 1
  {
    Runtime(max, if max + held <= MAX_INT32 then max + held else MAX_INT32, max, 60, 900)
  }

  function CrowdInputs(max: int32, held: nat): Inputs
    requires max >= 1
  {
    InputsOf(Status([], DueQueue(max)), LiveRuns(max, max + held), CrowdRuntime(max, held), 0)
  }

  lemma BoardIds(n: nat, i: nat)
    ensures Item(i).itemId in Ids(Board(n)) <==> i < n
    ensures DistinctItems(Board(n))
  {
    if i < n {
      assert Board(n)[i] in Board(n);
    }
    forall c | c in Board(n) ensures |c.itemId| <= n {
    }
    forall j, k | 0 <= j < k < n ensures Board(n)[j].itemId != Board(n)[k].itemId {
      assert |Board(n)[j].itemId| == j + 1 && |Board(n)[k].itemId| == k + 1;
    }
    assert |Item(i).itemId| == i + 1;
  }

  lemma {:induction false} DueQueueByItem(n: nat)
    ensures RetriesByItem(DueQueue(n)).Keys == Ids(Board(n))
    ensures forall id :: id in RetriesByItem(DueQueue(n)) ==> Due(RetriesByItem(DueQueue(n))[id], 0)
  {
    if n > 0 {
      DueQueueByItem(n - 1);
      assert DueQueue(n)[..n - 1] == DueQueue(n - 1);
      assert Board(n) == Board(n - 1) + [Item(n - 1)];
      AppendItem(Board(n - 1), Item(n - 1));
    }
  }

  /** The first max items are due retries, the next held ones have live runs. */
  ghost predicate Crowded(x: Inputs, max: nat, held: nat) {
    && x.claims == map[] && x.runtime.MaxConcurrent() == max && Keyed(x.retries)
    && (forall i: nat :: i < max ==> Item(i).itemId in x.retries && Due(x.retries[Item(i).itemId], x.now))
    && (forall i: nat :: max <= i < max + held ==>
          && Item(i).itemId !in x.retries
          && Item(i).itemId in x.runs && x.runs[Item(i).itemId].phase.Live())
  }

  lemma CrowdIsDue(max: int32, held: nat, i: nat)
    requires max >= 1
    ensures var x := CrowdInputs(max, held);
            var id := Item(i).itemId;
            if i < max then id in x.retries && Due(x.retries[id], x.now) else id !in x.retries
  {
    DueQueueByItem(max);
    BoardIds(max, i);
  }

  lemma CrowdIsLive(max: int32, held: nat, i: nat)
    requires max >= 1 && max <= i < max + held
    ensures var x := CrowdInputs(max, held); Item(i).itemId in x.runs && x.runs[Item(i).itemId].phase.Live()
  {
    BoardIds(max, i);
    BoardIds(max + held, i);
  }

  lemma CrowdIsCrowded(max: int32, held: nat)
    requires max >= 1
    ensures Crowded(CrowdInputs(max, held), max, held)
  {
    RetriesByItemKeyed(DueQueue(max));
    forall i: nat | i < max + held
      ensures var x := CrowdInputs(max, held);
              if i < max then Item(i).itemId in x.retries && Due(x.retries[Item(i).itemId], x.now)
              else Item(i).itemId !in x.retries && Item(i).itemId in x.runs && x.runs[Item(i).itemId].phase.Live()
    {
      CrowdIsDue(max, held, i);
      if i >= max {
        CrowdIsLive(max, held, i);
      }
    }
  }

  lemma CrowdVisit(p: Scan, x: Inputs, max: nat, held: nat, i: nat)
    requires Crowded(x, max, held) && i < max + held && |p.claims| == i
    ensures |Visit(p, Item(i), x).claims| == i + 1
    ensures Held(Item(i), x) <==> i >= max
  {
  }

  lemma ScanSnoc(cs: seq<Candidate>, c: Candidate, x: Inputs)
    ensures ScanAll(cs + [c], x) == Visit(ScanAll(cs, x), c, x)
    ensures HeldCount(cs + [c], x) == HeldCount(cs, x) + if Held(c, x) then 1 else 0
  {
    assert (cs + [c])[..|cs|] == cs;
  }

  /** The scan of the first n items has made n claims, those beyond max for carried items. */
  ghost predicate Scanned(cs: seq<Candidate>, x: Inputs, max: nat, n: nat) {
    |ScanAll(cs, x).claims| == n && HeldCount(cs, x) == if n <= max then 0 else n - max
  }

  lemma CrowdNext(before: seq<Candidate>, cs: seq<Candidate>, x: Inputs, max: nat, held: nat, i: nat)
    requires Crowded(x, max, held) && i < max + held && Scanned(before, x, max, i) && cs == before + [Item(i)]
    ensures Scanned(cs, x, max, i + 1)
  {
    ScanSnoc(before, Item(i), x);
    CrowdVisit(ScanAll(before, x), x, max, held, i);
  }

  lemma {:induction false} ScannedAlong(x: Inputs, max: nat, n: nat)
    requires forall i: nat :: 0 < i <= n && Scanned(Board(i - 1), x, max, i - 1) ==> Scanned(Board(i), x, max, i)
    ensures Scanned(Board(n), x, max, n)
  {
    if n == 0 {
      assert Board(0) == [];
    } else {
      ScannedAlong(x, max, n - 1);
    }
  }

  lemma CrowdScan(x: Inputs, max: nat, held: nat, n: nat)
    requires Crowded(x, max, held) && n <= max + held
    ensures Scanned(Board(n), x, max, n)
  {
    forall i: nat | 0 < i <= n && Scanned(Board(i - 1), x, max, i - 1) ensures Scanned(Board(i), x, max, i) {
      BoardSnoc(i);
      CrowdNext(Board(i - 1), Board(i), x, max, held, i - 1);
    }
    ScannedAlong(x, max, n);
  }

  lemma BoardSnoc(n: nat)
    requires n > 0
    ensures Board(n) == Board(n - 1) + [Item(n - 1)]
  {
  }

  lemma CrowdHolds(x: Inputs, max: nat, held: nat)
    requires max >= 1 && Crowded(x, max, held)
    ensures DistinctItems(Board(max + held)) && HeldCount(Board(max + held), x) == held
    ensures |Plan(Board(max + held), x).claims| == max + held
  {
    CrowdScan(x, max, held, max + held);
    BoardIds(max + held, 0);
    CrowdTotal(Board(max + held), x, max, held);
  }

  lemma CrowdTotal(cs: seq<Candidate>, x: Inputs, max: nat, held: nat)
    requires x.runtime.MaxConcurrent() == max >= 1 && DistinctItems(cs) && Keyed(x.retries)
    requires Scanned(cs, x, max, max + held)
    ensures HeldCount(cs, x) == held && |Plan(cs, x).claims| == max + held
  {
    CrowdPlan(cs, x);
  }

  /** max + held slots are held when the due retries stand before the live runs on the board. */
  lemma SlotBoundAttained(max: int32, held: nat)
    requires max >= 1
    ensures var cs, x := Board(max + held), CrowdInputs(max, held);
            && DistinctItems(cs) && x.runtime.MaxConcurrent() == max
            && HeldCount(cs, x) == held
            && |Plan(cs, x).claims| == max + held
  {
    CrowdIsCrowded(max, held);
    CrowdHolds(CrowdInputs(max, held), max, held);
  }

  /** The status limits are such that a pass could have left that queue, and leaves all those claims. */
  lemma CrowdFitsLimits(max: int32, held: nat)
    requires max >= 1
    ensures |DueQueue(max)| <= CrowdRuntime(max, held).RetryLimit()
    ensures max + held <= MAX_INT32 ==> max + held <= CrowdRuntime(max, held).ClaimLimit()
  {
  }

  lemma CrowdPlan(cs: seq<Candidate>, x: Inputs)
    requires DistinctItems(cs) && Keyed(x.retries) && |ScanAll(cs, x).claims| >= x.runtime.MaxConcurrent()
    ensures |Plan(cs, x).claims| == |ScanAll(cs, x).claims|
  {
    SlotCount(cs, x);
    ScanCounts(cs, x);
  }
}
