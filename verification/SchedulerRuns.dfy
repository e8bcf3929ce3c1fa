/** A retried item and the run it had: materialisation tells them apart by name. */
module SchedulerRuns {
  import opened Text
  import RunNames
  import opened Scheduler

  function RunOf(project: string, issue: Issue, attempt: int32): string {
    RunNames.RunName(project, issue.repository, issue.number, attempt)
  }

  /** What the cut leaves of an attempt number in a run name. */
  function Shown(project: string, issue: Issue, attempt: nat): string {
    var room := RunNames.LABEL_LIMIT - |RunNames.StemLabel(project, issue.repository, issue.number)|;
    if room <= 0 then "" else RunNames.Cut(RunNames.Digits(attempt), room)
  }

  /** The cut leaves the attempt number whole. */
  predicate Fits(project: string, issue: Issue, n: nat) {
    |RunNames.StemLabel(project, issue.repository, issue.number)| + |RunNames.Digits(n)| <= RunNames.LABEL_LIMIT
  }

  /** Whether the cut of run names hides the difference between two attempts. */
  predicate Confused(project: string, issue: Issue, a: nat, b: nat) {
    Shown(project, issue, a) == Shown(project, issue, b)
  }

  /** A retry claimed again is matched to its finished run exactly when the names of the two attempts are cut to one. */
  lemma RetryMatchesFinishedRun(project: string, c: Candidate, r: Retry, finished: Run, runs: map<string, Run>,
                                placement: Option<Placement>, now: Time)
    requires 0 <= r.attempt < MAX_INT32 && Trim(c.itemId) != "" && c.itemId in runs && runs[c.itemId] == finished
    requires finished.name == RunOf(project, c.issue, r.attempt)
    ensures Outcome(project, BuildClaimFromRetry(c, r, now), runs, placement) == Matched(finished)
            <==> Confused(project, c.issue, r.attempt, r.attempt + 1)
  {
    var k := BuildClaimFromRetry(c, r, now);
    assert k.attempt == r.attempt + 1;
    ConfusedNames(project, c.issue, r.attempt);
    assert DesiredRun(project, k) == RunOf(project, c.issue, r.attempt + 1);
  }

  lemma ConfusedNames(project: string, issue: Issue, a: int32)
    requires 0 <= a < MAX_INT32
    ensures RunOf(project, issue, a) == RunOf(project, issue, a + 1) <==> Confused(project, issue, a, a + 1)
  {
    RunNames.RunNamesDiffer(project, issue.repository, issue.number, a, a + 1);
  }

  /** Afterwards the claim refers to another run than the finished one exactly when the cut tells the attempts apart. */
  lemma NewAttemptOwnRun(project: string, c: Candidate, r: Retry, finished: Run, runs: map<string, Run>,
                         placement: Option<Placement>, now: Time)
    requires 0 <= r.attempt < MAX_INT32 && Trim(c.itemId) != "" && c.itemId in runs && runs[c.itemId] == finished
    requires finished.name == RunOf(project, c.issue, r.attempt)
    requires placement.Some? ==> placement.value.run.name == DesiredRun(project, BuildClaimFromRetry(c, r, now))
    ensures var k := BuildClaimFromRetry(c, r, now);
            Materialise(k, Outcome(project, k, runs, placement), now).runRef.harnessRunName != finished.name
            <==> !Confused(project, c.issue, r.attempt, r.attempt + 1)
  {
    var k := BuildClaimFromRetry(c, r, now);
    assert k.attempt == r.attempt + 1;
    ConfusedNames(project, c.issue, r.attempt);
    assert DesiredRun(project, k) == RunOf(project, c.issue, r.attempt + 1);
    NameNotEmpty(project, c.issue, r.attempt);
    MaterialisedRun(project, k, finished, runs, placement, now);
  }

  /** A claim without a run refers to the run found for its item exactly when that has the name it is after. */
  lemma MaterialisedRun(project: string, k: Claim, found: Run, runs: map<string, Run>, placement: Option<Placement>,
                        now: Time)
    requires Trim(k.itemId) != "" && k.itemId in runs && runs[k.itemId] == found
    requires k.runRef.harnessRunName == "" && found.name != ""
    requires placement.Some? ==> placement.value.run.name == DesiredRun(project, k)
    ensures Materialise(k, Outcome(project, k, runs, placement), now).runRef.harnessRunName == found.name
            <==> found.name == DesiredRun(project, k)
  {
  }

  /** With room for its number, an attempt is always told from the one before. */
  lemma FittingAttemptsDiffer(project: string, issue: Issue, a: int32)
    requires 0 <= a < MAX_INT32 && Fits(project, issue, a + 1)
    ensures !Confused(project, issue, a, a + 1)
  {
    DigitsGrow(a);
    RunNames.NewAttemptNewRun(project, issue.repository, issue.number, a, a + 1);
    ConfusedNames(project, issue, a);
  }

  lemma {:induction false} DigitsGrow(n: nat)
    ensures |RunNames.Digits(n)| <= |RunNames.Digits(n + 1)|
  {
    if n >= 10 && n % 10 == 9 {
      assert (n + 1) / 10 == n / 10 + 1;
      DigitsGrow(n / 10);
    }
  }

  lemma NameNotEmpty(project: string, issue: Issue, attempt: int32)
    ensures RunNames.RunName(project, issue.repository, issue.number, attempt) != ""
  {
  }

  // Which run speaks for an item.

  /** A run as listProjectRuns lists it: the item label, the creation time, the run. */
  datatype ListedRun = ListedRun(itemLabel: string, createdAt: Time, run: Run)

  /** newerHarnessRun. */
  predicate Newer(left: ListedRun, right: ListedRun) {
    if left.createdAt != right.createdAt then left.createdAt > right.createdAt else Less(right.run.name, left.run.name)
  }

  function Picked(byItem: map<string, ListedRun>, l: ListedRun): map<string, ListedRun> {
    var id := Trim(l.itemLabel);
    if id == "" then byItem
    else if id !in byItem || Newer(l, byItem[id]) then byItem[id := l]
    else byItem
  }

  function NewestByItem(runs: seq<ListedRun>): map<string, ListedRun> {
    if runs == [] then map[] else Picked(NewestByItem(runs[..|runs| - 1]), runs[|runs| - 1])
  }

  /** A run of the item that none of its runs was created after; of those created with it none has a greater name. */
  ghost predicate IsNewest(runs: seq<ListedRun>, id: string, l: ListedRun) {
    && id != "" && l in runs && Trim(l.itemLabel) == id
    && (forall m :: m in runs && Trim(m.itemLabel) == id ==>
          m.createdAt <= l.createdAt && (m.createdAt == l.createdAt ==> !Less(l.run.name, m.run.name)))
  }

  lemma NewerExactly(m: ListedRun, l: ListedRun)
    ensures !Newer(m, l)
            <==> m.createdAt <= l.createdAt && (m.createdAt == l.createdAt ==> !Less(l.run.name, m.run.name))
  {
  }

  lemma NewerTransitive(a: ListedRun, b: ListedRun, c: ListedRun)
    ensures Newer(a, b) && Newer(b, c) ==> Newer(a, c)
    ensures !(Newer(a, b) && Newer(b, a))
    ensures Newer(a, b) && !Newer(c, b) ==> !Newer(c, a)
  {
    LessTrichotomy(a.run.name, b.run.name);
    LessTrichotomy(b.run.name, c.run.name);
    if Less(c.run.name, b.run.name) && Less(b.run.name, a.run.name) {
      LessTransitive(c.run.name, b.run.name, a.run.name);
    }
    LessTrichotomy(a.run.name, c.run.name);
  }

  /** The map holds, for every item with a run, the run of it that was created last. */
  lemma {:induction false} NewestIsMaximal(runs: seq<ListedRun>)
    ensures forall id :: id in NewestByItem(runs) ==> IsNewest(runs, id, NewestByItem(runs)[id])
    ensures forall l :: l in runs && Trim(l.itemLabel) != "" ==> Trim(l.itemLabel) in NewestByItem(runs)
  {
    if runs != [] {
      var init, last := runs[..|runs| - 1], runs[|runs| - 1];
      assert runs == init + [last];
      NewestIsMaximal(init);
      forall id | id in NewestByItem(runs) ensures IsNewest(runs, id, NewestByItem(runs)[id]) {
        PickedIsNewest(init, last, id);
      }
    }
  }

  lemma PickedIsNewest(init: seq<ListedRun>, last: ListedRun, id: string)
    requires id in NewestByItem(init) ==> IsNewest(init, id, NewestByItem(init)[id])
    requires forall l :: l in init && Trim(l.itemLabel) != "" ==> Trim(l.itemLabel) in NewestByItem(init)
    requires id in Picked(NewestByItem(init), last)
    ensures IsNewest(init + [last], id, Picked(NewestByItem(init), last)[id])
  {
    var before, after := NewestByItem(init), Picked(NewestByItem(init), last);
    forall m | m in init + [last] && Trim(m.itemLabel) == id
      ensures m.createdAt <= after[id].createdAt
      ensures m.createdAt == after[id].createdAt ==> !Less(after[id].run.name, m.run.name)
    {
      NewerExactly(m, after[id]);
      NewerTransitive(last, last, last);
      if id in before {
        NewerExactly(m, before[id]);
        NewerTransitive(last, before[id], m);
      }
    }
  }

  /** The loop of listProjectRuns: for every item with a run, the run of it that was created last. */
  method ListProjectRuns(runs: seq<ListedRun>) returns (byItem: map<string, ListedRun>)
    ensures byItem == NewestByItem(runs)
    ensures forall id :: id in byItem ==> IsNewest(runs, id, byItem[id])
    ensures forall l :: l in runs && Trim(l.itemLabel) != "" ==> Trim(l.itemLabel) in byItem
  {
    NewestIsMaximal(runs);
    byItem := map[];
    for i := 0 to |runs|
      invariant byItem == NewestByItem(runs[..i])
    {
      assert runs[..i + 1][..i] == runs[..i];
      var id := Trim(runs[i].itemLabel);
      if id == "" {
        continue;
      }
      if id !in byItem || Newer(runs[i], byItem[id]) {
        byItem := byItem[id := runs[i]];
      }
    }
    assert runs[..|runs|] == runs;
  }

  /** So the order of the list does not matter, as long as run names are distinct. */
  lemma NewestOrderFree(a: seq<ListedRun>, b: seq<ListedRun>)
    requires forall l :: l in a <==> l in b
    requires forall l, m :: l in a && m in a && l.run.name == m.run.name ==> l == m
    ensures NewestByItem(a) == NewestByItem(b)
  {
    NewestIsMaximal(a);
    NewestIsMaximal(b);
    forall id | id in NewestByItem(a) ensures id in NewestByItem(b) && NewestByItem(a)[id] == NewestByItem(b)[id] {
      var l, m := NewestByItem(a)[id], NewestByItem(b)[id];
      LessTrichotomy(l.run.name, m.run.name);
    }
    forall id | id in NewestByItem(b) ensures id in NewestByItem(a) {
      assert NewestByItem(b)[id] in a;
    }
  }

  lemma {:induction false} LessAfterPrefix(prefix: string, a: string, b: string)
    ensures Less(prefix + a, prefix + b) <==> Less(a, b)
  {
    if prefix == "" {
      assert prefix + a == a && prefix + b == b;
    } else {
      assert (prefix + a)[1..] == prefix[1..] + a && (prefix + b)[1..] == prefix[1..] + b;
      LessAfterPrefix(prefix[1..], a, b);
    }
  }

  // Which attempt wins a tie.

  /**
   Of two attempts whose runs were created in the same second, the later counts as newer by the digits that are
   shown.
   */
  lemma TieBreak(project: string, issue: Issue, itemLabel: string, at: Time, left: Run, right: Run, a: int32, b: int32)
    requires a >= 0 && b >= 0 && left.name == RunOf(project, issue, a) && right.name == RunOf(project, issue, b)
    ensures Newer(ListedRun(itemLabel, at, right), ListedRun(itemLabel, at, left))
            <==> Less(Shown(project, issue, a), Shown(project, issue, b))
  {
    var stem := RunNames.StemLabel(project, issue.repository, issue.number);
    RunNames.RunNameShape(project, issue.repository, issue.number, a);
    RunNames.RunNameShape(project, issue.repository, issue.number, b);
    if |stem| < RunNames.LABEL_LIMIT {
      LessAfterPrefix(stem, Shown(project, issue, a), Shown(project, issue, b));
    } else {
      LessTrichotomy(left.name, right.name);
    }
  }

  predicate AllNines(n: nat) { forall i :: 0 <= i < |RunNames.Digits(n)| ==> RunNames.Digits(n)[i] == '9' }

  lemma {:induction false} LessThenAny(a: string, b: string, s: string, t: string)
    requires |a| == |b| && Less(a, b)
    ensures Less(a + s, b + t)
  {
    assert (a + s)[0] == a[0] && (b + t)[0] == b[0];
    if a[0] == b[0] {
      assert (a + s)[1..] == a[1..] + s && (b + t)[1..] == b[1..] + t;
      LessThenAny(a[1..], b[1..], s, t);
    }
  }

  lemma DigitsSnoc(n: nat)
    requires n >= 10
    ensures RunNames.Digits(n) == RunNames.Digits(n / 10) + ['0' + (n % 10) as char]
  {
  }

  lemma NinesSnoc(n: nat)
    requires n >= 10
    ensures AllNines(n) <==> AllNines(n / 10) && n % 10 == 9
  {
    DigitsSnoc(n);
    var d, init := RunNames.Digits(n), RunNames.Digits(n / 10);
    assert forall i :: 0 <= i < |init| ==> d[i] == init[i];
    assert d[|init|] == '0' + (n % 10) as char;
  }

  /** Counting on keeps the order of the digits, except from a number that is all nines. */
  lemma {:induction false} Successor(n: nat)
    ensures if AllNines(n) then RunNames.Digits(n)[0] == '9' && RunNames.Digits(n + 1)[0] == '1'
            else |RunNames.Digits(n + 1)| == |RunNames.Digits(n)| && Less(RunNames.Digits(n), RunNames.Digits(n + 1))
    decreases n, 1
  {
    if n < 9 {
      assert RunNames.Digits(n) == ['0' + n as char] && RunNames.Digits(n + 1) == ['0' + (n + 1) as char];
    } else if n == 9 {
      assert RunNames.Digits(9) == "9" && RunNames.Digits(1) == "1" && RunNames.Digits(10) == "1" + "0";
    } else {
      SuccessorOfLong(n);
    }
  }

  lemma {:induction false} SuccessorOfLong(n: nat)
    requires n >= 10
    ensures if AllNines(n) then RunNames.Digits(n)[0] == '9' && RunNames.Digits(n + 1)[0] == '1'
            else |RunNames.Digits(n + 1)| == |RunNames.Digits(n)| && Less(RunNames.Digits(n), RunNames.Digits(n + 1))
    decreases n, 0
  {
    NinesSnoc(n);
    if n % 10 < 9 {
      LastDigitCounts(n);
    } else {
      Successor(n / 10);
      Carries(n);
    }
  }

  lemma LastDigitCounts(n: nat)
    requires n >= 10 && n % 10 < 9
    ensures |RunNames.Digits(n + 1)| == |RunNames.Digits(n)| && Less(RunNames.Digits(n), RunNames.Digits(n + 1))
  {
    var head, r := RunNames.Digits(n / 10), n % 10;
    assert (n + 1) / 10 == n / 10 && (n + 1) % 10 == r + 1;
    DigitsSnoc(n);
    DigitsSnoc(n + 1);
    LessAfterPrefix(head, ['0' + r as char], ['0' + (r + 1) as char]);
  }

  lemma Carries(n: nat)
    requires n >= 10 && n % 10 == 9
    ensures RunNames.Digits(n) == RunNames.Digits(n / 10) + "9"
    ensures RunNames.Digits(n + 1) == RunNames.Digits(n / 10 + 1) + "0"
    ensures var a, b := RunNames.Digits(n / 10), RunNames.Digits(n / 10 + 1);
            |a| == |b| && Less(a, b) ==> Less(RunNames.Digits(n), RunNames.Digits(n + 1))
  {
    assert (n + 1) / 10 == n / 10 + 1 && (n + 1) % 10 == 0;
    DigitsSnoc(n);
    DigitsSnoc(n + 1);
    var a, b := RunNames.Digits(n / 10), RunNames.Digits(n / 10 + 1);
    if |a| == |b| && Less(a, b) {
      LessThenAny(a, b, "9", "0");
    }
  }

  lemma ShownWhole(project: string, issue: Issue, n: nat)
    requires Fits(project, issue, n)
    ensures Shown(project, issue, n) == RunNames.Digits(n)
  {
  }

  lemma NextShown(project: string, issue: Issue, a: nat, b: nat)
    requires b == a + 1
    requires Fits(project, issue, b)
    ensures Less(Shown(project, issue, a), Shown(project, issue, b)) <==> !AllNines(a)
  {
    DigitsGrow(a);
    ShownWhole(project, issue, a);
    ShownWhole(project, issue, b);
    LessExactly(a);
  }

  /**
   With room for both numbers, the run of the next attempt counts as the newer exactly unless the attempt is all
   nines.
   */
  lemma NextAttemptWinsTie(project: string, issue: Issue, itemLabel: string, at: Time, left: Run, right: Run,
                           a: int32, b: int32)
    requires a >= 0 && b == a + 1 && left.name == RunOf(project, issue, a) && right.name == RunOf(project, issue, b)
    requires Fits(project, issue, b)
    ensures Newer(ListedRun(itemLabel, at, right), ListedRun(itemLabel, at, left)) <==> !AllNines(a)
  {
    NextShown(project, issue, a, b);
    TieBreak(project, issue, itemLabel, at, left, right, a, b);
  }

  lemma LessExactly(n: nat)
    ensures Less(RunNames.Digits(n), RunNames.Digits(n + 1)) <==> !AllNines(n)
  {
    Successor(n);
  }

  /** The first attempt that loses to its predecessor is the tenth. */
  lemma NineBeatsTen(project: string, issue: Issue, itemLabel: string, at: Time, nine: Run, ten: Run)
    requires Fits(project, issue, 10)
    requires nine.name == RunOf(project, issue, 9) && ten.name == RunOf(project, issue, 10)
    ensures Newer(ListedRun(itemLabel, at, nine), ListedRun(itemLabel, at, ten))
  {
    assert RunNames.Digits(1) == "1";
    assert RunNames.Digits(9) == "9" && RunNames.Digits(10) == "10";
    TieBreak(project, issue, itemLabel, at, ten, nine, 10, 9);
  }
}
