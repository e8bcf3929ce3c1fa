/** The SymphonyProject object whose status reconcileProjectRuntime overwrites in place. */
module SymphonyProjects {
  import opened Text
  import opened Scheduler

  class SymphonyProject {
    const name: string
    var runtime: Runtime
    var activeClaims: seq<Claim>
    var retryQueue: seq<Retry>

    constructor (name: string, runtime: Runtime)
      ensures this.name == name && this.runtime == runtime && Status() == Scheduler.Status([], [])
    {
      this.name, this.runtime, activeClaims, retryQueue := name, runtime, [], [];
    }

    function Status(): Status
      reads this
    {
      Scheduler.Status(activeClaims, retryQueue)
    }

    /** mapClaimsByItem. */
    static method MapClaimsByItem(items: seq<Claim>) returns (mapped: map<string, Claim>)
      ensures mapped == ClaimsByItem(items)
    {
      mapped := map[];
      for i := 0 to |items|
        invariant mapped == ClaimsByItem(items[..i])
      {
        assert items[..i + 1][..i] == items[..i];
        mapped := mapped[items[i].itemId := items[i]];
      }
      assert items[..|items|] == items;
    }

    /** mapRetriesByItem. */
    static method MapRetriesByItem(items: seq<Retry>) returns (mapped: map<string, Retry>)
      ensures mapped == RetriesByItem(items)
    {
      mapped := map[];
      for i := 0 to |items|
        invariant mapped == RetriesByItem(items[..i])
      {
        assert items[..i + 1][..i] == items[..i];
        mapped := mapped[items[i].itemId := items[i]];
      }
      assert items[..|items|] == items;
    }

    /** Collects the deferred entries in whatever order the map yields its keys, then sorts them. */
    static method DrainDeferred(deferred: map<string, Retry>) returns (retries: seq<Retry>)
      ensures retries == Queue(deferred)
    {
      var left := deferred.Keys;
      var ids: seq<string> := [];
      while left != {}
        invariant left <= deferred.Keys
        invariant SortedBy(ids, deferred.Keys - left)
      {
        var id :| id in left;
        ids := Insert(id, ids);
        left := left - {id};
      }
      SortedUnique(ids, SortedKeys(deferred.Keys), deferred.Keys);
      retries := [];
      for i := 0 to |ids|
        invariant |retries| == i
        invariant forall j :: 0 <= j < i ==> retries[j] == RetryAt(deferred, ids[j])
      {
        retries := retries + [deferred[ids[i]]];
      }
    }

    /** The loop over the snapshot's candidates. */
    static method ScanCandidates(cs: seq<Candidate>, x: Inputs)
      returns (claims: seq<Claim>, consumed: set<string>, deferredRetry: map<string, Retry>,
               readyRetries: map<string, Retry>, readyRetryIds: seq<string>, freshCandidates: seq<Candidate>)
      ensures Scan(claims, consumed, deferredRetry, readyRetries, readyRetryIds, freshCandidates) == ScanAll(cs, x)
    {
      claims, consumed, deferredRetry := [], {}, map[];
      readyRetries, readyRetryIds, freshCandidates := map[], [], [];
      var Inputs(previousClaims, previousRetries, runs, runtime, now) := x;
      var maxConcurrent := runtime.MaxConcurrent();
      for i := 0 to |cs|
        invariant Scan(claims, consumed, deferredRetry, readyRetries, readyRetryIds, freshCandidates)
               == ScanAll(cs[..i], x)
      {
        assert cs[..i + 1][..i] == cs[..i];
        var candidate := cs[i];
        var id := candidate.itemId;
        var claim, retry := ClaimAt(previousClaims, id), RetryAt(previousRetries, id);
        if id in previousRetries && id !in previousClaims {
          if Due(retry, now) {
            if |claims| < maxConcurrent {
              claims := claims + [BuildClaimFromRetry(candidate, retry, now)];
              consumed := consumed + {id};
            } else {
              deferredRetry := deferredRetry[id := retry];
            }
            continue;
          }
          deferredRetry := deferredRetry[id := retry];
          continue;
        }
        if id in runs {
          var run := runs[id];
          match run.phase {
            case Succeeded =>
              var again := BuildContinuationRetry(candidate, claim, retry, now);
              if Due(again, now) && |claims| < maxConcurrent {
                claims := claims + [BuildClaimFromRetry(candidate, again, now)];
                consumed := consumed + {id};
              } else {
                deferredRetry := deferredRetry[id := again];
              }
              continue;
            case Pending | Starting | Running =>
              claims := claims + [BuildClaimStatus(candidate, run, claim, now)];
              consumed := consumed + {id};
              continue;
            case Failed =>
              var again := BuildRetryStatus(candidate, run, claim, retry, runtime, now);
              if Due(again, now) && |claims| < maxConcurrent {
                claims := claims + [BuildClaimFromRetry(candidate, again, now)];
                consumed := consumed + {id};
              } else {
                deferredRetry := deferredRetry[id := again];
              }
              continue;
            case OtherPhase(_) =>
          }
        }
        if id in previousClaims {
          claims := claims + [BuildClaimWithoutRun(candidate, claim, now)];
          consumed := consumed + {id};
          continue;
        }
        if id in previousRetries {
          if Due(retry, now) {
            readyRetries := readyRetries[id := retry];
            readyRetryIds := readyRetryIds + [id];
          } else {
            deferredRetry := deferredRetry[id := retry];
          }
          continue;
        }
        freshCandidates := freshCandidates + [candidate];
      }
      assert cs[..|cs|] == cs;
    }

    /** The loop over the sorted ids of the ready retries. */
    static method PromoteReadyRetries(p: Scan, cs: seq<Candidate>, x: Inputs)
      returns (claims: seq<Claim>, consumed: set<string>, deferredRetry: map<string, Retry>)
      ensures p.(claims := claims, consumed := consumed, deferred := deferredRetry)
           == PromoteReady(p, SortIds(p.readyIds), cs, x)
    {
      claims, consumed, deferredRetry := p.claims, p.consumed, p.deferred;
      var ids := SortIds(p.readyIds);
      for i := 0 to |ids|
        invariant PromoteReady(p.(claims := claims, consumed := consumed, deferred := deferredRetry), ids[i..], cs, x)
               == PromoteReady(p, ids, cs, x)
      {
        assert ids[i..][1..] == ids[i + 1..];
        var id := ids[i];
        var retry := if id in p.ready then p.ready[id] else RetryAt(x.retries, id);
        if |claims| >= x.runtime.MaxConcurrent() {
          deferredRetry := deferredRetry[id := retry];
          continue;
        }
        var found := FindCandidate(cs, id);
        if found.None? {
          continue;
        }
        claims := claims + [BuildClaimFromRetry(found.value, retry, x.now)];
        consumed := consumed + {id};
      }
    }

    /** The loop over the fresh candidates. */
    static method AdmitFreshCandidates(p: Scan, freshCandidates: seq<Candidate>, x: Inputs)
      returns (claims: seq<Claim>, consumed: set<string>)
      ensures p.(claims := claims, consumed := consumed) == AdmitFresh(p, freshCandidates, x)
    {
      claims, consumed := p.claims, p.consumed;
      for i := 0 to |freshCandidates|
        invariant AdmitFresh(p.(claims := claims, consumed := consumed), freshCandidates[i..], x)
               == AdmitFresh(p, freshCandidates, x)
      {
        assert freshCandidates[i..][1..] == freshCandidates[i + 1..];
        if |claims| >= x.runtime.MaxConcurrent() {
          break;
        }
        var candidate := freshCandidates[i];
        if candidate.itemId in consumed {
          continue;
        }
        claims := claims + [BuildFreshClaim(candidate, x.now)];
        consumed := consumed + {candidate.itemId};
      }
    }

    /** reconcileProjectRuntime: one pass, in place on the status. */
    method ReconcileRuntime(cs: seq<Candidate>, runs: map<string, Run>, now: Time)
      modifies this`activeClaims, this`retryQueue
      ensures Status() == Pass(old(Status()), cs, runs, runtime, now)
    {
      var previousClaims := MapClaimsByItem(activeClaims);
      var previousRetries := MapRetriesByItem(retryQueue);
      var x := Inputs(previousClaims, previousRetries, runs, runtime, now);
      var claims, consumed, deferredRetry, readyRetries, readyRetryIds, freshCandidates := ScanCandidates(cs, x);
      var p := Scan(claims, consumed, deferredRetry, readyRetries, readyRetryIds, freshCandidates);
      claims, consumed, deferredRetry := PromoteReadyRetries(p, cs, x);
      p := p.(claims := claims, consumed := consumed, deferred := deferredRetry);
      claims, consumed := AdmitFreshCandidates(p, freshCandidates, x);
      var retries := DrainDeferred(deferredRetry);
      activeClaims := Take(claims, runtime.ClaimLimit());
      retryQueue := Take(retries, runtime.RetryLimit());
    }

    /** materializeActiveClaims: the first error ends the loop. */
    method MaterialiseActiveClaims(runs: map<string, Run>, answers: seq<Answer>, now: Time) returns (ok: bool)
      requires |answers| == |activeClaims|
      modifies this`activeClaims
      ensures ok <==> FirstRefused(old(activeClaims), answers) == |old(activeClaims)|
      ensures activeClaims == MaterialiseAll(old(activeClaims), Outcomes(name, old(activeClaims), runs, answers), now)
    {
      ghost var before := activeClaims;
      for i := 0 to |activeClaims|
        invariant |activeClaims| == |before|
        invariant FirstRefused(before, answers) == i + FirstRefused(before[i..], answers[i..])
        invariant forall j :: 0 <= j < i ==>
          activeClaims[j] == Materialise(before[j], Outcome(name, before[j], runs, answers[j].Placed()), now)
        invariant activeClaims[i..] == before[i..]
      {
        var claim := activeClaims[i];
        assert claim == before[i..][0] && answers[i..][0] == answers[i];
        assert activeClaims[i..][1..] == before[i..][1..] && answers[i..][1..] == answers[i + 1..];
        if Trim(claim.itemId) == "" {
          continue;
        }
        if answers[i].Refused? {
          return false;
        }
        if claim.itemId in runs && runs[claim.itemId].name == DesiredRun(name, claim) {
          claim := BuildClaimStatus(Candidate(claim.itemId, claim.issue), runs[claim.itemId], claim, now);
          activeClaims := activeClaims[i := claim];
          continue;
        }
        var placement := answers[i].placement;
        if placement.None? {
          continue;
        }
        var Placement(sessionName, run) := placement.value;
        claim := claim.(runRef := RunRef(sessionName, run.name), phase := FirstNonEmpty(run.phase.Label(), "Pending"),
                        lastUpdated := Some(now));
        activeClaims := activeClaims[i := claim];
      }
      return true;
    }
  }
}
