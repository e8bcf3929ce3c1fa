/** The numbers of a project's runtime: their defaults, their validation, and what the scheduler makes of them. */
module SchedulerDefaults {
  import opened Text
  import Backoff
  import opened Scheduler

  /** The part of ApplyDefaults that the scheduler reads. */
  function Defaulted(rt: Runtime): Runtime {
    Runtime(if rt.maxConcurrentItems <= 0 then 1 else rt.maxConcurrentItems,
            if rt.activeStatusItemLimit <= 0 then 20 else rt.activeStatusItemLimit,
            if rt.recentErrorLimit <= 0 then 20 else rt.recentErrorLimit,
            if rt.retryBaseDelaySeconds <= 0 then Backoff.DEFAULT_BASE_SECONDS else rt.retryBaseDelaySeconds,
            if rt.retryMaxDelaySeconds <= 0 then Backoff.DEFAULT_MAX_SECONDS else rt.retryMaxDelaySeconds)
  }

  /** The part of Validate that speaks about those numbers. */
  predicate Valid(rt: Runtime) {
    rt.maxConcurrentItems > 0 && rt.retryBaseDelaySeconds > 0 && rt.retryMaxDelaySeconds >= rt.retryBaseDelaySeconds
  }

  /** Storing the defaults in the object changes neither a limit nor a delay of the scheduler, which has its own. */
  lemma DefaultsAreInvisible(rt: Runtime, attempt: int32)
    ensures Defaulted(rt).MaxConcurrent() == rt.MaxConcurrent()
    ensures Defaulted(rt).ClaimLimit() == rt.ClaimLimit() && Defaulted(rt).RetryLimit() == rt.RetryLimit()
    ensures Defaulted(rt).Delay(attempt) == rt.Delay(attempt)
    ensures Defaulted(Defaulted(rt)) == Defaulted(rt)
  {
    var d := Defaulted(rt);
    assert Backoff.Base(d.retryBaseDelaySeconds) == Backoff.Base(rt.retryBaseDelaySeconds);
    assert Backoff.Ceiling(d.retryBaseDelaySeconds, d.retryMaxDelaySeconds)
        == Backoff.Ceiling(rt.retryBaseDelaySeconds, rt.retryMaxDelaySeconds);
  }

  /**
   Once defaulted, a runtime is valid exactly when its first delay is the base and every delay lies between base and
   maximum.
   */
  lemma ValidExactlyBounded(rt: Runtime)
    ensures var d := Defaulted(rt);
            var base, top := d.retryBaseDelaySeconds * 1_000_000_000, d.retryMaxDelaySeconds * 1_000_000_000;
            Valid(d) <==> d.Delay(1) == base && forall attempt: int32 :: base <= d.Delay(attempt) <= top
  {
    var d := Defaulted(rt);
    var base, top := d.retryBaseDelaySeconds * 1_000_000_000, d.retryMaxDelaySeconds * 1_000_000_000;
    if Valid(d) {
      assert Backoff.Pow2(0) == 1 && d.Delay(1) == base;
      forall attempt: int32 ensures base <= d.Delay(attempt) <= top {
        FirstDelayIsLeast(d, attempt);
      }
    }
    assert base <= d.Delay(1) <= top ==> Valid(d);
  }

  const UNSET := Runtime(0, 0, 0, 0, 0)

  /** With nothing configured one item is worked on at a time, and its delays are 1, 2, 4, 8 and then 15 minutes. */
  lemma UnsetRuntime(attempt: int32)
    ensures UNSET.MaxConcurrent() == 1 && UNSET.ClaimLimit() == 20 && UNSET.RetryLimit() == 20
    ensures attempt <= 1 ==> UNSET.Delay(attempt) == 60 * SECOND
    ensures UNSET.Delay(2) == 120 * SECOND && UNSET.Delay(3) == 240 * SECOND && UNSET.Delay(4) == 480 * SECOND
    ensures attempt >= 5 ==> UNSET.Delay(attempt) == 900 * SECOND
  {
    assert Backoff.Pow2(1) == 2 && Backoff.Pow2(2) == 4 && Backoff.Pow2(3) == 8;
    assert Backoff.Pow2(4) == 16;
    if attempt >= 5 {
      Backoff.RetryDelayMonotone(0, 0, 5, attempt);
      assert UNSET.Delay(5) == 900 * SECOND;
    }
  }

  lemma FirstDelayIsLeast(rt: Runtime, attempt: int32)
    ensures rt.Delay(1) <= rt.Delay(attempt) <= Backoff.Ceiling(rt.retryBaseDelaySeconds, rt.retryMaxDelaySeconds)
  {
    if attempt <= 1 {
      assert rt.Delay(attempt) == rt.Delay(1);
      Backoff.RetryDelayMonotone(rt.retryBaseDelaySeconds, rt.retryMaxDelaySeconds, 1, 1);
    } else {
      Backoff.RetryDelayMonotone(rt.retryBaseDelaySeconds, rt.retryMaxDelaySeconds, 1, attempt);
    }
  }

  datatype Repository = Repository(owner: string, name: string)

  /** RepositoryKey. */
  function RepositoryKey(r: Repository): string {
    var owner, name := Trim(Lower(r.owner)), Trim(Lower(r.name));
    if owner == "" || name == "" then "" else owner + "/" + name
  }

  lemma SplitOnce(a: string, b: string, c: string, d: string)
    requires '/' !in a && '/' !in c && a + "/" + b == c + "/" + d
    ensures a == c && b == d
  {
    var x, y := a + "/" + b, c + "/" + d;
    assert x[|a|] == '/' && y[|c|] == '/';
    forall i | 0 <= i < |a| ensures x[i] != '/' {
      assert x[i] == a[i];
    }
    forall i | 0 <= i < |c| ensures y[i] != '/' {
      assert y[i] == c[i];
    }
    assert |a| == |c|;
    assert a == x[..|a|] && c == y[..|c|] && b == x[|a| + 1..] && d == y[|c| + 1..];
  }

  /**
   A repository has a key exactly when its owner and its name are not blank, and two whose owners hold no slash have
   the same key exactly when owner and name agree up to case and blanks.
   */
  lemma RepositoryKeyExactly(a: Repository, b: Repository)
    ensures RepositoryKey(a) != "" <==> Trim(Lower(a.owner)) != "" && Trim(Lower(a.name)) != ""
    ensures RepositoryKey(a) != "" && RepositoryKey(b) != ""
            && '/' !in Trim(Lower(a.owner)) && '/' !in Trim(Lower(b.owner)) ==>
              (RepositoryKey(a) == RepositoryKey(b)
               <==> && Trim(Lower(a.owner)) == Trim(Lower(b.owner)) && Trim(Lower(a.name)) == Trim(Lower(b.name)))
  {
    var c, d := Trim(Lower(a.owner)), Trim(Lower(b.owner));
    if RepositoryKey(a) == RepositoryKey(b) != "" && '/' !in c && '/' !in d {
      SplitOnce(c, Trim(Lower(a.name)), d, Trim(Lower(b.name)));
    }
  }

  predicate Plain(s: string) { s != "" && forall i :: 0 <= i < |s| ==> 'a' <= s[i] <= 'z' || s[i] == '/' }

  lemma PlainFixed(s: string)
    requires Plain(s)
    ensures Trim(Lower(s)) == s
  {
    assert Lower(s) == s;
    TrimFixed(s);
  }

  lemma PlainKey(owner: string, name: string)
    requires Plain(owner) && Plain(name)
    ensures RepositoryKey(Repository(owner, name)) == owner + "/" + name
  {
    PlainFixed(owner);
    PlainFixed(name);
  }

  lemma PlainWithSlash(s: string, t: string)
    requires Plain(s) && Plain(t)
    ensures Plain(s + "/" + t)
  {
  }

  lemma SlashesRegroup(a: string, b: string, c: string)
    ensures (a + "/" + b) + "/" + c == a + "/" + (b + "/" + c)
  {
  }

  /** A slash in the owner makes two repositories share a key. */
  lemma SlashSharesKey(owner: string, part: string, name: string)
    requires Plain(owner) && Plain(part) && Plain(name)
    ensures RepositoryKey(Repository(owner + "/" + part, name)) == RepositoryKey(Repository(owner, part + "/" + name))
  {
    PlainWithSlash(owner, part);
    PlainWithSlash(part, name);
    PlainKey(owner + "/" + part, name);
    PlainKey(owner, part + "/" + name);
    SlashesRegroup(owner, part, name);
  }

  datatype RepositoryFault = OwnerAndNameRequired | DuplicateRepository(key: string)

  function Keys(repos: seq<Repository>): seq<string> {
    seq(|repos|, i requires 0 <= i < |repos| => RepositoryKey(repos[i]))
  }

  ghost predicate WellKeyed(keys: seq<string>) {
    "" !in keys && forall i, j :: 0 <= i < j < |keys| ==> keys[i] != keys[j]
  }

  /** The i-th key is the first at fault, as it repeats an earlier one. */
  ghost predicate FirstRepeat(keys: seq<string>, key: string, i: nat) {
    i < |keys| && keys[i] == key && key in keys[..i] && WellKeyed(keys[..i])
  }

  /** The loop of Validate over the repositories: no fault exactly when every key is there and none repeats. */
  method ValidateRepositories(repos: seq<Repository>) returns (fault: Option<RepositoryFault>)
    ensures var keys := Keys(repos);
            match fault
            case None => WellKeyed(keys)
            case Some(OwnerAndNameRequired) => exists i :: 0 <= i < |keys| && keys[i] == "" && WellKeyed(keys[..i])
            case Some(DuplicateRepository(key)) => exists i :: FirstRepeat(keys, key, i)
  {
    fault := ValidateKeys(Keys(repos));
  }

  method ValidateKeys(keys: seq<string>) returns (fault: Option<RepositoryFault>)
    ensures match fault
            case None => WellKeyed(keys)
            case Some(OwnerAndNameRequired) => exists i :: 0 <= i < |keys| && keys[i] == "" && WellKeyed(keys[..i])
            case Some(DuplicateRepository(key)) => exists i :: FirstRepeat(keys, key, i)
  {
    var seen: set<string> := {};
    for i := 0 to |keys|
      invariant WellKeyed(keys[..i]) && seen == SetOf(keys[..i])
    {
      if keys[i] == "" {
        return Some(OwnerAndNameRequired);
      }
      if keys[i] in seen {
        assert FirstRepeat(keys, keys[i], i);
        return Some(DuplicateRepository(keys[i]));
      }
      assert keys[..i + 1] == keys[..i] + [keys[i]];
      seen := seen + {keys[i]};
    }
    assert keys[..|keys|] == keys;
    return None;
  }
}
