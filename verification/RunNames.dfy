/** DNS labels (sanitizeDNSLabel) and the names of the runs of one claim (symphonyRunName). */
module RunNames {
  import opened Text

  const LABEL_LIMIT := 50

  predicate IsAlnum(c: char) { 'a' <= c <= 'z' || '0' <= c <= '9' }

  // The specification of sanitizeDNSLabel.

  /** Replaces every run of other characters by one dash; lastDash tells that a dash was just written. */
  function Scrub(s: string, lastDash: bool): string {
    if s == "" then ""
    else if IsAlnum(s[0]) then [s[0]] + Scrub(s[1..], false)
    else if lastDash then Scrub(s[1..], true)
    else "-" + Scrub(s[1..], true)
  }

  function TrimDashLeft(s: string): string {
    if s != "" && s[0] == '-' then TrimDashLeft(s[1..]) else s
  }

  function TrimDashRight(s: string): string {
    if s != "" && s[|s| - 1] == '-' then TrimDashRight(s[..|s| - 1]) else s
  }

  /** strings.Trim(s, "-"). */
  function TrimDashes(s: string): string { TrimDashRight(TrimDashLeft(s)) }

  function Cut(s: string, n: nat): string { if |s| <= n then s else s[..n] }

  function Shortened(scrubbed: string): string {
    if scrubbed == "" then "run"
    else if |scrubbed| > LABEL_LIMIT then TrimDashes(Cut(scrubbed, LABEL_LIMIT))
    else scrubbed
  }

  function Sanitize(s: string): string { Shortened(TrimDashes(Scrub(Normal(s), false))) }

  lemma ScrubStep(b: string, s: string, i: nat, lastDash: bool)
    requires i < |s|
    ensures b + Scrub(s[i..], lastDash) ==
            if IsAlnum(s[i]) then b + [s[i]] + Scrub(s[i + 1..], false)
            else if lastDash then b + Scrub(s[i + 1..], true)
            else b + "-" + Scrub(s[i + 1..], true)
  {
    assert s[i..][1..] == s[i + 1..] && s[i..][0] == s[i];
    assert b + ([s[i]] + Scrub(s[i + 1..], false)) == b + [s[i]] + Scrub(s[i + 1..], false);
    assert b + ("-" + Scrub(s[i + 1..], true)) == b + "-" + Scrub(s[i + 1..], true);
  }

  /** sanitizeDNSLabel: the loop with its lastDash flag. */
  method SanitizeDNSLabel(text: string) returns (out: string)
    ensures out == Sanitize(text)
  {
    var s := Normal(text);
    if s == "" {
      return "run";
    }
    var b, lastDash := "", false;
    for i := 0 to |s|
      invariant b + Scrub(s[i..], lastDash) == Scrub(s, false)
    {
      ScrubStep(b, s, i, lastDash);
      if IsAlnum(s[i]) {
        b := b + [s[i]];
        lastDash := false;
        continue;
      }
      if !lastDash {
        b := b + "-";
        lastDash := true;
      }
    }
    assert b == b + Scrub("", lastDash) && s[|s|..] == "";
    out := TrimDashes(b);
    if out == "" {
      return "run";
    }
    if |out| > LABEL_LIMIT {
      out := TrimDashes(out[..LABEL_LIMIT]);
    }
  }

  // What the result is.

  /** A label of section 2.1 of RFC 1123, without double dashes and at most 50 characters long. */
  ghost predicate IsLabel(s: string) {
    && 1 <= |s| <= LABEL_LIMIT
    && IsAlnum(s[0]) && IsAlnum(s[|s| - 1])
    && Dashed(s)
  }

  /** Only letters, digits and single dashes. */
  ghost predicate Dashed(s: string) {
    && (forall i :: 0 <= i < |s| ==> IsAlnum(s[i]) || s[i] == '-')
    && (forall i :: 0 < i < |s| && s[i] == '-' ==> s[i - 1] != '-')
  }

  lemma {:induction false} ScrubDashed(s: string, lastDash: bool)
    ensures Dashed(Scrub(s, lastDash))
    ensures lastDash && Scrub(s, lastDash) != "" ==> Scrub(s, lastDash)[0] != '-'
  {
    if s != "" {
      ScrubDashed(s[1..], true);
      ScrubDashed(s[1..], false);
    }
  }

  lemma {:induction false} TrimDashLeftLaws(s: string)
    requires Dashed(s)
    ensures Dashed(TrimDashLeft(s)) && (TrimDashLeft(s) != "" ==> IsAlnum(TrimDashLeft(s)[0]))
  {
    if s != "" && s[0] == '-' {
      TrimDashLeftLaws(s[1..]);
    }
  }

  lemma {:induction false} TrimDashRightLaws(s: string)
    requires Dashed(s)
    ensures Dashed(TrimDashRight(s)) && TrimDashRight(s) <= s
    ensures TrimDashRight(s) != "" ==> IsAlnum(TrimDashRight(s)[|TrimDashRight(s)| - 1])
    ensures s != "" && IsAlnum(s[0]) ==> TrimDashRight(s) != ""
  {
    if s != "" && s[|s| - 1] == '-' {
      TrimDashRightLaws(s[..|s| - 1]);
    }
  }

  lemma TrimDashesLaws(s: string)
    requires Dashed(s)
    ensures Dashed(TrimDashes(s)) && |TrimDashes(s)| <= |s|
    ensures TrimDashes(s) != "" ==> IsAlnum(TrimDashes(s)[0]) && IsAlnum(TrimDashes(s)[|TrimDashes(s)| - 1])
    ensures s != "" && IsAlnum(s[0]) ==> TrimDashes(s) != ""
  {
    TrimDashLeftLaws(s);
    TrimDashLeftShrinks(s);
    TrimDashRightLaws(TrimDashLeft(s));
  }

  lemma {:induction false} TrimDashLeftShrinks(s: string)
    ensures |TrimDashLeft(s)| <= |s|
  {
    if s != "" && s[0] == '-' {
      TrimDashLeftShrinks(s[1..]);
    }
  }

  lemma SanitizeIsLabel(s: string)
    ensures IsLabel(Sanitize(s))
  {
    ScrubDashed(Normal(s), false);
    TrimDashesLaws(Scrub(Normal(s), false));
    TrimDashesLaws(Cut(TrimDashes(Scrub(Normal(s), false)), LABEL_LIMIT));
  }

  lemma {:induction false} ScrubKeepsDashed(s: string, lastDash: bool)
    requires Dashed(s) && (lastDash && s != "" ==> s[0] != '-')
    ensures Scrub(s, lastDash) == s
  {
    if s != "" {
      ScrubKeepsDashed(s[1..], s[0] == '-');
      assert s == [s[0]] + s[1..];
    }
  }

  lemma LowerKeeps(s: string)
    requires forall i :: 0 <= i < |s| ==> IsAlnum(s[i]) || s[i] == '-'
    ensures Lower(s) == s
  {
  }

  /** The labels are exactly the strings that sanitising leaves alone; so sanitising twice changes nothing. */
  lemma SanitizeFixesExactlyLabels(s: string)
    ensures Sanitize(s) == s <==> IsLabel(s)
    ensures Sanitize(Sanitize(s)) == Sanitize(s)
  {
    SanitizeIsLabel(s);
    LabelIsFixed(Sanitize(s));
    if IsLabel(s) {
      LabelIsFixed(s);
    }
  }

  lemma LabelIsFixed(s: string)
    requires IsLabel(s)
    ensures Sanitize(s) == s
  {
    TrimFixed(s);
    LowerKeeps(s);
    ScrubKeepsDashed(s, false);
  }

  // Run names.

  function Digits(n: nat): (d: string)
    ensures d != ""
    ensures forall i :: 0 <= i < |d| ==> '0' <= d[i] <= '9'
  {
    var last := ['0' + (n % 10) as char];
    if n < 10 then last else Digits(n / 10) + last
  }

  /** strconv.Itoa and strconv.FormatInt(_, 10). */
  function Itoa(n: int): string { if n < 0 then "-" + Digits(-n) else Digits(n) }

  /** Everything in front of the attempt number. */
  function Stem(project: string, repository: string, number: int): string {
    "sym-" + (project + "-" + repository + "-" + Itoa(number) + "-a-")
  }

  /** symphonyRunName. */
  function RunName(project: string, repository: string, number: int, attempt: int32): string {
    var clean := Sanitize(Stem(project, repository, number) + Itoa(attempt));
    var base := if |clean| > 63 then TrimDashes(Sanitize(Cut(clean, 63))) else clean;
    if base == "" then "sym-run" else base
  }

  /** The stem as it reads in the label, before the cut at 50 characters. */
  function StemLabel(project: string, repository: string, number: int): string {
    Scrub(Lower(Stem(project, repository, number)), false)
  }

  lemma {:induction false} ScrubConcat(s: string, digits: string, lastDash: bool)
    requires forall i :: 0 <= i < |digits| ==> '0' <= digits[i] <= '9'
    ensures Scrub(s + digits, lastDash) == Scrub(s, lastDash) + digits
    decreases |s| + |digits|
  {
    if s != "" {
      assert (s + digits)[1..] == s[1..] + digits;
      ScrubConcat(s[1..], digits, true);
      ScrubConcat(s[1..], digits, false);
    } else {
      assert s + digits == digits;
      forall i | 0 <= i < |digits| ensures IsAlnum(digits[i]) { }
      ScrubDigits(digits, lastDash);
    }
  }

  lemma {:induction false} ScrubDigits(digits: string, lastDash: bool)
    requires forall i :: 0 <= i < |digits| ==> IsAlnum(digits[i])
    ensures Scrub(digits, lastDash) == digits
  {
    if digits != "" {
      ScrubDigits(digits[1..], false);
      assert digits == [digits[0]] + digits[1..];
    }
  }

  /** A run name is the stem followed by the attempt, cut at 50 characters. */
  lemma RunNameShape(project: string, repository: string, number: int, attempt: int32)
    requires attempt >= 0
    ensures var stem := StemLabel(project, repository, number);
            RunName(project, repository, number, attempt) ==
            if |stem| >= LABEL_LIMIT then TrimDashes(stem[..LABEL_LIMIT])
            else stem + Cut(Digits(attempt), LABEL_LIMIT - |stem|)
  {
    var digits, stem := Digits(attempt), StemLabel(project, repository, number);
    StemFirst(project, repository, number, digits);
    ShortenedShape(stem, digits);
    SanitizeIsLabel(Stem(project, repository, number) + digits);
  }

  lemma ShortenedShape(stem: string, digits: string)
    requires stem != "" && stem[0] != '-'
    requires digits != "" && forall i :: 0 <= i < |digits| ==> digits[i] != '-'
    ensures Shortened(TrimDashes(stem + digits)) ==
            if |stem| >= LABEL_LIMIT then TrimDashes(stem[..LABEL_LIMIT])
            else stem + Cut(digits, LABEL_LIMIT - |stem|)
  {
    TrimDashesFixed(stem + digits);
    if |stem| >= LABEL_LIMIT {
      assert (stem + digits)[..LABEL_LIMIT] == stem[..LABEL_LIMIT];
    } else if |stem + digits| > LABEL_LIMIT {
      assert (stem + digits)[..LABEL_LIMIT] == stem + digits[..LABEL_LIMIT - |stem|];
      TrimDashesFixed(stem + digits[..LABEL_LIMIT - |stem|]);
    }
  }

  lemma TrimDashesFixed(s: string)
    requires s != "" && s[0] != '-' && s[|s| - 1] != '-'
    ensures TrimDashes(s) == s
  {
  }

  lemma StemFirst(project: string, repository: string, number: int, digits: string)
    requires digits != "" && forall i :: 0 <= i < |digits| ==> '0' <= digits[i] <= '9'
    ensures var stem := StemLabel(project, repository, number);
            && stem != "" && stem[0] == 's'
            && Scrub(Normal(Stem(project, repository, number) + digits), false) == stem + digits
  {
    PlainFirst(Stem(project, repository, number), digits);
  }

  lemma PlainFirst(text: string, digits: string)
    requires text != "" && text[0] == 's'
    requires digits != "" && forall i :: 0 <= i < |digits| ==> '0' <= digits[i] <= '9'
    ensures var stem := Scrub(Lower(text), false);
            stem != "" && stem[0] == 's' && Scrub(Normal(text + digits), false) == stem + digits
  {
    var last := digits[|digits| - 1];
    assert (text + digits)[|text + digits| - 1] == last && !IsSpace(last) && !IsSpace('s');
    TrimFixed(text + digits);
    assert Lower(text + digits) == Lower(text) + digits;
    ScrubConcat(Lower(text), digits, false);
    assert Lower(text)[0] == 's';
  }

  lemma {:induction false} DigitsInjective(m: nat, n: nat)
    requires Digits(m) == Digits(n)
    ensures m == n
  {
    var a, b := Digits(m), Digits(n);
    assert a[|a| - 1] == '0' + (m % 10) as char && b[|b| - 1] == '0' + (n % 10) as char;
    assert m % 10 == n % 10;
    if m >= 10 && n >= 10 {
      assert a[..|a| - 1] == Digits(m / 10) && b[..|b| - 1] == Digits(n / 10);
      DigitsInjective(m / 10, n / 10);
    }
  }

  function Pow10(n: nat): nat { if n == 0 then 1 else 10 * Pow10(n - 1) }

  lemma {:induction false} DigitsLength(n: nat, k: nat)
    requires k >= 1 && n < Pow10(k)
    ensures |Digits(n)| <= k
    ensures k == 1 || n >= Pow10(k - 1) ==> |Digits(n)| == k
    decreases k
  {
    if n >= 10 && k > 1 {
      DigitsLength(n / 10, k - 1);
    }
  }

  /** Two attempts share a run name exactly when the cut hides where their numbers differ. */
  lemma RunNamesDiffer(project: string, repository: string, number: int, a: int32, b: int32)
    requires a >= 0 && b >= 0
    ensures var stem := StemLabel(project, repository, number);
            RunName(project, repository, number, a) != RunName(project, repository, number, b)
            <==> |stem| < LABEL_LIMIT && Cut(Digits(a), LABEL_LIMIT - |stem|) != Cut(Digits(b), LABEL_LIMIT - |stem|)
  {
    RunNameShape(project, repository, number, a);
    RunNameShape(project, repository, number, b);
    var stem := StemLabel(project, repository, number);
    if |stem| < LABEL_LIMIT {
      var x, y := Cut(Digits(a), LABEL_LIMIT - |stem|), Cut(Digits(b), LABEL_LIMIT - |stem|);
      assert (stem + x)[|stem|..] == x && (stem + y)[|stem|..] == y;
    }
  }

  /** A new attempt has a new run name whenever neither name is cut. */
  lemma NewAttemptNewRun(project: string, repository: string, number: int, a: int32, b: int32)
    requires a >= 0 && b >= 0 && a != b
    requires |StemLabel(project, repository, number)| + |Digits(a)| <= LABEL_LIMIT
    requires |StemLabel(project, repository, number)| + |Digits(b)| <= LABEL_LIMIT
    ensures RunName(project, repository, number, a) != RunName(project, repository, number, b)
  {
    RunNamesDiffer(project, repository, number, a, b);
    if Digits(a) == Digits(b) {
      DigitsInjective(a, b);
    }
  }

  /** All attempts have names of their own exactly when the stem leaves room for ten digits. */
  lemma RunNamesInjective(project: string, repository: string, number: int)
    ensures (forall a: int32, b: int32 :: 1 <= a < b ==>
               RunName(project, repository, number, a) != RunName(project, repository, number, b))
            <==> |StemLabel(project, repository, number)| + 10 <= LABEL_LIMIT
  {
    var stem := StemLabel(project, repository, number);
    if |stem| + 10 <= LABEL_LIMIT {
      forall a: int32, b: int32 | 1 <= a < b
        ensures RunName(project, repository, number, a) != RunName(project, repository, number, b)
      {
        DigitsLength(a, 10);
        DigitsLength(b, 10);
        NewAttemptNewRun(project, repository, number, a, b);
      }
    } else {
      RunNamesDiffer(project, repository, number, MAX_INT32 - 1, MAX_INT32);
      if |stem| < LABEL_LIMIT {
        LargestAttemptsCollide(LABEL_LIMIT - |stem|);
      }
      assert RunName(project, repository, number, MAX_INT32 - 1) == RunName(project, repository, number, MAX_INT32);
    }
  }

  lemma LargestAttemptsCollide(k: nat)
    requires k <= 9
    ensures Cut(Digits(MAX_INT32 - 1), k) == Cut(Digits(MAX_INT32), k)
  {
    HeadHasNineDigits();
    SameHead(MAX_INT32 - 1, MAX_INT32, k);
  }

  lemma SameHead(m: nat, n: nat, k: nat)
    requires m >= 10 && n >= 10 && m / 10 == n / 10 && k <= |Digits(m / 10)|
    ensures Cut(Digits(m), k) == Cut(Digits(n), k)
  {
    assert Digits(m)[..k] == Digits(m / 10)[..k] && Digits(n)[..k] == Digits(m / 10)[..k];
  }

  lemma HeadHasNineDigits()
    ensures |Digits(214748364)| == 9
  {
    assert Pow10(4) == 10_000 && Pow10(6) == 1_000_000;
    assert Pow10(8) == 100_000_000;
    DigitsLength(214748364, 9);
  }
}
