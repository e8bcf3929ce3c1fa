/** The append-only log of agent sessions: sanitised event payloads, the last state, and paging through events. */
module SessionStore {
  import opened Text
  import opened SessionPhases

  type Time = int

  // Event payloads.

  datatype Json =
    | Null
    | Bool(b: bool)
    | Number(n: real)
    | Str(s: string)
    | Arr(items: seq<Json>)
    | Obj(members: map<string, Json>)

  const REDACTED := Str("[redacted]")

  /** agentSessionKeyLooksSensitive. */
  predicate Sensitive(key: string) {
    var k := Normal(key);
    || Contains(k, "secret") || Contains(k, "token") || Contains(k, "password") || Contains(k, "authorization")
    || Contains(k, "credential") || Contains(k, "apikey") || Contains(k, "api-key")
  }

  const SENSITIVE_WORDS := ["secret", "token", "password", "authorization", "credential", "apikey", "api-key"]

  predicate PartAt(s: string, part: string, i: nat) { i + |part| <= |s| && s[i..i + |part|] == part }

  lemma {:induction false} ContainsExactly(s: string, part: string)
    ensures Contains(s, part) <==> exists i: nat :: PartAt(s, part, i)
  {
    if part <= s {
      assert PartAt(s, part, 0);
    } else if s != "" {
      ContainsExactly(s[1..], part);
      if i: nat :| PartAt(s[1..], part, i) {
        assert PartAt(s, part, i + 1);
      }
      if i: nat :| PartAt(s, part, i) {
        assert i > 0 && PartAt(s[1..], part, i - 1);
      }
    }
  }

  /** The word stands in the key, in whatever case. */
  ghost predicate Holds(key: string, word: string) {
    exists a: string, b: string, c: string :: key == a + b + c && Lower(b) == word
  }

  /** A word of small letters and dashes. */
  predicate IsWord(word: string) {
    word != "" && forall i :: 0 <= i < |word| ==> 'a' <= word[i] <= 'z' || word[i] == '-'
  }

  lemma HoldsIfContains(key: string, word: string)
    requires Contains(Normal(key), word)
    ensures Holds(key, word)
  {
    var left, right := TrimCuts(key);
    var t := Trim(key);
    ContainsExactly(Lower(t), word);
    var i: nat :| PartAt(Lower(t), word, i);
    LowerPart(t, i, |word|);
    Regrouped(left, t, right, i, i + |word|);
    HoldsBy(key, word, left + t[..i], t[i..i + |word|], t[i + |word|..] + right);
  }

  lemma HoldsBy(key: string, word: string, a: string, b: string, c: string)
    requires key == a + b + c && Lower(b) == word
    ensures Holds(key, word)
  {
  }

  lemma LowerPart(t: string, i: nat, n: nat)
    requires i + n <= |t|
    ensures Lower(t)[i..i + n] == Lower(t[i..i + n])
  {
  }

  lemma Regrouped(left: string, t: string, right: string, i: nat, j: nat)
    requires i <= j <= |t|
    ensures left + t + right == (left + t[..i]) + t[i..j] + (t[j..] + right)
  {
  }

  lemma WordExactly(key: string, word: string)
    requires IsWord(word)
    ensures Contains(Normal(key), word) <==> Holds(key, word)
  {
    if Contains(Normal(key), word) {
      HoldsIfContains(key, word);
    }
    if Holds(key, word) {
      ContainsIfHolds(key, word);
    }
  }

  lemma ContainsIfHolds(key: string, word: string)
    requires IsWord(word) && Holds(key, word)
    ensures Contains(Normal(key), word)
  {
    var left, right := TrimCuts(key);
    var t := Trim(key);
    var a: string, b: string, c: string :| key == a + b + c && Lower(b) == word;
    WordHasNoSpace(b, word);
    WordInside(left, t, right, a, b, c);
    assert PartAt(Lower(t), word, |a| - |left|);
    ContainsExactly(Lower(t), word);
  }

  lemma WordHasNoSpace(b: string, word: string)
    requires IsWord(word) && Lower(b) == word
    ensures b != "" && !IsSpace(b[0]) && !IsSpace(b[|b| - 1])
  {
    assert LowerChar(b[0]) == word[0] && LowerChar(b[|b| - 1]) == word[|b| - 1];
  }

  /** A piece that begins and ends with no white space lies in the trimmed part. */
  lemma WordInside(left: string, t: string, right: string, a: string, b: string, c: string)
    requires left + t + right == a + b + c && AllSpace(left) && AllSpace(right)
    requires b != "" && !IsSpace(b[0]) && !IsSpace(b[|b| - 1])
    ensures |left| <= |a| && |a| + |b| <= |left| + |t| && t[|a| - |left|..|a| - |left| + |b|] == b
  {
    var key := left + t + right;
    assert key[|a|] == b[0] && key[|a| + |b| - 1] == b[|b| - 1];
    forall i | 0 <= i < |left| ensures IsSpace(key[i]) {
      assert key[i] == left[i];
    }
    forall i | |left| + |t| <= i < |key| ensures IsSpace(key[i]) {
      assert key[i] == right[i - |left| - |t|];
    }
    assert |left| <= |a| && |a| + |b| <= |left| + |t|;
    forall k | 0 <= k < |b| ensures t[|a| - |left| + k] == b[k] {
      assert key[|a| + k] == b[k] && key[|a| + k] == t[|a| - |left| + k];
    }
  }

  /** A key is sensitive exactly when one of the seven words stands in it, in whatever case. */
  lemma SensitiveExactly(key: string)
    ensures Sensitive(key) <==> exists i :: 0 <= i < |SENSITIVE_WORDS| && Holds(key, SENSITIVE_WORDS[i])
  {
    var ws := SENSITIVE_WORDS;
    forall i | 0 <= i < |ws| ensures Contains(Normal(key), ws[i]) <==> Holds(key, ws[i]) {
      WordExactly(key, ws[i]);
    }
    SensitiveListed(key);
  }

  lemma SensitiveListed(key: string)
    ensures Sensitive(key)
            <==> exists i :: 0 <= i < |SENSITIVE_WORDS| && Contains(Normal(key), SENSITIVE_WORDS[i])
  {
    var ws := SENSITIVE_WORDS;
    assert ws[0] == "secret" && ws[1] == "token" && ws[2] == "password" && ws[3] == "authorization";
    assert ws[4] == "credential" && ws[5] == "apikey" && ws[6] == "api-key";
  }

  /** sanitizeAgentSessionValue. */
  function Sanitize(v: Json): Json {
    match v
    case Arr(items) => Arr(seq(|items|, i requires 0 <= i < |items| => Sanitize(items[i])))
    case Obj(members) => Obj(map k | k in members :: if Sensitive(k) then REDACTED else Sanitize(members[k]))
    case _ => v
  }

  /** No sensitive key, at any depth, holds anything but the redaction mark. */
  ghost predicate Clean(v: Json) {
    match v
    case Arr(items) => forall i :: 0 <= i < |items| ==> Clean(items[i])
    case Obj(members) => forall k :: k in members ==> if Sensitive(k) then members[k] == REDACTED else Clean(members[k])
    case _ => true
  }

  /** Sanitising leaves a payload alone exactly when it is clean already. */
  lemma {:induction false} SanitizeFixesExactlyClean(v: Json)
    ensures Sanitize(v) == v <==> Clean(v)
  {
    match v
    case Arr(items) =>
      forall i | 0 <= i < |items| ensures Sanitize(items[i]) == items[i] <==> Clean(items[i]) {
        SanitizeFixesExactlyClean(items[i]);
      }
      var cleaned := seq(|items|, i requires 0 <= i < |items| => Sanitize(items[i]));
      assert Sanitize(v) == Arr(cleaned);
      assert cleaned == items <==> forall i :: 0 <= i < |items| ==> cleaned[i] == items[i];
    case Obj(members) =>
      forall k | k in members ensures Sanitize(members[k]) == members[k] <==> Clean(members[k]) {
        SanitizeFixesExactlyClean(members[k]);
      }
      var cleaned := map k | k in members :: if Sensitive(k) then REDACTED else Sanitize(members[k]);
      assert Sanitize(v) == Obj(cleaned);
      assert cleaned == members <==> forall k :: k in members ==> cleaned[k] == members[k];
    case _ =>
  }

  /** What stands under a sensitive key is replaced by the mark, and what stands under another is sanitised itself. */
  lemma MembersSanitised(members: map<string, Json>, key: string)
    requires key in members
    ensures var v := Sanitize(Obj(members));
            && v.Obj? && v.members.Keys == members.Keys
            && v.members[key] == if Sensitive(key) then Str("[redacted]") else Sanitize(members[key])
  {
  }

  /** No payload keeps a secret: what is stored is always clean. */
  lemma {:induction false} SanitizedIsClean(v: Json)
    ensures Clean(Sanitize(v))
  {
    match v
    case Arr(items) =>
      forall i | 0 <= i < |items| ensures Clean(Sanitize(items[i])) {
        SanitizedIsClean(items[i]);
      }
    case Obj(members) =>
      forall k | k in members ensures Clean(Sanitize(members[k])) {
        SanitizedIsClean(members[k]);
      }
    case _ =>
  }

  // The log.

  datatype Event = Event(sequence: int, at: Time, envelope: Json)

  datatype State = State(runId: string, sessionId: string, phase: Phase, lastSequence: int)

  datatype Record = StateRecord(runId: string, state: State) | EventRecord(runId: string, event: Event)

  const MAX_MEM := 50_000

  // A line of the file is read back only if it fits the scanner's default buffer of 64 KiB with its newline.
  const LINE_LIMIT := 64 * 1024

  /** Where the log lives, and how many bytes a record takes as a line. */
  datatype Medium = Memory | File(size: Record -> nat)

  /** append. */
  function Appended(medium: Medium, log: seq<Record>, r: Record): seq<Record> {
    var longer := log + [r];
    if medium.Memory? && |longer| > MAX_MEM then longer[|longer| - MAX_MEM..] else longer
  }

  /** The log is what it was and the record behind it; in memory its oldest records beyond 50,000 are dropped. */
  lemma AppendedKeepsLast(medium: Medium, log: seq<Record>, r: Record)
    ensures var longer := Appended(medium, log, r);
            && 0 < |longer| <= |log| + 1 && longer == (log + [r])[|log| + 1 - |longer|..]
            && (medium.File? || |log| < MAX_MEM ==> |longer| == |log| + 1)
            && (medium.Memory? && |log| >= MAX_MEM ==> |longer| == MAX_MEM)
  {
  }

  predicate Readable(medium: Medium, log: seq<Record>) {
    medium.File? ==> forall i :: 0 <= i < |log| ==> medium.size(log[i]) < LINE_LIMIT
  }

  /** records. */
  function Records(medium: Medium, log: seq<Record>): Option<seq<Record>> {
    if Readable(medium, log) then Some(log) else None
  }

  predicate Wanted(r: Record, runs: set<string>) { r.runId in runs && r.runId != "" }

  predicate Listed(r: Record, runs: set<string>) { r.EventRecord? && Wanted(r, runs) }

  function LatestState(log: seq<Record>, runs: set<string>): Option<State> {
    if log == [] then None
    else
      var last := log[|log| - 1];
      if last.StateRecord? && Wanted(last, runs) then Some(last.state) else LatestState(log[..|log| - 1], runs)
  }

  /** LoadState. */
  function LoadState(medium: Medium, log: seq<Record>, runs: set<string>): Option<State> {
    if Readable(medium, log) then LatestState(log, runs) else None
  }

  predicate Saves(r: Record, runs: set<string>) { r.StateRecord? && Wanted(r, runs) }

  /** The record at i is the last one of the log that saves a state of the wanted runs. */
  ghost predicate LastSave(log: seq<Record>, runs: set<string>, i: nat) {
    i < |log| && Saves(log[i], runs) && forall j :: i < j < |log| ==> !Saves(log[j], runs)
  }

  ghost predicate NoSave(log: seq<Record>, runs: set<string>) { forall i :: 0 <= i < |log| ==> !Saves(log[i], runs) }

  lemma {:induction false} LatestStateIsLast(log: seq<Record>, runs: set<string>)
    ensures LatestState(log, runs).None? <==> NoSave(log, runs)
    ensures LatestState(log, runs).Some? ==>
              exists i: nat :: LastSave(log, runs, i) && log[i].state == LatestState(log, runs).value
  {
    if log != [] {
      var n := |log| - 1;
      LatestStateIsLast(log[..n], runs);
      if Saves(log[n], runs) {
        assert LastSave(log, runs, n);
      } else {
        assert forall i :: 0 <= i < n ==> log[i] == log[..n][i];
        if i: nat :| LastSave(log[..n], runs, i) && log[i].state == LatestState(log[..n], runs).value {
          assert LastSave(log, runs, i);
        }
      }
    }
  }

  lemma OneLastSave(log: seq<Record>, runs: set<string>, i: nat, j: nat)
    requires LastSave(log, runs, i) && LastSave(log, runs, j)
    ensures i == j
  {
  }

  /**
   A readable log answers with the state that was saved last for the wanted runs, and with none exactly when none was
   saved for them; a log that cannot be read answers with none.
   */
  lemma LoadStateIsLast(medium: Medium, log: seq<Record>, runs: set<string>)
    ensures LoadState(medium, log, runs).None? <==> !Readable(medium, log) || NoSave(log, runs)
    ensures forall s :: LoadState(medium, log, runs) == Some(s)
                        <==> Readable(medium, log) && exists i: nat :: LastSave(log, runs, i) && log[i].state == s
  {
    LatestStateIsLast(log, runs);
    forall i: nat, j: nat | LastSave(log, runs, i) && LastSave(log, runs, j) ensures i == j {
      OneLastSave(log, runs, i, j);
    }
  }

  lemma LoadedState(medium: Medium, log: seq<Record>, runs: set<string>, i: nat)
    requires Readable(medium, log) && LastSave(log, runs, i)
    ensures LoadState(medium, log, runs) == Some(log[i].state)
  {
    LoadStateIsLast(medium, log, runs);
  }

  /** The events of the wanted runs after a sequence number, in the order of the log. */
  function Later(log: seq<Record>, runs: set<string>, offset: int): seq<Event> {
    if log == [] then []
    else
      var last := log[|log| - 1];
      Later(log[..|log| - 1], runs, offset)
      + if Listed(last, runs) && last.event.sequence > offset then [last.event] else []
  }

  /** The greatest sequence number of the wanted runs, and 0 when there is none above it. */
  function Newest(log: seq<Record>, runs: set<string>): int {
    if log == [] then 0
    else
      var rest, last := Newest(log[..|log| - 1], runs), log[|log| - 1];
      if Listed(last, runs) && last.event.sequence > rest then last.event.sequence else rest
  }

  function PageSize(limit: int): (n: nat)
    ensures 1 <= n <= 500 && (1 <= limit <= 500 ==> n == limit)
    ensures limit < 1 ==> n == 100
    ensures limit > 500 ==> n == 500
  {
    if limit <= 0 then 100 else if limit > 500 then 500 else limit
  }

  function FirstOf(s: seq<Event>, n: nat): seq<Event> { if |s| <= n then s else s[..n] }

  datatype Page = Page(events: seq<Event>, next: int)

  function ListEvents(log: seq<Record>, runs: set<string>, offset: int, limit: int): Page {
    Page(FirstOf(Later(log, runs, offset), PageSize(limit)), Newest(log, runs))
  }

  // Paging.

  ghost predicate Among(e: Event, log: seq<Record>, runs: set<string>) {
    exists i :: 0 <= i < |log| && Listed(log[i], runs) && log[i].event == e
  }

  /** The sequence numbers of the wanted runs rise along the log. */
  ghost predicate Rising(log: seq<Record>, runs: set<string>) {
    forall i, j :: 0 <= i < j < |log| && Listed(log[i], runs) && Listed(log[j], runs) ==>
      log[i].event.sequence < log[j].event.sequence
  }

  ghost predicate RisingEvents(s: seq<Event>) {
    forall i, j :: 0 <= i < j < |s| ==> s[i].sequence < s[j].sequence
  }

  /** Later lists nothing but wanted events above the offset, and misses none. */
  lemma {:induction false} LaterIsExact(log: seq<Record>, runs: set<string>, offset: int)
    ensures forall e :: e in Later(log, runs, offset) <==> Among(e, log, runs) && e.sequence > offset
  {
    if log != [] {
      var n := |log| - 1;
      LaterIsExact(log[..n], runs, offset);
      forall e
        ensures Among(e, log, runs) <==> Among(e, log[..n], runs) || (Listed(log[n], runs) && log[n].event == e)
      {
        AmongSnoc(e, log, runs);
      }
    }
  }

  lemma AmongSnoc(e: Event, log: seq<Record>, runs: set<string>)
    requires log != []
    ensures var n := |log| - 1;
            Among(e, log, runs) <==> Among(e, log[..n], runs) || (Listed(log[n], runs) && log[n].event == e)
  {
    var n := |log| - 1;
    if Among(e, log[..n], runs) {
      var i :| 0 <= i < n && Listed(log[..n][i], runs) && log[..n][i].event == e;
      assert log[i] == log[..n][i];
    }
    if Among(e, log, runs) {
      var i :| 0 <= i < |log| && Listed(log[i], runs) && log[i].event == e;
      if i < n {
        assert log[..n][i] == log[i];
      }
    }
  }

  /** Newest is the maximum over the wanted events, and 0 if none is positive. */
  lemma {:induction false} NewestIsMaximum(log: seq<Record>, runs: set<string>)
    ensures Newest(log, runs) >= 0 && forall e :: Among(e, log, runs) ==> e.sequence <= Newest(log, runs)
    ensures Newest(log, runs) > 0 ==> exists e :: Among(e, log, runs) && e.sequence == Newest(log, runs)
  {
    if log != [] {
      var n := |log| - 1;
      NewestIsMaximum(log[..n], runs);
      forall e
        ensures Among(e, log, runs) <==> Among(e, log[..n], runs) || (Listed(log[n], runs) && log[n].event == e)
      {
        AmongSnoc(e, log, runs);
      }
      if Newest(log, runs) > 0 {
        if Newest(log, runs) == Newest(log[..n], runs) {
          var e :| Among(e, log[..n], runs) && e.sequence == Newest(log[..n], runs);
          assert Among(e, log, runs);
        } else {
          assert Among(log[n].event, log, runs);
        }
      }
    }
  }

  lemma {:induction false} LaterRises(log: seq<Record>, runs: set<string>, offset: int)
    requires Rising(log, runs)
    ensures RisingEvents(Later(log, runs, offset))
  {
    if log != [] {
      var n := |log| - 1;
      var rest := Later(log[..n], runs, offset);
      LaterRises(log[..n], runs, offset);
      LaterIsExact(log[..n], runs, offset);
      forall k | 0 <= k < |rest| && Listed(log[n], runs) ensures rest[k].sequence < log[n].event.sequence {
        assert Among(rest[k], log[..n], runs);
        var i :| 0 <= i < n && Listed(log[..n][i], runs) && log[..n][i].event == rest[k];
        assert log[i] == log[..n][i];
      }
    }
  }

  /** Raising the offset filters the events further. */
  function Above(s: seq<Event>, offset: int): seq<Event> {
    if s == [] then []
    else Above(s[..|s| - 1], offset) + if s[|s| - 1].sequence > offset then [s[|s| - 1]] else []
  }

  lemma {:induction false} LaterAbove(log: seq<Record>, runs: set<string>, offset: int, higher: int)
    requires offset <= higher
    ensures Later(log, runs, higher) == Above(Later(log, runs, offset), higher)
  {
    if log != [] {
      var n := |log| - 1;
      LaterAbove(log[..n], runs, offset, higher);
      var s := Later(log[..n], runs, offset);
      if Listed(log[n], runs) && log[n].event.sequence > offset {
        assert (s + [log[n].event])[..|s|] == s;
      } else {
        assert s + [] == s;
      }
    }
  }

  lemma {:induction false} AboveOfRising(s: seq<Event>, k: nat)
    requires RisingEvents(s) && k < |s|
    ensures Above(s, s[k].sequence) == s[k + 1..]
  {
    var n := |s| - 1;
    if k < n {
      AboveOfRising(s[..n], k);
      assert s[k + 1..] == s[..n][k + 1..] + [s[n]];
    } else {
      AboveNothing(s[..n], s[k].sequence);
    }
  }

  lemma {:induction false} AboveNothing(s: seq<Event>, offset: int)
    ensures Above(s, offset) == [] <==> forall i :: 0 <= i < |s| ==> s[i].sequence <= offset
  {
    if s != [] {
      var init := s[..|s| - 1];
      AboveNothing(init, offset);
      assert forall i :: 0 <= i < |init| ==> init[i] == s[i];
      assert Above(s, offset) == [] <==> Above(init, offset) == [] && s[|s| - 1].sequence <= offset;
    }
  }

  /** A client that asks again and again from the last sequence number it was given, until nothing comes. */
  ghost function PageAll(log: seq<Record>, runs: set<string>, offset: int, limit: int): seq<Event>
    requires Rising(log, runs)
    decreases |Later(log, runs, offset)|
  {
    var page := ListEvents(log, runs, offset, limit).events;
    if page == [] then []
    else
      PageShrinks(log, runs, offset, limit);
      page + PageAll(log, runs, page[|page| - 1].sequence, limit)
  }

  /** What is left after a page is what the page did not show. */
  lemma PageShrinks(log: seq<Record>, runs: set<string>, offset: int, limit: int)
    requires Rising(log, runs)
    ensures var page := ListEvents(log, runs, offset, limit).events;
            page != [] ==> Later(log, runs, page[|page| - 1].sequence) == Later(log, runs, offset)[|page|..]
    ensures var page := ListEvents(log, runs, offset, limit).events;
            page == [] <==> Later(log, runs, offset) == []
  {
    var s, page := Later(log, runs, offset), ListEvents(log, runs, offset, limit).events;
    if page != [] {
      LaterRises(log, runs, offset);
      LaterIsExact(log, runs, offset);
      assert page[|page| - 1] in s;
      LaterAbove(log, runs, offset, page[|page| - 1].sequence);
      AboveOfRising(s, |page| - 1);
    }
  }

  /** Gap-free paging: on a rising log the pages together are every later event, once each and in order. */
  lemma {:induction false} PagingIsGapFree(log: seq<Record>, runs: set<string>, offset: int, limit: int)
    requires Rising(log, runs)
    ensures PageAll(log, runs, offset, limit) == Later(log, runs, offset)
    decreases |Later(log, runs, offset)|
  {
    var s, page := Later(log, runs, offset), ListEvents(log, runs, offset, limit).events;
    PageShrinks(log, runs, offset, limit);
    if page != [] {
      PagingIsGapFree(log, runs, page[|page| - 1].sequence, limit);
      assert s == s[..|page|] + s[|page|..];
    }
  }

  lemma HeadIn(s: seq<Event>)
    ensures s == [] || s[0] in s
  {
  }

  /** Resuming from next instead misses nothing exactly when one page was enough, on any log. */
  lemma ResumingFromNext(log: seq<Record>, runs: set<string>, offset: int, limit: int)
    ensures var page := ListEvents(log, runs, offset, limit);
            page.events + Later(log, runs, page.next) == Later(log, runs, offset)
            <==> |Later(log, runs, offset)| <= PageSize(limit)
  {
    var page := ListEvents(log, runs, offset, limit);
    LaterIsExact(log, runs, page.next);
    NewestIsMaximum(log, runs);
    var rest := Later(log, runs, page.next);
    HeadIn(rest);
    assert page.events + rest == page.events;
  }
}
