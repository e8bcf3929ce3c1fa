/** Sequence numbers across restarts: bridges, the events they have numbered but not yet stored, and the log. */
module SessionHistory {
  import opened Text
  import opened SessionPhases
  import opened SessionStore
  import opened SessionBridge

  /**
   One process and the log it shares with those before it. Each bridge has one stream, so at most one event is
   pending.
   */
  datatype World = World(log: seq<Record>, bridges: map<string, Bridge>, pending: map<string, Event>)

  const EMPTY := World([], map[], map[])

  datatype Act =
    | Open(run: string, resumedFrom: string, status: Option<StatusView>)  // bridgeFor creates a bridge
    | Touch(run: string, op: Op)                                          // any critical section but appendEvent
    | Emit(run: string, at: Time, payload: Json)                          // appendEvent by the stream
    | Store(run: string)                                                  // its AppendEvent to the log
    | Save(run: string, state: State)                                     // SaveState with some earlier snapshot
    | Crash                                                               // the process ends, and another one starts

  predicate Possible(w: World, act: Act) {
    match act
    case Open(run, _, _) => run != "" && run !in w.bridges
    case Touch(run, op) => run in w.bridges && !op.EventOp?
    case Emit(run, _, _) => run in w.bridges && w.bridges[run].streaming && run !in w.pending
    case Store(run) => run in w.pending
    case Save(run, state) => run in w.bridges && state.runId == run && state.lastSequence <= w.bridges[run].nextSeq
    case Crash => true
  }

  function After(w: World, act: Act, medium: Medium): World {
    if !Possible(w, act) then w
    else
      match act
      case Open(run, resumedFrom, status) =>
        w.(bridges := w.bridges[run := Created(medium, w.log, run, resumedFrom, status)])
      case Touch(run, op) => w.(bridges := w.bridges[run := Step(w.bridges[run], op)])
      case Emit(run, at, payload) =>
        var b := Step(w.bridges[run], EventOp(at, payload));
        w.(bridges := w.bridges[run := b], pending := w.pending[run := b.events[|b.events| - 1]])
      case Store(run) =>
        var e := w.pending[run];
        w.(log := Appended(medium, w.log, EventRecord(run, e.(envelope := Sanitize(e.envelope)))),
           pending := w.pending - {run})
      case Save(run, state) => w.(log := Appended(medium, w.log, StateRecord(run, state)))
      case Crash => World(if medium.Memory? then [] else w.log, map[], map[])
  }

  function ReachedFrom(w: World, acts: seq<Act>, medium: Medium): World {
    if acts == [] then w else After(ReachedFrom(w, acts[..|acts| - 1], medium), acts[|acts| - 1], medium)
  }

  function Reached(acts: seq<Act>, medium: Medium): World { ReachedFrom(EMPTY, acts, medium) }

  /** A bridge can be created without losing count: the log can be read, or holds no event of these runs. */
  predicate SafeToOpen(w: World, family: set<string>, medium: Medium) {
    Readable(medium, w.log) || Later(w.log, family, 0) == []
  }

  /**
   The run is the only one of the family that stores events, and every bridge for it is created knowing the numbers of
   the whole family: it resumes the others, and the log can be read or holds none of their events.
   */
  predicate Proper(w: World, act: Act, run: string, family: set<string>, medium: Medium) {
    && (act.Open? && act.run == run ==> family <= {run, Trim(act.resumedFrom)} && SafeToOpen(w, family, medium))
    && (act.Store? && act.run in family ==> act.run == run)
  }

  predicate AllProper(w: World, acts: seq<Act>, run: string, family: set<string>, medium: Medium) {
    acts == []
    || (var n := |acts| - 1;
        AllProper(w, acts[..n], run, family, medium)
        && Proper(ReachedFrom(w, acts[..n], medium), acts[n], run, family, medium))
  }

  /** All bridges for the run were created safely; for one run by itself nothing else is asked. */
  predicate SafeOpens(acts: seq<Act>, run: string, medium: Medium) { AllProper(EMPTY, acts, run, {run}, medium) }

  // The invariant of one run in its family.

  /** All stored events of the family are numbered from 1 up to n. */
  ghost predicate Within(log: seq<Record>, family: set<string>, n: int) {
    forall i :: 0 <= i < |log| && Listed(log[i], family) ==> 1 <= log[i].event.sequence <= n
  }

  ghost predicate Positive(log: seq<Record>, family: set<string>) {
    forall i :: 0 <= i < |log| && Listed(log[i], family) ==> log[i].event.sequence >= 1
  }

  ghost predicate Tidy(w: World, run: string, family: set<string>) {
    && Rising(w.log, family) && Positive(w.log, family)
    && (run in w.bridges ==> w.bridges[run].nextSeq >= 0 && Within(w.log, family, w.bridges[run].nextSeq))
    && (run in w.pending ==> run in w.bridges && w.pending[run].sequence == w.bridges[run].nextSeq >= 1)
    && (run in w.pending ==> Within(w.log, family, w.bridges[run].nextSeq - 1))
  }

  lemma AppendedKeeps(medium: Medium, log: seq<Record>, r: Record, family: set<string>, n: int)
    requires Rising(log, family) && Within(log, family, n)
    requires Listed(r, family) ==> r.event.sequence > n && r.event.sequence >= 1
    ensures Rising(Appended(medium, log, r), family)
    ensures Within(Appended(medium, log, r), family, if Listed(r, family) then r.event.sequence else n)
  {
    var longer := log + [r];
    assert Rising(longer, family) && Within(longer, family, if Listed(r, family) then r.event.sequence else n);
  }

  lemma OpenKeeps(w: World, act: Act, run: string, family: set<string>, medium: Medium)
    requires Tidy(w, run, family) && act.Open? && act.run == run && Possible(w, act)
    requires family <= {run, Trim(act.resumedFrom)} && SafeToOpen(w, family, medium)
    ensures Tidy(After(w, act, medium), run, family)
  {
    NumbersOnAbove(medium, w.log, run, act.resumedFrom, act.status);
    NewestIsMaximum(w.log, {run, Trim(act.resumedFrom)});
    LaterIsExact(w.log, family, 0);
    var b := Created(medium, w.log, run, act.resumedFrom, act.status);
    forall i | 0 <= i < |w.log| && Listed(w.log[i], family) ensures w.log[i].event.sequence <= b.nextSeq {
      assert Among(w.log[i].event, w.log, {run, Trim(act.resumedFrom)});
      assert Among(w.log[i].event, w.log, family);
      assert w.log[i].event in Later(w.log, family, 0);
    }
  }

  lemma StoreKeeps(w: World, act: Act, run: string, family: set<string>, medium: Medium)
    requires Tidy(w, run, family) && act.Store? && Possible(w, act) && run != "" && Proper(w, act, run, family, medium)
    ensures Tidy(After(w, act, medium), run, family)
  {
    var e := w.pending[act.run];
    var r := EventRecord(act.run, e.(envelope := Sanitize(e.envelope)));
    if act.run == run {
      AppendedKeeps(medium, w.log, r, family, w.bridges[run].nextSeq - 1);
    } else {
      OtherAppendedKeeps(w, r, run, family, medium);
    }
  }

  lemma OtherAppendedKeeps(w: World, r: Record, run: string, family: set<string>, medium: Medium)
    requires Tidy(w, run, family) && !Listed(r, family)
    ensures Tidy(w.(log := Appended(medium, w.log, r)), run, family)
  {
    var longer := w.log + [r];
    assert Tidy(w.(log := longer), run, family);
  }

  lemma ActKeeps(w: World, act: Act, run: string, family: set<string>, medium: Medium)
    requires Tidy(w, run, family) && run != "" && Proper(w, act, run, family, medium)
    ensures Tidy(After(w, act, medium), run, family)
  {
    if Possible(w, act) {
      match act
      case Open(r, _, _) => if r == run { OpenKeeps(w, act, run, family, medium); }
      case Touch(r, op) =>
      case Emit(r, at, payload) =>
      case Store(_) => StoreKeeps(w, act, run, family, medium);
      case Save(r, state) => OtherAppendedKeeps(w, StateRecord(r, state), run, family, medium);
      case Crash =>
    }
  }

  lemma {:induction false} TidyAlong(w: World, acts: seq<Act>, run: string, family: set<string>, medium: Medium)
    requires Tidy(w, run, family) && run != "" && AllProper(w, acts, run, family, medium)
    ensures Tidy(ReachedFrom(w, acts, medium), run, family)
  {
    if acts != [] {
      var n := |acts| - 1;
      TidyAlong(w, acts[..n], run, family, medium);
      ActKeeps(ReachedFrom(w, acts[..n], medium), acts[n], run, family, medium);
    }
  }

  /**
   Sequence numbers never repeat: after any mix of streaming, saving, crashing and opening bridges, the events stored
   for a run rise strictly, if every bridge for it was opened on a log that could be read or held none of its events.
   */
  lemma SequencesRise(acts: seq<Act>, run: string, medium: Medium)
    requires run != "" && SafeOpens(acts, run, medium)
    ensures Tidy(Reached(acts, medium), run, {run}) && Rising(Reached(acts, medium).log, {run})
  {
    TidyAlong(EMPTY, acts, run, {run}, medium);
  }

  /** So paging through one run shows every stored event above the offset, once and in order. */
  lemma RunPagesAreComplete(acts: seq<Act>, run: string, medium: Medium, offset: int, limit: int)
    requires run != "" && SafeOpens(acts, run, medium)
    ensures Rising(Reached(acts, medium).log, {run})
    ensures PageAll(Reached(acts, medium).log, {run}, offset, limit) == Later(Reached(acts, medium).log, {run}, offset)
  {
    SequencesRise(acts, run, medium);
    PagingIsGapFree(Reached(acts, medium).log, {run}, offset, limit);
  }

  // A run together with the one it resumes.

  predicate Unopened(acts: seq<Act>, run: string) {
    forall i :: 0 <= i < |acts| ==> !(acts[i].Open? && acts[i].run == run)
  }

  lemma {:induction false} UnopenedStoresNothing(acts: seq<Act>, run: string, medium: Medium)
    requires Unopened(acts, run)
    ensures var w := Reached(acts, medium);
            && run !in w.bridges && run !in w.pending
            && forall i :: 0 <= i < |w.log| ==> w.log[i].runId != run
  {
    if acts != [] {
      UnopenedStoresNothing(acts[..|acts| - 1], run, medium);
    }
  }

  /**
   The events of a run and of the one it resumes rise together, across any restarts, if the resumed run stores none
   after the first bridge for the new run has been opened, and every bridge was opened safely.
   */
  lemma ResumedSequencesRise(before: seq<Act>, after: seq<Act>, run: string, resumed: string, medium: Medium)
    requires run != "" && resumed != "" && Unopened(before, run) && SafeOpens(before, resumed, medium)
    requires AllProper(Reached(before, medium), after, run, {run, resumed}, medium)
    ensures Rising(ReachedFrom(Reached(before, medium), after, medium).log, {run, resumed})
  {
    var w := Reached(before, medium);
    SequencesRise(before, resumed, medium);
    UnopenedStoresNothing(before, run, medium);
    assert forall i :: 0 <= i < |w.log| && Listed(w.log[i], {run, resumed}) ==> Listed(w.log[i], {resumed});
    TidyAlong(w, after, run, {run, resumed}, medium);
  }

  /** And then so do the pages that the handlers list of both. */
  lemma ResumedPagesAreComplete(before: seq<Act>, after: seq<Act>, run: string, resumed: string, medium: Medium,
                                offset: int, limit: int)
    requires run != "" && resumed != "" && Unopened(before, run) && SafeOpens(before, resumed, medium)
    requires AllProper(Reached(before, medium), after, run, {run, resumed}, medium)
    ensures var log := ReachedFrom(Reached(before, medium), after, medium).log;
            && Rising(log, {run, resumed})
            && PageAll(log, {run, resumed}, offset, limit) == Later(log, {run, resumed}, offset)
  {
    ResumedSequencesRise(before, after, run, resumed, medium);
    PagingIsGapFree(ReachedFrom(Reached(before, medium), after, medium).log, {run, resumed}, offset, limit);
  }

  /** A live bridge numbers an event and stores it. */
  function StoredOne(w: World, run: string, at: Time, payload: Json, medium: Medium): World {
    After(After(w, Emit(run, at, payload), medium), Store(run), medium)
  }

  lemma Emitted(w: World, run: string, at: Time, payload: Json, medium: Medium)
    requires run in w.bridges && w.bridges[run].streaming && run !in w.pending
    ensures After(w, Emit(run, at, payload), medium)
            == w.(bridges := w.bridges[run := Step(w.bridges[run], EventOp(at, payload))],
                  pending := w.pending[run := Event(w.bridges[run].nextSeq + 1, at, Sanitize(payload))])
  {
  }

  lemma StoredAfter(w: World, run: string, medium: Medium)
    requires run in w.pending
    ensures var e := w.pending[run];
            After(w, Store(run), medium)
            == w.(log := Appended(medium, w.log, EventRecord(run, e.(envelope := Sanitize(e.envelope)))),
                  pending := w.pending - {run})
  {
  }

  lemma EmittedAndStored(w: World, run: string, at: Time, payload: Json, medium: Medium)
    requires run in w.bridges && w.bridges[run].streaming && run !in w.pending
    ensures var n := w.bridges[run].nextSeq + 1;
            StoredOne(w, run, at, payload, medium)
            == w.(log := Appended(medium, w.log, EventRecord(run, Event(n, at, Sanitize(Sanitize(payload))))),
                  bridges := w.bridges[run := Step(w.bridges[run], EventOp(at, payload))])
  {
    Emitted(w, run, at, payload, medium);
    StoredAfter(After(w, Emit(run, at, payload), medium), run, medium);
    assert w.pending[run := Event(w.bridges[run].nextSeq + 1, at, Sanitize(payload))] - {run} == w.pending;
  }

  lemma AppendedLast(medium: Medium, log: seq<Record>, r: Record)
    ensures var longer := Appended(medium, log, r);
            && longer != [] && longer[|longer| - 1] == r
            && (log != [] ==> |longer| >= 2 && longer[|longer| - 2] == log[|log| - 1])
  {
  }

  lemma SameNumberFalls(log: seq<Record>, family: set<string>)
    requires |log| >= 2 && Listed(log[|log| - 2], family) && Listed(log[|log| - 1], family)
    requires log[|log| - 2].event.sequence == log[|log| - 1].event.sequence
    ensures !Rising(log, family)
  {
  }

  /** Two live bridges that have come to the same number, as when one is opened over the other, collide. */
  lemma BothStoreCollide(w: World, run: string, resumed: string, at: Time, p: Json, q: Json, medium: Medium)
    requires run != "" && resumed != "" && run != resumed && run !in w.pending && resumed !in w.pending
    requires run in w.bridges && resumed in w.bridges && w.bridges[run].streaming && w.bridges[resumed].streaming
    requires w.bridges[run].nextSeq == w.bridges[resumed].nextSeq
    ensures !Rising(StoredOne(StoredOne(w, resumed, at, p, medium), run, at, q, medium).log, {run, resumed})
  {
    var r := EventRecord(resumed, Event(w.bridges[run].nextSeq + 1, at, Sanitize(Sanitize(p))));
    EmittedAndStored(w, resumed, at, p, medium);
    AppendedLast(medium, w.log, r);
    NextCollides(StoredOne(w, resumed, at, p, medium), r, run, {run, resumed}, at, q, medium);
  }

  /** The next event of a run whose number the last record of the family already has. */
  lemma NextCollides(w: World, last: Record, run: string, family: set<string>, at: Time, payload: Json, medium: Medium)
    requires run in w.bridges && w.bridges[run].streaming && run !in w.pending && run != "" && run in family
    requires w.log != [] && w.log[|w.log| - 1] == last && Listed(last, family)
    requires last.event.sequence == w.bridges[run].nextSeq + 1
    ensures !Rising(StoredOne(w, run, at, payload, medium).log, family)
  {
    var r := EventRecord(run, Event(last.event.sequence, at, Sanitize(Sanitize(payload))));
    EmittedAndStored(w, run, at, payload, medium);
    AppendedLast(medium, w.log, r);
    SameNumberFalls(Appended(medium, w.log, r), family);
  }

  lemma RisingSnoc(log: seq<Record>, r: Record, family: set<string>)
    requires Listed(r, family)
    ensures Rising(log + [r], family)
            <==> Rising(log, family) && forall e :: Among(e, log, family) ==> e.sequence < r.event.sequence
  {
    var longer := log + [r];
    if Rising(longer, family) {
      forall i, j | 0 <= i < j < |log| && Listed(log[i], family) && Listed(log[j], family)
        ensures log[i].event.sequence < log[j].event.sequence
      {
        assert longer[i] == log[i] && longer[j] == log[j];
      }
      forall e | Among(e, log, family) ensures e.sequence < r.event.sequence {
        var i :| 0 <= i < |log| && Listed(log[i], family) && log[i].event == e;
        assert longer[i] == log[i] && longer[|log|] == r;
      }
    }
    if Rising(log, family) && forall e :: Among(e, log, family) ==> e.sequence < r.event.sequence {
      forall i | 0 <= i < |log| && Listed(log[i], family) ensures log[i].event.sequence < r.event.sequence {
        assert Among(log[i].event, log, family);
      }
    }
  }

  lemma AmongLonger(e: Event, log: seq<Record>, r: Record, family: set<string>)
    ensures Among(e, log + [r], family) <==> Among(e, log, family) || (Listed(r, family) && r.event == e)
  {
    AmongSnoc(e, log + [r], family);
    assert (log + [r])[..|log|] == log;
  }

  lemma TwoMoreRise(log: seq<Record>, r1: Record, r2: Record, family: set<string>)
    requires Rising(log, family) && Listed(r1, family) && Listed(r2, family) && r1.event.sequence >= 1
    requires forall e :: Among(e, log, family) ==> e.sequence < r2.event.sequence
    ensures Rising(log + [r1] + [r2], family)
            <==> Newest(log, family) < r1.event.sequence < r2.event.sequence
  {
    RisingSnoc(log, r1, family);
    RisingSnoc(log + [r1], r2, family);
    NewestIsMaximum(log, family);
    forall e ensures Among(e, log + [r1], family) <==> Among(e, log, family) || r1.event == e {
      AmongLonger(e, log, r1, family);
    }
    assert Among(r1.event, log + [r1], family);
  }

  /**
   An event that the resumed run does store later, followed by one of the new run, fits in exactly when its number is
   above all that are stored and below that of the new run.
   */
  lemma LateStoreExactly(w: World, run: string, resumed: string, at: Time, p: Json, q: Json, size: Record -> nat)
    requires run != "" && resumed != "" && run != resumed && run !in w.pending && resumed !in w.pending
    requires run in w.bridges && resumed in w.bridges && w.bridges[run].streaming && w.bridges[resumed].streaming
    requires Tidy(w, run, {run, resumed}) && w.bridges[resumed].nextSeq >= 0
    ensures Rising(StoredOne(StoredOne(w, resumed, at, p, File(size)), run, at, q, File(size)).log, {run, resumed})
            <==> Newest(w.log, {run, resumed}) <= w.bridges[resumed].nextSeq < w.bridges[run].nextSeq
  {
    var m, n := w.bridges[resumed].nextSeq + 1, w.bridges[run].nextSeq + 1;
    var w1 := StoredOne(w, resumed, at, p, File(size));
    var r1 := EventRecord(resumed, Event(m, at, Sanitize(Sanitize(p))));
    var r2 := EventRecord(run, Event(n, at, Sanitize(Sanitize(q))));
    EmittedAndStored(w, resumed, at, p, File(size));
    EmittedAndStored(w1, run, at, q, File(size));
    forall e | Among(e, w.log, {run, resumed}) ensures e.sequence < n {
    }
    TwoMoreRise(w.log, r1, r2, {run, resumed});
  }

  // The condition on opening is exact.

  /** A process that opens a bridge for the run and starts its stream. */
  function Streaming(w: World, run: string, resumedFrom: string, status: Option<StatusView>, medium: Medium): World {
    After(After(w, Open(run, resumedFrom, status), medium), Touch(run, StreamOp), medium)
  }

  lemma StreamingStarted(w: World, run: string, resumedFrom: string, status: Option<StatusView>, medium: Medium)
    requires run != "" && run !in w.bridges
    ensures var b := Created(medium, w.log, run, resumedFrom, status);
            Streaming(w, run, resumedFrom, status, medium) == w.(bridges := w.bridges[run := b.(streaming := true)])
  {
  }

  /** One life of a process in which a bridge for the run is opened and stores one event. */
  function OneEvent(w: World, run: string, resumedFrom: string, status: Option<StatusView>, at: Time, payload: Json,
                    medium: Medium)
    : World
  {
    StoredOne(Streaming(w, run, resumedFrom, status, medium), run, at, payload, medium)
  }

  lemma OneEventStored(w: World, run: string, resumedFrom: string, status: Option<StatusView>, at: Time,
                       payload: Json, medium: Medium)
    requires run != "" && run !in w.bridges && run !in w.pending
    ensures var n := Created(medium, w.log, run, resumedFrom, status).nextSeq + 1;
            OneEvent(w, run, resumedFrom, status, at, payload, medium).log
            == Appended(medium, w.log, EventRecord(run, Event(n, at, Sanitize(Sanitize(payload)))))
  {
    StreamingStarted(w, run, resumedFrom, status, medium);
    EmittedAndStored(Streaming(w, run, resumedFrom, status, medium), run, at, payload, medium);
  }

  /**
   A bridge opened otherwise, with whatever status and resuming whatever run, repeats a number with its first event.
   */
  lemma SafeToOpenIsExact(w: World, run: string, resumedFrom: string, status: Option<StatusView>, at: Time,
                          payload: Json, medium: Medium)
    requires Tidy(w, run, {run}) && run != "" && run !in w.bridges && run !in w.pending
    ensures Rising(OneEvent(w, run, resumedFrom, status, at, payload, medium).log, {run})
            <==> SafeToOpen(w, {run}, medium)
  {
    OneEventStored(w, run, resumedFrom, status, at, payload, medium);
    var b := Created(medium, w.log, run, resumedFrom, status);
    var r := EventRecord(run, Event(b.nextSeq + 1, at, Sanitize(Sanitize(payload))));
    if SafeToOpen(w, {run}, medium) {
      OpenKeeps(w, Open(run, resumedFrom, status), run, {run}, medium);
      AppendedKeeps(medium, w.log, r, {run}, b.nextSeq);
    } else {
      UnreadNumbersAnew(medium, w.log, run, resumedFrom, status);
      RepeatsNumber(w.log, r, run);
    }
  }

  /** A bridge that cannot read the log begins at the beginning, and such a log is a file. */
  lemma UnreadNumbersAnew(medium: Medium, log: seq<Record>, run: string, resumedFrom: string,
                          status: Option<StatusView>)
    requires !Readable(medium, log)
    ensures Created(medium, log, run, resumedFrom, status).nextSeq == 0
    ensures forall r :: Appended(medium, log, r) == log + [r]
  {
  }

  lemma RepeatsNumber(log: seq<Record>, r: Record, run: string)
    requires Later(log, {run}, 0) != [] && Listed(r, {run}) && r.event.sequence <= 1
    ensures !Rising(log + [r], {run})
  {
    LaterIsExact(log, {run}, 0);
    var later := Later(log, {run}, 0);
    assert later[0] in later;
    var i :| 0 <= i < |log| && Listed(log[i], {run}) && log[i].event == later[0];
    var longer := log + [r];
    assert Listed(longer[i], {run}) && Listed(longer[|log|], {run});
  }

  // A run that ends in a collision.

  function Opened(run: string, resumedFrom: string): seq<Act> { [Open(run, resumedFrom, None), Touch(run, StreamOp)] }

  function Stores(run: string, at: Time, payload: Json): seq<Act> { [Emit(run, at, payload), Store(run)] }

  /** The resumed run stores an event, the new one is opened over it, and both go on. */
  function BothGoOn(run: string, resumed: string, at: Time, first: Json, p: Json, q: Json): seq<Act> {
    Opened(resumed, "") + Stores(resumed, at, first) + Opened(run, resumed) + Stores(resumed, at, p)
    + Stores(run, at, q)
  }

  lemma TwoMore(w: World, acts: seq<Act>, x: Act, y: Act, medium: Medium)
    ensures ReachedFrom(w, acts + [x, y], medium) == After(After(ReachedFrom(w, acts, medium), x, medium), y, medium)
  {
    var one, two := acts + [x], acts + [x, y];
    assert two[..|two| - 1] == one && one[..|one| - 1] == acts;
  }

  /** Opening the new run right over the resumed one brings both bridges to the same number. */
  lemma OpenedOver(run: string, resumed: string, at: Time, first: Json, medium: Medium)
    requires run != "" && resumed != "" && run != resumed && Trim(resumed) == resumed
    requires Readable(medium, OneEvent(EMPTY, resumed, "", None, at, first, medium).log)
    ensures var w := Streaming(OneEvent(EMPTY, resumed, "", None, at, first, medium), run, resumed, None, medium);
            && run !in w.pending && resumed !in w.pending && run in w.bridges && resumed in w.bridges
            && w.bridges[run].streaming && w.bridges[resumed].streaming
            && w.bridges[run].nextSeq == w.bridges[resumed].nextSeq == 1
  {
    var w1 := OneEvent(EMPTY, resumed, "", None, at, first, medium);
    FirstEvent(resumed, at, first, medium);
    var r := EventRecord(resumed, Event(1, at, Sanitize(Sanitize(first))));
    OnlyRecord(medium, r, {run, Trim(resumed)}, {run});
    StreamingStarted(w1, run, resumed, None, medium);
  }

  lemma StoredShape(w: World, run: string, at: Time, payload: Json, medium: Medium)
    requires run in w.bridges && w.bridges[run].streaming && run !in w.pending
    ensures var (v, n) := (StoredOne(w, run, at, payload, medium), w.bridges[run].nextSeq + 1);
            && v.log == Appended(medium, w.log, EventRecord(run, Event(n, at, Sanitize(Sanitize(payload)))))
            && v.pending == w.pending && v.bridges.Keys == w.bridges.Keys
            && v.bridges[run].streaming && v.bridges[run].nextSeq == n
  {
    var b := w.bridges[run];
    EmittedAndStored(w, run, at, payload, medium);
    assert Step(b, EventOp(at, payload)).nextSeq == b.nextSeq + 1;
    BridgePut(w.bridges, run, Step(b, EventOp(at, payload)));
  }

  lemma BridgePut(bridges: map<string, Bridge>, run: string, b: Bridge)
    requires run in bridges
    ensures bridges[run := b].Keys == bridges.Keys
  {
  }

  lemma FirstStream(run: string, medium: Medium)
    requires run != ""
    ensures var w := Streaming(EMPTY, run, "", None, medium);
            && w.log == [] && w.pending == map[] && w.bridges.Keys == {run}
            && w.bridges[run].streaming && w.bridges[run].nextSeq == 0
  {
    StreamingStarted(EMPTY, run, "", None, medium);
  }

  /** The first event of a run, from nothing. */
  lemma FirstEvent(run: string, at: Time, payload: Json, medium: Medium)
    requires run != ""
    ensures var w := OneEvent(EMPTY, run, "", None, at, payload, medium);
            && w.log == [EventRecord(run, Event(1, at, Sanitize(Sanitize(payload))))] && w.pending == map[]
            && w.bridges.Keys == {run} && w.bridges[run].streaming && w.bridges[run].nextSeq == 1
  {
    FirstStream(run, medium);
    StoredShape(Streaming(EMPTY, run, "", None, medium), run, at, payload, medium);
  }

  lemma OnlyRecord(medium: Medium, r: Record, family: set<string>, runs: set<string>)
    requires Listed(r, family) && r.event.sequence == 1
    ensures Appended(medium, [], r) == [r] && Newest([r], family) == 1 && LatestState([r], runs).None?
  {
    assert [r][..0] == [];
  }

  /** From the empty log such a run collides, although every bridge was opened on a log that could be read. */
  lemma CollisionReached(run: string, resumed: string, at: Time, first: Json, p: Json, q: Json, medium: Medium)
    requires run != "" && resumed != "" && run != resumed && Trim(resumed) == resumed
    requires Readable(medium, OneEvent(EMPTY, resumed, "", None, at, first, medium).log)
    ensures !Rising(Reached(BothGoOn(run, resumed, at, first, p, q), medium).log, {run, resumed})
  {
    var a0 := Opened(resumed, "");
    var a1 := a0 + Stores(resumed, at, first);
    var a2 := a1 + Opened(run, resumed);
    var a3 := a2 + Stores(resumed, at, p);
    assert [] + a0 == a0;
    TwoMore(EMPTY, [], Open(resumed, "", None), Touch(resumed, StreamOp), medium);
    TwoMore(EMPTY, a0, Emit(resumed, at, first), Store(resumed), medium);
    TwoMore(EMPTY, a1, Open(run, resumed, None), Touch(run, StreamOp), medium);
    TwoMore(EMPTY, a2, Emit(resumed, at, p), Store(resumed), medium);
    TwoMore(EMPTY, a3, Emit(run, at, q), Store(run), medium);
    OpenedOver(run, resumed, at, first, medium);
    BothStoreCollide(Reached(a2, medium), run, resumed, at, p, q, medium);
  }

  /** It does happen: one event that takes a line of 64 KiB or more makes the next process number from 1 again. */
  lemma LargeEventRestartsNumbering(size: Record -> nat, run: string, at: Time, payload: Json)
    requires run != ""
    requires size(EventRecord(run, Event(1, at, Sanitize(Sanitize(payload))))) >= LINE_LIMIT
    ensures var (medium, first) := (File(size), EventRecord(run, Event(1, at, Sanitize(Sanitize(payload)))));
            var w := OneEvent(EMPTY, run, "", None, at, payload, medium);
            OneEvent(After(w, Crash, medium), run, "", None, at, payload, medium).log == [first, first]
  {
    var medium := File(size);
    var w := OneEvent(EMPTY, run, "", None, at, payload, medium);
    FirstEvent(run, at, payload, medium);
    assert w.log[0] == EventRecord(run, Event(1, at, Sanitize(Sanitize(payload)))) && !Readable(medium, w.log);
    UnreadNumbersAnew(medium, w.log, run, "", None);
    OneEventStored(After(w, Crash, medium), run, "", None, at, payload, medium);
  }
}
