/** The terminal of one workspace session: who may type, and for how long. Times are nanoseconds. */
module AttachLease {
  import opened Text

  type Time = int

  const SECOND := 1_000_000_000
  const DRIVER_LEASE := 30 * SECOND
  const CLEANUP_GRACE := 5 * SECOND

  // Go's zero time, on the scale of Unix nanoseconds.
  const ZERO_TIME := -62_135_596_800 * SECOND

  datatype Mode = Exclusive | Collaborative

  datatype Role = Viewer | Driver

  datatype Client = Client(maxRole: Role, role: Role)

  datatype Session = Session(mode: Mode, clients: map<string, Client>, driver: string, leaseUntil: Time)

  /** A workspace session has a terminal, or has none until the next client joins. */
  type World = Option<Session>

  /** currentDriverLocked; the empty string is nobody. */
  function CurrentDriver(s: Session, now: Time): string {
    if s.driver == "" || now > s.leaseUntil then "" else s.driver
  }

  function Leased(s: Session, client: string, now: Time): Session {
    s.(driver := client, leaseUntil := now + DRIVER_LEASE)
  }

  datatype Op =
    | Join(client: string, maxRole: Role, mode: Mode, now: Time)
    | Keepalive(client: string, now: Time)
    | TakeControl(client: string, now: Time)
    | Stdin(client: string, now: Time)
    | Leave(client: string, now: Time)
    | Cleanup(now: Time)

  /** A client joins under an identifier that no live client has; only live clients send and leave. */
  predicate Possible(w: World, op: Op) {
    match op
    case Join(client, _, _, _) => client != "" && (w.Some? ==> client !in w.value.clients)
    case Cleanup(_) => true
    case _ => w.Some? && op.client in w.value.clients
  }

  /** The session a client finds or makes, and None if its mode is refused. */
  function Found(w: World, mode: Mode): Option<Session> {
    if w.None? then Some(Session(mode, map[], "", ZERO_TIME))
    else if w.value.mode == mode then w
    else if w.value.clients == map[] then Some(Session(mode, map[], "", ZERO_TIME))
    else None
  }

  predicate Reconnects(s: Session, client: string, now: Time) {
    s.driver == client && CurrentDriver(s, now) == client
  }

  predicate Claims(s: Session, maxRole: Role, now: Time) {
    maxRole.Driver? && CurrentDriver(s, now) == ""
  }

  function Joined(s: Session, client: string, maxRole: Role, now: Time): Session {
    if s.mode.Collaborative? then
      Session(s.mode, s.clients[client := Client(maxRole, maxRole)], "", ZERO_TIME)
    else if Reconnects(s, client, now) || Claims(s, maxRole, now) then
      Leased(s.(clients := s.clients[client := Client(maxRole, Driver)]), client, now)
    else s.(clients := s.clients[client := Client(maxRole, Viewer)])
  }

  /** Whether what the client types reaches the shell. */
  predicate Accepts(s: Session, client: string, now: Time)
    requires client in s.clients
  {
    if s.mode.Collaborative? then s.clients[client].role.Driver? else CurrentDriver(s, now) == client
  }

  function Controlled(s: Session, client: string, now: Time): Session
    requires client in s.clients
  {
    var asDriver := s.(clients := s.clients[client := s.clients[client].(role := Driver)]);
    if s.clients[client].maxRole.Viewer? then s
    else if s.mode.Collaborative? then asDriver
    else if CurrentDriver(s, now) == "" || CurrentDriver(s, now) == client then Leased(asDriver, client, now)
    else s
  }

  function After(w: World, op: Op): World
    requires Possible(w, op)
  {
    match op
    case Join(client, maxRole, mode, now) =>
      var found := Found(w, mode);
      if found.None? then w else Some(Joined(found.value, client, maxRole, now))
    case Keepalive(client, now) =>
      if w.value.mode.Exclusive? && w.value.driver == client then Some(Leased(w.value, client, now)) else w
    case TakeControl(client, now) => Some(Controlled(w.value, client, now))
    case Stdin(client, now) =>
      if w.value.mode.Exclusive? && Accepts(w.value, client, now) then Some(Leased(w.value, client, now)) else w
    case Leave(client, now) => Some(w.value.(clients := w.value.clients - {client}))
    case Cleanup(now) => if w.Some? && Abandoned(w.value, now) then None else w
  }

  /** What the cleanup timer asks before it drops the session. */
  predicate Abandoned(s: Session, now: Time) {
    s.clients == map[] && (s.driver == "" || now > s.leaseUntil)
  }

  /** How long after the last client has left the cleanup timer fires. */
  function CleanupDelay(s: Session, now: Time): Time {
    var delay := s.leaseUntil - now + CLEANUP_GRACE;
    if delay < CLEANUP_GRACE then CLEANUP_GRACE else delay
  }

  // Runs.

  /** Any mix of messages, connections and cleanups under a clock that never goes back. */
  ghost predicate Run(ws: seq<World>, ops: seq<Op>) {
    && |ws| == |ops| + 1
    && ws[0] == None
    && (forall k :: 0 <= k < |ops| ==> Possible(ws[k], ops[k]) && ws[k + 1] == After(ws[k], ops[k]))
    && (forall k :: 0 <= k < |ops| - 1 ==> ops[k].now <= ops[k + 1].now)
  }

  /** The join that turns an empty session over to another mode, and its lease with it. */
  predicate Switches(w: World, op: Op) {
    op.Join? && w.Some? && w.value.mode != op.mode && w.value.clients == map[]
  }

  /** From i up to j no join switches the mode while the lease that was given at i still runs. */
  ghost predicate NoSwitchInLease(ws: seq<World>, ops: seq<Op>, i: nat, j: nat) {
    && i < |ops| && j <= |ops| < |ws|
    && forall k :: i <= k < j && Switches(ws[k], ops[k]) ==> ops[k].now > ops[i].now + DRIVER_LEASE
  }

  /** Input that was let through under a lease. */
  ghost predicate TypedExclusively(ws: seq<World>, ops: seq<Op>, k: nat) {
    && k < |ops| < |ws| && ops[k].Stdin?
    && ws[k].Some? && ws[k].value.mode.Exclusive? && ops[k].client in ws[k].value.clients
    && Accepts(ws[k].value, ops[k].client, ops[k].now)
  }

  /** What gives the driver a whole lease anew: its input, or its keepalive. */
  ghost predicate Renews(ws: seq<World>, ops: seq<Op>, k: nat) {
    || TypedExclusively(ws, ops, k)
    || (k < |ops| < |ws| && ops[k].Keepalive? && ws[k].Some? && ws[k].value.mode.Exclusive?
        && ops[k].client in ws[k].value.clients && ws[k].value.driver == ops[k].client)
  }

  ghost predicate Typed(ws: seq<World>, ops: seq<Op>, k: nat) {
    && k < |ops| < |ws| && ops[k].Stdin?
    && ws[k].Some? && ops[k].client in ws[k].value.clients && Accepts(ws[k].value, ops[k].client, ops[k].now)
  }

  /** The session still honours a lease given at t, or the lease has run out. */
  ghost predicate Honours(w: World, client: string, t: Time, now: Time) {
    || now > t + DRIVER_LEASE
    || (w.Some? && w.value.mode.Exclusive? && w.value.driver == client && w.value.leaseUntil >= t + DRIVER_LEASE)
  }

  lemma StepHonours(w: World, op: Op, client: string, t: Time, before: Time)
    requires client != "" && Possible(w, op) && t <= before <= op.now && Honours(w, client, t, before)
    requires Switches(w, op) ==> op.now > t + DRIVER_LEASE
    ensures Honours(After(w, op), client, t, op.now)
  {
  }

  /** No session has a nameless client, and in collaborative mode nobody holds a lease. */
  ghost predicate Sound(w: World) {
    w.Some? ==> "" !in w.value.clients && (w.value.mode.Collaborative? ==> w.value.driver == "")
  }

  lemma {:induction false} RunIsSound(ws: seq<World>, ops: seq<Op>, k: nat)
    requires Run(ws, ops) && k <= |ops|
    ensures Sound(ws[k])
  {
    if k > 0 {
      RunIsSound(ws, ops, k - 1);
      assert ws[k - 1 + 1] == After(ws[k - 1], ops[k - 1]);
    }
  }

  lemma {:induction false} RunHonours(ws: seq<World>, ops: seq<Op>, i: nat, j: nat)
    requires Run(ws, ops) && Renews(ws, ops, i) && i < j <= |ops| && NoSwitchInLease(ws, ops, i, j)
    ensures ops[i].now <= ops[j - 1].now && Honours(ws[j], ops[i].client, ops[i].now, ops[j - 1].now)
    decreases j
  {
    RunIsSound(ws, ops, i);
    assert ws[j - 1 + 1] == After(ws[j - 1], ops[j - 1]);
    if i + 1 < j {
      RunHonours(ws, ops, i, j - 1);
      assert ops[j - 2].now <= ops[j - 2 + 1].now;
      StepHonours(ws[j - 1], ops[j - 1], ops[i].client, ops[i].now, ops[j - 2].now);
    }
  }

  /**
   Lease exclusion: after input or a keepalive from the driver, input from another client is let through only when more
   than the whole lease has passed, across disconnects, reconnects, cleanup and re-creation, as long as no client joins
   an empty session in another mode while the lease runs.
   */
  lemma LeaseExclusion(ws: seq<World>, ops: seq<Op>, i: nat, j: nat)
    requires Run(ws, ops) && Renews(ws, ops, i) && i < j && NoSwitchInLease(ws, ops, i, j)
    requires Typed(ws, ops, j) && ops[j].client != ops[i].client
    ensures ops[j].now > ops[i].now + DRIVER_LEASE
  {
    RunHonours(ws, ops, i, j);
    assert ops[j - 1].now <= ops[j - 1 + 1].now;
  }

  // The converse: a switch while the lease runs breaks the exclusion.

  lemma RunPrefix(ws: seq<World>, ops: seq<Op>, n: nat)
    requires Run(ws, ops) && n <= |ops|
    ensures Run(ws[..n + 1], ops[..n])
  {
  }

  lemma RunSnoc(ws: seq<World>, ops: seq<Op>, op: Op)
    requires Run(ws, ops) && Possible(ws[|ops|], op) && (ops != [] ==> ops[|ops| - 1].now <= op.now)
    ensures Run(ws + [After(ws[|ops|], op)], ops + [op])
  {
    var ws', ops' := ws + [After(ws[|ops|], op)], ops + [op];
    forall k | 0 <= k < |ops'| ensures Possible(ws'[k], ops'[k]) && ws'[k + 1] == After(ws'[k], ops'[k]) {
      if k < |ops| {
        assert ws'[k] == ws[k] && ops'[k] == ops[k] && ws'[k + 1] == ws[k + 1];
      }
    }
    forall k | 0 <= k < |ops'| - 1 ensures ops'[k].now <= ops'[k + 1].now {
      if k < |ops| - 1 {
        assert ops[k].now <= ops[k + 1].now;
      }
    }
  }

  /** What a switch of an exclusive session leaves: once the joiner leaves, anybody else can take the lease and type. */
  lemma SwitchOpens(w: World, op: Op, intruder: string)
    requires Possible(w, op) && Switches(w, op) && w.value.mode.Exclusive? && intruder != "" && intruder != op.client
    ensures var w1 := After(w, op);
            && Possible(w1, Leave(op.client, op.now))
            && var w2 := After(w1, Leave(op.client, op.now));
            && Possible(w2, Join(intruder, Driver, Exclusive, op.now))
            && var w3 := After(w2, Join(intruder, Driver, Exclusive, op.now));
            && w3.Some? && w3.value.mode.Exclusive? && intruder in w3.value.clients
            && Possible(w3, Stdin(intruder, op.now)) && Accepts(w3.value, intruder, op.now)
  {
    var w1 := After(w, op);
    var w2 := After(w1, Leave(op.client, op.now));
    assert w2.value.clients == map[];
  }

  /**
   So the condition is exact: from any reachable state in which the mode is switched for the first time within a lease,
   three more operations at that very moment let another client type under a lease of its own.
   */
  lemma SwitchBreaksExclusion(ws: seq<World>, ops: seq<Op>, i: nat, k: nat) returns (ws': seq<World>, ops': seq<Op>)
    requires Run(ws, ops) && Renews(ws, ops, i) && i < k < |ops| && NoSwitchInLease(ws, ops, i, k)
    requires Switches(ws[k], ops[k]) && ops[k].now <= ops[i].now + DRIVER_LEASE
    ensures Run(ws', ops') && ops[..k + 1] <= ops' && |ops'| == k + 4 && TypedExclusively(ws', ops', k + 3)
    ensures ops'[k + 3].client != ops[i].client && ops'[k + 3].now <= ops[i].now + DRIVER_LEASE
  {
    RunHonours(ws, ops, i, k);
    assert ops[k - 1].now <= ops[k - 1 + 1].now;
    assert ws[k + 1] == After(ws[k], ops[k]);
    var now, intruder := ops[k].now, ops[i].client + ops[k].client + "x";
    assert |intruder| > |ops[i].client| && |intruder| > |ops[k].client|;
    SwitchOpens(ws[k], ops[k], intruder);
    RunPrefix(ws, ops, k + 1);
    ws', ops' := Extended(ws[..k + 2], ops[..k + 1], Leave(ops[k].client, now));
    ws', ops' := Extended(ws', ops', Join(intruder, Driver, Exclusive, now));
    ws', ops' := Extended(ws', ops', Stdin(intruder, now));
  }

  lemma Extended(ws: seq<World>, ops: seq<Op>, op: Op) returns (ws': seq<World>, ops': seq<Op>)
    requires Run(ws, ops) && Possible(ws[|ops|], op) && (ops != [] ==> ops[|ops| - 1].now <= op.now)
    ensures Run(ws', ops') && ops' == ops + [op] && ws' == ws + [After(ws[|ops|], op)]
  {
    RunSnoc(ws, ops, op);
    ws', ops' := ws + [After(ws[|ops|], op)], ops + [op];
  }

  /** A driver that comes back within its lease is the driver again, even on a viewer's token. */
  lemma ReconnectRegains(ws: seq<World>, ops: seq<Op>, i: nat, j: nat)
    requires Run(ws, ops) && Renews(ws, ops, i) && i < j < |ops| && NoSwitchInLease(ws, ops, i, j)
    requires ops[j].Join? && ops[j].client == ops[i].client && ops[j].mode.Exclusive?
    requires ops[j].now <= ops[i].now + DRIVER_LEASE
    ensures ws[j + 1].Some? && CurrentDriver(ws[j + 1].value, ops[j].now) == ops[i].client
    ensures ws[j + 1].value.leaseUntil == ops[j].now + DRIVER_LEASE
    ensures ops[i].client in ws[j + 1].value.clients && ws[j + 1].value.clients[ops[i].client].role.Driver?
  {
    RunHonours(ws, ops, i, j);
    RunIsSound(ws, ops, i);
    assert ops[j - 1].now <= ops[j - 1 + 1].now;
    assert ws[j + 1] == After(ws[j], ops[j]);
  }

  /** After asking for control at that moment, the client's input is let through. */
  predicate TakesOver(s: Session, client: string, now: Time)
    requires client in s.clients
  {
    Accepts(Controlled(s, client, now), client, now)
  }

  /** The bound is attained: one nanosecond after the lease, any client with a driver's token takes over. */
  lemma HandoverIsImmediate(s: Session, client: string, holder: string, t: Time)
    requires s.mode.Exclusive? && s.driver == holder && s.leaseUntil == t + DRIVER_LEASE && client in s.clients
    requires client != ""
    requires s.clients[client].maxRole.Driver? && client != holder && holder != ""
    ensures forall now :: TakesOver(s, client, now) <==> now > t + DRIVER_LEASE
  {
  }

  /**
   Why the mode has to stay: a client that joins an empty session collaboratively drops the lease of the absent driver,
   and types exclusively at the very same instant.
   */
  lemma ModeSwitchDropsLease(s: Session, holder: string, client: string, now: Time)
    requires s.mode.Exclusive? && s.clients == map[] && CurrentDriver(s, now) == holder != "" && client != ""
    requires client != holder
    ensures var w1 := After(Some(s), Join(client, Driver, Collaborative, now));
            && Possible(w1, Leave(client, now))
            && var w2 := After(w1, Leave(client, now));
            && Possible(w2, Join(client, Driver, Exclusive, now))
            && var w3 := After(w2, Join(client, Driver, Exclusive, now));
            w3.Some? && w3.value.mode.Exclusive? && client in w3.value.clients && Accepts(w3.value, client, now)
    ensures var direct := After(Some(s), Join(client, Driver, Exclusive, now));
            direct.Some? && client in direct.value.clients && !Accepts(direct.value, client, now)
  {
    var w1 := After(Some(s), Join(client, Driver, Collaborative, now));
    var w2 := After(w1, Leave(client, now));
    assert w2.value.clients == map[];
  }

  /**
   The timer set when the last client leaves fires late enough: it drops the session unless somebody has come back.
   */
  lemma CleanupFindsLeaseOver(s: Session, now: Time, later: Time)
    requires later >= now + CleanupDelay(s, now)
    ensures Abandoned(s, later) <==> s.clients == map[]
  {
  }
}
