/** Who may type at all: a driver's token is needed, and it is enough where nobody else holds the terminal. */
module AttachRights {
  import opened Text
  import opened AttachLease

  /** The join is let in: there is no terminal yet, or it is in the same mode, or nobody is in it. */
  predicate LetIn(w: World, op: Op) {
    op.Join? && (w.Some? ==> w.value.mode == op.mode || w.value.clients == map[])
  }

  /** Before the k-th operation the client has been let in with a driver's token. */
  ghost predicate Entitled(ws: seq<World>, ops: seq<Op>, k: nat, client: string)
    requires k <= |ops| < |ws|
  {
    exists j :: 0 <= j < k && LetIn(ws[j], ops[j]) && ops[j].client == client && ops[j].maxRole.Driver?
  }

  /** Whoever drives, is a driver or may become one has been entitled to. */
  ghost predicate AllEntitled(ws: seq<World>, ops: seq<Op>, k: nat)
    requires k <= |ops| < |ws|
  {
    ws[k].Some? ==>
      && (ws[k].value.driver != "" ==> Entitled(ws, ops, k, ws[k].value.driver))
      && (forall c :: c in ws[k].value.clients && MayDrive(ws[k].value.clients[c]) ==> Entitled(ws, ops, k, c))
  }

  predicate MayDrive(c: Client) { c.role.Driver? || c.maxRole.Driver? }

  lemma EntitledLater(ws: seq<World>, ops: seq<Op>, k: nat, client: string)
    requires k < |ops| < |ws| && Entitled(ws, ops, k, client)
    ensures Entitled(ws, ops, k + 1, client)
  {
  }

  /** One operation makes nobody a driver who was not one, but for a join with a driver's token. */
  lemma StepDrives(w: World, op: Op)
    requires Possible(w, op)
    ensures var v := After(w, op);
            v.Some? ==>
              && (v.value.driver != "" ==>
                    || (w.Some? && v.value.driver == w.value.driver)
                    || (w.Some? && v.value.driver in w.value.clients && MayDrive(w.value.clients[v.value.driver]))
                    || (LetIn(w, op) && op.client == v.value.driver && op.maxRole.Driver?))
              && (forall c :: c in v.value.clients && MayDrive(v.value.clients[c]) ==>
                    || (w.Some? && c in w.value.clients && MayDrive(w.value.clients[c]))
                    || (w.Some? && w.value.driver == c && c != "")
                    || (LetIn(w, op) && op.client == c && op.maxRole.Driver?))
  {
  }

  lemma StepEntitles(ws: seq<World>, ops: seq<Op>, k: nat)
    requires k < |ops| < |ws| && Possible(ws[k], ops[k]) && ws[k + 1] == After(ws[k], ops[k])
    requires AllEntitled(ws, ops, k)
    ensures AllEntitled(ws, ops, k + 1)
  {
    StepDrives(ws[k], ops[k]);
    forall c | Entitled(ws, ops, k, c) ensures Entitled(ws, ops, k + 1, c) {
      EntitledLater(ws, ops, k, c);
    }
    if LetIn(ws[k], ops[k]) && ops[k].maxRole.Driver? {
      assert Entitled(ws, ops, k + 1, ops[k].client);
    }
  }

  lemma {:induction false} RunEntitles(ws: seq<World>, ops: seq<Op>, k: nat)
    requires Run(ws, ops) && k <= |ops|
    ensures AllEntitled(ws, ops, k)
  {
    if k > 0 {
      RunEntitles(ws, ops, k - 1);
      assert ws[k - 1 + 1] == After(ws[k - 1], ops[k - 1]);
      StepEntitles(ws, ops, k - 1);
    }
  }

  /** Nobody's input is let through, in either mode, who has not been let in with a driver's token before. */
  lemma TypingNeedsDriverToken(ws: seq<World>, ops: seq<Op>, k: nat)
    requires Run(ws, ops) && Typed(ws, ops, k)
    ensures Entitled(ws, ops, k, ops[k].client)
  {
    RunEntitles(ws, ops, k);
    RunIsSound(ws, ops, k);
  }

  /** The lease of this client still runs. */
  predicate Holds(s: Session, client: string, now: Time) { s.driver == client && now <= s.leaseUntil }

  /** Nobody's lease runs. */
  predicate Vacant(s: Session, now: Time) { s.driver == "" || now > s.leaseUntil }

  /**
   Who types upon joining: in collaborative mode whoever has a driver's token, and else who holds the lease, on any
   token, or has a driver's token while nobody holds it.
   */
  lemma JoinerTypesExactly(w: World, client: string, maxRole: Role, mode: Mode, now: Time)
    requires Possible(w, Join(client, maxRole, mode, now)) && LetIn(w, Join(client, maxRole, mode, now))
    ensures var v := After(w, Join(client, maxRole, mode, now));
            && v.Some? && v.value.mode == mode && client in v.value.clients
            && (Accepts(v.value, client, now)
                <==> if mode.Collaborative? then maxRole.Driver?
                     else if w.None? || w.value.mode != mode then maxRole.Driver?
                     else Holds(w.value, client, now) || (maxRole.Driver? && Vacant(w.value, now)))
  {
  }

  /** A join that is not let in changes nothing. */
  lemma RefusedExactly(w: World, client: string, maxRole: Role, mode: Mode, now: Time)
    requires Possible(w, Join(client, maxRole, mode, now))
    ensures LetIn(w, Join(client, maxRole, mode, now)) <==> Found(w, mode).Some?
    ensures !LetIn(w, Join(client, maxRole, mode, now)) ==> After(w, Join(client, maxRole, mode, now)) == w
  {
  }

  /** Who types upon asking for control. */
  lemma ControlTypesExactly(s: Session, client: string, now: Time)
    requires client in s.clients && client != ""
    ensures Accepts(Controlled(s, client, now), client, now)
            <==> (var c := s.clients[client];
                  if s.mode.Collaborative? then c.role.Driver? || c.maxRole.Driver?
                  else Holds(s, client, now) || (c.maxRole.Driver? && Vacant(s, now)))
  {
  }

  /** A keepalive gives the driver a whole lease from now, even after the last one, and changes nothing else. */
  lemma KeepaliveExactly(s: Session, client: string, now: Time)
    requires client in s.clients
    ensures var v := After(Some(s), Keepalive(client, now));
            && v.Some? && v.value.(leaseUntil := s.leaseUntil) == s
            && v.value.leaseUntil
               == if s.mode.Exclusive? && s.driver == client then now + 30 * SECOND else s.leaseUntil
  {
  }

  /** The timer drops the terminal exactly when nobody is in it and nobody's lease runs, and changes nothing else. */
  lemma CleanupExactly(w: World, now: Time)
    ensures After(w, Cleanup(now)).None? <==> w.None? || (w.value.clients == map[] && Vacant(w.value, now))
    ensures After(w, Cleanup(now)).Some? ==> After(w, Cleanup(now)) == w
  {
  }

  /** The timer fires five seconds after the last client has left or its lease has run out, whichever is later. */
  lemma CleanupDelayExactly(s: Session, now: Time)
    ensures now + CleanupDelay(s, now) == (if s.leaseUntil > now then s.leaseUntil else now) + 5 * SECOND
  {
  }

  // Everybody in a terminal has come in its mode.

  ghost predicate CameInMode(ws: seq<World>, ops: seq<Op>, k: nat, client: string, mode: Mode)
    requires k <= |ops| < |ws|
  {
    exists j :: 0 <= j < k && LetIn(ws[j], ops[j]) && ops[j].client == client && ops[j].mode == mode
  }

  lemma StepKeepsMode(w: World, op: Op)
    requires Possible(w, op)
    ensures var v := After(w, op);
            v.Some? ==> forall c :: c in v.value.clients ==>
              || (w.Some? && c in w.value.clients && w.value.mode == v.value.mode)
              || (LetIn(w, op) && op.client == c && op.mode == v.value.mode)
  {
  }

  /** In every state of every run each client of a terminal was let in with the mode that the terminal is in. */
  lemma {:induction false} ModesAgree(ws: seq<World>, ops: seq<Op>, k: nat, client: string)
    requires Run(ws, ops) && k <= |ops| && ws[k].Some? && client in ws[k].value.clients
    ensures CameInMode(ws, ops, k, client, ws[k].value.mode)
  {
    if k > 0 {
      assert ws[k - 1 + 1] == After(ws[k - 1], ops[k - 1]);
      StepKeepsMode(ws[k - 1], ops[k - 1]);
      if ws[k - 1].Some? && client in ws[k - 1].value.clients && ws[k - 1].value.mode == ws[k].value.mode {
        ModesAgree(ws, ops, k - 1, client);
      }
    }
  }
}
