/** The attach session and the service that keeps it, as the objects they are. */
module AttachServices {
  import opened Text
  import opened AttachLease

  class AttachSession {
    var mode: Mode
    var clients: map<string, Client>
    var driverClientID: string
    var driverLeaseUntil: Time

    ghost function View(): Session
      reads this
    {
      Session(mode, clients, driverClientID, driverLeaseUntil)
    }

    constructor (mode: Mode)
      ensures View() == Session(mode, map[], "", ZERO_TIME)
    {
      this.mode := mode;
      clients, driverClientID, driverLeaseUntil := map[], "", ZERO_TIME;
    }

    method CurrentDriverLocked(now: Time) returns (driver: string)
      ensures driver == CurrentDriver(View(), now)
    {
      if driverClientID == "" {
        return "";
      }
      if now > driverLeaseUntil {
        return "";
      }
      return driverClientID;
    }

    method RefreshLeaseLocked(now: Time, client: string)
      modifies this`driverClientID, this`driverLeaseUntil
      ensures View() == Leased(old(View()), client, now)
    {
      driverClientID := client;
      driverLeaseUntil := now + DRIVER_LEASE;
    }

    /** The check of the mode with which a client arrives. */
    method AgreeOnMode(wanted: Mode) returns (ok: bool)
      modifies this
      ensures ok <==> Found(Some(old(View())), wanted).Some?
      ensures View() == if ok then Found(Some(old(View())), wanted).value else old(View())
    {
      if mode != wanted {
        if |clients| != 0 {
          return false;
        }
        mode := wanted;
        driverClientID := "";
        driverLeaseUntil := ZERO_TIME;
      }
      return true;
    }

    method Join(client: string, maxRole: Role, now: Time)
      modifies this
      ensures View() == Joined(old(View()), client, maxRole, now)
    {
      var cli := Client(maxRole, maxRole);
      if mode.Collaborative? {
        cli := cli.(role := if maxRole.Driver? then Driver else Viewer);
        driverClientID := "";
        driverLeaseUntil := ZERO_TIME;
      } else {
        var curDriver := CurrentDriverLocked(now);
        if driverClientID == client && curDriver == client {
          cli := cli.(role := Driver);
          RefreshLeaseLocked(now, client);
        } else if maxRole.Driver? && curDriver == "" {
          cli := cli.(role := Driver);
          RefreshLeaseLocked(now, client);
        } else {
          cli := cli.(role := Viewer);
        }
      }
      clients := clients[client := cli];
    }

    method Keepalive(client: string, now: Time)
      requires client in clients
      modifies this`driverClientID, this`driverLeaseUntil
      ensures Some(View()) == After(Some(old(View())), AttachLease.Keepalive(client, now))
    {
      if mode.Exclusive? && driverClientID == client {
        RefreshLeaseLocked(now, client);
      }
    }

    method TakeControl(client: string, now: Time) returns (changed: bool)
      requires client in clients
      modifies this
      ensures View() == Controlled(old(View()), client, now)
      ensures changed <==> old(clients[client].maxRole.Driver?
                               && (mode.Collaborative? || CurrentDriver(View(), now) in {"", client}))
    {
      var cli := clients[client];
      changed := false;
      if cli.maxRole != Driver {
        return;
      }
      if mode.Collaborative? {
        clients := clients[client := cli.(role := Driver)];
        changed := true;
      } else {
        var cur := CurrentDriverLocked(now);
        if cur == "" || cur == client {
          RefreshLeaseLocked(now, client);
          clients := clients[client := cli.(role := Driver)];
          changed := true;
        }
      }
    }

    /** One message of input: whether it is let through. */
    method Stdin(client: string, now: Time) returns (allowed: bool)
      requires client in clients
      modifies this`driverClientID, this`driverLeaseUntil
      ensures allowed <==> Accepts(old(View()), client, now)
      ensures Some(View()) == After(Some(old(View())), AttachLease.Stdin(client, now))
    {
      allowed := false;
      if mode.Collaborative? {
        allowed := clients[client].role.Driver?;
      } else {
        var cur := CurrentDriverLocked(now);
        if cur == client {
          RefreshLeaseLocked(now, client);
          allowed := true;
        }
      }
    }

    /** The end of handleConn; the lease is kept for a reconnect, and the last client to leave sets the timer. */
    method Leave(client: string, now: Time) returns (timer: Option<Time>)
      modifies this`clients
      ensures View() == old(View()).(clients := old(clients) - {client})
      ensures timer == if clients == map[] then Some(CleanupDelay(View(), now)) else None
    {
      clients := clients - {client};
      if |clients| != 0 {
        return None;
      }
      var delay := driverLeaseUntil - now + CLEANUP_GRACE;
      if delay < CLEANUP_GRACE {
        delay := CLEANUP_GRACE;
      }
      return Some(delay);
    }
  }

  /** The service's entry for one workspace session. */
  class AttachService {
    var session: AttachSession?

    ghost function View(): World
      reads this, session
    {
      if session == null then None else Some(session.View())
    }

    constructor ()
      ensures View() == None
    {
      session := null;
    }

    /** The start of handleConn: look the session up or create it, agree on the mode, join. */
    method Connect(client: string, maxRole: Role, mode: Mode, now: Time) returns (ok: bool)
      requires Possible(View(), AttachLease.Join(client, maxRole, mode, now))
      modifies this, session
      ensures View() == After(old(View()), AttachLease.Join(client, maxRole, mode, now))
      ensures ok <==> Found(old(View()), mode).Some?
      ensures session == old(session) || fresh(session)
    {
      if session == null {
        session := new AttachSession(mode);
      }
      ok := session.AgreeOnMode(mode);
      if ok {
        session.Join(client, maxRole, now);
      }
    }

    /** The cleanup timer. */
    method CleanUp(now: Time)
      modifies this
      ensures View() == After(old(View()), Cleanup(now))
    {
      if session == null {
        return;
      }
      if |session.clients| == 0 && (session.driverClientID == "" || now > session.driverLeaseUntil) {
        session := null;
      }
    }
  }
}
