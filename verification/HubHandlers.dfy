/** The request handlers that change hosts, issue tickets and attach
    (hub/internal/transport/http/router.go:283-321, 453-543;
    hub/internal/transport/ws/handler.go:140-231; hub/internal/app/app.go:317-326;
    hub/internal/host/connection.go:275-311),
    each with the hub to itself.  HandlerRuns shows each to be a run of the steps
    that HostLifecycle interleaves.
  */
module HubHandlers {
  import opened HostStore
  import opened Registry
  import opened Tickets
  import opened Connections
  import TM = TerminalManager

  // --- What the handlers do, on values ---

  datatype HubState = HubState(db: DB, tickets: Table, mgr: TM.Manager, pools: Pools)

  datatype UpdateReply = RevisionRequired | NoSuchHost | Rejected(reason: Refusal) | Saved(record: Record)

  datatype IssueReply = UnknownHost | UnknownSession | Issued(expires: int)

  datatype AttachReply =
    | HostNotFound | OriginForbidden | NotUpgraded | TicketRefused(why: Tickets.Verdict)
    | TmuxUnavailable | ProcessFailed | ShuttingDown | Attached

  /** What an attach request meets outside the hub: the origin check, the upgrade of
      the connection, tmux, and what starting a process takes besides its host. */
  datatype Surroundings = Surroundings(origin: bool, upgrade: bool, tmux: bool, process: bool)

  /** A host's connection invalidated: no pool, no ticket, the next epoch, no attachment. */
  function Dropped(s: HubState, host: Id): HubState {
    HubState(s.db, WithoutHost(s.tickets, host),
             TM.Bumped(s.mgr, host).(attachments := s.mgr.attachments - TM.OfHost(s.mgr, host)),
             PoolsWithout(s.pools, host))
  }

  function Updated(s: HubState, input: HostInput, sealed: seq<nat>, expected: Revision): (UpdateReply, HubState) {
    if expected == 0 then (RevisionRequired, s)
    else if input.id !in s.db.hosts then (NoSuchHost, s)
    else match SaveResult(s.db, input, sealed, expected)
      case Err(e) => (Rejected(e), s)
      case Ok(r) =>
        var saved := s.(db := AfterSave(s.db, input, sealed, expected));
        (Saved(r), if r.connRev != s.db.hosts[input.id].connRev then Dropped(saved, input.id) else saved)
  }

  function Deleted(s: HubState, host: Id, expected: Revision): (Outcome, HubState) {
    var o := RemoveResult(s.db, host, expected);
    (o, if o.Done? then Dropped(s.(db := AfterRemove(s.db, host, expected)), host) else s)
  }

  function TicketIssued(s: HubState, token: string, host: Id, session: string, known: bool, expires: int)
    : (IssueReply, HubState)
  {
    if host !in s.db.hosts then (UnknownHost, s)
    else if !known then (UnknownSession, s)
    else
      var r := s.db.hosts[host];
      (Issued(expires), s.(tickets := Tickets.Issued(s.tickets, token, r.id, r.connRev, session, expires)))
  }

  /** The name an attachment is tracked under. */
  function NameOf(r: Record, host: Id): Id {
    if r.id == "" then host else r.id
  }

  function Served(s: HubState, t: nat, host: Id, token: string, session: string, now: int, around: Surroundings)
    : (AttachReply, HubState)
  {
    if host !in s.db.hosts then (HostNotFound, s)
    else if !around.origin then (OriginForbidden, s)
    else if !around.upgrade then (NotUpgraded, s)
    else
      var r := s.db.hosts[host];
      var verdict := Redemption(s.tickets, token, r.id, r.connRev, session, now);
      var redeemed := s.(tickets := Redeemed(s.tickets, token));
      if verdict != Accepted then (TicketRefused(verdict), redeemed)
      else if !around.tmux then (TmuxUnavailable, redeemed)
      else if !around.process || Dialed(s.db, r).None? then (ProcessFailed, redeemed)
      else if s.mgr.closing then (ShuttingDown, redeemed)
      else
        var name := NameOf(r, host);
        var a := TM.Attachment(t, name, TM.EpochOf(s.mgr, name));
        (Attached, redeemed.(mgr := s.mgr.(attachments := s.mgr.attachments + {a})))
  }

  /** An invalidated host has no pool, no ticket and no attachment left, a lease of
      its old pool is revoked, and whoever attaches with an epoch read before is refused. */
  lemma DroppedIsGone(s: HubState, host: Id, a: TM.Attachment)
    requires host != "" && a.host == host && a.epoch <= TM.EpochOf(s.mgr, host)
    ensures var s' := Dropped(s, host);
            && host !in s'.pools.current && (host in s.pools.current ==> s.pools.current[host] in s'.pools.revoked)
            && (forall k :: k in s'.tickets ==> s'.tickets[k].host != host)
            && (forall b :: b in s'.mgr.attachments ==> b.host != host)
            && TM.Registration(s'.mgr, a) != TM.Registered
    ensures var s' := Dropped(s, host);
            && s'.db == s.db && s'.mgr.closing == s.mgr.closing
            && (forall k :: k in s.tickets && s.tickets[k].host != host ==> k in s'.tickets)
            && (forall k :: k in s'.tickets ==> k in s.tickets && s'.tickets[k] == s.tickets[k])
            && (forall b :: b in s.mgr.attachments && b.host != host ==> b in s'.mgr.attachments)
            && s'.mgr.attachments <= s.mgr.attachments
            && (forall h :: h != host ==> TM.EpochOf(s'.mgr, h) == TM.EpochOf(s.mgr, h))
            && (forall h :: h != host && h in s.pools.current ==>
                  h in s'.pools.current && s'.pools.current[h] == s.pools.current[h])
  {
  }

  /** An attach is let in exactly if the host is registered, the origin and the upgrade
      are good, the ticket is good for the host, session and moment, tmux and the
      process start, the host can be dialled, and the hub is not shutting down. */
  lemma AttachedMeaning(
      s: HubState, t: nat, host: Id, token: string, session: string, now: int, around: Surroundings)
    ensures var (reply, s') := Served(s, t, host, token, session, now, around);
            && (reply == Attached <==>
                  && host in s.db.hosts && around.origin && around.upgrade
                  && (var r := s.db.hosts[host];
                      Redemption(s.tickets, token, r.id, r.connRev, session, now) == Accepted)
                  && around.tmux && around.process && Dialed(s.db, s.db.hosts[host]).Some? && !s.mgr.closing)
            && (reply != Attached ==> s'.mgr == s.mgr)
            && (reply == Attached ==>
                  exists a: TM.Attachment :: a.id == t && s'.mgr == s.mgr.(attachments := s.mgr.attachments + {a}))
            && s'.db == s.db && s'.pools == s.pools && s'.mgr.epochs == s.mgr.epochs
            && s'.tickets == (if host in s.db.hosts && around.origin && around.upgrade then Redeemed(s.tickets, token)
                              else s.tickets)
  {
  }

  /** What an edit does to the connection, tickets and attachments of its host: all of
      them go if the connection revision changed, and none otherwise. */
  lemma UpdatedMeaning(s: HubState, input: HostInput, sealed: seq<nat>, expected: Revision)
    requires SchemaTwo(s.db)
    ensures var (reply, s') := Updated(s, input, sealed, expected);
            && (reply.Saved? <==> expected > 0 && SaveResult(s.db, input, sealed, expected).Ok?)
            && (reply.Saved? ==>
                  && s'.db.hosts == s.db.hosts[input.id := reply.record]
                  && (reply.record.connRev == s.db.hosts[input.id].connRev ==>
                        s'.tickets == s.tickets && s'.mgr == s.mgr && s'.pools == s.pools)
                  && (reply.record.connRev != s.db.hosts[input.id].connRev ==>
                        s' == Dropped(s.(db := s'.db), input.id)))
            && (!reply.Saved? ==> s' == s)
  {
    if SaveResult(s.db, input, sealed, expected).Ok? {
      SavedIsNext(s.db, input, sealed, expected);
    }
  }

  // --- The handlers ---

  class Hub {
    const connections: ConnectionManager
    const registry: HostRegistry
    const tickets: TicketStore
    const manager: TM.TerminalManager

    constructor (
        connections: ConnectionManager, registry: HostRegistry, tickets: TicketStore, manager: TM.TerminalManager)
      ensures this.connections == connections && this.registry == registry
      ensures this.tickets == tickets && this.manager == manager
    {
      this.connections, this.registry, this.tickets, this.manager := connections, registry, tickets, manager;
    }

    ghost function State(): HubState
      reads this, registry, registry.store, tickets, manager, connections
    {
      HubState(registry.store.View(), tickets.byID, manager.View(), connections.View())
    }

    /** The callback for a changed connection and for a removed host. */
    method ConnectionChanged(host: Id)
      modifies connections, tickets, manager
      ensures State() == Dropped(old(State()), host)
    {
      connections.Invalidate(host);
      tickets.InvalidateHost(host);
      manager.CloseHost(host);
    }

    method UpdateHost(input: HostInput, sealed: seq<nat>, expected: Revision) returns (reply: UpdateReply)
      modifies connections, registry.store, tickets, manager
      ensures (reply, State()) == Updated(old(State()), input, sealed, expected)
    {
      if expected == 0 {
        return RevisionRequired;
      }
      if input.id !in registry.store.hosts {
        return NoSuchHost;
      }
      var prior := registry.store.hosts[input.id];
      var saved := registry.Save(input, sealed, expected);
      if saved.Err? {
        RefusedChangesNothing(old(registry.store.View()), input, sealed, expected);
        return Rejected(saved.reason);
      }
      if saved.value.connRev != prior.connRev {
        ConnectionChanged(input.id);
      }
      return Saved(saved.value);
    }

    method DeleteHost(host: Id, expected: Revision) returns (o: Outcome)
      modifies connections, registry.store, tickets, manager
      ensures (o, State()) == Deleted(old(State()), host, expected)
    {
      o := registry.Remove(host, expected);
      if o.Done? {
        ConnectionChanged(host);
      }
    }

    /** A ticket for the host as it is resolved now; `known` is whether tmux has the session. */
    method IssueTicket(token: string, host: Id, session: string, known: bool, now: int) returns (reply: IssueReply)
      modifies tickets
      ensures (reply, State()) == TicketIssued(old(State()), token, host, session, known, now + tickets.ttl)
    {
      if host !in registry.store.hosts {
        return UnknownHost;
      }
      if !known {
        return UnknownSession;
      }
      var target := registry.store.hosts[host];
      var expires := tickets.IssueForTarget(token, target.id, target.connRev, session, now);
      return Issued(expires);
    }

    method ServeAttach(t: nat, rawHost: Id, token: string, session: string, now: int, around: Surroundings)
      returns (reply: AttachReply)
      modifies tickets, manager
      ensures (reply, State()) == Served(old(State()), t, HostOr(rawHost), token, session, now, around)
    {
      var host := rawHost;
      if host == "" {
        host := HostStore.LOCAL_ID;
      }
      var epoch := manager.CurrentEpoch(host);
      if host !in registry.store.hosts {
        return HostNotFound;
      }
      var target := registry.store.hosts[host];
      var name := host;
      if target.id != "" {
        name := target.id;
        if name != host {
          epoch := manager.CurrentEpoch(name);
        }
      }
      if !around.origin {
        return OriginForbidden;
      }
      if !around.upgrade {
        return NotUpgraded;
      }
      var v := tickets.RedeemForTarget(token, target.id, target.connRev, session, now);
      if v != Accepted {
        return TicketRefused(v);
      }
      if !around.tmux {
        return TmuxUnavailable;
      }
      var dialed := Dialed(registry.store.View(), target);
      if !around.process || dialed.None? {
        return ProcessFailed;
      }
      var registered := manager.Register(TM.Attachment(t, name, epoch));
      if registered != TM.Registered {
        return ShuttingDown;
      }
      return Attached;
    }
  }

  lemma RefusedChangesNothing(db: DB, input: HostInput, sealed: seq<nat>, expected: Revision)
    requires SaveResult(db, input, sealed, expected).Err?
    ensures AfterSave(db, input, sealed, expected) == db
  {
  }
}
