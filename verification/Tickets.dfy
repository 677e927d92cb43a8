/** Single-use attachment tickets (hub/internal/auth/tickets.go).

    The clock is a number handed in; tokens are drawn by the caller. */
module Tickets {
  datatype Ticket = Ticket(host: string, connRev: nat, session: string, expires: int)

  type Table = map<string, Ticket>

  datatype Verdict = Accepted | Invalid | Expired | HostMismatch | Superseded | SessionMismatch

  const LOCAL_HOST := "local"

  function HostOr(host: string): string {
    if host == "" then LOCAL_HOST else host
  }

  function RevOr(connRev: nat): nat {
    if connRev == 0 then 1 else connRev
  }

  function Issued(t: Table, id: string, host: string, connRev: nat, session: string, expires: int): Table {
    t[id := Ticket(HostOr(host), RevOr(connRev), session, expires)]
  }

  /** The answer to a redemption, in the order the checks are made. */
  function Redemption(t: Table, id: string, host: string, connRev: nat, session: string, now: int): Verdict {
    if id == "" || id !in t then Invalid
    else if now > t[id].expires then Expired
    else if t[id].host != HostOr(host) then HostMismatch
    else if t[id].connRev != RevOr(connRev) then Superseded
    else if t[id].session != session then SessionMismatch
    else Accepted
  }

  /** A redemption uses the ticket up whatever the answer. */
  function Redeemed(t: Table, id: string): Table {
    if id == "" then t else t - {id}
  }

  function Swept(t: Table, now: int): Table {
    map id | id in t && now <= t[id].expires :: t[id]
  }

  function WithoutHost(t: Table, host: string): Table {
    map id | id in t && t[id].host != host :: t[id]
  }

  function WithoutConnection(t: Table, host: string, oldConnRev: nat): Table {
    map id | id in t && !(t[id].host == host && (oldConnRev == 0 || t[id].connRev <= oldConnRev)) :: t[id]
  }

  // --- What a ticket is good for ---

  /** The empty name and the local host are one, and so are revisions 0 and 1. */
  predicate SameHost(a: string, b: string) {
    a == b || {a, b} == {"", "local"}
  }

  predicate SameRevision(a: nat, b: nat) {
    a == b || {a, b} == {0, 1}
  }

  /** A ticket just issued is good for its own host, connection revision and session,
      up to and including the moment it expires, and for nothing else; other tickets
      are as good as before. */
  lemma IssuedIsGoodFor(
      t: Table, id: string, host: string, connRev: nat, session: string, expires: int,
      id': string, host': string, connRev': nat, session': string, now: int)
    requires id != ""
    ensures var t' := Issued(t, id, host, connRev, session, expires);
            && (Redemption(t', id, host', connRev', session', now) == Accepted
                <==> SameHost(host, host') && SameRevision(connRev, connRev') && session == session' && now <= expires)
            && (id' != id ==> Redemption(t', id', host', connRev', session', now)
                              == Redemption(t, id', host', connRev', session', now))
  {
  }

  /** Whatever the first answer was, the second is no. */
  lemma GoodOnce(t: Table, id: string, host: string, connRev: nat, session: string, now: int)
    ensures Redemption(Redeemed(t, id), id, host, connRev, session, now) == Invalid
    ensures forall k :: k != id ==> (k in Redeemed(t, id) <==> k in t) && (k in t ==> Redeemed(t, id)[k] == t[k])
  {
  }

  /** A sweep takes nothing that could still be redeemed, and leaves nothing that
      could not for its age. */
  lemma SweepSparesTheGood(t: Table, swept: int, id: string, host: string, connRev: nat, session: string, now: int)
    requires swept <= now
    ensures Redemption(Swept(t, swept), id, host, connRev, session, now) == Accepted
            <==> Redemption(t, id, host, connRev, session, now) == Accepted
    ensures Redemption(Swept(t, swept), id, host, connRev, session, swept) != Expired
  {
  }

  /** After a host's tickets are invalidated, exactly the redemptions for others succeed as before. */
  lemma InvalidatedHostIsRefused(
      t: Table, gone: string, id: string, host: string, connRev: nat, session: string, now: int)
    ensures Redemption(WithoutHost(t, gone), id, host, connRev, session, now) == Accepted
            <==> Redemption(t, id, host, connRev, session, now) == Accepted && HostOr(host) != gone
  {
  }

  lemma InvalidatedConnectionIsRefused(
      t: Table, gone: string, upTo: nat, id: string, host: string, connRev: nat, session: string, now: int)
    ensures Redemption(WithoutConnection(t, gone, upTo), id, host, connRev, session, now) == Accepted
            <==> && Redemption(t, id, host, connRev, session, now) == Accepted
                 && !(HostOr(host) == gone && (upTo == 0 || RevOr(connRev) <= upTo))
  {
  }

  class TicketStore {
    var byID: Table
    const ttl: int

    constructor (ttl: int)
      ensures byID == map[] && this.ttl == ttl
    {
      byID := map[];
      this.ttl := ttl;
    }

    method IssueForTarget(id: string, host: string, connRev: nat, session: string, now: int) returns (expires: int)
      modifies this
      ensures expires == now + ttl
      ensures byID == Issued(old(byID), id, host, connRev, session, expires)
    {
      var h, r := host, connRev;
      if h == "" {
        h := LOCAL_HOST;
      }
      if r == 0 {
        r := 1;
      }
      expires := now + ttl;
      byID := byID[id := Ticket(h, r, session, expires)];
    }

    method RedeemForTarget(id: string, host: string, connRev: nat, session: string, now: int) returns (v: Verdict)
      modifies this
      ensures v == Redemption(old(byID), id, host, connRev, session, now)
      ensures byID == Redeemed(old(byID), id)
    {
      if id == "" {
        return Invalid;
      }
      var h := if host == "" then LOCAL_HOST else host;
      var r := if connRev == 0 then 1 else connRev;
      var found := id in byID;
      var t := if found then byID[id] else Ticket("", 0, "", 0);
      byID := byID - {id};
      if !found {
        return Invalid;
      }
      if now > t.expires {
        return Expired;
      }
      if t.host != h {
        return HostMismatch;
      }
      if t.connRev != r {
        return Superseded;
      }
      if t.session != session {
        return SessionMismatch;
      }
      return Accepted;
    }

    method Sweep(now: int)
      modifies this
      ensures byID == Swept(old(byID), now)
    {
      var todo := byID.Keys;
      while todo != {}
        invariant todo <= byID.Keys
        invariant byID == map id | id in old(byID) && (id in todo || now <= old(byID)[id].expires) :: old(byID)[id]
        decreases todo
      {
        var id :| id in todo;
        if now > byID[id].expires {
          byID := byID - {id};
        }
        todo := todo - {id};
      }
    }

    method InvalidateHost(host: string)
      modifies this
      ensures byID == WithoutHost(old(byID), host)
    {
      var todo := byID.Keys;
      while todo != {}
        invariant todo <= byID.Keys
        invariant byID == map id | id in old(byID) && (id in todo || old(byID)[id].host != host) :: old(byID)[id]
        decreases todo
      {
        var id :| id in todo;
        if byID[id].host == host {
          byID := byID - {id};
        }
        todo := todo - {id};
      }
    }

    method InvalidateConnection(host: string, oldConnRev: nat)
      modifies this
      ensures byID == WithoutConnection(old(byID), host, oldConnRev)
    {
      var todo := byID.Keys;
      while todo != {}
        invariant todo <= byID.Keys
        invariant byID == map id | && id in old(byID)
                                   && (|| id in todo
                                       || !(&& old(byID)[id].host == host
                                            && (oldConnRev == 0 || old(byID)[id].connRev <= oldConnRev)))
                               :: old(byID)[id]
        decreases todo
      {
        var id :| id in todo;
        if byID[id].host == host && (oldConnRev == 0 || byID[id].connRev <= oldConnRev) {
          byID := byID - {id};
        }
        todo := todo - {id};
      }
    }
  }
}
