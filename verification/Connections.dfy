/** Connections to hosts, as far as edits and attachments meet them
    (hub/internal/host/connection.go:275-311, 635-645; hub/internal/host/registry.go:271-295).
  */
module Connections {
  import opened Option
  import opened HostStore

  // --- Dialling ---

  datatype DialError = NotRegistered | Unsupported | StaleRevision | TrustRequired

  datatype Dial = Dials(record: Record) | DialFails(error: DialError)

  /** An old record without a connection revision stands for its revision. */
  function ConnRevOf(r: Record): Revision {
    if r.connRev == 0 then r.revision else r.connRev
  }

  /** The record an SSH connection to a resolved target is made with; it is read again. */
  function DialOutcome(db: DB, target: Record): Dial {
    if target.id !in db.hosts then DialFails(NotRegistered)
    else
      var r := db.hosts[target.id];
      if r.cfg.kind == Local then DialFails(Unsupported)
      else if ConnRevOf(target) != 0 && ConnRevOf(r) != ConnRevOf(target) then DialFails(StaleRevision)
      else if r.cfg.hostKey == [] then DialFails(TrustRequired)
      else Dials(r)
  }

  /** An SSH host is dialled exactly if it is still registered as one, with the
      connection revision that was resolved, and its host key is pinned; and then
      with the record now stored. */
  lemma DialMeaning(db: DB, target: Record, r: Record)
    ensures DialOutcome(db, target) == Dials(r) <==>
            && target.id in db.hosts && r == db.hosts[target.id] && r.cfg.kind != Local
            && (ConnRevOf(target) == 0 || ConnRevOf(r) == ConnRevOf(target)) && r.cfg.hostKey != []
    ensures DialOutcome(db, target) == DialFails(TrustRequired) <==>
            && target.id in db.hosts && db.hosts[target.id].cfg.kind != Local
            && (ConnRevOf(target) == 0 || ConnRevOf(db.hosts[target.id]) == ConnRevOf(target))
            && db.hosts[target.id].cfg.hostKey == []
  {
  }

  /** The record a process on the target is started with; a local one needs none. */
  function Dialed(db: DB, target: Record): Option<Record> {
    if target.cfg.kind == Local then Some(target)
    else match DialOutcome(db, target)
      case Dials(r) => Some(r)
      case DialFails(_) => None
  }

  // --- Pools ---

  /** The pool of each host, a number here, and the pools that leases no longer may use. */
  datatype Pools = Pools(current: map<Id, nat>, revoked: set<nat>)

  function PoolsWithout(p: Pools, host: Id): Pools {
    if host in p.current then Pools(p.current - {host}, p.revoked + {p.current[host]}) else p
  }

  class ConnectionManager {
    var pools: map<Id, nat>
    var revoked: set<nat>

    ghost function View(): Pools
      reads this
    {
      Pools(pools, revoked)
    }

    constructor ()
      ensures View() == Pools(map[], {})
    {
      pools, revoked := map[], {};
    }

    method Invalidate(host: Id)
      modifies this
      ensures View() == PoolsWithout(old(View()), host)
    {
      if host in pools {
        revoked := revoked + {pools[host]};
        pools := pools - {host};
      }
    }
  }
}
