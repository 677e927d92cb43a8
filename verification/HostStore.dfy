/** The host table and its revision watermarks (hub/internal/host/store.go:538-809).

    A transaction is one atomic step.  The store keeps, per host identifier, the
    highest revisions ever written, and keeps them after the host is removed.
  */
module HostStore {
  import opened Option

  type Id = string
  type Revision = nat

  /** Unset is the empty string of an old record or a request. */
  datatype Kind = Unset | Local | Ssh | Other

  /** Everything a connection is made with; a sealed credential is opaque bytes. */
  datatype Config = Config(
    kind: Kind,
    address: string,
    port: nat,
    username: string,
    credType: string,
    credential: seq<nat>,
    hostKey: seq<nat>)

  datatype Record = Record(id: Id, revision: Revision, connRev: Revision, name: string, cfg: Config)

  datatype Watermark = Watermark(revision: Revision, connRev: Revision)

  datatype Settings = Settings(defaultHost: Option<Id>, revision: Revision)

  datatype DB = DB(hosts: map<Id, Record>, marks: map<Id, Watermark>, settings: Settings)

  datatype StoreError = InvalidRecord | Stale | DuplicateLocal | NotFound

  datatype Outcome = Done | Failed(error: StoreError)

  const LOCAL_ID: Id := "local"

  function Max(a: nat, b: nat): nat {
    if a < b then b else a
  }

  /** What an unset connection type stands for. */
  function KindOf(id: Id, kind: Kind): Kind {
    if kind != Unset then kind else if id == LOCAL_ID then Local else Ssh
  }

  predicate Storable(r: Record, expected: Revision) {
    && r.id != "" && r.revision > 0 && 0 < r.connRev <= r.revision
    && (expected > 0 ==> r.revision == expected + 1)
    && (r.cfg.kind == Local || r.cfg.kind == Ssh)
  }

  predicate HasLocal(hosts: map<Id, Record>) {
    exists id :: id in hosts && hosts[id].cfg.kind == Local
  }

  function Marked(marks: map<Id, Watermark>, r: Record): map<Id, Watermark> {
    var prior := if r.id in marks then marks[r.id] else Watermark(0, 0);
    marks[r.id := Watermark(Max(prior.revision, r.revision), Max(prior.connRev, r.connRev))]
  }

  function WithKind(r: Record): Record {
    r.(cfg := r.cfg.(kind := KindOf(r.id, r.cfg.kind)))
  }

  /** What a Put is refused for; the unique index allows one local host. */
  function PutOutcome(db: DB, raw: Record, expected: Revision): Outcome {
    var r := WithKind(raw);
    if !Storable(r, expected) then Failed(InvalidRecord)
    else if expected == 0 then
      if r.cfg.kind == Local && HasLocal(db.hosts) then Failed(DuplicateLocal)
      else if r.id in db.hosts then Failed(Stale)
      else Done
    else if r.id !in db.hosts || db.hosts[r.id].revision != expected then Failed(Stale)
    else if r.cfg.kind == Local && HasLocal(db.hosts - {r.id}) then Failed(DuplicateLocal)
    else Done
  }

  function AfterPut(db: DB, raw: Record, expected: Revision): DB {
    var r := WithKind(raw);
    if PutOutcome(db, raw, expected).Done? then db.(hosts := db.hosts[r.id := r], marks := Marked(db.marks, r)) else db
  }

  function DeleteOutcome(db: DB, id: Id, expected: Revision): Outcome {
    if id in db.hosts && db.hosts[id].revision == expected then Done else Failed(Stale)
  }

  /** Removing the default host clears the default in the same transaction. */
  function AfterDelete(db: DB, id: Id, expected: Revision): DB {
    if DeleteOutcome(db, id, expected).Done? then
      DB(db.hosts - {id}, Marked(db.marks, db.hosts[id]),
         if db.settings.defaultHost == Some(id) then Settings(None, db.settings.revision + 1) else db.settings)
    else db
  }

  function NextRevisions(db: DB, id: Id): (Revision, Revision) {
    if id !in db.marks || db.marks[id].revision == 0 then (1, 1)
    else (db.marks[id].revision + 1, db.marks[id].connRev + 1)
  }

  function DefaultOutcome(db: DB, target: Option<Id>, expected: Revision): Outcome {
    if expected == 0 || db.settings.revision != expected then Failed(Stale)
    else if target.Some? && target.value != "" && target.value !in db.hosts then Failed(NotFound)
    else Done
  }

  function AfterDefault(db: DB, target: Option<Id>, expected: Revision): DB {
    db.(settings := if DefaultOutcome(db, target, expected).Done?
                    then Settings(if target == Some("") then None else target, db.settings.revision + 1)
                    else db.settings)
  }

  /** The store, its tables updated in place inside a transaction. */
  class Store {
    var hosts: map<Id, Record>
    var marks: map<Id, Watermark>
    var settings: Settings

    function View(): DB
      reads this
    {
      DB(hosts, marks, settings)
    }

    constructor (db: DB)
      ensures View() == db
    {
      hosts, marks, settings := db.hosts, db.marks, db.settings;
    }

    method CountLocal(table: map<Id, Record>) returns (n: nat)
      ensures n > 0 <==> HasLocal(table)
    {
      n := 0;
      var todo := table.Keys;
      while todo != {}
        invariant todo <= table.Keys
        invariant n > 0 <==> exists id :: id in table && id !in todo && table[id].cfg.kind == Local
        decreases todo
      {
        var id :| id in todo;
        if table[id].cfg.kind == Local {
          n := n + 1;
        }
        todo := todo - {id};
      }
    }

    method Watermarked(r: Record)
      modifies this`marks
      ensures marks == Marked(old(marks), r)
    {
      var prior := if r.id in marks then marks[r.id] else Watermark(0, 0);
      marks := marks[r.id := Watermark(Max(prior.revision, r.revision), Max(prior.connRev, r.connRev))];
    }

    method Put(raw: Record, expected: Revision) returns (o: Outcome)
      modifies this
      ensures o == PutOutcome(old(View()), raw, expected)
      ensures View() == AfterPut(old(View()), raw, expected)
    {
      var r := raw;
      if r.cfg.kind == Unset {
        r := r.(cfg := r.cfg.(kind := if r.id == LOCAL_ID then Local else Ssh));
      }
      if !Storable(r, expected) {
        return Failed(InvalidRecord);
      }
      if r.cfg.kind == Local && expected == 0 {
        var count := CountLocal(hosts);
        if count > 0 {
          return Failed(DuplicateLocal);
        }
      }
      if expected == 0 {
        if r.id in hosts {
          return Failed(Stale);
        }
      } else {
        if r.id !in hosts || hosts[r.id].revision != expected {
          return Failed(Stale);
        }
        if r.cfg.kind == Local {
          var others := CountLocal(hosts - {r.id});
          if others > 0 {
            return Failed(DuplicateLocal);
          }
        }
      }
      hosts := hosts[r.id := r];
      Watermarked(r);
      return Done;
    }

    method Delete(id: Id, expected: Revision) returns (o: Outcome)
      modifies this
      ensures o == DeleteOutcome(old(View()), id, expected)
      ensures View() == AfterDelete(old(View()), id, expected)
    {
      if id !in hosts || hosts[id].revision != expected {
        return Failed(Stale);
      }
      Watermarked(hosts[id]);
      hosts := hosts - {id};
      if settings.defaultHost == Some(id) {
        settings := Settings(None, settings.revision + 1);
      }
      return Done;
    }
  }
}
