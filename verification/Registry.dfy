/** Creating, editing and removing hosts (hub/internal/host/registry.go:209-268, 297-544),
    and why a connection revision is never used for two configurations.
  */
module Registry {
  import opened Option
  import opened HostStore

  datatype Credentials = Credentials(password: string, privateKey: string, passphrase: string)

  datatype HostInput = HostInput(
    id: Id,
    kind: Kind,
    name: string,
    address: string,
    port: nat,
    username: string,
    credType: string,
    credentials: Credentials,
    hostKey: seq<nat>,
    challengeToken: string)

  datatype Refusal =
    | InvalidId | EmptyName | InvalidKind | IrrelevantFields | EmptyAddress | EmptyUser
    | InvalidCredType | CredentialsRequired | KindIsFixed | TypeNeedsCredentials
    | StoreSays(error: StoreError)

  datatype Result<+T> = Ok(value: T) | Err(reason: Refusal)

  const PASSWORD := "password"
  const PRIVATE_KEY := "privateKey"
  const SSH_PORT := 22
  const MAX_ID := 64

  predicate IdChar(c: char) {
    'a' <= c <= 'z' || 'A' <= c <= 'Z' || '0' <= c <= '9' || c == '-' || c == '_'
  }

  predicate ValidHostId(id: Id) {
    0 < |id| <= MAX_ID && forall i :: 0 <= i < |id| ==> IdChar(id[i])
  }

  /** Unicode white space, as strings.TrimSpace sees it. */
  predicate Space(c: char) {
    var n := c as int;
    || n == 0x20 || 0x09 <= n <= 0x0D || n == 0x85 || n == 0xA0 || n == 0x1680 || 0x2000 <= n <= 0x200A
    || n == 0x2028 || n == 0x2029 || n == 0x202F || n == 0x205F || n == 0x3000
  }

  function TrimOf(p: char -> bool, s: string): string {
    if s == "" then s
    else if p(s[0]) then TrimOf(p, s[1..])
    else if p(s[|s| - 1]) then TrimOf(p, s[..|s| - 1])
    else s
  }

  function Trim(s: string): string {
    TrimOf(Space, s)
  }

  predicate HasIrrelevantFields(input: HostInput) {
    || input.address != "" || input.port != 0 || input.username != "" || input.credType != ""
    || HasSecrets(input.credentials)
    || |input.hostKey| > 0 || input.challengeToken != ""
  }

  predicate HasSecrets(c: Credentials) {
    c.password != "" || c.privateKey != "" || c.passphrase != ""
  }

  /** The sealed bytes are fresh and opaque; the vault is asked only for these. */
  function SealInput(credType: string, c: Credentials, sealed: seq<nat>): Result<seq<nat>> {
    if credType == "" then Ok([])
    else if credType != PASSWORD && credType != PRIVATE_KEY then Err(InvalidCredType)
    else if (credType == PASSWORD && c.password == "") || (credType == PRIVATE_KEY && c.privateKey == "") then
      Err(CredentialsRequired)
    else Ok(sealed)
  }

  const BLANK_LOCAL := Config(Local, "", 0, "", "", [], [])

  function NewRecord(db: DB, input: HostInput, sealed: seq<nat>): Result<Record> {
    var kind := if input.kind != Unset then input.kind
                else if input.address != "" || input.credType != "" then Ssh else Local;
    var (rev, connRev) := NextRevisions(db, input.id);
    if kind != Local && kind != Ssh then Err(InvalidKind)
    else if kind == Local then
      if HasIrrelevantFields(input) then Err(IrrelevantFields)
      else Ok(Record(input.id, rev, connRev, Trim(input.name), BLANK_LOCAL))
    else if Trim(input.address) == "" then Err(EmptyAddress)
    else if Trim(input.username) == "" then Err(EmptyUser)
    else match SealInput(input.credType, input.credentials, sealed)
      case Err(e) => Err(e)
      case Ok(credential) =>
        Ok(Record(input.id, rev, connRev, Trim(input.name),
                  Config(Ssh, Trim(input.address), if input.port == 0 then SSH_PORT else input.port,
                         Trim(input.username), input.credType, credential, input.hostKey)))
  }

  datatype CredentialChoice = CredentialChoice(credType: string, credential: seq<nat>, changed: bool)

  function ResolveCredential(input: HostInput, prior: Config, sealed: seq<nat>): Result<CredentialChoice> {
    if HasSecrets(input.credentials) then
      var credType := if input.credType != "" then input.credType else prior.credType;
      match SealInput(credType, input.credentials, sealed)
      case Err(e) => Err(e)
      case Ok(credential) => Ok(CredentialChoice(credType, credential, true))
    else if input.credType != "" && input.credType != prior.credType then Err(TypeNeedsCredentials)
    else Ok(CredentialChoice(prior.credType, prior.credential, false))
  }

  /** The key to store and whether trust changed; moving the endpoint forgets a
      key that was not given again. */
  function ResolveHostKey(inputKey: seq<nat>, oldKey: seq<nat>, endpointChanged: bool): (seq<nat>, bool) {
    if |inputKey| > 0 then (inputKey, inputKey != oldKey)
    else if endpointChanged then ([], |oldKey| > 0)
    else (oldKey, false)
  }

  function OrElse(given: string, fallback: string): string {
    if given == "" then fallback else given
  }

  function UpdatedSsh(prior: Record, input: HostInput, sealed: seq<nat>): Result<Record> {
    var address := OrElse(Trim(input.address), prior.cfg.address);
    var username := OrElse(Trim(input.username), prior.cfg.username);
    var port := if input.port != 0 then input.port else if prior.cfg.port != 0 then prior.cfg.port else SSH_PORT;
    match ResolveCredential(input, prior.cfg, sealed)
    case Err(e) => Err(e)
    case Ok(choice) =>
      var endpointChanged := address != prior.cfg.address || port != prior.cfg.port;
      var (hostKey, trustChanged) := ResolveHostKey(input.hostKey, prior.cfg.hostKey, endpointChanged);
      var rev := prior.revision + 1;
      var changed := endpointChanged || username != prior.cfg.username || choice.changed || trustChanged;
      Ok(Record(input.id, rev, if changed then rev else prior.connRev, Trim(input.name),
                Config(Ssh, address, port, username, choice.credType, choice.credential, hostKey)))
  }

  function UpdatedRecord(db: DB, input: HostInput, sealed: seq<nat>, expected: Revision): Result<Record> {
    if input.id !in db.hosts then Err(StoreSays(NotFound))
    else
      var prior := db.hosts[input.id];
      var kind := KindOf(prior.id, prior.cfg.kind);
      if prior.revision != expected then Err(StoreSays(Stale))
      else if input.kind != Unset && input.kind != kind then Err(KindIsFixed)
      else if kind == Local then
        if HasIrrelevantFields(input) then Err(IrrelevantFields)
        else Ok(Record(input.id, prior.revision + 1, prior.connRev, Trim(input.name), BLANK_LOCAL))
      else UpdatedSsh(prior, input, sealed)
  }

  /** The record a Save would store: created when no revision is expected. */
  function Candidate(db: DB, input: HostInput, sealed: seq<nat>, expected: Revision): Result<Record> {
    if !ValidHostId(input.id) then Err(InvalidId)
    else if Trim(input.name) == "" then Err(EmptyName)
    else if expected == 0 then NewRecord(db, input, sealed)
    else UpdatedRecord(db, input, sealed, expected)
  }

  function SaveResult(db: DB, input: HostInput, sealed: seq<nat>, expected: Revision): Result<Record> {
    match Candidate(db, input, sealed, expected)
    case Err(e) => Err(e)
    case Ok(r) =>
      match PutOutcome(db, r, expected)
      case Failed(e) => Err(StoreSays(e))
      case Done => Ok(r)
  }

  function AfterSave(db: DB, input: HostInput, sealed: seq<nat>, expected: Revision): DB {
    match Candidate(db, input, sealed, expected)
    case Err(_) => db
    case Ok(r) => AfterPut(db, r, expected)
  }

  /** Zero expects nothing in particular of a removal. */
  function RemoveResult(db: DB, id: Id, expected: Revision): Outcome {
    if id !in db.hosts then Failed(NotFound)
    else if expected > 0 && db.hosts[id].revision != expected then Failed(Stale)
    else Done
  }

  function AfterRemove(db: DB, id: Id, expected: Revision): DB {
    if RemoveResult(db, id, expected).Done? then AfterDelete(db, id, db.hosts[id].revision) else db
  }

  // --- The registry object ---

  class HostRegistry {
    const store: Store

    constructor (store: Store)
      ensures this.store == store
    {
      this.store := store;
    }

    method SealInputCredential(credType: string, c: Credentials, sealed: seq<nat>) returns (r: Result<seq<nat>>)
      ensures r == SealInput(credType, c, sealed)
    {
      if credType == "" {
        return Ok([]);
      }
      if credType != PASSWORD && credType != PRIVATE_KEY {
        return Err(InvalidCredType);
      }
      if (credType == PASSWORD && c.password == "") || (credType == PRIVATE_KEY && c.privateKey == "") {
        return Err(CredentialsRequired);
      }
      return Ok(sealed);
    }

    method SaveNew(input: HostInput, sealed: seq<nat>) returns (r: Result<Record>)
      requires ValidHostId(input.id) && Trim(input.name) != ""
      modifies store
      ensures r == SaveResult(old(store.View()), input, sealed, 0)
      ensures store.View() == AfterSave(old(store.View()), input, sealed, 0)
    {
      var kind := input.kind;
      if kind == Unset {
        kind := if input.address != "" || input.credType != "" then Ssh else Local;
      }
      if kind != Local && kind != Ssh {
        return Err(InvalidKind);
      }
      var (rev, connRev) := NextRevisions(store.View(), input.id);
      var cfg := BLANK_LOCAL;
      if kind == Local {
        if HasIrrelevantFields(input) {
          return Err(IrrelevantFields);
        }
      } else {
        var address, username := Trim(input.address), Trim(input.username);
        if address == "" {
          return Err(EmptyAddress);
        }
        if username == "" {
          return Err(EmptyUser);
        }
        var port := if input.port == 0 then SSH_PORT else input.port;
        var credential := SealInputCredential(input.credType, input.credentials, sealed);
        if credential.Err? {
          return Err(credential.reason);
        }
        cfg := Config(Ssh, address, port, username, input.credType, credential.value, input.hostKey);
      }
      var created := Record(input.id, rev, connRev, Trim(input.name), cfg);
      var o := store.Put(created, 0);
      r := if o.Done? then Ok(created) else Err(StoreSays(o.error));
    }

    method ResolveCredentialUpdate(input: HostInput, prior: Config, sealed: seq<nat>)
      returns (r: Result<CredentialChoice>)
      ensures r == ResolveCredential(input, prior, sealed)
    {
      var credType := prior.credType;
      if HasSecrets(input.credentials) {
        if input.credType != "" {
          credType := input.credType;
        }
        var credential := SealInputCredential(credType, input.credentials, sealed);
        if credential.Err? {
          return Err(credential.reason);
        }
        return Ok(CredentialChoice(credType, credential.value, true));
      }
      if input.credType != "" && input.credType != prior.credType {
        return Err(TypeNeedsCredentials);
      }
      return Ok(CredentialChoice(credType, prior.credential, false));
    }

    method SaveUpdateSsh(input: HostInput, sealed: seq<nat>, prior: Record) returns (r: Result<Record>)
      ensures r == UpdatedSsh(prior, input, sealed)
    {
      var address, username, port := Trim(input.address), Trim(input.username), input.port;
      if address == "" {
        address := prior.cfg.address;
      }
      if username == "" {
        username := prior.cfg.username;
      }
      if port == 0 {
        port := prior.cfg.port;
      }
      if port == 0 {
        port := SSH_PORT;
      }
      var choice := ResolveCredentialUpdate(input, prior.cfg, sealed);
      if choice.Err? {
        return Err(choice.reason);
      }
      var endpointChanged := address != prior.cfg.address || port != prior.cfg.port;
      var hostKey, trustChanged := prior.cfg.hostKey, false;
      if |input.hostKey| > 0 {
        hostKey, trustChanged := input.hostKey, input.hostKey != prior.cfg.hostKey;
      } else if endpointChanged {
        hostKey, trustChanged := [], |prior.cfg.hostKey| > 0;
      }
      var revision, connRev := prior.revision + 1, prior.connRev;
      if endpointChanged || username != prior.cfg.username || choice.value.changed || trustChanged {
        connRev := revision;
      }
      var cfg := Config(Ssh, address, port, username, choice.value.credType, choice.value.credential, hostKey);
      return Ok(Record(input.id, revision, connRev, Trim(input.name), cfg));
    }

    method SaveUpdate(input: HostInput, sealed: seq<nat>, expected: Revision) returns (r: Result<Record>)
      requires ValidHostId(input.id) && Trim(input.name) != "" && expected > 0
      modifies store
      ensures r == SaveResult(old(store.View()), input, sealed, expected)
      ensures store.View() == AfterSave(old(store.View()), input, sealed, expected)
    {
      if input.id !in store.hosts {
        return Err(StoreSays(NotFound));
      }
      var prior := store.hosts[input.id];
      if prior.revision != expected {
        return Err(StoreSays(Stale));
      }
      var kind := prior.cfg.kind;
      if kind == Unset {
        kind := if prior.id == LOCAL_ID then Local else Ssh;
      }
      if input.kind != Unset && input.kind != kind {
        return Err(KindIsFixed);
      }
      if kind == Local {
        if HasIrrelevantFields(input) {
          return Err(IrrelevantFields);
        }
        r := Ok(Record(input.id, prior.revision + 1, prior.connRev, Trim(input.name), BLANK_LOCAL));
      } else {
        r := SaveUpdateSsh(input, sealed, prior);
        if r.Err? {
          return;
        }
      }
      var o := store.Put(r.value, expected);
      r := if o.Done? then r else Err(StoreSays(o.error));
    }

    method Save(input: HostInput, sealed: seq<nat>, expected: Revision) returns (r: Result<Record>)
      modifies store
      ensures r == SaveResult(old(store.View()), input, sealed, expected)
      ensures store.View() == AfterSave(old(store.View()), input, sealed, expected)
    {
      if !ValidHostId(input.id) {
        return Err(InvalidId);
      }
      if Trim(input.name) == "" {
        return Err(EmptyName);
      }
      if expected == 0 {
        r := SaveNew(input, sealed);
      } else {
        r := SaveUpdate(input, sealed, expected);
      }
    }

    method Remove(id: Id, expected: Revision) returns (o: Outcome)
      modifies store
      ensures o == RemoveResult(old(store.View()), id, expected)
      ensures store.View() == AfterRemove(old(store.View()), id, expected)
    {
      if id !in store.hosts {
        return Failed(NotFound);
      }
      var rec := store.hosts[id];
      if expected > 0 && rec.revision != expected {
        return Failed(Stale);
      }
      o := store.Delete(id, rec.revision);
    }
  }

  // --- Every history of edits ---

  datatype Op =
    | Save(input: HostInput, sealed: seq<nat>, expected: Revision)
    | Remove(id: Id, expected: Revision)
    | SetDefault(target: Option<Id>, expected: Revision)

  /** The database and every record ever committed to it. */
  datatype History = History(db: DB, log: set<Record>)

  function Commit(h: History, op: Op): History {
    match op
    case Save(input, sealed, expected) =>
      var r := SaveResult(h.db, input, sealed, expected);
      if r.Err? then h else History(AfterSave(h.db, input, sealed, expected), h.log + {r.value})
    case Remove(id, expected) => h.(db := AfterRemove(h.db, id, expected))
    case SetDefault(target, expected) => h.(db := AfterDefault(h.db, target, expected))
  }

  ghost predicate OneLocal(hosts: map<Id, Record>) {
    forall i, j :: i in hosts && j in hosts && hosts[i].cfg.kind == Local && hosts[j].cfg.kind == Local ==> i == j
  }

  /** A version-2 database: revisions are positive, a host's watermark is its own
      revision, at most one host is local and a local host has no SSH settings. */
  ghost predicate SchemaTwo(db: DB) {
    && (forall id :: id in db.hosts ==>
                         && db.hosts[id].id == id && id != ""
                         && 0 < db.hosts[id].connRev <= db.hosts[id].revision
                         && (db.hosts[id].cfg == BLANK_LOCAL || db.hosts[id].cfg.kind == Ssh)
                         && id in db.marks
                         && db.marks[id].revision == db.hosts[id].revision
                         && db.marks[id].connRev >= db.hosts[id].connRev)
    && (forall id :: id in db.marks ==> db.marks[id].connRev <= db.marks[id].revision)
    && OneLocal(db.hosts)
    && (db.settings.defaultHost.Some? ==> db.settings.defaultHost.value in db.hosts)
  }

  ghost predicate Run(ops: seq<Op>, h: History) {
    if ops == [] then SchemaTwo(h.db) && h.log == h.db.hosts.Values
    else
      var last := |ops| - 1;
      exists before :: Run(ops[..last], before) && h == Commit(before, ops[last])
  }

  ghost predicate Reachable(h: History) {
    exists ops :: Run(ops, h)
  }

  ghost predicate LogBelowMarks(h: History) {
    forall r :: r in h.log ==>
                    && r.id in h.db.marks
                    && r.connRev <= h.db.marks[r.id].connRev
                    && r.revision <= h.db.marks[r.id].revision
  }

  ghost predicate LogAgrees(log: set<Record>) {
    && (forall r, q :: r in log && q in log && r.id == q.id && r.connRev == q.connRev ==> r.cfg == q.cfg)
    && (forall r, q :: r in log && q in log && r.id == q.id && r.revision == q.revision ==> r == q)
  }

  ghost predicate HostsLogged(h: History) {
    forall id :: id in h.db.hosts ==> h.db.hosts[id] in h.log
  }

  ghost predicate Inv(h: History) {
    && SchemaTwo(h.db)
    && HostsLogged(h)
    && LogBelowMarks(h)
    && LogAgrees(h.log)
  }

  /** The next record of a host: the next revision, and either the connection
      revision and configuration it replaces or one above all before. */
  ghost predicate IsNext(db: DB, r: Record) {
    var mark := if r.id in db.marks then db.marks[r.id] else Watermark(0, 0);
    && r.id != "" && r.revision == mark.revision + 1
    && 0 < r.connRev <= r.revision
    && (r.cfg == BLANK_LOCAL || r.cfg.kind == Ssh)
    && (|| r.connRev > mark.connRev
        || (&& r.id in db.hosts && r.connRev == db.hosts[r.id].connRev && r.cfg == db.hosts[r.id].cfg))
  }

  /** Whatever Save accepts is the next record of its host. */
  lemma SavedIsNext(db: DB, input: HostInput, sealed: seq<nat>, expected: Revision)
    requires SchemaTwo(db) && SaveResult(db, input, sealed, expected).Ok?
    ensures var r := SaveResult(db, input, sealed, expected).value;
            r.id == input.id && WithKind(r) == r && IsNext(db, r)
  {
    if input.id in db.marks {
      assert db.marks[input.id].connRev <= db.marks[input.id].revision;
    }
  }

  lemma PutKeepsOneLocal(hosts: map<Id, Record>, r: Record)
    requires OneLocal(hosts) && (r.cfg.kind == Local ==> !HasLocal(hosts - {r.id}))
    ensures OneLocal(hosts[r.id := r])
  {
    var hosts', others := hosts[r.id := r], hosts - {r.id};
    forall i, j | && i in hosts' && j in hosts' && hosts'[i].cfg.kind == Local && hosts'[j].cfg.kind == Local
      ensures i == j
    {
      assert i != r.id ==> i in others && others[i].cfg.kind == Local;
      assert j != r.id ==> j in others && others[j].cfg.kind == Local;
    }
  }

  lemma PutKeepsSchema(db: DB, r: Record, db': DB)
    requires SchemaTwo(db) && IsNext(db, r)
    requires db' == db.(hosts := db.hosts[r.id := r], marks := Marked(db.marks, r))
    requires r.cfg.kind == Local ==> !HasLocal(db.hosts - {r.id})
    ensures SchemaTwo(db')
  {
    PutKeepsOneLocal(db.hosts, r);
  }

  lemma NextDiffers(h: History, r: Record, q: Record)
    requires Inv(h) && IsNext(h.db, r) && q in h.log && q.id == r.id
    ensures q.revision < r.revision && (q.connRev == r.connRev ==> q.cfg == r.cfg)
  {
    if r.id in h.db.hosts {
      assert h.db.hosts[r.id] in h.log && h.db.hosts[r.id].id == r.id;
    }
  }

  lemma PutKeepsLog(h: History, r: Record, h': History)
    requires LogBelowMarks(h) && LogAgrees(h.log)
    requires forall q :: q in h.log && q.id == r.id ==>
               q.revision < r.revision && (q.connRev == r.connRev ==> q.cfg == r.cfg)
    requires h'.log == h.log + {r}
    requires h'.db.marks == Marked(h.db.marks, r)
    ensures LogBelowMarks(h') && LogAgrees(h'.log)
  {
  }

  lemma SaveKeepsInv(h: History, input: HostInput, sealed: seq<nat>, expected: Revision)
    requires Inv(h) && SaveResult(h.db, input, sealed, expected).Ok?
    ensures Inv(Commit(h, Save(input, sealed, expected)))
  {
    SavedIsNext(h.db, input, sealed, expected);
    var r := SaveResult(h.db, input, sealed, expected).value;
    var h' := Commit(h, Save(input, sealed, expected));
    assert r.cfg.kind == Local ==> !HasLocal(h.db.hosts - {r.id}) by {
      assert r.cfg.kind == Local && expected == 0 ==> !HasLocal(h.db.hosts);
    }
    PutKeepsSchema(h.db, r, h'.db);
    forall q | q in h.log && q.id == r.id
      ensures q.revision < r.revision && (q.connRev == r.connRev ==> q.cfg == r.cfg)
    {
      NextDiffers(h, r, q);
    }
    PutKeepsLog(h, r, h');
  }

  lemma RemoveKeepsInv(h: History, id: Id, expected: Revision)
    requires Inv(h)
    ensures Inv(Commit(h, Remove(id, expected)))
  {
    var h' := Commit(h, Remove(id, expected));
    if RemoveResult(h.db, id, expected).Done? {
      RemoveFrame(h.db, id, expected);
      RemovedKeeps(h, h', id);
    }
  }

  lemma RemoveFrame(db: DB, id: Id, expected: Revision)
    requires SchemaTwo(db) && RemoveResult(db, id, expected).Done?
    ensures var db' := AfterRemove(db, id, expected);
            && db'.hosts == db.hosts - {id} && db'.marks == db.marks
            && db'.settings.defaultHost == if db.settings.defaultHost == Some(id) then None else db.settings.defaultHost
  {
    assert db.hosts[id].id == id;
  }

  lemma RemovedKeeps(h: History, h': History, id: Id)
    requires Inv(h) && h'.log == h.log && h'.db.hosts == h.db.hosts - {id} && h'.db.marks == h.db.marks
    requires h'.db.settings.defaultHost
             == if h.db.settings.defaultHost == Some(id) then None else h.db.settings.defaultHost
    ensures Inv(h')
  {
    assert SchemaTwo(h'.db) by { RemovedKeepsSchema(h.db, h'.db, id); }
    assert HostsLogged(h');
    assert LogBelowMarks(h');
  }

  lemma RemovedKeepsSchema(db: DB, db': DB, id: Id)
    requires SchemaTwo(db) && db'.hosts == db.hosts - {id} && db'.marks == db.marks
    requires db'.settings.defaultHost == if db.settings.defaultHost == Some(id) then None else db.settings.defaultHost
    ensures SchemaTwo(db')
  {
  }

  lemma StartKeepsInv(h: History)
    requires SchemaTwo(h.db) && h.log == h.db.hosts.Values
    ensures Inv(h)
  {
    forall r | r in h.log ensures r.id in h.db.hosts && h.db.hosts[r.id] == r {
      var i :| i in h.db.hosts && h.db.hosts[i] == r;
    }
  }

  lemma {:induction false} ReachableInv(ops: seq<Op>, h: History)
    requires Run(ops, h)
    ensures Inv(h)
  {
    if ops == [] {
      StartKeepsInv(h);
    } else {
      var last := |ops| - 1;
      var before :| Run(ops[..last], before) && h == Commit(before, ops[last]);
      ReachableInv(ops[..last], before);
      CommitKeepsInv(before, ops[last]);
    }
  }

  lemma CommitKeepsInv(h: History, op: Op)
    requires Inv(h)
    ensures Inv(Commit(h, op))
  {
    match op
    case Save(input, sealed, expected) =>
      if SaveResult(h.db, input, sealed, expected).Ok? {
        SaveKeepsInv(h, input, sealed, expected);
      }
    case Remove(id, expected) => RemoveKeepsInv(h, id, expected);
    case SetDefault(target, expected) => DefaultKeepsInv(h, target, expected);
  }

  lemma DefaultKeepsInv(h: History, target: Option<Id>, expected: Revision)
    requires Inv(h)
    ensures Inv(Commit(h, SetDefault(target, expected)))
  {
    DefaultNamesAHost(h.db, target, expected);
    SettingsKeepInv(h, Commit(h, SetDefault(target, expected)));
  }

  lemma DefaultNamesAHost(db: DB, target: Option<Id>, expected: Revision)
    requires db.settings.defaultHost.Some? ==> db.settings.defaultHost.value in db.hosts
    ensures var db' := AfterDefault(db, target, expected);
            && db'.hosts == db.hosts && db'.marks == db.marks
            && (db'.settings.defaultHost.Some? ==> db'.settings.defaultHost.value in db.hosts)
  {
  }

  lemma SettingsKeepInv(h: History, h': History)
    requires Inv(h)
    requires h'.db.hosts == h.db.hosts && h'.db.marks == h.db.marks && h'.log == h.log
    requires h'.db.settings.defaultHost.Some? ==> h'.db.settings.defaultHost.value in h.db.hosts
    ensures Inv(h')
  {
  }

  // --- Main results ---

  /** No revision reuse: over every history of create, edit, remove and
      re-create, one host identifier and connection revision means one
      connection configuration, and a record revision means one record. */
  lemma NoRevisionReuse(h: History, r: Record, q: Record)
    requires Reachable(h) && r in h.log && q in h.log && r.id == q.id
    ensures r.connRev == q.connRev ==> r.cfg == q.cfg
    ensures r.revision == q.revision ==> r == q
  {
    var ops :| Run(ops, h);
    ReachableInv(ops, h);
  }

  /** At most one host is local, and the default host is registered. */
  lemma RegistryShape(h: History)
    requires Reachable(h)
    ensures OneLocal(h.db.hosts)
    ensures h.db.settings.defaultHost.Some? ==> h.db.settings.defaultHost.value in h.db.hosts
  {
    var ops :| Run(ops, h);
    ReachableInv(ops, h);
  }

  /** An accepted edit keeps the connection revision only if the configuration
      is unchanged, and changes it only if the configuration changed or secrets
      were supplied. */
  lemma EditBumpsConnection(h: History, input: HostInput, sealed: seq<nat>, expected: Revision)
    requires Reachable(h) && expected > 0 && SaveResult(h.db, input, sealed, expected).Ok?
    ensures input.id in h.db.hosts
    ensures var prior, r := h.db.hosts[input.id], SaveResult(h.db, input, sealed, expected).value;
            && (r.cfg != prior.cfg ==> r.connRev != prior.connRev)
            && (r.connRev != prior.connRev ==> r.cfg != prior.cfg || HasSecrets(input.credentials))
  {
    var ops :| Run(ops, h);
    ReachableInv(ops, h);
  }
}
