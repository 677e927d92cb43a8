/** What an accepted save stores, and what is accepted
    (hub/internal/host/registry.go:297-544).
  */
module HostEdits {
  import opened Option
  import opened HostStore
  import opened Registry

  // --- White space ---

  predicate AllAre(p: char -> bool, s: string, i: nat, j: nat)
    requires i <= j <= |s|
  {
    forall k :: i <= k < j ==> p(s[k])
  }

  /** Everything outside i to j is p, and what is inside is t. */
  predicate Stripped(p: char -> bool, s: string, i: nat, j: nat, t: string) {
    i <= j <= |s| && s[i..j] == t && AllAre(p, s, 0, i) && AllAre(p, s, j, |s|)
  }

  lemma OneBefore(p: char -> bool, c: char, s: string, i: nat, j: nat, t: string)
    requires p(c) && Stripped(p, s, i, j, t)
    ensures Stripped(p, [c] + s, i + 1, j + 1, t)
  {
    var s' := [c] + s;
    assert forall k :: 0 <= k < |s| ==> s'[k + 1] == s[k];
    assert s'[i + 1..j + 1] == s[i..j];
    forall k | 0 <= k < i + 1 ensures p(s'[k]) { assert k > 0 ==> s'[k] == s[k - 1]; }
    forall k | j + 1 <= k < |s'| ensures p(s'[k]) { assert s'[k] == s[k - 1]; }
  }

  lemma OneBehind(p: char -> bool, c: char, s: string, i: nat, j: nat, t: string)
    requires p(c) && Stripped(p, s, i, j, t)
    ensures Stripped(p, s + [c], i, j, t)
  {
    assert (s + [c])[i..j] == s[i..j];
  }

  lemma {:induction false} TrimBy(p: char -> bool, s: string) returns (i: nat, j: nat)
    ensures Stripped(p, s, i, j, TrimOf(p, s))
    ensures TrimOf(p, s) != "" ==> !p(TrimOf(p, s)[0]) && !p(TrimOf(p, s)[|TrimOf(p, s)| - 1])
    decreases |s|
  {
    i, j := 0, |s|;
    if s != "" {
      var last := |s| - 1;
      if p(s[0]) {
        i, j := TrimBy(p, s[1..]);
        OneBefore(p, s[0], s[1..], i, j, TrimOf(p, s));
        assert [s[0]] + s[1..] == s;
        i, j := i + 1, j + 1;
      } else if p(s[last]) {
        i, j := TrimBy(p, s[..last]);
        OneBehind(p, s[last], s[..last], i, j, TrimOf(p, s));
        assert s[..last] + [s[last]] == s;
      }
    }
  }

  /** Trimming takes white space off both ends and nothing else. */
  lemma TrimMeaning(s: string) returns (i: nat, j: nat)
    ensures i <= j <= |s| && s[i..j] == Trim(s)
    ensures AllAre(Space, s, 0, i) && AllAre(Space, s, j, |s|)
    ensures Trim(s) != "" ==> !Space(Trim(s)[0]) && !Space(Trim(s)[|Trim(s)| - 1])
  {
    i, j := TrimBy(Space, s);
  }

  // --- What is stored ---

  /** A string that is given is stored trimmed; a blank one keeps what there was. */
  predicate Kept(given: string, prior: string, stored: string) {
    && (Trim(given) != "" ==> stored == Trim(given))
    && (Trim(given) == "" ==> stored == prior)
  }

  /** A save stores its record under its identifier and touches no other. */
  lemma SaveStores(db: DB, input: HostInput, sealed: seq<nat>, expected: Revision)
    requires SchemaTwo(db) && SaveResult(db, input, sealed, expected).Ok?
    ensures var r := SaveResult(db, input, sealed, expected).value;
            && r.id == input.id && r.name == Trim(input.name) && r.name != ""
            && AfterSave(db, input, sealed, expected).hosts == db.hosts[input.id := r]
            && AfterSave(db, input, sealed, expected).settings == db.settings
            && (expected == 0 <==> input.id !in db.hosts)
            && (expected > 0 ==> db.hosts[input.id].revision == expected && r.revision == expected + 1)
  {
    SavedIsNext(db, input, sealed, expected);
  }

  /** An accepted edit of an SSH host, field by field. */
  lemma EditStoresWhatIsGiven(db: DB, input: HostInput, sealed: seq<nat>, expected: Revision)
    requires SchemaTwo(db) && SaveResult(db, input, sealed, expected).Ok?
    requires expected > 0 && db.hosts[input.id].cfg.kind == Ssh
    ensures var r, prior := SaveResult(db, input, sealed, expected).value, db.hosts[input.id].cfg;
            && r.cfg.kind == Ssh
            && Kept(input.address, prior.address, r.cfg.address)
            && Kept(input.username, prior.username, r.cfg.username)
            && (input.port != 0 ==> r.cfg.port == input.port)
            && (input.port == 0 && prior.port != 0 ==> r.cfg.port == prior.port)
            && (input.port == 0 && prior.port == 0 ==> r.cfg.port == 22)
    ensures var r, prior := SaveResult(db, input, sealed, expected).value, db.hosts[input.id].cfg;
            && (input.credType != "" ==> r.cfg.credType == input.credType)
            && (input.credType == "" ==> r.cfg.credType == prior.credType)
            && (NoSecret(input.credentials) ==> r.cfg.credential == prior.credential)
            && (!NoSecret(input.credentials) ==> r.cfg.credential == if r.cfg.credType == "" then [] else sealed)
    ensures var r, prior := SaveResult(db, input, sealed, expected).value, db.hosts[input.id].cfg;
            var moved := r.cfg.address != prior.address || r.cfg.port != prior.port;
            && (input.hostKey != [] ==> r.cfg.hostKey == input.hostKey)
            && (input.hostKey == [] && moved ==> r.cfg.hostKey == [])
            && (input.hostKey == [] && !moved ==> r.cfg.hostKey == prior.hostKey)
  {
  }

  predicate NoSecret(c: Credentials) {
    c.password == "" && c.privateKey == "" && c.passphrase == ""
  }

  /** The local host keeps nothing but its name. */
  lemma LocalStaysBlank(db: DB, input: HostInput, sealed: seq<nat>, expected: Revision)
    requires SchemaTwo(db) && SaveResult(db, input, sealed, expected).Ok?
    requires expected > 0 && db.hosts[input.id].cfg.kind == Local
    ensures var r := SaveResult(db, input, sealed, expected).value;
            && r.cfg == Config(Local, "", 0, "", "", [], []) && r.connRev == db.hosts[input.id].connRev
  {
  }

  /** What a new host becomes where nothing is said. */
  function KindMeant(input: HostInput): Kind {
    if input.kind != Unset then input.kind
    else if input.address == "" && input.credType == "" then Local
    else Ssh
  }

  /** An accepted creation, field by field. */
  lemma CreationStoresWhatIsGiven(db: DB, input: HostInput, sealed: seq<nat>)
    requires SchemaTwo(db) && SaveResult(db, input, sealed, 0).Ok?
    ensures var r := SaveResult(db, input, sealed, 0).value;
            && r.cfg.kind == KindMeant(input)
            && (r.cfg.kind == Local ==> r.cfg == Config(Local, "", 0, "", "", [], []))
            && (r.cfg.kind == Ssh ==>
                  && r.cfg.address == Trim(input.address) && r.cfg.address != ""
                  && r.cfg.username == Trim(input.username) && r.cfg.username != ""
                  && r.cfg.port == (if input.port == 0 then 22 else input.port)
                  && r.cfg.credType == input.credType && r.cfg.hostKey == input.hostKey
                  && r.cfg.credential == if input.credType == "" then [] else sealed)
  {
  }

  // --- What is accepted ---

  predicate Named(input: HostInput) {
    && 0 < |input.id| <= 64 && (forall c :: c in input.id ==> IdChar(c))
    && Trim(input.name) != ""
  }

  predicate NothingForSsh(input: HostInput) {
    && input.address == "" && input.port == 0 && input.username == "" && input.credType == ""
    && NoSecret(input.credentials) && input.hostKey == [] && input.challengeToken == ""
  }

  /** The secret a credential type stands for is given. */
  predicate SecretGiven(credType: string, c: Credentials) {
    || credType == ""
    || (credType == "password" && c.password != "")
    || (credType == "privateKey" && c.privateKey != "")
  }

  /** An edit is accepted exactly if the host is still as the caller saw it, keeps its
      kind, and what is given fits that kind. */
  lemma EditAccepted(db: DB, input: HostInput, sealed: seq<nat>, expected: Revision)
    requires SchemaTwo(db) && expected > 0
    ensures SaveResult(db, input, sealed, expected).Ok? <==>
            && Named(input) && input.id in db.hosts && db.hosts[input.id].revision == expected
            && (input.kind == Unset || input.kind == db.hosts[input.id].cfg.kind)
            && (db.hosts[input.id].cfg.kind == Local ==> NothingForSsh(input))
            && (db.hosts[input.id].cfg.kind == Ssh && !NoSecret(input.credentials) ==>
                  SecretGiven(if input.credType == "" then db.hosts[input.id].cfg.credType else input.credType,
                              input.credentials))
            && (db.hosts[input.id].cfg.kind == Ssh && NoSecret(input.credentials) ==>
                  input.credType == "" || input.credType == db.hosts[input.id].cfg.credType)
  {
    NamedMeans(input);
    if input.id in db.hosts {
      assert KindOf(input.id, db.hosts[input.id].cfg.kind) == db.hosts[input.id].cfg.kind;
      OnlyOneLocal(db, input.id);
    }
  }

  lemma NamedMeans(input: HostInput)
    ensures Named(input) <==> ValidHostId(input.id) && Trim(input.name) != ""
  {
  }

  lemma OnlyOneLocal(db: DB, id: Id)
    requires SchemaTwo(db) && id in db.hosts
    ensures db.hosts[id].cfg.kind == Local ==> !HasLocal(db.hosts - {id})
  {
  }

  /** A creation is accepted exactly if the identifier is free, a local host is the
      only one, and what is given fits the kind. */
  lemma CreationAccepted(db: DB, input: HostInput, sealed: seq<nat>)
    requires SchemaTwo(db)
    ensures SaveResult(db, input, sealed, 0).Ok? <==>
            && Named(input) && input.id !in db.hosts
            && (|| (KindMeant(input) == Local && NothingForSsh(input) && !HasLocal(db.hosts))
                || (&& KindMeant(input) == Ssh && Trim(input.address) != "" && Trim(input.username) != ""
                    && SecretGiven(input.credType, input.credentials)))
  {
    NamedMeans(input);
  }

  // --- The store ---

  /** A stored record was expected: a Put whose expectation is out of date is refused,
      so that of two edits from the same revision only one is stored. */
  lemma OneEditPerRevision(db: DB, first: Record, second: Record, expected: Revision)
    requires PutOutcome(db, first, expected).Done? && second.id == first.id
    ensures !PutOutcome(AfterPut(db, first, expected), second, expected).Done?
    ensures expected > 0 ==> first.id in db.hosts && db.hosts[first.id].revision == expected
    ensures expected == 0 ==> first.id !in db.hosts
  {
  }

  /** A removal is accepted exactly at the expected revision, or at any where none is
      expected; the host is gone and its watermark stays. */
  lemma RemovalAccepted(db: DB, id: Id, expected: Revision)
    requires SchemaTwo(db)
    ensures RemoveResult(db, id, expected).Done?
            <==> id in db.hosts && (expected == 0 || expected == db.hosts[id].revision)
    ensures RemoveResult(db, id, expected).Done? ==>
              && AfterRemove(db, id, expected).hosts == db.hosts - {id}
              && AfterRemove(db, id, expected).marks == db.marks
              && AfterRemove(db, id, expected).settings.defaultHost != Some(id)
    ensures !RemoveResult(db, id, expected).Done? ==> AfterRemove(db, id, expected) == db
  {
    if RemoveResult(db, id, expected).Done? {
      RemoveFrame(db, id, expected);
    }
  }

  /** The default host may be set to a registered host, or cleared, by whoever saw the
      present settings; each change is seen by the next. */
  lemma DefaultAccepted(db: DB, target: Option<Id>, expected: Revision)
    ensures DefaultOutcome(db, target, expected).Done? <==>
            && expected > 0 && expected == db.settings.revision
            && (target == None || target == Some("") || target.value in db.hosts)
    ensures DefaultOutcome(db, target, expected).Done? ==>
              var s := AfterDefault(db, target, expected).settings;
              && s.revision == db.settings.revision + 1
              && s.defaultHost == (if target == Some("") then None else target)
              && !DefaultOutcome(AfterDefault(db, target, expected), target, expected).Done?
    ensures AfterDefault(db, target, expected).hosts == db.hosts
  {
  }
}
