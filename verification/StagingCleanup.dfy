/** Remote staging files and the cleanup of abandoned ones
    (hub/internal/host/remote_files.go:73-118, 763-824, 1065-1101, 1179-1292;
    hub/internal/host/remote_paths.go:29-61; hub/internal/host/store.go:821-906).

    A Write creates a staging file, tracks it as active, records it as pending
    cleanup, transfers, renames it over the target, and forgets it.  A cleanup
    run lists the records, then takes a snapshot of the active set, then removes
    what was listed and not active.  Writes and cleanup runs of one host
    interleave at every remote call and every mutex.
  */
module StagingCleanup {
  import opened Option
  import PosixPath
  import RemotePaths

  type Path = string
  type HostID = string

  // --- The active set, per host ---

  /** The package-level map of active staging paths. */
  class ActiveStaging {
    var byHost: map<HostID, set<Path>>

    ghost predicate Valid()
      reads this
    {
      forall h :: h in byHost ==> byHost[h] != {}
    }

    function Of(h: HostID): set<Path>
      reads this
    {
      if h in byHost then byHost[h] else {}
    }

    constructor ()
      ensures Valid() && forall h :: Of(h) == {}
    {
      byHost := map[];
    }

    method Track(host: HostID, path: Path)
      requires Valid()
      modifies this
      ensures Valid()
      ensures forall h :: Of(h) == old(Of(h)) + if h == host then {path} else {}
    {
      if host !in byHost {
        byHost := byHost[host := {}];
      }
      byHost := byHost[host := byHost[host] + {path}];
    }

    /** Forgets one path, and the host with its last one. */
    method Untrack(host: HostID, path: Path)
      requires Valid()
      modifies this
      ensures Valid()
      ensures forall h :: Of(h) == old(Of(h)) - if h == host then {path} else {}
    {
      if host in byHost {
        byHost := byHost[host := byHost[host] - {path}];
        if byHost[host] == {} {
          byHost := byHost - {host};
        }
      }
    }

    /** A copy of one host's set. */
    method Snapshot(host: HostID) returns (paths: set<Path>)
      requires Valid()
      ensures paths == Of(host)
    {
      paths := {};
      if host in byHost {
        var todo := byHost[host];
        while todo != {}
          invariant todo <= byHost[host] && paths == byHost[host] - todo
          decreases todo
        {
          var p :| p in todo;
          paths, todo := paths + {p}, todo - {p};
        }
      }
    }
  }

  // --- What a cleanup run may remove ---

  predicate HexDigit(c: char) {
    '0' <= c <= '9' || 'a' <= c <= 'f'
  }

  const TOKEN_LEN := 16
  const STAGE_PREFIX := ".vtc-write-"

  /** A path and token the hub could have made. */
  predicate Identifiable(p: Path, token: string) {
    && |token| == TOKEN_LEN
    && (forall i :: 0 <= i < |token| ==> HexDigit(token[i]))
    && PosixPath.Base(p, '/', '.') == STAGE_PREFIX + token
  }

  /** The hub recognizes every staging path it makes. */
  lemma MadeIsIdentifiable(dir: Path, token: string)
    requires |token| == TOKEN_LEN && forall i :: 0 <= i < |token| ==> HexDigit(token[i])
    ensures Identifiable(dir + "/" + (STAGE_PREFIX + token), token)
  {
    var name := STAGE_PREFIX + token;
    assert '/' !in STAGE_PREFIX && '/' !in token;
    PosixPath.BaseOfChild(dir, name, '/', '.');
    assert dir + ['/'] + name == dir + "/" + name;
  }

  /** And nothing else passes: sixteen hexadecimal digits behind the prefix are the
      whole last element of the path. */
  lemma IdentifiableMeaning(p: Path, token: string)
    requires Identifiable(p, token)
    ensures |token| == 16 && forall i :: 0 <= i < 16 ==> '0' <= token[i] <= '9' || 'a' <= token[i] <= 'f'
    ensures exists dir, slashes :: LastElement(p, dir, ".vtc-write-" + token, slashes)
  {
    BaseIsLast(p, STAGE_PREFIX + token);
  }

  /** The path is its directory, ending in a separator if there is one, the name, and separators. */
  predicate LastElement(p: Path, dir: string, name: string, slashes: string) {
    p == dir + name + slashes && (dir == "" || dir[|dir| - 1] == '/') && OnlySlashes(slashes)
  }

  lemma BaseIsLast(p: Path, name: string)
    requires PosixPath.Base(p, '/', '.') == name && |name| > 1
    ensures exists dir, slashes :: LastElement(p, dir, name, slashes)
  {
    var stripped := PosixPath.StripRight(p, '/');
    PosixPath.StripRightIsPrefix(p, '/');
    PosixPath.AfterLastIsSuffix(stripped, '/');
    var dir, slashes := stripped[..|stripped| - |name|], p[|stripped|..];
    assert stripped == dir + name && p == stripped + slashes;
    assert LastElement(p, dir, name, slashes);
  }

  predicate OnlySlashes(s: string) {
    forall i :: 0 <= i < |s| ==> s[i] == '/'
  }

  /** A cleanup run removes nothing else. */
  predicate Removable(rec: Record) {
    Identifiable(rec.path, rec.token) && RemotePaths.ShapeError(rec.path).None?
  }

  // --- Writes and cleanup runs of one host ---

  datatype Record = Record(path: Path, token: string)

  datatype Stage =
    | Created            // the file exists, nothing refers to it yet
    | Tracked            // in the active set
    | Recorded           // in the pending-cleanup table; transfer and checks happen here
    | Settled(committed: bool)   // renamed onto the target, or failed
    | Untracked(committed: bool)
    | Over

  /** `logged` says whether the record reached the pending-cleanup table. */
  datatype Write = Write(rec: Record, stage: Stage, logged: bool)

  datatype Cleanup =
    | Listed(recs: set<Record>)
    | Sweeping(recs: set<Record>, activeSet: set<Path>)

  /** `files` is every regular file on the remote host.  `used` is every staging
      path any run of the hub ever made: tokens are random and never repeat.
      `evicted` is the records the bound on the table pushed out. */
  datatype Sys = Sys(
    files: set<Path>,
    active: set<Path>,
    records: set<Record>,
    writes: map<nat, Write>,
    cleanups: map<nat, Cleanup>,
    used: set<Path>,
    evicted: set<Record>)

  /** What a Write does next. */
  datatype Event =
    | SecureFails(removed: bool)
    | TrackActive
    | AddRecord(gone: set<Record>)
    | AddRecordFails
    | Rename(landed: bool, reported: bool)
    | Fail
    | Forget
    | RemoveStage(removed: bool)
    | DropRecord

  datatype Step =
    | CreateFile(w: nat, rec: Record)
    | Advance(w: nat, ev: Event)
    | ListRecords(c: nat)
    | TakeSnapshot(c: nat)
    | SweepRemove(c: nat, rec: Record)
    | SweepDrop(c: nat, rec: Record)
    | Outside(created: set<Path>, deleted: set<Path>)

  const MAX_PENDING := 50

  predicate At(s: Sys, w: nat, stage: Stage) {
    w in s.writes && s.writes[w].stage == stage
  }

  predicate OnList(s: Sys, c: nat, rec: Record) {
    c in s.cleanups && rec in s.cleanups[c].recs
  }

  predicate MaySweep(s: Sys, c: nat, rec: Record) {
    OnList(s, c, rec) && s.cleanups[c].Sweeping? && rec.path !in s.cleanups[c].activeSet
  }

  /** The order of a Write's calls, and where each outcome leads. */
  function Next(stage: Stage, ev: Event): Option<Stage> {
    match (stage, ev)
    case (Created, SecureFails(_)) => Some(Over)
    case (Created, TrackActive) => Some(Tracked)
    case (Tracked, AddRecord(_)) => Some(Recorded)
    case (Tracked, AddRecordFails) => Some(Settled(false))
    case (Recorded, Rename(landed, reported)) => if reported && !landed then None else Some(Settled(reported))
    case (Recorded, Fail) => Some(Settled(false))
    case (Settled(committed), Forget) => Some(Untracked(committed))
    case (Untracked(false), RemoveStage(_)) => Some(Over)
    case (Untracked(true), DropRecord) => Some(Over)
    case _ => None
  }

  /** Adding to a full table first evicts down to one below the bound. */
  predicate Evicts(records: set<Record>, gone: set<Record>) {
    && gone <= records
    && |gone| == if |records| >= MAX_PENDING then |records| - MAX_PENDING + 1 else 0
  }

  /** Other programs may do anything but touch a name the hub invented. */
  predicate Enabled(s: Sys, step: Step) {
    match step
    case CreateFile(w, rec) =>
      w !in s.writes && rec.path !in s.used && rec.path !in s.files && Identifiable(rec.path, rec.token)
    case Advance(w, ev) =>
      && w in s.writes && Next(s.writes[w].stage, ev).Some?
      && (ev.AddRecord? ==> Evicts(s.records, ev.gone))
    case ListRecords(c) => c !in s.cleanups
    case TakeSnapshot(c) => c in s.cleanups && s.cleanups[c].Listed?
    case SweepRemove(c, rec) => MaySweep(s, c, rec) && Removable(rec)
    case SweepDrop(c, rec) => MaySweep(s, c, rec) && (rec.path !in s.files || !Removable(rec))
    case Outside(created, deleted) => (created + deleted) !! s.used
  }

  function FilesAfter(files: set<Path>, p: Path, ev: Event): set<Path> {
    match ev
    case SecureFails(true) | RemoveStage(true) | Rename(true, _) => files - {p}
    case _ => files
  }

  function ActiveAfter(active: set<Path>, p: Path, ev: Event): set<Path> {
    match ev
    case TrackActive => active + {p}
    case Forget => active - {p}
    case _ => active
  }

  /** A Write drops its record after a commit or a successful removal, and leaves
      it for a cleanup run otherwise. */
  function RecordsAfter(records: set<Record>, rec: Record, ev: Event): set<Record> {
    match ev
    case AddRecord(gone) => records - gone + {rec}
    case RemoveStage(true) | DropRecord => records - {rec}
    case _ => records
  }

  function Advanced(s: Sys, w: nat, ev: Event): Sys
    requires w in s.writes && Next(s.writes[w].stage, ev).Some?
  {
    var rec := s.writes[w].rec;
    Sys(
      FilesAfter(s.files, rec.path, ev),
      ActiveAfter(s.active, rec.path, ev),
      RecordsAfter(s.records, rec, ev),
      s.writes[w := Write(rec, Next(s.writes[w].stage, ev).value, s.writes[w].logged || ev.AddRecord?)],
      s.cleanups,
      s.used,
      if ev.AddRecord? then s.evicted + ev.gone else s.evicted)
  }

  function Apply(s: Sys, step: Step): Sys
    requires Enabled(s, step)
  {
    match step
    case CreateFile(w, rec) =>
      s.(files := s.files + {rec.path}, used := s.used + {rec.path},
         writes := s.writes[w := Write(rec, Created, false)])
    case Advance(w, ev) => Advanced(s, w, ev)
    case ListRecords(c) => s.(cleanups := s.cleanups[c := Listed(s.records)])
    case TakeSnapshot(c) => s.(cleanups := s.cleanups[c := Sweeping(s.cleanups[c].recs, s.active)])
    case SweepRemove(_, rec) => s.(files := s.files - {rec.path})
    case SweepDrop(_, rec) => s.(records := s.records - {rec})
    case Outside(created, deleted) => s.(files := s.files + created - deleted)
  }

  /** A hub that starts: nothing active, and whatever files and records an
      earlier run left, all under names of that run. */
  predicate Init(s: Sys) {
    && s.active == {} && s.writes == map[] && s.cleanups == map[] && s.evicted == {}
    && |s.records| <= MAX_PENDING
    && forall rec :: rec in s.records ==> rec.path in s.used
  }

  ghost predicate Run(steps: seq<Step>, s: Sys) {
    if steps == [] then Init(s)
    else
      var last := |steps| - 1;
      exists before :: Run(steps[..last], before) && Enabled(before, steps[last]) && s == Apply(before, steps[last])
  }

  ghost predicate Reachable(s: Sys) {
    exists steps :: Run(steps, s)
  }

  /** The staging file still belongs to a Write that has not settled. */
  predicate InFlight(s: Sys, w: nat) {
    w in s.writes && (s.writes[w].stage.Created? || s.writes[w].stage.Tracked? || s.writes[w].stage.Recorded?)
  }

  function PathOf(s: Sys, w: nat): Path
    requires w in s.writes
  {
    s.writes[w].rec.path
  }

  ghost predicate PathsDistinct(s: Sys) {
    && (forall w :: w in s.writes ==> PathOf(s, w) in s.used)
    && (forall w, v :: w in s.writes && v in s.writes && PathOf(s, w) == PathOf(s, v) ==> w == v)
  }

  predicate Early(s: Sys, w: nat) {
    At(s, w, Created) || At(s, w, Tracked)
  }

  /** Every record in the table names a path already used, and none names the
      path of a Write that has not reached the table. */
  ghost predicate TableKnows(s: Sys) {
    && (forall rec :: rec in s.records ==> rec.path in s.used)
    && (forall w, rec :: Early(s, w) && rec in s.records ==> rec.path != PathOf(s, w))
  }

  /** The same of every list a cleanup run took from the table. */
  ghost predicate ListsKnow(s: Sys) {
    && (forall c, rec :: OnList(s, c, rec) ==> rec.path in s.used)
    && (forall w, c, rec :: Early(s, w) && OnList(s, c, rec) ==> rec.path != PathOf(s, w))
  }

  ghost predicate ActiveWhileListed(s: Sys) {
    && (forall w :: At(s, w, Tracked) || At(s, w, Recorded) ==> PathOf(s, w) in s.active)
    && (forall w, c, rec :: InFlight(s, w) && MaySweep(s, c, rec) ==> rec.path != PathOf(s, w))
  }

  /** Active is exactly what a Write tracked and has not forgotten. */
  predicate Active(s: Sys, w: nat) {
    w in s.writes && (s.writes[w].stage.Tracked? || s.writes[w].stage.Recorded? || s.writes[w].stage.Settled?)
  }

  ghost predicate ActiveExact(s: Sys) {
    && s.active <= s.used
    && forall w :: w in s.writes ==> (PathOf(s, w) in s.active <==> Active(s, w))
  }

  ghost predicate FileThere(s: Sys) {
    forall w :: InFlight(s, w) ==> PathOf(s, w) in s.files
  }

  predicate Committed(s: Sys, w: nat) {
    At(s, w, Settled(true)) || At(s, w, Untracked(true))
  }

  /** A Write that got its record and whose file is still there still has its
      record, unless the bound on the table evicted it. */
  ghost predicate LeftoversRecorded(s: Sys) {
    && (forall w :: Committed(s, w) ==> PathOf(s, w) !in s.files)
    && (forall w :: w in s.writes ==> Identifiable(PathOf(s, w), s.writes[w].rec.token))
    && (forall w :: w in s.writes && s.writes[w].logged && PathOf(s, w) in s.files ==> Findable(s, w))
  }

  /** The record is in the table, or was pushed out by its bound, or dropped for the
      shape of its path. */
  predicate Findable(s: Sys, w: nat)
    requires w in s.writes
  {
    s.writes[w].rec in s.records || s.writes[w].rec in s.evicted || RemotePaths.ShapeError(PathOf(s, w)).Some?
  }

  ghost predicate Inv(s: Sys) {
    && PathsDistinct(s) && TableKnows(s) && ListsKnow(s) && ActiveWhileListed(s) && FileThere(s) && LeftoversRecorded(s)
    && ActiveExact(s)
    && |s.records| <= MAX_PENDING
  }

  // A Write's own event changes only that Write, and its path is nobody else's.

  lemma AdvanceKeepsPaths(s: Sys, w: nat, ev: Event)
    requires PathsDistinct(s) && Enabled(s, Advance(w, ev))
    ensures PathsDistinct(Advanced(s, w, ev))
    ensures forall v :: v in Advanced(s, w, ev).writes ==>
              v in s.writes && PathOf(Advanced(s, w, ev), v) == PathOf(s, v)
    ensures forall v :: Early(Advanced(s, w, ev), v) ==> Early(s, v)
  {
    var s' := Advanced(s, w, ev);
    assert forall v :: v in s.writes ==> v in s'.writes && PathOf(s', v) == PathOf(s, v);
  }

  lemma AdvanceKeepsTable(s: Sys, w: nat, ev: Event)
    requires PathsDistinct(s) && TableKnows(s) && Enabled(s, Advance(w, ev))
    ensures TableKnows(Advanced(s, w, ev))
  {
    AdvanceKeepsPaths(s, w, ev);
  }

  lemma AdvanceKeepsLists(s: Sys, w: nat, ev: Event)
    requires PathsDistinct(s) && ListsKnow(s) && Enabled(s, Advance(w, ev))
    ensures ListsKnow(Advanced(s, w, ev))
  {
    AdvanceKeepsPaths(s, w, ev);
    assert forall c, rec :: OnList(Advanced(s, w, ev), c, rec) ==> OnList(s, c, rec);
  }

  lemma AdvanceFrame(s: Sys, w: nat, ev: Event, v: nat)
    requires PathsDistinct(s) && Enabled(s, Advance(w, ev)) && v in s.writes
    ensures var s' := Advanced(s, w, ev);
            && v in s'.writes && PathOf(s', v) == PathOf(s, v)
            && (InFlight(s', v) ==> InFlight(s, v))
            && (v != w ==> s'.writes[v] == s.writes[v] && PathOf(s, v) != PathOf(s, w))
  {
  }

  lemma AdvanceKeepsTracked(s: Sys, w: nat, ev: Event, v: nat)
    requires PathsDistinct(s) && Enabled(s, Advance(w, ev)) && v in s.writes
    requires At(s, v, Tracked) || At(s, v, Recorded) ==> PathOf(s, v) in s.active
    ensures var s' := Advanced(s, w, ev); At(s', v, Tracked) || At(s', v, Recorded) ==> PathOf(s', v) in s'.active
  {
    AdvanceFrame(s, w, ev, v);
  }

  lemma AdvanceKeepsActive(s: Sys, w: nat, ev: Event)
    requires PathsDistinct(s) && ActiveWhileListed(s) && Enabled(s, Advance(w, ev))
    ensures ActiveWhileListed(Advanced(s, w, ev))
  {
    var s' := Advanced(s, w, ev);
    forall v | v in s.writes { AdvanceKeepsTracked(s, w, ev, v); }
    forall v, c, rec | InFlight(s', v) && MaySweep(s', c, rec) ensures rec.path != PathOf(s', v) {
      AdvanceFrame(s, w, ev, v);
      assert MaySweep(s, c, rec);
    }
  }

  lemma AdvanceKeepsExact(s: Sys, w: nat, ev: Event)
    requires PathsDistinct(s) && ActiveExact(s) && Enabled(s, Advance(w, ev))
    ensures ActiveExact(Advanced(s, w, ev))
  {
    var s' := Advanced(s, w, ev);
    forall v | v in s'.writes ensures PathOf(s', v) in s'.active <==> Active(s', v) {
      AdvanceFrame(s, w, ev, v);
    }
  }

  lemma AdvanceKeepsFiles(s: Sys, w: nat, ev: Event)
    requires PathsDistinct(s) && FileThere(s) && Enabled(s, Advance(w, ev))
    ensures FileThere(Advanced(s, w, ev))
  {
    var s' := Advanced(s, w, ev);
    assert forall v :: v in s.writes ==> v in s'.writes && PathOf(s', v) == PathOf(s, v);
    assert forall v :: InFlight(s', v) ==> InFlight(s, v);
  }

  lemma AdvanceKeepsOwnLeftover(s: Sys, w: nat, ev: Event)
    requires Enabled(s, Advance(w, ev)) && (s.writes[w].logged && PathOf(s, w) in s.files ==> Findable(s, w))
    requires Committed(s, w) ==> PathOf(s, w) !in s.files
    ensures var s' := Advanced(s, w, ev);
            s'.writes[w].logged && PathOf(s', w) in s'.files ==> Findable(s', w)
  {
  }

  lemma AdvanceKeepsOtherLeftover(s: Sys, w: nat, ev: Event, v: nat)
    requires PathsDistinct(s) && Enabled(s, Advance(w, ev)) && v in s.writes && v != w
    requires s.writes[v].logged && PathOf(s, v) in s.files ==> Findable(s, v)
    ensures var s' := Advanced(s, w, ev);
            s'.writes[v].logged && PathOf(s', v) in s'.files ==> Findable(s', v)
  {
    AdvanceFrame(s, w, ev, v);
    assert s.writes[v].rec != s.writes[w].rec;
  }

  lemma AdvanceKeepsLeftover(s: Sys, w: nat, ev: Event, v: nat)
    requires PathsDistinct(s) && LeftoversRecorded(s) && Enabled(s, Advance(w, ev)) && v in s.writes
    ensures var s' := Advanced(s, w, ev);
            s'.writes[v].logged && PathOf(s', v) in s'.files ==> Findable(s', v)
  {
    if v == w {
      AdvanceKeepsOwnLeftover(s, w, ev);
    } else {
      AdvanceKeepsOtherLeftover(s, w, ev, v);
    }
  }

  lemma AdvanceKeepsCommitted(s: Sys, w: nat, ev: Event, v: nat)
    requires PathsDistinct(s) && Enabled(s, Advance(w, ev)) && v in s.writes
    requires Committed(s, v) ==> PathOf(s, v) !in s.files
    ensures Committed(Advanced(s, w, ev), v) ==> PathOf(s, v) !in Advanced(s, w, ev).files
  {
    AdvanceFrame(s, w, ev, v);
    assert At(s, w, Recorded) && Committed(Advanced(s, w, ev), w) ==> ev.Rename? && ev.landed;
  }

  lemma AdvanceKeepsLeftovers(s: Sys, w: nat, ev: Event)
    requires PathsDistinct(s) && LeftoversRecorded(s) && Enabled(s, Advance(w, ev))
    ensures LeftoversRecorded(Advanced(s, w, ev))
  {
    forall v | v in s.writes { AdvanceKeepsLeftover(s, w, ev, v); }
    forall v | v in s.writes { AdvanceKeepsCommitted(s, w, ev, v); }
  }

  /** A new Write's path is known to nobody, so nothing can be said about it yet. */
  lemma CreateKeepsKnowledge(s: Sys, s': Sys, w: nat, rec: Record)
    requires PathsDistinct(s) && TableKnows(s) && ListsKnow(s)
    requires w !in s.writes && rec.path !in s.used
    requires s' == s.(files := s.files + {rec.path}, used := s.used + {rec.path},
                      writes := s.writes[w := Write(rec, Created, false)])
    ensures PathsDistinct(s') && TableKnows(s') && ListsKnow(s')
  {
    assert forall v :: v in s.writes ==> v in s'.writes && s'.writes[v] == s.writes[v];
    assert forall c, r :: OnList(s', c, r) ==> OnList(s, c, r);
    assert forall v :: Early(s', v) ==> v == w || Early(s, v);
  }

  lemma CreateKeepsActive(s: Sys, s': Sys, w: nat, rec: Record)
    requires PathsDistinct(s) && ListsKnow(s) && ActiveWhileListed(s) && w !in s.writes && rec.path !in s.used
    requires s' == s.(files := s.files + {rec.path}, used := s.used + {rec.path},
                      writes := s.writes[w := Write(rec, Created, false)])
    ensures ActiveWhileListed(s')
  {
    assert forall v :: InFlight(s', v) ==> v == w || InFlight(s, v);
    assert forall c, r :: MaySweep(s', c, r) ==> MaySweep(s, c, r) && OnList(s, c, r);
  }

  lemma CreateKeepsExact(s: Sys, s': Sys, w: nat, rec: Record)
    requires PathsDistinct(s) && ActiveExact(s) && w !in s.writes && rec.path !in s.used
    requires s' == s.(files := s.files + {rec.path}, used := s.used + {rec.path},
                      writes := s.writes[w := Write(rec, Created, false)])
    ensures ActiveExact(s')
  {
    forall v | v in s'.writes ensures PathOf(s', v) in s'.active <==> Active(s', v) {
      assert v != w ==> v in s.writes && s'.writes[v] == s.writes[v];
    }
  }

  lemma CreateKeepsFiles(s: Sys, s': Sys, w: nat, rec: Record)
    requires PathsDistinct(s) && FileThere(s) && LeftoversRecorded(s)
    requires w !in s.writes && rec.path !in s.used && Identifiable(rec.path, rec.token)
    requires s' == s.(files := s.files + {rec.path}, used := s.used + {rec.path},
                      writes := s.writes[w := Write(rec, Created, false)])
    ensures FileThere(s') && LeftoversRecorded(s')
  {
    assert forall v :: v in s.writes ==> v in s'.writes && s'.writes[v] == s.writes[v];
    assert forall v :: InFlight(s', v) ==> v == w || InFlight(s, v);
    assert forall v :: Committed(s', v) ==> Committed(s, v);
  }

  lemma ListKeepsLists(s: Sys, c: nat)
    requires TableKnows(s) && ListsKnow(s) && Enabled(s, ListRecords(c))
    ensures ListsKnow(Apply(s, ListRecords(c)))
  {
    var s' := Apply(s, ListRecords(c));
    assert forall d, rec :: OnList(s', d, rec) ==> OnList(s, d, rec) || rec in s.records;
    assert forall w :: Early(s', w) ==> Early(s, w);
  }

  lemma ListKeepsInv(s: Sys, c: nat)
    requires Inv(s) && Enabled(s, ListRecords(c))
    ensures Inv(Apply(s, ListRecords(c)))
  {
    var s' := Apply(s, ListRecords(c));
    ListKeepsLists(s, c);
    assert forall w :: Active(s', w) <==> Active(s, w);
    assert forall d, rec :: MaySweep(s', d, rec) ==> MaySweep(s, d, rec);
    assert forall w :: Early(s', w) ==> Early(s, w);
  }

  /** A listed record's Write had been tracked; if it is not active any more, it
      is no longer in flight. */
  lemma SnapshotKeepsInv(s: Sys, c: nat)
    requires Inv(s) && Enabled(s, TakeSnapshot(c))
    ensures Inv(Apply(s, TakeSnapshot(c)))
  {
    var s' := Apply(s, TakeSnapshot(c));
    assert forall w :: Active(s', w) <==> Active(s, w);
    assert forall d, rec :: OnList(s', d, rec) ==> OnList(s, d, rec);
    forall w, d, rec | InFlight(s', w) && MaySweep(s', d, rec) ensures rec.path != PathOf(s', w) {
      assert OnList(s, d, rec);
      assert Early(s, w) || At(s, w, Recorded);
      assert d == c || MaySweep(s, d, rec);
    }
  }

  /** Nothing is listed, sweepable, early, in flight or committed that was not so. */
  ghost predicate NothingNew(s: Sys, s': Sys) {
    && (forall c, rec :: OnList(s', c, rec) ==> OnList(s, c, rec))
    && (forall c, rec :: MaySweep(s', c, rec) ==> MaySweep(s, c, rec))
    && (forall w :: Early(s', w) ==> Early(s, w))
    && (forall w :: InFlight(s', w) ==> InFlight(s, w))
    && (forall w :: Committed(s', w) ==> Committed(s, w))
  }

  lemma SweepAddsNothing(s: Sys, step: Step)
    requires Enabled(s, step) && (step.SweepRemove? || step.SweepDrop? || step.Outside?)
    ensures NothingNew(s, Apply(s, step)) && Apply(s, step).writes == s.writes && Apply(s, step).used == s.used
  {
  }

  lemma SweepKeepsKnowledge(s: Sys, step: Step)
    requires Inv(s) && Enabled(s, step) && (step.SweepRemove? || step.SweepDrop? || step.Outside?)
    ensures var s' := Apply(s, step); PathsDistinct(s') && TableKnows(s') && ListsKnow(s') && ActiveWhileListed(s')
  {
    SweepAddsNothing(s, step);
  }

  lemma SweepKeepsFiles(s: Sys, step: Step)
    requires Inv(s) && Enabled(s, step) && (step.SweepRemove? || step.SweepDrop? || step.Outside?)
    ensures var s' := Apply(s, step);
            FileThere(s') && LeftoversRecorded(s') && |s'.records| <= MAX_PENDING && ActiveExact(s')
  {
    SweepAddsNothing(s, step);
    assert Apply(s, step).active == s.active;
    assert forall w :: Active(Apply(s, step), w) <==> Active(s, w);
  }

  lemma SweepKeepsInv(s: Sys, step: Step)
    requires Inv(s) && Enabled(s, step) && (step.SweepRemove? || step.SweepDrop? || step.Outside?)
    ensures Inv(Apply(s, step))
  {
    SweepKeepsKnowledge(s, step);
    SweepKeepsFiles(s, step);
  }

  lemma CreateKeepsInv(s: Sys, w: nat, rec: Record)
    requires Inv(s) && Enabled(s, CreateFile(w, rec))
    ensures Inv(Apply(s, CreateFile(w, rec)))
  {
    var s' := Apply(s, CreateFile(w, rec));
    CreateKeepsKnowledge(s, s', w, rec);
    CreateKeepsActive(s, s', w, rec);
    CreateKeepsExact(s, s', w, rec);
    CreateKeepsFiles(s, s', w, rec);
  }

  lemma AdvanceKeepsBound(s: Sys, w: nat, ev: Event)
    requires |s.records| <= MAX_PENDING && Enabled(s, Advance(w, ev))
    ensures |Advanced(s, w, ev).records| <= MAX_PENDING
  {
  }

  lemma AdvanceKeepsInv(s: Sys, w: nat, ev: Event)
    requires Inv(s) && Enabled(s, Advance(w, ev))
    ensures Inv(Advanced(s, w, ev))
  {
    assert PathsDistinct(Advanced(s, w, ev)) by { AdvanceKeepsPaths(s, w, ev); }
    AdvanceKeepsTable(s, w, ev);
    AdvanceKeepsLists(s, w, ev);
    AdvanceKeepsActive(s, w, ev);
    AdvanceKeepsExact(s, w, ev);
    AdvanceKeepsFiles(s, w, ev);
    AdvanceKeepsLeftovers(s, w, ev);
    AdvanceKeepsBound(s, w, ev);
  }

  lemma StepKeepsInv(s: Sys, step: Step)
    requires Inv(s) && Enabled(s, step)
    ensures Inv(Apply(s, step))
  {
    match step
    case CreateFile(w, rec) => CreateKeepsInv(s, w, rec);
    case Advance(w, ev) => AdvanceKeepsInv(s, w, ev);
    case ListRecords(c) => ListKeepsInv(s, c);
    case TakeSnapshot(c) => SnapshotKeepsInv(s, c);
    case _ => SweepKeepsInv(s, step);
  }

  lemma {:induction false} ReachableInv(steps: seq<Step>, s: Sys)
    requires Run(steps, s)
    ensures Inv(s)
  {
    if steps != [] {
      var last := |steps| - 1;
      var before :| Run(steps[..last], before) && Enabled(before, steps[last]) && s == Apply(before, steps[last]);
      ReachableInv(steps[..last], before);
      StepKeepsInv(before, steps[last]);
    }
  }

  // --- Main results, over every reachable state ---

  /** What a cleanup run is about to remove never belongs to a Write in flight. */
  lemma CleanupSparesInFlight(s: Sys, c: nat, rec: Record, w: nat)
    requires Reachable(s) && InFlight(s, w)
    requires Enabled(s, SweepRemove(c, rec))
    ensures rec.path != PathOf(s, w)
  {
    var steps :| Run(steps, s);
    ReachableInv(steps, s);
  }

  /** So a Write's staging file is there for as long as it is in flight. */
  lemma StagingFileSurvives(s: Sys, w: nat)
    requires Reachable(s) && InFlight(s, w)
    ensures PathOf(s, w) in s.files
  {
    var steps :| Run(steps, s);
    ReachableInv(steps, s);
  }

  lemma LastEvent(s: Sys, w: nat, ev: Event)
    requires Enabled(s, Advance(w, ev)) && (ev.DropRecord? || ev.RemoveStage?)
    requires Committed(s, w) ==> PathOf(s, w) !in s.files
    ensures var s', rec := Advanced(s, w, ev), s.writes[w].rec;
            && (ev != RemoveStage(false) ==> rec !in s'.records && rec.path !in s'.files)
            && (ev == RemoveStage(false) ==> s'.records == s.records && s'.files == s.files)
            && s'.records >= s.records - {rec} && s'.files >= s.files - {rec.path} && s'.active == s.active
  {
    assert ev.DropRecord? ==> Committed(s, w);
  }

  lemma CommittedIsGone(s: Sys, w: nat)
    requires Reachable(s)
    ensures Committed(s, w) ==> PathOf(s, w) !in s.files
  {
    var steps :| Run(steps, s);
    ReachableInv(steps, s);
  }

  /** What is active is exactly what some Write tracks. */
  lemma ActiveIsExact(s: Sys, w: nat)
    requires Reachable(s) && w in s.writes
    ensures PathOf(s, w) in s.active <==> Active(s, w)
  {
    var steps :| Run(steps, s);
    ReachableInv(steps, s);
  }

  /** A Write ends with nothing left of it but its target: it is active no longer, its
      record is dropped and its staging file gone, unless it failed and could not
      remove the file, whose record then stays as it was. */
  lemma WriteCleansUp(s: Sys, w: nat, ev: Event)
    requires Reachable(s) && Enabled(s, Advance(w, ev)) && (ev.DropRecord? || ev.RemoveStage?)
    ensures var s', rec := Advanced(s, w, ev), s.writes[w].rec;
            && (ev != RemoveStage(false) ==> rec !in s'.records && rec.path !in s'.files)
            && (ev == RemoveStage(false) ==> s'.records == s.records && s'.files == s.files)
            && s'.records >= s.records - {rec} && s'.files >= s.files - {rec.path}
            && s'.active == s.active && rec.path !in s'.active
  {
    CommittedIsGone(s, w);
    ActiveIsExact(s, w);
    LastEvent(s, w, ev);
  }

  /** A staging file left behind after it was recorded can still be found: its
      record is in the table, unless it was pushed out by the bound of fifty or its
      path has not the shape the hub accepts. */
  lemma LeftoverIsFindable(s: Sys, w: nat)
    requires Reachable(s) && w in s.writes && s.writes[w].logged
    requires PathOf(s, w) in s.files
    ensures s.writes[w].rec in s.records || s.writes[w].rec in s.evicted || RemotePaths.ShapeError(PathOf(s, w)).Some?
    ensures |s.records| <= MAX_PENDING
  {
    var steps :| Run(steps, s);
    ReachableInv(steps, s);
  }
}
