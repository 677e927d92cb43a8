/** The optimistic atomic write of a local file
    (hub/internal/files/service.go:610-668, 783-946, 964-983; hub/internal/files/metadata.go:22-48).

    Any number of Writes run against a file system that other programs change at
    will.  A Write opens its target and pins the inode, stages its body under a
    random name, and renames the staging file over the target if the target is
    unchanged.  The last check and the rename are two adjacent system calls in
    the original; they are one step here.
  */
module AtomicWrite {
  import opened Option
  import opened Octets

  type Name = string

  datatype Kind = Regular | Directory | Special

  /** `gen` is the identity of the inode, which its reusable number is not. */
  datatype Inode = Inode(gen: nat, kind: Kind, content: Bytes, mtime: int)

  datatype Entry = Node(ino: nat) | Link(to: Name)

  type Names = map<Name, Entry>
  type Inodes = map<nat, Inode>

  /** The time a caller last observed, in nanoseconds if it could tell. */
  datatype Expected = Expected(millis: int, nanos: Option<int>)

  datatype Origin = Origin(ino: nat, gen: nat)

  datatype Phase = Opened | Staging | Copied | Checked | Committed | Failed | Closed

  datatype Write = Write(
    target: Name,
    expected: Option<Expected>,
    allowOtherNames: bool,
    declared: int,
    origin: Option<Origin>,
    phase: Phase,
    stage: Name,
    stageIno: nat,
    stageGen: nat,
    body: Bytes)

  /** One commit: where, the identity found when the Write opened, the identity installed. */
  datatype Commit = Commit(target: Name, base: Option<nat>, result: nat)

  /** `touched` are the names anyone but a Write has ever changed, `staged` the
      staging names ever drawn; both and `log` are bookkeeping of the model. */
  datatype Sys = Sys(
    names: Names,
    inodes: Inodes,
    nextGen: nat,
    writes: map<nat, Write>,
    log: seq<Commit>,
    touched: set<Name>,
    staged: set<Name>)

  const MAX_HOPS := 40
  const NANOS_PER_MILLI := 1_000_000

  // --- What the checks look at ---

  /** stat: the inode a name leads to, through symbolic links. */
  function Stat(names: Names, n: Name, hops: nat): Option<nat>
    decreases hops
  {
    if n !in names then None
    else match names[n]
      case Node(i) => Some(i)
      case Link(to) => if hops == 0 then None else Stat(names, to, hops - 1)
  }

  predicate Matches(e: Expected, mtime: int) {
    match e.nanos
    case Some(n) => mtime == n
    case None => mtime / NANOS_PER_MILLI == e.millis
  }

  function NamesOf(names: Names, i: nat): set<Name> {
    set n | n in names && names[n] == Node(i)
  }

  datatype Check = Ok | NotFound | InvalidPath | Conflict | OtherNames

  /** The observed time first, then the other names. */
  function Acceptable(s: Sys, i: nat, expected: Option<Expected>, allowOtherNames: bool): Check
    requires i in s.inodes
  {
    if expected.Some? && !Matches(expected.value, s.inodes[i].mtime) then Conflict
    else if !allowOtherNames && |NamesOf(s.names, i)| > 1 then OtherNames
    else Ok
  }

  /** Everything that can be refused before the body travels. */
  function OpenCheck(s: Sys, target: Name, expected: Option<Expected>, allowOtherNames: bool): Check {
    if target !in s.names then (if expected.Some? then NotFound else Ok)
    else match s.names[target]
      case Link(_) => NotFound
      case Node(i) =>
        if i !in s.inodes then NotFound
        else if s.inodes[i].kind != Regular then InvalidPath
        else Acceptable(s, i, expected, allowOtherNames)
  }

  /** The time is the one observed, to the nanosecond or within the same millisecond. */
  predicate AsObserved(e: Option<Expected>, mtime: int) {
    && (e.Some? && e.value.nanos.Some? ==> mtime == e.value.nanos.value)
    && (e.Some? && e.value.nanos.None? ==> 1_000_000 * e.value.millis <= mtime < 1_000_000 * (e.value.millis + 1))
  }

  ghost predicate OnlyName(names: Names, i: nat) {
    forall n, m :: n in names && m in names && names[n] == Node(i) && names[m] == Node(i) ==> n == m
  }

  lemma OneNameIsOnly(names: Names, i: nat)
    ensures |NamesOf(names, i)| <= 1 <==> OnlyName(names, i)
  {
    var all := NamesOf(names, i);
    if all != {} {
      var n :| n in all;
      var others := all - {n};
      assert |others| == |all| - 1;
      if others == {} {
        forall m | m in names && names[m] == Node(i) ensures m == n { assert m in all; }
      } else {
        var m :| m in others;
        assert n in names && m in names && names[n] == Node(i) && names[m] == Node(i) && n != m;
      }
    } else {
      forall m | m in names ensures names[m] != Node(i) { assert m !in all; }
    }
  }

  /** An inode is refused for its time before it is refused for its other names. */
  lemma AcceptableMeaning(s: Sys, i: nat, expected: Option<Expected>, allowOtherNames: bool)
    requires i in s.inodes
    ensures var time, alone := AsObserved(expected, s.inodes[i].mtime), allowOtherNames || OnlyName(s.names, i);
            && (Acceptable(s, i, expected, allowOtherNames) == Ok <==> time && alone)
            && (Acceptable(s, i, expected, allowOtherNames) == Conflict <==> !time)
            && (Acceptable(s, i, expected, allowOtherNames) == OtherNames <==> time && !alone)
  {
    OneNameIsOnly(s.names, i);
  }

  /** What a Write may begin with: a free name, if no time was observed there, or a
      regular file as it was observed, under no other name unless that is agreed to. */
  lemma OpenMeaning(s: Sys, target: Name, expected: Option<Expected>, allowOtherNames: bool)
    requires NamesLive(s)
    ensures OpenCheck(s, target, expected, allowOtherNames) == Ok <==>
            || (target !in s.names && expected.None?)
            || (&& target in s.names && s.names[target].Node?
                && s.inodes[s.names[target].ino].kind == Regular
                && AsObserved(expected, s.inodes[s.names[target].ino].mtime)
                && (allowOtherNames || OnlyName(s.names, s.names[target].ino)))
    ensures OpenCheck(s, target, expected, allowOtherNames) == NotFound <==>
            (target !in s.names && expected.Some?) || (target in s.names && s.names[target].Link?)
    ensures OpenCheck(s, target, expected, allowOtherNames) == InvalidPath <==>
            target in s.names && s.names[target].Node? && s.inodes[s.names[target].ino].kind != Regular
  {
    if target in s.names && s.names[target].Node? {
      AcceptableMeaning(s, s.names[target].ino, expected, allowOtherNames);
    }
  }

  /** confirmUnchanged: a free name is looked at without following a link, an
      opened one with stat. */
  function Confirm(s: Sys, w: Write): Check {
    match w.origin
    case None => if w.target in s.names then Conflict else Ok
    case Some(o) =>
      match Stat(s.names, w.target, MAX_HOPS)
      case None => NotFound
      case Some(i) => if i != o.ino || i !in s.inodes then Conflict else Acceptable(s, i, w.expected, w.allowOtherNames)
  }

  // --- Steps ---

  datatype Step =
    | Open(w: nat, target: Name, expected: Option<Expected>, allowOtherNames: bool, declared: int)
    | Stage(w: nat, name: Name, ino: nat)
    | Copy(w: nat, body: Bytes, mtime: int)
    | Recheck(w: nat)
    | Rename(w: nat)
    | Abort(w: nat, removed: bool)
    | Close(w: nat)
    | Elsewhere(names: Names)
    | NewInode(ino: nat, kind: Kind, mtime: int)
    | Modify(ino: nat, content: Bytes, mtime: int)
    | Free(ino: nat)

  predicate At(s: Sys, w: nat, phase: Phase) {
    w in s.writes && s.writes[w].phase == phase
  }

  /** The staging file exists under its name. */
  predicate HasStage(w: Write) {
    w.phase == Staging || w.phase == Copied || w.phase == Checked
  }

  predicate Pins(w: Write, i: nat) {
    w.origin.Some? && w.origin.value.ino == i && w.phase != Closed
  }

  predicate IsStageInode(s: Sys, i: nat) {
    exists w :: w in s.writes && HasStage(s.writes[w]) && s.writes[w].stageIno == i
  }

  /** Other programs may rename, link, unlink and create as they like, but not
      under a staging name. */
  predicate Outside(s: Sys, names: Names) {
    && (forall n :: n in s.staged ==> (n in names <==> n in s.names) && (n in names ==> names[n] == s.names[n]))
    && (forall n :: n in names && names[n].Node? ==> names[n].ino in s.inodes)
    && (forall n :: n in names && names[n].Node? && n !in s.staged ==> !IsStageInode(s, names[n].ino))
  }

  predicate Enabled(s: Sys, step: Step) {
    match step
    case Open(w, target, expected, allow, _) =>
      w !in s.writes && target !in s.staged && OpenCheck(s, target, expected, allow) == Ok
    case Stage(w, name, ino) =>
      && At(s, w, Opened) && name !in s.names && name !in s.staged && name !in s.touched && ino !in s.inodes
      && (forall v :: v in s.writes ==> s.writes[v].target != name)
      && (forall k :: 0 <= k < |s.log| ==> s.log[k].target != name)
    case Copy(w, body, _) => At(s, w, Staging) && |body| == s.writes[w].declared && s.writes[w].stageIno in s.inodes
    case Recheck(w) => At(s, w, Copied) && Confirm(s, s.writes[w]) == Ok
    case Rename(w) => At(s, w, Checked) && Confirm(s, s.writes[w]) == Ok
    case Abort(w, _) => w in s.writes && (s.writes[w].phase == Opened || HasStage(s.writes[w]))
    case Close(w) => At(s, w, Committed) || At(s, w, Failed)
    case Elsewhere(names) => Outside(s, names)
    case NewInode(ino, _, _) => ino !in s.inodes
    case Modify(ino, _, _) => ino in s.inodes && !IsStageInode(s, ino)
    case Free(ino) =>
      && ino in s.inodes && (forall n :: n in s.names ==> s.names[n] != Node(ino))
      && (forall w :: w in s.writes ==> !Pins(s.writes[w], ino))
  }

  function OriginOf(s: Sys, target: Name): Option<Origin> {
    if target in s.names && s.names[target].Node? && s.names[target].ino in s.inodes
    then Some(Origin(s.names[target].ino, s.inodes[s.names[target].ino].gen))
    else None
  }

  function SetPhase(s: Sys, w: nat, phase: Phase): Sys
    requires w in s.writes
  {
    s.(writes := s.writes[w := s.writes[w].(phase := phase)])
  }

  function Staged(s: Sys, w: nat, name: Name, ino: nat): Sys
    requires w in s.writes
  {
    s.(names := s.names[name := Node(ino)],
       inodes := s.inodes[ino := Inode(s.nextGen, Regular, [], 0)],
       nextGen := s.nextGen + 1,
       staged := s.staged + {name},
       writes := s.writes[w := s.writes[w].(phase := Staging, stage := name, stageIno := ino, stageGen := s.nextGen)])
  }

  function Renamed(s: Sys, w: nat): Sys
    requires w in s.writes
  {
    var x := s.writes[w];
    SetPhase(s, w, Committed).(
      names := (s.names - {x.stage})[x.target := Node(x.stageIno)],
      log := s.log + [Commit(x.target, if x.origin.Some? then Some(x.origin.value.gen) else None, x.stageGen)])
  }

  /** The staging file is removed if it can be. */
  function Aborted(s: Sys, w: nat, removed: bool): Sys
    requires w in s.writes
  {
    SetPhase(s, w, Failed).(
      names := if HasStage(s.writes[w]) && removed then s.names - {s.writes[w].stage} else s.names)
  }

  function Apply(s: Sys, step: Step): Sys
    requires Enabled(s, step)
  {
    match step
    case Open(w, target, expected, allow, declared) =>
      s.(writes := s.writes[w := Write(target, expected, allow, declared, OriginOf(s, target), Opened, "", 0, 0, [])])
    case Stage(w, name, ino) => Staged(s, w, name, ino)
    case Copy(w, body, mtime) =>
      var i := s.writes[w].stageIno;
      s.(inodes := s.inodes[i := s.inodes[i].(content := body, mtime := mtime)],
         writes := s.writes[w := s.writes[w].(phase := Copied, body := body)])
    case Recheck(w) => SetPhase(s, w, Checked)
    case Rename(w) => Renamed(s, w)
    case Abort(w, removed) => Aborted(s, w, removed)
    case Close(w) => SetPhase(s, w, Closed)
    case Elsewhere(names) =>
      s.(names := names,
         touched := s.touched + (set n | n in names && !(n in s.names && s.names[n] == names[n]))
                    + (set n | n in s.names && n !in names))
    case NewInode(ino, kind, mtime) =>
      s.(inodes := s.inodes[ino := Inode(s.nextGen, kind, [], mtime)], nextGen := s.nextGen + 1)
    case Modify(ino, content, mtime) =>
      s.(inodes := s.inodes[ino := s.inodes[ino].(content := content, mtime := mtime)])
    case Free(ino) => s.(inodes := s.inodes - {ino})
  }

  predicate Init(s: Sys) {
    && s.writes == map[] && s.log == [] && s.touched == {} && s.staged == {}
    && NamesLive(s) && GensDistinct(s)
  }

  ghost predicate Run(steps: seq<Step>, s: Sys) {
    if steps == [] then Init(s)
    else
      var last := |steps| - 1;
      exists before :: Run(steps[..last], before) && Enabled(before, steps[last]) && s == Apply(before, steps[last])
  }

  ghost predicate Reachable(s: Sys) {
    exists steps :: Run(steps, s)
  }

  // --- What every step keeps ---

  predicate NamesLive(s: Sys) {
    forall n :: n in s.names && s.names[n].Node? ==> s.names[n].ino in s.inodes
  }

  predicate GensDistinct(s: Sys) {
    && (forall i :: i in s.inodes ==> s.inodes[i].gen < s.nextGen)
    && (forall i, j :: i in s.inodes && j in s.inodes && s.inodes[i].gen == s.inodes[j].gen ==> i == j)
  }

  predicate PinHolds(s: Sys, x: Write) {
    x.origin.Some? && x.phase != Closed ==>
      x.origin.value.ino in s.inodes && s.inodes[x.origin.value.ino].gen == x.origin.value.gen
  }

  /** A pinned inode number still means the inode that was opened. */
  predicate PinsHold(s: Sys) {
    forall w :: w in s.writes ==> PinHolds(s, s.writes[w])
  }

  predicate StagePresent(s: Sys, x: Write) {
    HasStage(x) ==>
      && x.stage in s.staged && x.stage in s.names && s.names[x.stage] == Node(x.stageIno)
      && x.stageIno in s.inodes && s.inodes[x.stageIno].gen == x.stageGen && s.inodes[x.stageIno].kind == Regular
  }

  predicate StageComplete(s: Sys, x: Write) {
    x.phase == Copied || x.phase == Checked ==>
      x.stageIno in s.inodes && s.inodes[x.stageIno].content == x.body && |x.body| == x.declared
  }

  predicate StagesPresent(s: Sys) {
    forall w :: w in s.writes ==> StagePresent(s, s.writes[w])
  }

  predicate StagesComplete(s: Sys) {
    forall w :: w in s.writes ==> StageComplete(s, s.writes[w])
  }

  predicate TargetsNotStaged(s: Sys) {
    && (forall w :: w in s.writes ==> s.writes[w].target !in s.staged)
    && (forall k :: 0 <= k < |s.log| ==> s.log[k].target !in s.staged)
  }

  /** A staging inode has its staging name and no other. */
  predicate StageNameOnly(s: Sys) {
    forall w, n :: w in s.writes && HasStage(s.writes[w]) && n in s.names && n != s.writes[w].stage ==>
                     s.names[n] != Node(s.writes[w].stageIno)
  }

  predicate StageNamesDistinct(s: Sys) {
    forall w, v :: w in s.writes && v in s.writes && HasStage(s.writes[w]) && HasStage(s.writes[v]) && w != v ==>
                     s.writes[w].stage != s.writes[v].stage
  }

  /** What a Write stages is younger than what it opened. */
  predicate StageIsYounger(s: Sys, x: Write) {
    && (x.origin.Some? ==> x.origin.value.gen < s.nextGen)
    && (HasStage(x) && x.origin.Some? ==> x.origin.value.gen < x.stageGen)
  }

  predicate StagesYounger(s: Sys) {
    forall w :: w in s.writes ==> StageIsYounger(s, s.writes[w])
  }

  /** The index after the last commit at n, or 0. */
  function LastAt(log: seq<Commit>, n: Name): (k: nat)
    ensures k <= |log|
    ensures k > 0 ==> log[k - 1].target == n
    ensures forall j :: k <= j < |log| ==> log[j].target != n
  {
    if log == [] then 0
    else if log[|log| - 1].target == n then |log|
    else LastAt(log[..|log| - 1], n)
  }

  predicate Holds(s: Sys, n: Name, gen: nat) {
    && n in s.names && s.names[n].Node? && s.names[n].ino in s.inodes
    && s.inodes[s.names[n].ino].gen == gen
  }

  /** The last commit at a name nobody else touches is still what the name holds. */
  predicate CurrentAt(s: Sys, n: Name) {
    var k := LastAt(s.log, n);
    n !in s.touched && k > 0 ==> Holds(s, n, s.log[k - 1].result)
  }

  ghost predicate LastCommitsCurrent(s: Sys) {
    forall n :: CurrentAt(s, n)
  }

  /** A commit started from the one before it at the same name, and is younger than what it started from. */
  predicate Chained(log: seq<Commit>, touched: set<Name>, l: nat)
    requires l < |log|
  {
    && (log[l].base.Some? ==> log[l].base.value < log[l].result)
    && (var k := LastAt(log[..l], log[l].target);
        log[l].target !in touched && k > 0 ==> log[l].base == Some(log[k - 1].result))
  }

  predicate LogChained(s: Sys) {
    forall l :: 0 <= l < |s.log| ==> Chained(s.log, s.touched, l)
  }

  ghost predicate Inv(s: Sys) {
    && NamesLive(s) && GensDistinct(s) && PinsHold(s)
    && StagesPresent(s) && StagesComplete(s) && TargetsNotStaged(s) && StageNameOnly(s) && StageNamesDistinct(s)
    && StagesYounger(s) && LastCommitsCurrent(s) && LogChained(s)
  }

  lemma NamesLiveKept(s: Sys, step: Step)
    requires NamesLive(s) && StagesPresent(s) && Enabled(s, step)
    ensures NamesLive(Apply(s, step))
  {
    var s' := Apply(s, step);
    forall n | n in s'.names && s'.names[n].Node? ensures s'.names[n].ino in s'.inodes {
      if step.Rename? {
        assert StagePresent(s, s.writes[step.w]);
      }
    }
  }

  lemma GensDistinctKept(s: Sys, step: Step)
    requires GensDistinct(s) && Enabled(s, step)
    ensures GensDistinct(Apply(s, step))
  {
  }

  lemma PinsHoldKept(s: Sys, step: Step)
    requires PinsHold(s) && Enabled(s, step)
    ensures PinsHold(Apply(s, step))
  {
    var s' := Apply(s, step);
    forall v | v in s'.writes ensures PinHolds(s', s'.writes[v]) {
      assert v in s.writes ==> PinHolds(s, s.writes[v]);
    }
  }

  lemma StagePresentKept(s: Sys, step: Step, v: nat)
    requires StagesPresent(s) && TargetsNotStaged(s) && StageNamesDistinct(s) && Enabled(s, step)
    requires v in Apply(s, step).writes
    ensures StagePresent(Apply(s, step), Apply(s, step).writes[v])
  {
    if v in s.writes {
      assert StagePresent(s, s.writes[v]);
    }
  }

  lemma StagesPresentKept(s: Sys, step: Step)
    requires StagesPresent(s) && TargetsNotStaged(s) && StageNamesDistinct(s) && Enabled(s, step)
    ensures StagesPresent(Apply(s, step))
  {
    forall v | v in Apply(s, step).writes ensures StagePresent(Apply(s, step), Apply(s, step).writes[v]) {
      StagePresentKept(s, step, v);
    }
  }

  /** Two staging files are two inodes. */
  lemma StagesApart(s: Sys, w: nat, v: nat)
    requires StagesPresent(s) && StageNameOnly(s) && StageNamesDistinct(s) && w in s.writes && v in s.writes && w != v
    requires HasStage(s.writes[w]) && HasStage(s.writes[v])
    ensures s.writes[w].stageIno != s.writes[v].stageIno
  {
    assert StagePresent(s, s.writes[w]) && StagePresent(s, s.writes[v]);
  }

  lemma StageCompleteKept(s: Sys, step: Step, v: nat)
    requires StagesPresent(s) && StagesComplete(s) && StageNameOnly(s) && StageNamesDistinct(s) && Enabled(s, step)
    requires v in Apply(s, step).writes
    ensures StageComplete(Apply(s, step), Apply(s, step).writes[v])
  {
    if v in s.writes {
      assert StageComplete(s, s.writes[v]) && StagePresent(s, s.writes[v]);
      if step.Copy? && v != step.w && HasStage(s.writes[v]) {
        StagesApart(s, step.w, v);
      }
    }
  }

  lemma StagesCompleteKept(s: Sys, step: Step)
    requires StagesPresent(s) && StagesComplete(s) && StageNameOnly(s) && StageNamesDistinct(s) && Enabled(s, step)
    ensures StagesComplete(Apply(s, step))
  {
    forall v | v in Apply(s, step).writes ensures StageComplete(Apply(s, step), Apply(s, step).writes[v]) {
      StageCompleteKept(s, step, v);
    }
  }

  lemma TargetsNotStagedKept(s: Sys, step: Step)
    requires TargetsNotStaged(s) && Enabled(s, step)
    ensures TargetsNotStaged(Apply(s, step))
  {
  }

  lemma OneNameKept(s: Sys, step: Step, v: nat, n: Name)
    requires NamesLive(s) && StagesPresent(s) && StageNameOnly(s) && StageNamesDistinct(s) && Enabled(s, step)
    requires var s' := Apply(s, step);
             v in s'.writes && HasStage(s'.writes[v]) && n in s'.names && n != s'.writes[v].stage
    ensures Apply(s, step).names[n] != Node(Apply(s, step).writes[v].stageIno)
  {
    if v in s.writes && HasStage(s.writes[v]) {
      assert StagePresent(s, s.writes[v]);
      if step.Rename? {
        StagesApart(s, step.w, v);
      }
    }
  }

  lemma StageNameOnlyKept(s: Sys, step: Step)
    requires NamesLive(s) && StagesPresent(s) && StageNameOnly(s) && StageNamesDistinct(s) && Enabled(s, step)
    ensures StageNameOnly(Apply(s, step))
  {
    var s' := Apply(s, step);
    forall v, n | v in s'.writes && HasStage(s'.writes[v]) && n in s'.names && n != s'.writes[v].stage
      ensures s'.names[n] != Node(s'.writes[v].stageIno)
    {
      OneNameKept(s, step, v, n);
    }
  }

  lemma TwoNamesKept(s: Sys, step: Step, w: nat, v: nat)
    requires StagesPresent(s) && StageNamesDistinct(s) && Enabled(s, step) && w != v
    requires var s' := Apply(s, step);
             && w in s'.writes && v in s'.writes && HasStage(s'.writes[w]) && HasStage(s'.writes[v])
    ensures Apply(s, step).writes[w].stage != Apply(s, step).writes[v].stage
  {
    if step.Stage? && (step.w == w || step.w == v) {
      var other := if step.w == w then v else w;
      assert StagePresent(s, s.writes[other]);
    }
  }

  lemma StageNamesDistinctKept(s: Sys, step: Step)
    requires StagesPresent(s) && StageNamesDistinct(s) && Enabled(s, step)
    ensures StageNamesDistinct(Apply(s, step))
  {
    var s' := Apply(s, step);
    forall w, v | && w in s'.writes && v in s'.writes && HasStage(s'.writes[w]) && HasStage(s'.writes[v])
                  && w != v
      ensures s'.writes[w].stage != s'.writes[v].stage
    {
      TwoNamesKept(s, step, w, v);
    }
  }

  lemma StageIsYoungerKept(s: Sys, step: Step, v: nat)
    requires GensDistinct(s) && Enabled(s, step) && v in Apply(s, step).writes
    requires v in s.writes ==> StageIsYounger(s, s.writes[v])
    ensures StageIsYounger(Apply(s, step), Apply(s, step).writes[v])
  {
  }

  lemma StagesYoungerKept(s: Sys, step: Step)
    requires StagesYounger(s) && GensDistinct(s) && Enabled(s, step)
    ensures StagesYounger(Apply(s, step))
  {
    var s' := Apply(s, step);
    forall v | v in s'.writes ensures StageIsYounger(s', s'.writes[v]) {
      StageIsYoungerKept(s, step, v);
    }
  }

  /** LastAt depends only on the commits at the name. */
  lemma LastAtAppend(log: seq<Commit>, c: Commit, n: Name)
    ensures LastAt(log + [c], n) == if c.target == n then |log| + 1 else LastAt(log, n)
  {
    assert (log + [c])[..|log|] == log;
  }

  lemma HoldsKept(s: Sys, step: Step, n: Name, gen: nat)
    requires StagesPresent(s) && Enabled(s, step) && !step.Rename?
    requires n !in s.staged && n !in Apply(s, step).touched && Holds(s, n, gen)
    ensures Holds(Apply(s, step), n, gen)
  {
    if step.Abort? {
      assert StagePresent(s, s.writes[step.w]);
    }
  }

  lemma RenameSets(s: Sys, w: nat, n: Name)
    requires StagesPresent(s) && Enabled(s, Step.Rename(w)) && n !in s.staged
    ensures n == s.writes[w].target ==> Holds(Apply(s, Step.Rename(w)), n, s.writes[w].stageGen)
    ensures forall gen :: n != s.writes[w].target && Holds(s, n, gen) ==> Holds(Apply(s, Step.Rename(w)), n, gen)
  {
    assert StagePresent(s, s.writes[w]);
  }

  lemma CurrentAtKept(s: Sys, step: Step, n: Name)
    requires StagesPresent(s) && TargetsNotStaged(s) && CurrentAt(s, n) && Enabled(s, step)
    ensures CurrentAt(Apply(s, step), n)
  {
    var s' := Apply(s, step);
    if step.Rename? {
      RenamedIsCurrent(s, step.w, n);
    } else if n !in s'.touched && LastAt(s.log, n) > 0 {
      assert s.log[LastAt(s.log, n) - 1].target == n;
      HoldsKept(s, step, n, s.log[LastAt(s.log, n) - 1].result);
    }
  }

  lemma RenamedIsCurrent(s: Sys, w: nat, n: Name)
    requires StagesPresent(s) && TargetsNotStaged(s) && CurrentAt(s, n) && Enabled(s, Step.Rename(w))
    ensures CurrentAt(Apply(s, Step.Rename(w)), n)
  {
    var s' := Apply(s, Step.Rename(w));
    LastAtAppend(s.log, s'.log[|s.log|], n);
    if n !in s'.touched && LastAt(s'.log, n) > 0 {
      assert s'.log[LastAt(s'.log, n) - 1].target == n;
      RenameSets(s, w, n);
    }
  }

  /** What a Rename of a checked Write finds: the inode it opened, under the
      number it had, or a name still free. */
  lemma RenameFinds(s: Sys, w: nat)
    requires PinsHold(s) && Enabled(s, Step.Rename(w))
    ensures var x := s.writes[w];
            match x.origin
            case None => x.target !in s.names
            case Some(o) =>
              && x.target in s.names && Stat(s.names, x.target, MAX_HOPS) == Some(o.ino)
              && o.ino in s.inodes && s.inodes[o.ino].gen == o.gen
              && Acceptable(s, o.ino, x.expected, x.allowOtherNames) == Ok
  {
    assert PinHolds(s, s.writes[w]);
  }

  lemma NewCommitChained(s: Sys, w: nat)
    requires Inv(s) && Enabled(s, Step.Rename(w))
    ensures var s' := Apply(s, Step.Rename(w)); Chained(s'.log, s'.touched, |s.log|)
  {
    var s', x := Apply(s, Step.Rename(w)), s.writes[w];
    RenameFinds(s, w);
    assert StageIsYounger(s, x) && StagePresent(s, x);
    assert s'.log[..|s.log|] == s.log;
    assert CurrentAt(s, x.target);
  }

  lemma LogChainedKept(s: Sys, step: Step)
    requires Inv(s) && Enabled(s, step)
    ensures LogChained(Apply(s, step))
  {
    var s' := Apply(s, step);
    forall l | 0 <= l < |s'.log| ensures Chained(s'.log, s'.touched, l) {
      if l < |s.log| {
        assert Chained(s.log, s.touched, l);
        assert s'.log[..l] == s.log[..l];
      } else {
        NewCommitChained(s, step.w);
      }
    }
  }

  lemma {:induction false} RunKeepsInv(steps: seq<Step>, s: Sys)
    requires Run(steps, s)
    ensures Inv(s)
    decreases |steps|
  {
    if steps != [] {
      var last := |steps| - 1;
      var before :| Run(steps[..last], before) && Enabled(before, steps[last]) && s == Apply(before, steps[last]);
      RunKeepsInv(steps[..last], before);
      StepKeepsInv(before, steps[last]);
    }
  }

  lemma StepKeepsInv(s: Sys, step: Step)
    requires Inv(s) && Enabled(s, step)
    ensures Inv(Apply(s, step))
  {
    NamesLiveKept(s, step);
    GensDistinctKept(s, step);
    PinsHoldKept(s, step);
    StagesPresentKept(s, step);
    StagesCompleteKept(s, step);
    TargetsNotStagedKept(s, step);
    StageNameOnlyKept(s, step);
    StageNamesDistinctKept(s, step);
    StagesYoungerKept(s, step);
    forall n ensures CurrentAt(Apply(s, step), n) { CurrentAtKept(s, step, n); }
    LogChainedKept(s, step);
  }

  // --- What a reader of the file system may rely on ---

  /** A commit replaces the very inode its Write opened, or takes a name that is
      still free.  An inode number freed and used again is never mistaken for the
      original, because the original stays pinned.  There is one exception: stat
      follows links, so a name that has become a link to the moved original passes
      every check, and the rename then replaces the link. */
  lemma CommitReplacesWhatWasOpened(s: Sys, w: nat)
    requires Reachable(s) && Enabled(s, Step.Rename(w))
    ensures var x := s.writes[w];
            match x.origin
            case None => x.target !in s.names
            case Some(o) =>
              && x.target in s.names
              && (Holds(s, x.target, o.gen) <==> !s.names[x.target].Link?)
              && o.ino in s.inodes && s.inodes[o.ino].gen == o.gen
              && AsObserved(x.expected, s.inodes[o.ino].mtime)
              && (x.allowOtherNames || OnlyName(s.names, o.ino))
  {
    var steps :| Run(steps, s);
    RunKeepsInv(steps, s);
    RenameFinds(s, w);
    var x := s.writes[w];
    if x.origin.Some? {
      AcceptableMeaning(s, x.origin.value.ino, x.expected, x.allowOtherNames);
    }
  }

  /** After a commit the name holds the whole staged body, of the declared length,
      and nothing else has changed but the staging name. */
  lemma CommitInstallsTheBody(s: Sys, w: nat)
    requires Reachable(s) && Enabled(s, Step.Rename(w))
    ensures var s', x := Apply(s, Step.Rename(w)), s.writes[w];
            && Stat(s'.names, x.target, 0) == Some(x.stageIno) && x.stageIno in s'.inodes
            && s'.inodes[x.stageIno].content == x.body && |x.body| == x.declared
            && x.target != x.stage
            && s'.names - {x.target, x.stage} == s.names - {x.target, x.stage} && x.stage !in s'.names
            && s'.inodes == s.inodes
  {
    var steps :| Run(steps, s);
    RunKeepsInv(steps, s);
    assert StagePresent(s, s.writes[w]) && StageComplete(s, s.writes[w]);
  }

  predicate OfAWrite(step: Step) {
    !step.Elsewhere? && !step.NewInode? && !step.Modify? && !step.Free?
  }

  /** Until it commits, and when it fails, a Write changes no name but its
      staging name and no inode but the one it stages. */
  lemma OnlyCommitIsVisible(s: Sys, step: Step, n: Name, i: nat)
    requires Reachable(s) && Enabled(s, step) && OfAWrite(step) && !step.Rename?
    requires n !in Apply(s, step).staged && i in s.inodes && !IsStageInode(s, i)
    ensures var s' := Apply(s, step);
            && (n in s'.names <==> n in s.names) && (n in s.names ==> s'.names[n] == s.names[n])
            && i in s'.inodes && s'.inodes[i] == s.inodes[i]
  {
    var steps :| Run(steps, s);
    RunKeepsInv(steps, s);
    if step.Abort? || step.Copy? {
      assert StagePresent(s, s.writes[step.w]);
    }
  }

  /** A Write that gives up changes nothing but its staging name, which goes if it can
      be removed. */
  lemma FailureLeavesNothing(s: Sys, w: nat, removed: bool)
    requires Reachable(s) && Enabled(s, Step.Abort(w, removed))
    ensures var s', x := Apply(s, Step.Abort(w, removed)), s.writes[w];
            && (HasStage(x) ==> x.stage in s.names && x.stage != x.target)
            && s'.names == s.names - (if HasStage(x) && removed then {x.stage} else {})
            && s'.inodes == s.inodes && s'.log == s.log
  {
    var steps :| Run(steps, s);
    RunKeepsInv(steps, s);
    assert StagePresent(s, s.writes[w]);
  }

  lemma {:induction false} ResultsGrow(s: Sys, k: nat, l: nat)
    requires LogChained(s) && k < l < |s.log|
    requires s.log[k].target == s.log[l].target && s.log[k].target !in s.touched
    ensures s.log[l].base.Some? && s.log[k].result <= s.log[l].base.value < s.log[l].result
    ensures LastAt(s.log[..l], s.log[l].target) == k + 1 ==> s.log[l].base == Some(s.log[k].result)
    decreases l
  {
    assert Chained(s.log, s.touched, l);
    var m := LastAt(s.log[..l], s.log[l].target);
    assert s.log[..l][k].target == s.log[l].target;
    if m - 1 > k {
      ResultsGrow(s, k, m - 1);
    }
  }

  /** No update is lost: at a name only Writes touch, every commit started from
      the outcome of the commit before it, so no two commits, forced or not,
      started from the same state of the name. */
  lemma NoLostUpdate(s: Sys, k: nat, l: nat)
    requires Reachable(s) && k < l < |s.log|
    requires s.log[k].target == s.log[l].target && s.log[k].target !in s.touched
    ensures s.log[k].base != s.log[l].base
    ensures LastAt(s.log[..l], s.log[l].target) == k + 1 ==> s.log[l].base == Some(s.log[k].result)
  {
    var steps :| Run(steps, s);
    RunKeepsInv(steps, s);
    ResultsGrow(s, k, l);
    assert Chained(s.log, s.touched, k);
  }

  // --- The exception ---

  lemma RunExtend(steps: seq<Step>, s: Sys, step: Step)
    requires Run(steps, s) && Enabled(s, step)
    ensures Run(steps + [step], Apply(s, step))
  {
    assert (steps + [step])[..|steps|] == steps;
  }

  lemma ReachableExtend(s: Sys, step: Step)
    requires Reachable(s) && Enabled(s, step)
    ensures Reachable(Apply(s, step))
  {
    var steps :| Run(steps, s);
    RunExtend(steps, s, step);
  }

  function WriteOfA(phase: Phase, stage: Name, ino: nat, gen: nat): Write {
    Write("a", Some(Expected(0, Some(5))), false, 0, Some(Origin(1, 0)), phase, stage, ino, gen, [])
  }

  const ORIGINAL := Inode(0, Regular, [104], 5)

  lemma AWriteOpens() returns (s: Sys)
    ensures Reachable(s)
    ensures s == Sys(map["a" := Node(1)], map[1 := ORIGINAL], 1, map[0 := WriteOfA(Opened, "", 0, 0)], [], {}, {})
  {
    s := Sys(map["a" := Node(1)], map[1 := ORIGINAL], 1, map[], [], {}, {});
    assert Run([], s);
    assert NamesOf(s.names, 1) == {"a"};
    var step := Step.Open(0, "a", Some(Expected(0, Some(5))), false, 0);
    ReachableExtend(s, step);
    s := Apply(s, step);
  }

  const WITH_STAGE: Names := map["a" := Node(1), "t" := Node(2)]

  lemma AWriteStages() returns (s: Sys)
    ensures Reachable(s)
    ensures s == Sys(WITH_STAGE, map[1 := ORIGINAL, 2 := Inode(1, Regular, [], 0)], 2,
                     map[0 := WriteOfA(Staging, "t", 2, 1)], [], {}, {"t"})
  {
    var s0 := AWriteOpens();
    assert "t" !in s0.names && "t" != s0.writes[0].target;
    assert Enabled(s0, Step.Stage(0, "t", 2));
    s := Staged(s0, 0, "t", 2);
    ReachableExtend(s0, Step.Stage(0, "t", 2));
    StagedIs(s0);
  }

  lemma StagedIs(s: Sys)
    requires s.names == map["a" := Node(1)] && s.inodes == map[1 := ORIGINAL] && s.nextGen == 1 && s.staged == {}
    requires s.writes == map[0 := WriteOfA(Opened, "", 0, 0)]
    ensures var s' := Staged(s, 0, "t", 2);
            && s'.names == WITH_STAGE && s'.inodes == map[1 := ORIGINAL, 2 := Inode(1, Regular, [], 0)]
            && s'.writes == map[0 := WriteOfA(Staging, "t", 2, 1)] && s'.staged == {"t"}
  {
  }

  lemma AWriteCopies() returns (s: Sys)
    ensures Reachable(s)
    ensures s == Sys(WITH_STAGE, map[1 := ORIGINAL, 2 := Inode(1, Regular, [], 9)], 2,
                     map[0 := WriteOfA(Copied, "t", 2, 1)], [], {}, {"t"})
  {
    s := AWriteStages();
    ReachableExtend(s, Step.Copy(0, [], 9));
    s := Apply(s, Step.Copy(0, [], 9));
  }

  lemma TheOriginalMoves() returns (s: Sys)
    ensures Reachable(s)
    ensures s.names == map["a" := Link("b"), "b" := Node(1), "t" := Node(2)]
    ensures s.inodes == map[1 := ORIGINAL, 2 := Inode(1, Regular, [], 9)]
    ensures s.writes == map[0 := WriteOfA(Copied, "t", 2, 1)]
  {
    s := AWriteCopies();
    var names: Names := map["a" := Link("b"), "b" := Node(1), "t" := Node(2)];
    ReachableExtend(s, Step.Elsewhere(names));
    s := Apply(s, Step.Elsewhere(names));
  }

  /** The original is renamed to b and a made a link to it while the body travels:
      every check passes, a ends up with the new body, and b keeps the old one. */
  lemma LinkToTheOriginalIsReplaced() returns (s: Sys)
    ensures Reachable(s) && Enabled(s, Step.Rename(0))
    ensures s.writes[0].target == "a" && s.writes[0].origin == Some(Origin(1, 0)) && s.writes[0].expected.Some?
    ensures !s.writes[0].allowOtherNames
    ensures !Holds(s, "a", 0) && Holds(Apply(s, Step.Rename(0)), "b", 0)
  {
    s := TheOriginalMoves();
    assert Confirm(s, s.writes[0]) == Ok by { LinkIsConfirmed(s); }
    ReachableExtend(s, Step.Recheck(0));
    s := Apply(s, Step.Recheck(0));
    LinkIsConfirmed(s);
  }

  lemma LinkIsConfirmed(s: Sys)
    requires s.names == map["a" := Link("b"), "b" := Node(1), "t" := Node(2)]
    requires s.inodes == map[1 := ORIGINAL, 2 := Inode(1, Regular, [], 9)]
    requires s.writes == map[0 := WriteOfA(Copied, "t", 2, 1)] || s.writes == map[0 := WriteOfA(Checked, "t", 2, 1)]
    ensures Confirm(s, s.writes[0]) == Ok
  {
    assert NamesOf(s.names, 1) == {"b"};
    assert Stat(s.names, "b", 39) == Some(1);
  }
}
