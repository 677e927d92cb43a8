/** What happened to a path while a read of it was travelling
    (hub/web/src/files/pathChanges.ts:55-123).

    The browser keeps a list of the renames and removals it saw succeed.  A read
    remembers the generation it started in and later asks where its path is now.
    The list is proved here against a file tree in which names may be vacated and
    taken again by other files.
  */
module PathChanges {
  import opened Option

  type Path = string

  datatype Change = Change(from: Path, to: Path, removed: bool, generation: nat)

  // --- Paths ---

  /** The path is the recorded one or an entry beneath it. */
  predicate Covers(recorded: Path, path: Path) {
    path == recorded || (if recorded != [] && recorded[|recorded| - 1] == '/' then recorded <= path
                         else recorded + "/" <= path)
  }

  /** Absolute, and the root is the only path ending in a separator. */
  predicate Clean(p: Path) {
    p != [] && p[0] == '/' && (p == "/" || p[|p| - 1] != '/')
  }

  // --- The list ---

  /** What one change makes of a path. */
  function Moved(c: Change, at: Path): Option<Path> {
    if c.removed then (if Covers(c.from, at) then None else Some(at))
    else if at == c.from then Some(c.to)
    else if c.from + "/" <= at then Some(c.to + at[|c.from|..])
    else Some(at)
  }

  function Resolved(changes: seq<Change>, path: Path, since: nat): Option<Path> {
    if changes == [] then Some(path)
    else
      var last := changes[|changes| - 1];
      match Resolved(changes[..|changes| - 1], path, since)
      case None => None
      case Some(at) => if last.generation <= since then Some(at) else Moved(last, at)
  }

  class Log {
    var changes: seq<Change>
    var current: nat

    constructor ()
      ensures changes == [] && current == 0
    {
      changes, current := [], 0;
    }

    method Record(from: Path, to: Path)
      modifies this
      ensures current == old(current) + 1
      ensures changes == old(changes) + [Change(from, to, false, current)]
    {
      current := current + 1;
      changes := changes + [Change(from, to, false, current)];
    }

    method RecordRemoval(path: Path)
      modifies this
      ensures current == old(current) + 1
      ensures changes == old(changes) + [Change(path, "", true, current)]
    {
      current := current + 1;
      changes := changes + [Change(path, "", true, current)];
    }

    /** What a read captures before it starts is returned by reading `current`. */
    method Resolve(path: Path, since: nat) returns (at: Option<Path>)
      ensures at == Resolved(changes, path, since)
    {
      var now := path;
      for i := 0 to |changes|
        invariant Resolved(changes[..i], path, since) == Some(now)
      {
        var change := changes[i];
        assert changes[..i + 1][..i] == changes[..i];
        if change.generation <= since {
          continue;
        }
        if change.removed {
          if Covers(change.from, now) {
            RemovedStaysRemoved(changes, i + 1, path, since);
            return None;
          }
          continue;
        }
        if now == change.from {
          now := change.to;
        } else if change.from + "/" <= now {
          now := change.to + now[|change.from|..];
        }
      }
      assert changes[..|changes|] == changes;
      return Some(now);
    }

    method Clear()
      modifies this
      ensures changes == [] && current == old(current)
    {
      changes := [];
    }
  }

  lemma {:induction false} RemovedStaysRemoved(changes: seq<Change>, i: nat, path: Path, since: nat)
    requires i <= |changes| && Resolved(changes[..i], path, since) == None
    ensures Resolved(changes, path, since) == None
    decreases |changes| - i
  {
    if i == |changes| {
      assert changes[..i] == changes;
    } else {
      assert changes[..i + 1][..i] == changes[..i];
      RemovedStaysRemoved(changes, i + 1, path, since);
    }
  }

  // --- The file tree the list stands for ---

  /** `files` says which file a path names; `next` is a file that never existed. */
  datatype World = World(files: map<Path, nat>, next: nat, changes: seq<Change>, current: nat)

  datatype Step =
    | Rename(from: Path, to: Path)
    | Remove(path: Path)
    | Create(path: Path)
    | Clear

  /** Paths are clean, and no file has two of them or is still to come. */
  predicate TreeOk(files: map<Path, nat>, next: nat) {
    && (forall p :: p in files ==> Clean(p) && files[p] < next)
    && (forall p, q :: p in files && q in files && files[p] == files[q] ==> p == q)
  }

  predicate Enabled(w: World, step: Step) {
    match step
    case Rename(from, to) =>
      && from in w.files && Clean(to) && !Covers(from, to)
      && (forall p :: p in w.files ==> !Covers(to, p))
    case Remove(path) => path in w.files
    case Create(path) => Clean(path) && path !in w.files
    case Clear => true
  }

  /** Where a rename takes a path. */
  function Dest(from: Path, to: Path, p: Path): Path {
    if Covers(from, p) && |from| <= |p| then to + p[|from|..] else p
  }

  /** A rename takes along everything beneath the path; Dest(to, from, _) leads back. */
  function RenamedFiles(files: map<Path, nat>, from: Path, to: Path): map<Path, nat> {
    map p | p in (set q | q in files :: Dest(from, to, q)) && Dest(to, from, p) in files :: files[Dest(to, from, p)]
  }

  function Apply(w: World, step: Step): World
    requires Enabled(w, step)
  {
    match step
    case Rename(from, to) =>
      World(RenamedFiles(w.files, from, to), w.next,
            w.changes + [Change(from, to, false, w.current + 1)], w.current + 1)
    case Remove(path) =>
      World(map p | p in w.files && !Covers(path, p) :: w.files[p], w.next,
            w.changes + [Change(path, "", true, w.current + 1)], w.current + 1)
    case Create(path) => w.(files := w.files[path := w.next], next := w.next + 1)
    case Clear => w.(changes := [])
  }

  /** Steps taken while no read may be forgotten. */
  ghost predicate Run(w: World, steps: seq<Step>, w': World) {
    if steps == [] then w' == w
    else
      var last := |steps| - 1;
      exists before :: Run(w, steps[..last], before) && Follows(before, steps[last], w')
  }

  predicate Follows(w: World, step: Step, w': World) {
    !step.Clear? && Enabled(w, step) && w' == Apply(w, step)
  }

  predicate LogOk(w: World) {
    forall i :: 0 <= i < |w.changes| ==> w.changes[i].generation <= w.current
  }

  ghost predicate Inv(w: World) {
    TreeOk(w.files, w.next) && LogOk(w)
  }

  /** What the path of a file tells of where the file is. */
  predicate Located(at: Option<Path>, files: map<Path, nat>, file: nat) {
    match at
    case Some(p) => p in files && files[p] == file
    case None => forall p :: p in files ==> files[p] != file
  }

  lemma DestBack(from: Path, to: Path, p: Path)
    requires from != [] && to != [] && from[|from| - 1] != '/' && to[|to| - 1] != '/' && !Covers(to, p)
    ensures Dest(to, from, Dest(from, to, p)) == p
  {
    if Covers(from, p) {
      var q := to + p[|from|..];
      if p != from {
        assert q[..|to| + 1] == to + "/";
      }
      assert from + q[|to|..] == p;
    }
  }

  /** The root is neither renamed nor the destination of a rename. */
  lemma RenameEnds(w: World, from: Path, to: Path)
    requires TreeOk(w.files, w.next) && Enabled(w, Rename(from, to))
    ensures from[|from| - 1] != '/' && to[|to| - 1] != '/'
  {
    assert Covers("/", to) && Covers("/", from);
  }

  lemma RenameMoves(w: World, from: Path, to: Path, p: Path)
    requires TreeOk(w.files, w.next) && Enabled(w, Rename(from, to)) && p in w.files
    ensures Dest(from, to, p) in RenamedFiles(w.files, from, to)
    ensures RenamedFiles(w.files, from, to)[Dest(from, to, p)] == w.files[p]
  {
    RenameEnds(w, from, to);
    DestBack(from, to, p);
  }

  /** Every path after a rename is where it took some path before. */
  lemma RenameOnlyMoves(w: World, from: Path, to: Path, q: Path) returns (p: Path)
    requires TreeOk(w.files, w.next) && Enabled(w, Rename(from, to)) && q in RenamedFiles(w.files, from, to)
    ensures p in w.files && Dest(from, to, p) == q && RenamedFiles(w.files, from, to)[q] == w.files[p]
  {
    p :| p in w.files && Dest(from, to, p) == q;
    RenameMoves(w, from, to, p);
  }

  lemma DestClean(from: Path, to: Path, p: Path)
    requires Clean(p) && Clean(to) && Clean(from) && from != "/"
    ensures Clean(Dest(from, to, p))
  {
  }

  lemma TreeOkKept(w: World, step: Step)
    requires TreeOk(w.files, w.next) && Enabled(w, step)
    ensures TreeOk(Apply(w, step).files, Apply(w, step).next)
  {
    if step.Rename? {
      var files := Apply(w, step).files;
      RenameEnds(w, step.from, step.to);
      forall q | q in files ensures Clean(q) && files[q] < w.next {
        var p := RenameOnlyMoves(w, step.from, step.to, q);
        DestClean(step.from, step.to, p);
      }
      forall q, r | q in files && r in files && files[q] == files[r] ensures q == r {
        var a := RenameOnlyMoves(w, step.from, step.to, q);
        var b := RenameOnlyMoves(w, step.from, step.to, r);
      }
    }
  }

  /** The recorded change says where the step took the file. */
  lemma StepLocates(w: World, step: Step, p: Path)
    requires TreeOk(w.files, w.next) && Enabled(w, step) && (step.Rename? || step.Remove?) && p in w.files
    ensures var w' := Apply(w, step); Located(Moved(w'.changes[|w.changes|], p), w'.files, w.files[p])
  {
    if step.Rename? {
      RenameEnds(w, step.from, step.to);
      RenameMoves(w, step.from, step.to, p);
      assert Moved(Apply(w, step).changes[|w.changes|], p) == Some(Dest(step.from, step.to, p));
    }
  }

  /** A file that is gone stays gone. */
  lemma GoneStaysGone(w: World, step: Step, file: nat)
    requires TreeOk(w.files, w.next) && Enabled(w, step) && file < w.next && Located(None, w.files, file)
    ensures Located(None, Apply(w, step).files, file)
  {
    var files := Apply(w, step).files;
    forall q | q in files ensures files[q] != file {
      if step.Rename? {
        var p := RenameOnlyMoves(w, step.from, step.to, q);
      }
    }
  }

  /** Every step, Clear included, keeps what the results below start from. */
  lemma InvKept(w: World, step: Step)
    requires Inv(w) && Enabled(w, step)
    ensures Inv(Apply(w, step))
  {
    TreeOkKept(w, step);
  }

  lemma {:induction false} OldChangesIgnored(changes: seq<Change>, p: Path, since: nat)
    requires forall i :: 0 <= i < |changes| ==> changes[i].generation <= since
    ensures Resolved(changes, p, since) == Some(p)
    decreases |changes|
  {
    if changes != [] {
      OldChangesIgnored(changes[..|changes| - 1], p, since);
    }
  }

  /** A read that started at w, whatever has happened since, finds the file it
      read: at its present path if it still has one, and nowhere exactly if it was
      removed, even if its old names now belong to other files. */
  lemma {:induction false} ResolveFollowsTheFile(w: World, steps: seq<Step>, w': World, p: Path)
    requires Inv(w) && Run(w, steps, w') && p in w.files
    ensures Inv(w') && w.current <= w'.current && w.next <= w'.next
    ensures Located(Resolved(w'.changes, p, w.current), w'.files, w.files[p])
    decreases |steps|
  {
    if steps == [] {
      OldChangesIgnored(w.changes, p, w.current);
    } else {
      var last := |steps| - 1;
      var before :| Run(w, steps[..last], before) && Follows(before, steps[last], w');
      ResolveFollowsTheFile(w, steps[..last], before, p);
      OneMoreStep(before, steps[last], p, w.current, w.files[p]);
    }
  }

  lemma ResolvedAppend(changes: seq<Change>, c: Change, p: Path, since: nat)
    requires c.generation > since
    ensures Resolved(changes + [c], p, since)
            == if Resolved(changes, p, since).None? then None else Moved(c, Resolved(changes, p, since).value)
  {
    assert (changes + [c])[..|changes|] == changes;
  }

  lemma OneMoreStep(w: World, step: Step, p: Path, since: nat, file: nat)
    requires Inv(w) && Enabled(w, step) && !step.Clear? && since <= w.current && file < w.next
    requires Located(Resolved(w.changes, p, since), w.files, file)
    ensures var w' := Apply(w, step); Inv(w') && Located(Resolved(w'.changes, p, since), w'.files, file)
  {
    InvKept(w, step);
    if !step.Create? {
      ResolvedAppend(w.changes, Apply(w, step).changes[|w.changes|], p, since);
      match Resolved(w.changes, p, since)
      case Some(at) => StepLocates(w, step, at);
      case None => GoneStaysGone(w, step, file);
    }
  }

  /** Clearing the list while a read travels is harmless to that read exactly if
      the file is still where the read started, which is exactly if the list would
      have answered the old path. */
  lemma ClearForgets(w: World, steps: seq<Step>, w': World, p: Path)
    requires Inv(w) && Run(w, steps, w') && p in w.files
    ensures var c := Apply(w', Clear);
            Located(Resolved(c.changes, p, w.current), c.files, w.files[p])
            <==> p in w'.files && w'.files[p] == w.files[p]
    ensures Resolved(w'.changes, p, w.current) == Some(p) <==> p in w'.files && w'.files[p] == w.files[p]
  {
    ResolveFollowsTheFile(w, steps, w', p);
  }

  /** The file is renamed and the list cleared while the read travels: the read is
      told its old path, where there is nothing. */
  lemma ClearMayMislead() returns (w: World, steps: seq<Step>, w': World)
    ensures Inv(w) && Run(w, steps, w') && "/a" in w.files
    ensures var c := Apply(w', Clear);
            && Resolved(c.changes, "/a", w.current) == Some("/a") && "/a" !in c.files
            && "/b" in c.files && c.files["/b"] == w.files["/a"]
  {
    w := World(map["/a" := 0], 1, [], 0);
    steps := [Rename("/a", "/b")];
    assert Enabled(w, steps[0]);
    w' := Apply(w, steps[0]);
    assert steps[..0] == [] && Run(w, steps[..0], w);
    assert Dest("/a", "/b", "/a") == "/b" && Dest("/b", "/a", "/b") == "/a";
    RenameMoves(w, "/a", "/b", "/a");
    if "/a" in w'.files {
      var p := RenameOnlyMoves(w, "/a", "/b", "/a");
    }
  }
}
