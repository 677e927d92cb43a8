/** The boundary every file operation goes through
    (hub/internal/files/guard.go:76-323, hub/internal/files/confine.go:322-375).

    A path is authorized by where it resolves.  A path that does not exist is
    resolved through its deepest existing ancestor.
  */
module Guard {
  import opened Option
  import opened PathConflict
  import opened PathShape
  import opened SymlinkTree

  datatype Mode = Read | Create

  datatype Reason = InvalidPath | NotAllowed | NotFound | PermissionDenied | Unclassified

  datatype Outcome = Resolved(path: Segs) | Refused(reason: Reason)

  // --- Containment ---

  function Common(a: Segs, b: Segs): (n: nat)
    ensures n <= |a| && n <= |b| && a[..n] == b[..n]
    ensures n < |a| && n < |b| ==> a[n] != b[n]
  {
    if a == [] || b == [] || a[0] != b[0] then 0
    else
      var n := Common(a[1..], b[1..]);
      assert a[..n + 1] == [a[0]] + a[1..][..n] && b[..n + 1] == [b[0]] + b[1..][..n];
      n + 1
  }

  function Ups(n: nat): (s: Segs)
    ensures |s| == n && forall i :: 0 <= i < n ==> s[i] == ".."
  {
    seq(n, _ => "..")
  }

  /** filepath.Rel; no segments is ".". */
  function Rel(root: Segs, target: Segs): Segs {
    var n := Common(root, target);
    Ups(|root| - n) + target[n..]
  }

  function RelativeTo(root: Segs, p: Segs): Option<Segs> {
    var rel := Rel(root, p);
    if rel == [] then Some(rel)
    else if rel[0] == ".." then None
    else Some(rel)
  }

  predicate Contains(roots: seq<Segs>, p: Segs) {
    exists i :: 0 <= i < |roots| && RelativeTo(roots[i], p).Some?
  }

  /** Containment compares whole elements, and the relative path leads back. */
  lemma RelativeToMeaning(root: Segs, p: Segs)
    requires ".." !in p
    ensures RelativeTo(root, p).Some? <==> root <= p
    ensures RelativeTo(root, p).Some? ==> root + RelativeTo(root, p).value == p
  {
    var n := Common(root, p);
    if root <= p {
      assert n == |root|;
      assert Rel(root, p) == p[n..];
    } else {
      assert n < |root|;
      assert Rel(root, p)[0] == "..";
    }
  }

  // --- Resolution ---

  function TroubleReason(why: Trouble): Reason {
    match why
    case Denied => PermissionDenied
    case KernelLinks | NameTooLong => InvalidPath
    case OtherTrouble => Unclassified
  }

  function Classified(w: Walked): Reason
    requires !w.Found?
  {
    match w
    case NotExist => NotFound
    case NotDirectory | TooManyLinks => InvalidPath
    case Failed(why) => TroubleReason(why)
  }

  /** A create may not go through a link whose target is missing.  A look-up that
      fails, for whatever reason, finds no link. */
  predicate DanglingAbove(sys: System, segs: Segs, k: nat, mode: Mode)
    requires k < |segs|
  {
    mode == Create && |segs| - k > 1 && Lstat(sys, segs[..k] + [segs[k]]).Present?
    && Lstat(sys, segs[..k] + [segs[k]]).node.Link?
  }

  /** The deepest existing ancestor above position k, with what is missing appended. */
  function CanonicalMissing(sys: System, segs: Segs, k: nat, mode: Mode): Outcome
    requires k <= |segs|
  {
    if k == 0 then Resolved(segs)
    else
      var w := EvalSymlinks(sys, segs[..k - 1], false);
      if w.Found? then
        if DanglingAbove(sys, segs, k - 1, mode) then Refused(NotAllowed) else Resolved(w.path + segs[k - 1..])
      else if w.NotExist? then CanonicalMissing(sys, segs, k - 1, mode)
      else Refused(Classified(w))
  }

  function Canonical(sys: System, raw: string, mode: Mode): Outcome {
    var w := EvalSymlinks(sys, Steps(raw), EndsInSlash(raw));
    if w.Found? then Resolved(w.path)
    else if w.NotExist? then CanonicalMissing(sys, CleanSegs(raw), |CleanSegs(raw)|, mode)
    else Refused(Classified(w))
  }

  /** What a read is refused for when the entry itself cannot be looked up. */
  function ReadRefusal(looked: Looked): Option<Reason> {
    match looked
    case Present(_) => None
    case Missing => Some(NotFound)
    case Unusable => Some(InvalidPath)
    case Troubled(why) => Some(TroubleReason(why))
  }

  function Resolve(sys: System, roots: seq<Segs>, raw: string, mode: Mode): Outcome {
    if !ShapeOk(raw) then Refused(InvalidPath)
    else if IsBlocked(raw) then Refused(NotAllowed)
    else match Canonical(sys, raw, mode)
      case Refused(reason) => Refused(reason)
      case Resolved(p) =>
        if IsBlocked(Spelled(p)) || (roots != [] && !Contains(roots, p)) then Refused(NotAllowed)
        else if mode == Read && ReadRefusal(Lstat(sys, p)).Some? then Refused(ReadRefusal(Lstat(sys, p)).value)
        else Resolved(p)
  }

  // --- What a caller may rely on ---

  predicate LinkAbove(t: Tree, p: Segs) {
    exists i :: 0 <= i < |p| && IsLink(t, p[..i])
  }

  predicate DeepestExisting(sys: System, segs: Segs, k: nat) {
    && k < |segs| && EvalSymlinks(sys, segs[..k], false).Found?
    && forall j :: k < j < |segs| ==> EvalSymlinks(sys, segs[..j], false).NotExist?
  }

  /** There is a dangling link below the ancestor, and the look-up of it failed. */
  predicate Overlooked(sys: System, segs: Segs, k: nat)
    requires DeepestExisting(sys, segs, k)
  {
    && k + 1 < |segs| && sys.fails(segs[..k + 1]).Some?
    && IsLink(sys.tree, EvalSymlinks(sys, segs[..k], false).path + [segs[k]])
  }

  lemma {:induction false} MissingFound(sys: System, segs: Segs, k: nat, mode: Mode) returns (d: nat)
    requires TreeOk(sys.tree) && 0 < k <= |segs| && CanonicalMissing(sys, segs, k, mode).Resolved?
    requires forall j :: k <= j < |segs| ==> EvalSymlinks(sys, segs[..j], false).NotExist?
    ensures DeepestExisting(sys, segs, d) && !DanglingAbove(sys, segs, d, mode)
    ensures CanonicalMissing(sys, segs, k, mode) == Resolved(EvalSymlinks(sys, segs[..d], false).path + segs[d..])
  {
    if EvalSymlinks(sys, segs[..k - 1], false).Found? {
      d := k - 1;
    } else {
      assert k - 1 > 0 by { assert segs[..0] == []; }
      d := MissingFound(sys, segs, k - 1, mode);
    }
  }

  /** The look-up below the deepest existing ancestor finds the link that is there,
      unless it fails. */
  lemma LookupFindsLink(sys: System, segs: Segs, k: nat)
    requires DeepestExisting(sys, segs, k) && sys.fails(segs[..k + 1]).None?
    requires IsLink(sys.tree, EvalSymlinks(sys, segs[..k], false).path + [segs[k]])
    ensures Lstat(sys, segs[..k + 1]).Present? && Lstat(sys, segs[..k + 1]).node.Link?
  {
    assert segs[..k + 1][..k] == segs[..k];
    FoundWhenCalm(sys, [], [], segs[..k], false, 0);
  }

  /** What is appended to the ancestor: a link above the end only if overlooked. */
  lemma LinksAboveMissing(sys: System, segs: Segs, k: nat)
    requires TreeOk(sys.tree) && DeepestExisting(sys, segs, k) && !DanglingAbove(sys, segs, k, Create)
    ensures var r := EvalSymlinks(sys, segs[..k], false).path;
            LinkAbove(sys.tree, r + segs[k..]) <==> Overlooked(sys, segs, k)
  {
    var t := sys.tree;
    var r := EvalSymlinks(sys, segs[..k], false).path;
    var p, entry := r + segs[k..], r + [segs[k]];
    RootPhysical(t);
    WalkFindsPhysical(sys, [], [], segs[..k], false, 0);
    assert segs[..k] + [segs[k]] == segs[..k + 1];
    assert p[..|r| + 1] == entry;
    if k + 1 < |segs| && IsLink(t, entry) {
      assert LinkAbove(t, p);
      if sys.fails(segs[..k + 1]).None? {
        LookupFindsLink(sys, segs, k);
      }
    } else {
      forall i | 0 <= i < |p| ensures !IsLink(t, p[..i]) {
        if i <= |r| {
          assert p[..i] == r[..i];
        } else {
          MissingIsAbsent(sys, segs, k, p, i);
        }
      }
    }
  }

  lemma MissingIsAbsent(sys: System, segs: Segs, k: nat, p: Segs, i: nat)
    requires TreeOk(sys.tree) && DeepestExisting(sys, segs, k) && k + 1 < |segs|
    requires p == EvalSymlinks(sys, segs[..k], false).path + segs[k..]
    requires |EvalSymlinks(sys, segs[..k], false).path| < i <= |p|
    requires !IsLink(sys.tree, EvalSymlinks(sys, segs[..k], false).path + [segs[k]])
    ensures p[..i] !in sys.tree
  {
    var r := EvalSymlinks(sys, segs[..k], false).path;
    assert segs[..k] + [segs[k]] == segs[..k + 1];
    if r + [segs[k]] in sys.tree {
      PresentIsFound(sys, segs[..k], segs[k]);
    }
    assert p[..i][..|r| + 1] == r + [segs[k]];
    NothingBelow(sys.tree, p[..i], |r| + 1);
  }

  lemma {:induction false} OnlyDots(sys: System, dest: Segs, at: Segs, rest: Segs, slash: bool, links: nat)
    requires links <= MAX_LINKS && Without(rest, ".") == []
    ensures Walk(sys, dest, at, rest, slash, links) == Found(dest, links)
    decreases |rest|
  {
    if rest != [] {
      OnlyDots(sys, dest, at, rest[1..], slash, links);
    }
  }

  /** Where a resolution came from: the whole path exists, or its deepest existing
      ancestor was resolved and the missing names appended in order. */
  ghost predicate ComesFrom(sys: System, raw: string, p: Segs) {
    var w, segs := EvalSymlinks(sys, Steps(raw), EndsInSlash(raw)), CleanSegs(raw);
    || (w.Found? && w.path == p)
    || (w.NotExist? && exists k: nat ::
          DeepestExisting(sys, segs, k) && p == EvalSymlinks(sys, segs[..k], false).path + segs[k..])
  }

  ghost predicate SomeOverlooked(sys: System, raw: string) {
    && EvalSymlinks(sys, Steps(raw), EndsInSlash(raw)).NotExist?
    && exists k: nat :: DeepestExisting(sys, CleanSegs(raw), k) && Overlooked(sys, CleanSegs(raw), k)
  }

  lemma DeepestIsUnique(sys: System, segs: Segs, j: nat, k: nat)
    requires DeepestExisting(sys, segs, j) && DeepestExisting(sys, segs, k)
    ensures j == k
  {
  }

  lemma CanonicalMeaning(sys: System, raw: string, p: Segs)
    requires TreeOk(sys.tree) && Canonical(sys, raw, Create) == Resolved(p)
    ensures ComesFrom(sys, raw, p)
    ensures LinkAbove(sys.tree, p) <==> SomeOverlooked(sys, raw)
  {
    var segs := CleanSegs(raw);
    var w := EvalSymlinks(sys, Steps(raw), EndsInSlash(raw));
    if w.Found? {
      RootPhysical(sys.tree);
      WalkFindsPhysical(sys, [], [], Steps(raw), EndsInSlash(raw), 0);
      assert !LinkAbove(sys.tree, p);
    } else {
      if segs == [] {
        OnlyDots(sys, [], [], Steps(raw), EndsInSlash(raw), 0);
      }
      var k := MissingFound(sys, segs, |segs|, Create);
      LinksAboveMissing(sys, segs, k);
      if SomeOverlooked(sys, raw) {
        var j: nat :| DeepestExisting(sys, segs, j) && Overlooked(sys, segs, j);
        DeepestIsUnique(sys, segs, j, k);
      }
    }
  }

  lemma ResolvedAreNames(sys: System, raw: string, p: Segs)
    requires TreeOk(sys.tree) && ShapeOk(raw) && ComesFrom(sys, raw, p)
    ensures AllNames(p)
  {
    var w, segs := EvalSymlinks(sys, Steps(raw), EndsInSlash(raw)), CleanSegs(raw);
    RootPhysical(sys.tree);
    if w.Found? && w.path == p {
      WalkFindsPhysical(sys, [], [], Steps(raw), EndsInSlash(raw), 0);
      PhysicalNames(sys.tree, p);
    } else {
      CleanSegsAreNames(raw);
      var k: nat :| DeepestExisting(sys, segs, k) && p == EvalSymlinks(sys, segs[..k], false).path + segs[k..];
      WalkFindsPhysical(sys, [], [], segs[..k], false, 0);
      PhysicalNames(sys.tree, EvalSymlinks(sys, segs[..k], false).path);
    }
  }

  /** A successful create resolution lies inside some root, is no kernel interface,
      and is the resolved deepest existing ancestor with the missing names
      appended.  A link stands above its last element exactly if it was overlooked. */
  lemma CreateResolution(sys: System, roots: seq<Segs>, raw: string, p: Segs)
    requires TreeOk(sys.tree) && Resolve(sys, roots, raw, Create) == Resolved(p)
    ensures roots != [] ==> exists i :: 0 <= i < |roots| && roots[i] <= p
    ensures p != [] ==> Lower(p[0]) !in KERNEL_INTERFACES
    ensures ComesFrom(sys, raw, p)
    ensures LinkAbove(sys.tree, p) <==> SomeOverlooked(sys, raw)
  {
    CanonicalMeaning(sys, raw, p);
    ResolvedAreNames(sys, raw, p);
    BlockedIsFirstName(p);
    NamesAreNotUps(p);
    if roots != [] {
      var i :| 0 <= i < |roots| && RelativeTo(roots[i], p).Some?;
      RelativeToMeaning(roots[i], p);
    }
  }

  /** A path none of whose ancestors the kernel fails to look up is never
      authorized through a link. */
  lemma NoLinkAbove(sys: System, roots: seq<Segs>, raw: string, p: Segs)
    requires TreeOk(sys.tree) && Resolve(sys, roots, raw, Create) == Resolved(p)
    requires forall k :: 0 < k <= |CleanSegs(raw)| ==> sys.fails(CleanSegs(raw)[..k]).None?
    ensures !LinkAbove(sys.tree, p)
  {
    CreateResolution(sys, roots, raw, p);
  }

  // --- Reading ---

  lemma CanonicalComesFrom(sys: System, raw: string, p: Segs, mode: Mode)
    requires TreeOk(sys.tree) && Canonical(sys, raw, mode) == Resolved(p)
    ensures ComesFrom(sys, raw, p)
  {
    var w, segs := EvalSymlinks(sys, Steps(raw), EndsInSlash(raw)), CleanSegs(raw);
    if !w.Found? {
      if segs == [] {
        OnlyDots(sys, [], [], Steps(raw), EndsInSlash(raw), 0);
      }
      var k := MissingFound(sys, segs, |segs|, mode);
    }
  }

  /** Below the deepest existing ancestor the kernel finds nothing but the next name. */
  lemma OnlyNextIsFound(sys: System, segs: Segs, k: nat)
    requires TreeOk(sys.tree) && DeepestExisting(sys, segs, k)
    requires Lstat(sys, EvalSymlinks(sys, segs[..k], false).path + segs[k..]).Present?
    ensures k + 1 == |segs|
  {
    var w, last := EvalSymlinks(sys, segs[..k], false), |segs| - 1;
    var r, p, more := w.path, w.path + segs[k..], segs[k..last];
    if k < last {
      assert p[..|p| - 1] == r + more && segs[..k] + more == segs[..last];
      assert EvalSymlinks(sys, segs[..last], false).NotExist?;
      RootPhysical(sys.tree);
      WalkFindsPhysical(sys, [], [], segs[..k], false, 0);
      StillMissing(sys, segs[..k], more);
    }
  }

  lemma StillMissing(sys: System, q: Segs, more: Segs)
    requires TreeOk(sys.tree) && more != [] && EvalSymlinks(sys, q, false).Found?
    requires EvalSymlinks(sys, q + more, false).NotExist?
    ensures EvalSymlinks(Calm(sys.tree), EvalSymlinks(sys, q, false).path + more, false).NotExist?
  {
    var w := EvalSymlinks(sys, q, false);
    RootPhysical(sys.tree);
    WalkFindsPhysical(sys, [], [], q, false, 0);
    if sys.tree[w.path] == File {
      FileBlocks(sys, [], [], q, false, 0, more);
    }
    assert w.path[..|w.path|] == w.path && !IsLink(sys.tree, w.path[..|w.path|]);
    var end := WalkOn(sys, [], [], q, false, 0, more);
    MissingWhenCalm(sys, w.path, end, w.path, more, false, w.links, 0);
    PhysicalIsPassed(sys.tree, w.path, 0, more, false);
    assert w.path[..0] == [] && w.path[0..] == w.path;
  }

  /** A resolved path, or a name in a resolved directory, is looked up in the tree. */
  lemma LookedUpInTree(sys: System, p: Segs)
    requires TreeOk(sys.tree) && Lstat(sys, p).Present? && (p == [] || Physical(sys.tree, Parent(p)))
    ensures p in sys.tree && Lstat(sys, p) == Present(sys.tree[p])
    ensures !LinkAbove(sys.tree, p)
  {
    if p != [] {
      var dir := Parent(p);
      PhysicalIsFixed(sys.tree, dir, 0);
      assert dir[..0] == [] && dir[0..] == dir && p == dir + [p[|p| - 1]];
      forall i | 0 <= i < |p| ensures !IsLink(sys.tree, p[..i]) { assert p[..i] == dir[..i]; }
    }
  }

  lemma ReadParentIsPhysical(sys: System, raw: string, p: Segs)
    requires TreeOk(sys.tree) && ComesFrom(sys, raw, p) && Lstat(sys, p).Present?
    ensures p == [] || Physical(sys.tree, Parent(p))
  {
    var w, segs := EvalSymlinks(sys, Steps(raw), EndsInSlash(raw)), CleanSegs(raw);
    RootPhysical(sys.tree);
    if w.Found? && w.path == p {
      WalkFindsPhysical(sys, [], [], Steps(raw), EndsInSlash(raw), 0);
      PhysicalParent(sys.tree, p);
    } else {
      var k: nat :| DeepestExisting(sys, segs, k) && p == EvalSymlinks(sys, segs[..k], false).path + segs[k..];
      OnlyNextIsFound(sys, segs, k);
      WalkFindsPhysical(sys, [], [], segs[..k], false, 0);
      assert Parent(p) == EvalSymlinks(sys, segs[..k], false).path;
    }
  }

  /** What a read is given lies inside some root, is no kernel interface, is where the
      path resolves, and is an entry that exists, reached through no link; whatever
      look-ups the kernel fails. */
  lemma ReadResolution(sys: System, roots: seq<Segs>, raw: string, p: Segs)
    requires TreeOk(sys.tree) && Resolve(sys, roots, raw, Read) == Resolved(p)
    ensures roots != [] ==> exists i :: 0 <= i < |roots| && roots[i] <= p
    ensures p != [] ==> Lower(p[0]) !in KERNEL_INTERFACES
    ensures ComesFrom(sys, raw, p)
    ensures p in sys.tree && Lstat(sys, p) == Present(sys.tree[p]) && !LinkAbove(sys.tree, p)
  {
    CanonicalComesFrom(sys, raw, p, Read);
    ResolvedAreNames(sys, raw, p);
    BlockedIsFirstName(p);
    NamesAreNotUps(p);
    ReadParentIsPhysical(sys, raw, p);
    LookedUpInTree(sys, p);
    if roots != [] {
      var i :| 0 <= i < |roots| && RelativeTo(roots[i], p).Some?;
      RelativeToMeaning(roots[i], p);
    }
  }

  /** The two tests that every resolved path is put to. */
  lemma TestsMean(roots: seq<Segs>, p: Segs)
    requires AllNames(p)
    ensures IsBlocked(Spelled(p)) <==> p != [] && Lower(p[0]) in KERNEL_INTERFACES
    ensures Contains(roots, p) <==> exists i :: 0 <= i < |roots| && roots[i] <= p
  {
    BlockedIsFirstName(p);
    NamesAreNotUps(p);
    forall i | 0 <= i < |roots| ensures RelativeTo(roots[i], p).Some? <==> roots[i] <= p {
      RelativeToMeaning(roots[i], p);
    }
  }

  lemma CanonicalAreNames(sys: System, raw: string, p: Segs, mode: Mode)
    requires TreeOk(sys.tree) && ShapeOk(raw) && Canonical(sys, raw, mode) == Resolved(p)
    ensures AllNames(p)
  {
    CanonicalComesFrom(sys, raw, p, mode);
    ResolvedAreNames(sys, raw, p);
  }

  /** What resolves outside every root, or to a kernel interface, is not allowed,
      whether or not it exists and whatever it is wanted for. */
  lemma OutsideIsRefused(sys: System, roots: seq<Segs>, raw: string, mode: Mode, p: Segs)
    requires TreeOk(sys.tree) && ShapeOk(raw) && Canonical(sys, raw, mode) == Resolved(p)
    requires || (roots != [] && forall i :: 0 <= i < |roots| ==> !(roots[i] <= p))
             || (p != [] && Lower(p[0]) in KERNEL_INTERFACES)
    ensures Resolve(sys, roots, raw, mode) == Refused(NotAllowed)
  {
    CanonicalAreNames(sys, raw, p, mode);
    TestsMean(roots, p);
  }

  lemma AnswerOfTests(sys: System, roots: seq<Segs>, raw: string, mode: Mode, p: Segs)
    requires ShapeOk(raw) && !IsBlocked(raw) && Canonical(sys, raw, mode) == Resolved(p)
    requires !IsBlocked(Spelled(p)) && (roots == [] || Contains(roots, p))
    ensures Resolve(sys, roots, raw, mode) == Resolved(p) <==> mode == Create || Lstat(sys, p).Present?
    ensures mode == Read && Lstat(sys, p) == Missing ==> Resolve(sys, roots, raw, mode) == Refused(NotFound)
    ensures mode == Read && Lstat(sys, p) == Troubled(Denied) ==>
              Resolve(sys, roots, raw, mode) == Refused(PermissionDenied)
  {
  }

  /** And what resolves inside is given: to a create as it is, to a read if the kernel
      finds it. */
  lemma InsideIsGiven(sys: System, roots: seq<Segs>, raw: string, mode: Mode, p: Segs)
    requires TreeOk(sys.tree) && ShapeOk(raw) && !IsBlocked(raw) && Canonical(sys, raw, mode) == Resolved(p)
    requires roots == [] || exists i :: 0 <= i < |roots| && roots[i] <= p
    requires p == [] || Lower(p[0]) !in KERNEL_INTERFACES
    ensures Resolve(sys, roots, raw, mode) == Resolved(p) <==> mode == Create || Lstat(sys, p).Present?
    ensures mode == Read && Lstat(sys, p) == Missing ==> Resolve(sys, roots, raw, mode) == Refused(NotFound)
    ensures mode == Read && Lstat(sys, p) == Troubled(Denied) ==>
              Resolve(sys, roots, raw, mode) == Refused(PermissionDenied)
  {
    CanonicalAreNames(sys, raw, p, mode);
    TestsMean(roots, p);
    AnswerOfTests(sys, roots, raw, mode, p);
  }

  // --- The guard ---

  /** The missing names were collected from the last to the first. */
  method JoinMissing(r: Segs, missing: Segs, ghost names: Segs) returns (resolved: Segs)
    requires |missing| == |names| && forall j :: 0 <= j < |names| ==> missing[j] == names[|names| - 1 - j]
    ensures resolved == r + names
  {
    resolved := r;
    var i := |missing|;
    while i > 0
      invariant 0 <= i <= |missing| && resolved == r + names[..|names| - i]
    {
      i := i - 1;
      resolved := resolved + [missing[i]];
      assert names[..|names| - i] == names[..|names| - i - 1] + [missing[i]];
    }
    assert names[..|names|] == names;
  }

  method CanonicalizeMissing(sys: System, segs: Segs, mode: Mode) returns (o: Outcome)
    ensures o == CanonicalMissing(sys, segs, |segs|, mode)
  {
    var missing, current := [], segs;
    while current != []
      invariant current == segs[..|current|] && |missing| == |segs| - |current|
      invariant forall j :: 0 <= j < |missing| ==> missing[j] == segs[|segs| - 1 - j]
      invariant CanonicalMissing(sys, segs, |segs|, mode) == CanonicalMissing(sys, segs, |current|, mode)
      decreases |current|
    {
      missing := missing + [current[|current| - 1]];
      current := Parent(current);
      assert current == segs[..|current|] && missing[|missing| - 1] == segs[|current|];
      var w := EvalSymlinks(sys, current, false);
      if w.Found? {
        if mode == Create && |missing| > 1 {
          var info := Lstat(sys, current + [missing[|missing| - 1]]);
          if info.Present? && info.node.Link? {
            return Refused(NotAllowed);
          }
        }
        var resolved := JoinMissing(w.path, missing, segs[|current|..]);
        return Resolved(resolved);
      }
      if !w.NotExist? {
        return Refused(Classified(w));
      }
    }
    return Resolved(segs);
  }

  method Canonicalize(sys: System, raw: string, mode: Mode) returns (o: Outcome)
    ensures o == Canonical(sys, raw, mode)
  {
    var w := EvalSymlinks(sys, Steps(raw), EndsInSlash(raw));
    if w.Found? {
      return Resolved(w.path);
    }
    if !w.NotExist? {
      return Refused(Classified(w));
    }
    o := CanonicalizeMissing(sys, CleanSegs(raw), mode);
  }

  /** A path in the form an operation is given: relative to an open root, or
      absolute where there are no roots, or refused. */
  datatype Confined = Confined(handle: Option<Segs>, path: Segs, abs: Segs, refused: bool)

  class RootSet {
    const roots: seq<Segs>
    var handles: seq<Segs>
    var closed: bool

    ghost predicate Valid()
      reads this
    {
      !closed ==> handles == roots
    }

    constructor (roots: seq<Segs>)
      ensures Valid() && this.roots == roots && !closed
    {
      this.roots, handles, closed := roots, roots, false;
    }

    /** The roots stay, so that a closed set does not look unrestricted. */
    method Close()
      modifies this
      ensures Valid() && closed && handles == []
    {
      handles, closed := [], true;
    }

    method ContainsPath(p: Segs) returns (inside: bool)
      ensures inside <==> Contains(roots, p)
    {
      for i := 0 to |roots|
        invariant forall j :: 0 <= j < i ==> RelativeTo(roots[j], p).None?
      {
        if RelativeTo(roots[i], p).Some? {
          return true;
        }
      }
      return false;
    }

    method ResolvePath(sys: System, raw: string, mode: Mode) returns (o: Outcome)
      ensures o == Resolve(sys, roots, raw, mode)
    {
      if !ShapeOk(raw) {
        return Refused(InvalidPath);
      }
      if IsBlocked(raw) {
        return Refused(NotAllowed);
      }
      o := Canonicalize(sys, raw, mode);
      if o.Refused? {
        return;
      }
      if IsBlocked(Spelled(o.path)) {
        return Refused(NotAllowed);
      }
      var inside := ContainsPath(o.path);
      if roots != [] && !inside {
        return Refused(NotAllowed);
      }
      if mode == Read {
        var refusal := ReadRefusal(Lstat(sys, o.path));
        if refusal.Some? {
          return Refused(refusal.value);
        }
      }
    }

    /** An open set accepts a path it contains, through the first root that does,
        and the handle joined to the relative path is the path again. */
    method Confine(p: Segs) returns (c: Confined)
      requires Valid() && ".." !in p
      ensures c.abs == p
      ensures c.refused <==> closed || (roots != [] && forall i :: 0 <= i < |roots| ==> !(roots[i] <= p))
      ensures !c.refused && roots == [] ==> c.handle == None && c.path == p
      ensures !c.refused && roots != [] ==>
                exists i :: 0 <= i < |roots| && c.handle == Some(roots[i]) && roots[i] + c.path == p
                            && forall j :: 0 <= j < i ==> !(roots[j] <= p)
    {
      if closed {
        return Confined(None, p, p, true);
      }
      for i := 0 to |roots|
        invariant forall j :: 0 <= j < i ==> !(roots[j] <= p)
      {
        RelativeToMeaning(roots[i], p);
        var rel := RelativeTo(roots[i], p);
        if rel.Some? {
          return Confined(Some(handles[i]), rel.value, p, false);
        }
      }
      return Confined(None, p, p, roots != []);
    }

    /** The two calls every write begins with: what is resolved for a create is
        accepted by an open set. */
    method ResolveAndConfine(sys: System, raw: string) returns (o: Outcome, c: Confined)
      requires Valid() && TreeOk(sys.tree)
      ensures o == Resolve(sys, roots, raw, Create)
      ensures o.Resolved? ==> c.abs == o.path && (c.refused <==> closed)
      ensures o.Resolved? && !closed && roots != [] ==> c.handle.Some? && c.handle.value + c.path == o.path
    {
      o := ResolvePath(sys, raw, Create);
      if o.Refused? {
        return o, Confined(None, [], [], true);
      }
      CreateResolution(sys, roots, raw, o.path);
      ResolvedAreNames(sys, raw, o.path);
      NamesAreNotUps(o.path);
      c := Confine(o.path);
    }
  }
}
