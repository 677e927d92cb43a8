/** A fixed file tree with symbolic links, and the walk of filepath.EvalSymlinks
    that hub/internal/files/guard.go:165-306 relies on.

    Paths are absolute and given by their segments.  A resolved path is one that
    meets no link.
  */
module SymlinkTree {
  import opened Option
  import opened PathShape

  /** `slash` says that the link's text ends in a separator. */
  datatype Node = Directory | File | Link(absolute: bool, target: Segs, slash: bool)

  type Tree = map<Segs, Node>

  predicate IsLink(t: Tree, p: Segs) {
    p in t && t[p].Link?
  }

  /** The root is a directory, every entry lies in one, and names are names. */
  predicate TreeOk(t: Tree) {
    && [] in t && t[[]] == Directory
    && forall p {:trigger EntryOk(t, p)} :: p in t ==> EntryOk(t, p)
  }

  predicate EntryOk(t: Tree, p: Segs) {
    p != [] ==> Parent(p) in t && t[Parent(p)] == Directory && IsName(p[|p| - 1])
  }

  function Parent(p: Segs): Segs {
    if p == [] then [] else p[..|p| - 1]
  }

  /** Where a link's text is walked from, having stood in `dest`. */
  function LinkStart(dest: Segs, absolute: bool): Segs {
    if absolute then [] else dest
  }

  /** Whether the path ends in a separator once a link's text stands for its name. */
  function LinkSlash(others: Segs, s: bool, slash: bool): bool {
    slash || (s && others == [])
  }

  /** What can go wrong with a look-up besides what is in the tree: a directory
      that may not be searched, more links than the kernel follows, a path or name
      too long for it, or anything else. */
  datatype Trouble = Denied | KernelLinks | NameTooLong | OtherTrouble

  /** `fails` answers for each path as it is handed to the kernel, unresolved. */
  datatype System = System(tree: Tree, fails: Segs -> Option<Trouble>)

  /** The tree alone, where no look-up goes wrong. */
  function Calm(t: Tree): System {
    System(t, _ => None)
  }

  datatype Walked = Found(path: Segs, links: nat) | NotExist | NotDirectory | TooManyLinks | Failed(why: Trouble)

  const MAX_LINKS := 255

  /** Going up from where the walk stands, in its own spelling: the last name goes,
      but below the root dot-dot is written out and left to the kernel. */
  function Up(at: Segs): Segs {
    if |at| <= 1 || at[|at| - 1] == ".." then at + [".."] else at[..|at| - 1]
  }

  /** The walk, having resolved `dest`, which it spells `at`, and followed `links`
      links; `slash` says that the rest of the path ends in a separator. */
  function Walk(sys: System, dest: Segs, at: Segs, rest: Segs, slash: bool, links: nat): (w: Walked)
    requires links <= MAX_LINKS
    ensures w.Found? ==> links <= w.links <= MAX_LINKS
    decreases MAX_LINKS - links, |rest|
  {
    if rest == [] then Found(dest, links)
    else
      var name, others := rest[0], rest[1..];
      var next, spelled := dest + [name], at + [name];
      if name == "." then Walk(sys, dest, at, others, slash, links)
      else if name == ".." then Walk(sys, Parent(dest), Up(at), others, slash, links)
      else if sys.fails(spelled).Some? then Failed(sys.fails(spelled).value)
      else if next !in sys.tree then NotExist
      else match sys.tree[next]
        case Directory => Walk(sys, next, spelled, others, slash, links)
        case File => if others != [] || slash then NotDirectory else Found(next, links)
        case Link(absolute, target, s) =>
          if links == MAX_LINKS then TooManyLinks
          else Walk(sys, LinkStart(dest, absolute), LinkStart(at, absolute), target + others,
                    LinkSlash(others, s, slash), links + 1)
  }

  function EvalSymlinks(sys: System, p: Segs, slash: bool): Walked {
    Walk(sys, [], [], p, slash, 0)
  }

  datatype Looked = Present(node: Node) | Missing | Unusable | Troubled(why: Trouble)

  /** What the kernel finds at the last element, which it does not follow; the
      path is handed to it as it is. */
  function Lstat(sys: System, p: Segs): Looked {
    if sys.fails(p).Some? then Troubled(sys.fails(p).value)
    else if p == [] then Present(Directory)
    else match EvalSymlinks(Calm(sys.tree), p[..|p| - 1], false)
      case Found(dir, _) =>
        var entry := dir + [p[|p| - 1]];
        if entry in sys.tree then Present(sys.tree[entry])
        else if dir in sys.tree && sys.tree[dir] == Directory then Missing
        else Unusable
      case NotExist => Missing
      case _ => Unusable
  }

  /** The path exists and neither it nor anything above it is a link. */
  predicate Physical(t: Tree, p: Segs) {
    p in t && forall i :: 0 <= i <= |p| ==> !IsLink(t, p[..i])
  }

  lemma PhysicalChild(t: Tree, p: Segs, name: string)
    requires Physical(t, p) && p + [name] in t && !t[p + [name]].Link?
    ensures Physical(t, p + [name])
  {
    var q := p + [name];
    forall i | 0 <= i <= |q| ensures !IsLink(t, q[..i]) {
      if i <= |p| {
        assert q[..i] == p[..i];
      } else {
        assert q[..i] == q;
      }
    }
  }

  lemma PhysicalParent(t: Tree, p: Segs)
    requires TreeOk(t) && Physical(t, p)
    ensures Physical(t, Parent(p))
  {
    assert EntryOk(t, p);
    if p != [] {
      var q := Parent(p);
      forall i | 0 <= i <= |q| ensures !IsLink(t, q[..i]) {
        assert q[..i] == p[..i];
      }
    }
  }

  lemma {:induction false} PhysicalNames(t: Tree, p: Segs)
    requires TreeOk(t) && Physical(t, p)
    ensures forall i :: 0 <= i < |p| ==> IsName(p[i])
    decreases |p|
  {
    assert EntryOk(t, p);
    if p != [] {
      PhysicalParent(t, p);
      PhysicalNames(t, Parent(p));
      assert forall i :: 0 <= i < |p| - 1 ==> p[i] == Parent(p)[i];
    }
  }

  lemma RootPhysical(t: Tree)
    requires TreeOk(t)
    ensures Physical(t, [])
  {
  }

  /** What the walk finds exists and meets no link. */
  lemma {:induction false} WalkFindsPhysical(sys: System, dest: Segs, at: Segs, rest: Segs, slash: bool, links: nat)
    requires TreeOk(sys.tree) && Physical(sys.tree, dest) && links <= MAX_LINKS
    requires Walk(sys, dest, at, rest, slash, links).Found?
    ensures Physical(sys.tree, Walk(sys, dest, at, rest, slash, links).path)
    decreases MAX_LINKS - links, |rest|
  {
    if rest == [] {
    } else if rest[0] == "." {
      WalkFindsPhysical(sys, dest, at, rest[1..], slash, links);
    } else if rest[0] == ".." {
      PhysicalParent(sys.tree, dest);
      WalkFindsPhysical(sys, Parent(dest), Up(at), rest[1..], slash, links);
    } else {
      var next, spelled := dest + [rest[0]], at + [rest[0]];
      match sys.tree[next] {
        case Directory =>
          PhysicalChild(sys.tree, dest, rest[0]);
          WalkFindsPhysical(sys, next, spelled, rest[1..], slash, links);
        case File =>
          PhysicalChild(sys.tree, dest, rest[0]);
        case Link(absolute, target, s) =>
          RootPhysical(sys.tree);
          WalkFindsPhysical(
            sys, LinkStart(dest, absolute), LinkStart(at, absolute), target + rest[1..],
            LinkSlash(rest[1..], s, slash), links + 1);
      }
    }
  }

  /** What the walk finds despite trouble it finds without. */
  lemma {:induction false} FoundWhenCalm(sys: System, dest: Segs, at: Segs, rest: Segs, slash: bool, links: nat)
    requires links <= MAX_LINKS && Walk(sys, dest, at, rest, slash, links).Found?
    ensures Walk(Calm(sys.tree), dest, at, rest, slash, links) == Walk(sys, dest, at, rest, slash, links)
    decreases MAX_LINKS - links, |rest|
  {
    if rest == [] {
    } else if rest[0] == "." {
      FoundWhenCalm(sys, dest, at, rest[1..], slash, links);
    } else if rest[0] == ".." {
      FoundWhenCalm(sys, Parent(dest), Up(at), rest[1..], slash, links);
    } else {
      var next, spelled := dest + [rest[0]], at + [rest[0]];
      match sys.tree[next] {
        case Directory => FoundWhenCalm(sys, next, spelled, rest[1..], slash, links);
        case File =>
        case Link(absolute, target, s) =>
          FoundWhenCalm(sys, LinkStart(dest, absolute), LinkStart(at, absolute), target + rest[1..],
                        LinkSlash(rest[1..], s, slash), links + 1);
      }
    }
  }

  /** More names after what was found: the walk goes on there. */
  lemma {:induction false} WalkOn(
      sys: System, dest: Segs, at: Segs, rest: Segs, slash: bool, links: nat, more: Segs)
    returns (end: Segs)
    requires links <= MAX_LINKS && Walk(sys, dest, at, rest, slash, links).Found?
    requires var w := Walk(sys, dest, at, rest, slash, links); w.path in sys.tree ==> sys.tree[w.path] != File
    requires more != []
    ensures var w := Walk(sys, dest, at, rest, slash, links);
            Walk(sys, dest, at, rest + more, false, links) == Walk(sys, w.path, end, more, false, w.links)
    decreases MAX_LINKS - links, |rest|
  {
    end := at;
    if rest == [] {
      assert rest + more == more;
    } else {
      assert (rest + more)[1..] == rest[1..] + more;
      if rest[0] == "." {
        end := WalkOn(sys, dest, at, rest[1..], slash, links, more);
      } else if rest[0] == ".." {
        end := WalkOn(sys, Parent(dest), Up(at), rest[1..], slash, links, more);
      } else {
        var next, spelled := dest + [rest[0]], at + [rest[0]];
        match sys.tree[next] {
          case Directory => end := WalkOn(sys, next, spelled, rest[1..], slash, links, more);
          case File =>
          case Link(absolute, target, s) =>
            assert target + rest[1..] + more == target + (rest[1..] + more);
            end := WalkOn(sys, LinkStart(dest, absolute), LinkStart(at, absolute), target + rest[1..],
                          LinkSlash(rest[1..], s, slash), links + 1, more);
        }
      }
    }
  }

  /** A name present where the walk ended, and no link, is not reported absent. */
  lemma PresentIsFound(sys: System, p: Segs, name: string)
    requires TreeOk(sys.tree) && EvalSymlinks(sys, p, false).Found?
    requires var entry := EvalSymlinks(sys, p, false).path + [name]; entry in sys.tree && !sys.tree[entry].Link?
    ensures !EvalSymlinks(sys, p + [name], false).NotExist?
  {
    var w := EvalSymlinks(sys, p, false);
    var entry := w.path + [name];
    assert EntryOk(sys.tree, entry) && Parent(entry) == w.path;
    var up := WalkOn(sys, [], [], p, false, 0, [name]);
    assert Walk(sys, entry, up + [name], [], false, w.links) == Found(entry, w.links);
  }

  /** Nothing lies below a path that does not exist. */
  lemma {:induction false} NothingBelow(t: Tree, p: Segs, i: nat)
    requires TreeOk(t) && i <= |p| && p[..i] !in t
    ensures p !in t
    decreases |p| - i
  {
    if i < |p| {
      var next := p[..i + 1];
      assert Parent(next) == p[..i] && (next in t ==> EntryOk(t, next));
      NothingBelow(t, p, i + 1);
    } else {
      assert p[..i] == p;
    }
  }

  /** A path that ends in a separator, by its own spelling or by that of the link it
      ends in, is found only if it is a directory. */
  lemma {:induction false} SlashFindsDirectory(sys: System, dest: Segs, at: Segs, rest: Segs, links: nat)
    requires TreeOk(sys.tree) && dest in sys.tree && sys.tree[dest] == Directory
    requires links <= MAX_LINKS && Walk(sys, dest, at, rest, true, links).Found?
    ensures var p := Walk(sys, dest, at, rest, true, links).path; p in sys.tree && sys.tree[p] == Directory
    decreases MAX_LINKS - links, |rest|
  {
    if rest == [] {
    } else if rest[0] == "." {
      SlashFindsDirectory(sys, dest, at, rest[1..], links);
    } else if rest[0] == ".." {
      ParentIsDirectory(sys.tree, dest);
      SlashFindsDirectory(sys, Parent(dest), Up(at), rest[1..], links);
    } else {
      var next, spelled := dest + [rest[0]], at + [rest[0]];
      match sys.tree[next] {
        case Directory => SlashFindsDirectory(sys, next, spelled, rest[1..], links);
        case File =>
        case Link(absolute, target, s) =>
          SlashFindsDirectory(
            sys, LinkStart(dest, absolute), LinkStart(at, absolute), target + rest[1..], links + 1);
      }
    }
  }

  /** A link whose text ends in a separator is followed only to a directory. */
  lemma SlashedLinkIsDirectory(sys: System, q: Segs, name: string)
    requires TreeOk(sys.tree) && IsName(name) && EvalSymlinks(sys, q, false).Found?
    requires var entry := EvalSymlinks(sys, q, false).path + [name];
             IsLink(sys.tree, entry) && sys.tree[entry].slash
    requires EvalSymlinks(sys, q + [name], false).Found?
    ensures var p := EvalSymlinks(sys, q + [name], false).path; p in sys.tree && sys.tree[p] == Directory
  {
    var w := EvalSymlinks(sys, q, false);
    var link := sys.tree[w.path + [name]];
    assert EntryOk(sys.tree, w.path + [name]) && Parent(w.path + [name]) == w.path;
    var end := WalkOn(sys, [], [], q, false, 0, [name]);
    assert link.target + [] == link.target && [name][1..] == [];
    SlashFindsDirectory(
      sys, LinkStart(w.path, link.absolute), LinkStart(end, link.absolute), link.target, w.links + 1);
  }

  /** Nothing can be walked to through a file. */
  lemma {:induction false} FileBlocks(
      sys: System, dest: Segs, at: Segs, rest: Segs, slash: bool, links: nat, more: Segs)
    requires TreeOk(sys.tree) && Physical(sys.tree, dest) && sys.tree[dest] == Directory && more != []
    requires links <= MAX_LINKS && Walk(sys, dest, at, rest, slash, links).Found?
    requires sys.tree[WalkedTo(sys, dest, at, rest, slash, links)] == File
    ensures Walk(sys, dest, at, rest + more, false, links).NotDirectory?
    decreases MAX_LINKS - links, |rest|
  {
    assert (rest + more)[1..] == rest[1..] + more;
    if rest[0] == "." {
      FileBlocks(sys, dest, at, rest[1..], slash, links, more);
    } else if rest[0] == ".." {
      PhysicalParent(sys.tree, dest);
      ParentIsDirectory(sys.tree, dest);
      FileBlocks(sys, Parent(dest), Up(at), rest[1..], slash, links, more);
    } else {
      var next, spelled := dest + [rest[0]], at + [rest[0]];
      match sys.tree[next] {
        case Directory =>
          PhysicalChild(sys.tree, dest, rest[0]);
          FileBlocks(sys, next, spelled, rest[1..], slash, links, more);
        case File =>
        case Link(absolute, target, s) =>
          RootPhysical(sys.tree);
          assert target + rest[1..] + more == target + (rest[1..] + more);
          FileBlocks(sys, LinkStart(dest, absolute), LinkStart(at, absolute), target + rest[1..],
                     LinkSlash(rest[1..], s, slash), links + 1, more);
      }
    }
  }

  function WalkedTo(sys: System, dest: Segs, at: Segs, rest: Segs, slash: bool, links: nat): (p: Segs)
    requires TreeOk(sys.tree) && Physical(sys.tree, dest) && links <= MAX_LINKS
    requires Walk(sys, dest, at, rest, slash, links).Found?
    ensures p in sys.tree
  {
    WalkFindsPhysical(sys, dest, at, rest, slash, links);
    Walk(sys, dest, at, rest, slash, links).path
  }

  lemma ParentIsDirectory(t: Tree, p: Segs)
    requires TreeOk(t) && p in t && t[p] == Directory
    ensures Parent(p) in t && t[Parent(p)] == Directory
  {
    assert EntryOk(t, p);
  }

  /** What is absent in spite of trouble is absent without, by any spelling and
      after fewer links. */
  lemma {:induction false} MissingWhenCalm(
      sys: System, dest: Segs, at: Segs, at': Segs, rest: Segs, slash: bool, links: nat, links': nat)
    requires links' <= links <= MAX_LINKS && Walk(sys, dest, at, rest, slash, links).NotExist?
    ensures Walk(Calm(sys.tree), dest, at', rest, slash, links').NotExist?
    decreases MAX_LINKS - links, |rest|
  {
    if rest[0] == "." {
      MissingWhenCalm(sys, dest, at, at', rest[1..], slash, links, links');
    } else if rest[0] == ".." {
      MissingWhenCalm(sys, Parent(dest), Up(at), Up(at'), rest[1..], slash, links, links');
    } else if dest + [rest[0]] in sys.tree {
      var next, spelled, spelled' := dest + [rest[0]], at + [rest[0]], at' + [rest[0]];
      match sys.tree[next] {
        case Directory => MissingWhenCalm(sys, next, spelled, spelled', rest[1..], slash, links, links');
        case File =>
        case Link(absolute, target, s) =>
          MissingWhenCalm(sys, LinkStart(dest, absolute), LinkStart(at, absolute), LinkStart(at', absolute),
                          target + rest[1..], LinkSlash(rest[1..], s, slash), links + 1, links' + 1);
      }
    }
  }

  /** What is found after some links is found after fewer, by any spelling. */
  lemma {:induction false} FoundAfterFewer(
      t: Tree, dest: Segs, at: Segs, at': Segs, rest: Segs, slash: bool, links: nat, links': nat)
    requires links' <= links <= MAX_LINKS && Walk(Calm(t), dest, at, rest, slash, links).Found?
    ensures Walk(Calm(t), dest, at', rest, slash, links').Found?
    ensures Walk(Calm(t), dest, at', rest, slash, links').path == Walk(Calm(t), dest, at, rest, slash, links).path
    decreases MAX_LINKS - links, |rest|
  {
    if rest == [] {
    } else if rest[0] == "." {
      FoundAfterFewer(t, dest, at, at', rest[1..], slash, links, links');
    } else if rest[0] == ".." {
      FoundAfterFewer(t, Parent(dest), Up(at), Up(at'), rest[1..], slash, links, links');
    } else {
      var next, spelled, spelled' := dest + [rest[0]], at + [rest[0]], at' + [rest[0]];
      match t[next] {
        case Directory => FoundAfterFewer(t, next, spelled, spelled', rest[1..], slash, links, links');
        case File =>
        case Link(absolute, target, s) =>
          FoundAfterFewer(t, LinkStart(dest, absolute), LinkStart(at, absolute), LinkStart(at', absolute),
                          target + rest[1..], LinkSlash(rest[1..], s, slash), links + 1, links' + 1);
      }
    }
  }

  /** A path through a link leads where the link's text leads in its place: from the
      root if the text is absolute, and else from where the link is. */
  lemma LinkIsItsText(t: Tree, q: Segs, name: string, more: Segs)
    requires TreeOk(t) && more != [] && IsName(name) && EvalSymlinks(Calm(t), q, false).Found?
    requires IsLink(t, EvalSymlinks(Calm(t), q, false).path + [name])
    requires EvalSymlinks(Calm(t), q + ([name] + more), false).Found?
    ensures var link := t[EvalSymlinks(Calm(t), q, false).path + [name]];
            var w := EvalSymlinks(Calm(t), (if link.absolute then [] else q) + (link.target + more), false);
            w.Found? && w.path == EvalSymlinks(Calm(t), q + ([name] + more), false).path
  {
    var w := EvalSymlinks(Calm(t), q, false);
    var link := t[w.path + [name]];
    assert EntryOk(t, w.path + [name]) && Parent(w.path + [name]) == w.path;
    var end := WalkOn(Calm(t), [], [], q, false, 0, [name] + more);
    assert ([name] + more)[1..] == more;
    var start, at := LinkStart(w.path, link.absolute), LinkStart(end, link.absolute);
    assert Walk(Calm(t), w.path, end, [name] + more, false, w.links)
           == Walk(Calm(t), start, at, link.target + more, false, w.links + 1);
    if link.absolute {
      assert [] + (link.target + more) == link.target + more;
      FoundAfterFewer(t, [], at, [], link.target + more, false, w.links + 1, 0);
    } else {
      var end' := WalkOn(Calm(t), [], [], q, false, 0, link.target + more);
      FoundAfterFewer(t, w.path, at, end', link.target + more, false, w.links + 1, w.links);
    }
  }

  /** Dot-dot leads to the directory that holds what was resolved so far. */
  lemma UpIsParent(t: Tree, q: Segs, more: Segs)
    requires TreeOk(t) && EvalSymlinks(Calm(t), q, false).Found?
    requires t[WalkedTo(Calm(t), [], [], q, false, 0)] == Directory
    requires EvalSymlinks(Calm(t), q + ([".."] + more), false).Found?
    ensures var w := EvalSymlinks(Calm(t), Parent(EvalSymlinks(Calm(t), q, false).path) + more, false);
            w.Found? && w.path == EvalSymlinks(Calm(t), q + ([".."] + more), false).path
  {
    var w := EvalSymlinks(Calm(t), q, false);
    WalkFindsPhysical(Calm(t), [], [], q, false, 0);
    PhysicalParent(t, w.path);
    ParentIsDirectory(t, w.path);
    var end := WalkOn(Calm(t), [], [], q, false, 0, [".."] + more);
    assert ([".."] + more)[1..] == more;
    FoundAfterFewer(t, Parent(w.path), Up(end), Parent(w.path), more, false, w.links, 0);
    PhysicalIsPassed(t, Parent(w.path), 0, more, false);
    assert Parent(w.path)[..0] == [] && Parent(w.path)[0..] == Parent(w.path);
  }

  /** Walking a resolved directory and on is walking on from there. */
  lemma {:induction false} PhysicalIsPassed(t: Tree, p: Segs, i: nat, more: Segs, slash: bool)
    requires TreeOk(t) && Physical(t, p) && i <= |p| && t[p] == Directory
    ensures Walk(Calm(t), p[..i], p[..i], p[i..] + more, slash, 0) == Walk(Calm(t), p, p, more, slash, 0)
    decreases |p| - i
  {
    if i == |p| {
      assert p[..i] == p && p[i..] + more == more;
    } else {
      var next := p[..i + 1];
      PhysicalPrefix(t, p, i + 1);
      assert EntryOk(t, next) && next[i] == p[i];
      assert p[..i] + [p[i]] == next && (p[i..] + more)[1..] == p[i + 1..] + more;
      if i + 1 < |p| {
        PhysicalPrefix(t, p, i + 2);
        assert EntryOk(t, p[..i + 2]) && Parent(p[..i + 2]) == next;
      } else {
        assert next == p;
      }
      PhysicalIsPassed(t, p, i + 1, more, slash);
    }
  }

  /** A resolved path resolves to itself, through no link. */
  lemma {:induction false} PhysicalIsFixed(t: Tree, p: Segs, i: nat)
    requires TreeOk(t) && Physical(t, p) && i <= |p|
    ensures Walk(Calm(t), p[..i], p[..i], p[i..], false, 0) == Found(p, 0)
    decreases |p| - i
  {
    if i == |p| {
      assert p[..i] == p && p[i..] == [];
    } else {
      var next := p[..i + 1];
      PhysicalPrefix(t, p, i + 1);
      assert EntryOk(t, next) && next[i] == p[i];
      assert p[..i] + [p[i]] == next && p[i..][1..] == p[i + 1..];
      if i + 1 < |p| {
        PhysicalPrefix(t, p, i + 2);
        assert EntryOk(t, p[..i + 2]) && Parent(p[..i + 2]) == next;
      }
      PhysicalIsFixed(t, p, i + 1);
    }
  }

  lemma PhysicalPrefix(t: Tree, p: Segs, i: nat)
    requires TreeOk(t) && Physical(t, p) && i <= |p|
    ensures p[..i] in t && !t[p[..i]].Link?
  {
    if p[..i] !in t {
      NothingBelow(t, p, i);
    }
    assert !IsLink(t, p[..i]);
  }
}
