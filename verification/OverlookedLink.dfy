/** A tree in which a create is authorized through a link whose target is missing
    (hub/internal/files/guard.go:282-306).

    filepath.EvalSymlinks looks up one resolved element after another.  The check
    for a dangling link hands the unresolved ancestor to the kernel, which may fail
    where the walker did not: it follows fewer links, and it searches directories
    that the walker passes by.  A failed look-up counts as no link.
  */
module OverlookedLink {
  import opened Option
  import opened PathConflict
  import opened PathShape
  import opened SymlinkTree
  import opened Guard

  // --- Spelled paths ---

  function Joined(p: Segs): string
    requires p != []
  {
    if |p| == 1 then p[0] else p[0] + "/" + Joined(p[1..])
  }

  lemma {:induction false} BodyIsJoined(p: Segs)
    requires p != []
    ensures Body(p) == "/" + Joined(p)
    decreases |p|
  {
    if |p| == 1 {
      assert Body(p[1..]) == "";
    } else {
      BodyIsJoined(p[1..]);
    }
  }

  lemma {:induction false} HeadOfWord(w: string, z: string)
    requires '/' !in w && (z == "" || z[0] == '/')
    ensures Head(w + z) == w
  {
    if w != "" {
      assert (w + z)[1..] == w[1..] + z;
      HeadOfWord(w[1..], z);
    } else {
      assert w + z == z;
    }
  }

  lemma SplitFirst(w: string, z: string)
    requires '/' !in w
    ensures Split(w) == [w] && Split(w + "/" + z) == [w] + Split(z)
  {
    HeadOfWord(w, "");
    assert w + "" == w;
    var s := w + "/" + z;
    assert s == w + ("/" + z);
    HeadOfWord(w, "/" + z);
    assert s[|w| + 1..] == z;
  }

  lemma {:induction false} SplitJoined(p: Segs)
    requires ValidSegments(p) && p != []
    ensures Split(Joined(p)) == p
    decreases |p|
  {
    if |p| == 1 {
      SplitFirst(p[0], "");
    } else {
      SplitFirst(p[0], Joined(p[1..]));
      SplitJoined(p[1..]);
      assert p == [p[0]] + p[1..];
    }
  }

  lemma SplitOfBody(p: Segs)
    requires ValidSegments(p) && p != []
    ensures Split(Body(p)) == [""] + p
  {
    BodyIsJoined(p);
    SplitFirst("", Joined(p));
    assert "" + "/" + Joined(p) == Body(p);
    SplitJoined(p);
  }

  lemma {:induction false} NothingDropped(p: seq<string>, w: string)
    requires w !in p
    ensures Without(p, w) == p
    decreases |p|
  {
    if p != [] {
      assert p[0] != w && w !in p[1..];
      NothingDropped(p[1..], w);
      assert p == [p[0]] + p[1..];
    }
  }

  /** What the spelling of some names is read as. */
  lemma StepsOfSpelled(p: Segs)
    requires AllNames(p) && p != []
    ensures Steps(Spelled(p)) == p && CleanSegs(Spelled(p)) == p
    ensures ".." !in Split(Spelled(p)) && !EndsInSlash(Spelled(p))
  {
    NamesHoldNone(p);
    SplitOfBody(p);
    assert Steps(Spelled(p)) == p by {
      FirstDropped(p, "");
      NothingDropped(p, "");
    }
    NothingDropped(p, ".");
    SpelledEnds(p);
  }

  lemma NamesHoldNone(p: Segs)
    requires AllNames(p)
    ensures ValidSegments(p) && "" !in p && "." !in p && ".." !in p && ".." !in [""] + p
  {
  }

  lemma FirstDropped(p: seq<string>, w: string)
    ensures Without([w] + p, w) == Without(p, w)
  {
    assert ([w] + p)[1..] == p;
  }

  lemma {:induction false} SpelledEnds(p: Segs)
    requires ValidSegments(p) && p != []
    ensures Body(p) != "" && Body(p)[|Body(p)| - 1] != '/'
    decreases |p|
  {
    if |p| == 1 {
      assert Body(p[1..]) == "" && p[0][|p[0]| - 1] in p[0];
    } else {
      SpelledEnds(p[1..]);
      assert Body(p)[|Body(p)| - 1] == Body(p[1..])[|Body(p[1..])| - 1];
    }
  }

  lemma CanonicalOfSpelled(sys: System, segs: Segs)
    requires AllNames(segs) && segs != [] && EvalSymlinks(sys, segs, false).NotExist?
    ensures Canonical(sys, Spelled(segs), Create) == CanonicalMissing(sys, segs, |segs|, Create)
  {
    StepsOfSpelled(segs);
  }

  lemma ShortShapeOk(p: Segs)
    requires AllNames(p) && |p| == 3 && |p[0]| <= MAX_LINKS && |p[1]| == 1 && |p[2]| == 1
    ensures ShapeOk(Spelled(p))
  {
    StepsOfSpelled(p);
    BodyIsJoined(p);
    assert |Joined(p[1..][1..])| == 1 && |Joined(p[1..])| == 3;
  }

  predicate StartsOutside(p: Segs) {
    AllNames(p) && p != [] && (p[0] == "d" || p[0][0] == 'l')
  }

  lemma NotBlocked(p: Segs)
    requires StartsOutside(p)
    ensures !IsBlocked(Spelled(p))
  {
    var first := Lower(p[0]);
    assert first[0] == LowerChar(p[0][0]);
    BlockedIsFirstName(p);
  }

  lemma Unrestricted(sys: System, segs: Segs, p: Segs)
    requires ShapeOk(Spelled(segs)) && StartsOutside(segs) && StartsOutside(p)
    requires Canonical(sys, Spelled(segs), Create) == Resolved(p)
    ensures Resolve(sys, [], Spelled(segs), Create) == Resolved(p)
  {
    NotBlocked(segs);
    NotBlocked(p);
  }

  // --- A dangling link that is not looked up ---

  /** d/x is a link to nothing, and the walker can look at all of it. */
  predicate HasDangling(sys: System) {
    && ["d"] in sys.tree && sys.tree[["d"]] == Directory
    && ["d", "x"] in sys.tree && sys.tree[["d", "x"]] == Link(false, ["gone"], false) && ["d", "gone"] !in sys.tree
    && sys.fails(["d"]).None? && sys.fails(["d", "x"]).None? && sys.fails(["d", "gone"]).None?
  }

  /** Through d/x one comes to nothing. */
  lemma WalkDangles(sys: System, more: Segs, links: nat)
    requires HasDangling(sys) && links < MAX_LINKS
    ensures Walk(sys, ["d"], ["d"], ["x"] + more, false, links).NotExist?
  {
    assert ["d"] + ["x"] == ["d", "x"] && (["x"] + more)[1..] == more;
    var rest := ["gone"] + more;
    assert rest[0] == "gone" && ["d"] + [rest[0]] == ["d", "gone"];
    assert Walk(sys, ["d"], ["d"], rest, LinkSlash(more, false, false), links + 1).NotExist?;
  }

  /** The name leads to d, whatever follows it. */
  ghost predicate LeadsToD(sys: System, first: string, links: nat) {
    && links < MAX_LINKS
    && forall rest: Segs :: Walk(sys, [], [], [first] + rest, false, 0) == Walk(sys, ["d"], ["d"], rest, false, links)
  }

  lemma ThroughD(sys: System, first: string, links: nat, segs: Segs)
    requires HasDangling(sys) && LeadsToD(sys, first, links) && segs == [first, "x", "y"]
    ensures EvalSymlinks(sys, segs, false).NotExist? && EvalSymlinks(sys, segs[..2], false).NotExist?
    ensures EvalSymlinks(sys, segs[..1], false) == Found(["d"], links)
  {
    assert segs[..1] == [first] + [];
    assert segs[..2] == [first] + (["x"] + []) && segs == [first] + (["x"] + ["y"]);
    WalkDangles(sys, [], links);
    WalkDangles(sys, ["y"], links);
  }

  lemma MissingBelowD(sys: System, first: string, links: nat, segs: Segs)
    requires HasDangling(sys) && LeadsToD(sys, first, links) && segs == [first, "x", "y"]
    requires sys.fails([first, "x"]).Some?
    ensures CanonicalMissing(sys, segs, 3, Create) == Resolved(["d", "x", "y"])
  {
    ThroughD(sys, first, links, segs);
    assert segs[..1] + [segs[1]] == [first, "x"];
    assert !DanglingAbove(sys, segs, 1, Create);
    assert ["d"] + segs[1..] == ["d", "x", "y"];
    assert CanonicalMissing(sys, segs, 2, Create) == Resolved(["d", "x", "y"]);
  }

  lemma CanonicalBelowD(sys: System, first: string, links: nat, segs: Segs)
    requires HasDangling(sys) && LeadsToD(sys, first, links) && segs == [first, "x", "y"] && AllNames(segs)
    requires sys.fails([first, "x"]).Some?
    ensures Canonical(sys, Spelled(segs), Create) == Resolved(["d", "x", "y"])
  {
    ThroughD(sys, first, links, segs);
    MissingBelowD(sys, first, links, segs);
    CanonicalOfSpelled(sys, segs);
  }

  lemma AuthorizedThroughLink(sys: System, first: string, links: nat, segs: Segs, p: Segs)
    requires HasDangling(sys) && LeadsToD(sys, first, links) && sys.fails([first, "x"]).Some?
    requires segs == [first, "x", "y"] && p == ["d", "x", "y"]
    requires IsName(first) && first[0] == 'l' && |first| <= MAX_LINKS
    ensures Resolve(sys, [], Spelled(segs), Create) == Resolved(p) && LinkAbove(sys.tree, p)
  {
    assert StartsOutside(segs) && StartsOutside(p);
    assert Canonical(sys, Spelled(segs), Create) == Resolved(p) by { CanonicalBelowD(sys, first, links, segs); }
    assert ShapeOk(Spelled(segs)) by { ShortShapeOk(segs); }
    Unrestricted(sys, segs, p);
    assert p[..2] == ["d", "x"];
  }

  // --- A kernel that follows fewer links ---

  /** d, l, ll, lll and so on. */
  function ChainName(i: nat): string {
    if i == 0 then "d" else seq(i, _ => 'l')
  }

  /** Each name but d is a link to the one before. */
  function ChainTree(n: nat): Tree {
    if n == 0 then map[[] := Directory, ["d"] := Directory, ["d", "x"] := Link(false, ["gone"], false)]
    else ChainTree(n - 1)[[ChainName(n)] := Link(false, [ChainName(n - 1)], false)]
  }

  function LinksTo(t: Tree, p: Segs): nat {
    match EvalSymlinks(Calm(t), p, false)
    case Found(_, links) => links
    case _ => 0
  }

  /** Looking up an element fails if what is above it takes more links than the limit. */
  function LinkLimited(t: Tree, limit: nat): System {
    System(t, p => if p != [] && LinksTo(t, Parent(p)) > limit then Some(KernelLinks) else None)
  }

  lemma {:induction false} KeysOfChain(n: nat, name: string)
    requires |name| > n && name[0] == 'l'
    ensures [name] !in ChainTree(n)
  {
    if n > 0 {
      KeysOfChain(n - 1, name);
      assert |ChainName(n)| == n;
    }
  }

  lemma {:induction false} ChainBase(n: nat)
    ensures var t := ChainTree(n);
            && [] in t && t[[]] == Directory && ["d"] in t && t[["d"]] == Directory && ["d", "gone"] !in t
            && ["d", "x"] in t && t[["d", "x"]] == Link(false, ["gone"], false)
  {
    if n > 0 {
      ChainBase(n - 1);
      assert ChainName(n)[0] == 'l';
    }
  }

  predicate LinkAt(t: Tree, i: nat)
    requires i > 0
  {
    [ChainName(i)] in t && t[[ChainName(i)]] == Link(false, [ChainName(i - 1)], false)
  }

  lemma {:induction false} ChainLinks(n: nat)
    ensures forall i :: 0 < i <= n ==> LinkAt(ChainTree(n), i)
  {
    if n > 0 {
      ChainLinks(n - 1);
      forall i | 0 < i < n ensures LinkAt(ChainTree(n), i) {
        assert LinkAt(ChainTree(n - 1), i) && |ChainName(i)| != |ChainName(n)|;
      }
    }
  }

  lemma NewLinkOk(t: Tree, name: string, target: Segs)
    requires TreeOk(t) && IsName(name) && [name] !in t
    ensures TreeOk(t[[name] := Link(false, target, false)])
  {
    var t' := t[[name] := Link(false, target, false)];
    forall p | p in t' ensures EntryOk(t', p) {
      if p == [name] {
        assert Parent(p) == [];
      } else {
        assert EntryOk(t, p);
      }
    }
  }

  lemma {:induction false} ChainTreeOk(n: nat)
    ensures TreeOk(ChainTree(n))
  {
    if n == 0 {
      assert Parent(["d"]) == [] && Parent(["d", "x"]) == ["d"];
    } else {
      ChainTreeOk(n - 1);
      var name := ChainName(n);
      assert name[0] == 'l';
      KeysOfChain(n - 1, name);
      NewLinkOk(ChainTree(n - 1), name, [ChainName(n - 1)]);
    }
  }

  /** No link is followed to look up an entry of the root or of d. */
  lemma NearIsCalm(n: nat, limit: nat, p: Segs)
    requires |p| == 1 || (|p| == 2 && p[0] == "d")
    ensures LinkLimited(ChainTree(n), limit).fails(p).None?
  {
    var t := ChainTree(n);
    ChainBase(n);
    if |p| == 1 {
      assert Parent(p) == [];
    } else {
      assert Parent(p) == ["d"] && [] + ["d"] == ["d"];
      assert Walk(Calm(t), [], [], ["d"], false, 0) == Walk(Calm(t), ["d"], ["d"], [], false, 0);
    }
  }

  lemma ChainHasDangling(n: nat, limit: nat)
    ensures HasDangling(LinkLimited(ChainTree(n), limit))
  {
    ChainBase(n);
    NearIsCalm(n, limit, ["d"]);
    NearIsCalm(n, limit, ["d", "x"]);
    NearIsCalm(n, limit, ["d", "gone"]);
  }

  lemma {:induction false} WalkChain(sys: System, n: nat, i: nat, rest: Segs, links: nat)
    requires sys.tree == ChainTree(n) && i <= n && links + i <= MAX_LINKS
    requires forall name :: sys.fails([name]).None?
    ensures Walk(sys, [], [], [ChainName(i)] + rest, false, links) == Walk(sys, ["d"], ["d"], rest, false, links + i)
    decreases i
  {
    ChainBase(n);
    ChainLinks(n);
    var path := [ChainName(i)] + rest;
    assert path[1..] == rest && [] + [ChainName(i)] == [ChainName(i)];
    if i > 0 {
      assert ChainName(i)[0] == 'l' && LinkAt(ChainTree(n), i);
      WalkChain(sys, n, i - 1, rest, links + 1);
    }
  }

  lemma ChainLeadsToD(sys: System, n: nat)
    requires sys.tree == ChainTree(n) && n < MAX_LINKS && forall name :: sys.fails([name]).None?
    ensures LeadsToD(sys, ChainName(n), n)
  {
    forall rest: Segs
      ensures Walk(sys, [], [], [ChainName(n)] + rest, false, 0) == Walk(sys, ["d"], ["d"], rest, false, n)
    {
      WalkChain(sys, n, n, rest, 0);
    }
  }

  lemma ChainLimitFails(n: nat, limit: nat)
    requires limit < n < MAX_LINKS
    ensures LinkLimited(ChainTree(n), limit).fails([ChainName(n), "x"]).Some?
  {
    var t, p := ChainTree(n), [ChainName(n), "x"];
    ChainLeadsToD(Calm(t), n);
    assert Parent(p) == [ChainName(n)] + [];
    assert Walk(Calm(t), ["d"], ["d"], [], false, n) == Found(["d"], n);
  }

  /** Whatever number of links the kernel follows, as long as the walker follows
      two more, there is a tree in which a create is authorized through a link. */
  lemma LinkMayBeOverlooked(kernelLinks: nat) returns (t: Tree, raw: string, p: Segs)
    requires kernelLinks + 1 < MAX_LINKS
    ensures TreeOk(t) && LinkAbove(t, p)
    ensures Resolve(LinkLimited(t, kernelLinks), [], raw, Create) == Resolved(p)
  {
    var n := kernelLinks + 1;
    var name := ChainName(n);
    t, raw, p := ChainTree(n), Spelled([name, "x", "y"]), ["d", "x", "y"];
    var sys := LinkLimited(t, kernelLinks);
    ChainTreeOk(n);
    ChainHasDangling(n, kernelLinks);
    forall one ensures sys.fails([one]).None? { NearIsCalm(n, kernelLinks, [one]); }
    ChainLeadsToD(sys, n);
    ChainLimitFails(n, kernelLinks);
    assert name[0] == 'l';
    AuthorizedThroughLink(sys, name, n, [name, "x", "y"], p);
  }

  // --- A directory that may not be searched ---

  /** l leads by way of b/a to b/e, which leads to d. */
  const DETOUR: Tree := map[
    [] := Directory, ["b"] := Directory, ["b", "a"] := Directory, ["d"] := Directory,
    ["l"] := Link(false, ["b", "a", "..", "e"], false), ["b", "e"] := Link(true, ["d"], false),
    ["d", "x"] := Link(false, ["gone"], false)]

  /** Nothing can be looked up inside b/a; for anything below l the kernel has to go there. */
  function Unsearchable(): System {
    System(DETOUR, p => if (|p| > 1 && p[0] == "l") || (|p| > 2 && p[..2] == ["b", "a"]) then Some(Denied) else None)
  }

  lemma DetourOk()
    ensures TreeOk(DETOUR) && HasDangling(Unsearchable())
  {
    assert Parent(["b"]) == [] && Parent(["d"]) == [] && Parent(["l"]) == [] && Parent(["d", "x"]) == ["d"];
    assert Parent(["b", "a"]) == ["b"] && Parent(["b", "e"]) == ["b"];
    DetourNames();
    forall p | p in DETOUR ensures EntryOk(DETOUR, p) {
    }
  }

  lemma DetourNames()
    ensures IsName("a") && IsName("b") && IsName("d") && IsName("e") && IsName("l") && IsName("x")
  {
  }

  /** One step of the walk into a directory. */
  lemma WalkInto(sys: System, dir: Segs, name: string, rest: Segs, links: nat)
    requires links <= MAX_LINKS && name != "." && name != ".."
    requires dir + [name] in sys.tree && sys.tree[dir + [name]] == Directory && sys.fails(dir + [name]).None?
    ensures Walk(sys, dir, dir, [name] + rest, false, links)
            == Walk(sys, dir + [name], dir + [name], rest, false, links)
  {
    assert ([name] + rest)[1..] == rest;
  }

  /** One step of the walk to where a link leads. */
  lemma WalkLink(sys: System, dir: Segs, name: string, rest: Segs, links: nat)
    requires links < MAX_LINKS && name != "." && name != ".."
    requires IsLink(sys.tree, dir + [name]) && sys.fails(dir + [name]).None?
    requires !sys.tree[dir + [name]].slash
    ensures var l := sys.tree[dir + [name]];
            var from := LinkStart(dir, l.absolute);
            Walk(sys, dir, dir, [name] + rest, false, links)
            == Walk(sys, from, from, l.target + rest, false, links + 1)
  {
    assert ([name] + rest)[1..] == rest;
  }

  /** From where l leads: into b, into a and back, and to what e leads to. */
  lemma DetourTail(sys: System, rest: Segs)
    requires sys == Unsearchable()
    ensures Walk(sys, ["b"], ["b"], ["a"] + ([".."] + (["e"] + rest)), false, 1)
            == Walk(sys, ["d"], ["d"], rest, false, 2)
  {
    assert [] + ["d"] == ["d"] && ["b"] + ["a"] == ["b", "a"] && ["b"] + ["e"] == ["b", "e"];
    WalkInto(sys, ["b"], "a", [".."] + (["e"] + rest), 1);
    assert ([".."] + (["e"] + rest))[1..] == ["e"] + rest;
    assert Parent(["b", "a"]) == ["b"] && Up(["b", "a"]) == ["b"];
    WalkLink(sys, ["b"], "e", rest, 1);
    WalkInto(sys, [], "d", rest, 2);
  }

  lemma DetourWalk(sys: System, rest: Segs)
    requires sys == Unsearchable()
    ensures Walk(sys, [], [], ["l"] + rest, false, 0) == Walk(sys, ["d"], ["d"], rest, false, 2)
  {
    assert [] + ["l"] == ["l"] && [] + ["b"] == ["b"];
    WalkLink(sys, [], "l", rest, 0);
    assert ["b", "a", "..", "e"] + rest == ["b"] + (["a"] + ([".."] + (["e"] + rest)));
    WalkInto(sys, [], "b", ["a"] + ([".."] + (["e"] + rest)), 1);
    DetourTail(sys, rest);
  }

  lemma DetourLeadsToD()
    ensures LeadsToD(Unsearchable(), "l", 2)
  {
    forall rest: Segs
      ensures Walk(Unsearchable(), [], [], ["l"] + rest, false, 0)
              == Walk(Unsearchable(), ["d"], ["d"], rest, false, 2)
    {
      DetourWalk(Unsearchable(), rest);
    }
  }

  /** Two links are enough if they lead through a directory the hub may not search. */
  lemma DeniedMayBeOverlooked() returns (raw: string, p: Segs)
    ensures TreeOk(DETOUR) && LinkAbove(DETOUR, p)
    ensures Resolve(Unsearchable(), [], raw, Create) == Resolved(p)
  {
    raw, p := Spelled(["l", "x", "y"]), ["d", "x", "y"];
    DetourOk();
    DetourLeadsToD();
    AuthorizedThroughLink(Unsearchable(), "l", 2, ["l", "x", "y"], p);
  }
}
