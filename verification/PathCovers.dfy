/** The browser's tests for a path at or beneath another
    (hub/web/src/files/pathChanges.ts:72-75, 96-118; hub/web/src/files/tree.ts:88-90).

    Both compare strings.  Their meaning is about path elements.
  */
module PathCovers {
  import opened Option
  import opened PathConflict
  import PathChanges
  import TreeCache

  /** One cleaned path with a separator behind it begins the other exactly if it is
      a proper ancestor. */
  lemma BelowIsProper(a: Path, b: Path)
    requires Cleaned(a) && Cleaned(b) && a != "/"
    ensures a + "/" <= b <==> Segments(a) < Segments(b)
  {
    SegmentsOfCleaned(a);
    SegmentsOfCleaned(b);
    BodyPrefix(Segments(a), Segments(b));
  }

  lemma SamePath(a: Path, b: Path)
    requires Cleaned(a) && Cleaned(b)
    ensures a == b <==> Segments(a) == Segments(b)
  {
    SegmentsOfCleaned(a);
    SegmentsOfCleaned(b);
  }

  lemma RootHasAll(b: Path)
    requires Cleaned(b)
    ensures "/" <= b && Segments("/") == [] && Segments("/") <= Segments(b)
  {
  }

  lemma EndsInName(a: Path)
    requires Cleaned(a) && a != "/"
    ensures a[|a| - 1] != '/' && Segments(a) != []
  {
    SegmentsOfCleaned(a);
  }

  /** A recorded change covers its path and whatever has it for an ancestor. */
  lemma CoversIsAncestry(recorded: Path, path: Path)
    requires Cleaned(recorded) && Cleaned(path)
    ensures PathChanges.Covers(recorded, path) <==> Segments(recorded) <= Segments(path)
  {
    SamePath(recorded, path);
    if recorded == "/" {
      RootHasAll(path);
    } else {
      EndsInName(recorded);
      BelowIsProper(recorded, path);
      PrefixOrSame(Segments(recorded), Segments(path));
    }
  }

  lemma PrefixOrSame(a: seq<string>, b: seq<string>)
    ensures a <= b <==> a < b || a == b
  {
  }

  /** Forgetting a directory covers it and whatever is in it, at any depth. */
  lemma UnderIsAncestry(dir: Path, key: Path)
    requires Cleaned(dir) && Cleaned(key)
    ensures TreeCache.Under(dir, key) <==> Segments(dir) <= Segments(key)
  {
    SamePath(dir, key);
    if dir == "/" {
      RootHasAll(key);
    } else {
      BelowIsProper(dir, key);
      PrefixOrSame(Segments(dir), Segments(key));
    }
  }

  lemma {:induction false} BodyJoin(a: seq<string>, b: seq<string>)
    ensures Body(a + b) == Body(a) + Body(b)
    decreases |a|
  {
    if a == [] {
      assert a + b == b;
    } else {
      assert (a + b)[1..] == a[1..] + b;
      BodyJoin(a[1..], b);
    }
  }

  /** A path beneath another is its spelling and what the further elements spell. */
  lemma RestOfPath(a: Path, p: Path)
    requires Cleaned(a) && Cleaned(p) && a != "/" && Segments(a) <= Segments(p)
    ensures p == a + Body(Segments(p)[|Segments(a)|..])
  {
    var rest := Segments(p)[|Segments(a)|..];
    SegmentsOfCleaned(a);
    SegmentsOfCleaned(p);
    EndsInName(a);
    assert Segments(p) == Segments(a) + rest;
    BodyJoin(Segments(a), rest);
  }

  lemma NewSpelling(to: Path, rest: seq<string>)
    requires Cleaned(to) && to != "/"
    ensures Body(Segments(to) + rest) == to + Body(rest)
  {
    SegmentsOfCleaned(to);
    EndsInName(to);
    BodyJoin(Segments(to), rest);
  }

  /** A rename gives what is at or beneath the old name the same place at or beneath
      the new one, and leaves everything else where it is. */
  lemma RenameReplacesAncestor(from: Path, to: Path, p: Path)
    requires Cleaned(from) && Cleaned(to) && Cleaned(p) && from != "/" && to != "/"
    ensures PathChanges.Moved(PathChanges.Change(from, to, false, 0), p)
            == Some(if Segments(from) <= Segments(p) then Body(Segments(to) + Segments(p)[|Segments(from)|..]) else p)
  {
    BelowIsProper(from, p);
    SamePath(from, p);
    PrefixOrSame(Segments(from), Segments(p));
    if Segments(from) <= Segments(p) {
      RestOfPath(from, p);
      NewSpelling(to, Segments(p)[|Segments(from)|..]);
      MovedBelow(from, to, p, Body(Segments(p)[|Segments(from)|..]));
    }
  }

  lemma MovedBelow(from: Path, to: Path, p: Path, rest: string)
    requires p == from + rest && (p == from || from + "/" <= p)
    ensures PathChanges.Moved(PathChanges.Change(from, to, false, 0), p) == Some(to + rest)
  {
    assert p[|from|..] == rest;
    if p == from {
      assert rest == "" && to + rest == to;
    }
  }

  /** A removal leaves nothing at or beneath its path and everything else. */
  lemma RemovalTakesAncestor(path: Path, p: Path)
    requires Cleaned(path) && Cleaned(p)
    ensures PathChanges.Moved(PathChanges.Change(path, "", true, 0), p)
            == if Segments(path) <= Segments(p) then None else Some(p)
  {
    CoversIsAncestry(path, p);
  }
}
