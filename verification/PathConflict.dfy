/** When two remote paths conflict (hub/internal/host/remote_files.go).

    The code compares strings.  The meaning is about path segments: two cleaned
    absolute paths conflict exactly when one is an ancestor of the other or the
    same path.
  */
module PathConflict {
  type Path = string

  /** The string test the lock coordinator uses. */
  predicate PathsConflict(p1: Path, p2: Path) {
    || p1 == p2
    || p1 == "/" || p2 == "/"
    || p2 + "/" <= p1
    || p1 + "/" <= p2
  }

  /** The shape path.Clean gives an absolute path. */
  predicate Cleaned(p: Path) {
    || p == "/"
    || (&& |p| > 1 && p[0] == '/' && p[|p| - 1] != '/'
        && forall i :: 0 < i < |p| ==> !(p[i - 1] == '/' && p[i] == '/'))
  }

  /** Everything up to the first separator. */
  function Head(s: string): (h: string)
    ensures h <= s && '/' !in h
    ensures |h| < |s| ==> s[|h|] == '/'
  {
    if s == "" || s[0] == '/' then ""
    else
      var h := [s[0]] + Head(s[1..]);
      assert h <= s;
      h
  }

  function Split(s: string): seq<string>
    decreases |s|
  {
    var h := Head(s);
    if |h| == |s| then [h] else [h] + Split(s[|h| + 1..])
  }

  /** The segments of a cleaned absolute path; the root has none. */
  function Segments(p: Path): seq<string> {
    if |p| <= 1 then [] else Split(p[1..])
  }

  /** A separator before each segment. */
  function Body(segs: seq<string>): string {
    if segs == [] then "" else "/" + segs[0] + Body(segs[1..])
  }

  predicate Word(s: string) {
    s != "" && '/' !in s
  }

  predicate ValidSegments(segs: seq<string>) {
    forall i :: 0 <= i < |segs| ==> Word(segs[i])
  }

  /** A string whose pieces between separators are all non-empty. */
  predicate NoEmptyPiece(s: string) {
    && s != "" && s[0] != '/' && s[|s| - 1] != '/'
    && forall i :: 0 < i < |s| ==> !(s[i - 1] == '/' && s[i] == '/')
  }

  lemma NoEmptyPieceTail(s: string, n: nat)
    requires NoEmptyPiece(s) && n < |s| && s[n] == '/'
    ensures 0 < n && NoEmptyPiece(s[n + 1..])
  {
    var rest := s[n + 1..];
    assert forall i :: 0 <= i < |rest| ==> rest[i] == s[n + 1 + i];
    assert rest != "" && rest[|rest| - 1] == s[|s| - 1];
  }

  lemma {:induction false} SplitBody(s: string)
    requires NoEmptyPiece(s)
    ensures ValidSegments(Split(s)) && Split(s) != []
    ensures Body(Split(s)) == "/" + s
    decreases |s|
  {
    var h := Head(s);
    if |h| == |s| {
      assert Split(s) == [h];
      assert Body([h]) == "/" + h + Body([]);
    } else {
      var rest := s[|h| + 1..];
      NoEmptyPieceTail(s, |h|);
      SplitBody(rest);
      assert Split(s) == [h] + Split(rest);
      BodyCons(h, Split(rest));
      Rejoin(s, |h|);
      assert h == s[..|h|] && Word(h);
    }
  }

  lemma Rejoin(s: string, n: nat)
    requires n < |s| && s[n] == '/'
    ensures "/" + s[..n] + ("/" + s[n + 1..]) == "/" + s
  {
    assert s == s[..n] + "/" + s[n + 1..];
  }

  lemma BodyCons(h: string, t: seq<string>)
    ensures Body([h] + t) == "/" + h + Body(t)
  {
    assert ([h] + t)[1..] == t;
  }

  /** Splitting a cleaned path loses nothing. */
  lemma SegmentsOfCleaned(p: Path)
    requires Cleaned(p)
    ensures ValidSegments(Segments(p))
    ensures p == if Segments(p) == [] then "/" else Body(Segments(p))
  {
    if p != "/" {
      assert p == "/" + p[1..];
      assert forall i :: 0 <= i < |p| - 1 ==> p[1..][i] == p[i + 1];
      SplitBody(p[1..]);
    }
  }

  /** Two separator-free words followed by a separator (or an end) agree. */
  lemma SameWord(x: string, u: string, y: string, v: string)
    requires '/' !in x && '/' !in y
    requires u != "" && u[0] == '/'
    requires v == "" || v[0] == '/'
    requires x + u <= y + v
    ensures x == y && u <= v
  {
    var a, b := x + u, y + v;
    assert a[|x|] == '/' && (|y| < |b| ==> b[|y|] == '/');
    assert forall i :: 0 <= i < |x| ==> a[i] == x[i] && x[i] != '/';
    assert forall i :: 0 <= i < |y| ==> b[i] == y[i] && y[i] != '/';
    assert forall i :: 0 <= i < |a| ==> a[i] == b[i];
    assert |x| == |y|;
    assert x == a[..|x|] == b[..|x|] == y;
    assert u == a[|x|..] && v == b[|x|..];
  }

  /** Comparing two spellings is comparing their first words and what follows. */
  lemma CompareFirst(x: string, u: string, y: string, v: string)
    requires '/' !in x && '/' !in y && u != "" && u[0] == '/' && (v == "" || v[0] == '/')
    ensures "/" + x + u <= "/" + y + v <==> x == y && u <= v
  {
    var a, b := "/" + x + u, "/" + y + v;
    assert a[1..] == x + u && b[1..] == y + v;
    if a <= b {
      SameWord(x, u, y, v);
    }
  }

  lemma FirstApart(p: seq<string>, z: string)
    requires p != []
    ensures Body(p) + z == "/" + p[0] + (Body(p[1..]) + z)
  {
  }

  lemma PrefixCons(a: seq<string>, b: seq<string>)
    requires a != [] && b != []
    ensures a < b <==> a[0] == b[0] && a[1..] < b[1..]
  {
    assert a == [a[0]] + a[1..] && b == [b[0]] + b[1..];
  }

  lemma {:induction false} BodyPrefix(a: seq<string>, b: seq<string>)
    requires ValidSegments(a) && ValidSegments(b)
    ensures Body(a) + "/" <= Body(b) <==> a < b
  {
    if a != [] && b != [] {
      BodyPrefix(a[1..], b[1..]);
      FirstApart(a, "/");
      CompareFirst(a[0], Body(a[1..]) + "/", b[0], Body(b[1..]));
      PrefixCons(a, b);
    } else if a == [] && b != [] {
      assert Body(b)[0] == '/';
    }
  }

  lemma BodyInjective(a: seq<string>, b: seq<string>)
    requires ValidSegments(a) && ValidSegments(b)
    requires Body(a) == Body(b)
    ensures a == b
  {
    // Extending b by one segment makes the equality a strict prefix.
    var c := b + ["x"];
    BodyAppend(b, "x");
    BodyPrefix(a, c);
    BodyAppend(a, "x");
    BodyPrefix(b, a + ["x"]);
  }

  lemma {:induction false} BodyAppend(a: seq<string>, x: string)
    ensures Body(a + [x]) == Body(a) + "/" + x
  {
    if a == [] {
      assert [] + [x] == [x];
      assert Body([x]) == "/" + x + Body([]);
    } else {
      assert (a + [x])[1..] == a[1..] + [x];
      BodyAppend(a[1..], x);
    }
  }

  /** On cleaned absolute paths the string test is exactly "one segment list is
      a prefix of the other", that is, ancestor-or-equal. */
  lemma ConflictIsAncestry(p1: Path, p2: Path)
    requires Cleaned(p1) && Cleaned(p2)
    ensures PathsConflict(p1, p2) <==> Segments(p1) <= Segments(p2) || Segments(p2) <= Segments(p1)
  {
    SegmentsOfCleaned(p1);
    SegmentsOfCleaned(p2);
    var a, b := Segments(p1), Segments(p2);
    if a != [] && b != [] {
      BodyPrefix(a, b);
      BodyPrefix(b, a);
      if p1 == p2 {
        BodyInjective(a, b);
      }
      assert p1 != "/" by { assert |Body(a)| >= 1 + |a[0]| && Word(a[0]); }
      assert p2 != "/" by { assert |Body(b)| >= 1 + |b[0]| && Word(b[0]); }
      assert a <= b <==> a < b || a == b;
      assert b <= a <==> b < a || a == b;
    }
  }
}
