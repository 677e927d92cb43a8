/** The last element of a slash-separated path, as Go's path.Base computes it. */
module PosixPath {
  function StripRight<T(==)>(p: seq<T>, slash: T): seq<T> {
    if p == [] || p[|p| - 1] != slash then p else StripRight(p[..|p| - 1], slash)
  }

  function AfterLast<T(==)>(p: seq<T>, slash: T): seq<T> {
    if slash !in p then p else AfterLast(p[1..], slash)
  }

  function Base<T(==)>(p: seq<T>, slash: T, dot: T): seq<T> {
    if p == [] then [dot]
    else
      var stripped := StripRight(p, slash);
      if stripped == [] then [slash] else AfterLast(stripped, slash)
  }

  lemma {:induction false} StripRightIsPrefix<T>(p: seq<T>, slash: T)
    ensures StripRight(p, slash) <= p
    ensures forall i :: |StripRight(p, slash)| <= i < |p| ==> p[i] == slash
    ensures StripRight(p, slash) == [] || StripRight(p, slash)[|StripRight(p, slash)| - 1] != slash
  {
    if p != [] && p[|p| - 1] == slash {
      StripRightIsPrefix(p[..|p| - 1], slash);
      assert forall i :: 0 <= i < |p| - 1 ==> p[i] == p[..|p| - 1][i];
    }
  }

  lemma {:induction false} AfterLastIsSuffix<T>(p: seq<T>, slash: T)
    ensures slash !in AfterLast(p, slash)
    ensures |AfterLast(p, slash)| <= |p| && AfterLast(p, slash) == p[|p| - |AfterLast(p, slash)|..]
    ensures |AfterLast(p, slash)| == |p| || p[|p| - |AfterLast(p, slash)| - 1] == slash
  {
    if slash in p {
      AfterLastIsSuffix(p[1..], slash);
    }
  }

  /** A base name is never empty and holds no separator, except that a path of
      separators alone has the base "/". */
  lemma BaseShape<T>(p: seq<T>, slash: T, dot: T)
    requires slash != dot
    ensures var b := Base(p, slash, dot);
            && b != []
            && (slash in b <==> p != [] && forall c :: c in p ==> c == slash)
            && (slash in b ==> b == [slash])
  {
    if p != [] {
      StripRightIsPrefix(p, slash);
      var stripped := StripRight(p, slash);
      if stripped == [] {
        assert p[0] == slash;
      } else {
        AfterLastIsSuffix(stripped, slash);
        assert stripped[|stripped| - 1] in p;
      }
    }
  }

  /** A name without separators directly inside any directory is its own base. */
  lemma BaseOfChild<T>(dir: seq<T>, name: seq<T>, slash: T, dot: T)
    requires name != [] && slash !in name
    ensures Base(dir + [slash] + name, slash, dot) == name
    ensures Base(name, slash, dot) == name
  {
    var p := dir + [slash] + name;
    assert name[|name| - 1] in name;
    assert p[|p| - 1] == name[|name| - 1];
    AfterLastOf(dir + [slash], name, slash);
  }

  lemma {:induction false} AfterLastOf<T>(front: seq<T>, name: seq<T>, slash: T)
    requires slash !in name
    requires front == [] || front[|front| - 1] == slash
    ensures AfterLast(front + name, slash) == name
  {
    if front == [] {
      assert front + name == name;
    } else {
      assert slash in front + name by { assert (front + name)[|front| - 1] == slash; }
      assert (front + name)[1..] == front[1..] + name;
      AfterLastOf(front[1..], name, slash);
    }
  }
}
