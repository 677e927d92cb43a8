/** A request refused as a deadlock where there is none
    (hub/internal/host/remote_files.go:205-223).

    A waiter that is refused when it rechecks keeps its edge.  Until its next
    acquisition or wait, whoever it had been waiting for is refused what it holds.
  */
module StaleWaits {
  import opened Option
  import opened PathConflict
  import opened WaitGraph
  import opened PathLocks

  lemma ReachableNext(s: Sys, step: Step)
    requires Reachable(s) && Enabled(s, step)
    ensures Reachable(Apply(s, step))
  {
    var steps :| Run(steps, s);
    var longer := steps + [step];
    assert longer[..|longer| - 1] == steps;
    assert Run(longer, Apply(s, step));
  }

  /** A walk that ends without having met y never meets it. */
  lemma NotReached(w: Waits, x: nat, y: nat, k: nat)
    requires 0 !in w && y != 0 && Iter(w, x, k) == 0 && forall m: nat :: m < k ==> Iter(w, x, m) != y
    ensures !Reaches(w, x, y)
  {
    forall n: nat ensures Iter(w, x, n) != y {
      if n >= k {
        IterAdd(w, x, k, n - k);
        IterZero(w, n - k);
      }
    }
  }

  lemma MustWaitFor(c: Coord, h: nat, paths: seq<Path>, o: nat, k: nat)
    requires FirstConflict(c.active, h, paths) == Some(o) && 0 !in c.waiting && h != 0
    requires Iter(c.waiting, o, k) == 0 && forall m: nat :: m < k ==> Iter(c.waiting, o, m) != h
    ensures Decide(c, h, paths) == MustWait(o)
  {
    NotReached(c.waiting, o, h, k);
  }

  const A := Entry(1, "/a")
  const B := Entry(2, "/b")
  const C := Entry(3, "/c")

  lemma Distinct()
    ensures !PathsConflict("/a", "/b") && !PathsConflict("/b", "/a") && !PathsConflict("/c", "/a")
    ensures !PathsConflict("/c", "/b") && !PathsConflict("/b", "/c")
  {
  }

  const EVERYONE: map<nat, Status> := map[1 := Running, 2 := Running, 3 := Running]
  const HELD: seq<Acquisition> := [Acquisition(1, ["/a"]), Acquisition(2, ["/b"]), Acquisition(3, ["/c"])]

  lemma ThreeHandles() returns (s: Sys)
    ensures Reachable(s) && s == Sys(Coord(3, [], map[], 0), EVERYONE, [], {})
  {
    var s0 := Sys(Initial(), map[], [], {});
    assert Run([], s0);
    ReachableNext(s0, Open);
    var s1 := Apply(s0, Open);
    ReachableNext(s1, Open);
    var s2 := Apply(s1, Open);
    ReachableNext(s2, Open);
    s := Apply(s2, Open);
  }

  /** Three handles, each with a path of its own. */
  lemma EachHoldsOne() returns (s: Sys)
    ensures Reachable(s) && s == Sys(Coord(3, [A, B, C], map[], 0), EVERYONE, HELD, {})
  {
    Distinct();
    s := ThreeHandles();
    s := Takes(s, A);
    s := Takes(s, B);
    assert s.c.active == [A, B];
    s := Takes(s, C);
    assert s.held == HELD && s.c.active == [A, B, C];
  }

  lemma Takes(s: Sys, e: Entry) returns (s': Sys)
    requires Reachable(s) && s.status == EVERYONE && s.c.waiting == map[] && s.leftover == {}
    requires e.owner in EVERYONE && forall f :: f in s.c.active ==> !PathsConflict(e.path, f.path)
    ensures Reachable(s')
    ensures s' == s.(c := s.c.(active := s.c.active + [e]), held := s.held + [Acquisition(e.owner, [e.path])])
  {
    s' := Apply(s, Lock(e.owner, [e.path]));
    ReachableNext(s, Lock(e.owner, [e.path]));
    ConflictIsHeld(s.c.active, e.owner, [e.path]);
    assert Entries(e.owner, [e.path]) == [e];
    assert s.status[e.owner := Running] == s.status && s.c.waiting - {e.owner} == s.c.waiting;
  }

  /** The first handle wants the second's path and the third's; the third wants the first's. */
  lemma TwoWait(s: Sys) returns (s': Sys)
    requires Reachable(s) && s == Sys(Coord(3, [A, B, C], map[], 0), EVERYONE, HELD, {})
    ensures Reachable(s')
    ensures s' == Sys(Coord(3, [A, B, C], map[1 := 2, 3 := 1], 0),
                      EVERYONE[1 := Blocked(["/b", "/c"], 0)][3 := Blocked(["/a"], 0)], HELD, {})
  {
    Distinct();
    WantsBoth([A, B, C]);
    MustWaitFor(s.c, 1, ["/b", "/c"], 2, 1);
    var s1 := Apply(s, Lock(1, ["/b", "/c"]));
    ReachableNext(s, Lock(1, ["/b", "/c"]));
    assert s1.c.waiting == map[1 := 2] && s1.leftover == {};
    assert FirstConflict([A, B, C], 3, ["/a"]) == Some(1);
    TwoSteps(s1.c.waiting, 1);
    MustWaitFor(s1.c, 3, ["/a"], 1, 2);
    s' := Apply(s1, Lock(3, ["/a"]));
    ReachableNext(s1, Lock(3, ["/a"]));
    assert s'.leftover == {};
  }

  lemma TwoSteps(w: Waits, x: nat)
    ensures Iter(w, x, 0) == x && Iter(w, x, 1) == Follow(w, x) && Iter(w, x, 2) == Follow(w, Follow(w, x))
  {
    assert Iter(w, x, 2) == Iter(w, Follow(w, x), 1) == Iter(w, Follow(w, Follow(w, x)), 0);
    assert Iter(w, x, 1) == Iter(w, Follow(w, x), 0);
  }

  lemma WantsBoth(active: seq<Entry>)
    requires active == [A, B, C] || active == [A, C]
    ensures FirstConflict(active, 1, ["/b", "/c"]) == Some(if active == [A, B, C] then 2 else 3)
  {
    Distinct();
    var others := active[1..];
    assert FirstFor(active, 1, "/b") == FirstFor(others, 1, "/b");
    assert FirstFor(active, 1, "/c") == FirstFor(others, 1, "/c");
    if active == [A, B, C] {
      assert others[0] == B;
    } else {
      assert others[0] == C && others[1..] == [];
      assert FirstFor(others, 1, "/b") == FirstFor([], 1, "/b") == None;
      assert FirstConflict(active, 1, ["/b", "/c"]) == FirstConflict(active, 1, ["/b", "/c"][1..]);
      assert ["/b", "/c"][1..] == ["/c"] && FirstFor(others, 1, "/c") == Some(3);
    }
  }

  /** The second releases; the first is refused on its recheck and keeps its edge. */
  lemma RefusedOnRecheck(s: Sys) returns (s': Sys)
    requires Reachable(s)
    requires s == Sys(Coord(3, [A, B, C], map[1 := 2, 3 := 1], 0),
                      EVERYONE[1 := Blocked(["/b", "/c"], 0)][3 := Blocked(["/a"], 0)], HELD, {})
    ensures Reachable(s')
    ensures s'.c == Coord(3, [A, C], map[1 := 2, 3 := 1], 1) && s'.leftover == {1}
    ensures s'.status == EVERYONE[3 := Blocked(["/a"], 0)]
  {
    var s1 := Apply(s, Unlock(1));
    ReachableNext(s, Unlock(1));
    Releases();
    assert s1.c == Coord(3, [A, C], map[1 := 2, 3 := 1], 1);
    WantsBoth([A, C]);
    TwoSteps(s1.c.waiting, 3);
    assert Decide(s1.c, 1, ["/b", "/c"]) == Refused;
    s' := Apply(s1, Recheck(1));
    ReachableNext(s1, Recheck(1));
    assert s'.leftover == {1};
  }

  lemma Releases()
    ensures RemoveOwn([A, B, C], 2, multiset(["/b"])) == [A, C]
  {
    assert [A, B, C][1..] == [B, C] && [B, C][1..] == [C] && [C][1..] == [];
    assert multiset(["/b"]) - multiset{"/b"} == multiset{};
    assert RemoveOwn([C], 2, multiset{}) == [C];
  }

  /** The second handle holds nothing and the first, which holds what it asks for,
      waits for nobody; yet the request is refused as a deadlock. */
  lemma RefusedWithoutDeadlock() returns (s: Sys)
    ensures Reachable(s) && Decide(s.c, 2, ["/a"]) == Refused
    ensures s.status == EVERYONE[3 := Blocked(["/a"], 0)] && s.leftover == {1}
    ensures (forall e :: e in s.c.active ==> e.owner != 2) && FirstConflict(s.c.active, 2, ["/a"]) == Some(1)
  {
    s := EachHoldsOne();
    s := TwoWait(s);
    s := RefusedOnRecheck(s);
    assert FirstConflict([A, C], 2, ["/a"]) == Some(1);
    TwoSteps(s.c.waiting, 1);
  }
}
