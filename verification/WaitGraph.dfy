/** The wait-for map of the lock coordinator as a graph.

    A waiter records one edge, to the owner it waits for.  Handle identifiers
    start at one and zero is "nobody", which is what a lookup of a missing key
    answers (hub/internal/host/remote_files.go:166-175).
  */
module WaitGraph {
  type Waits = map<nat, nat>

  function Follow(w: Waits, x: nat): nat {
    if x in w then w[x] else 0
  }

  function Iter(w: Waits, x: nat, n: nat): nat
    decreases n
  {
    if n == 0 then x else Iter(w, Follow(w, x), n - 1)
  }

  ghost predicate Reaches(w: Waits, x: nat, y: nat) {
    exists n: nat :: Iter(w, x, n) == y
  }

  /** Reaching in at least one step. */
  ghost predicate LeadsTo(w: Waits, x: nat, y: nat) {
    exists n: nat :: n > 0 && Iter(w, x, n) == y
  }

  /** Following edges from a handle never comes back to it. */
  ghost predicate Acyclic(w: Waits) {
    && 0 !in w
    && forall x: nat, n: nat :: x != 0 && n > 0 ==> Iter(w, x, n) != x
  }

  lemma {:induction false} IterAdd(w: Waits, x: nat, m: nat, n: nat)
    ensures Iter(w, x, m + n) == Iter(w, Iter(w, x, m), n)
    decreases m
  {
    if m > 0 {
      IterAdd(w, Follow(w, x), m - 1, n);
    }
  }

  lemma {:induction false} IterZero(w: Waits, n: nat)
    requires 0 !in w
    ensures Iter(w, 0, n) == 0
  {
    if n > 0 {
      IterZero(w, n - 1);
    }
  }

  /** Both walks are at h after m steps. */
  predicate Meet(w: Waits, w': Waits, x: nat, m: nat, h: nat) {
    Iter(w, x, m) == h && Iter(w', x, m) == h
  }

  /** A changed edge matters only to walks that come to its source. */
  lemma {:induction false} IterUntil(w: Waits, w': Waits, h: nat, x: nat, n: nat)
    requires forall y :: y != h ==> Follow(w', y) == Follow(w, y)
    ensures Iter(w', x, n) == Iter(w, x, n) || exists m: nat :: m < n && Meet(w, w', x, m, h)
    decreases n
  {
    if n > 0 {
      if x == h {
        assert Meet(w, w', x, 0, h);
      } else {
        var z := Follow(w, x);
        IterUntil(w, w', h, z, n - 1);
        assert Iter(w, x, n) == Iter(w, z, n - 1) && Iter(w', x, n) == Iter(w', z, n - 1);
        if Iter(w', z, n - 1) != Iter(w, z, n - 1) {
          var m: nat :| m < n - 1 && Meet(w, w', z, m, h);
          assert Iter(w, x, m + 1) == Iter(w, z, m) && Iter(w', x, m + 1) == Iter(w', z, m);
          assert Meet(w, w', x, m + 1, h);
        }
      }
    }
  }

  /** A cycle there is only with the new edge goes through it. */
  lemma CycleUsesEdge(w: Waits, w': Waits, h: nat, o: nat, x: nat, n: nat)
    requires Acyclic(w) && h != 0 && w' == w[h := o]
    requires x != 0 && n > 0 && Iter(w', x, n) == x
    ensures Reaches(w, o, h)
  {
    IterUntil(w, w', h, x, n);
    assert Iter(w, x, n) != x;
    var m: nat :| m < n && Meet(w, w', x, m, h);
    IterAdd(w', x, m, n);
    IterAdd(w', x, n, m);
    assert Iter(w', h, n) == Iter(w', x, m + n) == Iter(w', x, m) == h;
    assert Iter(w', h, n) == Iter(w', o, n - 1);
    IterUntil(w, w', h, o, n - 1);
    if Iter(w, o, n - 1) != h {
      var k: nat :| k < n - 1 && Meet(w, w', o, k, h);
      assert Iter(w, o, k) == h;
    }
  }

  /** An edge whose target does not lead back to its source closes no cycle,
      whatever other edges (stale ones included) the map holds. */
  lemma AcyclicAfterEdge(w: Waits, h: nat, o: nat)
    requires Acyclic(w) && h != 0
    requires !Reaches(w, o, h)
    ensures Acyclic(w[h := o])
  {
    var w' := w[h := o];
    forall x: nat, n: nat | x != 0 && n > 0
      ensures Iter(w', x, n) != x
    {
      if Iter(w', x, n) == x {
        CycleUsesEdge(w, w', h, o, x, n);
      }
    }
  }

  lemma AcyclicAfterRemove(w: Waits, h: nat)
    requires Acyclic(w) && h != 0
    ensures Acyclic(w - {h})
  {
    var w' := w - {h};
    forall x: nat, n: nat | x != 0 && n > 0
      ensures Iter(w', x, n) != x
    {
      IterUntil(w, w', h, x, n);
      if Iter(w', x, n) != Iter(w, x, n) {
        var m: nat :| m < n && Meet(w, w', x, m, h);
        IterAdd(w', x, m, n - m);
        IterZero(w', n - m - 1);
        assert Iter(w', h, n - m) == Iter(w', 0, n - m - 1) == 0;
      }
    }
  }

  /** Extending a walk by one step at its end. */
  lemma IterSnoc(w: Waits, x: nat, n: nat)
    ensures Iter(w, x, n + 1) == Follow(w, Iter(w, x, n))
  {
    IterAdd(w, x, n, 1);
    assert Iter(w, Iter(w, x, n), 1) == Iter(w, Follow(w, Iter(w, x, n)), 0);
  }

  lemma LeadsOn(w: Waits, x: nat, y: nat)
    requires x == y || LeadsTo(w, x, y)
    ensures LeadsTo(w, x, Follow(w, y))
  {
    var n: nat := if x == y then 0 else var n: nat :| n > 0 && Iter(w, x, n) == y; n;
    assert Iter(w, x, n) == y;
    IterSnoc(w, x, n);
  }
}
