/** The hierarchical path-lock coordinator (hub/internal/host/remote_files.go:53-238).

    `PathCoordinator` is the mutable object; each of its methods is one critical
    section of the original mutex and is proved against a function on `Coord`,
    the value of its fields.  The second half runs any number of lock handles
    against that value, one critical section at a time, in any order.
  */
module PathLocks {
  import opened Option
  import opened PathConflict
  import opened WaitGraph

  datatype Entry = Entry(owner: nat, path: Path)

  /** The coordinator's fields; the notify channel is the number of times it was replaced. */
  datatype Coord = Coord(nextID: nat, active: seq<Entry>, waiting: Waits, generation: nat)

  datatype Verdict = Granted | Refused | MustWait(owner: nat)

  // --- One critical section, as functions of the fields ---

  predicate Clashes(e: Entry, h: nat, p: Path) {
    e.owner != h && PathsConflict(p, e.path)
  }

  function FirstFor(active: seq<Entry>, h: nat, p: Path): Option<nat> {
    if active == [] then None
    else if Clashes(active[0], h, p) then Some(active[0].owner)
    else FirstFor(active[1..], h, p)
  }

  /** The owner met first: paths in the order given, entries in the order acquired. */
  function FirstConflict(active: seq<Entry>, h: nat, paths: seq<Path>): Option<nat> {
    if paths == [] then None
    else match FirstFor(active, h, paths[0])
      case Some(o) => Some(o)
      case None => FirstConflict(active, h, paths[1..])
  }

  function Entries(h: nat, paths: seq<Path>): seq<Entry> {
    seq(|paths|, i requires 0 <= i < |paths| => Entry(h, paths[i]))
  }

  ghost function Decide(c: Coord, h: nat, paths: seq<Path>): Verdict {
    match FirstConflict(c.active, h, paths)
    case None => Granted
    case Some(o) => if Reaches(c.waiting, o, h) then Refused else MustWait(o)
  }

  ghost function Attempted(c: Coord, h: nat, paths: seq<Path>): Coord {
    match Decide(c, h, paths)
    case Granted => c.(active := c.active + Entries(h, paths), waiting := c.waiting - {h})
    case Refused => c
    case MustWait(o) => c.(waiting := c.waiting[h := o])
  }

  /** Drops, front to back, one entry of the owner for each path still to remove. */
  function RemoveOwn(active: seq<Entry>, h: nat, todo: multiset<Path>): seq<Entry> {
    if active == [] then []
    else if active[0].owner == h && active[0].path in todo then
      RemoveOwn(active[1..], h, todo - multiset{active[0].path})
    else [active[0]] + RemoveOwn(active[1..], h, todo)
  }

  function Released(c: Coord, h: nat, paths: seq<Path>): Coord {
    c.(active := RemoveOwn(c.active, h, multiset(paths)), generation := c.generation + 1)
  }

  // --- What those functions mean ---

  lemma {:induction false} FirstForMeaning(active: seq<Entry>, h: nat, p: Path)
    ensures FirstFor(active, h, p) == None
            <==> forall e :: e in active && e.owner != h ==> !PathsConflict(p, e.path)
    ensures forall o :: FirstFor(active, h, p) == Some(o) ==>
              o != h && exists j :: FirstAt(active, h, p, j) && active[j].owner == o
  {
    if active == [] {
    } else if Clashes(active[0], h, p) {
      assert active[0] in active && FirstAt(active, h, p, 0);
    } else {
      FirstForMeaning(active[1..], h, p);
      var rest := FirstFor(active[1..], h, p);
      if rest.Some? {
        var j :| FirstAt(active[1..], h, p, j) && active[1..][j].owner == rest.value;
        assert FirstAt(active, h, p, j + 1);
      } else {
        assert active == [active[0]] + active[1..];
      }
    }
  }

  /** The entry at j is the oldest of another owner that conflicts with the path. */
  predicate FirstAt(active: seq<Entry>, h: nat, p: Path, j: int) {
    && 0 <= j < |active| && active[j].owner != h && PathsConflict(p, active[j].path)
    && forall k :: 0 <= k < j && active[k].owner != h ==> !PathsConflict(p, active[k].path)
  }

  /** The path at i is the first to meet a conflict, which is with the entry at j. */
  predicate FirstMeets(active: seq<Entry>, h: nat, paths: seq<Path>, i: int, j: int) {
    && 0 <= i < |paths| && FirstAt(active, h, paths[i], j)
    && forall k, e :: 0 <= k < i && e in active && e.owner != h ==> !PathsConflict(paths[k], e.path)
  }

  /** No conflict is reported exactly when no other owner holds a conflicting path,
      whatever the requester holds itself.  A reported owner is another one, and its
      entry the oldest in the way of the first path that has any. */
  lemma {:induction false} FirstConflictMeaning(active: seq<Entry>, h: nat, paths: seq<Path>)
    ensures FirstConflict(active, h, paths) == None
            <==> forall p, e :: p in paths && e in active && e.owner != h ==> !PathsConflict(p, e.path)
    ensures forall o :: FirstConflict(active, h, paths) == Some(o) ==>
              o != h && exists i, j :: FirstMeets(active, h, paths, i, j) && active[j].owner == o
  {
    if paths != [] {
      FirstForMeaning(active, h, paths[0]);
      if FirstFor(active, h, paths[0]) == None {
        FirstConflictMeaning(active, h, paths[1..]);
        assert paths == [paths[0]] + paths[1..];
        var rest := FirstConflict(active, h, paths[1..]);
        if rest.Some? {
          var i, j :| FirstMeets(active, h, paths[1..], i, j) && active[j].owner == rest.value;
          assert active[j] in active && paths[1..][i] in paths;
          LaterConflict(active, h, paths);
          assert FirstMeets(active, h, paths, i + 1, j);
        }
      } else {
        var o := FirstFor(active, h, paths[0]).value;
        var j :| FirstAt(active, h, paths[0], j) && active[j].owner == o;
        assert FirstMeets(active, h, paths, 0, j);
        assert paths[0] in paths && active[j] in active && PathsConflict(paths[0], active[j].path);
      }
    }
  }

  lemma LaterConflict(active: seq<Entry>, h: nat, paths: seq<Path>)
    requires paths != [] && forall e :: e in active && e.owner != h ==> !PathsConflict(paths[0], e.path)
    ensures forall i, j :: FirstMeets(active, h, paths[1..], i, j) ==> FirstMeets(active, h, paths, i + 1, j)
  {
  }

  /** What the results below use of it. */
  lemma ConflictIsHeld(active: seq<Entry>, h: nat, paths: seq<Path>)
    ensures FirstConflict(active, h, paths) == None
            <==> forall p, e :: p in paths && e in active ==> !Clashes(e, h, p)
    ensures forall o :: FirstConflict(active, h, paths) == Some(o)
                        ==> exists p, e :: p in paths && e in active && e.owner == o && Clashes(e, h, p)
  {
    FirstConflictMeaning(active, h, paths);
    var first := FirstConflict(active, h, paths);
    if first.Some? {
      var i, j :| FirstMeets(active, h, paths, i, j) && active[j].owner == first.value;
      assert paths[i] in paths && active[j] in active && Clashes(active[j], h, paths[i]);
    }
  }

  /** A lock is granted at once exactly when no other owner conflicts; what the
      requester already holds, ancestors and descendants included, is no obstacle. */
  lemma GrantedMeaning(c: Coord, h: nat, paths: seq<Path>)
    ensures Decide(c, h, paths) == Granted
            <==> forall p, e :: p in paths && e in c.active && e.owner != h ==> !PathsConflict(p, e.path)
    ensures Decide(c, h, paths) == Granted ==>
              && multiset(Attempted(c, h, paths).active) == multiset(c.active) + multiset(Entries(h, paths))
              && c.active <= Attempted(c, h, paths).active
  {
    FirstConflictMeaning(c.active, h, paths);
  }

  lemma EntriesCount(h: nat, paths: seq<Path>, e: Entry)
    ensures multiset(Entries(h, paths))[e] == if e.owner == h then multiset(paths)[e.path] else 0
  {
    if paths != [] {
      var last := |paths| - 1;
      assert paths == paths[..last] + [paths[last]];
      assert Entries(h, paths) == Entries(h, paths[..last]) + [Entry(h, paths[last])];
      EntriesCount(h, paths[..last], e);
    }
  }

  lemma {:induction false} RemoveOwnCount(active: seq<Entry>, h: nat, todo: multiset<Path>, e: Entry)
    requires forall p :: todo[p] <= multiset(active)[Entry(h, p)]
    ensures multiset(RemoveOwn(active, h, todo))[e]
            == multiset(active)[e] - if e.owner == h then todo[e.path] else 0
  {
    if active == [] {
      assert todo[e.path] <= multiset(active)[Entry(h, e.path)];
    } else {
      var a := active[0];
      assert active == [a] + active[1..];
      var rest := if a.owner == h && a.path in todo then todo - multiset{a.path} else todo;
      forall p ensures rest[p] <= multiset(active[1..])[Entry(h, p)] {
        assert todo[p] <= multiset(active)[Entry(h, p)];
      }
      RemoveOwnCount(active[1..], h, rest, e);
    }
  }

  /** A release removes exactly its own acquisition, counted as a multiset. */
  lemma ReleaseIsExact(active: seq<Entry>, h: nat, paths: seq<Path>)
    requires multiset(Entries(h, paths)) <= multiset(active)
    ensures multiset(RemoveOwn(active, h, multiset(paths))) == multiset(active) - multiset(Entries(h, paths))
  {
    forall p ensures multiset(paths)[p] <= multiset(active)[Entry(h, p)] {
      EntriesCount(h, paths, Entry(h, p));
    }
    forall e ensures multiset(RemoveOwn(active, h, multiset(paths)))[e]
                     == (multiset(active) - multiset(Entries(h, paths)))[e] {
      EntriesCount(h, paths, e);
      RemoveOwnCount(active, h, multiset(paths), e);
    }
  }

  /** The entries a release cannot touch, in order. */
  function Spared(active: seq<Entry>, h: nat, paths: multiset<Path>): seq<Entry> {
    if active == [] then []
    else (if active[0].owner == h && active[0].path in paths then [] else [active[0]]) + Spared(active[1..], h, paths)
  }

  /** Other owners' entries, and the owner's entries at other paths, keep their order. */
  lemma {:induction false} ReleaseKeepsOrder(active: seq<Entry>, h: nat, todo: multiset<Path>, paths: multiset<Path>)
    requires todo <= paths
    ensures Spared(RemoveOwn(active, h, todo), h, paths) == Spared(active, h, paths)
  {
    if active != [] {
      var a := active[0];
      if a.owner == h && a.path in todo {
        ReleaseKeepsOrder(active[1..], h, todo - multiset{a.path}, paths);
      } else {
        ReleaseKeepsOrder(active[1..], h, todo, paths);
        assert RemoveOwn(active, h, todo)[1..] == RemoveOwn(active[1..], h, todo);
      }
    }
  }

  // --- The coordinator object ---

  class PathCoordinator {
    var nextID: nat
    var active: seq<Entry>
    var waiting: Waits
    var generation: nat

    ghost function View(): Coord
      reads this
    {
      Coord(nextID, active, waiting, generation)
    }

    ghost predicate Valid()
      reads this
    {
      Acyclic(waiting)
    }

    constructor ()
      ensures Valid() && View() == Initial()
    {
      nextID, active, waiting, generation := 0, [], map[], 0;
      new;
      EmptyIsAcyclic();
    }

    method NewHandle() returns (id: nat)
      requires Valid()
      modifies this
      ensures Valid() && id == old(nextID) + 1
      ensures View() == old(View()).(nextID := id)
    {
      nextID := nextID + 1;
      id := nextID;
    }

    method FindConflict(h: nat, paths: seq<Path>) returns (r: Option<nat>)
      ensures r == FirstConflict(active, h, paths)
    {
      for i := 0 to |paths|
        invariant FirstConflict(active, h, paths) == FirstConflict(active, h, paths[i..])
      {
        for j := 0 to |active|
          invariant FirstFor(active, h, paths[i]) == FirstFor(active[j..], h, paths[i])
        {
          if Clashes(active[j], h, paths[i]) {
            return Some(active[j].owner);
          }
          assert active[j..][1..] == active[j + 1..];
        }
        assert paths[i..][1..] == paths[i + 1..];
      }
      return None;
    }

    /** Walks the edges from an owner; the walk ends because the map is acyclic. */
    method CheckDeadlock(h: nat, owner: nat) returns (deadlock: bool)
      requires Valid() && h != 0
      ensures deadlock <==> Reaches(waiting, owner, h)
    {
      var curr := owner;
      ghost var n: nat := 0;
      ghost var seen: set<nat> := {};
      assert Iter(waiting, owner, 0) == owner;
      while curr != 0
        invariant curr == Iter(waiting, owner, n)
        invariant forall m: nat :: m < n ==> Iter(waiting, owner, m) != h
        invariant seen <= waiting.Keys
        invariant forall x :: x in seen ==> LeadsTo(waiting, x, curr)
        decreases curr != 0, waiting.Keys - seen
      {
        if curr == h {
          return true;
        }
        var next := if curr in waiting then waiting[curr] else 0;
        IterSnoc(waiting, owner, n);
        assert curr !in seen by {
          assert 0 !in seen;
        }
        forall x | x in seen + {curr}
          ensures LeadsTo(waiting, x, next)
        {
          LeadsOn(waiting, x, curr);
        }
        if curr in waiting {
          seen := seen + {curr};
        }
        curr, n := next, n + 1;
      }
      forall m: nat ensures Iter(waiting, owner, m) != h {
        if m >= n {
          IterAdd(waiting, owner, n, m - n);
          IterZero(waiting, m - n);
        }
      }
      return false;
    }

    /** One pass of LockHandle.Lock between two waits. */
    method TryLock(h: nat, paths: seq<Path>) returns (v: Verdict)
      requires Valid() && h != 0
      modifies this
      ensures Valid()
      ensures v == Decide(old(View()), h, paths)
      ensures View() == Attempted(old(View()), h, paths)
    {
      var conflict := FindConflict(h, paths);
      if conflict.None? {
        AcyclicAfterRemove(waiting, h);
        waiting := waiting - {h};
        active := active + Entries(h, paths);
        return Granted;
      }
      var deadlock := CheckDeadlock(h, conflict.value);
      if deadlock {
        return Refused;
      }
      AcyclicAfterEdge(waiting, h, conflict.value);
      waiting := waiting[h := conflict.value];
      return MustWait(conflict.value);
    }

    /** A waiter whose context ended. */
    method Cancel(h: nat)
      requires Valid() && h != 0
      modifies this`waiting
      ensures Valid() && waiting == old(waiting) - {h}
    {
      AcyclicAfterRemove(waiting, h);
      waiting := waiting - {h};
    }

    /** The unlock function an acquisition returned. */
    method Release(h: nat, paths: seq<Path>)
      requires Valid()
      modifies this
      ensures Valid() && View() == Released(old(View()), h, paths)
    {
      var toRemove := multiset{};
      for i := 0 to |paths|
        invariant toRemove == multiset(paths[..i])
      {
        assert paths[..i + 1] == paths[..i] + [paths[i]];
        toRemove := toRemove + multiset{paths[i]};
      }
      assert paths[..|paths|] == paths;
      var newActive: seq<Entry> := [];
      for j := 0 to |active|
        invariant newActive + RemoveOwn(active[j..], h, toRemove) == RemoveOwn(active, h, multiset(paths))
      {
        assert active[j..][1..] == active[j + 1..];
        if active[j].owner == h && toRemove[active[j].path] > 0 {
          toRemove := toRemove - multiset{active[j].path};
        } else {
          newActive := newActive + [active[j]];
        }
      }
      active := newActive;
      generation := generation + 1;
    }
  }

  function Initial(): Coord {
    Coord(0, [], map[], 0)
  }

  lemma EmptyIsAcyclic()
    ensures Acyclic(map[])
  {
    forall x: nat, n: nat | x != 0 && n > 0 ensures Iter(map[], x, n) != x {
      IterZero(map[], n - 1);
      assert Iter(map[], x, n) == Iter(map[], 0, n - 1);
    }
  }

  // --- Any number of handles ---

  datatype Status = Running | Blocked(paths: seq<Path>, generation: nat)

  datatype Acquisition = Acquisition(owner: nat, paths: seq<Path>)

  /** The coordinator, what each handle is doing, the acquisitions not yet released, and
      the handles refused while their edge was recorded, which stays. */
  datatype Sys = Sys(c: Coord, status: map<nat, Status>, held: seq<Acquisition>, leftover: set<nat>)

  datatype Step =
    | Open
    | Lock(h: nat, paths: seq<Path>)
    | Recheck(h: nat)
    | GiveUp(h: nat)
    | Unlock(k: nat)

  /** A handle issues one Lock at a time; a waiter rechecks once the channel it
      waits on was closed, and may be cancelled at any moment. */
  predicate Enabled(s: Sys, step: Step) {
    match step
    case Open => true
    case Lock(h, _) => h in s.status && s.status[h] == Running
    case Recheck(h) => Woken(s, h)
    case GiveUp(h) => h in s.status && s.status[h].Blocked?
    case Unlock(k) => k < |s.held|
  }

  predicate Woken(s: Sys, h: nat) {
    h in s.status && s.status[h].Blocked? && s.status[h].generation < s.c.generation
  }

  predicate Asleep(s: Sys, h: nat) {
    h in s.status && s.status[h].Blocked? && s.status[h].generation == s.c.generation
  }

  ghost function AfterAttempt(s: Sys, h: nat, paths: seq<Path>): Sys {
    var c := Attempted(s.c, h, paths);
    match Decide(s.c, h, paths)
    case Granted => Sys(c, s.status[h := Running], s.held + [Acquisition(h, paths)], s.leftover - {h})
    case Refused => Sys(c, s.status[h := Running], s.held, if h in s.c.waiting then s.leftover + {h} else s.leftover)
    case MustWait(_) => Sys(c, s.status[h := Blocked(paths, s.c.generation)], s.held, s.leftover - {h})
  }

  ghost function Apply(s: Sys, step: Step): Sys
    requires Enabled(s, step)
  {
    match step
    case Open => s.(c := s.c.(nextID := s.c.nextID + 1), status := s.status[s.c.nextID + 1 := Running])
    case Lock(h, paths) => AfterAttempt(s, h, paths)
    case Recheck(h) => AfterAttempt(s, h, s.status[h].paths)
    case GiveUp(h) =>
      s.(c := s.c.(waiting := s.c.waiting - {h}), status := s.status[h := Running], leftover := s.leftover - {h})
    case Unlock(k) =>
      s.(c := Released(s.c, s.held[k].owner, s.held[k].paths), held := s.held[..k] + s.held[k + 1..])
  }

  ghost predicate Run(steps: seq<Step>, s: Sys) {
    if steps == [] then s == Sys(Initial(), map[], [], {})
    else
      var last := |steps| - 1;
      exists before :: Run(steps[..last], before) && Enabled(before, steps[last]) && s == Apply(before, steps[last])
  }

  ghost predicate Reachable(s: Sys) {
    exists steps :: Run(steps, s)
  }

  // --- What every step keeps ---

  function Total(held: seq<Acquisition>): multiset<Entry> {
    if held == [] then multiset{}
    else multiset(Entries(held[0].owner, held[0].paths)) + Total(held[1..])
  }

  ghost predicate Exclusive(active: seq<Entry>) {
    forall e1, e2 :: e1 in active && e2 in active && e1.owner != e2.owner ==> !PathsConflict(e1.path, e2.path)
  }

  /** The recorded edge of a waiter nobody has woken names an owner that still
      holds a path in conflict with the request. */
  ghost predicate EdgeIsLive(s: Sys, h: nat)
    requires h in s.status && s.status[h].Blocked? && h in s.c.waiting
  {
    exists p, e :: p in s.status[h].paths && e in s.c.active && e.owner == s.c.waiting[h] && Clashes(e, h, p)
  }

  ghost predicate WaitersRecorded(s: Sys) {
    forall h :: h in s.status && s.status[h].Blocked? ==>
                  && h in s.c.waiting
                  && s.status[h].generation <= s.c.generation
                  && (Asleep(s, h) ==> EdgeIsLive(s, h))
  }

  /** An edge without a wait is one a refusal left behind. */
  ghost predicate EdgesExplained(s: Sys) {
    forall h :: h in s.leftover <==> h in s.c.waiting && h in s.status && s.status[h] == Running
  }

  ghost predicate Inv(s: Sys) {
    && (forall h :: h in s.status <==> 1 <= h <= s.c.nextID)
    && Acyclic(s.c.waiting)
    && s.c.waiting.Keys <= s.status.Keys
    && (forall e :: e in s.c.active ==> e.owner in s.status)
    && Exclusive(s.c.active)
    && multiset(s.c.active) == Total(s.held)
    && WaitersRecorded(s)
    && EdgesExplained(s)
  }

  lemma {:induction false} TotalAppend(held: seq<Acquisition>, a: Acquisition)
    ensures Total(held + [a]) == Total(held) + multiset(Entries(a.owner, a.paths))
  {
    if held == [] {
      assert [] + [a] == [a];
      assert Total([a]) == multiset(Entries(a.owner, a.paths)) + Total([]);
    } else {
      assert (held + [a])[1..] == held[1..] + [a];
      TotalAppend(held[1..], a);
    }
  }

  lemma {:induction false} TotalRemove(held: seq<Acquisition>, k: nat)
    requires k < |held|
    ensures Total(held) == Total(held[..k] + held[k + 1..]) + multiset(Entries(held[k].owner, held[k].paths))
  {
    var rest := held[..k] + held[k + 1..];
    if k == 0 {
      assert rest == held[1..];
    } else {
      assert rest[0] == held[0] && rest[1..] == held[1..][..k - 1] + held[1..][k..];
      TotalRemove(held[1..], k - 1);
    }
  }

  /** A waiter whose edge, request and generation a step left alone keeps a live
      edge as long as the entries only grew. */
  lemma EdgeStaysLive(s: Sys, s': Sys, g: nat)
    requires g in s.status && s.status[g].Blocked? && g in s.c.waiting && EdgeIsLive(s, g)
    requires g in s'.status && s'.status[g] == s.status[g] && g in s'.c.waiting && s'.c.waiting[g] == s.c.waiting[g]
    requires forall e :: e in s.c.active ==> e in s'.c.active
    ensures EdgeIsLive(s', g)
  {
    var p, e :| p in s.status[g].paths && e in s.c.active && e.owner == s.c.waiting[g] && Clashes(e, g, p);
    assert e in s'.c.active;
  }

  lemma OthersKeepWaiting(s: Sys, s': Sys, h: nat)
    requires WaitersRecorded(s)
    requires s'.c.generation == s.c.generation
    requires forall e :: e in s.c.active ==> e in s'.c.active
    requires forall g :: g != h && g in s'.status && s'.status[g].Blocked? ==>
                             && g in s.status && s'.status[g] == s.status[g]
                             && (g in s.c.waiting ==> g in s'.c.waiting && s'.c.waiting[g] == s.c.waiting[g])
    requires h in s'.status && s'.status[h].Blocked? ==>
               h in s'.c.waiting && s'.status[h].generation == s.c.generation && EdgeIsLive(s', h)
    ensures WaitersRecorded(s')
  {
    forall g | g in s'.status && s'.status[g].Blocked? && g != h && Asleep(s', g)
      ensures g in s'.c.waiting && EdgeIsLive(s', g)
    {
      assert Asleep(s, g);
      EdgeStaysLive(s, s', g);
    }
  }

  lemma AttemptKeepsWaiters(s: Sys, h: nat, paths: seq<Path>)
    requires WaitersRecorded(s) && h in s.status
    ensures WaitersRecorded(AfterAttempt(s, h, paths))
  {
    ConflictIsHeld(s.c.active, h, paths);
    OthersKeepWaiting(s, AfterAttempt(s, h, paths), h);
  }

  lemma GrantKeepsExclusion(active: seq<Entry>, h: nat, paths: seq<Path>)
    requires Exclusive(active) && FirstConflict(active, h, paths) == None
    ensures Exclusive(active + Entries(h, paths))
  {
    ConflictIsHeld(active, h, paths);
    forall e1, e2 | && e1 in active + Entries(h, paths) && e2 in active + Entries(h, paths)
                    && e1.owner != e2.owner
      ensures !PathsConflict(e1.path, e2.path)
    {
      assert e1 in active || (e1.owner == h && e1.path in paths);
      assert e2 in active || (e2.owner == h && e2.path in paths);
      if e1 in active && e2 !in active {
        assert !Clashes(e1, h, e2.path);
      } else if e1 !in active && e2 in active {
        assert !Clashes(e2, h, e1.path);
      }
    }
  }

  lemma GrantKeepsLedger(active: seq<Entry>, held: seq<Acquisition>, h: nat, paths: seq<Path>)
    requires multiset(active) == Total(held)
    ensures multiset(active + Entries(h, paths)) == Total(held + [Acquisition(h, paths)])
  {
    TotalAppend(held, Acquisition(h, paths));
  }

  lemma AttemptKeepsInv(s: Sys, h: nat, paths: seq<Path>)
    requires Inv(s) && h in s.status
    ensures Inv(AfterAttempt(s, h, paths))
  {
    AttemptKeepsWaiters(s, h, paths);
    match Decide(s.c, h, paths)
    case Granted =>
      AcyclicAfterRemove(s.c.waiting, h);
      GrantKeepsExclusion(s.c.active, h, paths);
      GrantKeepsLedger(s.c.active, s.held, h, paths);
    case Refused =>
    case MustWait(o) =>
      AcyclicAfterEdge(s.c.waiting, h, o);
  }

  lemma UnlockIsExact(active: seq<Entry>, held: seq<Acquisition>, k: nat)
    requires k < |held| && multiset(active) == Total(held)
    ensures var a, active' := held[k], RemoveOwn(active, held[k].owner, multiset(held[k].paths));
            && multiset(active) == multiset(active') + multiset(Entries(a.owner, a.paths))
            && multiset(active') == Total(held[..k] + held[k + 1..])
  {
    TotalRemove(held, k);
    ReleaseIsExact(active, held[k].owner, held[k].paths);
  }

  lemma UnlockKeepsInv(s: Sys, k: nat)
    requires Inv(s) && k < |s.held|
    ensures Inv(Apply(s, Unlock(k)))
  {
    UnlockIsExact(s.c.active, s.held, k);
    var s' := Apply(s, Unlock(k));
    forall e | e in s'.c.active ensures e in s.c.active {
      assert e in multiset(s'.c.active);
      assert e in multiset(s.c.active);
    }
  }

  lemma StepKeepsInv(s: Sys, step: Step)
    requires Inv(s) && Enabled(s, step)
    ensures Inv(Apply(s, step))
  {
    var s' := Apply(s, step);
    match step
    case Lock(h, paths) => AttemptKeepsInv(s, h, paths);
    case Recheck(h) => AttemptKeepsInv(s, h, s.status[h].paths);
    case Unlock(k) => UnlockKeepsInv(s, k);
    case Open =>
      OthersKeepWaiting(s, s', s.c.nextID + 1);
    case GiveUp(h) =>
      AcyclicAfterRemove(s.c.waiting, h);
      OthersKeepWaiting(s, s', h);
  }

  lemma {:induction false} ReachableInv(steps: seq<Step>, s: Sys)
    requires Run(steps, s)
    ensures Inv(s)
  {
    if steps == [] {
      EmptyIsAcyclic();
    } else {
      var last := |steps| - 1;
      var before :| Run(steps[..last], before) && Enabled(before, steps[last]) && s == Apply(before, steps[last]);
      ReachableInv(steps[..last], before);
      StepKeepsInv(before, steps[last]);
    }
  }

  // --- Main results, over every reachable state ---

  /** The wait map never has a cycle, stale edges included. */
  lemma WaitMapAcyclic(s: Sys)
    requires Reachable(s)
    ensures Acyclic(s.c.waiting)
  {
    var steps :| Run(steps, s);
    ReachableInv(steps, s);
  }

  /** Entries of different owners never conflict, and what is active is exactly
      what was acquired and not released. */
  lemma Exclusion(s: Sys)
    requires Reachable(s)
    ensures Exclusive(s.c.active)
    ensures multiset(s.c.active) == Total(s.held)
  {
    var steps :| Run(steps, s);
    ReachableInv(steps, s);
  }

  /** A release takes away exactly its own acquisition and leaves the rest in order. */
  lemma ExactRelease(s: Sys, k: nat)
    requires Reachable(s) && k < |s.held|
    ensures var a, s' := s.held[k], Apply(s, Unlock(k));
            && multiset(s.c.active) == multiset(s'.c.active) + multiset(Entries(a.owner, a.paths))
            && Spared(s'.c.active, a.owner, multiset(a.paths)) == Spared(s.c.active, a.owner, multiset(a.paths))
  {
    assert multiset(s.c.active) == Total(s.held) by {
      var steps :| Run(steps, s);
      ReachableInv(steps, s);
    }
    var a := s.held[k];
    assert Apply(s, Unlock(k)).c.active == RemoveOwn(s.c.active, a.owner, multiset(a.paths));
    UnlockIsExact(s.c.active, s.held, k);
    ReleaseKeepsOrder(s.c.active, a.owner, multiset(a.paths), multiset(a.paths));
  }

  /** A release wakes every waiter. */
  lemma ReleaseWakesAll(s: Sys, k: nat, h: nat)
    requires Reachable(s) && k < |s.held|
    requires h in s.status && s.status[h].Blocked?
    ensures Woken(Apply(s, Unlock(k)), h)
  {
    var steps :| Run(steps, s);
    ReachableInv(steps, s);
  }

  /** A holder that can act: it runs, or it was woken and will recheck. */
  predicate CanAct(s: Sys, h: nat) {
    && h in s.status
    && (s.status[h] == Running || Woken(s, h))
    && exists e :: e in s.c.active && e.owner == h
  }

  /** Following the edges of sleeping waiters ends at a holder that can act. */
  lemma {:induction false} Chase(s: Sys, h: nat, seen: set<nat>) returns (n: nat)
    requires Inv(s) && Asleep(s, h)
    requires seen <= s.c.waiting.Keys
    requires forall x :: x in seen ==> LeadsTo(s.c.waiting, x, h)
    ensures n > 0 && CanAct(s, Iter(s.c.waiting, h, n))
    ensures forall m: nat :: m < n ==> Asleep(s, Iter(s.c.waiting, h, m))
    decreases s.c.waiting.Keys - seen
  {
    var w := s.c.waiting;
    var o := w[h];
    assert EdgeIsLive(s, h);
    var p, e :| p in s.status[h].paths && e in s.c.active && e.owner == o && Clashes(e, h, p);
    assert Iter(w, h, 1) == Iter(w, o, 0) == o;
    assert Iter(w, h, 0) == h;
    if !Asleep(s, o) {
      n := 1;
    } else {
      forall x | x in seen + {h}
        ensures LeadsTo(w, x, o)
      {
        LeadsOn(w, x, h);
      }
      assert h !in seen;
      n := Chase(s, o, seen + {h});
      n := n + 1;
      forall m: nat | m < n ensures Asleep(s, Iter(w, h, m)) {
        if m > 0 {
          assert Iter(w, h, m) == Iter(w, o, m - 1);
        }
      }
    }
  }

  /** No deadlock and no lost wakeup: from every sleeping waiter the recorded
      edges lead, through sleeping waiters only, to a lock holder that is
      running or has been woken. */
  lemma DeadlockFreedom(s: Sys, h: nat)
    requires Reachable(s) && Asleep(s, h)
    ensures exists n: nat :: && n > 0
                             && CanAct(s, Iter(s.c.waiting, h, n))
                             && forall m: nat :: m < n ==> Asleep(s, Iter(s.c.waiting, h, m))
  {
    var steps :| Run(steps, s);
    ReachableInv(steps, s);
    var n := Chase(s, h, {});
  }

  /** A refused request closes a loop of recorded waits: the owner in its way leads
      back to the requester. */
  lemma RefusalHasALoop(c: Coord, h: nat, paths: seq<Path>)
    requires Decide(c, h, paths) == Refused
    ensures exists p, e :: p in paths && e in c.active && Clashes(e, h, p) && Reaches(c.waiting, e.owner, h)
  {
    ConflictIsHeld(c.active, h, paths);
  }

  // --- When a refusal is a deadlock ---

  /** The handle waits, and the owner its edge names holds what it waits for. */
  ghost predicate LiveWait(s: Sys, x: nat) {
    x in s.status && s.status[x].Blocked? && x in s.c.waiting && EdgeIsLive(s, x)
  }

  /** A waiter that was woken, has not rechecked, and whose edge names an owner that
      holds nothing it waits for any more. */
  ghost predicate OwnerGone(s: Sys, x: nat) {
    Woken(s, x) && x in s.c.waiting && !EdgeIsLive(s, x)
  }

  lemma EdgeIsWaitOrStale(s: Sys, x: nat)
    requires Inv(s) && x in s.c.waiting
    ensures LiveWait(s, x) <==> x !in s.leftover && !OwnerGone(s, x)
  {
    assert x in s.status;
    if s.status[x].Blocked? && !Woken(s, x) {
      assert Asleep(s, x) && EdgeIsLive(s, x);
    }
  }

  /** The walk that refused a request follows recorded edges from the first
      conflicting owner to the requester.  All of them are live waits, so that the
      refusal is a deadlock, exactly if none was left behind by a refusal and none
      belongs to a woken waiter whose owner is gone. */
  lemma RefusalIsDeadlock(s: Sys, h: nat, paths: seq<Path>) returns (o: nat, n: nat)
    requires Reachable(s) && h in s.status && Decide(s.c, h, paths) == Refused
    ensures exists p, e :: p in paths && e in s.c.active && e.owner == o && Clashes(e, h, p)
    ensures Iter(s.c.waiting, o, n) == h
    ensures forall m: nat :: m < n ==> Iter(s.c.waiting, o, m) in s.c.waiting
    ensures (forall m: nat :: m < n ==> LiveWait(s, Iter(s.c.waiting, o, m)))
            <==> forall m: nat :: m < n ==> Iter(s.c.waiting, o, m) !in s.leftover
                                            && !OwnerGone(s, Iter(s.c.waiting, o, m))
  {
    var w := s.c.waiting;
    assert Inv(s) by {
      var steps :| Run(steps, s);
      ReachableInv(steps, s);
    }
    ConflictIsHeld(s.c.active, h, paths);
    o := FirstConflict(s.c.active, h, paths).value;
    var k: nat :| Iter(w, o, k) == h;
    n := k;
    forall m: nat | m < n ensures Iter(w, o, m) in w {
      AlongEdges(w, o, m, n);
    }
    forall m: nat | m < n
      ensures LiveWait(s, Iter(w, o, m)) <==> Iter(w, o, m) !in s.leftover && !OwnerGone(s, Iter(w, o, m))
    {
      EdgeIsWaitOrStale(s, Iter(w, o, m));
    }
  }

  /** A walk that arrives somewhere has followed edges. */
  lemma AlongEdges(w: Waits, x: nat, m: nat, n: nat)
    requires 0 !in w && m < n && Iter(w, x, n) != 0
    ensures Iter(w, x, m) in w
  {
    IterAdd(w, x, m, n - m);
    if Iter(w, x, m) !in w {
      assert Iter(w, Iter(w, x, m), n - m) == Iter(w, 0, n - m - 1);
      IterZero(w, n - m - 1);
    }
  }
}
