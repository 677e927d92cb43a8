/** The cache of directory listings in the browser
    (hub/web/src/files/tree.ts:9-108, 153-221).

    A listing travels while the user refreshes, navigates, renames and switches
    hosts.  Every wait holds a ticket, and only the newest ticket of a directory
    may write its listing.
  */
module TreeCache {
  import opened Option

  type Path = string
  type Listing = seq<string>

  /** Module-wide: tickets are shared by all trees. */
  class TicketCounter {
    var last: nat

    constructor ()
      ensures last == 0
    {
      last := 0;
    }

    method Next() returns (ticket: nat)
      modifies this
      ensures ticket == last == old(last) + 1
    {
      last := last + 1;
      ticket := last;
    }
  }

  datatype Tree = Tree(
    hostId: string,
    revision: Option<nat>,
    children: map<Path, Listing>,
    truncated: set<Path>,
    expanded: set<Path>,
    loads: map<Path, nat>)

  predicate Under(dir: Path, key: Path) {
    key == dir || (if dir == "/" then "/" else dir + "/") <= key
  }

  /** No revision on either side counts as agreement. */
  predicate RevisionsAgree(a: Option<nat>, b: Option<nat>) {
    a.None? || b.None? || a == b
  }

  predicate Serves(t: Tree, path: Path, force: bool, hostId: string, revision: Option<nat>) {
    !force && t.hostId == hostId && RevisionsAgree(revision, t.revision) && path in t.children
  }

  predicate Accepts(t: Tree, ticket: nat, path: Path, hostId: string, revision: Option<nat>) {
    && t.hostId == hostId && RevisionsAgree(revision, t.revision)
    && path in t.loads && t.loads[path] == ticket
  }

  function Stored(t: Tree, path: Path, listing: Listing, truncated: bool): Tree {
    t.(children := t.children[path := listing],
       truncated := if truncated then t.truncated + {path} else t.truncated - {path})
  }

  function Invalidated(t: Tree, path: Path, ticket: nat): Tree {
    t.(children := t.children - {path}, truncated := t.truncated - {path}, loads := t.loads[path := ticket])
  }

  /** Waits beneath a forgotten directory are superseded, in any order. */
  predicate SupersededUnder(before: map<Path, nat>, after: map<Path, nat>, path: Path, last: nat, last': nat) {
    && last <= last' && after.Keys == before.Keys
    && (forall k :: k in before && !Under(path, k) ==> after[k] == before[k])
    && (forall k :: k in before && Under(path, k) ==> last < after[k] <= last')
  }

  /** The same with the waits for `todo` still as they were. */
  predicate PartlySuperseded(
    before: map<Path, nat>, after: map<Path, nat>, path: Path, todo: set<Path>, last: nat, last': nat)
  {
    && todo <= before.Keys && after.Keys == before.Keys
    && (forall k :: k in before && (k in todo || !Under(path, k)) ==> after[k] == before[k])
    && (forall k :: k in before && k !in todo && Under(path, k) ==> last < after[k] <= last')
  }

  lemma OneSuperseded(
    before: map<Path, nat>, now: map<Path, nat>, after: map<Path, nat>, path: Path, todo: set<Path>, key: Path,
    last: nat, last': nat, last'': nat)
    requires PartlySuperseded(before, now, path, todo, last, last') && key in todo && last <= last'
    requires if Under(path, key) then last'' == last' + 1 && after == now[key := last'']
             else last'' == last' && after == now
    ensures PartlySuperseded(before, after, path, todo - {key}, last, last'')
  {
  }

  predicate IsForgotten(t: Tree, last: nat, path: Path, t': Tree, last': nat) {
    && t'.hostId == t.hostId && t'.revision == t.revision
    && t'.children == (map k | k in t.children && !Under(path, k) :: t.children[k])
    && t'.truncated == (set k | k in t.truncated && !Under(path, k))
    && t'.expanded == (set k | k in t.expanded && !Under(path, k))
    && SupersededUnder(t.loads, t'.loads, path, last, last')
  }

  class TreeState {
    var hostId: string
    var revision: Option<nat>
    var children: map<Path, Listing>
    var truncated: set<Path>
    var expanded: set<Path>
    var loads: map<Path, nat>
    const tickets: TicketCounter

    function Value(): Tree
      reads this
    {
      Tree(hostId, revision, children, truncated, expanded, loads)
    }

    constructor (tickets: TicketCounter, hostId: string, revision: Option<nat>)
      ensures Value() == Tree(hostId, revision, map[], {}, {}, map[]) && this.tickets == tickets
    {
      this.tickets, this.hostId, this.revision := tickets, hostId, revision;
      children, truncated, expanded, loads := map[], {}, {}, map[];
    }

    method Reset(hostId: string, revision: Option<nat>)
      modifies this
      ensures Value() == Tree(hostId, revision, map[], {}, {}, map[])
    {
      this.hostId, this.revision := hostId, revision;
      children, truncated, expanded, loads := map[], {}, {}, map[];
    }

    method Issue(path: Path) returns (ticket: nat)
      modifies this, tickets
      ensures ticket == tickets.last == old(tickets.last) + 1
      ensures Value() == old(Value()).(loads := old(loads)[path := ticket])
    {
      ticket := tickets.Next();
      loads := loads[path := ticket];
    }

    method InvalidateDirectory(path: Path)
      modifies this, tickets
      ensures tickets.last == old(tickets.last) + 1
      ensures Value() == Invalidated(old(Value()), path, tickets.last)
    {
      children := children - {path};
      truncated := truncated - {path};
      var _ := Issue(path);
    }

    method ForgetDirectory(path: Path)
      modifies this, tickets
      ensures IsForgotten(old(Value()), old(tickets.last), path, Value(), tickets.last)
    {
      children := map k | k in children && !Under(path, k) :: children[k];
      truncated := set k | k in truncated && !Under(path, k);
      expanded := set k | k in expanded && !Under(path, k);
      ghost var kept := Value();
      var keys := loads.Keys;
      while keys != {}
        invariant Value() == kept.(loads := loads)
        invariant old(tickets.last) <= tickets.last
        invariant PartlySuperseded(kept.loads, loads, path, keys, old(tickets.last), tickets.last)
        decreases keys
      {
        var key :| key in keys;
        ghost var before, last := loads, tickets.last;
        if Under(path, key) {
          var _ := Issue(key);
        }
        OneSuperseded(kept.loads, before, loads, path, keys, key, old(tickets.last), last, tickets.last);
        keys := keys - {key};
      }
    }

    /** loadDirectory up to its request: either the cached listing, or a ticket. */
    method BeginLoad(path: Path, force: bool, hostId: string, revision: Option<nat>)
      returns (cached: Option<Listing>, ticket: nat)
      modifies this, tickets
      ensures cached == if old(Serves(Value(), path, force, hostId, revision)) then Some(old(children)[path]) else None
      ensures cached.Some? <==>
              && !force && this.hostId == hostId && path in old(children)
              && (revision.None? || old(this.revision).None? || revision == old(this.revision))
      ensures cached.Some? ==> Value() == old(Value()) && tickets.last == old(tickets.last)
      ensures cached.None? ==> ticket == tickets.last == old(tickets.last) + 1
      ensures cached.None? ==> Value() == old(Value()).(loads := old(loads)[path := ticket])
    {
      if !force {
        if this.hostId == hostId && (revision.None? || this.revision.None? || this.revision == revision) {
          if path in children {
            return Some(children[path]), 0;
          }
        }
      }
      ticket := Issue(path);
      cached := None;
    }

    /** loadDirectory after its answer. */
    method CompleteLoad(
        ticket: nat, path: Path, hostId: string, revision: Option<nat>, listing: Listing, truncated: bool)
      modifies this
      ensures Value() == if old(Accepts(Value(), ticket, path, hostId, revision))
                         then Stored(old(Value()), path, listing, truncated) else old(Value())
    {
      if this.hostId != hostId {
        return;
      }
      if revision.Some? && this.revision.Some? && this.revision != revision {
        return;
      }
      if path !in loads || loads[path] != ticket {
        return;
      }
      children := children[path := listing];
      if truncated {
        this.truncated := this.truncated + {path};
      } else {
        this.truncated := this.truncated - {path};
      }
    }
  }

  // --- Overlapping loads ---

  /** A wait for a listing; `at` is when it was issued, as an index into the log. */
  datatype Load = Load(ticket: nat, path: Path, hostId: string, revision: Option<nat>, at: nat)

  datatype Event = Issued(ticket: nat, path: Path) | Dropped(path: Path) | Forgot(path: Path) | Cleared

  /** `log` is everything that happened to the cache and `history` the loads whose
      listing was stored, both in order; `source` says whose listing is cached. */
  datatype World = World(
    tree: Tree,
    last: nat,
    pending: map<nat, Load>,
    log: seq<Event>,
    source: map<Path, Load>,
    history: seq<Load>)

  datatype Step =
    | Begin(path: Path, force: bool, hostId: string, revision: Option<nat>)
    | Complete(ticket: nat, listing: Listing, truncated: bool)
    | Fail(ticket: nat)
    | Invalidate(path: Path)
    | Forget(path: Path)
    | Reset(hostId: string, revision: Option<nat>)
    | OtherTrees(last: nat)

  predicate Covers(e: Event, path: Path) {
    match e
    case Issued(_, p) => p == path
    case Dropped(p) => p == path
    case Forgot(p) => Under(p, path)
    case Cleared => true
  }

  /** Nothing after position `at` covers the directory. */
  predicate Fresh(log: seq<Event>, at: nat, path: Path) {
    forall j :: at < j < |log| ==> !Covers(log[j], path)
  }

  /** As Fresh, leaving later loads aside: they do not take a cached listing away. */
  predicate Kept(log: seq<Event>, at: nat, path: Path) {
    forall j :: at < j < |log| ==> log[j].Issued? || !Covers(log[j], path)
  }

  function Begun(w: World, path: Path, hostId: string, revision: Option<nat>): World {
    var ticket := w.last + 1;
    w.(tree := w.tree.(loads := w.tree.loads[path := ticket]), last := ticket,
       pending := w.pending[ticket := Load(ticket, path, hostId, revision, |w.log|)],
       log := w.log + [Issued(ticket, path)])
  }

  function Completed(w: World, l: Load, listing: Listing, truncated: bool): World {
    var w1 := w.(pending := w.pending - {l.ticket});
    if Accepts(w.tree, l.ticket, l.path, l.hostId, l.revision) then
      w1.(tree := Stored(w.tree, l.path, listing, truncated),
          source := w.source[l.path := l], history := w.history + [l])
    else w1
  }

  predicate Next(w: World, step: Step, w': World) {
    match step
    case Begin(path, force, hostId, revision) =>
      w' == if Serves(w.tree, path, force, hostId, revision) then w else Begun(w, path, hostId, revision)
    case Complete(ticket, listing, truncated) =>
      ticket in w.pending && w' == Completed(w, w.pending[ticket], listing, truncated)
    case Fail(ticket) => ticket in w.pending && w' == w.(pending := w.pending - {ticket})
    case Invalidate(path) =>
      w' == w.(tree := Invalidated(w.tree, path, w.last + 1), last := w.last + 1,
               log := w.log + [Dropped(path)], source := w.source - {path})
    case Forget(path) =>
      && IsForgotten(w.tree, w.last, path, w'.tree, w'.last)
      && w' == w.(tree := w'.tree, last := w'.last, log := w.log + [Forgot(path)],
                  source := map k | k in w.source && !Under(path, k) :: w.source[k])
    case Reset(hostId, revision) =>
      w' == w.(tree := Tree(hostId, revision, map[], {}, {}, map[]), log := w.log + [Cleared], source := map[])
    case OtherTrees(last) => w.last <= last && w' == w.(last := last)
  }

  predicate Init(w: World) {
    && w.tree.children == map[] && w.tree.truncated == {} && w.tree.expanded == {} && w.tree.loads == map[]
    && w.pending == map[] && w.log == [] && w.source == map[] && w.history == []
  }

  ghost predicate Run(steps: seq<Step>, w: World) {
    if steps == [] then Init(w)
    else
      var last := |steps| - 1;
      exists before :: Run(steps[..last], before) && Next(before, steps[last], w)
  }

  ghost predicate Reachable(w: World) {
    exists steps :: Run(steps, w)
  }

  // --- What every step keeps ---

  predicate IssuedAt(log: seq<Event>, l: Load) {
    l.at < |log| && log[l.at] == Issued(l.ticket, l.path)
  }

  predicate LoadsOk(w: World) {
    forall p :: p in w.tree.loads ==> w.tree.loads[p] <= w.last
  }

  predicate PendingOk(w: World) {
    forall t :: t in w.pending ==> t <= w.last && w.pending[t].ticket == t && IssuedAt(w.log, w.pending[t])
  }

  predicate IsNewest(tree: Tree, l: Load) {
    l.path in tree.loads && tree.loads[l.path] == l.ticket
  }

  /** A ticket is the newest of its directory exactly while nothing has covered it. */
  predicate NewestIsFresh(w: World) {
    forall t :: t in w.pending ==>
                  (IsNewest(w.tree, w.pending[t]) <==> Fresh(w.log, w.pending[t].at, w.pending[t].path))
  }

  predicate SourceOk(w: World, p: Path)
    requires p in w.source
  {
    var l := w.source[p];
    && l.path == p && l.hostId == w.tree.hostId && RevisionsAgree(l.revision, w.tree.revision)
    && IssuedAt(w.log, l) && Kept(w.log, l.at, p)
  }

  predicate SourcesOk(w: World) {
    && w.source.Keys == w.tree.children.Keys
    && (forall p :: p in w.source ==> SourceOk(w, p))
  }

  predicate HistoryIssued(w: World) {
    forall i :: 0 <= i < |w.history| ==> IssuedAt(w.log, w.history[i]) && w.history[i].ticket !in w.pending
  }

  predicate TicketsSpent(w: World) {
    forall i :: 0 <= i < |w.history| ==> w.history[i].ticket <= w.last
  }

  predicate Forward(history: seq<Load>) {
    forall i, j :: 0 <= i < j < |history| && history[i].path == history[j].path ==> history[i].at < history[j].at
  }

  predicate TruncatedCached(w: World) {
    w.tree.truncated <= w.tree.children.Keys
  }

  ghost predicate Inv(w: World) {
    && LoadsOk(w) && PendingOk(w) && NewestIsFresh(w) && SourcesOk(w) && HistoryIssued(w) && TicketsSpent(w)
    && Forward(w.history) && TruncatedCached(w)
  }

  lemma LoadsOkKept(w: World, step: Step, w': World)
    requires LoadsOk(w) && Next(w, step, w')
    ensures LoadsOk(w') && w.last <= w'.last
  {
  }

  lemma PendingOkKept(w: World, step: Step, w': World)
    requires PendingOk(w) && Next(w, step, w')
    ensures PendingOk(w')
  {
    LogGrows(w, step, w');
    forall t | t in w'.pending
      ensures t <= w'.last && w'.pending[t].ticket == t && IssuedAt(w'.log, w'.pending[t])
    {
      if t in w.pending && w'.pending[t] == w.pending[t] {
        assert IssuedAt(w.log, w.pending[t]);
      }
    }
  }

  lemma LogGrows(w: World, step: Step, w': World)
    requires Next(w, step, w')
    ensures w.log <= w'.log && |w'.log| <= |w.log| + 1 && w.last <= w'.last
  {
  }

  /** A load enters the history only when it leaves the pending ones. */
  lemma HistoryGrows(w: World, step: Step, w': World)
    requires PendingOk(w) && Next(w, step, w')
    ensures || w'.history == w.history
            || exists t :: && t in w.pending && t !in w'.pending && w'.history == w.history + [w.pending[t]]
                           && IsNewest(w.tree, w.pending[t])
  {
  }

  lemma TicketsSpentKept(w: World, step: Step, w': World)
    requires PendingOk(w) && TicketsSpent(w) && Next(w, step, w')
    ensures TicketsSpent(w')
  {
    HistoryGrows(w, step, w');
    LogGrows(w, step, w');
  }

  lemma FreshAppend(log: seq<Event>, e: Event, at: nat, path: Path)
    requires at < |log|
    ensures Fresh(log + [e], at, path) <==> Fresh(log, at, path) && !Covers(e, path)
  {
    if Fresh(log + [e], at, path) {
      assert forall j :: at < j < |log| ==> (log + [e])[j] == log[j];
      assert (log + [e])[|log|] == e;
    }
  }

  lemma OldTicketKept(w: World, step: Step, w': World, l: Load)
    requires Inv(w) && Next(w, step, w') && l.ticket in w.pending && w.pending[l.ticket] == l
    ensures IsNewest(w'.tree, l) <==> Fresh(w'.log, l.at, l.path)
  {
    if |w'.log| > |w.log| {
      assert w'.log == w.log + [w'.log[|w.log|]];
      FreshAppend(w.log, w'.log[|w.log|], l.at, l.path);
    }
  }

  lemma NewestIsFreshKept(w: World, step: Step, w': World)
    requires Inv(w) && Next(w, step, w')
    ensures NewestIsFresh(w')
  {
    forall t | t in w'.pending
      ensures IsNewest(w'.tree, w'.pending[t]) <==> Fresh(w'.log, w'.pending[t].at, w'.pending[t].path)
    {
      if t in w.pending && w.pending[t] == w'.pending[t] {
        OldTicketKept(w, step, w', w.pending[t]);
      }
    }
  }

  lemma KeptAppend(log: seq<Event>, e: Event, at: nat, path: Path)
    requires at < |log| && Kept(log, at, path) && (e.Issued? || !Covers(e, path))
    ensures Kept(log + [e], at, path)
  {
  }

  /** A source that stays is not covered by what happens, unless by a later load. */
  lemma SourceNotCovered(w: World, step: Step, w': World, p: Path)
    requires Next(w, step, w') && p in w.source && p in w'.source && w'.source[p] == w.source[p]
    requires |w'.log| > |w.log|
    ensures w'.log == w.log + [w'.log[|w.log|]] && w'.tree.hostId == w.tree.hostId
    ensures w'.tree.revision == w.tree.revision
    ensures w'.log[|w.log|].Issued? || !Covers(w'.log[|w.log|], p)
  {
  }

  lemma NewSourceOk(w: World, step: Step, w': World, p: Path)
    requires PendingOk(w) && NewestIsFresh(w) && Next(w, step, w') && p in w'.source
    requires p !in w.source || w'.source[p] != w.source[p]
    ensures SourceOk(w', p)
  {
  }

  lemma SourceOkKept(w: World, step: Step, w': World, p: Path)
    requires PendingOk(w) && NewestIsFresh(w) && SourcesOk(w) && Next(w, step, w') && p in w'.source
    ensures SourceOk(w', p)
  {
    if p in w.source && w'.source[p] == w.source[p] {
      assert SourceOk(w, p);
      if |w'.log| > |w.log| {
        SourceNotCovered(w, step, w', p);
        KeptAppend(w.log, w'.log[|w.log|], w.source[p].at, p);
      }
    } else {
      NewSourceOk(w, step, w', p);
    }
  }

  lemma SourcesOkKept(w: World, step: Step, w': World)
    requires Inv(w) && Next(w, step, w')
    ensures SourcesOk(w')
  {
    forall p | p in w'.source ensures SourceOk(w', p) { SourceOkKept(w, step, w', p); }
  }

  lemma HistoryIssuedKept(w: World, step: Step, w': World)
    requires PendingOk(w) && HistoryIssued(w) && TicketsSpent(w) && Next(w, step, w')
    ensures HistoryIssued(w')
  {
    HistoryGrows(w, step, w');
    LogGrows(w, step, w');
    forall i | 0 <= i < |w'.history| ensures IssuedAt(w'.log, w'.history[i]) && w'.history[i].ticket !in w'.pending {
      if i < |w.history| {
        assert IssuedAt(w.log, w.history[i]) && w.history[i].ticket <= w.last;
      } else {
        assert IssuedAt(w.log, w'.history[i]);
      }
    }
  }

  /** What is stored next was issued after all that is stored of its directory:
      nothing has covered the directory since. */
  lemma ForwardKept(w: World, step: Step, w': World)
    requires PendingOk(w) && NewestIsFresh(w) && HistoryIssued(w) && Forward(w.history) && Next(w, step, w')
    ensures Forward(w'.history)
  {
    HistoryGrows(w, step, w');
    if w'.history != w.history {
      var l := w'.history[|w.history|];
      assert Fresh(w.log, l.at, l.path) && IssuedAt(w.log, l);
      forall i | 0 <= i < |w.history| && w.history[i].path == l.path ensures w.history[i].at < l.at {
        assert IssuedAt(w.log, w.history[i]);
      }
    }
  }

  lemma TruncatedCachedKept(w: World, step: Step, w': World)
    requires TruncatedCached(w) && Next(w, step, w')
    ensures TruncatedCached(w')
  {
  }

  lemma StepKeepsInv(w: World, step: Step, w': World)
    requires Inv(w) && Next(w, step, w')
    ensures Inv(w')
  {
    LoadsOkKept(w, step, w');
    PendingOkKept(w, step, w');
    TicketsSpentKept(w, step, w');
    NewestIsFreshKept(w, step, w');
    SourcesOkKept(w, step, w');
    HistoryIssuedKept(w, step, w');
    ForwardKept(w, step, w');
    TruncatedCachedKept(w, step, w');
  }

  lemma {:induction false} RunKeepsInv(steps: seq<Step>, w: World)
    requires Run(steps, w)
    ensures Inv(w)
    decreases |steps|
  {
    if steps != [] {
      var last := |steps| - 1;
      var before :| Run(steps[..last], before) && Next(before, steps[last], w);
      RunKeepsInv(steps[..last], before);
      StepKeepsInv(before, steps[last], w);
    }
  }

  // --- Results ---

  /** A listing is stored exactly when nothing has covered its directory since it
      was requested, no later load, invalidation, forgetting or reset, and the tree
      still shows the host it came from. */
  lemma StoredIffFresh(w: World, ticket: nat, listing: Listing, truncated: bool)
    requires Reachable(w) && ticket in w.pending
    ensures var l, w' := w.pending[ticket], Completed(w, w.pending[ticket], listing, truncated);
            && (Fresh(w.log, l.at, l.path) && w.tree.hostId == l.hostId
                && (l.revision.None? || w.tree.revision.None? || l.revision == w.tree.revision)
                <==> w'.history == w.history + [l])
            && (w'.history == w.history + [l] ==>
                  l.path in w'.tree.children && w'.tree.children[l.path] == listing
                  && (l.path in w'.tree.truncated <==> truncated))
            && (w'.history != w.history + [l] ==> w'.tree == w.tree)
  {
    var steps :| Run(steps, w);
    RunKeepsInv(steps, w);
    var l := w.pending[ticket];
    assert l.ticket == ticket && (IsNewest(w.tree, l) <==> Fresh(w.log, l.at, l.path));
    assert |w.history + [l]| != |w.history|;
  }

  /** A cached listing belongs to the host and revision shown, and was requested
      after every invalidation, forgetting and reset that covers its directory. */
  lemma CachedIsCurrent(w: World, p: Path)
    requires Reachable(w) && p in w.tree.children
    ensures p in w.source
    ensures var l := w.source[p];
            && l.path == p && l.hostId == w.tree.hostId
            && (l.revision.None? || w.tree.revision.None? || l.revision == w.tree.revision)
            && l.at < |w.log| && w.log[l.at] == Issued(l.ticket, p)
            && (forall j :: l.at < j < |w.log| && Covers(w.log[j], p) ==> w.log[j].Issued?)
  {
    var steps :| Run(steps, w);
    RunKeepsInv(steps, w);
    assert SourceOk(w, p);
  }

  /** What is said to be cut short is cached: the mark goes with its listing. */
  lemma TruncatedIsCached(w: World, p: Path)
    requires Reachable(w) && p in w.tree.truncated
    ensures p in w.tree.children
  {
    var steps :| Run(steps, w);
    RunKeepsInv(steps, w);
  }

  /** The cache never moves backwards: of two listings stored for a directory the
      later one was requested later, whatever was dropped in between. */
  lemma NeverBackwards(w: World, i: nat, j: nat)
    requires Reachable(w) && i < j < |w.history| && w.history[i].path == w.history[j].path
    ensures w.history[i].at < w.history[j].at < |w.log|
  {
    var steps :| Run(steps, w);
    RunKeepsInv(steps, w);
    assert IssuedAt(w.log, w.history[j]);
  }
}
