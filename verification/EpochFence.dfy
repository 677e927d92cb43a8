/** Attachments in progress against invalidations in progress
    (hub/internal/transport/ws/handler.go:146-219, hub/internal/terminal/manager.go:49-92,
    hub/internal/app/app.go:317-326; hub/internal/host/connection.go:268-311).

    An attach request reads its host's epoch, resolves the host, redeems its
    ticket, starts its process and registers.  An administrator's change commits, invalidates the
    host's tickets, bumps the epoch while listing who is attached, closes each of
    those, and returns.  All of them interleave at every step.
  */
module EpochFence {
  import opened Option
  import opened HostStore
  import opened TerminalManager

  datatype AttachPhase = EpochRead | Resolved | Redeemed | Dialed | Tracked | Over

  /** `session` is what the process attaches to, and `at` when the ticket was shown;
      `used` is the record the process was started with.  `readAt` and `resolvedAt`
      are the host's change count at those moments; they, `token` and `used` are
      bookkeeping of the model. */
  datatype Attach = Attach(
    host: Id,
    epoch: nat,
    readAt: nat,
    phase: AttachPhase,
    target: Option<Record>,
    resolvedAt: nat,
    token: Option<string>,
    used: Option<Record>,
    session: string,
    at: int)

  datatype AdminPhase = Looked | Committed | TicketsGone | ClosingAll | Returned | Quiet

  /** `seen` is the connection revision the handler read before saving, `change`
      the host's change count right after the commit, `fence` the epoch the bump produced. */
  datatype Admin = Admin(
    host: Id,
    seen: Revision,
    phase: AdminPhase,
    change: nat,
    fence: nat,
    left: set<Attachment>)

  /** `changes` counts, per host, the committed connection changes and removals. */
  datatype Fence = Fence(
    changes: map<Id, nat>,
    mgr: Manager,
    attaches: map<nat, Attach>,
    admins: map<nat, Admin>)

  function Changes(f: Fence, host: Id): nat {
    if host in f.changes then f.changes[host] else 0
  }

  predicate Fenced(f: Fence, a: nat) {
    a in f.admins && (f.admins[a].phase == ClosingAll || f.admins[a].phase == Returned)
  }

  /** The value under which an attach request registers. */
  function AttachmentOf(f: Fence, t: nat): Attachment
    requires t in f.attaches
  {
    Attachment(t, f.attaches[t].host, f.attaches[t].epoch)
  }

  // --- Steps ---

  function SetAdmin(f: Fence, a: nat, x: Admin): Fence {
    f.(admins := f.admins[a := x])
  }

  function SetAttach(f: Fence, t: nat, x: Attach): Fence {
    f.(attaches := f.attaches[t := x])
  }

  /** A commit, counted when it changed or removed the connection; `notify` is
      whether the handler goes on to the invalidation callbacks. */
  function Commit(f: Fence, a: nat, host: Id, seen: Revision, counted: bool, notify: bool): Fence {
    var n := Changes(f, host) + if counted then 1 else 0;
    SetAdmin(f.(changes := f.changes[host := n]), a,
             Admin(host, seen, if notify then Committed else Quiet, n, 0, {}))
  }

  function DropTickets(f: Fence, a: nat): Fence
    requires a in f.admins
  {
    SetAdmin(f, a, f.admins[a].(phase := TicketsGone))
  }

  function Bump(f: Fence, a: nat): Fence
    requires a in f.admins
  {
    var host := f.admins[a].host;
    SetAdmin(f.(mgr := Bumped(f.mgr, host)), a,
             f.admins[a].(phase := ClosingAll, fence := EpochOf(f.mgr, host) + 1, left := OfHost(f.mgr, host)))
  }

  function Drop(f: Fence, att: Attachment): Fence {
    f.(mgr := f.mgr.(attachments := f.mgr.attachments - {att}))
  }

  /** ForceClose of one listed attachment; it has untracked itself when this returns. */
  function CloseOne(f: Fence, a: nat, att: Attachment): Fence
    requires a in f.admins
  {
    SetAdmin(Drop(f, att), a, f.admins[a].(left := f.admins[a].left - {att}))
  }

  function Return(f: Fence, a: nat): Fence
    requires a in f.admins
  {
    SetAdmin(f, a, f.admins[a].(phase := Returned))
  }

  function ReadEpoch(f: Fence, t: nat, host: Id): Fence {
    SetAttach(f, t, Attach(host, EpochOf(f.mgr, host), Changes(f, host), EpochRead, None, 0, None, None, "", 0))
  }

  /** The snapshot a resolver returned; a target under another identifier makes
      the handler read that identifier's epoch instead, after the fact. */
  function Resolve(f: Fence, t: nat, target: Option<Record>): Fence
    requires t in f.attaches
  {
    var x := f.attaches[t];
    if target.None? then SetAttach(f, t, x.(phase := Over))
    else if target.value.id != x.host then
      SetAttach(f, t, x.(host := target.value.id, epoch := EpochOf(f.mgr, target.value.id), phase := Resolved,
                         target := target, resolvedAt := Changes(f, x.host)))
    else SetAttach(f, t, x.(phase := Resolved, target := target, resolvedAt := Changes(f, x.host)))
  }

  function Redeem(f: Fence, t: nat, token: string, session: string, now: int, accepted: bool): Fence
    requires t in f.attaches
  {
    SetAttach(f, t, if accepted then f.attaches[t].(
                      phase := Redeemed, token := Some(token), session := session, at := now)
                    else f.attaches[t].(phase := Over))
  }

  /** What starting the process came to. */
  function Dial(f: Fence, t: nat, used: Option<Record>): Fence
    requires t in f.attaches
  {
    SetAttach(f, t, f.attaches[t].(phase := if used.Some? then Dialed else Over, used := used))
  }

  function Register(f: Fence, t: nat): Fence
    requires t in f.attaches
  {
    var att := AttachmentOf(f, t);
    if Registration(f.mgr, att) == Registered then
      SetAttach(f.(mgr := AfterRegister(f.mgr, att)), t, f.attaches[t].(phase := Tracked))
    else SetAttach(f, t, f.attaches[t].(phase := Over))
  }

  function Abandon(f: Fence, t: nat): Fence
    requires t in f.attaches
  {
    SetAttach(f, t, f.attaches[t].(phase := Over))
  }

  // --- What every step keeps ---

  ghost predicate AttachOk(f: Fence, t: nat)
    requires t in f.attaches
  {
    var x := f.attaches[t];
    && x.epoch <= EpochOf(f.mgr, x.host)
    && x.readAt <= Changes(f, x.host)
    && (x.target.Some? ==> x.target.value.id == x.host && x.readAt <= x.resolvedAt <= Changes(f, x.host))
    && (x.phase == Resolved || x.phase == Redeemed || x.phase == Dialed || x.phase == Tracked ==> x.target.Some?)
  }

  ghost predicate AdminOk(f: Fence, a: nat)
    requires a in f.admins
  {
    var x := f.admins[a];
    && x.change <= Changes(f, x.host)
    && (Fenced(f, a) ==> x.fence <= EpochOf(f.mgr, x.host))
    && (x.phase == Returned ==> x.left == {})
  }

  /** An epoch at or past a fence was read after the fenced change. */
  ghost predicate ReadAfterFence(f: Fence, a: nat, t: nat)
    requires a in f.admins && t in f.attaches
  {
    Fenced(f, a) && f.admins[a].host == f.attaches[t].host && f.attaches[t].epoch >= f.admins[a].fence
    ==> f.attaches[t].readAt >= f.admins[a].change
  }

  /** Whoever is tracked is past the fence or still to be closed by it. */
  ghost predicate CoveredBy(f: Fence, a: nat, att: Attachment)
    requires a in f.admins
  {
    Fenced(f, a) && f.admins[a].host == att.host ==> att.epoch >= f.admins[a].fence || att in f.admins[a].left
  }

  ghost predicate TrackedOk(f: Fence, att: Attachment) {
    att.id in f.attaches && f.attaches[att.id].phase == Tracked && att == AttachmentOf(f, att.id)
  }

  ghost predicate EachOk(f: Fence) {
    && (forall t :: t in f.attaches ==> AttachOk(f, t))
    && (forall a :: a in f.admins ==> AdminOk(f, a))
    && (forall att :: att in f.mgr.attachments ==> TrackedOk(f, att))
  }

  ghost predicate PairsOk(f: Fence) {
    && (forall a, t :: a in f.admins && t in f.attaches ==> ReadAfterFence(f, a, t))
    && (forall a, att :: a in f.admins && att in f.mgr.attachments ==> CoveredBy(f, a, att))
  }

  ghost predicate FenceInv(f: Fence) {
    EachOk(f) && PairsOk(f)
  }

  lemma CommitKeepsEach(f: Fence, a: nat, host: Id, seen: Revision, counted: bool, notify: bool)
    requires EachOk(f)
    ensures EachOk(Commit(f, a, host, seen, counted, notify))
  {
    var f' := Commit(f, a, host, seen, counted, notify);
    assert forall h :: Changes(f', h) >= Changes(f, h);
    forall t | t in f'.attaches ensures AttachOk(f', t) { assert AttachOk(f, t); }
    forall b | b in f'.admins ensures AdminOk(f', b) { assert b == a || AdminOk(f, b); }
    forall att | att in f'.mgr.attachments ensures TrackedOk(f', att) { assert TrackedOk(f, att); }
  }

  lemma CommitKeeps(f: Fence, a: nat, host: Id, seen: Revision, counted: bool, notify: bool)
    requires FenceInv(f)
    ensures FenceInv(Commit(f, a, host, seen, counted, notify))
  {
    CommitKeepsEach(f, a, host, seen, counted, notify);
    var f' := Commit(f, a, host, seen, counted, notify);
    forall b, t | b in f'.admins && t in f'.attaches ensures ReadAfterFence(f', b, t) {
      assert b == a || ReadAfterFence(f, b, t);
    }
    forall b, x | b in f'.admins && x in f'.mgr.attachments ensures CoveredBy(f', b, x) {
      assert b == a || CoveredBy(f, b, x);
    }
  }

  /** A step of administrators alone that changes no epoch and no count, keeps
      every fence already up, raises none, and tracks nobody new. */
  lemma FrameKeeps(f: Fence, f': Fence)
    requires FenceInv(f)
    requires f'.changes == f.changes && f'.attaches == f.attaches && f'.mgr.epochs == f.mgr.epochs
    requires f'.mgr.attachments <= f.mgr.attachments && f'.admins.Keys == f.admins.Keys
    requires forall b :: b in f.admins ==> SameFence(f, f', b)
    ensures FenceInv(f')
  {
    forall u | u in f'.attaches ensures AttachOk(f', u) { assert AttachOk(f, u); }
    forall b | b in f'.admins ensures AdminOk(f', b) { assert AdminOk(f, b) && SameFence(f, f', b); }
    forall x | x in f'.mgr.attachments ensures TrackedOk(f', x) { assert TrackedOk(f, x); }
    forall b, u | b in f'.admins && u in f'.attaches ensures ReadAfterFence(f', b, u) {
      assert ReadAfterFence(f, b, u) && SameFence(f, f', b);
    }
    forall b, x | b in f'.admins && x in f'.mgr.attachments ensures CoveredBy(f', b, x) {
      assert CoveredBy(f, b, x) && SameFence(f, f', b);
    }
  }

  /** Whoever an administrator still had to close is to be closed or not tracked any more. */
  ghost predicate SameFence(f: Fence, f': Fence, b: nat)
    requires b in f.admins && f'.admins.Keys == f.admins.Keys
  {
    var x, x' := f.admins[b], f'.admins[b];
    && x'.host == x.host && x'.change == x.change && (Fenced(f', b) ==> Fenced(f, b) && x'.fence == x.fence)
    && (x'.phase == Returned ==> x'.left == {})
    && forall att :: att in f'.mgr.attachments && att in x.left ==> att in x'.left
  }

  lemma DropTicketsKeeps(f: Fence, a: nat)
    requires FenceInv(f) && a in f.admins && f.admins[a].phase == Committed
    ensures FenceInv(DropTickets(f, a))
  {
    forall b | b in f.admins ensures SameFence(f, DropTickets(f, a), b) { assert AdminOk(f, b); }
    FrameKeeps(f, DropTickets(f, a));
  }

  /** Every epoch read so far is below the new fence, and everyone tracked is listed. */
  lemma BumpKeeps(f: Fence, a: nat)
    requires FenceInv(f) && a in f.admins && f.admins[a].phase == TicketsGone
    ensures FenceInv(Bump(f, a))
  {
    var f' := Bump(f, a);
    assert forall h :: EpochOf(f'.mgr, h) >= EpochOf(f.mgr, h);
    forall t | t in f.attaches ensures f.attaches[t].epoch <= EpochOf(f.mgr, f.attaches[t].host) {
      assert AttachOk(f, t);
    }
    forall u | u in f'.attaches ensures AttachOk(f', u) { assert AttachOk(f, u); }
    forall b | b in f'.admins ensures AdminOk(f', b) { assert AdminOk(f, b); }
    forall x | x in f'.mgr.attachments ensures TrackedOk(f', x) { assert TrackedOk(f, x); }
    forall b, u | b in f'.admins && u in f'.attaches ensures ReadAfterFence(f', b, u) {
      assert AdminOk(f, b) && (ReadAfterFence(f, b, u));
    }
    forall b, x | b in f'.admins && x in f'.mgr.attachments ensures CoveredBy(f', b, x) {
      assert AdminOk(f, b) && CoveredBy(f, b, x);
    }
  }

  lemma CloseOneKeeps(f: Fence, a: nat, att: Attachment)
    requires FenceInv(f) && a in f.admins && f.admins[a].phase == ClosingAll
    ensures FenceInv(CloseOne(f, a, att))
  {
    forall b | b in f.admins ensures SameFence(f, CloseOne(f, a, att), b) { assert AdminOk(f, b); }
    FrameKeeps(f, CloseOne(f, a, att));
  }

  lemma ReturnKeeps(f: Fence, a: nat)
    requires FenceInv(f) && a in f.admins && f.admins[a].phase == ClosingAll && f.admins[a].left == {}
    ensures FenceInv(Return(f, a))
  {
    forall b | b in f.admins ensures SameFence(f, Return(f, a), b) { assert AdminOk(f, b); }
    FrameKeeps(f, Return(f, a));
  }

  lemma DropKeeps(f: Fence, att: Attachment)
    requires FenceInv(f)
    ensures FenceInv(Drop(f, att))
  {
    forall b | b in f.admins ensures SameFence(f, Drop(f, att), b) { assert AdminOk(f, b); }
    FrameKeeps(f, Drop(f, att));
  }

  /** An administrator that is not fencing anything constrains nobody. */
  lemma SetIdleKeeps(f: Fence, a: nat, x: Admin)
    requires FenceInv(f) && (x.phase == Looked || x.phase == Quiet) && x.change <= Changes(f, x.host)
    ensures FenceInv(SetAdmin(f, a, x))
  {
    var f' := SetAdmin(f, a, x);
    forall b | b in f'.admins ensures AdminOk(f', b) { assert b == a || AdminOk(f, b); }
    forall b, t | b in f'.admins && t in f'.attaches ensures ReadAfterFence(f', b, t) {
      assert b == a || ReadAfterFence(f, b, t);
    }
    forall b, att | b in f'.admins && att in f'.mgr.attachments ensures CoveredBy(f', b, att) {
      assert b == a || CoveredBy(f, b, att);
    }
  }

  lemma ShutdownKeeps(f: Fence)
    requires FenceInv(f)
    ensures FenceInv(f.(mgr := f.mgr.(closing := true)))
  {
    var f' := f.(mgr := f.mgr.(closing := true));
    forall b | b in f.admins ensures SameFence(f, f', b) { assert AdminOk(f, b); }
    FrameKeeps(f, f');
  }

  /** An epoch read now is read after every change committed so far. */
  lemma ReadEpochKeeps(f: Fence, t: nat, host: Id)
    requires FenceInv(f) && t !in f.attaches
    ensures FenceInv(ReadEpoch(f, t, host))
  {
    var f' := ReadEpoch(f, t, host);
    forall u | u in f'.attaches ensures AttachOk(f', u) { assert u == t || AttachOk(f, u); }
    forall b | b in f'.admins ensures AdminOk(f', b) { assert AdminOk(f, b); }
    forall x | x in f'.mgr.attachments ensures TrackedOk(f', x) { assert TrackedOk(f, x); }
    forall b, u | b in f'.admins && u in f'.attaches ensures ReadAfterFence(f', b, u) {
      assert AdminOk(f, b) && (u == t || ReadAfterFence(f, b, u));
    }
    forall b, x | b in f'.admins && x in f'.mgr.attachments ensures CoveredBy(f', b, x) {
      assert AdminOk(f, b) && CoveredBy(f, b, x);
    }
  }

  /** Moving one attach request on, without touching its host, epoch or read
      time, keeps everything while it is not tracked. */
  lemma AdvanceKeeps(f: Fence, t: nat, x: Attach)
    requires FenceInv(f) && t in f.attaches && f.attaches[t].phase != Tracked && x.phase != Tracked
    requires x.host == f.attaches[t].host && x.epoch == f.attaches[t].epoch && x.readAt == f.attaches[t].readAt
    requires x.target.Some? ==> x.target.value.id == x.host && x.readAt <= x.resolvedAt <= Changes(f, x.host)
    requires x.phase == Resolved || x.phase == Redeemed || x.phase == Dialed ==> x.target.Some?
    ensures FenceInv(SetAttach(f, t, x))
  {
    var f' := SetAttach(f, t, x);
    assert AttachOk(f, t);
    forall u | u in f'.attaches ensures AttachOk(f', u) { assert u == t || AttachOk(f, u); }
    forall b | b in f'.admins ensures AdminOk(f', b) { assert AdminOk(f, b); }
    forall att | att in f'.mgr.attachments ensures TrackedOk(f', att) { assert TrackedOk(f, att); }
    forall b, u | b in f'.admins && u in f'.attaches ensures ReadAfterFence(f', b, u) {
      assert ReadAfterFence(f, b, u);
    }
    forall b, att | b in f'.admins && att in f'.mgr.attachments ensures CoveredBy(f', b, att) {
      assert CoveredBy(f, b, att);
    }
  }

  /** A registration carries the current epoch, which is past every fence. */
  lemma RegisterKeeps(f: Fence, t: nat)
    requires FenceInv(f) && t in f.attaches && f.attaches[t].phase == Dialed && f.attaches[t].host != ""
    ensures FenceInv(Register(f, t))
  {
    var f' := Register(f, t);
    RegisterKeepsEach(f, t);
    forall b, u | b in f'.admins && u in f'.attaches ensures ReadAfterFence(f', b, u) {
      assert ReadAfterFence(f, b, u);
    }
    forall b, x | b in f'.admins && x in f'.mgr.attachments ensures CoveredBy(f', b, x) {
      assert AdminOk(f, b);
      assert x !in f.mgr.attachments || CoveredBy(f, b, x);
    }
  }

  lemma RegisterKeepsTracked(f: Fence, t: nat, x: Attachment)
    requires t in f.attaches && f.attaches[t].phase == Dialed && x in Register(f, t).mgr.attachments
    requires x in f.mgr.attachments ==> TrackedOk(f, x)
    ensures TrackedOk(Register(f, t), x)
  {
  }

  lemma RegisterKeepsEach(f: Fence, t: nat)
    requires EachOk(f) && t in f.attaches && f.attaches[t].phase == Dialed
    ensures EachOk(Register(f, t))
  {
    var f' := Register(f, t);
    assert f'.mgr.epochs == f.mgr.epochs && f'.changes == f.changes;
    forall u | u in f'.attaches ensures AttachOk(f', u) { assert AttachOk(f, u); }
    forall b | b in f'.admins ensures AdminOk(f', b) { assert AdminOk(f, b); }
    forall x | x in f'.mgr.attachments ensures TrackedOk(f', x) { RegisterKeepsTracked(f, t, x); }
  }

  /** Once a CloseHost has returned, whoever is still tracked for the host was
      resolved after the commit it followed. */
  lemma FenceHolds(f: Fence, a: nat, att: Attachment)
    requires FenceInv(f) && a in f.admins && f.admins[a].phase == Returned
    requires att in f.mgr.attachments && att.host == f.admins[a].host
    ensures att.id in f.attaches && f.attaches[att.id].target.Some?
    ensures f.attaches[att.id].resolvedAt >= f.admins[a].change
  {
    assert CoveredBy(f, a, att) && TrackedOk(f, att) && AdminOk(f, a);
    assert ReadAfterFence(f, a, att.id) && AttachOk(f, att.id);
  }
}
