/** Host edits, tickets and attachments together
    (hub/internal/transport/http/router.go:283-321, 385-543, 715-741;
    hub/internal/transport/ws/handler.go:146-232; hub/internal/app/app.go:317-330;
    hub/internal/host/connection.go:223-311).

    Any number of administrators, ticket requests and attach requests run at
    once; every access to the store, the ticket table or the attachment manager
    is one step.  The default-host setting, which none of them reads, is part of
    the histories in Registry.
  */
module HostLifecycle {
  import opened Option
  import opened HostStore
  import opened Registry
  import opened Tickets
  import opened Connections
  import TM = TerminalManager
  import EF = EpochFence

  /** What a ticket was issued for, and until when it is good. */
  datatype Origin = Origin(record: Record, session: string, expires: int)

  /** `issued` remembers every token ever drawn and what its ticket was issued for;
      `issuers` are ticket requests between resolving and issuing. */
  datatype World = World(
    h: History,
    f: EF.Fence,
    tickets: Table,
    issued: map<string, Origin>,
    issuers: map<nat, Record>)

  datatype Step =
    | Create(input: HostInput, sealed: seq<nat>)
    | AdminLook(a: nat, host: Id)
    | AdminSave(a: nat, input: HostInput, sealed: seq<nat>, expected: Revision)
    | AdminRemove(a: nat, host: Id, expected: Revision)
    | AdminTickets(a: nat)
    | AdminBump(a: nat)
    | AdminClose(a: nat, att: TM.Attachment)
    | AdminReturn(a: nat)
    | IssueLook(i: nat, host: Id)
    | IssueTicket(i: nat, token: string, session: string, expires: int)
    | SweepTickets(now: int)
    | AttachRead(t: nat, host: Id)
    | AttachResolve(t: nat)
    | AttachRedeem(t: nat, token: string, session: string, now: int)
    | AttachDial(t: nat)
    | AttachRegister(t: nat)
    | AttachFail(t: nat)
    | Untrack(att: TM.Attachment)
    | BeginShutdown

  predicate AdminAt(w: World, a: nat, phase: EF.AdminPhase) {
    a in w.f.admins && w.f.admins[a].phase == phase
  }

  predicate AttachAt(w: World, t: nat, phase: EF.AttachPhase) {
    t in w.f.attaches && w.f.attaches[t].phase == phase
  }

  predicate Enabled(w: World, step: Step) {
    match step
    case AdminLook(a, host) => a !in w.f.admins && host in w.h.db.hosts
    case AdminSave(a, input, _, expected) => AdminAt(w, a, EF.Looked) && input.id == w.f.admins[a].host && expected > 0
    case AdminRemove(a, host, expected) => a !in w.f.admins && RemoveResult(w.h.db, host, expected) == Done
    case AdminTickets(a) => AdminAt(w, a, EF.Committed)
    case AdminBump(a) => AdminAt(w, a, EF.TicketsGone)
    case AdminClose(a, att) => AdminAt(w, a, EF.ClosingAll) && att in w.f.admins[a].left
    case AdminReturn(a) => AdminAt(w, a, EF.ClosingAll) && w.f.admins[a].left == {}
    case IssueLook(_, host) => host in w.h.db.hosts
    case IssueTicket(i, token, _, _) => i in w.issuers && token != "" && token !in w.issued
    case AttachRead(t, host) => t !in w.f.attaches && host != ""
    case AttachResolve(t) => AttachAt(w, t, EF.EpochRead)
    case AttachRedeem(t, _, _, _) => AttachAt(w, t, EF.Resolved)
    case AttachDial(t) => AttachAt(w, t, EF.Redeemed)
    case AttachRegister(t) => AttachAt(w, t, EF.Dialed)
    case AttachFail(t) => t in w.f.attaches && w.f.attaches[t].phase != EF.Tracked
    case _ => true
  }

  /** An update whose handler saw another connection revision than the one it
      stored runs the callbacks. */
  function AfterAdminSave(w: World, a: nat, input: HostInput, sealed: seq<nat>, expected: Revision): World
    requires a in w.f.admins
  {
    var x := w.f.admins[a];
    var saved := SaveResult(w.h.db, input, sealed, expected);
    if saved.Err? || input.id !in w.h.db.hosts then
      w.(f := EF.SetAdmin(w.f, a, x.(phase := EF.Quiet)))
    else
      w.(h := Commit(w.h, Save(input, sealed, expected)),
         f := EF.Commit(w.f, a, x.host, x.seen, saved.value.connRev != w.h.db.hosts[input.id].connRev,
                        saved.value.connRev != x.seen))
  }

  function Lookup(w: World, host: Id): Option<Record> {
    if host in w.h.db.hosts then Some(w.h.db.hosts[host]) else None
  }

  function AfterRedeem(w: World, t: nat, token: string, session: string, now: int): World
    requires AttachAt(w, t, EF.Resolved)
  {
    var target := w.f.attaches[t].target;
    var accepted := target.Some?
                    && Redemption(w.tickets, token, target.value.id, target.value.connRev, session, now) == Accepted;
    w.(tickets := Redeemed(w.tickets, token), f := EF.Redeem(w.f, t, token, session, now, accepted))
  }

  function AfterDial(w: World, t: nat): World
    requires t in w.f.attaches
  {
    var target := w.f.attaches[t].target;
    w.(f := EF.Dial(w.f, t, if target.Some? then Dialed(w.h.db, target.value) else None))
  }

  function AfterIssue(w: World, i: nat, token: string, session: string, expires: int): World
    requires i in w.issuers
  {
    var r := w.issuers[i];
    w.(tickets := Issued(w.tickets, token, r.id, r.connRev, session, expires),
       issued := w.issued[token := Origin(r, session, expires)])
  }

  function Apply(w: World, step: Step): World
    requires Enabled(w, step)
  {
    match step
    case Create(input, sealed) => w.(h := Commit(w.h, Save(input, sealed, 0)))
    case AdminLook(a, host) =>
      w.(f := EF.SetAdmin(w.f, a, EF.Admin(host, w.h.db.hosts[host].connRev, EF.Looked, 0, 0, {})))
    case AdminSave(a, input, sealed, expected) => AfterAdminSave(w, a, input, sealed, expected)
    case AdminRemove(a, host, expected) =>
      w.(h := Commit(w.h, Remove(host, expected)), f := EF.Commit(w.f, a, host, 0, true, true))
    case AdminTickets(a) =>
      w.(tickets := WithoutHost(w.tickets, w.f.admins[a].host), f := EF.DropTickets(w.f, a))
    case AdminBump(a) => w.(f := EF.Bump(w.f, a))
    case AdminClose(a, att) => w.(f := EF.CloseOne(w.f, a, att))
    case AdminReturn(a) => w.(f := EF.Return(w.f, a))
    case IssueLook(i, host) => w.(issuers := w.issuers[i := w.h.db.hosts[host]])
    case IssueTicket(i, token, session, expires) => AfterIssue(w, i, token, session, expires)
    case SweepTickets(now) => w.(tickets := Swept(w.tickets, now))
    case AttachRead(t, host) => w.(f := EF.ReadEpoch(w.f, t, host))
    case AttachResolve(t) => w.(f := EF.Resolve(w.f, t, Lookup(w, w.f.attaches[t].host)))
    case AttachRedeem(t, token, session, now) => AfterRedeem(w, t, token, session, now)
    case AttachDial(t) => AfterDial(w, t)
    case AttachRegister(t) => w.(f := EF.Register(w.f, t))
    case AttachFail(t) => w.(f := EF.Abandon(w.f, t))
    case Untrack(att) => w.(f := EF.Drop(w.f, att))
    case BeginShutdown => w.(f := w.f.(mgr := w.f.mgr.(closing := true)))
  }

  /** A hub that starts on a version-2 database. */
  ghost predicate Init(w: World) {
    && SchemaTwo(w.h.db) && w.h.log == w.h.db.hosts.Values
    && w.f == EF.Fence(map[], TM.Manager({}, map[], false), map[], map[])
    && w.tickets == map[] && w.issued == map[] && w.issuers == map[]
  }

  ghost predicate Run(steps: seq<Step>, w: World) {
    if steps == [] then Init(w)
    else
      var last := |steps| - 1;
      exists before :: Run(steps[..last], before) && Enabled(before, steps[last]) && w == Apply(before, steps[last])
  }

  ghost predicate Reachable(w: World) {
    exists steps :: Run(steps, w)
  }

  // --- What every step keeps ---

  /** A resolved record was once committed; while no change has been committed
      since, it carries the connection revision of the record now stored.  What the
      process was started with has its host and connection revision. */
  ghost predicate TargetKnown(h: History, f: EF.Fence, t: nat)
    requires t in f.attaches
  {
    var x := f.attaches[t];
    && x.host != ""
    && (x.target.Some? ==>
          && x.target.value in h.log
          && (x.resolvedAt == EF.Changes(f, x.host) ==>
                x.host in h.db.hosts && h.db.hosts[x.host].connRev == x.target.value.connRev))
    && (x.phase == EF.Dialed || x.phase == EF.Tracked ==> x.used.Some?)
    && (x.phase == EF.EpochRead || x.phase == EF.Resolved || x.phase == EF.Redeemed ==> x.used.None?)
    && (x.used.Some? ==> x.target.Some? && UsedOk(h, x.target.value, x.used.value))
  }

  ghost predicate UsedOk(h: History, target: Record, used: Record) {
    used in h.log && used.id == target.id && used.connRev == target.connRev
  }

  ghost predicate TargetsKnown(h: History, f: EF.Fence) {
    forall t :: t in f.attaches ==> TargetKnown(h, f, t)
  }

  predicate Notifies(phase: EF.AdminPhase) {
    phase != EF.Looked && phase != EF.Quiet
  }

  predicate CausedLast(f: EF.Fence, host: Id, a: nat) {
    && a in f.admins && f.admins[a].host == host && Notifies(f.admins[a].phase)
    && f.admins[a].change == EF.Changes(f, host)
  }

  /** What a handler saw before saving is no newer than the watermark, and the
      last change of a host has an administrator who notifies of it. */
  ghost predicate AdminsKnow(h: History, f: EF.Fence) {
    && (forall a :: a in f.admins && f.admins[a].phase == EF.Looked ==>
                        f.admins[a].host in h.db.marks && f.admins[a].seen <= h.db.marks[f.admins[a].host].connRev)
    && (forall host :: EF.Changes(f, host) > 0 ==> exists a :: CausedLast(f, host, a))
  }

  ghost predicate TokenOk(tickets: Table, issued: map<string, Origin>, f: EF.Fence, t: nat)
    requires t in f.attaches
  {
    var x := f.attaches[t];
    && (x.token.Some? ==>
          && x.token.value in issued && x.token.value !in tickets && x.target.Some?
          && issued[x.token.value].record.id == x.target.value.id
          && issued[x.token.value].record.connRev == x.target.value.connRev
          && issued[x.token.value].session == x.session && x.at <= issued[x.token.value].expires)
    && (x.phase == EF.Redeemed || x.phase == EF.Dialed || x.phase == EF.Tracked ==> x.token.Some?)
    && (x.phase == EF.EpochRead || x.phase == EF.Resolved ==> x.token.None?)
  }

  ghost predicate TicketOk(tickets: Table, issued: map<string, Origin>, k: string)
    requires k in tickets
  {
    && k in issued
    && tickets[k].host == issued[k].record.id
    && tickets[k].connRev == issued[k].record.connRev
    && tickets[k].session == issued[k].session && tickets[k].expires == issued[k].expires
  }

  predicate SameToken(f: EF.Fence, t: nat, u: nat)
    requires t in f.attaches && u in f.attaches
  {
    f.attaches[t].token.Some? && f.attaches[t].token == f.attaches[u].token
  }

  ghost predicate TicketsOk(tickets: Table, issued: map<string, Origin>) {
    forall k :: k in tickets ==> TicketOk(tickets, issued, k)
  }

  /** Whatever a ticket was or will be issued for was committed. */
  ghost predicate OriginsLogged(h: History, issued: map<string, Origin>, issuers: map<nat, Record>) {
    && (forall k :: k in issued ==> issued[k].record in h.log)
    && (forall i :: i in issuers ==> issuers[i] in h.log)
  }

  ghost predicate LogSound(log: set<Record>) {
    forall r :: r in log ==> r.id != "" && r.connRev > 0
  }

  ghost predicate EachTokenOk(tickets: Table, issued: map<string, Origin>, f: EF.Fence) {
    forall t :: t in f.attaches ==> TokenOk(tickets, issued, f, t)
  }

  ghost predicate TokensDistinct(f: EF.Fence) {
    forall t, u :: t in f.attaches && u in f.attaches && SameToken(f, t, u) ==> t == u
  }

  ghost predicate TokensOk(w: World) {
    && TicketsOk(w.tickets, w.issued)
    && OriginsLogged(w.h, w.issued, w.issuers)
    && LogSound(w.h.log)
    && EachTokenOk(w.tickets, w.issued, w.f)
    && TokensDistinct(w.f)
  }

  ghost predicate Inv(w: World) {
    && Registry.Inv(w.h)
    && EF.FenceInv(w.f)
    && TargetsKnown(w.h, w.f)
    && AdminsKnow(w.h, w.f)
    && TokensOk(w)
  }

  // Store commits.

  /** A commit keeps what is known of resolved targets if, for the host it
      touches, it is counted or leaves the connection revision alone. */
  lemma CommitKeepsTargets(h: History, h': History, f: EF.Fence, f': EF.Fence, host: Id)
    requires EF.FenceInv(f) && TargetsKnown(h, f)
    requires h.log <= h'.log && f'.attaches == f.attaches
    requires forall i :: i != host ==> EF.Changes(f', i) == EF.Changes(f, i)
    requires forall i :: i != host && i in h.db.hosts ==> i in h'.db.hosts && h'.db.hosts[i] == h.db.hosts[i]
    requires || EF.Changes(f', host) > EF.Changes(f, host)
             || (&& EF.Changes(f', host) == EF.Changes(f, host)
                 && (host in h.db.hosts ==>
                       host in h'.db.hosts && h'.db.hosts[host].connRev == h.db.hosts[host].connRev))
    ensures TargetsKnown(h', f')
  {
    forall t | t in f'.attaches ensures TargetKnown(h', f', t) {
      assert TargetKnown(h, f, t) && EF.AttachOk(f, t);
    }
  }

  lemma SameTokens(tickets: Table, tickets': Table, issued: map<string, Origin>, f: EF.Fence, f': EF.Fence)
    requires EachTokenOk(tickets, issued, f) && TokensDistinct(f)
    requires f'.attaches == f.attaches && tickets'.Keys <= tickets.Keys
    ensures EachTokenOk(tickets', issued, f') && TokensDistinct(f')
  {
    forall t | t in f'.attaches ensures TokenOk(tickets', issued, f', t) { assert TokenOk(tickets, issued, f, t); }
    forall t, u | t in f'.attaches && u in f'.attaches && SameToken(f', t, u) ensures t == u {
      assert SameToken(f, t, u);
    }
  }

  lemma CommitKeepsTokens(w: World, w': World)
    requires TokensOk(w)
    requires w.h.log <= w'.h.log && forall r :: r in w'.h.log ==> r in w.h.log || (r.id != "" && r.connRev > 0)
    requires w'.tickets == w.tickets && w'.issued == w.issued && w'.issuers == w.issuers
    requires w'.f.attaches == w.f.attaches
    ensures TokensOk(w')
  {
    SameTokens(w.tickets, w'.tickets, w.issued, w.f, w'.f);
    assert LogSound(w'.h.log);
  }

  lemma AdminsSame(h: History, h': History, f: EF.Fence, f': EF.Fence)
    requires AdminsKnow(h, f) && f'.admins == f.admins && f'.changes == f.changes
    requires forall i :: i in h.db.marks ==> i in h'.db.marks && h'.db.marks[i].connRev >= h.db.marks[i].connRev
    ensures AdminsKnow(h', f')
  {
    forall host | EF.Changes(f', host) > 0 ensures exists b :: CausedLast(f', host, b) {
      assert EF.Changes(f', host) == EF.Changes(f, host);
      var b :| CausedLast(f, host, b);
      assert CausedLast(f', host, b);
    }
  }

  /** Committing under administrator a, who had not notified of anything yet. */
  lemma CommitKeepsAdmins(
      h: History, h': History, f: EF.Fence, a: nat, host: Id, seen: Revision, counted: bool, notify: bool)
    requires AdminsKnow(h, f) && (a in f.admins ==> !Notifies(f.admins[a].phase))
    requires counted ==> notify
    requires forall i :: i in h.db.marks ==> i in h'.db.marks && h'.db.marks[i].connRev >= h.db.marks[i].connRev
    ensures AdminsKnow(h', EF.Commit(f, a, host, seen, counted, notify))
  {
    var f' := EF.Commit(f, a, host, seen, counted, notify);
    forall i | EF.Changes(f', i) > 0
      ensures exists b :: CausedLast(f', i, b)
    {
      if i == host && counted {
        assert CausedLast(f', i, a);
      } else {
        assert EF.Changes(f', i) == EF.Changes(f, i);
        var b :| CausedLast(f, i, b);
        assert CausedLast(f', i, b);
      }
    }
  }

  /** A connection change is always noticed by the handler that made it, even
      when what it had read before is out of date. */
  lemma ChangeIsNoticed(w: World, a: nat, input: HostInput, sealed: seq<nat>, expected: Revision)
    requires Inv(w) && Enabled(w, AdminSave(a, input, sealed, expected))
    requires SaveResult(w.h.db, input, sealed, expected).Ok? && input.id in w.h.db.hosts
    requires SaveResult(w.h.db, input, sealed, expected).value.connRev != w.h.db.hosts[input.id].connRev
    ensures SaveResult(w.h.db, input, sealed, expected).value.connRev != w.f.admins[a].seen
  {
    SavedIsNext(w.h.db, input, sealed, expected);
  }

  lemma SavedShape(h: History, input: HostInput, sealed: seq<nat>, expected: Revision)
    requires Registry.Inv(h) && SaveResult(h.db, input, sealed, expected).Ok?
    ensures var r, h' := SaveResult(h.db, input, sealed, expected).value, Commit(h, Save(input, sealed, expected));
            && r.id == input.id && r.id != "" && r.connRev > 0
            && h'.log == h.log + {r}
            && h'.db.hosts == h.db.hosts[r.id := r]
            && (forall i :: i in h.db.marks ==> i in h'.db.marks && h'.db.marks[i].connRev >= h.db.marks[i].connRev)
            && (expected == 0 <==> r.id !in h.db.hosts)
  {
    SavedIsNext(h.db, input, sealed, expected);
  }

  /** What an update changes: the record r of the host, under administrator a. */
  ghost predicate Stored(w: World, w': World, a: nat, r: Record, counted: bool, notify: bool) {
    && AdminAt(w, a, EF.Looked) && r.id in w.h.db.hosts && r.id != "" && r.connRev > 0
    && (counted <==> r.connRev != w.h.db.hosts[r.id].connRev) && (counted ==> notify)
    && w'.h.log == w.h.log + {r} && w'.h.db.hosts == w.h.db.hosts[r.id := r]
    && (forall i :: i in w.h.db.marks ==> i in w'.h.db.marks && w'.h.db.marks[i].connRev >= w.h.db.marks[i].connRev)
    && w'.f == EF.Commit(w.f, a, r.id, w.f.admins[a].seen, counted, notify)
    && w'.tickets == w.tickets && w'.issued == w.issued && w'.issuers == w.issuers
  }

  lemma StoredKeepsTargets(w: World, w': World, a: nat, r: Record, counted: bool, notify: bool)
    requires EF.FenceInv(w.f) && TargetsKnown(w.h, w.f) && Stored(w, w', a, r, counted, notify)
    ensures TargetsKnown(w'.h, w'.f)
  {
    CommitKeepsTargets(w.h, w'.h, w.f, w'.f, r.id);
  }

  /** A save that was accepted, in terms of the record it stored. */
  lemma StoredKeeps(w: World, w': World, a: nat, r: Record, counted: bool, notify: bool)
    requires EF.FenceInv(w.f) && TargetsKnown(w.h, w.f) && AdminsKnow(w.h, w.f) && TokensOk(w)
    requires Stored(w, w', a, r, counted, notify)
    ensures EF.FenceInv(w'.f) && TargetsKnown(w'.h, w'.f) && AdminsKnow(w'.h, w'.f) && TokensOk(w')
  {
    assert EF.FenceInv(w'.f) by { EF.CommitKeeps(w.f, a, r.id, w.f.admins[a].seen, counted, notify); }
    StoredKeepsTargets(w, w', a, r, counted, notify);
    CommitKeepsAdmins(w.h, w'.h, w.f, a, r.id, w.f.admins[a].seen, counted, notify);
    CommitKeepsTokens(w, w');
  }

  lemma AdminSaveKeeps(w: World, a: nat, input: HostInput, sealed: seq<nat>, expected: Revision)
    requires Inv(w) && Enabled(w, AdminSave(a, input, sealed, expected))
    ensures Inv(AfterAdminSave(w, a, input, sealed, expected))
  {
    var saved := SaveResult(w.h.db, input, sealed, expected);
    if saved.Err? {
      QuietKeeps(w, a);
    } else {
      SavedShape(w.h, input, sealed, expected);
      CommitKeepsInv(w.h, Save(input, sealed, expected));
      var counted := saved.value.connRev != w.h.db.hosts[input.id].connRev;
      if counted {
        ChangeIsNoticed(w, a, input, sealed, expected);
      }
      StoredKeeps(w, AfterAdminSave(w, a, input, sealed, expected), a, saved.value, counted,
                  saved.value.connRev != w.f.admins[a].seen);
    }
  }

  lemma AdminRemoveKeeps(w: World, a: nat, host: Id, expected: Revision)
    requires Inv(w) && Enabled(w, AdminRemove(a, host, expected))
    ensures Inv(Apply(w, AdminRemove(a, host, expected)))
  {
    var w' := Apply(w, AdminRemove(a, host, expected));
    assert Registry.Inv(w'.h) by { CommitKeepsInv(w.h, Remove(host, expected)); }
    assert w'.h.log == w.h.log && w'.h.db.hosts == w.h.db.hosts - {host} && w'.h.db.marks == w.h.db.marks by {
      RemoveFrame(w.h.db, host, expected);
    }
    RemovedKeeps(w, w', a, host);
  }

  /** A removal, in terms of what is left. */
  lemma RemovedKeeps(w: World, w': World, a: nat, host: Id)
    requires Inv(w) && a !in w.f.admins
    requires w'.h.log == w.h.log && w'.h.db.hosts == w.h.db.hosts - {host} && w'.h.db.marks == w.h.db.marks
    requires w'.f == EF.Commit(w.f, a, host, 0, true, true)
    requires w'.tickets == w.tickets && w'.issued == w.issued && w'.issuers == w.issuers
    ensures EF.FenceInv(w'.f) && TargetsKnown(w'.h, w'.f) && AdminsKnow(w'.h, w'.f) && TokensOk(w')
  {
    assert EF.FenceInv(w'.f) by { EF.CommitKeeps(w.f, a, host, 0, true, true); }
    assert TargetsKnown(w'.h, w'.f) by { CommitKeepsTargets(w.h, w'.h, w.f, w'.f, host); }
    assert AdminsKnow(w'.h, w'.f) by { CommitKeepsAdmins(w.h, w'.h, w.f, a, host, 0, true, true); }
    assert TokensOk(w') by { CommitKeepsTokens(w, w'); }
  }

  /** Creating a host needs no callbacks: nobody can hold a target of it that is
      not older than its removal. */
  lemma CreateKeeps(w: World, input: HostInput, sealed: seq<nat>)
    requires Inv(w)
    ensures Inv(Apply(w, Create(input, sealed)))
  {
    var w' := Apply(w, Create(input, sealed));
    CommitKeepsInv(w.h, Save(input, sealed, 0));
    if SaveResult(w.h.db, input, sealed, 0).Ok? {
      SavedShape(w.h, input, sealed, 0);
      CreatedKeeps(w, w', SaveResult(w.h.db, input, sealed, 0).value);
    } else {
      assert w' == w;
    }
  }

  /** A creation, in terms of the record it stored. */
  lemma CreatedKeeps(w: World, w': World, r: Record)
    requires Inv(w) && r.id !in w.h.db.hosts && r.id != "" && r.connRev > 0
    requires w'.h.log == w.h.log + {r} && w'.h.db.hosts == w.h.db.hosts[r.id := r]
    requires forall i :: i in w.h.db.marks ==> i in w'.h.db.marks && w'.h.db.marks[i].connRev >= w.h.db.marks[i].connRev
    requires w' == w.(h := w'.h)
    ensures EF.FenceInv(w'.f) && TargetsKnown(w'.h, w'.f) && AdminsKnow(w'.h, w'.f) && TokensOk(w')
  {
    assert TargetsKnown(w'.h, w'.f) by { CommitKeepsTargets(w.h, w'.h, w.f, w'.f, r.id); }
    assert AdminsKnow(w'.h, w'.f) by { AdminsSame(w.h, w'.h, w.f, w'.f); }
    assert TokensOk(w') by { CommitKeepsTokens(w, w'); }
  }

  // Steps of an administrator after the commit.

  /** A step that changes one administrator, keeps the change count it caused
      and does not stop it from notifying. */
  lemma AdminsFrame(h: History, f: EF.Fence, f': EF.Fence, a: nat)
    requires AdminsKnow(h, f) && f'.changes == f.changes
    requires a in f'.admins && forall b :: b != a ==> (b in f.admins <==> b in f'.admins)
    requires forall b :: b != a && b in f.admins ==> f'.admins[b] == f.admins[b]
    requires a in f.admins && Notifies(f.admins[a].phase) ==>
               && Notifies(f'.admins[a].phase) && f'.admins[a].host == f.admins[a].host
               && f'.admins[a].change == f.admins[a].change
    requires f'.admins[a].phase == EF.Looked ==>
               f'.admins[a].host in h.db.marks && f'.admins[a].seen <= h.db.marks[f'.admins[a].host].connRev
    ensures AdminsKnow(h, f')
  {
    forall host | EF.Changes(f', host) > 0 ensures exists b :: CausedLast(f', host, b) {
      assert EF.Changes(f', host) == EF.Changes(f, host);
      var b :| CausedLast(f, host, b);
      assert CausedLast(f', host, b);
    }
  }

  lemma TargetsFrame(h: History, f: EF.Fence, f': EF.Fence)
    requires TargetsKnown(h, f) && f'.changes == f.changes && f'.attaches == f.attaches
    ensures TargetsKnown(h, f')
  {
    forall t | t in f'.attaches ensures TargetKnown(h, f', t) { assert TargetKnown(h, f, t); }
  }

  lemma QuietKeeps(w: World, a: nat)
    requires Inv(w) && AdminAt(w, a, EF.Looked)
    ensures Inv(w.(f := EF.SetAdmin(w.f, a, w.f.admins[a].(phase := EF.Quiet))))
  {
    var x := w.f.admins[a].(phase := EF.Quiet);
    var w' := w.(f := EF.SetAdmin(w.f, a, x));
    assert EF.AdminOk(w.f, a);
    EF.SetIdleKeeps(w.f, a, x);
    AdminsFrame(w.h, w.f, w'.f, a);
    TargetsFrame(w.h, w.f, w'.f);
    CommitKeepsTokens(w, w');
  }

  lemma AdminLookKeeps(w: World, a: nat, host: Id)
    requires Inv(w) && Enabled(w, AdminLook(a, host))
    ensures Inv(Apply(w, AdminLook(a, host)))
  {
    var w' := Apply(w, AdminLook(a, host));
    EF.SetIdleKeeps(w.f, a, EF.Admin(host, w.h.db.hosts[host].connRev, EF.Looked, 0, 0, {}));
    AdminsFrame(w.h, w.f, w'.f, a);
    TargetsFrame(w.h, w.f, w'.f);
    CommitKeepsTokens(w, w');
  }

  lemma AdminTicketsKeeps(w: World, a: nat)
    requires Inv(w) && Enabled(w, AdminTickets(a))
    ensures Inv(Apply(w, AdminTickets(a)))
  {
    var w' := Apply(w, AdminTickets(a));
    EF.DropTicketsKeeps(w.f, a);
    AdminsFrame(w.h, w.f, w'.f, a);
    TargetsFrame(w.h, w.f, w'.f);
    FewerTicketsKeep(w, w');
  }

  lemma AdminBumpKeeps(w: World, a: nat)
    requires Inv(w) && Enabled(w, AdminBump(a))
    ensures Inv(Apply(w, AdminBump(a)))
  {
    var w' := w.(f := EF.Bump(w.f, a));
    assert EF.FenceInv(w'.f) by { EF.BumpKeeps(w.f, a); }
    assert AdminsKnow(w'.h, w'.f) by { AdminsFrame(w.h, w.f, w'.f, a); }
    assert TargetsKnown(w'.h, w'.f) by { TargetsFrame(w.h, w.f, w'.f); }
    assert TokensOk(w') by { CommitKeepsTokens(w, w'); }
  }

  lemma AdminCloseKeeps(w: World, a: nat, att: TM.Attachment)
    requires Inv(w) && Enabled(w, AdminClose(a, att))
    ensures Inv(Apply(w, AdminClose(a, att)))
  {
    var w' := w.(f := EF.CloseOne(w.f, a, att));
    assert EF.FenceInv(w'.f) by { EF.CloseOneKeeps(w.f, a, att); }
    assert AdminsKnow(w'.h, w'.f) by { AdminsFrame(w.h, w.f, w'.f, a); }
    assert TargetsKnown(w'.h, w'.f) by { TargetsFrame(w.h, w.f, w'.f); }
    assert TokensOk(w') by { CommitKeepsTokens(w, w'); }
  }

  lemma AdminReturnKeeps(w: World, a: nat)
    requires Inv(w) && Enabled(w, AdminReturn(a))
    ensures Inv(Apply(w, AdminReturn(a)))
  {
    var w' := w.(f := EF.Return(w.f, a));
    assert EF.FenceInv(w'.f) by { EF.ReturnKeeps(w.f, a); }
    assert AdminsKnow(w'.h, w'.f) by { AdminsFrame(w.h, w.f, w'.f, a); }
    assert TargetsKnown(w'.h, w'.f) by { TargetsFrame(w.h, w.f, w'.f); }
    assert TokensOk(w') by { CommitKeepsTokens(w, w'); }
  }

  // Tickets.

  lemma FewerTicketsKeep(w: World, w': World)
    requires TokensOk(w)
    requires forall k :: k in w'.tickets ==> k in w.tickets && w'.tickets[k] == w.tickets[k]
    requires w'.h.log == w.h.log && w'.issued == w.issued && forall i :: i in w'.issuers ==> w'.issuers[i] in w'.h.log
    requires w'.f.attaches == w.f.attaches
    ensures TokensOk(w')
  {
    forall k | k in w'.tickets ensures TicketOk(w'.tickets, w'.issued, k) { assert TicketOk(w.tickets, w.issued, k); }
    SameTokens(w.tickets, w'.tickets, w.issued, w.f, w'.f);
  }

  lemma IssueKeeps(w: World, i: nat, token: string, session: string, expires: int)
    requires Inv(w) && Enabled(w, IssueTicket(i, token, session, expires))
    ensures TokensOk(AfterIssue(w, i, token, session, expires))
  {
    var w' := AfterIssue(w, i, token, session, expires);
    forall k | k in w'.tickets ensures TicketOk(w'.tickets, w'.issued, k) {
      assert k == token || TicketOk(w.tickets, w.issued, k);
    }
    forall t | t in w'.f.attaches ensures TokenOk(w'.tickets, w'.issued, w'.f, t) {
      assert TokenOk(w.tickets, w.issued, w.f, t);
    }
    forall t, u | t in w'.f.attaches && u in w'.f.attaches && SameToken(w'.f, t, u) ensures t == u {
      assert SameToken(w.f, t, u);
    }
  }

  /** An accepted ticket is bound to the target's host and connection revision and
      is gone from the table. */
  lemma RedeemKeepsEach(w: World, t: nat, token: string, session: string, now: int)
    requires TicketsOk(w.tickets, w.issued) && EachTokenOk(w.tickets, w.issued, w.f) && AttachAt(w, t, EF.Resolved)
    requires w.f.attaches[t].target.Some?
    requires w.f.attaches[t].target.value.id != "" && w.f.attaches[t].target.value.connRev > 0
    ensures var w' := AfterRedeem(w, t, token, session, now); EachTokenOk(w'.tickets, w'.issued, w'.f)
  {
    var w' := AfterRedeem(w, t, token, session, now);
    forall u | u in w'.f.attaches ensures TokenOk(w'.tickets, w'.issued, w'.f, u) {
      assert TokenOk(w.tickets, w.issued, w.f, u);
      assert token in w.tickets ==> TicketOk(w.tickets, w.issued, token);
    }
  }

  /** It was in the table, so it had not been accepted before. */
  lemma RedeemKeepsDistinct(w: World, t: nat, token: string, session: string, now: int)
    requires EachTokenOk(w.tickets, w.issued, w.f) && TokensDistinct(w.f) && AttachAt(w, t, EF.Resolved)
    ensures TokensDistinct(AfterRedeem(w, t, token, session, now).f)
  {
    var f' := AfterRedeem(w, t, token, session, now).f;
    forall u, v | u in f'.attaches && v in f'.attaches && SameToken(f', u, v) ensures u == v {
      assert TokenOk(w.tickets, w.issued, w.f, u) && TokenOk(w.tickets, w.issued, w.f, v);
      assert u == t || v == t || SameToken(w.f, u, v);
    }
  }

  lemma RedeemKeepsTokens(w: World, t: nat, token: string, session: string, now: int)
    requires TokensOk(w) && AttachAt(w, t, EF.Resolved) && EF.AttachOk(w.f, t) && TargetKnown(w.h, w.f, t)
    ensures TokensOk(AfterRedeem(w, t, token, session, now))
  {
    var w' := AfterRedeem(w, t, token, session, now);
    RedeemKeepsEach(w, t, token, session, now);
    RedeemKeepsDistinct(w, t, token, session, now);
    forall k | k in w'.tickets ensures TicketOk(w'.tickets, w'.issued, k) { assert TicketOk(w.tickets, w.issued, k); }
  }

  // Attach requests.

  /** Everyone else's request is as it was, and nobody is given a new token. */
  predicate OnlyRequest(f: EF.Fence, f': EF.Fence, t: nat) {
    && f'.changes == f.changes && f'.admins == f.admins
    && t in f'.attaches && f'.attaches == f.attaches[t := f'.attaches[t]]
    && f'.attaches[t].token == if t in f.attaches then f.attaches[t].token else None
  }

  lemma RequestKeepsTokens(tickets: Table, issued: map<string, Origin>, f: EF.Fence, f': EF.Fence, t: nat)
    requires EachTokenOk(tickets, issued, f) && TokensDistinct(f) && OnlyRequest(f, f', t)
    requires TokenOk(tickets, issued, f', t)
    ensures EachTokenOk(tickets, issued, f') && TokensDistinct(f')
  {
    forall u | u in f'.attaches ensures TokenOk(tickets, issued, f', u) {
      assert u == t || TokenOk(tickets, issued, f, u);
    }
    forall u, v | u in f'.attaches && v in f'.attaches && SameToken(f', u, v) ensures u == v {
      assert u in f.attaches && v in f.attaches && SameToken(f, u, v);
    }
  }

  lemma RequestKeepsTargets(h: History, f: EF.Fence, f': EF.Fence, t: nat)
    requires TargetsKnown(h, f) && OnlyRequest(f, f', t) && TargetKnown(h, f', t)
    ensures TargetsKnown(h, f')
  {
    forall u | u in f'.attaches ensures TargetKnown(h, f', u) { assert u == t || TargetKnown(h, f, u); }
  }

  /** A step that moves one attach request on without naming a new token. */
  lemma AttachFrame(w: World, w': World, t: nat)
    requires Inv(w) && w' == w.(f := w'.f) && OnlyRequest(w.f, w'.f, t)
    requires EF.FenceInv(w'.f) && TokenOk(w.tickets, w.issued, w'.f, t) && TargetKnown(w.h, w'.f, t)
    ensures Inv(w')
  {
    assert TargetsKnown(w'.h, w'.f) by { RequestKeepsTargets(w.h, w.f, w'.f, t); }
    assert AdminsKnow(w'.h, w'.f) by { AdminsSame(w.h, w'.h, w.f, w'.f); }
    assert TokensOk(w') by { RequestKeepsTokens(w.tickets, w.issued, w.f, w'.f, t); }
  }

  lemma RequestOk(w: World, t: nat)
    requires Inv(w) && t in w.f.attaches
    ensures EF.AttachOk(w.f, t) && TargetKnown(w.h, w.f, t) && TokenOk(w.tickets, w.issued, w.f, t)
  {
  }

  lemma AttachReadKeeps(w: World, t: nat, host: Id)
    requires Inv(w) && Enabled(w, AttachRead(t, host))
    ensures Inv(Apply(w, AttachRead(t, host)))
  {
    EF.ReadEpochKeeps(w.f, t, host);
    AttachFrame(w, Apply(w, AttachRead(t, host)), t);
  }

  /** What is found is stored under the host's name, and nothing has changed since. */
  lemma FoundIsKnown(h: History, f: EF.Fence, t: nat)
    requires SchemaTwo(h.db) && HostsLogged(h) && t in f.attaches && TargetKnown(h, f, t)
    requires f.attaches[t].host in h.db.hosts && f.attaches[t].phase == EF.EpochRead
    ensures h.db.hosts[f.attaches[t].host].id == f.attaches[t].host
    ensures TargetKnown(h, EF.Resolve(f, t, Some(h.db.hosts[f.attaches[t].host])), t)
  {
  }

  lemma ResolveKeepsFence(f: EF.Fence, t: nat, target: Option<Record>)
    requires EF.FenceInv(f) && t in f.attaches && EF.AttachOk(f, t) && f.attaches[t].phase == EF.EpochRead
    requires target.Some? ==> target.value.id == f.attaches[t].host
    ensures EF.FenceInv(EF.Resolve(f, t, target))
  {
    EF.AdvanceKeeps(f, t, EF.Resolve(f, t, target).attaches[t]);
  }

  lemma AttachResolveKeeps(w: World, t: nat)
    requires Inv(w) && Enabled(w, AttachResolve(t))
    ensures Inv(Apply(w, AttachResolve(t)))
  {
    RequestOk(w, t);
    var target := Lookup(w, w.f.attaches[t].host);
    var f' := EF.Resolve(w.f, t, target);
    if target.Some? {
      FoundIsKnown(w.h, w.f, t);
    }
    ResolveKeepsFence(w.f, t, target);
    AttachFrame(w, w.(f := f'), t);
  }

  lemma AbandonKeeps(f: EF.Fence, t: nat)
    requires EF.FenceInv(f) && t in f.attaches && EF.AttachOk(f, t) && f.attaches[t].phase != EF.Tracked
    ensures EF.FenceInv(EF.Abandon(f, t))
  {
    EF.AdvanceKeeps(f, t, f.attaches[t].(phase := EF.Over));
  }

  lemma AttachFailKeeps(w: World, t: nat)
    requires Inv(w) && Enabled(w, AttachFail(t))
    ensures Inv(Apply(w, AttachFail(t)))
  {
    RequestOk(w, t);
    AbandonKeeps(w.f, t);
    AttachFrame(w, w.(f := EF.Abandon(w.f, t)), t);
  }

  lemma RedeemKeepsTargets(w: World, t: nat, token: string, session: string, now: int, accepted: bool)
    requires TargetsKnown(w.h, w.f) && AttachAt(w, t, EF.Resolved)
    ensures TargetsKnown(w.h, EF.Redeem(w.f, t, token, session, now, accepted))
  {
    var f' := EF.Redeem(w.f, t, token, session, now, accepted);
    forall u | u in f'.attaches ensures TargetKnown(w.h, f', u) { assert TargetKnown(w.h, w.f, u); }
  }

  lemma RedeemKeepsFence(f: EF.Fence, t: nat, token: string, session: string, now: int, accepted: bool)
    requires EF.FenceInv(f) && t in f.attaches && f.attaches[t].phase == EF.Resolved
    ensures EF.FenceInv(EF.Redeem(f, t, token, session, now, accepted))
  {
    assert EF.AttachOk(f, t);
    EF.AdvanceKeeps(f, t, EF.Redeem(f, t, token, session, now, accepted).attaches[t]);
  }

  lemma AttachRedeemKeeps(w: World, t: nat, token: string, session: string, now: int)
    requires Inv(w) && Enabled(w, AttachRedeem(t, token, session, now))
    ensures Inv(Apply(w, AttachRedeem(t, token, session, now)))
  {
    var w' := AfterRedeem(w, t, token, session, now);
    var accepted := w'.f.attaches[t].phase == EF.Redeemed;
    RequestOk(w, t);
    assert w'.f == EF.Redeem(w.f, t, token, session, now, accepted);
    assert EF.FenceInv(w'.f) by { RedeemKeepsFence(w.f, t, token, session, now, accepted); }
    assert TargetsKnown(w'.h, w'.f) by { RedeemKeepsTargets(w, t, token, session, now, accepted); }
    assert TokensOk(w') by { RedeemKeepsTokens(w, t, token, session, now); }
    assert AdminsKnow(w'.h, w'.f) by { AdminsSame(w.h, w'.h, w.f, w'.f); }
  }

  /** The dial demands the connection revision that was resolved. */
  lemma DialedIsTarget(h: History, target: Record)
    requires SchemaTwo(h.db) && HostsLogged(h) && target in h.log && target.connRev > 0
    ensures Dialed(h.db, target).Some? ==> UsedOk(h, target, Dialed(h.db, target).value)
  {
  }

  lemma DialKeepsFence(f: EF.Fence, t: nat, used: Option<Record>)
    requires EF.FenceInv(f) && t in f.attaches && EF.AttachOk(f, t) && f.attaches[t].phase == EF.Redeemed
    ensures EF.FenceInv(EF.Dial(f, t, used))
  {
    EF.AdvanceKeeps(f, t, EF.Dial(f, t, used).attaches[t]);
  }

  lemma AttachDialKeeps(w: World, t: nat)
    requires Inv(w) && Enabled(w, AttachDial(t))
    ensures Inv(Apply(w, AttachDial(t)))
  {
    RequestOk(w, t);
    var target := w.f.attaches[t].target.value;
    var used := Dialed(w.h.db, target);
    assert target in w.h.log;
    DialedIsTarget(w.h, target);
    DialKeepsFence(w.f, t, used);
    AttachFrame(w, w.(f := EF.Dial(w.f, t, used)), t);
  }

  lemma RegisterIsRequest(h: History, tickets: Table, issued: map<string, Origin>, f: EF.Fence, t: nat)
    requires t in f.attaches && f.attaches[t].phase == EF.Dialed
    requires TargetKnown(h, f, t) && TokenOk(tickets, issued, f, t)
    ensures var f' := EF.Register(f, t);
            OnlyRequest(f, f', t) && TargetKnown(h, f', t) && TokenOk(tickets, issued, f', t)
  {
  }

  lemma AttachRegisterKeeps(w: World, t: nat)
    requires Inv(w) && Enabled(w, AttachRegister(t))
    ensures Inv(Apply(w, AttachRegister(t)))
  {
    RequestOk(w, t);
    assert EF.FenceInv(EF.Register(w.f, t)) by { RegisterKeepsFence(w, t); }
    RegisterIsRequest(w.h, w.tickets, w.issued, w.f, t);
    AttachFrame(w, w.(f := EF.Register(w.f, t)), t);
  }

  lemma RegisterKeepsFence(w: World, t: nat)
    requires EF.FenceInv(w.f) && TargetsKnown(w.h, w.f) && AttachAt(w, t, EF.Dialed)
    ensures EF.FenceInv(EF.Register(w.f, t))
  {
    assert TargetKnown(w.h, w.f, t);
    EF.RegisterKeeps(w.f, t);
  }

  lemma ManagerKeeps(w: World, step: Step)
    requires Inv(w) && Enabled(w, step) && (step.Untrack? || step.BeginShutdown?)
    ensures Inv(Apply(w, step))
  {
    var w' := Apply(w, step);
    match step {
      case Untrack(att) => EF.DropKeeps(w.f, att);
      case BeginShutdown => EF.ShutdownKeeps(w.f);
    }
    TargetsFrame(w.h, w.f, w'.f);
    AdminsSame(w.h, w'.h, w.f, w'.f);
    CommitKeepsTokens(w, w');
  }

  lemma TicketStepsKeep(w: World, step: Step)
    requires Inv(w) && Enabled(w, step) && (step.IssueLook? || step.IssueTicket? || step.SweepTickets?)
    ensures Inv(Apply(w, step))
  {
    match step
    case IssueTicket(i, token, session, expires) => IssueKeeps(w, i, token, session, expires);
    case SweepTickets(now) => SweepKeeps(w, now);
    case IssueLook(i, host) => IssueLookKeeps(w, i, host);
  }

  lemma SweepKeeps(w: World, now: int)
    requires TokensOk(w)
    ensures TokensOk(w.(tickets := Swept(w.tickets, now)))
  {
    FewerTicketsKeep(w, w.(tickets := Swept(w.tickets, now)));
  }

  lemma IssueLookKeeps(w: World, i: nat, host: Id)
    requires TokensOk(w) && HostsLogged(w.h) && host in w.h.db.hosts
    ensures TokensOk(w.(issuers := w.issuers[i := w.h.db.hosts[host]]))
  {
    assert w.h.db.hosts[host] in w.h.log;
    FewerTicketsKeep(w, w.(issuers := w.issuers[i := w.h.db.hosts[host]]));
  }

  lemma AdminStepsKeep(w: World, step: Step)
    requires Inv(w) && Enabled(w, step)
    requires step.AdminTickets? || step.AdminBump? || step.AdminClose? || step.AdminReturn?
    ensures Inv(Apply(w, step))
  {
    match step
    case AdminTickets(a) => AdminTicketsKeeps(w, a);
    case AdminBump(a) => AdminBumpKeeps(w, a);
    case AdminClose(a, att) => AdminCloseKeeps(w, a, att);
    case AdminReturn(a) => AdminReturnKeeps(w, a);
  }

  lemma StoreStepsKeep(w: World, step: Step)
    requires Inv(w) && Enabled(w, step)
    requires step.Create? || step.AdminLook? || step.AdminSave? || step.AdminRemove?
    ensures Inv(Apply(w, step))
  {
    match step
    case Create(input, sealed) => CreateKeeps(w, input, sealed);
    case AdminLook(a, host) => AdminLookKeeps(w, a, host);
    case AdminSave(a, input, sealed, expected) => AdminSaveKeeps(w, a, input, sealed, expected);
    case AdminRemove(a, host, expected) => AdminRemoveKeeps(w, a, host, expected);
  }

  lemma AttachStepsKeep(w: World, step: Step)
    requires Inv(w) && Enabled(w, step)
    requires || step.AttachRead? || step.AttachResolve? || step.AttachRedeem? || step.AttachDial?
             || step.AttachRegister? || step.AttachFail?
    ensures Inv(Apply(w, step))
  {
    match step
    case AttachRead(t, host) => AttachReadKeeps(w, t, host);
    case AttachResolve(t) => AttachResolveKeeps(w, t);
    case AttachRedeem(t, token, session, now) => AttachRedeemKeeps(w, t, token, session, now);
    case AttachDial(t) => AttachDialKeeps(w, t);
    case AttachRegister(t) => AttachRegisterKeeps(w, t);
    case AttachFail(t) => AttachFailKeeps(w, t);
  }

  lemma StepKeepsInv(w: World, step: Step)
    requires Inv(w) && Enabled(w, step)
    ensures Inv(Apply(w, step))
  {
    if step.IssueLook? || step.IssueTicket? || step.SweepTickets? {
      TicketStepsKeep(w, step);
    } else if step.Untrack? || step.BeginShutdown? {
      ManagerKeeps(w, step);
    } else if step.Create? || step.AdminLook? || step.AdminSave? || step.AdminRemove? {
      StoreStepsKeep(w, step);
    } else if step.AdminTickets? || step.AdminBump? || step.AdminClose? || step.AdminReturn? {
      AdminStepsKeep(w, step);
    } else {
      AttachStepsKeep(w, step);
    }
  }

  lemma InitInv(w: World)
    requires Init(w)
    ensures Inv(w)
  {
    StartKeepsInv(w.h);
    forall r | r in w.h.log ensures r.id != "" && r.connRev > 0 {
      var i :| i in w.h.db.hosts && w.h.db.hosts[i] == r;
    }
  }

  lemma {:induction false} ReachableInv(steps: seq<Step>, w: World)
    requires Run(steps, w)
    ensures Inv(w)
  {
    if steps == [] {
      InitInv(w);
    } else {
      var last := |steps| - 1;
      var before :| Run(steps[..last], before) && Enabled(before, steps[last]) && w == Apply(before, steps[last]);
      ReachableInv(steps[..last], before);
      StepKeepsInv(before, steps[last]);
    }
  }

  // --- Main results, over every reachable state ---

  /** Epoch fence: once the CloseHost that follows a committed connection change
      or removal has returned, every attachment still tracked for that host was
      resolved after that commit. */
  lemma EpochFenceHolds(w: World, a: nat, att: TM.Attachment)
    requires Reachable(w) && AdminAt(w, a, EF.Returned)
    requires att in w.f.mgr.attachments && att.host == w.f.admins[a].host
    ensures att.id in w.f.attaches && w.f.attaches[att.id].resolvedAt >= w.f.admins[a].change
  {
    var steps :| Run(steps, w);
    ReachableInv(steps, w);
    EF.FenceHolds(w.f, a, att);
  }

  predicate LetIn(w: World, t: nat) {
    AttachAt(w, t, EF.Redeemed) || AttachAt(w, t, EF.Dialed) || AttachAt(w, t, EF.Tracked)
  }

  /** No other request has been let in by the same ticket. */
  predicate RedeemedOnce(w: World, t: nat, u: nat)
    requires t in w.f.attaches
  {
    LetIn(w, u) && u != t ==> w.f.attaches[u].token != w.f.attaches[t].token
  }

  /** The configurations along a request are one: a connection revision has only one. */
  lemma OneConfiguration(w: World, t: nat)
    requires Registry.LogAgrees(w.h.log) && OriginsLogged(w.h, w.issued, w.issuers)
    requires LetIn(w, t) && TargetKnown(w.h, w.f, t) && TokenOk(w.tickets, w.issued, w.f, t)
    ensures var x := w.f.attaches[t];
            && x.token.Some? && x.token.value in w.issued && x.target.Some?
            && w.issued[x.token.value].record.id == x.target.value.id
            && w.issued[x.token.value].record.cfg == x.target.value.cfg
            && (x.phase != EF.Redeemed ==> x.used.Some? && x.used.value.cfg == w.issued[x.token.value].record.cfg)
            && x.session == w.issued[x.token.value].session && x.at <= w.issued[x.token.value].expires
  {
  }

  lemma OneRequest(w: World, t: nat, u: nat)
    requires LetIn(w, t) && EachTokenOk(w.tickets, w.issued, w.f) && TokensDistinct(w.f)
    ensures RedeemedOnce(w, t, u)
  {
    if LetIn(w, u) {
      assert TokenOk(w.tickets, w.issued, w.f, t);
      assert w.f.attaches[u].token == w.f.attaches[t].token ==> SameToken(w.f, t, u);
    }
  }

  /** A redeemed ticket attaches with exactly the connection configuration it
      was issued for, as resolved and as dialled, to the session it was issued for
      and before it expires, and no ticket is redeemed twice. */
  lemma TicketKeepsItsConfiguration(w: World, t: nat, u: nat)
    requires Reachable(w) && LetIn(w, t)
    ensures var x := w.f.attaches[t];
            && x.token.Some? && x.token.value in w.issued && x.target.Some?
            && w.issued[x.token.value].record.id == x.target.value.id
            && w.issued[x.token.value].record.cfg == x.target.value.cfg
            && (x.phase != EF.Redeemed ==> x.used.Some? && x.used.value.cfg == w.issued[x.token.value].record.cfg)
            && x.session == w.issued[x.token.value].session && x.at <= w.issued[x.token.value].expires
    ensures RedeemedOnce(w, t, u)
  {
    var steps :| Run(steps, w);
    ReachableInv(steps, w);
    RequestOk(w, t);
    OneConfiguration(w, t);
    OneRequest(w, t, u);
  }

  /** The resolver answers with a record stored under the very identifier asked
      for, so the handler's second read of an epoch, after resolving, never happens. */
  lemma ResolvedUnderItsOwnName(w: World, t: nat)
    requires Reachable(w) && Enabled(w, AttachResolve(t))
    ensures var w' := Apply(w, AttachResolve(t));
            w'.f.attaches[t].host == w.f.attaches[t].host && w'.f.attaches[t].epoch == w.f.attaches[t].epoch
  {
    var steps :| Run(steps, w);
    ReachableInv(steps, w);
    assert EF.AttachOk(w.f, t);
  }

  predicate Pending(w: World, a: nat, host: Id) {
    && a in w.f.admins && w.f.admins[a].host == host
    && (AdminAt(w, a, EF.Committed) || AdminAt(w, a, EF.TicketsGone) || AdminAt(w, a, EF.ClosingAll))
  }

  /** Nothing was committed after the request was resolved. */
  lemma NothingSince(h: History, f: EF.Fence, att: TM.Attachment)
    requires EF.FenceInv(f) && AdminsKnow(h, f) && att in f.mgr.attachments
    requires forall a :: CausedLast(f, att.host, a) ==> f.admins[a].phase == EF.Returned
    ensures EF.TrackedOk(f, att) && f.attaches[att.id].target.Some?
    ensures f.attaches[att.id].resolvedAt == EF.Changes(f, att.host)
  {
    assert EF.TrackedOk(f, att) && EF.AttachOk(f, att.id);
    if EF.Changes(f, att.host) > 0 {
      var a :| CausedLast(f, att.host, a);
      EF.FenceHolds(f, a, att);
    }
  }

  lemma UsedIsStored(h: History, f: EF.Fence, t: nat)
    requires HostsLogged(h) && SchemaTwo(h.db) && Registry.LogAgrees(h.log)
    requires t in f.attaches && TargetKnown(h, f, t) && f.attaches[t].phase == EF.Tracked
    requires f.attaches[t].target.Some? && f.attaches[t].target.value.id == f.attaches[t].host
    requires f.attaches[t].resolvedAt == EF.Changes(f, f.attaches[t].host)
    ensures var x := f.attaches[t];
            x.used.Some? && x.host in h.db.hosts && x.used.value.cfg == h.db.hosts[x.host].cfg
  {
    var stored := h.db.hosts[f.attaches[t].host];
    assert stored in h.log && stored.id == f.attaches[t].host;
  }

  lemma FollowedUp(w: World, host: Id)
    requires forall a :: !Pending(w, a, host)
    ensures forall a :: CausedLast(w.f, host, a) ==> w.f.admins[a].phase == EF.Returned
  {
    forall a | CausedLast(w.f, host, a) ensures w.f.admins[a].phase == EF.Returned {
      assert !Pending(w, a, host);
    }
  }

  lemma CurrentlyUsed(w: World, att: TM.Attachment)
    requires Inv(w) && att in w.f.mgr.attachments
    requires forall a :: CausedLast(w.f, att.host, a) ==> w.f.admins[a].phase == EF.Returned
    ensures att.id in w.f.attaches && w.f.attaches[att.id].used.Some? && att.host in w.h.db.hosts
    ensures w.f.attaches[att.id].used.value.cfg == w.h.db.hosts[att.host].cfg
  {
    NothingSince(w.h, w.f, att);
    RequestOk(w, att.id);
    UsedIsStored(w.h, w.f, att.id);
  }

  /** When no change of a host is still being followed up, the host is
      registered if anyone is attached to it, and everyone attached was connected
      with the configuration now stored. */
  lemma QuiescentAttachmentsAreCurrent(w: World, att: TM.Attachment)
    requires Reachable(w) && att in w.f.mgr.attachments
    requires forall a :: !Pending(w, a, att.host)
    ensures att.id in w.f.attaches && w.f.attaches[att.id].used.Some?
    ensures att.host in w.h.db.hosts
    ensures w.f.attaches[att.id].used.value.cfg == w.h.db.hosts[att.host].cfg
  {
    var steps :| Run(steps, w);
    ReachableInv(steps, w);
    FollowedUp(w, att.host);
    CurrentlyUsed(w, att);
  }
}
