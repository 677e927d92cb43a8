/** Each handler, alone, is a run of the steps that HostLifecycle interleaves
    (hub/internal/transport/http/router.go:283-321, 453-543;
    hub/internal/transport/ws/handler.go:140-231).
  */
module HandlerRuns {
  import opened Option
  import opened HostStore
  import opened Registry
  import opened Tickets
  import opened Connections
  import opened HubHandlers
  import TM = TerminalManager
  import EF = EpochFence
  import L = HostLifecycle

  /** The world is in the state the handlers work on; the connection pools, which no
      step reads, are only the handlers'. */
  predicate Shows(w: L.World, s: HubState) {
    w.h.db == s.db && w.tickets == s.tickets && w.f.mgr == s.mgr
  }

  /** Running these steps in this order leads from one world to the other. */
  ghost predicate Leads(w: L.World, steps: seq<L.Step>, w': L.World)
    decreases |steps|
  {
    if steps == [] then w == w'
    else L.Enabled(w, steps[0]) && Leads(L.Apply(w, steps[0]), steps[1..], w')
  }

  lemma LeadsCons(w: L.World, step: L.Step, rest: seq<L.Step>, w': L.World)
    requires L.Enabled(w, step) && Leads(L.Apply(w, step), rest, w')
    ensures Leads(w, [step] + rest, w')
  {
    assert ([step] + rest)[1..] == rest;
  }

  // --- Following up a change ---

  lemma AllClosed(w: L.World, a: nat) returns (steps: seq<L.Step>, w': L.World)
    requires L.AdminAt(w, a, EF.ClosingAll) && w.f.admins[a].left == {}
    ensures Leads(w, steps, w') && L.AdminAt(w', a, EF.Returned)
    ensures w'.h == w.h && w'.tickets == w.tickets && w'.f.mgr == w.f.mgr
  {
    w' := L.Apply(w, L.AdminReturn(a));
    steps := [L.AdminReturn(a)] + [];
    LeadsCons(w, L.AdminReturn(a), [], w');
  }

  /** Closing the listed attachments one by one. */
  lemma {:induction false} ClosingIsRun(w: L.World, a: nat) returns (steps: seq<L.Step>, w': L.World)
    requires L.AdminAt(w, a, EF.ClosingAll)
    ensures Leads(w, steps, w') && L.AdminAt(w', a, EF.Returned)
    ensures w'.h == w.h && w'.tickets == w.tickets
    ensures w'.f.mgr == w.f.mgr.(attachments := w.f.mgr.attachments - w.f.admins[a].left)
    decreases w.f.admins[a].left
  {
    var left := w.f.admins[a].left;
    if left == {} {
      steps, w' := AllClosed(w, a);
      assert w.f.mgr.attachments - left == w.f.mgr.attachments;
    } else {
      var att :| att in left;
      var step := L.AdminClose(a, att);
      var rest;
      rest, w' := ClosingIsRun(L.Apply(w, step), a);
      steps := [step] + rest;
      LeadsCons(w, step, rest, w');
      assert w.f.mgr.attachments - {att} - (left - {att}) == w.f.mgr.attachments - left;
    }
  }

  /** The callbacks of a committed change. */
  lemma FollowUpIsRun(w: L.World, a: nat, s: HubState) returns (steps: seq<L.Step>, w': L.World)
    requires L.AdminAt(w, a, EF.Committed) && Shows(w, s)
    ensures Leads(w, steps, w') && L.AdminAt(w', a, EF.Returned)
    ensures Shows(w', Dropped(s, w.f.admins[a].host))
  {
    var w1 := L.Apply(w, L.AdminTickets(a));
    var w2 := L.Apply(w1, L.AdminBump(a));
    var rest;
    rest, w' := ClosingIsRun(w2, a);
    LeadsCons(w1, L.AdminBump(a), rest, w');
    LeadsCons(w, L.AdminTickets(a), [L.AdminBump(a)] + rest, w');
    steps := [L.AdminTickets(a)] + ([L.AdminBump(a)] + rest);
  }

  // --- The handlers ---

  /** What a save that follows its own look leaves: the database, and whether to go on. */
  lemma SavedAfterLook(w: L.World, a: nat, input: HostInput, sealed: seq<nat>, expected: Revision)
    requires L.AdminAt(w, a, EF.Looked) && w.f.admins[a].host == input.id && expected > 0
    requires input.id in w.h.db.hosts && w.f.admins[a].seen == w.h.db.hosts[input.id].connRev
    ensures var w' := L.AfterAdminSave(w, a, input, sealed, expected);
            var saved := SaveResult(w.h.db, input, sealed, expected);
            && w'.h.db == (if saved.Ok? then AfterSave(w.h.db, input, sealed, expected) else w.h.db)
            && w'.tickets == w.tickets && w'.f.mgr == w.f.mgr
            && a in w'.f.admins && w'.f.admins[a].host == input.id
            && (w'.f.admins[a].phase == EF.Committed <==>
                  saved.Ok? && saved.value.connRev != w.h.db.hosts[input.id].connRev)
  {
  }

  lemma SaveIsRun(w: L.World, s: HubState, a: nat, input: HostInput, sealed: seq<nat>, expected: Revision)
    returns (steps: seq<L.Step>, w': L.World)
    requires Shows(w, s) && L.AdminAt(w, a, EF.Looked) && w.f.admins[a].host == input.id && expected > 0
    requires input.id in w.h.db.hosts && w.f.admins[a].seen == w.h.db.hosts[input.id].connRev
    ensures Leads(w, steps, w') && Shows(w', Updated(s, input, sealed, expected).1)
  {
    var save := L.AdminSave(a, input, sealed, expected);
    var w1 := L.AfterAdminSave(w, a, input, sealed, expected);
    SavedAfterLook(w, a, input, sealed, expected);
    var rest;
    if w1.f.admins[a].phase == EF.Committed {
      rest, w' := FollowUpIsRun(w1, a, s.(db := w1.h.db));
    } else {
      rest, w' := [], w1;
    }
    LeadsCons(w, save, rest, w');
    steps := [save] + rest;
  }

  /** An update of a registered host, by an administrator new to the world. */
  lemma UpdateIsRun(w: L.World, s: HubState, a: nat, input: HostInput, sealed: seq<nat>, expected: Revision)
    returns (steps: seq<L.Step>, w': L.World)
    requires Shows(w, s) && a !in w.f.admins && expected > 0 && input.id in w.h.db.hosts
    ensures Leads(w, steps, w') && Shows(w', Updated(s, input, sealed, expected).1)
  {
    var look := L.AdminLook(a, input.id);
    var rest;
    rest, w' := SaveIsRun(L.Apply(w, look), s, a, input, sealed, expected);
    LeadsCons(w, look, rest, w');
    steps := [look] + rest;
  }

  lemma DeleteIsRun(w: L.World, s: HubState, a: nat, host: Id, expected: Revision)
    returns (steps: seq<L.Step>, w': L.World)
    requires Shows(w, s) && a !in w.f.admins && RemoveResult(w.h.db, host, expected) == Done
    ensures Leads(w, steps, w') && Shows(w', Deleted(s, host, expected).1)
  {
    var remove := L.AdminRemove(a, host, expected);
    var rest;
    var w1 := L.Apply(w, remove);
    rest, w' := FollowUpIsRun(w1, a, s.(db := w1.h.db));
    LeadsCons(w, remove, rest, w');
    steps := [remove] + rest;
  }

  lemma IssueIsRun(w: L.World, s: HubState, i: nat, token: string, host: Id, session: string, expires: int)
    returns (steps: seq<L.Step>, w': L.World)
    requires Shows(w, s) && host in w.h.db.hosts && token != "" && token !in w.issued
    ensures Leads(w, steps, w') && Shows(w', TicketIssued(s, token, host, session, true, expires).1)
  {
    var look, issue := L.IssueLook(i, host), L.IssueTicket(i, token, session, expires);
    var w1 := L.Apply(w, look);
    w' := L.Apply(w1, issue);
    LeadsCons(w1, issue, [], w');
    LeadsCons(w, look, [issue] + [], w');
    steps := [look] + ([issue] + []);
  }

  /** A resolved attach request gives up: before or after its ticket is used. */
  lemma GivesUp(w: L.World, t: nat) returns (steps: seq<L.Step>, w': L.World)
    requires t in w.f.attaches && w.f.attaches[t].phase != EF.Tracked
    ensures Leads(w, steps, w') && w'.h == w.h && w'.tickets == w.tickets && w'.f.mgr == w.f.mgr
  {
    w' := L.Apply(w, L.AttachFail(t));
    steps := [L.AttachFail(t)] + [];
    LeadsCons(w, L.AttachFail(t), [], w');
  }

  /** A request resolved to the record stored under the name asked for. */
  ghost predicate ResolvedTo(w: L.World, t: nat, r: Record) {
    && t in w.f.attaches && w.f.attaches[t].target == Some(r) && r.id in w.h.db.hosts && w.h.db.hosts[r.id] == r
    && w.f.attaches[t].host == r.id && w.f.attaches[t].epoch == TM.EpochOf(w.f.mgr, r.id)
  }

  lemma ServedAfterDial(w: L.World, t: nat) returns (steps: seq<L.Step>, w': L.World)
    requires L.AttachAt(w, t, EF.Dialed) && w.f.attaches[t].epoch == TM.EpochOf(w.f.mgr, w.f.attaches[t].host)
    ensures Leads(w, steps, w') && w'.h == w.h && w'.tickets == w.tickets
    ensures w'.f.mgr == if w.f.mgr.closing then w.f.mgr
                        else w.f.mgr.(attachments := w.f.mgr.attachments + {EF.AttachmentOf(w.f, t)})
  {
    w' := L.Apply(w, L.AttachRegister(t));
    steps := [L.AttachRegister(t)] + [];
    LeadsCons(w, L.AttachRegister(t), [], w');
  }

  lemma ServedAfterRedeem(w: L.World, t: nat, r: Record, around: Surroundings)
    returns (steps: seq<L.Step>, w': L.World)
    requires L.AttachAt(w, t, EF.Redeemed) && ResolvedTo(w, t, r)
    ensures Leads(w, steps, w') && w'.h == w.h && w'.tickets == w.tickets
    ensures var starts := around.tmux && around.process && Dialed(w.h.db, r).Some? && !w.f.mgr.closing;
            w'.f.mgr == if starts then w.f.mgr.(attachments := w.f.mgr.attachments + {EF.AttachmentOf(w.f, t)})
                        else w.f.mgr
  {
    if around.tmux && around.process {
      var dial := L.AttachDial(t);
      var w1 := L.Apply(w, dial);
      var rest;
      if Dialed(w.h.db, r).Some? {
        rest, w' := ServedAfterDial(w1, t);
      } else {
        rest, w' := [], w1;
      }
      LeadsCons(w, dial, rest, w');
      steps := [dial] + rest;
    } else {
      steps, w' := GivesUp(w, t);
    }
  }

  lemma ServedAfterResolve(
      w: L.World, s: HubState, t: nat, r: Record, token: string, session: string, now: int, around: Surroundings)
    returns (steps: seq<L.Step>, w': L.World)
    requires Shows(w, s) && L.AttachAt(w, t, EF.Resolved) && ResolvedTo(w, t, r) && r.id != ""
    ensures Leads(w, steps, w') && Shows(w', Served(s, t, r.id, token, session, now, around).1)
  {
    if !around.origin || !around.upgrade {
      steps, w' := GivesUp(w, t);
    } else {
      var redeem := L.AttachRedeem(t, token, session, now);
      var w1 := L.Apply(w, redeem);
      var rest;
      if w1.f.attaches[t].phase == EF.Redeemed {
        rest, w' := ServedAfterRedeem(w1, t, r, around);
      } else {
        rest, w' := [], w1;
      }
      LeadsCons(w, redeem, rest, w');
      steps := [redeem] + rest;
    }
  }

  /** An attach request, whatever it meets. */
  lemma AttachIsRun(
      w: L.World, s: HubState, t: nat, host: Id, token: string, session: string, now: int, around: Surroundings)
    returns (steps: seq<L.Step>, w': L.World)
    requires L.Reachable(w) && Shows(w, s) && t !in w.f.attaches && host != ""
    ensures Leads(w, steps, w') && Shows(w', Served(s, t, host, token, session, now, around).1)
  {
    var w1 := L.Apply(w, L.AttachRead(t, host));
    var w2 := L.Apply(w1, L.AttachResolve(t));
    var rest;
    if host in w.h.db.hosts {
      StoredUnderItsName(w, host);
      rest, w' := ServedAfterResolve(w2, s, t, w.h.db.hosts[host], token, session, now, around);
    } else {
      rest, w' := [], w2;
    }
    LeadsCons(w1, L.AttachResolve(t), rest, w');
    LeadsCons(w, L.AttachRead(t, host), [L.AttachResolve(t)] + rest, w');
    steps := [L.AttachRead(t, host)] + ([L.AttachResolve(t)] + rest);
  }

  lemma StoredUnderItsName(w: L.World, host: Id)
    requires L.Reachable(w) && host in w.h.db.hosts
    ensures w.h.db.hosts[host].id == host
  {
    var run :| L.Run(run, w);
    L.ReachableInv(run, w);
  }
}
