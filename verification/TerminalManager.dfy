/** The set of live attachments and the per-host epochs that fence them
    (hub/internal/terminal/manager.go). */
module TerminalManager {
  /** What registration looks at; `id` is the identity of the original pointer. */
  datatype Attachment = Attachment(id: nat, host: string, epoch: nat)

  datatype Manager = Manager(attachments: set<Attachment>, epochs: map<string, nat>, closing: bool)

  datatype Verdict = Registered | Closing | HostClosed

  function EpochOf(m: Manager, host: string): nat {
    if host in m.epochs then m.epochs[host] else 0
  }

  function Registration(m: Manager, a: Attachment): Verdict {
    if m.closing then Closing
    else if a.host != "" && a.epoch != EpochOf(m, a.host) then HostClosed
    else Registered
  }

  /** Nothing registers once shutdown began; else exactly what has no host, or read
      the present epoch of its host. */
  lemma RegistrationMeaning(m: Manager, a: Attachment)
    ensures Registration(m, a) == Registered <==> !m.closing && (a.host == "" || a.epoch == EpochOf(m, a.host))
    ensures Registration(m, a) == Closing <==> m.closing
    ensures a in AfterRegister(m, a).attachments <==> a in m.attachments || Registration(m, a) == Registered
    ensures forall b :: b != a ==> (b in AfterRegister(m, a).attachments <==> b in m.attachments)
  {
  }

  /** A bump shuts out whoever read the epoch of the host before, and nobody else. */
  lemma BumpShutsOut(m: Manager, host: string, a: Attachment)
    requires host != "" && !m.closing && Registration(m, a) == Registered
    ensures Registration(Bumped(m, host), a) == if a.host == host then HostClosed else Registered
  {
  }

  function AfterRegister(m: Manager, a: Attachment): Manager {
    if Registration(m, a) == Registered then m.(attachments := m.attachments + {a}) else m
  }

  function OfHost(m: Manager, host: string): set<Attachment> {
    set a | a in m.attachments && a.host == host
  }

  function Bumped(m: Manager, host: string): Manager {
    m.(epochs := m.epochs[host := EpochOf(m, host) + 1])
  }

  class TerminalManager {
    var attachments: set<Attachment>
    var hostEpochs: map<string, nat>
    var closing: bool

    function View(): Manager
      reads this
    {
      Manager(attachments, hostEpochs, closing)
    }

    constructor ()
      ensures View() == Manager({}, map[], false)
    {
      attachments, hostEpochs, closing := {}, map[], false;
    }

    method CurrentEpoch(host: string) returns (e: nat)
      ensures e == EpochOf(View(), host)
    {
      e := if host in hostEpochs then hostEpochs[host] else 0;
    }

    method Register(a: Attachment) returns (v: Verdict)
      modifies this`attachments
      ensures v == Registration(old(View()), a)
      ensures View() == AfterRegister(old(View()), a)
    {
      if closing {
        return Closing;
      }
      var current := CurrentEpoch(a.host);
      if a.host != "" && a.epoch != current {
        return HostClosed;
      }
      attachments := attachments + {a};
      return Registered;
    }

    method Untrack(a: Attachment)
      modifies this`attachments
      ensures attachments == old(attachments) - {a}
    {
      attachments := attachments - {a};
    }

    /** The locked part of CloseHost: bump the epoch, list who is to be closed. */
    method BumpAndList(host: string) returns (list: set<Attachment>)
      modifies this`hostEpochs
      ensures View() == Bumped(old(View()), host)
      ensures list == OfHost(old(View()), host)
    {
      var current := CurrentEpoch(host);
      hostEpochs := hostEpochs[host := current + 1];
      list := {};
      var todo := attachments;
      while todo != {}
        invariant todo <= attachments
        invariant list == set a | a in attachments && a !in todo && a.host == host
        decreases todo
      {
        var a :| a in todo;
        if a.host == host {
          list := list + {a};
        }
        todo := todo - {a};
      }
    }

    /** The locked part of Shutdown: nothing registers from here on. */
    method BeginShutdown() returns (list: set<Attachment>)
      modifies this`closing
      ensures View() == old(View()).(closing := true)
      ensures list == attachments
    {
      closing := true;
      list := attachments;
    }

    /** With nobody else at work, closing a host leaves none of its attachments. */
    method CloseHost(host: string)
      modifies this
      ensures View() == Bumped(old(View()), host).(attachments := old(attachments) - old(OfHost(View(), host)))
      ensures forall a :: a in attachments ==> a.host != host
    {
      var list := BumpAndList(host);
      ghost var listed := list;
      while list != {}
        invariant list <= listed
        invariant View() == Bumped(old(View()), host).(attachments := old(attachments) - (listed - list))
        decreases list
      {
        var a :| a in list;
        Untrack(a);    // ForceClose ends by untracking the attachment
        list := list - {a};
      }
    }
  }
}
