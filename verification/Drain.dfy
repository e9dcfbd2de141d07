/** Progress of the pipeline: the backlog never stalls, a silent link drains, and closing drains everything. */
module Drain {
  import opened Basics
  import opened Commands
  import opened Pipeline
  import opened Ledger
  import opened PendingQueue

  /** A response or a timeout is still to come whenever there is a backlog. */
  predicate Flowing(s: Link) {
    s.out != [] ==> s.pending != []
  }

  lemma AdmitFlowing(port: Port, s: Link, t: Ticket, bypass: bool)
    requires WritesOk(port) && (bypass || Flowing(s))
    ensures Flowing(Admit(port, s, t, bypass))
  {
    assert Write(port, s, t, 1).pending != [];
  }

  /** However empty `pending` has become, serving the backlog leaves a command pending. */
  lemma DispatchFlowing(port: Port, s: Link)
    requires WritesOk(port)
    ensures Flowing(Dispatch(port, s))
    ensures s.out != [] ==> Dispatch(port, s).pending != []
  {
    if s.out != [] {
      var rest := s.(out := s.out[1..]);
      AdmitFlowing(port, rest, s.out[0], true);
      assert Write(port, rest, s.out[0], 1).pending != [];
    }
  }

  lemma AcceptedFlowing(port: Port, s: Link, i: nat)
    requires WritesOk(port) && i < |s.pending|
    ensures Flowing(Accepted(port, s, i))
  {
    DispatchFlowing(port, Answered(port, s, i));
    AcceptedExtends(port, s, i);
  }

  lemma StepFlowing(port: Port, s: Link, e: Stimulus)
    requires WritesOk(port) && Flowing(s)
    ensures Flowing(Step(port, s, e))
  {
    match e
    case Submitted(c) => AdmitFlowing(port, Issued(s, c), Ticket(s.next, c), false);
    case Received(code, data) =>
      match Judge(s.pending, code, data) {
        case Accept(i) => AcceptedFlowing(port, s, i);
        case Reject(i, error) => DispatchFlowing(port, Failed(port, s, i, error));
        case Unmatched =>
      }
    case Ticked(now) =>
      if s.pending != [] {
        DispatchFlowing(port, Failed(port, s, 0, USB_NO_RESPONSE));
        DispatchFlowing(port, Failed(port, s, 0, PENDING_CONFLICT));
      }
    case Closed => CloseEmpties(port, s);
  }

  /**
    The backlog never stalls while writes succeed. This rests on error callbacks that return: one that throws while a
    message is processed would keep the backlog from being served.
  */
  lemma {:induction false} NoStall(port: Port, es: seq<Stimulus>)
    requires WritesOk(port)
    ensures Flowing(Run(port, es))
  {
    if es != [] {
      NoStall(port, es[..|es| - 1]);
      StepFlowing(port, Run(port, es[..|es| - 1]), es[|es| - 1]);
    }
  }

  /** The events from position `from` on are all of an allowed kind. */
  predicate OnlyAllowed(allowed: Event -> bool, trace: seq<Event>, from: nat) {
    forall i :: from <= i < |trace| ==> allowed(trace[i])
  }

  /** Writes, and completions with these errors. */
  function ErrorsOf(codes: set<CmdError>): Event -> bool {
    (e: Event) => e.Put? || (e.Done? && e.outcome.Err? && e.outcome.error in codes)
  }

  ghost predicate AllowsErrors(allowed: Event -> bool, codes: set<CmdError>) {
    forall e: Event :: ErrorsOf(codes)(e) ==> allowed(e)
  }

  lemma {:induction false} WriteAllowed(port: Port, s: Link, t: Ticket, noSent: nat, allowed: Event -> bool, from: nat)
    requires AllowsErrors(allowed, {0x10}) && OnlyAllowed(allowed, s.trace, from)
    ensures OnlyAllowed(allowed, Write(port, s, t, noSent).trace, from)
    decreases t.cmd, 0
  {
    if !port.writeOk(s.writes) {
      SubmitAllAllowed(port, s.(writes := s.writes + 1,
                                trace := s.trace + [Attempt(t, noSent, false)] + [Done(t.id, Err(SERIAL_PORT_CLOSED))]),
                       t.cmd.onErr, allowed, from);
    }
  }

  lemma {:induction false} SubmitAllAllowed(port: Port, s: Link, cs: seq<Cmd>, allowed: Event -> bool, from: nat)
    requires AllowsErrors(allowed, {0x10}) && OnlyAllowed(allowed, s.trace, from)
    ensures OnlyAllowed(allowed, SubmitAll(port, s, cs).trace, from)
    decreases cs
  {
    if cs != [] {
      var s1 := Issued(s, cs[0]);
      WriteAllowed(port, s1, Ticket(s.next, cs[0]), 1, allowed, from);
      assert Submit(port, s, cs[0]) == Admit(port, s1, Ticket(s.next, cs[0]), false);
      SubmitAllAllowed(port, Submit(port, s, cs[0]), cs[1..], allowed, from);
    }
  }

  lemma DispatchAllowed(port: Port, s: Link, allowed: Event -> bool, from: nat)
    requires AllowsErrors(allowed, {0x10}) && OnlyAllowed(allowed, s.trace, from)
    ensures OnlyAllowed(allowed, Dispatch(port, s).trace, from)
  {
    if s.out != [] {
      WriteAllowed(port, s.(out := s.out[1..]), s.out[0], 1, allowed, from);
    }
  }

  /** A failing command and all it sets off add writes and errors only. */
  lemma FailedAllowed(port: Port, s: Link, i: nat, error: CmdError, allowed: Event -> bool, from: nat)
    requires i < |s.pending| && AllowsErrors(allowed, {0x10, error}) && OnlyAllowed(allowed, s.trace, from)
    ensures OnlyAllowed(allowed, Dispatch(port, Failed(port, s, i, error)).trace, from)
  {
    var s1, t := Removed(s, i), s.pending[i].ticket;
    SubmitAllAllowed(port, s1.(trace := s1.trace + [Done(t.id, Err(error))]), t.cmd.onErr, allowed, from);
    DispatchAllowed(port, Failed(port, s, i, error), allowed, from);
  }

  /** So does a tick. */
  lemma TickAllowed(port: Port, s: Link, now: int, allowed: Event -> bool, from: nat)
    requires AllowsErrors(allowed, {0x10, 0x11, 0x13}) && OnlyAllowed(allowed, s.trace, from)
    ensures OnlyAllowed(allowed, Tick(port, s, now).trace, from)
  {
    if s.pending != [] {
      FailedAllowed(port, s, 0, USB_NO_RESPONSE, allowed, from);
      FailedAllowed(port, s, 0, PENDING_CONFLICT, allowed, from);
      WriteAllowed(port, s.(pending := s.pending[1..]), s.pending[0].ticket, s.pending[0].noSent + 1, allowed, from);
    }
  }

  lemma {:induction false} ClosePendingAllowed(port: Port, s: Link, allowed: Event -> bool, from: nat)
    requires AllowsErrors(allowed, {0x10}) && OnlyAllowed(allowed, s.trace, from)
    ensures OnlyAllowed(allowed, ClosePending(port, s).trace, from)
    decreases Load(s, false)
  {
    if s.pending != [] {
      var t := s.pending[0].ticket;
      SubmitAllAllowed(port, s.(trace := s.trace + [Done(t.id, Err(SERIAL_PORT_CLOSED))]), t.cmd.onErr, allowed, from);
      ClosePendingLoad(port, s);
      ClosePendingAllowed(port, ClosePendingFront(port, s), allowed, from);
    }
  }

  lemma {:induction false} CloseOutAllowed(port: Port, s: Link, allowed: Event -> bool, from: nat)
    requires AllowsErrors(allowed, {0x10}) && OnlyAllowed(allowed, s.trace, from)
    ensures OnlyAllowed(allowed, CloseOut(port, s).trace, from)
    decreases Load(s, false)
  {
    if s.out != [] {
      var t := s.out[0];
      SubmitAllAllowed(port, s.(trace := s.trace + [Done(t.id, Err(SERIAL_PORT_CLOSED))]), t.cmd.onErr, allowed, from);
      CloseOutLoad(port, s);
      CloseOutAllowed(port, CloseOutFront(port, s), allowed, from);
    }
  }

  /** And so does closing. */
  lemma CloseAllowed(port: Port, s: Link, allowed: Event -> bool, from: nat)
    requires AllowsErrors(allowed, {0x10}) && OnlyAllowed(allowed, s.trace, from)
    ensures OnlyAllowed(allowed, Close(port, s).trace, from)
  {
    ClosePendingAllowed(port, s, allowed, from);
    CloseOutAllowed(port, ClosePending(port, s), allowed, from);
  }

  /** The events from position `from` on complete commands with these errors only, and no callback throws. */
  predicate OnlyErrors(trace: seq<Event>, from: nat, codes: set<CmdError>) {
    OnlyAllowed(ErrorsOf(codes), trace, from)
  }

  ghost predicate NeverThrows(port: Port) {
    forall n: nat :: port.throws(n).None?
  }

  lemma DispatchLoad(port: Port, s: Link, answered: bool)
    ensures Load(Dispatch(port, s), answered) <= Load(s, answered)
  {
    if s.out != [] {
      AdmitLoad(port, s.(out := s.out[1..]), s.out[0], true, answered);
    }
  }

  lemma FailedLoad(port: Port, s: Link, i: nat, error: CmdError, answered: bool)
    requires i < |s.pending|
    ensures Load(Dispatch(port, Failed(port, s, i, error)), answered) < Load(s, answered)
  {
    var s1 := Removed(s, i);
    SumRemove(s.pending, i, PendingCost(answered));
    SubmitAllLoad(port, s1.(trace := s1.trace + [Done(s.pending[i].ticket.id, Err(error))]), s.pending[i].ticket.cmd.onErr, answered);
    DispatchLoad(port, Failed(port, s, i, error), answered);
  }

  lemma AnsweredLoad(port: Port, s: Link, i: nat)
    requires i < |s.pending|
    ensures Load(Dispatch(port, Answered(port, s, i)), true) < Load(s, true)
  {
    var p := s.pending[i];
    var called := s.(calls := s.calls + 1, trace := s.trace + [Done(p.ticket.id, Ok)]);
    SubmitAllLoad(port, called, p.ticket.cmd.onOk, true);
    SubmitAllExtends(port, called, p.ticket.cmd.onOk);
    SumRemove(CallOk(port, s, p.ticket).pending, i, PendingCost(true));
    DispatchLoad(port, Answered(port, s, i), true);
  }

  /** An expired front makes the tick do something that cannot go on forever. */
  lemma TickLoad(port: Port, s: Link, now: int, answered: bool)
    requires s.pending != [] && s.pending[0].timeout < now
    ensures Load(Tick(port, s, now), answered) < Load(s, answered)
  {
    FailedLoad(port, s, 0, USB_NO_RESPONSE, answered);
    FailedLoad(port, s, 0, PENDING_CONFLICT, answered);
    WriteLoad(port, s.(pending := s.pending[1..]), s.pending[0].ticket, s.pending[0].noSent + 1, answered);
  }

  /** The device answers or rejects some pending command, or the oldest one has expired; or there is none left. */
  predicate Productive(s: Link, e: Stimulus) {
    s.pending == [] ||
    match e
    case Received(code, data) => !Judge(s.pending, code, data).Unmatched?
    case Ticked(now) => s.pending[0].timeout < now
    case _ => false
  }

  predicate NoSubmission(es: seq<Stimulus>) {
    forall i :: 0 <= i < |es| ==> es[i].Received? || es[i].Ticked?
  }

  /** Every productive stimulus lowers the load, and every other one leaves the link as it is. */
  lemma ProductiveLoad(port: Port, s: Link, e: Stimulus)
    requires (e.Received? || e.Ticked?) && NeverThrows(port)
    ensures if s.pending != [] && Productive(s, e) then Load(Step(port, s, e), true) < Load(s, true) else Step(port, s, e) == s
  {
    match e
    case Ticked(now) =>
      if s.pending != [] && s.pending[0].timeout < now {
        TickLoad(port, s, now, true);
      }
    case Received(code, data) =>
      match Judge(s.pending, code, data) {
        case Accept(i) => AnsweredLoad(port, s, i);
        case Reject(i, error) => FailedLoad(port, s, i, error, true);
        case Unmatched =>
      }
  }

  /** How many of the stimuli `more` that follow the run `es` are productive. */
  function Productivity(port: Port, es: seq<Stimulus>, more: seq<Stimulus>): nat {
    if more == [] then 0
    else
      var n := |more| - 1;
      Productivity(port, es, more[..n]) + (if Productive(Run(port, es + more[..n]), more[n]) then 1 else 0)
  }

  lemma {:induction false} ProductivityLoad(port: Port, es: seq<Stimulus>, more: seq<Stimulus>)
    requires NeverThrows(port) && NoSubmission(more)
    ensures var s, s' := Run(port, es), Run(port, es + more);
      s'.pending == [] || Load(s', true) + Productivity(port, es, more) <= Load(s, true)
  {
    if more == [] {
      assert es + more == es;
    } else {
      var n := |more| - 1;
      ProductivityLoad(port, es, more[..n]);
      RunStep(port, es + more[..n], more[n]);
      assert es + more == es + more[..n] + [more[n]];
      ProductiveLoad(port, Run(port, es + more[..n]), more[n]);
    }
  }

  /** With both queues empty, every ticket has been completed once. */
  lemma AllCompleted(port: Port, es: seq<Stimulus>)
    requires Run(port, es).pending == [] && Run(port, es).out == []
    ensures forall k: nat :: k < Run(port, es).next ==> Dones(Run(port, es), k) == 1
  {
    forall k: nat | k < Run(port, es).next ensures Dones(Run(port, es), k) == 1 {
      ExactlyOnce(port, es, k);
    }
  }

  lemma PendingLoad(s: Link, answered: bool)
    requires s.pending != []
    ensures Load(s, answered) > 0
  {
    SumAtLeast(s.pending, 0, PendingCost(answered));
  }

  /**
    Whatever the device answers, and however slowly: without new submissions, and when no ok callback throws, after at most
    `Load` productive stimuli both queues are empty and every command ever submitted has been completed, once.
  */
  lemma DeviceDrains(port: Port, es: seq<Stimulus>, more: seq<Stimulus>)
    requires WritesOk(port) && NeverThrows(port) && NoSubmission(more)
    requires Productivity(port, es, more) >= Load(Run(port, es), true)
    ensures var s' := Run(port, es + more);
      && s'.pending == [] && s'.out == []
      && forall k: nat :: k < s'.next ==> Dones(s', k) == 1
  {
    var s' := Run(port, es + more);
    ProductivityLoad(port, es, more);
    if s'.pending != [] {
      PendingLoad(s', true);
    }
    NoStall(port, es + more);
    AllCompleted(port, es + more);
  }

  function Ticks(nows: seq<int>): seq<Stimulus> {
    seq(|nows|, i requires 0 <= i < |nows| => Ticked(nows[i]))
  }

  /** The run `es` goes on with ticks only, each late enough for the oldest pending command to have expired. */
  predicate SilentAfter(port: Port, es: seq<Stimulus>, nows: seq<int>) {
    forall i :: 0 <= i < |nows| ==>
      var s := Run(port, es + Ticks(nows[..i]));
      s.pending != [] ==> s.pending[0].timeout < nows[i]
  }

  lemma RunTick(port: Port, es: seq<Stimulus>, nows: seq<int>)
    requires nows != []
    ensures Run(port, es + Ticks(nows)) == Tick(port, Run(port, es + Ticks(nows[..|nows| - 1])), nows[|nows| - 1])
  {
    var xs := es + Ticks(nows);
    assert xs[..|xs| - 1] == es + Ticks(nows[..|nows| - 1]);
    assert xs[|xs| - 1] == Ticked(nows[|nows| - 1]);
  }

  lemma {:induction false} SilentErrors(port: Port, es: seq<Stimulus>, nows: seq<int>)
    ensures OnlyErrors(Run(port, es + Ticks(nows)).trace, |Run(port, es).trace|, {0x10, 0x11, 0x13})
  {
    var s := Run(port, es);
    if nows == [] {
      assert es + Ticks([]) == es;
    } else {
      var n := |nows| - 1;
      SilentErrors(port, es, nows[..n]);
      RunTick(port, es, nows);
      TickAllowed(port, Run(port, es + Ticks(nows[..n])), nows[n], ErrorsOf({0x10, 0x11, 0x13}), |s.trace|);
    }
  }

  lemma {:induction false} SilentLoad(port: Port, es: seq<Stimulus>, nows: seq<int>)
    requires SilentAfter(port, es, nows)
    ensures var s, s' := Run(port, es), Run(port, es + Ticks(nows));
      s'.pending == [] || Load(s', false) + |nows| <= Load(s, false)
  {
    if nows == [] {
      assert es + Ticks([]) == es;
    } else {
      var n := |nows| - 1;
      var s1 := Run(port, es + Ticks(nows[..n]));
      assert forall i :: 0 <= i < n ==> nows[..n][..i] == nows[..i];
      SilentLoad(port, es, nows[..n]);
      RunTick(port, es, nows);
      if s1.pending != [] {
        TickLoad(port, s1, nows[n], false);
      }
    }
  }

  /**
    When the device falls silent, at most `Load` expired ticks later both queues are empty and
    every command ever submitted has been completed once; since the silence began, only because the port was closed (0x10),
    because there was no response (0x11), or because of a conflict (0x13).
  */
  lemma SilentLinkDrains(port: Port, es: seq<Stimulus>, nows: seq<int>)
    requires WritesOk(port) && SilentAfter(port, es, nows)
    requires |nows| >= Load(Run(port, es), false)
    ensures var s' := Run(port, es + Ticks(nows));
      && s'.pending == [] && s'.out == []
      && (forall k: nat :: k < s'.next ==> Dones(s', k) == 1)
      && OnlyErrors(s'.trace, |Run(port, es).trace|, {0x10, 0x11, 0x13})
  {
    var s' := Run(port, es + Ticks(nows));
    SilentLoad(port, es, nows);
    if s'.pending != [] {
      PendingLoad(s', false);
    }
    SilentErrors(port, es, nows);
    NoStall(port, es + Ticks(nows));
    AllCompleted(port, es + Ticks(nows));
  }

  /**
    Closing the port completes everything: whatever the error callbacks submit while the queues are being
    emptied, in the end both are empty and every ticket has been completed once, during the closing by the error "port closed" (0x10) only.
  */
  lemma CloseDrains(port: Port, es: seq<Stimulus>)
    ensures var s, s' := Run(port, es), Run(port, es + [Closed]);
      && s'.pending == [] && s'.out == []
      && (forall k: nat :: k < s'.next ==> Dones(s', k) == 1)
      && OnlyErrors(s'.trace, |s.trace|, {0x10})
  {
    var s, s' := Run(port, es), Run(port, es + [Closed]);
    assert (es + [Closed])[..|es|] == es;
    CloseEmpties(port, s);
    CloseAllowed(port, s, ErrorsOf({0x10}), |s.trace|);
    AllCompleted(port, es + [Closed]);
  }
}
