/**
  Exactly-once completion. For one ticket number `k` the ledger counts its entries in the two
  queues, the calls of its callbacks and the attempts to write it; every step of the link keeps
  the ledger, so it holds after every run.
*/
module Ledger {
  import opened Basics
  import opened Commands
  import opened Pipeline

  function InPending(k: nat): PendingCmd -> nat {
    (p: PendingCmd) => if p.ticket.id == k then 1 else 0
  }

  function InOut(k: nat): Ticket -> nat {
    (t: Ticket) => if t.id == k then 1 else 0
  }

  /** Transmissions the pending entries of ticket `k` have been charged with. */
  function Charged(k: nat): PendingCmd -> nat {
    (p: PendingCmd) => if p.ticket.id == k then p.noSent else 0
  }

  function IsDone(k: nat): Event -> nat {
    (e: Event) => if e.Done? && e.id == k then 1 else 0
  }

  function IsPut(k: nat): Event -> nat {
    (e: Event) => if e.Put? && e.id == k then 1 else 0
  }

  /** Number of times ticket `k` has been completed: a callback has been called and has returned. */
  function Dones(s: Link, k: nat): nat {
    Sum(s.trace, IsDone(k))
  }

  /** Number of times a write of ticket `k` has been attempted. */
  function Puts(s: Link, k: nat): nat {
    Sum(s.trace, IsPut(k))
  }

  /** Writes of ticket `k` attempted after one of its callbacks was called. */
  function LatePuts(trace: seq<Event>, k: nat): nat {
    if trace == [] then 0
    else
      var n := |trace| - 1;
      LatePuts(trace[..n], k)
      + (if trace[n].Put? && trace[n].id == k && Sum(trace[..n], IsDone(k)) > 0 then 1 else 0)
  }

  function IsThrew(k: nat): Event -> nat {
    (e: Event) => if e == Threw(k) then 1 else 0
  }

  /** Number of times a callback of ticket `k` has been called, with or without an exception. */
  function Calls(s: Link, k: nat): nat {
    Dones(s, k) + Sum(s.trace, IsThrew(k))
  }

  function Entries(s: Link, k: nat): nat {
    Sum(s.pending, InPending(k)) + Sum(s.out, InOut(k)) + Dones(s, k)
  }

  predicate NoSentBounds(s: Link) {
    forall i :: 0 <= i < |s.pending| ==> 1 <= s.pending[i].noSent <= PENDING_RESEND_MAX
  }

  /** `extra` is how often ticket `k` is counted once too often: 1 while its callback runs before its removal. */
  predicate Kept(s: Link, k: nat, extra: nat) {
    && Entries(s, k) == (if k < s.next then 1 else 0) + extra
    && (k >= s.next ==> extra == 0 && Puts(s, k) == 0)
    && (Dones(s, k) == 0 ==> Sum(s.pending, Charged(k)) == Puts(s, k))
    && Puts(s, k) <= PENDING_RESEND_MAX
    && LatePuts(s.trace, k) == 0
    && NoSentBounds(s)
  }

  lemma TraceAppend(trace: seq<Event>, e: Event, k: nat)
    ensures Sum(trace + [e], IsDone(k)) == Sum(trace, IsDone(k)) + IsDone(k)(e)
    ensures Sum(trace + [e], IsPut(k)) == Sum(trace, IsPut(k)) + IsPut(k)(e)
    ensures LatePuts(trace + [e], k) == LatePuts(trace, k)
      + (if e.Put? && e.id == k && Sum(trace, IsDone(k)) > 0 then 1 else 0)
  {
    SumAppend(trace, e, IsDone(k));
    SumAppend(trace, e, IsPut(k));
    assert (trace + [e])[..|trace|] == trace;
  }

  lemma {:induction false} ChargedZero(pending: seq<PendingCmd>, k: nat)
    requires Sum(pending, InPending(k)) == 0
    ensures Sum(pending, Charged(k)) == 0
  {
    if pending != [] {
      ChargedZero(pending[1..], k);
    }
  }

  /** A ticket held by nobody, about to be written for the `noSent`-th time or queued. */
  predicate Loose(s: Link, k: nat, noSent: nat) {
    && k < s.next
    && Entries(s, k) == 0
    && Puts(s, k) == noSent - 1
    && LatePuts(s.trace, k) == 0
    && NoSentBounds(s)
  }

  lemma {:induction false} SubmitKept(port: Port, s: Link, c: Cmd, k: nat, extra: nat)
    requires Kept(s, k, extra)
    ensures Kept(Submit(port, s, c), k, extra)
    decreases c, 3
  {
    AdmitKept(port, Issued(s, c), Ticket(s.next, c), false, k, extra);
  }

  lemma {:induction false} AdmitKept(port: Port, s: Link, t: Ticket, bypass: bool, k: nat, extra: nat)
    requires if t.id == k then extra == 0 && Loose(s, k, 1) else Kept(s, k, extra)
    ensures Kept(Admit(port, s, t, bypass), k, extra)
    decreases t.cmd, 2
  {
    if Blocked(s, t.cmd) || (s.out != [] && !bypass) {
      SumAppend(s.out, t, InOut(k));
      if t.id == k {
        ChargedZero(s.pending, k);
      }
    } else {
      WriteKept(port, s, t, 1, k, extra);
    }
  }

  lemma {:induction false} WriteKept(port: Port, s: Link, t: Ticket, noSent: nat, k: nat, extra: nat)
    requires 1 <= noSent <= PENDING_RESEND_MAX
    requires if t.id == k then extra == 0 && Loose(s, k, noSent) else Kept(s, k, extra)
    ensures Kept(Write(port, s, t, noSent), k, extra)
    decreases t.cmd, 1
  {
    var ok := port.writeOk(s.writes);
    var put := s.(writes := s.writes + 1, trace := s.trace + [Attempt(t, noSent, ok)]);
    TraceAppend(s.trace, Attempt(t, noSent, ok), k);
    if ok {
      WrittenKept(s, t, port.clock(s.writes) + PENDING_TIMEOUT, noSent, k, extra);
    } else {
      CallErrorKept(port, put, t, SERIAL_PORT_CLOSED, k, extra);
    }
  }

  /** A ticket that has been written is accounted for by its place in the buffer and the attempts it is charged with. */
  lemma WrittenKept(s: Link, t: Ticket, timeout: int, noSent: nat, k: nat, extra: nat)
    requires 1 <= noSent <= PENDING_RESEND_MAX
    requires if t.id == k then extra == 0 && Loose(s, k, noSent) else Kept(s, k, extra)
    ensures Kept(s.(pending := s.pending + [PendingCmd(t, timeout, noSent)], writes := s.writes + 1,
                    trace := s.trace + [Attempt(t, noSent, true)]), k, extra)
  {
    var p := PendingCmd(t, timeout, noSent);
    TraceAppend(s.trace, Attempt(t, noSent, true), k);
    SumAppend(s.pending, p, InPending(k));
    SumAppend(s.pending, p, Charged(k));
    if t.id == k {
      ChargedZero(s.pending, k);
    }
  }

  /** Calling the error callback of a ticket that has just left the queues accounts for it again. */
  lemma {:induction false} CallErrorKept(port: Port, s: Link, t: Ticket, error: CmdError, k: nat, extra: nat)
    requires NoSentBounds(s) && LatePuts(s.trace, k) == 0 && Puts(s, k) <= PENDING_RESEND_MAX
    requires t.id == k ==> k < s.next && Entries(s, k) == extra
    requires t.id != k ==> Kept(s, k, extra)
    ensures Kept(CallError(port, s, t, error), k, extra)
    decreases t.cmd, 0
  {
    TraceAppend(s.trace, Done(t.id, Err(error)), k);
    SubmitAllKept(port, s.(trace := s.trace + [Done(t.id, Err(error))]), t.cmd.onErr, k, extra);
  }

  lemma {:induction false} SubmitAllKept(port: Port, s: Link, cs: seq<Cmd>, k: nat, extra: nat)
    requires Kept(s, k, extra)
    ensures Kept(SubmitAll(port, s, cs), k, extra)
    decreases cs
  {
    if cs != [] {
      SubmitKept(port, s, cs[0], k, extra);
      SubmitAllKept(port, Submit(port, s, cs[0]), cs[1..], k, extra);
    }
  }

  lemma RemovedCounts(s: Link, i: nat, k: nat)
    requires i < |s.pending|
    ensures Entries(Removed(s, i), k) + InPending(k)(s.pending[i]) == Entries(s, k)
    ensures Sum(Removed(s, i).pending, Charged(k)) + Charged(k)(s.pending[i]) == Sum(s.pending, Charged(k))
    ensures NoSentBounds(s) ==> NoSentBounds(Removed(s, i))
  {
    SumRemove(s.pending, i, InPending(k));
    SumRemove(s.pending, i, Charged(k));
  }

  /** An entry of ticket `k` in a queue means that no callback has been called, and fixes the number of attempts. */
  lemma PendingTicket(s: Link, i: nat, k: nat)
    requires Kept(s, k, 0) && i < |s.pending| && s.pending[i].ticket.id == k
    ensures k < s.next && Entries(Removed(s, i), k) == 0
    ensures Puts(s, k) == s.pending[i].noSent
  {
    RemovedCounts(s, i, k);
    ChargedZero(Removed(s, i).pending, k);
  }

  lemma DispatchKept(port: Port, s: Link, k: nat)
    requires Kept(s, k, 0)
    ensures Kept(Dispatch(port, s), k, 0)
  {
    if s.out != [] {
      var t := s.out[0];
      var s1 := s.(out := s.out[1..]);
      if t.id == k {
        assert Entries(s1, k) == 0;
        ChargedZero(s.pending, k);
      }
      AdmitKept(port, s1, t, true, k, 0);
    }
  }

  lemma FailedKept(port: Port, s: Link, i: nat, error: CmdError, k: nat)
    requires Kept(s, k, 0) && i < |s.pending|
    ensures Kept(Failed(port, s, i, error), k, 0)
  {
    RemovedCounts(s, i, k);
    CallErrorKept(port, Removed(s, i), s.pending[i].ticket, error, k, 0);
  }

  /** A callback called while its command is still at position `i` counts it twice until the command is removed. */
  lemma InPlaceKept(port: Port, s: Link, i: nat, outcome: Outcome, cs: seq<Cmd>, k: nat)
    requires Kept(s, k, 0) && i < |s.pending|
    ensures var called := s.(trace := s.trace + [Done(s.pending[i].ticket.id, outcome)]);
      Kept(Removed(SubmitAll(port, called, cs), i), k, 0)
  {
    var t := s.pending[i].ticket;
    var called := s.(trace := s.trace + [Done(t.id, outcome)]);
    var s' := SubmitAll(port, called, cs);
    TraceAppend(s.trace, Done(t.id, outcome), k);
    if t.id == k {
      PendingTicket(s, i, k);
    }
    SubmitAllKept(port, called, cs, k, if t.id == k then 1 else 0);
    SubmitAllExtends(port, called, cs);
    assert s'.pending[i] == s.pending[i];
    RemovedCounts(s', i, k);
    if t.id == k {
      DonesGrow(called.trace, s'.trace, k);
    }
  }

  lemma AnsweredKept(port: Port, s: Link, i: nat, k: nat)
    requires Kept(s, k, 0) && i < |s.pending|
    ensures Kept(Answered(port, s, i), k, 0)
  {
    InPlaceKept(port, s.(calls := s.calls + 1), i, Ok, s.pending[i].ticket.cmd.onOk, k);
  }

  /** A callback that throws leaves its command where it was. */
  lemma AcceptedKept(port: Port, s: Link, i: nat, k: nat)
    requires Kept(s, k, 0) && i < |s.pending|
    ensures Kept(Accepted(port, s, i), k, 0)
  {
    match port.throws(s.calls)
    case None =>
      AnsweredKept(port, s, i, k);
      DispatchKept(port, Answered(port, s, i), k);
    case Some(n) =>
      var t := s.pending[i].ticket;
      TraceAppend(s.trace, Threw(t.id), k);
      SubmitAllKept(port, s.(calls := s.calls + 1, trace := s.trace + [Threw(t.id)]), FirstOf(t.cmd.onOk, n), k, 0);
  }

  lemma DonesGrow(before: seq<Event>, after: seq<Event>, k: nat)
    requires before <= after
    ensures Sum(before, IsDone(k)) <= Sum(after, IsDone(k))
  {
    assert after == before + after[|before|..];
    SumConcat(before, after[|before|..], IsDone(k));
  }

  lemma ResendKept(port: Port, s: Link, k: nat)
    requires Kept(s, k, 0) && s.pending != [] && s.pending[0].noSent < PENDING_RESEND_MAX
    ensures Kept(Resend(port, s), k, 0)
  {
    var p := s.pending[0];
    if ConflictWithOut(s.out, p.ticket.cmd) {
      FailedKept(port, s, 0, PENDING_CONFLICT, k);
      DispatchKept(port, Failed(port, s, 0, PENDING_CONFLICT), k);
    } else {
      RewrittenKept(port, s, k);
    }
  }

  /** The front is taken out and written once more. */
  lemma RewrittenKept(port: Port, s: Link, k: nat)
    requires Kept(s, k, 0) && s.pending != [] && s.pending[0].noSent < PENDING_RESEND_MAX
    ensures Kept(Write(port, s.(pending := s.pending[1..]), s.pending[0].ticket, s.pending[0].noSent + 1), k, 0)
  {
    FrontTaken(s, k);
    WriteKept(port, s.(pending := s.pending[1..]), s.pending[0].ticket, s.pending[0].noSent + 1, k, 0);
  }

  /** Without its front, the buffer keeps the ledger of every other ticket, and the ticket of the front is loose. */
  lemma FrontTaken(s: Link, k: nat)
    requires Kept(s, k, 0) && s.pending != []
    ensures var p, rest := s.pending[0], s.(pending := s.pending[1..]);
      if p.ticket.id == k then Loose(rest, k, p.noSent + 1) else Kept(rest, k, 0)
  {
    RemovedCounts(s, 0, k);
    assert Removed(s, 0).pending == s.pending[1..];
    if s.pending[0].ticket.id == k {
      PendingTicket(s, 0, k);
    }
  }

  lemma SettleKept(port: Port, s: Link, v: Verdict, k: nat)
    requires Kept(s, k, 0)
    ensures Kept(Settle(port, s, v), k, 0)
  {
    match v
    case Accept(i) =>
      if i < |s.pending| {
        AcceptedKept(port, s, i, k);
      }
    case Reject(i, error) =>
      if i < |s.pending| {
        FailedKept(port, s, i, error, k);
        DispatchKept(port, Failed(port, s, i, error), k);
      }
    case Unmatched =>
  }

  lemma TickKept(port: Port, s: Link, now: int, k: nat)
    requires Kept(s, k, 0)
    ensures Kept(Tick(port, s, now), k, 0)
  {
    if s.pending != [] {
      if s.pending[0].noSent >= PENDING_RESEND_MAX {
        FailedKept(port, s, 0, USB_NO_RESPONSE, k);
        DispatchKept(port, Failed(port, s, 0, USB_NO_RESPONSE), k);
      } else {
        ResendKept(port, s, k);
      }
    }
  }

  lemma {:induction false} ClosePendingKept(port: Port, s: Link, k: nat)
    requires Kept(s, k, 0)
    ensures Kept(ClosePending(port, s), k, 0)
    decreases Load(s, false)
  {
    if s.pending != [] {
      InPlaceKept(port, s, 0, Err(SERIAL_PORT_CLOSED), s.pending[0].ticket.cmd.onErr, k);
      ClosePendingLoad(port, s);
      ClosePendingKept(port, ClosePendingFront(port, s), k);
    }
  }

  lemma CloseOutFrontKept(port: Port, s: Link, k: nat)
    requires Kept(s, k, 0) && s.out != []
    ensures Kept(CloseOutFront(port, s), k, 0)
  {
    var t := s.out[0];
    var called := s.(trace := s.trace + [Done(t.id, Err(SERIAL_PORT_CLOSED))]);
    TraceAppend(s.trace, Done(t.id, Err(SERIAL_PORT_CLOSED)), k);
    SubmitAllKept(port, called, t.cmd.onErr, k, if t.id == k then 1 else 0);
    SubmitAllExtends(port, called, t.cmd.onErr);
    if t.id == k {
      DonesGrow(called.trace, CallError(port, s, t, SERIAL_PORT_CLOSED).trace, k);
    }
    FrontPopped(CallError(port, s, t, SERIAL_PORT_CLOSED), t, k);
  }

  /** A command of the backlog that has been called is counted once too often until it is popped. */
  lemma FrontPopped(s: Link, t: Ticket, k: nat)
    requires s.out != [] && s.out[0] == t
    requires Kept(s, k, if t.id == k then 1 else 0) && (t.id == k ==> Dones(s, k) > 0)
    ensures Kept(s.(out := s.out[1..]), k, 0)
  {
  }

  lemma {:induction false} CloseOutKept(port: Port, s: Link, k: nat)
    requires Kept(s, k, 0)
    ensures Kept(CloseOut(port, s), k, 0)
    decreases Load(s, false)
  {
    if s.out != [] {
      CloseOutFrontKept(port, s, k);
      CloseOutLoad(port, s);
      CloseOutKept(port, CloseOutFront(port, s), k);
    }
  }

  lemma StepKept(port: Port, s: Link, e: Stimulus, k: nat)
    requires Kept(s, k, 0)
    ensures Kept(Step(port, s, e), k, 0)
  {
    match e
    case Submitted(c) => SubmitKept(port, s, c, k, 0);
    case Received(code, data) => SettleKept(port, s, Judge(s.pending, code, data), k);
    case Ticked(now) => TickKept(port, s, now, k);
    case Closed =>
      ClosePendingKept(port, s, k);
      CloseOutKept(port, ClosePending(port, s), k);
  }

  lemma {:induction false} RunKept(port: Port, es: seq<Stimulus>, k: nat)
    ensures Kept(Run(port, es), k, 0)
  {
    if es != [] {
      RunKept(port, es[..|es| - 1], k);
      StepKept(port, Run(port, es[..|es| - 1]), es[|es| - 1], k);
    }
  }

  /**
    After any run, every ticket ever submitted is in exactly one place: waiting for its response,
    in the backlog, or completed, by exactly one call of one of its callbacks that returned.
  */
  lemma ExactlyOnce(port: Port, es: seq<Stimulus>, k: nat)
    ensures var s := Run(port, es);
      Sum(s.pending, InPending(k)) + Sum(s.out, InOut(k)) + Dones(s, k) == if k < s.next then 1 else 0
  {
    RunKept(port, es, k);
  }

  /** No command is written more than three times, and a pending one exactly `noSent` times. */
  lemma RetryBound(port: Port, es: seq<Stimulus>, k: nat)
    ensures var s := Run(port, es);
      && Puts(s, k) <= 3
      && (forall i :: 0 <= i < |s.pending| && s.pending[i].ticket.id == k ==> Puts(s, k) == s.pending[i].noSent)
      && (forall i :: 0 <= i < |s.out| && s.out[i].id == k ==> Puts(s, k) == 0)
  {
    var s := Run(port, es);
    RunKept(port, es, k);
    forall i | 0 <= i < |s.pending| && s.pending[i].ticket.id == k
      ensures Puts(s, k) == s.pending[i].noSent
    {
      PendingTicket(s, i, k);
    }
    forall i | 0 <= i < |s.out| && s.out[i].id == k
      ensures Puts(s, k) == 0
    {
      SumAtLeast(s.out, i, InOut(k));
      ChargedZero(s.pending, k);
    }
  }

  lemma {:induction false} NoLatePut(trace: seq<Event>, i: nat, j: nat)
    requires i < j < |trace| && trace[i].Done? && trace[j].Put? && trace[i].id == trace[j].id
    ensures LatePuts(trace, trace[j].id) > 0
  {
    var n := |trace| - 1;
    if j < n {
      NoLatePut(trace[..n], i, j);
    } else {
      SumAtLeast(trace[..n], i, IsDone(trace[j].id));
    }
  }

  /** Once a callback of a command has been called, the command is never written again. */
  lemma SilentAfterCompletion(port: Port, es: seq<Stimulus>, i: nat, j: nat)
    requires i < j < |Run(port, es).trace|
    requires Run(port, es).trace[i].Done? && Run(port, es).trace[j].Put?
    ensures Run(port, es).trace[i].id != Run(port, es).trace[j].id
  {
    var s := Run(port, es);
    RunKept(port, es, s.trace[j].id);
    if s.trace[i].id == s.trace[j].id {
      NoLatePut(s.trace, i, j);
    }
  }

  lemma RunStep(port: Port, es: seq<Stimulus>, e: Stimulus)
    ensures Run(port, es + [e]) == Step(port, Run(port, es), e)
  {
    assert (es + [e])[..|es|] == es;
  }

  lemma FourSteps(port: Port, e1: Stimulus, e2: Stimulus, e3: Stimulus, e4: Stimulus)
    ensures Run(port, [e1, e2, e3, e4]) == Step(port, Step(port, Step(port, Step(port, FRESH, e1), e2), e3), e4)
  {
    RunStep(port, [], e1);
    RunStep(port, [e1], e2);
    RunStep(port, [e1, e2], e3);
    RunStep(port, [e1, e2, e3], e4);
    assert [] + [e1] == [e1] && [e1] + [e2] == [e1, e2];
    assert [e1, e2] + [e3] == [e1, e2, e3] && [e1, e2, e3] + [e4] == [e1, e2, e3, e4];
  }
}
