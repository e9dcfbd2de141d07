/** In which order commands are written for the first time. */
module SendOrder {
  import opened Basics
  import opened Commands
  import opened Pipeline
  import opened PendingQueue
  import opened Drain

  /** The tickets in the order in which their first write was attempted. */
  function FirstPuts(trace: seq<Event>): seq<nat> {
    if trace == [] then []
    else
      var n := |trace| - 1;
      FirstPuts(trace[..n]) + (if trace[n].Put? && trace[n].noSent == 1 then [trace[n].id] else [])
  }

  function Ids(out: seq<Ticket>): seq<nat> {
    seq(|out|, i requires 0 <= i < |out| => out[i].id)
  }

  /** The tickets from `a` up to `b`, in the order of their submission. */
  function Range(a: nat, b: nat): seq<nat> {
    if a < b then seq(b - a, i requires 0 <= i => a + i) else []
  }

  lemma RangeConcat(xs: seq<nat>, a: nat, b: nat, c: nat)
    requires a <= b <= c
    ensures xs + Range(a, b) + Range(b, c) == xs + Range(a, c)
  {
  }

  lemma RangeUnion(a: nat, b: nat, c: nat)
    requires a <= b <= c
    ensures multiset(Range(a, b)) + multiset(Range(b, c)) == multiset(Range(a, c))
  {
    assert Range(a, b) + Range(b, c) == Range(a, c);
  }

  /** Everything written so far, and then the backlog. */
  function Order(s: Link): seq<nat> {
    FirstPuts(s.trace) + Ids(s.out)
  }

  lemma FirstPutsAppend(trace: seq<Event>, e: Event)
    ensures FirstPuts(trace + [e]) == FirstPuts(trace) + (if e.Put? && e.noSent == 1 then [e.id] else [])
  {
    assert (trace + [e])[..|trace|] == trace;
  }

  lemma {:induction false} SubmitOrder(port: Port, s: Link, c: Cmd)
    ensures Order(Submit(port, s, c)) == Order(s) + Range(s.next, Submit(port, s, c).next)
    ensures s.next < Submit(port, s, c).next
    decreases c, 2
  {
    var t := Ticket(s.next, c);
    var s1 := Issued(s, c);
    if Blocked(s1, c) || s1.out != [] {
      assert Ids(s.out + [t]) == Ids(s.out) + [t.id];
    } else {
      WriteOrder(port, s1, t, 1);
      WriteExtends(port, s1, t, 1);
    }
  }

  /** A write puts its ticket behind those written before, and what its error callback submits at the end. */
  lemma {:induction false} WriteOrder(port: Port, s: Link, t: Ticket, noSent: nat)
    ensures var s' := Write(port, s, t, noSent);
      Order(s') == FirstPuts(s.trace) + (if noSent == 1 then [t.id] else []) + Ids(s.out) + Range(s.next, s'.next)
    decreases t.cmd, 1
  {
    var ok := port.writeOk(s.writes);
    var put := s.(writes := s.writes + 1, trace := s.trace + [Attempt(t, noSent, ok)]);
    FirstPutsAppend(s.trace, Attempt(t, noSent, ok));
    if !ok {
      CallErrorOrder(port, put, t, SERIAL_PORT_CLOSED);
    }
  }

  lemma {:induction false} CallErrorOrder(port: Port, s: Link, t: Ticket, error: CmdError)
    ensures var s' := CallError(port, s, t, error);
      Order(s') == Order(s) + Range(s.next, s'.next)
    decreases t.cmd, 0
  {
    FirstPutsAppend(s.trace, Done(t.id, Err(error)));
    SubmitAllOrder(port, s.(trace := s.trace + [Done(t.id, Err(error))]), t.cmd.onErr);
  }

  lemma {:induction false} SubmitAllOrder(port: Port, s: Link, cs: seq<Cmd>)
    ensures Order(SubmitAll(port, s, cs)) == Order(s) + Range(s.next, SubmitAll(port, s, cs).next)
    decreases cs
  {
    if cs != [] {
      var s1 := Submit(port, s, cs[0]);
      SubmitOrder(port, s, cs[0]);
      SubmitAllOrder(port, s1, cs[1..]);
      SubmitAllExtends(port, s1, cs[1..]);
      RangeConcat(Order(s), s.next, s1.next, SubmitAll(port, s, cs).next);
    }
  }

  /** The state in which the step is about to take the next command from the backlog, if it does. */
  function BeforeDispatch(port: Port, s: Link, e: Stimulus): Option<Link> {
    match e
    case Submitted(_) => None
    case Closed => None
    case Received(code, data) =>
      (match Judge(s.pending, code, data)
       case Accept(i) => if i < |s.pending| && port.throws(s.calls).None? then Some(Answered(port, s, i)) else None
       case Reject(i, error) => if i < |s.pending| then Some(Failed(port, s, i, error)) else None
       case Unmatched => None)
    case Ticked(now) =>
      if s.pending == [] || s.pending[0].timeout >= now then None
      else if s.pending[0].noSent >= PENDING_RESEND_MAX then Some(Failed(port, s, 0, USB_NO_RESPONSE))
      else if ConflictWithOut(s.out, s.pending[0].ticket.cmd) then Some(Failed(port, s, 0, PENDING_CONFLICT))
      else None
  }

  /** The next command of the backlog cannot be written and goes back behind the others. */
  predicate Overtakes(port: Port, s: Link, e: Stimulus) {
    match BeforeDispatch(port, s, e)
    case None => false
    case Some(m) => |m.out| >= 2 && Blocked(m, m.out[0].cmd)
  }

  /** A front that is moved behind the rest of the backlog. */
  function Rotated(m: Link): seq<nat>
    requires m.out != []
  {
    FirstPuts(m.trace) + Ids(m.out[1..]) + [m.out[0].id]
  }

  /** A callback extends the order by what it submits, whatever is recorded about its call. */
  lemma CallbackOrder(port: Port, s: Link, e: Event, calls: nat, cs: seq<Cmd>)
    requires !e.Put?
    ensures var m := SubmitAll(port, s.(calls := calls, trace := s.trace + [e]), cs);
      Order(m) == Order(s) + Range(s.next, m.next) && s.next <= m.next
  {
    var called := s.(calls := calls, trace := s.trace + [e]);
    FirstPutsAppend(s.trace, e);
    assert Order(called) == Order(s);
    SubmitAllOrder(port, called, cs);
    SubmitAllExtends(port, called, cs);
  }

  lemma AnsweredOrder(port: Port, s: Link, i: nat)
    requires i < |s.pending|
    ensures var m := Answered(port, s, i);
      Order(m) == Order(s) + Range(s.next, m.next) && s.next <= m.next
  {
    var t := s.pending[i].ticket;
    CallbackOrder(port, s, Done(t.id, Ok), s.calls + 1, t.cmd.onOk);
    assert Order(Answered(port, s, i)) == Order(CallOk(port, s, t));
  }

  lemma FailedOrder(port: Port, s: Link, i: nat, error: CmdError)
    requires i < |s.pending|
    ensures var m := Failed(port, s, i, error);
      Order(m) == Order(s) + Range(s.next, m.next) && s.next <= m.next
  {
    var r, t := Removed(s, i), s.pending[i].ticket;
    CallbackOrder(port, r, Done(t.id, Err(error)), r.calls, t.cmd.onErr);
    assert r.(calls := r.calls, trace := r.trace + [Done(t.id, Err(error))]) == r.(trace := r.trace + [Done(t.id, Err(error))]);
  }

  lemma BeforeDispatchOrder(port: Port, s: Link, e: Stimulus)
    requires BeforeDispatch(port, s, e).Some?
    ensures var m := BeforeDispatch(port, s, e).value;
      Order(m) == Order(s) + Range(s.next, m.next) && s.next <= m.next && Step(port, s, e) == Dispatch(port, m)
  {
    match e
    case Received(code, data) =>
      match Judge(s.pending, code, data) {
        case Accept(i) => AnsweredOrder(port, s, i);
        case Reject(i, error) => FailedOrder(port, s, i, error);
      }
    case Ticked(_) =>
      FailedOrder(port, s, 0, USB_NO_RESPONSE);
      FailedOrder(port, s, 0, PENDING_CONFLICT);
  }

  lemma DispatchOrder(port: Port, m: Link)
    ensures var s' := Dispatch(port, m);
      && m.next <= s'.next
      && (if |m.out| >= 2 && Blocked(m, m.out[0].cmd)
          then s'.next == m.next && Order(s') == Rotated(m)
          else Order(s') == Order(m) + Range(m.next, s'.next))
  {
    if m.out != [] {
      var t, rest := m.out[0], m.out[1..];
      assert Ids(m.out) == [t.id] + Ids(rest);
      if Blocked(m, t.cmd) {
        assert Ids(rest + [t]) == Ids(rest) + [t.id];
      } else {
        WriteOrder(port, m.(out := rest), t, 1);
        WriteExtends(port, m.(out := rest), t, 1);
      }
    }
  }

  lemma RewrittenOrder(port: Port, s: Link)
    requires s.pending != [] && s.pending[0].noSent >= 1
    ensures var s' := Write(port, s.(pending := s.pending[1..]), s.pending[0].ticket, s.pending[0].noSent + 1);
      Order(s') == Order(s) + Range(s.next, s'.next) && s.next <= s'.next
  {
    var p, rest := s.pending[0], s.(pending := s.pending[1..]);
    WriteOrder(port, rest, p.ticket, p.noSent + 1);
    WriteExtends(port, rest, p.ticket, p.noSent + 1);
    assert FirstPuts(s.trace) + [] + Ids(s.out) == Order(s);
  }

  lemma UndispatchedOrder(port: Port, s: Link, e: Stimulus)
    requires !e.Closed? && BeforeDispatch(port, s, e).None?
    requires forall i :: 0 <= i < |s.pending| ==> s.pending[i].noSent >= 1
    ensures var s' := Step(port, s, e);
      Order(s') == Order(s) + Range(s.next, s'.next) && s.next <= s'.next
  {
    match e
    case Submitted(c) => SubmitOrder(port, s, c);
    case Ticked(now) =>
      if s.pending != [] {
        RewrittenOrder(port, s);
      }
    case Received(code, data) =>
      if Judge(s.pending, code, data).Accept? {
        var t, n := s.pending[Judge(s.pending, code, data).i].ticket, port.throws(s.calls).value;
        CallbackOrder(port, s, Threw(t.id), s.calls + 1, FirstOf(t.cmd.onOk, n));
      }
  }

  /** What any step between connecting and closing does to the order: extend it by the new tickets, or rotate the backlog. */
  lemma StepOrder(port: Port, s: Link, e: Stimulus)
    requires !e.Closed?
    requires forall i :: 0 <= i < |s.pending| ==> s.pending[i].noSent >= 1
    ensures var s' := Step(port, s, e);
      && s.next <= s'.next
      && (if Overtakes(port, s, e)
          then Order(s') == Rotated(BeforeDispatch(port, s, e).value)
               && Order(BeforeDispatch(port, s, e).value) == Order(s) + Range(s.next, s'.next)
          else Order(s') == Order(s) + Range(s.next, s'.next))
  {
    if BeforeDispatch(port, s, e).Some? {
      var m := BeforeDispatch(port, s, e).value;
      BeforeDispatchOrder(port, s, e);
      DispatchOrder(port, m);
      RangeConcat(Order(s), s.next, m.next, Dispatch(port, m).next);
    } else {
      UndispatchedOrder(port, s, e);
    }
  }

  /** Commands are written in the order of their submission, and the backlog is queued in that order. */
  predicate InOrder(s: Link) {
    Order(s) == Range(0, s.next)
  }

  /** A step keeps the order of submission if and only if it does not move a blocked command behind another one. */
  lemma OrderKeptIff(port: Port, s: Link, e: Stimulus)
    requires InOrder(s) && !e.Closed?
    requires forall i :: 0 <= i < |s.pending| ==> s.pending[i].noSent >= 1
    ensures InOrder(Step(port, s, e)) <==> !Overtakes(port, s, e)
  {
    var s' := Step(port, s, e);
    StepOrder(port, s, e);
    RangeConcat([], 0, s.next, s'.next);
    if Overtakes(port, s, e) {
      var m := BeforeDispatch(port, s, e).value;
      var n := |FirstPuts(m.trace)|;
      assert Order(m)[n] == m.out[0].id && Rotated(m)[n] == m.out[1].id;
      assert Order(m)[n + 1] == m.out[1].id;
    }
  }

  predicate NeverClosed(es: seq<Stimulus>) {
    forall i :: 0 <= i < |es| ==> !es[i].Closed?
  }

  predicate NeverOvertakes(port: Port, es: seq<Stimulus>) {
    forall i :: 0 <= i < |es| ==> !Overtakes(port, Run(port, es[..i]), es[i])
  }

  /** In every state the run goes through. */
  predicate AlwaysInOrder(port: Port, es: seq<Stimulus>) {
    forall i :: 0 <= i <= |es| ==> InOrder(Run(port, es[..i]))
  }

  lemma AlwaysInOrderSnoc(port: Port, es: seq<Stimulus>)
    requires es != []
    ensures AlwaysInOrder(port, es) <==> AlwaysInOrder(port, es[..|es| - 1]) && InOrder(Run(port, es))
  {
    var n := |es| - 1;
    assert forall i :: 0 <= i <= n ==> es[..n][..i] == es[..i];
    assert es[..n + 1] == es;
    if AlwaysInOrder(port, es) {
      forall i | 0 <= i <= n ensures InOrder(Run(port, es[..n][..i])) {
        assert InOrder(Run(port, es[..i]));
      }
    }
  }

  lemma NeverOvertakesSnoc(port: Port, es: seq<Stimulus>)
    requires es != []
    ensures var n := |es| - 1;
      NeverOvertakes(port, es) <==> NeverOvertakes(port, es[..n]) && !Overtakes(port, Run(port, es[..n]), es[n])
  {
    var n := |es| - 1;
    assert forall i :: 0 <= i < n ==> es[..n][..i] == es[..i];
    if NeverOvertakes(port, es) {
      forall i | 0 <= i < n ensures !Overtakes(port, Run(port, es[..n][..i]), es[..n][i]) {
        assert !Overtakes(port, Run(port, es[..i]), es[i]);
      }
    }
  }

  /** Before closing, a run goes through states in order only, if and only if it never moves a blocked command behind another one. */
  lemma {:induction false} AlwaysInOrderIff(port: Port, es: seq<Stimulus>)
    requires NeverClosed(es)
    ensures AlwaysInOrder(port, es) <==> NeverOvertakes(port, es)
  {
    if es == [] {
      assert es[..0] == [];
    } else {
      var n := |es| - 1;
      AlwaysInOrderIff(port, es[..n]);
      AlwaysInOrderSnoc(port, es);
      NeverOvertakesSnoc(port, es);
      if AlwaysInOrder(port, es[..n]) {
        assert InOrder(Run(port, es[..n][..n])) && es[..n][..n] == es[..n];
        Ledger.RunKept(port, es[..n], 0);
        OrderKeptIff(port, Run(port, es[..n]), es[n]);
      }
    }
  }

  lemma RunInOrder(port: Port, es: seq<Stimulus>)
    requires NeverClosed(es) && NeverOvertakes(port, es)
    ensures InOrder(Run(port, es))
  {
    AlwaysInOrderIff(port, es);
    assert InOrder(Run(port, es[..|es|])) && es[..|es|] == es;
  }

  lemma StepComplete(port: Port, s: Link, e: Stimulus)
    requires !e.Closed?
    requires forall i :: 0 <= i < |s.pending| ==> s.pending[i].noSent >= 1
    ensures var s' := Step(port, s, e);
      s.next <= s'.next && multiset(Order(s')) == multiset(Order(s)) + multiset(Range(s.next, s'.next))
  {
    StepOrder(port, s, e);
    if Overtakes(port, s, e) {
      RotatedSame(BeforeDispatch(port, s, e).value);
    }
  }

  lemma RotatedSame(m: Link)
    requires m.out != []
    ensures multiset(Rotated(m)) == multiset(Order(m))
  {
    var x, rest := [m.out[0].id], Ids(m.out[1..]);
    assert Ids(m.out) == x + rest;
  }

  /** Without any condition on the order, nothing is lost and nothing is duplicated. */
  lemma {:induction false} RunOrderComplete(port: Port, es: seq<Stimulus>)
    requires NeverClosed(es)
    ensures multiset(Order(Run(port, es))) == multiset(Range(0, Run(port, es).next))
  {
    if es != [] {
      var n := |es| - 1;
      var s := Run(port, es[..n]);
      RunOrderComplete(port, es[..n]);
      assert forall i :: 0 <= i < |s.pending| ==> s.pending[i].noSent >= 1 by {
        Ledger.RunKept(port, es[..n], 0);
      }
      StepComplete(port, s, es[n]);
      RangeUnion(0, s.next, Run(port, es).next);
    }
  }

  /** No two commands that are alive when the backlog is served conflict, and no error callback submits more than two commands. */
  predicate Calm(port: Port, s: Link, e: Stimulus) {
    match BeforeDispatch(port, s, e)
    case None => true
    case Some(m) =>
      && (m.out != [] ==> !ConflictWithPending(m.pending, m.out[0].cmd))
      && (forall i :: 0 <= i < |s.pending| ==> |s.pending[i].ticket.cmd.onErr| <= 2)
  }

  lemma {:induction false} SubmitAllSize(port: Port, s: Link, cs: seq<Cmd>)
    requires WritesOk(port)
    ensures var s' := SubmitAll(port, s, cs); |s'.pending| + |s'.out| == |s.pending| + |s.out| + |cs|
    decreases cs
  {
    if cs != [] {
      var s1 := Issued(s, cs[0]);
      assert Submit(port, s, cs[0]) == Admit(port, s1, Ticket(s.next, cs[0]), false);
      assert |Write(port, s1, Ticket(s.next, cs[0]), 1).pending| == |s.pending| + 1;
      SubmitAllSize(port, Submit(port, s, cs[0]), cs[1..]);
    }
  }

  /** When error callbacks submit at most two commands, only a conflict can hold the front of the backlog back. */
  lemma CalmDoesNotOvertake(port: Port, s: Link, e: Stimulus)
    requires WritesOk(port) && Tidy(port, s) && Calm(port, s, e)
    ensures !Overtakes(port, s, e)
  {
    if BeforeDispatch(port, s, e).Some? {
      var m := BeforeDispatch(port, s, e).value;
      var i := if e.Received? then Judge(s.pending, e.code, e.data).i else 0;
      if e.Received? && Judge(s.pending, e.code, e.data).Accept? {
        AnsweredTidy(port, s, i);
      } else {
        var error :=
          if e.Received? then Judge(s.pending, e.code, e.data).error
          else if s.pending[0].noSent >= PENDING_RESEND_MAX then USB_NO_RESPONSE else PENDING_CONFLICT;
        var called := Removed(s, i).(trace := s.trace + [Done(s.pending[i].ticket.id, Err(error))]);
        assert m == SubmitAll(port, called, s.pending[i].ticket.cmd.onErr);
        SubmitAllSize(port, called, s.pending[i].ticket.cmd.onErr);
        SubmitAllExtends(port, called, s.pending[i].ticket.cmd.onErr);
      }
    }
  }

  /**
    Between connecting and closing, the commands written so far followed by the backlog are exactly the commands
    submitted, in the order of submission, as long as writes succeed, no live commands conflict and error callbacks
    submit at most two commands.
  */
  lemma FirstTransmissionOrder(port: Port, es: seq<Stimulus>)
    requires WritesOk(port) && NeverClosed(es)
    requires forall i :: 0 <= i < |es| ==> Calm(port, Run(port, es[..i]), es[i])
    ensures InOrder(Run(port, es))
  {
    forall i | 0 <= i < |es| ensures !Overtakes(port, Run(port, es[..i]), es[i]) {
      RunTidy(port, es[..i]);
      CalmDoesNotOvertake(port, Run(port, es[..i]), es[i]);
    }
    RunInOrder(port, es);
  }

  /** A command tree without changes of the bus speed in which no error callback submits more than two commands. */
  predicate Tame(c: Cmd) {
    && !c.kind.UsbChangeSpeed? && |c.onErr| <= 2
    && (forall i :: 0 <= i < |c.onOk| ==> Tame(c.onOk[i]))
    && (forall i :: 0 <= i < |c.onErr| ==> Tame(c.onErr[i]))
  }

  predicate AllTame(s: Link) {
    && (forall i :: 0 <= i < |s.pending| ==> Tame(s.pending[i].ticket.cmd))
    && (forall i :: 0 <= i < |s.out| ==> Tame(s.out[i].cmd))
  }

  lemma {:induction false} WriteTame(port: Port, s: Link, t: Ticket, noSent: nat)
    requires AllTame(s) && Tame(t.cmd)
    ensures AllTame(Write(port, s, t, noSent))
    decreases t.cmd, 0
  {
    if !port.writeOk(s.writes) {
      SubmitAllTame(port, s.(writes := s.writes + 1,
                             trace := s.trace + [Attempt(t, noSent, false)] + [Done(t.id, Err(SERIAL_PORT_CLOSED))]), t.cmd.onErr);
    }
  }

  lemma {:induction false} SubmitAllTame(port: Port, s: Link, cs: seq<Cmd>)
    requires AllTame(s) && forall i :: 0 <= i < |cs| ==> Tame(cs[i])
    ensures AllTame(SubmitAll(port, s, cs))
    decreases cs
  {
    if cs != [] {
      var s1 := Issued(s, cs[0]);
      WriteTame(port, s1, Ticket(s.next, cs[0]), 1);
      assert Submit(port, s, cs[0]) == Admit(port, s1, Ticket(s.next, cs[0]), false);
      SubmitAllTame(port, Submit(port, s, cs[0]), cs[1..]);
    }
  }

  lemma BeforeDispatchTame(port: Port, s: Link, e: Stimulus)
    requires AllTame(s) && BeforeDispatch(port, s, e).Some?
    ensures AllTame(BeforeDispatch(port, s, e).value)
  {
    var i := if e.Received? then Judge(s.pending, e.code, e.data).i else 0;
    var t := s.pending[i].ticket;
    if e.Received? && Judge(s.pending, e.code, e.data).Accept? {
      SubmitAllTame(port, s.(calls := s.calls + 1, trace := s.trace + [Done(t.id, Ok)]), t.cmd.onOk);
    } else {
      var error :=
        if e.Received? then Judge(s.pending, e.code, e.data).error
        else if s.pending[0].noSent >= PENDING_RESEND_MAX then USB_NO_RESPONSE else PENDING_CONFLICT;
      SubmitAllTame(port, Removed(s, i).(trace := s.trace + [Done(t.id, Err(error))]), t.cmd.onErr);
    }
  }

  lemma StepTame(port: Port, s: Link, e: Stimulus)
    requires AllTame(s) && !e.Closed? && (e.Submitted? ==> Tame(e.cmd))
    ensures AllTame(Step(port, s, e))
  {
    if BeforeDispatch(port, s, e).Some? {
      var m := BeforeDispatch(port, s, e).value;
      BeforeDispatchTame(port, s, e);
      BeforeDispatchOrder(port, s, e);
      if m.out != [] {
        WriteTame(port, m.(out := m.out[1..]), m.out[0], 1);
      }
    } else if e.Submitted? {
      var s1 := Issued(s, e.cmd);
      WriteTame(port, s1, Ticket(s.next, e.cmd), 1);
      assert Step(port, s, e) == Admit(port, s1, Ticket(s.next, e.cmd), false);
    } else if e.Ticked? && s.pending != [] && s.pending[0].timeout < e.now {
      WriteTame(port, s.(pending := s.pending[1..]), s.pending[0].ticket, s.pending[0].noSent + 1);
    } else if e.Received? && Judge(s.pending, e.code, e.data).Accept? {
      var t, n := s.pending[Judge(s.pending, e.code, e.data).i].ticket, port.throws(s.calls).value;
      SubmitAllTame(port, s.(calls := s.calls + 1, trace := s.trace + [Threw(t.id)]), FirstOf(t.cmd.onOk, n));
    }
  }

  /** Tame clients: a condition on what is submitted alone, whatever the device and the timer do. */
  lemma {:induction false} TameClientsInOrder(port: Port, es: seq<Stimulus>)
    requires WritesOk(port) && NeverClosed(es)
    requires forall i :: 0 <= i < |es| && es[i].Submitted? ==> Tame(es[i].cmd)
    ensures AllTame(Run(port, es)) && InOrder(Run(port, es))
  {
    if es != [] {
      var n := |es| - 1;
      var s := Run(port, es[..n]);
      TameClientsInOrder(port, es[..n]);
      StepTame(port, s, es[n]);
      if BeforeDispatch(port, s, es[n]).Some? {
        BeforeDispatchTame(port, s, es[n]);
      }
      RunTidy(port, es[..n]);
      CalmDoesNotOvertake(port, s, es[n]);
      Ledger.RunKept(port, es[..n], 0);
      OrderKeptIff(port, s, es[n]);
    }
  }

  const PING := Cmd(UsbPing, [], [])
  const CHANGE_SPEED := Cmd(UsbChangeSpeed(2), [], [])

  /**
    Two changes of the bus speed between two pings: the answer to the first ping makes room, but the second change is
    blocked by the first one and goes back behind the last ping, which was submitted after it.
  */
  lemma BacklogOvertaken(port: Port)
    requires WritesOk(port) && port.throws(0).None?
    ensures var es := [Submitted(PING), Submitted(CHANGE_SPEED), Submitted(CHANGE_SPEED), Submitted(PING), Received(USB_ACK, [])];
      && Ids(Run(port, es).out) == [3, 2]
      && InOrder(Run(port, es[..4])) && Overtakes(port, Run(port, es[..4]), es[4]) && !InOrder(Run(port, es))
  {
    var es := [Submitted(PING), Submitted(CHANGE_SPEED), Submitted(CHANGE_SPEED), Submitted(PING)];
    var ack := Received(USB_ACK, []);
    Ledger.FourSteps(port, es[0], es[1], es[2], es[3]);
    BothChangesSubmitted(port);
    var s := Run(port, es);
    Ledger.RunStep(port, es, ack);
    var all := [Submitted(PING), Submitted(CHANGE_SPEED), Submitted(CHANGE_SPEED), Submitted(PING), ack];
    assert es + [ack] == all && all[..4] == es;
    FirstPingAnswered(port, s);
    OrderKeptIff(port, s, ack);
  }

  lemma FirstPingAnswered(port: Port, s: Link)
    requires |s.pending| == 2 && s.pending[0].ticket == Ticket(0, PING) && s.pending[1].ticket == Ticket(1, CHANGE_SPEED)
    requires s.out == [Ticket(2, CHANGE_SPEED), Ticket(3, PING)] && port.throws(s.calls).None?
    ensures Overtakes(port, s, Received(USB_ACK, []))
    ensures Ids(Step(port, s, Received(USB_ACK, [])).out) == [3, 2]
  {
    assert First(s.pending, (k: Kind) => k.AcceptsUsb(USB_ACK)) == Some(0);
    assert Judge(s.pending, USB_ACK, []) == Accept(0);
    var m := Answered(port, s, 0);
    assert m.pending == [s.pending[1]] && m.out == s.out;
    assert Clash(m.pending[0].ticket.cmd, m.out[0].cmd);
  }

  lemma BothChangesSubmitted(port: Port)
    requires WritesOk(port)
    ensures var s := Step(port, Step(port, Step(port, Step(port, FRESH, Submitted(PING)), Submitted(CHANGE_SPEED)), Submitted(CHANGE_SPEED)), Submitted(PING));
      && s.pending == [PendingCmd(Ticket(0, PING), port.clock(0) + PENDING_TIMEOUT, 1),
                       PendingCmd(Ticket(1, CHANGE_SPEED), port.clock(1) + PENDING_TIMEOUT, 1)]
      && s.out == [Ticket(2, CHANGE_SPEED), Ticket(3, PING)]
      && s.next == 4 && s.calls == 0 && InOrder(s)
  {
    SubmitWritten(port, FRESH, PING);
    var s1 := Submit(port, FRESH, PING);
    SubmitWritten(port, s1, CHANGE_SPEED);
    var s2 := Submit(port, s1, CHANGE_SPEED);
    assert Clash(s2.pending[1].ticket.cmd, CHANGE_SPEED);
    SubmitQueued(port, s2, CHANGE_SPEED);
    var s3 := Submit(port, s2, CHANGE_SPEED);
    SubmitQueued(port, s3, PING);
    var s4 := Submit(port, s3, PING);
    TwoAndTwo(s4);
  }

  lemma TwoAndTwo(s: Link)
    requires s.trace == [Attempt(Ticket(0, PING), 1, true), Attempt(Ticket(1, CHANGE_SPEED), 1, true)]
    requires s.out == [Ticket(2, CHANGE_SPEED), Ticket(3, PING)] && s.next == 4
    ensures InOrder(s)
  {
    TwoPuts(Attempt(Ticket(0, PING), 1, true), Attempt(Ticket(1, CHANGE_SPEED), 1, true));
    assert Ids(s.out) == [2, 3];
    assert Range(0, 4) == [0, 1] + [2, 3];
  }

  lemma TwoPuts(p1: Event, p2: Event)
    requires p1.Put? && p1.noSent == 1 && p2.Put? && p2.noSent == 1
    ensures FirstPuts([p1, p2]) == [p1.id, p2.id]
  {
    FirstPutsAppend([], p1);
    FirstPutsAppend([p1], p2);
    assert [] + [p1] == [p1] && [p1] + [p2] == [p1, p2];
  }

  lemma SubmitWritten(port: Port, s: Link, c: Cmd)
    requires port.writeOk(s.writes) && s.out == [] && !Blocked(s, c)
    ensures Submit(port, s, c) == s.(
      pending := s.pending + [PendingCmd(Ticket(s.next, c), port.clock(s.writes) + PENDING_TIMEOUT, 1)],
      next := s.next + 1,
      issued := s.issued + [c],
      writes := s.writes + 1,
      trace := s.trace + [Attempt(Ticket(s.next, c), 1, true)])
  {
    var s1 := Issued(s, c);
    assert Submit(port, s, c) == Admit(port, s1, Ticket(s.next, c), false) == Write(port, s1, Ticket(s.next, c), 1);
  }

  lemma SubmitQueued(port: Port, s: Link, c: Cmd)
    requires s.out != [] || Blocked(s, c)
    ensures Submit(port, s, c) == s.(out := s.out + [Ticket(s.next, c)], next := s.next + 1, issued := s.issued + [c])
  {
  }
}
