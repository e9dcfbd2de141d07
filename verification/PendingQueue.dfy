/** What the buffer of pending commands looks like in every reachable state, and what a response does to it. */
module PendingQueue {
  import opened Basics
  import opened Commands
  import opened Pipeline
  import opened Pairing

  ghost predicate Monotone(port: Port) {
    forall m: nat, n: nat :: m <= n ==> port.clock(m) <= port.clock(n)
  }

  /** `pending` is ordered by timeout, and no timeout lies after that of the next write. */
  ghost predicate Sorted(port: Port, s: Link) {
    && (forall i, j :: 0 <= i < j < |s.pending| ==> s.pending[i].timeout <= s.pending[j].timeout)
    && (forall i, n: nat :: 0 <= i < |s.pending| && s.writes <= n ==> s.pending[i].timeout <= port.clock(n) + PENDING_TIMEOUT)
  }

  predicate Compatible(pending: seq<PendingCmd>) {
    forall i, j :: 0 <= i < j < |pending| ==> !Clash(pending[i].ticket.cmd, pending[j].ticket.cmd)
  }

  ghost predicate Tidy(port: Port, s: Link) {
    && |s.pending| <= MAX_PENDING
    && Compatible(s.pending)
    && (Monotone(port) ==> Sorted(port, s))
  }

  lemma {:induction false} SubmitTidy(port: Port, s: Link, c: Cmd)
    requires Tidy(port, s)
    ensures Tidy(port, Submit(port, s, c))
    decreases c, 3
  {
    AdmitTidy(port, Issued(s, c), Ticket(s.next, c), false);
  }

  lemma {:induction false} AdmitTidy(port: Port, s: Link, t: Ticket, bypass: bool)
    requires Tidy(port, s)
    ensures Tidy(port, Admit(port, s, t, bypass))
    decreases t.cmd, 2
  {
    if !Blocked(s, t.cmd) {
      WriteTidy(port, s, t, 1);
    }
  }

  lemma {:induction false} WriteTidy(port: Port, s: Link, t: Ticket, noSent: nat)
    requires Tidy(port, s) && !Blocked(s, t.cmd)
    ensures Tidy(port, Write(port, s, t, noSent))
    decreases t.cmd, 1
  {
    if !port.writeOk(s.writes) {
      var put := s.(writes := s.writes + 1, trace := s.trace + [Attempt(t, noSent, false)]);
      SubmitAllTidy(port, put.(trace := put.trace + [Done(t.id, Err(SERIAL_PORT_CLOSED))]), t.cmd.onErr);
    }
  }

  lemma {:induction false} SubmitAllTidy(port: Port, s: Link, cs: seq<Cmd>)
    requires Tidy(port, s)
    ensures Tidy(port, SubmitAll(port, s, cs))
    decreases cs
  {
    if cs != [] {
      SubmitTidy(port, s, cs[0]);
      SubmitAllTidy(port, Submit(port, s, cs[0]), cs[1..]);
    }
  }

  lemma DispatchTidy(port: Port, s: Link)
    requires Tidy(port, s)
    ensures Tidy(port, Dispatch(port, s))
  {
    if s.out != [] {
      AdmitTidy(port, s.(out := s.out[1..]), s.out[0], true);
    }
  }

  lemma FailedTidy(port: Port, s: Link, i: nat, error: CmdError)
    requires Tidy(port, s) && i < |s.pending|
    ensures Tidy(port, Failed(port, s, i, error))
  {
    var s1 := Removed(s, i);
    RemovedTidy(port, s, i);
    SubmitAllTidy(port, s1.(trace := s1.trace + [Done(s.pending[i].ticket.id, Err(error))]), s.pending[i].ticket.cmd.onErr);
  }

  lemma AnsweredTidy(port: Port, s: Link, i: nat)
    requires Tidy(port, s) && i < |s.pending|
    ensures Tidy(port, Answered(port, s, i))
    ensures |Answered(port, s, i).pending| < MAX_PENDING
  {
    var called := s.(calls := s.calls + 1, trace := s.trace + [Done(s.pending[i].ticket.id, Ok)]);
    SubmitAllTidy(port, called, s.pending[i].ticket.cmd.onOk);
    SubmitAllExtends(port, called, s.pending[i].ticket.cmd.onOk);
    RemovedTidy(port, CallOk(port, s, s.pending[i].ticket), i);
  }

  lemma AcceptedTidy(port: Port, s: Link, i: nat)
    requires Tidy(port, s) && i < |s.pending|
    ensures Tidy(port, Accepted(port, s, i))
  {
    match port.throws(s.calls)
    case None =>
      AnsweredTidy(port, s, i);
      DispatchTidy(port, Answered(port, s, i));
    case Some(n) =>
      var t := s.pending[i].ticket;
      SubmitAllTidy(port, s.(calls := s.calls + 1, trace := s.trace + [Threw(t.id)]), FirstOf(t.cmd.onOk, n));
  }

  lemma RemovedTidy(port: Port, s: Link, i: nat)
    requires Tidy(port, s) && i < |s.pending|
    ensures Tidy(port, Removed(s, i))
  {
    var p' := Removed(s, i).pending;
    assert forall j :: 0 <= j < |p'| ==> p'[j] == s.pending[if j < i then j else j + 1];
  }

  lemma SettleTidy(port: Port, s: Link, v: Verdict)
    requires Tidy(port, s)
    ensures Tidy(port, Settle(port, s, v))
  {
    match v
    case Accept(i) =>
      if i < |s.pending| {
        AcceptedTidy(port, s, i);
      }
    case Reject(i, error) =>
      if i < |s.pending| {
        FailedTidy(port, s, i, error);
        DispatchTidy(port, Failed(port, s, i, error));
      }
    case Unmatched =>
  }

  lemma TickTidy(port: Port, s: Link, now: int)
    requires Tidy(port, s)
    ensures Tidy(port, Tick(port, s, now))
  {
    if s.pending != [] {
      var c := s.pending[0].ticket.cmd;
      var error := if s.pending[0].noSent >= PENDING_RESEND_MAX then USB_NO_RESPONSE else PENDING_CONFLICT;
      FailedTidy(port, s, 0, error);
      DispatchTidy(port, Failed(port, s, 0, error));
      WriteTidy(port, Removed(s, 0), s.pending[0].ticket, s.pending[0].noSent + 1);
      assert Removed(s, 0) == s.(pending := s.pending[1..]);
    }
  }

  lemma {:induction false} ClosePendingEmpties(port: Port, s: Link)
    ensures ClosePending(port, s).pending == []
    decreases Load(s, false)
  {
    if s.pending != [] {
      ClosePendingLoad(port, s);
      ClosePendingEmpties(port, ClosePendingFront(port, s));
    }
  }

  lemma {:induction false} CloseOutEmpties(port: Port, s: Link)
    ensures CloseOut(port, s).pending == s.pending && CloseOut(port, s).out == []
    decreases Load(s, false)
  {
    if s.out != [] {
      var called := s.(trace := s.trace + [Done(s.out[0].id, Err(SERIAL_PORT_CLOSED))]);
      SubmitAllExtends(port, called, s.out[0].cmd.onErr);
      CloseOutLoad(port, s);
      CloseOutEmpties(port, CloseOutFront(port, s));
    }
  }

  /** Closing terminates with both queues empty, whatever the callbacks submit meanwhile. */
  lemma CloseEmpties(port: Port, s: Link)
    ensures Close(port, s).pending == [] && Close(port, s).out == []
  {
    ClosePendingEmpties(port, s);
    CloseOutEmpties(port, ClosePending(port, s));
  }

  lemma StepTidy(port: Port, s: Link, e: Stimulus)
    requires Tidy(port, s)
    ensures Tidy(port, Step(port, s, e))
  {
    match e
    case Submitted(c) => SubmitTidy(port, s, c);
    case Received(code, data) => SettleTidy(port, s, Judge(s.pending, code, data));
    case Ticked(now) => TickTidy(port, s, now);
    case Closed => CloseEmpties(port, s);
  }

  /** At most three commands are pending, no two of them change the bus speed, and they are ordered by timeout. */
  lemma {:induction false} RunTidy(port: Port, es: seq<Stimulus>)
    ensures Tidy(port, Run(port, es))
    ensures var pending := Run(port, es).pending;
      && |pending| <= 3
      && forall i, j :: 0 <= i < j < |pending| ==> !(pending[i].ticket.cmd.kind.UsbChangeSpeed? && pending[j].ticket.cmd.kind.UsbChangeSpeed?)
  {
    if es != [] {
      var s, e := Run(port, es[..|es| - 1]), es[|es| - 1];
      RunTidy(port, es[..|es| - 1]);
      StepTidy(port, s, e);
    }
  }

  /** Looking at the front only loses nothing: when it has not expired, nothing has. */
  lemma FrontExpiresFirst(port: Port, es: seq<Stimulus>, now: int)
    requires Monotone(port)
    ensures var s := Run(port, es);
      (exists i :: 0 <= i < |s.pending| && s.pending[i].timeout < now) <==> s.pending != [] && s.pending[0].timeout < now
  {
    RunTidy(port, es);
  }

  predicate Concerns(k: Kind, code: byte, data: seq<byte>, outcome: Outcome) {
    match outcome
    case Ok => Answers(k, code, data)
    case Err(error) => Blames(k, code, data, error)
  }

  /**
    A message that concerns some pending command completes the oldest one it concerns: that command
    leaves `pending`, its callback is the first event, and the other commands keep their order,
    whatever the callback and the next command of the backlog append behind them. When an ok callback throws, its command
    keeps its place too, and nothing leaves the backlog.
  */
  lemma ReceiveRemovesOldest(port: Port, s: Link, code: byte, data: seq<byte>, i: nat, outcome: Outcome)
    requires i < |s.pending| && Concerns(s.pending[i].ticket.cmd.kind, code, data, outcome)
    requires forall j :: 0 <= j < i ==> !Concerns(s.pending[j].ticket.cmd.kind, code, data, outcome)
    ensures var s' := Receive(port, s, code, data);
      if outcome.Ok? && port.throws(s.calls).Some? then
        && s.pending <= s'.pending && s.out <= s'.out
        && s.trace + [Threw(s.pending[i].ticket.id)] <= s'.trace
      else
        && s.pending[..i] + s.pending[i + 1..] <= s'.pending
        && s.trace + [Done(s.pending[i].ticket.id, outcome)] <= s'.trace
  {
    if outcome.Ok? {
      JudgeAcceptsIff(s.pending, code, data, i);
      AcceptedExtends(port, s, i);
    } else {
      JudgeRejectsIff(s.pending, code, data, i, outcome.error);
      FailedExtends(port, s, i, outcome.error);
    }
  }

  lemma AcceptedExtends(port: Port, s: Link, i: nat)
    requires i < |s.pending|
    ensures var s' := Accepted(port, s, i);
      if port.throws(s.calls).Some? then
        s.pending <= s'.pending && s.out <= s'.out && s.trace + [Threw(s.pending[i].ticket.id)] <= s'.trace
      else
        s.pending[..i] + s.pending[i + 1..] <= s'.pending && s.trace + [Done(s.pending[i].ticket.id, Ok)] <= s'.trace
  {
    var t := s.pending[i].ticket;
    match port.throws(s.calls)
    case Some(n) =>
      SubmitAllExtends(port, s.(calls := s.calls + 1, trace := s.trace + [Threw(t.id)]), FirstOf(t.cmd.onOk, n));
    case None =>
      SubmitAllExtends(port, s.(calls := s.calls + 1, trace := s.trace + [Done(t.id, Ok)]), t.cmd.onOk);
      DispatchExtends(port, Answered(port, s, i));
  }

  lemma FailedExtends(port: Port, s: Link, i: nat, error: CmdError)
    requires i < |s.pending|
    ensures var s' := Dispatch(port, Failed(port, s, i, error));
      && s.pending[..i] + s.pending[i + 1..] <= s'.pending
      && s.trace + [Done(s.pending[i].ticket.id, Err(error))] <= s'.trace
  {
    var r, t := Removed(s, i), s.pending[i].ticket;
    SubmitAllExtends(port, r.(trace := r.trace + [Done(t.id, Err(error))]), t.cmd.onErr);
    DispatchExtends(port, Failed(port, s, i, error));
  }

  lemma DispatchExtends(port: Port, s: Link)
    ensures s.pending <= Dispatch(port, s).pending && s.trace <= Dispatch(port, s).trace
  {
    if s.out != [] {
      WriteExtends(port, s.(out := s.out[1..]), s.out[0], 1);
    }
  }

  /**
    A message that concerns no pending command changes nothing in the link. What the daemon submits when it is told of a
    new module is the next stimulus.
  */
  lemma ReceiveUnmatched(port: Port, s: Link, code: byte, data: seq<byte>)
    requires forall j, outcome :: 0 <= j < |s.pending| ==> !Concerns(s.pending[j].ticket.cmd.kind, code, data, outcome)
    ensures Receive(port, s, code, data) == s
  {
    match Judge(s.pending, code, data)
    case Accept(i) =>
      JudgeAcceptsIff(s.pending, code, data, i);
      var hit := Concerns(s.pending[i].ticket.cmd.kind, code, data, Ok);
    case Reject(i, error) =>
      JudgeRejectsIff(s.pending, code, data, i, error);
      var hit := Concerns(s.pending[i].ticket.cmd.kind, code, data, Err(error));
    case Unmatched =>
  }
}
