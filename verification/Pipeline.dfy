/**
  Specification of the command pipeline of `MtbUsb` (src/mtbusb/mtbusb-send.cpp,
  mtbusb-receive.cpp, mtbusb-hist.cpp and the closing slot of mtbusb.cpp) as functions
  from one state of the link to the next. Class `MtbUsb` computes the same in place.

  Every submitted command gets a ticket with a fresh number, which plays the part of the
  address of the heap copy the program makes of it. Callbacks run inside these functions and
  submit their follow-ups at the very point where the program calls them.
*/
module Pipeline {
  import opened Basics
  import opened Commands
  import Framing

  const MAX_PENDING: nat := 3
  const PENDING_RESEND_MAX: nat := 3
  const PENDING_TIMEOUT: int := 300

  datatype Ticket = Ticket(id: nat, cmd: Cmd)

  datatype PendingCmd = PendingCmd(ticket: Ticket, timeout: int, noSent: nat)

  datatype Outcome = Ok | Err(error: CmdError)

  /**
    What can be observed from outside: an attempt to write a command, with the bytes handed to the serial port, the call
    of one of its callbacks, and the call of its ok callback when that ends with an exception.
  */
  datatype Event =
    | Put(id: nat, noSent: nat, ok: bool, bytes: seq<byte>)
    | Done(id: nat, outcome: Outcome)
    | Threw(id: nat)

  /**
    The surroundings of the link: whether the n-th write to the serial port succeeds, and when it takes place; and whether
    the n-th call of an ok callback throws an exception, and how many of its commands it has submitted by then.
  */
  datatype Port = Port(writeOk: nat -> bool, clock: nat -> int, throws: nat -> Option<nat>)

  ghost predicate WritesOk(port: Port) {
    forall n: nat :: port.writeOk(n)
  }

  /** `issued` are the commands submitted so far, by the numbers of their tickets. */
  datatype Link = Link(
    pending: seq<PendingCmd>,
    out: seq<Ticket>,
    next: nat,
    issued: seq<Cmd>,
    writes: nat,
    calls: nat,
    trace: seq<Event>)

  const FRESH := Link([], [], 0, [], 0, 0, [])

  predicate ConflictWithPending(pending: seq<PendingCmd>, c: Cmd) {
    exists i :: 0 <= i < |pending| && Clash(pending[i].ticket.cmd, c)
  }

  predicate ConflictWithOut(out: seq<Ticket>, c: Cmd) {
    exists i :: 0 <= i < |out| && Clash(out[i].cmd, c)
  }

  predicate Clash(a: Cmd, b: Cmd) {
    a.kind.Conflicts(b.kind) || b.kind.Conflicts(a.kind)
  }

  /** The command cannot be written now, because of the commands waiting for their response. */
  predicate Blocked(s: Link, c: Cmd) {
    |s.pending| >= MAX_PENDING || ConflictWithPending(s.pending, c)
  }

  function Issued(s: Link, c: Cmd): Link {
    s.(next := s.next + 1, issued := s.issued + [c])
  }

  /** `send(cmd->getBytes())`: the attempt to write the command. */
  function Attempt(t: Ticket, noSent: nat, ok: bool): Event {
    Put(t.id, noSent, ok, Framing.Framed(t.cmd.kind.Bytes()))
  }

  /** A client, or a callback, submits a command. */
  function Submit(port: Port, s: Link, c: Cmd): Link
    decreases c, 3
  {
    Admit(port, Issued(s, c), Ticket(s.next, c), false)
  }

  function Admit(port: Port, s: Link, t: Ticket, bypass: bool): Link
    decreases t.cmd, 2
  {
    if Blocked(s, t.cmd) || (s.out != [] && !bypass) then
      s.(out := s.out + [t])
    else
      Write(port, s, t, 1)
  }

  function Write(port: Port, s: Link, t: Ticket, noSent: nat): Link
    decreases t.cmd, 1
  {
    var ok := port.writeOk(s.writes);
    var put := s.(writes := s.writes + 1, trace := s.trace + [Attempt(t, noSent, ok)]);
    if ok then
      put.(pending := s.pending + [PendingCmd(t, port.clock(s.writes) + PENDING_TIMEOUT, noSent)])
    else
      CallError(port, put, t, SERIAL_PORT_CLOSED)
  }

  function CallError(port: Port, s: Link, t: Ticket, error: CmdError): Link
    decreases t.cmd, 0
  {
    SubmitAll(port, s.(trace := s.trace + [Done(t.id, Err(error))]), t.cmd.onErr)
  }

  function CallOk(port: Port, s: Link, t: Ticket): Link {
    SubmitAll(port, s.(calls := s.calls + 1, trace := s.trace + [Done(t.id, Ok)]), t.cmd.onOk)
  }

  function FirstOf(cs: seq<Cmd>, n: nat): seq<Cmd> {
    if n < |cs| then cs[..n] else cs
  }

  /** An ok callback that throws after submitting at most `n` commands. */
  function ThrowingOk(port: Port, s: Link, t: Ticket, n: nat): Link {
    SubmitAll(port, s.(calls := s.calls + 1, trace := s.trace + [Threw(t.id)]), FirstOf(t.cmd.onOk, n))
  }

  function SubmitAll(port: Port, s: Link, cs: seq<Cmd>): Link
    decreases cs
  {
    if cs == [] then s else SubmitAll(port, Submit(port, s, cs[0]), cs[1..])
  }

  function SendNextOut(port: Port, s: Link): Link
    requires s.out != []
  {
    Admit(port, s.(out := s.out[1..]), s.out[0], true)
  }

  function Dispatch(port: Port, s: Link): Link {
    if s.out == [] then s else SendNextOut(port, s)
  }

  /** A response to the i-th pending command: its callback runs while the command is still pending. */
  function Answered(port: Port, s: Link, i: nat): Link
    requires i < |s.pending|
  {
    Removed(CallOk(port, s, s.pending[i].ticket), i)
  }

  /**
    What a response to the i-th pending command leads to. An exception from the callback is caught around the whole
    message: the command stays pending, and the backlog is not served.
  */
  function Accepted(port: Port, s: Link, i: nat): Link
    requires i < |s.pending|
  {
    match port.throws(s.calls)
    case None => Dispatch(port, Answered(port, s, i))
    case Some(n) => ThrowingOk(port, s, s.pending[i].ticket, n)
  }

  /** The i-th pending command fails: it is removed first, then its callback runs. */
  function Failed(port: Port, s: Link, i: nat, error: CmdError): Link
    requires i < |s.pending|
  {
    CallError(port, Removed(s, i), s.pending[i].ticket, error)
  }

  function Removed(s: Link, i: nat): Link {
    if i < |s.pending| then s.(pending := s.pending[..i] + s.pending[i + 1..]) else s
  }

  datatype Verdict = Accept(i: nat) | Reject(i: nat, error: CmdError) | Unmatched

  function First(pending: seq<PendingCmd>, hit: Kind -> bool): (r: Option<nat>)
    ensures r.Some? ==> r.value < |pending| && hit(pending[r.value].ticket.cmd.kind)
    ensures forall j :: 0 <= j < (if r.Some? then r.value else |pending|) ==> !hit(pending[j].ticket.cmd.kind)
  {
    if pending == [] then None
    else if hit(pending[0].ticket.cmd.kind) then Some(0)
    else
      match First(pending[1..], hit)
      case Some(i) => Some(i + 1)
      case None => None
  }

  function Accepting(pending: seq<PendingCmd>, hit: Kind -> bool): Verdict {
    match First(pending, hit)
    case Some(i) => Accept(i)
    case None => Unmatched
  }

  function Rejecting(pending: seq<PendingCmd>, hit: Kind -> bool, error: CmdError): Verdict {
    match First(pending, hit)
    case Some(i) => Reject(i, error)
    case None => Unmatched
  }

  /** Describing an MTB-USB information message throws when the speed in it is unknown, before any command is looked for. */
  predicate BadInfo(code: byte, data: seq<byte>) {
    code == USB_INFO && |data| >= 6 && !(1 <= data[1] % 16 <= 4)
  }

  /** Which pending command a message from MTB-USB is about (`parseMtbUsbMessage` and what it calls). */
  function Judge(pending: seq<PendingCmd>, code: byte, data: seq<byte>): Verdict {
    if code == USB_ERROR then
      if |data| >= 3 && data[0] == ERROR_NO_RESPONSE then
        Rejecting(pending, (k: Kind) => k.Forward? && k.bus.Code() == data[1] && k.addr == data[2], BUS_NO_RESPONSE)
      else Unmatched
    else if code == USB_FORWARD then
      if |data| >= 3 then JudgeBus(pending, data[1], data[2], data[3..]) else Unmatched
    else if code in {USB_NEW_MODULE, USB_MODULE_FAILED} || BadInfo(code, data) then Unmatched
    else Accepting(pending, (k: Kind) => k.AcceptsUsb(code))
  }

  function JudgeBus(pending: seq<PendingCmd>, from: byte, code: byte, data: seq<byte>): Verdict {
    if code == BUS_ERROR then
      if data != [] then Rejecting(pending, (k: Kind) => k.Forward? && k.addr == from, data[0]) else Unmatched
    else if code == BUS_INPUT_CHANGED then Unmatched
    else Accepting(pending, (k: Kind) => k.AcceptsBus(from, code, data))
  }

  function Receive(port: Port, s: Link, code: byte, data: seq<byte>): Link {
    Settle(port, s, Judge(s.pending, code, data))
  }

  function Settle(port: Port, s: Link, v: Verdict): Link {
    match v
    case Accept(i) => if i < |s.pending| then Accepted(port, s, i) else s
    case Reject(i, error) => if i < |s.pending| then Dispatch(port, Failed(port, s, i, error)) else s
    case Unmatched => s
  }

  /** `pendingTimerTick`: looks at the oldest pending command only. */
  function Tick(port: Port, s: Link, now: int): Link {
    if s.pending == [] || s.pending[0].timeout >= now then s
    else if s.pending[0].noSent >= PENDING_RESEND_MAX then
      Dispatch(port, Failed(port, s, 0, USB_NO_RESPONSE))
    else Resend(port, s)
  }

  function Resend(port: Port, s: Link): Link
    requires s.pending != []
  {
    var p := s.pending[0];
    if ConflictWithOut(s.out, p.ticket.cmd) then
      Dispatch(port, Failed(port, s, 0, PENDING_CONFLICT))
    else
      Write(port, s.(pending := s.pending[1..]), p.ticket, p.noSent + 1)
  }

  /**
    How much a command can still cause without further submissions: its own writes, and those of its error follow-ups;
    when the device may still answer (`answered`), those of its ok follow-ups too.
  */
  function Cost(c: Cmd, answered: bool): nat {
    4 + CostAll(c.onErr, answered) + (if answered then CostAll(c.onOk, answered) else 0)
  }

  function CostAll(cs: seq<Cmd>, answered: bool): nat {
    if cs == [] then 0 else Cost(cs[0], answered) + CostAll(cs[1..], answered)
  }

  function PendingCost(answered: bool): PendingCmd -> nat {
    (p: PendingCmd) => Cost(p.ticket.cmd, answered) - if p.noSent < PENDING_RESEND_MAX then p.noSent else PENDING_RESEND_MAX
  }

  function OutCost(answered: bool): Ticket -> nat {
    (t: Ticket) => Cost(t.cmd, answered)
  }

  function Load(s: Link, answered: bool): nat {
    Sum(s.pending, PendingCost(answered)) + Sum(s.out, OutCost(answered))
  }

  lemma {:induction false} SubmitLoad(port: Port, s: Link, c: Cmd, answered: bool)
    ensures Load(Submit(port, s, c), answered) <= Load(s, answered) + Cost(c, answered)
    decreases c, 1
  {
    AdmitLoad(port, Issued(s, c), Ticket(s.next, c), false, answered);
  }

  lemma {:induction false} AdmitLoad(port: Port, s: Link, t: Ticket, bypass: bool, answered: bool)
    ensures Load(Admit(port, s, t, bypass), answered) <= Load(s, answered) + Cost(t.cmd, answered)
    decreases t.cmd, 0, 1
  {
    SumAppend(s.out, t, OutCost(answered));
    WriteLoad(port, s, t, 1, answered);
  }

  lemma {:induction false} WriteLoad(port: Port, s: Link, t: Ticket, noSent: nat, answered: bool)
    ensures Load(Write(port, s, t, noSent), answered) <= Load(s, answered) + PendingCost(answered)(PendingCmd(t, 0, noSent))
    decreases t.cmd, 0, 0
  {
    if port.writeOk(s.writes) {
      SumAppend(s.pending, PendingCmd(t, port.clock(s.writes) + PENDING_TIMEOUT, noSent), PendingCost(answered));
    } else {
      SubmitAllLoad(port, s.(writes := s.writes + 1,
                             trace := s.trace + [Attempt(t, noSent, false)] + [Done(t.id, Err(SERIAL_PORT_CLOSED))]), t.cmd.onErr, answered);
    }
  }

  lemma {:induction false} SubmitAllLoad(port: Port, s: Link, cs: seq<Cmd>, answered: bool)
    ensures Load(SubmitAll(port, s, cs), answered) <= Load(s, answered) + CostAll(cs, answered)
    decreases cs
  {
    if cs != [] {
      SubmitLoad(port, s, cs[0], answered);
      SubmitAllLoad(port, Submit(port, s, cs[0]), cs[1..], answered);
    }
  }

  /** Callbacks only append to the two queues and to the trace. */
  predicate Extends(s: Link, s': Link) {
    && s.pending <= s'.pending
    && s.out <= s'.out
    && s.trace <= s'.trace
    && s.next <= s'.next
    && s.issued <= s'.issued
    && s.writes <= s'.writes
  }

  lemma {:induction false} WriteExtends(port: Port, s: Link, t: Ticket, noSent: nat)
    ensures Extends(s, Write(port, s, t, noSent))
    decreases t.cmd, 0
  {
    if !port.writeOk(s.writes) {
      SubmitAllExtends(port, s.(writes := s.writes + 1,
                                trace := s.trace + [Attempt(t, noSent, false)] + [Done(t.id, Err(SERIAL_PORT_CLOSED))]), t.cmd.onErr);
    }
  }

  lemma {:induction false} SubmitExtends(port: Port, s: Link, c: Cmd)
    ensures Extends(s, Submit(port, s, c))
    ensures s.out != [] ==> Submit(port, s, c).pending == s.pending
    decreases c, 1
  {
    WriteExtends(port, Issued(s, c), Ticket(s.next, c), 1);
  }

  lemma {:induction false} SubmitAllExtends(port: Port, s: Link, cs: seq<Cmd>)
    ensures Extends(s, SubmitAll(port, s, cs))
    ensures s.out != [] ==> SubmitAll(port, s, cs).pending == s.pending
    decreases cs
  {
    if cs != [] {
      SubmitExtends(port, s, cs[0]);
      SubmitAllExtends(port, Submit(port, s, cs[0]), cs[1..]);
    }
  }

  /** The first loop of `spAboutToClose`: the front is popped after its callback has run. */
  function ClosePending(port: Port, s: Link): Link
    decreases Load(s, false)
  {
    if s.pending == [] then s
    else
      ClosePendingLoad(port, s);
      ClosePending(port, ClosePendingFront(port, s))
  }

  function ClosePendingFront(port: Port, s: Link): Link
    requires s.pending != []
  {
    Removed(CallError(port, s, s.pending[0].ticket, SERIAL_PORT_CLOSED), 0)
  }

  lemma ClosePendingLoad(port: Port, s: Link)
    requires s.pending != []
    ensures Load(ClosePendingFront(port, s), false) < Load(s, false)
  {
    var called := s.(trace := s.trace + [Done(s.pending[0].ticket.id, Err(SERIAL_PORT_CLOSED))]);
    SubmitAllLoad(port, called, s.pending[0].ticket.cmd.onErr, false);
    SubmitAllExtends(port, called, s.pending[0].ticket.cmd.onErr);
    SumRemove(CallError(port, s, s.pending[0].ticket, SERIAL_PORT_CLOSED).pending, 0, PendingCost(false));
  }

  /** The second loop: again the front stays queued while its callback runs. */
  function CloseOut(port: Port, s: Link): Link
    decreases Load(s, false)
  {
    if s.out == [] then s
    else
      CloseOutLoad(port, s);
      CloseOut(port, CloseOutFront(port, s))
  }

  function CloseOutFront(port: Port, s: Link): Link
    requires s.out != []
  {
    var called := CallError(port, s, s.out[0], SERIAL_PORT_CLOSED);
    if called.out == [] then called else called.(out := called.out[1..])
  }

  lemma CloseOutLoad(port: Port, s: Link)
    requires s.out != []
    ensures Load(CloseOutFront(port, s), false) < Load(s, false)
  {
    var called := s.(trace := s.trace + [Done(s.out[0].id, Err(SERIAL_PORT_CLOSED))]);
    SubmitAllLoad(port, called, s.out[0].cmd.onErr, false);
    SubmitAllExtends(port, called, s.out[0].cmd.onErr);
    SumRemove(CallError(port, s, s.out[0], SERIAL_PORT_CLOSED).out, 0, OutCost(false));
  }

  /** `spAboutToClose`. */
  function Close(port: Port, s: Link): Link {
    CloseOut(port, ClosePending(port, s))
  }

  /** Everything that can happen to the link from outside. */
  datatype Stimulus =
    | Submitted(cmd: Cmd)
    | Received(code: byte, data: seq<byte>)
    | Ticked(now: int)
    | Closed

  function Step(port: Port, s: Link, e: Stimulus): Link {
    match e
    case Submitted(c) => Submit(port, s, c)
    case Received(code, data) => Receive(port, s, code, data)
    case Ticked(now) => Tick(port, s, now)
    case Closed => Close(port, s)
  }

  /** The state after a run of the daemon. */
  function Run(port: Port, es: seq<Stimulus>): Link {
    if es == [] then FRESH else Step(port, Run(port, es[..|es| - 1]), es[|es| - 1])
  }
}
