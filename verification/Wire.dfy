/**
  What each command looks like on the serial line, octet by octet, and that nothing else is ever written for it.

  The spelling is given by constructor, independently of how the commands assemble their bytes.
*/
module Wire {
  import opened Basics
  import opened Commands
  import opened Framing
  import opened Pipeline

  /** The message that stands for a command. */
  function Spelling(k: Kind): Message {
    match k
    case UsbInfoRequest => Message(0x20, [])
    case UsbChangeSpeed(speed) => Message(0x21, [speed as int])
    case UsbActiveModulesRequest => Message(0x22, [])
    case UsbPing => Message(0x30, [])
    case Forward(addr, bus) => Message(0x10, [addr] + BusSpelling(bus))
  }

  /** What follows the address in a message for a module. */
  function BusSpelling(c: BusCmd): (r: seq<byte>)
    ensures r != []
  {
    match c
    case ModuleInfoRequest => [0x02]
    case SetConfig(config) => [0x03] + config
    case GetConfig => [0x04]
    case Beacon(on) => [0x05, if on then 1 else 0]
    case GetInputs => [0x10]
    case SetOutput(outputs) => [0x11] + outputs
    case ResetOutputs => [0x12]
    case ChangeAddr(newAddr) => [0x20, newAddr]
    case ChangeSpeed(busSpeed) => [0xE0, busSpeed as int]
    case FwUpgradeReq => [0xF0]
    case FwWriteFlash(high, low, block) => [0xF1, high, low] + block
    case FwWriteFlashStatusRequest => [0xF2]
    case Specific(payload) => [0xFE] + payload
    case Reboot => [0xFF]
    case GetDiagValue(dvi) => [0xD0, dvi]
  }

  /** A message on the line. */
  function OnLine(m: Message): seq<byte> {
    [0x2A, 0x42, (|m.data| + 1) % 256, m.code] + m.data
  }

  /** The program's bytes of a command are its spelling. */
  lemma BytesSpell(k: Kind)
    ensures Framed(k.Bytes()) == OnLine(Spelling(k))
  {
    var m := Spelling(k);
    assert k.Bytes() == [m.code] + m.data by {
      match k
      case Forward(addr, bus) => assert [addr, bus.Code()] + bus.Data() == [addr] + BusSpelling(bus);
      case _ =>
    }
  }

  /** A receiver reads exactly that message back, unless its data is longer than any the receiver could take. */
  lemma ReadBack(k: Kind)
    requires |Spelling(k).data| <= 126
    ensures Extract(OnLine(Spelling(k))) == Extraction([Spelling(k)], [], false)
  {
    var m := Spelling(k);
    var line := OnLine(m);
    assert line[4..line[2] + 3] == m.data;
    assert line[line[2] + 3..] == [];
  }

  predicate Holds(s: Link, t: Ticket) {
    t.id < |s.issued| && s.issued[t.id] == t.cmd
  }

  predicate Spelled(s: Link, e: Event) {
    e.Put? ==> e.id < |s.issued| && e.bytes == OnLine(Spelling(s.issued[e.id].kind))
  }

  /** The tickets in the queues are those issued, and every write has been that of the command of its ticket. */
  predicate Registered(s: Link) {
    && |s.issued| == s.next
    && (forall i :: 0 <= i < |s.pending| ==> Holds(s, s.pending[i].ticket))
    && (forall i :: 0 <= i < |s.out| ==> Holds(s, s.out[i]))
    && (forall i :: 0 <= i < |s.trace| ==> Spelled(s, s.trace[i]))
  }

  lemma {:induction false} WriteRegistered(port: Port, s: Link, t: Ticket, noSent: nat)
    requires Registered(s) && Holds(s, t)
    ensures Registered(Write(port, s, t, noSent))
    decreases t.cmd, 0
  {
    BytesSpell(t.cmd.kind);
    if !port.writeOk(s.writes) {
      SubmitAllRegistered(port, s.(writes := s.writes + 1,
                                   trace := s.trace + [Attempt(t, noSent, false)] + [Done(t.id, Err(SERIAL_PORT_CLOSED))]), t.cmd.onErr);
    }
  }

  lemma {:induction false} SubmitRegistered(port: Port, s: Link, c: Cmd)
    requires Registered(s)
    ensures Registered(Submit(port, s, c))
    decreases c, 1
  {
    WriteRegistered(port, Issued(s, c), Ticket(s.next, c), 1);
  }

  lemma {:induction false} SubmitAllRegistered(port: Port, s: Link, cs: seq<Cmd>)
    requires Registered(s)
    ensures Registered(SubmitAll(port, s, cs))
    decreases cs
  {
    if cs != [] {
      SubmitRegistered(port, s, cs[0]);
      SubmitAllRegistered(port, Submit(port, s, cs[0]), cs[1..]);
    }
  }

  /** A callback, whatever is recorded about its call. */
  lemma CallbackRegistered(port: Port, s: Link, calls: nat, e: Event, cs: seq<Cmd>)
    requires Registered(s) && !e.Put?
    ensures Registered(SubmitAll(port, s.(calls := calls, trace := s.trace + [e]), cs))
  {
    SubmitAllRegistered(port, s.(calls := calls, trace := s.trace + [e]), cs);
  }

  lemma RemovedRegistered(s: Link, i: nat)
    requires Registered(s)
    ensures Registered(Removed(s, i))
  {
    if i < |s.pending| {
      var p := Removed(s, i).pending;
      assert forall j :: 0 <= j < |p| ==> p[j] == s.pending[if j < i then j else j + 1];
    }
  }

  lemma DispatchRegistered(port: Port, s: Link)
    requires Registered(s)
    ensures Registered(Dispatch(port, s))
  {
    if s.out != [] {
      var rest := s.(out := s.out[1..]);
      assert Holds(rest, s.out[0]);
      WriteRegistered(port, rest, s.out[0], 1);
    }
  }

  lemma FailedRegistered(port: Port, s: Link, i: nat, error: CmdError)
    requires Registered(s) && i < |s.pending|
    ensures Registered(Dispatch(port, Failed(port, s, i, error)))
  {
    var r, t := Removed(s, i), s.pending[i].ticket;
    RemovedRegistered(s, i);
    CallbackRegistered(port, r, r.calls, Done(t.id, Err(error)), t.cmd.onErr);
    assert r.(calls := r.calls, trace := r.trace + [Done(t.id, Err(error))]) == r.(trace := r.trace + [Done(t.id, Err(error))]);
    DispatchRegistered(port, Failed(port, s, i, error));
  }

  lemma AcceptedRegistered(port: Port, s: Link, i: nat)
    requires Registered(s) && i < |s.pending|
    ensures Registered(Accepted(port, s, i))
  {
    var t := s.pending[i].ticket;
    match port.throws(s.calls)
    case Some(n) => CallbackRegistered(port, s, s.calls + 1, Threw(t.id), FirstOf(t.cmd.onOk, n));
    case None =>
      CallbackRegistered(port, s, s.calls + 1, Done(t.id, Ok), t.cmd.onOk);
      RemovedRegistered(CallOk(port, s, t), i);
      DispatchRegistered(port, Answered(port, s, i));
  }

  lemma TickRegistered(port: Port, s: Link, now: int)
    requires Registered(s)
    ensures Registered(Tick(port, s, now))
  {
    if s.pending != [] {
      FailedRegistered(port, s, 0, USB_NO_RESPONSE);
      FailedRegistered(port, s, 0, PENDING_CONFLICT);
      WriteRegistered(port, s.(pending := s.pending[1..]), s.pending[0].ticket, s.pending[0].noSent + 1);
    }
  }

  lemma CallErrorRegistered(port: Port, s: Link, t: Ticket, error: CmdError)
    requires Registered(s)
    ensures Registered(CallError(port, s, t, error))
  {
    SubmitAllRegistered(port, s.(trace := s.trace + [Done(t.id, Err(error))]), t.cmd.onErr);
  }

  lemma {:induction false} ClosePendingRegistered(port: Port, s: Link)
    requires Registered(s)
    ensures Registered(ClosePending(port, s))
    decreases Load(s, false)
  {
    if s.pending != [] {
      CallErrorRegistered(port, s, s.pending[0].ticket, SERIAL_PORT_CLOSED);
      RemovedRegistered(CallError(port, s, s.pending[0].ticket, SERIAL_PORT_CLOSED), 0);
      ClosePendingLoad(port, s);
      ClosePendingRegistered(port, ClosePendingFront(port, s));
    }
  }

  lemma {:induction false} CloseOutRegistered(port: Port, s: Link)
    requires Registered(s)
    ensures Registered(CloseOut(port, s))
    decreases Load(s, false)
  {
    if s.out != [] {
      CallErrorRegistered(port, s, s.out[0], SERIAL_PORT_CLOSED);
      CloseOutLoad(port, s);
      CloseOutRegistered(port, CloseOutFront(port, s));
    }
  }

  lemma StepRegistered(port: Port, s: Link, e: Stimulus)
    requires Registered(s)
    ensures Registered(Step(port, s, e))
  {
    match e
    case Submitted(c) => SubmitRegistered(port, s, c);
    case Received(code, data) =>
      match Judge(s.pending, code, data) {
        case Accept(i) => AcceptedRegistered(port, s, i);
        case Reject(i, error) => FailedRegistered(port, s, i, error);
        case Unmatched =>
      }
    case Ticked(now) => TickRegistered(port, s, now);
    case Closed =>
      ClosePendingRegistered(port, s);
      CloseOutRegistered(port, ClosePending(port, s));
  }

  lemma {:induction false} RunRegistered(port: Port, es: seq<Stimulus>)
    ensures Registered(Run(port, es))
  {
    if es != [] {
      RunRegistered(port, es[..|es| - 1]);
      StepRegistered(port, Run(port, es[..|es| - 1]), es[|es| - 1]);
    }
  }

  /** In every run, each write is the spelling of the command of its ticket, and is read back as that one message. */
  lemma EveryWriteSpellsItsCommand(port: Port, es: seq<Stimulus>, i: nat)
    requires i < |Run(port, es).trace| && Run(port, es).trace[i].Put?
    ensures var s, put := Run(port, es), Run(port, es).trace[i];
      && put.id < |s.issued|
      && var m := Spelling(s.issued[put.id].kind);
        put.bytes == OnLine(m) && (|m.data| <= 126 ==> Extract(put.bytes) == Extraction([m], [], false))
  {
    var s := Run(port, es);
    RunRegistered(port, es);
    assert Spelled(s, s.trace[i]);
    if |Spelling(s.issued[s.trace[i].id].kind).data| <= 126 {
      ReadBack(s.issued[s.trace[i].id].kind);
    }
  }

  lemma AdmitIssues(port: Port, s: Link, t: Ticket, bypass: bool)
    requires WritesOk(port)
    ensures Admit(port, s, t, bypass).issued == s.issued
  {
    assert port.writeOk(s.writes);
  }

  /** While writes succeed, what is submitted one after the other gets the next tickets in that order. */
  lemma {:induction false} SubmitAllIssues(port: Port, s: Link, cs: seq<Cmd>)
    requires WritesOk(port)
    ensures SubmitAll(port, s, cs).issued == s.issued + cs
    decreases cs
  {
    if cs != [] {
      AdmitIssues(port, Issued(s, cs[0]), Ticket(s.next, cs[0]), false);
      SubmitAllIssues(port, Submit(port, s, cs[0]), cs[1..]);
      assert [cs[0]] + cs[1..] == cs;
    }
  }

  /** What a stimulus makes clients submit: the command itself, or what the callback it leads to submits. */
  function Follow(port: Port, s: Link, e: Stimulus): seq<Cmd>
    requires !e.Closed?
  {
    match e
    case Submitted(c) => [c]
    case Received(code, data) =>
      (match Judge(s.pending, code, data)
       case Unmatched => []
       case Reject(i, _) => if i < |s.pending| then s.pending[i].ticket.cmd.onErr else []
       case Accept(i) =>
         if i >= |s.pending| then []
         else if port.throws(s.calls).Some? then FirstOf(s.pending[i].ticket.cmd.onOk, port.throws(s.calls).value)
         else s.pending[i].ticket.cmd.onOk)
    case Ticked(now) =>
      if s.pending == [] || s.pending[0].timeout >= now then []
      else if s.pending[0].noSent >= 3 || ConflictWithOut(s.out, s.pending[0].ticket.cmd) then s.pending[0].ticket.cmd.onErr
      else []
  }

  lemma DispatchIssues(port: Port, s: Link)
    requires WritesOk(port)
    ensures Dispatch(port, s).issued == s.issued
  {
    if s.out != [] {
      AdmitIssues(port, s.(out := s.out[1..]), s.out[0], true);
    }
  }

  /** While writes succeed, a step issues tickets for exactly the commands its callback submits, in their order. */
  lemma StepIssues(port: Port, s: Link, e: Stimulus)
    requires WritesOk(port) && !e.Closed?
    ensures Step(port, s, e).issued == s.issued + Follow(port, s, e)
  {
    match e
    case Submitted(c) => AdmitIssues(port, Issued(s, c), Ticket(s.next, c), false);
    case Received(code, data) =>
      match Judge(s.pending, code, data) {
        case Unmatched =>
        case Reject(i, error) => FailedIssues(port, s, i, error);
        case Accept(i) =>
          var t := s.pending[i].ticket;
          match port.throws(s.calls) {
            case Some(n) =>
              SubmitAllIssues(port, s.(calls := s.calls + 1, trace := s.trace + [Threw(t.id)]), FirstOf(t.cmd.onOk, n));
            case None =>
              SubmitAllIssues(port, s.(calls := s.calls + 1, trace := s.trace + [Done(t.id, Ok)]), t.cmd.onOk);
              DispatchIssues(port, Answered(port, s, i));
          }
      }
    case Ticked(now) =>
      if s.pending != [] {
        FailedIssues(port, s, 0, USB_NO_RESPONSE);
        FailedIssues(port, s, 0, PENDING_CONFLICT);
        assert port.writeOk(s.writes);
      }
  }

  lemma FailedIssues(port: Port, s: Link, i: nat, error: CmdError)
    requires WritesOk(port) && i < |s.pending|
    ensures Dispatch(port, Failed(port, s, i, error)).issued == s.issued + s.pending[i].ticket.cmd.onErr
  {
    var r, t := Removed(s, i), s.pending[i].ticket;
    SubmitAllIssues(port, r.(trace := r.trace + [Done(t.id, Err(error))]), t.cmd.onErr);
    DispatchIssues(port, Failed(port, s, i, error));
  }
}
