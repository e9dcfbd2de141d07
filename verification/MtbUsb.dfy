/**
  Class `MtbUsb` (src/mtbusb): the two queues and the receive buffer, updated in place.
  Every method is proved to compute the corresponding function of `Pipeline` or `Framing`.
*/
module MtbUsb {
  import opened Basics
  import opened Commands
  import opened Pipeline
  import opened Framing
  import opened Ledger
  import opened PendingQueue

  const BUF_IN_TIMEOUT: int := 50

  /** The messages delivered by one reading, one after the other. */
  function ReceiveAll(port: Port, s: Link, ms: seq<Message>): Link
    decreases ms
  {
    if ms == [] then s else ReceiveAll(port, Receive(port, s, ms[0].code, ms[0].data), ms[1..])
  }

  /** What holds of the link between any two stimuli: the shape of its buffer, and the ledger of every ticket. */
  ghost predicate Sound(port: Port, s: Link) {
    Tidy(port, s) && forall k: nat :: Kept(s, k, 0)
  }

  lemma StepSound(port: Port, s: Link, e: Stimulus)
    requires Sound(port, s)
    ensures Sound(port, Step(port, s, e))
  {
    StepTidy(port, s, e);
    forall k: nat ensures Kept(Step(port, s, e), k, 0) {
      StepKept(port, s, e, k);
    }
  }

  lemma {:induction false} ReceiveAllSound(port: Port, s: Link, ms: seq<Message>)
    requires Sound(port, s)
    ensures Sound(port, ReceiveAll(port, s, ms))
    decreases ms
  {
    if ms != [] {
      StepSound(port, s, Received(ms[0].code, ms[0].data));
      ReceiveAllSound(port, Receive(port, s, ms[0].code, ms[0].data), ms[1..]);
    }
  }

  datatype Outlook = Outlook(link: Link, rest: seq<byte>, corrupt: bool)

  /** What the loop of `spHandleReadyRead` will have made of a state and a buffer. */
  function Ahead(port: Port, s: Link, buffer: seq<byte>): Outlook {
    var e := Extract(buffer);
    Outlook(ReceiveAll(port, s, e.messages), e.rest, e.corrupt)
  }

  /** The first message off the buffer is the first to be processed. */
  lemma MessageTaken(port: Port, s: Link, buffer: seq<byte>)
    requires FrameComplete(buffer)
    ensures var m, rest := Head(buffer), buffer[buffer[2] + 3..];
      Ahead(port, s, buffer) == Ahead(port, Receive(port, s, m.code, m.data), rest)
  {
    var later := Extract(buffer[buffer[2] + 3..]).messages;
    assert ([Head(buffer)] + later)[1..] == later;
  }

  lemma NoMessageLeft(port: Port, s: Link, buffer: seq<byte>)
    requires !FrameComplete(buffer)
    ensures Ahead(port, s, buffer) == Outlook(s, buffer, |buffer| > 2 && !(1 <= buffer[2] <= 127))
  {
  }

  class MtbUsb {
    const port: Port
    var pending: seq<PendingCmd>
    var out: seq<Ticket>
    var next: nat
    ghost var issued: seq<Cmd>
    var writes: nat
    var calls: nat
    ghost var trace: seq<Event>

    var readData: seq<byte>
    var receiveTimeout: int
    var corrupt: bool

    ghost function State(): Link
      reads this
    {
      Link(pending, out, next, issued, writes, calls, trace)
    }

    ghost predicate Valid()
      reads this
    {
      Sound(port, State())
    }

    constructor (port: Port)
      ensures this.port == port && Valid()
      ensures State() == FRESH && readData == [] && !corrupt
    {
      this.port := port;
      pending, out, next, issued, writes, calls, trace := [], [], 0, [], 0, 0, [];
      readData, receiveTimeout, corrupt := [], 0, false;
    }

    /** `send(vector)`: size and header are inserted at the front one by one. */
    method Frame(bytes: seq<byte>) returns (data: seq<byte>)
      ensures data == Framed(bytes)
    {
      data := bytes;
      data := [|data| % 256] + data;
      data := [MAGIC_1] + data;
      data := [MAGIC_0] + data;
    }

    method FindPending(hit: Kind -> bool) returns (r: Option<nat>)
      ensures r == First(pending, hit)
    {
      var i := 0;
      while i < |pending|
        invariant i <= |pending|
        invariant First(pending, hit) == match First(pending[i..], hit) case Some(j) => Some(i + j) case None => None
      {
        if hit(pending[i].ticket.cmd.kind) {
          return Some(i);
        }
        i := i + 1;
      }
      r := None;
    }

    method ConflictsWithPending(c: Cmd) returns (r: bool)
      ensures r == ConflictWithPending(pending, c)
    {
      r := false;
      for i := 0 to |pending|
        invariant r <==> exists j :: 0 <= j < i && Clash(pending[j].ticket.cmd, c)
      {
        r := r || Clash(pending[i].ticket.cmd, c);
      }
    }

    method ConflictsWithOut(c: Cmd) returns (r: bool)
      ensures r == ConflictWithOut(out, c)
    {
      r := false;
      for i := 0 to |out|
        invariant r <==> exists j :: 0 <= j < i && Clash(out[j].cmd, c)
      {
        r := r || Clash(out[i].cmd, c);
      }
    }

    /** Also called by callbacks, while the link is in the middle of a step and need not be valid. */
    method Send(c: Cmd)
      modifies `pending, `out, `next, `issued, `writes, `calls, `trace
      ensures State() == Submit(port, old(State()), c)
      ensures old(Valid()) ==> Valid()
      decreases c, 4
    {
      if Valid() {
        StepSound(port, State(), Submitted(c));
      }
      var t := Ticket(next, c);
      next, issued := next + 1, issued + [c];
      SendTicket(t, false);
    }

    method SendTicket(t: Ticket, bypass: bool)
      modifies `pending, `out, `next, `issued, `writes, `calls, `trace
      ensures State() == Admit(port, old(State()), t, bypass)
      decreases t.cmd, 3
    {
      var conflict := ConflictsWithPending(t.cmd);
      if |pending| >= MAX_PENDING || (out != [] && !bypass) || conflict {
        out := out + [t];
      } else {
        WriteTicket(t, 1);
      }
    }

    method WriteTicket(t: Ticket, noSent: nat)
      modifies `pending, `out, `next, `issued, `writes, `calls, `trace
      ensures State() == Write(port, old(State()), t, noSent)
      decreases t.cmd, 2
    {
      var data := Frame(t.cmd.kind.Bytes());
      var ok, at := port.writeOk(writes), port.clock(writes);
      writes := writes + 1;
      trace := trace + [Put(t.id, noSent, ok, data)];
      if ok {
        pending := pending + [PendingCmd(t, at + PENDING_TIMEOUT, noSent)];
      } else {
        OnError(t, SERIAL_PORT_CLOSED);
      }
    }

    /** The error callback of a command. */
    method OnError(t: Ticket, error: CmdError)
      modifies `pending, `out, `next, `issued, `writes, `calls, `trace
      ensures State() == CallError(port, old(State()), t, error)
      decreases t.cmd, 1
    {
      trace := trace + [Done(t.id, Err(error))];
      SendAll(t.cmd.onErr);
    }

    /** The ok callback of a command; `thrown` tells whether it ends with an exception. */
    method OnOk(t: Ticket) returns (thrown: bool)
      modifies `pending, `out, `next, `issued, `writes, `calls, `trace
      ensures thrown == port.throws(old(calls)).Some?
      ensures State() ==
        match port.throws(old(calls))
        case None => CallOk(port, old(State()), t)
        case Some(n) => ThrowingOk(port, old(State()), t, n)
    {
      var throws := port.throws(calls);
      calls := calls + 1;
      match throws
      case None =>
        thrown := false;
        trace := trace + [Done(t.id, Ok)];
        SendAll(t.cmd.onOk);
      case Some(n) =>
        thrown := true;
        trace := trace + [Threw(t.id)];
        SendAll(FirstOf(t.cmd.onOk, n));
    }

    method SendAll(cs: seq<Cmd>)
      modifies `pending, `out, `next, `issued, `writes, `calls, `trace
      ensures State() == SubmitAll(port, old(State()), cs)
      decreases cs, 5
    {
      var i := 0;
      while i < |cs|
        invariant i <= |cs|
        invariant SubmitAll(port, State(), cs[i..]) == SubmitAll(port, old(State()), cs)
      {
        Send(cs[i]);
        i := i + 1;
      }
    }

    method NextOut()
      modifies `pending, `out, `next, `issued, `writes, `calls, `trace
      ensures State() == Dispatch(port, old(State()))
    {
      if out != [] {
        var t := out[0];
        out := out[1..];
        SendTicket(t, true);
      }
    }

    /**
      The callback runs first; it can only append to `pending`, so its command is still at position `i`. When it throws,
      the rest is skipped.
    */
    method PendingOk(i: nat)
      requires i < |pending|
      modifies `pending, `out, `next, `issued, `writes, `calls, `trace
      ensures State() == Accepted(port, old(State()), i)
    {
      var t := pending[i].ticket;
      ghost var called := State().(calls := calls + 1, trace := trace + [Done(t.id, Ok)]);
      SubmitAllExtends(port, called, t.cmd.onOk);
      var thrown := OnOk(t);
      if !thrown {
        pending := pending[..i] + pending[i + 1..];
        NextOut();
      }
    }

    method PendingTimeoutError(error: CmdError, i: nat)
      modifies `pending, `out, `next, `issued, `writes, `calls, `trace
      ensures State() == Settle(port, old(State()), Reject(i, error))
    {
      if i >= |pending| {
        return;
      }
      var t := pending[i].ticket;
      pending := pending[..i] + pending[i + 1..];
      OnError(t, error);
      NextOut();
    }

    method HandleMtbUsbError(code: byte, outCommandCode: byte, addr: byte)
      modifies `pending, `out, `next, `issued, `writes, `calls, `trace
      ensures State() == Receive(port, old(State()), USB_ERROR, [code, outCommandCode, addr])
    {
      if code == ERROR_NO_RESPONSE {
        var hit := (k: Kind) => k.Forward? && k.bus.Code() == outCommandCode && k.addr == addr;
        var r := FindPending(hit);
        ghost var data := [code, outCommandCode, addr];
        SameHit(pending, hit, (k: Kind) => k.Forward? && k.bus.Code() == data[1] && k.addr == data[2]);
        if r.Some? {
          PendingTimeoutError(BUS_NO_RESPONSE, r.value);
        }
      }
    }

    method HandleMtbBusError(error: byte, addr: byte)
      modifies `pending, `out, `next, `issued, `writes, `calls, `trace
      ensures State() == Settle(port, old(State()), JudgeBus(old(pending), addr, BUS_ERROR, [error]))
    {
      var hit := (k: Kind) => k.Forward? && k.addr == addr;
      var r := FindPending(hit);
      if r.Some? {
        PendingTimeoutError(error, r.value);
      }
    }

    method ParseMtbBusMessage(from: byte, code: byte, data: seq<byte>)
      modifies `pending, `out, `next, `issued, `writes, `calls, `trace
      ensures State() == Settle(port, old(State()), JudgeBus(old(pending), from, code, data))
    {
      if code == BUS_ERROR {
        if data != [] {
          HandleMtbBusError(data[0], from);
        }
        return;
      }
      if code == BUS_INPUT_CHANGED {
        return;
      }
      var hit := (k: Kind) => k.AcceptsBus(from, code, data);
      var r := FindPending(hit);
      if r.Some? {
        PendingOk(r.value);
      }
    }

    method ParseMtbUsbMessage(code: byte, data: seq<byte>)
      modifies `pending, `out, `next, `issued, `writes, `calls, `trace
      ensures State() == Receive(port, old(State()), code, data)
      ensures old(Valid()) ==> Valid()
    {
      if Valid() {
        StepSound(port, State(), Received(code, data));
      }
      if code == USB_ERROR {
        if |data| >= 3 {
          HandleMtbUsbError(data[0], data[1], data[2]);
        }
        return;
      }
      if code == USB_FORWARD {
        if |data| >= 3 {
          ParseMtbBusMessage(data[1], data[2], data[3..]);
        }
        return;
      }
      if code == USB_NEW_MODULE || code == USB_MODULE_FAILED {
        return;
      }
      if BadInfo(code, data) {
        return;
      }
      var hit := (k: Kind) => k.AcceptsUsb(code);
      var r := FindPending(hit);
      if r.Some? {
        PendingOk(r.value);
      }
    }

    method PendingTimerTick(now: int)
      modifies `pending, `out, `next, `issued, `writes, `calls, `trace
      ensures State() == Tick(port, old(State()), now)
      ensures old(Valid()) ==> Valid()
    {
      if Valid() {
        StepSound(port, State(), Ticked(now));
      }
      if pending == [] {
        return;
      }
      if pending[0].timeout < now {
        if pending[0].noSent >= PENDING_RESEND_MAX {
          PendingTimeoutError(USB_NO_RESPONSE, 0);
        } else {
          PendingResend();
        }
      }
    }

    method PendingResend()
      requires pending != []
      modifies `pending, `out, `next, `issued, `writes, `calls, `trace
      ensures State() == Resend(port, old(State()))
    {
      var p := pending[0];
      pending := pending[1..];
      assert State() == Removed(old(State()), 0);
      var conflict := ConflictsWithOut(p.ticket.cmd);
      if conflict {
        OnError(p.ticket, PENDING_CONFLICT);
        NextOut();
        return;
      }
      WriteTicket(p.ticket, p.noSent + 1);
    }

    method SpAboutToClose()
      modifies `pending, `out, `next, `issued, `writes, `calls, `trace
      ensures State() == Close(port, old(State()))
      ensures old(Valid()) ==> Valid()
    {
      if Valid() {
        StepSound(port, State(), Closed);
      }
      while pending != []
        invariant ClosePending(port, State()) == ClosePending(port, old(State()))
        decreases Load(State(), false)
      {
        ghost var s := State();
        ClosePendingLoad(port, s);
        SubmitAllExtends(port, s.(trace := s.trace + [Done(s.pending[0].ticket.id, Err(SERIAL_PORT_CLOSED))]), s.pending[0].ticket.cmd.onErr);
        OnError(pending[0].ticket, SERIAL_PORT_CLOSED);
        pending := pending[1..];
        assert State() == ClosePendingFront(port, s);
      }
      while out != []
        invariant CloseOut(port, State()) == Close(port, old(State()))
        decreases Load(State(), false)
      {
        ghost var s := State();
        CloseOutLoad(port, s);
        SubmitAllExtends(port, s.(trace := s.trace + [Done(s.out[0].id, Err(SERIAL_PORT_CLOSED))]), s.out[0].cmd.onErr);
        OnError(out[0], SERIAL_PORT_CLOSED);
        out := out[1..];
        assert State() == CloseOutFront(port, s);
      }
    }

    /** `chunk` is what the serial port holds, `now` the time before and `later` the time after it is processed. */
    method SpHandleReadyRead(chunk: seq<byte>, now: int, later: int)
      modifies this
      ensures var arrival := Arrival(chunk, old(receiveTimeout) < now);
        var (rx, ms) := Read(Rx(old(readData), old(corrupt)), arrival);
        Rx(readData, corrupt) == rx && State() == ReceiveAll(port, old(State()), ms)
      ensures receiveTimeout == later + 50
      ensures old(Valid()) ==> Valid()
    {
      if Valid() {
        ReceiveAllSound(port, State(), Read(Rx(readData, corrupt), Arrival(chunk, receiveTimeout < now)).1);
      }
      ghost var rx, arrival := Rx(readData, corrupt), Arrival(chunk, receiveTimeout < now);
      if receiveTimeout < now && |readData| > 0 && !corrupt {
        readData := [];
      }
      readData := readData + chunk;
      receiveTimeout := later + BUF_IN_TIMEOUT;
      if corrupt {
        return;
      }
      assert readData == Collected(rx.buffer, arrival);
      var pos := IndexOfHeader(readData);
      readData := if pos.Some? then readData[pos.value..] else [];
      TakeMessages();
    }

    /** The loop of `spHandleReadyRead`. */
    method TakeMessages()
      modifies `pending, `out, `next, `issued, `writes, `calls, `trace, `readData, `corrupt
      ensures Outlook(State(), readData, corrupt) == Ahead(port, old(State()), old(readData))
    {
      while FrameComplete(readData)
        invariant Ahead(port, State(), readData) == Ahead(port, old(State()), old(readData))
        decreases |readData|
      {
        TakeMessage();
      }
      NoMessageLeft(port, State(), readData);
      corrupt := |readData| > 2 && !(1 <= readData[2] <= 127);
    }

    /** Its body: the message is processed before it is removed. */
    method TakeMessage()
      requires FrameComplete(readData)
      modifies `pending, `out, `next, `issued, `writes, `calls, `trace, `readData
      ensures |readData| < |old(readData)|
      ensures Ahead(port, State(), readData) == Ahead(port, old(State()), old(readData))
    {
      MessageTaken(port, State(), readData);
      var m := Head(readData);
      ParseMtbUsbMessage(m.code, m.data);
      readData := readData[readData[2] + 3..];
    }
  }

  lemma {:induction false} SameHit(pending: seq<PendingCmd>, f: Kind -> bool, g: Kind -> bool)
    requires forall k :: f(k) == g(k)
    ensures First(pending, f) == First(pending, g)
  {
    if pending != [] {
      SameHit(pending[1..], f, g);
    }
  }

  function Deliveries(ms: seq<Message>): seq<Stimulus> {
    seq(|ms|, i requires 0 <= i < |ms| => Received(ms[i].code, ms[i].data))
  }

  lemma {:induction false} ReceiveAllIsRun(port: Port, es: seq<Stimulus>, ms: seq<Message>)
    ensures ReceiveAll(port, Run(port, es), ms) == Run(port, es + Deliveries(ms))
    decreases ms
  {
    if ms == [] {
      assert es + Deliveries(ms) == es;
    } else {
      var e := Received(ms[0].code, ms[0].data);
      RunStep(port, es, e);
      ReceiveAllIsRun(port, es + [e], ms[1..]);
      DeliveriesCons(es, ms);
    }
  }

  lemma DeliveriesCons(es: seq<Stimulus>, ms: seq<Message>)
    requires ms != []
    ensures es + [Received(ms[0].code, ms[0].data)] + Deliveries(ms[1..]) == es + Deliveries(ms)
  {
  }

  /** What reaches the link: chunks of bytes from the device, and the other stimuli, in any order. */
  datatype Arriving = Chunk(arrival: Arrival) | Other(e: Stimulus)

  function Drive(port: Port, xs: seq<Arriving>): (Rx, Link) {
    if xs == [] then (Rx([], false), FRESH)
    else
      var (rx, s) := Drive(port, xs[..|xs| - 1]);
      match xs[|xs| - 1]
      case Chunk(a) => (Read(rx, a).0, ReceiveAll(port, s, Read(rx, a).1))
      case Other(e) => (rx, Step(port, s, e))
  }

  function Chunks(xs: seq<Arriving>): seq<Arrival> {
    if xs == [] then []
    else
      var n := |xs| - 1;
      Chunks(xs[..n]) + (if xs[n].Chunk? then [xs[n].arrival] else [])
  }

  /** Every chunk replaced by the messages it completes. */
  function Unfolded(xs: seq<Arriving>): seq<Stimulus> {
    if xs == [] then []
    else
      var n := |xs| - 1;
      Unfolded(xs[..n]) +
      match xs[n]
      case Chunk(a) => Deliveries(Read(ReadAll(Chunks(xs[..n])).0, a).1)
      case Other(e) => [e]
  }

  /** The messages among the stimuli, in order. */
  function Messages(es: seq<Stimulus>): seq<Message> {
    if es == [] then []
    else
      var n := |es| - 1;
      Messages(es[..n]) + (if es[n].Received? then [Message(es[n].code, es[n].data)] else [])
  }

  /** The other stimuli, in order. */
  function Others(es: seq<Stimulus>): seq<Stimulus> {
    if es == [] then []
    else
      var n := |es| - 1;
      Others(es[..n]) + (if es[n].Received? then [] else [es[n]])
  }

  function OthersAmong(xs: seq<Arriving>): seq<Stimulus> {
    if xs == [] then []
    else
      var n := |xs| - 1;
      OthersAmong(xs[..n]) + (if xs[n].Other? then [xs[n].e] else [])
  }

  lemma {:induction false} DriveIsRun(port: Port, xs: seq<Arriving>)
    ensures Drive(port, xs) == (ReadAll(Chunks(xs)).0, Run(port, Unfolded(xs)))
  {
    if xs != [] {
      var n := |xs| - 1;
      DriveIsRun(port, xs[..n]);
      match xs[n]
      case Chunk(a) =>
        ReadAllSnoc(Chunks(xs[..n]), a);
        ReceiveAllIsRun(port, Unfolded(xs[..n]), Read(ReadAll(Chunks(xs[..n])).0, a).1);
      case Other(e) =>
        RunStep(port, Unfolded(xs[..n]), e);
        assert Chunks(xs) == Chunks(xs[..n]);
    }
  }

  lemma DeliveriesSnoc(es: seq<Stimulus>, ms: seq<Message>)
    requires ms != []
    ensures var n := |ms| - 1;
      && es + Deliveries(ms) == es + Deliveries(ms[..n]) + [Received(ms[n].code, ms[n].data)]
      && ms == ms[..n] + [Message(ms[n].code, ms[n].data)]
  {
  }

  lemma {:induction false} Deliver(es: seq<Stimulus>, ms: seq<Message>)
    ensures Messages(es + Deliveries(ms)) == Messages(es) + ms && Others(es + Deliveries(ms)) == Others(es)
    decreases |ms|
  {
    if ms == [] {
      assert es + Deliveries(ms) == es;
    } else {
      var n := |ms| - 1;
      var e := Received(ms[n].code, ms[n].data);
      Deliver(es, ms[..n]);
      DeliveriesSnoc(es, ms);
      Snoc(es + Deliveries(ms[..n]), e);
    }
  }

  predicate NoMessage(xs: seq<Arriving>) {
    forall i :: 0 <= i < |xs| && xs[i].Other? ==> !xs[i].e.Received?
  }

  lemma Snoc(es: seq<Stimulus>, e: Stimulus)
    ensures Messages(es + [e]) == Messages(es) + (if e.Received? then [Message(e.code, e.data)] else [])
    ensures Others(es + [e]) == Others(es) + (if e.Received? then [] else [e])
  {
    assert (es + [e])[..|es|] == es;
  }

  lemma {:induction false} UnfoldedMessages(xs: seq<Arriving>)
    requires NoMessage(xs)
    ensures Messages(Unfolded(xs)) == ReadAll(Chunks(xs)).1
  {
    if xs != [] {
      var n := |xs| - 1;
      var chunks := Chunks(xs[..n]);
      UnfoldedMessages(xs[..n]);
      match xs[n]
      case Chunk(a) =>
        ReadAllSnoc(chunks, a);
        Deliver(Unfolded(xs[..n]), Read(ReadAll(chunks).0, a).1);
      case Other(e) =>
        Snoc(Unfolded(xs[..n]), e);
        assert Chunks(xs) == chunks;
    }
  }

  lemma {:induction false} UnfoldedOthers(xs: seq<Arriving>)
    requires NoMessage(xs)
    ensures Others(Unfolded(xs)) == OthersAmong(xs)
  {
    if xs != [] {
      var n := |xs| - 1;
      UnfoldedOthers(xs[..n]);
      match xs[n]
      case Chunk(a) => Deliver(Unfolded(xs[..n]), Read(ReadAll(Chunks(xs[..n])).0, a).1);
      case Other(e) => Snoc(Unfolded(xs[..n]), e);
    }
  }

  /**
    A stream of frames, cut without harm, drives the queues as its messages do, whatever is submitted, ticks or closes
    between the chunks: the run has exactly those messages and exactly those other stimuli, each in their order.
  */
  lemma StreamDrivesLink(port: Port, xs: seq<Arriving>, ms: seq<Message>)
    requires Input(Chunks(xs)) == Frames(ms) && AllFramable(ms) && HarmlessCuts(Chunks(xs), ms) && NoMessage(xs)
    ensures Drive(port, xs) == (Rx([], false), Run(port, Unfolded(xs)))
    ensures Messages(Unfolded(xs)) == ms && Others(Unfolded(xs)) == OthersAmong(xs)
  {
    InStepIffHarmlessCuts(Chunks(xs), ms);
    var (rx, delivered) := ReadAll(Chunks(xs));
    assert ms[|ms|..] == [];
    assert Frames(ms) + [] == Frames(ms);
    UnfinishedUnique(delivered, rx.buffer, ms, [], ms);
    DriveIsRun(port, xs);
    UnfoldedMessages(xs);
    UnfoldedOthers(xs);
  }
}
