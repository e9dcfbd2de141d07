/** When a command is written, when again, and when it is given up, in the numbers of the protocol. */
module Attempts {
  import opened Basics
  import opened Commands
  import opened Pipeline
  import opened Ledger
  import opened PendingQueue
  import opened Drain
  import opened SendOrder

  /** A change of the bus speed waits for another one. */
  predicate SpeedTaken(pending: seq<PendingCmd>, c: Cmd) {
    c.kind.UsbChangeSpeed? && exists i :: 0 <= i < |pending| && pending[i].ticket.cmd.kind.UsbChangeSpeed?
  }

  lemma SpeedTakenClashes(pending: seq<PendingCmd>, c: Cmd)
    ensures ConflictWithPending(pending, c) <==> SpeedTaken(pending, c)
  {
    if ConflictWithPending(pending, c) {
      var i :| 0 <= i < |pending| && Clash(pending[i].ticket.cmd, c);
      assert pending[i].ticket.cmd.kind.UsbChangeSpeed?;
    }
    if SpeedTaken(pending, c) {
      var i :| 0 <= i < |pending| && pending[i].ticket.cmd.kind.UsbChangeSpeed?;
      assert Clash(pending[i].ticket.cmd, c);
    }
  }

  /**
    A submitted command is written at once if and only if fewer than three commands are pending, there is no backlog, and no
    change of the bus speed is in its way; otherwise it joins the backlog and nothing else happens.
  */
  lemma WrittenAtOnceIff(port: Port, s: Link, c: Cmd)
    ensures var s' := Submit(port, s, c);
      if |s.pending| < 3 && s.out == [] && !SpeedTaken(s.pending, c)
      then s.trace + [Attempt(Ticket(s.next, c), 1, port.writeOk(s.writes))] <= s'.trace
      else s' == Issued(s, c).(out := s.out + [Ticket(s.next, c)])
  {
    SpeedTakenClashes(s.pending, c);
    WriteBegins(port, Issued(s, c), Ticket(s.next, c), 1);
  }

  lemma WriteBegins(port: Port, s: Link, t: Ticket, noSent: nat)
    ensures var written := s.trace + [Attempt(t, noSent, port.writeOk(s.writes))];
      (if port.writeOk(s.writes) then written else written + [Done(t.id, Err(0x10))]) <= Write(port, s, t, noSent).trace
  {
    if !port.writeOk(s.writes) {
      var put := s.(writes := s.writes + 1, trace := s.trace + [Attempt(t, noSent, false)]);
      SubmitAllExtends(port, put.(trace := put.trace + [Done(t.id, Err(SERIAL_PORT_CLOSED))]), t.cmd.onErr);
      assert Write(port, s, t, noSent) == CallError(port, put, t, SERIAL_PORT_CLOSED);
    }
  }

  /** A command that cannot be written is completed at once, with the error "port closed". */
  lemma FailedWriteReported(port: Port, c: Cmd)
    requires !port.writeOk(0)
    ensures [Attempt(Ticket(0, c), 1, false), Done(0, Err(0x10))] <= Submit(port, FRESH, c).trace
  {
    WriteBegins(port, Issued(FRESH, c), Ticket(0, c), 1);
    assert [] + [Attempt(Ticket(0, c), 1, false)] + [Done(0, Err(0x10))] == [Attempt(Ticket(0, c), 1, false), Done(0, Err(0x10))];
    assert Submit(port, FRESH, c) == Write(port, Issued(FRESH, c), Ticket(0, c), 1);
  }

  /** A change of the bus speed that is to be sent again gives way to one in the backlog. */
  predicate GivesWay(out: seq<Ticket>, c: Cmd) {
    c.kind.UsbChangeSpeed? && exists i :: 0 <= i < |out| && out[i].cmd.kind.UsbChangeSpeed?
  }

  lemma GivesWayClashes(out: seq<Ticket>, c: Cmd)
    ensures ConflictWithOut(out, c) <==> GivesWay(out, c)
  {
    if ConflictWithOut(out, c) {
      var i :| 0 <= i < |out| && Clash(out[i].cmd, c);
      assert out[i].cmd.kind.UsbChangeSpeed?;
    }
    if GivesWay(out, c) {
      var i :| 0 <= i < |out| && out[i].cmd.kind.UsbChangeSpeed?;
      assert Clash(out[i].cmd, c);
    }
  }

  /**
    What a tick does first with an expired front: after three transmissions it fails for want of a response, a change of
    the bus speed may give way, and every other command is written once more.
  */
  lemma ExpiredFront(port: Port, s: Link, now: int)
    requires s.pending != [] && s.pending[0].timeout < now
    ensures var p := s.pending[0];
      var first :=
        if p.noSent >= 3 then Done(p.ticket.id, Err(0x11))
        else if GivesWay(s.out, p.ticket.cmd) then Done(p.ticket.id, Err(0x13))
        else Attempt(p.ticket, p.noSent + 1, port.writeOk(s.writes));
      s.trace + [first] <= Tick(port, s, now).trace
  {
    var p := s.pending[0];
    GivesWayClashes(s.out, p.ticket.cmd);
    FailedExtends(port, s, 0, USB_NO_RESPONSE);
    FailedExtends(port, s, 0, PENDING_CONFLICT);
    WriteBegins(port, s.(pending := s.pending[1..]), p.ticket, p.noSent + 1);
  }

  /** In every reachable state a tick does something if and only if some pending command has expired. */
  lemma TickActsIff(port: Port, es: seq<Stimulus>, now: int)
    requires Monotone(port)
    ensures var s := Run(port, es);
      Tick(port, s, now) != s <==> exists i :: 0 <= i < |s.pending| && s.pending[i].timeout < now
  {
    var s := Run(port, es);
    FrontExpiresFirst(port, es, now);
    if s.pending != [] && s.pending[0].timeout < now {
      TickLoad(port, s, now, false);
    }
  }

  /** The state with this command pending alone. */
  function Alone(port: Port, c: Cmd, noSent: nat, trace: seq<Event>): Link
    requires noSent >= 1
  {
    Link([PendingCmd(Ticket(0, c), port.clock(noSent - 1) + 300, noSent)], [], 1, [c], noSent, 0, trace)
  }

  lemma WrittenAlone(port: Port, c: Cmd)
    requires port.writeOk(0)
    ensures Submit(port, FRESH, c) == Alone(port, c, 1, [Attempt(Ticket(0, c), 1, true)])
  {
    SubmitWritten(port, FRESH, c);
  }

  lemma WrittenAgain(port: Port, c: Cmd, noSent: nat, trace: seq<Event>, now: int)
    requires 1 <= noSent < 3 && port.writeOk(noSent) && now > port.clock(noSent - 1) + 300
    ensures Tick(port, Alone(port, c, noSent, trace), now)
      == Alone(port, c, noSent + 1, trace + [Attempt(Ticket(0, c), noSent + 1, true)])
  {
  }

  lemma GivenUp(port: Port, c: Cmd, trace: seq<Event>, now: int)
    requires now > port.clock(2) + 300
    ensures trace + [Done(0, Err(0x11))] <= Tick(port, Alone(port, c, 3, trace), now).trace
  {
    FailedExtends(port, Alone(port, c, 3, trace), 0, USB_NO_RESPONSE);
  }

  /**
    A command that is never answered is written exactly three times, each time when more than 300 ms have passed since the
    last, and then completed with the error "no response".
  */
  lemma UnansweredWrittenThreeTimes(port: Port, c: Cmd, t1: int, t2: int, t3: int)
    requires port.writeOk(0) && port.writeOk(1) && port.writeOk(2)
    requires t1 > port.clock(0) + 300 && t2 > port.clock(1) + 300 && t3 > port.clock(2) + 300
    ensures var t := Ticket(0, c);
      [Attempt(t, 1, true), Attempt(t, 2, true), Attempt(t, 3, true), Done(0, Err(0x11))]
      <= Run(port, [Submitted(c), Ticked(t1), Ticked(t2), Ticked(t3)]).trace
  {
    var t := Ticket(0, c);
    var w1, w2, w3 := Attempt(t, 1, true), Attempt(t, 2, true), Attempt(t, 3, true);
    FourSteps(port, Submitted(c), Ticked(t1), Ticked(t2), Ticked(t3));
    WrittenAlone(port, c);
    WrittenAgain(port, c, 1, [w1], t1);
    WrittenAgain(port, c, 2, [w1] + [w2], t2);
    GivenUp(port, c, [w1] + [w2] + [w3], t3);
    assert [w1] + [w2] + [w3] + [Done(0, Err(0x11))] == [w1, w2, w3, Done(0, Err(0x11))];
  }

  /** A change of the bus speed that expires while another one is waiting is not sent again: it fails, and the other one goes. */
  lemma ResendGivesWay(port: Port, now: int)
    requires WritesOk(port) && now > port.clock(0) + 300
    ensures var s := Tick(port, Submit(port, Submit(port, FRESH, CHANGE_SPEED), CHANGE_SPEED), now);
      && s.trace == [Attempt(Ticket(0, CHANGE_SPEED), 1, true), Done(0, Err(0x13)), Attempt(Ticket(1, CHANGE_SPEED), 1, true)]
      && s.out == []
  {
    WrittenAlone(port, CHANGE_SPEED);
    var s1 := Submit(port, FRESH, CHANGE_SPEED);
    assert Clash(s1.pending[0].ticket.cmd, CHANGE_SPEED);
    SubmitQueued(port, s1, CHANGE_SPEED);
    var s2 := Submit(port, s1, CHANGE_SPEED);
    assert Clash(s2.out[0].cmd, s2.pending[0].ticket.cmd);
    assert ConflictWithOut(s2.out, s2.pending[0].ticket.cmd);
    assert port.writeOk(1);
  }

  /** The error callbacks submit nothing. */
  predicate Quiet(s: Link) {
    && (forall i :: 0 <= i < |s.pending| ==> s.pending[i].ticket.cmd.onErr == [])
    && (forall i :: 0 <= i < |s.out| ==> s.out[i].cmd.onErr == [])
  }

  function Closings(ids: seq<nat>): seq<Event> {
    seq(|ids|, i requires 0 <= i < |ids| => Done(ids[i], Err(0x10)))
  }

  function PendingIds(pending: seq<PendingCmd>): seq<nat> {
    seq(|pending|, i requires 0 <= i < |pending| => pending[i].ticket.id)
  }

  lemma QuietError(port: Port, s: Link, t: Ticket)
    requires t.cmd.onErr == []
    ensures CallError(port, s, t, SERIAL_PORT_CLOSED) == s.(trace := s.trace + [Done(t.id, Err(0x10))])
  {
    assert SubmitAll(port, s.(trace := s.trace + [Done(t.id, Err(SERIAL_PORT_CLOSED))]), t.cmd.onErr)
      == s.(trace := s.trace + [Done(t.id, Err(0x10))]);
  }

  lemma {:induction false} QuietClosePending(port: Port, s: Link)
    requires Quiet(s)
    ensures ClosePending(port, s) == s.(pending := [], trace := s.trace + Closings(PendingIds(s.pending)))
    decreases |s.pending|
  {
    if s.pending == [] {
      assert s.trace + Closings(PendingIds([])) == s.trace;
    } else {
      var s1 := ClosePendingFront(port, s);
      QuietError(port, s, s.pending[0].ticket);
      assert s1 == s.(pending := s.pending[1..], trace := s.trace + [Done(s.pending[0].ticket.id, Err(0x10))]);
      QuietClosePending(port, s1);
      assert s1.trace + Closings(PendingIds(s1.pending)) == s.trace + Closings(PendingIds(s.pending));
    }
  }

  lemma {:induction false} QuietCloseOut(port: Port, s: Link)
    requires Quiet(s)
    ensures CloseOut(port, s) == s.(out := [], trace := s.trace + Closings(Ids(s.out)))
    decreases |s.out|
  {
    if s.out == [] {
      assert s.trace + Closings(Ids([])) == s.trace;
    } else {
      var s1 := CloseOutFront(port, s);
      QuietError(port, s, s.out[0]);
      assert s1 == s.(out := s.out[1..], trace := s.trace + [Done(s.out[0].id, Err(0x10))]);
      QuietCloseOut(port, s1);
      assert s1.trace + Closings(Ids(s1.out)) == s.trace + Closings(Ids(s.out));
    }
  }

  /** Closing fails the pending commands and then the backlog, each from the front, with the error "port closed". */
  lemma QuietClose(port: Port, s: Link)
    requires Quiet(s)
    ensures Close(port, s) == s.(pending := [], out := [], trace := s.trace + Closings(PendingIds(s.pending)) + Closings(Ids(s.out)))
  {
    QuietClosePending(port, s);
    QuietCloseOut(port, ClosePending(port, s));
  }
}
