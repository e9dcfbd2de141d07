/**
  Ok callbacks that throw. The exception is caught around the processing of the message, so the command stays pending and
  its callback is called again. Error callbacks are taken to return.
*/
module Exceptions {
  import opened Basics
  import opened Commands
  import opened Pipeline
  import opened Ledger
  import opened PendingQueue
  import opened Drain

  /** The stimulus is an answer to ticket `k`, and the ok callback called now is one that throws. */
  predicate ThrowsAt(port: Port, s: Link, e: Stimulus, k: nat) {
    && e.Received?
    && port.throws(s.calls).Some?
    && var v := Judge(s.pending, e.code, e.data);
      v.Accept? && v.i < |s.pending| && s.pending[v.i].ticket.id == k
  }

  lemma {:induction false} ClosePendingGrows(port: Port, s: Link)
    ensures s.trace <= ClosePending(port, s).trace
    decreases Load(s, false)
  {
    if s.pending != [] {
      var t := s.pending[0].ticket;
      SubmitAllExtends(port, s.(trace := s.trace + [Done(t.id, Err(SERIAL_PORT_CLOSED))]), t.cmd.onErr);
      ClosePendingLoad(port, s);
      ClosePendingGrows(port, ClosePendingFront(port, s));
    }
  }

  lemma {:induction false} CloseOutGrows(port: Port, s: Link)
    ensures s.trace <= CloseOut(port, s).trace
    decreases Load(s, false)
  {
    if s.out != [] {
      var t := s.out[0];
      SubmitAllExtends(port, s.(trace := s.trace + [Done(t.id, Err(SERIAL_PORT_CLOSED))]), t.cmd.onErr);
      CloseOutLoad(port, s);
      CloseOutGrows(port, CloseOutFront(port, s));
    }
  }

  /** What has happened stays recorded. */
  lemma StepGrows(port: Port, s: Link, e: Stimulus)
    ensures s.trace <= Step(port, s, e).trace
  {
    match e
    case Submitted(c) => SubmitExtends(port, s, c);
    case Received(code, data) =>
      match Judge(s.pending, code, data) {
        case Accept(i) => AcceptedExtends(port, s, i);
        case Reject(i, error) => FailedExtends(port, s, i, error);
        case Unmatched =>
      }
    case Ticked(_) =>
      if s.pending != [] {
        FailedExtends(port, s, 0, USB_NO_RESPONSE);
        FailedExtends(port, s, 0, PENDING_CONFLICT);
        WriteExtends(port, s.(pending := s.pending[1..]), s.pending[0].ticket, s.pending[0].noSent + 1);
      }
    case Closed =>
      ClosePendingGrows(port, s);
      CloseOutGrows(port, ClosePending(port, s));
  }

  function Unthrown(k: nat): Event -> bool {
    (x: Event) => x != Threw(k)
  }

  /** Without a throw now, nothing else in a step makes a callback of ticket `k` throw. */
  lemma StepReturns(port: Port, s: Link, e: Stimulus, k: nat)
    requires Threw(k) !in s.trace && !ThrowsAt(port, s, e, k)
    ensures Threw(k) !in Step(port, s, e).trace
  {
    var allowed := Unthrown(k);
    assert OnlyAllowed(allowed, Step(port, s, e).trace, 0) by {
      match e
      case Submitted(c) =>
        var s1 := Issued(s, c);
        WriteAllowed(port, s1, Ticket(s.next, c), 1, allowed, 0);
        assert Step(port, s, e) == Admit(port, s1, Ticket(s.next, c), false);
      case Received(code, data) => ReceiveReturns(port, s, code, data, k);
      case Ticked(now) => TickAllowed(port, s, now, allowed, 0);
      case Closed => CloseAllowed(port, s, allowed, 0);
    }
    assert forall x :: x in Step(port, s, e).trace ==> allowed(x);
  }

  lemma ReceiveReturns(port: Port, s: Link, code: byte, data: seq<byte>, k: nat)
    requires Threw(k) !in s.trace && !ThrowsAt(port, s, Received(code, data), k)
    ensures OnlyAllowed(Unthrown(k), Receive(port, s, code, data).trace, 0)
  {
    var allowed := Unthrown(k);
    match Judge(s.pending, code, data)
    case Accept(i) =>
      var t := s.pending[i].ticket;
      match port.throws(s.calls) {
        case None =>
          SubmitAllAllowed(port, s.(calls := s.calls + 1, trace := s.trace + [Done(t.id, Ok)]), t.cmd.onOk, allowed, 0);
          DispatchAllowed(port, Answered(port, s, i), allowed, 0);
        case Some(n) =>
          SubmitAllAllowed(port, s.(calls := s.calls + 1, trace := s.trace + [Threw(t.id)]), FirstOf(t.cmd.onOk, n), allowed, 0);
      }
    case Reject(i, error) => FailedAllowed(port, s, i, error, allowed, 0);
    case Unmatched =>
  }

  lemma StepThrowsIff(port: Port, s: Link, e: Stimulus, k: nat)
    ensures Threw(k) in Step(port, s, e).trace <==> Threw(k) in s.trace || ThrowsAt(port, s, e, k)
  {
    StepGrows(port, s, e);
    if ThrowsAt(port, s, e, k) {
      var i := Judge(s.pending, e.code, e.data).i;
      AcceptedExtends(port, s, i);
      assert (s.trace + [Threw(k)])[|s.trace|] == Step(port, s, e).trace[|s.trace|];
    } else if Threw(k) !in s.trace {
      StepReturns(port, s, e, k);
    }
  }

  /** Some answer of the run makes the ok callback of ticket `k` throw. */
  predicate Thrown(port: Port, es: seq<Stimulus>, k: nat) {
    exists i :: 0 <= i < |es| && ThrowsAt(port, Run(port, es[..i]), es[i], k)
  }

  lemma ThrownSnoc(port: Port, es: seq<Stimulus>, k: nat)
    requires es != []
    ensures var n := |es| - 1;
      Thrown(port, es, k) <==> Thrown(port, es[..n], k) || ThrowsAt(port, Run(port, es[..n]), es[n], k)
  {
    var n := |es| - 1;
    assert forall i :: 0 <= i < n ==> es[..n][..i] == es[..i];
    if Thrown(port, es[..n], k) {
      var i :| 0 <= i < n && ThrowsAt(port, Run(port, es[..n][..i]), es[..n][i], k);
      assert ThrowsAt(port, Run(port, es[..i]), es[i], k);
    }
  }

  lemma {:induction false} RunThrowsIff(port: Port, es: seq<Stimulus>, k: nat)
    ensures Threw(k) in Run(port, es).trace <==> Thrown(port, es, k)
  {
    if es != [] {
      var n := |es| - 1;
      RunThrowsIff(port, es[..n], k);
      ThrownSnoc(port, es, k);
      StepThrowsIff(port, Run(port, es[..n]), es[n], k);
    }
  }

  /**
    Counting all calls of its callbacks, a ticket is in exactly one place or has been called exactly once, if and only if
    no answer came that its ok callback throws on. Error callbacks are taken to return: one that throws while the port is
    closing would leave its command queued although it has been called.
  */
  lemma CalledOnceIff(port: Port, es: seq<Stimulus>, k: nat)
    ensures var s := Run(port, es);
      Sum(s.pending, InPending(k)) + Sum(s.out, InOut(k)) + Calls(s, k) == (if k < s.next then 1 else 0)
      <==> !Thrown(port, es, k)
  {
    var s := Run(port, es);
    ExactlyOnce(port, es, k);
    RunThrowsIff(port, es, k);
    if Sum(s.trace, IsThrew(k)) > 0 {
      var i := SumPositive(s.trace, IsThrew(k));
    } else if i :| 0 <= i < |s.trace| && s.trace[i] == Threw(k) {
      SumAtLeast(s.trace, i, IsThrew(k));
    }
  }

  /** When no ok callback throws, every ticket ever submitted is waiting, or one of its callbacks has been called, once. */
  lemma CalledOnce(port: Port, es: seq<Stimulus>, k: nat)
    requires NeverThrows(port)
    ensures var s := Run(port, es);
      Sum(s.pending, InPending(k)) + Sum(s.out, InOut(k)) + Calls(s, k) == if k < s.next then 1 else 0
  {
    CalledOnceIff(port, es, k);
  }

  /** Smallest data of an answer that the link stores: the MTB-USB information, or the list of active modules. */
  function StoredSize(code: byte): nat {
    if code == USB_INFO then 6 else 32
  }

  /** Such an answer has been stored since the link was closed last. Even one with an unknown bus speed is. */
  predicate Known(es: seq<Stimulus>, code: byte) {
    es != [] &&
    var n := |es| - 1;
    !es[n].Closed? && (Stores(es[n], code) || Known(es[..n], code))
  }

  predicate Stores(e: Stimulus, code: byte) {
    e.Received? && e.code == code && |e.data| >= StoredSize(code)
  }

  /** The stimulus answers a request for the MTB-USB information or for the list of active modules. */
  predicate AnswersRequest(s: Link, e: Stimulus) {
    e.Received? && e.code in {USB_INFO, USB_ACTIVE_MODULES} && Judge(s.pending, e.code, e.data).Accept?
  }

  /**
    The daemon's callbacks of these requests begin by taking what they asked for out of the link: they throw at once,
    exactly when nothing is stored.
  */
  predicate TakesForGranted(port: Port, es: seq<Stimulus>) {
    forall i :: 0 <= i < |es| ==> CallbackFits(port, es[..i], es[i])
  }

  predicate CallbackFits(port: Port, es: seq<Stimulus>, e: Stimulus) {
    AnswersRequest(Run(port, es), e) ==>
      port.throws(Run(port, es).calls) == if Known(es + [e], e.code) then None else Some(0)
  }

  /** In every run of the daemon, such a callback throws exactly on an answer that is too short and comes when nothing is stored. */
  lemma AnswerThrowsIff(port: Port, es: seq<Stimulus>, i: nat)
    requires TakesForGranted(port, es) && i < |es| && AnswersRequest(Run(port, es[..i]), es[i])
    ensures var s := Run(port, es[..i]);
      ThrowsAt(port, s, es[i], s.pending[Judge(s.pending, es[i].code, es[i].data).i].ticket.id)
      <==> |es[i].data| < StoredSize(es[i].code) && !Known(es[..i], es[i].code)
  {
    assert CallbackFits(port, es[..i], es[i]);
    assert (es[..i] + [es[i]])[..i] == es[..i];
  }

  const INFO_REQUEST := Cmd(UsbInfoRequest, [], [])
  const SHORT_INFO: seq<byte> := [0x01, 0x01, 0x01]
  const LONG_INFO: seq<byte> := [0x01, 0x01, 0x01, 0x03, 0x04, 0x00]

  function InfoPut(noSent: nat): Event {
    Attempt(Ticket(0, INFO_REQUEST), noSent, true)
  }

  /** The first request of a connection, answered by this data. */
  function FirstAnswer(data: seq<byte>): (es: seq<Stimulus>)
    ensures |es| == 2
  {
    [Submitted(INFO_REQUEST), Received(USB_INFO, data)]
  }

  lemma FirstRequest(port: Port)
    requires port.writeOk(0)
    ensures Step(port, FRESH, Submitted(INFO_REQUEST))
      == Link([PendingCmd(Ticket(0, INFO_REQUEST), port.clock(0) + PENDING_TIMEOUT, 1)], [], 1, [INFO_REQUEST], 1, 0, [InfoPut(1)])
  {
  }

  lemma InfoAnswered(port: Port, s: Link, data: seq<byte>)
    requires |s.pending| == 1 && s.pending[0].ticket == Ticket(0, INFO_REQUEST) && s.out == [] && !BadInfo(USB_INFO, data)
    ensures Judge(s.pending, USB_INFO, data) == Accept(0)
    ensures Receive(port, s, USB_INFO, data) ==
      if port.throws(s.calls).None? then s.(pending := [], calls := s.calls + 1, trace := s.trace + [Done(0, Ok)])
      else s.(calls := s.calls + 1, trace := s.trace + [Threw(0)])
  {
    assert First(s.pending, (k: Kind) => k.AcceptsUsb(USB_INFO)) == Some(0);
  }

  /** The first answer of a connection completes the request if it is long enough; otherwise its callback throws and it stays pending. */
  lemma FirstAnswerThrowsIff(port: Port, data: seq<byte>)
    requires port.writeOk(0) && !BadInfo(USB_INFO, data) && TakesForGranted(port, FirstAnswer(data))
    ensures var s := Run(port, FirstAnswer(data));
      if |data| < 6 then |s.pending| == 1 && s.trace == [InfoPut(1), Threw(0)]
      else s.pending == [] && s.trace == [InfoPut(1), Done(0, Ok)]
  {
    var es := FirstAnswer(data);
    RunStep(port, [], es[0]);
    RunStep(port, [es[0]], es[1]);
    assert [] + [es[0]] == [es[0]] && [es[0]] + [es[1]] == es && es[..1] == [es[0]];
    FirstRequest(port);
    InfoAnswered(port, Run(port, es[..1]), data);
    AnswerThrowsIff(port, es, 1);
    assert !Known(es[..1], USB_INFO);
  }

  function ShortAnswerRun(port: Port): (es: seq<Stimulus>)
    ensures |es| == 4
  {
    FirstAnswer(SHORT_INFO) + [Ticked(port.clock(0) + PENDING_TIMEOUT + 1), Received(USB_INFO, LONG_INFO)]
  }

  /**
    A shortened answer to the first request of a connection makes its callback throw, so the command stays pending and is
    sent again, and the complete answer calls the callback a second time.
  */
  lemma ShortAnswerCallsTwice(port: Port)
    requires port.writeOk(0) && port.writeOk(1) && TakesForGranted(port, ShortAnswerRun(port))
    ensures var s := Run(port, ShortAnswerRun(port));
      && s.trace == [InfoPut(1), Threw(0), InfoPut(2), Done(0, Ok)]
      && Calls(s, 0) == 2
  {
    var es := ShortAnswerRun(port);
    ShortAnswerSent(port);
    LongAnswerReturns(port);
    RunStep(port, es[..3], es[3]);
    assert es[..3] + [es[3]] == es;
    CallsOf(Run(port, es[..3]).trace, Done(0, Ok));
  }

  lemma LongAnswerReturns(port: Port)
    requires TakesForGranted(port, ShortAnswerRun(port))
    requires var s := Run(port, ShortAnswerRun(port)[..3]);
      |s.pending| == 1 && s.pending[0].ticket == Ticket(0, INFO_REQUEST) && s.out == []
    ensures var s := Run(port, ShortAnswerRun(port)[..3]);
      Step(port, s, ShortAnswerRun(port)[3]) == s.(pending := [], calls := s.calls + 1, trace := s.trace + [Done(0, Ok)])
  {
    InfoAnswered(port, Run(port, ShortAnswerRun(port)[..3]), LONG_INFO);
    AnswerThrowsIff(port, ShortAnswerRun(port), 3);
  }

  lemma ShortAnswerSent(port: Port)
    requires port.writeOk(0) && port.writeOk(1) && TakesForGranted(port, ShortAnswerRun(port))
    ensures Run(port, ShortAnswerRun(port)[..3])
      == Link([PendingCmd(Ticket(0, INFO_REQUEST), port.clock(1) + PENDING_TIMEOUT, 2)], [], 1, [INFO_REQUEST], 2, 1,
              [InfoPut(1), Threw(0), InfoPut(2)])
  {
    var es := ShortAnswerRun(port);
    assert forall i :: 0 <= i < 2 ==> es[i] == FirstAnswer(SHORT_INFO)[i] && es[..i] == FirstAnswer(SHORT_INFO)[..i];
    assert TakesForGranted(port, FirstAnswer(SHORT_INFO)) by {
      assert forall i :: 0 <= i < 2 ==> CallbackFits(port, es[..i], es[i]);
    }
    FirstAnswerThrowsIff(port, SHORT_INFO);
    assert es[..2] == FirstAnswer(SHORT_INFO);
    FirstRequestThrown(port);
    RunStep(port, es[..2], es[2]);
    assert es[..2] + [es[2]] == es[..3];
  }

  lemma FirstRequestThrown(port: Port)
    requires port.writeOk(0) && |Run(port, FirstAnswer(SHORT_INFO)).pending| == 1
    ensures Run(port, FirstAnswer(SHORT_INFO))
      == Link([PendingCmd(Ticket(0, INFO_REQUEST), port.clock(0) + PENDING_TIMEOUT, 1)], [], 1, [INFO_REQUEST], 1, 1, [InfoPut(1), Threw(0)])
  {
    var es := FirstAnswer(SHORT_INFO);
    RunStep(port, [], es[0]);
    RunStep(port, [es[0]], es[1]);
    assert [] + [es[0]] == [es[0]] && [es[0]] + [es[1]] == es;
    FirstRequest(port);
    InfoAnswered(port, Run(port, [es[0]]), SHORT_INFO);
  }

  lemma CallsOf(trace: seq<Event>, last: Event)
    requires trace == [InfoPut(1), Threw(0), InfoPut(2)] && last == Done(0, Ok)
    ensures Sum(trace + [last], IsDone(0)) == 1 && Sum(trace + [last], IsThrew(0)) == 1
  {
    SumAppend(trace, last, IsDone(0));
    SumAppend(trace, last, IsThrew(0));
    assert trace == [trace[0]] + ([trace[1]] + [trace[2]]);
    SumConcat([trace[0]], [trace[1]] + [trace[2]], IsDone(0));
    SumConcat([trace[0]], [trace[1]] + [trace[2]], IsThrew(0));
    SumConcat([trace[1]], [trace[2]], IsDone(0));
    SumConcat([trace[1]], [trace[2]], IsThrew(0));
  }
}
