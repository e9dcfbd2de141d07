/**
  Which message from MTB-USB answers which command, by the numbers of the protocol, and that the program pairs them so.
*/
module Pairing {
  import opened Basics
  import opened Commands
  import opened Pipeline
  import opened Wire

  /** The message is a positive answer to a command of this kind: by the codes of the protocol, message by message. */
  predicate Answers(k: Kind, code: byte, data: seq<byte>) {
    match code
    case 0x01 => k.UsbChangeSpeed? || k.UsbPing?
    case 0x20 => k.UsbInfoRequest? && (|data| < 6 || data[1] % 16 in {1, 2, 3, 4})
    case 0x22 => k.UsbActiveModulesRequest?
    case 0x10 => |data| >= 3 && k.Forward? && k.addr == data[1] && AnswersBus(k.bus, k.addr, data[2], data[3..])
    case _ => false
  }

  /** The same for a message from a module, given its code and what follows it. */
  predicate AnswersBus(c: BusCmd, addr: byte, code: byte, data: seq<byte>) {
    match code
    case 0x01 =>
      || c.SetConfig? || c.Beacon? || c.ResetOutputs? || c.ChangeAddr? || c.ChangeSpeed? || c.FwUpgradeReq? || c.FwWriteFlash?
      || c.Specific? || c.Reboot?
    case 0x03 => c.ModuleInfoRequest? && |data| >= 6
    case 0x04 => c.GetConfig?
    case 0x11 => c.GetInputs?
    case 0x12 => c.SetOutput?
    case 0xD0 => c.GetDiagValue? && |data| >= 1
    case 0xF2 => c.FwWriteFlashStatusRequest? && |data| >= 1
    case 0xFE => c.Specific? && addr != 0
    case _ => false
  }

  /**
    The message reports that a command of this kind failed, with this error: MTB-USB names the module and the command code
    it got no response to, a module gives its own error code.
  */
  predicate Blames(k: Kind, code: byte, data: seq<byte>, error: CmdError) {
    match code
    case 0x02 =>
      && |data| >= 3 && data[0] == 0x01 && error == 0x12
      && k.Forward? && BusSpelling(k.bus)[0] == data[1] && k.addr == data[2]
    case 0x10 => |data| >= 4 && data[2] == 0x02 && k.Forward? && k.addr == data[1] && error == data[3]
    case _ => false
  }

  /** The program's tests of a command against a message are those of the protocol. */
  lemma SameAnswers(k: Kind, code: byte, data: seq<byte>)
    ensures code !in {USB_ERROR, USB_FORWARD, USB_NEW_MODULE, USB_MODULE_FAILED} && !BadInfo(code, data) ==>
      (k.AcceptsUsb(code) <==> Answers(k, code, data))
    ensures code == USB_FORWARD && |data| >= 3 && data[2] !in {BUS_ERROR, BUS_INPUT_CHANGED} ==>
      (k.AcceptsBus(data[1], data[2], data[3..]) <==> Answers(k, code, data))
  {
  }

  lemma SameCode(c: BusCmd)
    ensures BusSpelling(c)[0] == c.Code()
  {
  }

  lemma {:induction false} FirstIff(pending: seq<PendingCmd>, hit: Kind -> bool, i: nat)
    ensures First(pending, hit) == Some(i) <==>
      && i < |pending| && hit(pending[i].ticket.cmd.kind)
      && forall j :: 0 <= j < i ==> !hit(pending[j].ticket.cmd.kind)
  {
  }

  predicate OldestAnswered(pending: seq<PendingCmd>, code: byte, data: seq<byte>, i: nat) {
    && i < |pending| && Answers(pending[i].ticket.cmd.kind, code, data)
    && forall j :: 0 <= j < i ==> !Answers(pending[j].ticket.cmd.kind, code, data)
  }

  predicate OldestBlamed(pending: seq<PendingCmd>, code: byte, data: seq<byte>, i: nat, error: CmdError) {
    && i < |pending| && Blames(pending[i].ticket.cmd.kind, code, data, error)
    && forall j :: 0 <= j < i ==> !Blames(pending[j].ticket.cmd.kind, code, data, error)
  }

  /** A message completes the oldest pending command it is an answer to, and no command of any other kind. */
  lemma JudgeAcceptsIff(pending: seq<PendingCmd>, code: byte, data: seq<byte>, i: nat)
    ensures Judge(pending, code, data) == Accept(i) <==> OldestAnswered(pending, code, data, i)
  {
    forall j | 0 <= j < |pending|
      ensures code !in {USB_ERROR, USB_FORWARD, USB_NEW_MODULE, USB_MODULE_FAILED} && !BadInfo(code, data) ==>
        (pending[j].ticket.cmd.kind.AcceptsUsb(code) <==> Answers(pending[j].ticket.cmd.kind, code, data))
      ensures code == USB_FORWARD && |data| >= 3 && data[2] !in {BUS_ERROR, BUS_INPUT_CHANGED} ==>
        (pending[j].ticket.cmd.kind.AcceptsBus(data[1], data[2], data[3..]) <==> Answers(pending[j].ticket.cmd.kind, code, data))
    {
      SameAnswers(pending[j].ticket.cmd.kind, code, data);
    }
    if code == USB_FORWARD && |data| >= 3 {
      var from, busCode, rest := data[1], data[2], data[3..];
      FirstIff(pending, (k: Kind) => k.AcceptsBus(from, busCode, rest), i);
    } else {
      FirstIff(pending, (k: Kind) => k.AcceptsUsb(code), i);
    }
  }

  /** A message fails the oldest pending command it reports an error about, with the error it reports, and no other. */
  lemma JudgeRejectsIff(pending: seq<PendingCmd>, code: byte, data: seq<byte>, i: nat, error: CmdError)
    ensures Judge(pending, code, data) == Reject(i, error) <==> OldestBlamed(pending, code, data, i, error)
  {
    forall j | 0 <= j < |pending| && pending[j].ticket.cmd.kind.Forward?
      ensures BusSpelling(pending[j].ticket.cmd.kind.bus)[0] == pending[j].ticket.cmd.kind.bus.Code()
    {
      SameCode(pending[j].ticket.cmd.kind.bus);
    }
    if code == USB_FORWARD && |data| >= 3 {
      var from := data[1];
      FirstIff(pending, (k: Kind) => k.Forward? && k.addr == from, i);
    } else if code == USB_ERROR && |data| >= 3 {
      FirstIff(pending, (k: Kind) => k.Forward? && k.bus.Code() == data[1] && k.addr == data[2], i);
    }
  }
}
