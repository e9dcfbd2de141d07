/**
  Writing a firmware image to a module (the `fwUpgd...` methods of src/modules/module.cpp), and what is in the flash
  of the module afterwards.

  The module answers each command with one event; which answer is awaited is part of the state, and answers that are not
  awaited have no callback to call.
*/
module FirmwareUpgrade {
  import opened Basics
  import opened Commands
  import opened Firmware
  import Framing
  import Wire

  /** `FwWriteFlashStatus::WritingFlash`; every other value counts as ready. */
  const WRITING_FLASH: byte := 0x01

  datatype Event = GotInfo(inBootloader: bool) | StatusIs(status: byte) | Acked | NotDone(error: CmdError)

  datatype Awaited = Info | Status | WriteAck | Nothing

  /** The history of an upgrade: events received, commands sent, and the error reported to the client. */
  datatype Item = Got(event: Event) | Sent(cmd: BusCmd) | ReportedError

  datatype Upgrade = Upgrade(upgrading: bool, data: Storage, toWrite: nat, awaited: Awaited, trace: seq<Item>)

  function Begun(data: Storage): Upgrade {
    Upgrade(true, data, 0, Info, [])
  }

  /** The iterator `toWrite` is kept as a lower bound for the blocks not written yet; this is the block it points to. */
  function Current(data: Storage, from: nat): (r: Option<nat>)
    ensures r.Some? ==> r.value in data && r.value >= from && forall b :: from <= b < r.value ==> b !in data
    ensures r.None? ==> forall b :: b in data ==> b < from
    decreases Beyond(data, from)
  {
    if from in data then Some(from)
    else if exists b :: b in data && b >= from then
      BeyondShrinks(data, from);
      Current(data, from + 1)
    else None
  }

  /** An upper bound for the blocks of the storage, counted from `from`. */
  ghost function Beyond(data: Storage, from: nat): nat {
    var top := Top(data.Keys);
    if top >= from then top - from + 1 else 0
  }

  ghost function Top(bs: set<nat>): (r: nat)
    ensures forall b :: b in bs ==> b <= r
  {
    if bs == {} then 0
    else
      var b :| b in bs;
      var t := Top(bs - {b});
      assert forall c :: c in bs ==> c == b || c in bs - {b};
      if b > t then b else t
  }

  lemma BeyondShrinks(data: Storage, from: nat)
    requires exists b :: b in data && b >= from
    ensures Beyond(data, from + 1) < Beyond(data, from)
  {
  }

  /** The address travels in 16 bits. */
  function Address(b: nat): nat {
    b * BLOCK_SIZE % 0x1_0000
  }

  function WriteCommand(data: Storage, b: nat): BusCmd
    requires b in data
  {
    FwWriteFlash(Address(b) / 256, Address(b) % 256, data[b])
  }

  function Send(u: Upgrade, c: BusCmd, awaited: Awaited): Upgrade {
    u.(trace := u.trace + [Sent(c)], awaited := awaited)
  }

  /** `fwUpgdGotInfo`. */
  function HandleInfo(u: Upgrade, inBootloader: bool): Upgrade {
    if !inBootloader then Fail(u) else Send(u.(toWrite := 0), FwWriteFlashStatusRequest, Status)
  }

  /** `fwUpgdGotStatus`. */
  function HandleStatus(u: Upgrade, status: byte): Upgrade {
    if status == WRITING_FLASH then Send(u, FwWriteFlashStatusRequest, Status) else HandleReady(u)
  }

  function HandleReady(u: Upgrade): Upgrade {
    match Current(u.data, u.toWrite)
    case None => Send(u, Reboot, Nothing)
    case Some(b) => Send(u, WriteCommand(u.data, b), WriteAck).(toWrite := b + 1)
  }

  /** `fwUpgdError`. */
  function Fail(u: Upgrade): Upgrade {
    u.(upgrading := false, data := map[], awaited := Nothing, trace := u.trace + [ReportedError])
  }

  function Handle(u: Upgrade, e: Event): Upgrade {
    var v := u.(trace := u.trace + [Got(e)]);
    match e
    case GotInfo(inBootloader) => if u.awaited.Info? then HandleInfo(v, inBootloader) else u
    case StatusIs(status) => if u.awaited.Status? then HandleStatus(v, status) else u
    case Acked => if u.awaited.WriteAck? then Send(v, FwWriteFlashStatusRequest, Status) else u
    case NotDone(_) => if u.awaited.Nothing? then u else Fail(v)
  }

  function Run(data: Storage, es: seq<Event>): Upgrade {
    if es == [] then Begun(data) else Handle(Run(data, es[..|es| - 1]), es[|es| - 1])
  }

  /** The upgrade as the module object carries it out. */
  class FwUpgrade {
    var upgrading: bool
    var data: Storage
    var toWrite: nat
    var awaited: Awaited
    ghost var trace: seq<Item>
    ghost const image: Storage

    ghost function State(): Upgrade
      reads this
    {
      Upgrade(upgrading, data, toWrite, awaited, trace)
    }

    ghost predicate Valid()
      reads this
    {
      Sane(State(), image)
    }

    constructor (data: Storage)
      ensures State() == Begun(data) && image == data && Valid()
    {
      this.data, image := data, data;
      upgrading, toWrite, awaited, trace := true, 0, Info, [];
    }

    method SendCommand(c: BusCmd, awaited: Awaited)
      modifies this
      ensures State() == Send(old(State()), c, awaited)
    {
      this.awaited, trace := awaited, trace + [Sent(c)];
    }

    method FwUpgdGotInfo(inBootloader: bool)
      requires awaited.Info? && Valid()
      modifies this
      ensures Valid() && State() == Handle(old(State()), GotInfo(inBootloader))
    {
      HandleSane(State(), GotInfo(inBootloader), image);
      trace := trace + [Got(GotInfo(inBootloader))];
      if !inBootloader {
        FwUpgdError();
        return;
      }
      toWrite := 0;
      FwUpgdGetStatus();
    }

    method FwUpgdGetStatus()
      modifies this
      ensures State() == Send(old(State()), FwWriteFlashStatusRequest, Status)
    {
      SendCommand(FwWriteFlashStatusRequest, Status);
    }

    method FwUpgdGotStatus(status: byte)
      requires awaited.Status? && Valid()
      modifies this
      ensures Valid() && State() == Handle(old(State()), StatusIs(status))
    {
      ghost var u := State();
      HandleSane(u, StatusIs(status), image);
      trace := trace + [Got(StatusIs(status))];
      if status == WRITING_FLASH {
        FwUpgdGetStatus();
      } else {
        WriteOrReboot();
      }
      assert State() == Handle(u, StatusIs(status));
    }

    /** The module is ready for the next block. */
    method WriteOrReboot()
      modifies this
      ensures State() == HandleReady(old(State()))
    {
      match Current(data, toWrite)
      case None => SendCommand(Reboot, Nothing);
      case Some(b) =>
        SendCommand(WriteCommand(data, b), WriteAck);
        toWrite := b + 1;
    }

    method FwUpgdWritten()
      requires awaited.WriteAck? && Valid()
      modifies this
      ensures Valid() && State() == Handle(old(State()), Acked)
    {
      HandleSane(State(), Acked, image);
      trace := trace + [Got(Acked)];
      FwUpgdGetStatus();
    }

    /** Any command of the upgrade may fail instead of being answered. */
    method FwUpgdNotDone(error: CmdError)
      requires !awaited.Nothing? && Valid()
      modifies this
      ensures Valid() && State() == Handle(old(State()), NotDone(error))
    {
      HandleSane(State(), NotDone(error), image);
      trace := trace + [Got(NotDone(error))];
      FwUpgdError();
    }

    method FwUpgdError()
      modifies this
      ensures State() == Fail(old(State()))
    {
      upgrading, data, awaited := false, map[], Nothing;
      trace := trace + [ReportedError];
    }
  }

  predicate IsWrite(x: Item) {
    x.Sent? && x.cmd.FwWriteFlash?
  }

  /** The write commands among the items, in the order in which they were sent. */
  function Writes(trace: seq<Item>): seq<BusCmd> {
    if trace == [] then []
    else
      var n := |trace| - 1;
      Writes(trace[..n]) + (if IsWrite(trace[n]) then [trace[n].cmd] else [])
  }

  /** Write commands that have not been acknowledged. */
  function Unacked(trace: seq<Item>): nat {
    if trace == [] then 0
    else
      var n := |trace| - 1;
      if trace[n] == Got(Acked) then 0 else Unacked(trace[..n]) + (if IsWrite(trace[n]) then 1 else 0)
  }

  /** The module has just answered that it is not writing to its flash. */
  predicate Ready(trace: seq<Item>) {
    trace != [] && trace[|trace| - 1].Got? && trace[|trace| - 1].event.StatusIs? && trace[|trace| - 1].event.status != 0x01
  }

  /** The blocks of `data` below `to`, in ascending order, one command each. */
  function Plan(data: Storage, to: nat): seq<BusCmd> {
    if to == 0 then [] else Plan(data, to - 1) + (if to - 1 in data then [WriteCommand(data, to - 1)] else [])
  }

  /** Flash commands are sent only to a ready module that has acknowledged all earlier writes; after a reboot or an error nothing is sent. */
  predicate Disciplined(trace: seq<Item>) {
    && (forall i :: 0 <= i < |trace| && (IsWrite(trace[i]) || trace[i] == Sent(Reboot)) ==> Ready(trace[..i]) && Unacked(trace[..i]) == 0)
    && (forall i, j :: 0 <= i < j < |trace| && (trace[i] == Sent(Reboot) || trace[i].ReportedError?) ==> !trace[j].Sent?)
  }

  predicate Finished(trace: seq<Item>) {
    exists i :: 0 <= i < |trace| && (trace[i] == Sent(Reboot) || trace[i].ReportedError?)
  }

  predicate Rebooted(u: Upgrade) {
    Sent(Reboot) in u.trace
  }

  lemma Snoc(trace: seq<Item>, x: Item)
    ensures Writes(trace + [x]) == Writes(trace) + (if IsWrite(x) then [x.cmd] else [])
    ensures Unacked(trace + [x]) == if x == Got(Acked) then 0 else Unacked(trace) + (if IsWrite(x) then 1 else 0)
  {
    assert (trace + [x])[..|trace|] == trace;
  }

  lemma DisciplinedSnoc(trace: seq<Item>, x: Item)
    requires Disciplined(trace)
    requires x.Sent? ==> !Finished(trace)
    requires IsWrite(x) || x == Sent(Reboot) ==> Ready(trace) && Unacked(trace) == 0
    ensures Disciplined(trace + [x])
  {
    var t := trace + [x];
    assert forall i :: 0 <= i <= |trace| ==> t[..i] == trace[..i];
    assert trace[..|trace|] == trace;
  }

  /** What holds of an upgrade of the image `data` at any time. */
  predicate Sane(u: Upgrade, data: Storage) {
    && Disciplined(u.trace)
    && (Finished(u.trace) ==> u.awaited.Nothing?)
    && (!u.awaited.Nothing? ==> Unacked(u.trace) == if u.awaited.WriteAck? then 1 else 0)
    && Writes(u.trace) == Plan(data, u.toWrite)
    && (u.upgrading ==> u.data == data && !(ReportedError in u.trace))
    && (!u.upgrading ==> u.awaited.Nothing? && !Rebooted(u))
    && (u.awaited.Info? ==> u.toWrite == 0)
    && (Rebooted(u) ==> Current(data, u.toWrite).None?)
  }

  lemma {:induction false} PlanGap(data: Storage, from: nat, to: nat)
    requires from <= to && forall b :: from <= b < to ==> b !in data
    ensures Plan(data, to) == Plan(data, from)
  {
    if from < to {
      PlanGap(data, from, to - 1);
    }
  }

  lemma GotSane(u: Upgrade, e: Event, data: Storage)
    requires Sane(u, data) && !u.awaited.Nothing?
    requires e.Acked? <==> u.awaited.WriteAck?
    ensures var v := u.(trace := u.trace + [Got(e)]);
      && Disciplined(v.trace) && !Finished(v.trace)
      && Unacked(v.trace) == 0 && Writes(v.trace) == Writes(u.trace)
      && !(ReportedError in v.trace) && !Rebooted(v)
  {
    Snoc(u.trace, Got(e));
    DisciplinedSnoc(u.trace, Got(e));
  }

  /** A command other than the reboot, sent in a state in which sending is allowed. */
  lemma SendSane(u: Upgrade, c: BusCmd, awaited: Awaited, data: Storage)
    requires Disciplined(u.trace) && !Finished(u.trace) && !Rebooted(u) && Unacked(u.trace) == 0
    requires u.upgrading && u.data == data && !(ReportedError in u.trace)
    requires (awaited.Status? && c == FwWriteFlashStatusRequest) || (awaited.WriteAck? && c.FwWriteFlash? && Ready(u.trace))
    ensures Disciplined(Send(u, c, awaited).trace) && !Finished(Send(u, c, awaited).trace) && !Rebooted(Send(u, c, awaited))
    ensures !(ReportedError in Send(u, c, awaited).trace)
    ensures Unacked(Send(u, c, awaited).trace) == if awaited.WriteAck? then 1 else 0
    ensures Writes(Send(u, c, awaited).trace) == Writes(u.trace) + if c.FwWriteFlash? then [c] else []
  {
    Snoc(u.trace, Sent(c));
    DisciplinedSnoc(u.trace, Sent(c));
  }

  /** Ready to act on the status just received. */
  predicate Poised(u: Upgrade, data: Storage) {
    && Disciplined(u.trace) && !Finished(u.trace) && !Rebooted(u) && Unacked(u.trace) == 0 && !(ReportedError in u.trace)
    && u.upgrading && u.data == data && Writes(u.trace) == Plan(data, u.toWrite)
  }

  lemma WriteSane(u: Upgrade, data: Storage, b: nat)
    requires Poised(u, data) && Ready(u.trace) && Current(data, u.toWrite) == Some(b)
    ensures Sane(Send(u, WriteCommand(data, b), WriteAck).(toWrite := b + 1), data)
  {
    SendSane(u, WriteCommand(data, b), WriteAck, data);
    PlanGap(data, u.toWrite, b);
  }

  lemma RebootSane(u: Upgrade, data: Storage)
    requires Poised(u, data) && Ready(u.trace) && Current(data, u.toWrite).None?
    ensures Sane(Send(u, Reboot, Nothing), data)
  {
    Snoc(u.trace, Sent(Reboot));
    DisciplinedSnoc(u.trace, Sent(Reboot));
  }

  lemma StatusSane(u: Upgrade, status: byte, data: Storage)
    requires Sane(u, data) && u.awaited.Status?
    ensures Sane(Handle(u, StatusIs(status)), data)
  {
    var v := u.(trace := u.trace + [Got(StatusIs(status))]);
    GotSane(u, StatusIs(status), data);
    ActSane(v, status, data);
  }

  lemma ActSane(v: Upgrade, status: byte, data: Storage)
    requires Poised(v, data) && v.trace != [] && v.trace[|v.trace| - 1] == Got(StatusIs(status))
    ensures Sane(HandleStatus(v, status), data)
  {
    if status == WRITING_FLASH {
      SendSane(v, FwWriteFlashStatusRequest, Status, data);
    } else {
      assert Ready(v.trace);
      match Current(data, v.toWrite)
      case Some(b) => WriteSane(v, data, b);
      case None => RebootSane(v, data);
    }
  }

  lemma FailSane(u: Upgrade, e: Event, data: Storage)
    requires Sane(u, data) && !u.awaited.Nothing? && !e.Acked? && !e.StatusIs?
    ensures Sane(Fail(u.(trace := u.trace + [Got(e)])), data)
  {
    var v := u.(trace := u.trace + [Got(e)]);
    Snoc(u.trace, Got(e));
    DisciplinedSnoc(u.trace, Got(e));
    ReportSane(v, data);
  }

  lemma ReportSane(v: Upgrade, data: Storage)
    requires Disciplined(v.trace) && !Rebooted(v) && Writes(v.trace) == Plan(data, v.toWrite)
    ensures Sane(Fail(v), data)
  {
    Snoc(v.trace, ReportedError);
    DisciplinedSnoc(v.trace, ReportedError);
    var t := v.trace + [ReportedError];
    assert Sent(Reboot) !in t;
  }

  lemma InfoSane(u: Upgrade, inBootloader: bool, data: Storage)
    requires Sane(u, data) && u.awaited.Info?
    ensures Sane(Handle(u, GotInfo(inBootloader)), data)
  {
    var e := GotInfo(inBootloader);
    if inBootloader {
      GotSane(u, e, data);
      SendSane(u.(trace := u.trace + [Got(e)]), FwWriteFlashStatusRequest, Status, data);
    } else {
      FailSane(u, e, data);
    }
  }

  lemma AckSane(u: Upgrade, data: Storage)
    requires Sane(u, data) && u.awaited.WriteAck?
    ensures Sane(Handle(u, Acked), data)
  {
    GotSane(u, Acked, data);
    SendSane(u.(trace := u.trace + [Got(Acked)]), FwWriteFlashStatusRequest, Status, data);
  }

  lemma HandleSane(u: Upgrade, e: Event, data: Storage)
    requires Sane(u, data)
    ensures Sane(Handle(u, e), data)
  {
    match e
    case GotInfo(inBootloader) =>
      if u.awaited.Info? {
        InfoSane(u, inBootloader, data);
      }
    case StatusIs(status) =>
      if u.awaited.Status? {
        StatusSane(u, status, data);
      }
    case Acked =>
      if u.awaited.WriteAck? {
        AckSane(u, data);
      }
    case NotDone(_) =>
      if !u.awaited.Nothing? {
        FailSane(u, e, data);
      }
  }

  lemma {:induction false} RunSane(data: Storage, es: seq<Event>)
    ensures Sane(Run(data, es), data)
  {
    if es != [] {
      RunSane(data, es[..|es| - 1]);
      HandleSane(Run(data, es[..|es| - 1]), es[|es| - 1], data);
    }
  }

  /**
    Whatever the module answers: a block is written, or the module rebooted, only right after it has reported that it is
    not writing and when every earlier write has been acknowledged; nothing is sent after the reboot or after an error.
  */
  lemma ProtocolSafety(data: Storage, es: seq<Event>)
    ensures Disciplined(Run(data, es).trace)
  {
    RunSane(data, es);
  }

  /** When the module is rebooted, every block of the image has been written exactly once, in ascending order. */
  lemma RebootMeansWritten(data: Storage, es: seq<Event>, top: nat)
    requires Rebooted(Run(data, es)) && forall b :: b in data ==> b < top
    ensures Writes(Run(data, es).trace) == Plan(data, top)
  {
    var u := Run(data, es);
    RunSane(data, es);
    if top <= u.toWrite {
      PlanGap(data, top, u.toWrite);
    } else {
      PlanGap(data, u.toWrite, top);
    }
  }

  /** The blocks of the plan. */
  lemma {:induction false} PlanBlocks(data: Storage, to: nat) returns (bs: seq<nat>)
    ensures |bs| == |Plan(data, to)|
    ensures forall i :: 0 <= i < |bs| ==> bs[i] in data && bs[i] < to && Plan(data, to)[i] == WriteCommand(data, bs[i])
    ensures forall i, j :: 0 <= i < j < |bs| ==> bs[i] < bs[j]
    ensures forall b :: b in data && b < to ==> b in bs
  {
    if to == 0 {
      bs := [];
    } else {
      bs := PlanBlocks(data, to - 1);
      if to - 1 in data {
        bs := bs + [to - 1];
      }
    }
  }

  lemma StartsAscend(data: Storage, b: nat, c: nat)
    requires b in data && c in data && b < c && Addressable(data)
    ensures Start(WriteCommand(data, b)) < Start(WriteCommand(data, c))
  {
    StartOfBlock(data, b);
    StartOfBlock(data, c);
  }

  /**
    In every run, ended by an error or not: the blocks are written in ascending order, each at most once and none left out
    before another; their addresses ascend too, when all blocks can be addressed.
  */
  lemma WritesAscend(data: Storage, es: seq<Event>) returns (bs: seq<nat>)
    ensures var cs := Writes(Run(data, es).trace);
      && |bs| == |cs|
      && (forall i :: 0 <= i < |bs| ==> bs[i] in data && cs[i] == WriteCommand(data, bs[i]))
      && (Addressable(data) ==> forall i, j :: 0 <= i < j < |cs| ==> Start(cs[i]) < Start(cs[j]))
    ensures forall i, j :: 0 <= i < j < |bs| ==> bs[i] < bs[j]
    ensures forall b, i :: 0 <= i < |bs| && b in data && b < bs[i] ==> b in bs
  {
    var cs := Writes(Run(data, es).trace);
    RunSane(data, es);
    bs := PlanBlocks(data, Run(data, es).toWrite);
    if Addressable(data) {
      forall i, j | 0 <= i < j < |cs| ensures Start(cs[i]) < Start(cs[j]) {
        StartsAscend(data, bs[i], bs[j]);
      }
    }
  }

  /** A command writes the bytes of its block from its address on. */
  predicate Burns(c: BusCmd, a: nat) {
    c.FwWriteFlash? && Start(c) <= a < Start(c) + |c.block|
  }

  /** The flash after the commands, `before` being its content before them. */
  function Flash(before: nat -> byte, cs: seq<BusCmd>, a: nat): byte {
    if cs == [] then before(a)
    else
      var c := cs[|cs| - 1];
      if Burns(c, a) then c.block[a - Start(c)] else Flash(before, cs[..|cs| - 1], a)
  }

  /** The image alone: what the storage says about an address. */
  function StoredAt(data: Storage, before: nat -> byte, a: nat): byte {
    if a / BLOCK_SIZE in data && a % BLOCK_SIZE < |data[a / BLOCK_SIZE]| then data[a / BLOCK_SIZE][a % BLOCK_SIZE] else before(a)
  }

  /** Blocks whose addresses fit in the 16 bits of the write command. */
  predicate Addressable(data: Storage) {
    forall b :: b in data ==> b < 1024
  }

  predicate WholeBlocks(data: Storage) {
    forall b :: b in data ==> |data[b]| == BLOCK_SIZE
  }

  /** Where a write command begins to write. */
  function Start(c: BusCmd): nat
    requires c.FwWriteFlash?
  {
    c.addrHigh * 256 + c.addrLow
  }

  lemma StartOfBlock(data: Storage, b: nat)
    requires b in data
    ensures Start(WriteCommand(data, b)) == (b % 1024) * BLOCK_SIZE
  {
    Wrapped(b / 1024, b % 1024);
    Halves(Address(b));
  }

  lemma Wrapped(q: nat, r: nat)
    requires r < 1024
    ensures (1024 * q + r) * 64 % 0x1_0000 == r * 64
  {
    var x := (1024 * q + r) * 64;
    assert x == 0x1_0000 * q + 64 * r;
  }

  lemma Halves(x: nat)
    ensures x / 256 * 256 + x % 256 == x
  {
  }

  lemma InBlockIff(c: nat, a: nat)
    ensures c * BLOCK_SIZE <= a < c * BLOCK_SIZE + BLOCK_SIZE <==> a / BLOCK_SIZE == c
  {
  }

  lemma BurnsBlock(data: Storage, b: nat, a: nat)
    requires b in data && WholeBlocks(data)
    ensures Burns(WriteCommand(data, b), a) <==> a / BLOCK_SIZE == b % 1024
    ensures Start(WriteCommand(data, b)) == (b % 1024) * BLOCK_SIZE
  {
    StartOfBlock(data, b);
    InBlockIff(b % 1024, a);
  }

  lemma {:induction false} PlanFlash(data: Storage, before: nat -> byte, to: nat, a: nat)
    requires Addressable(data) && WholeBlocks(data)
    ensures Flash(before, Plan(data, to), a) == if a / BLOCK_SIZE < to then StoredAt(data, before, a) else before(a)
  {
    if to > 0 {
      var b := to - 1;
      PlanFlash(data, before, b, a);
      if b in data {
        var p := Plan(data, to);
        assert p[..|p| - 1] == Plan(data, b) && p[|p| - 1] == WriteCommand(data, b);
        BlockFlash(data, before, b, Plan(data, b), a);
        assert p == Plan(data, b) + [WriteCommand(data, b)];
      } else {
        assert Plan(data, to) == Plan(data, b);
      }
    }
  }

  /** One more block written. */
  lemma BlockFlash(data: Storage, before: nat -> byte, b: nat, cs: seq<BusCmd>, a: nat)
    requires b in data && WholeBlocks(data)
    ensures Flash(before, cs + [WriteCommand(data, b)], a)
      == if a / BLOCK_SIZE == b % 1024 then data[b][a % BLOCK_SIZE] else Flash(before, cs, a)
  {
    var c := WriteCommand(data, b);
    assert (cs + [c])[..|cs|] == cs;
    BurnsBlock(data, b, a);
    assert a == (a / BLOCK_SIZE) * BLOCK_SIZE + a % BLOCK_SIZE;
  }

  /**
    From the records of a firmware file to the flash of the module: when the module is rebooted after the upgrade, every
    address of a page the records touch holds the byte of the last record covering it, or 0xFF when none does, and every
    other address is as before - provided that all blocks can be addressed.
  */
  lemma EndToEnd(records: seq<Record>, blocksPerPage: nat, data: Storage, es: seq<Event>, before: nat -> byte, a: nat)
    requires blocksPerPage > 0 && RepresentsPages(data, records, blocksPerPage) && Addressable(data)
    requires Rebooted(Run(data, es))
    ensures Flash(before, Writes(Run(data, es).trace), a)
      == if PageTouched(records, blocksPerPage, a / BLOCK_SIZE) then ImageAt(records, a) else before(a)
  {
    RepresentedBlocks(records, blocksPerPage, data, before, a);
    RebootMeansWritten(data, es, 1024);
    PlanFlash(data, before, 1024, a);
  }

  /** The flash at any time, after an error too: the image in the blocks written so far, and the old content elsewhere. */
  lemma PartialFlash(data: Storage, es: seq<Event>, before: nat -> byte, a: nat)
    requires Addressable(data) && WholeBlocks(data)
    ensures var u := Run(data, es);
      Flash(before, Writes(u.trace), a) == if a / BLOCK_SIZE < u.toWrite then StoredAt(data, before, a) else before(a)
  {
    RunSane(data, es);
    PlanFlash(data, before, Run(data, es).toWrite, a);
  }

  lemma RepresentedBlocks(records: seq<Record>, blocksPerPage: nat, data: Storage, before: nat -> byte, a: nat)
    requires blocksPerPage > 0 && RepresentsPages(data, records, blocksPerPage)
    ensures WholeBlocks(data)
    ensures StoredAt(data, before, a) == if PageTouched(records, blocksPerPage, a / BLOCK_SIZE) then ImageAt(records, a) else before(a)
    ensures a / BLOCK_SIZE >= 1024 && Addressable(data) ==> StoredAt(data, before, a) == before(a)
  {
    forall c | c in data ensures |data[c]| == BLOCK_SIZE {
      assert Holds(data[c], records, c);
    }
    var b: nat := a / BLOCK_SIZE;
    if b in data {
      assert Holds(data[b], records, b);
      assert data[b][a % BLOCK_SIZE] == ImageAt(records, b * BLOCK_SIZE + a % BLOCK_SIZE);
    }
  }

  /** Some command of the plan writes this address. */
  predicate Written(cs: seq<BusCmd>, a: nat) {
    exists i :: 0 <= i < |cs| && Burns(cs[i], a)
  }

  lemma {:induction false} PlanWrites(data: Storage, to: nat, a: nat)
    requires WholeBlocks(data)
    ensures Written(Plan(data, to), a) <==> exists b: nat :: b < to && b in data && b % 1024 == a / BLOCK_SIZE
  {
    if to > 0 {
      PlanWrites(data, to - 1, a);
      var p, q := Plan(data, to), Plan(data, to - 1);
      if to - 1 in data {
        BurnsBlock(data, to - 1, a);
        assert p[|q|] == WriteCommand(data, to - 1);
      }
      assert forall i :: 0 <= i < |q| ==> p[i] == q[i];
    }
  }

  /** The commands write the addresses of the blocks, and no others. */
  ghost predicate WritesExactly(cs: seq<BusCmd>, data: Storage) {
    forall a: nat :: Written(cs, a) <==> Belongs(data, a)
  }

  predicate Belongs(data: Storage, a: nat) {
    a / BLOCK_SIZE in data
  }

  lemma PlanExactIff(data: Storage, top: nat)
    requires WholeBlocks(data) && forall b :: b in data ==> b < top
    ensures WritesExactly(Plan(data, top), data) <==> Addressable(data)
  {
    if Addressable(data) {
      forall a: nat ensures Written(Plan(data, top), a) <==> Belongs(data, a) {
        PlanWrites(data, top, a);
      }
    } else {
      // The address of a block from 1024 on is never written: 16 bits do not reach it.
      var b :| b in data && b >= 1024;
      PlanWrites(data, top, b * BLOCK_SIZE);
      assert b * BLOCK_SIZE / BLOCK_SIZE == b;
      assert Belongs(data, b * BLOCK_SIZE);
    }
  }

  /** An upgrade writes exactly the addresses of its blocks if and only if all blocks can be addressed with 16 bits. */
  lemma WritesItsBlocksIff(data: Storage, es: seq<Event>)
    requires WholeBlocks(data) && Rebooted(Run(data, es))
    ensures WritesExactly(Writes(Run(data, es).trace), data) <==> Addressable(data)
  {
    var top := Top(data.Keys) + 1;
    RebootMeansWritten(data, es, top);
    PlanExactIff(data, top);
  }

  /** A firmware of one byte at address 65536, for a module with pages of 128 bytes: its page is made of blocks 1024 and 1025. */
  function FarFirmware(): Storage {
    map[1024 := ErasedBlock()[0 := 7], 1025 := ErasedBlock()]
  }

  /**
    Every upgrade with it that gets as far as the reboot has overwritten the first page of the flash, which the file does
    not mention, and left the page it was meant for as it was.
  */
  lemma WrappedAddress(before: nat -> byte, es: seq<Event>, a: nat)
    requires Rebooted(Run(FarFirmware(), es))
    ensures RepresentsPages(FarFirmware(), [Record(0x1_0000, [7])], 128 / BLOCK_SIZE)
    ensures Flash(before, Writes(Run(FarFirmware(), es).trace), a)
      == if a == 0 then 7 else if a < 128 then 0xFF else before(a)
  {
    var data := FarFirmware();
    FarImage();
    RebootMeansWritten(data, es, 1026);
    PlanOfTwo(data, 1024);
    FarFlash(before, a);
  }

  lemma FarFlash(before: nat -> byte, a: nat)
    ensures Flash(before, [WriteCommand(FarFirmware(), 1024), WriteCommand(FarFirmware(), 1025)], a)
      == if a == 0 then 7 else if a < 128 then 0xFF else before(a)
  {
    var data := FarFirmware();
    var c1, c2 := WriteCommand(data, 1024), WriteCommand(data, 1025);
    BlockFlash(data, before, 1024, [], a);
    BlockFlash(data, before, 1025, [c1], a);
    assert [] + [c1] == [c1] && [c1] + [c2] == [c1, c2];
  }

  /** And a module in its bootloader that keeps answering does get as far. */
  lemma FarFirmwareFinishes() returns (es: seq<Event>)
    ensures |es| == 6 && Rebooted(Run(FarFirmware(), es))
  {
    var data := FarFirmware();
    RunSnoc(data, [], GotInfo(true));
    var begin := [] + [GotInfo(true)];
    var u := Run(data, begin);
    assert u.awaited.Status? && u.data == data && u.toWrite == 0;
    assert Left(data, 0) == {1024, 1025};
    var more := CooperativeModuleFinishes(data, begin);
    es := begin + more;
  }

  lemma PlanOfTwo(data: Storage, b: nat)
    requires data.Keys == {b, b + 1}
    ensures Plan(data, b + 2) == [WriteCommand(data, b), WriteCommand(data, b + 1)]
  {
    PlanGap(data, 0, b);
    assert Plan(data, b + 1) == [] + [WriteCommand(data, b)];
  }

  lemma FarImage()
    ensures RepresentsPages(FarFirmware(), [Record(0x1_0000, [7])], 2)
  {
    var fw, r := FarFirmware(), Record(0x1_0000, [7]);
    assert [r][..0] == [];
    assert forall a: nat :: Covers(r, a) <==> a == 0x1_0000;
    forall b: nat ensures Touched([r], b) <==> b == 1024 {
      if b == 1024 {
        assert Covers([r][0], 0x1_0000) && InBlock(b, 0x1_0000);
      }
    }
    forall b: nat ensures b in fw <==> PageTouched([r], 2, b) {
      if b in fw {
        assert Touched([r], 1024) && SamePage(2, 1024, b);
      }
    }
    forall b: nat | b in fw ensures Holds(fw[b], [r], b) {
      forall o | 0 <= o < BLOCK_SIZE ensures fw[b][o] == ImageAt([r], b * BLOCK_SIZE + o) {
      }
    }
  }

  /** The blocks still to be written. */
  function Left(data: Storage, from: nat): set<nat> {
    set b | b in data && b >= from
  }

  lemma RunSnoc(data: Storage, es: seq<Event>, e: Event)
    ensures Run(data, es + [e]) == Handle(Run(data, es), e)
  {
    assert (es + [e])[..|es|] == es;
  }

  /** A ready module that acknowledges the next block leaves one block less. */
  lemma BlockTaken(u: Upgrade, b: nat)
    requires u.awaited.Status? && Current(u.data, u.toWrite) == Some(b)
    ensures var u' := Handle(Handle(u, StatusIs(0)), Acked);
      && u'.awaited.Status? && u'.data == u.data
      && b !in Left(u.data, u'.toWrite) && Left(u.data, u.toWrite) == Left(u.data, u'.toWrite) + {b}
  {
  }

  lemma NoneLeft(u: Upgrade)
    requires u.awaited.Status? && Current(u.data, u.toWrite).None?
    ensures Left(u.data, u.toWrite) == {} && Rebooted(Handle(u, StatusIs(0)))
  {
    assert Handle(u, StatusIs(0)).trace[|u.trace| + 1] == Sent(Reboot);
  }

  /** A module that keeps answering gets all its blocks: one ready status and one acknowledgement each, and a last ready status. */
  lemma {:induction false} CooperativeModuleFinishes(data: Storage, es: seq<Event>) returns (more: seq<Event>)
    requires Run(data, es).awaited.Status?
    ensures |more| == 2 * |Left(Run(data, es).data, Run(data, es).toWrite)| + 1
    ensures Rebooted(Run(data, es + more))
    decreases |Left(Run(data, es).data, Run(data, es).toWrite)|
  {
    var u := Run(data, es);
    RunSnoc(data, es, StatusIs(0));
    match Current(u.data, u.toWrite)
    case None =>
      NoneLeft(u);
      more := [StatusIs(0)];
    case Some(b) =>
      var es1 := es + [StatusIs(0)];
      RunSnoc(data, es1, Acked);
      BlockTaken(u, b);
      more := CooperativeModuleFinishes(data, es1 + [Acked]);
      assert es1 + [Acked] + more == es + ([StatusIs(0), Acked] + more);
      more := [StatusIs(0), Acked] + more;
  }

  /** What the program does with an event that was awaited. */
  predicate Reply(e: Event, x: Item) {
    match e
    case GotInfo(inBootloader) => x == if inBootloader then Sent(FwWriteFlashStatusRequest) else ReportedError
    case StatusIs(status) => if status == 0x01 then x == Sent(FwWriteFlashStatusRequest) else IsWrite(x) || x == Sent(Reboot)
    case Acked => x == Sent(FwWriteFlashStatusRequest)
    case NotDone(_) => x == ReportedError
  }

  predicate ReplyAt(trace: seq<Item>, i: nat)
    requires 2 * i + 1 < |trace|
  {
    trace[2 * i].Got? && Reply(trace[2 * i].event, trace[2 * i + 1])
  }

  /** Events and replies take turns, beginning with the information about the module. */
  ghost predicate TakingTurns(u: Upgrade) {
    && |u.trace| % 2 == 0
    && (forall i :: 0 <= i && 2 * i + 1 < |u.trace| ==> ReplyAt(u.trace, i))
    && (u.awaited.Info? <==> u.trace == [])
    && (u.trace != [] ==> u.trace[0].Got? && (u.trace[0].event.GotInfo? || u.trace[0].event.NotDone?))
  }

  lemma TurnTaken(trace: seq<Item>, e: Event, x: Item)
    requires |trace| % 2 == 0 && Reply(e, x)
    requires forall i :: 0 <= i && 2 * i + 1 < |trace| ==> ReplyAt(trace, i)
    ensures forall i :: 0 <= i && 2 * i + 1 < |trace + [Got(e)] + [x]| ==> ReplyAt(trace + [Got(e)] + [x], i)
  {
    var t := trace + [Got(e)] + [x];
    forall i | 0 <= i && 2 * i + 1 < |t| ensures ReplyAt(t, i) {
      if 2 * i + 1 < |trace| {
        assert ReplyAt(trace, i);
      } else {
        assert 2 * i == |trace|;
      }
    }
  }

  lemma HandleTakesTurns(u: Upgrade, e: Event)
    requires TakingTurns(u)
    ensures TakingTurns(Handle(u, e))
  {
    var v := Handle(u, e);
    if v != u {
      var x := v.trace[|u.trace| + 1];
      assert v.trace == u.trace + [Got(e)] + [x];
      TurnTaken(u.trace, e, x);
    }
  }

  /** Every awaited event is answered at once, by exactly one command or by an error. */
  lemma {:induction false} RunTakesTurns(data: Storage, es: seq<Event>)
    ensures TakingTurns(Run(data, es))
  {
    if es != [] {
      RunTakesTurns(data, es[..|es| - 1]);
      HandleTakesTurns(Run(data, es[..|es| - 1]), es[|es| - 1]);
    }
  }

  /** The event is one that ends an upgrade: a command was not done, or the module is not in its bootloader. */
  predicate Fatal(x: Item) {
    x.Got? && (x.event.NotDone? || x.event == GotInfo(false))
  }

  lemma ErrorHasCause(trace: seq<Item>, h: nat, i: nat)
    requires 2 * h + 1 < |trace| && ReplyAt(trace, h) && (i == 2 * h || i == 2 * h + 1) && trace[i].ReportedError?
    ensures Fatal(trace[2 * h])
  {
  }

  lemma CauseHasError(trace: seq<Item>, h: nat, i: nat)
    requires 2 * h + 1 < |trace| && ReplyAt(trace, h) && (i == 2 * h || i == 2 * h + 1) && Fatal(trace[i])
    ensures trace[2 * h + 1].ReportedError?
  {
  }

  lemma HalfInside(n: nat, i: nat)
    requires n % 2 == 0 && i < n
    ensures 2 * (i / 2) + 1 < n && (i == 2 * (i / 2) || i == 2 * (i / 2) + 1)
  {
  }

  predicate HasError(trace: seq<Item>) {
    exists i :: 0 <= i < |trace| && trace[i].ReportedError?
  }

  predicate HasCause(trace: seq<Item>) {
    exists i :: 0 <= i < |trace| && Fatal(trace[i])
  }

  /** An error is reported if and only if a command failed or the module was not in its bootloader. */
  lemma ErrorReportedIff(data: Storage, es: seq<Event>)
    ensures HasError(Run(data, es).trace) <==> HasCause(Run(data, es).trace)
  {
    RunTakesTurns(data, es);
    ErrorIffCause(Run(data, es).trace);
  }

  lemma ErrorIffCause(trace: seq<Item>)
    requires |trace| % 2 == 0 && forall i :: 0 <= i && 2 * i + 1 < |trace| ==> ReplyAt(trace, i)
    ensures HasError(trace) <==> HasCause(trace)
  {
    if i :| 0 <= i < |trace| && trace[i].ReportedError? {
      HalfInside(|trace|, i);
      ErrorHasCause(trace, i / 2, i);
    }
    if i :| 0 <= i < |trace| && Fatal(trace[i]) {
      HalfInside(|trace|, i);
      CauseHasError(trace, i / 2, i);
    }
  }

  lemma OnlyAfterInfo(trace: seq<Item>, i: nat)
    requires i < |trace| && trace[i].Sent? && |trace| >= 2 && ReplyAt(trace, 0) && Disciplined(trace)
    requires trace[0].event.GotInfo? || trace[0].event.NotDone?
    ensures trace[0] == Got(GotInfo(true))
  {
    assert trace[1].ReportedError? ==> i <= 1;
  }

  /** Nothing at all is sent to a module that is not in its bootloader. */
  lemma NothingWithoutBootloader(data: Storage, es: seq<Event>, i: nat)
    requires i < |Run(data, es).trace| && Run(data, es).trace[i].Sent?
    ensures Run(data, es).trace[0] == Got(GotInfo(true))
  {
    var trace := Run(data, es).trace;
    RunTakesTurns(data, es);
    ProtocolSafety(data, es);
    assert ReplyAt(trace, 0);
    OnlyAfterInfo(trace, i);
  }

  function Word(high: byte, low: byte): nat {
    high * 256 + low
  }

  /** What a write of a block puts on the serial line, for the module at this address. */
  lemma WriteOnLine(addr: byte, data: Storage, b: nat)
    requires b in data && |data[b]| == 64
    ensures var line := Framing.Framed(Forward(addr, WriteCommand(data, b)).Bytes());
      && line[..6] == [0x2A, 0x42, 69, 0x10, addr, 0xF1]
      && Word(line[6], line[7]) == b * 64 % 0x1_0000
      && line[8..] == data[b]
  {
    var c := WriteCommand(data, b);
    Wire.BytesSpell(Forward(addr, c));
    var line := Line(addr, c);
    assert line == [0x2A, 0x42, 69, 0x10, addr, 0xF1, c.addrHigh, c.addrLow] + data[b];
    Halves(Address(b));
    HeadOfLine([0x2A, 0x42, 69, 0x10, addr, 0xF1, c.addrHigh, c.addrLow], data[b]);
  }

  lemma HeadOfLine(head: seq<byte>, rest: seq<byte>)
    requires |head| == 8
    ensures var line := head + rest;
      line[..6] == head[..6] && line[6] == head[6] && line[7] == head[7] && line[8..] == rest
  {
  }

  /** The line is a write to the flash: octet 0xF1, then the address with its high octet first, then the bytes. */
  predicate LineBurns(line: seq<byte>, a: nat) {
    |line| >= 8 && line[3] == 0x10 && line[5] == 0xF1 && Word(line[6], line[7]) <= a < Word(line[6], line[7]) + |line| - 8
  }

  /** The flash of a module that is sent these lines. */
  function LineFlash(before: nat -> byte, lines: seq<seq<byte>>, a: nat): byte {
    if lines == [] then before(a)
    else
      var line := lines[|lines| - 1];
      if LineBurns(line, a) then line[8 + a - Word(line[6], line[7])] else LineFlash(before, lines[..|lines| - 1], a)
  }

  /** The command as the link writes it. */
  function Line(addr: byte, c: BusCmd): seq<byte> {
    Framing.Framed(Forward(addr, c).Bytes())
  }

  function Lines(addr: byte, cs: seq<BusCmd>): seq<seq<byte>> {
    seq(|cs|, i requires 0 <= i < |cs| => Line(addr, cs[i]))
  }

  lemma LineOfWrite(addr: byte, c: BusCmd, a: nat)
    requires c.FwWriteFlash?
    ensures LineBurns(Line(addr, c), a) <==> Burns(c, a)
    ensures Burns(c, a) ==> Line(addr, c)[8 + a - Word(Line(addr, c)[6], Line(addr, c)[7])] == c.block[a - Start(c)]
  {
    Wire.BytesSpell(Forward(addr, c));
    var line := Line(addr, c);
    assert line == [0x2A, 0x42, (|c.block| + 5) % 256, 0x10, addr, 0xF1, c.addrHigh, c.addrLow] + c.block;
  }

  lemma LineFlashSnoc(before: nat -> byte, lines: seq<seq<byte>>, line: seq<byte>, a: nat)
    ensures LineFlash(before, lines + [line], a)
      == if LineBurns(line, a) then line[8 + a - Word(line[6], line[7])] else LineFlash(before, lines, a)
  {
    assert (lines + [line])[..|lines|] == lines;
  }

  lemma FlashSnoc(before: nat -> byte, cs: seq<BusCmd>, c: BusCmd, a: nat)
    ensures Flash(before, cs + [c], a) == if Burns(c, a) then c.block[a - Start(c)] else Flash(before, cs, a)
  {
    assert (cs + [c])[..|cs|] == cs;
  }

  lemma OneMoreLine(before: nat -> byte, addr: byte, cs: seq<BusCmd>, c: BusCmd, a: nat)
    requires c.FwWriteFlash? && LineFlash(before, Lines(addr, cs), a) == Flash(before, cs, a)
    ensures LineFlash(before, Lines(addr, cs + [c]), a) == Flash(before, cs + [c], a)
  {
    LineOfWrite(addr, c, a);
    LineFlashSnoc(before, Lines(addr, cs), Line(addr, c), a);
    FlashSnoc(before, cs, c, a);
    LinesSnoc(addr, cs, c);
  }

  lemma LinesSnoc(addr: byte, cs: seq<BusCmd>, c: BusCmd)
    ensures Lines(addr, cs + [c]) == Lines(addr, cs) + [Line(addr, c)]
  {
  }

  lemma {:induction false} LinesFlash(before: nat -> byte, addr: byte, cs: seq<BusCmd>, a: nat)
    requires forall i :: 0 <= i < |cs| ==> cs[i].FwWriteFlash?
    ensures LineFlash(before, Lines(addr, cs), a) == Flash(before, cs, a)
  {
    if cs == [] {
      assert Lines(addr, cs) == [];
    } else {
      var init, last := cs[..|cs| - 1], cs[|cs| - 1];
      LinesFlash(before, addr, init, a);
      OneMoreLine(before, addr, init, last, a);
      assert init + [last] == cs;
    }
  }

  lemma {:induction false} WritesAreWrites(trace: seq<Item>)
    ensures forall i :: 0 <= i < |Writes(trace)| ==> Writes(trace)[i].FwWriteFlash?
  {
    if trace != [] {
      WritesAreWrites(trace[..|trace| - 1]);
    }
  }

  /** From the records of a firmware file to the flash of the module, by the octets on the serial line. */
  lemma EndToEndOnLine(records: seq<Record>, blocksPerPage: nat, data: Storage, es: seq<Event>, before: nat -> byte, addr: byte, a: nat)
    requires blocksPerPage > 0 && RepresentsPages(data, records, blocksPerPage) && Addressable(data)
    requires Rebooted(Run(data, es))
    ensures LineFlash(before, Lines(addr, Writes(Run(data, es).trace)), a)
      == if PageTouched(records, blocksPerPage, a / BLOCK_SIZE) then ImageAt(records, a) else before(a)
  {
    WritesAreWrites(Run(data, es).trace);
    LinesFlash(before, addr, Writes(Run(data, es).trace), a);
    EndToEnd(records, blocksPerPage, data, es, before, a);
  }
}
