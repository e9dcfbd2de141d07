/**
  The commands a client of MTB-USB can submit (src/mtbusb/mtbusb-commands.h).

  A command carries two callbacks. What a callback does to the link is to submit further
  commands, so a command is a finite tree: `onOk` and `onErr` are the commands its two
  callbacks submit, in order.
*/
module Commands {
  import opened Basics

  /** Numeric values of `MtbBusSpeed`. */
  type BusSpeed = x: int | 1 <= x <= 4 witness 1

  /** Numeric values of `MtbUsbRecvCommand`. */
  const USB_ACK: byte := 0x01
  const USB_ERROR: byte := 0x02
  const USB_FORWARD: byte := 0x10
  const USB_INFO: byte := 0x20
  const USB_ACTIVE_MODULES: byte := 0x22
  const USB_NEW_MODULE: byte := 0x23
  const USB_MODULE_FAILED: byte := 0x24

  /** Numeric values of `MtbBusRecvCommand`. */
  const BUS_ACK: byte := 0x01
  const BUS_ERROR: byte := 0x02
  const BUS_MODULE_INFO: byte := 0x03
  const BUS_MODULE_CONFIG: byte := 0x04
  const BUS_INPUT_CHANGED: byte := 0x10
  const BUS_INPUT_STATE: byte := 0x11
  const BUS_OUTPUT_SET: byte := 0x12
  const BUS_DIAG_VALUE: byte := 0xD0
  const BUS_FLASH_STATUS: byte := 0xF2
  const BUS_SPECIFIC: byte := 0xFE

  const ERROR_NO_RESPONSE: byte := 0x01

  /** `CmdError`: a module may report any code, the daemon itself uses the four below. */
  type CmdError = byte

  const SERIAL_PORT_CLOSED: CmdError := 0x10
  const USB_NO_RESPONSE: CmdError := 0x11
  const BUS_NO_RESPONSE: CmdError := 0x12
  const PENDING_CONFLICT: CmdError := 0x13

  /** A command for one MTBbus module (or for all of them, when the address is 0). */
  datatype BusCmd =
    | ModuleInfoRequest
    | SetConfig(config: seq<byte>)
    | GetConfig
    | Beacon(on: bool)
    | GetInputs
    | SetOutput(outputs: seq<byte>)
    | ResetOutputs
    | ChangeAddr(newAddr: byte)
    | ChangeSpeed(busSpeed: BusSpeed)
    | FwUpgradeReq
    | FwWriteFlash(addrHigh: byte, addrLow: byte, block: seq<byte>)
    | FwWriteFlashStatusRequest
    | Specific(payload: seq<byte>)
    | Reboot
    | GetDiagValue(dvi: byte)
  {
    function Code(): byte {
      match this
      case ModuleInfoRequest => 0x02
      case SetConfig(_) => 0x03
      case GetConfig => 0x04
      case Beacon(_) => 0x05
      case GetInputs => 0x10
      case SetOutput(_) => 0x11
      case ResetOutputs => 0x12
      case ChangeAddr(_) => 0x20
      case ChangeSpeed(_) => 0xE0
      case FwUpgradeReq => 0xF0
      case FwWriteFlash(_, _, _) => 0xF1
      case FwWriteFlashStatusRequest => 0xF2
      case Specific(_) => 0xFE
      case Reboot => 0xFF
      case GetDiagValue(_) => 0xD0
    }

    function Data(): seq<byte> {
      match this
      case SetConfig(config) => config
      case Beacon(on) => [if on then 1 else 0]
      case SetOutput(outputs) => outputs
      case ChangeAddr(newAddr) => [newAddr]
      case ChangeSpeed(busSpeed) => [busSpeed]
      case FwWriteFlash(high, low, block) => [high, low] + block
      case Specific(payload) => payload
      case GetDiagValue(dvi) => [dvi]
      case _ => []
    }

    /** `processBusResponse`: does a message of this code and with this data answer the command? */
    predicate Accepts(broadcast: bool, code: byte, data: seq<byte>) {
      match this
      case ModuleInfoRequest => code == BUS_MODULE_INFO && |data| >= 6
      case GetConfig => code == BUS_MODULE_CONFIG
      case GetInputs => code == BUS_INPUT_STATE
      case SetOutput(_) => code == BUS_OUTPUT_SET
      case FwWriteFlashStatusRequest => code == BUS_FLASH_STATUS && data != []
      case Specific(_) => code == BUS_ACK || (!broadcast && code in {BUS_ERROR, BUS_SPECIFIC})
      case GetDiagValue(_) => code == BUS_DIAG_VALUE && data != []
      case _ => code == BUS_ACK
    }
  }

  datatype Kind =
    | UsbInfoRequest
    | UsbChangeSpeed(speed: BusSpeed)
    | UsbActiveModulesRequest
    | UsbPing
    | Forward(addr: byte, bus: BusCmd)
  {
    /** `conflict`: only two changes of the MTBbus speed exclude each other. */
    predicate Conflicts(other: Kind) {
      UsbChangeSpeed? && other.UsbChangeSpeed?
    }

    /** `processUsbResponse`. */
    predicate AcceptsUsb(code: byte) {
      match this
      case UsbInfoRequest => code == USB_INFO
      case UsbChangeSpeed(_) => code == USB_ACK
      case UsbActiveModulesRequest => code == USB_ACTIVE_MODULES
      case UsbPing => code == USB_ACK
      case Forward(_, _) => false
    }

    predicate AcceptsBus(from: byte, code: byte, data: seq<byte>) {
      Forward? && addr == from && bus.Accepts(addr == 0, code, data)
    }

    /** `getBytes`: command code and data, without the frame around them. */
    function Bytes(): seq<byte> {
      match this
      case UsbInfoRequest => [0x20]
      case UsbChangeSpeed(speed) => [0x21, speed as int]
      case UsbActiveModulesRequest => [0x22]
      case UsbPing => [0x30]
      case Forward(addr, bus) => [0x10, addr, bus.Code()] + bus.Data()
    }
  }

  datatype Cmd = Cmd(kind: Kind, onOk: seq<Cmd>, onErr: seq<Cmd>)

  /** No two commands look the same on the wire. */
  lemma BytesInjective(k1: Kind, k2: Kind)
    requires k1.Bytes() == k2.Bytes()
    ensures k1 == k2
  {
    assert k1.Bytes()[0] == k2.Bytes()[0];
    if k1.UsbChangeSpeed? {
      assert k1.Bytes()[1] == k2.Bytes()[1];
    } else if k1.Forward? {
      var b1, b2 := k1.Bytes(), k2.Bytes();
      assert b1[1] == b2[1] && b1[2] == b2[2];
      assert b1[3..] == k1.bus.Data() && b2[3..] == k2.bus.Data();
      DataInjective(k1.bus, k2.bus);
    }
  }

  lemma DataInjective(c1: BusCmd, c2: BusCmd)
    requires c1.Code() == c2.Code() && c1.Data() == c2.Data()
    ensures c1 == c2
  {
    var d1, d2 := c1.Data(), c2.Data();
    if c1.FwWriteFlash? {
      assert d1[0] == d2[0] && d1[1] == d2[1] && d1[2..] == d2[2..];
    } else if |d1| == 1 && |d2| == 1 {
      assert d1[0] == d2[0];
    }
  }
}
