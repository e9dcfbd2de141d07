/**
  Configurations of modules as they travel on the bus and in JSON (`MtbUnisConfig` of src/modules/unis.cpp,
  `MtbUniConfig` of uni.cpp, `MtbLedConfig` of led.cpp).
*/
module ModuleConfig {
  import opened Basics
  import opened OutputCodec

  /** An output state in JSON; the values are those of the `value` member. */
  datatype JsonOutput = JsonPlain(value: nat) | JsonSCom(value: nat) | JsonFlicker(value: nat) | JsonUnknown

  /** Flickers per minute to the code on the bus; 0 for a frequency that does not exist. */
  function FlickerCode(perMinute: nat): byte {
    match perMinute
    case 60 => 1
    case 120 => 2
    case 180 => 3
    case 240 => 4
    case 300 => 5
    case 600 => 6
    case 33 => 7
    case 66 => 8
    case _ => 0
  }

  function FlickerPerMinute(code: byte): nat {
    match code
    case 1 => 60
    case 2 => 120
    case 3 => 180
    case 4 => 240
    case 5 => 300
    case 6 => 600
    case 7 => 33
    case 8 => 66
    case _ => 0
  }

  /** `outputsToJson`, and the same in the configurations. */
  function OutputToJson(output: byte): JsonOutput {
    if output >= 0x80 then JsonSCom(output - 0x80)
    else if output >= 0x40 then JsonFlicker(FlickerPerMinute(output % 16))
    else JsonPlain(output % 2)
  }

  /** `jsonOutputToByte`. */
  function JsonToOutput(json: JsonOutput): Option<byte> {
    match json
    case JsonPlain(value) => if value <= 1 then Some(value) else None
    case JsonSCom(value) => if value <= 127 then Some(0x80 + value) else None
    case JsonFlicker(value) => if FlickerCode(value) == 0 then None else Some(0x40 + FlickerCode(value))
    case JsonUnknown => None
  }

  /** The codes of output states: off, on, the eight flicker frequencies, and the signal codes. */
  predicate ValidOutput(output: byte) {
    output <= 1 || 0x41 <= output <= 0x48 || output >= 0x80
  }

  /** The JSON form of an output code gives the code back exactly for valid codes. */
  lemma OutputJsonRoundTripIff(output: byte)
    ensures JsonToOutput(OutputToJson(output)) == Some(output) <==> ValidOutput(output)
  {
    if 0x40 <= output < 0x80 {
      FlickerTables(output % 16);
    }
  }

  lemma FlickerTables(code: byte)
    ensures FlickerCode(FlickerPerMinute(code)) == if 1 <= code <= 8 then code else 0
  {
  }

  /** The flicker frequencies, in flickers per minute. */
  lemma FlickerFrequencies()
    ensures JsonToOutput(JsonFlicker(60)) == Some(0x41) && JsonToOutput(JsonFlicker(120)) == Some(0x42)
    ensures JsonToOutput(JsonFlicker(180)) == Some(0x43) && JsonToOutput(JsonFlicker(240)) == Some(0x44)
    ensures JsonToOutput(JsonFlicker(300)) == Some(0x45) && JsonToOutput(JsonFlicker(600)) == Some(0x46)
    ensures JsonToOutput(JsonFlicker(33)) == Some(0x47) && JsonToOutput(JsonFlicker(66)) == Some(0x48)
    ensures forall f: nat :: f !in {60, 120, 180, 240, 300, 600, 33, 66} ==> JsonToOutput(JsonFlicker(f)).None?
  {
  }

  /** What clients can request is a valid code in normal form, so it survives the way to the module and back, and to JSON. */
  lemma RequestedOutput(json: JsonOutput)
    requires JsonToOutput(json).Some?
    ensures var output := JsonToOutput(json).value;
      ValidOutput(output) && Normal(output) == output && OutputToJson(output) == json
  {
  }

  const UNIS_BUS_SIZE: nat := 61

  datatype UnisConfig = UnisConfig(
    outputsSafe: seq<byte>,
    inputsDelay: seq<nat>,
    servoEnabledMask: byte,
    servoPosition: seq<byte>,
    servoSpeed: seq<byte>,
    servoInputMap: seq<byte>)
  {
    predicate Valid() {
      |outputsSafe| == 28 && |inputsDelay| == 16 && |servoPosition| == 12 && |servoSpeed| == 6 && |servoInputMap| == 6
    }
  }

  /** `std::min<uint8_t>(delay, 0xF)`. */
  function Nibble(delay: nat): nat {
    if delay % 256 < 0xF then delay % 256 else 0xF
  }

  function DelayOctets(delays: seq<nat>): seq<byte>
    requires |delays| == 16
  {
    seq(8, i requires 0 <= i < 8 => Nibble(delays[2 * i]) + 16 * Nibble(delays[2 * i + 1]))
  }

  /** The delay of input `i`, two delays in an octet. */
  function DelayAt(data: seq<byte>, start: nat, i: nat): nat
    requires start + i / 2 < |data|
  {
    if i % 2 == 0 then data[start + i / 2] % 16 else data[start + i / 2] / 16 % 16
  }

  function DelaysAt(data: seq<byte>, start: nat): seq<nat>
    requires start + 8 <= |data|
  {
    seq(16, i requires 0 <= i < 16 => DelayAt(data, start, i))
  }

  function UnisToBus(c: UnisConfig): seq<byte>
    requires c.Valid()
  {
    c.outputsSafe + DelayOctets(c.inputsDelay) + [c.servoEnabledMask % 64] + c.servoPosition + c.servoSpeed + c.servoInputMap
  }

  function UnisFromBus(c: UnisConfig, data: seq<byte>): UnisConfig {
    if |data| < UNIS_BUS_SIZE then c
    else
      UnisConfig(
        data[..28],
        DelaysAt(data, 28),
        data[36],
        data[37..49],
        data[49..55],
        data[55..61])
  }

  /** `MtbUnisConfig::serializeForMtbUsb`. */
  method UnisSerialize(c: UnisConfig) returns (result: seq<byte>)
    requires c.Valid()
    ensures result == UnisToBus(c)
  {
    result := c.outputsSafe;
    for i := 0 to 8
      invariant result == c.outputsSafe + DelayOctets(c.inputsDelay)[..i]
    {
      result := result + [Nibble(c.inputsDelay[2 * i]) + 16 * Nibble(c.inputsDelay[2 * i + 1])];
    }
    result := result + [c.servoEnabledMask % 64];
    result := result + c.servoPosition;
    result := result + c.servoSpeed;
    result := result + c.servoInputMap;
  }

  /** `MtbUnisConfig::fromMtbUsb`: too short data leaves the configuration as it is. */
  method UnisDeserialize(c: UnisConfig, data: seq<byte>) returns (result: UnisConfig)
    requires c.Valid()
    ensures result == UnisFromBus(c, data)
  {
    result := c;
    if |data| < UNIS_BUS_SIZE {
      return;
    }
    var pos := 0;
    result := result.(outputsSafe := data[..28]);
    pos := 28;
    var delays: seq<nat> := [];
    for i := 0 to 16
      invariant |delays| == i && forall k :: 0 <= k < i ==> delays[k] == DelayAt(data, 28, k)
    {
      delays := delays + [DelayAt(data, pos, i)];
    }
    result := result.(inputsDelay := delays);
    pos := pos + 8;
    result := result.(servoEnabledMask := data[pos]);
    pos := pos + 1;
    result := result.(servoPosition := data[pos..pos + 12]);
    pos := pos + 12;
    result := result.(servoSpeed := data[pos..pos + 6]);
    pos := pos + 6;
    result := result.(servoInputMap := data[pos..pos + 6]);
  }

  predicate DelaysFit(delays: seq<nat>) {
    forall i :: 0 <= i < |delays| ==> delays[i] <= 15
  }

  lemma DelayRoundTrip(delays: seq<nat>, data: seq<byte>, start: nat, i: nat)
    requires |delays| == 16 && i < 16 && start + 8 <= |data|
    requires data[start..start + 8] == DelayOctets(delays)
    ensures DelayAt(data, start, i) == Nibble(delays[i])
  {
    assert data[start + i / 2] == data[start..start + 8][i / 2];
    if i % 2 == 0 {
      assert 2 * (i / 2) == i;
    } else {
      assert 2 * (i / 2) + 1 == i;
    }
  }

  lemma DelaysRoundTripIff(delays: seq<nat>, data: seq<byte>, start: nat)
    requires |delays| == 16 && start + 8 <= |data|
    requires data[start..start + 8] == DelayOctets(delays)
    ensures DelaysAt(data, start) == delays <==> DelaysFit(delays)
  {
    var back := DelaysAt(data, start);
    forall i | 0 <= i < 16 ensures back[i] == delays[i] <==> delays[i] <= 15 {
      DelayRoundTrip(delays, data, start, i);
    }
  }

  /** Two delays share an octet: that of the even input is the low half, and longer ones become 15. */
  lemma HalvesOfDelays(delays: seq<nat>, i: nat)
    requires |delays| == 16 && i < 8 && DelaysFit(delays)
    ensures DelayOctets(delays)[i] % 16 == delays[2 * i] && DelayOctets(delays)[i] / 16 == delays[2 * i + 1]
  {
  }

  /** The 61 octets: safe outputs, delays, servo mask, servo positions, speeds and inputs. */
  lemma UnisBusParts(c: UnisConfig)
    requires c.Valid()
    ensures var data := UnisToBus(c);
      && |data| == 61
      && data[..28] == c.outputsSafe && data[28..36] == DelayOctets(c.inputsDelay) && data[36] == c.servoEnabledMask % 64
      && data[37..49] == c.servoPosition && data[49..55] == c.servoSpeed && data[55..61] == c.servoInputMap
  {
  }

  /** A UNIS configuration comes back from the bus exactly if its delays and its servo mask fit their bits. */
  lemma UnisBusRoundTripIff(c: UnisConfig, d: UnisConfig)
    requires c.Valid()
    ensures UnisFromBus(d, UnisToBus(c)) == c <==> DelaysFit(c.inputsDelay) && c.servoEnabledMask <= 0x3F
  {
    var data := UnisToBus(c);
    var c' := UnisFromBus(d, data);
    UnisBusParts(c);
    DelaysRoundTripIff(c.inputsDelay, data, 28);
    assert c'.inputsDelay == DelaysAt(data, 28);
  }

  /** Reading and writing back a configuration gives the bytes read exactly if the unused bits of the mask are zero. */
  lemma UnisBusRewriteIff(d: UnisConfig, data: seq<byte>)
    requires |data| == UNIS_BUS_SIZE
    ensures UnisFromBus(d, data).Valid()
    ensures UnisToBus(UnisFromBus(d, data)) == data <==> data[36] <= 0x3F
  {
    var c := UnisFromBus(d, data);
    OctetsRewritten(data, 28);
    UnisBusParts(c);
    var data' := UnisToBus(c);
    if data[36] <= 0x3F {
      assert data' == data[..28] + data[28..36] + [data[36]] + data[37..49] + data[49..55] + data[55..61];
    } else {
      assert data'[36] != data[36];
    }
  }

  lemma OctetsRewritten(data: seq<byte>, start: nat)
    requires start + 8 <= |data|
    ensures DelayOctets(DelaysAt(data, start)) == data[start..start + 8]
  {
    var octets := DelayOctets(DelaysAt(data, start));
    forall i | 0 <= i < 8 ensures octets[i] == data[start + i] {
      DelaysOfOctet(data, start, i);
      NibblesOfOctet(data[start + i]);
    }
  }

  lemma DelaysOfOctet(data: seq<byte>, start: nat, i: nat)
    requires start + 8 <= |data| && i < 8
    ensures DelayAt(data, start, 2 * i) == data[start + i] % 16
    ensures DelayAt(data, start, 2 * i + 1) == data[start + i] / 16 % 16
  {
  }

  lemma NibblesOfOctet(x: byte)
    ensures Nibble(x % 16) + 16 * Nibble(x / 16 % 16) == x
  {
  }

  /** The members of the JSON object; delays in tenths of a second, `servoInputMap` may be missing. */
  datatype JsonConfig = JsonConfig(
    outputsSafe: seq<JsonOutput>,
    inputsDelay: seq<int>,
    servoEnabledMask: nat,
    servoPosition: seq<nat>,
    servoSpeed: seq<nat>,
    servoInputMap: Option<seq<nat>>)

  function Truncated(xs: seq<nat>): seq<byte> {
    seq(|xs|, i requires 0 <= i < |xs| => xs[i] % 256)
  }

  function ParsedOutputs(xs: seq<JsonOutput>): seq<byte>
    requires forall i :: 0 <= i < |xs| ==> JsonToOutput(xs[i]).Some?
  {
    seq(|xs|, i requires 0 <= i < |xs| => JsonToOutput(xs[i]).value)
  }

  const DEFAULT_INPUT_MAP: seq<byte> := [1, 3, 5, 7, 9, 11]

  /** `MtbUnisConfig::fromJson`; `None` when it throws. */
  function UnisFromJson(json: JsonConfig): Option<UnisConfig> {
    if |json.outputsSafe| != 28 || |json.inputsDelay| != 16 || |json.servoPosition| != 12 || |json.servoSpeed| != 6
       || (json.servoInputMap.Some? && |json.servoInputMap.value| != 6)
    then None
    else if exists i :: 0 <= i < 16 && !(0 <= json.inputsDelay[i] <= 15) then None
    else if exists i :: 0 <= i < 28 && JsonToOutput(json.outputsSafe[i]).None? then None
    else
      Some(UnisConfig(
        ParsedOutputs(json.outputsSafe),
        seq(16, i requires 0 <= i < 16 => json.inputsDelay[i]),
        json.servoEnabledMask % 256,
        Truncated(json.servoPosition),
        Truncated(json.servoSpeed),
        if json.servoInputMap.Some? then Truncated(json.servoInputMap.value) else DEFAULT_INPUT_MAP))
  }

  /** `MtbUnisConfig::json`. */
  function UnisToJson(c: UnisConfig): JsonConfig {
    JsonConfig(
      seq(|c.outputsSafe|, i requires 0 <= i < |c.outputsSafe| => OutputToJson(c.outputsSafe[i])),
      seq(|c.inputsDelay|, i requires 0 <= i < |c.inputsDelay| => c.inputsDelay[i]),
      c.servoEnabledMask,
      c.servoPosition,
      c.servoSpeed,
      Some(c.servoInputMap))
  }

  lemma TruncatedOctets(xs: seq<byte>)
    ensures Truncated(xs) == xs
  {
    forall i | 0 <= i < |xs| ensures xs[i] % 256 == xs[i] {
    }
  }

  /** A UNIS configuration survives being saved as JSON exactly if its outputs are valid codes and its delays are in range. */
  lemma UnisJsonRoundTripIff(c: UnisConfig)
    requires c.Valid()
    ensures UnisFromJson(UnisToJson(c)) == Some(c)
      <==> DelaysFit(c.inputsDelay) && forall i :: 0 <= i < 28 ==> ValidOutput(c.outputsSafe[i])
  {
    var json := UnisToJson(c);
    forall i | 0 <= i < 28
      ensures JsonToOutput(json.outputsSafe[i]) == Some(c.outputsSafe[i]) <==> ValidOutput(c.outputsSafe[i])
    {
      OutputJsonRoundTripIff(c.outputsSafe[i]);
    }
    TruncatedOctets(c.servoPosition);
    TruncatedOctets(c.servoSpeed);
    TruncatedOctets(c.servoInputMap);
    var result := UnisFromJson(json);
    if result.Some? {
      assert result.value.inputsDelay == c.inputsDelay;
      assert forall i :: 0 <= i < 28 ==> result.value.outputsSafe[i] == JsonToOutput(json.outputsSafe[i]).value;
      if forall i :: 0 <= i < 28 ==> ValidOutput(c.outputsSafe[i]) {
        assert result.value.outputsSafe == c.outputsSafe;
      }
    }
  }

  /** A file written before there were input maps is read with the default one: the first inputs of the six pairs. */
  lemma OldFileReadsDefaultMap(c: UnisConfig)
    requires c.Valid() && DelaysFit(c.inputsDelay) && forall i :: 0 <= i < 28 ==> ValidOutput(c.outputsSafe[i])
    ensures UnisFromJson(UnisToJson(c).(servoInputMap := None)) == Some(c.(servoInputMap := [1, 3, 5, 7, 9, 11]))
  {
    var c' := c.(servoInputMap := [1, 3, 5, 7, 9, 11]);
    UnisJsonRoundTripIff(c');
    assert UnisFromJson(UnisToJson(c)).Some? by {
      UnisJsonRoundTripIff(c);
    }
    TruncatedOctets(c'.servoInputMap);
  }

  datatype UniConfig = UniConfig(outputsSafe: seq<byte>, inputsDelay: seq<nat>, irs: nat)
  {
    predicate Valid() {
      |outputsSafe| == 16 && |inputsDelay| == 16 && irs < 0x1_0000
    }
  }

  function UniToBus(c: UniConfig, withIrs: bool): seq<byte>
    requires c.Valid()
  {
    c.outputsSafe + DelayOctets(c.inputsDelay) + (if withIrs then [c.irs / 256, c.irs % 256] else [])
  }

  /** `MtbUniConfig::fromMtbUsb`: the delays are read from the beginning of the data, where the outputs are. */
  function UniFromBus(c: UniConfig, data: seq<byte>): UniConfig {
    if |data| < 24 then c
    else
      UniConfig(
        data[..16],
        DelaysAt(data, 0),
        if |data| >= 26 then data[24] * 256 as int + data[25] else 0)
  }

  /** The octets a UNI is sent: 16 safe outputs, 8 octets of delays, and the IR mask with its high octet first. */
  lemma UniBusParts(c: UniConfig, withIrs: bool)
    requires c.Valid()
    ensures var data := UniToBus(c, withIrs);
      && |data| == (if withIrs then 26 else 24)
      && data[..16] == c.outputsSafe && data[16..24] == DelayOctets(c.inputsDelay)
      && (withIrs ==> data[24] == c.irs / 256 && data[25] == c.irs % 256)
      && (DelaysFit(c.inputsDelay) ==> forall i :: 0 <= i < 8 ==>
           data[16 + i] % 16 == c.inputsDelay[2 * i] && data[16 + i] / 16 == c.inputsDelay[2 * i + 1])
  {
    var data := UniToBus(c, withIrs);
    forall i | 0 <= i < 8
      ensures data[16 + i] == DelayOctets(c.inputsDelay)[i]
      ensures DelaysFit(c.inputsDelay) ==> data[16 + i] % 16 == c.inputsDelay[2 * i] && data[16 + i] / 16 == c.inputsDelay[2 * i + 1]
    {
      if DelaysFit(c.inputsDelay) {
        HalvesOfDelays(c.inputsDelay, i);
      }
    }
  }

  /** `MtbUniConfig::serializeForMtbUsb`. */
  method UniSerialize(c: UniConfig, withIrs: bool) returns (result: seq<byte>)
    requires c.Valid()
    ensures result == UniToBus(c, withIrs)
  {
    result := c.outputsSafe;
    for i := 0 to 8
      invariant result == c.outputsSafe + DelayOctets(c.inputsDelay)[..i]
    {
      result := result + [Nibble(c.inputsDelay[2 * i]) + 16 * Nibble(c.inputsDelay[2 * i + 1])];
    }
    if withIrs {
      result := result + [c.irs / 256];
      result := result + [c.irs % 256];
    }
  }

  /** `MtbUniConfig::fromMtbUsb`. */
  method UniDeserialize(c: UniConfig, data: seq<byte>) returns (result: UniConfig)
    requires c.Valid()
    ensures result == UniFromBus(c, data)
  {
    result := c;
    if |data| < 24 {
      return;
    }
    result := result.(outputsSafe := data[..16]);
    var delays: seq<nat> := [];
    for i := 0 to 16
      invariant |delays| == i && forall k :: 0 <= k < i ==> delays[k] == DelayAt(data, 0, k)
    {
      delays := delays + [DelayAt(data, 0, i)];
    }
    result := result.(inputsDelay := delays);
    result := result.(irs := if |data| >= 26 then data[24] * 256 as int + data[25] else 0);
  }

  /**
    A UNI configuration does not come back from the bus in general, because its delays are read from the octets of its safe
    outputs: it does exactly if each delay happens to be the half octet found there.
  */
  lemma UniBusRoundTripIff(c: UniConfig, d: UniConfig, withIrs: bool)
    requires c.Valid()
    ensures UniFromBus(d, UniToBus(c, withIrs)).outputsSafe == c.outputsSafe
    ensures UniFromBus(d, UniToBus(c, withIrs)) == c
      <==> (withIrs || c.irs == 0) && forall i :: 0 <= i < 16 ==> c.inputsDelay[i] == DelayAt(c.outputsSafe, 0, i)
  {
    var data := UniToBus(c, withIrs);
    var c' := UniFromBus(d, data);
    assert data[..16] == c.outputsSafe;
    forall i | 0 <= i < 16 ensures c'.inputsDelay[i] == DelayAt(c.outputsSafe, 0, i) {
      assert data[i / 2] == c.outputsSafe[i / 2];
    }
  }

  /** For instance, with all outputs off a delay of 0.5 s is read back as none. */
  lemma UniDelayLost(d: UniConfig, withIrs: bool)
    ensures var c := UniConfig(seq(16, _ => 0), seq(16, _ => 5), 0);
      c.Valid() && UniFromBus(d, UniToBus(c, withIrs)) != c
  {
    var c := UniConfig(seq(16, _ => 0), seq(16, _ => 5), 0);
    UniBusRoundTripIff(c, d, withIrs);
    assert c.inputsDelay[0] != DelayAt(c.outputsSafe, 0, 0);
  }

  datatype LedConfig = LedConfig(outputsSafe: seq<bool>, brightness: seq<byte>)
  {
    predicate Valid() {
      |outputsSafe| == 32 && |brightness| == 32
    }
  }

  /** `data` holds the configuration: a bitmap of the outputs, and the brightness of each. */
  predicate LedOnBus(c: LedConfig, data: seq<byte>) {
    c.Valid() && |data| >= 36 && Packs(c.outputsSafe, data) && data[4..36] == c.brightness
  }

  /** `MtbLedConfig::serializeForMtbUsb`. */
  method LedSerialize(c: LedConfig) returns (result: seq<byte>)
    requires c.Valid()
    ensures |result| == 36 && LedOnBus(c, result)
  {
    var safe := IoToMtb(c.outputsSafe);
    result := safe + c.brightness;
    assert forall i :: 0 <= i < 32 ==> result[i / 8] == safe[i / 8];
  }

  /** `MtbLedConfig::fromMtbUsb`. */
  method LedDeserialize(c: LedConfig, data: seq<byte>) returns (result: LedConfig)
    requires c.Valid()
    ensures if |data| < 36 then result == c else LedOnBus(result, data)
  {
    result := c;
    if |data| < 36 {
      return;
    }
    var safe := MtbDataToIo(data);
    var brightness: seq<byte> := [];
    for i := 0 to 32
      invariant brightness == data[4..4 + i]
    {
      brightness := brightness + [data[i + 4]];
    }
    result := LedConfig(safe, brightness);
  }

  /** The configuration and its 36 octets on the bus determine each other. */
  lemma LedBusBothWays(c1: LedConfig, data1: seq<byte>, c2: LedConfig, data2: seq<byte>)
    requires LedOnBus(c1, data1) && LedOnBus(c2, data2)
    ensures c1 == c2 <==> data1[..36] == data2[..36]
  {
    PacksBothWays(c1.outputsSafe, data1, c2.outputsSafe, data2);
    assert data1[..36] == data1[..4] + data1[4..36] && data2[..36] == data2[..4] + data2[4..36];
    assert data1[..36][..4] == data1[..4] && data2[..36][..4] == data2[..4];
    assert data1[..36][4..] == data1[4..36] && data2[..36][4..] == data2[4..36];
  }
}
