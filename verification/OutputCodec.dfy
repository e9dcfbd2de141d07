/**
  Output states on the bus (`mtbBusOutputsData` and `moduleOutputsData` of src/modules/uni.cpp and unis.cpp, `ioToMtb`
  and `mtbDataToIo` of led.cpp): a bit mask of the outputs that need a whole octet, the states of the others as bits,
  and then those octets.
*/
module OutputCodec {
  import opened Basics

  /** `(x >> i) & 1`. */
  function Shr(x: nat, i: nat): nat {
    if i == 0 then x else Shr(x / 2, i - 1)
  }

  predicate Bit(x: nat, i: nat) {
    Shr(x, i) % 2 == 1
  }

  function Pow2(i: nat): nat {
    if i == 0 then 1 else 2 * Pow2(i - 1)
  }

  /** `x | (1 << i)`. */
  function SetBit(x: nat, i: nat): nat {
    if Bit(x, i) then x else x + Pow2(i)
  }

  lemma {:induction false} SetBitBits(x: nat, i: nat, j: nat)
    ensures Bit(SetBit(x, i), j) <==> j == i || Bit(x, j)
  {
    if !Bit(x, i) {
      AddPow2(x, i, j);
    }
  }

  lemma {:induction false} AddPow2(x: nat, i: nat, j: nat)
    requires !Bit(x, i)
    ensures Bit(x + Pow2(i), j) <==> j == i || Bit(x, j)
    decreases i
  {
    if i == 0 {
      assert (x + 1) / 2 == x / 2;
    } else {
      assert (x + Pow2(i)) / 2 == x / 2 + Pow2(i - 1);
      if j > 0 {
        AddPow2(x / 2, i - 1, j - 1);
      }
    }
  }

  lemma {:induction false} SetBitOctet(x: byte, i: nat)
    requires i < 8
    ensures SetBit(x, i) < 256
  {
    if !Bit(x, i) {
      Room(x, i, 8);
    }
  }

  lemma {:induction false} Room(x: nat, i: nat, n: nat)
    requires i < n && x < Pow2(n) && !Bit(x, i)
    ensures x + Pow2(i) < Pow2(n)
    decreases n
  {
    Half(x, Pow2(n - 1));
    if i > 0 {
      assert !Bit(x / 2, i - 1);
      Room(x / 2, i - 1, n - 1);
      Carry(x, Pow2(i - 1), Pow2(n - 1));
    }
  }

  lemma Half(x: nat, q: nat)
    ensures x < 2 * q <==> x / 2 < q
    ensures x < 2 * q && x % 2 == 0 ==> x + 1 < 2 * q
  {
  }

  lemma Carry(x: nat, p: nat, q: nat)
    requires x / 2 + p < q
    ensures x + 2 * p < 2 * q
  {
  }

  lemma {:induction false} ShrNext(x: nat, i: nat)
    ensures Shr(x, i + 1) == Shr(x, i) / 2
  {
    if i > 0 {
      ShrNext(x / 2, i - 1);
    }
  }

  /** The bits of `(high << k) | low`. */
  lemma {:induction false} JoinBits(high: nat, low: nat, k: nat, i: nat)
    requires low < Pow2(k)
    ensures Bit(low + Pow2(k) * high, i) <==> if i < k then Bit(low, i) else Bit(high, i - k)
    decreases k
  {
    if k > 0 {
      assert low + Pow2(k) * high == low + 2 * (Pow2(k - 1) * high);
      assert (low + Pow2(k) * high) / 2 == low / 2 + Pow2(k - 1) * high;
      if i > 0 {
        JoinBits(high, low / 2, k - 1, i - 1);
      }
    }
  }

  /** `(high << 8) | low`. */
  function Join(low: byte, high: nat): nat {
    low + 256 * high
  }

  lemma {:induction false} SameBits(x: nat, y: nat, n: nat)
    requires x < Pow2(n) && y < Pow2(n)
    requires forall i :: 0 <= i < n ==> Bit(x, i) == Bit(y, i)
    ensures x == y
  {
    if n > 0 {
      assert Bit(x, 0) == Bit(y, 0);
      forall i | 0 <= i < n - 1 ensures Bit(x / 2, i) == Bit(y / 2, i) {
        assert Bit(x, i + 1) == Bit(y, i + 1);
      }
      SameBits(x / 2, y / 2, n - 1);
    }
  }

  lemma {:induction false} NoBits(i: nat)
    ensures !Bit(0, i)
  {
    if i > 0 {
      NoBits(i - 1);
    }
  }

  /** Where the two kinds of module keep the bits of output `i`: UNI with the high octet first, UNIS with the low one. */
  datatype Layout = Uni | Unis
  {
    function Outputs(): nat {
      if Uni? then 16 else 28
    }

    function Header(): nat {
      if Uni? then 4 else 8
    }

    /** Bits in each half of the header. */
    function Width(): nat {
      4 * Header()
    }

    function MaskAt(i: nat): (r: nat)
      requires i < Width()
      ensures r < Header()
    {
      if Uni? then 1 - i / 8 else i / 8
    }

    function StateAt(i: nat): (r: nat)
      requires i < Width()
      ensures r < Header()
    {
      if Uni? then 3 - i / 8 else 4 + i / 8
    }

    predicate MaskBit(data: seq<byte>, i: nat)
      requires |data| >= Header() && i < Width()
    {
      Bit(data[MaskAt(i)], i % 8)
    }

    predicate StateBit(data: seq<byte>, i: nat)
      requires |data| >= Header() && i < Width()
    {
      Bit(data[StateAt(i)], i % 8)
    }
  }

  /** `(output & 0xC0) == 0`: the output is just on or off. */
  predicate Plain(output: byte) {
    output < 0x40
  }

  /** What the bus can carry of an output: of a plain one only whether it is on. */
  function Normal(output: byte): byte {
    if Plain(output) then (if output > 0 then 1 else 0) else output
  }

  /** The outputs sent as whole octets, in ascending order. */
  function Codes(outputs: seq<byte>): seq<byte> {
    if outputs == [] then []
    else
      var n := |outputs| - 1;
      Codes(outputs[..n]) + (if Plain(outputs[n]) then [] else [outputs[n]])
  }

  /** `data` is the message for these outputs; every bit of the header is determined. */
  predicate Encodes(l: Layout, outputs: seq<byte>, data: seq<byte>) {
    && |outputs| <= l.Outputs()
    && |data| == l.Header() + |Codes(outputs)|
    && data[l.Header()..] == Codes(outputs)
    && forall i :: 0 <= i < l.Width() ==>
      && l.MaskBit(data, i) == (i < |outputs| && !Plain(outputs[i]))
      && l.StateBit(data, i) == (i < |outputs| && Plain(outputs[i]) && outputs[i] > 0)
  }

  lemma EncodesNone(l: Layout, data: seq<byte>)
    requires data == seq(l.Header(), _ => 0)
    ensures Encodes(l, [], data)
  {
    forall i | 0 <= i < l.Width() ensures !l.MaskBit(data, i) && !l.StateBit(data, i) {
      NoBits(i % 8);
    }
  }

  /** Setting one bit in the header leaves the others alone: no two outputs share a bit. */
  lemma SetHeaderBit(l: Layout, data: seq<byte>, at: nat, i: nat, j: nat)
    requires |data| >= l.Header() && i < l.Width() && j < l.Width() && at in {l.MaskAt(i), l.StateAt(i)}
    ensures SetBit(data[at], i % 8) < 256
    ensures var data' := data[at := SetBit(data[at], i % 8)];
      && l.MaskBit(data', j) == (l.MaskBit(data, j) || (at == l.MaskAt(i) && j == i))
      && l.StateBit(data', j) == (l.StateBit(data, j) || (at == l.StateAt(i) && j == i))
  {
    SetBitOctet(data[at], i % 8);
    SetBitBits(data[at], i % 8, j % 8);
  }

  /** The next output, by the bits it sets and the octet it appends. */
  function EncodeNext(l: Layout, data: seq<byte>, i: nat, output: byte): (r: seq<byte>)
    requires |data| >= l.Header() && i < l.Width()
  {
    SetHeaderBit(l, data, l.MaskAt(i), i, i);
    SetHeaderBit(l, data, l.StateAt(i), i, i);
    if !Plain(output) then data[l.MaskAt(i) := SetBit(data[l.MaskAt(i)], i % 8)] + [output]
    else if output > 0 then data[l.StateAt(i) := SetBit(data[l.StateAt(i)], i % 8)]
    else data
  }

  lemma EncodesNext(l: Layout, outputs: seq<byte>, data: seq<byte>, output: byte)
    requires Encodes(l, outputs, data) && |outputs| < l.Outputs()
    ensures Encodes(l, outputs + [output], EncodeNext(l, data, |outputs|, output))
  {
    var n := |outputs|;
    var data' := EncodeNext(l, data, n, output);
    assert (outputs + [output])[..n] == outputs;
    forall i | 0 <= i < l.Width()
      ensures l.MaskBit(data', i) == (i < n + 1 && !Plain((outputs + [output])[i]))
      ensures l.StateBit(data', i) == (i < n + 1 && Plain((outputs + [output])[i]) && (outputs + [output])[i] > 0)
    {
      EncodeNextBits(l, data, n, output, i);
    }
  }

  lemma EncodeNextBits(l: Layout, data: seq<byte>, n: nat, output: byte, i: nat)
    requires |data| >= l.Header() && n < l.Width() && i < l.Width()
    ensures var data' := EncodeNext(l, data, n, output);
      && |data'| == |data| + (if Plain(output) then 0 else 1)
      && l.MaskBit(data', i) == (l.MaskBit(data, i) || (i == n && !Plain(output)))
      && l.StateBit(data', i) == (l.StateBit(data, i) || (i == n && Plain(output) && output > 0))
  {
    SetHeaderBit(l, data, l.MaskAt(n), n, i);
    SetHeaderBit(l, data, l.StateAt(n), n, i);
  }

  lemma UniPlaces(i: nat)
    requires i < 16
    ensures i % 8 == (if i < 8 then i else i - 8)
    ensures Uni.MaskAt(i) == (if i < 8 then 1 else 0) && Uni.StateAt(i) == if i < 8 then 3 else 2
  {
  }

  /** The body of the loop of `MtbUni::mtbBusOutputsData`. */
  method UniAddOutput(data: seq<byte>, i: nat, output: byte, ghost outputs: seq<byte>) returns (data': seq<byte>)
    requires Encodes(Uni, outputs, data) && i == |outputs| < 16
    ensures Encodes(Uni, outputs + [output], data')
  {
    EncodesNext(Uni, outputs, data, output);
    SetHeaderBit(Uni, data, Uni.MaskAt(i), i, i);
    SetHeaderBit(Uni, data, Uni.StateAt(i), i, i);
    UniPlaces(i);
    data' := data;
    if !Plain(output) {
      if i < 8 {
        data' := data'[1 := SetBit(data'[1], i)];
      } else {
        data' := data'[0 := SetBit(data'[0], i - 8)];
      }
      data' := data' + [output];
    } else {
      if output > 0 {
        if i < 8 {
          data' := data'[3 := SetBit(data'[3], i)];
        } else {
          data' := data'[2 := SetBit(data'[2], i - 8)];
        }
      }
    }
    assert data' == EncodeNext(Uni, data, i, output);
  }

  /** `MtbUni::mtbBusOutputsData`. */
  method UniOutputsData(outputs: seq<byte>) returns (data: seq<byte>)
    requires |outputs| == Uni.Outputs()
    ensures Encodes(Uni, outputs, data)
  {
    data := [0, 0, 0, 0];
    EncodesNone(Uni, data);
    assert outputs[..0] == [];
    for i := 0 to 16
      invariant Encodes(Uni, outputs[..i], data)
    {
      data := UniAddOutput(data, i, outputs[i], outputs[..i]);
      assert outputs[..i] + [outputs[i]] == outputs[..i + 1];
    }
    assert outputs[..16] == outputs;
  }

  /** The body of the loop of `MtbUnis::mtbBusOutputsData`. */
  method UnisAddOutput(data: seq<byte>, i: nat, output: byte, ghost outputs: seq<byte>) returns (data': seq<byte>)
    requires Encodes(Unis, outputs, data) && i == |outputs| < 28
    ensures Encodes(Unis, outputs + [output], data')
  {
    EncodesNext(Unis, outputs, data, output);
    assert Unis.MaskAt(i) == i / 8 && Unis.StateAt(i) == i / 8 + 4;
    SetHeaderBit(Unis, data, i / 8, i, i);
    SetHeaderBit(Unis, data, i / 8 + 4, i, i);
    data' := data;
    if !Plain(output) {
      data' := data'[i / 8 := SetBit(data'[i / 8], i % 8)];
      data' := data' + [output];
    } else {
      if output > 0 {
        data' := data'[i / 8 + 4 := SetBit(data'[i / 8 + 4], i % 8)];
      }
    }
    assert data' == EncodeNext(Unis, data, i, output);
  }

  /** `MtbUnis::mtbBusOutputsData`. */
  method UnisOutputsData(outputs: seq<byte>) returns (data: seq<byte>)
    requires |outputs| == Unis.Outputs()
    ensures Encodes(Unis, outputs, data)
  {
    data := [0, 0, 0, 0, 0, 0, 0, 0];
    EncodesNone(Unis, data);
    assert outputs[..0] == [];
    for i := 0 to 28
      invariant Encodes(Unis, outputs[..i], data)
    {
      data := UnisAddOutput(data, i, outputs[i], outputs[..i]);
      assert outputs[..i] + [outputs[i]] == outputs[..i + 1];
    }
    assert outputs[..28] == outputs;
  }

  /** Number of outputs below `i` that are sent as whole octets. */
  function Rank(l: Layout, data: seq<byte>, i: nat): nat
    requires |data| >= l.Header() && i <= l.Width()
  {
    if i == 0 then 0 else Rank(l, data, i - 1) + (if l.MaskBit(data, i - 1) then 1 else 0)
  }

  /** What the message says about output `i`; where it says nothing, the array keeps what it happened to contain. */
  function DecodedAt(l: Layout, data: seq<byte>, i: nat, garbage: byte): byte
    requires |data| >= l.Header() && i < l.Width()
  {
    if !l.MaskBit(data, i) then (if l.StateBit(data, i) then 1 else 0)
    else if l.Header() + Rank(l, data, i) < |data| then data[l.Header() + Rank(l, data, i)]
    else garbage
  }

  predicate Decodes(l: Layout, data: seq<byte>, garbage: seq<byte>, outputs: seq<byte>)
    requires |garbage| == l.Outputs()
  {
    && |outputs| == l.Outputs()
    && (|data| < l.Header() ==> outputs == garbage)
    && (|data| >= l.Header() ==> forall i :: 0 <= i < |outputs| ==> outputs[i] == DecodedAt(l, data, i, garbage[i]))
  }

  /** Position of the next whole octet after `i` outputs: it stops at the end of the data. */
  function Cursor(l: Layout, data: seq<byte>, i: nat): nat
    requires |data| >= l.Header() && i <= l.Width()
  {
    var k := l.Header() + Rank(l, data, i);
    if k < |data| then k else |data|
  }

  lemma CursorStep(l: Layout, data: seq<byte>, i: nat, garbage: byte)
    requires |data| >= l.Header() && i < l.Width()
    ensures Cursor(l, data, i + 1) == Cursor(l, data, i) + (if l.MaskBit(data, i) && Cursor(l, data, i) < |data| then 1 else 0)
    ensures l.MaskBit(data, i) ==>
      DecodedAt(l, data, i, garbage) == if Cursor(l, data, i) < |data| then data[Cursor(l, data, i)] else garbage
  {
  }

  lemma UniBits(data: seq<byte>, i: nat)
    requires |data| >= 4 && i < 16
    ensures Bit(Join(data[1], data[0]), i) == Uni.MaskBit(data, i)
    ensures Bit(Join(data[3], data[2]), i) == Uni.StateBit(data, i)
  {
    JoinBits(data[0], data[1], 8, i);
    JoinBits(data[2], data[3], 8, i);
  }

  /** `MtbUni::moduleOutputsData`; `garbage` is the content of the uninitialised array. */
  method UniModuleOutputs(data: seq<byte>, garbage: seq<byte>) returns (result: seq<byte>)
    requires |garbage| == Uni.Outputs()
    ensures Decodes(Uni, data, garbage, result)
  {
    result := garbage;
    if |data| < 4 {
      return;
    }
    var mask := Join(data[1], data[0]);
    var fullOutputs := Join(data[3], data[2]);
    ghost var mask0, full0 := mask, fullOutputs;
    var j := 4;
    for i := 0 to 16
      invariant |result| == 16
      invariant mask == Shr(mask0, i) && fullOutputs == Shr(full0, i)
      invariant j == Cursor(Uni, data, i)
      invariant forall k :: 0 <= k < i ==> result[k] == DecodedAt(Uni, data, k, garbage[k])
      invariant forall k :: i <= k < 16 ==> result[k] == garbage[k]
    {
      UniBits(data, i);
      CursorStep(Uni, data, i, garbage[i]);
      ShrNext(mask0, i);
      ShrNext(full0, i);
      if mask % 2 == 0 {
        result := result[i := fullOutputs % 2];
      } else if j < |data| {
        result := result[i := data[j]];
        j := j + 1;
      }
      mask := mask / 2;
      fullOutputs := fullOutputs / 2;
    }
  }

  lemma WordBits(w: seq<byte>, i: nat)
    requires |w| == 4 && i < 32
    ensures Bit(Join(w[0], Join(w[1], Join(w[2], w[3]))), i) == Bit(w[i / 8], i % 8)
  {
    JoinBits(Join(w[1], Join(w[2], w[3])), w[0], 8, i);
    if i >= 8 {
      JoinBits(Join(w[2], w[3]), w[1], 8, i - 8);
    }
    if i >= 16 {
      JoinBits(w[3], w[2], 8, i - 16);
    }
  }

  function UnisMask(data: seq<byte>): nat
    requires |data| >= 8
  {
    Join(data[0], Join(data[1], Join(data[2], data[3])))
  }

  function UnisState(data: seq<byte>): nat
    requires |data| >= 8
  {
    Join(data[4], Join(data[5], Join(data[6], data[7])))
  }

  lemma UnisBits(data: seq<byte>, i: nat)
    requires |data| >= 8 && i < 32
    ensures Bit(UnisMask(data), i) == Unis.MaskBit(data, i)
    ensures Bit(UnisState(data), i) == Unis.StateBit(data, i)
  {
    WordBits(data[..4], i);
    WordBits(data[4..8], i);
  }

  /** `MtbUnis::moduleOutputsData`. */
  method UnisModuleOutputs(data: seq<byte>, garbage: seq<byte>) returns (result: seq<byte>)
    requires |garbage| == Unis.Outputs()
    ensures Decodes(Unis, data, garbage, result)
  {
    result := garbage;
    if |data| < 8 {
      return;
    }
    var mask := UnisMask(data);
    var fullOutputs := UnisState(data);
    var j := 8;
    for i := 0 to 28
      invariant |result| == 28
      invariant j == Cursor(Unis, data, i)
      invariant forall k :: 0 <= k < i ==> result[k] == DecodedAt(Unis, data, k, garbage[k])
      invariant forall k :: i <= k < 28 ==> result[k] == garbage[k]
    {
      UnisBits(data, i);
      CursorStep(Unis, data, i, garbage[i]);
      if Shr(mask, i) % 2 == 0 {
        result := result[i := Shr(fullOutputs, i) % 2];
      } else if j < |data| {
        result := result[i := data[j]];
        j := j + 1;
      }
    }
  }

  lemma {:induction false} RankOfCodes(l: Layout, outputs: seq<byte>, data: seq<byte>, i: nat)
    requires Encodes(l, outputs, data) && i <= |outputs|
    ensures Rank(l, data, i) == |Codes(outputs[..i])|
  {
    if i == 0 {
      assert outputs[..0] == [];
    } else {
      RankOfCodes(l, outputs, data, i - 1);
      assert outputs[..i][..i - 1] == outputs[..i - 1];
    }
  }

  lemma {:induction false} CodesPrefix(outputs: seq<byte>, i: nat)
    requires i <= |outputs|
    ensures Codes(outputs[..i]) <= Codes(outputs)
    decreases |outputs|
  {
    if i == |outputs| {
      assert outputs[..i] == outputs;
    } else {
      var n := |outputs| - 1;
      assert outputs[..n][..i] == outputs[..i];
      CodesPrefix(outputs[..n], i);
    }
  }

  lemma RoundTripAt(l: Layout, outputs: seq<byte>, data: seq<byte>, i: nat, garbage: byte)
    requires Encodes(l, outputs, data) && i < |outputs|
    ensures DecodedAt(l, data, i, garbage) == Normal(outputs[i])
    ensures !Plain(outputs[i]) ==>
      l.Header() + |Codes(outputs[..i])| < |data| && data[l.Header() + |Codes(outputs[..i])|] == outputs[i]
  {
    RankOfCodes(l, outputs, data, i);
    assert l.MaskBit(data, i) == !Plain(outputs[i]);
    assert l.StateBit(data, i) == (Plain(outputs[i]) && outputs[i] > 0);
    if !Plain(outputs[i]) {
      CodeAt(outputs, i);
      assert data[l.Header() + |Codes(outputs[..i])|] == data[l.Header()..][|Codes(outputs[..i])|];
    }
  }

  lemma CodeAt(outputs: seq<byte>, i: nat)
    requires i < |outputs| && !Plain(outputs[i])
    ensures |Codes(outputs[..i])| < |Codes(outputs)| && Codes(outputs)[|Codes(outputs[..i])|] == outputs[i]
  {
    CodesPrefix(outputs, i + 1);
    assert outputs[..i + 1][..i] == outputs[..i];
  }

  /**
    A module that echoes a message reports the outputs that were sent, up to the normal form of plain ones; the octet of
    an output lies behind the header at the place given by the number of such outputs before it, and the data is used up
    exactly. What the array contained before does not matter.
  */
  lemma RoundTrip(l: Layout, outputs: seq<byte>, data: seq<byte>, garbage: seq<byte>, result: seq<byte>)
    requires |outputs| == |garbage| == l.Outputs()
    requires Encodes(l, outputs, data) && Decodes(l, data, garbage, result)
    ensures forall i :: 0 <= i < l.Outputs() ==>
      result[i] == Normal(outputs[i]) == if outputs[i] >= 0x40 then outputs[i] else if outputs[i] > 0 then 1 else 0
    ensures forall i :: 0 <= i < l.Outputs() && !Plain(outputs[i]) ==>
      l.Header() + |Codes(outputs[..i])| < |data| && data[l.Header() + |Codes(outputs[..i])|] == outputs[i]
    ensures |data| == l.Header() + Rank(l, data, l.Outputs())
  {
    forall i | 0 <= i < l.Outputs()
      ensures result[i] == Normal(outputs[i])
      ensures !Plain(outputs[i]) ==>
        l.Header() + |Codes(outputs[..i])| < |data| && data[l.Header() + |Codes(outputs[..i])|] == outputs[i]
    {
      RoundTripAt(l, outputs, data, i, garbage[i]);
    }
    RankOfCodes(l, outputs, data, l.Outputs());
    assert outputs[..l.Outputs()] == outputs;
  }

  /** Where the bits of a UNI are: octets 0 and 1 tell which outputs have a code, octets 2 and 3 which plain ones are on, outputs 8 to 15 first. */
  lemma UniPlacesOfBits(outputs: seq<byte>, data: seq<byte>)
    requires |outputs| == 16 && Encodes(Uni, outputs, data)
    ensures |data| >= 4
    ensures forall i :: 0 <= i < 8 ==>
      && Bit(data[1], i) == (outputs[i] >= 0x40) && Bit(data[0], i) == (outputs[8 + i] >= 0x40)
      && Bit(data[3], i) == (0 < outputs[i] < 0x40) && Bit(data[2], i) == (0 < outputs[8 + i] < 0x40)
  {
    forall i | 0 <= i < 8
      ensures Bit(data[1], i) == (outputs[i] >= 0x40) && Bit(data[0], i) == (outputs[8 + i] >= 0x40)
      ensures Bit(data[3], i) == (0 < outputs[i] < 0x40) && Bit(data[2], i) == (0 < outputs[8 + i] < 0x40)
    {
      assert Uni.MaskBit(data, i) == Bit(data[1], i) && Uni.MaskBit(data, 8 + i) == Bit(data[0], i);
      assert Uni.StateBit(data, i) == Bit(data[3], i) && Uni.StateBit(data, 8 + i) == Bit(data[2], i);
    }
  }

  /** Where those of a UNIS are: octets 0 to 3 and 4 to 7, output 0 first. */
  lemma UnisPlacesOfBits(outputs: seq<byte>, data: seq<byte>)
    requires |outputs| == 28 && Encodes(Unis, outputs, data)
    ensures |data| >= 8
    ensures forall i :: 0 <= i < 28 ==>
      Bit(data[i / 8], i % 8) == (outputs[i] >= 0x40) && Bit(data[4 + i / 8], i % 8) == (0 < outputs[i] < 0x40)
  {
    forall i | 0 <= i < 28
      ensures Bit(data[i / 8], i % 8) == (outputs[i] >= 0x40) && Bit(data[4 + i / 8], i % 8) == (0 < outputs[i] < 0x40)
    {
      assert Unis.MaskBit(data, i) == Bit(data[i / 8], i % 8) && Unis.StateBit(data, i) == Bit(data[4 + i / 8], i % 8);
    }
  }

  /** Two output states have the same message only if they are the same up to the normal form. */
  lemma EncodingInjective(l: Layout, outputs1: seq<byte>, outputs2: seq<byte>, data: seq<byte>)
    requires |outputs1| == |outputs2| == l.Outputs()
    requires Encodes(l, outputs1, data) && Encodes(l, outputs2, data)
    ensures forall i :: 0 <= i < l.Outputs() ==> Normal(outputs1[i]) == Normal(outputs2[i])
  {
    var result := seq(l.Outputs(), i requires 0 <= i < l.Outputs() => DecodedAt(l, data, i, 0));
    var garbage := seq(l.Outputs(), _ => 0);
    RoundTrip(l, outputs1, data, garbage, result);
    RoundTrip(l, outputs2, data, garbage, result);
  }

  /** LED: the states of the 32 outputs, one bit each. */
  predicate Packs(states: seq<bool>, data: seq<byte>) {
    |data| >= 4 && |states| <= 32 && forall i :: 0 <= i < 32 ==> Bit(data[i / 8], i % 8) == (i < |states| && states[i])
  }

  /** `MtbLed::ioToMtb`. */
  method IoToMtb(states: seq<bool>) returns (data: seq<byte>)
    requires |states| == 32
    ensures |data| == 4 && Packs(states, data)
  {
    data := [0, 0, 0, 0];
    forall i | 0 <= i < 32 ensures !Bit(data[i / 8], i % 8) {
      NoBits(i % 8);
    }
    for i := 0 to 32
      invariant |data| == 4 && Packs(states[..i], data)
    {
      SetBitOctet(data[i / 8], i % 8);
      forall j | 0 <= j < 32 ensures Bit(SetBit(data[i / 8], i % 8), j % 8) <==> j % 8 == i % 8 || Bit(data[i / 8], j % 8) {
        SetBitBits(data[i / 8], i % 8, j % 8);
      }
      if states[i] {
        data := data[i / 8 := SetBit(data[i / 8], i % 8)];
      }
    }
    assert states[..32] == states;
  }

  /** `MtbLed::mtbDataToIo`: too short data means all outputs off, and longer data is not read to its end. */
  method MtbDataToIo(data: seq<byte>) returns (result: seq<bool>)
    ensures |result| == 32
    ensures if |data| < 4 then forall i :: 0 <= i < 32 ==> !result[i] else Packs(result, data)
  {
    result := seq(32, _ => false);
    if |data| < 4 {
      return;
    }
    for i := 0 to 32
      invariant |result| == 32
      invariant forall k :: 0 <= k < 32 ==> result[k] == (k < i && Bit(data[k / 8], k % 8))
    {
      if Bit(data[i / 8], i % 8) {
        result := result[i := true];
      }
    }
  }

  /** Bitmap and states determine each other, in both directions. */
  lemma PacksBothWays(states1: seq<bool>, data1: seq<byte>, states2: seq<bool>, data2: seq<byte>)
    requires |states1| == |states2| == 32 && Packs(states1, data1) && Packs(states2, data2)
    ensures states1 == states2 <==> data1[..4] == data2[..4]
  {
    if states1 == states2 {
      forall k | 0 <= k < 4 ensures data1[k] == data2[k] {
        forall i | 0 <= i < 8 ensures Bit(data1[k], i) == Bit(data2[k], i) {
          assert Bit(data1[(8 * k + i) / 8], (8 * k + i) % 8) == Bit(data2[(8 * k + i) / 8], (8 * k + i) % 8);
        }
        SameBits(data1[k], data2[k], 8);
      }
    } else {
      var i :| 0 <= i < 32 && states1[i] != states2[i];
      assert data1[..4][i / 8] != data2[..4][i / 8];
    }
  }
}
