/**
  Frames on the serial line: `2A 42 length code data...`, where `length` counts code and data.
  `MtbUsb::send(vector)` builds them; `spHandleReadyRead` rebuilds messages from whatever chunks arrive.

  The program reads the length from a signed `char`, so a frame with a length byte outside 1..127 leads it into
  undefined behaviour. The model stops there: `corrupt` records that such a frame has been met.
*/
module Framing {
  import opened Basics

  const MAGIC_0: byte := 0x2A
  const MAGIC_1: byte := 0x42

  datatype Message = Message(code: byte, data: seq<byte>)

  /** `MtbUsb::send(vector)`: the size is stored in one octet. */
  function Framed(bytes: seq<byte>): seq<byte> {
    [MAGIC_0, MAGIC_1, |bytes| % 256] + bytes
  }

  /** The length byte of the frame lies in 1..127. */
  predicate Framable(m: Message) {
    |m.data| <= 126
  }

  function FrameOf(m: Message): seq<byte> {
    Framed([m.code] + m.data)
  }

  function Frames(ms: seq<Message>): seq<byte> {
    if ms == [] then [] else FrameOf(ms[0]) + Frames(ms[1..])
  }

  /** Position of the first header in the buffer (`QByteArray::indexOf`). */
  function IndexOfHeader(buffer: seq<byte>): (r: Option<nat>)
    ensures r.Some? ==> r.value + 1 < |buffer| && IsHeaderAt(buffer, r.value)
    ensures forall j :: 0 <= j < (if r.Some? then r.value else |buffer| - 1) ==> !IsHeaderAt(buffer, j)
  {
    if |buffer| < 2 then None
    else if IsHeaderAt(buffer, 0) then Some(0)
    else
      match IndexOfHeader(buffer[1..])
      case Some(i) =>
        assert forall j :: 0 < j <= i ==> IsHeaderAt(buffer, j) == IsHeaderAt(buffer[1..], j - 1);
        Some(i + 1)
      case None =>
        assert forall j :: 0 < j < |buffer| - 1 ==> IsHeaderAt(buffer, j) == IsHeaderAt(buffer[1..], j - 1);
        None
  }

  predicate IsHeaderAt(buffer: seq<byte>, i: int) {
    0 <= i < |buffer| - 1 && buffer[i] == MAGIC_0 && buffer[i + 1] == MAGIC_1
  }

  /** The buffer from its first header on; without a header everything is dropped. */
  function Trim(buffer: seq<byte>): seq<byte> {
    match IndexOfHeader(buffer)
    case Some(i) => buffer[i..]
    case None => []
  }

  datatype Extraction = Extraction(messages: seq<Message>, rest: seq<byte>, corrupt: bool)

  predicate FrameComplete(buffer: seq<byte>) {
    |buffer| > 2 && 1 <= buffer[2] <= 127 && |buffer| >= buffer[2] + 3
  }

  /** The message in a buffer that begins with a complete frame. */
  function Head(buffer: seq<byte>): Message
    requires FrameComplete(buffer)
  {
    Message(buffer[3], buffer[4..buffer[2] + 3])
  }

  /** The loop of `spHandleReadyRead`: takes messages off the front as long as they are complete. */
  function Extract(buffer: seq<byte>): Extraction {
    if FrameComplete(buffer) then
      var e := Extract(buffer[buffer[2] + 3..]);
      e.(messages := [Head(buffer)] + e.messages)
    else
      Extraction([], buffer, |buffer| > 2 && !(1 <= buffer[2] <= 127))
  }

  datatype Rx = Rx(buffer: seq<byte>, corrupt: bool)

  /** A chunk of bytes; `stale` when it comes later than the timeout after the previous one. */
  datatype Arrival = Arrival(bytes: seq<byte>, stale: bool)

  function Collected(buffer: seq<byte>, a: Arrival): seq<byte> {
    (if a.stale then [] else buffer) + a.bytes
  }

  /** `spHandleReadyRead`: the next state of the receive buffer, and the messages found. */
  function Read(rx: Rx, a: Arrival): (Rx, seq<Message>) {
    if rx.corrupt then (Rx(rx.buffer + a.bytes, true), [])
    else
      var e := Extract(Trim(Collected(rx.buffer, a)));
      (Rx(e.rest, e.corrupt), e.messages)
  }

  function ReadAll(arrivals: seq<Arrival>): (Rx, seq<Message>) {
    if arrivals == [] then (Rx([], false), [])
    else
      var (rx, ms) := ReadAll(arrivals[..|arrivals| - 1]);
      var (rx', ms') := Read(rx, arrivals[|arrivals| - 1]);
      (rx', ms + ms')
  }

  function Input(arrivals: seq<Arrival>): seq<byte> {
    if arrivals == [] then [] else Input(arrivals[..|arrivals| - 1]) + arrivals[|arrivals| - 1].bytes
  }

  lemma {:induction false} FramesConcat(ms: seq<Message>, ns: seq<Message>)
    ensures Frames(ms + ns) == Frames(ms) + Frames(ns)
  {
    if ms == [] {
      assert ms + ns == ns;
    } else {
      assert (ms + ns)[1..] == ms[1..] + ns;
      FramesConcat(ms[1..], ns);
      assert FrameOf(ms[0]) + (Frames(ms[1..]) + Frames(ns)) == FrameOf(ms[0]) + Frames(ms[1..]) + Frames(ns);
    }
  }

  /** Every byte taken off the buffer belongs to one delivered message. */
  lemma {:induction false} ExtractSize(buffer: seq<byte>)
    ensures |Frames(Extract(buffer).messages)| + |Extract(buffer).rest| == |buffer|
    decreases |buffer|
  {
    if FrameComplete(buffer) {
      ExtractSize(buffer[buffer[2] + 3..]);
    }
  }

  /** Bytes received so far that were neither delivered nor kept. */
  function Dropped(arrivals: seq<Arrival>): int {
    |Input(arrivals)| - |Frames(ReadAll(arrivals).1)| - |ReadAll(arrivals).0.buffer|
  }

  /** Nothing is delivered that was not received; what has been dropped stays dropped, and a loss drops something. */
  lemma DroppedGrows(arrivals: seq<Arrival>)
    requires arrivals != []
    ensures var n := |arrivals| - 1;
      && Dropped(arrivals) >= Dropped(arrivals[..n])
      && (Loses(ReadAll(arrivals[..n]).0, arrivals[n]) ==> Dropped(arrivals) > Dropped(arrivals[..n]))
  {
    var n := |arrivals| - 1;
    var (rx, ms) := ReadAll(arrivals[..n]);
    FramesConcat(ms, Read(rx, arrivals[n]).1);
    ExtractSize(Trim(Collected(rx.buffer, arrivals[n])));
  }

  /**
    The two ways to lose bytes of an intact stream: the buffer is cleared after a gap, or all it holds is the
    first byte of a header, which is not recognised as the beginning of one.
  */
  predicate Loses(rx: Rx, a: Arrival) {
    !rx.corrupt && ((a.stale && rx.buffer != []) || Collected(rx.buffer, a) == [MAGIC_0])
  }

  predicate Lossless(arrivals: seq<Arrival>) {
    forall i :: 0 <= i < |arrivals| ==> !Loses(ReadAll(arrivals[..i]).0, arrivals[i])
  }

  predicate AllFramable(ms: seq<Message>) {
    forall i :: 0 <= i < |ms| ==> Framable(ms[i])
  }

  /** `buffer` is what has arrived of the first frame of `ms`, without its end. */
  predicate Unfinished(buffer: seq<byte>, ms: seq<Message>) {
    if ms == [] then buffer == [] else buffer < FrameOf(ms[0])
  }

  /** A stream of frames cut anywhere yields the frames before the cut, and keeps the beginning of the next one. */
  lemma {:induction false} ExtractStream(buffer: seq<byte>, ms: seq<Message>)
    requires buffer <= Frames(ms) && AllFramable(ms)
    ensures var e := Extract(buffer);
      && !e.corrupt
      && e.messages <= ms
      && Unfinished(e.rest, ms[|e.messages|..])
      && Frames(e.messages) + e.rest == buffer
    decreases |buffer|
  {
    if ms != [] && FrameOf(ms[0]) <= buffer {
      var rest := HeadOfStream(buffer, ms);
      ExtractStream(rest, ms[1..]);
      ConsStream(ms[0], ms[1..], Extract(rest));
    } else if ms != [] {
      assert buffer < FrameOf(ms[0]);
      PartialFrame(buffer, ms[0]);
    }
  }

  lemma ConsStream(m: Message, ms: seq<Message>, e: Extraction)
    requires e.messages <= ms
    ensures [m] + e.messages <= [m] + ms
    ensures ([m] + ms)[|[m] + e.messages|..] == ms[|e.messages|..]
    ensures Frames([m] + e.messages) + e.rest == Frames([m]) + (Frames(e.messages) + e.rest)
  {
    FramesConcat([m], e.messages);
  }

  lemma PartialFrame(buffer: seq<byte>, m: Message)
    requires buffer < FrameOf(m) && Framable(m)
    ensures Extract(buffer) == Extraction([], buffer, false)
  {
    if |buffer| > 2 {
      assert buffer[2] == FrameOf(m)[2] == |m.data| + 1;
    }
  }

  lemma HeadOfStream(buffer: seq<byte>, ms: seq<Message>) returns (rest: seq<byte>)
    requires ms != [] && Framable(ms[0]) && FrameOf(ms[0]) <= buffer <= Frames(ms)
    ensures FrameComplete(buffer) && Head(buffer) == ms[0] && rest == buffer[buffer[2] + 3..]
    ensures Frames([ms[0]]) + rest == buffer && rest <= Frames(ms[1..]) && ms == [ms[0]] + ms[1..]
  {
    var f := FrameOf(ms[0]);
    rest := buffer[|f|..];
    assert buffer == f + rest;
    assert Frames([ms[0]]) == f;
    assert f[2] == |ms[0].data| + 1;
    assert f[4..] == ms[0].data;
  }

  /** The receiver has delivered the frames received so far and holds the beginning of the next one. */
  predicate InStep(arrivals: seq<Arrival>, ms: seq<Message>) {
    var (rx, delivered) := ReadAll(arrivals);
    && !rx.corrupt
    && delivered <= ms
    && Unfinished(rx.buffer, ms[|delivered|..])
    && Frames(delivered) + rx.buffer == Input(arrivals)
  }

  lemma TrimStream(buffer: seq<byte>, ms: seq<Message>)
    requires buffer <= Frames(ms) && buffer != [MAGIC_0]
    ensures Trim(buffer) == buffer
  {
    if |buffer| >= 2 {
      assert FrameOf(ms[0]) <= Frames(ms);
      assert buffer[0] == Frames(ms)[0] == FrameOf(ms[0])[0];
      assert buffer[1] == Frames(ms)[1] == FrameOf(ms[0])[1];
      assert IsHeaderAt(buffer, 0);
    }
  }

  lemma ReadStream(arrivals: seq<Arrival>, ms: seq<Message>)
    requires arrivals != [] && Input(arrivals) <= Frames(ms) && AllFramable(ms)
    requires InStep(arrivals[..|arrivals| - 1], ms)
    requires !Loses(ReadAll(arrivals[..|arrivals| - 1]).0, arrivals[|arrivals| - 1])
    ensures InStep(arrivals, ms)
  {
    var n := |arrivals| - 1;
    var (rx, delivered) := ReadAll(arrivals[..n]);
    var k := |delivered|;
    var buffer := Collected(rx.buffer, arrivals[n]);
    assert buffer == rx.buffer + arrivals[n].bytes;
    assert Input(arrivals) == Frames(delivered) + buffer;
    FramesConcat(delivered, ms[k..]);
    assert ms == delivered + ms[k..];
    assert buffer <= Frames(ms[k..]) by {
      assert buffer == Input(arrivals)[|Frames(delivered)|..];
      assert Frames(ms[k..]) == Frames(ms)[|Frames(delivered)|..];
    }
    TrimStream(buffer, ms[k..]);
    ExtractStream(buffer, ms[k..]);
    var e := Extract(buffer);
    FramesConcat(delivered, e.messages);
    assert ms[k..][|e.messages|..] == ms[k + |e.messages|..];
    assert Frames(delivered + e.messages) + e.rest == Frames(delivered) + (Frames(e.messages) + e.rest);
  }

  lemma LosslessStep(arrivals: seq<Arrival>)
    requires arrivals != []
    ensures var n := |arrivals| - 1;
      Lossless(arrivals) <==> Lossless(arrivals[..n]) && !Loses(ReadAll(arrivals[..n]).0, arrivals[n])
  {
    var n := |arrivals| - 1;
    assert forall i :: 0 <= i < n ==> arrivals[..n][..i] == arrivals[..i];
    if Lossless(arrivals) {
      assert forall i :: 0 <= i < n ==> !Loses(ReadAll(arrivals[..i]).0, arrivals[i]);
    }
  }

  lemma {:induction false} LossDrops(arrivals: seq<Arrival>)
    ensures Dropped(arrivals) >= if Lossless(arrivals) then 0 else 1
  {
    if arrivals != [] {
      LossDrops(arrivals[..|arrivals| - 1]);
      DroppedGrows(arrivals);
      LosslessStep(arrivals);
    }
  }

  lemma {:induction false} LosslessInStep(arrivals: seq<Arrival>, ms: seq<Message>)
    requires Input(arrivals) <= Frames(ms) && AllFramable(ms) && Lossless(arrivals)
    ensures InStep(arrivals, ms)
  {
    if arrivals != [] {
      assert Input(arrivals[..|arrivals| - 1]) <= Input(arrivals);
      LosslessStep(arrivals);
      LosslessInStep(arrivals[..|arrivals| - 1], ms);
      ReadStream(arrivals, ms);
    }
  }

  /**
    For a stream of frames cut into chunks in any way, the receiver delivers exactly the frames received completely and
    keeps exactly the beginning of the next one - if and only if no chunk came so late that it emptied a non-empty buffer,
    and the buffer never held a lone 0x2A when it was searched for a header.
  */
  lemma ChunkingInvariance(arrivals: seq<Arrival>, ms: seq<Message>)
    requires Input(arrivals) <= Frames(ms) && AllFramable(ms)
    ensures InStep(arrivals, ms) <==> Lossless(arrivals)
  {
    LossDrops(arrivals);
    if Lossless(arrivals) {
      LosslessInStep(arrivals, ms);
    }
  }

  lemma FirstFrameFits(ms: seq<Message>, ns: seq<Message>)
    requires ms <= ns
    ensures ms != [] ==> |Frames(ms)| >= |FrameOf(ns[0])|
  {
  }

  lemma UnfinishedUnique(d1: seq<Message>, b1: seq<byte>, d2: seq<Message>, b2: seq<byte>, ms: seq<Message>)
    requires d1 <= ms && d2 <= ms && |d1| <= |d2|
    requires Unfinished(b1, ms[|d1|..]) && Frames(d1) + b1 == Frames(d2) + b2
    ensures d1 == d2 && b1 == b2
  {
    var n := |d1|;
    var more := d2[n..];
    assert d2 == d1 + more;
    FramesConcat(d1, more);
    FirstFrameFits(more, ms[n..]);
    assert b1 == (Frames(d1) + b1)[|Frames(d1)|..] == Frames(more) + b2;
  }

  /** The stream can be cut after `n` bytes without cutting a frame. */
  predicate Boundary(ms: seq<Message>, n: int) {
    exists k :: 0 <= k <= |ms| && |Frames(ms[..k])| == n
  }

  /**
    A chunk that extends the bytes received from `n` to `n'` loses some: it is late and `n` is inside a frame, or what
    has been received then ends with the first byte of a frame and not even the byte before that was in this chunk.
  */
  predicate CutLoses(ms: seq<Message>, n: nat, n': nat, stale: bool) {
    (stale && !Boundary(ms, n)) || (n >= n' - 1 && Boundary(ms, n' - 1))
  }

  /** The cuts of the input, judged by the stream alone. */
  predicate HarmlessCuts(arrivals: seq<Arrival>, ms: seq<Message>) {
    arrivals == [] || (
      var n := |arrivals| - 1;
      && HarmlessCuts(arrivals[..n], ms)
      && !CutLoses(ms, |Input(arrivals[..n])|, |Input(arrivals)|, arrivals[n].stale))
  }

  lemma {:induction false} FramesGrow(ms: seq<Message>, i: nat, k: nat)
    requires i < k <= |ms|
    ensures |Frames(ms[..i])| + 4 <= |Frames(ms[..k])|
  {
    FramesConcat(ms[..i], ms[i..k]);
    assert ms[..k] == ms[..i] + ms[i..k];
    assert |FrameOf(ms[i])| >= 4;
  }

  lemma FrameBehind(ms: seq<Message>, k: nat, j: nat)
    requires k < j <= |ms|
    ensures |Frames(ms[..k])| + |FrameOf(ms[k])| <= |Frames(ms[..j])|
  {
    FramesConcat(ms[..k], ms[k..j]);
    assert ms[..j] == ms[..k] + ms[k..j];
    assert ms[k..j][0] == ms[k];
  }

  /** Between two frames there is no boundary. */
  lemma NoBoundaryInside(ms: seq<Message>, k: nat, n: int)
    requires k <= |ms| && |Frames(ms[..k])| <= n && Boundary(ms, n)
    requires k == |ms| || n < |Frames(ms[..k])| + |FrameOf(ms[k])|
    ensures n == |Frames(ms[..k])|
  {
    var j :| 0 <= j <= |ms| && |Frames(ms[..j])| == n;
    if j < k {
      FramesGrow(ms, j, k);
    } else if k < j {
      FrameBehind(ms, k, j);
    }
  }

  /** With `k` frames delivered and the beginning of the next one in the buffer, a chunk loses something exactly if the cuts say so. */
  lemma LosesIffCutLoses(rx: Rx, input: seq<byte>, ms: seq<Message>, k: nat, a: Arrival)
    requires !rx.corrupt && k <= |ms| && Frames(ms[..k]) + rx.buffer == input && input + a.bytes <= Frames(ms)
    requires if k == |ms| then rx.buffer == [] else |rx.buffer| < |FrameOf(ms[k])|
    ensures Loses(rx, a) <==> CutLoses(ms, |input|, |input| + |a.bytes|, a.stale)
  {
    var n := |input|;
    assert Frames(ms[..k]) + (rx.buffer + a.bytes) == input + a.bytes;
    if Boundary(ms, n) {
      NoBoundaryInside(ms, k, n);
    }
    FirstByteOfFrame(rx.buffer + a.bytes, ms, k);
    LastByteAlone(ms, k, n, n + |a.bytes|);
  }

  /** One byte is left behind the k-th boundary exactly if the byte before it is a boundary that had been reached. */
  lemma LastByteAlone(ms: seq<Message>, k: nat, n: nat, n': nat)
    requires k <= |ms| && |Frames(ms[..k])| <= n <= n'
    requires k == |ms| || n < |Frames(ms[..k])| + |FrameOf(ms[k])|
    ensures n' - |Frames(ms[..k])| == 1 <==> n >= n' - 1 && Boundary(ms, n' - 1)
  {
    if n >= n' - 1 && Boundary(ms, n' - 1) {
      if n' - 1 >= |Frames(ms[..k])| {
        NoBoundaryInside(ms, k, n' - 1);
      } else {
        var j :| 0 <= j <= |ms| && |Frames(ms[..j])| == n' - 1;
        if j < k {
          FramesGrow(ms, j, k);
        } else if k < j {
          FramesGrow(ms, k, j);
        }
      }
    }
  }

  /** What follows a boundary begins with the first byte of a header. */
  lemma FirstByteOfFrame(buffer: seq<byte>, ms: seq<Message>, k: nat)
    requires k <= |ms| && Frames(ms[..k]) + buffer <= Frames(ms)
    ensures |buffer| == 1 <==> buffer == [MAGIC_0]
  {
    FramesConcat(ms[..k], ms[k..]);
    assert ms == ms[..k] + ms[k..];
    if |buffer| == 1 {
      assert buffer[0] == (Frames(ms[..k]) + buffer)[|Frames(ms[..k])|] == Frames(ms)[|Frames(ms[..k])|] == Frames(ms[k..])[0];
    }
  }

  lemma {:induction false} LosslessIffHarmlessCuts(arrivals: seq<Arrival>, ms: seq<Message>)
    requires Input(arrivals) <= Frames(ms) && AllFramable(ms)
    ensures Lossless(arrivals) <==> HarmlessCuts(arrivals, ms)
  {
    if arrivals != [] {
      var n := |arrivals| - 1;
      LosslessStep(arrivals);
      LosslessIffHarmlessCuts(arrivals[..n], ms);
      if Lossless(arrivals[..n]) {
        var (rx, delivered) := ReadAll(arrivals[..n]);
        LosslessParts(arrivals[..n], ms);
        LosesIffCutLoses(rx, Input(arrivals[..n]), ms, |delivered|, arrivals[n]);
      }
    }
  }

  lemma LosslessParts(received: seq<Arrival>, ms: seq<Message>)
    requires Input(received) <= Frames(ms) && AllFramable(ms) && Lossless(received)
    ensures var (rx, delivered) := ReadAll(received);
      && !rx.corrupt && |delivered| <= |ms| && Frames(ms[..|delivered|]) + rx.buffer == Input(received)
      && if |delivered| == |ms| then rx.buffer == [] else |rx.buffer| < |FrameOf(ms[|delivered|])|
  {
    var (rx, delivered) := ReadAll(received);
    LosslessInStep(received, ms);
    assert delivered == ms[..|delivered|];
  }

  /**
    The same with a condition on the input alone: the receiver stays in step with a stream of frames if and only if no late
    chunk arrives inside a frame, and no chunk ends just after the first byte of a frame that it or an earlier chunk began with.
  */
  lemma InStepIffHarmlessCuts(arrivals: seq<Arrival>, ms: seq<Message>)
    requires Input(arrivals) <= Frames(ms) && AllFramable(ms)
    ensures InStep(arrivals, ms) <==> HarmlessCuts(arrivals, ms)
  {
    ChunkingInvariance(arrivals, ms);
    LosslessIffHarmlessCuts(arrivals, ms);
  }

  /** A frame of any message that is cut after its first byte is lost. */
  lemma LoneHeaderByteLost(m: Message)
    requires Framable(m)
    ensures var arrivals := [Arrival([MAGIC_0], false), Arrival(FrameOf(m)[1..], false)];
      Input(arrivals) == Frames([m]) && !InStep(arrivals, [m])
  {
    var first, rest := Arrival([MAGIC_0], false), Arrival(FrameOf(m)[1..], false);
    var arrivals := [first, rest];
    assert arrivals[..1] == [first] && arrivals[..1][..0] == [] && arrivals[..0] == [];
    assert Input([first]) == [MAGIC_0];
    assert Input(arrivals) == [MAGIC_0] + FrameOf(m)[1..] == FrameOf(m) == Frames([m]);
    assert Loses(ReadAll(arrivals[..0]).0, arrivals[0]);
    ChunkingInvariance(arrivals, [m]);
  }

  /** How the stream is cut makes no difference. */
  lemma SameStreamSameMessages(as1: seq<Arrival>, as2: seq<Arrival>, ms: seq<Message>)
    requires Input(as1) == Input(as2) <= Frames(ms) && AllFramable(ms)
    requires Lossless(as1) && Lossless(as2)
    ensures ReadAll(as1) == ReadAll(as2)
  {
    ChunkingInvariance(as1, ms);
    ChunkingInvariance(as2, ms);
    var (r1, d1) := ReadAll(as1);
    var (r2, d2) := ReadAll(as2);
    if |d1| <= |d2| {
      UnfinishedUnique(d1, r1.buffer, d2, r2.buffer, ms);
    } else {
      UnfinishedUnique(d2, r2.buffer, d1, r1.buffer, ms);
    }
  }

  /** No header begins in the first `n` bytes. */
  predicate NoHeaderBefore(buffer: seq<byte>, n: nat) {
    forall j :: 0 <= j < n ==> !IsHeaderAt(buffer, j)
  }

  /** What precedes the first header is dropped, and nothing else. */
  lemma JunkDropped(junk: seq<byte>, stream: seq<byte>)
    requires NoHeaderBefore(junk + stream, |junk|) && IsHeaderAt(stream, 0)
    ensures Trim(junk + stream) == stream
  {
    var buffer := junk + stream;
    assert IsHeaderAt(buffer, |junk|);
    assert buffer[|junk|..] == stream;
  }

  lemma NothingToKeep(buffer: seq<byte>)
    requires NoHeaderBefore(buffer, |buffer|)
    ensures Trim(buffer) == []
  {
  }

  /**
    Recovery: wherever the header found lies, the receiver goes on exactly as one that has just been started and is given
    the bytes from that header on. Whatever came before, and whatever was lost, is forgotten.
  */
  lemma Recovers(rx: Rx, a: Arrival, junk: seq<byte>, stream: seq<byte>)
    requires !rx.corrupt && Collected(rx.buffer, a) == junk + stream
    requires NoHeaderBefore(junk + stream, |junk|) && IsHeaderAt(stream, 0)
    ensures Read(rx, a) == Read(Rx([], false), Arrival(stream, false))
  {
    JunkDropped(junk, stream);
    assert [] + stream == stream;
    JunkDropped([], stream);
  }

  /** Without a header everything is dropped. */
  lemma WithoutHeader(rx: Rx, a: Arrival)
    requires !rx.corrupt && NoHeaderBefore(Collected(rx.buffer, a), |Collected(rx.buffer, a)|)
    ensures Read(rx, a) == (Rx([], false), [])
  {
    NothingToKeep(Collected(rx.buffer, a));
  }

  /** Frames behind junk are all delivered; a cut one is kept as far as it has come. */
  lemma FramesBehindJunk(rx: Rx, a: Arrival, junk: seq<byte>, stream: seq<byte>, ms: seq<Message>)
    requires !rx.corrupt && Collected(rx.buffer, a) == junk + stream && NoHeaderBefore(junk + stream, |junk|)
    requires |stream| >= 2 && stream <= Frames(ms) && AllFramable(ms)
    ensures var (rx', delivered) := Read(rx, a);
      && !rx'.corrupt && delivered <= ms && Unfinished(rx'.buffer, ms[|delivered|..])
      && Frames(delivered) + rx'.buffer == stream
    ensures stream == Frames(ms) ==> Read(rx, a) == (Rx([], false), ms)
  {
    BeginsWithHeader(stream, ms);
    JunkDropped(junk, stream);
    ExtractStream(stream, ms);
    if stream == Frames(ms) {
      var (rx', delivered) := Read(rx, a);
      assert ms[|ms|..] == [] && Frames(ms) + [] == Frames(ms);
      UnfinishedUnique(delivered, rx'.buffer, ms, [], ms);
    }
  }

  lemma BeginsWithHeader(stream: seq<byte>, ms: seq<Message>)
    requires |stream| >= 2 && stream <= Frames(ms)
    ensures IsHeaderAt(stream, 0)
  {
    assert stream[0] == Frames(ms)[0] == FrameOf(ms[0])[0];
    assert stream[1] == Frames(ms)[1] == FrameOf(ms[0])[1];
  }

  /** Receivers in the same state behave the same from there on. */
  lemma {:induction false} SameOnward(p: seq<Arrival>, q: seq<Arrival>, earlier: seq<Message>, more: seq<Arrival>)
    requires ReadAll(p) == (ReadAll(q).0, earlier + ReadAll(q).1)
    ensures ReadAll(p + more) == (ReadAll(q + more).0, earlier + ReadAll(q + more).1)
  {
    if more == [] {
      assert p + more == p && q + more == q;
    } else {
      var n := |more| - 1;
      SameOnward(p, q, earlier, more[..n]);
      SameNext(p + more[..n], q + more[..n], earlier, more[n]);
      ArrivalsSnoc(p, more);
      ArrivalsSnoc(q, more);
    }
  }

  lemma SameNext(p: seq<Arrival>, q: seq<Arrival>, earlier: seq<Message>, a: Arrival)
    requires ReadAll(p) == (ReadAll(q).0, earlier + ReadAll(q).1)
    ensures ReadAll(p + [a]) == (ReadAll(q + [a]).0, earlier + ReadAll(q + [a]).1)
  {
    ReadAllSnoc(p, a);
    ReadAllSnoc(q, a);
    Regrouped(earlier, ReadAll(q).1, Read(ReadAll(q).0, a).1);
  }

  lemma Regrouped(ms: seq<Message>, ns: seq<Message>, os: seq<Message>)
    ensures ms + ns + os == ms + (ns + os)
  {
  }

  lemma ArrivalsSnoc(p: seq<Arrival>, more: seq<Arrival>)
    requires more != []
    ensures p + more == p + more[..|more| - 1] + [more[|more| - 1]]
  {
  }

  lemma ReadFirst(a: Arrival)
    ensures ReadAll([a]) == Read(Rx([], false), a)
  {
    ReadAllSnoc([], a);
    assert [] + [a] == [a];
    assert [] + Read(Rx([], false), a).1 == Read(Rx([], false), a).1;
  }

  /** From a recovery on, the receiver does what one does that has just been started and is given the stream from there. */
  lemma RecoveredRun(before: seq<Arrival>, a: Arrival, more: seq<Arrival>, junk: seq<byte>, stream: seq<byte>)
    requires !ReadAll(before).0.corrupt && Collected(ReadAll(before).0.buffer, a) == junk + stream
    requires NoHeaderBefore(junk + stream, |junk|) && IsHeaderAt(stream, 0)
    ensures var anew := ReadAll([Arrival(stream, false)] + more);
      ReadAll(before + [a] + more) == (anew.0, ReadAll(before).1 + anew.1)
  {
    Recovers(ReadAll(before).0, a, junk, stream);
    ReadAllSnoc(before, a);
    ReadFirst(Arrival(stream, false));
    SameOnward(before + [a], [Arrival(stream, false)], ReadAll(before).1, more);
  }

  /**
    After any loss, a chunk that brings the beginning of a frame puts the receiver in step again: if the cuts from there on
    are harmless, exactly the frames from there on are delivered.
  */
  lemma InStepAgain(before: seq<Arrival>, a: Arrival, more: seq<Arrival>, junk: seq<byte>, stream: seq<byte>, ms: seq<Message>)
    requires !ReadAll(before).0.corrupt && Collected(ReadAll(before).0.buffer, a) == junk + stream
    requires NoHeaderBefore(junk + stream, |junk|) && |stream| >= 2
    requires AllFramable(ms) && Input([Arrival(stream, false)] + more) == Frames(ms)
    requires stream <= Frames(ms) && HarmlessCuts([Arrival(stream, false)] + more, ms)
    ensures ReadAll(before + [a] + more) == (Rx([], false), ReadAll(before).1 + ms)
  {
    BeginsWithHeader(stream, ms);
    RecoveredRun(before, a, more, junk, stream);
    InStepIffHarmlessCuts([Arrival(stream, false)] + more, ms);
    var (rx', delivered) := ReadAll([Arrival(stream, false)] + more);
    assert ms[|ms|..] == [] && Frames(ms) + [] == Frames(ms);
    UnfinishedUnique(delivered, rx'.buffer, ms, [], ms);
  }

  lemma ReadAllSnoc(arrivals: seq<Arrival>, a: Arrival)
    ensures var (rx, ms) := ReadAll(arrivals);
      ReadAll(arrivals + [a]) == (Read(rx, a).0, ms + Read(rx, a).1)
  {
    assert (arrivals + [a])[..|arrivals|] == arrivals;
  }
}
