/**
  Firmware images (`parseFirmware` and `alignFirmware` of src/modules/module.cpp): records of bytes are laid over
  blocks of 64 bytes, and the blocks are completed to whole flash pages.
*/
module Firmware {
  import opened Basics

  const BLOCK_SIZE: nat := 64
  const ERASED: byte := 0xFF

  /** One entry of the JSON object: the address and the bytes to be placed from there on, entries in key order. */
  datatype Record = Record(addr: nat, data: seq<byte>)

  type Storage = map<nat, seq<byte>>

  predicate Covers(r: Record, a: nat) {
    r.addr <= a < r.addr + |r.data|
  }

  /** What the records say about one address: the last record that covers it decides. */
  function ImageAt(records: seq<Record>, a: nat): byte {
    if records == [] then 0xFF
    else
      var last := records[|records| - 1];
      if Covers(last, a) then last.data[a - last.addr] else ImageAt(records[..|records| - 1], a)
  }

  predicate InBlock(b: nat, a: nat) {
    a / BLOCK_SIZE == b
  }

  /** Some record covers an address of the block. */
  ghost predicate Touched(records: seq<Record>, b: nat) {
    exists i, a: nat :: 0 <= i < |records| && Covers(records[i], a) && InBlock(b, a)
  }

  ghost predicate Holds(block: seq<byte>, records: seq<Record>, b: nat) {
    && |block| == BLOCK_SIZE
    && forall o :: 0 <= o < BLOCK_SIZE ==> block[o] == ImageAt(records, b * BLOCK_SIZE + o)
  }

  /** The blocks touched by the records, with the bytes of the records. */
  ghost predicate Represents(fw: Storage, records: seq<Record>) {
    && (forall b: nat :: b in fw <==> Touched(records, b))
    && (forall b: nat :: b in fw ==> Holds(fw[b], records, b))
  }

  function ErasedBlock(): seq<byte> {
    seq(BLOCK_SIZE, _ => ERASED)
  }

  function BlockAt(fw: Storage, b: nat): seq<byte> {
    if b in fw then fw[b] else ErasedBlock()
  }

  function PutByte(fw: Storage, a: nat, x: byte): Storage
    requires |BlockAt(fw, a / BLOCK_SIZE)| == BLOCK_SIZE
  {
    fw[a / BLOCK_SIZE := BlockAt(fw, a / BLOCK_SIZE)[a % BLOCK_SIZE := x]]
  }

  lemma {:induction false} UntouchedIsErased(records: seq<Record>, a: nat)
    requires !Touched(records, a / BLOCK_SIZE)
    ensures ImageAt(records, a) == 0xFF
  {
    if records != [] {
      var n := |records| - 1;
      assert Covers(records[n], a) && InBlock(a / BLOCK_SIZE, a) ==> Touched(records, a / BLOCK_SIZE);
      assert forall i, x: nat :: 0 <= i < n && Covers(records[..n][i], x) ==> Covers(records[i], x);
      UntouchedIsErased(records[..n], a);
    }
  }

  lemma ImageSnoc(records: seq<Record>, r: Record, a: nat)
    ensures ImageAt(records + [r], a) == if Covers(r, a) then r.data[a - r.addr] else ImageAt(records, a)
  {
    assert (records + [r])[..|records|] == records;
  }

  lemma TouchedSnoc(records: seq<Record>, r: Record, b: nat)
    ensures Touched(records + [r], b) <==> Touched(records, b) || exists a: nat :: Covers(r, a) && InBlock(b, a)
  {
    var all := records + [r];
    if Touched(records, b) {
      var i, a: nat :| 0 <= i < |records| && Covers(records[i], a) && InBlock(b, a);
      assert Covers(all[i], a);
    }
    if a: nat :| Covers(r, a) && InBlock(b, a) {
      assert Covers(all[|records|], a);
    }
  }

  /** The record with the byte `x` behind its last one. */
  function Longer(r: Record, x: byte): Record {
    Record(r.addr, r.data + [x])
  }

  lemma LongerTouches(records: seq<Record>, r: Record, x: byte, b: nat)
    ensures Touched(records + [Longer(r, x)], b) <==> Touched(records + [r], b) || b == (r.addr + |r.data|) / BLOCK_SIZE
  {
    TouchedSnoc(records, r, b);
    TouchedSnoc(records, Longer(r, x), b);
    assert forall c: nat :: Covers(Longer(r, x), c) <==> Covers(r, c) || c == r.addr + |r.data|;
    assert Covers(Longer(r, x), r.addr + |r.data|);
  }

  lemma LongerImage(records: seq<Record>, r: Record, x: byte, a: nat)
    ensures ImageAt(records + [Longer(r, x)], a) == if a == r.addr + |r.data| then x else ImageAt(records + [r], a)
  {
    ImageSnoc(records, r, a);
    ImageSnoc(records, Longer(r, x), a);
  }

  /** A block of `fw`, or an erased one, agrees with the records. */
  lemma BlockAtHolds(fw: Storage, records: seq<Record>, b: nat)
    requires Represents(fw, records)
    ensures Holds(BlockAt(fw, b), records, b)
  {
    if b !in fw {
      forall o | 0 <= o < BLOCK_SIZE ensures ErasedBlock()[o] == ImageAt(records, b * BLOCK_SIZE + o) {
        assert (b * BLOCK_SIZE + o) / BLOCK_SIZE == b;
        UntouchedIsErased(records, b * BLOCK_SIZE + o);
      }
    }
  }

  lemma LongerBlock(block: seq<byte>, records: seq<Record>, r: Record, x: byte, b: nat)
    requires Holds(block, records + [r], b)
    ensures var a := r.addr + |r.data|;
      Holds(if a / BLOCK_SIZE == b then block[a % BLOCK_SIZE := x] else block, records + [Longer(r, x)], b)
  {
    var a := r.addr + |r.data|;
    var block' := if a / BLOCK_SIZE == b then block[a % BLOCK_SIZE := x] else block;
    forall o | 0 <= o < BLOCK_SIZE ensures block'[o] == ImageAt(records + [Longer(r, x)], b * BLOCK_SIZE + o) {
      LongerImage(records, r, x, b * BLOCK_SIZE + o);
      assert b * BLOCK_SIZE + o == a <==> a / BLOCK_SIZE == b && a % BLOCK_SIZE == o;
    }
  }

  /** Laying one more byte of a record over the blocks. */
  lemma PutByteRepresents(fw: Storage, records: seq<Record>, r: Record, a: nat, x: byte)
    requires Represents(fw, records + [r]) && a == r.addr + |r.data|
    ensures |BlockAt(fw, a / BLOCK_SIZE)| == BLOCK_SIZE
    ensures Represents(PutByte(fw, a, x), records + [Longer(r, x)])
  {
    BlockAtHolds(fw, records + [r], a / BLOCK_SIZE);
    var fw' := PutByte(fw, a, x);
    forall b: nat ensures b in fw' <==> Touched(records + [Longer(r, x)], b) {
      LongerTouches(records, r, x, b);
    }
    forall b: nat | b in fw' ensures Holds(fw'[b], records + [Longer(r, x)], b) {
      BlockAtHolds(fw, records + [r], b);
      LongerBlock(BlockAt(fw, b), records, r, x, b);
    }
  }

  /** The body of the inner loop of `parseFirmware`. */
  method LayByte(fw: Storage, a: nat, x: byte, ghost records: seq<Record>, ghost r: Record) returns (fw': Storage)
    requires Represents(fw, records + [r]) && a == r.addr + |r.data|
    ensures Represents(fw', records + [Longer(r, x)])
  {
    PutByteRepresents(fw, records, r, a, x);
    fw' := PutByte(fw, a, x);
  }

  /** `parseFirmware`. */
  method ParseFirmware(records: seq<Record>) returns (fw: Storage)
    ensures Represents(fw, records)
  {
    fw := map[];
    for k := 0 to |records|
      invariant Represents(fw, records[..k])
    {
      var r := records[k];
      EmptyRecord(fw, records[..k], r.addr);
      for i := 0 to |r.data|
        invariant Represents(fw, records[..k] + [Record(r.addr, r.data[..i])])
      {
        fw := LayByte(fw, r.addr + i, r.data[i], records[..k], Record(r.addr, r.data[..i]));
        assert r.data[..i] + [r.data[i]] == r.data[..i + 1];
      }
      assert r.data[..|r.data|] == r.data;
      assert records[..k] + [r] == records[..k + 1];
    }
    assert records[..|records|] == records;
  }

  lemma EmptyRecord(fw: Storage, records: seq<Record>, addr: nat)
    requires Represents(fw, records)
    ensures Represents(fw, records + [Record(addr, [])])
  {
    forall b: nat ensures Touched(records + [Record(addr, [])], b) <==> Touched(records, b) {
      TouchedSnoc(records, Record(addr, []), b);
    }
    forall a: nat ensures ImageAt(records + [Record(addr, [])], a) == ImageAt(records, a) {
      ImageSnoc(records, Record(addr, []), a);
    }
  }

  /** Some block of the same page is in the storage. */
  ghost predicate PageStored(fw: Storage, blocksPerPage: nat, b: nat)
    requires blocksPerPage > 0
  {
    exists c :: c in fw && SamePage(blocksPerPage, c, b)
  }

  predicate SamePage(blocksPerPage: nat, c: nat, b: nat)
    requires blocksPerPage > 0
  {
    c / blocksPerPage == b / blocksPerPage
  }

  /** Nothing of `fw` is changed, and `todo` are the blocks whose pages have not been completed yet. */
  ghost predicate Aligning(fw: Storage, fw': Storage, todo: set<nat>, blocksPerPage: nat)
    requires blocksPerPage > 0
  {
    && (forall b :: b in fw ==> b in fw' && fw'[b] == fw[b])
    && (forall b :: b in fw' && b !in fw ==> fw'[b] == ErasedBlock() && PageStored(fw, blocksPerPage, b))
    && (forall b: nat, c :: c in fw && c !in todo && SamePage(blocksPerPage, c, b) ==> b in fw')
  }

  /** `alignFirmware`: the storage is closed under pages, and the blocks added are erased ones. */
  method AlignFirmware(fw: Storage, pageSize: nat) returns (fw': Storage)
    requires pageSize >= BLOCK_SIZE
    ensures forall b: nat :: b in fw' <==> PageStored(fw, pageSize / BLOCK_SIZE, b)
    ensures forall b: nat :: b in fw' ==> fw'[b] == BlockAt(fw, b)
  {
    var blocksPerPage := pageSize / BLOCK_SIZE;
    fw' := fw;
    var todo := fw.Keys;
    while todo != {}
      invariant todo <= fw.Keys
      invariant Aligning(fw, fw', todo, blocksPerPage)
    {
      var block :| block in todo;
      var page := block / blocksPerPage;
      for i := 0 to blocksPerPage
        invariant Aligning(fw, fw', todo, blocksPerPage)
        invariant forall b: nat :: SamePage(blocksPerPage, block, b) && b < page * blocksPerPage + i ==> b in fw'
      {
        var b := page * blocksPerPage + i;
        PageOf(page, blocksPerPage, i);
        assert SamePage(blocksPerPage, block, b);
        if b !in fw' {
          fw' := fw'[b := ErasedBlock()];
        }
      }
      forall b: nat | SamePage(blocksPerPage, block, b) ensures b in fw' {
        assert b == (b / blocksPerPage) * blocksPerPage + b % blocksPerPage;
      }
      todo := todo - {block};
    }
    AlignmentDone(fw, fw', blocksPerPage);
  }

  lemma AlignmentDone(fw: Storage, fw': Storage, blocksPerPage: nat)
    requires blocksPerPage > 0 && Aligning(fw, fw', {}, blocksPerPage)
    ensures forall b: nat :: b in fw' <==> PageStored(fw, blocksPerPage, b)
    ensures forall b: nat :: b in fw' ==> fw'[b] == BlockAt(fw, b)
  {
    forall b: nat ensures b in fw' <==> PageStored(fw, blocksPerPage, b) {
      if b in fw {
        assert SamePage(blocksPerPage, b, b);
      }
    }
  }

  lemma PageOf(page: nat, blocksPerPage: nat, i: nat)
    requires i < blocksPerPage
    ensures (page * blocksPerPage + i) / blocksPerPage == page
  {
    DivUnique(page * blocksPerPage + i, blocksPerPage, page, i);
  }

  lemma DivUnique(x: nat, d: nat, q: nat, r: nat)
    requires d > 0 && r < d && x == q * d + r
    ensures x / d == q
  {
    var k := x / d - q;
    assert (x / d) * d == q * d + k * d;
    if k >= 1 {
      AtLeast(k, d);
    } else if k <= -1 {
      AtLeast(-k, d);
    }
  }

  lemma AtLeast(k: int, d: nat)
    requires k >= 1
    ensures k * d >= d
  {
    assert k * d == (k - 1) * d + d;
  }

  /** The pages touched by the records, completed by erased bytes. */
  ghost predicate RepresentsPages(fw: Storage, records: seq<Record>, blocksPerPage: nat)
    requires blocksPerPage > 0
  {
    && (forall b: nat :: b in fw <==> PageTouched(records, blocksPerPage, b))
    && (forall b: nat :: b in fw ==> Holds(fw[b], records, b))
  }

  ghost predicate PageTouched(records: seq<Record>, blocksPerPage: nat, b: nat)
    requires blocksPerPage > 0
  {
    exists c: nat :: Touched(records, c) && SamePage(blocksPerPage, c, b)
  }

  /** Aligning changes nothing about the image: what it adds are addresses no record covers. */
  lemma AlignedRepresents(fw: Storage, fw': Storage, records: seq<Record>, pageSize: nat)
    requires pageSize >= BLOCK_SIZE && Represents(fw, records)
    requires forall b: nat :: b in fw' <==> PageStored(fw, pageSize / BLOCK_SIZE, b)
    requires forall b: nat :: b in fw' ==> fw'[b] == BlockAt(fw, b)
    ensures RepresentsPages(fw', records, pageSize / BLOCK_SIZE)
  {
    forall b: nat | b in fw' ensures Holds(fw'[b], records, b) {
      BlockAtHolds(fw, records, b);
    }
  }

  /** What `jsonUpgradeFw` prepares. */
  method LoadFirmware(records: seq<Record>, pageSize: nat) returns (fw: Storage)
    requires pageSize >= BLOCK_SIZE
    ensures RepresentsPages(fw, records, pageSize / BLOCK_SIZE)
  {
    var blocks := ParseFirmware(records);
    fw := AlignFirmware(blocks, pageSize);
    AlignedRepresents(blocks, fw, records, pageSize);
  }
}
