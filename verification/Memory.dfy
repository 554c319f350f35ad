/** Data memory: the word array with byte lanes of the pipeline (rtl/core_top_pipelined.sv) and the
    byte array of the single-cycle core (rtl/core_top.sv). */
module Memory {
  import opened Words
  import opened Arithmetic

  const MEM_BASE: Word := 0x8000_0000
  const UART_TXDATA: Word := 0x8000_0000

  type WordMem = s: seq<Word> | |s| == 0x8000 witness seq(0x8000, _ => 0)
  type ByteMem = s: seq<Byte> | |s| == 0x2_0000 witness seq(0x2_0000, _ => 0)

  function Offset(addr: Word): Word { Sub(addr, MEM_BASE) }

  /** `off[16:2]` and `off[1:0]`. */
  function Index(off: Word): (i: int)
    ensures 0 <= i < 0x8000
  {
    (off / 4) % 0x8000
  }

  function Lane(off: Word): Bits2 { off % 4 }

  // ---------------------------------------------------------------- bytes of a word

  function ByteAt(w: Word, k: Bits2): Byte {
    if k == 0 then w % 0x100
    else if k == 1 then (w / 0x100) % 0x100
    else if k == 2 then (w / 0x1_0000) % 0x100
    else w / 0x100_0000
  }

  /** The little-endian value of a byte string. */
  function LittleEndian(bs: seq<Byte>): nat {
    if bs == [] then 0 else bs[0] + 0x100 * LittleEndian(bs[1..])
  }

  function Pack(b0: Byte, b1: Byte, b2: Byte, b3: Byte): Word {
    FourBytes(b0, b1, b2, b3);
    LittleEndian([b0, b1, b2, b3])
  }

  lemma FourBytes(b0: Byte, b1: Byte, b2: Byte, b3: Byte)
    ensures LittleEndian([b0, b1, b2, b3]) == b0 + b1 * 0x100 + b2 * 0x1_0000 + b3 * 0x100_0000
  {
    assert [b0, b1, b2, b3][1..] == [b1, b2, b3] && [b1, b2, b3][1..] == [b2, b3] && [b2, b3][1..] == [b3];
    assert LittleEndian([b3]) == b3;
    assert LittleEndian([b2, b3]) == b2 + 0x100 * b3;
  }

  lemma PackIs(b0: Byte, b1: Byte, b2: Byte, b3: Byte)
    ensures Pack(b0, b1, b2, b3) == b0 + b1 * 0x100 + b2 * 0x1_0000 + b3 * 0x100_0000
  {
    FourBytes(b0, b1, b2, b3);
  }

  /** `x << 8*k` and `x >> 8*k` within 32 bits. */
  function ShiftUp(x: Word, k: Bits2): Word {
    if k == 0 then x
    else if k == 1 then (x * 0x100) % 0x1_0000_0000
    else if k == 2 then (x * 0x1_0000) % 0x1_0000_0000
    else (x * 0x100_0000) % 0x1_0000_0000
  }

  function ShiftDown(x: Word, k: Bits2): Word {
    if k == 0 then x else if k == 1 then x / 0x100 else if k == 2 then x / 0x1_0000 else x / 0x100_0000
  }

  function Extend8(x: int, unsigned: bool): Word
    requires 0 <= x < 0x100
  {
    if !unsigned && x >= 0x80 then x + 0xFFFF_FF00 else x
  }

  function Extend16(x: int, unsigned: bool): Word
    requires 0 <= x < 0x1_0000
  {
    if !unsigned && x >= 0x8000 then x + 0xFFFF_0000 else x
  }

  // ---------------------------------------------------------------- word array with byte lanes

  /** `dmem_byte_we[k]` of an enabled store. */
  predicate LaneEnabled(width: Bits2, lane: Bits2, k: Bits2) {
    if width == 0 then k == lane
    else if width == 1 then k == lane || k == lane + 1
    else true
  }

  function ShiftedData(width: Bits2, lane: Bits2, data: Word): Word {
    if width == 0 then ShiftUp(data % 0x100, lane)
    else if width == 1 then ShiftUp(data % 0x1_0000, lane)
    else data
  }

  function MergedLane(prior: Word, width: Bits2, lane: Bits2, data: Word, k: Bits2): Byte {
    ByteAt(if LaneEnabled(width, lane, k) then ShiftedData(width, lane, data) else prior, k)
  }

  function MergedWord(prior: Word, width: Bits2, lane: Bits2, data: Word): Word {
    Pack(MergedLane(prior, width, lane, data, 0), MergedLane(prior, width, lane, data, 1),
         MergedLane(prior, width, lane, data, 2), MergedLane(prior, width, lane, data, 3))
  }

  function StoreLanes(m: WordMem, off: Word, width: Bits2, data: Word): WordMem {
    m[Index(off) := MergedWord(m[Index(off)], width, Lane(off), data)]
  }

  /** Late extraction in WB from the registered word and byte select. */
  function Extract(raw: Word, lane: Bits2, width: Bits2, unsigned: bool): Word {
    if width == 0 then Extend8(ShiftDown(raw, lane) % 0x100, unsigned)
    else if width == 1 then Extend16(ShiftDown(raw, lane) % 0x1_0000, unsigned)
    else raw
  }

  function LoadLanes(m: WordMem, off: Word, width: Bits2, unsigned: bool): Word {
    Extract(m[Index(off)], Lane(off), width, unsigned)
  }

  // ---------------------------------------------------------------- byte array

  /** Reading outside the array is undefined in the hardware; the model returns zero. */
  function ReadByte(m: ByteMem, off: Word): Byte {
    if off < 0x2_0000 then m[off] else 0
  }

  function WriteByte(m: ByteMem, off: Word, b: Byte): ByteMem {
    if off < 0x2_0000 then m[off := b] else m
  }

  function ReadWord(m: ByteMem, off: Word): Word {
    Pack(ReadByte(m, off), ReadByte(m, Add(off, 1)), ReadByte(m, Add(off, 2)), ReadByte(m, Add(off, 3)))
  }

  function LoadBytes(m: ByteMem, off: Word, width: Bits2, unsigned: bool): Word {
    if width == 0 then Extend8(ReadWord(m, off) % 0x100, unsigned)
    else if width == 1 then Extend16(ReadWord(m, off) % 0x1_0000, unsigned)
    else ReadWord(m, off)
  }

  function StoreBytes(m: ByteMem, off: Word, width: Bits2, data: Word): ByteMem {
    var m0 := WriteByte(m, off, ByteAt(data, 0));
    if width == 0 then m0
    else
      var m1 := WriteByte(m0, Add(off, 1), ByteAt(data, 1));
      if width == 1 then m1
      else WriteByte(WriteByte(m1, Add(off, 2), ByteAt(data, 2)), Add(off, 3), ByteAt(data, 3))
  }

  // ---------------------------------------------------------------- agreement

  /** The bytes a word array holds. */
  function BytesOf(m: WordMem): ByteMem {
    seq(0x2_0000, i requires 0 <= i < 0x2_0000 => ByteAt(m[i / 4], i % 4))
  }

  function Size(width: Bits2): int {
    if width == 0 then 1 else if width == 1 then 2 else 4
  }

  /** The access lies in the region and does not cross a word boundary.  Every naturally aligned
      access in the region qualifies, and so does a half word at byte 1. */
  predicate Fits(off: Word, width: Bits2) {
    off < 0x2_0000 && Lane(off) + Size(width) <= 4
  }

  lemma PackedBytes(b0: Byte, b1: Byte, b2: Byte, b3: Byte)
    ensures ByteAt(Pack(b0, b1, b2, b3), 0) == b0 && ByteAt(Pack(b0, b1, b2, b3), 1) == b1
    ensures ByteAt(Pack(b0, b1, b2, b3), 2) == b2 && ByteAt(Pack(b0, b1, b2, b3), 3) == b3
  {
    PackIs(b0, b1, b2, b3);
    var t1: int := b1 + b2 * 0x100 + b3 * 0x1_0000;
    var t2: int := b2 + b3 * 0x100;
    QuotientIs(b0 + t1 * 0x100, 0x100, t1, b0);
    QuotientIs(b0 + t1 * 0x100, 0x1_0000, t2, b0 + b1 * 0x100);
    QuotientIs(b0 + t1 * 0x100, 0x100_0000, b3, b0 + b1 * 0x100 + b2 * 0x1_0000);
    QuotientIs(t1, 0x100, t2, b1);
    QuotientIs(t2, 0x100, b3, b2);
  }

  lemma UnpackedWord(w: Word)
    ensures Pack(ByteAt(w, 0), ByteAt(w, 1), ByteAt(w, 2), ByteAt(w, 3)) == w
  {
    PackIs(ByteAt(w, 0), ByteAt(w, 1), ByteAt(w, 2), ByteAt(w, 3));
    var q1 := w / 0x100;
    var q2 := q1 / 0x100;
    assert w / 0x1_0000 == q2 && w / 0x100_0000 == q2 / 0x100;
  }

  /** Shifting by whole bytes moves the bytes. */
  lemma ShiftUpBytes(b0: Byte, b1: Byte, b2: Byte, b3: Byte)
    ensures ShiftUp(Pack(b0, b1, b2, b3), 1) == Pack(0, b0, b1, b2)
    ensures ShiftUp(Pack(b0, b1, b2, b3), 2) == Pack(0, 0, b0, b1)
    ensures ShiftUp(Pack(b0, b1, b2, b3), 3) == Pack(0, 0, 0, b0)
  {
    PackIs(b0, b1, b2, b3);
    PackIs(0, b0, b1, b2);
    PackIs(0, 0, b0, b1);
    PackIs(0, 0, 0, b0);
    var w: int := Pack(b0, b1, b2, b3);
    DropTop(w * 0x100, Pack(0, b0, b1, b2), b3);
    DropTop(w * 0x1_0000, Pack(0, 0, b0, b1), b2 + b3 * 0x100);
    DropTop(w * 0x100_0000, Pack(0, 0, 0, b0), b1 + b2 * 0x100 + b3 * 0x1_0000);
  }

  lemma DropTop(x: nat, low: Word, high: nat)
    requires x == low + high * 0x1_0000_0000
    ensures x % 0x1_0000_0000 == low
  {
  }

  lemma ShiftDownBytes(b0: Byte, b1: Byte, b2: Byte, b3: Byte)
    ensures ShiftDown(Pack(b0, b1, b2, b3), 1) == Pack(b1, b2, b3, 0)
    ensures ShiftDown(Pack(b0, b1, b2, b3), 2) == Pack(b2, b3, 0, 0)
    ensures ShiftDown(Pack(b0, b1, b2, b3), 3) == Pack(b3, 0, 0, 0)
  {
    PackIs(b0, b1, b2, b3);
    PackIs(b1, b2, b3, 0);
    PackIs(b2, b3, 0, 0);
    PackIs(b3, 0, 0, 0);
  }

  lemma PackLow(b0: Byte, b1: Byte, b2: Byte, b3: Byte)
    ensures Pack(b0, b1, b2, b3) % 0x100 == b0
    ensures Pack(b0, b1, b2, b3) % 0x1_0000 == b0 + 0x100 * b1
  {
    PackIs(b0, b1, b2, b3);
    var t2: int := b2 + b3 * 0x100;
    var t1: int := b1 + t2 * 0x100;
    QuotientIs(b0 + t1 * 0x100, 0x100, t1, b0);
    QuotientIs(b0 + t1 * 0x100, 0x1_0000, t2, b0 + b1 * 0x100);
  }

  /** The low bytes of a word shifted down to a lane. */
  lemma LaneBytes(w: Word, k: Bits2)
    ensures ShiftDown(w, k) % 0x100 == ByteAt(w, k)
    ensures k < 3 ==> ShiftDown(w, k) % 0x1_0000 == ByteAt(w, k) + 0x100 * ByteAt(w, k + 1)
  {
    hide ByteAt, Pack;
    var b0, b1, b2, b3 := ByteAt(w, 0), ByteAt(w, 1), ByteAt(w, 2), ByteAt(w, 3);
    UnpackedWord(w);
    ShiftDownBytes(b0, b1, b2, b3);
    PackLow(b0, b1, b2, b3);
    PackLow(b1, b2, b3, 0);
    PackLow(b2, b3, 0, 0);
    PackLow(b3, 0, 0, 0);
  }

  lemma OffsetParts(off: Word, k: nat)
    requires off < 0x2_0000 && off % 4 + k < 4
    ensures Add(off, k) == off + k < 0x2_0000
    ensures (off + k) / 4 == Index(off) && (off + k) % 4 == Lane(off) + k
  {
  }

  lemma ByteOfArray(m: WordMem, off: Word, k: nat)
    requires off < 0x2_0000 && off % 4 + k < 4
    ensures ReadByte(BytesOf(m), Add(off, k)) == ByteAt(m[Index(off)], Lane(off) + k)
  {
    OffsetParts(off, k);
  }

  /** A load through the word array returns what the byte array would. */
  lemma LoadAgrees(m: WordMem, off: Word, width: Bits2, unsigned: bool)
    requires Fits(off, width)
    ensures LoadLanes(m, off, width, unsigned) == LoadBytes(BytesOf(m), off, width, unsigned)
  {
    hide BytesOf, ReadByte, ByteAt, ShiftDown, Pack;
    var w, lane, b := m[Index(off)], Lane(off), BytesOf(m);
    PackLow(ReadByte(b, off), ReadByte(b, Add(off, 1)), ReadByte(b, Add(off, 2)), ReadByte(b, Add(off, 3)));
    LaneBytes(w, lane);
    OffsetParts(off, 0);
    ByteOfArray(m, off, 0);
    if width >= 1 { ByteOfArray(m, off, 1); }
    if width >= 2 {
      ByteOfArray(m, off, 2);
      ByteOfArray(m, off, 3);
      UnpackedWord(w);
    }
  }

  /** The narrow store data still holds the bytes to be stored. */
  lemma NarrowBytes(width: Bits2, data: Word, k: Bits2)
    requires k < Size(width)
    ensures ByteAt(if width == 0 then data % 0x100 else if width == 1 then data % 0x1_0000 else data, k)
         == ByteAt(data, k)
  {
    if width == 1 {
      var low, high := data % 0x1_0000, data / 0x1_0000;
      QuotientIs(data, 0x100, low / 0x100 + high * 0x100, low % 0x100);
      QuotientIs(low / 0x100 + high * 0x100, 0x100, high, low / 0x100);
    }
  }

  /** A shifted store lane carries the byte it should, and only the accessed bytes are enabled. */
  lemma StoreLane(width: Bits2, lane: Bits2, data: Word, k: Bits2)
    requires lane + Size(width) <= 4
    ensures LaneEnabled(width, lane, k) <==> lane <= k < lane + Size(width)
    ensures LaneEnabled(width, lane, k) ==> ByteAt(ShiftedData(width, lane, data), k) == ByteAt(data, k - lane)
  {
    hide ByteAt, Pack;
    if width < 2 && lane <= k < lane + Size(width) {
      hide ShiftUp;
      var x: Word := if width == 0 then data % 0x100 else data % 0x1_0000;
      NarrowBytes(width, data, k - lane);
      LaneOfShifted(x, lane, k);
    }
  }

  lemma LaneOfShifted(x: Word, lane: Bits2, k: Bits2)
    requires lane <= k
    ensures ByteAt(ShiftUp(x, lane), k) == ByteAt(x, k - lane)
  {
    hide ByteAt, Pack;
    var b0, b1, b2, b3 := ByteAt(x, 0), ByteAt(x, 1), ByteAt(x, 2), ByteAt(x, 3);
    UnpackedWord(x);
    ShiftUpBytes(b0, b1, b2, b3);
    PackedBytes(0, b0, b1, b2);
    PackedBytes(0, 0, b0, b1);
    PackedBytes(0, 0, 0, b0);
  }

  lemma StoreBytesAt(m: ByteMem, off: Word, width: Bits2, data: Word, i: int)
    requires Fits(off, width) && 0 <= i < 0x2_0000
    ensures StoreBytes(m, off, width, data)[i] ==
      if off <= i < off + Size(width) then ByteAt(data, i - off) else m[i]
  {
    hide ByteAt;
    OffsetParts(off, 0);
    if width >= 1 { OffsetParts(off, 1); }
    if width >= 2 { OffsetParts(off, 2); OffsetParts(off, 3); }
  }

  lemma StoreLanesAt(m: WordMem, off: Word, width: Bits2, data: Word, i: int)
    requires Fits(off, width) && 0 <= i < 0x2_0000
    ensures ByteAt(StoreLanes(m, off, width, data)[i / 4], i % 4) ==
      if off <= i < off + Size(width) then ByteAt(data, i - off) else ByteAt(m[i / 4], i % 4)
  {
    hide ByteAt, ShiftedData, LaneEnabled, Pack;
    var lane := Lane(off);
    if i / 4 == Index(off) {
      var w := m[Index(off)];
      PackedBytes(MergedLane(w, width, lane, data, 0), MergedLane(w, width, lane, data, 1),
                  MergedLane(w, width, lane, data, 2), MergedLane(w, width, lane, data, 3));
      StoreLane(width, lane, data, i % 4);
    }
  }

  /** A store through byte lanes leaves exactly the bytes the byte array would hold. */
  lemma StoreAgrees(m: WordMem, off: Word, width: Bits2, data: Word)
    requires Fits(off, width)
    ensures BytesOf(StoreLanes(m, off, width, data)) == StoreBytes(BytesOf(m), off, width, data)
  {
    hide StoreLanes, StoreBytes, ByteAt;
    forall i | 0 <= i < 0x2_0000
      ensures BytesOf(StoreLanes(m, off, width, data))[i] == StoreBytes(BytesOf(m), off, width, data)[i]
    {
      StoreBytesAt(BytesOf(m), off, width, data, i);
      StoreLanesAt(m, off, width, data, i);
    }
  }

  // ---------------------------------------------------------------- what an access means

  /** The little-endian value of the bytes from `off`. */
  function BytesValue(m: ByteMem, off: int, size: int): nat
    requires 0 <= off && 0 <= size && off + size <= 0x2_0000
  {
    LittleEndian(m[off..off + size])
  }

  /** Bits in an access of this width. */
  function Span(width: Bits2): int {
    if width == 0 then 0x100 else if width == 1 then 0x1_0000 else 0x1_0000_0000
  }

  lemma BytesValueIs(m: ByteMem, off: Word, width: Bits2)
    requires off + Size(width) <= 0x2_0000
    ensures var b0, b1, b2, b3 := ReadByte(m, off), ReadByte(m, Add(off, 1)), ReadByte(m, Add(off, 2)), ReadByte(m, Add(off, 3));
            BytesValue(m, off, Size(width)) ==
              if width == 0 then Pack(b0, 0, 0, 0) else if width == 1 then Pack(b0, b1, 0, 0) else Pack(b0, b1, b2, b3)
  {
    var b0, b1, b2, b3 := ReadByte(m, off), ReadByte(m, Add(off, 1)), ReadByte(m, Add(off, 2)), ReadByte(m, Add(off, 3));
    OneOrTwo(b0, b1);
    if width == 0 {
      assert m[off..off + 1] == [b0];
    } else if width == 1 {
      assert m[off..off + 2] == [b0, b1];
    } else {
      assert m[off..off + 4] == [b0, b1, b2, b3];
    }
  }

  lemma OneOrTwo(b0: Byte, b1: Byte)
    ensures LittleEndian([b0]) == Pack(b0, 0, 0, 0) && LittleEndian([b0, b1]) == Pack(b0, b1, 0, 0)
  {
    PackIs(b0, 0, 0, 0);
    PackIs(b0, b1, 0, 0);
    assert [b0][1..] == [] && [b0, b1][1..] == [b1];
    assert LittleEndian([b1]) == b1;
  }

  /** A load returns the little-endian value, or the word whose signed reading is its two's complement. */
  lemma LoadMeansValue(m: ByteMem, off: Word, width: Bits2)
    requires off + Size(width) <= 0x2_0000
    ensures var v := BytesValue(m, off, Size(width));
            && v < Span(width)
            && LoadBytes(m, off, width, true) == v
            && Signed(LoadBytes(m, off, width, false)) == (if 2 * v >= Span(width) then v - Span(width) else v)
  {
    hide Pack, ReadByte, Add, BytesValue;
    var b0, b1, b2, b3 := ReadByte(m, off), ReadByte(m, Add(off, 1)), ReadByte(m, Add(off, 2)), ReadByte(m, Add(off, 3));
    BytesValueIs(m, off, width);
    PackLow(b0, b1, b2, b3);
    NarrowPacks(b0, b1);
  }

  lemma NarrowPacks(b0: Byte, b1: Byte)
    ensures Pack(b0, 0, 0, 0) == b0 && Pack(b0, b1, 0, 0) == b0 + 0x100 * b1
  {
    PackIs(b0, 0, 0, 0);
    PackIs(b0, b1, 0, 0);
  }

  lemma OtherBytesKept(m: ByteMem, off: Word, width: Bits2, data: Word)
    requires off + Size(width) <= 0x2_0000
    ensures forall i | 0 <= i < 0x2_0000 && !(off <= i < off + Size(width)) ::
              StoreBytes(m, off, width, data)[i] == m[i]
  {
    hide ByteAt;
    if width >= 1 { assert Add(off, 1) == off + 1; }
    if width >= 2 { assert Add(off, 2) == off + 2 && Add(off, 3) == off + 3; }
  }

  lemma StoredBytes(m: ByteMem, off: Word, width: Bits2, data: Word)
    requires off + Size(width) <= 0x2_0000
    ensures var n := StoreBytes(m, off, width, data);
            && ReadByte(n, off) == ByteAt(data, 0)
            && (width >= 1 ==> ReadByte(n, Add(off, 1)) == ByteAt(data, 1))
            && (width >= 2 ==> ReadByte(n, Add(off, 2)) == ByteAt(data, 2) && ReadByte(n, Add(off, 3)) == ByteAt(data, 3))
  {
    hide ByteAt;
    if width >= 1 { assert Add(off, 1) == off + 1; }
    if width >= 2 { assert Add(off, 2) == off + 2 && Add(off, 3) == off + 3; }
  }

  /** Loading what was just stored gives the stored low bytes, and all other bytes are kept. */
  lemma StoreThenLoad(m: ByteMem, off: Word, width: Bits2, data: Word)
    requires off + Size(width) <= 0x2_0000
    ensures LoadBytes(StoreBytes(m, off, width, data), off, width, true) == data % Span(width)
    ensures forall i | 0 <= i < 0x2_0000 && !(off <= i < off + Size(width)) ::
              StoreBytes(m, off, width, data)[i] == m[i]
  {
    hide ByteAt, Pack, StoreBytes, ReadByte, Add;
    OtherBytesKept(m, off, width, data);
    StoredBytes(m, off, width, data);
    UnpackedWord(data);
    PackLow(ByteAt(data, 0), ByteAt(data, 1), ByteAt(data, 2), ByteAt(data, 3));
    var n := StoreBytes(m, off, width, data);
    PackLow(ReadByte(n, off), ReadByte(n, Add(off, 1)), ReadByte(n, Add(off, 2)), ReadByte(n, Add(off, 3)));
  }

  // ---------------------------------------------------------------- runs of accesses

  datatype Access = Load(off: Word, width: Bits2, unsigned: bool) | Store(off: Word, width: Bits2, data: Word)

  function RunLanes(m: WordMem, ops: seq<Access>): (seq<Word>, WordMem)
    decreases |ops|
  {
    if ops == [] then ([], m)
    else match ops[0]
      case Load(off, width, unsigned) =>
        var (vs, m') := RunLanes(m, ops[1..]);
        ([LoadLanes(m, off, width, unsigned)] + vs, m')
      case Store(off, width, data) => RunLanes(StoreLanes(m, off, width, data), ops[1..])
  }

  function RunBytes(m: ByteMem, ops: seq<Access>): (seq<Word>, ByteMem)
    decreases |ops|
  {
    if ops == [] then ([], m)
    else match ops[0]
      case Load(off, width, unsigned) =>
        var (vs, m') := RunBytes(m, ops[1..]);
        ([LoadBytes(m, off, width, unsigned)] + vs, m')
      case Store(off, width, data) => RunBytes(StoreBytes(m, off, width, data), ops[1..])
  }

  /** Every sequence of fitting accesses loads the same values and leaves the same bytes. */
  lemma {:induction false} RunsAgree(m: WordMem, ops: seq<Access>)
    requires forall i | 0 <= i < |ops| :: Fits(ops[i].off, ops[i].width)
    ensures RunBytes(BytesOf(m), ops) == (RunLanes(m, ops).0, BytesOf(RunLanes(m, ops).1))
    decreases |ops|
  {
    hide BytesOf, StoreLanes, StoreBytes, LoadLanes, LoadBytes, Fits;
    if ops != [] {
      assert Fits(ops[0].off, ops[0].width);
      match ops[0]
      case Load(off, width, unsigned) =>
        LoadAgrees(m, off, width, unsigned);
        RunsAgree(m, ops[1..]);
      case Store(off, width, data) =>
        StoreAgrees(m, off, width, data);
        RunsAgree(StoreLanes(m, off, width, data), ops[1..]);
    }
  }

  // ---------------------------------------------------------------- crossing accesses

  /** A memory whose word after `off` is all ones and which is zero elsewhere. */
  function Witness(off: Word): WordMem
    requires off < 0x1_FFFC
  {
    seq(0x8000, i => 0)[Index(off) + 1 := 0xFFFF_FFFF]
  }

  lemma WitnessBytes(off: Word, k: nat)
    requires off < 0x1_FFFC && k < 4
    ensures Add(off, k) == off + k
    ensures ReadByte(BytesOf(Witness(off)), off + k) == if Lane(off) + k >= 4 then 0xFF else 0
    ensures Witness(off)[Index(off)] == 0 && Index(off) == off / 4 && Witness(off)[off / 4 + 1] == 0xFFFF_FFFF
  {
    assert Index(off) == off / 4;
    assert off == 4 * Index(off) + Lane(off);
    assert (off + k) / 4 == if Lane(off) + k >= 4 then Index(off) + 1 else Index(off);
  }

  lemma CrossingLoadDiffers(off: Word, width: Bits2, unsigned: bool)
    requires off < 0x1_FFFC && Lane(off) + Size(width) > 4
    ensures LoadLanes(Witness(off), off, width, unsigned) == 0
    ensures LoadBytes(BytesOf(Witness(off)), off, width, unsigned) != 0
  {
    hide BytesOf, Witness, ReadByte;
    WitnessBytes(off, 0);
    WitnessBytes(off, 1);
    WitnessBytes(off, 2);
    WitnessBytes(off, 3);
    var m := BytesOf(Witness(off));
    PackIs(ReadByte(m, off), ReadByte(m, Add(off, 1)), ReadByte(m, Add(off, 2)), ReadByte(m, Add(off, 3)));
  }

  /** Below the last word, the lanes serve a load correctly for every memory exactly when the access
      stays inside one word. */
  lemma LoadAgreesExactly(off: Word, width: Bits2, unsigned: bool)
    requires off < 0x1_FFFC
    ensures Fits(off, width) <==>
      forall m: WordMem :: LoadLanes(m, off, width, unsigned) == LoadBytes(BytesOf(m), off, width, unsigned)
  {
    hide LoadLanes, LoadBytes, BytesOf, Witness;
    if Fits(off, width) {
      forall m: WordMem
        ensures LoadLanes(m, off, width, unsigned) == LoadBytes(BytesOf(m), off, width, unsigned)
      {
        LoadAgrees(m, off, width, unsigned);
      }
    } else {
      CrossingLoadDiffers(off, width, unsigned);
      var m := Witness(off);
      assert LoadLanes(m, off, width, unsigned) != LoadBytes(BytesOf(m), off, width, unsigned);
    }
  }

  /** Likewise for stores: a crossing store must change the next word, and the lanes never do. */
  lemma StoreAgreesExactly(off: Word, width: Bits2)
    requires off < 0x1_FFFC
    ensures Fits(off, width) <==>
      forall m: WordMem, data: Word ::
        BytesOf(StoreLanes(m, off, width, data)) == StoreBytes(BytesOf(m), off, width, data)
  {
    hide StoreLanes, StoreBytes, BytesOf, Witness;
    if Fits(off, width) {
      forall m: WordMem, data: Word
        ensures BytesOf(StoreLanes(m, off, width, data)) == StoreBytes(BytesOf(m), off, width, data)
      {
        StoreAgrees(m, off, width, data);
      }
    } else {
      var m := Witness(off);
      CrossingStoreDiffers(off, width);
      assert BytesOf(StoreLanes(m, off, width, 0)) != StoreBytes(BytesOf(m), off, width, 0);
    }
  }

  /** Storing zeros over the witness: the byte array clears the first byte of the next word. */
  lemma CrossingStoreDiffers(off: Word, width: Bits2)
    requires off < 0x1_FFFC && !Fits(off, width)
    ensures BytesOf(StoreLanes(Witness(off), off, width, 0)) != StoreBytes(BytesOf(Witness(off)), off, width, 0)
  {
    hide StoreLanes, StoreBytes, ByteAt, Witness;
    var m := Witness(off);
    var next := 4 * (Index(off) + 1);
    assert Index(off) == off / 4 && next / 4 == Index(off) + 1 && next % 4 == 0;
    OtherWordsKept(m, off, width, 0, Index(off) + 1);
    WitnessBytes(off, 0);
    ClearedByte(BytesOf(m), off, width, next - off);
    ZeroAndOnes();
    assert BytesOf(StoreLanes(m, off, width, 0))[next] == 0xFF;
  }

  lemma OtherWordsKept(m: WordMem, off: Word, width: Bits2, data: Word, i: int)
    requires 0 <= i < 0x8000 && i != Index(off)
    ensures StoreLanes(m, off, width, data)[i] == m[i]
  {
    hide MergedWord;
  }

  /** Storing zero clears every accessed byte, inside the word or beyond it. */
  lemma ClearedByte(m: ByteMem, off: Word, width: Bits2, k: nat)
    requires off < 0x1_FFFC && k < Size(width)
    ensures StoreBytes(m, off, width, 0)[off + k] == 0
  {
    hide ByteAt;
    ZeroAndOnes();
    assert Add(off, 1) == off + 1 && Add(off, 2) == off + 2 && Add(off, 3) == off + 3;
  }

  lemma ZeroAndOnes()
    ensures forall k: Bits2 :: ByteAt(0, k) == 0
    ensures ByteAt(0xFFFF_FFFF, 0) == 0xFF
  {
  }

  // ---------------------------------------------------------------- every access of the lanes

  /** Byte `k` of a word; above the word there are zeros. */
  function ByteOrZero(w: Word, k: nat): Byte { if k < 4 then ByteAt(w, k) else 0 }

  /** Any load through the lanes, crossing ones included: the byte or the two bytes from the lane up, zeros above
      the word, and for a word access the whole word whatever the lane. */
  lemma LanesLoad(m: WordMem, off: Word, width: Bits2)
    ensures var w, k := m[(off / 4) % 0x8000], off % 4;
            var v := if width == 0 then ByteOrZero(w, k)
                     else if width == 1 then ByteOrZero(w, k) + 0x100 * ByteOrZero(w, k + 1)
                     else w;
            && LoadLanes(m, off, width, true) == v
            && Signed(LoadLanes(m, off, width, false)) == (if 2 * v >= Span(width) then v - Span(width) else v)
  {
    hide ByteAt, ShiftDown;
    LaneBytes(m[Index(off)], Lane(off));
    if Lane(off) == 3 { TopByte(m[Index(off)]); }
  }

  lemma TopByte(w: Word)
    ensures ShiftDown(w, 3) == ByteAt(w, 3)
  {
  }

  /** Any store through the lanes: the other words are kept, and of the addressed word the byte, the two bytes from
      the lane up that exist, or all four. */
  lemma LanesStore(m: WordMem, off: Word, width: Bits2, data: Word, k: Bits2)
    ensures var i, lane := (off / 4) % 0x8000, off % 4;
            var n := StoreLanes(m, off, width, data);
            && n == m[i := n[i]]
            && ByteAt(n[i], k) == if width == 0 then (if k == lane then ByteAt(data, 0) else ByteAt(m[i], k))
                                  else if width == 1 then (if k == lane then ByteAt(data, 0)
                                                           else if k == lane + 1 then ByteAt(data, 1)
                                                           else ByteAt(m[i], k))
                                  else ByteAt(data, k)
  {
    hide ByteAt, ShiftUp, Pack;
    var w, lane := m[Index(off)], Lane(off);
    PackedBytes(MergedLane(w, width, lane, data, 0), MergedLane(w, width, lane, data, 1),
                MergedLane(w, width, lane, data, 2), MergedLane(w, width, lane, data, 3));
    if width < 2 && LaneEnabled(width, lane, k) {
      var x: Word := if width == 0 then data % 0x100 else data % 0x1_0000;
      NarrowBytes(width, data, k - lane);
      LaneOfShifted(x, lane, k);
    }
  }
}
