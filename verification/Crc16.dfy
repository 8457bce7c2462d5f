// CRC-16/XMODEM as the driver computes it: bit by bit, over part of a byte, through a byte table,
// eight bytes at a time through swapped tables, and by combining the CRCs of two blocks.
module Crc16 {
  import opened Crc16Algebra
  import opened Crc16Tables

  // ----- reference: a shift register fed one message bit at a time, most significant bit first

  function FeedBit(c: bv16, bit: bool): bv16 {
    Step(Xor(c, if bit then 0x8000 else 0))
  }

  function FeedBits(c: bv16, bits: seq<bool>): bv16
    decreases |bits|
  {
    if |bits| == 0 then c else FeedBits(FeedBit(c, bits[0]), bits[1..])
  }

  // The k most significant bits of a byte.
  function TopBits(d: bv8, k: nat): (bits: seq<bool>)
    ensures |bits| == k
    decreases k
  {
    if k == 0 then [] else [d & 0x80 != 0] + TopBits(d << 1, k - 1)
  }

  function MessageBits(data: seq<bv8>): seq<bool> {
    if |data| == 0 then [] else MessageBits(data[..|data| - 1]) + TopBits(data[|data| - 1], 8)
  }

  lemma {:induction false} FeedBitsAppend(c: bv16, s: seq<bool>, t: seq<bool>)
    ensures FeedBits(c, s + t) == FeedBits(FeedBits(c, s), t)
    decreases |s|
  {
    if |s| == 0 {
      assert s + t == t;
    } else {
      assert (s + t)[1..] == s[1..] + t;
      FeedBitsAppend(FeedBit(c, s[0]), s[1..], t);
    }
  }

  // ----- bytes

  // A byte in the high half of the register.
  function High(d: bv8): bv16 {
    (d as bv16) << 8
  }

  function FeedByte(c: bv16, d: bv8): bv16 {
    Steps(Xor(c, High(d)), 8)
  }

  // The CRC of data, continuing from register c.
  function Crc(c: bv16, data: seq<bv8>): bv16 {
    if |data| == 0 then c else FeedByte(Crc(c, data[..|data| - 1]), data[|data| - 1])
  }

  lemma {:induction false} CrcAppend(c: bv16, a: seq<bv8>, b: seq<bv8>)
    ensures Crc(c, a + b) == Crc(Crc(c, a), b)
  {
    if |b| == 0 {
      assert a + b == a;
    } else {
      var b' := b[..|b| - 1];
      assert (a + b)[..|a + b| - 1] == a + b';
      CrcAppend(c, a, b');
    }
  }

  lemma {:induction false} CrcOneMore(c: bv16, data: seq<bv8>, i: nat)
    requires i < |data|
    ensures Crc(c, data[..i + 1]) == FeedByte(Crc(c, data[..i]), data[i])
  {
    assert data[..i + 1][..i] == data[..i];
  }

  // Feeding a byte into a register is linear in both.
  lemma {:induction false} FeedShifted(c: bv16, d: bv8, n: nat)
    ensures Steps(FeedByte(c, d), n) == Xor(Steps(c, n + 8), Steps(High(d), n + 8))
  {
    StepsAdd(Xor(c, High(d)), 8, n);
    StepsXor(c, High(d), n + 8);
  }

  // The register and the data contribute independently to a CRC.
  lemma {:induction false} CrcLinear(c: bv16, data: seq<bv8>)
    ensures Crc(c, data) == Xor(Steps(c, 8 * |data|), Crc(0, data))
  {
    if |data| == 0 {
      XorZero(c);
    } else {
      var n := |data| - 1;
      var shorter, d := data[..n], data[n];
      CrcLinear(c, shorter);
      var u, v := Steps(c, 8 * n), Crc(0, shorter);
      FeedShifted(Xor(u, v), d, 0);
      FeedShifted(v, d, 0);
      StepsXor(u, v, 8);
      StepsAdd(c, 8 * n, 8);
      XorAssociates(Steps(u, 8), Steps(v, 8), Steps(High(d), 8));
    }
  }

  // ----- the partial byte

  // The low 8 - k bits of a byte.
  function LowMask(k: nat): bv8
    requires k <= 8
  {
    match k
    case 0 => 0xff case 1 => 0x7f case 2 => 0x3f case 3 => 0x1f case 4 => 0x0f
    case 5 => 0x07 case 6 => 0x03 case 7 => 0x01 case _ => 0
  }

  lemma {:induction false} LowMaskShift(v: bv8, k: nat)
    requires 1 <= k <= 8
    requires v & LowMask(k) == 0
    ensures (v << 1) & LowMask(k - 1) == 0
  {}

  // The most significant bit meets the register's top bit; the rest moves up one place.
  lemma {:induction false} FeedTopBit(c: bv16, v: bv8)
    ensures Step(Xor(c, High(v))) == Xor(FeedBit(c, v & 0x80 != 0), High(v << 1))
  {
    var top: bv16 := if v & 0x80 != 0 then 0x8000 else 0;
    var rest := High(v & 0x7f);
    assert High(v) == Xor(top, rest);
    assert Step(rest) == High(v << 1);
    XorAssociates(c, top, rest);
    StepXor(Xor(c, top), rest);
  }

  // Shifting k times over a byte whose other bits are clear feeds exactly its top k bits.
  lemma {:induction false} PartialByte(c: bv16, v: bv8, k: nat)
    requires k <= 8 && v & LowMask(k) == 0
    ensures Steps(Xor(c, High(v)), k) == FeedBits(c, TopBits(v, k))
    decreases k
  {
    if k == 0 {
      assert v == 0;
      XorZero(c);
    } else {
      FeedTopBit(c, v);
      LowMaskShift(v, k);
      var c' := FeedBit(c, v & 0x80 != 0);
      PartialByte(c', v << 1, k - 1);
      StepsAdd(Xor(c, High(v)), 1, k - 1);
      assert Steps(Xor(c, High(v)), 1) == Step(Steps(Xor(c, High(v)), 0));
      assert TopBits(v, k)[1..] == TopBits(v << 1, k - 1);
    }
  }

  lemma {:induction false} WholeByte(c: bv16, v: bv8)
    ensures FeedByte(c, v) == FeedBits(c, TopBits(v, 8))
  {
    assert v & LowMask(8) == 0;
    PartialByte(c, v, 8);
  }

  // The byte-wise CRC is the bit-serial register run over the bits of the message.
  lemma {:induction false} CrcIsBitSerial(c: bv16, data: seq<bv8>)
    ensures Crc(c, data) == FeedBits(c, MessageBits(data))
  {
    if |data| > 0 {
      var n := |data| - 1;
      CrcIsBitSerial(c, data[..n]);
      FeedBitsAppend(c, MessageBits(data[..n]), TopBits(data[n], 8));
      WholeByte(Crc(c, data[..n]), data[n]);
    }
  }

  lemma {:induction false} HighMaskShift(v: bv8, w: bv8, k: nat)
    requires 1 <= k <= 8 && (v ^ w) & !LowMask(k) == 0
    ensures v & 0x80 == w & 0x80
    ensures ((v << 1) ^ (w << 1)) & !LowMask(k - 1) == 0
  {}

  lemma {:induction false} SameTopBits(v: bv8, w: bv8, k: nat)
    requires k <= 8 && (v ^ w) & !LowMask(k) == 0
    ensures TopBits(v, k) == TopBits(w, k)
    decreases k
  {
    if k > 0 {
      HighMaskShift(v, w, k);
      SameTopBits(v << 1, w << 1, k - 1);
    }
  }

  function LowByte(val: bv32): bv8 {
    (val & 0xff) as bv8
  }

  // The mask that keeps the top bits of a byte.
  function RemMask(bits: nat): bv32
    requires bits <= 8
  {
    0x100 - (0x100 >> bits)
  }

  lemma {:induction false} RemMaskValue(bits: nat)
    requires bits <= 8
    ensures RemMask(bits) == (!LowMask(bits)) as bv32
  {}

  lemma {:induction false} MaskByte(val: bv32, m: bv8)
    ensures val & (m as bv32) <= 0xff
    ensures LowByte(val & (m as bv32)) == LowByte(val) & m
  {}

  lemma {:induction false} MaskSplits(v: bv8, m: bv8)
    ensures (v & m) & !m == 0 && ((v & m) ^ v) & m == 0 && !!m == m
  {}

  // k bits of a byte shifted out at the top.
  function ShiftOut(d: bv8, k: nat): bv8 {
    if k == 0 then d else ShiftOut(d, k - 1) << 1
  }

  lemma {:induction false} ShiftOutFirst(d: bv8, k: nat)
    ensures ShiftOut(d << 1, k) == ShiftOut(d, k + 1)
  {
    if k > 0 {
      ShiftOutFirst(d, k - 1);
    }
  }

  lemma {:induction false} ShiftOne(val: bv32, k: nat)
    requires k < 8
    ensures LowByte(val << (k + 1)) == LowByte(val << k) << 1
  {}

  lemma {:induction false} ShiftOutIsShift(val: bv32, k: nat)
    requires k <= 8
    ensures LowByte(val << k) == ShiftOut(LowByte(val), k)
  {
    if k == 0 {
      assert val << 0 == val;
    } else {
      ShiftOutIsShift(val, k - 1);
      ShiftOne(val, k - 1);
    }
  }

  lemma {:induction false} TopBitsSplit(d: bv8, k: nat, m: nat)
    ensures TopBits(d, k) + TopBits(ShiftOut(d, k), m) == TopBits(d, k + m)
    decreases k
  {
    if k > 0 {
      TopBitsSplit(d << 1, k - 1, m);
      ShiftOutFirst(d, k - 1);
    }
  }

  // Feeding the top k bits of a byte and then the remaining 8 - k bits is feeding the byte.
  lemma {:induction false} SplitByte(c: bv16, val: bv32, k: nat)
    requires k <= 8
    ensures FeedBits(FeedBits(c, TopBits(LowByte(val), k)), TopBits(LowByte(val << k), 8 - k))
         == FeedByte(c, LowByte(val))
  {
    ShiftOutIsShift(val, k);
    TopBitsSplit(LowByte(val), k, 8 - k);
    FeedBitsAppend(c, TopBits(LowByte(val), k), TopBits(LowByte(val << k), 8 - k));
    WholeByte(c, LowByte(val));
  }

  // ----- the byte table

  // The register and the byte, regrouped as a table index and the register's low byte.
  lemma {:induction false} IndexAndRest(c: bv16, d: bv8)
    ensures Xor(c, High(d)) == Xor(c & 0xff, High((((c >> 8) ^ (d as bv16)) & 0xff) as bv8))
    ensures (c & 0xff) & 0xff00 == 0 && (c & 0xff) << 8 == c << 8
  {}

  lemma {:induction false} FeedByIndex(c: bv16, d: bv8, i: bv8)
    requires i == (((c >> 8) ^ (d as bv16)) & 0xff) as bv8
    ensures FeedByte(c, d) == Xor(c << 8, Steps(High(i), 8))
  {
    IndexAndRest(c, d);
    StepsXor(c & 0xff, High(i), 8);
    LowByteMovesUp(c & 0xff);
  }

  // One byte through the table.
  method ByteStep(crc: bv16, d: bv8) returns (r: bv16)
    ensures r == FeedByte(crc, d)
  {
    var i := (((crc >> 8) ^ (d as bv16)) & 0xff) as bv8;
    var entry := TableByteEntry(i);
    r := (crc << 8) ^ entry;
    FeedByIndex(crc, d, i);
    assert r == Xor(crc << 8, entry);
  }

  // ----- eight bytes at once

  // A little-endian load of eight bytes.
  function Load64(d: seq<bv8>): bv64
    requires |d| == 8
  {
    Pack64(d[0], d[1], d[2], d[3], d[4], d[5], d[6], d[7])
  }

  function Pack64(d0: bv8, d1: bv8, d2: bv8, d3: bv8, d4: bv8, d5: bv8, d6: bv8, d7: bv8): bv64 {
    (d0 as bv64) | ((d1 as bv64) << 8) | ((d2 as bv64) << 16) | ((d3 as bv64) << 24) |
    ((d4 as bv64) << 32) | ((d5 as bv64) << 40) | ((d6 as bv64) << 48) | ((d7 as bv64) << 56)
  }

  // The eight bytes of a word, lowest first.
  function Lane0(w: bv64): bv8 { (w & 0xff) as bv8 }
  function Lane1(w: bv64): bv8 { ((w >> 8) & 0xff) as bv8 }
  function Lane2(w: bv64): bv8 { ((w >> 16) & 0xff) as bv8 }
  function Lane3(w: bv64): bv8 { ((w >> 24) & 0xff) as bv8 }
  function Lane4(w: bv64): bv8 { ((w >> 32) & 0xff) as bv8 }
  function Lane5(w: bv64): bv8 { ((w >> 40) & 0xff) as bv8 }
  function Lane6(w: bv64): bv8 { ((w >> 48) & 0xff) as bv8 }
  function Lane7(w: bv64): bv8 { (w >> 56) as bv8 }

  // The swapped register meets the first two bytes of the data word; the others pass through.
  lemma {:induction false} Lanes(crc: bv16, d0: bv8, d1: bv8, d2: bv8, d3: bv8,
                                 d4: bv8, d5: bv8, d6: bv8, d7: bv8)
    ensures var w := (crc as bv64) ^ Pack64(d0, d1, d2, d3, d4, d5, d6, d7);
            && Lane0(w) == ((crc & 0xff) as bv8) ^ d0
            && Lane1(w) == ((crc >> 8) as bv8) ^ d1
            && Lane2(w) == d2 && Lane3(w) == d3 && Lane4(w) == d4
            && Lane5(w) == d5 && Lane6(w) == d6 && Lane7(w) == d7
  {}

  lemma {:induction false} HighXor(c: bv16, d: bv8)
    ensures Xor(c << 8, High(d)) == High(((c & 0xff) as bv8) ^ d)
    ensures (((c >> 8) ^ (d as bv16)) & 0xff) as bv8 == ((c >> 8) as bv8) ^ d
  {}

  // The register may be folded into the first two data bytes.
  lemma {:induction false} FoldRegister(c: bv16, d0: bv8, d1: bv8)
    ensures FeedByte(FeedByte(c, d0), d1)
         == FeedByte(FeedByte(0, ((c >> 8) as bv8) ^ d0), ((c & 0xff) as bv8) ^ d1)
  {
    var i0, i1 := ((c >> 8) as bv8) ^ d0, ((c & 0xff) as bv8) ^ d1;
    HighXor(c, d0);
    HighXor(c, d1);
    FeedByIndex(c, d0, i0);
    var s := Steps(High(i0), 8);
    XorZero(High(i0));
    XorCommutes(c << 8, s);
    XorAssociates(s, c << 8, High(d1));
  }

  // ... so a block of two or more bytes may be fed into a zero register instead.
  lemma {:induction false} FoldBlock(c: bv16, d: seq<bv8>, e: seq<bv8>)
    requires |d| == |e| >= 2 && (forall i :: 2 <= i < |d| ==> e[i] == d[i])
    requires e[0] == ((c >> 8) as bv8) ^ d[0] && e[1] == ((c & 0xff) as bv8) ^ d[1]
    ensures Crc(0, e) == Crc(c, d)
  {
    assert e[2..] == d[2..];
    FoldRegister(c, d[0], d[1]);
    CrcOfTwo(c, d[..2]);
    CrcOfTwo(0, e[..2]);
    assert d == d[..2] + d[2..] && e == e[..2] + e[2..];
    CrcAppend(c, d[..2], d[2..]);
    CrcAppend(0, e[..2], e[2..]);
  }

  lemma {:induction false} CrcOfTwo(c: bv16, d: seq<bv8>)
    requires |d| == 2
    ensures Crc(c, d) == FeedByte(FeedByte(c, d[0]), d[1])
  {
    CrcOneMore(c, d, 1);
    CrcOneMore(c, d, 0);
    assert d[..2] == d;
  }

  lemma {:induction false} SwapBytes(c: bv16)
    ensures (SwapLow(c) & 0xff) as bv8 == (c >> 8) as bv8
    ensures (SwapLow(c) >> 8) as bv8 == (c & 0xff) as bv8
  {}

  lemma {:induction false} AbsorbEntry(acc: bv16, entry: bv16, c: bv16, d: bv8, n: nat)
    requires SwapLow(acc) == Steps(c, n + 8)
    requires SwapLow(entry) == Steps(High(d), n + 8)
    ensures SwapLow(Xor(acc, entry)) == Steps(FeedByte(c, d), n)
  {
    SwapXor(acc, entry);
    FeedShifted(c, d, n);
  }

  // One of the eight lookups: table row 7 - j absorbs byte j of the block e. The accumulator holds,
  // swapped, the CRC of the bytes absorbed so far followed by zeros up to the end of the block.
  method Absorb(acc: bv16, j: nat, d: bv8, ghost e: seq<bv8>) returns (r: bv16)
    requires j < 8 == |e| && d == e[j]
    requires SwapLow(acc) == Steps(Crc(0, e[..j]), 64 - 8 * j)
    ensures SwapLow(r) == Steps(Crc(0, e[..j + 1]), 56 - 8 * j)
  {
    var entry := TableWordEntry(7 - j, d);
    r := acc ^ entry;
    assert r == Xor(acc, entry);
    CrcOneMore(0, e, j);
    AbsorbEntry(acc, entry, Crc(0, e[..j]), d, 56 - 8 * j);
  }

  // The eight bytes looked up: the swapped register folded into the data.
  method WordLanes(crc: bv16, d: seq<bv8>) returns (e: seq<bv8>)
    requires |d| == 8
    ensures |e| == 8 && Crc(0, e) == Crc(SwapLow(crc), d)
  {
    var w := (crc as bv64) ^ Load64(d);
    e := [Lane0(w), Lane1(w), Lane2(w), Lane3(w), Lane4(w), Lane5(w), Lane6(w), Lane7(w)];
    FoldLanes(crc, d, w);
  }

  lemma {:induction false} FoldLanes(crc: bv16, d: seq<bv8>, w: bv64)
    requires |d| == 8 && w == (crc as bv64) ^ Load64(d)
    ensures Crc(0, [Lane0(w), Lane1(w), Lane2(w), Lane3(w), Lane4(w), Lane5(w), Lane6(w), Lane7(w)])
         == Crc(SwapLow(crc), d)
  {
    var c := SwapLow(crc);
    Lanes(crc, d[0], d[1], d[2], d[3], d[4], d[5], d[6], d[7]);
    SwapBytes(c);
    SwapTwice(crc);
    FoldBlock(c, d, [Lane0(w), Lane1(w), Lane2(w), Lane3(w), Lane4(w), Lane5(w), Lane6(w), Lane7(w)]);
  }

  method AbsorbFour(acc: bv16, j: nat, e: seq<bv8>) returns (r: bv16)
    requires |e| == 8 && j <= 4
    requires SwapLow(acc) == Steps(Crc(0, e[..j]), 64 - 8 * j)
    ensures SwapLow(r) == Steps(Crc(0, e[..j + 4]), 32 - 8 * j)
  {
    r := Absorb(acc, j, e[j], e);
    r := Absorb(r, j + 1, e[j + 1], e);
    r := Absorb(r, j + 2, e[j + 2], e);
    r := Absorb(r, j + 3, e[j + 3], e);
  }

  // One step of the middle loop: the register is kept swapped, and eight lookups absorb eight bytes.
  method WordStep(crc: bv16, d: seq<bv8>) returns (r: bv16)
    requires |d| == 8
    ensures SwapLow(r) == Crc(SwapLow(crc), d)
  {
    var e := WordLanes(crc, d);
    StepsZero(64);
    r := AbsorbFour(0, 0, e);
    r := AbsorbFour(r, 4, e);
    assert e[..8] == e;
  }

  // ----- the driver's routines

  // The inner loop of the bit-at-a-time routines.
  method Shift(crc: bv16, bits: nat) returns (r: bv16)
    ensures r == Steps(crc, bits)
  {
    r := crc;
    for k := 0 to bits
      invariant r == Steps(crc, k)
    {
      r := Step(r);
    }
  }

  method LoadByte(crc: bv16, d: bv8) returns (r: bv16)
    ensures r == Xor(crc, High(d))
  {
    r := crc ^ ((d as bv16) << 8);
  }

  lemma {:induction false} CrcNext(c: bv16, mem: array<bv8>, i: nat)
    requires i < mem.Length
    ensures Crc(c, mem[..i + 1]) == FeedByte(Crc(c, mem[..i]), mem[i])
  {
    CrcOneMore(c, mem[..], i);
    assert mem[..][..i] == mem[..i] && mem[..][..i + 1] == mem[..i + 1];
  }

  // crc16xmodem_bit: bit at a time. A null buffer yields the initial CRC.
  method CrcBit(crc: bv16, mem: array?<bv8>, len: nat) returns (r: bv16)
    requires mem != null ==> len <= mem.Length
    ensures r == if mem == null then 0 else Crc(crc, mem[..len])
  {
    if mem == null {
      return 0;
    }
    r := crc;
    for i := 0 to len
      invariant r == Crc(crc, mem[..i])
    {
      CrcNext(crc, mem, i);
      r := LoadByte(r, mem[i]);
      r := Shift(r, 8);
    }
  }

  // crc16xmodem_rem: the top `bits` bits of the low byte of val.
  method CrcRem(crc: bv16, val: bv32, bits: nat) returns (r: bv16)
    requires bits <= 8
    ensures r == FeedBits(crc, TopBits(LowByte(val), bits))
  {
    var masked := val & RemMask(bits);
    RemBits(val, bits);
    r := LoadByte(crc, LowByte(masked));
    r := Shift(r, bits);
    PartialByte(crc, LowByte(masked), bits);
  }

  lemma {:induction false} RemBits(val: bv32, bits: nat)
    requires bits <= 8
    ensures val & RemMask(bits) <= 0xff
    ensures LowByte(val & RemMask(bits)) & LowMask(bits) == 0
    ensures TopBits(LowByte(val & RemMask(bits)), bits) == TopBits(LowByte(val), bits)
  {
    var m := !LowMask(bits);
    RemMaskValue(bits);
    MaskByte(val, m);
    MaskSplits(LowByte(val), m);
    SameTopBits(LowByte(val) & m, LowByte(val), bits);
  }

  // crc16xmodem_byte: through the byte table.
  method CrcByte(crc: bv16, mem: array?<bv8>, len: nat) returns (r: bv16)
    requires mem != null ==> len <= mem.Length
    ensures r == if mem == null then 0 else Crc(crc, mem[..len])
  {
    if mem == null {
      return 0;
    }
    r := crc;
    for i := 0 to len
      invariant r == Crc(crc, mem[..i])
    {
      CrcNext(crc, mem, i);
      r := ByteStep(r, mem[i]);
    }
  }

  // The middle loop of crc16xmodem_word: n whole words from offset `from`, continuing from the CRC
  // of the bytes before them.
  method CrcWords(ghost start: bv16, crc: bv16, mem: array<bv8>, from: nat, n: nat) returns (r: bv16)
    requires from + 8 * n <= mem.Length
    requires crc == Crc(start, mem[..from])
    ensures r == Crc(start, mem[..from + 8 * n])
  {
    SwapTwice(crc);
    r := SwapLow(crc);
    for i := 0 to n
      invariant SwapLow(r) == Crc(start, mem[..from + 8 * i])
    {
      var at := from + 8 * i;
      CrcAppend(start, mem[..at], mem[at..at + 8]);
      assert mem[..at] + mem[at..at + 8] == mem[..at + 8];
      r := WordStep(r, mem[at..at + 8]);
    }
    r := SwapLow(r);
  }

  // crc16xmodem_word: bytes up to an eight-byte boundary, whole words through the swapped tables,
  // then the remaining bytes. The buffer starts at machine address addr.
  method CrcWord(crc: bv16, mem: array?<bv8>, addr: nat, len: nat) returns (r: bv16)
    requires mem != null ==> len <= mem.Length
    ensures r == if mem == null then 0 else Crc(crc, mem[..len])
  {
    if mem == null {
      return 0;
    }
    r := crc;
    var data, left := 0, len;
    while left > 0 && (addr + data) % 8 != 0
      invariant data + left == len
      invariant r == Crc(crc, mem[..data])
    {
      left := left - 1;
      CrcNext(crc, mem, data);
      r := ByteStep(r, mem[data]);
      data := data + 1;
    }
    var n := left / 8;
    r := CrcWords(crc, r, mem, data, n);
    data := data + 8 * n;
    left := left % 8;
    while left > 0
      invariant data + left == len
      invariant r == Crc(crc, mem[..data])
    {
      left := left - 1;
      CrcNext(crc, mem, data);
      r := ByteStep(r, mem[data]);
      data := data + 1;
    }
  }

  // ----- combining two CRCs

  // One round of the multiplication loop keeps prod + a * b.
  lemma {:induction false} MultIteration(prod: bv16, a: bv16, b: bv16)
    requires a != 0
    ensures Xor(prod, Mul(a, b)) == Xor(if a & 1 != 0 then prod ^ b else prod, Mul(a >> 1, Step(b)))
    ensures a != 1 ==> a >> 1 != 0
    ensures a == 1 ==> Mul(a >> 1, Step(b)) == 0
  {
    var half := Step(Mul(a >> 1, b));
    MulStep(a >> 1, b);
    XorCommutes(half, b);
    XorAssociates(prod, b, half);
    XorZero(half);
    assert Xor(prod, b) == prod ^ b;
  }

  // multmodp: the product modulo p. With a == 0 the source loop would never leave.
  method MultModP(a: bv16, b: bv16) returns (prod: bv16)
    requires a != 0
    ensures prod == Mul(a, b)
  {
    var a', b' := a, b;
    prod := 0;
    XorZero(Mul(a, b));
    while true
      invariant a' != 0
      invariant Mul(a, b) == Xor(prod, Mul(a', b'))
      decreases a'
    {
      MultIteration(prod, a', b');
      if a' & 1 != 0 {
        prod := prod ^ b';
        if a' == 1 {
          XorZero(prod);
          return;
        }
      }
      a' := a' >> 1;
      b' := Step(b');
    }
  }

  // The multiplication loop reaches its exit after n further halvings of a.
  predicate Exits(a: bv16, n: nat)
    decreases n
  {
    if n == 0 then a == 1 else a != 1 && Exits(a >> 1, n - 1)
  }

  lemma {:induction false} ExitsFromNonzero(a: bv16) returns (n: nat)
    requires a != 0
    ensures Exits(a, n)
    decreases a
  {
    if a == 1 {
      n := 0;
    } else {
      n := ExitsFromNonzero(a >> 1);
      n := n + 1;
    }
  }

  lemma {:induction false} NeverExitsFromZero(n: nat)
    ensures !Exits(0, n)
  {
    if n > 0 {
      assert 0 as bv16 >> 1 == 0;
      NeverExitsFromZero(n - 1);
    }
  }

  ghost predicate MultTerminates(a: bv16) {
    exists n: nat :: Exits(a, n)
  }

  // multmodp terminates exactly on a nonzero first argument.
  lemma {:induction false} MultTerminatesIffNonzero(a: bv16)
    ensures MultTerminates(a) <==> a != 0
  {
    if a != 0 {
      var n := ExitsFromNonzero(a);
    } else if MultTerminates(a) {
      var n: nat :| Exits(a, n);
      NeverExitsFromZero(n);
    }
  }

  // table_comb.
  function TableComb(k: nat): bv16
    requires k < 15
  {
    match k
    case 0 => 0x0002 case 1 => 0x0004 case 2 => 0x0010 case 3 => 0x0100 case 4 => 0x1021
    case 5 => 0x3730 case 6 => 0xb861 case 7 => 0xaefc case 8 => 0x8e29 case 9 => 0x13fc
    case 10 => 0x36c4 case 11 => 0xfd50 case 12 => 0xaa9e case 13 => 0x881c case _ => 0x4458
  }

  // Horner's rule over the low four bits of s, and over the four nibbles of a: the product in a
  // form that can be evaluated on table entries.
  function HornerBit(acc: bv16, s: bv16, b: bv16): bv16 {
    Xor(Step(acc), if s & 1 != 0 then b else 0)
  }

  function HornerNibble(acc: bv16, s: bv16, b: bv16): bv16 {
    HornerBit(HornerBit(HornerBit(HornerBit(acc, s >> 3, b), s >> 2, b), s >> 1, b), s, b)
  }

  function MulByNibbles(a: bv16, b: bv16): bv16 {
    HornerNibble(HornerNibble(HornerNibble(HornerNibble(0, a >> 12, b), a >> 8, b), a >> 4, b), a, b)
  }

  lemma {:induction false} HornerBitIsMul(s: bv16, b: bv16)
    ensures HornerBit(Mul(s >> 1, b), s, b) == Mul(s, b)
  {}

  lemma {:induction false} HornerNibbleIsMul(s: bv16, b: bv16)
    ensures HornerNibble(Mul(s >> 4, b), s, b) == Mul(s, b)
  {
    assert (s >> 3) >> 1 == s >> 4 && (s >> 2) >> 1 == s >> 3 && (s >> 1) >> 1 == s >> 2;
    HornerBitIsMul(s >> 3, b);
    HornerBitIsMul(s >> 2, b);
    HornerBitIsMul(s >> 1, b);
    HornerBitIsMul(s, b);
  }

  lemma {:induction false} MulByNibblesIsMul(a: bv16, b: bv16)
    ensures MulByNibbles(a, b) == Mul(a, b)
  {
    assert (a >> 12) >> 4 == 0 && (a >> 8) >> 4 == a >> 12 && (a >> 4) >> 4 == a >> 8;
    assert Mul(0, b) == 0;
    HornerNibbleIsMul(a >> 12, b);
    HornerNibbleIsMul(a >> 8, b);
    HornerNibbleIsMul(a >> 4, b);
    HornerNibbleIsMul(a, b);
  }

  // ++k, wrapping at the end of the table.
  function NextIndex(k: nat): (r: nat)
    requires k < 15
    ensures r < 15
  {
    if k == 14 then 0 else k + 1
  }

  // Each entry is the square of the one before it, and the last squares back to the first.
  lemma {:induction false} TableCombSquares(k: nat)
    requires k < 15
    ensures Mul(TableComb(k), TableComb(k)) == TableComb(NextIndex(k))
  {
    if k < 8 { SquaresLow(k); } else { SquaresHigh(k); }
  }

  lemma {:induction false} SquaresLow(k: nat)
    requires k < 8
    ensures Mul(TableComb(k), TableComb(k)) == TableComb(k + 1)
  {
    MulByNibblesIsMul(TableComb(k), TableComb(k));
    match k { case 0 => case 1 => case 2 => case 3 => case 4 => case 5 => case 6 => case 7 => }
  }

  lemma {:induction false} SquaresHigh(k: nat)
    requires 8 <= k < 15
    ensures Mul(TableComb(k), TableComb(k)) == TableComb(NextIndex(k))
  {
    MulByNibblesIsMul(TableComb(k), TableComb(k));
    match k { case 8 => case 9 => case 10 => case 11 => case 12 => case 13 => case 14 => }
  }

  function Pow2(j: nat): (r: nat)
    ensures r > 0
  {
    if j == 0 then 1 else 2 * Pow2(j - 1)
  }

  lemma {:induction false} SquareOfPower(w: nat, t: bv16)
    requires t == Steps(1, w)
    ensures Mul(t, t) == Steps(1, 2 * w)
  {
    MulPower(w, t);
    StepsAdd(1, w, w);
  }

  lemma {:induction false} NextPower(i: nat, w: nat)
    requires i < 15 && TableComb(i) == Steps(1, w)
    ensures TableComb(NextIndex(i)) == Steps(1, 2 * w)
  {
    TableCombSquares(i);
    SquareOfPower(w, TableComb(i));
  }

  // The table index after j increments from 0, wrapping at 15.
  function CombIndex(j: nat): (k: nat)
    ensures k == j % 15
  {
    if j == 0 then 0 else NextIndex(CombIndex(j - 1))
  }

  // table_comb[j mod 15] is x^(2^j): squaring x fifteen times gives x back.
  lemma {:induction false} TableCombIsPower(j: nat)
    ensures TableComb(CombIndex(j)) == Steps(1, Pow2(j))
  {
    if j == 0 {
      assert Steps(1, 1) == Step(Steps(1, 0));
    } else {
      TableCombIsPower(j - 1);
      NextPower(CombIndex(j - 1), Pow2(j - 1));
    }
  }

  // One multiplication of x8nmodp: x^done becomes x^(done + w).
  method TimesPower(k: nat, xp: bv16, ghost w: nat, ghost done: nat) returns (r: bv16)
    requires k < 15 && TableComb(k) == Steps(1, w) && xp == Steps(1, done)
    ensures r == Steps(1, done + w)
  {
    PowerNonzero(w);
    MulPower(w, xp);
    StepsAdd(1, done, w);
    r := MultModP(TableComb(k), xp);
  }

  // x8nmodp: x^(8n) modulo p, by repeated squaring through the wrapping table.
  method X8nModP(n: nat) returns (xp: bv16)
    ensures xp == Steps(1, 8 * n)
  {
    xp := 1;
    var n': nat, k: nat := n, 3;
    ghost var j: nat, done: nat := 3, 0;
    while true
      invariant k == CombIndex(j)
      invariant xp == Steps(1, done)
      invariant 8 * n == done + n' * Pow2(j)
      decreases n'
    {
      ghost var w := Pow2(j);
      TableCombIsPower(j);
      if n' % 2 == 1 {
        xp := TimesPower(k, xp, w, done);
        done := done + w;
      }
      Halving(n', w);
      n' := n' / 2;
      j := j + 1;
      if n' == 0 {
        return;
      }
      k := k + 1;
      if k == 15 {
        k := 0;
      }
    }
  }

  lemma {:induction false} Halving(n: nat, w: nat)
    ensures n * w == (if n % 2 == 1 then w else 0) + (n / 2) * (2 * w)
  {}

  lemma {:induction false} PowerNonzero(n: nat)
    ensures Steps(1, n) != 0
  {
    StepsInjective(1, 0, n);
    StepsZero(n);
  }

  // Combining the CRC of a block from any start value with the CRC of a second block from zero
  // gives the CRC of the two blocks run together.
  lemma {:induction false} CombineCorrect(c: bv16, a: seq<bv8>, b: seq<bv8>)
    ensures Xor(Steps(Crc(c, a), 8 * |b|), Crc(0, b)) == Crc(c, a + b)
  {
    CrcAppend(c, a, b);
    CrcLinear(Crc(c, a), b);
  }

  lemma {:induction false} CombineAll(crc1: bv16, crc2: bv16, len2: nat, r: bv16)
    requires r == Xor(Steps(crc1, 8 * len2), crc2)
    ensures forall c: bv16, a: seq<bv8>, b: seq<bv8> ::
              crc1 == Crc(c, a) && crc2 == Crc(0, b) && len2 == |b| ==> r == Crc(c, a + b)
  {
    forall c: bv16, a: seq<bv8>, b: seq<bv8> | crc1 == Crc(c, a) && crc2 == Crc(0, b) && len2 == |b|
      ensures r == Crc(c, a + b)
    {
      CombineCorrect(c, a, b);
    }
  }

  // crc16xmodem_comb.
  method CrcComb(crc1: bv16, crc2: bv16, len2: nat) returns (r: bv16)
    ensures forall c: bv16, a: seq<bv8>, b: seq<bv8> ::
              crc1 == Crc(c, a) && crc2 == Crc(0, b) && len2 == |b| ==> r == Crc(c, a + b)
  {
    var xp := X8nModP(len2);
    PowerNonzero(8 * len2);
    MulPower(8 * len2, crc1);
    var prod := MultModP(xp, crc1);
    r := prod ^ crc2;
    assert r == Xor(prod, crc2);
    CombineAll(crc1, crc2, len2, r);
  }
}
