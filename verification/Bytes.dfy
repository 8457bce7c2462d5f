// Bytes and little-endian integers.
module Bytes {
  type byte = x: int | 0 <= x < 0x100
  type u16 = x: int | 0 <= x < 0x1_0000
  type u32 = x: int | 0 <= x < 0x1_0000_0000
  type u64 = x: int | 0 <= x < 0x1_0000_0000_0000_0000
  type s8 = x: int | -0x80 <= x < 0x80
  type s16 = x: int | -0x8000 <= x < 0x8000
  type s32 = x: int | -0x8000_0000 <= x < 0x8000_0000

  // What 16-bit and 32-bit fields keep of a number.
  function Low16(n: nat): (r: u16)
    ensures n < 0x1_0000 ==> r == n
    ensures r <= n
  {
    n % 0x1_0000
  }

  function Low32(n: nat): (r: u32)
    ensures n < 0x1_0000_0000 ==> r == n
    ensures r <= n
  {
    n % 0x1_0000_0000
  }

  lemma {:induction false} Truncated(n: nat)
    ensures n >= 0x1_0000 ==> Low16(n) + 0x1_0000 <= n
    ensures n >= 0x1_0000_0000 ==> Low32(n) + 0x1_0000_0000 <= n
  {}

  function Le16(v: u16): (r: seq<byte>)
    ensures |r| == 2
  {
    [v % 0x100, v / 0x100]
  }

  function Le32(v: u32): (r: seq<byte>)
    ensures |r| == 4
  {
    var h := v / 0x100;
    var hh := h / 0x100;
    [v % 0x100, h % 0x100, hh % 0x100, hh / 0x100]
  }

  // low + 256 * high
  function Digits(low: byte, high: nat): (v: nat)
    ensures 0x100 * high <= v <= 0x100 * high + 0xff
  {
    low as int + 0x100 * high
  }

  function Read16(s: seq<byte>, at: nat): u16
    requires at + 2 <= |s|
  {
    Digits(s[at], s[at + 1])
  }

  function Read32(s: seq<byte>, at: nat): u32
    requires at + 4 <= |s|
  {
    Digits(s[at], Digits(s[at + 1], Digits(s[at + 2], s[at + 3])))
  }

  // Two's complement, both ways.
  function ToS32(v: u32): s32 {
    if v < 0x8000_0000 then v else v - 0x1_0000_0000
  }

  function FromS32(v: s32): u32 {
    if v >= 0 then v else v + 0x1_0000_0000
  }

  function Zeros(n: nat): (r: seq<byte>)
    ensures |r| == n && forall i :: 0 <= i < n ==> r[i] == 0
  {
    seq(n, _ => 0)
  }

  // ROUND_BYTES_TO_WORD
  function RoundToWord(n: nat): (r: nat)
    ensures n <= r < n + 4 && r % 4 == 0
  {
    (n + 3) / 4 * 4
  }

  lemma {:induction false} Read16OfLe16(v: u16)
    ensures Read16(Le16(v), 0) == v
  {}

  lemma {:induction false} Read32OfLe32(v: u32)
    ensures Read32(Le32(v), 0) == v
  {}

  // Reading at an offset only looks at the bytes there.
  lemma {:induction false} Read32Slice(s: seq<byte>, at: nat)
    requires at + 4 <= |s|
    ensures Read32(s, at) == Read32(s[at..at + 4], 0)
  {}

  lemma {:induction false} Read16Slice(s: seq<byte>, at: nat)
    requires at + 2 <= |s|
    ensures Read16(s, at) == Read16(s[at..at + 2], 0)
  {}

  // A buffer slice that is a concatenation splits into the slices of its parts.
  lemma {:induction false} SliceSplit(buf: seq<byte>, at: nat, x: seq<byte>, y: seq<byte>)
    requires at + |x + y| <= |buf| && buf[at..at + |x + y|] == x + y
    ensures buf[at..at + |x|] == x && buf[at + |x|..at + |x| + |y|] == y
  {
    var part := buf[at..at + |x + y|];
    assert part[..|x|] == x && part[|x|..] == y;
    assert part[..|x|] == buf[at..at + |x|] && part[|x|..] == buf[at + |x|..at + |x| + |y|];
  }

  // Slices of a concatenation that lie in one part.
  lemma {:induction false} InFirst(x: seq<byte>, y: seq<byte>, from: nat, to: nat)
    requires from <= to <= |x|
    ensures (x + y)[from..to] == x[from..to]
  {}

  lemma {:induction false} IsSecond(x: seq<byte>, y: seq<byte>, from: nat, to: nat)
    requires from == |x| && to == |x| + |y|
    ensures (x + y)[from..to] == y
  {}

  // ----- writing into a buffer

  // `after` is `before` with `bytes` written at pos.
  predicate Wrote(before: seq<byte>, after: seq<byte>, pos: nat, bytes: seq<byte>) {
    pos + |bytes| <= |before| && after == before[..pos] + bytes + before[pos + |bytes|..]
  }

  lemma {:induction false} WroteTwice(b0: seq<byte>, b1: seq<byte>, b2: seq<byte>, pos: nat, x: seq<byte>, y: seq<byte>)
    requires Wrote(b0, b1, pos, x) && Wrote(b1, b2, pos + |x|, y)
    ensures Wrote(b0, b2, pos, x + y)
  {}

  lemma {:induction false} WroteNothing(b: seq<byte>, pos: nat)
    requires pos <= |b|
    ensures Wrote(b, b, pos, [])
  {}

  ghost predicate ZeroIn(file: seq<byte>, from: nat, to: nat) {
    forall k :: from <= k < to && k < |file| ==> file[k] == 0
  }

  // Zeros behind the bytes written might as well have been written.
  lemma {:induction false} WroteZeros(before: seq<byte>, after: seq<byte>, pos: nat, bytes: seq<byte>, k: nat)
    requires Wrote(before, after, pos, bytes) && pos + |bytes| + k <= |before|
    requires ZeroIn(before, pos + |bytes|, pos + |bytes| + k)
    ensures Wrote(before, after, pos, bytes + Zeros(k))
  {}

  // memcpy
  method Put(buf: array<byte>, pos: nat, bytes: seq<byte>)
    requires pos + |bytes| <= buf.Length
    modifies buf
    ensures Wrote(old(buf[..]), buf[..], pos, bytes)
  {
    for i := 0 to |bytes|
      invariant forall k :: 0 <= k < buf.Length ==>
                  buf[k] == if pos <= k < pos + i then bytes[k - pos] else old(buf[k])
    {
      buf[pos + i] := bytes[i];
    }
    assert buf[..] == old(buf[..])[..pos] + bytes + old(buf[..])[pos + |bytes|..];
  }
}
