// The algebra behind CRC-16/XMODEM: the ring of polynomials over GF(2) modulo
// p = x^16 + x^12 + x^5 + 1, a residue kept as sixteen coefficient bits.
//
// Everything the driver does with the register (bytes, tables, products, powers) is stated in
// terms of two operations: Xor, the sum of two residues, and Step, multiplication by x.
module Crc16Algebra {

  // The sum of two residues.
  function Xor(a: bv16, b: bv16): bv16 {
    a ^ b
  }

  // One shift of the CRC register: multiplication by x modulo p.
  function Step(c: bv16): bv16 {
    if c & 0x8000 != 0 then (c << 1) ^ 0x1021 else c << 1
  }

  // n shifts: multiplication by x^n modulo p.
  function Steps(c: bv16, n: nat): bv16 {
    if n == 0 then c else Step(Steps(c, n - 1))
  }

  // Eight shifts written out, for evaluation on table entries.
  function Step8(c: bv16): bv16 {
    Step(Step(Step(Step(Step(Step(Step(Step(c))))))))
  }

  // The two bytes of a word exchanged.
  function SwapLow(c: bv16): bv16 {
    ((c & 0xff) << 8) + ((c & 0xff00) >> 8)
  }

  // The product of two residues, by Horner's rule on the bits of a:
  // (x * (a >> 1) + bit 0 of a) * b.
  function Mul(a: bv16, b: bv16): bv16
    decreases a
  {
    if a == 0 then 0
    else Xor(Step(Mul(a >> 1, b)), if a & 1 != 0 then b else 0)
  }

  // ----- sums

  lemma {:induction false} XorBits(a: bv16, b: bv16, c: bv16, d: bv16)
    ensures (a ^ b) ^ (c ^ d) == (a ^ c) ^ (b ^ d)
  {}

  lemma {:induction false} XorSwap(a: bv16, b: bv16, c: bv16, d: bv16)
    ensures Xor(Xor(a, b), Xor(c, d)) == Xor(Xor(a, c), Xor(b, d))
  {
    XorAssociates(a, b, Xor(c, d));
    XorAssociates(b, c, d);
    XorCommutes(b, c);
    XorAssociates(c, b, d);
    XorAssociates(a, c, Xor(b, d));
  }

  lemma {:induction false} XorCommutes(a: bv16, b: bv16)
    ensures Xor(a, b) == Xor(b, a)
  {}

  lemma {:induction false} XorAssociates(a: bv16, b: bv16, c: bv16)
    ensures Xor(Xor(a, b), c) == Xor(a, Xor(b, c))
  {}

  lemma {:induction false} XorZero(a: bv16)
    ensures Xor(a, 0) == a && Xor(0, a) == a
  {}

  // ----- multiplication by x is linear and injective

  lemma {:induction false} ShiftXor(a: bv16, b: bv16)
    ensures (a ^ b) << 1 == (a << 1) ^ (b << 1)
    ensures (a ^ b) & 0x8000 == (a & 0x8000) ^ (b & 0x8000)
  {}

  lemma {:induction false} TopBit(a: bv16)
    ensures a & 0x8000 == 0 || a & 0x8000 == 0x8000
  {}

  lemma {:induction false} StepXor(a: bv16, b: bv16)
    ensures Step(Xor(a, b)) == Xor(Step(a), Step(b))
  {
    ShiftXor(a, b);
    TopBit(a);
    TopBit(b);
    XorBits(a << 1, 0x1021, b << 1, 0x1021);
    XorBits(a << 1, 0x1021, b << 1, 0);
    XorBits(a << 1, 0, b << 1, 0x1021);
  }

  lemma {:induction false} StepsXor(a: bv16, b: bv16, n: nat)
    ensures Steps(Xor(a, b), n) == Xor(Steps(a, n), Steps(b, n))
  {
    if n > 0 {
      StepsXor(a, b, n - 1);
      StepXor(Steps(a, n - 1), Steps(b, n - 1));
    }
  }

  // Division by x, which is possible because p has a constant term.
  function Unstep(c: bv16): bv16 {
    if c & 1 != 0 then ((c ^ 0x1021) >> 1) | 0x8000 else c >> 1
  }

  lemma {:induction false} UnstepHigh(c: bv16)
    requires c & 0x8000 != 0
    ensures Unstep(Step(c)) == c
  {}

  lemma {:induction false} UnstepLow(c: bv16)
    requires c & 0x8000 == 0
    ensures Unstep(Step(c)) == c
  {}

  lemma {:induction false} UnstepStep(c: bv16)
    ensures Unstep(Step(c)) == c
  {
    if c & 0x8000 != 0 { UnstepHigh(c); } else { UnstepLow(c); }
  }

  // x is a unit modulo p: a shift never merges two registers, so only zero ever shifts to zero.
  lemma {:induction false} StepsInjective(a: bv16, b: bv16, n: nat)
    ensures Steps(a, n) == Steps(b, n) ==> a == b
  {
    if n > 0 {
      StepsInjective(a, b, n - 1);
      UnstepStep(Steps(a, n - 1));
      UnstepStep(Steps(b, n - 1));
    }
  }

  lemma {:induction false} StepsZero(n: nat)
    ensures Steps(0, n) == 0
  {
    if n > 0 {
      StepsZero(n - 1);
    }
  }

  lemma {:induction false} StepsAdd(c: bv16, m: nat, n: nat)
    ensures Steps(c, m + n) == Steps(Steps(c, m), n)
  {
    if n > 0 {
      StepsAdd(c, m, n - 1);
    }
  }

  lemma {:induction false} StepsByte(c: bv16)
    ensures Steps(c, 8) == Step8(c)
  {
    assert Steps(c, 1) == Step(Steps(c, 0));
    assert Steps(c, 2) == Step(Steps(c, 1));
    assert Steps(c, 3) == Step(Steps(c, 2));
    assert Steps(c, 4) == Step(Steps(c, 3));
    assert Steps(c, 5) == Step(Steps(c, 4));
    assert Steps(c, 6) == Step(Steps(c, 5));
    assert Steps(c, 7) == Step(Steps(c, 6));
  }

  // A byte in the low half of the register just moves to the high half in eight shifts.
  lemma {:induction false} LowByteMovesUp(c: bv16)
    requires c & 0xff00 == 0
    ensures Steps(c, 8) == c << 8
  {
    StepsByte(c);
    assert Step(Step(c)) == c << 2;
    assert Step(Step(c << 2)) == c << 4;
    assert Step(Step(c << 4)) == c << 6;
  }

  lemma {:induction false} SwapTwice(c: bv16)
    ensures SwapLow(SwapLow(c)) == c
  {}

  lemma {:induction false} SwapXor(a: bv16, b: bv16)
    ensures SwapLow(Xor(a, b)) == Xor(SwapLow(a), SwapLow(b))
  {}

  // ----- the product is bilinear, commutative, associative and compatible with x

  lemma {:induction false} MulXor(a: bv16, b: bv16, c: bv16)
    ensures Mul(a, Xor(b, c)) == Xor(Mul(a, b), Mul(a, c))
    decreases a
  {
    if a == 0 {
      XorZero(0);
    } else {
      MulXor(a >> 1, b, c);
      var u, v := Mul(a >> 1, b), Mul(a >> 1, c);
      StepXor(u, v);
      XorSwap(Step(u), Step(v), b, c);
      XorSwap(Step(u), Step(v), 0, 0);
      XorZero(0);
    }
  }

  lemma {:induction false} MulStep(a: bv16, b: bv16)
    ensures Mul(a, Step(b)) == Step(Mul(a, b))
    decreases a
  {
    if a != 0 {
      MulStep(a >> 1, b);
      StepXor(Step(Mul(a >> 1, b)), if a & 1 != 0 then b else 0);
    }
  }

  lemma {:induction false} Halve(a: bv16)
    ensures Xor(Step(a >> 1), a & 1) == a
    ensures a & 1 == 0 || a & 1 == 1
  {}

  lemma {:induction false} MulOne(a: bv16)
    ensures Mul(a, 1) == a
    decreases a
  {
    if a != 0 {
      MulOne(a >> 1);
      Halve(a);
    }
  }

  lemma {:induction false} MulZero(a: bv16)
    ensures Mul(a, 0) == 0
    decreases a
  {
    if a != 0 {
      MulZero(a >> 1);
    }
  }

  // Horner's rule on the bits of the second factor.
  lemma {:induction false} MulHorner(a: bv16, b: bv16)
    ensures Mul(a, b) == Xor(Step(Mul(a, b >> 1)), if b & 1 != 0 then a else 0)
  {
    var h := b >> 1;
    Halve(b);
    MulStep(a, h);
    if b & 1 == 0 {
      MulXor(a, Step(h), 0);
      MulZero(a);
    } else {
      MulXor(a, Step(h), 1);
      MulOne(a);
    }
  }

  lemma {:induction false} MulCommutes(a: bv16, b: bv16)
    ensures Mul(a, b) == Mul(b, a)
    decreases b
  {
    if b == 0 {
      MulZero(a);
    } else {
      MulCommutes(a, b >> 1);
      MulHorner(a, b);
    }
  }

  lemma {:induction false} MulStepLeft(a: bv16, b: bv16)
    ensures Mul(Step(a), b) == Step(Mul(a, b))
  {
    MulCommutes(Step(a), b);
    MulStep(b, a);
    MulCommutes(a, b);
  }

  // Multiplying by x^n is shifting n times.
  lemma {:induction false} MulPower(n: nat, b: bv16)
    ensures Mul(Steps(1, n), b) == Steps(b, n)
  {
    if n == 0 {
      MulCommutes(1, b);
      MulOne(b);
    } else {
      MulPower(n - 1, b);
      MulStepLeft(Steps(1, n - 1), b);
    }
  }

  lemma {:induction false} MulAssociates(a: bv16, b: bv16, c: bv16)
    ensures Mul(Mul(a, b), c) == Mul(a, Mul(b, c))
    decreases a
  {
    if a != 0 {
      MulAssociates(a >> 1, b, c);
      var odd := if a & 1 != 0 then b else 0;
      MulCommutes(Mul(a, b), c);
      MulXor(c, Step(Mul(a >> 1, b)), odd);
      MulCommutes(Step(Mul(a >> 1, b)), c);
      MulStepLeft(Mul(a >> 1, b), c);
      MulCommutes(odd, c);
    }
  }
}
