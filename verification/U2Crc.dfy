/**
 CRC-16/MODBUS (section 6.2.2 of MODBUS over Serial Line V1.02): the check an Ultimate 2 request
 carries, what it says of a message followed by its own check, and what it catches.
 */
module U2Crc {
  import opened Bytes

  // ---- Exclusive or

  predicate Odd(n: nat) { n % 2 == 1 }

  function Xor(a: nat, b: nat): (r: nat)
    decreases a + b
  {
    if a == 0 && b == 0 then 0 else (if Odd(a) == Odd(b) then 0 else 1) + 2 * Xor(a / 2, b / 2)
  }

  /** The lowest bit of an exclusive or, and the rest of it. */
  lemma XorParts(a: nat, b: nat)
    ensures Odd(Xor(a, b)) == (Odd(a) != Odd(b)) && Xor(a, b) / 2 == Xor(a / 2, b / 2)
  {
  }

  lemma SameNumber(a: nat, b: nat)
    requires Odd(a) == Odd(b) && a / 2 == b / 2
    ensures a == b
  {
  }

  lemma {:induction false} XorAssociates(a: nat, b: nat, c: nat)
    ensures Xor(Xor(a, b), c) == Xor(a, Xor(b, c))
    decreases a + b + c
  {
    assert Xor(0, 0) == 0;
    if a > 0 || b > 0 || c > 0 {
      hide Xor, Odd;
      XorAssociates(a / 2, b / 2, c / 2);
      XorParts(a, b);
      XorParts(Xor(a, b), c);
      XorParts(b, c);
      XorParts(a, Xor(b, c));
      SameNumber(Xor(Xor(a, b), c), Xor(a, Xor(b, c)));
    }
  }

  lemma {:induction false} XorCommutes(a: nat, b: nat)
    ensures Xor(a, b) == Xor(b, a)
    decreases a + b
  {
    if a > 0 || b > 0 {
      XorCommutes(a / 2, b / 2);
    }
  }

  lemma {:induction false} XorSelf(a: nat)
    ensures Xor(a, a) == 0
  {
    if a > 0 {
      XorSelf(a / 2);
    }
  }

  lemma {:induction false} XorZero(a: nat)
    ensures Xor(a, 0) == a
  {
    if a > 0 {
      XorZero(a / 2);
    }
  }

  lemma XorTwice(a: nat, b: nat)
    ensures Xor(Xor(a, b), b) == a
  {
    XorAssociates(a, b, b);
    XorSelf(b);
    XorZero(a);
  }

  lemma XorSwap(a: nat, b: nat, c: nat)
    ensures Xor(Xor(a, b), c) == Xor(Xor(a, c), b)
  {
    XorAssociates(a, b, c);
    XorCommutes(b, c);
    XorAssociates(a, c, b);
  }

  lemma {:induction false} XorFits(a: nat, b: nat, n: nat)
    requires a < Pow2(n) && b < Pow2(n)
    ensures Xor(a, b) < Pow2(n)
  {
    if n > 0 {
      XorFits(a / 2, b / 2, n - 1);
    }
  }

  lemma OddSum(p: nat, b: nat)
    ensures Odd(2 * p + b) == Odd(b) && (2 * p + b) / 2 == p + b / 2
  {
  }

  /** A bit above both numbers is kept. */
  lemma {:induction false} XorTop(a: nat, b: nat, n: nat)
    requires a < Pow2(n) && b < Pow2(n)
    ensures Xor(a, Pow2(n) + b) == Pow2(n) + Xor(a, b)
  {
    if n == 0 {
      XorZero(1);
      XorCommutes(0, 1);
    } else {
      assert (Pow2(n) + b) / 2 == Pow2(n - 1) + b / 2;
      XorTop(a / 2, b / 2, n - 1);
      OddSum(Pow2(n - 1), b);
      OddSum(Pow2(n - 1), Xor(a, b));
      hide Xor, Odd;
      XorParts(a, Pow2(n) + b);
      XorParts(a, b);
      SameNumber(Xor(a, Pow2(n) + b), Pow2(n) + Xor(a, b));
    }
  }

  // ---- The check

  const POLYNOMIAL: U16 := 0xa001

  lemma Pow2Sixteen()
    ensures Pow2(8) == 0x100 && Pow2(15) == 0x8000 && Pow2(16) == 0x1_0000
  {
    assert Pow2(4) == 16;
    assert Pow2(8) == 0x100;
    assert Pow2(12) == 0x1000;
    assert Pow2(15) == 0x8000;
  }

  /** One bit of a message: shift right, and mix in the polynomial when the bit shifted out differs from it. */
  function Shift(crc: U16, b: nat): (next: U16) {
    Pow2Sixteen();
    XorFits(crc / 2, POLYNOMIAL, 16);
    if Odd(crc) != Odd(b) then Xor(crc / 2, POLYNOMIAL) else crc / 2
  }

  /** The lowest n bits of a number, lowest first. */
  function Bits(crc: U16, b: nat, n: nat): (next: U16)
    decreases n
  {
    if n == 0 then crc else Bits(Shift(crc, b), b / 2, n - 1)
  }

  function ByteStep(crc: U16, b: Byte): U16 { Bits(crc, b, 8) }

  /** The check over the first n bytes of a message, from an initial value. */
  function CrcOf(init: U16, data: seq<Byte>, n: nat): U16
    requires n <= |data|
  {
    if n == 0 then init else ByteStep(CrcOf(init, data, n - 1), data[n - 1])
  }

  function Crc(data: seq<Byte>): U16 { CrcOf(0xffff, data, |data|) }

  /** The source's two loops, over bytes and over the bits of each. */
  method ComputeCrc(data: seq<Byte>) returns (crc: U16)
    ensures crc == Crc(data)
  {
    hide Shift;
    crc := 0xffff;
    for i := 0 to |data|
      invariant crc == CrcOf(0xffff, data, i)
    {
      ghost var before := crc;
      var b: nat := data[i];
      for bit := 0 to 8
        invariant Bits(crc, b, 8 - bit) == ByteStep(before, data[i])
      {
        crc := Shift(crc, b);
        b := b / 2;
      }
    }
  }

  // ---- Known answers

  /** Mixing in the polynomial flips bits 0 and 13 of a register shifted right, and sets bit 15. */
  function Flipped(a: nat): (r: int) {
    a + (if a % 2 == 1 then -1 else 1) + (if a / 0x2000 % 2 == 1 then -0x2000 else 0x2000) + 0x8000
  }

  lemma XorDouble(a: nat, b: nat)
    ensures Xor(a, 2 * b) == a % 2 + 2 * Xor(a / 2, b)
  {
  }

  lemma XorSixteen(a: nat, b: nat)
    ensures Xor(a, 16 * b) == a % 16 + 16 * Xor(a / 16, b)
  {
    hide Xor;
    XorDouble(a, 8 * b);
    XorDouble(a / 2, 4 * b);
    XorDouble(a / 4, 2 * b);
    XorDouble(a / 8, b);
  }

  lemma XorManyZeros(a: nat, b: nat)
    ensures Xor(a, 0x1000 * b) == a % 0x1000 + 0x1000 * Xor(a / 0x1000, b)
  {
    hide Xor;
    XorSixteen(a, 0x100 * b);
    XorSixteen(a / 16, 0x10 * b);
    XorSixteen(a / 0x100, b);
  }

  lemma PolynomialFlips(a: nat)
    requires a < 0x8000
    ensures Xor(a, POLYNOMIAL) == Flipped(a)
  {
    XorParts(a, POLYNOMIAL);
    hide Xor;
    XorManyZeros(a / 2, 5);
    TopFlips(a / 2 / 0x1000);
    assert a / 2 / 0x1000 == a / 0x2000;
  }

  lemma TopFlips(t: nat)
    requires t < 4
    ensures Xor(t, 5) == 5 - t % 2 + t / 2 * 2
  {
    assert Xor(0, 5) == 5 && Xor(1, 5) == 4 && Xor(2, 5) == 7 && Xor(3, 5) == 6;
  }

  /** The next bit of a register in plain arithmetic. */
  function NextBit(crc: nat, b: nat): (r: int) { if crc % 2 != b % 2 then Flipped(crc / 2) else crc / 2 }

  lemma ShiftIsNext(crc: U16, b: nat)
    ensures Shift(crc, b) == NextBit(crc, b)
  {
    PolynomialFlips(crc / 2);
    hide Xor;
  }

  lemma OneBit(crc: U16, b: nat, n: nat)
    requires n > 0 && 0 <= NextBit(crc, b) < 0x1_0000
    ensures Bits(crc, b, n) == Bits(NextBit(crc, b), b / 2, n - 1)
  {
    ShiftIsNext(crc, b);
    hide Shift, NextBit;
  }

  /** Four bits fed in, from the registers after each of them. */
  lemma FourBits(crc: U16, b: nat, n: nat, r1: U16, r2: U16, r3: U16, r4: U16)
    requires n >= 4 && r1 == NextBit(crc, b) && r2 == NextBit(r1, b / 2) && r3 == NextBit(r2, b / 4) && r4 == NextBit(r3, b / 8)
    ensures Bits(crc, b, n) == Bits(r4, b / 16, n - 4)
  {
    hide Bits, NextBit;
    OneBit(crc, b, n);
    OneBit(r1, b / 2, n - 1);
    assert b / 2 / 2 == b / 4;
    OneBit(r2, b / 4, n - 2);
    assert b / 4 / 2 == b / 8;
    OneBit(r3, b / 8, n - 3);
    assert b / 8 / 2 == b / 16;
  }

  /** A byte fed in. */
  lemma ByteBy(crc: U16, b: Byte, r1: U16, r2: U16, r3: U16, r4: U16, r5: U16, r6: U16, r7: U16, r8: U16)
    requires r1 == NextBit(crc, b) && r2 == NextBit(r1, b / 2) && r3 == NextBit(r2, b / 4) && r4 == NextBit(r3, b / 8)
    requires r5 == NextBit(r4, b / 16) && r6 == NextBit(r5, b / 16 / 2) && r7 == NextBit(r6, b / 16 / 4) && r8 == NextBit(r7, b / 16 / 8)
    ensures ByteStep(crc, b) == r8
  {
    FourBits(crc, b, 8, r1, r2, r3, r4);
    FourBits(r4, b / 16, 4, r5, r6, r7, r8);
    hide NextBit;
    assert Bits(r8, b / 16 / 16, 0) == r8;
    hide Bits;
  }

  lemma {:induction false} Eaten(data: seq<Byte>, regs: seq<U16>, n: nat)
    requires n <= |data| && |regs| == |data| + 1 && regs[0] == 0xffff
    requires forall i :: 0 <= i < |data| ==> ByteStep(regs[i], data[i]) == regs[i + 1]
    ensures CrcOf(0xffff, data, n) == regs[n]
  {
    hide ByteStep;
    if n > 0 { Eaten(data, regs, n - 1); }
  }

  lemma DigitsOne()
    ensures ByteStep(0xffff, 49) == 0x947e
    ensures ByteStep(0x947e, 50) == 0xf595
    ensures ByteStep(0xf595, 51) == 0x7a75
  {
    hide Bits;
    ByteBy(0xffff, 49, 0x7fff, 0x9ffe, 0x4fff, 0x87fe, 0xe3fe, 0xd1fe, 0x68ff, 0x947e);
    ByteBy(0x947e, 50, 0x4a3f, 0x251f, 0xb28e, 0x5947, 0x2ca3, 0x1651, 0xab29, 0xf595);
    ByteBy(0xf595, 51, 0x7aca, 0x9d64, 0x4eb2, 0x2759, 0x13ac, 0xa9d7, 0xf4ea, 0x7a75);
  }

  lemma DigitsTwo()
    ensures ByteStep(0x7a75, 52) == 0x30ba
    ensures ByteStep(0x30ba, 53) == 0xa471
    ensures ByteStep(0xa471, 54) == 0x32e4
  {
    hide Bits;
    ByteBy(0x7a75, 52, 0x9d3b, 0xee9c, 0xd74f, 0xcba6, 0xc5d2, 0xc2e8, 0x6174, 0x30ba);
    ByteBy(0x30ba, 53, 0xb85c, 0x5c2e, 0x8e16, 0x470b, 0x2385, 0x11c2, 0x08e1, 0xa471);
    ByteBy(0xa471, 54, 0xf239, 0x791c, 0x9c8f, 0xee46, 0xd722, 0xcb90, 0x65c8, 0x32e4);
  }

  lemma DigitsThree()
    ensures ByteStep(0x32e4, 55) == 0x9d73
    ensures ByteStep(0x9d73, 56) == 0x37dd
    ensures ByteStep(0x37dd, 57) == 0x4b37
  {
    hide Bits;
    ByteBy(0x32e4, 55, 0xb973, 0x5cb9, 0x2e5c, 0x172e, 0xab96, 0xf5ca, 0x7ae5, 0x9d73);
    ByteBy(0x9d73, 56, 0xeeb8, 0x775c, 0x3bae, 0xbdd6, 0xfeea, 0xdf74, 0x6fba, 0x37dd);
    ByteBy(0x37dd, 57, 0x1bee, 0x0df7, 0xa6fa, 0xf37c, 0xd9bf, 0x6cdf, 0x966e, 0x4b37);
  }

  /** The digits 1 to 9: the check value the standard gives. */
  lemma CheckValue()
    ensures Crc([49, 50, 51, 52, 53, 54, 55, 56, 57]) == 0x4b37
  {
    hide ByteStep;
    DigitsOne();
    DigitsTwo();
    DigitsThree();
    Eaten([49, 50, 51, 52, 53, 54, 55, 56, 57], [0xffff, 0x947e, 0xf595, 0x7a75, 0x30ba, 0xa471, 0x32e4, 0x9d73, 0x37dd, 0x4b37], 9);
  }

  /** Four bytes, and none. */
  lemma SmallValues()
    ensures Crc([1, 2, 3, 4]) == 0x2ba1 && Crc([]) == 0xffff
  {
    BytesOneToFour();
    hide ByteStep;
    Eaten([1, 2, 3, 4], [0xffff, 0x807e, 0xe181, 0x6161, 0x2ba1], 4);
  }

  lemma BytesOneToFour()
    ensures ByteStep(0xffff, 1) == 0x807e
    ensures ByteStep(0x807e, 2) == 0xe181
    ensures ByteStep(0xe181, 3) == 0x6161
    ensures ByteStep(0x6161, 4) == 0x2ba1
  {
    hide Bits;
    ByteBy(0xffff, 1, 0x7fff, 0x9ffe, 0x4fff, 0x87fe, 0x43ff, 0x81fe, 0x40ff, 0x807e);
    ByteBy(0x807e, 2, 0x403f, 0x201f, 0xb00e, 0x5807, 0x8c02, 0x4601, 0x8301, 0xe181);
    ByteBy(0xe181, 3, 0x70c0, 0x9861, 0xec31, 0xd619, 0xcb0d, 0xc587, 0xc2c2, 0x6161);
    ByteBy(0x6161, 4, 0x90b1, 0xe859, 0x742c, 0x3a16, 0x1d0b, 0xae84, 0x5742, 0x2ba1);
  }

  // ---- A message followed by its check

  /** What is left of a number after its lowest n bits. */
  function Rest(b: nat, n: nat): (r: nat)
    decreases n
  {
    if n == 0 then b else Rest(b / 2, n - 1)
  }

  lemma {:induction false} RestOf(a: nat, b: nat, n: nat)
    requires a < Pow2(n)
    ensures Rest(a + Pow2(n) * b, n) == b
    decreases n
  {
    if n > 0 {
      HalfOf(a, b, n);
      RestOf(a / 2, b, n - 1);
    }
  }

  lemma HalfOf(a: nat, b: nat, n: nat)
    requires n > 0
    ensures (a + Pow2(n) * b) / 2 == a / 2 + Pow2(n - 1) * b && Odd(a + Pow2(n) * b) == Odd(a)
  {
    assert Pow2(n) * b == 2 * (Pow2(n - 1) * b);
  }

  /** Only the lowest n bits count. */
  lemma {:induction false} LowBits(crc: U16, a: nat, b: nat, n: nat)
    requires a < Pow2(n)
    ensures Bits(crc, a + Pow2(n) * b, n) == Bits(crc, a, n)
    decreases n
  {
    hide Pow2, Shift;
    if n > 0 {
      HalfOf(a, b, n);
      SameBit(crc, a + Pow2(n) * b, a);
      HalfFits(a, n);
      LowBits(Shift(crc, a), a / 2, b, n - 1);
    }
  }

  lemma HalfFits(a: nat, n: nat)
    requires n > 0 && a < Pow2(n)
    ensures a / 2 < Pow2(n - 1)
  {
  }

  lemma SameBit(crc: U16, a: nat, b: nat)
    requires Odd(a) == Odd(b)
    ensures Shift(crc, a) == Shift(crc, b)
  {
    hide Xor;
  }

  /** A register fed its own bits only shifts. */
  lemma {:induction false} OwnBits(crc: U16, n: nat)
    ensures Bits(crc, crc, n) == Rest(crc, n)
    decreases n
  {
    if n > 0 {
      OwnBits(crc / 2, n - 1);
    }
  }

  lemma ByteStepOwn(crc: U16)
    ensures ByteStep(crc, crc % 256) == crc / 256
  {
    hide Bits, Rest;
    Pow2Sixteen();
    assert crc == crc % 256 + Pow2(8) * (crc / 256);
    LowBits(crc, crc % 256, crc / 256, 8);
    OwnBits(crc, 8);
    RestOf(crc % 256, crc / 256, 8);
  }

  lemma {:induction false} CrcPrefix(init: U16, a: seq<Byte>, b: seq<Byte>, n: nat)
    requires n <= |a| && n <= |b| && a[..n] == b[..n]
    ensures CrcOf(init, a, n) == CrcOf(init, b, n)
  {
    hide ByteStep;
    if n > 0 {
      assert a[..n - 1] == a[..n][..n - 1] && b[..n - 1] == b[..n][..n - 1];
      assert a[n - 1] == a[..n][n - 1] && b[n - 1] == b[..n][n - 1];
      CrcPrefix(init, a, b, n - 1);
    }
  }

  /** A message with its own check after it, low byte first, checks to zero. */
  lemma CheckedMessageIsZero(data: seq<Byte>)
    ensures Crc(data + Le16(Crc(data))) == 0
  {
    hide ByteStep;
    var c := Crc(data);
    var sent := data + Le16(c);
    assert sent[..|data|] == data == data[..|data|];
    CrcPrefix(0xffff, data, sent, |data|);
    assert CrcOf(0xffff, sent, |data| + 1) == ByteStep(c, c % 256);
    ByteStepOwn(c);
    ByteStepOwn(c / 256);
    assert CrcOf(0xffff, sent, |data| + 2) == ByteStep(c / 256, c / 256);
  }

  // ---- What it catches

  /** Nothing of the register is forgotten: its top bit says whether the polynomial was mixed in. */
  lemma ShiftInjective(c: U16, d: U16, b: nat)
    requires Shift(c, b) == Shift(d, b)
    ensures c == d
  {
    hide Xor;
    TopBit(c / 2);
    TopBit(d / 2);
    XorTwice(c / 2, POLYNOMIAL);
    XorTwice(d / 2, POLYNOMIAL);
    assert Odd(c) == Odd(d);
    SameNumber(c, d);
  }

  lemma TopBit(a: nat)
    requires a < 0x8000
    ensures Xor(a, POLYNOMIAL) >= 0x8000
  {
    Pow2Sixteen();
    XorTop(a, 0x2001, 15);
  }

  lemma {:induction false} BitsInjective(c: U16, d: U16, b: nat, n: nat)
    requires Bits(c, b, n) == Bits(d, b, n)
    ensures c == d
    decreases n
  {
    hide Shift;
    if n > 0 {
      BitsInjective(Shift(c, b), Shift(d, b), b / 2, n - 1);
      ShiftInjective(c, d, b);
    }
  }

  lemma SplitLast(s: seq<Byte>, m: nat, n: nat)
    requires m < n <= |s|
    ensures s[m..n][..n - 1 - m] == s[m..n - 1] && s[m..n][n - 1 - m] == s[n - 1]
  {
  }

  lemma {:induction false} SuffixInjective(init: U16, a: seq<Byte>, b: seq<Byte>, m: nat, n: nat)
    requires m <= n <= |a| == |b| && a[m..n] == b[m..n] && CrcOf(init, a, n) == CrcOf(init, b, n)
    ensures CrcOf(init, a, m) == CrcOf(init, b, m)
  {
    hide Bits;
    if m < n {
      SplitLast(a, m, n);
      SplitLast(b, m, n);
      BitsInjective(CrcOf(init, a, n - 1), CrcOf(init, b, n - 1), a[n - 1], 8);
      SuffixInjective(init, a, b, m, n - 1);
    }
  }

  lemma XorWord(a: U16, b: U16)
    ensures Xor(a, b) < 0x1_0000
  {
    Pow2Sixteen();
    XorFits(a, b, 16);
  }

  /** Feeding bits in is mixing them into the register all at once, but for the ones not fed in yet. */
  lemma {:induction false} MixedIn(c: U16, b: U16, n: nat)
    ensures Xor(c, b) < 0x1_0000 && Bits(Xor(c, b), 0, n) == Xor(Bits(c, b, n), Rest(b, n))
    decreases n
  {
    hide Shift, Xor;
    XorWord(c, b);
    if n > 0 {
      MixedOne(c, b);
      MixedIn(Shift(c, b), b / 2, n - 1);
    }
  }

  lemma MixedOne(c: U16, b: U16)
    ensures Xor(c, b) < 0x1_0000 && Xor(Shift(c, b), b / 2) < 0x1_0000
    ensures Shift(Xor(c, b), 0) == Xor(Shift(c, b), b / 2)
  {
    XorWord(c, b);
    XorWord(Shift(c, b), b / 2);
    XorParts(c, b);
    XorSwap(c / 2, b / 2, POLYNOMIAL);
    XorZero(Xor(c, b));
  }

  lemma {:induction false} InTwoParts(c: U16, b: nat, m: nat, n: nat)
    ensures Bits(c, b, m + n) == Bits(Bits(c, b, m), Rest(b, m), n)
    decreases m
  {
    hide Shift;
    if m > 0 {
      InTwoParts(Shift(c, b), b / 2, m - 1, n);
    }
  }

  lemma TwoBytes(c: U16, a: Byte, b: Byte)
    ensures ByteStep(ByteStep(c, a), b) == Bits(c, a + 256 * b, 16)
  {
    hide Bits, Rest;
    Pow2Sixteen();
    InTwoParts(c, a + 256 * b, 8, 8);
    LowBits(c, a, b, 8);
    RestOf(a, b, 8);
  }

  /** Two bytes are as many bits as the register has: from one register value, they decide the next. */
  lemma TwoBytesDecide(c: U16, a0: Byte, a1: Byte, b0: Byte, b1: Byte)
    requires ByteStep(ByteStep(c, a0), a1) == ByteStep(ByteStep(c, b0), b1)
    ensures a0 == b0 && a1 == b1
  {
    hide Bits, ByteStep, Rest, Xor;
    var a: U16, b: U16 := a0 + 256 * a1, b0 + 256 * b1;
    TwoBytes(c, a0, a1);
    TwoBytes(c, b0, b1);
    MixedIn(c, a, 16);
    MixedIn(c, b, 16);
    Pow2Sixteen();
    RestOf(a, 0, 16);
    RestOf(b, 0, 16);
    XorZero(Bits(c, a, 16));
    BitsInjective(Xor(c, a), Xor(c, b), 0, 16);
    XorCommutes(c, a);
    XorCommutes(c, b);
    XorTwice(a, c);
    XorTwice(b, c);
  }

  /** Messages of one length that differ only within two adjacent bytes never share a check. */
  lemma AdjacentBytesCaught(a: seq<Byte>, b: seq<Byte>, k: nat)
    requires |a| == |b| && k + 2 <= |a| && a[..k] == b[..k] && a[k + 2..] == b[k + 2..]
    ensures Crc(a) == Crc(b) <==> a == b
  {
    hide Bits, ByteStep;
    if Crc(a) == Crc(b) {
      assert a[k + 2..|a|] == b[k + 2..|a|];
      SuffixInjective(0xffff, a, b, k + 2, |a|);
      CrcPrefix(0xffff, a, b, k);
      var c := CrcOf(0xffff, a, k);
      assert CrcOf(0xffff, a, k + 2) == ByteStep(ByteStep(c, a[k]), a[k + 1]);
      assert CrcOf(0xffff, b, k + 2) == ByteStep(ByteStep(c, b[k]), b[k + 1]);
      TwoBytesDecide(c, a[k], a[k + 1], b[k], b[k + 1]);
      assert a == a[..k] + [a[k], a[k + 1]] + a[k + 2..];
      assert b == b[..k] + [b[k], b[k + 1]] + b[k + 2..];
    }
  }
}
