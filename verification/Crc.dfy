/** `ether_crc32_le`: the table-driven form, the bit-serial form it stands for, and the frame
    check polynomial of section 3.2.9 of IEEE Std 802.3-2018.
 */
module Crc {
  import opened Descriptors
  import opened Polynomials
  import opened ShiftRegister

  const INIT: bv32 := 0xFFFF_FFFF
  const REFLECTED: bv32 := 0xEDB8_8320

  /** crctab. */
  function Table(i: bv32): bv32 {
    if i == 0 then 0x0000_0000 else if i == 1 then 0x1db7_1064
    else if i == 2 then 0x3b6e_20c8 else if i == 3 then 0x26d9_30ac
    else if i == 4 then 0x76dc_4190 else if i == 5 then 0x6b6b_51f4
    else if i == 6 then 0x4db2_6158 else if i == 7 then 0x5005_713c
    else if i == 8 then 0xedb8_8320 else if i == 9 then 0xf00f_9344
    else if i == 10 then 0xd6d6_a3e8 else if i == 11 then 0xcb61_b38c
    else if i == 12 then 0x9b64_c2b0 else if i == 13 then 0x86d3_d2d4
    else if i == 14 then 0xa00a_e278 else 0xbdbd_f21c
  }

  function Nibble(c: bv32): bv32 { (c >> 4) ^ Table(c & 0xf) }

  /** One turn of the shift register. */
  function Turn(c: bv32): bv32 { (c >> 1) ^ if c & 1 == 1 then REFLECTED else 0 }

  /** The register takes in one bit. */
  function Feed(c: bv32, b: bool): bv32 { Turn(c ^ if b then 1 else 0) }

  function Xor(c: bv32, x: bv32): bv32 { c ^ x }

  function Down(x: bv32): bv32 { x >> 1 }

  predicate Odd(x: bv32) { x & 1 != 0 }

  /** The bits of a byte in the order in which they are sent. */
  function Bits8(b: byte): (s: seq<bool>)
    ensures |s| == 8
  {
    [b & 1 != 0, b & 2 != 0, b & 4 != 0, b & 8 != 0, b & 16 != 0, b & 32 != 0, b & 64 != 0, b & 128 != 0]
  }

  function Bits(buf: seq<byte>): (s: seq<bool>)
    ensures |s| == 8 * |buf|
  {
    if buf == [] then [] else Bits(buf[..|buf| - 1]) + Bits8(buf[|buf| - 1])
  }

  /** A table step is four turns. */
  lemma NibbleTurns(c: bv32)
    ensures Nibble(c) == Turn(Turn(Turn(Turn(c))))
  {
  }

  /** What is in the upper bits is merely shifted down by a turn. */
  lemma TurnSplits(c: bv32, x: bv32)
    ensures Turn(c ^ x) == Feed(c, x & 1 != 0) ^ (x >> 1)
  {
  }

  lemma RegisterSplits()
    ensures Splits(Xor, Turn, Feed, Odd, Down)
  {
    forall c, x
      ensures Turn(Xor(c, x)) == Xor(Feed(c, Odd(x)), Down(x))
    {
      TurnSplits(c, x);
    }
  }

  /** The bits of a byte are the low eight bits of the word it extends to. */
  lemma LowByte(b: byte)
    ensures Low(Odd, Down, b as bv32, 8) == Bits8(b)
  {
  }

  lemma NothingAbove(b: byte)
    ensures Repeat(Down, b as bv32, 8) == 0
  {
  }

  lemma EightTurns(c: bv32)
    ensures Nibble(Nibble(c)) == Repeat(Turn, c, 8)
  {
    NibbleTurns(c);
    NibbleTurns(Nibble(c));
    FourTimes(Turn, c, 0);
    FourTimes(Turn, c, 4);
  }

  lemma FourTimes<T>(f: T -> T, c: T, n: nat)
    ensures Repeat(f, c, n + 4) == f(f(f(f(Repeat(f, c, n)))))
  {
    assert Repeat(f, c, n + 2) == f(f(Repeat(f, c, n)));
  }

  /** Taking in a byte at once is the same as taking in its bits one by one. */
  lemma ByteTurns(c: bv32, b: byte)
    ensures Nibble(Nibble(c ^ (b as bv32))) == Fed(Feed, c, Bits8(b))
  {
    RegisterSplits();
    EightTurns(Xor(c, b as bv32));
    TurnsSplit(Xor, Turn, Feed, Odd, Down, c, b as bv32, 8);
    LowByte(b);
    NothingAbove(b);
  }

  /** `ether_crc32_le`. */
  method EtherCrc32Le(buf: seq<byte>) returns (crc: bv32)
    ensures crc == Fed(Feed, INIT, Bits(buf))
    ensures IsRemainder(Augmented(Bits(buf)), GENERATOR, FromBits(Register(crc)))
  {
    crc := INIT;
    for i := 0 to |buf|
      invariant crc == Fed(Feed, INIT, Bits(buf[..i]))
    {
      assert buf[..i + 1][..i] == buf[..i];
      FedAppend(Feed, INIT, Bits(buf[..i]), Bits8(buf[i]));
      crc := TakeByte(crc, buf[i]);
    }
    assert buf[..|buf|] == buf;
    CrcIsRemainder(Bits(buf));
  }

  method TakeByte(c: bv32, b: byte) returns (crc: bv32)
    ensures crc == Fed(Feed, c, Bits8(b))
  {
    ByteTurns(c, b);
    crc := c ^ (b as bv32);
    crc := Nibble(crc);
    crc := Nibble(crc);
  }

  /** G(x) of section 3.2.9. */
  const GENERATOR: Poly := {32, 26, 23, 22, 16, 12, 11, 10, 8, 7, 5, 4, 2, 1, 0}

  /** The `i`-th bit of a word. */
  function Mask(i: nat): bv32 {
    if i == 0 then 0x1 else if i == 1 then 0x2 else if i == 2 then 0x4
    else if i == 3 then 0x8 else if i == 4 then 0x10 else if i == 5 then 0x20
    else if i == 6 then 0x40 else if i == 7 then 0x80 else if i == 8 then 0x100
    else if i == 9 then 0x200 else if i == 10 then 0x400 else if i == 11 then 0x800
    else if i == 12 then 0x1000 else if i == 13 then 0x2000 else if i == 14 then 0x4000
    else if i == 15 then 0x8000 else if i == 16 then 0x1_0000 else if i == 17 then 0x2_0000
    else if i == 18 then 0x4_0000 else if i == 19 then 0x8_0000 else if i == 20 then 0x10_0000
    else if i == 21 then 0x20_0000 else if i == 22 then 0x40_0000 else if i == 23 then 0x80_0000
    else if i == 24 then 0x100_0000 else if i == 25 then 0x200_0000 else if i == 26 then 0x400_0000
    else if i == 27 then 0x800_0000 else if i == 28 then 0x1000_0000 else if i == 29 then 0x2000_0000
    else if i == 30 then 0x4000_0000
    else 0x8000_0000
  }

  lemma MaskUp(i: nat)
    requires i < 31
    ensures Mask(i) << 1 == Mask(i + 1)
  {
  }

  lemma MaskLow(i: nat)
    requires i < 31
    ensures Mask(i) & 0x8000_0000 == 0
  {
  }

  lemma MaskSingle(i: nat)
    requires i < 32
    ensures Mask(i) & (Mask(i) - 1) == 0
  {
  }

  predicate Bit(c: bv32, m: bv32) { c & m != 0 }

  /** The register in the order in which it is sent: bit 0, the coefficient of the 31st power,
      comes first. */
  function Register(c: bv32): (s: seq<bool>)
    ensures |s| == 32
  {
    seq(32, i requires 0 <= i < 32 => Bit(c, Mask(i)))
  }

  /** What a turn makes of one bit: the one above moves in, and the reflected generator is
      added or not. */
  lemma FeedBit(c: bv32, b: bool, m: bv32)
    requires m & (m - 1) == 0 && m & 0x8000_0000 == 0
    ensures Bit(Feed(c, b), m) <==> (Bit(c, m << 1) != (Bit(c, 1) != b && Bit(REFLECTED, m)))
  {
  }

  lemma FeedTopBit(c: bv32, b: bool)
    ensures Bit(Feed(c, b), 0x8000_0000) <==> Bit(c, 1) != b
  {
  }

  lemma RegisterFeed(c: bv32, b: bool)
    ensures Register(Feed(c, b)) == NextBits(Register(c), b, Register(REFLECTED))
  {
    forall i: nat | i < 32
      ensures Register(Feed(c, b))[i] ==
              ((i + 1 < 32 && Register(c)[i + 1]) != ((Register(c)[0] != b) && Register(REFLECTED)[i]))
    {
      FeedMask(c, b, i);
    }
    NextBitsAre(Register(c), b, Register(REFLECTED), Register(Feed(c, b)));
  }

  lemma FeedMask(c: bv32, b: bool, i: nat)
    requires i < 32
    ensures Bit(Feed(c, b), Mask(i)) <==>
            ((i < 31 && Bit(c, Mask(i + 1))) != (Bit(c, Mask(0)) != b && Bit(REFLECTED, Mask(i))))
  {
    if i < 31 {
      MaskUp(i);
      MaskLow(i);
      MaskSingle(i);
      FeedBit(c, b, Mask(i));
    } else {
      FeedTopBit(c, b);
    }
  }

  /** The reflected constant is the generator without its leading term. */
  lemma ReflectedGenerator(j: nat)
    requires j < 32
    ensures Register(REFLECTED)[31 - j] <==> j in GENERATOR
  {
  }

  /** What section 3.2.9 divides by the generator: the frame's bits as a polynomial times the
      32nd power of x, its first 32 bits complemented. */
  function Augmented(bits: seq<bool>): Poly {
    Add(Shift(FromBits(bits), DEGREE), Shift(FromBits(Register(INIT)), |bits|))
  }

  lemma NextIs(s: seq<bool>, b: bool)
    requires |s| == 32
    ensures FromBits(NextBits(s, b, Register(REFLECTED))) == NextRemainder(GENERATOR, FromBits(s), b)
  {
    var t, r := NextBits(s, b, Register(REFLECTED)), FromBits(s);
    ShiftIn(r - {31}, 1);
    forall j: nat
      ensures j in FromBits(t) <==> j in NextRemainder(GENERATOR, r, b)
    {
      assert 31 in r <==> Coefficient(s, 31);
      if j < 32 {
        ReflectedGenerator(j);
        assert j in FromBits(t) <==> Coefficient(t, j);
        assert j > 0 ==> (j - 1 in r <==> Coefficient(s, j - 1));
      }
    }
  }

  lemma AugmentedSnoc(bits: seq<bool>, b: bool)
    ensures Augmented(bits + [b]) == Add(Shift(Augmented(bits), 1), if b then {DEGREE} else {})
  {
    var m, i := FromBits(bits), FromBits(Register(INIT));
    BitsSnoc(bits, b);
    ShiftAdd(Shift(m, 1), if b then {0} else {}, DEGREE);
    ShiftAdd(Shift(m, DEGREE), Shift(i, |bits|), 1);
    ShiftShift(m, 1, DEGREE);
    ShiftShift(m, DEGREE, 1);
    ShiftShift(i, |bits|, 1);
  }

  lemma AugmentedNone()
    ensures IsRemainder(Augmented([]), GENERATOR, FromBits(Register(INIT)))
  {
    var r := FromBits(Register(INIT));
    ShiftIn(r, 0);
    assert Augmented([]) == r == Add(Multiple(GENERATOR, []), r);
  }

  function Complemented(bits: seq<bool>): seq<bool> {
    seq(|bits|, i requires 0 <= i < |bits| => bits[i] != (i < 32))
  }

  /** Starting from all ones complements the first 32 bits. */
  lemma StartsComplemented(bits: seq<bool>)
    requires 32 <= |bits|
    ensures Augmented(bits) == Shift(FromBits(Complemented(bits)), DEGREE)
  {
    var n, t, ones := |bits|, Complemented(bits), FromBits(Register(INIT));
    ShiftIn(FromBits(bits), DEGREE);
    ShiftIn(FromBits(t), DEGREE);
    ShiftIn(ones, n);
    forall k: nat
      ensures k in Augmented(bits) <==> k in Shift(FromBits(t), DEGREE)
    {
      assert n <= k < n + 32 ==> Coefficient(Register(INIT), k - n) by {
        if n <= k < n + 32 { AllOnes(31 - (k - n)); }
      }
      assert DEGREE <= k < n + DEGREE ==>
          Coefficient(t, k - DEGREE) == (Coefficient(bits, k - DEGREE) != (n <= k));
    }
  }

  lemma AllOnes(i: nat)
    requires i < 32
    ensures Bit(INIT, Mask(i))
  {
  }

  /** The register is the remainder of the division, for every sequence of bits. */
  lemma {:induction false} CrcIsRemainder(bits: seq<bool>)
    ensures IsRemainder(Augmented(bits), GENERATOR, FromBits(Register(Fed(Feed, INIT, bits))))
  {
    if bits == [] {
      AugmentedNone();
    } else {
      var n := |bits| - 1;
      var c, b := Fed(Feed, INIT, bits[..n]), bits[n];
      CrcIsRemainder(bits[..n]);
      assert bits == bits[..n] + [b];
      RemainderFeed(bits[..n], c, b);
    }
  }

  lemma RemainderFeed(bits: seq<bool>, c: bv32, b: bool)
    requires IsRemainder(Augmented(bits), GENERATOR, FromBits(Register(c)))
    ensures IsRemainder(Augmented(bits + [b]), GENERATOR, FromBits(Register(Feed(c, b))))
  {
    AugmentedSnoc(bits, b);
    RegisterFeed(c, b);
    NextIs(Register(c), b);
    RemainderStep(Augmented(bits), GENERATOR, FromBits(Register(c)), b);
  }
}
