/** CRC-32 as specified in section 8 of RFC 1952: reflected polynomial 0xEDB88320,
    register preset to all ones, result complemented. This is the checksum that
    closes every WAL frame. */
module Crc32 {
  import opened ByteStrings

  const POLY: bv32 := 0xEDB8_8320
  const ONES: bv32 := 0xFFFF_FFFF

  function Xor(a: bv32, b: bv32): bv32 { a ^ b }
  function And(a: bv32, b: bv32): bv32 { a & b }
  function Half(w: bv32): bv32 { w >> 1 }
  predicate Odd(w: bv32) { w & 1 == 1 }

  function ShiftBit(crc: bv32): bv32 {
    if Odd(crc) then Xor(Half(crc), POLY) else Half(crc)
  }

  function ShiftByte(crc: bv32): bv32 {
    ShiftBit(ShiftBit(ShiftBit(ShiftBit(ShiftBit(ShiftBit(ShiftBit(ShiftBit(crc))))))))
  }

  function Or(a: bv32, b: bv32): bv32 { a | b }
  function Twice(w: bv32): bv32 { w << 1 }
  function Bit(odd: bool): bv32 { if odd then 1 else 0 }

  function ShiftIn(w: bv32, odd: bool): bv32 {
    Or(Twice(w), Bit(odd))
  }

  /** The low `k` bits of `n` as a word, most significant bit shifted in first. */
  function Spread(n: nat, k: nat): bv32 {
    if k == 0 then 0 else ShiftIn(Spread(n / 2, k - 1), n % 2 == 1)
  }

  /** A byte, zero-extended to the width of the register. */
  function Word(b: byte): bv32 {
    Spread(b, 8)
  }

  function Absorb(crc: bv32, w: bv32): bv32 {
    ShiftByte(Xor(crc, w))
  }

  /** The register after reading one more byte. */
  function Update(crc: bv32, b: byte): bv32 {
    Absorb(crc, Word(b))
  }

  /** Reading a message byte by byte, front to back. */
  function Fold<S>(step: (S, byte) -> S, init: S, s: Bytes): S {
    if s == [] then init else step(Fold(step, init, s[..|s| - 1]), s[|s| - 1])
  }

  function Register(s: Bytes): bv32 {
    Fold(Update, ONES, s)
  }

  /** The number that the low `k` bits of a word stand for. */
  function Value(w: bv32, k: nat): nat
    decreases k
  {
    if k == 0 then 0 else (if Odd(w) then 1 else 0) + 2 * Value(Half(w), k - 1)
  }

  function Complement(crc: bv32): u32 {
    ValueBound(Xor(crc, ONES));
    Value(Xor(crc, ONES), 32)
  }

  function Checksum(s: Bytes): u32 {
    Complement(Register(s))
  }

  function Pow2(k: nat): nat {
    if k == 0 then 1 else 2 * Pow2(k - 1)
  }

  lemma Pow2Values()
    ensures Pow2(8) == 0x100 && Pow2(32) == 0x1_0000_0000
  {
    assert Pow2(4) == 16 && Pow2(6) == 64 && Pow2(8) == 0x100 && Pow2(10) == 0x400;
    assert Pow2(12) == 0x1000 && Pow2(14) == 0x4000 && Pow2(16) == 0x1_0000 && Pow2(18) == 0x4_0000;
    assert Pow2(20) == 0x10_0000 && Pow2(22) == 0x40_0000 && Pow2(24) == 0x100_0000 && Pow2(26) == 0x400_0000;
    assert Pow2(28) == 0x1000_0000 && Pow2(30) == 0x4000_0000;
  }

  lemma {:induction false} ValueRange(w: bv32, k: nat)
    ensures Value(w, k) < Pow2(k)
    decreases k
  {
    hide Odd, Half;
    if k > 0 { ValueRange(Half(w), k - 1); }
  }

  lemma ValueBound(w: bv32)
    ensures Value(w, 32) < 0x1_0000_0000
  {
    hide Value;
    Pow2Values();
    ValueRange(w, 32);
  }

  // ------------------------------------------------- a step loses nothing

  lemma ShiftBitInjective(a: bv32, b: bv32)
    requires ShiftBit(a) == ShiftBit(b)
    ensures a == b
  {}

  lemma ShiftByteInjective(a: bv32, b: bv32)
    requires ShiftByte(a) == ShiftByte(b)
    ensures a == b
  {
    hide ShiftBit;
    var a1, b1 := ShiftBit(a), ShiftBit(b);
    var a2, b2 := ShiftBit(a1), ShiftBit(b1);
    var a3, b3 := ShiftBit(a2), ShiftBit(b2);
    var a4, b4 := ShiftBit(a3), ShiftBit(b3);
    var a5, b5 := ShiftBit(a4), ShiftBit(b4);
    var a6, b6 := ShiftBit(a5), ShiftBit(b5);
    var a7, b7 := ShiftBit(a6), ShiftBit(b6);
    ShiftBitInjective(a7, b7);
    ShiftBitInjective(a6, b6);
    ShiftBitInjective(a5, b5);
    ShiftBitInjective(a4, b4);
    ShiftBitInjective(a3, b3);
    ShiftBitInjective(a2, b2);
    ShiftBitInjective(a1, b1);
    ShiftBitInjective(a, b);
  }

  lemma XorCancelRight(a: bv32, b: bv32, c: bv32)
    requires Xor(a, c) == Xor(b, c)
    ensures a == b
  {}

  lemma XorCancelLeft(a: bv32, b: bv32, c: bv32)
    requires Xor(c, a) == Xor(c, b)
    ensures a == b
  {}

  lemma AbsorbInjective(x: bv32, y: bv32, v: bv32, w: bv32)
    ensures Absorb(x, w) == Absorb(y, w) ==> x == y
    ensures Absorb(x, v) == Absorb(x, w) ==> v == w
  {
    hide ShiftByte, Xor;
    if Absorb(x, w) == Absorb(y, w) {
      ShiftByteInjective(Xor(x, w), Xor(y, w));
      XorCancelRight(x, y, w);
    }
    if Absorb(x, v) == Absorb(x, w) {
      ShiftByteInjective(Xor(x, v), Xor(x, w));
      XorCancelLeft(v, w, x);
    }
  }

  /** The low `k` bits of a word, all set. */
  function Mask(k: nat): bv32 {
    if k == 0 then 0 else ShiftIn(Mask(k - 1), true)
  }

  lemma MaskValues()
    ensures Mask(8) == 0xFF && Mask(32) == ONES
  {
    assert Mask(2) == 3 && Mask(4) == 0xF && Mask(6) == 0x3F && Mask(8) == 0xFF && Mask(10) == 0x3FF;
    assert Mask(12) == 0xFFF && Mask(14) == 0x3FFF && Mask(16) == 0xFFFF && Mask(18) == 0x3_FFFF;
    assert Mask(20) == 0xF_FFFF && Mask(22) == 0x3F_FFFF && Mask(24) == 0xFF_FFFF && Mask(26) == 0x3FF_FFFF;
    assert Mask(28) == 0xFFF_FFFF && Mask(30) == 0x3FFF_FFFF;
  }

  lemma LowBits(w: bv32, m: bv32)
    ensures ShiftIn(And(Half(w), m), Odd(w)) == And(w, ShiftIn(m, true))
  {
    assert Bit(true) == 1;
    hide Odd, Half, And, Or, Twice, Bit;
    LowBit(w);
    MaskedBits(w, m);
  }

  lemma LowBit(w: bv32)
    ensures Bit(Odd(w)) == And(w, 1)
  {}

  lemma TwiceAnd(a: bv32, b: bv32)
    ensures Twice(And(a, b)) == And(Twice(a), Twice(b))
  {}

  lemma TwiceHalf(w: bv32)
    ensures Or(Twice(Half(w)), And(w, 1)) == w
  {}

  lemma AndOr(a: bv32, b: bv32, c: bv32)
    ensures And(Or(a, b), c) == Or(And(a, c), And(b, c))
  {}

  lemma EvenMasked(a: bv32, m: bv32)
    ensures And(Twice(a), Or(Twice(m), 1)) == And(Twice(a), Twice(m))
  {}

  lemma BitMasked(w: bv32, m: bv32)
    ensures And(And(w, 1), Or(Twice(m), 1)) == And(w, 1)
  {}

  lemma MaskedBits(w: bv32, m: bv32)
    ensures Or(Twice(And(Half(w), m)), And(w, 1)) == And(w, Or(Twice(m), 1))
  {
    hide And, Half, Or, Twice;
    TwiceAnd(Half(w), m);
    TwiceHalf(w);
    AndOr(Twice(Half(w)), And(w, 1), Or(Twice(m), 1));
    EvenMasked(Half(w), m);
    BitMasked(w, m);
  }

  lemma AndNothing(w: bv32)
    ensures And(w, 0) == 0
  {}

  lemma AndAll(w: bv32)
    ensures And(w, ONES) == w
  {}

  /** Writing a word as a number and spreading the number again gives back its low bits. */
  lemma {:induction false} SpreadValue(w: bv32, j: nat, k: nat)
    requires k <= j
    ensures Spread(Value(w, j), k) == And(w, Mask(k))
    decreases k
  {
    hide Odd, Half, And, ShiftIn;
    if k > 0 {
      SpreadValue(Half(w), j - 1, k - 1);
      LowBits(w, Mask(k - 1));
      assert Value(w, j) / 2 == Value(Half(w), j - 1);
    } else {
      AndNothing(w);
    }
  }

  /** Spreading `k` bits reads no more than `k` bits. */
  lemma {:induction false} SpreadMod(n: nat, q: nat, k: nat)
    ensures q * Pow2(k) >= 0 && Spread(n + q * Pow2(k), k) == Spread(n, k)
  {
    hide ShiftIn;
    if k > 0 {
      Doubled(Pow2(k - 1), q);
      assert q * Pow2(k) == 2 * (q * Pow2(k - 1));
      SpreadMod(n / 2, q, k - 1);
    }
  }

  /** Numbers of at most `k` bits are told apart by their spread. */
  lemma {:induction false} ValueSpread(n: nat, k: nat)
    requires n < Pow2(k) && k <= 8
    ensures Value(Spread(n, k), k) == n
  {
    hide Odd, Half, ShiftIn;
    if k > 0 {
      ValueSpread(n / 2, k - 1);
      ShiftInBack(Spread(n / 2, k - 1), n % 2 == 1);
      SpreadSmall(n / 2, k - 1);
    }
  }

  lemma ShiftInBack(w: bv32, odd: bool)
    ensures Odd(ShiftIn(w, odd)) == odd
    ensures w < 0x8000_0000 ==> Half(ShiftIn(w, odd)) == w
  {}

  lemma ShiftInSmall(w: bv32, odd: bool, limit: bv32)
    requires w < limit <= 0x100
    ensures ShiftIn(w, odd) < limit << 1
  {}

  function Limit(k: nat): bv32 {
    if k == 0 then 1 else Limit(k - 1) << 1
  }

  lemma LimitFits(k: nat)
    requires k <= 8
    ensures Limit(k) <= 0x100
  {
    assert Limit(2) == 4;
    assert Limit(4) == 16;
    assert Limit(6) == 64;
  }

  lemma {:induction false} SpreadSmall(n: nat, k: nat)
    requires k <= 8
    ensures Spread(n, k) < Limit(k) <= 0x100
  {
    LimitFits(k);
    if k > 0 {
      SpreadSmall(n / 2, k - 1);
      ShiftInSmall(Spread(n / 2, k - 1), n % 2 == 1, Limit(k - 1));
    }
  }

  lemma WordInjective(a: byte, b: byte)
    requires Word(a) == Word(b)
    ensures a == b
  {
    hide Spread, Value;
    Pow2Values();
    ValueSpread(a, 8);
    ValueSpread(b, 8);
  }

  /** A step that loses nothing: injective in the state and in the byte. */
  ghost predicate Lossless<S(!new)>(step: (S, byte) -> S) {
    && (forall x, y, b :: step(x, b) == step(y, b) ==> x == y)
    && (forall x, a, b :: step(x, a) == step(x, b) ==> a == b)
  }

  lemma UpdateLossless()
    ensures Lossless(Update)
  {
    hide Absorb, Word;
    forall x, y, b | Update(x, b) == Update(y, b) ensures x == y {
      AbsorbInjective(x, y, Word(b), Word(b));
    }
    forall x, a, b | Update(x, a) == Update(x, b) ensures a == b {
      AbsorbInjective(x, x, Word(a), Word(b));
      WordInjective(a, b);
    }
  }

  // ------------------------------------------------ so a message loses nothing

  lemma {:induction false} FoldDetects<S(!new)>(step: (S, byte) -> S, init: S, s: Bytes, i: nat, b: byte)
    requires Lossless(step)
    requires i < |s| && s[i] != b
    ensures Fold(step, init, s[i := b]) != Fold(step, init, s)
  {
    var n := |s| - 1;
    if i == n {
      assert s[i := b][..n] == s[..n];
    } else {
      assert s[i := b][..n] == s[..n][i := b];
      FoldDetects(step, init, s[..n], i, b);
    }
  }

  lemma ValueInjective(v: bv32, w: bv32)
    requires Value(v, 32) == Value(w, 32)
    ensures v == w
  {
    hide Value, Spread, Mask, And;
    MaskValues();
    SpreadValue(v, 32, 32);
    SpreadValue(w, 32, 32);
    AndAll(v);
    AndAll(w);
  }

  lemma ComplementInjective(x: bv32, y: bv32)
    requires Complement(x) == Complement(y)
    ensures x == y
  {
    hide Value, Xor;
    ValueInjective(Xor(x, ONES), Xor(y, ONES));
    XorCancelRight(x, y, ONES);
  }

  /** Changing one byte of any message, at any position, changes its checksum. */
  lemma ChecksumDetects(s: Bytes, i: nat, b: byte)
    requires i < |s| && s[i] != b
    ensures Checksum(s[i := b]) != Checksum(s)
  {
    hide Complement, Update;
    UpdateLossless();
    FoldDetects(Update, ONES, s, i, b);
    if Checksum(s[i := b]) == Checksum(s) {
      ComplementInjective(Register(s[i := b]), Register(s));
    }
  }

  // ------------------------------------------------- which checksum this is

  lemma OddXor(a: bv32, b: bv32)
    ensures Odd(Xor(a, b)) <==> Odd(a) != Odd(b)
  {}

  lemma HalfXor(a: bv32, b: bv32)
    ensures Half(Xor(a, b)) == Xor(Half(a), Half(b))
  {}

  lemma XorRight(a: bv32, b: bv32, p: bv32)
    ensures Xor(a, Xor(b, p)) == Xor(Xor(a, b), p)
  {}

  lemma XorSwap(a: bv32, b: bv32)
    ensures Xor(a, b) == Xor(b, a)
  {}

  /** Where the polynomial is added makes no difference, and adding it twice removes it. */
  lemma XorMoves(a: bv32, b: bv32, p: bv32)
    ensures Xor(a, Xor(b, p)) == Xor(Xor(a, b), p)
    ensures Xor(Xor(a, p), b) == Xor(Xor(a, b), p)
    ensures Xor(Xor(a, p), Xor(b, p)) == Xor(a, b)
  {
    hide Xor;
    XorRight(a, b, p);
    XorRight(b, a, p);
    XorSwap(a, b);
    XorSwap(Xor(a, p), b);
    XorRight(Xor(a, p), b, p);
    XorTwice(Xor(a, b), p);
  }

  lemma ShiftBitLinear(a: bv32, b: bv32)
    ensures ShiftBit(Xor(a, b)) == Xor(ShiftBit(a), ShiftBit(b))
  {
    hide Odd, Half, Xor;
    OddXor(a, b);
    HalfXor(a, b);
    XorMoves(Half(a), Half(b), POLY);
  }

  lemma ShiftByteLinear(a: bv32, b: bv32)
    ensures ShiftByte(Xor(a, b)) == Xor(ShiftByte(a), ShiftByte(b))
  {
    hide ShiftBit, Xor;
    var a1, b1 := ShiftBit(a), ShiftBit(b);
    var a2, b2 := ShiftBit(a1), ShiftBit(b1);
    var a3, b3 := ShiftBit(a2), ShiftBit(b2);
    var a4, b4 := ShiftBit(a3), ShiftBit(b3);
    var a5, b5 := ShiftBit(a4), ShiftBit(b4);
    var a6, b6 := ShiftBit(a5), ShiftBit(b5);
    var a7, b7 := ShiftBit(a6), ShiftBit(b6);
    ShiftBitLinear(a, b);
    ShiftBitLinear(a1, b1);
    ShiftBitLinear(a2, b2);
    ShiftBitLinear(a3, b3);
    ShiftBitLinear(a4, b4);
    ShiftBitLinear(a5, b5);
    ShiftBitLinear(a6, b6);
    ShiftBitLinear(a7, b7);
  }

  /** A word without its lowest byte, and what is above that byte. */
  function High(w: bv32): bv32 { w & 0xFFFF_FF00 }
  function Down(w: bv32): bv32 { w >> 8 }

  lemma HighIsEven(w: bv32)
    ensures var v := High(w);
            var v1 := Half(v); var v2 := Half(v1); var v3 := Half(v2); var v4 := Half(v3);
            var v5 := Half(v4); var v6 := Half(v5); var v7 := Half(v6);
      && !Odd(v) && !Odd(v1) && !Odd(v2) && !Odd(v3) && !Odd(v4) && !Odd(v5) && !Odd(v6) && !Odd(v7)
      && Half(v7) == Down(w)
  {}

  /** Whole bytes above the lowest just move down. */
  lemma ShiftByteHigh(w: bv32)
    ensures ShiftByte(High(w)) == Down(w)
  {
    HighIsEven(w);
    hide Odd, Half, High, Down, Xor;
  }

  lemma SplitLow(r: bv32, w: bv32)
    ensures Xor(r, w) == Xor(Xor(r, And(w, 0xFF)), High(w))
  {}

  lemma XorTwice(a: bv32, b: bv32)
    ensures Xor(Xor(a, b), b) == a
  {}

  /** Reading a byte off a word: what is left of the word is still to come. */
  lemma AbsorbLow(r: bv32, w: bv32)
    ensures Absorb(r, And(w, 0xFF)) == Xor(ShiftByte(Xor(r, w)), Down(w))
  {
    hide ShiftByte, Xor, And, High, Down;
    SplitLow(r, w);
    ShiftByteLinear(Xor(r, And(w, 0xFF)), High(w));
    ShiftByteHigh(w);
    XorTwice(ShiftByte(Xor(r, And(w, 0xFF))), Down(w));
  }

  lemma WordGone(w: bv32)
    ensures Down(Down(Down(Down(w)))) == 0
  {}

  lemma XorZero(a: bv32)
    ensures Xor(a, 0) == a
  {}

  /** Reading the four bytes of a word, lowest first, is reading the word. */
  lemma AbsorbWord(r: bv32, w: bv32)
    ensures var w1 := Down(w); var w2 := Down(w1); var w3 := Down(w2);
      Absorb(Absorb(Absorb(Absorb(r, And(w, 0xFF)), And(w1, 0xFF)), And(w2, 0xFF)), And(w3, 0xFF))
        == ShiftByte(ShiftByte(ShiftByte(ShiftByte(Xor(r, w)))))
  {
    hide ShiftByte, Absorb, Xor, And, Down;
    var w1 := Down(w);
    var w2 := Down(w1);
    var w3 := Down(w2);
    var s1 := ShiftByte(Xor(r, w));
    var s2 := ShiftByte(s1);
    var s3 := ShiftByte(s2);
    AbsorbLow(r, w);
    AbsorbLow(Xor(s1, w1), w1);
    XorTwice(s1, w1);
    AbsorbLow(Xor(s2, w2), w2);
    XorTwice(s2, w2);
    AbsorbLow(Xor(s3, w3), w3);
    XorTwice(s3, w3);
    WordGone(w);
    XorZero(ShiftByte(s3));
  }

  function Halve(w: bv32, j: nat): bv32
    decreases j
  {
    if j == 0 then w else Halve(Half(w), j - 1)
  }

  lemma EightHalves(w: bv32)
    ensures Half(Half(Half(Half(Half(Half(Half(Half(w)))))))) == Down(w)
  {}

  lemma HalveByte(w: bv32)
    ensures Halve(w, 8) == Down(w)
  {
    hide Half, Down;
    EightHalves(w);
    var w2 := Half(Half(w));
    var w4 := Half(Half(w2));
    var w6 := Half(Half(w4));
    assert Halve(w, 8) == Halve(w2, 6);
    assert Halve(w2, 6) == Halve(w4, 4);
    assert Halve(w4, 4) == Halve(w6, 2);
    assert Halve(w6, 2) == Halve(Half(w6), 1) == Halve(Half(Half(w6)), 0);
  }

  lemma {:induction false} ValueSplit(w: bv32, j: nat, k: nat)
    ensures Value(w, j + k) == Value(w, j) + Pow2(j) * Value(Halve(w, j), k)
    decreases j
  {
    hide Half, Odd;
    if j > 0 {
      ValueSplit(Half(w), j - 1, k);
      Doubled(Pow2(j - 1), Value(Halve(w, j), k));
    }
  }

  lemma Doubled(a: nat, x: nat)
    ensures 2 * (a * x) == (2 * a) * x
  {}

  /** Dropping the lowest byte of a word drops it from the number. */
  lemma ValueDropsByte(w: bv32, k: nat)
    requires k >= 8
    ensures Value(w, k) / 256 == Value(Down(w), k - 8)
  {
    hide Value, Down, Halve;
    Pow2Values();
    ValueRange(w, 8);
    ValueSplit(w, 8, k - 8);
    HalveByte(w);
  }

  lemma LowByte(w: bv32, k: nat)
    requires k >= 8
    ensures Word(Value(w, k) % 256) == And(w, 0xFF)
  {
    hide Spread, Value, Mask, And;
    Pow2Values();
    MaskValues();
    var n := Value(w, k);
    SpreadMod(n % 256, n / 256, 8);
    assert n % 256 + n / 256 * Pow2(8) == n;
    SpreadValue(w, k, 8);
  }

  /** The bytes of a word's number are the bytes of the word. */
  lemma WordBytes(w: bv32)
    ensures var s := LE(Value(w, 32), 4); var w1 := Down(w); var w2 := Down(w1); var w3 := Down(w2);
      && Word(s[0]) == And(w, 0xFF) && Word(s[1]) == And(w1, 0xFF)
      && Word(s[2]) == And(w2, 0xFF) && Word(s[3]) == And(w3, 0xFF)
  {
    hide Word, Value, Down, And;
    var w1 := Down(w);
    var w2 := Down(w1);
    var w3 := Down(w2);
    var n := Value(w, 32);
    ValueDropsByte(w, 32);
    ValueDropsByte(w1, 24);
    ValueDropsByte(w2, 16);
    assert LE(n, 4) == [n % 256] + LE(n / 256, 3);
    assert LE(n / 256, 3) == [n / 256 % 256] + LE(n / 256 / 256, 2);
    assert LE(n / 256 / 256, 2) == [n / 256 / 256 % 256] + LE(n / 256 / 256 / 256, 1);
    LowByte(w, 32);
    LowByte(w1, 24);
    LowByte(w2, 16);
    LowByte(w3, 8);
  }

  lemma RegisterAppend(s: Bytes, b: byte)
    ensures Register(s + [b]) == Update(Register(s), b)
  {
    hide Update;
    assert (s + [b])[..|s|] == s;
  }

  lemma FlipBack(r: bv32)
    ensures Xor(r, Xor(r, ONES)) == ONES
  {}

  lemma AllOnes()
    ensures ShiftByte(ShiftByte(ShiftByte(ShiftByte(ONES)))) == 0xDEBB_20E3
  {
    assert ShiftByte(ONES) == 0x2DFD_1072;
    assert ShiftByte(0x2DFD_1072) == 0xBE26_ED00;
    assert ShiftByte(0xBE26_ED00) == 0x00BE_26ED;
  }

  /** The residue: a message followed by its checksum always leaves the register at the same
      value, and that value is the one of the polynomial of RFC 1952. */
  lemma Residue(s: Bytes)
    ensures Register(s + LE(Checksum(s), 4)) == 0xDEBB_20E3
  {
    hide Absorb, ShiftByte, Word, Value, LE, Xor, And, Down, Register;
    var r := Register(s);
    var w := Xor(r, ONES);
    var c := LE(Checksum(s), 4);
    WordBytes(w);
    RegisterAppend(s, c[0]);
    RegisterAppend(s + [c[0]], c[1]);
    RegisterAppend(s + [c[0]] + [c[1]], c[2]);
    RegisterAppend(s + [c[0]] + [c[1]] + [c[2]], c[3]);
    assert s + c == s + [c[0]] + [c[1]] + [c[2]] + [c[3]];
    AbsorbWord(r, w);
    FlipBack(r);
    AllOnes();
  }

  // ------------------------------------------------------------ the check value

  lemma {:induction false} ValueOfZero(k: nat)
    ensures Value(0, k) == 0
  {
    if k > 0 {
      assert Half(0) == 0;
      ValueOfZero(k - 1);
    }
  }

  lemma ZeroIsOnes()
    ensures Xor(ONES, ONES) == 0
  {}

  lemma CheckNumber()
    ensures Value(0xCBF4_3926, 32) == 0xCBF4_3926
  {
    TwoBits(0x0, 0x3, 0, true, true);
    TwoBits(0x3, 0xc, 2, false, false);
    TwoBits(0xc, 0x32, 4, true, false);
    TwoBits(0x32, 0xcb, 6, true, true);
    TwoBits(0xcb, 0x32f, 8, true, true);
    TwoBits(0x32f, 0xcbf, 10, true, true);
    TwoBits(0xcbf, 0x32fd, 12, false, true);
    TwoBits(0x32fd, 0xcbf4, 14, false, false);
    TwoBits(0xcbf4, 0x32fd0, 16, false, false);
    TwoBits(0x32fd0, 0xcbf43, 18, true, true);
    TwoBits(0xcbf43, 0x32fd0e, 20, true, false);
    TwoBits(0x32fd0e, 0xcbf439, 22, false, true);
    TwoBits(0xcbf439, 0x32fd0e4, 24, false, false);
    TwoBits(0x32fd0e4, 0xcbf4392, 26, true, false);
    TwoBits(0xcbf4392, 0x32fd0e49, 28, false, true);
    TwoBits(0x32fd0e49, 0xcbf43926, 30, true, false);
  }

  /** Two more bits of a number. */
  lemma TwoBits(high: bv32, w: bv32, k: nat, b1: bool, b0: bool)
    requires Half(Half(w)) == high && Odd(Half(w)) == b1 && Odd(w) == b0
    ensures Value(w, k + 2) == (if b0 then 1 else 0) + (if b1 then 2 else 0) + 4 * Value(high, k)
  {
    hide Odd, Half;
    assert Value(w, k + 2) == (if Odd(w) then 1 else 0) + 2 * Value(Half(w), k + 1);
  }

  lemma DigitWords()
    ensures Word(0x31) == 0x31
    ensures Word(0x32) == 0x32
    ensures Word(0x33) == 0x33
    ensures Word(0x34) == 0x34
    ensures Word(0x35) == 0x35
    ensures Word(0x36) == 0x36
    ensures Word(0x37) == 0x37
    ensures Word(0x38) == 0x38
    ensures Word(0x39) == 0x39
  {
    assert Spread(0, 2) == 0 && Spread(3, 4) == 3;
    assert Spread(12, 6) == 12 && Spread(13, 6) == 13 && Spread(14, 6) == 14;
  }

  lemma DigitRegisters()
    ensures Absorb(ONES, 0x31) == 0x7C23_1048
    ensures Absorb(0x7C23_1048, 0x32) == 0xB0AC_BB32
    ensures Absorb(0xB0AC_BB32, 0x33) == 0x77B7_9C2D
    ensures Absorb(0x77B7_9C2D, 0x34) == 0x641C_1F5C
    ensures Absorb(0x641C_1F5C, 0x35) == 0x340A_C5E3
    ensures Absorb(0x340A_C5E3, 0x36) == 0xF68D_2C9E
    ensures Absorb(0xF68D_2C9E, 0x37) == 0xAFFC_9660
    ensures Absorb(0xAFFC_9660, 0x38) == 0x651F_2550
    ensures Absorb(0x651F_2550, 0x39) == 0x340B_C6D9
  {}

  lemma FlippedCheck()
    ensures Xor(0x340B_C6D9, ONES) == 0xCBF4_3926
  {}

  lemma DigitsRead(s: Bytes, d: byte, before: bv32, after: bv32)
    requires Register(s) == before && Absorb(before, Word(d)) == after
    ensures Register(s + [d]) == after
  {
    hide Absorb, Word, Register;
    RegisterAppend(s, d);
  }

  lemma RegisterOfNothing()
    ensures Register([]) == ONES
  {}

  lemma RegisterOfThree()
    ensures Register([0x31, 0x32, 0x33]) == 0x77B7_9C2D
  {
    hide Absorb, Word, Register;
    RegisterOfNothing();
    DigitWords();
    DigitRegisters();
    DigitsRead([], 0x31, ONES, 0x7C23_1048);
    assert [] + [0x31] == [0x31];
    DigitsRead([0x31], 0x32, 0x7C23_1048, 0xB0AC_BB32);
    assert [0x31] + [0x32] == [0x31, 0x32];
    DigitsRead([0x31, 0x32], 0x33, 0xB0AC_BB32, 0x77B7_9C2D);
    assert [0x31, 0x32] + [0x33] == [0x31, 0x32, 0x33];
  }

  lemma RegisterOfSix()
    ensures Register([0x31, 0x32, 0x33, 0x34, 0x35, 0x36]) == 0xF68D_2C9E
  {
    hide Absorb, Word, Register;
    RegisterOfThree();
    DigitWords();
    DigitRegisters();
    DigitsRead([0x31, 0x32, 0x33], 0x34, 0x77B7_9C2D, 0x641C_1F5C);
    assert [0x31, 0x32, 0x33] + [0x34] == [0x31, 0x32, 0x33, 0x34];
    DigitsRead([0x31, 0x32, 0x33, 0x34], 0x35, 0x641C_1F5C, 0x340A_C5E3);
    assert [0x31, 0x32, 0x33, 0x34] + [0x35] == [0x31, 0x32, 0x33, 0x34, 0x35];
    DigitsRead([0x31, 0x32, 0x33, 0x34, 0x35], 0x36, 0x340A_C5E3, 0xF68D_2C9E);
    assert [0x31, 0x32, 0x33, 0x34, 0x35] + [0x36] == [0x31, 0x32, 0x33, 0x34, 0x35, 0x36];
  }

  lemma RegisterOfNine()
    ensures Register([0x31, 0x32, 0x33, 0x34, 0x35, 0x36, 0x37, 0x38, 0x39]) == 0x340B_C6D9
  {
    hide Absorb, Word, Register;
    RegisterOfSix();
    DigitWords();
    DigitRegisters();
    DigitsRead([0x31, 0x32, 0x33, 0x34, 0x35, 0x36], 0x37, 0xF68D_2C9E, 0xAFFC_9660);
    assert [0x31, 0x32, 0x33, 0x34, 0x35, 0x36] + [0x37] == [0x31, 0x32, 0x33, 0x34, 0x35, 0x36, 0x37];
    DigitsRead([0x31, 0x32, 0x33, 0x34, 0x35, 0x36, 0x37], 0x38, 0xAFFC_9660, 0x651F_2550);
    assert [0x31, 0x32, 0x33, 0x34, 0x35, 0x36, 0x37] + [0x38] == [0x31, 0x32, 0x33, 0x34, 0x35, 0x36, 0x37, 0x38];
    DigitsRead([0x31, 0x32, 0x33, 0x34, 0x35, 0x36, 0x37, 0x38], 0x39, 0x651F_2550, 0x340B_C6D9);
    assert [0x31, 0x32, 0x33, 0x34, 0x35, 0x36, 0x37, 0x38] + [0x39]
        == [0x31, 0x32, 0x33, 0x34, 0x35, 0x36, 0x37, 0x38, 0x39];
  }

  /** The published check value: the checksum of the digits one to nine. With the checksum of
      nothing it fixes the preset and the final complement. */
  lemma CheckValue()
    ensures Checksum([]) == 0
    ensures Checksum([0x31, 0x32, 0x33, 0x34, 0x35, 0x36, 0x37, 0x38, 0x39]) == 0xCBF4_3926
  {
    hide Value, Xor, Register;
    RegisterOfNothing();
    ZeroIsOnes();
    ValueOfZero(32);
    RegisterOfNine();
    FlippedCheck();
    CheckNumber();
  }
}
