/** The frame check sequence on a 16-bit machine word, and by it the repository's reference vector
    (test/test_serial_protocol.py, line 23). */
module Crc16Reference {
  import opened Common
  import opened Crc16

  /** Bit i of the word is the coefficient of x^i. */
  predicate Holds(r: Register, w: bv16) {
    && r[0] == (w & 0x0001 != 0) && r[1] == (w & 0x0002 != 0)
    && r[2] == (w & 0x0004 != 0) && r[3] == (w & 0x0008 != 0)
    && r[4] == (w & 0x0010 != 0) && r[5] == (w & 0x0020 != 0)
    && r[6] == (w & 0x0040 != 0) && r[7] == (w & 0x0080 != 0)
    && r[8] == (w & 0x0100 != 0) && r[9] == (w & 0x0200 != 0)
    && r[10] == (w & 0x0400 != 0) && r[11] == (w & 0x0800 != 0)
    && r[12] == (w & 0x1000 != 0) && r[13] == (w & 0x2000 != 0)
    && r[14] == (w & 0x4000 != 0) && r[15] == (w & 0x8000 != 0)
  }

  /** Shift one message bit in: the word moves up, and the polynomial is added when the bits differ. */
  function FeedWord(w: bv16, bit: bool): bv16 {
    if (w & 0x8000 != 0) != bit then (w << 1) ^ 0x1021 else w << 1
  }

  predicate Fed(r: Register, s: Register, bit: bool, i: int)
    requires 0 <= i < 16
  {
    var t := r[15] != bit;
    s[i] == if i == 0 then t else if i == 5 || i == 12 then r[i - 1] != t else r[i - 1]
  }

  lemma FedRegister(r: Register, bit: bool)
    ensures forall i :: 0 <= i < 16 ==> Fed(r, Feed(r, bit), bit, i)
  {}

  // The word's bits after a step, its low and its high byte.

  lemma LowBits(w: bv16, bit: bool)
    ensures var v, t := FeedWord(w, bit), (w & 0x8000 != 0) != bit;
      && ((v & 0x0001 != 0) == t)
      && ((v & 0x0002 != 0) == (w & 0x0001 != 0))
      && ((v & 0x0004 != 0) == (w & 0x0002 != 0))
      && ((v & 0x0008 != 0) == (w & 0x0004 != 0))
      && ((v & 0x0010 != 0) == (w & 0x0008 != 0))
      && ((v & 0x0020 != 0) == ((w & 0x0010 != 0) != t))
      && ((v & 0x0040 != 0) == (w & 0x0020 != 0))
      && ((v & 0x0080 != 0) == (w & 0x0040 != 0))
  {}

  lemma HighBits(w: bv16, bit: bool)
    ensures var v, t := FeedWord(w, bit), (w & 0x8000 != 0) != bit;
      && ((v & 0x0100 != 0) == (w & 0x0080 != 0))
      && ((v & 0x0200 != 0) == (w & 0x0100 != 0))
      && ((v & 0x0400 != 0) == (w & 0x0200 != 0))
      && ((v & 0x0800 != 0) == (w & 0x0400 != 0))
      && ((v & 0x1000 != 0) == ((w & 0x0800 != 0) != t))
      && ((v & 0x2000 != 0) == (w & 0x1000 != 0))
      && ((v & 0x4000 != 0) == (w & 0x2000 != 0))
      && ((v & 0x8000 != 0) == (w & 0x4000 != 0))
  {}

  lemma FedHolds(r: Register, s: Register, w: bv16, bit: bool)
    requires Holds(r, w) && forall i :: 0 <= i < 16 ==> Fed(r, s, bit, i)
    ensures Holds(s, FeedWord(w, bit))
  {
    LowBits(w, bit);
    HighBits(w, bit);
    assert Fed(r, s, bit, 0) && Fed(r, s, bit, 1) && Fed(r, s, bit, 2) && Fed(r, s, bit, 3);
    assert Fed(r, s, bit, 4) && Fed(r, s, bit, 5) && Fed(r, s, bit, 6) && Fed(r, s, bit, 7);
    assert Fed(r, s, bit, 8) && Fed(r, s, bit, 9) && Fed(r, s, bit, 10) && Fed(r, s, bit, 11);
    assert Fed(r, s, bit, 12) && Fed(r, s, bit, 13) && Fed(r, s, bit, 14) && Fed(r, s, bit, 15);
  }

  function FeedBits(w: bv16, bits: seq<bool>): bv16
    decreases |bits|
  {
    if bits == [] then w else FeedBits(FeedWord(w, bits[0]), bits[1..])
  }

  /** The word holds the register of the shift register after every message. */
  lemma {:induction false} WordHoldsRegister(r: Register, w: bv16, bits: seq<bool>)
    requires Holds(r, w)
    ensures Holds(FeedAll(r, bits), FeedBits(w, bits))
    decreases |bits|
  {
    if bits != [] {
      FedRegister(r, bits[0]);
      FedHolds(r, Feed(r, bits[0]), w, bits[0]);
      WordHoldsRegister(Feed(r, bits[0]), FeedWord(w, bits[0]), bits[1..]);
    }
  }

  // ---------- the reference vector ----------

  function FeedFour(w: bv16, b3: bool, b2: bool, b1: bool, b0: bool): bv16 {
    FeedWord(FeedWord(FeedWord(FeedWord(w, b3), b2), b1), b0)
  }

  lemma FourBits(w: bv16, b3: bool, b2: bool, b1: bool, b0: bool, rest: seq<bool>)
    ensures FeedBits(w, [b3, b2, b1, b0] + rest) == FeedBits(FeedFour(w, b3, b2, b1, b0), rest)
  {
    TwoBits(w, b3, b2, [b1, b0] + rest);
    TwoBits(FeedWord(FeedWord(w, b3), b2), b1, b0, rest);
    assert [b3, b2, b1, b0] + rest == [b3, b2] + ([b1, b0] + rest);
  }

  lemma TwoBits(w: bv16, b1: bool, b0: bool, rest: seq<bool>)
    ensures FeedBits(w, [b1, b0] + rest) == FeedBits(FeedWord(FeedWord(w, b1), b0), rest)
  {
    OneBit(w, b1, [b0] + rest);
    OneBit(FeedWord(w, b1), b0, rest);
    assert [b1, b0] + rest == [b1] + ([b0] + rest);
  }

  lemma OneBit(w: bv16, bit: bool, rest: seq<bool>)
    ensures FeedBits(w, [bit] + rest) == FeedBits(FeedWord(w, bit), rest)
  {
    assert ([bit] + rest)[1..] == rest;
  }

  /** The message of the first n digits, one to nine. */
  function Digits(n: nat): seq<Byte>
    requires n <= 9
  {
    [49, 50, 51, 52, 53, 54, 55, 56, 57][..n]
  }

  lemma DigitsExtend(n: nat)
    requires 0 < n <= 9
    ensures Digits(n) == Digits(n - 1) + [48 + n]
  {}

  lemma DigitBits(d: nat)
    requires 1 <= d <= 9
    ensures BitsOfByte(48 + d) ==
            [false, false, true, true] + [d / 8 == 1, d / 4 % 2 == 1, d / 2 % 2 == 1, d % 2 == 1]
  {}

  lemma {:induction false} BitsAppend(data: seq<Byte>, b: Byte)
    ensures BitsOf(data + [b]) == BitsOf(data) + BitsOfByte(b)
  {
    if data == [] {
      assert [] + [b] == [b];
      assert BitsOf([b]) == BitsOfByte(b) + BitsOf([b][1..]);
    } else {
      assert (data + [b])[1..] == data[1..] + [b];
      BitsAppend(data[1..], b);
    }
  }

  lemma {:induction false} FeedBitsConcat(w: bv16, a: seq<bool>, b: seq<bool>)
    ensures FeedBits(w, a + b) == FeedBits(FeedBits(w, a), b)
    decreases |a|
  {
    if a == [] {
      assert a + b == b;
    } else {
      assert (a + b)[1..] == a[1..] + b;
      FeedBitsConcat(FeedWord(w, a[0]), a[1..], b);
    }
  }

  /** The word after the digit d. */
  function FeedDigit(w: bv16, d: nat): bv16 {
    FeedFour(FeedFour(w, false, false, true, true), d / 8 == 1, d / 4 % 2 == 1, d / 2 % 2 == 1, d % 2 == 1)
  }

  lemma DigitWord(w: bv16, d: nat)
    requires 1 <= d <= 9
    ensures FeedBits(w, BitsOfByte(48 + d)) == FeedDigit(w, d)
  {
    var low := [d / 8 == 1, d / 4 % 2 == 1, d / 2 % 2 == 1, d % 2 == 1];
    DigitBits(d);
    FourBits(w, false, false, true, true, low);
    assert low + [] == low;
    FourBits(FeedFour(w, false, false, true, true), low[0], low[1], low[2], low[3], []);
  }

  function WordAfter(n: nat): bv16
    requires n <= 9
  {
    FeedBits(0xFFFF, BitsOf(Digits(n)))
  }

  /** One more digit. */
  lemma AfterDigit(n: nat)
    requires 1 <= n <= 9
    ensures WordAfter(n) == FeedDigit(WordAfter(n - 1), n)
  {
    DigitsExtend(n);
    BitsAppend(Digits(n - 1), 48 + n);
    FeedBitsConcat(0xFFFF, BitsOf(Digits(n - 1)), BitsOfByte(48 + n));
    DigitWord(WordAfter(n - 1), n);
  }

  /** The words after the digits one to nine. */
  const WORDS: seq<bv16> := [0xFFFF, 0xC782, 0x3DBA, 0x5BCE, 0x5349,
                             0x4560, 0x2EF4, 0x7718, 0xA12B, 0x29B1]

  ghost predicate StepsAlong(step: (bv16, nat) -> bv16, words: seq<bv16>) {
    |words| == 10 && forall n: nat :: n < 9 ==> step(words[n], n + 1) == words[n + 1]
  }

  lemma FirstWords()
    ensures FeedDigit(0xFFFF, 1) == 0xC782
    ensures FeedDigit(0xC782, 2) == 0x3DBA
    ensures FeedDigit(0x3DBA, 3) == 0x5BCE
  {}

  lemma MiddleWords()
    ensures FeedDigit(0x5BCE, 4) == 0x5349
    ensures FeedDigit(0x5349, 5) == 0x4560
    ensures FeedDigit(0x4560, 6) == 0x2EF4
  {}

  lemma LastWords()
    ensures FeedDigit(0x2EF4, 7) == 0x7718
    ensures FeedDigit(0x7718, 8) == 0xA12B
    ensures FeedDigit(0xA12B, 9) == 0x29B1
  {}

  lemma WordsStep()
    ensures StepsAlong((w: bv16, d: nat) => FeedDigit(w, d), WORDS)
  {
    FirstWords();
    MiddleWords();
    LastWords();
  }

  lemma {:induction false} WalksAlong(step: (bv16, nat) -> bv16, words: seq<bv16>, after: nat -> bv16, n: nat)
    requires StepsAlong(step, words) && n < 10 && after(0) == words[0]
    requires forall k: nat :: k < 9 ==> after(k + 1) == step(after(k), k + 1)
    ensures after(n) == words[n]
  {
    if n > 0 {
      WalksAlong(step, words, after, n - 1);
      assert after(n - 1 + 1) == step(after(n - 1), n);
    }
  }

  lemma NineDigits()
    ensures WordAfter(9) == 0x29B1
  {
    var after := (n: nat) => if n <= 9 then WordAfter(n) else 0;
    forall n: nat | n < 9
      ensures after(n + 1) == FeedDigit(after(n), n + 1)
    {
      AfterDigit(n + 1);
    }
    assert Digits(0) == [];
    WordsStep();
    WalksAlong((w: bv16, d: nat) => FeedDigit(w, d), WORDS, after, 9);
  }

  lemma PresetHolds()
    ensures Holds(PRESET, 0xFFFF)
  {}

  lemma RegisterBytes(r: Register)
    requires Holds(r, 0x29B1)
    ensures High(r) == 0x29 && Low(r) == 0xB1
  {}

  lemma WireValue(data: seq<Byte>)
    requires FeedBits(0xFFFF, BitsOf(data)) == 0x29B1
    ensures High(Crc16Ccitt(data)) == 0x29 && Low(Crc16Ccitt(data)) == 0xB1
  {
    PresetHolds();
    WordHoldsRegister(PRESET, 0xFFFF, BitsOf(data));
    CrcIsBitSerial(PRESET, data);
    RegisterBytes(Crc16Ccitt(data));
  }

  /** The reference vector: the digits one to nine in ASCII give 0x29B1. */
  lemma ReferenceVector()
    ensures var crc := Crc16Ccitt([49, 50, 51, 52, 53, 54, 55, 56, 57]);
      High(crc) == 0x29 && Low(crc) == 0xB1
  {
    NineDigits();
    assert Digits(9) == [49, 50, 51, 52, 53, 54, 55, 56, 57];
    WireValue([49, 50, 51, 52, 53, 54, 55, 56, 57]);
  }
}
