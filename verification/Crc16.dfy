/** CRC-16 with generator x^16 + x^12 + x^5 + 1 and a register preset to ones,
    no final inversion (section 4.1.6.2 of CCSDS 132.0-B), modelled bit by bit. */
module Crc16 {
  import opened Common

  /** The shift register: index i holds the coefficient of x^i. */
  type Register = r: seq<bool> | |r| == 16 witness ALL_ONES

  const ALL_ONES := [true, true, true, true, true, true, true, true,
                     true, true, true, true, true, true, true, true]
  const PRESET: Register := ALL_ONES
  const ZERO: Register := [false, false, false, false, false, false, false, false,
                           false, false, false, false, false, false, false, false]

  /** Multiply the register by x modulo the generator. */
  function Shift(r: Register): Register {
    seq(16, i requires 0 <= i < 16 =>
      if i == 0 then r[15]
      else if i == 5 || i == 12 then r[i - 1] != r[15]
      else r[i - 1])
  }

  function Xor(a: Register, b: Register): Register {
    seq(16, i requires 0 <= i < 16 => a[i] != b[i])
  }

  function ShiftTimes(r: Register, n: nat): Register
    decreases n
  {
    if n == 0 then r else ShiftTimes(Shift(r), n - 1)
  }

  // ---------- byte-at-a-time form, the one the bridge calls ----------

  /** The eight bits of a byte, most significant first. */
  function BitsOfByte(b: Byte): (bits: seq<bool>)
    ensures |bits| == 8
  {
    [b / 128 % 2 == 1, b / 64 % 2 == 1, b / 32 % 2 == 1, b / 16 % 2 == 1,
     b / 8 % 2 == 1, b / 4 % 2 == 1, b / 2 % 2 == 1, b % 2 == 1]
  }

  /** Up to 16 message bits aligned with the top of the register. */
  function AtTop(bits: seq<bool>): Register
    requires |bits| <= 16
  {
    seq(16, i requires 0 <= i < 16 => 15 - i < |bits| && bits[15 - i])
  }

  function Crc(r: Register, data: seq<Byte>): Register
    decreases |data|
  {
    if data == [] then r
    else Crc(ShiftTimes(Xor(r, AtTop(BitsOfByte(data[0]))), 8), data[1..])
  }

  function Crc16Ccitt(data: seq<Byte>): Register {
    Crc(PRESET, data)
  }

  // ---------- bit-serial reference: the standard's shift register ----------

  function Feed(r: Register, bit: bool): Register {
    Shift(r[15 := r[15] != bit])
  }

  function FeedAll(r: Register, bits: seq<bool>): Register
    decreases |bits|
  {
    if bits == [] then r else FeedAll(Feed(r, bits[0]), bits[1..])
  }

  function BitsOf(data: seq<Byte>): (bits: seq<bool>)
    ensures |bits| == 8 * |data|
  {
    if data == [] then [] else BitsOfByte(data[0]) + BitsOf(data[1..])
  }

  lemma {:induction false} FeedAllConcat(r: Register, a: seq<bool>, b: seq<bool>)
    ensures FeedAll(r, a + b) == FeedAll(FeedAll(r, a), b)
    decreases |a|
  {
    if a == [] {
      assert a + b == b;
    } else {
      assert (a + b)[1..] == a[1..] + b;
      FeedAllConcat(Feed(r, a[0]), a[1..], b);
    }
  }

  /** Adding a word at the top and shifting it through equals feeding its bits one by one. */
  lemma {:induction false} WordIsSerial(r: Register, bits: seq<bool>)
    requires |bits| <= 16
    ensures ShiftTimes(Xor(r, AtTop(bits)), |bits|) == FeedAll(r, bits)
    decreases |bits|
  {
    if bits == [] {
      assert Xor(r, AtTop(bits)) == r;
    } else {
      assert Shift(Xor(r, AtTop(bits))) == Xor(Feed(r, bits[0]), AtTop(bits[1..]));
      WordIsSerial(Feed(r, bits[0]), bits[1..]);
    }
  }

  /** The byte-at-a-time CRC is the standard's bit-serial register. */
  lemma {:induction false} CrcIsBitSerial(r: Register, data: seq<Byte>)
    ensures Crc(r, data) == FeedAll(r, BitsOf(data))
    decreases |data|
  {
    if data != [] {
      var bits := BitsOfByte(data[0]);
      WordIsSerial(r, bits);
      FeedAllConcat(r, bits, BitsOf(data[1..]));
      CrcIsBitSerial(FeedAll(r, bits), data[1..]);
    }
  }

  // ---------- error patterns ----------

  /** The positions at which two equally long bit strings differ. */
  function Difference(a: seq<bool>, b: seq<bool>): (e: seq<bool>)
    requires |a| == |b|
    ensures |e| == |a|
    ensures forall i :: 0 <= i < |a| ==> e[i] == (a[i] != b[i])
  {
    seq(|a|, i requires 0 <= i < |a| => a[i] != b[i])
  }

  /** The register is linear over GF(2): differing inputs differ by the run of their difference. */
  lemma {:induction false} FeedAllLinear(r: Register, s: Register, a: seq<bool>, b: seq<bool>)
    requires |a| == |b|
    ensures Xor(FeedAll(r, a), FeedAll(s, b)) == FeedAll(Xor(r, s), Difference(a, b))
    decreases |a|
  {
    if a != [] {
      var e := Difference(a, b);
      assert Xor(Feed(r, a[0]), Feed(s, b[0])) == Feed(Xor(r, s), e[0]);
      assert e[1..] == Difference(a[1..], b[1..]);
      FeedAllLinear(Feed(r, a[0]), Feed(s, b[0]), a[1..], b[1..]);
    }
  }

  /** A non-zero pattern whose set bits all lie within 16 consecutive positions from p on. */
  ghost predicate IsBurst(e: seq<bool>, p: nat) {
    && (exists i :: 0 <= i < |e| && e[i])
    && (forall i :: 0 <= i < |e| && e[i] ==> p <= i < p + 16)
  }

  ghost predicate HasLowBit(r: Register, j: nat) {
    exists i :: 0 <= i < 16 && i < j && r[i]
  }

  /** The register step is injective: what is not zero does not become zero. */
  lemma ShiftKeepsNonZero(r: Register)
    requires HasLowBit(r, 16)
    ensures HasLowBit(Shift(r), 16)
  {
    var i :| 0 <= i < 16 && r[i];
    assert if r[15] then Shift(r)[0] else i < 15 && Shift(r)[i + 1];
  }

  /** A set bit among the low j moves up by at most one place, whatever is fed. */
  lemma FeedKeepsLowBit(r: Register, bit: bool, j: nat)
    requires j < 16 && HasLowBit(r, j)
    ensures HasLowBit(Feed(r, bit), j + 1)
  {
    var i :| 0 <= i < j && r[i];
    assert Feed(r, bit)[0] || Feed(r, bit)[i + 1];
  }

  lemma {:induction false} BurstTail(r: Register, bits: seq<bool>, j: nat)
    requires j <= 16 && HasLowBit(r, j)
    requires forall i :: 0 <= i < |bits| && bits[i] ==> i + j < 16
    ensures HasLowBit(FeedAll(r, bits), 16)
    decreases |bits|
  {
    if bits == [] {
    } else if j < 16 {
      FeedKeepsLowBit(r, bits[0], j);
      BurstTail(Feed(r, bits[0]), bits[1..], j + 1);
    } else {
      assert r[15 := r[15] != bits[0]] == r;
      ShiftKeepsNonZero(r);
      BurstTail(Feed(r, bits[0]), bits[1..], j);
    }
  }

  lemma {:induction false} BurstRemainder(e: seq<bool>, p: nat)
    requires IsBurst(e, p)
    ensures HasLowBit(FeedAll(ZERO, e), 16)
    decreases |e|
  {
    if e[0] {
      assert Feed(ZERO, true)[0];
      BurstTail(Feed(ZERO, true), e[1..], 1);
    } else {
      assert Feed(ZERO, false) == ZERO;
      var i :| 0 <= i < |e| && e[i];
      var rest, q := e[1..], if p == 0 then 0 else p - 1;
      assert rest[i - 1];
      assert forall k :: 0 <= k < |rest| && rest[k] ==> e[k + 1];
      BurstRemainder(rest, q);
    }
  }

  lemma CrcDifference(a: seq<Byte>, b: seq<Byte>)
    requires |a| == |b|
    ensures Xor(Crc16Ccitt(a), Crc16Ccitt(b)) == FeedAll(ZERO, Difference(BitsOf(a), BitsOf(b)))
  {
    CrcIsBitSerial(PRESET, a);
    CrcIsBitSerial(PRESET, b);
    FeedAllLinear(PRESET, PRESET, BitsOf(a), BitsOf(b));
    assert Xor(PRESET, PRESET) == ZERO;
  }

  /** Messages that differ by a burst of at most 16 bits have different CRCs. */
  lemma BurstChangesCrc(a: seq<Byte>, b: seq<Byte>, p: nat)
    requires |a| == |b| && IsBurst(Difference(BitsOf(a), BitsOf(b)), p)
    ensures Crc16Ccitt(a) != Crc16Ccitt(b)
  {
    CrcDifference(a, b);
    BurstRemainder(Difference(BitsOf(a), BitsOf(b)), p);
  }

  // ---------- errors of odd weight ----------

  function OddWeight(bits: seq<bool>): bool {
    if bits == [] then false else bits[0] != OddWeight(bits[1..])
  }

  function Parity(r: Register): bool {
    (((r[0] != r[1]) != (r[2] != r[3])) != ((r[4] != r[5]) != (r[6] != r[7])))
    != (((r[8] != r[9]) != (r[10] != r[11])) != ((r[12] != r[13]) != (r[14] != r[15])))
  }

  lemma ShiftKeepsParity(r: Register)
    ensures Parity(Shift(r)) == Parity(r)
  {
    var s := Shift(r);
    assert s[0] == r[15] && s[1] == r[0] && s[2] == r[1] && s[3] == r[2] && s[4] == r[3];
    assert s[5] == (r[4] != r[15]) && s[6] == r[5] && s[7] == r[6] && s[8] == r[7] && s[9] == r[8];
    assert s[10] == r[9] && s[11] == r[10] && s[12] == (r[11] != r[15]);
    assert s[13] == r[12] && s[14] == r[13] && s[15] == r[14];
  }

  lemma {:induction false} FeedAllParity(r: Register, bits: seq<bool>)
    ensures Parity(FeedAll(r, bits)) == (Parity(r) != OddWeight(bits))
    decreases |bits|
  {
    if bits != [] {
      ShiftKeepsParity(r[15 := r[15] != bits[0]]);
      FeedAllParity(Feed(r, bits[0]), bits[1..]);
    }
  }

  /** x + 1 divides the generator, so any odd number of differing bits changes the CRC. */
  lemma OddErrorsChangeCrc(a: seq<Byte>, b: seq<Byte>)
    requires |a| == |b| && OddWeight(Difference(BitsOf(a), BitsOf(b)))
    ensures Crc16Ccitt(a) != Crc16Ccitt(b)
  {
    CrcDifference(a, b);
    FeedAllParity(ZERO, Difference(BitsOf(a), BitsOf(b)));
  }

  // ---------- value on the wire ----------

  function High(r: Register): Byte {
    16 * Nibble(r[15], r[14], r[13], r[12]) + Nibble(r[11], r[10], r[9], r[8])
  }

  function Low(r: Register): Byte {
    16 * Nibble(r[7], r[6], r[5], r[4]) + Nibble(r[3], r[2], r[1], r[0])
  }

  function Nibble(b3: bool, b2: bool, b1: bool, b0: bool): (n: nat)
    ensures n < 16
  {
    (if b3 then 8 else 0) + (if b2 then 4 else 0) + (if b1 then 2 else 0) + (if b0 then 1 else 0)
  }

  lemma NibbleInjective(a: Register, b: Register, k: nat)
    requires k <= 12
    requires Nibble(a[k + 3], a[k + 2], a[k + 1], a[k]) == Nibble(b[k + 3], b[k + 2], b[k + 1], b[k])
    ensures a[k..k + 4] == b[k..k + 4]
  {}

  /** The two bytes determine the register. */
  lemma BytesDetermineRegister(a: Register, b: Register)
    requires High(a) == High(b) && Low(a) == Low(b)
    ensures a == b
  {
    NibbleInjective(a, b, 12);
    NibbleInjective(a, b, 8);
    NibbleInjective(a, b, 4);
    NibbleInjective(a, b, 0);
    assert a == a[0..4] + a[4..8] + a[8..12] + a[12..16];
    assert b == b[0..4] + b[4..8] + b[8..12] + b[12..16];
  }
}
