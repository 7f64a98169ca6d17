/** The 44-byte telemetry frame of the ESP32 link: '<HBBIIiihhhhhhhhhHBBH'. */
module TelemetryFrame {
  import opened Common
  import opened Crc16

  const LENGTH := 44
  const MAGIC_0: Byte := 0x5A
  const MAGIC_1: Byte := 0xA5
  const VERSION: Byte := 1

  // ---------- little-endian integers ----------

  function Power256(n: nat): (p: nat)
    ensures p > 0
  {
    if n == 0 then 1 else 256 * Power256(n - 1)
  }

  lemma Power256Values()
    ensures Power256(1) == 0x100 && Power256(2) == 0x1_0000 && Power256(4) == 0x1_0000_0000
  {
    assert Power256(3) == 0x100_0000;
  }

  function PutUnsigned(v: nat, n: nat): (bytes: seq<Byte>)
    ensures |bytes| == n
  {
    if n == 0 then [] else [v % 256] + PutUnsigned(v / 256, n - 1)
  }

  function GetUnsigned(bytes: seq<Byte>): nat {
    if bytes == [] then 0 else bytes[0] + 256 * GetUnsigned(bytes[1..])
  }

  lemma {:induction false} UnsignedBound(bytes: seq<Byte>)
    ensures GetUnsigned(bytes) < Power256(|bytes|)
  {
    if bytes != [] {
      UnsignedBound(bytes[1..]);
    }
  }

  /** Two's complement of width 8 * n. */
  function PutSigned(v: int, n: nat): (bytes: seq<Byte>)
    ensures |bytes| == n
  {
    PutUnsigned(v % Power256(n), n)
  }

  function GetSigned(bytes: seq<Byte>): int {
    var u := GetUnsigned(bytes);
    if 2 * u < Power256(|bytes|) then u else u - Power256(|bytes|)
  }

  lemma {:induction false} UnsignedRoundTrip(v: nat, n: nat)
    requires v < Power256(n)
    ensures GetUnsigned(PutUnsigned(v, n)) == v
  {
    if n > 0 {
      UnsignedRoundTrip(v / 256, n - 1);
      assert PutUnsigned(v, n)[1..] == PutUnsigned(v / 256, n - 1);
    }
  }

  lemma SignedRoundTrip(v: int, n: nat)
    requires -(Power256(n) as int) <= 2 * v < Power256(n)
    ensures GetSigned(PutSigned(v, n)) == v
  {
    var p := Power256(n);
    var u := v % p;
    assert u == if v >= 0 then v else v + p by {
      ModSmall(v, p);
    }
    UnsignedRoundTrip(u, n);
  }

  lemma ModSmall(v: int, p: int)
    requires p > 0 && -p <= v < p
    ensures v % p == if v >= 0 then v else v + p
  {}

  // ---------- records ----------

  type UInt8 = x: int | 0 <= x < 0x100
  type UInt16 = x: int | 0 <= x < 0x1_0000
  type Int16 = x: int | -0x8000 <= x < 0x8000
  type Int32 = x: int | -0x8000_0000 <= x < 0x8000_0000

  datatype Record = Record(
    sequence: UInt32,
    mcuMs: UInt32,
    leftCount: Int32,
    rightCount: Int32,
    leftRpm: Int16,
    rightRpm: Int16,
    accelX: Int16,
    accelY: Int16,
    accelZ: Int16,
    gyroX: Int16,
    gyroY: Int16,
    gyroZ: Int16,
    temperature: Int16,
    flags: UInt16,
    fault: UInt8,
    resetReason: UInt8)

  /** The four 32-bit fields. */
  function WideBytes(r: Record): (bytes: seq<Byte>)
    ensures |bytes| == 16
  {
    PutUnsigned(r.sequence, 4) + PutUnsigned(r.mcuMs, 4) + PutSigned(r.leftCount, 4) + PutSigned(r.rightCount, 4)
  }

  /** The first five and the last five 16-bit fields. */
  function MotionBytes(r: Record): (bytes: seq<Byte>)
    ensures |bytes| == 10
  {
    PutSigned(r.leftRpm, 2) + PutSigned(r.rightRpm, 2)
    + PutSigned(r.accelX, 2) + PutSigned(r.accelY, 2) + PutSigned(r.accelZ, 2)
  }

  function TurnBytes(r: Record): (bytes: seq<Byte>)
    ensures |bytes| == 10
  {
    PutSigned(r.gyroX, 2) + PutSigned(r.gyroY, 2) + PutSigned(r.gyroZ, 2)
    + PutSigned(r.temperature, 2) + PutUnsigned(r.flags, 2)
  }

  /** Everything after the four header bytes and before the CRC. */
  function Fields(r: Record): (bytes: seq<Byte>)
    ensures |bytes| == 38
  {
    WideBytes(r) + MotionBytes(r) + TurnBytes(r) + [r.fault, r.resetReason]
  }

  function Signed16(b: seq<Byte>): Int16
    requires |b| == 2
  {
    UnsignedBound(b);
    Power256Values();
    GetSigned(b)
  }

  function Signed32(b: seq<Byte>): Int32
    requires |b| == 4
  {
    UnsignedBound(b);
    Power256Values();
    GetSigned(b)
  }

  function Unsigned32(b: seq<Byte>): UInt32
    requires |b| == 4
  {
    UnsignedBound(b);
    Power256Values();
    GetUnsigned(b)
  }

  function Unsigned16(b: seq<Byte>): UInt16
    requires |b| == 2
  {
    UnsignedBound(b);
    Power256Values();
    GetUnsigned(b)
  }

  /** struct.unpack on a 44-byte frame. */
  function Unpack(f: seq<Byte>): Record
    requires |f| == LENGTH
  {
    Record(Unsigned32(f[4..8]), Unsigned32(f[8..12]), Signed32(f[12..16]), Signed32(f[16..20]),
           Signed16(f[20..22]), Signed16(f[22..24]), Signed16(f[24..26]), Signed16(f[26..28]),
           Signed16(f[28..30]), Signed16(f[30..32]), Signed16(f[32..34]), Signed16(f[34..36]),
           Signed16(f[36..38]), Unsigned16(f[38..40]), f[40], f[41])
  }

  function StoredCrcMatches(f: seq<Byte>): bool
    requires |f| == LENGTH
  {
    var crc := Crc16Ccitt(f[..42]);
    f[42] == Low(crc) && f[43] == High(crc)
  }

  function Sealed(body: seq<Byte>): (f: seq<Byte>)
    requires |body| == 42
    ensures |f| == LENGTH && f[..42] == body && StoredCrcMatches(f)
  {
    var crc := Crc16Ccitt(body);
    var f := body + [Low(crc), High(crc)];
    assert f[..42] == body;
    f
  }

  /** The frame the firmware sends for a record. */
  function Pack(r: Record): (f: seq<Byte>)
    ensures IsFrame(f) && f[2] == VERSION
  {
    Sealed([MAGIC_0, MAGIC_1, VERSION, LENGTH] + Fields(r))
  }

  predicate IsFrame(f: seq<Byte>) {
    |f| == LENGTH && f[0] == MAGIC_0 && f[1] == MAGIC_1 && f[3] == LENGTH && StoredCrcMatches(f)
  }

  /** Packing and unpacking returns every field, signed ones included. */
  lemma PackUnpack(r: Record)
    ensures Unpack(Pack(r)) == r
  {
    var f := Pack(r);
    BodyParts(
      f, [MAGIC_0, MAGIC_1, VERSION, LENGTH], WideBytes(r), MotionBytes(r), TurnBytes(r), [r.fault, r.resetReason]);
    WideFields(r, f);
    MotionFields(r, f);
    TurnFields(r, f);
    assert f[40] == f[40..42][0] && f[41] == f[40..42][1];
  }

  lemma BodyParts(
      f: seq<Byte>, head: seq<Byte>, wide: seq<Byte>, motion: seq<Byte>, turn: seq<Byte>, last: seq<Byte>)
    requires |f| == LENGTH && |head| == 4 && |wide| == 16 && |motion| == 10 && |turn| == 10 && |last| == 2
    requires f[..42] == head + (wide + motion + turn + last)
    ensures f[4..20] == wide && f[20..30] == motion && f[30..40] == turn && f[40..42] == last
  {
    var body := head + (wide + motion + turn + last);
    assert body[4..20] == wide && body[20..30] == motion && body[30..40] == turn && body[40..42] == last;
    assert f[..42][4..20] == f[4..20] && f[..42][20..30] == f[20..30];
    assert f[..42][30..40] == f[30..40] && f[..42][40..42] == f[40..42];
  }

  lemma Part(f: seq<Byte>, i: nat, j: nat, from: nat, to: nat)
    requires i <= j <= |f| && from <= to <= j - i
    ensures f[i..j][from..to] == f[i + from..i + to]
  {
    var x, y := f[i..j][from..to], f[i + from..i + to];
    forall k | 0 <= k < to - from
      ensures x[k] == y[k]
    {
      assert x[k] == f[i..j][from + k] == f[i + from + k];
    }
  }

  lemma WideFields(r: Record, f: seq<Byte>)
    requires |f| == LENGTH && f[4..20] == WideBytes(r)
    ensures Unsigned32(f[4..8]) == r.sequence && Unsigned32(f[8..12]) == r.mcuMs
    ensures Signed32(f[12..16]) == r.leftCount && Signed32(f[16..20]) == r.rightCount
  {
    FourParts(
      PutUnsigned(r.sequence, 4), PutUnsigned(r.mcuMs, 4), PutSigned(r.leftCount, 4), PutSigned(r.rightCount, 4));
    Part(f, 4, 20, 0, 4);
    Part(f, 4, 20, 4, 8);
    Part(f, 4, 20, 8, 12);
    Part(f, 4, 20, 12, 16);
    Power256Values();
    UnsignedRoundTrip(r.sequence, 4);
    UnsignedRoundTrip(r.mcuMs, 4);
    SignedRoundTrip(r.leftCount, 4);
    SignedRoundTrip(r.rightCount, 4);
  }

  lemma FourParts(a: seq<Byte>, b: seq<Byte>, c: seq<Byte>, d: seq<Byte>)
    requires |a| == |b| == |c| == |d| == 4
    ensures var s := a + b + c + d;
      s[0..4] == a && s[4..8] == b && s[8..12] == c && s[12..16] == d
  {}

  lemma FiveParts(a: seq<Byte>, b: seq<Byte>, c: seq<Byte>, d: seq<Byte>, e: seq<Byte>)
    requires |a| == |b| == |c| == |d| == |e| == 2
    ensures var s := a + b + c + d + e;
      s[0..2] == a && s[2..4] == b && s[4..6] == c && s[6..8] == d && s[8..10] == e
  {}

  lemma FivePairs(f: seq<Byte>, i: nat)
    requires i + 10 <= |f|
    ensures f[i..i + 10][0..2] == f[i..i + 2] && f[i..i + 10][2..4] == f[i + 2..i + 4]
    ensures f[i..i + 10][4..6] == f[i + 4..i + 6] && f[i..i + 10][6..8] == f[i + 6..i + 8]
    ensures f[i..i + 10][8..10] == f[i + 8..i + 10]
  {
    Part(f, i, i + 10, 0, 2);
    Part(f, i, i + 10, 2, 4);
    Part(f, i, i + 10, 4, 6);
    Part(f, i, i + 10, 6, 8);
    Part(f, i, i + 10, 8, 10);
  }

  lemma Signed16RoundTrip(v: Int16)
    ensures Signed16(PutSigned(v, 2)) == v
  {
    Power256Values();
    SignedRoundTrip(v, 2);
  }

  lemma MotionFields(r: Record, f: seq<Byte>)
    requires |f| == LENGTH && f[20..30] == MotionBytes(r)
    ensures Signed16(f[20..22]) == r.leftRpm && Signed16(f[22..24]) == r.rightRpm
    ensures Signed16(f[24..26]) == r.accelX && Signed16(f[26..28]) == r.accelY && Signed16(f[28..30]) == r.accelZ
  {
    FiveParts(PutSigned(r.leftRpm, 2), PutSigned(r.rightRpm, 2),
              PutSigned(r.accelX, 2), PutSigned(r.accelY, 2), PutSigned(r.accelZ, 2));
    FivePairs(f, 20);
    Signed16RoundTrip(r.leftRpm);
    Signed16RoundTrip(r.rightRpm);
    Signed16RoundTrip(r.accelX);
    Signed16RoundTrip(r.accelY);
    Signed16RoundTrip(r.accelZ);
  }

  lemma TurnFields(r: Record, f: seq<Byte>)
    requires |f| == LENGTH && f[30..40] == TurnBytes(r)
    ensures Signed16(f[30..32]) == r.gyroX && Signed16(f[32..34]) == r.gyroY && Signed16(f[34..36]) == r.gyroZ
    ensures Signed16(f[36..38]) == r.temperature && Unsigned16(f[38..40]) == r.flags
  {
    FiveParts(PutSigned(r.gyroX, 2), PutSigned(r.gyroY, 2), PutSigned(r.gyroZ, 2),
              PutSigned(r.temperature, 2), PutUnsigned(r.flags, 2));
    FivePairs(f, 30);
    Signed16RoundTrip(r.gyroX);
    Signed16RoundTrip(r.gyroY);
    Signed16RoundTrip(r.gyroZ);
    Signed16RoundTrip(r.temperature);
    Power256Values();
    UnsignedRoundTrip(r.flags, 2);
  }

  /** A frame whose payload suffers a burst of at most 16 bits fails its CRC test. */
  lemma DamagedPayloadIsRejected(f: seq<Byte>, g: seq<Byte>, p: nat)
    requires IsFrame(f) && |g| == LENGTH && g[42..] == f[42..]
    requires IsBurst(Difference(BitsOf(f[..42]), BitsOf(g[..42])), p)
    ensures !StoredCrcMatches(g)
  {
    BurstChangesCrc(f[..42], g[..42], p);
    var a, b := Crc16Ccitt(f[..42]), Crc16Ccitt(g[..42]);
    assert g[42] == g[42..][0] == f[42..][0] == f[42];
    assert g[43] == g[42..][1] == f[42..][1] == f[43];
    if StoredCrcMatches(g) {
      BytesDetermineRegister(a, b);
    }
  }
}
