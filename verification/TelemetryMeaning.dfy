/** What one telemetry frame does to the bridge's state, in the bytes of the frame: the little-endian
    value at each offset, its unit, and what the gaps and counters make of it
    (amr_base_driver/serial_bridge.py, lines 546-620). */
module TelemetryMeaning {
  import opened Common
  import opened TelemetryFrame
  import opened TelemetryCounters

  // ---------- little-endian values at an offset ----------

  function U16(f: seq<Byte>, i: nat): nat
    requires i + 2 <= |f|
  {
    f[i] as int + 256 * (f[i + 1] as int)
  }

  function U32(f: seq<Byte>, i: nat): nat
    requires i + 4 <= |f|
  {
    U16(f, i) + 65536 * U16(f, i + 2)
  }

  function S16(f: seq<Byte>, i: nat): int
    requires i + 2 <= |f|
  {
    if f[i + 1] < 128 then U16(f, i) else U16(f, i) - 65536
  }

  function S32(f: seq<Byte>, i: nat): int
    requires i + 4 <= |f|
  {
    if f[i + 3] < 128 then U32(f, i) else U32(f, i) - 4294967296
  }

  lemma TwoBytes(f: seq<Byte>, i: nat)
    requires i + 2 <= |f|
    ensures Unsigned16(f[i..i + 2]) == U16(f, i) && Signed16(f[i..i + 2]) == S16(f, i)
  {
    var b := f[i..i + 2];
    assert b[1..] == [f[i + 1]] && b[1..][1..] == [];
    assert GetUnsigned([f[i + 1]]) == f[i + 1] + 256 * GetUnsigned([]);
    Power256Values();
  }

  lemma FourBytes(f: seq<Byte>, i: nat)
    requires i + 4 <= |f|
    ensures Unsigned32(f[i..i + 4]) == U32(f, i) && Signed32(f[i..i + 4]) == S32(f, i)
  {
    var b := f[i..i + 4];
    TwoBytes(f, i + 2);
    assert b[1..][1..] == f[i + 2..i + 4];
    assert b[0] == f[i] && b[1..][0] == f[i + 1];
    assert GetUnsigned(b[1..]) == f[i + 1] + 256 * GetUnsigned(f[i + 2..i + 4]);
    Power256Values();
  }

  // ---------- what the fields of a frame say ----------

  /** Sequence number, MCU time and wheel counts. */
  lemma WideValues(f: seq<Byte>)
    requires |f| == LENGTH
    ensures var r := Unpack(f);
      && r.sequence == U32(f, 4) && r.mcuMs == U32(f, 8)
      && r.leftCount == S32(f, 12) && r.rightCount == S32(f, 16)
  {
    FourBytes(f, 4);
    FourBytes(f, 8);
    FourBytes(f, 12);
    FourBytes(f, 16);
  }

  lemma MotionValues(f: seq<Byte>)
    requires |f| == LENGTH
    ensures var r := Unpack(f);
      && r.leftRpm == S16(f, 20) && r.rightRpm == S16(f, 22)
      && r.accelX == S16(f, 24) && r.accelY == S16(f, 26) && r.accelZ == S16(f, 28)
  {
    TwoBytes(f, 20);
    TwoBytes(f, 22);
    TwoBytes(f, 24);
    TwoBytes(f, 26);
    TwoBytes(f, 28);
  }

  lemma TurnValues(f: seq<Byte>)
    requires |f| == LENGTH
    ensures var r := Unpack(f);
      && r.gyroX == S16(f, 30) && r.gyroY == S16(f, 32) && r.gyroZ == S16(f, 34)
      && r.temperature == S16(f, 36) && r.flags == U16(f, 38) && r.fault == f[40] && r.resetReason == f[41]
  {
    TwoBytes(f, 30);
    TwoBytes(f, 32);
    TwoBytes(f, 34);
    TwoBytes(f, 36);
    TwoBytes(f, 38);
  }

  // ---------- what a frame stores ----------

  /** 44 bytes that begin with the magic number and version 1. */
  predicate Readable(f: seq<Byte>) {
    |f| == 44 && f[0] == 0x5A && f[1] == 0xA5 && f[2] == 1
  }

  lemma ReadableIsAccepted(f: seq<Byte>)
    ensures Readable(f) <==> |f| == LENGTH && VersionAccepted(f)
  {
    if |f| == LENGTH {
      TwoBytes(f, 0);
    }
  }

  /** Wheel counts as they are, wheel speeds in hundredths of a revolution per minute. */
  predicate WheelsShow(f: seq<Byte>, w: Wheels)
    requires |f| == 44
  {
    && w.leftCount == S32(f, 12) && w.rightCount == S32(f, 16)
    && w.leftRpm == S16(f, 20) as real / 100.0 && w.rightRpm == S16(f, 22) as real / 100.0
  }

  /** Temperature in hundredths of a degree, and the turn rate about z in radians per second. */
  predicate StatusShows(f: seq<Byte>, s: Status)
    requires |f| == 44
  {
    && s.flags == U16(f, 38) && s.fault == f[40] && s.resetReason == f[41]
    && s.temperature == S16(f, 36) as real / 100.0
    && s.angularRate == S16(f, 34) as real / 100.0 * PI / 180.0
  }

  /** Accelerations in thousandths of g, turn rates in hundredths of a degree per second. */
  predicate SampleShows(f: seq<Byte>, s: Sample)
    requires |f| == 44
  {
    && s.mcuMs == U32(f, 8) && s.leftCount == S32(f, 12) && s.rightCount == S32(f, 16)
    && s.leftRpm == S16(f, 20) as real / 100.0 && s.rightRpm == S16(f, 22) as real / 100.0
    && |s.accel| == 3 && |s.gyro| == 3
    && s.accel[0] == S16(f, 24) as real / 1000.0 && s.accel[1] == S16(f, 26) as real / 1000.0
    && s.accel[2] == S16(f, 28) as real / 1000.0
    && s.gyro[0] == S16(f, 30) as real / 100.0 && s.gyro[1] == S16(f, 32) as real / 100.0
    && s.gyro[2] == S16(f, 34) as real / 100.0
  }

  lemma StoredValues(f: seq<Byte>, count: nat)
    requires |f| == LENGTH
    ensures WheelsShow(f, WheelsOf(Unpack(f))) && StatusShows(f, StatusOf(Unpack(f)))
    ensures SampleShows(f, SampleOf(count, Unpack(f)))
  {
    WideValues(f);
    MotionValues(f);
    TurnValues(f);
  }

  /** Every frame with the right length, magic number and version stores the little-endian value at
      each offset, in its unit; every other one adds one parse error and changes nothing. */
  lemma FrameMeans(t: Telemetry, f: seq<Byte>, now: real)
    ensures var u := Received(t, f, now);
      if Readable(f) then
        && WheelsShow(f, u.wheels) && StatusShows(f, u.status)
        && u.latest.Some? && SampleShows(f, u.latest.value) && u.latest.value.count == u.count
        && u.count == t.count + 1 && u.revision == t.revision + 1 && u.parseErrors == t.parseErrors
      else u == t.(parseErrors := t.parseErrors + 1)
  {
    ReadableIsAccepted(f);
    if Readable(f) {
      StoredValues(f, t.count + 1);
    }
  }

  // ---------- gaps and counters ----------

  /** Both counters of the MCU ran backwards. */
  predicate RanBack(t: Telemetry, f: seq<Byte>)
    requires |f| == 44
  {
    && t.counters.previousSequence.Some? && U32(f, 4) < t.counters.previousSequence.value
    && t.counters.previousMcuMs.Some? && U32(f, 8) < t.counters.previousMcuMs.value
  }

  /** From one 32-bit count to a later one it is d steps forward. */
  predicate Forward(before: Option<UInt32>, d: nat, after: nat) {
    before.Some? ==> d < 0x1_0000_0000 && (before.value + d) % 0x1_0000_0000 == after
  }

  lemma ForwardIs(before: UInt32, d: nat, after: UInt32)
    requires d < 0x1_0000_0000 && (before + d) % 0x1_0000_0000 == after
    ensures (after - before) % 0x1_0000_0000 == d
  {}

  lemma RemembersCounters(t: Telemetry, f: seq<Byte>, now: real)
    ensures var u := Received(t, f, now);
      Readable(f) ==>
      && u.counters.previousSequence == Some(U32(f, 4)) && u.counters.previousMcuMs == Some(U32(f, 8))
      && u.arrival.last == now
  {
    ReadableIsAccepted(f);
    if Readable(f) {
      WideValues(f);
    }
  }

  /** The arrival time is kept; a gap since the last frame widens the widest gap, and is counted as an
      overrun exactly when it is over 0.3 s. A diagnosis is asked for when the counters ran back or
      the fault code changed. */
  lemma ArrivalMeans(t: Telemetry, f: seq<Byte>, now: real)
    requires Readable(f)
    ensures var u, gap := Received(t, f, now), now - t.arrival.last;
      && u.arrival.last == now
      && (t.arrival.last == 0.0 ==>
            u.arrival.maximumGap == t.arrival.maximumGap && u.arrival.overruns == t.arrival.overruns)
      && (t.arrival.last != 0.0 ==>
            && u.arrival.maximumGap >= gap && u.arrival.maximumGap >= t.arrival.maximumGap
            && u.arrival.maximumGap in {gap, t.arrival.maximumGap}
            && u.arrival.overruns == t.arrival.overruns + if gap > 0.3 then 1 else 0)
      && (u.diagnosticRequested <==> t.diagnosticRequested || RanBack(t, f) || f[40] != t.status.fault)
  {
    ReadableIsAccepted(f);
    WideValues(f);
  }

  /** The frame's counters are remembered. When both ran back a restart is counted and nothing else;
      otherwise, d frames and e milliseconds on from the last frame, d - 1 frames were missed, and e
      widens the widest gap. */
  lemma CountersMean(t: Telemetry, f: seq<Byte>, now: real, d: nat, e: nat)
    requires Readable(f)
    requires Forward(t.counters.previousSequence, d, U32(f, 4)) && Forward(t.counters.previousMcuMs, e, U32(f, 8))
    ensures var c, u := t.counters, Received(t, f, now).counters;
      && u.previousSequence == Some(U32(f, 4)) && u.previousMcuMs == Some(U32(f, 8))
      && u.restarts == c.restarts + (if RanBack(t, f) then 1 else 0)
      && u.missedFrames ==
         c.missedFrames + (if c.previousSequence.Some? && !RanBack(t, f) && d > 1 then d - 1 else 0)
      && u.maximumMcuGapMs ==
         if c.previousMcuMs.Some? && !RanBack(t, f) && e > c.maximumMcuGapMs then e else c.maximumMcuGapMs
  {
    ReadableIsAccepted(f);
    WideValues(f);
    if t.counters.previousSequence.Some? {
      ForwardIs(t.counters.previousSequence.value, d, U32(f, 4));
    }
    if t.counters.previousMcuMs.Some? {
      ForwardIs(t.counters.previousMcuMs.value, e, U32(f, 8));
    }
  }
}
