/** What one handled frame does to the bridge's telemetry state, and what the
    wrapping 32-bit counters add up to over a whole run. */
module TelemetryCounters {
  import opened Common
  import opened Crc16
  import opened TelemetryFrame
  import opened TelemetryStream

  const TWO_31 := 0x8000_0000

  /** math.pi, exactly. */
  const PI := 3.141592653589793115997963468544185161590576171875

  datatype Sample = Sample(
    count: nat, mcuMs: UInt32, leftCount: Int32, rightCount: Int32,
    leftRpm: real, rightRpm: real, accel: seq<real>, gyro: seq<real>)

  /** When frames arrived: the last time, the widest gap, and how many gaps were too wide. */
  datatype Arrival = Arrival(last: real, maximumGap: real, overruns: nat)

  /** The MCU's own counters as last seen, and what they have shown. */
  datatype Counters = Counters(
    previousSequence: Option<UInt32>, previousMcuMs: Option<UInt32>,
    maximumMcuGapMs: nat, missedFrames: nat, restarts: nat)

  datatype Status = Status(flags: UInt16, fault: UInt8, resetReason: UInt8, temperature: real, angularRate: real)

  datatype Wheels = Wheels(leftCount: Int32, rightCount: Int32, leftRpm: real, rightRpm: real)

  datatype Telemetry = Telemetry(
    parseErrors: nat,
    arrival: Arrival,
    counters: Counters,
    status: Status,
    wheels: Wheels,
    diagnosticRequested: bool,
    count: nat,
    revision: nat,
    latest: Option<Sample>)

  // ---------- one frame ----------

  predicate VersionAccepted(f: seq<Byte>)
    requires |f| == LENGTH
  {
    Unsigned16(f[0..2]) == 0xA55A && f[2] == VERSION
  }

  /** Both MCU counters ran backwards. */
  predicate Restarted(c: Counters, r: Record) {
    && c.previousSequence.Some? && c.previousMcuMs.Some?
    && r.sequence < c.previousSequence.value && r.mcuMs < c.previousMcuMs.value
  }

  function SequenceGap(c: Counters, r: Record): nat {
    if c.previousSequence.None? then 0
    else
      var delta := (r.sequence - c.previousSequence.value) % TWO_32;
      if delta == 0 then 0 else delta - 1
  }

  function McuGap(c: Counters, r: Record): nat {
    if c.previousMcuMs.None? then 0 else (r.mcuMs - c.previousMcuMs.value) % TWO_32
  }

  function Arrived(a: Arrival, now: real): Arrival {
    var gap := now - a.last;
    var seen := a.last != 0.0;
    Arrival(now, if seen then Max(a.maximumGap, gap) else a.maximumGap,
            if seen && gap > 0.3 then a.overruns + 1 else a.overruns)
  }

  /** A frame's counters continue those of the frame before, or show a restart. */
  function Tracked(c: Counters, r: Record): Counters {
    if Restarted(c, r) then Counters(Some(r.sequence), Some(r.mcuMs), c.maximumMcuGapMs, c.missedFrames, c.restarts + 1)
    else
      Counters(Some(r.sequence), Some(r.mcuMs),
               if McuGap(c, r) > c.maximumMcuGapMs then McuGap(c, r) else c.maximumMcuGapMs,
               c.missedFrames + SequenceGap(c, r), c.restarts)
  }

  /** The gyro's z axis in radians per second. */
  function AngularRate(r: Record): real {
    r.gyroZ as real / 100.0 * PI / 180.0
  }

  function StatusOf(r: Record): Status {
    Status(r.flags, r.fault, r.resetReason, r.temperature as real / 100.0, AngularRate(r))
  }

  function WheelsOf(r: Record): Wheels {
    Wheels(r.leftCount, r.rightCount, r.leftRpm as real / 100.0, r.rightRpm as real / 100.0)
  }

  function SampleOf(count: nat, r: Record): Sample {
    Sample(count, r.mcuMs, r.leftCount, r.rightCount, r.leftRpm as real / 100.0, r.rightRpm as real / 100.0,
           [r.accelX as real / 1000.0, r.accelY as real / 1000.0, r.accelZ as real / 1000.0],
           [r.gyroX as real / 100.0, r.gyroY as real / 100.0, r.gyroZ as real / 100.0])
  }

  /** A restart or a new fault code asks for a diagnosis. */
  function Accepted(t: Telemetry, r: Record, now: real): Telemetry {
    Telemetry(t.parseErrors, Arrived(t.arrival, now), Tracked(t.counters, r), StatusOf(r), WheelsOf(r),
              t.diagnosticRequested || Restarted(t.counters, r) || r.fault != t.status.fault,
              t.count + 1, t.revision + 1, Some(SampleOf(t.count + 1, r)))
  }

  function Received(t: Telemetry, f: seq<Byte>, now: real): Telemetry {
    if |f| == LENGTH && VersionAccepted(f) then Accepted(t, Unpack(f), now)
    else t.(parseErrors := t.parseErrors + 1)
  }

  // ---------- a stream of events; clock(n) is the time read for the n-th accepted frame ----------

  function AfterOne(t: Telemetry, e: Event, clock: nat -> real): Telemetry {
    if e.Handled? then Received(t, e.frame, clock(t.count)) else t.(parseErrors := t.parseErrors + 1)
  }

  function After(t: Telemetry, events: seq<Event>, clock: nat -> real): Telemetry
    decreases |events|
  {
    if events == [] then t else After(AfterOne(t, events[0], clock), events[1..], clock)
  }

  lemma {:induction false} AfterConcat(t: Telemetry, a: seq<Event>, b: seq<Event>, clock: nat -> real)
    ensures After(t, a + b, clock) == After(After(t, a, clock), b, clock)
    decreases |a|
  {
    if a == [] {
      assert a + b == b;
    } else {
      assert (a + b)[1..] == a[1..] + b;
      AfterConcat(AfterOne(t, a[0], clock), a[1..], b, clock);
    }
  }

  /** Every event is either one counted parse error or one accepted frame, never both. */
  lemma {:induction false} ErrorsAndFramesAddUp(t: Telemetry, events: seq<Event>, clock: nat -> real)
    ensures var u := After(t, events, clock);
      u.parseErrors + u.count == t.parseErrors + t.count + |events|
    decreases |events|
  {
    if events != [] {
      ErrorsAndFramesAddUp(AfterOne(t, events[0], clock), events[1..], clock);
    }
  }

  // ---------- missed frames ----------

  function AfterRecords(t: Telemetry, records: seq<Record>, clock: nat -> real): Telemetry
    decreases |records|
  {
    if records == [] then t
    else AfterRecords(Accepted(t, records[0], clock(t.count)), records[1..], clock)
  }

  /** The 32-bit sequence numbers seen for the MCU's true frame numbers. */
  ghost predicate SeenAs(records: seq<Record>, truth: seq<int>) {
    && |records| == |truth|
    && forall i :: 0 <= i < |truth| ==> records[i].sequence == truth[i] % TWO_32
  }

  ghost predicate Advancing(truth: seq<int>) {
    forall i :: 0 <= i < |truth| - 1 ==> 0 < truth[i + 1] - truth[i] < TWO_32
  }

  ghost predicate NoRestartSeen(records: seq<Record>) {
    forall i :: 0 <= i < |records| - 1 ==>
      !(records[i + 1].sequence < records[i].sequence && records[i + 1].mcuMs < records[i].mcuMs)
  }

  lemma WrappedStep(a: int, b: int)
    requires 0 <= b - a < TWO_32
    ensures (b % TWO_32 - a % TWO_32) % TWO_32 == b - a
  {}

  /** Conservation: in a run without a restart, frames received minus one plus frames counted
      as missed is exactly the span of the true frame numbers, across counter wrap. */
  lemma MissedFramesConserved(t: Telemetry, records: seq<Record>, truth: seq<int>, clock: nat -> real)
    requires t.counters.previousSequence.None?
    requires records != [] && SeenAs(records, truth) && Advancing(truth) && NoRestartSeen(records)
    ensures var u := AfterRecords(t, records, clock);
      && u.count - t.count == |records|
      && (u.count - t.count - 1) + (u.counters.missedFrames - t.counters.missedFrames) == truth[|truth| - 1] - truth[0]
      && u.counters.restarts == t.counters.restarts
  {
    var t' := Accepted(t, records[0], clock(t.count));
    MissedFromSecond(t', records, truth, clock);
  }

  lemma {:induction false} MissedFromSecond(t: Telemetry, records: seq<Record>, truth: seq<int>, clock: nat -> real)
    requires records != [] && SeenAs(records, truth) && Advancing(truth) && NoRestartSeen(records)
    requires t.counters.previousSequence == Some(records[0].sequence)
    requires t.counters.previousMcuMs == Some(records[0].mcuMs)
    ensures var u := AfterRecords(t, records[1..], clock);
      && u.count - t.count == |records| - 1
      && (u.count - t.count) + (u.counters.missedFrames - t.counters.missedFrames) == truth[|truth| - 1] - truth[0]
      && u.counters.restarts == t.counters.restarts
    decreases |records|
  {
    if |records| > 1 {
      WrappedStep(truth[0], truth[1]);
      var r := records[1];
      assert !Restarted(t.counters, r);
      var t' := Accepted(t, r, clock(t.count));
      assert t'.counters.missedFrames - t.counters.missedFrames == truth[1] - truth[0] - 1;
      MissedFromSecond(t', records[1..], truth[1..], clock);
      assert AfterRecords(t, records[1..], clock) == AfterRecords(t', records[1..][1..], clock);
    }
  }

  // ---------- from bytes to counters ----------

  lemma FrameIsAccepted(f: seq<Byte>)
    requires IsFrame(f) && f[2] == VERSION
    ensures |f| == LENGTH && VersionAccepted(f)
  {
    assert f[0..2] == [0x5A, 0xA5];
    assert [0x5A, 0xA5][1..] == [0xA5] && [0xA5][1..] == [];
    assert GetUnsigned([0xA5]) == 0xA5;
  }

  lemma {:induction false} HandledAsRecords(t: Telemetry, events: seq<Event>, clock: nat -> real)
    requires forall e :: e in events ==> e.Handled? && |e.frame| == LENGTH && VersionAccepted(e.frame)
    ensures After(t, events, clock) == AfterRecords(t, Records(events), clock)
    ensures After(t, events, clock).parseErrors == t.parseErrors
    decreases |events|
  {
    if events != [] {
      var u := AfterOne(t, events[0], clock);
      assert u == Accepted(t, Unpack(events[0].frame), clock(t.count)) && u.parseErrors == t.parseErrors;
      HandledAsRecords(u, events[1..], clock);
    }
  }

  /** The count of parse errors has no say in anything else. */
  lemma {:induction false} ErrorsStayApart(t: Telemetry, n: nat, records: seq<Record>, clock: nat -> real)
    ensures AfterRecords(t.(parseErrors := n), records, clock) == AfterRecords(t, records, clock).(parseErrors := n)
    decreases |records|
  {
    if records != [] {
      ErrorsStayApart(Accepted(t, records[0], clock(t.count)), n, records[1..], clock);
    }
  }

  function CrcErrors(events: seq<Event>): nat {
    if events == [] then 0 else (if events[0].CrcError? then 1 else 0) + CrcErrors(events[1..])
  }

  /** A frame of the accepted version, or a damaged one. */
  predicate Clean(e: Event) {
    e.CrcError? || (e.Handled? && |e.frame| == LENGTH && VersionAccepted(e.frame))
  }

  lemma {:induction false} DamageOnlyCounts(t: Telemetry, events: seq<Event>, clock: nat -> real)
    requires forall e :: e in events ==> Clean(e)
    ensures forall e :: e in events && e.Handled? ==> |e.frame| == LENGTH
    ensures After(t, events, clock) ==
            AfterRecords(t, Records(events), clock).(parseErrors := t.parseErrors + CrcErrors(events))
    decreases |events|
  {
    if events == [] {
      ErrorsStayApart(t, t.parseErrors, [], clock);
    } else {
      assert Clean(events[0]);
      DamageOnlyCounts(AfterOne(t, events[0], clock), events[1..], clock);
      OneEvent(t, events[0], Records(events[1..]), t.parseErrors + CrcErrors(events), clock);
      FirstRecord(events);
    }
  }

  lemma FirstRecord(events: seq<Event>)
    requires events != [] && forall e :: e in events && e.Handled? ==> |e.frame| == LENGTH
    ensures Records(events) ==
            (if events[0].Handled? then [Unpack(events[0].frame)] else []) + Records(events[1..])
  {}

  lemma OneEvent(t: Telemetry, e: Event, records: seq<Record>, n: nat, clock: nat -> real)
    requires Clean(e)
    ensures AfterOne(t, e, clock).parseErrors == t.parseErrors + (if e.CrcError? then 1 else 0)
    ensures AfterRecords(AfterOne(t, e, clock), records, clock).(parseErrors := n) ==
            AfterRecords(t, (if e.Handled? then [Unpack(e.frame)] else []) + records, clock).(parseErrors := n)
  {
    if e.CrcError? {
      ErrorsStayApart(t, t.parseErrors + 1, records, clock);
      assert [] + records == records;
    } else {
      assert ([Unpack(e.frame)] + records)[1..] == records;
    }
  }

  function Damages(segments: seq<Segment>): nat {
    if segments == [] then 0 else (if segments[0].packet.Damaged? then 1 else 0) + Damages(segments[1..])
  }

  lemma {:induction false} ExpectedErrors(segments: seq<Segment>)
    ensures CrcErrors(Expected(segments)) == Damages(segments)
  {
    if segments != [] {
      ExpectedErrors(segments[1..]);
    }
  }

  /** The intact packets carry the version that the handler accepts. */
  ghost predicate CurrentVersion(segments: seq<Segment>) {
    forall k :: 0 <= k < |segments| && segments[k].packet.Intact? ==>
      |segments[k].packet.bytes| == LENGTH && segments[k].packet.bytes[2] == VERSION
  }

  lemma ExpectedIsClean(segments: seq<Segment>)
    requires ValidSegments(segments) && CurrentVersion(segments)
    ensures forall e :: e in Expected(segments) ==> Clean(e)
  {
    forall k | 0 <= k < |segments|
      ensures Clean(Expected(segments)[k])
    {
      if segments[k].packet.Intact? {
        FrameIsAccepted(segments[k].packet.bytes);
      }
    }
  }

  /** Corruption isolation, seen by the handler: packets in noise, read in any chunks, do to the
      telemetry state what handling the intact ones in order does, and each damaged one adds one
      parse error and changes nothing else. */
  lemma DamageOnTheWire(
      t: Telemetry, segments: seq<Segment>, tail: seq<Byte>, chunks: seq<seq<Byte>>, clock: nat -> real)
    requires ValidSegments(segments) && CurrentVersion(segments) && IsNoise(tail)
    requires Concat(chunks) == Wire(segments, tail)
    ensures forall e :: e in Expected(segments) && e.Handled? ==> |e.frame| == LENGTH
    ensures After(t, Read(CrcTest, [], chunks).events, clock) ==
            AfterRecords(t, Records(Expected(segments)), clock).(parseErrors := t.parseErrors + Damages(segments))
  {
    WireMeaning(segments, tail);
    ChunkInvariance(CrcTest, [], chunks);
    assert [] + Concat(chunks) == Concat(chunks);
    ExpectedIsClean(segments);
    ExpectedErrors(segments);
    DamageOnlyCounts(t, Expected(segments), clock);
  }

  /** Records packed into frames, buried in noise and read in any chunks do to the telemetry state what
      handling those records in order does, and no parse error is counted. */
  lemma RoundTripTelemetry(
      t: Telemetry, noises: seq<seq<Byte>>, tail: seq<Byte>, records: seq<Record>, chunks: seq<seq<Byte>>,
      clock: nat -> real)
    requires |noises| == |records|
    requires (forall k :: 0 <= k < |noises| ==> IsNoise(noises[k])) && IsNoise(tail)
    requires Concat(chunks) == Wire(Transmission(noises, records), tail)
    ensures var u := After(t, Read(CrcTest, [], chunks).events, clock);
      u == AfterRecords(t, records, clock) && u.parseErrors == t.parseErrors
  {
    var events := Read(CrcTest, [], chunks).events;
    RoundTrip(noises, tail, records, chunks);
    forall e | e in events
      ensures e.Handled? && |e.frame| == LENGTH && VersionAccepted(e.frame)
    {
      FrameIsAccepted(e.frame);
    }
    HandledAsRecords(t, events, clock);
  }

  /** The missed-frame count of the bytes read: received minus one plus missed is the true span. */
  lemma MissedFramesOnTheWire(
      t: Telemetry, noises: seq<seq<Byte>>, tail: seq<Byte>, records: seq<Record>, chunks: seq<seq<Byte>>,
      truth: seq<int>, clock: nat -> real)
    requires |noises| == |records| && t.counters.previousSequence.None?
    requires (forall k :: 0 <= k < |noises| ==> IsNoise(noises[k])) && IsNoise(tail)
    requires Concat(chunks) == Wire(Transmission(noises, records), tail)
    requires records != [] && SeenAs(records, truth) && Advancing(truth) && NoRestartSeen(records)
    ensures var u := After(t, Read(CrcTest, [], chunks).events, clock);
      && (u.count - t.count - 1) + (u.counters.missedFrames - t.counters.missedFrames) == truth[|truth| - 1] - truth[0]
      && u.counters.restarts == t.counters.restarts
  {
    RoundTripTelemetry(t, noises, tail, records, chunks, clock);
    MissedFramesConserved(t, records, truth, clock);
  }

  // ---------- encoder displacement ----------

  function WrappedInt32Delta(current: int, previous: int): int {
    var delta := (current - previous) % TWO_32;
    if delta >= TWO_31 then delta - TWO_32 else delta
  }

  /** The signed 32-bit count shown for a true encoder position. */
  function Wrap32(x: int): Int32 {
    var u := x % TWO_32;
    if u >= TWO_31 then u - TWO_32 else u
  }

  /** The delta recovers the true step exactly when the step fits in 32 signed bits. */
  lemma DeltaExact(before: int, now: int)
    ensures WrappedInt32Delta(Wrap32(now), Wrap32(before)) == now - before <==> -TWO_31 <= now - before < TWO_31
  {
    Wrap32Congruent(now);
    Wrap32Congruent(before);
  }

  lemma Wrap32Congruent(x: int)
    ensures (Wrap32(x) - x) % TWO_32 == 0
  {
    var q := x / TWO_32;
    assert x % TWO_32 - x == -q * TWO_32;
  }

  function DeltaSum(counts: seq<int>): int {
    if |counts| < 2 then 0 else WrappedInt32Delta(counts[1], counts[0]) + DeltaSum(counts[1..])
  }

  /** Conservation: the published deltas of a run sum to the true displacement. */
  lemma {:induction false} DisplacementConserved(counts: seq<int>, truth: seq<int>)
    requires |counts| == |truth| > 0
    requires forall i :: 0 <= i < |truth| ==> counts[i] == Wrap32(truth[i])
    requires forall i :: 0 <= i < |truth| - 1 ==> -TWO_31 <= truth[i + 1] - truth[i] < TWO_31
    ensures DeltaSum(counts) == truth[|truth| - 1] - truth[0]
    decreases |truth|
  {
    if |truth| > 1 {
      DeltaExact(truth[0], truth[1]);
      DisplacementConserved(counts[1..], truth[1..]);
    }
  }
}
