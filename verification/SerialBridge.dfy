/** The bridge node: the methods that mutate its receive buffer, telemetry and
    motor state, each proved against the functions of the other modules. */
module SerialBridge {
  import opened Common
  import opened Crc16
  import opened TelemetryFrame
  import TS = TelemetryStream
  import TC = TelemetryCounters
  import TM = TelemetryMeaning
  import MC = MotorCommand

  const MAX_BUFFER := 4096

  class Bridge {
    const config: MC.Config
    /** The monotonic time read while handling the n-th accepted frame. */
    const clock: nat -> real

    // receive path
    var rxBuffer: seq<Byte>
    var parseErrors: nat
    var lastTelemetry: real
    var maximumGap: real
    var gapOverruns: nat
    var previousSequence: Option<UInt32>
    var previousMcuMs: Option<UInt32>
    var maximumMcuGapMs: nat
    var missedFrames: nat
    var restarts: nat
    var diagnosticRequested: bool
    var mcuFlags: UInt16
    var mcuFault: UInt8
    var resetReason: UInt8
    var leftCount: Int32
    var rightCount: Int32
    var measuredLeft: real
    var measuredRight: real
    var temperature: real
    var imuAngularZ: real
    var telemetryCount: nat
    var telemetryRevision: nat
    var latest: Option<TC.Sample>

    // odometry
    var previousLeft: Option<int>
    var previousRight: Option<int>
    var encoderLeftDelta: int
    var encoderRightDelta: int

    // command path
    var requestedLinear: real
    var requestedAngular: real
    var lastCmd: real
    var motorsEnabled: bool
    var targetLeft: real
    var targetRight: real
    var driveBlocked: bool
    var blockedLeft: bool
    var blockedRight: bool
    var candidateStarted: seq<Option<real>>
    var blockedTarget: MC.Pair<real>
    var lastStall: real
    var commandSequence: nat
    /** Lines handed to the serial port, in order. */
    var written: seq<MC.Line>

    ghost predicate Valid()
      reads this
    {
      MC.ValidConfig(config) && |candidateStarted| == 2
    }

    function Arrival(): TC.Arrival
      reads this`lastTelemetry, this`maximumGap, this`gapOverruns
    {
      TC.Arrival(lastTelemetry, maximumGap, gapOverruns)
    }

    function Counters(): TC.Counters
      reads this`previousSequence, this`previousMcuMs, this`maximumMcuGapMs, this`missedFrames, this`restarts
    {
      TC.Counters(previousSequence, previousMcuMs, maximumMcuGapMs, missedFrames, restarts)
    }

    function Status(): TC.Status
      reads this`mcuFlags, this`mcuFault, this`resetReason, this`temperature, this`imuAngularZ
    {
      TC.Status(mcuFlags, mcuFault, resetReason, temperature, imuAngularZ)
    }

    function Wheels(): TC.Wheels
      reads this`leftCount, this`rightCount, this`measuredLeft, this`measuredRight
    {
      TC.Wheels(leftCount, rightCount, measuredLeft, measuredRight)
    }

    function Telemetry(): TC.Telemetry
      reads this
    {
      TC.Telemetry(parseErrors, Arrival(), Counters(), Status(), Wheels(), diagnosticRequested,
                   telemetryCount, telemetryRevision, latest)
    }

    function Motor(): MC.Motor
      requires |candidateStarted| == 2
      reads this
    {
      MC.Motor(requestedLinear, requestedAngular, lastCmd, motorsEnabled, MC.Pair(targetLeft, targetRight),
               driveBlocked, MC.Pair(blockedLeft, blockedRight), MC.Pair(candidateStarted[0], candidateStarted[1]),
               blockedTarget, lastStall, commandSequence)
    }

    function Reading(now: real): MC.Reading
      reads this
    {
      MC.Reading(now, lastTelemetry, mcuFault, MC.Pair(measuredLeft, measuredRight))
    }

    // ---------- receive path ----------

    method TrackArrival(receivedAt: real)
      modifies this`maximumGap, this`gapOverruns, this`lastTelemetry
      ensures Arrival() == TC.Arrived(old(Arrival()), receivedAt)
    {
      if lastTelemetry != 0.0 {
        var gap := receivedAt - lastTelemetry;
        maximumGap := Max(maximumGap, gap);
        if gap > 0.3 {
          gapOverruns := gapOverruns + 1;
        }
      }
      lastTelemetry := receivedAt;
    }

    method TrackCounters(values: Record)
      modifies this`restarts, this`diagnosticRequested, this`missedFrames, this`maximumMcuGapMs,
               this`previousSequence, this`previousMcuMs
      ensures Counters() == TC.Tracked(old(Counters()), values)
      ensures diagnosticRequested == (old(diagnosticRequested) || TC.Restarted(old(Counters()), values))
    {
      var restarted := previousSequence.Some? && previousMcuMs.Some?
        && values.sequence < previousSequence.value && values.mcuMs < previousMcuMs.value;
      if restarted {
        restarts := restarts + 1;
        diagnosticRequested := true;
      } else {
        if previousSequence.Some? {
          var delta := (values.sequence - previousSequence.value) % TWO_32;
          if delta > 1 {
            missedFrames := missedFrames + (delta - 1);
          }
        }
        if previousMcuMs.Some? {
          var gapMs := (values.mcuMs - previousMcuMs.value) % TWO_32;
          if gapMs > maximumMcuGapMs {
            maximumMcuGapMs := gapMs;
          }
        }
      }
      previousSequence := Some(values.sequence);
      previousMcuMs := Some(values.mcuMs);
    }

    method StoreStatus(values: Record)
      modifies this`mcuFlags, this`mcuFault, this`resetReason, this`temperature, this`imuAngularZ,
               this`diagnosticRequested
      ensures Status() == TC.StatusOf(values)
      ensures diagnosticRequested == (old(diagnosticRequested) || values.fault != old(mcuFault))
    {
      imuAngularZ := values.gyroZ as real / 100.0 * TC.PI / 180.0;
      temperature := values.temperature as real / 100.0;
      var previousMcuFault := mcuFault;
      mcuFlags := values.flags;
      mcuFault := values.fault;
      resetReason := values.resetReason;
      if mcuFault != previousMcuFault {
        diagnosticRequested := true;
      }
    }

    method StoreReadings(values: Record)
      modifies this`leftCount, this`rightCount, this`measuredLeft, this`measuredRight
      ensures Wheels() == TC.WheelsOf(values)
    {
      leftCount, rightCount := values.leftCount, values.rightCount;
      measuredLeft := values.leftRpm as real / 100.0;
      measuredRight := values.rightRpm as real / 100.0;
    }

    method StoreSample(values: Record)
      modifies this`telemetryCount, this`telemetryRevision, this`latest
      ensures telemetryCount == old(telemetryCount) + 1 && telemetryRevision == old(telemetryRevision) + 1
      ensures latest == Some(TC.SampleOf(telemetryCount, values))
    {
      telemetryCount := telemetryCount + 1;
      telemetryRevision := telemetryRevision + 1;
      latest := Some(TC.SampleOf(telemetryCount, values));
    }

    method StoreValues(values: Record)
      modifies this`mcuFlags, this`mcuFault, this`resetReason, this`temperature, this`imuAngularZ,
               this`diagnosticRequested, this`leftCount, this`rightCount, this`measuredLeft, this`measuredRight,
               this`telemetryCount, this`telemetryRevision, this`latest
      ensures Status() == TC.StatusOf(values) && Wheels() == TC.WheelsOf(values)
      ensures diagnosticRequested == (old(diagnosticRequested) || values.fault != old(mcuFault))
      ensures telemetryCount == old(telemetryCount) + 1 && telemetryRevision == old(telemetryRevision) + 1
      ensures latest == Some(TC.SampleOf(telemetryCount, values))
    {
      StoreStatus(values);
      StoreReadings(values);
      StoreSample(values);
    }

    method TrackLink(receivedAt: real, values: Record)
      modifies this`lastTelemetry, this`maximumGap, this`gapOverruns, this`previousSequence, this`previousMcuMs,
               this`maximumMcuGapMs, this`missedFrames, this`restarts, this`diagnosticRequested
      ensures Arrival() == TC.Arrived(old(Arrival()), receivedAt)
      ensures Counters() == TC.Tracked(old(Counters()), values)
      ensures diagnosticRequested == (old(diagnosticRequested) || TC.Restarted(old(Counters()), values))
    {
      TrackArrival(receivedAt);
      TrackCounters(values);
    }

    /** The part of the handler that runs once a frame is unpacked and its version accepted. */
    method AcceptRecord(values: Record)
      modifies this`parseErrors, this`lastTelemetry, this`maximumGap, this`gapOverruns, this`previousSequence,
               this`previousMcuMs, this`maximumMcuGapMs, this`missedFrames, this`restarts, this`diagnosticRequested,
               this`mcuFlags, this`mcuFault, this`resetReason, this`leftCount, this`rightCount, this`measuredLeft,
               this`measuredRight, this`temperature, this`imuAngularZ, this`telemetryCount, this`telemetryRevision,
               this`latest
      ensures Arrival() == TC.Arrived(old(Arrival()), clock(old(telemetryCount)))
      ensures Counters() == TC.Tracked(old(Counters()), values) && parseErrors == old(parseErrors)
      ensures Status() == TC.StatusOf(values) && Wheels() == TC.WheelsOf(values)
      ensures diagnosticRequested ==
              (old(diagnosticRequested) || TC.Restarted(old(Counters()), values) || values.fault != old(mcuFault))
      ensures telemetryCount == old(telemetryCount) + 1 && telemetryRevision == old(telemetryRevision) + 1
      ensures latest == Some(TC.SampleOf(telemetryCount, values))
    {
      TrackLink(clock(telemetryCount), values);
      StoreValues(values);
    }

    method HandleTelemetryFrame(frame: seq<Byte>)
      modifies this`parseErrors, this`lastTelemetry, this`maximumGap, this`gapOverruns, this`previousSequence,
               this`previousMcuMs, this`maximumMcuGapMs, this`missedFrames, this`restarts, this`diagnosticRequested,
               this`mcuFlags, this`mcuFault, this`resetReason, this`leftCount, this`rightCount, this`measuredLeft,
               this`measuredRight, this`temperature, this`imuAngularZ, this`telemetryCount, this`telemetryRevision,
               this`latest
      ensures Telemetry() == TC.Received(old(Telemetry()), frame, clock(old(telemetryCount)))
      ensures TM.Readable(frame) ==>
        && leftCount == TM.S32(frame, 12) && measuredLeft == TM.S16(frame, 20) as real / 100.0
        && rightCount == TM.S32(frame, 16) && measuredRight == TM.S16(frame, 22) as real / 100.0
        && temperature == TM.S16(frame, 36) as real / 100.0
        && mcuFlags == TM.U16(frame, 38) && mcuFault == frame[40] && resetReason == frame[41]
        && previousSequence == Some(TM.U32(frame, 4)) && previousMcuMs == Some(TM.U32(frame, 8))
        && lastTelemetry == clock(old(telemetryCount))
    {
      TM.FrameMeans(Telemetry(), frame, clock(telemetryCount));
      TM.RemembersCounters(Telemetry(), frame, clock(telemetryCount));
      if |frame| != LENGTH {
        parseErrors := parseErrors + 1;
        return;
      }
      if Unsigned16(frame[0..2]) != 0xA55A || frame[2] != VERSION {
        parseErrors := parseErrors + 1;
        return;
      }
      AcceptRecord(Unpack(frame));
    }

    /** Account for one complete frame taken off the buffer. */
    method TakeFrame(frame: seq<Byte>)
      modifies this`parseErrors, this`lastTelemetry, this`maximumGap, this`gapOverruns, this`previousSequence,
               this`previousMcuMs, this`maximumMcuGapMs, this`missedFrames, this`restarts, this`diagnosticRequested,
               this`mcuFlags, this`mcuFault, this`resetReason, this`leftCount, this`rightCount, this`measuredLeft,
               this`measuredRight, this`temperature, this`imuAngularZ, this`telemetryCount, this`telemetryRevision,
               this`latest
      requires |frame| == LENGTH
      ensures Telemetry() == TC.AfterOne(old(Telemetry()), TS.Verdict(TS.CrcTest, frame), clock)
    {
      if !StoredCrcMatches(frame) {
        parseErrors := parseErrors + 1;
      } else {
        HandleTelemetryFrame(frame);
      }
    }

    /** Drop what stands in front of the first magic bytes; is the length byte behind them there? */
    method AlignBuffer() returns (aligned: bool)
      requires |rxBuffer| >= 4
      modifies this`rxBuffer
      ensures |rxBuffer| <= |old(rxBuffer)|
      ensures !aligned ==> rxBuffer == TS.Residue(old(rxBuffer)) && TS.Scan(TS.CrcTest, old(rxBuffer)) == []
      ensures aligned ==> |rxBuffer| >= 4 && TS.MagicAt(rxBuffer, 0)
      ensures aligned ==> TS.Scan(TS.CrcTest, rxBuffer) == TS.Scan(TS.CrcTest, old(rxBuffer))
      ensures aligned ==> TS.ResidueAtMagic(rxBuffer) == TS.Residue(old(rxBuffer))
    {
      var start := TS.FindMagic(rxBuffer);
      if start < 0 {
        TS.ScanSkips(TS.CrcTest, rxBuffer, |rxBuffer|);
        TS.ShortScan(TS.CrcTest, rxBuffer[|rxBuffer|..]);
        rxBuffer := if rxBuffer[|rxBuffer| - 1] == MAGIC_0 then [MAGIC_0] else [];
        return false;
      }
      TS.ScanSkips(TS.CrcTest, rxBuffer, start);
      TS.ResidueFromMagic(rxBuffer);
      rxBuffer := rxBuffer[start..];
      if |rxBuffer| < 4 {
        TS.ShortScan(TS.CrcTest, rxBuffer);
        return false;
      }
      return true;
    }

    /** Take what the magic bytes at the front announce: skip a wrong length, or account for a complete
        frame; an incomplete frame stays. */
    method TakeFirst() returns (taken: bool)
      requires |rxBuffer| >= 4 && TS.MagicAt(rxBuffer, 0)
      modifies this`rxBuffer, this`parseErrors, this`lastTelemetry, this`maximumGap, this`gapOverruns,
               this`previousSequence, this`previousMcuMs, this`maximumMcuGapMs, this`missedFrames, this`restarts,
               this`diagnosticRequested, this`mcuFlags, this`mcuFault, this`resetReason, this`leftCount,
               this`rightCount, this`measuredLeft, this`measuredRight, this`temperature, this`imuAngularZ,
               this`telemetryCount, this`telemetryRevision, this`latest
      ensures taken ==> |rxBuffer| < |old(rxBuffer)| && TS.Residue(rxBuffer) == TS.ResidueAtMagic(old(rxBuffer))
      ensures taken ==>
        (TC.After(Telemetry(), TS.Scan(TS.CrcTest, rxBuffer), clock)
         == TC.After(old(Telemetry()), TS.Scan(TS.CrcTest, old(rxBuffer)), clock))
      ensures !taken ==> unchanged(this) && TS.Scan(TS.CrcTest, rxBuffer) == []
      ensures !taken ==> TS.ResidueAtMagic(rxBuffer) == rxBuffer
    {
      var length := rxBuffer[3];
      if length != LENGTH {
        TS.FirstLengthError(TS.CrcTest, rxBuffer);
        rxBuffer := rxBuffer[1..];
        parseErrors := parseErrors + 1;
        return true;
      }
      if |rxBuffer| < length {
        TS.PendingFrame(TS.CrcTest, rxBuffer);
        return false;
      }
      var frame := rxBuffer[..length];
      TS.FirstFrame(TS.CrcTest, rxBuffer);
      rxBuffer := rxBuffer[length..];
      TakeFrame(frame);
      return true;
    }

    method ExtractTelemetryFrames()
      modifies this`rxBuffer, this`parseErrors, this`lastTelemetry, this`maximumGap, this`gapOverruns,
               this`previousSequence, this`previousMcuMs, this`maximumMcuGapMs, this`missedFrames, this`restarts,
               this`diagnosticRequested, this`mcuFlags, this`mcuFault, this`resetReason, this`leftCount,
               this`rightCount, this`measuredLeft, this`measuredRight, this`temperature, this`imuAngularZ,
               this`telemetryCount, this`telemetryRevision, this`latest
      ensures rxBuffer == TS.Residue(old(rxBuffer))
      ensures Telemetry() == TC.After(old(Telemetry()), TS.Scan(TS.CrcTest, old(rxBuffer)), clock)
    {
      while |rxBuffer| >= 4
        invariant TS.Residue(rxBuffer) == TS.Residue(old(rxBuffer))
        invariant TC.After(Telemetry(), TS.Scan(TS.CrcTest, rxBuffer), clock)
               == TC.After(old(Telemetry()), TS.Scan(TS.CrcTest, old(rxBuffer)), clock)
        decreases |rxBuffer|
      {
        var aligned := AlignBuffer();
        if !aligned {
          return;
        }
        var taken := TakeFirst();
        if !taken {
          return;
        }
      }
      TS.ShortScan(TS.CrcTest, rxBuffer);
    }

    /** The overflow guard of the reader thread. */
    method DropOverflow()
      modifies this`rxBuffer, this`parseErrors
      ensures |old(rxBuffer)| > MAX_BUFFER ==> rxBuffer == [] && parseErrors == old(parseErrors) + 1
      ensures |old(rxBuffer)| <= MAX_BUFFER ==> rxBuffer == old(rxBuffer) && parseErrors == old(parseErrors)
    {
      if |rxBuffer| > MAX_BUFFER {
        rxBuffer := [];
        parseErrors := parseErrors + 1;
      }
    }

    /** One pass of the reader thread.  Less than a frame stays buffered, so the overflow guard
        never counts an error. */
    method OnReadable(data: seq<Byte>)
      modifies this`rxBuffer, this`parseErrors, this`lastTelemetry, this`maximumGap, this`gapOverruns,
               this`previousSequence, this`previousMcuMs, this`maximumMcuGapMs, this`missedFrames, this`restarts,
               this`diagnosticRequested, this`mcuFlags, this`mcuFault, this`resetReason, this`leftCount,
               this`rightCount, this`measuredLeft, this`measuredRight, this`temperature, this`imuAngularZ,
               this`telemetryCount, this`telemetryRevision, this`latest
      ensures rxBuffer == TS.Residue(old(rxBuffer) + data) && |rxBuffer| < LENGTH
      ensures Telemetry() == TC.After(old(Telemetry()), TS.Scan(TS.CrcTest, old(rxBuffer) + data), clock)
    {
      rxBuffer := rxBuffer + data;
      ExtractTelemetryFrames();
      DropOverflow();
    }

    /** The reader thread over one connection: its effect on the telemetry state depends only on
        the bytes received, not on how the reads cut them. */
    method SerialReaderLoop(chunks: seq<seq<Byte>>)
      requires rxBuffer == []
      modifies this`rxBuffer, this`parseErrors, this`lastTelemetry, this`maximumGap, this`gapOverruns,
               this`previousSequence, this`previousMcuMs, this`maximumMcuGapMs, this`missedFrames, this`restarts,
               this`diagnosticRequested, this`mcuFlags, this`mcuFault, this`resetReason, this`leftCount,
               this`rightCount, this`measuredLeft, this`measuredRight, this`temperature, this`imuAngularZ,
               this`telemetryCount, this`telemetryRevision, this`latest
      ensures |rxBuffer| < LENGTH
      ensures Telemetry() == TC.After(old(Telemetry()), TS.Scan(TS.CrcTest, Concat(chunks)), clock)
    {
      ghost var all := TS.Read(TS.CrcTest, rxBuffer, chunks).events;
      TS.ChunkInvariance(TS.CrcTest, rxBuffer, chunks);
      assert [] + Concat(chunks) == Concat(chunks);
      var i := 0;
      while i < |chunks|
        invariant 0 <= i <= |chunks| && |rxBuffer| < LENGTH
        invariant TC.After(Telemetry(), TS.Read(TS.CrcTest, rxBuffer, chunks[i..]).events, clock)
               == TC.After(old(Telemetry()), all, clock)
      {
        ghost var filled := rxBuffer + chunks[i];
        ghost var later := TS.Read(TS.CrcTest, TS.Residue(filled), chunks[i + 1..]).events;
        assert chunks[i..][1..] == chunks[i + 1..];
        TC.AfterConcat(Telemetry(), TS.Scan(TS.CrcTest, filled), later, clock);
        OnReadable(chunks[i]);
        i := i + 1;
      }
    }

    // ---------- odometry ----------

    /** The first report only sets the baseline; later ones publish the wrapped steps. */
    method PublishOdometry(left: int, right: int)
      modifies this`previousLeft, this`previousRight, this`encoderLeftDelta, this`encoderRightDelta
      requires previousLeft.Some? <==> previousRight.Some?
      ensures previousLeft == Some(left) && previousRight == Some(right)
      ensures old(previousLeft).Some? ==>
        && encoderLeftDelta == TC.WrappedInt32Delta(left, old(previousLeft).value)
        && encoderRightDelta == TC.WrappedInt32Delta(right, old(previousRight).value)
      ensures old(previousLeft).None? ==>
        encoderLeftDelta == old(encoderLeftDelta) && encoderRightDelta == old(encoderRightDelta)
    {
      if previousLeft.None? {
        previousLeft, previousRight := Some(left), Some(right);
        return;
      }
      encoderLeftDelta := TC.WrappedInt32Delta(left, previousLeft.value);
      encoderRightDelta := TC.WrappedInt32Delta(right, previousRight.value);
      previousLeft, previousRight := Some(left), Some(right);
    }

    // ---------- command path ----------

    method WriteLine(line: MC.Line)
      modifies this`written
      ensures written == old(written) + [line]
    {
      written := written + [line];
    }

    method CmdCallback(linear: real, angular: real, now: real)
      requires Valid()
      modifies this`requestedLinear, this`requestedAngular, this`lastCmd
      ensures Valid() && Motor() == MC.Step(config, old(Motor()), MC.Velocity(linear, angular, now)).motor
      ensures requestedLinear == linear && requestedAngular == angular && lastCmd == now
    {
      requestedLinear, requestedAngular := linear, angular;
      lastCmd := now;
    }

    method ClearDriveBlocked()
      requires Valid()
      modifies this`driveBlocked, this`blockedLeft, this`blockedRight, this`candidateStarted, this`blockedTarget
      ensures Valid() && Motor() == MC.ClearBlocked(old(Motor()))
    {
      driveBlocked, blockedLeft, blockedRight := false, false, false;
      candidateStarted := [None, None];
      blockedTarget := MC.Pair(0.0, 0.0);
    }

    /** What both services begin with. */
    method Halt()
      requires Valid()
      modifies this`requestedLinear, this`requestedAngular, this`lastCmd, this`driveBlocked, this`blockedLeft,
               this`blockedRight, this`candidateStarted, this`blockedTarget, this`written
      ensures Valid() && Motor() == MC.Halted(old(Motor())) && written == old(written) + [MC.Stop]
    {
      requestedLinear, requestedAngular, lastCmd := 0.0, 0.0, 0.0;
      ClearDriveBlocked();
      WriteLine(MC.Stop);
    }

    method ClearMotorFault()
      requires Valid()
      modifies this`requestedLinear, this`requestedAngular, this`lastCmd, this`driveBlocked, this`blockedLeft,
               this`blockedRight, this`candidateStarted, this`blockedTarget, this`written
      ensures Valid()
      ensures var result := MC.Step(config, old(Motor()), MC.ClearFault);
        Motor() == result.motor && written == old(written) + result.lines
      ensures requestedLinear == requestedAngular == lastCmd == 0.0 && !driveBlocked
      ensures written == old(written) + [MC.Stop, MC.Clear]
    {
      Halt();
      WriteLine(MC.Clear);
    }

    method SetMotorsEnabled(data: bool, now: real, connected: bool) returns (success: bool)
      requires Valid()
      modifies this`requestedLinear, this`requestedAngular, this`lastCmd, this`driveBlocked, this`blockedLeft,
               this`blockedRight, this`candidateStarted, this`blockedTarget, this`motorsEnabled, this`written
      ensures Valid()
      ensures var result := MC.Step(config, old(Motor()), MC.SetMotors(data, now, connected, lastTelemetry, mcuFault));
        Motor() == result.motor && written == old(written) + result.lines
      ensures success <==> motorsEnabled == data
      ensures motorsEnabled <==>
              data && connected && lastTelemetry != 0.0 && now - lastTelemetry <= 0.3 && mcuFault == 0
      ensures requestedLinear == requestedAngular == lastCmd == 0.0 && !driveBlocked
      ensures written == old(written) + [MC.Stop]
    {
      Halt();
      if !data {
        motorsEnabled := false;
        return true;
      }
      var stale := lastTelemetry == 0.0 || now - lastTelemetry > 0.3;
      if !connected || stale || mcuFault != 0 {
        motorsEnabled := false;
        return false;
      }
      motorsEnabled := true;
      return true;
    }

    /** Start, keep or drop each wheel's stall candidate; which of them have stalled? */
    method TrackCandidates(now: real, targets: seq<real>, measured: seq<real>) returns (stalled: seq<bool>)
      requires Valid() && |targets| == 2 && |measured| == 2
      modifies this`candidateStarted
      ensures |candidateStarted| == 2 && |stalled| == 2
      ensures forall k :: 0 <= k < 2 ==>
        && candidateStarted[k] == MC.NextCandidate(config, old(candidateStarted)[k], targets[k], measured[k], now)
        && stalled[k] == MC.Stalled(config, old(candidateStarted)[k], targets[k], measured[k], now)
    {
      stalled := [false, false];
      var index := 0;
      while index < 2
        invariant 0 <= index <= 2 && |stalled| == 2 && |candidateStarted| == 2
        invariant forall k :: 0 <= k < index ==>
          && candidateStarted[k] == MC.NextCandidate(config, old(candidateStarted)[k], targets[k], measured[k], now)
          && stalled[k] == MC.Stalled(config, old(candidateStarted)[k], targets[k], measured[k], now)
        invariant forall k :: index <= k < 2 ==> candidateStarted[k] == old(candidateStarted)[k] && !stalled[k]
        modifies this`candidateStarted
      {
        var target, actual := targets[index], measured[index];
        if Abs(target) < config.guardMinTarget || Abs(actual) > config.guardMaxMeasured {
          candidateStarted := candidateStarted[index := None];
        } else if candidateStarted[index].None? {
          candidateStarted := candidateStarted[index := Some(now)];
        } else {
          var age := now - candidateStarted[index].value;
          stalled := stalled[index := Abs(target) >= config.guardMinTarget
                                      && Abs(actual) <= config.guardMaxMeasured && age >= config.guardTimeout];
        }
        index := index + 1;
      }
    }

    method UpdateStallGuard(now: real, left: real, right: real)
      requires Valid()
      modifies this`candidateStarted, this`driveBlocked, this`blockedLeft, this`blockedRight, this`blockedTarget,
               this`lastStall
      ensures Valid()
      ensures Motor() == MC.Guard(config, old(Motor()), now, MC.Pair(left, right), MC.Pair(measuredLeft, measuredRight))
    {
      if !config.guardEnabled {
        candidateStarted := [None, None];
        return;
      }
      var stalled := TrackCandidates(now, [left, right], [measuredLeft, measuredRight]);
      if !(stalled[0] || stalled[1]) {
        return;
      }
      LatchStall(now, MC.Pair(stalled[0], stalled[1]), MC.Pair(left, right));
    }

    method LatchStall(now: real, sides: MC.Pair<bool>, target: MC.Pair<real>)
      requires Valid()
      modifies this`driveBlocked, this`blockedLeft, this`blockedRight, this`blockedTarget, this`lastStall
      ensures Motor() ==
              old(Motor()).(blocked := true, blockedSides := sides, blockedTarget := target, lastStall := now)
    {
      driveBlocked := true;
      blockedLeft, blockedRight := sides.left, sides.right;
      blockedTarget := target;
      lastStall := now;
    }

    method RequestedWheels(now: real) returns (left: real, right: real)
      requires Valid()
      ensures MC.Pair(left, right) == MC.Wanted(config, Motor(), Reading(now))
    {
      left, right := 0.0, 0.0;
      var recent := now - lastCmd <= config.cmdTimeout;
      if motorsEnabled && recent {
        var wheels := MC.Limit(config.maxRpm, MC.Ideal(config, requestedLinear, requestedAngular));
        if Abs(requestedAngular) <= 0.03 {
          wheels := MC.TrimStraight(wheels, MC.Pair(measuredLeft, measuredRight), config.trimGain, config.trimMaxRpm);
          wheels := MC.Limit(config.maxRpm, wheels);
        }
        left, right := wheels.left, wheels.right;
      }
    }

    /** A latched drive is released by a stopped or reversed wish. */
    method PassLatch(left: real, right: real) returns (passed: bool)
      requires Valid()
      modifies this`driveBlocked, this`blockedLeft, this`blockedRight, this`candidateStarted, this`blockedTarget
      ensures Valid() && passed == (!old(driveBlocked) || MC.Releases(old(Motor()), MC.Pair(left, right)))
      ensures Motor() == if old(driveBlocked) && passed then MC.ClearBlocked(old(Motor())) else old(Motor())
    {
      if !driveBlocked {
        return true;
      }
      var reversed := blockedTarget.left * left < 0.0 || blockedTarget.right * right < 0.0;
      var stopped := Max(Abs(left), Abs(right)) < 0.5;
      if stopped || reversed {
        ClearDriveBlocked();
        return true;
      }
      return false;
    }

    method CommandTick(now: real)
      requires Valid()
      modifies this`targetLeft, this`targetRight, this`candidateStarted, this`driveBlocked, this`blockedLeft,
               this`blockedRight, this`blockedTarget, this`lastStall, this`commandSequence, this`written
      ensures Valid()
      ensures var result := MC.Tick(config, old(Motor()), Reading(now));
        Motor() == result.motor && written == old(written) + result.lines
      ensures !(now - lastTelemetry < 0.3 && mcuFault == 0) ==>
                written == old(written) + [MC.Stop]
    {
      var healthy := now - lastTelemetry < 0.3 && mcuFault == 0;
      if !healthy {
        StopWith(0.0, 0.0);
        return;
      }
      var left, right := RequestedWheels(now);
      var passed := PassLatch(left, right);
      if !passed {
        StopWith(left, right);
        return;
      }
      SendTargets(now, left, right);
    }

    method StopWith(left: real, right: real)
      requires Valid()
      modifies this`targetLeft, this`targetRight, this`written
      ensures Motor() == old(Motor()).(target := MC.Pair(left, right)) && written == old(written) + [MC.Stop]
    {
      targetLeft, targetRight := left, right;
      WriteLine(MC.Stop);
    }

    /** The tail of the tick: evaluate the stall guard and write STOP or the wheel targets. */
    method SendTargets(now: real, left: real, right: real)
      requires Valid()
      modifies this`targetLeft, this`targetRight, this`candidateStarted, this`driveBlocked, this`blockedLeft,
               this`blockedRight, this`blockedTarget, this`lastStall, this`commandSequence, this`written
      ensures Valid()
      ensures var result := MC.Proceed(config, old(Motor()), Reading(now), MC.Pair(left, right));
        Motor() == result.motor && written == old(written) + result.lines
    {
      targetLeft, targetRight := left, right;
      UpdateStallGuard(now, left, right);
      if driveBlocked {
        WriteLine(MC.Stop);
        return;
      }
      SendCommand(left, right);
    }

    method SendCommand(left: real, right: real)
      requires Valid()
      modifies this`commandSequence, this`written
      ensures Motor() == old(Motor()).(sequence := (old(commandSequence) + 1) % TWO_32)
      ensures written == old(written) + [MC.Command(old(commandSequence), left, right)]
    {
      WriteLine(MC.Command(commandSequence, left, right));
      commandSequence := (commandSequence + 1) % TWO_32;
    }
  }
}
