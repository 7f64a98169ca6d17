# Verified model of the indoor delivery robot's control core

This project models the parts of the robot software in which a wrong step moves the base, loses telemetry
or leaves two programs commanding the same subsystem, and proves what those parts promise.
`dafny verify dfyconfig.toml` checks everything.

| file | what it models |
|---|---|
| `Crc16.dfy`, `Crc16Reference.dfy` | the frame check sequence of section 4.1.6.2 of CCSDS 132.0-B, bit by bit |
| `TelemetryFrame.dfy` | the 44-byte little-endian telemetry record |
| `TelemetryStream.dfy` | the resynchronising parser: reference scan, residue, corruption isolation, round trip |
| `TelemetryPlaces.dfy` | where in the bytes of a stream its events lie |
| `TelemetryResidue.dfy` | what stays in the receive buffer, for every way of cutting a stream into reads |
| `TelemetryCounters.dfy`, `TelemetryMeaning.dfy` | counters and wrapping 32-bit arithmetic over whole runs; what a frame stores, byte by byte |
| `MotorCommand.dfy`, `MotorMeaning.dfy` | wheel targets, trim, the latching stall guard and the command tick over whole runs; each tick in numbers |
| `SerialBridge.dfy` | the bridge object that mutates buffer, telemetry and motor state |
| `CmdVelPassthrough.dfy` | lease-based ownership of the velocity command and the published stream |
| `DriveSupervisor.dfy`, `DriveHeading.dfy`, `DriveMeaning.dfy` | the caster reversal sequence with slew limits, its angular channel, and what each tick of a run does with its inputs |
| `DirectionMonitor.dfy` | the firmware's wrong-direction monitor on a wrapping millisecond clock |
| `GuardedReverse.dfy`, `ClearanceMeaning.dfy` | clustered scan clearances and the sampled straight sweep, also in numbers of the scan |
| `CameraStream.dfy`, `CameraSpans.dfy` | cutting an MJPEG stream into frames (markers of section B.1.1.3 of ITU-T T.81) |
| `CameraWindow.dfy`, `CameraMeaning.dfy` | the acknowledged sending window of a camera connection, and its state told by its history |
| `LifecycleInterlock.dfy` | the advisory lease with its polling wait |
| `RuntimeContract.dfy`, `ActivationGate.dfy`, `GateMeaning.dfy` | the gate that starts navigation and validates it; what its runs mean, told by the replies it got |
| `MappingSession.dfy`, `MappingRuntime.dfy` | a mapping session: its actions, what every history conserves, the object |
| `MappingLosses.dfy` | histories in which a manager that was active is left paused for good |
| `LifecycleProtocol.dfy` | gate and mapping session interleaved over marker, lock and navigation manager |

Objects that update their fields are classes; each method is proved against a function of the old state, and the
properties of runs are proved about those functions. The files named `...Meaning` and `TelemetryPlaces.dfy` say what
those functions do without naming them: in bytes, numbers, inputs and histories. Times, speeds and distances are reals;
counters are unbounded integers with the wrap written out. What the outside world answers is a parameter or, for
lifecycle calls, nondeterministic and recorded in a log.

Three places where a stronger claim is false, each with an input that shows it and the exact condition that holds:

- Two ways of cutting the same bytes into reads can leave different residual buffers
  (`TelemetryResidue.ResidueDependsOnReads`), because bytes that cannot start a frame are dropped only when four bytes
  are present. With t the bytes behind the last event of the stream, two such cuts exist if and only if at some place j
  of t, four bytes or more into it, a drop would keep more than what is pending in the end and yet fewer than four bytes
  (`TelemetryResidue.CutsDisagree`; the condition is a predicate that can be evaluated on t). The buffers that a stream
  can leave are given exactly in `TelemetryResidue.ReachableBuffers`. The pending bytes
  (`TelemetryResidue.PendingInvariance`), the frames, the errors and their order (`TelemetryStream.ChunkInvariance`)
  never differ.
- A mapping session does not always give back what it found active. Started over a failed restoration, it forgets a
  manager that the second survey finds inactive (`MappingLosses.RestartForgets`). A start that gives up asks each manager
  whose PAUSE was confirmed back only once, so one lost answer to that RESUME (`MappingLosses.FailedStartLoses` from
  idle, `MappingLosses.RestartLosesAgain` after a restart), or to the PAUSE itself (`MappingLosses.LostPauseLoses`), can
  leave it paused with nobody owing it. The history shows the manager running when the lock is released if and only if
  the last survey found it active, and the session was then past its start, or had left the manager alone, or had brought
  it back (`MappingSession.RestartRestores`); nothing changes afterwards (`MappingSession.NothingAfterUnlock`). Nothing is
  lost while a session is past its start, holds the lock and owes nothing (`MappingSession.NothingOwedNothingLost`).
- The direction monitor is blind whenever its 32-bit clock shows less than the grace time since the last change of
  direction, however long ago that was (`DirectionMonitor.BlindInGrace`, with an input in
  `DirectionMonitor.BlindAfterRollover`); when it reports a fault is stated exactly in `DirectionMonitor.FaultExactly`.

A further result: when examining the target of a save raises, because its path cannot be resolved or made or looked up,
the session stays in its saving phase (`MappingRuntime.MappingRuntime.Save`), and no sequence of start, stop, save and
discard requests leads out of it (`MappingRuntime.MappingRuntime.Serve`).

In the protocol a mapping session may take any legal action; the methods of `MappingRuntime.MappingRuntime` are proved
to take only legal ones, and the gate moves by the functions its methods are proved against. The protocol result assumes
that a lifecycle request has taken its effect when its reply or error arrives, and that nothing else commands the
navigation manager.

## Model

| member | source | states |
|---|---|---|
| Crc16.CrcIsBitSerial | amr_base_driver/serial_bridge.py:28-29 | the byte-at-a-time CRC equals the standard's bit-serial shift register on every message |
| Crc16.FeedAllLinear | amr_base_driver/serial_bridge.py:28-29 | the CRC is linear over GF(2): registers and messages superpose |
| Crc16.CrcDifference | amr_base_driver/serial_bridge.py:28-29 | the difference of two CRCs is the CRC, from zero, of the difference of the messages |
| Crc16.BurstChangesCrc | amr_base_driver/serial_bridge.py:28-29 | messages that differ in a burst of at most 16 bits have different CRCs |
| Crc16.OddErrorsChangeCrc | amr_base_driver/serial_bridge.py:28-29 | messages that differ in an odd number of bits have different CRCs |
| Crc16.BytesDetermineRegister | amr_base_driver/serial_bridge.py:540-541 | the two stored bytes determine the register |
| Crc16Reference.WordHoldsRegister | amr_base_driver/serial_bridge.py:28-29 | shifting a 16-bit machine word keeps it equal to the shift register for every message |
| Crc16Reference.ReferenceVector | test/test_serial_protocol.py:22-23 | the digits 1 to 9 in ASCII give 0x29B1 |
| TelemetryFrame.SignedRoundTrip | amr_base_driver/serial_bridge.py:24 | two's-complement fields of any width decode to what was encoded |
| TelemetryFrame.PackUnpack | amr_base_driver/serial_bridge.py:23-25 | every record packed with its CRC is a frame and unpacks to itself, signed fields included |
| TelemetryFrame.DamagedPayloadIsRejected | amr_base_driver/serial_bridge.py:538-543 | a burst of at most 16 bits in the payload of a frame is caught by the stored CRC |
| TelemetryStream.FindMagic | amr_base_driver/serial_bridge.py:521 | the first place where both magic bytes stand, or none |
| TelemetryStream.ScanResidue | amr_base_driver/serial_bridge.py:519-544 | later bytes mean the same whether or not earlier frames were already cut out |
| TelemetryStream.ChunkInvariance | amr_base_driver/serial_bridge.py:353-363 | for every stream and every cut into reads, handled frames and parse errors are those of the whole stream, and under 44 bytes stay behind |
| TelemetryStream.ResidueIsQuiet | amr_base_driver/serial_bridge.py:519-544 | nothing complete is ever left in the buffer |
| TelemetryPlaces.EventsByPlace | amr_base_driver/serial_bridge.py:519-544 | the events are those of the headers of the stream from left to right, each the first one behind the event before: one byte skipped for a wrong length, 44 bytes taken otherwise, handled if the CRC is right |
| TelemetryResidue.PendingInvariance | amr_base_driver/serial_bridge.py:519-544 | the bytes that may still become part of a frame are, for every cut into reads, those that one extraction of the whole stream leaves |
| TelemetryResidue.TailIsUnscanned | amr_base_driver/serial_bridge.py:519-544 | the tail is the end of the stream, holds no event, and is the whole stream if and only if the stream has none |
| TelemetryResidue.ReachableBuffers | amr_base_driver/serial_bridge.py:353-363 | the buffers that some cut into reads of at most 4096 bytes leaves are exactly: a tail under four bytes, the pending bytes, or what a late drop kept with the few bytes behind it |
| TelemetryResidue.CutsDisagree | amr_base_driver/serial_bridge.py:519-544 | for every stream: two cuts leave different buffers if and only if the bytes behind its last event admit a late drop |
| TelemetryResidue.ResiduesAgree | amr_base_driver/serial_bridge.py:519-544 | any two cuts of a stream leave the same bytes pending, and unequal buffers only below four bytes kept and three pending |
| TelemetryResidue.ResidueDependsOnReads | amr_base_driver/serial_bridge.py:520-526 | the residual bytes themselves do depend on the cut: a stream and two cuts that differ |
| TelemetryStream.WireMeaning | amr_base_driver/serial_bridge.py:536-544 | among noise, every intact frame is handled in order and every damaged one costs exactly itself and one parse error |
| TelemetryStream.RoundTrip | amr_base_driver/serial_bridge.py:519-562 | records packed into frames, buried in noise and read in any chunks are handled as exactly those records, in order and with no other event |
| TelemetryMeaning.FrameMeans | amr_base_driver/serial_bridge.py:546-607 | 44 bytes that begin 5A A5 01 store the little-endian value at each offset in its unit: counts at 12 and 16, rpm at 20 and 22 over 100, acceleration at 24 to 28 over 1000, gyro at 30 to 34 over 100, temperature at 36 over 100, flags, fault and reset reason at 38, 40 and 41; any other bytes add one parse error and change nothing |
| TelemetryMeaning.ArrivalMeans | amr_base_driver/serial_bridge.py:563-613 | the arrival time is kept, the widest gap widened, an overrun counted exactly for a gap over 0.3 s, and a diagnosis asked for exactly when both counters ran back or the fault code changed |
| TelemetryMeaning.CountersMean | amr_base_driver/serial_bridge.py:573-598 | sequence and time at 4 and 8 are remembered; when both ran back one restart is counted and nothing else, otherwise d frames on d - 1 were missed, and e milliseconds on widen the widest gap |
| TelemetryCounters.AfterConcat | amr_base_driver/serial_bridge.py:546-620 | handling two event lists in turn is handling their concatenation |
| TelemetryCounters.ErrorsAndFramesAddUp | amr_base_driver/serial_bridge.py:546-607 | every event is one parse error or one accepted frame, never both or neither |
| TelemetryCounters.RoundTripTelemetry | amr_base_driver/serial_bridge.py:519-607 | the bytes of packed records, buried in noise and read in any chunks, do to the whole telemetry state what handling those records does, and count no parse error |
| TelemetryCounters.DamageOnTheWire | amr_base_driver/serial_bridge.py:519-607 | packets in noise, read in any chunks, do to the whole telemetry state what handling the intact ones in order does, and each damaged one adds exactly one parse error |
| TelemetryCounters.MissedFramesConserved | amr_base_driver/serial_bridge.py:573-598 | over the records handled, received minus one plus missed is the true sequence span, across counter wrap |
| TelemetryCounters.MissedFramesOnTheWire | amr_base_driver/serial_bridge.py:519-598 | the same for the bytes read from the port |
| TelemetryCounters.DeltaExact | amr_base_driver/serial_bridge.py:32-34 | the wrapped delta is the true step if and only if that fits in 32 signed bits |
| TelemetryCounters.DisplacementConserved | amr_base_driver/serial_bridge.py:706-713 | wrapped deltas over a run sum to the true displacement |
| MotorCommand.LimitScales | amr_base_driver/serial_bridge.py:426-430 | limiting multiplies both wheels by one factor in (0, 1] and respects the maximum |
| MotorCommand.TrimIsBounded | amr_base_driver/serial_bridge.py:37-52 | the trim keeps the sum and each wheel's direction, moves speed from the faster to the slower wheel, by at most the limit |
| MotorCommand.WheelTargetsShape | amr_base_driver/serial_bridge.py:418-445 | off the straight the wheels differ by k times separation * angular and add up to k times twice the linear speed, in rpm, with 0 < k <= 1; on the straight that pair is trimmed and scaled once more; k is 1 unless a wheel would exceed max_rpm, and then brings it exactly there |
| MotorCommand.TrimAmount | amr_base_driver/serial_bridge.py:37-52 | the trim moves the gain times the difference in measured speed, cut to the trim limit and nine tenths of each wheel's speed, and nothing unless both wheels are told to turn the same way and one is seen to turn faster than 3 rpm |
| MotorCommand.LatchIsJustified | amr_base_driver/serial_bridge.py:478-509 | a wheel is blamed only after a trackable command and near-zero motion at every evaluation over at least the timeout |
| MotorCommand.LatchIsComplete | amr_base_driver/serial_bridge.py:478-509 | conversely, a trackable command with near-zero motion at every evaluation over at least the timeout latches the drive, and blames that wheel unless the drive was blocked before |
| MotorCommand.BlockedFlagsAgree | amr_base_driver/serial_bridge.py:471-509 | in every reachable state drive_blocked holds exactly when one side flag does |
| MotorCommand.LatchHolds | amr_base_driver/serial_bridge.py:446-466 | once latched, every tick writes STOP and nothing else until a release |
| MotorCommand.ReleaseFrees | amr_base_driver/serial_bridge.py:446-454 | a stopped or reversed wish, or an operator call, always ends the latch it meets |
| MotorCommand.CommandLines | amr_base_driver/serial_bridge.py:467-469 | the k-th CMD line of a run carries start + k modulo 2^32 and magnitudes within max_rpm |
| MotorMeaning.UnsafeTickStops | amr_base_driver/serial_bridge.py:411-417 | with telemetry 0.3 s old or a fault, a tick writes STOP with zero targets and changes nothing else |
| MotorMeaning.TickTargets | amr_base_driver/serial_bridge.py:407-469 | otherwise the targets steer as the last velocity command asks, or are zero when it timed out or the motors are off; a blocked drive writes STOP, a free one these targets with the next number |
| MotorMeaning.TickLatches | amr_base_driver/serial_bridge.py:478-509 | a free drive is blocked exactly when a wheel told at least the minimum has turned at most the maximum since a timer at least the timeout old; the timer runs exactly while that is so |
| MotorMeaning.TickReleases | amr_base_driver/serial_bridge.py:446-460 | a blocked drive is freed exactly when both wishes are under 0.5 rpm or one is against the remembered target |
| MotorMeaning.EnabledExactly | amr_base_driver/serial_bridge.py:250-288 | in every run the motors are enabled exactly as the last enable request left them: on if and only if it asked for that and met a connection, telemetry at most 0.3 s old and no fault |
| MotorMeaning.MovesOnlyWhenMayMove | amr_base_driver/serial_bridge.py:407-469 | a line that turns a wheel is written only on fresh, fault-free telemetry, with motors enabled and a velocity command not timed out |
| MotorMeaning.ServicesMean | amr_base_driver/serial_bridge.py:237-293 | a velocity command replaces the last one; both services forget it, free the drive and write STOP, and clearing a fault adds CLEAR |
| SerialBridge.Bridge.HandleTelemetryFrame | amr_base_driver/serial_bridge.py:546-620 | the whole telemetry state after one frame, malformed ones included, and each field as the value at its offset of the frame |
| SerialBridge.Bridge.ExtractTelemetryFrames | amr_base_driver/serial_bridge.py:519-544 | the in-place loop leaves the residue and handles exactly the scanned events, and terminates |
| SerialBridge.Bridge.OnReadable | amr_base_driver/serial_bridge.py:356-363 | less than a frame stays buffered, so the 4096-byte overflow reset never fires |
| SerialBridge.Bridge.SerialReaderLoop | amr_base_driver/serial_bridge.py:345-363 | the state after any reads is that of the concatenated stream |
| SerialBridge.Bridge.PublishOdometry | amr_base_driver/serial_bridge.py:700-713 | the first report sets the baseline, later ones publish the wrapped steps |
| SerialBridge.Bridge.CmdCallback | amr_base_driver/serial_bridge.py:290-293 | a velocity command is stored with its time |
| SerialBridge.Bridge.ClearDriveBlocked | amr_base_driver/serial_bridge.py:471-476 | latch, side flags, candidates and remembered targets are all cleared |
| SerialBridge.Bridge.ClearMotorFault | amr_base_driver/serial_bridge.py:237-248 | the request is zeroed, the latch cleared, and STOP then CLEAR written |
| SerialBridge.Bridge.SetMotorsEnabled | amr_base_driver/serial_bridge.py:250-288 | the motors are on afterwards exactly when that was asked for with a connection, telemetry at most 0.3 s old and no fault; the request is zeroed and STOP written in every case |
| SerialBridge.Bridge.TrackCandidates | amr_base_driver/serial_bridge.py:485-503 | each wheel's candidate time starts, stays or drops, and which wheels have stalled |
| SerialBridge.Bridge.UpdateStallGuard | amr_base_driver/serial_bridge.py:478-509 | the motor state after one guard evaluation |
| SerialBridge.Bridge.CommandTick | amr_base_driver/serial_bridge.py:407-469 | the motor state and the lines written by one tick; without fresh, fault-free telemetry only STOP |
| CmdVelPassthrough.DeadlinesAreLeases | amr_base_driver/cmd_vel_passthrough.py:32-57 | a deadline is young exactly when history still grants that source a lease no later stop cancelled |
| CmdVelPassthrough.OwnerRefinesHistory | amr_base_driver/cmd_vel_passthrough.py:32-57 | the owner computed from mutable deadlines is the highest-priority source that history grants a lease |
| CmdVelPassthrough.EventPublishes | amr_base_driver/cmd_vel_passthrough.py:91-103 | each event publishes exactly what the history calls for: a zero when the owner changes, a zero for a stop, and a source's command exactly when that source owns the base with it and no stop is alive |
| CmdVelPassthrough.AcceptedMotionIsPublished | amr_base_driver/cmd_vel_passthrough.py:91-99 | a source that owns the base after its command while no stop is alive has that command published last |
| CmdVelPassthrough.MotionOwnerIsJustified | amr_base_driver/cmd_vel_passthrough.py:32-57 | an owner's lease was taken out after every stop command's lease had run out |
| CmdVelPassthrough.StopSilencesMotion | amr_base_driver/cmd_vel_passthrough.py:35-43 | no motion is published within a lease of a stop command |
| CmdVelPassthrough.HandoverPassesThroughZero | amr_base_driver/cmd_vel_passthrough.py:91-103 | between motion of two owners a zero is published |
| CmdVelPassthrough.DeadManBound | amr_base_driver/cmd_vel_passthrough.py:83-103 | with a watchdog period p, motion is followed by renewed motion of its owner or a zero within lease + p (0.25 + 0.1 = 0.35 s as deployed) |
| CmdVelPassthrough.CommandArbiter.SelectOwner | amr_base_driver/cmd_vel_passthrough.py:53-57 | the loop finds the first live source in priority order |
| CmdVelPassthrough.CommandArbiter.Accept | amr_base_driver/cmd_vel_passthrough.py:32-46 | the arbiter's whole state and both answers after a command |
| CmdVelPassthrough.CommandArbiter.Expire | amr_base_driver/cmd_vel_passthrough.py:48-51 | the owner after the watchdog, and whether it changed |
| CmdVelPassthrough.Passthrough.HandleCommand | amr_base_driver/cmd_vel_passthrough.py:91-99 | exactly what a command publishes, in order |
| CmdVelPassthrough.Passthrough.ExpireOwner | amr_base_driver/cmd_vel_passthrough.py:101-103 | a watchdog run publishes a zero exactly when the owner changed |
| DriveSupervisor.TickIsDisciplined | amr_base_driver/drive_supervisor_core.py:180-293 | one update keeps the direction invariant, the growth bound and the speed bound |
| DriveSupervisor.RunIsDisciplined | amr_base_driver/drive_supervisor_core.py:180-293 | in every run consecutive outputs never point in opposite directions beyond the deadband |
| DriveSupervisor.Provenance | amr_base_driver/drive_supervisor_core.py:217-268 | every braking, creeping or stopping state of a reversal was reached through its own unbroken phases for one direction |
| DriveSupervisor.InitialProvenance | amr_base_driver/drive_supervisor_core.py:205-268 | before any direction is remembered, an aligning or stopping state was reached through an unbroken initial alignment for one direction |
| DriveSupervisor.ReversalFollowsSequence | amr_base_driver/drive_supervisor_core.py:169-171 | the remembered direction flips only at rest, after braking, creeping and stopping for that direction |
| DriveHeading.HeadingIsBounded | amr_base_driver/drive_supervisor_core.py:114-125 | however far off the heading, the command stays within the larger of its maximum and its minimum |
| DriveHeading.HeadingIsRestoring | amr_base_driver/drive_supervisor_core.py:114-125 | the command turns the base back towards its heading, and out of tolerance at least with the minimum |
| DriveHeading.FilterIsBetween | amr_base_driver/drive_supervisor_core.py:127-134 | the filtered rate lies between the old rate and the measurement |
| DriveHeading.HoldIsBounded | amr_base_driver/drive_supervisor_core.py:136-158 | the straight-line hold stays within its bound |
| DriveHeading.HoldFollowsLaw | amr_base_driver/drive_supervisor_core.py:136-158 | for every input the hold lies between rest and the correction that heading error and yaw rate ask for, and is zero without a heading or in the quiet band |
| DriveHeading.HoldFadesIn | amr_base_driver/drive_supervisor_core.py:152-158 | a hold that has just captured its reference starts from nothing |
| DriveHeading.AlignTurns | amr_base_driver/drive_supervisor_core.py:237-253 | while the caster swivels the angular output moves only within the slew limit and never faster than before or than the alignment's own small bound |
| DriveHeading.RunTurnsGently | amr_base_driver/drive_supervisor_core.py:180-293 | in every run, a tick puts the angular output to rest or moves it by at most the acceleration times the tick, twice that while braking or stopping, counted from rest when a cancelled sequence is left with only rotation |
| DriveHeading.RunTurnsWithin | amr_base_driver/drive_supervisor_core.py:180-293 | in every run the angular output stays within the largest turn asked for and the two heading bounds |
| DriveHeading.HeadingExactly | amr_base_driver/drive_supervisor_core.py:114-125 | the heading command is the gain times the error, cut to its maximum, and raised to its minimum out of tolerance |
| DriveHeading.FilterExactly | amr_base_driver/drive_supervisor_core.py:127-134 | with time constant tau a tick dt moves the rate dt parts in tau + dt of the way to the measurement |
| DriveHeading.HoldExactly | amr_base_driver/drive_supervisor_core.py:136-158 | outside the quiet band the hold is the correction asked for, cut to its maximum and faded in linearly over the ramp time |
| DriveMeaning.StopsAtOnce | amr_base_driver/drive_supervisor_core.py:188-193 | in every run a stale input, or one that asks for no motion, gives zero outputs and the idle state in the same tick |
| DriveMeaning.StopsOnlyThen | amr_base_driver/drive_supervisor_core.py:188-204 | a tick ends idle if and only if that was so or a sequence met a motion in another direction |
| DriveMeaning.DrivesAsAsked | amr_base_driver/drive_supervisor_core.py:270-293 | in plain driving each output takes one whole slew step towards what is asked for, or reaches it |
| DriveMeaning.FirstDirectionCreeps | amr_base_driver/drive_supervisor_core.py:209-216 | the first direction, with initial alignment wanted, begins a creep from the present place |
| DriveMeaning.ReversalBrakes | amr_base_driver/drive_supervisor_core.py:207-221 | the direction opposite to the one last driven begins by braking |
| DriveMeaning.BrakingGoesOn | amr_base_driver/drive_supervisor_core.py:223-235 | braking ramps the outputs down by whole steps and turns into the creep exactly when outputs and base are at rest |
| DriveMeaning.CreepingGoesOn | amr_base_driver/drive_supervisor_core.py:237-253 | creeping keeps its speed in the new direction until it has lasted or led far enough, and no longer |
| DriveMeaning.StoppingGoesOn | amr_base_driver/drive_supervisor_core.py:255-268 | stopping ramps down and, at rest, makes the new direction the one last driven |
| DriveMeaning.CreepTurnsBack | amr_base_driver/drive_supervisor_core.py:237-253 | while the caster swivels the base is turned back towards its heading within the alignment's bound |
| DriveMeaning.StraightTurnsBack | amr_base_driver/drive_supervisor_core.py:277-289 | driving straight, the base is held on the heading it had when it began to |
| DriveSupervisor.DriveSupervisorCore.UpdateTick | amr_base_driver/drive_supervisor_core.py:180-293 | the whole core after one update, and its outputs: zero and idle whenever the input is stale or asks for no motion |
| DirectionMonitor.FaultExactly | firmware/esp32/robot_base_tb6612_mapping_v3_floor_start/DirectionMonitor.h:15-37 | a fault is reported if and only if the clock it sees shows confirmed wrong motion after the grace time |
| DirectionMonitor.FaultIsSound | firmware/esp32/robot_base_tb6612_mapping_v3_floor_start/DirectionMonitor.h:15-37 | a fault means 1350 ms of one commanded direction and 350 ms of wrong motion in true time, across wrap |
| DirectionMonitor.FaultIsComplete | firmware/esp32/robot_base_tb6612_mapping_v3_floor_start/DirectionMonitor.h:28-36 | before the clock wraps, confirmed wrong motion is always reported |
| DirectionMonitor.BlindInGrace | firmware/esp32/robot_base_tb6612_mapping_v3_floor_start/DirectionMonitor.h:28-31 | whenever the clock it sees shows less than the grace time since the last change, nothing is reported, in any history |
| DirectionMonitor.BlindAfterRollover | firmware/esp32/robot_base_tb6612_mapping_v3_floor_start/DirectionMonitor.h:28-31 | a history, with a check 2^32 ms after the change, in which wrong motion at every check goes unreported |
| DirectionMonitor.DirectionMonitor.CheckNow | firmware/esp32/robot_base_tb6612_mapping_v3_floor_start/DirectionMonitor.h:15-37 | the monitor's state and answer after one check |
| GuardedReverse.ClearanceIsNearestCluster | amr_base_driver/guarded_reverse.py:32-47 | the clearance is the nearest pair of neighbouring beams, wrap-around pair included, or none when there is no pair |
| GuardedReverse.LoneSpeckleIgnored | amr_base_driver/guarded_reverse.py:32-47 | a beam without a neighbour changes nothing |
| GuardedReverse.SelectedClearance | amr_base_driver/guarded_reverse.py:59-77 | a sector's clearance is the nearest cluster of usable beams in it |
| GuardedReverse.RobustRearClearance | amr_base_driver/guarded_reverse.py:50-77 | the loop computes the rear sector's clearance, 0.0 without a cluster |
| GuardedReverse.RobustTurnSideClearance | amr_base_driver/guarded_reverse.py:107-146 | the loop computes the turn side's clearance and rejects other directions |
| GuardedReverse.RecoverySectorClearances | amr_base_driver/guarded_reverse.py:149-189 | one pass yields what the three separate scans yield |
| GuardedReverse.StepSize | amr_base_driver/guarded_reverse.py:319-324 | the sampled poses are at most 0.01 apart and end at the full distance |
| GuardedReverse.SweepIsExact | amr_base_driver/guarded_reverse.py:319-358 | an unexcused point is hit by a sampled pose if and only if the padded footprint covers it at some real displacement |
| GuardedReverse.SweptStraightObstacleDistance | amr_base_driver/guarded_reverse.py:306-359 | the nested loop reports the cluster of the sampled sweep and rejects other directions |
| GuardedReverse.StraightSweepMeaning | amr_base_driver/guarded_reverse.py:306-359 | the reported obstacle is the nearest cluster that the continuous sweep meets |
| ClearanceMeaning.SectorsMean | amr_base_driver/guarded_reverse.py:50-189 | the rear clearance is about beams within 30 degrees of straight back, the side clearances about those from 70 to 155 degrees to either side |
| ClearanceMeaning.PairBeside | amr_base_driver/guarded_reverse.py:107-146 | two neighbouring beams at 90 degrees to one side bound that side's clearance and are in no other sector |
| ClearanceMeaning.StraightSweepInNumbers | amr_base_driver/guarded_reverse.py:306-359 | the sweep reports the nearest pair of beams that end in its lane: r sin between -0.205 and 0.215, and r cos from 0.042 to 0.365 plus the length ahead, or down to -0.065 less the length behind |
| ClearanceMeaning.WallAhead | amr_base_driver/guarded_reverse.py:306-359 | a wall straight ahead within reach is reported to a forward motion and out of the way of a backward one |
| CameraStream.Find | robot_agent/amr_web_bridge/amr_web_bridge/camera_relay.py:165-171 | the first marker at or behind an offset, or none |
| CameraStream.FramesAreSpans | robot_agent/amr_web_bridge/amr_web_bridge/camera_relay.py:164-178 | the frames are exactly the leftmost start-to-first-end spans, and no complete one is left |
| CameraStream.FramesThenMore | robot_agent/amr_web_bridge/amr_web_bridge/camera_relay.py:164-178 | later bytes mean the same whether or not earlier frames were cut out |
| CameraStream.ChunkInvariance | robot_agent/amr_web_bridge/amr_web_bridge/camera_relay.py:157-178 | while the buffer stays within its limit the frames do not depend on how the stream was cut |
| CameraSpans.FramesAreWhole | robot_agent/amr_web_bridge/amr_web_bridge/camera_relay.py:157-190 | whether or not the buffer limit cuts, the delivered frames are contiguous parts of the received stream, in order and apart, each from a start marker to the first end marker behind it |
| CameraStream.ResidueMeans | robot_agent/amr_web_bridge/amr_web_bridge/camera_relay.py:165-176 | what is left stays as it is up to 2,000,000 bytes, and beyond that exactly its last two bytes stay |
| CameraStream.NumberedConsecutively | robot_agent/amr_web_bridge/amr_web_bridge/camera_relay.py:179-184 | delivered frames carry consecutive numbers |
| CameraStream.LatestJpegSource.Capture | robot_agent/amr_web_bridge/amr_web_bridge/camera_relay.py:179-190 | a frame gets the next number, becomes the latest and is handed to the callback |
| CameraStream.LatestJpegSource.Extract | robot_agent/amr_web_bridge/amr_web_bridge/camera_relay.py:164-190 | every complete frame is delivered, numbered on, and the bounded residue is kept |
| CameraStream.LatestJpegSource.ReadStream | robot_agent/amr_web_bridge/amr_web_bridge/camera_relay.py:151-190 | over a connection the buffer stays within its limit after each read and all frames are delivered in order |
| CameraWindow.WindowRefinesHistory | robot_agent/amr_web_bridge/amr_web_bridge/camera_relay.py:336-415 | sent numbers strictly increase, at most three are pending, and the window is the sorted list of frames sent since the last end of demand and not acknowledged later |
| CameraMeaning.ToldByHistory | robot_agent/amr_web_bridge/amr_web_bridge/camera_relay.py:336-415 | demand, the waiting frame, the frame in hand and the end of the connection are what the history of offers, takes, sends and messages says |
| CameraMeaning.SentFrame | robot_agent/amr_web_bridge/amr_web_bridge/camera_relay.py:372-386 | the frame sent is the newest one offered so far after a sleep, and otherwise the newest one when it was taken; it is pending from then on |
| CameraMeaning.TakeIsDue | robot_agent/amr_web_bridge/amr_web_bridge/camera_relay.py:352-373 | a frame may be taken exactly while the connection lives, frames are asked for, none is in hand, one waits and fewer than three are pending |
| CameraMeaning.DemandMeans | robot_agent/amr_web_bridge/amr_web_bridge/camera_relay.py:393-401 | the end of demand empties window and queue, demand that goes on changes neither |
| CameraWindow.StaleAckRemovesNothing | robot_agent/amr_web_bridge/amr_web_bridge/camera_relay.py:407-415 | an acknowledgement of a frame sent before the last end of demand removes nothing |
| CameraWindow.AckIsCumulative | robot_agent/amr_web_bridge/amr_web_bridge/camera_relay.py:411-415 | an acknowledgement leaves exactly the newer frames pending |
| CameraWindow.CameraConnection.OfferFrame | robot_agent/amr_web_bridge/amr_web_bridge/camera_relay.py:341-345 | a newer frame replaces an untaken one |
| CameraWindow.CameraConnection.ReceiveControl | robot_agent/amr_web_bridge/amr_web_bridge/camera_relay.py:352-358 | while nothing is requested only demand updates act |
| CameraWindow.CameraConnection.TakeFrame | robot_agent/amr_web_bridge/amr_web_bridge/camera_relay.py:359-373 | a frame is taken only with room in the window |
| CameraWindow.CameraConnection.SendFrame | robot_agent/amr_web_bridge/amr_web_bridge/camera_relay.py:374-386 | after a sleep the newest frame goes out; its number becomes pending |
| CameraWindow.CameraConnection.ReceiveDemand | robot_agent/amr_web_bridge/amr_web_bridge/camera_relay.py:394-402 | the end of demand clears window and queue |
| CameraWindow.CameraConnection.ReceiveAck | robot_agent/amr_web_bridge/amr_web_bridge/camera_relay.py:411-415 | the loop pops exactly the covered prefix |
| LifecycleInterlock.LifecycleInterlock.TryAcquire | amr_base_driver/lifecycle_interlock.py:27-65 | the lock is held afterwards exactly when it was held or met free; a file not yet accessible counts as busy |
| LifecycleInterlock.LifecycleInterlock.Acquire | amr_base_driver/lifecycle_interlock.py:67-80 | the wait succeeds exactly when a poll before the deadline met the lock free, polls at least once and ends |
| LifecycleInterlock.LifecycleInterlock.Release | amr_base_driver/lifecycle_interlock.py:82-90 | the lock is given up, also when it was not held |
| RuntimeContract.NodeViolations | amr_base_driver/nav2_activation_gate.py:72-86 | exactly one node's violations are reported |
| RuntimeContract.ValidateRuntimeParameters | amr_base_driver/nav2_activation_gate.py:69-87 | exactly the violations are reported, and none if and only if the whole contract holds |
| RuntimeContract.NumbersMean | amr_base_driver/nav2_activation_gate.py:60-66 | a number of the profile is met exactly by a value that reads as a number at most a millionth away |
| RuntimeContract.UnreadNodeFails | amr_base_driver/nav2_activation_gate.py:73-76 | a node that was not read never conforms |
| ActivationGate.LeaseKept | amr_base_driver/nav2_activation_gate.py:195-410 | every callback keeps: the lease is held exactly while a request is in flight or validation or pause runs |
| ActivationGate.RunIsDisciplined | amr_base_driver/nav2_activation_gate.py:195-410 | in every run: lease discipline, RESET at most once and right behind a STARTUP, each node read once, retry delay in [0.5, 5.0], terminal states released |
| ActivationGate.VerifiedExit | amr_base_driver/nav2_activation_gate.py:349-394 | the verified exit follows only when each expected node was read exactly once and every reply conformed |
| ActivationGate.ValidationExit | amr_base_driver/nav2_activation_gate.py:349-410 | every verdict: verified if and only if the contract was met, paused if and only if it was broken and the PAUSE call got out, crashed with no PAUSE sent if and only if it was broken and the call raised |
| ActivationGate.PausedExit | amr_base_driver/nav2_activation_gate.py:395-410 | navigation is paused only when the contract was found broken, and PAUSE is the last command |
| ActivationGate.SecondRejectionStops | amr_base_driver/nav2_activation_gate.py:272-280 | one rejected STARTUP is repaired; a second ends the gate without validation ever beginning |
| GateMeaning.PlannerStateDecides | amr_base_driver/nav2_activation_gate.py:224-249 | read clear of mapping and with the call out, a planner state is answered with exactly one STARTUP if and only if it is not 3, and with validation if and only if it is 3 |
| GateMeaning.StartedExactly | amr_base_driver/nav2_activation_gate.py:224-284 | in every run validation has begun if and only if some reply, read clear of mapping, was state 3 or a successful STARTUP |
| GateMeaning.CommandsAreHistory | amr_base_driver/nav2_activation_gate.py:224-400 | the commands sent are a STARTUP for each inactive state and a RESET for the first rejection whose calls got out clear of mapping, and a PAUSE last while pausing |
| GateMeaning.GaveUpExactly | amr_base_driver/nav2_activation_gate.py:257-325 | the gate gives up exactly on a failed RESET, or on a rejection with the RESET spent or not out |
| GateMeaning.BackoffIsExact | amr_base_driver/nav2_activation_gate.py:251-255 | until validation the delay is 0.5 s doubled once per request that came to nothing, at most 5 s, and the retry time counts it from the last of them |
| GateMeaning.CheckMeans | amr_base_driver/nav2_activation_gate.py:195-222 | the exact condition on which the timer asks for the planner's state, and what else it can change |
| GateMeaning.StateReplyMeans | amr_base_driver/nav2_activation_gate.py:224-255 | every kind of state reply: lease, command, validation and retry time |
| GateMeaning.StartupReplyMeans | amr_base_driver/nav2_activation_gate.py:257-300 | every kind of STARTUP reply: validation, one RESET, giving up, or letting go |
| GateMeaning.ResetReplyMeans | amr_base_driver/nav2_activation_gate.py:302-318 | a successful RESET puts off the next try, anything else gives up |
| GateMeaning.ReadingMeans | amr_base_driver/nav2_activation_gate.py:349-379 | a reply is stored for the node asked, and the next node is asked exactly when its services are up |
| ActivationGate.Nav2ActivationGate.CheckLocalization | amr_base_driver/nav2_activation_gate.py:195-222 | the gate after a check, marker read before and after taking the lock |
| ActivationGate.Nav2ActivationGate.PlannerStateComplete | amr_base_driver/nav2_activation_gate.py:224-249 | the gate after the planner state reply |
| ActivationGate.Nav2ActivationGate.FailRequest | amr_base_driver/nav2_activation_gate.py:251-255 | a failed request is deferred and releases the lease |
| ActivationGate.Nav2ActivationGate.StartupComplete | amr_base_driver/nav2_activation_gate.py:257-284 | the gate after a STARTUP reply: success, rejection, error, or mapping in between |
| ActivationGate.Nav2ActivationGate.RequestLifecycleReset | amr_base_driver/nav2_activation_gate.py:286-300 | RESET goes out under the lease, or the gate stops |
| ActivationGate.Nav2ActivationGate.LifecycleResetComplete | amr_base_driver/nav2_activation_gate.py:302-318 | the gate after a RESET reply |
| ActivationGate.Nav2ActivationGate.StopAfterFailedRepair | amr_base_driver/nav2_activation_gate.py:320-325 | the gate ends with the lease released |
| ActivationGate.Nav2ActivationGate.BeginValidation | amr_base_driver/nav2_activation_gate.py:327-338 | all expected nodes are queued and the first is read |
| ActivationGate.Nav2ActivationGate.DeferRetry | amr_base_driver/nav2_activation_gate.py:340-347 | the retry time and the doubled, bounded delay |
| ActivationGate.Nav2ActivationGate.RequestNextParameters | amr_base_driver/nav2_activation_gate.py:349-364 | the next node is read, put back, or validation finishes |
| ActivationGate.Nav2ActivationGate.ParametersReceived | amr_base_driver/nav2_activation_gate.py:370-379 | the reply becomes the node's reading |
| ActivationGate.Nav2ActivationGate.RetryParameterRequest | amr_base_driver/nav2_activation_gate.py:366-368 | the postponed node is asked again |
| ActivationGate.Nav2ActivationGate.FinishValidation | amr_base_driver/nav2_activation_gate.py:381-400 | verified and released, or PAUSE sent under the lease |
| ActivationGate.Nav2ActivationGate.PauseComplete | amr_base_driver/nav2_activation_gate.py:402-410 | the gate ends with the lease released, whatever the reply |
| MappingSession.DebtBalance | robot_agent/amr_web_bridge/amr_web_bridge/mapping_runtime.py:517-541 | what is still owed plus what was restored is what was active at the survey |
| MappingSession.SessionConservation | robot_agent/amr_web_bridge/amr_web_bridge/mapping_runtime.py:489-502 | marker and lock are given up only once exactly the managers active at start are restored, each once |
| MappingSession.CompletedSession | robot_agent/amr_web_bridge/amr_web_bridge/mapping_runtime.py:471-502 | an idle session that had reached mapping has restored them, however many saves or discards failed |
| MappingSession.RestorationOrder | robot_agent/amr_web_bridge/amr_web_bridge/mapping_runtime.py:517-541 | a command goes only to a manager that the survey found active and that is not back; RESET and STARTUP only after localization is back, STARTUP only after a confirmed RESET |
| MappingSession.IdleLeavesNothing | robot_agent/amr_web_bridge/amr_web_bridge/mapping_runtime.py:478-487 | an idle session holds no lock, sets no marker and remembers owing nothing |
| MappingSession.SessionOutcome | robot_agent/amr_web_bridge/amr_web_bridge/mapping_runtime.py:226-541 | for every survey and the next release of the lock: the history shows a manager running if and only if it was active and was left alone or brought back; past the start, if and only if it was active |
| MappingSession.GivenUpStart | robot_agent/amr_web_bridge/amr_web_bridge/mapping_runtime.py:300-315 | a start that gives up asks each manager whose PAUSE was confirmed back exactly once; the history shows a manager running then if and only if it was active and was left alone or its one RESUME was confirmed |
| MappingSession.NothingAfterUnlock | robot_agent/amr_web_bridge/amr_web_bridge/mapping_runtime.py:226-541 | from the release of the lock to the next survey nothing is owed and nothing changes for a manager |
| MappingSession.RestartRestores | robot_agent/amr_web_bridge/amr_web_bridge/mapping_runtime.py:226-315 | whatever restarts happen in between, a manager found active is shown running at the release if and only if the last survey found it active and the session was past its start, left it alone or brought it back |
| MappingSession.NothingOwedNothingLost | robot_agent/amr_web_bridge/amr_web_bridge/mapping_runtime.py:226-541 | a session that is past its start, holds the lock, was not handed over and owes a manager nothing has not lost it: it is shown running if the last survey found it active |
| MappingLosses.RestartForgets | robot_agent/amr_web_bridge/amr_web_bridge/mapping_runtime.py:232-261 | a start over a restoration that failed three times surveys anew: a manager found active before is never brought back |
| MappingLosses.RestartLosesAgain | robot_agent/amr_web_bridge/amr_web_bridge/mapping_runtime.py:232-315 | the same although both surveys find it active: the second start pauses it, gives up, and its one RESUME is lost |
| MappingLosses.FailedStartLoses | robot_agent/amr_web_bridge/amr_web_bridge/mapping_runtime.py:300-315 | from idle, a start that gives up loses a manager when its one RESUME is lost; the discard that follows succeeds |
| MappingLosses.LostPauseLoses | robot_agent/amr_web_bridge/amr_web_bridge/mapping_runtime.py:264-315 | from idle, a start that gives up after a lost answer to its PAUSE never asks the manager back; the discard that follows succeeds |
| MappingRuntime.MappingRuntime.EnsureLifecycleStarted | robot_agent/amr_web_bridge/amr_web_bridge/mapping_runtime.py:168-194 | at most two failed attempts and one that worked, or exactly three failed ones, each a call and a query that did not confirm; success exactly when the manager is no longer owed |
| MappingRuntime.MappingRuntime.EnsureLifecycleReset | robot_agent/amr_web_bridge/amr_web_bridge/mapping_runtime.py:196-224 | the same for RESET: failure means that exactly three attempts went out and none was confirmed |
| MappingRuntime.MappingRuntime.Start | robot_agent/amr_web_bridge/amr_web_bridge/mapping_runtime.py:226-315 | it captures exactly when the marker was written, the lock met free in time, the survey answered, every PAUSE was confirmed and the process launched, with the exact actions; a failed one has only paused managers, asked each one back once and left no lock, marker, flag or process |
| MappingRuntime.MappingRuntime.Rollback | robot_agent/amr_web_bridge/amr_web_bridge/mapping_runtime.py:300-315 | the exact actions of giving up: marker, one RESUME to each paused manager with localization first, lock; and no flag or process is left |
| MappingRuntime.MappingRuntime.StopCapture | robot_agent/amr_web_bridge/amr_web_bridge/mapping_runtime.py:317-325 | mapping turns into review and nothing else changes |
| MappingRuntime.MappingRuntime.Save | robot_agent/amr_web_bridge/amr_web_bridge/mapping_runtime.py:327-394 | the exact outcomes of a save with phase, lock, marker, process and flags: back in review if and only if the target is refused or not written, left saving if and only if examining it raises, done whenever the target is written and everything after it is confirmed |
| MappingRuntime.MappingRuntime.Serve | robot_agent/amr_web_bridge/amr_web_bridge/mapping_runtime.py:226-487 | any sequence of start, stop, save and discard requests, each start with its own polls of the lock, keeps the object valid, and in the saving phase all of them are rejected |
| MappingRuntime.MappingRuntime.Discard | robot_agent/amr_web_bridge/amr_web_bridge/mapping_runtime.py:471-487 | it fails only if stopping the process raised or three attempts on a manager failed, and then keeps lock, marker and what it owes for another try; when everything is confirmed it succeeds, owes nothing and has given up marker and lock |
| MappingRuntime.MappingRuntime.Restore | robot_agent/amr_web_bridge/amr_web_bridge/mapping_runtime.py:489-502 | marker and lock go only after every owed manager is back; a failure means that stopping the process raised or three attempts on a manager failed |
| MappingRuntime.MappingRuntime.StopSlamProcess | robot_agent/amr_web_bridge/amr_web_bridge/mapping_runtime.py:504-515 | the process is forgotten even when stopping it raises |
| MappingRuntime.MappingRuntime.ResumeLifecycles | robot_agent/amr_web_bridge/amr_web_bridge/mapping_runtime.py:517-541 | each flag falls exactly when its manager is back, and a failure means three attempts that failed |
| MappingRuntime.MappingRuntime.GivesBack | robot_agent/amr_web_bridge/amr_web_bridge/mapping_runtime.py:471-502 | the object's own history satisfies the conservation result |
| LifecycleProtocol.ExclusiveCommands | amr_base_driver/lifecycle_interlock.py:27-90 | in every interleaving the navigation manager is commanded only by the lock holder, which holds on while its request is in flight |
| LifecycleProtocol.CaptureIsUndisturbed | robot_agent/amr_web_bridge/amr_web_bridge/mapping_runtime.py:240-299 | in every interleaving, mapping or review means: lock held by mapping, marker set, navigation inactive, no gate request in flight |
| LifecycleProtocol.CaptureIsReachable | robot_agent/amr_web_bridge/amr_web_bridge/mapping_runtime.py:240-299 | such an interleaving exists: a session comes to map while the gate reads the marker |
| LifecycleProtocol.LookingAgainYields | amr_base_driver/nav2_activation_gate.py:210-214 | a gate that finds the marker on its second look gives the lock back and asks nothing |
| LifecycleProtocol.MarkerBoundsGate | amr_base_driver/nav2_activation_gate.py:190-283 | while the marker stays set the gate sends at most one STARTUP or RESET, on a reading made before it was set |
| LifecycleProtocol.ProjectionIsLegal | robot_agent/amr_web_bridge/amr_web_bridge/mapping_runtime.py:226-541 | the mapping actions of any interleaving form a legal history, so conservation holds whatever the gate does |

## Left out

- MappingRuntime.MappingRuntime.Start: marker removal, lock release and phase changes are taken not to raise; the text of the marker, times and status messages are not modelled.
- MappingRuntime.MappingRuntime.Save: writing map files, validating them and updating metadata is one step that succeeds or fails; map contents are not modelled, so no save and load round trip is claimed.
- `shutdown` of the mapping runtime (mapping_runtime.py:549-556): it runs the restoration without leaving the phase, so the phase results are about runs before it.
- Calls of the mapping runtime from several threads at once: only the phase check at the start of each call guards against them.
- The localization manager is also commanded without the lock (localization_readiness_gate.py:82-90, web_bridge_node.py:2792-2794), so exclusive access is claimed for the navigation manager only.
- A lifecycle request that takes effect after its caller gave up on it: a settled reply or error is assumed to be final.
- Death of a process by signal, with the lock released by the operating system; a gate process that ended may start again.
- ActivationGate.Nav2ActivationGate.CheckLocalization: whether localization is recent enough is an input; transforms, poses and service discovery are not modelled.
- RuntimeContract.ValidateRuntimeParameters: reading a number or a list out of text is an uninterpreted function; values that are not finite are not modelled.
- SerialBridge.Bridge.CommandTick: the three decimals of a CMD line and a failing or disconnected port are not modelled; a line handed to the port counts as written.
- SerialBridge.Bridge.HandleTelemetryFrame: log messages are not modelled; pi is the value that `math.pi` denotes.
- SerialBridge.Bridge.PublishOdometry: the integrated pose and the published twist need trigonometry.
- DriveSupervisor.DriveSupervisorCore.UpdateTick: `wrap_angle` is any function, and the distance test of `_align_complete` compares squares instead of a square root.
- GuardedReverse.SweptStraightObstacleDistance: a beam's cosine and sine are functions of its index; the arc sweep and the front sector are left out.
- GuardedReverse.RobustRearClearance: a beam's angle in degrees is a function of its index.
- CameraStream.LatestJpegSource.ReadStream: capture times and the switch that stops reading are not modelled.
- CameraWindow.CameraConnection.TakeFrame: clock readings are not modelled; any delay and any timeout is allowed.
- Rounding: arithmetic is over the reals.
- ROS nodes, parameters, quality of service, timers as such, logging, launch files, terminals, file descriptors and subprocesses.
- The web bridge, enrollment, the fleet simulator and the small utilities (mission state, path and scan helpers, bias estimation, audits, calibration), which would add only easy members.
