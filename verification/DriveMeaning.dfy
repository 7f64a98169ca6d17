/** What the drive supervisor promises about each tick of a run, in numbers of its inputs and outputs
    (amr_base_driver/drive_supervisor_core.py, lines 180-293). */
module DriveMeaning {
  import opened Common
  import opened DriveSupervisor
  import opened DriveHeading

  /** The input is stale, or asks for no motion at all. */
  predicate AsksToStop(i: Input) {
    !i.recent || (-0.005 <= i.linear <= 0.005 && -0.005 < i.angular < 0.005)
  }

  /** The direction asked for: forward, backward, or none beyond the deadband. */
  function Direction(i: Input): int {
    if i.linear > 0.005 then 1 else if i.linear < -0.005 then -1 else 0
  }

  predicate InSequence(c: Core) {
    c.state == INITIAL_ALIGN || c.state == BRAKE || c.state == ALIGN || c.state == ALIGN_STOP
  }

  /** The time a tick counts for: never more than a fifth of a second. */
  function Seconds(i: Input): real {
    if i.dt < 0.0 then 0.0 else if i.dt > 0.2 then 0.2 else i.dt
  }

  /** after is the target if that is within reach, and otherwise one whole step nearer to it. */
  predicate Approaches(before: real, target: real, rate: real, i: Input, after: real) {
    var step := if rate * Seconds(i) > 0.0 then rate * Seconds(i) else 0.0;
    if target - before > step then after == before + step
    else if before - target > step then after == before - step
    else after == target
  }

  lemma SlewApproaches(before: real, target: real, rate: real, i: Input)
    ensures Approaches(before, target, rate, i, Slew(before, target, rate, TickLength(i)))
  {}

  // ---------- stopping ----------

  /** Dead-man stop: a stale input, or one that asks for no motion, puts the base to rest in the same
      tick, whatever was going on. */
  lemma StopsAtOnce(k: Config, cores: seq<Core>, inputs: seq<Input>, n: nat)
    requires IsRun(k, cores, inputs) && n < |inputs| && AsksToStop(inputs[n])
    ensures cores[n + 1].linear == 0.0 && cores[n + 1].angular == 0.0 && cores[n + 1].state == IDLE
  {}

  /** And a tick ends idle only for that reason, or because a caster sequence met the other direction. */
  lemma StopsOnlyThen(k: Config, cores: seq<Core>, inputs: seq<Input>, n: nat)
    requires IsRun(k, cores, inputs) && n < |inputs|
    ensures var c, i := cores[n], inputs[n];
      cores[n + 1].state == IDLE <==>
      AsksToStop(i) || (InSequence(c) && Direction(i) != 0 && Direction(i) != c.reversalSign)
    ensures cores[n + 1].state == IDLE ==> cores[n + 1].linear == 0.0 && cores[n + 1].angular == 0.0
  {
    TickStops(k, cores[n], inputs[n], cores[n + 1]);
  }

  lemma TickStops(k: Config, c: Core, i: Input, d: Core)
    requires d == Update(k, c, i)
    ensures d.state == IDLE <==>
            AsksToStop(i) || (InSequence(c) && Direction(i) != 0 && Direction(i) != c.reversalSign)
    ensures d.state == IDLE ==> d.linear == 0.0 && d.angular == 0.0
  {
    if !AsksToStop(i) && !(InSequence(c) && Direction(i) != 0 && Direction(i) != c.reversalSign) {
      var e := Filtered(k, c, i);
      NeverIdle(k, Decide(k, e, i), i);
    }
  }

  lemma NeverIdle(k: Config, c: Core, i: Input)
    ensures Act(k, c, i).state != IDLE
  {}

  /** Only the filtered yaw rate differs. */
  predicate SameButRate(c: Core, e: Core) {
    e == c.(yawRate := e.yawRate)
  }

  lemma Filtered(k: Config, c: Core, i: Input) returns (e: Core)
    ensures SameButRate(c, e) && e == FilterYawRate(k, c, TickLength(i), i.measuredAngular)
    ensures !AsksToStop(i) && !(InSequence(c) && Direction(i) != 0 && Direction(i) != c.reversalSign) ==>
              Update(k, c, i) == Act(k, Decide(k, e, i), i)
  {
    e := FilterYawRate(k, c, TickLength(i), i.measuredAngular);
  }

  // ---------- driving ----------

  /** Nothing but driving is asked for: no sequence is under way, or the one under way is left with
      only rotation; and the direction asked for is none, the one last driven, or the first one with
      no initial alignment wanted. */
  predicate PlainlyDriven(k: Config, c: Core, i: Input) {
    && !AsksToStop(i)
    && (InSequence(c) ==> Direction(i) == 0 && c.reversalSign != 0)
    && (Direction(i) == 0 || Direction(i) == c.lastDriveSign || (c.lastDriveSign == 0 && !k.initialAlignment))
  }

  /** Plain driving: each output takes one whole step towards what was asked for, or reaches it; a
      sequence left with only rotation starts from rest. */
  lemma DrivesAsAsked(k: Config, cores: seq<Core>, inputs: seq<Input>, n: nat)
    requires IsRun(k, cores, inputs) && n < |inputs| && PlainlyDriven(k, cores[n], inputs[n])
    ensures var c, i, d := cores[n], inputs[n], cores[n + 1];
      var linear, angular := if InSequence(c) then 0.0 else c.linear, if InSequence(c) then 0.0 else c.angular;
      && d.state == NORMAL
      && d.lastDriveSign == (if Direction(i) == 0 then c.lastDriveSign else Direction(i))
      && Approaches(linear, i.linear, if Abs(i.linear) > Abs(linear) then k.linearAccel else k.linearDecel, i, d.linear)
      && (Direction(i) == 0 || Abs(i.angular) >= k.straightDeadband ==>
            Approaches(angular, i.angular, k.angularAccel, i, d.angular) && d.straightYaw.None?)
  {
    TickDrives(k, cores[n], inputs[n], cores[n + 1]);
  }

  lemma TickDrives(k: Config, c: Core, i: Input, d: Core)
    requires PlainlyDriven(k, c, i) && d == Update(k, c, i)
    ensures var linear, angular := if InSequence(c) then 0.0 else c.linear, if InSequence(c) then 0.0 else c.angular;
      && d.state == NORMAL
      && d.lastDriveSign == (if Direction(i) == 0 then c.lastDriveSign else Direction(i))
      && Approaches(linear, i.linear, if Abs(i.linear) > Abs(linear) then k.linearAccel else k.linearDecel, i, d.linear)
      && (Direction(i) == 0 || Abs(i.angular) >= k.straightDeadband ==>
            Approaches(angular, i.angular, k.angularAccel, i, d.angular) && d.straightYaw.None?)
  {
    var e := Filtered(k, c, i);
    DecidesToDrive(k, e, i);
    NormalDrives(k, Decide(k, e, i), i, d);
  }

  /** Where plain driving starts from. */
  lemma DecidesToDrive(k: Config, c: Core, i: Input)
    requires PlainlyDriven(k, c, i)
    ensures var e := Decide(k, c, i);
      && (e.state == IDLE || e.state == NORMAL) && e.lastDriveSign == c.lastDriveSign
      && e.linear == (if InSequence(c) then 0.0 else c.linear)
      && e.angular == (if InSequence(c) then 0.0 else c.angular)
      && (!InSequence(c) ==> e.straightYaw == c.straightYaw)
  {}

  lemma NormalDrives(k: Config, c: Core, i: Input, d: Core)
    requires (c.state == IDLE || c.state == NORMAL) && d == Act(k, c, i)
    ensures d.state == NORMAL && d.lastDriveSign == (if Direction(i) == 0 then c.lastDriveSign else Direction(i))
    ensures Approaches(c.linear, i.linear, if Abs(i.linear) > Abs(c.linear) then k.linearAccel else k.linearDecel,
                       i, d.linear)
    ensures Direction(i) == 0 || Abs(i.angular) >= k.straightDeadband ==>
              Approaches(c.angular, i.angular, k.angularAccel, i, d.angular) && d.straightYaw.None?
  {
    var rate := if Abs(i.linear) > Abs(c.linear) then k.linearAccel else k.linearDecel;
    SlewApproaches(c.linear, i.linear, rate, i);
    SlewApproaches(c.angular, i.angular, k.angularAccel, i);
  }

  // ---------- sequences ----------

  /** A position is known. */
  function Here(i: Input): Option<(real, real)> {
    match (i.x, i.y)
    case (Some(x), Some(y)) => Some((x, y))
    case _ => None
  }

  /** The base itself stands still, as measured, or after the timeout when nothing is measured. */
  predicate Standing(k: Config, since: real, i: Input) {
    match i.measuredLinear
    case Some(v) => -0.012 < v < 0.012
    case None => i.now - since >= k.stopTimeout
  }

  /** Ramped to rest from the given outputs: both small, and the base standing. */
  predicate ComesToRest(k: Config, linear: real, angular: real, since: real, i: Input) {
    -0.003 < linear < 0.003 && -0.01 < angular < 0.01 && Standing(k, since, i)
  }

  /** The creep has lasted or led far enough. */
  predicate CreptEnough(k: Config, since: real, start: Option<(real, real)>, i: Input) {
    || i.now >= since + k.alignTimeout
    || (start.Some? && Here(i).Some? &&
        (k.alignDistance <= 0.0 ||
         (Here(i).value.0 - start.value.0) * (Here(i).value.0 - start.value.0)
         + (Here(i).value.1 - start.value.1) * (Here(i).value.1 - start.value.1) >= k.alignDistance * k.alignDistance))
  }

  /** A ramp towards rest from the outputs x, linear, and y, angular, of a phase that began at a time. */
  ghost predicate Ramps(k: Config, x: real, y: real, since: real, i: Input, d: Core) {
    exists linear, angular :: RampsTo(k, x, y, since, i, d, linear, angular)
  }

  /** The outputs fall by a whole step; once everything rests the next phase begins, otherwise this one
      goes on. */
  predicate RampsTo(k: Config, x: real, y: real, since: real, i: Input, d: Core, linear: real, angular: real) {
    && Approaches(x, 0.0, k.linearDecel, i, linear)
    && Approaches(y, 0.0, k.angularAccel * 2.0, i, angular)
    && if ComesToRest(k, linear, angular, since, i)
       then d.linear == 0.0 && d.angular == 0.0 && d.stateSince == i.now && (d.state == ALIGN || d.state == NORMAL)
       else d.linear == linear && d.angular == angular && d.stateSince == since
            && (d.state == BRAKE || d.state == ALIGN_STOP)
  }

  /** Braking for a reversal, since the given time: at rest, the creep begins from here. */
  ghost predicate Brakes(k: Config, x: real, y: real, since: real, i: Input, d: Core) {
    && Ramps(k, x, y, since, i, d) && (d.state == BRAKE || d.state == ALIGN)
    && (d.state == ALIGN ==> d.alignStart == Here(i))
  }

  /** Creeping in the new direction, since the given time and from the given place, until far enough. */
  predicate Creeps(k: Config, c: Core, direction: int, since: real, start: Option<(real, real)>, i: Input, d: Core) {
    && Approaches(c.linear, if direction == 1 then k.alignSpeed else -k.alignSpeed, k.linearAccel, i, d.linear)
    && (d.state == ALIGN_STOP <==> CreptEnough(k, since, start, i))
    && d.stateSince == (if d.state == ALIGN_STOP then i.now else since)
    && d.lastDriveSign == c.lastDriveSign
  }

  /** The first direction of all, with an initial alignment wanted, begins by creeping from here. */
  lemma FirstDirectionCreeps(k: Config, cores: seq<Core>, inputs: seq<Input>, n: nat)
    requires IsRun(k, cores, inputs) && n < |inputs| && !AsksToStop(inputs[n]) && !InSequence(cores[n])
    requires Direction(inputs[n]) != 0 && cores[n].lastDriveSign == 0 && k.initialAlignment
    ensures var c, i, d := cores[n], inputs[n], cores[n + 1];
      && Creeps(k, c, Direction(i), i.now, Here(i), i, d)
      && d.reversalSign == Direction(i) && d.referenceYaw == i.yaw && d.alignStart == Here(i)
      && (d.state == INITIAL_ALIGN || d.state == ALIGN_STOP)
  {
    TickCreepsFirst(k, cores[n], inputs[n], cores[n + 1]);
  }

  lemma TickCreepsFirst(k: Config, c: Core, i: Input, d: Core)
    requires d == Update(k, c, i) && !AsksToStop(i) && !InSequence(c)
    requires Direction(i) != 0 && c.lastDriveSign == 0 && k.initialAlignment
    ensures Creeps(k, c, Direction(i), i.now, Here(i), i, d)
    ensures d.reversalSign == Direction(i) && d.referenceYaw == i.yaw && d.alignStart == Here(i)
    ensures d.state == INITIAL_ALIGN || d.state == ALIGN_STOP
  {
    var e := Filtered(k, c, i);
    DecidesToCreep(k, e, i);
    CreepActs(k, Decide(k, e, i), i, d);
  }

  lemma DecidesToCreep(k: Config, c: Core, i: Input)
    requires !AsksToStop(i) && !InSequence(c) && Direction(i) != 0 && c.lastDriveSign == 0 && k.initialAlignment
    ensures Decide(k, c, i) == c.(state := INITIAL_ALIGN, stateSince := i.now, reversalSign := Direction(i),
                                  referenceYaw := i.yaw, alignStart := Here(i))
  {}

  lemma CreepActs(k: Config, c: Core, i: Input, d: Core)
    requires (c.state == INITIAL_ALIGN || c.state == ALIGN) && d == Act(k, c, i)
    requires c.reversalSign == 1 || c.reversalSign == -1
    ensures Creeps(k, c, c.reversalSign, c.stateSince, c.alignStart, i, d)
    ensures d.reversalSign == c.reversalSign && d.referenceYaw == c.referenceYaw && d.alignStart == c.alignStart
    ensures d.state == c.state || d.state == ALIGN_STOP
  {
    SlewApproaches(c.linear, if c.reversalSign == 1 then k.alignSpeed else -k.alignSpeed, k.linearAccel, i);
    CompleteMeansEnough(k, c, i);
  }

  lemma CompleteMeansEnough(k: Config, c: Core, i: Input)
    ensures AlignComplete(k, c, i) <==> CreptEnough(k, c.stateSince, c.alignStart, i)
  {}

  /** The direction opposite to the one last driven begins by braking. */
  lemma ReversalBrakes(k: Config, cores: seq<Core>, inputs: seq<Input>, n: nat)
    requires IsRun(k, cores, inputs) && n < |inputs| && !AsksToStop(inputs[n]) && !InSequence(cores[n])
    requires Direction(inputs[n]) != 0 && cores[n].lastDriveSign == -Direction(inputs[n])
    ensures var c, i, d := cores[n], inputs[n], cores[n + 1];
      && Brakes(k, c.linear, c.angular, i.now, i, d)
      && d.reversalSign == Direction(i) && d.referenceYaw == i.yaw && d.lastDriveSign == c.lastDriveSign
  {
    TickBrakesFirst(k, cores[n], inputs[n], cores[n + 1]);
  }

  lemma RampIs(k: Config, c: Core, since: real, i: Input, d: Core)
    requires var linear, angular := Slew(c.linear, 0.0, k.linearDecel, TickLength(i)),
                                    Slew(c.angular, 0.0, k.angularAccel * 2.0, TickLength(i));
      if ComesToRest(k, linear, angular, since, i)
      then d.linear == 0.0 && d.angular == 0.0 && d.stateSince == i.now && (d.state == ALIGN || d.state == NORMAL)
      else d.linear == linear && d.angular == angular && d.stateSince == since
           && (d.state == BRAKE || d.state == ALIGN_STOP)
    ensures Ramps(k, c.linear, c.angular, since, i, d)
  {
    var linear, angular := Slew(c.linear, 0.0, k.linearDecel, TickLength(i)),
                           Slew(c.angular, 0.0, k.angularAccel * 2.0, TickLength(i));
    SlewApproaches(c.linear, 0.0, k.linearDecel, i);
    SlewApproaches(c.angular, 0.0, k.angularAccel * 2.0, i);
    assert RampsTo(k, c.linear, c.angular, since, i, d, linear, angular);
  }

  lemma TickBrakesFirst(k: Config, c: Core, i: Input, d: Core)
    requires d == Update(k, c, i) && !AsksToStop(i) && !InSequence(c)
    requires Direction(i) != 0 && c.lastDriveSign == -Direction(i)
    ensures Brakes(k, c.linear, c.angular, i.now, i, d)
    ensures d.reversalSign == Direction(i) && d.referenceYaw == i.yaw && d.lastDriveSign == c.lastDriveSign
  {
    var e := Filtered(k, c, i);
    DecidesToBrake(k, e, i);
    BrakeActs(k, Decide(k, e, i), i, d);
  }

  lemma DecidesToBrake(k: Config, c: Core, i: Input)
    requires !AsksToStop(i) && !InSequence(c) && Direction(i) != 0 && c.lastDriveSign == -Direction(i)
    ensures Decide(k, c, i) == c.(state := BRAKE, stateSince := i.now, reversalSign := Direction(i),
                                  referenceYaw := i.yaw, straightYaw := None)
  {}

  lemma BrakeActs(k: Config, c: Core, i: Input, d: Core)
    requires c.state == BRAKE && d == Act(k, c, i)
    ensures Brakes(k, c.linear, c.angular, c.stateSince, i, d)
    ensures d.reversalSign == c.reversalSign && d.referenceYaw == c.referenceYaw && d.lastDriveSign == c.lastDriveSign
  {
    RampIs(k, c, c.stateSince, i, d);
  }

  lemma StopActs(k: Config, c: Core, i: Input, d: Core)
    requires c.state == ALIGN_STOP && d == Act(k, c, i)
    ensures Ramps(k, c.linear, c.angular, c.stateSince, i, d) && (d.state == ALIGN_STOP || d.state == NORMAL)
    ensures d.lastDriveSign == if d.state == NORMAL then c.reversalSign else c.lastDriveSign
    ensures d.reversalSign == c.reversalSign
  {
    RampIs(k, c, c.stateSince, i, d);
  }

  lemma DecidesToGoOn(k: Config, c: Core, i: Input)
    requires !AsksToStop(i) && InSequence(c) && Direction(i) == c.reversalSign
    ensures Decide(k, c, i) == c
  {}

  /** A sequence under way whose direction is still asked for. */
  predicate GoesOn(c: Core, i: Input) {
    !AsksToStop(i) && InSequence(c) && Direction(i) == c.reversalSign
  }

  lemma ActsOn(k: Config, c: Core, i: Input) returns (e: Core)
    requires GoesOn(c, i)
    ensures SameButRate(c, e) && Update(k, c, i) == Act(k, e, i)
  {
    e := Filtered(k, c, i);
    DecidesToGoOn(k, e, i);
  }

  /** Braking goes on until the base is at rest; then the creep begins. */
  lemma BrakingGoesOn(k: Config, cores: seq<Core>, inputs: seq<Input>, n: nat)
    requires IsRun(k, cores, inputs) && n < |inputs| && GoesOn(cores[n], inputs[n]) && cores[n].state == BRAKE
    ensures var c, d := cores[n], cores[n + 1];
      && Brakes(k, c.linear, c.angular, c.stateSince, inputs[n], d)
      && d.reversalSign == c.reversalSign && d.lastDriveSign == c.lastDriveSign
  {
    var e := ActsOn(k, cores[n], inputs[n]);
    BrakeActs(k, e, inputs[n], cores[n + 1]);
  }

  /** Creeping goes on until it has lasted or led far enough; then the base is stopped. */
  lemma CreepingGoesOn(k: Config, cores: seq<Core>, inputs: seq<Input>, n: nat)
    requires IsRun(k, cores, inputs) && n < |inputs| && GoesOn(cores[n], inputs[n])
    requires cores[n].state == INITIAL_ALIGN || cores[n].state == ALIGN
    ensures var c, d := cores[n], cores[n + 1];
      && Creeps(k, c, c.reversalSign, c.stateSince, c.alignStart, inputs[n], d)
      && d.reversalSign == c.reversalSign && (d.state == c.state || d.state == ALIGN_STOP)
  {
    RunInv(k, cores, inputs, n);
    var e := ActsOn(k, cores[n], inputs[n]);
    CreepActs(k, e, inputs[n], cores[n + 1]);
  }

  /** Stopping goes on until the base is at rest; then the new direction is the one last driven. */
  lemma StoppingGoesOn(k: Config, cores: seq<Core>, inputs: seq<Input>, n: nat)
    requires IsRun(k, cores, inputs) && n < |inputs| && GoesOn(cores[n], inputs[n]) && cores[n].state == ALIGN_STOP
    ensures var c, d := cores[n], cores[n + 1];
      && Ramps(k, c.linear, c.angular, c.stateSince, inputs[n], d) && (d.state == ALIGN_STOP || d.state == NORMAL)
      && d.lastDriveSign == (if d.state == NORMAL then c.reversalSign else c.lastDriveSign)
      && d.reversalSign == c.reversalSign
  {
    var e := ActsOn(k, cores[n], inputs[n]);
    StopActs(k, e, inputs[n], cores[n + 1]);
  }

  // ---------- headings ----------

  /** While the caster swivels, the base is turned back towards its heading, within a small bound. */
  lemma CreepTurnsBack(k: Config, cores: seq<Core>, inputs: seq<Input>, n: nat) returns (target: real)
    requires IsRun(k, cores, inputs) && n < |inputs| && GoesOn(cores[n], inputs[n])
    requires cores[n].state == INITIAL_ALIGN || cores[n].state == ALIGN
    requires inputs[n].yaw.Some? && cores[n].referenceYaw.Some?
    requires k.headingKp > 0.0 && k.headingMax > 0.0 && k.alignHeadingMax > 0.0
    ensures var error := k.wrap(cores[n].referenceYaw.value - inputs[n].yaw.value);
      && Approaches(cores[n].angular, target, k.angularAccel, inputs[n], cores[n + 1].angular)
      && -k.alignHeadingMax <= target <= k.alignHeadingMax
      && (error > 0.0 ==> target > 0.0) && (error < 0.0 ==> target < 0.0)
  {
    var e := ActsOn(k, cores[n], inputs[n]);
    target := CreepHeads(k, e, inputs[n], cores[n + 1]);
  }

  lemma CreepHeads(k: Config, c: Core, i: Input, d: Core) returns (target: real)
    requires (c.state == INITIAL_ALIGN || c.state == ALIGN) && d == Act(k, c, i)
    requires i.yaw.Some? && c.referenceYaw.Some?
    requires k.headingKp > 0.0 && k.headingMax > 0.0 && k.alignHeadingMax > 0.0
    ensures var error := k.wrap(c.referenceYaw.value - i.yaw.value);
      && Approaches(c.angular, target, k.angularAccel, i, d.angular)
      && -k.alignHeadingMax <= target <= k.alignHeadingMax
      && (error > 0.0 ==> target > 0.0) && (error < 0.0 ==> target < 0.0)
  {
    HeadingIsRestoring(k, c, i.yaw);
    target := Clamp(HeadingCommand(k, c, i.yaw), -k.alignHeadingMax, k.alignHeadingMax);
    SlewApproaches(c.angular, target, k.angularAccel, i);
  }

  /** The turn takes one step towards a target between none and the correction that the heading error
      and the yaw rate ask for. */
  ghost predicate HeldOn(k: Config, heading: real, yaw: real, rate: real, before: real, i: Input, after: real) {
    exists target :: HeldBy(k, heading, yaw, rate, before, i, after, target)
  }

  predicate HeldBy(
      k: Config, heading: real, yaw: real, rate: real, before: real, i: Input, after: real, target: real) {
    && Approaches(before, target, k.angularAccel, i, after)
    && Toward(target, Correction(k, k.wrap(heading - yaw), rate))
    && -k.straightMax <= target <= k.straightMax
  }

  /** Driving straight, the base is held on the heading it had when it began to. */
  lemma StraightTurnsBack(k: Config, cores: seq<Core>, inputs: seq<Input>, n: nat)
    requires IsRun(k, cores, inputs) && n < |inputs| && PlainlyDriven(k, cores[n], inputs[n])
    requires Direction(inputs[n]) != 0 && Abs(inputs[n].angular) < k.straightDeadband
    requires inputs[n].yaw.Some? && k.straightMax >= 0.0
    ensures var c, d, yaw := cores[n], cores[n + 1], inputs[n].yaw.value;
      var heading := if c.straightYaw.Some? then c.straightYaw.value else yaw;
      d.straightYaw == Some(heading) && HeldOn(k, heading, yaw, d.yawRate, c.angular, inputs[n], d.angular)
  {
    var e := Filtered(k, cores[n], inputs[n]);
    DecidesToDrive(k, e, inputs[n]);
    HoldsStraight(k, Decide(k, e, inputs[n]), inputs[n], cores[n + 1]);
  }

  lemma HoldsStraight(k: Config, c: Core, i: Input, d: Core)
    requires (c.state == IDLE || c.state == NORMAL) && d == Act(k, c, i)
    requires Direction(i) != 0 && Abs(i.angular) < k.straightDeadband && i.yaw.Some? && k.straightMax >= 0.0
    ensures var heading := if c.straightYaw.Some? then c.straightYaw.value else i.yaw.value;
      d.straightYaw == Some(heading) && HeldOn(k, heading, i.yaw.value, d.yawRate, c.angular, i, d.angular)
  {
    var c1 := BeforeHold(k, c, i, d);
    var (h, target) := StraightHold(k, c1, i.now, i.yaw);
    HoldFields(k, c1, i.now, i.yaw, h);
    HoldTargets(k, c1, i.now, i.yaw, h, target);
    HoldMakes(k, h, i.yaw.value, c.angular, i, d.angular, target);
  }

  lemma HoldTargets(k: Config, c: Core, now: real, yaw: Option<real>, h: Core, target: real)
    requires k.straightMax >= 0.0 && StraightHold(k, c, now, yaw) == (h, target)
    ensures Toward(target, HoldLaw(k, h)) && Abs(target) <= k.straightMax
  {
    HoldFollowsLaw(k, c, now, yaw);
    HoldIsBounded(k, c, now, yaw);
  }

  lemma HoldMakes(k: Config, h: Core, yaw: real, before: real, i: Input, after: real, target: real)
    requires h.straightYaw.Some? && h.headingError == k.wrap(h.straightYaw.value - yaw)
    requires Toward(target, HoldLaw(k, h)) && Abs(target) <= k.straightMax
    requires after == Slew(before, target, k.angularAccel, TickLength(i))
    ensures HeldOn(k, h.straightYaw.value, yaw, h.yawRate, before, i, after)
  {
    SlewApproaches(before, target, k.angularAccel, i);
    assert HeldBy(k, h.straightYaw.value, yaw, h.yawRate, before, i, after, target);
  }

  /** The core that the straight hold works on. */
  lemma BeforeHold(k: Config, c: Core, i: Input, d: Core) returns (c1: Core)
    requires (c.state == IDLE || c.state == NORMAL) && d == Act(k, c, i)
    requires Direction(i) != 0 && Abs(i.angular) < k.straightDeadband
    ensures c1.straightYaw == c.straightYaw && c1.angular == c.angular
    ensures var (h, target) := StraightHold(k, c1, i.now, i.yaw);
      && d.angular == Slew(h.angular, target, k.angularAccel, TickLength(i))
      && d.straightYaw == h.straightYaw && d.yawRate == h.yawRate
  {
    var limit := if Abs(i.linear) > Abs(c.linear) then k.linearAccel else k.linearDecel;
    c1 := Enter(c, NORMAL, i.now).(linear := Slew(c.linear, i.linear, limit, TickLength(i)));
  }

  lemma HoldFields(k: Config, c: Core, now: real, yaw: Option<real>, h: Core)
    requires yaw.Some? && h == StraightHold(k, c, now, yaw).0
    ensures var heading := if c.straightYaw.Some? then c.straightYaw.value else yaw.value;
      && h.straightYaw == Some(heading) && h.headingError == k.wrap(heading - yaw.value)
      && h.yawRate == c.yawRate && h.angular == c.angular
  {}
}
