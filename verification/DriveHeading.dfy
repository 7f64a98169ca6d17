/** The angular channel of the drive supervisor: what its heading commands, its yaw-rate filter and
    its slew limit keep (amr_base_driver/drive_supervisor_core.py, lines 114-158 and 223-289). */
module DriveHeading {
  import opened Common
  import opened DriveSupervisor

  lemma ClampWithin(value: real, bound: real)
    ensures Abs(Clamp(value, -bound, bound)) <= Abs(bound)
  {}

  /** However far the base is off its heading, the command stays within the larger of its two bounds. */
  lemma HeadingIsBounded(k: Config, c: Core, yaw: Option<real>)
    ensures Abs(HeadingCommand(k, c, yaw)) <= Max(Abs(k.headingMax), Abs(k.headingMin))
  {
    if yaw.Some? && c.referenceYaw.Some? {
      ClampWithin(k.headingKp * HeadingError(k, c, yaw), k.headingMax);
    }
  }

  /** Exactly the command: the gain times the error, cut to the maximum in size, and raised to the
      minimum when the error is out of tolerance and the command weaker than that. */
  lemma HeadingExactly(k: Config, c: Core, yaw: Option<real>, drive: real)
    requires yaw.Some? && c.referenceYaw.Some? && k.headingMax >= 0.0
    requires drive == k.headingKp * k.wrap(c.referenceYaw.value - yaw.value)
    ensures var error, command := k.wrap(c.referenceYaw.value - yaw.value), HeadingCommand(k, c, yaw);
      if Abs(error) > k.headingTolerance && Min(Abs(drive), k.headingMax) < k.headingMin
      then command == if drive < 0.0 && k.headingMax > 0.0 then -k.headingMin else k.headingMin
      else command == if drive > k.headingMax then k.headingMax else if drive < -k.headingMax then -k.headingMax
                      else drive
  {
    RaisedExactly(k, k.wrap(c.referenceYaw.value - yaw.value), drive);
  }

  lemma RaisedExactly(k: Config, error: real, drive: real)
    requires k.headingMax >= 0.0
    ensures var command := AtLeastMinimum(k, error, Clamp(drive, -k.headingMax, k.headingMax));
      if Abs(error) > k.headingTolerance && Min(Abs(drive), k.headingMax) < k.headingMin
      then command == if drive < 0.0 && k.headingMax > 0.0 then -k.headingMin else k.headingMin
      else command == if drive > k.headingMax then k.headingMax else if drive < -k.headingMax then -k.headingMax
                      else drive
  {}

  /** The command turns the base back towards its heading, and out of tolerance it is strong enough
      to move it. */
  lemma HeadingIsRestoring(k: Config, c: Core, yaw: Option<real>)
    requires yaw.Some? && c.referenceYaw.Some? && k.headingKp > 0.0 && k.headingMax > 0.0
    ensures var error, command := HeadingError(k, c, yaw), HeadingCommand(k, c, yaw);
      && (error > 0.0 ==> command > 0.0) && (error < 0.0 ==> command < 0.0)
      && (Abs(error) > k.headingTolerance ==> Abs(command) >= k.headingMin)
  {
    var error := HeadingError(k, c, yaw);
    if error > 0.0 {
      Product(k.headingKp, error);
    } else if error < 0.0 {
      Product(k.headingKp, -error);
      assert k.headingKp * -error == -(k.headingKp * error);
    }
    Restoring(k, error, k.headingKp * error);
  }

  lemma Product(x: real, y: real)
    requires x > 0.0 && y > 0.0
    ensures x * y > 0.0
  {}

  lemma Restoring(k: Config, error: real, drive: real)
    requires k.headingMax > 0.0 && (error > 0.0 ==> drive > 0.0) && (error < 0.0 ==> drive < 0.0)
    ensures var command := AtLeastMinimum(k, error, Clamp(drive, -k.headingMax, k.headingMax));
      && (error > 0.0 ==> command > 0.0) && (error < 0.0 ==> command < 0.0)
      && (Abs(error) > k.headingTolerance ==> Abs(command) >= k.headingMin)
  {}

  lemma HoldCommandIsBounded(k: Config, error: real, rate: real)
    ensures Abs(HoldCommand(k, error, rate)) <= Abs(k.straightMax)
  {
    ClampWithin(k.straightKp * error - k.straightKd * rate, k.straightMax);
  }

  lemma BlendWeakens(k: Config, age: real, command: real)
    requires k.holdRampTime > 0.0
    ensures Abs(Blend(k, age, command)) <= Abs(command)
  {
    Fraction(Clamp(age / k.holdRampTime, 0.0, 1.0), command);
  }

  /** The straight-line hold stays within its bound. */
  lemma HoldIsBounded(k: Config, c: Core, now: real, yaw: Option<real>)
    ensures Abs(StraightHold(k, c, now, yaw).1) <= Abs(k.straightMax)
  {
    if yaw.Some? {
      var c1 := CaptureStraight(c, now, yaw.value);
      var error := k.wrap(c1.straightYaw.value - yaw.value);
      HoldCommandIsBounded(k, error, c1.yawRate);
      if k.holdRampTime > 0.0 {
        var since := if c1.holdSince.None? then now else c1.holdSince.value;
        BlendWeakens(k, now - since, HoldCommand(k, error, c1.yawRate));
      }
    }
  }

  /** The correction that a heading error and a yaw rate ask for. */
  function Correction(k: Config, error: real, rate: real): real {
    k.straightKp * error - k.straightKd * rate
  }

  function HoldLaw(k: Config, c: Core): real {
    Correction(k, c.headingError, c.yawRate)
  }

  predicate Quiet(k: Config, c: Core) {
    Abs(c.headingError) <= k.straightTolerance && Abs(c.yawRate) < k.quietYawRate
  }

  /** The command lies between rest and x. */
  predicate Toward(command: real, x: real) {
    Min(0.0, x) <= command <= Max(0.0, x)
  }

  lemma ClampToward(x: real, bound: real)
    requires bound >= 0.0
    ensures Toward(Clamp(x, -bound, bound), x)
  {}

  lemma BlendToward(k: Config, age: real, command: real, x: real)
    requires k.holdRampTime > 0.0 && Toward(command, x)
    ensures Toward(Blend(k, age, command), x)
  {
    PartOf(Clamp(age / k.holdRampTime, 0.0, 1.0), command);
  }

  /** The command is the bounded correction, faded in since the hold began. */
  predicate Held(k: Config, d: Core, now: real, command: real) {
    var full := HoldCommand(k, d.headingError, d.yawRate);
    if k.holdRampTime <= 0.0 then command == full
    else d.holdSince.Some? && command == Blend(k, now - d.holdSince.value, full)
  }

  lemma HoldCases(k: Config, c: Core, now: real, yaw: Option<real>, d: Core, command: real)
    requires StraightHold(k, c, now, yaw) == (d, command)
    ensures if yaw.None? || Quiet(k, d) then command == 0.0 else Held(k, d, now, command)
  {}

  lemma HeldToward(k: Config, d: Core, now: real, command: real)
    requires k.straightMax >= 0.0 && Held(k, d, now, command)
    ensures Toward(command, HoldLaw(k, d))
  {
    var full := HoldCommand(k, d.headingError, d.yawRate);
    ClampToward(HoldLaw(k, d), k.straightMax);
    if k.holdRampTime > 0.0 {
      BlendToward(k, now - d.holdSince.value, full, HoldLaw(k, d));
    }
  }

  /** For every input, the hold never overshoots or opposes the correction asked for, and it gives no
      command without a heading or in the quiet band. */
  lemma HoldFollowsLaw(k: Config, c: Core, now: real, yaw: Option<real>)
    ensures var (d, command) := StraightHold(k, c, now, yaw);
      && (k.straightMax >= 0.0 ==> Toward(command, HoldLaw(k, d)))
      && (yaw.None? || Quiet(k, d) ==> command == 0.0)
  {
    var (d, command) := StraightHold(k, c, now, yaw);
    HoldCases(k, c, now, yaw, d, command);
    if k.straightMax >= 0.0 && yaw.Some? && !Quiet(k, d) {
      HeldToward(k, d, now, command);
    }
  }

  /** Exactly the hold outside the quiet band: the correction asked for, cut to the maximum in size,
      faded in over the ramp time from when the hold began. */
  lemma HoldExactly(k: Config, c: Core, now: real, yaw: real) returns (full: real, age: real)
    requires k.straightMax >= 0.0
    ensures var (d, command) := StraightHold(k, c, now, Some(yaw));
      !Quiet(k, d) ==>
      && full == Cut(HoldLaw(k, d), k.straightMax)
      && d.holdSince.Some? && age == now - d.holdSince.value
      && (k.holdRampTime <= 0.0 || age >= k.holdRampTime ==> command == full)
      && (k.holdRampTime > 0.0 && age <= 0.0 ==> command == 0.0)
      && (0.0 < age < k.holdRampTime ==> k.holdRampTime * command == age * full)
  {
    var (d, command) := StraightHold(k, c, now, Some(yaw));
    HoldCases(k, c, now, Some(yaw), d, command);
    full := HoldCommand(k, d.headingError, d.yawRate);
    age := if d.holdSince.Some? then now - d.holdSince.value else 0.0;
    if !Quiet(k, d) {
      CutIsClamp(HoldLaw(k, d), k.straightMax);
      HoldBegan(k, c, now, yaw, d, command);
      if k.holdRampTime > 0.0 {
        BlendExactly(k, age, full);
      }
    }
  }

  /** x, cut to the bound in size. */
  function Cut(x: real, bound: real): real {
    if x > bound then bound else if x < -bound then -bound else x
  }

  lemma CutIsClamp(x: real, bound: real)
    requires bound >= 0.0
    ensures Cut(x, bound) == Clamp(x, -bound, bound)
  {}

  lemma HoldBegan(k: Config, c: Core, now: real, yaw: real, d: Core, command: real)
    requires StraightHold(k, c, now, Some(yaw)) == (d, command) && !Quiet(k, d)
    ensures d.holdSince.Some?
  {}

  lemma BlendExactly(k: Config, age: real, full: real)
    requires k.holdRampTime > 0.0
    ensures age >= k.holdRampTime ==> Blend(k, age, full) == full
    ensures age <= 0.0 ==> Blend(k, age, full) == 0.0
    ensures 0.0 < age < k.holdRampTime ==> k.holdRampTime * Blend(k, age, full) == age * full
  {
    var ramp, share := k.holdRampTime, age / k.holdRampTime;
    assert ramp * share == age;
    if age >= ramp {
      Share(ramp, share, 1.0);
    } else if age <= 0.0 {
      Share(ramp, -share, 0.0);
    } else {
      Quotient(age, ramp);
      Parts(ramp, share, full);
    }
  }

  lemma Share(ramp: real, share: real, bound: real)
    requires ramp > 0.0 && ramp * share >= ramp * bound
    ensures share >= bound
  {
    if share < bound {
      Product(ramp, bound - share);
    }
  }

  lemma Scaled(share: real, x: real)
    requires 0.0 <= share <= 1.0 && x >= 0.0
    ensures 0.0 <= share * x <= x
  {
    NonNegative(share, x);
    NonNegative(1.0 - share, x);
    assert (1.0 - share) * x == x - share * x;
  }

  lemma NonNegative(x: real, y: real)
    requires x >= 0.0 && y >= 0.0
    ensures x * y >= 0.0
  {}

  /** A share of a number has its sign and is no larger. */
  lemma PartOf(share: real, x: real)
    requires 0.0 <= share <= 1.0
    ensures Min(0.0, x) <= share * x <= Max(0.0, x)
  {
    if x >= 0.0 {
      Scaled(share, x);
    } else {
      Scaled(share, -x);
      assert share * -x == -(share * x);
    }
  }

  lemma Fraction(share: real, x: real)
    requires 0.0 <= share <= 1.0
    ensures Abs(share * x) <= Abs(x)
  {
    PartOf(share, x);
  }

  /** A hold that has just captured its reference starts from nothing. */
  lemma HoldFadesIn(k: Config, c: Core, now: real, yaw: Option<real>)
    requires k.holdRampTime > 0.0 && c.straightYaw.None?
    ensures StraightHold(k, c, now, yaw).1 == 0.0
  {}

  /** The filtered rate lies between the old one and the measurement, keeps the old one without a
      measurement, and takes the measurement when there is no time constant. */
  lemma FilterIsBetween(k: Config, c: Core, dt: real, measured: Option<real>)
    requires dt >= 0.0
    ensures var rate := FilterYawRate(k, c, dt, measured).yawRate;
      && (measured.None? ==> rate == c.yawRate)
      && (measured.Some? ==> Min(c.yawRate, measured.value) <= rate <= Max(c.yawRate, measured.value))
      && (measured.Some? && k.yawRateTau <= 0.0 ==> rate == measured.value)
  {
    if measured.Some? {
      ShareIsShare(k, dt);
      Mixed(FilterShare(k, dt), c.yawRate, measured.value);
      MixWhole(c.yawRate, measured.value);
    }
  }

  /** The filter is of first order: with time constant tau, a tick dt moves the rate towards the
      measurement by dt parts in tau + dt of the way. */
  lemma FilterExactly(k: Config, c: Core, dt: real, measured: real, moved: real)
    requires dt >= 0.0 && k.yawRateTau > 0.0
    requires moved == FilterYawRate(k, c, dt, Some(measured)).yawRate - c.yawRate
    ensures (k.yawRateTau + dt) * moved == dt * (measured - c.yawRate)
  {
    var share, whole, way := dt / (k.yawRateTau + dt), k.yawRateTau + dt, measured - c.yawRate;
    Quotient(dt, whole);
    assert FilterShare(k, dt) == share;
    Parts(whole, share, way);
  }

  lemma Quotient(part: real, whole: real)
    requires 0.0 <= part <= whole && whole > 0.0
    ensures 0.0 <= part / whole <= 1.0 && whole * (part / whole) == part
  {
    var q := part / whole;
    assert whole * q == part;
    if q < 0.0 {
      Product(whole, -q);
    } else if q > 1.0 {
      Product(whole, q - 1.0);
    }
  }

  lemma Parts(whole: real, share: real, way: real)
    ensures whole * (share * way) == (whole * share) * way
  {}

  lemma ShareIsShare(k: Config, dt: real)
    requires dt >= 0.0
    ensures 0.0 <= FilterShare(k, dt) <= 1.0 && (k.yawRateTau <= 0.0 ==> FilterShare(k, dt) == 1.0)
  {}

  lemma Mixed(share: real, x: real, y: real)
    requires 0.0 <= share <= 1.0
    ensures Min(x, y) <= Mix(share, x, y) <= Max(x, y)
  {
    PartOf(share, y - x);
    Between(x, y, share * (y - x));
  }

  lemma MixWhole(x: real, y: real)
    ensures Mix(1.0, x, y) == y
  {}

  lemma Between(x: real, y: real, part: real)
    requires Min(0.0, y - x) <= part <= Max(0.0, y - x)
    ensures Min(x, y) <= x + part <= Max(x, y)
  {}

  // ---------- the angular output ----------

  /** How fast the state may turn: twice as fast while ramping to rest. */
  function TurnRate(k: Config, acting: State): real {
    if acting == BRAKE || acting == ALIGN_STOP then k.angularAccel * 2.0 else k.angularAccel
  }

  /** The largest angular command a tick can aim at. */
  function TurnTarget(k: Config, i: Input): real {
    Max(Abs(i.angular), Max(Abs(k.straightMax), Abs(k.alignHeadingMax)))
  }

  /** From one output to the next: within the limit, or put to rest; and no faster than the old output
      or the largest command. */
  predicate Turns(before: real, after: real, limit: real, target: real) {
    && (after == 0.0 || Abs(after - before) <= limit)
    && Abs(after) <= Max(Abs(before), target)
  }

  lemma TurnsToward(current: real, target: real, limit: real, dt: real, bound: real, after: real)
    requires dt >= 0.0 && Abs(target) <= bound && (after == 0.0 || after == Slew(current, target, limit, dt))
    ensures Turns(current, after, Max(0.0, limit * dt), bound)
  {
    SlewMoves(current, target, limit, dt);
  }

  /** What an aligning state turns towards. */
  lemma AlignTarget(k: Config, c: Core, i: Input) returns (target: real)
    ensures Abs(target) <= Abs(k.alignHeadingMax)
    ensures ActAlign(k, c, i).angular == Slew(c.angular, target, k.angularAccel, TickLength(i))
  {
    var command := HeadingCommand(k, c, i.yaw);
    ClampWithin(command, k.alignHeadingMax);
    target := Clamp(command, -k.alignHeadingMax, k.alignHeadingMax);
  }

  /** While the caster swivels the base is turned by no more than its own small limit. */
  lemma AlignTurns(k: Config, c: Core, i: Input)
    ensures Turns(c.angular, ActAlign(k, c, i).angular,
                  Max(0.0, k.angularAccel * TickLength(i)), Abs(k.alignHeadingMax))
  {
    var target := AlignTarget(k, c, i);
    TurnsToward(c.angular, target, k.angularAccel, TickLength(i), Abs(k.alignHeadingMax), ActAlign(k, c, i).angular);
  }

  /** What the normal state turns towards: the straight hold, or the angular speed asked for. */
  lemma NormalTarget(k: Config, c: Core, i: Input) returns (target: real)
    ensures Abs(target) <= TurnTarget(k, i)
    ensures ActNormal(k, c, i).angular == Slew(c.angular, target, k.angularAccel, TickLength(i))
  {
    target := i.angular;
    if Sign(i.linear) != 0 && Abs(i.angular) < k.straightDeadband {
      var limit := if Abs(i.linear) > Abs(c.linear) then k.linearAccel else k.linearDecel;
      var c1 := Enter(c, NORMAL, i.now).(linear := Slew(c.linear, i.linear, limit, TickLength(i)));
      HoldIsBounded(k, c1, i.now, i.yaw);
      target := StraightHold(k, c1, i.now, i.yaw).1;
    }
  }

  /** What the acting state turns towards, if it does not put the base to rest. */
  lemma ActTarget(k: Config, c: Core, i: Input) returns (target: real)
    ensures Abs(target) <= TurnTarget(k, i)
    ensures var after := Act(k, c, i).angular;
      after == 0.0 || after == Slew(c.angular, target, TurnRate(k, c.state), TickLength(i))
  {
    if c.state == BRAKE || c.state == ALIGN_STOP {
      target := 0.0;
    } else if c.state == INITIAL_ALIGN || c.state == ALIGN {
      target := AlignTarget(k, c, i);
    } else {
      target := NormalTarget(k, c, i);
    }
  }

  /** Where a tick's turn starts: a cancelled sequence that leaves only rotation starts from rest. */
  function TurnStart(c: Core, i: Input): real {
    if Cancelled(c, i) then 0.0 else c.angular
  }

  lemma TickTarget(k: Config, c: Core, i: Input) returns (target: real)
    ensures Abs(target) <= TurnTarget(k, i)
    ensures var after := Update(k, c, i).angular;
      after == 0.0 || after == Slew(TurnStart(c, i), target, TurnRate(k, Acting(k, c, i)), TickLength(i))
  {
    var c1 := FilterYawRate(k, c, TickLength(i), i.measuredAngular);
    target := 0.0;
    if !Halts(c1, i) {
      DecideTurns(k, c1, i);
      target := ActTarget(k, Decide(k, c1, i), i);
    }
  }

  /** One tick turns within the limit of the state that acts, or puts the base to rest. */
  lemma TickTurns(k: Config, c: Core, i: Input, after: real, acting: State)
    requires after == Update(k, c, i).angular && acting == Acting(k, c, i)
    ensures TurnsWithin(k, i, acting, TurnStart(c, i), after)
  {
    var target := TickTarget(k, c, i);
    TurnsToward(TurnStart(c, i), target, TurnRate(k, acting), TickLength(i), TurnTarget(k, i), after);
  }

  /** Turns, with the limit of the state that acts and the largest command of the tick. */
  predicate TurnsWithin(k: Config, i: Input, acting: State, before: real, after: real) {
    Turns(before, after, Max(0.0, TurnRate(k, acting) * TickLength(i)), TurnTarget(k, i))
  }

  lemma DecideTurns(k: Config, c: Core, i: Input)
    ensures Decide(k, c, i).angular == if Cancelled(c, i) then 0.0 else c.angular
  {}

  /** In every run, every tick turns within the limit of the state that acts, counted from rest when it
      leaves a cancelled sequence with only rotation asked for. */
  lemma RunTurnsGently(k: Config, cores: seq<Core>, inputs: seq<Input>, n: nat, acting: State)
    requires IsRun(k, cores, inputs) && n < |inputs| && acting == Acting(k, cores[n], inputs[n])
    ensures TurnsWithin(k, inputs[n], acting, TurnStart(cores[n], inputs[n]), cores[n + 1].angular)
  {
    TickTurns(k, cores[n], inputs[n], cores[n + 1].angular, acting);
  }

  /** In every run, whatever is asked for, the angular output never exceeds the largest command that
      the run's inputs and the two heading bounds allow. */
  lemma {:induction false} RunTurnsWithin(k: Config, cores: seq<Core>, inputs: seq<Input>, n: nat, bound: real)
    requires IsRun(k, cores, inputs) && n <= |inputs|
    requires forall j :: 0 <= j < n ==> TurnTarget(k, inputs[j]) <= bound
    requires bound >= 0.0
    ensures Abs(cores[n].angular) <= bound
  {
    if n > 0 {
      RunTurnsWithin(k, cores, inputs, n - 1, bound);
      TickTurns(k, cores[n - 1], inputs[n - 1], cores[n].angular, Acting(k, cores[n - 1], inputs[n - 1]));
    }
  }
}
