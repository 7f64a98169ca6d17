/** Direction changes with a passive caster: the six-state sequence that stops, creeps
    in the new direction and stops again before the new direction is driven. */
module DriveSupervisor {
  import opened Common

  datatype State = IDLE | NORMAL | INITIAL_ALIGN | BRAKE | ALIGN | ALIGN_STOP

  const DEADBAND := 0.005

  /** Tuning parameters; wrap brings an angle into (-pi, pi], quietYawRate is one degree per second. */
  datatype Config = Config(
    linearAccel: real, linearDecel: real, angularAccel: real,
    alignSpeed: real, alignDistance: real, alignTimeout: real, stopTimeout: real,
    headingKp: real, headingMax: real, headingMin: real, alignHeadingMax: real, headingTolerance: real,
    initialAlignment: bool,
    straightKp: real, straightKd: real, straightMax: real, straightTolerance: real, straightDeadband: real,
    holdRampTime: real, yawRateTau: real, quietYawRate: real, wrap: real -> real)

  datatype Core = Core(
    state: State, linear: real, angular: real, lastDriveSign: int, reversalSign: int,
    referenceYaw: Option<real>, alignStart: Option<(real, real)>, stateSince: real, headingError: real,
    straightYaw: Option<real>, holdSince: Option<real>, yawRate: real)

  const INITIAL := Core(IDLE, 0.0, 0.0, 0, 0, None, None, 0.0, 0.0, None, None, 0.0)

  datatype Input = Input(
    now: real, dt: real, linear: real, angular: real, recent: bool,
    x: Option<real>, y: Option<real>, yaw: Option<real>,
    measuredLinear: Option<real>, measuredAngular: Option<real>)

  // ---------- arithmetic ----------

  function Clamp(value: real, low: real, high: real): real {
    Min(Max(value, low), high)
  }

  function Slew(current: real, target: real, limit: real, dt: real): real {
    var change := Max(0.0, limit * dt);
    current + Clamp(target - current, -change, change)
  }

  function Sign(value: real): int {
    if value > DEADBAND then 1 else if value < -DEADBAND then -1 else 0
  }

  function TickLength(i: Input): (dt: real)
    ensures 0.0 <= dt <= 0.2
  {
    Clamp(i.dt, 0.0, 0.2)
  }

  // ---------- pieces of a tick ----------

  function Enter(c: Core, state: State, now: real): Core {
    c.(state := state, stateSince := now)
  }

  function StopNow(c: Core, now: real): Core {
    Core(IDLE, 0.0, 0.0, c.lastDriveSign, 0, None, None, now, 0.0, None, None, 0.0)
  }

  predicate Stopped(k: Config, c: Core, i: Input) {
    match i.measuredLinear
    case Some(v) => Abs(v) < 0.012
    case None => i.now - c.stateSince >= k.stopTimeout
  }

  function HeadingError(k: Config, c: Core, yaw: Option<real>): real {
    if yaw.None? || c.referenceYaw.None? then 0.0 else k.wrap(c.referenceYaw.value - yaw.value)
  }

  function HeadingCommand(k: Config, c: Core, yaw: Option<real>): real {
    if yaw.None? || c.referenceYaw.None? then 0.0
    else
      var error := HeadingError(k, c, yaw);
      AtLeastMinimum(k, error, Clamp(k.headingKp * error, -k.headingMax, k.headingMax))
  }

  /** A command too weak to turn the base is raised while the error is out of tolerance. */
  function AtLeastMinimum(k: Config, error: real, command: real): real {
    if Abs(error) > k.headingTolerance && Abs(command) < k.headingMin
    then (if command < 0.0 then -Abs(k.headingMin) else Abs(k.headingMin))
    else command
  }

  /** The share of a measurement in the filtered rate. */
  function FilterShare(k: Config, dt: real): real
    requires dt >= 0.0
  {
    var tau := Max(0.0, k.yawRateTau);
    if tau == 0.0 then 1.0 else Clamp(dt / (tau + dt), 0.0, 1.0)
  }

  function Mix(share: real, x: real, y: real): real {
    x + share * (y - x)
  }

  function FilterYawRate(k: Config, c: Core, dt: real, measured: Option<real>): Core
    requires dt >= 0.0
  {
    if measured.None? then c else c.(yawRate := Mix(FilterShare(k, dt), c.yawRate, measured.value))
  }

  /** The heading reference is captured on the first straight tick. */
  function CaptureStraight(c: Core, now: real, yaw: real): Core {
    if c.straightYaw.None? then c.(straightYaw := Some(yaw), holdSince := Some(now)) else c
  }

  function StraightHold(k: Config, c: Core, now: real, yaw: Option<real>): (Core, real) {
    if yaw.None? then (c.(headingError := 0.0), 0.0)
    else
      var c1 := CaptureStraight(c, now, yaw.value);
      var c2 := c1.(headingError := k.wrap(c1.straightYaw.value - yaw.value));
      if Abs(c2.headingError) <= k.straightTolerance && Abs(c2.yawRate) < k.quietYawRate then (c2, 0.0)
      else
        var command := HoldCommand(k, c2.headingError, c2.yawRate);
        var c3 := if c2.holdSince.None? then c2.(holdSince := Some(now)) else c2;
        if k.holdRampTime <= 0.0 then (c3, command)
        else (c3, Blend(k, now - c3.holdSince.value, command))
  }

  function HoldCommand(k: Config, error: real, rate: real): real {
    Clamp(k.straightKp * error - k.straightKd * rate, -k.straightMax, k.straightMax)
  }

  /** The heading hold is faded in over the ramp time. */
  function Blend(k: Config, age: real, command: real): real
    requires k.holdRampTime > 0.0
  {
    Clamp(age / k.holdRampTime, 0.0, 1.0) * command
  }

  predicate AlignComplete(k: Config, c: Core, i: Input) {
    if i.now - c.stateSince >= k.alignTimeout then true
    else if c.alignStart.None? || i.x.None? || i.y.None? then false
    else
      var dx, dy := i.x.value - c.alignStart.value.0, i.y.value - c.alignStart.value.1;
      k.alignDistance <= 0.0 || dx * dx + dy * dy >= k.alignDistance * k.alignDistance
  }

  function Position(i: Input): Option<(real, real)> {
    if i.x.Some? && i.y.Some? then Some((i.x.value, i.y.value)) else None
  }

  predicate Aligning(s: State) {
    s == INITIAL_ALIGN || s == BRAKE || s == ALIGN || s == ALIGN_STOP
  }

  // ---------- a tick: decide which state acts, then let it act ----------

  predicate StopRequested(i: Input) {
    !i.recent || (Sign(i.linear) == 0 && Abs(i.angular) < 0.005)
  }

  /** A caster sequence whose direction is no longer wanted; unless only rotation is, it ends in a stop. */
  predicate Cancelled(c: Core, i: Input) {
    Aligning(c.state) && Sign(i.linear) != c.reversalSign
  }

  /** The tick ends in a full stop without any state acting. */
  predicate Halts(c: Core, i: Input) {
    StopRequested(i) || (Cancelled(c, i) && Sign(i.linear) != 0)
  }

  /** The core when its current state acts, after sequences were cancelled or begun. */
  function Decide(k: Config, c: Core, i: Input): Core {
    var c1 := if Cancelled(c, i) then Enter(StopNow(c, i.now), NORMAL, i.now) else c;
    var wanted := Sign(i.linear);
    if c1.state != IDLE && c1.state != NORMAL then c1
    else if wanted != 0 && c1.lastDriveSign == 0 && k.initialAlignment then
      Enter(c1.(reversalSign := wanted, referenceYaw := i.yaw, alignStart := Position(i)), INITIAL_ALIGN, i.now)
    else if wanted != 0 && c1.lastDriveSign != 0 && wanted != c1.lastDriveSign then
      Enter(c1.(reversalSign := wanted, referenceYaw := i.yaw, straightYaw := None), BRAKE, i.now)
    else c1
  }

  /** Ramp to rest; at rest is true once outputs and base have stopped. */
  function RampDown(k: Config, c: Core, dt: real): Core {
    c.(linear := Slew(c.linear, 0.0, k.linearDecel, dt),
       angular := Slew(c.angular, 0.0, k.angularAccel * 2.0, dt))
  }

  predicate AtRest(k: Config, c: Core, i: Input) {
    Abs(c.linear) < 0.003 && Abs(c.angular) < 0.01 && Stopped(k, c, i)
  }

  function ActBrake(k: Config, c: Core, i: Input): Core {
    var c1 := RampDown(k, c, TickLength(i));
    if AtRest(k, c1, i)
    then Enter(c1.(linear := 0.0, angular := 0.0, alignStart := Position(i)), ALIGN, i.now)
    else c1
  }

  /** sign times speed, for a sign of -1, 0 or 1. */
  function Creep(sign: int, speed: real): real {
    if sign > 0 then speed else if sign < 0 then -speed else 0.0
  }

  function ActAlign(k: Config, c: Core, i: Input): Core {
    var dt := TickLength(i);
    var command := Clamp(HeadingCommand(k, c, i.yaw), -k.alignHeadingMax, k.alignHeadingMax);
    var c1 := c.(linear := Slew(c.linear, Creep(c.reversalSign, k.alignSpeed), k.linearAccel, dt),
                 headingError := HeadingError(k, c, i.yaw),
                 angular := Slew(c.angular, command, k.angularAccel, dt));
    if AlignComplete(k, c1, i) then Enter(c1, ALIGN_STOP, i.now) else c1
  }

  function ActAlignStop(k: Config, c: Core, i: Input): Core {
    var c1 := RampDown(k, c, TickLength(i));
    if AtRest(k, c1, i)
    then Core(NORMAL, 0.0, 0.0, c1.reversalSign, c1.reversalSign, i.yaw, c1.alignStart, i.now, 0.0,
              i.yaw, Some(i.now), c1.yawRate)
    else c1
  }

  function ActNormal(k: Config, c: Core, i: Input): Core {
    var dt := TickLength(i);
    var c0 := Enter(c, NORMAL, i.now);
    var limit := if Abs(i.linear) > Abs(c.linear) then k.linearAccel else k.linearDecel;
    var c1 := c0.(linear := Slew(c.linear, i.linear, limit, dt));
    var (c2, target) :=
      if Sign(i.linear) != 0 && Abs(i.angular) < k.straightDeadband then StraightHold(k, c1, i.now, i.yaw)
      else (c1.(straightYaw := None, holdSince := None, headingError := 0.0), i.angular);
    c2.(angular := Slew(c2.angular, target, k.angularAccel, dt),
        lastDriveSign := if Sign(i.linear) != 0 then Sign(i.linear) else c2.lastDriveSign)
  }

  function Act(k: Config, c: Core, i: Input): Core {
    match c.state
    case BRAKE => ActBrake(k, c, i)
    case INITIAL_ALIGN => ActAlign(k, c, i)
    case ALIGN => ActAlign(k, c, i)
    case ALIGN_STOP => ActAlignStop(k, c, i)
    case _ => ActNormal(k, c, i)
  }

  function Update(k: Config, c: Core, i: Input): Core {
    var c1 := FilterYawRate(k, c, TickLength(i), i.measuredAngular);
    if Halts(c1, i) then StopNow(c1, i.now) else Act(k, Decide(k, c1, i), i)
  }

  /** The state that acts in a tick, or IDLE when the tick only stops. */
  function Acting(k: Config, c: Core, i: Input): State {
    var c1 := FilterYawRate(k, c, TickLength(i), i.measuredAngular);
    if Halts(c1, i) then IDLE else Decide(k, c1, i).state
  }

  // ---------- invariant ----------

  /** The output may lean against direction s by no more than the deadband. */
  predicate Follows(s: int, linear: real) {
    (s > 0 ==> linear >= -DEADBAND) && (s < 0 ==> linear <= DEADBAND)
  }

  predicate OppositeDirections(a: real, b: real) {
    (a > DEADBAND && b < -DEADBAND) || (a < -DEADBAND && b > DEADBAND)
  }

  /** The part of the core that decides about directions. */
  datatype Drive = Drive(state: State, linear: real, last: int, wanted: int)

  function DriveOf(c: Core): Drive {
    Drive(c.state, c.linear, c.lastDriveSign, c.reversalSign)
  }

  ghost predicate Inv(d: Drive) {
    && -1 <= d.last <= 1 && -1 <= d.wanted <= 1
    && match d.state
       case IDLE => d.linear == 0.0
       case NORMAL => if d.last == 0 then Abs(d.linear) <= DEADBAND else Follows(d.last, d.linear)
       case BRAKE => d.last != 0 && d.wanted == -d.last && Follows(d.last, d.linear)
       case INITIAL_ALIGN => d.last == 0 && d.wanted != 0 && Follows(d.wanted, d.linear)
       case ALIGN => d.last != 0 && d.wanted == -d.last && Follows(d.wanted, d.linear)
       case ALIGN_STOP => d.wanted != 0 && (d.last == 0 || d.wanted == -d.last) && Follows(d.wanted, d.linear)
  }

  /** r lies between current and target and at most change away from current. */
  predicate Moves(current: real, target: real, change: real, r: real) {
    (current <= r <= target || target <= r <= current) && Abs(r - current) <= change
  }

  lemma SlewMoves(current: real, target: real, limit: real, dt: real)
    requires dt >= 0.0
    ensures Moves(current, target, Max(0.0, limit * dt), Slew(current, target, limit, dt))
  {}

  /** Which state acts on d and what it may make of it; target is the linear speed asked for,
      growth the most the speed may grow in this tick. */
  ghost predicate Acts(d: Drive, d': Drive, target: real, alignSpeed: real, growth: real) {
    match d.state
    case BRAKE =>
      && (Moves(d.linear, 0.0, Abs(d.linear), d'.linear) || d'.linear == 0.0)
      && d'.last == d.last && d'.wanted == d.wanted
      && (d'.state == BRAKE || (d'.state == ALIGN && d'.linear == 0.0))
    case ALIGN_STOP =>
      && (Moves(d.linear, 0.0, Abs(d.linear), d'.linear) || d'.linear == 0.0)
      && d'.wanted == d.wanted
      && (|| (d'.state == ALIGN_STOP && d'.last == d.last)
          || (d'.state == NORMAL && d'.linear == 0.0 && d'.last == d.wanted))
    case ALIGN =>
      && Moves(d.linear, Creep(d.wanted, alignSpeed), growth, d'.linear)
      && d'.last == d.last && d'.wanted == d.wanted && (d'.state == ALIGN || d'.state == ALIGN_STOP)
    case INITIAL_ALIGN =>
      && Moves(d.linear, Creep(d.wanted, alignSpeed), growth, d'.linear)
      && d'.last == d.last && d'.wanted == d.wanted && (d'.state == INITIAL_ALIGN || d'.state == ALIGN_STOP)
    case _ =>
      && (Sign(target) == 0 || Sign(target) == d.last || d.last == 0)
      && Moves(d.linear, target, if Abs(target) > Abs(d.linear) then growth else Abs(d'.linear - d.linear), d'.linear)
      && d'.state == NORMAL && d'.wanted == d.wanted
      && d'.last == if Sign(target) != 0 then Sign(target) else d.last
  }

  lemma ActIsAllowed(k: Config, c: Core, i: Input)
    requires c.state == IDLE || c.state == NORMAL ==>
      Sign(i.linear) == 0 || Sign(i.linear) == c.lastDriveSign || c.lastDriveSign == 0
    ensures Acts(DriveOf(c), DriveOf(Act(k, c, i)), i.linear, k.alignSpeed, Growth(k, i))
  {
    match c.state
    case BRAKE => BrakeDrive(k, c, i);
    case ALIGN_STOP => AlignStopDrive(k, c, i);
    case ALIGN => AlignDrive(k, c, i);
    case INITIAL_ALIGN => AlignDrive(k, c, i);
    case _ => NormalDrive(k, c, i);
  }

  /** The most the linear speed may grow in one tick. */
  function Growth(k: Config, i: Input): (g: real)
    ensures g >= 0.0
  {
    Max(0.0, k.linearAccel * TickLength(i))
  }

  lemma BrakeDrive(k: Config, c: Core, i: Input)
    ensures var c' := ActBrake(k, c, i);
      && (Moves(c.linear, 0.0, Abs(c.linear), c'.linear) || c'.linear == 0.0)
      && c'.lastDriveSign == c.lastDriveSign && c'.reversalSign == c.reversalSign
      && (c'.state == c.state || (c'.state == ALIGN && c'.linear == 0.0))
  {
    SlewMoves(c.linear, 0.0, k.linearDecel, TickLength(i));
  }

  lemma AlignStopDrive(k: Config, c: Core, i: Input)
    ensures var c' := ActAlignStop(k, c, i);
      && (Moves(c.linear, 0.0, Abs(c.linear), c'.linear) || c'.linear == 0.0)
      && c'.reversalSign == c.reversalSign
      && ((c'.state == c.state && c'.lastDriveSign == c.lastDriveSign)
          || (c'.state == NORMAL && c'.linear == 0.0 && c'.lastDriveSign == c.reversalSign))
  {
    SlewMoves(c.linear, 0.0, k.linearDecel, TickLength(i));
  }

  lemma AlignDrive(k: Config, c: Core, i: Input)
    ensures var c' := ActAlign(k, c, i);
      && Moves(c.linear, Creep(c.reversalSign, k.alignSpeed), Growth(k, i), c'.linear)
      && c'.lastDriveSign == c.lastDriveSign && c'.reversalSign == c.reversalSign
      && (c'.state == c.state || c'.state == ALIGN_STOP)
  {
    SlewMoves(c.linear, Creep(c.reversalSign, k.alignSpeed), k.linearAccel, TickLength(i));
  }

  lemma NormalDrive(k: Config, c: Core, i: Input)
    ensures var d, d' := DriveOf(c), DriveOf(ActNormal(k, c, i));
      && Moves(d.linear, i.linear,
               if Abs(i.linear) > Abs(d.linear) then Growth(k, i) else Abs(d'.linear - d.linear), d'.linear)
      && d'.state == NORMAL && d'.wanted == d.wanted
      && d'.last == if Sign(i.linear) != 0 then Sign(i.linear) else d.last
  {
    NormalProjection(k, c, i);
    var limit := if Abs(i.linear) > Abs(c.linear) then k.linearAccel else k.linearDecel;
    SlewMoves(c.linear, i.linear, limit, TickLength(i));
  }

  lemma NormalProjection(k: Config, c: Core, i: Input)
    ensures var limit := if Abs(i.linear) > Abs(c.linear) then k.linearAccel else k.linearDecel;
      DriveOf(ActNormal(k, c, i)) ==
        Drive(NORMAL, Slew(c.linear, i.linear, limit, TickLength(i)),
              if Sign(i.linear) != 0 then Sign(i.linear) else c.lastDriveSign, c.reversalSign)
  {}

  /** What a tick may do to the linear output and the remembered direction. */
  ghost predicate Disciplined(d: Drive, d': Drive, target: real, alignSpeed: real, growth: real) {
    // never from one direction straight into the other
    && !OppositeDirections(d.linear, d'.linear)
    // speed grows no faster than the acceleration limit, and not past what was asked for
    && Abs(d'.linear) <= Abs(d.linear) + growth
    && Abs(d'.linear) <= Max(Abs(d.linear), Max(Abs(target), alignSpeed))
    // the remembered direction is reversed only when the sequence ends, at rest
    && (d'.last == -d.last != 0 ==>
          d.state == ALIGN_STOP && d'.state == NORMAL && d'.linear == 0.0 && d'.last == d.wanted)
  }

  lemma ActsIsDisciplined(d: Drive, d': Drive, target: real, alignSpeed: real, growth: real)
    requires alignSpeed >= 0.0 && growth >= 0.0 && Inv(d) && Acts(d, d', target, alignSpeed, growth)
    ensures Inv(d') && Disciplined(d, d', target, alignSpeed, growth)
  {}

  lemma DecideKeeps(k: Config, c: Core, i: Input)
    requires Inv(DriveOf(c)) && !Halts(c, i)
    ensures var d := Decide(k, c, i);
      && Inv(DriveOf(d)) && d.lastDriveSign == c.lastDriveSign
      && (d.linear == c.linear || (d.linear == 0.0 && d.state == NORMAL && Sign(i.linear) == 0))
      && (d.state == IDLE || d.state == NORMAL ==>
            Sign(i.linear) == 0 || Sign(i.linear) == d.lastDriveSign || d.lastDriveSign == 0)
      && (Aligning(d.state) ==> d.reversalSign == Sign(i.linear))
      && (d.state == c.state || d.state == INITIAL_ALIGN || d.state == BRAKE || d.state == NORMAL)
      && (d.state == ALIGN || d.state == ALIGN_STOP ==> d == c)
  {}

  /** One tick keeps the invariant and is disciplined. */
  lemma TickIsDisciplined(k: Config, c: Core, i: Input)
    requires k.alignSpeed >= 0.0 && Inv(DriveOf(c))
    ensures Inv(DriveOf(Update(k, c, i)))
    ensures Disciplined(DriveOf(c), DriveOf(Update(k, c, i)), i.linear, k.alignSpeed, Growth(k, i))
  {
    var growth := Growth(k, i);
    var c1 := FilterYawRate(k, c, TickLength(i), i.measuredAngular);
    assert DriveOf(c1) == DriveOf(c);
    if !Halts(c1, i) {
      var d := Decide(k, c1, i);
      DecideKeeps(k, c1, i);
      ActIsAllowed(k, d, i);
      ActsIsDisciplined(DriveOf(d), DriveOf(Act(k, d, i)), i.linear, k.alignSpeed, growth);
      DecidedIsDisciplined(DriveOf(c), DriveOf(d), DriveOf(Act(k, d, i)), i.linear, k.alignSpeed, growth);
    }
  }

  lemma DecidedIsDisciplined(c: Drive, d: Drive, d': Drive, target: real, alignSpeed: real, growth: real)
    requires d.last == c.last
    requires d.linear == c.linear || (d.linear == 0.0 && Abs(d'.linear) <= DEADBAND)
    requires d.state == ALIGN_STOP ==> d == c
    requires growth >= 0.0 && Disciplined(d, d', target, alignSpeed, growth)
    ensures Disciplined(c, d', target, alignSpeed, growth)
  {}

  // ---------- runs ----------

  ghost predicate IsRun(k: Config, cores: seq<Core>, inputs: seq<Input>) {
    && k.alignSpeed >= 0.0 && |cores| == |inputs| + 1 && cores[0] == INITIAL
    && forall n :: 0 <= n < |inputs| ==> cores[n + 1] == Update(k, cores[n], inputs[n])
  }

  /** In every run, every tick is disciplined: consecutive outputs never point in opposite
      directions, speed grows within the acceleration limit and never past what was asked for. */
  lemma {:induction false} RunIsDisciplined(k: Config, cores: seq<Core>, inputs: seq<Input>, n: nat)
    requires IsRun(k, cores, inputs) && n < |inputs|
    ensures Inv(DriveOf(cores[n]))
    ensures Disciplined(DriveOf(cores[n]), DriveOf(cores[n + 1]), inputs[n].linear, k.alignSpeed, Growth(k, inputs[n]))
  {
    RunInv(k, cores, inputs, n);
    TickIsDisciplined(k, cores[n], inputs[n]);
  }

  lemma {:induction false} RunInv(k: Config, cores: seq<Core>, inputs: seq<Input>, n: nat)
    requires IsRun(k, cores, inputs) && n <= |inputs|
    ensures Inv(DriveOf(cores[n]))
  {
    if n > 0 {
      RunInv(k, cores, inputs, n - 1);
      TickIsDisciplined(k, cores[n - 1], inputs[n - 1]);
    }
  }

  function ActingStates(k: Config, cores: seq<Core>, inputs: seq<Input>): (acting: seq<State>)
    requires |cores| == |inputs| + 1
    ensures |acting| == |inputs|
    ensures forall n :: 0 <= n < |inputs| ==> acting[n] == Acting(k, cores[n], inputs[n])
  {
    seq(|inputs|, n requires 0 <= n < |inputs| => Acting(k, cores[n], inputs[n]))
  }

  function Drives(cores: seq<Core>): (drives: seq<Drive>)
    ensures |drives| == |cores|
    ensures forall n :: 0 <= n < |cores| ==> drives[n] == DriveOf(cores[n])
  {
    seq(|cores|, n requires 0 <= n < |cores| => DriveOf(cores[n]))
  }

  /** How the acting state relates the drive before and after a tick. */
  ghost predicate Handover(d: Drive, acting: State, d': Drive) {
    Enters(d, acting, d') && Carries(d, acting, d')
  }

  /** Which state acts before a tick can end in an aligning one. */
  ghost predicate Enters(d: Drive, acting: State, d': Drive) {
    && (d'.state == BRAKE ==> acting == BRAKE)
    && (d'.state == ALIGN ==> (acting == BRAKE && d'.linear == 0.0) || acting == ALIGN)
    && (d'.state == INITIAL_ALIGN ==> acting == INITIAL_ALIGN)
    && (d'.state == ALIGN_STOP ==> acting == (if d'.last == 0 then INITIAL_ALIGN else ALIGN) || acting == ALIGN_STOP)
  }

  /** What an aligning state leaves as it was. */
  ghost predicate Carries(d: Drive, acting: State, d': Drive) {
    && (acting == BRAKE || acting == INITIAL_ALIGN ==>
          (d.state == acting ==> d'.wanted == d.wanted) && (d.state == acting || d.state == IDLE || d.state == NORMAL)
          && d'.last == d.last && (acting == INITIAL_ALIGN ==> d.last == 0))
    && (acting == ALIGN || acting == ALIGN_STOP ==>
          d.state == acting && d'.wanted == d.wanted && (d'.state == NORMAL || d'.last == d.last))
  }

  lemma DecideHandsOn(k: Config, c: Core, i: Input)
    requires Inv(DriveOf(c)) && !Halts(c, i)
    ensures var d := Decide(k, c, i);
      && d.lastDriveSign == c.lastDriveSign && Inv(DriveOf(d))
      && (d.state == c.state ==> d.reversalSign == c.reversalSign)
      && (d.state == BRAKE || d.state == INITIAL_ALIGN ==> d.state == c.state || c.state == IDLE || c.state == NORMAL)
      && (d.state == ALIGN || d.state == ALIGN_STOP ==> d == c)
  {
    DecideKeeps(k, c, i);
  }

  /** Acting hands over as the states' own rules allow. */
  lemma ActsHandOver(d: Drive, d': Drive, target: real, alignSpeed: real, growth: real)
    requires Inv(d) && Acts(d, d', target, alignSpeed, growth)
    ensures Enters(d, d.state, d') && Carries(d, d.state, d')
  {}

  /** The step from before the decision to after it keeps what is handed over. */
  lemma DecidedHandsOver(c: Drive, d: Drive, d': Drive)
    requires Enters(d, d.state, d') && Carries(d, d.state, d') && d.last == c.last
    requires d.state == c.state ==> d.wanted == c.wanted
    requires d.state == BRAKE || d.state == INITIAL_ALIGN ==> d.state == c.state || c.state == IDLE || c.state == NORMAL
    requires d.state == ALIGN || d.state == ALIGN_STOP ==> d == c
    ensures Handover(c, d.state, d')
  {}

  lemma TickHandsOver(k: Config, c: Core, i: Input)
    requires k.alignSpeed >= 0.0 && Inv(DriveOf(c))
    ensures Handover(DriveOf(c), Acting(k, c, i), DriveOf(Update(k, c, i)))
  {
    var c1 := FilterYawRate(k, c, TickLength(i), i.measuredAngular);
    assert DriveOf(c1) == DriveOf(c);
    if !Halts(c1, i) {
      var d := Decide(k, c1, i);
      DecideHandsOn(k, c1, i);
      ActIsAllowed(k, d, i);
      ActsHandOver(DriveOf(d), DriveOf(Act(k, d, i)), i.linear, k.alignSpeed, Growth(k, i));
      DecidedHandsOver(DriveOf(c), DriveOf(d), DriveOf(Act(k, d, i)));
    }
  }

  /** Ticks a to n were: braking up to b, creeping up to c, stopping up to n, all for one direction. */
  ghost predicate Phases(drives: seq<Drive>, acting: seq<State>, a: int, b: int, c: int, n: int)
    requires |drives| == |acting| + 1
  {
    && 0 <= a < b <= c <= n <= |acting|
    && (forall j :: a <= j < b ==> acting[j] == BRAKE)
    && (forall j :: b <= j < c ==> acting[j] == ALIGN)
    && (forall j :: c <= j < n ==> acting[j] == ALIGN_STOP)
    && (forall j :: a < j <= n ==> drives[j].wanted == drives[n].wanted)
    && (drives[b].state == ALIGN ==> drives[b].linear == 0.0)
  }

  lemma {:induction false} Provenance(drives: seq<Drive>, acting: seq<State>, n: nat)
    returns (a: int, b: int, c: int)
    requires |drives| == |acting| + 1 && n <= |acting| && drives[0].state == IDLE
    requires forall j :: 0 <= j < |acting| ==> Handover(drives[j], acting[j], drives[j + 1])
    requires drives[n].last != 0
    requires drives[n].state == BRAKE || drives[n].state == ALIGN || drives[n].state == ALIGN_STOP
    ensures Phases(drives, acting, a, b, c, n)
    ensures drives[n].state == BRAKE ==> b == n
    ensures drives[n].state == ALIGN ==> c == n && drives[b].state == ALIGN
    ensures drives[n].state == ALIGN_STOP ==> b < c && drives[b].state == ALIGN
  {
    var m := n - 1;
    assert Handover(drives[m], acting[m], drives[n]);
    if acting[m] == BRAKE && drives[m].state != BRAKE {
      a, b, c := m, n, n;
    } else {
      a, b, c := Provenance(drives, acting, m);
      if acting[m] == BRAKE {
        b, c := n, n;
      } else if acting[m] == ALIGN {
        c := n;
      }
    }
  }

  /** Ticks a to n were the initial alignment: creeping up to c, stopping up to n, all for one direction. */
  ghost predicate InitialPhases(drives: seq<Drive>, acting: seq<State>, a: int, c: int, n: int)
    requires |drives| == |acting| + 1
  {
    && 0 <= a < c <= n <= |acting|
    && (forall j :: a <= j < c ==> acting[j] == INITIAL_ALIGN)
    && (forall j :: c <= j < n ==> acting[j] == ALIGN_STOP)
    && (forall j :: a < j <= n ==> drives[j].wanted == drives[n].wanted)
  }

  /** The same for the very first direction: before any is remembered, an aligning state was reached
      through an unbroken initial alignment. */
  lemma {:induction false} InitialProvenance(drives: seq<Drive>, acting: seq<State>, n: nat) returns (a: int, c: int)
    requires |drives| == |acting| + 1 && n <= |acting| && drives[0].state == IDLE
    requires forall j :: 0 <= j < |acting| ==> Handover(drives[j], acting[j], drives[j + 1])
    requires drives[n].last == 0 && (drives[n].state == INITIAL_ALIGN || drives[n].state == ALIGN_STOP)
    ensures InitialPhases(drives, acting, a, c, n)
    ensures drives[n].state == INITIAL_ALIGN ==> c == n
  {
    var m := n - 1;
    assert Handover(drives[m], acting[m], drives[n]);
    if acting[m] == INITIAL_ALIGN && drives[m].state != INITIAL_ALIGN {
      a, c := m, n;
    } else {
      a, c := InitialProvenance(drives, acting, m);
      if acting[m] == INITIAL_ALIGN {
        c := n;
      }
    }
  }

  /** Reversal discipline: the remembered direction turns from s to -s only on a tick that ends,
      at rest, an unbroken sequence of braking, creeping and stopping ticks for direction -s. */
  lemma ReversalFollowsSequence(k: Config, cores: seq<Core>, inputs: seq<Input>, n: nat)
    returns (a: int, b: int, c: int)
    requires IsRun(k, cores, inputs) && n < |inputs|
    requires cores[n + 1].lastDriveSign == -cores[n].lastDriveSign != 0
    ensures Phases(Drives(cores), ActingStates(k, cores, inputs), a, b, c, n + 1)
    ensures b < c <= n && Drives(cores)[b].state == ALIGN && Drives(cores)[n].state == ALIGN_STOP
    ensures var d := Drives(cores)[n + 1];
      d.state == NORMAL && d.linear == 0.0 && d.wanted == d.last
  {
    var drives, acting := Drives(cores), ActingStates(k, cores, inputs);
    forall j | 0 <= j < |acting|
      ensures Handover(drives[j], acting[j], drives[j + 1])
    {
      RunInv(k, cores, inputs, j);
      TickHandsOver(k, cores[j], inputs[j]);
    }
    RunIsDisciplined(k, cores, inputs, n);
    StopStateActs(k, cores[n], inputs[n]);
    a, b, c := SequenceEndsInFlip(drives, acting, n);
  }

  lemma SequenceEndsInFlip(drives: seq<Drive>, acting: seq<State>, n: nat)
    returns (a: int, b: int, c: int)
    requires |drives| == |acting| + 1 && n < |acting| && drives[0].state == IDLE
    requires forall j :: 0 <= j < |acting| ==> Handover(drives[j], acting[j], drives[j + 1])
    requires drives[n].last != 0 && drives[n].state == ALIGN_STOP && acting[n] == ALIGN_STOP
    ensures Phases(drives, acting, a, b, c, n + 1) && b < c <= n && drives[b].state == ALIGN
  {
    a, b, c := Provenance(drives, acting, n);
    assert Handover(drives[n], acting[n], drives[n + 1]);
  }

  lemma StopStateActs(k: Config, c: Core, i: Input)
    requires c.state == ALIGN_STOP && c.lastDriveSign != 0 && Update(k, c, i).lastDriveSign == -c.lastDriveSign
    ensures Acting(k, c, i) == ALIGN_STOP && Update(k, c, i).reversalSign == Update(k, c, i).lastDriveSign
  {}

  // ---------- the class ----------

  class DriveSupervisorCore {
    const k: Config
    var state: State
    var linear: real
    var angular: real
    var lastDriveSign: int
    var reversalSign: int
    var referenceYaw: Option<real>
    var alignStart: Option<(real, real)>
    var stateSince: real
    var headingError: real
    var straightYaw: Option<real>
    var holdSince: Option<real>
    var yawRate: real

    function View(): Core
      reads this
    {
      Core(state, linear, angular, lastDriveSign, reversalSign, referenceYaw, alignStart, stateSince, headingError,
           straightYaw, holdSince, yawRate)
    }

    constructor (k: Config)
      ensures View() == INITIAL && this.k == k
    {
      this.k := k;
      state, linear, angular, lastDriveSign, reversalSign := IDLE, 0.0, 0.0, 0, 0;
      referenceYaw, alignStart, stateSince, headingError := None, None, 0.0, 0.0;
      straightYaw, holdSince, yawRate := None, None, 0.0;
    }

    method EnterState(s: State, now: real)
      modifies this`state, this`stateSince
      ensures View() == Enter(old(View()), s, now)
    {
      state := s;
      stateSince := now;
    }

    method Stop(now: real)
      modifies this
      ensures View() == StopNow(old(View()), now)
    {
      linear, angular := 0.0, 0.0;
      reversalSign := 0;
      referenceYaw, alignStart := None, None;
      headingError := 0.0;
      straightYaw, holdSince := None, None;
      yawRate := 0.0;
      EnterState(IDLE, now);
    }

    method HeadingCommandFor(yaw: Option<real>) returns (command: real)
      modifies this`headingError
      ensures command == HeadingCommand(k, old(View()), yaw)
      ensures View() == old(View()).(headingError := HeadingError(k, old(View()), yaw))
    {
      if yaw.None? || referenceYaw.None? {
        headingError := 0.0;
        return 0.0;
      }
      headingError := k.wrap(referenceYaw.value - yaw.value);
      command := RaiseToMinimum(headingError, Clamp(k.headingKp * headingError, -k.headingMax, k.headingMax));
    }

    method RaiseToMinimum(error: real, weak: real) returns (command: real)
      ensures command == AtLeastMinimum(k, error, weak)
    {
      command := weak;
      if Abs(error) > k.headingTolerance && Abs(command) < k.headingMin {
        command := if command < 0.0 then -Abs(k.headingMin) else Abs(k.headingMin);
      }
    }

    method FilterRate(dt: real, measured: Option<real>)
      requires dt >= 0.0
      modifies this`yawRate
      ensures View() == FilterYawRate(k, old(View()), dt, measured)
    {
      if measured.None? {
        return;
      }
      var tau := Max(0.0, k.yawRateTau);
      var alpha := if tau == 0.0 then 1.0 else Clamp(dt / (tau + dt), 0.0, 1.0);
      yawRate := yawRate + alpha * (measured.value - yawRate);
    }

    method StraightHeadingCommand(now: real, yaw: Option<real>) returns (command: real)
      modifies this`headingError, this`straightYaw, this`holdSince
      ensures (View(), command) == StraightHold(k, old(View()), now, yaw)
    {
      if yaw.None? {
        headingError := 0.0;
        return 0.0;
      }
      if straightYaw.None? {
        straightYaw, holdSince := yaw, Some(now);
      }
      headingError := k.wrap(straightYaw.value - yaw.value);
      if Abs(headingError) <= k.straightTolerance && Abs(yawRate) < k.quietYawRate {
        return 0.0;
      }
      command := HoldCommand(k, headingError, yawRate);
      if holdSince.None? {
        holdSince := Some(now);
      }
      if k.holdRampTime <= 0.0 {
        return;
      }
      command := Blend(k, now - holdSince.value, command);
    }

    method CaptureAlignedHeading(now: real, yaw: Option<real>)
      modifies this
      ensures View() == Core(NORMAL, 0.0, 0.0, old(reversalSign), old(reversalSign), yaw, old(alignStart), now, 0.0,
                             yaw, Some(now), old(yawRate))
    {
      lastDriveSign := reversalSign;
      referenceYaw, straightYaw := yaw, yaw;
      holdSince := Some(now);
      headingError := 0.0;
      linear, angular := 0.0, 0.0;
      EnterState(NORMAL, now);
    }

    method BeginSequence(i: Input)
      modifies this
      requires state == IDLE || state == NORMAL
      requires !Cancelled(View(), i)
      ensures View() == Decide(k, old(View()), i)
    {
      var wanted := Sign(i.linear);
      var reversal := wanted != 0 && lastDriveSign != 0 && wanted != lastDriveSign;
      if wanted != 0 && lastDriveSign == 0 && k.initialAlignment {
        reversalSign, referenceYaw := wanted, i.yaw;
        alignStart := Position(i);
        EnterState(INITIAL_ALIGN, i.now);
      } else if reversal {
        reversalSign, referenceYaw, straightYaw := wanted, i.yaw, None;
        EnterState(BRAKE, i.now);
      }
    }

    method StepBrake(i: Input)
      modifies this
      ensures View() == ActBrake(k, old(View()), i)
    {
      var dt := TickLength(i);
      linear := Slew(linear, 0.0, k.linearDecel, dt);
      angular := Slew(angular, 0.0, k.angularAccel * 2.0, dt);
      if AtRest(k, View(), i) {
        linear, angular := 0.0, 0.0;
        alignStart := Position(i);
        EnterState(ALIGN, i.now);
      }
    }

    method StepAlign(i: Input)
      modifies this
      ensures View() == ActAlign(k, old(View()), i)
    {
      var dt := TickLength(i);
      var creep := Creep(reversalSign, k.alignSpeed);
      var heading := HeadingCommandFor(i.yaw);
      linear := Slew(linear, creep, k.linearAccel, dt);
      angular := Slew(angular, Clamp(heading, -k.alignHeadingMax, k.alignHeadingMax), k.angularAccel, dt);
      if AlignComplete(k, View(), i) {
        EnterState(ALIGN_STOP, i.now);
      }
    }

    method StepAlignStop(i: Input)
      modifies this
      ensures View() == ActAlignStop(k, old(View()), i)
    {
      var dt := TickLength(i);
      linear := Slew(linear, 0.0, k.linearDecel, dt);
      angular := Slew(angular, 0.0, k.angularAccel * 2.0, dt);
      if AtRest(k, View(), i) {
        CaptureAlignedHeading(i.now, i.yaw);
      }
    }

    method StepNormal(i: Input)
      modifies this
      ensures View() == ActNormal(k, old(View()), i)
    {
      var dt, wanted := TickLength(i), Sign(i.linear);
      EnterState(NORMAL, i.now);
      var limit := if Abs(i.linear) > Abs(linear) then k.linearAccel else k.linearDecel;
      linear := Slew(linear, i.linear, limit, dt);
      var target := i.angular;
      if wanted != 0 && Abs(i.angular) < k.straightDeadband {
        target := StraightHeadingCommand(i.now, i.yaw);
      } else {
        straightYaw, holdSince := None, None;
        headingError := 0.0;
      }
      angular := Slew(angular, target, k.angularAccel, dt);
      if wanted != 0 {
        lastDriveSign := wanted;
      }
    }

    method UpdateTick(i: Input) returns (outLinear: real, outAngular: real, outState: State)
      modifies this
      ensures View() == Update(k, old(View()), i)
      ensures outLinear == linear && outAngular == angular && outState == state
      ensures !i.recent || (-0.005 <= i.linear <= 0.005 && -0.005 < i.angular < 0.005) ==>
        outLinear == 0.0 && outAngular == 0.0 && outState == IDLE
    {
      FilterRate(TickLength(i), i.measuredAngular);
      var wanted := Sign(i.linear);
      if !i.recent || (wanted == 0 && Abs(i.angular) < 0.005) {
        Stop(i.now);
        return linear, angular, state;
      }
      if state == INITIAL_ALIGN || state == BRAKE || state == ALIGN || state == ALIGN_STOP {
        if wanted != reversalSign {
          Stop(i.now);
          if wanted == 0 {
            EnterState(NORMAL, i.now);
          } else {
            return linear, angular, state;
          }
        }
      }
      if state == IDLE || state == NORMAL {
        BeginSequence(i);
      }
      if state == BRAKE {
        StepBrake(i);
      } else if state == INITIAL_ALIGN || state == ALIGN {
        StepAlign(i);
      } else if state == ALIGN_STOP {
        StepAlignStop(i);
      } else {
        StepNormal(i);
      }
      return linear, angular, state;
    }
  }
}
