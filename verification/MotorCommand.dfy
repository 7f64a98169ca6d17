/** The 10 Hz motor command tick: wheel targets, the latching stall guard and the
    lines written to the ESP32. */
module MotorCommand {
  import opened Common

  /** Node parameters; rpmPerMetre is 60 / (2 pi radius). */
  datatype Config = Config(
    maxRpm: real, separation: real, rpmPerMetre: real,
    trimGain: real, trimMaxRpm: real, cmdTimeout: real,
    guardEnabled: bool, guardMinTarget: real, guardMaxMeasured: real, guardTimeout: real)

  ghost predicate ValidConfig(c: Config) {
    && c.maxRpm > 0.0 && c.rpmPerMetre > 0.0 && c.trimGain >= 0.0 && c.trimMaxRpm >= 0.0
    && c.guardMinTarget >= 0.0 && c.guardMaxMeasured >= 0.0 && c.guardTimeout >= 0.5
  }

  datatype Pair<T> = Pair(left: T, right: T)

  function Peak(p: Pair<real>): real {
    Max(Abs(p.left), Abs(p.right))
  }

  datatype Motor = Motor(
    requestedLinear: real, requestedAngular: real, lastCmd: real, enabled: bool,
    target: Pair<real>,
    blocked: bool, blockedSides: Pair<bool>, candidate: Pair<Option<real>>,
    blockedTarget: Pair<real>, lastStall: real,
    sequence: nat)

  datatype Line =
    | Stop
    | Clear
    | Command(sequence: nat, left: real, right: real)

  // ---------- wheel targets ----------

  function Ideal(c: Config, linear: real, angular: real): Pair<real> {
    Pair((linear - 0.5 * c.separation * angular) * c.rpmPerMetre,
         (linear + 0.5 * c.separation * angular) * c.rpmPerMetre)
  }

  function Scale(k: real, p: Pair<real>): Pair<real> {
    Pair(k * p.left, k * p.right)
  }

  function Limit(maxRpm: real, p: Pair<real>): Pair<real>
    requires maxRpm > 0.0
  {
    if Peak(p) > maxRpm then Scale(maxRpm / Peak(p), p) else p
  }

  function TrimCorrection(p: Pair<real>, measured: Pair<real>, gain: real, maximum: real): real {
    Clamp(Min(maximum, 0.9 * Min(Abs(p.left), Abs(p.right))), TrimWish(measured, gain))
  }

  function TrimWish(measured: Pair<real>, gain: real): real {
    gain * (Abs(measured.right) - Abs(measured.left))
  }

  function Clamp(limit: real, x: real): real {
    Max(-limit, Min(limit, x))
  }

  function TrimStraight(p: Pair<real>, measured: Pair<real>, gain: real, maximum: real): Pair<real> {
    if p.left * p.right <= 0.0 || Peak(measured) <= 3.0 then p
    else Corrected(p, TrimCorrection(p, measured, gain, maximum))
  }

  /** Move speed between the wheels, whichever way both of them turn. */
  function Corrected(p: Pair<real>, correction: real): Pair<real> {
    var signed := if p.left < 0.0 then -correction else correction;
    Pair(p.left + signed, p.right - signed)
  }

  function WheelTargets(c: Config, linear: real, angular: real, measured: Pair<real>): Pair<real>
    requires ValidConfig(c)
  {
    var p := Limit(c.maxRpm, Ideal(c, linear, angular));
    if Abs(angular) <= 0.03
    then Limit(c.maxRpm, TrimStraight(p, measured, c.trimGain, c.trimMaxRpm))
    else p
  }

  /** Limiting is a common scaling by some 0 < k <= 1 that brings both wheels within the limit. */
  lemma LimitScales(maxRpm: real, p: Pair<real>) returns (k: real)
    requires maxRpm > 0.0
    ensures 0.0 < k <= 1.0 && Limit(maxRpm, p) == Scale(k, p)
    ensures Peak(Limit(maxRpm, p)) <= maxRpm && (k < 1.0 ==> Peak(Limit(maxRpm, p)) == maxRpm)
  {
    if Peak(p) > maxRpm {
      k := maxRpm / Peak(p);
      Ratio(maxRpm, Peak(p));
      ScaledPair(k, p, Peak(p), maxRpm);
      PeakReached(p, Scale(k, p), Peak(p), maxRpm);
    } else {
      k := 1.0;
      assert Scale(1.0, p) == p;
    }
  }

  lemma ScaledPair(k: real, p: Pair<real>, peak: real, limit: real)
    requires k > 0.0 && k * peak == limit && Peak(p) == peak
    ensures Reaches(p.left, Scale(k, p).left, peak, limit) && Reaches(p.right, Scale(k, p).right, peak, limit)
  {
    ScaledWithin(k, p.left, peak, limit);
    ScaledWithin(k, p.right, peak, limit);
  }

  lemma PeakReached(p: Pair<real>, q: Pair<real>, peak: real, limit: real)
    requires Peak(p) == peak && Reaches(p.left, q.left, peak, limit) && Reaches(p.right, q.right, peak, limit)
    ensures Peak(q) == limit
  {}

  lemma Ratio(m: real, p: real)
    requires 0.0 < m < p
    ensures 0.0 < m / p < 1.0 && m / p * p == m
  {
    var k := m / p;
    assert p * (1.0 - k) == p - m;
    SameSign(p, 1.0 - k);
  }

  lemma MulMonotone(k: real, x: real, y: real)
    requires k >= 0.0 && x <= y
    ensures k * x <= k * y
  {}

  predicate Reaches(x: real, y: real, peak: real, limit: real) {
    Abs(y) <= limit && (Abs(x) == peak ==> Abs(y) == limit)
  }

  lemma ScaledWithin(k: real, x: real, peak: real, limit: real)
    requires k > 0.0 && Abs(x) <= peak && k * peak == limit
    ensures Reaches(x, k * x, peak, limit)
  {
    MulMonotone(k, x, peak);
    MulMonotone(k, -peak, x);
    assert k * -peak == -limit;
  }

  lemma SameSign(x: real, y: real)
    ensures x * y > 0.0 <==> (x > 0.0 && y > 0.0) || (x < 0.0 && y < 0.0)
  {
    if (x > 0.0 && y > 0.0) || (x < 0.0 && y < 0.0) {
      assert x * y > 0.0;
    } else if x > 0.0 {
      assert x * -y >= 0.0;
    } else if x < 0.0 {
      assert -x * y >= 0.0;
    }
  }

  predicate CorrectionFits(p: Pair<real>, k: real, measured: Pair<real>, maximum: real) {
    && Abs(k) <= maximum && Abs(k) <= 0.9 * Abs(p.left) && Abs(k) <= 0.9 * Abs(p.right)
    && (Abs(measured.left) <= Abs(measured.right) ==> k >= 0.0)
    && (Abs(measured.left) >= Abs(measured.right) ==> k <= 0.0)
  }

  /** The correction is bounded by the trim limit, leaves each wheel a tenth of its speed, and
      points from the faster to the slower wheel. */
  lemma CorrectionBounds(p: Pair<real>, measured: Pair<real>, gain: real, maximum: real)
    requires gain >= 0.0 && maximum >= 0.0
    ensures CorrectionFits(p, TrimCorrection(p, measured, gain, maximum), measured, maximum)
  {
    var d := Abs(measured.right) - Abs(measured.left);
    if d >= 0.0 {
      assert gain * d >= 0.0;
    } else {
      assert gain * -d >= 0.0;
    }
  }

  /** The sum is kept, each wheel keeps its direction, and speed moves from the faster to the
      slower wheel by at most the trim limit. */
  ghost predicate WellTrimmed(p: Pair<real>, q: Pair<real>, measured: Pair<real>, maximum: real) {
    && q.left + q.right == p.left + p.right
    && Abs(q.left - p.left) <= maximum && Abs(q.right - p.right) <= maximum
    && (p.left > 0.0 <==> q.left > 0.0) && (p.left < 0.0 <==> q.left < 0.0)
    && (p.right > 0.0 <==> q.right > 0.0) && (p.right < 0.0 <==> q.right < 0.0)
    && (Abs(measured.left) <= Abs(measured.right) ==> Abs(q.left) >= Abs(p.left) && Abs(q.right) <= Abs(p.right))
    && (Abs(measured.left) >= Abs(measured.right) ==> Abs(q.left) <= Abs(p.left) && Abs(q.right) >= Abs(p.right))
  }

  lemma TrimIsBounded(p: Pair<real>, measured: Pair<real>, gain: real, maximum: real)
    requires gain >= 0.0 && maximum >= 0.0
    ensures WellTrimmed(p, TrimStraight(p, measured, gain, maximum), measured, maximum)
  {
    if p.left * p.right > 0.0 {
      SameSign(p.left, p.right);
      CorrectionBounds(p, measured, gain, maximum);
      TrimByCorrection(p, TrimCorrection(p, measured, gain, maximum), measured, maximum);
    }
  }

  lemma TrimByCorrection(p: Pair<real>, k: real, measured: Pair<real>, maximum: real)
    requires (p.left > 0.0 && p.right > 0.0) || (p.left < 0.0 && p.right < 0.0)
    requires CorrectionFits(p, k, measured, maximum)
    ensures WellTrimmed(p, Corrected(p, k), measured, maximum)
  {}

  /** The pair does what is asked, slowed down by k as a whole: the wheels differ by what the turn
      needs and add up to what the speed needs. Nothing is slowed down unless a wheel would exceed the
      limit, and then only as far as the limit. */
  ghost predicate Steers(maxRpm: real, turn: real, speed: real, k: real, p: Pair<real>) {
    && 0.0 < k <= 1.0 && Peak(p) <= maxRpm && (k < 1.0 ==> Peak(p) == maxRpm)
    && p.right - p.left == k * turn && p.left + p.right == k * speed
  }

  predicate SameWay(p: Pair<real>) {
    (p.left > 0.0 && p.right > 0.0) || (p.left < 0.0 && p.right < 0.0)
  }

  /** Speed e moves from the right wheel to the left one: what was asked, cut down if it exceeds the
      trim limit or nine tenths of a wheel's speed; nothing unless the wheels are told to turn the
      same way and one of them is seen to turn. */
  predicate Trims(p: Pair<real>, q: Pair<real>, measured: Pair<real>, asked: real, maximum: real, e: real) {
    if SameWay(p) && (Abs(measured.left) > 3.0 || Abs(measured.right) > 3.0) then
      && Abs(q.left) == Abs(p.left) + e && Abs(q.right) == Abs(p.right) - e
      && CutTo(asked, e, maximum, 0.9 * Abs(p.left), 0.9 * Abs(p.right))
    else q == p && e == 0.0
  }

  /** e is what was asked, cut down in size to the smallest of three bounds if it exceeds one. */
  predicate CutTo(asked: real, e: real, a: real, b: real, c: real) {
    && Abs(e) <= a && Abs(e) <= b && Abs(e) <= c
    && (e != asked ==> Abs(e) < Abs(asked) && (Abs(e) == a || Abs(e) == b || Abs(e) == c))
    && (asked >= 0.0 ==> e >= 0.0) && (asked <= 0.0 ==> e <= 0.0)
  }

  lemma ClampCuts(asked: real, a: real, x: real, y: real)
    requires a >= 0.0 && x >= 0.0 && y >= 0.0
    ensures CutTo(asked, Clamp(Min(a, 0.9 * Min(x, y)), asked), a, 0.9 * x, 0.9 * y)
  {}

  lemma CorrectedBy(p: Pair<real>, e: real)
    requires SameWay(p) && Abs(e) <= 0.9 * Abs(p.left) && Abs(e) <= 0.9 * Abs(p.right)
    ensures Abs(Corrected(p, e).left) == Abs(p.left) + e && Abs(Corrected(p, e).right) == Abs(p.right) - e
  {}

  lemma IdealSteers(c: Config, linear: real, angular: real)
    ensures var p := Ideal(c, linear, angular);
      p.right - p.left == Turn(c, angular) && p.left + p.right == Advance(c, linear)
  {}

  lemma ScaledSteers(k: real, p: Pair<real>, turn: real, speed: real)
    requires p.right - p.left == turn && p.left + p.right == speed
    ensures Scale(k, p).right - Scale(k, p).left == k * turn && Scale(k, p).left + Scale(k, p).right == k * speed
  {
    assert k * (p.right - p.left) == k * p.right - k * p.left;
    assert k * (p.left + p.right) == k * p.left + k * p.right;
  }

  lemma LimitSteers(maxRpm: real, p: Pair<real>, turn: real, speed: real) returns (k: real)
    requires maxRpm > 0.0 && p.right - p.left == turn && p.left + p.right == speed
    ensures Steers(maxRpm, turn, speed, k, Limit(maxRpm, p))
  {
    k := LimitScales(maxRpm, p);
    ScaledSteers(k, p, turn, speed);
  }

  lemma TrimCases(p: Pair<real>, measured: Pair<real>, gain: real, maximum: real)
    ensures TrimStraight(p, measured, gain, maximum) ==
            if SameWay(p) && (Abs(measured.left) > 3.0 || Abs(measured.right) > 3.0)
            then Corrected(p, TrimCorrection(p, measured, gain, maximum)) else p
  {
    SameSign(p.left, p.right);
  }

  lemma ClampedTrims(p: Pair<real>, measured: Pair<real>, asked: real, maximum: real)
    requires SameWay(p) && (Abs(measured.left) > 3.0 || Abs(measured.right) > 3.0) && maximum >= 0.0
    ensures var e := Clamp(Min(maximum, 0.9 * Min(Abs(p.left), Abs(p.right))), asked);
      Trims(p, Corrected(p, e), measured, asked, maximum, e)
  {
    ClampCuts(asked, maximum, Abs(p.left), Abs(p.right));
    CorrectedBy(p, Clamp(Min(maximum, 0.9 * Min(Abs(p.left), Abs(p.right))), asked));
  }

  lemma TrimAmount(p: Pair<real>, measured: Pair<real>, gain: real, maximum: real) returns (e: real)
    requires maximum >= 0.0
    ensures Trims(p, TrimStraight(p, measured, gain, maximum), measured, TrimWish(measured, gain), maximum, e)
  {
    TrimCases(p, measured, gain, maximum);
    e := 0.0;
    if SameWay(p) && (Abs(measured.left) > 3.0 || Abs(measured.right) > 3.0) {
      e := TrimCorrection(p, measured, gain, maximum);
      ClampedTrims(p, measured, TrimWish(measured, gain), maximum);
    }
  }

  /** The speed asked for is the gain for each rpm by which the right wheel is faster. */
  lemma WishIsProportional(measured: Pair<real>, gain: real, difference: real)
    requires Abs(measured.right) == Abs(measured.left) + difference
    ensures TrimWish(measured, gain) == gain * difference
  {
    assert Abs(measured.right) - Abs(measured.left) == difference;
  }

  lemma StraightShape(maxRpm: real, p: Pair<real>, measured: Pair<real>, gain: real, maximum: real)
    returns (e: real, q: Pair<real>, j: real)
    requires maxRpm > 0.0 && gain >= 0.0 && maximum >= 0.0
    ensures Trims(p, q, measured, TrimWish(measured, gain), maximum, e)
    ensures q.left + q.right == p.left + p.right
    ensures LimitedTo(maxRpm, q, Limit(maxRpm, TrimStraight(p, measured, gain, maximum)), j)
  {
    q := TrimStraight(p, measured, gain, maximum);
    e := TrimAmount(p, measured, gain, maximum);
    TrimIsBounded(p, measured, gain, maximum);
    j := LimitedScale(maxRpm, q);
  }

  /** By how much the wheels' speeds must differ to turn the base at this rate. */
  function Turn(c: Config, angular: real): real {
    c.separation * angular * c.rpmPerMetre
  }

  /** What the wheels' speeds must add up to for this forward speed. */
  function Advance(c: Config, linear: real): real {
    2.0 * linear * c.rpmPerMetre
  }

  /** What the wheels are told: off the straight, a pair that steers as asked; on the straight, such
      a pair trimmed towards equal wheel speeds, and limited once more as a whole. */
  lemma WheelTargetsShape(c: Config, linear: real, angular: real, measured: Pair<real>)
    returns (k: real, p: Pair<real>, e: real, q: Pair<real>, j: real)
    requires ValidConfig(c)
    ensures Steers(c.maxRpm, Turn(c, angular), Advance(c, linear), k, p)
    ensures Abs(angular) > 0.03 ==> WheelTargets(c, linear, angular, measured) == p
    ensures Abs(angular) <= 0.03 ==>
      && Trims(p, q, measured, TrimWish(measured, c.trimGain), c.trimMaxRpm, e)
      && q.left + q.right == p.left + p.right
      && LimitedTo(c.maxRpm, q, WheelTargets(c, linear, angular, measured), j)
  {
    p := Limit(c.maxRpm, Ideal(c, linear, angular));
    IdealSteers(c, linear, angular);
    k := LimitSteers(c.maxRpm, Ideal(c, linear, angular), Turn(c, angular), Advance(c, linear));
    e, q, j := StraightShape(c.maxRpm, p, measured, c.trimGain, c.trimMaxRpm);
  }

  /** All of q slowed down by one factor, which is 1 unless a wheel exceeds the limit, and then brings
      the faster wheel to it. */
  ghost predicate LimitedTo(maxRpm: real, q: Pair<real>, w: Pair<real>, j: real) {
    && 0.0 < j <= 1.0 && w.left == j * q.left && w.right == j * q.right && Peak(w) <= maxRpm
    && (j < 1.0 ==> Peak(w) == maxRpm)
  }

  lemma LimitedScale(maxRpm: real, q: Pair<real>) returns (j: real)
    requires maxRpm > 0.0
    ensures LimitedTo(maxRpm, q, Limit(maxRpm, q), j)
  {
    j := LimitScales(maxRpm, q);
  }

  // ---------- stall guard ----------

  /** A command the wheel should follow while its encoder shows next to no motion. */
  predicate Suspicious(c: Config, target: real, measured: real) {
    Abs(target) >= c.guardMinTarget && Abs(measured) <= c.guardMaxMeasured
  }

  function NextCandidate(c: Config, started: Option<real>, target: real, measured: real, now: real): Option<real> {
    if !Suspicious(c, target, measured) then None
    else if started.None? then Some(now)
    else started
  }

  predicate Stalled(c: Config, started: Option<real>, target: real, measured: real, now: real) {
    started.Some? && Suspicious(c, target, measured) && now - started.value >= c.guardTimeout
  }

  function ClearBlocked(m: Motor): Motor {
    m.(blocked := false, blockedSides := Pair(false, false), candidate := Pair(None, None),
       blockedTarget := Pair(0.0, 0.0))
  }

  function Guard(c: Config, m: Motor, now: real, target: Pair<real>, measured: Pair<real>): Motor {
    if !c.guardEnabled then m.(candidate := Pair(None, None))
    else
      var left := Stalled(c, m.candidate.left, target.left, measured.left, now);
      var right := Stalled(c, m.candidate.right, target.right, measured.right, now);
      var m' := m.(candidate := Pair(
                     NextCandidate(c, m.candidate.left, target.left, measured.left, now),
                     NextCandidate(c, m.candidate.right, target.right, measured.right, now)));
      if left || right
      then m'.(blocked := true, blockedSides := Pair(left, right), blockedTarget := target, lastStall := now)
      else m'
  }

  // ---------- the tick and the operator services ----------

  datatype Reading = Reading(now: real, lastTelemetry: real, fault: int, measured: Pair<real>)

  predicate Healthy(r: Reading) {
    r.now - r.lastTelemetry < 0.3 && r.fault == 0
  }

  function Wanted(c: Config, m: Motor, r: Reading): Pair<real>
    requires ValidConfig(c)
  {
    if m.enabled && r.now - m.lastCmd <= c.cmdTimeout
    then WheelTargets(c, m.requestedLinear, m.requestedAngular, r.measured)
    else Pair(0.0, 0.0)
  }

  /** The operator stopped asking for motion or reversed a wheel. */
  predicate Releases(m: Motor, wanted: Pair<real>) {
    || Peak(wanted) < 0.5
    || m.blockedTarget.left * wanted.left < 0.0
    || m.blockedTarget.right * wanted.right < 0.0
  }

  /** The tick gets as far as evaluating the stall guard. */
  predicate Evaluates(c: Config, m: Motor, r: Reading)
    requires ValidConfig(c)
  {
    Healthy(r) && (m.blocked ==> Releases(m, Wanted(c, m, r)))
  }

  datatype Result = Result(motor: Motor, lines: seq<Line>)

  function Tick(c: Config, m: Motor, r: Reading): Result
    requires ValidConfig(c)
  {
    var wanted := Wanted(c, m, r);
    if !Healthy(r) then Result(m.(target := Pair(0.0, 0.0)), [Stop])
    else if !Evaluates(c, m, r) then Result(m.(target := wanted), [Stop])
    else Proceed(c, if m.blocked then ClearBlocked(m) else m, r, wanted)
  }

  /** The guard has its say before the wheel targets are sent. */
  function Proceed(c: Config, m: Motor, r: Reading, wanted: Pair<real>): Result {
    var guarded := Guard(c, m.(target := wanted), r.now, wanted, r.measured);
    if guarded.blocked then Result(guarded, [Stop])
    else Result(guarded.(sequence := (m.sequence + 1) % TWO_32),
                [Command(m.sequence, wanted.left, wanted.right)])
  }

  datatype Event =
    | TickEvent(reading: Reading)
    | Velocity(linear: real, angular: real, now: real)
    | ClearFault
    | SetMotors(data: bool, now: real, connected: bool, lastTelemetry: real, fault: int)

  function Halted(m: Motor): Motor {
    ClearBlocked(m).(requestedLinear := 0.0, requestedAngular := 0.0, lastCmd := 0.0)
  }

  predicate MayArm(e: Event)
    requires e.SetMotors?
  {
    e.data && e.connected && e.lastTelemetry != 0.0 && e.now - e.lastTelemetry <= 0.3 && e.fault == 0
  }

  function Step(c: Config, m: Motor, e: Event): Result
    requires ValidConfig(c)
  {
    match e
    case TickEvent(r) => Tick(c, m, r)
    case Velocity(linear, angular, now) =>
      Result(m.(requestedLinear := linear, requestedAngular := angular, lastCmd := now), [])
    case ClearFault => Result(Halted(m), [Stop, Clear])
    case SetMotors(_, _, _, _, _) => Result(Halted(m).(enabled := MayArm(e)), [Stop])
  }

  // ---------- runs ----------

  datatype Run = Run(states: seq<Motor>, events: seq<Event>)

  ghost predicate IsRun(c: Config, run: Run)
    requires ValidConfig(c)
  {
    && |run.states| == |run.events| + 1
    && !run.states[0].blocked && run.states[0].blockedSides == Pair(false, false)
    && run.states[0].candidate == Pair(None, None)
    && forall i :: 0 <= i < |run.events| ==> run.states[i + 1] == Step(c, run.states[i], run.events[i]).motor
  }

  /** What step i means for one wheel: whether the guard was evaluated, when, and whether the
      wheel then had a trackable command without motion. */
  datatype Observation = Observation(evaluated: bool, now: real, stuck: bool)

  function Observe(c: Config, m: Motor, e: Event, left: bool): Observation
    requires ValidConfig(c)
  {
    if e.TickEvent? then
      var r := e.reading;
      var wanted := Wanted(c, m, r);
      Observation(Evaluates(c, m, r), r.now,
                  if left then Suspicious(c, wanted.left, r.measured.left)
                  else Suspicious(c, wanted.right, r.measured.right))
    else Observation(false, 0.0, false)
  }

  function Observations(c: Config, run: Run, left: bool): (obs: seq<Observation>)
    requires ValidConfig(c) && |run.states| == |run.events| + 1
    ensures |obs| == |run.events|
    ensures forall i :: 0 <= i < |obs| ==> obs[i] == Observe(c, run.states[i], run.events[i], left)
  {
    seq(|run.events|, i requires 0 <= i < |run.events| => Observe(c, run.states[i], run.events[i], left))
  }

  /** Step j was an evaluation, and every evaluation from j up to n saw the wheel stuck. */
  ghost predicate StuckSince(obs: seq<Observation>, j: int, n: int)
    requires n <= |obs|
  {
    0 <= j < n && obs[j].evaluated && forall i :: j <= i < n && obs[i].evaluated ==> obs[i].stuck
  }

  /** One wheel's candidate timer. */
  function TimerOf(m: Motor, left: bool): Option<real> {
    if left then m.candidate.left else m.candidate.right
  }

  ghost predicate TimerStep(before: Option<real>, after: Option<real>, o: Observation) {
    after.Some? ==>
      && (o.evaluated ==> o.stuck)
      && (after == before || (o.evaluated && after == Some(o.now)))
  }

  lemma StepTimers(c: Config, m: Motor, e: Event, left: bool)
    requires ValidConfig(c)
    ensures TimerStep(TimerOf(m, left), TimerOf(Step(c, m, e).motor, left), Observe(c, m, e, left))
  {}

  /** A running timer was started by an evaluation since when the wheel has been stuck. */
  lemma {:induction false} TimersJustified(timers: seq<Option<real>>, obs: seq<Observation>, n: nat)
    requires |timers| == |obs| + 1 && n <= |obs| && timers[0].None?
    requires forall i :: 0 <= i < |obs| ==> TimerStep(timers[i], timers[i + 1], obs[i])
    ensures timers[n].Some? ==> exists j :: StuckSince(obs, j, n) && obs[j].now == timers[n].value
  {
    if n > 0 && timers[n].Some? {
      TimersJustified(timers, obs, n - 1);
      assert TimerStep(timers[n - 1], timers[n], obs[n - 1]);
      if timers[n] == timers[n - 1] {
        var j :| StuckSince(obs, j, n - 1) && obs[j].now == timers[n].value;
        assert StuckSince(obs, j, n);
      } else {
        assert StuckSince(obs, n - 1, n);
      }
    }
  }

  lemma RunTimersJustified(c: Config, run: Run, n: nat, left: bool)
    requires ValidConfig(c) && IsRun(c, run) && n <= |run.events|
    ensures var obs, timer := Observations(c, run, left), TimerOf(run.states[n], left);
      timer.Some? ==> exists j :: StuckSince(obs, j, n) && obs[j].now == timer.value
  {
    var timers := seq(|run.states|, i requires 0 <= i < |run.states| => TimerOf(run.states[i], left));
    var obs := Observations(c, run, left);
    forall i | 0 <= i < |obs|
      ensures TimerStep(timers[i], timers[i + 1], obs[i])
    {
      StepTimers(c, run.states[i], run.events[i], left);
    }
    TimersJustified(timers, obs, n);
  }

  predicate BlockedSide(m: Motor, left: bool) {
    if left then m.blockedSides.left else m.blockedSides.right
  }

  lemma LatchingTick(c: Config, m: Motor, e: Event, left: bool)
    requires ValidConfig(c) && !m.blocked && Step(c, m, e).motor.blocked
    ensures var m', o := Step(c, m, e).motor, Observe(c, m, e, left);
      && o.evaluated && (BlockedSide(m', true) || BlockedSide(m', false))
      && (BlockedSide(m', left) ==>
            o.stuck && TimerOf(m, left).Some? && o.now - TimerOf(m, left).value >= c.guardTimeout)
  {}

  /** When the guard latches at step n, some wheel is blamed; and each wheel blamed had a trackable
      command and next to no measured motion at every evaluation over at least the timeout. */
  lemma LatchIsJustified(c: Config, run: Run, n: nat, left: bool)
    requires ValidConfig(c) && IsRun(c, run) && n < |run.events|
    requires !run.states[n].blocked && run.states[n + 1].blocked
    ensures BlockedSide(run.states[n + 1], true) || BlockedSide(run.states[n + 1], false)
    ensures var obs := Observations(c, run, left);
      && obs[n].evaluated
      && (BlockedSide(run.states[n + 1], left) ==>
            exists j :: StuckSince(obs, j, n + 1) && obs[n].now - obs[j].now >= c.guardTimeout)
  {
    var obs := Observations(c, run, left);
    LatchingTick(c, run.states[n], run.events[n], left);
    if BlockedSide(run.states[n + 1], left) {
      RunTimersJustified(c, run, n, left);
      var j :| StuckSince(obs, j, n) && obs[j].now == TimerOf(run.states[n], left).value;
      assert StuckSince(obs, j, n + 1);
    }
  }

  predicate ServiceCall(e: Event) {
    e.ClearFault? || e.SetMotors?
  }

  /** Evaluations happen in the order of their times. */
  ghost predicate InOrder(obs: seq<Observation>) {
    forall i, j :: 0 <= i < j < |obs| && obs[i].evaluated && obs[j].evaluated ==> obs[i].now <= obs[j].now
  }

  lemma StuckStartsTimer(c: Config, m: Motor, e: Event, left: bool)
    requires ValidConfig(c) && c.guardEnabled && Observe(c, m, e, left).evaluated && Observe(c, m, e, left).stuck
    ensures var m', now := Step(c, m, e).motor, Observe(c, m, e, left).now;
      m'.blocked || TimerOf(m', left) == Some(now) || (TimerOf(m, left).Some? && TimerOf(m', left) == TimerOf(m, left))
  {}

  lemma StuckKeepsTimer(c: Config, m: Motor, e: Event, left: bool)
    requires ValidConfig(c) && c.guardEnabled && !m.blocked && !ServiceCall(e) && TimerOf(m, left).Some?
    requires Observe(c, m, e, left).evaluated ==> Observe(c, m, e, left).stuck
    ensures var m' := Step(c, m, e).motor; m'.blocked || TimerOf(m', left) == TimerOf(m, left)
  {}

  lemma StuckLatches(c: Config, m: Motor, e: Event, left: bool)
    requires ValidConfig(c) && c.guardEnabled && !m.blocked && TimerOf(m, left).Some?
    requires var o := Observe(c, m, e, left);
      o.evaluated && o.stuck && o.now - TimerOf(m, left).value >= c.guardTimeout
    ensures var m' := Step(c, m, e).motor; m'.blocked && BlockedSide(m', left)
  {}

  /** An evaluation that sees the wheel stuck leaves a timer that started no later, unless it latches. */
  lemma TimerStarted(c: Config, run: Run, a: nat, left: bool)
    requires ValidConfig(c) && IsRun(c, run) && c.guardEnabled && a < |run.events| && !run.states[a + 1].blocked
    requires var obs := Observations(c, run, left); InOrder(obs) && obs[a].evaluated && obs[a].stuck
    ensures var timer := TimerOf(run.states[a + 1], left);
      timer.Some? && timer.value <= Observations(c, run, left)[a].now
  {
    var obs := Observations(c, run, left);
    StuckStartsTimer(c, run.states[a], run.events[a], left);
    RunTimersJustified(c, run, a, left);
  }

  lemma {:induction false} TimerKept(c: Config, run: Run, a: nat, n: nat, left: bool)
    requires ValidConfig(c) && IsRun(c, run) && c.guardEnabled && a < n <= |run.events|
    requires TimerOf(run.states[a + 1], left).Some?
    requires forall i :: a < i < n ==> !ServiceCall(run.events[i])
    requires forall i :: a < i <= n ==> !run.states[i].blocked
    requires StuckSince(Observations(c, run, left), a, n)
    ensures TimerOf(run.states[n], left) == TimerOf(run.states[a + 1], left)
    decreases n
  {
    if n > a + 1 {
      TimerKept(c, run, a, n - 1, left);
      StuckKeepsTimer(c, run.states[n - 1], run.events[n - 1], left);
    }
  }

  /** Conversely, a wheel that has a trackable command and next to no measured motion at every
      evaluation over at least the timeout, with no service call in between, is latched: the drive is
      blocked by then, and that wheel is blamed unless the drive was blocked before. */
  lemma LatchIsComplete(c: Config, run: Run, a: nat, b: nat, left: bool)
    requires ValidConfig(c) && IsRun(c, run) && c.guardEnabled && a < b < |run.events|
    requires var obs := Observations(c, run, left);
      InOrder(obs) && StuckSince(obs, a, b + 1) && obs[b].evaluated && obs[b].now - obs[a].now >= c.guardTimeout
    requires forall i :: a < i < b ==> !ServiceCall(run.events[i])
    ensures (exists i :: a < i <= b && run.states[i].blocked)
            || (run.states[b + 1].blocked && BlockedSide(run.states[b + 1], left))
  {
    if forall i :: a < i <= b ==> !run.states[i].blocked {
      TimerStarted(c, run, a, left);
      TimerKept(c, run, a, b, left);
      StuckLatches(c, run.states[b], run.events[b], left);
    }
  }

  /** The summary flag and the two side flags agree in every reachable state. */
  lemma {:induction false} BlockedFlagsAgree(c: Config, run: Run, n: nat)
    requires ValidConfig(c) && IsRun(c, run) && n <= |run.events|
    ensures var m := run.states[n]; m.blocked <==> m.blockedSides.left || m.blockedSides.right
  {
    if n > 0 {
      BlockedFlagsAgree(c, run, n - 1);
    }
  }

  /** An operator service, or a healthy tick whose wish stops or reverses a wheel. */
  predicate ReleaseEvent(c: Config, m: Motor, e: Event)
    requires ValidConfig(c)
  {
    match e
    case TickEvent(r) => Healthy(r) && Releases(m, Wanted(c, m, r))
    case Velocity(_, _, _) => false
    case _ => true
  }

  /** Once latched, every tick writes STOP and nothing else, and the latch and the remembered
      targets stay, until a release event. */
  lemma {:induction false} LatchHolds(c: Config, run: Run, from: nat, n: nat)
    requires ValidConfig(c) && IsRun(c, run) && from <= n <= |run.events| && run.states[from].blocked
    requires forall i :: from <= i < n ==> !ReleaseEvent(c, run.states[i], run.events[i])
    ensures run.states[n].blocked && run.states[n].blockedTarget == run.states[from].blockedTarget
    ensures forall i :: from <= i < n ==>
      Step(c, run.states[i], run.events[i]).lines == if run.events[i].TickEvent? then [Stop] else []
    decreases n
  {
    if n > from {
      LatchHolds(c, run, from, n - 1);
    }
  }

  /** Conversely a release event always ends this latch: afterwards the drive is free. */
  lemma ReleaseFrees(c: Config, m: Motor, e: Event)
    requires ValidConfig(c) && m.blocked && ReleaseEvent(c, m, e)
    ensures !Step(c, m, e).motor.blocked
  {}

  // ---------- command lines ----------

  /** The lines written at each step of a run. */
  function Outputs(c: Config, run: Run): (outputs: seq<seq<Line>>)
    requires ValidConfig(c) && |run.states| == |run.events| + 1
    ensures |outputs| == |run.events|
  {
    seq(|run.events|, i requires 0 <= i < |run.events| => Step(c, run.states[i], run.events[i]).lines)
  }

  function Flatten(outputs: seq<seq<Line>>): seq<Line> {
    if outputs == [] then [] else Flatten(outputs[..|outputs| - 1]) + outputs[|outputs| - 1]
  }

  function Commands(lines: seq<Line>): seq<Line> {
    if lines == [] then []
    else (if lines[0].Command? then [lines[0]] else []) + Commands(lines[1..])
  }

  lemma {:induction false} CommandsConcat(a: seq<Line>, b: seq<Line>)
    ensures Commands(a + b) == Commands(a) + Commands(b)
  {
    if a == [] {
      assert a + b == b;
    } else {
      CommandsConcat(a[1..], b);
      var first := if a[0].Command? then [a[0]] else [];
      assert [a[0]] + (a[1..] + b) == a + b && [a[0]] + a[1..] == a;
      CommandsPrepend(a[0], a[1..] + b);
      CommandsPrepend(a[0], a[1..]);
      assert first + (Commands(a[1..]) + Commands(b)) == first + Commands(a[1..]) + Commands(b);
    }
  }

  lemma CommandsPrepend(line: Line, rest: seq<Line>)
    ensures Commands([line] + rest) == (if line.Command? then [line] else []) + Commands(rest)
  {
    assert ([line] + rest)[1..] == rest;
  }

  lemma CommandsOne(line: Line)
    ensures Commands([line]) == if line.Command? then [line] else []
  {
    assert [line][1..] == [];
  }

  /** A tick writes one line: STOP, or the wanted targets with the current sequence number. */
  lemma TickWrites(c: Config, m: Motor, r: Reading)
    requires ValidConfig(c)
    ensures var Result(m', lines) := Tick(c, m, r);
      var w := Wanted(c, m, r);
      || (lines == [Stop] && m'.sequence == m.sequence)
      || (lines == [Command(m.sequence, w.left, w.right)] && m'.sequence == (m.sequence + 1) % TWO_32)
  {}

  /** One step writes at most one CMD line, numbered with the current sequence and within the limit. */
  lemma StepCommands(c: Config, m: Motor, e: Event)
    requires ValidConfig(c) && m.sequence < TWO_32
    ensures var Result(m', lines) := Step(c, m, e);
      NumberedStep(m.sequence, Commands(lines), m'.sequence, c.maxRpm)
  {
    if e.TickEvent? {
      TickCommands(c, m, e.reading);
    } else {
      QuietWrites(c, m, e);
      NothingNumbered(m.sequence, c.maxRpm);
    }
  }

  lemma QuietWrites(c: Config, m: Motor, e: Event)
    requires ValidConfig(c) && !e.TickEvent?
    ensures var Result(m', lines) := Step(c, m, e);
      Commands(lines) == [] && m'.sequence == m.sequence
  {
    CommandsOne(Stop);
    CommandsOne(Clear);
    CommandsConcat([Stop], [Clear]);
    assert [Stop] + [Clear] == [Stop, Clear];
  }

  lemma NothingNumbered(sequence: nat, maxRpm: real)
    requires sequence < TWO_32
    ensures NumberedStep(sequence, [], sequence, maxRpm)
  {}

  lemma OneNumbered(sequence: nat, w: Pair<real>, maxRpm: real)
    requires sequence < TWO_32 && Peak(w) <= maxRpm
    ensures NumberedStep(sequence, [Command(sequence, w.left, w.right)], (sequence + 1) % TWO_32, maxRpm)
  {}

  lemma TickCommands(c: Config, m: Motor, r: Reading)
    requires ValidConfig(c) && m.sequence < TWO_32
    ensures var Result(m', lines) := Tick(c, m, r);
      NumberedStep(m.sequence, Commands(lines), m'.sequence, c.maxRpm)
  {
    var w := Wanted(c, m, r);
    TickWrites(c, m, r);
    WantedIsLimited(c, m, r);
    CommandsOne(Stop);
    CommandsOne(Command(m.sequence, w.left, w.right));
    NothingNumbered(m.sequence, c.maxRpm);
    OneNumbered(m.sequence, w, c.maxRpm);
  }

  lemma TargetsAreLimited(c: Config, linear: real, angular: real, measured: Pair<real>)
    requires ValidConfig(c)
    ensures Peak(WheelTargets(c, linear, angular, measured)) <= c.maxRpm
  {
    var k := LimitScales(c.maxRpm, Ideal(c, linear, angular));
    k := LimitScales(c.maxRpm, TrimStraight(Limit(c.maxRpm, Ideal(c, linear, angular)), measured,
                                            c.trimGain, c.trimMaxRpm));
  }

  lemma WantedIsLimited(c: Config, m: Motor, r: Reading)
    requires ValidConfig(c)
    ensures Peak(Wanted(c, m, r)) <= c.maxRpm
  {
    TargetsAreLimited(c, m.requestedLinear, m.requestedAngular, r.measured);
  }

  /** Numbered consecutively from start modulo 2^32, and all within the limit. */
  ghost predicate Numbered(cmds: seq<Line>, start: nat, maxRpm: real) {
    forall k :: 0 <= k < |cmds| ==>
      && cmds[k].Command?
      && cmds[k].sequence == (start + k) % TWO_32
      && Peak(Pair(cmds[k].left, cmds[k].right)) <= maxRpm
  }

  /** Every CMD line of a run is within the wheel limit, and the k-th one carries the starting
      sequence number plus k, modulo 2^32. */
  lemma CommandLines(c: Config, run: Run)
    requires ValidConfig(c) && IsRun(c, run) && run.states[0].sequence < TWO_32
    ensures Numbered(Commands(Flatten(Outputs(c, run))), run.states[0].sequence, c.maxRpm)
  {
    var sequences := seq(|run.states|, i requires 0 <= i < |run.states| => run.states[i].sequence);
    SequencesInRange(c, run, |run.events|);
    forall i | 0 <= i < |run.events|
      ensures NumberedStep(sequences[i], Commands(Outputs(c, run)[i]), sequences[i + 1], c.maxRpm)
    {
      SequencesInRange(c, run, i);
      StepCommands(c, run.states[i], run.events[i]);
    }
    NumberedOutputs(sequences, Outputs(c, run), |run.events|, c.maxRpm);
    assert Outputs(c, run)[..|run.events|] == Outputs(c, run);
  }

  lemma {:induction false} SequencesInRange(c: Config, run: Run, n: nat)
    requires ValidConfig(c) && IsRun(c, run) && run.states[0].sequence < TWO_32 && n <= |run.events|
    ensures run.states[n].sequence < TWO_32
  {
    if n > 0 {
      SequencesInRange(c, run, n - 1);
      StepCommands(c, run.states[n - 1], run.events[n - 1]);
    }
  }

  ghost predicate NumberedStep(before: nat, cmds: seq<Line>, after: nat, maxRpm: real) {
    && after == (before + |cmds|) % TWO_32
    && (cmds == [] || (|cmds| == 1 && Numbered(cmds, before, maxRpm)))
  }

  lemma {:induction false} NumberedOutputs(sequences: seq<nat>, outputs: seq<seq<Line>>, n: nat, maxRpm: real)
    requires |sequences| == |outputs| + 1 && sequences[0] < TWO_32 && n <= |outputs|
    requires forall i :: 0 <= i < |outputs| ==>
      NumberedStep(sequences[i], Commands(outputs[i]), sequences[i + 1], maxRpm)
    ensures var cmds := Commands(Flatten(outputs[..n]));
      Numbered(cmds, sequences[0], maxRpm) && sequences[n] == (sequences[0] + |cmds|) % TWO_32
  {
    if n > 0 {
      var earlier := Flatten(outputs[..n - 1]);
      NumberedOutputs(sequences, outputs, n - 1, maxRpm);
      FlattenLast(outputs, n);
      CommandsConcat(earlier, outputs[n - 1]);
      NumberedAppend(
        Commands(earlier), Commands(outputs[n - 1]), sequences[0], sequences[n - 1], sequences[n], maxRpm);
    }
  }

  lemma FlattenLast(outputs: seq<seq<Line>>, n: nat)
    requires 0 < n <= |outputs|
    ensures Flatten(outputs[..n]) == Flatten(outputs[..n - 1]) + outputs[n - 1]
  {
    assert outputs[..n][..n - 1] == outputs[..n - 1];
  }

  lemma NumberedAppend(a: seq<Line>, b: seq<Line>, start: nat, before: nat, after: nat, maxRpm: real)
    requires Numbered(a, start, maxRpm) && before == (start + |a|) % TWO_32
    requires NumberedStep(before, b, after, maxRpm)
    ensures Numbered(a + b, start, maxRpm) && after == (start + |a + b|) % TWO_32
  {
    if b == [] {
      assert a + b == a;
      assert before % TWO_32 == before;
    } else {
      assert (before + 1) % TWO_32 == (start + |a| + 1) % TWO_32;
    }
  }
}
