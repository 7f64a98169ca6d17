/** What one 10 Hz command tick does with the numbers it reads, and what every run of ticks writes:
    when the base stands still, what the wheels are told, when the stall guard latches and when a
    latched drive is freed (amr_base_driver/serial_bridge.py, lines 407-517). */
module MotorMeaning {
  import opened Common
  import opened MotorCommand

  // ---------- the wheel targets of a tick ----------

  /** The wheels are told to steer as asked, off the straight; on the straight the steering pair is
      trimmed towards equal wheel speeds and limited once more. */
  ghost predicate Drives(c: Config, linear: real, angular: real, measured: Pair<real>, w: Pair<real>) {
    exists k: real, p: Pair<real> ::
      && Steers(c.maxRpm, Turn(c, angular), Advance(c, linear), k, p)
      && if Abs(angular) > 0.03 then w == p else TrimmedTo(c, measured, p, w)
  }

  ghost predicate TrimmedTo(c: Config, measured: Pair<real>, p: Pair<real>, w: Pair<real>) {
    exists e: real, q: Pair<real>, j: real ::
      && Trims(p, q, measured, TrimWish(measured, c.trimGain), c.trimMaxRpm, e)
      && q.left + q.right == p.left + p.right && LimitedTo(c.maxRpm, q, w, j)
  }

  lemma TargetsDrive(c: Config, linear: real, angular: real, measured: Pair<real>)
    requires ValidConfig(c)
    ensures Drives(c, linear, angular, measured, WheelTargets(c, linear, angular, measured))
  {
    var w := WheelTargets(c, linear, angular, measured);
    var k, p, e, q, j := WheelTargetsShape(c, linear, angular, measured);
    if Abs(angular) <= 0.03 {
      assert TrimmedTo(c, measured, p, w);
    }
    assert Steers(c.maxRpm, Turn(c, angular), Advance(c, linear), k, p);
  }

  // ---------- one tick ----------

  /** Telemetry is younger than 0.3 s and reports no fault. */
  predicate Safe(r: Reading) {
    r.now < r.lastTelemetry + 0.3 && r.fault == 0
  }

  /** The motors are enabled and the velocity command has not timed out. */
  predicate Commanded(c: Config, m: Motor, r: Reading) {
    m.enabled && r.now <= m.lastCmd + c.cmdTimeout
  }

  /** The wish stops both wheels, or turns one against the direction it was blocked in. */
  predicate Yields(m: Motor, w: Pair<real>) {
    || (Abs(w.left) < 0.5 && Abs(w.right) < 0.5)
    || Against(m.blockedTarget.left, w.left) || Against(m.blockedTarget.right, w.right)
  }

  predicate Against(x: real, y: real) {
    (x > 0.0 && y < 0.0) || (x < 0.0 && y > 0.0)
  }

  /** A wheel told to turn does not, and has not for the guard's timeout. */
  predicate Stuck(c: Config, started: Option<real>, target: real, measured: real, now: real) {
    && c.guardEnabled && started.Some? && now >= started.value + c.guardTimeout
    && Abs(target) >= c.guardMinTarget && Abs(measured) <= c.guardMaxMeasured
  }

  /** The guard's timer of one wheel: running exactly while the wheel is told to turn and does not. */
  predicate Timed(c: Config, before: Option<real>, after: Option<real>, target: real, measured: real, now: real) {
    if c.guardEnabled && Abs(target) >= c.guardMinTarget && Abs(measured) <= c.guardMaxMeasured
    then after == (if before.Some? then before else Some(now))
    else after == None
  }

  /** Without fresh, fault-free telemetry the base is stopped and nothing else changes. */
  lemma UnsafeTickStops(c: Config, m: Motor, r: Reading)
    requires ValidConfig(c) && !Safe(r)
    ensures Tick(c, m, r) == Result(m.(target := Pair(0.0, 0.0)), [Stop])
  {}

  /** Otherwise the wheel targets are what is wished for: what the last velocity command asks for, or
      nothing when it is stale or the motors are off. A blocked drive writes STOP, a free one the
      targets with the next number. */
  lemma TickTargets(c: Config, m: Motor, r: Reading)
    requires ValidConfig(c) && Safe(r)
    ensures var Result(m', lines) := Tick(c, m, r);
      && (if Commanded(c, m, r) then Drives(c, m.requestedLinear, m.requestedAngular, r.measured, m'.target)
          else m'.target == Pair(0.0, 0.0))
      && (m'.blocked ==> lines == [Stop] && m'.sequence == m.sequence)
      && (!m'.blocked ==> lines == [Command(m.sequence, m'.target.left, m'.target.right)]
                          && m'.sequence == (m.sequence + 1) % TWO_32)
      && m'.enabled == m.enabled && m'.requestedLinear == m.requestedLinear
      && m'.requestedAngular == m.requestedAngular && m'.lastCmd == m.lastCmd
  {
    TargetsDrive(c, m.requestedLinear, m.requestedAngular, r.measured);
  }

  /** A free drive is blocked exactly when a wheel is stuck, with the stuck wheels blamed and their
      targets remembered; each wheel's timer runs exactly while it is told to turn and does not. */
  lemma TickLatches(c: Config, m: Motor, r: Reading)
    requires ValidConfig(c) && Safe(r) && !m.blocked
    ensures var m' := Tick(c, m, r).motor;
      var left := Stuck(c, m.candidate.left, m'.target.left, r.measured.left, r.now);
      var right := Stuck(c, m.candidate.right, m'.target.right, r.measured.right, r.now);
      && (m'.blocked <==> left || right)
      && (m'.blocked ==> m'.blockedSides == Pair(left, right) && m'.blockedTarget == m'.target
                         && m'.lastStall == r.now)
      && Timed(c, m.candidate.left, m'.candidate.left, m'.target.left, r.measured.left, r.now)
      && Timed(c, m.candidate.right, m'.candidate.right, m'.target.right, r.measured.right, r.now)
  {}

  /** A blocked drive is freed exactly when the wish yields, and then forgets whom it blamed. */
  lemma TickReleases(c: Config, m: Motor, r: Reading)
    requires ValidConfig(c) && Safe(r) && m.blocked
    ensures var m' := Tick(c, m, r).motor;
      && (m'.blocked <==> !Yields(m, m'.target))
      && (m'.blocked ==> m'.blockedSides == m.blockedSides && m'.blockedTarget == m.blockedTarget)
      && (!m'.blocked ==> m'.blockedSides == Pair(false, false) && m'.blockedTarget == Pair(0.0, 0.0))
  {
    var w := Wanted(c, m, r);
    SameSign(-m.blockedTarget.left, w.left);
    SameSign(-m.blockedTarget.right, w.right);
  }

  // ---------- whole runs ----------

  /** A tick that may move the base: telemetry fresh and free of faults, motors enabled, the velocity
      command not timed out. */
  predicate MayMove(c: Config, m: Motor, e: Event) {
    e.TickEvent? && Safe(e.reading) && Commanded(c, m, e.reading)
  }

  /** A request to enable the motors that met the board connected, its telemetry at most 0.3 s old and
      no fault. */
  predicate Arms(e: Event) {
    && e.SetMotors? && e.data && e.connected && e.fault == 0
    && e.lastTelemetry != 0.0 && e.now <= e.lastTelemetry + 0.3
  }

  /** What the last enable request of the run leaves: the motors on exactly when it arms them. */
  function LeftOn(before: bool, events: seq<Event>): bool {
    if events == [] then before
    else
      var last := events[|events| - 1];
      if last.SetMotors? then Arms(last) else LeftOn(before, events[..|events| - 1])
  }

  /** In every run the motors are enabled exactly as the last enable request left them: on if and only
      if it asked for that and met the board connected, fresh and free of faults. */
  lemma {:induction false} EnabledExactly(c: Config, run: Run, n: nat)
    requires ValidConfig(c) && IsRun(c, run) && n <= |run.events|
    ensures run.states[n].enabled == LeftOn(run.states[0].enabled, run.events[..n])
  {
    if n > 0 {
      EnabledExactly(c, run, n - 1);
      EnabledStep(c, run.states[n - 1], run.events[n - 1]);
      assert run.events[..n][..n - 1] == run.events[..n - 1];
    }
  }

  lemma EnabledStep(c: Config, m: Motor, e: Event)
    requires ValidConfig(c)
    ensures Step(c, m, e).motor.enabled <==> if e.SetMotors? then Arms(e) else m.enabled
  {}

  /** A wheel is told to turn only by a tick that may move the base. */
  lemma MovesOnlyWhenMayMove(c: Config, m: Motor, e: Event)
    requires ValidConfig(c)
    ensures forall line | line in Step(c, m, e).lines && line.Command? ::
      (line.left == 0.0 && line.right == 0.0) || MayMove(c, m, e)
  {
    if e.TickEvent? && Safe(e.reading) {
      TickTargets(c, m, e.reading);
    }
  }

  /** A velocity command is what the next ticks drive; both services forget it, free the drive and
      write STOP, and clearing a fault writes CLEAR after it. */
  lemma ServicesMean(c: Config, m: Motor, e: Event)
    requires ValidConfig(c) && !e.TickEvent?
    ensures var Result(m', lines) := Step(c, m, e);
      && (e.Velocity? ==> (m'.requestedLinear, m'.requestedAngular, m'.lastCmd) == (e.linear, e.angular, e.now)
                          && lines == [] && m'.blocked == m.blocked)
      && (!e.Velocity? ==> (m'.requestedLinear, m'.requestedAngular, m'.lastCmd) == (0.0, 0.0, 0.0)
                           && !m'.blocked && m'.candidate == Pair(None, None))
      && (e.ClearFault? ==> lines == [Stop, Clear])
      && (e.SetMotors? ==> lines == [Stop])
      && m'.target == m.target && m'.sequence == m.sequence
  {}
}
