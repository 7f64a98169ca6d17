/** What a run of the activation gate means, read off the callbacks it was given: which replies start
    navigation, which commands go out, when the gate asks again and when it gives up
    (amr_base_driver/nav2_activation_gate.py, lines 190-410). */
module GateMeaning {
  import opened Common
  import opened ActivationGate

  lemma OneStep(steps: seq<Step>, s: Step)
    requires Admissible(steps + [s])
    ensures Admissible(steps) && Enabled(After(steps), s.event)
    ensures After(steps + [s]) == Next(After(steps), s.event, s.inputs)
    ensures LeaseDiscipline(After(steps))
  {
    assert (steps + [s])[..|steps + [s]| - 1] == steps;
    RunIsDisciplined(steps);
  }

  // ---------- what each callback does ----------

  predicate Asks(g: Gate, s: Step)
    requires s.event.Check?
  {
    && !s.inputs.mapping && !g.started && !g.inFlight && g.nextRetry <= s.inputs.now
    && s.event.localized && s.event.ready && (g.held || s.event.attempt.Free?) && !s.event.mappingNow
  }

  /** The lease is let go, nothing is sent, and the next request waits for the delay, which doubles. */
  predicate LetsGo(g: Gate, h: Gate, now: real, putOff: bool) {
    && !h.held && h.awaiting == Nothing && !h.started && h.exit == Running && h.sent == g.sent
    && (putOff ==> h.nextRetry == now + g.delay && h.delay == Min(5.0, 2.0 * g.delay))
  }

  predicate OnCheck(g: Gate, h: Gate, s: Step)
    requires s.event.Check?
  {
    if !Asks(g, s) then
      && h.sent == g.sent && h.awaiting == g.awaiting && h.exit == g.exit && h.started == g.started
      && h.nextRetry == g.nextRetry && h.delay == g.delay && (h.held ==> g.held)
    else if s.inputs.accepted then
      h.awaiting == PlannerState && h.held && h.sent == g.sent && h.nextRetry == g.nextRetry && h.delay == g.delay
    else LetsGo(g, h, s.inputs.now, true)
  }

  predicate OnState(g: Gate, h: Gate, s: Step)
    requires s.event.StateReplied?
  {
    if s.event.state.None? || s.inputs.mapping then LetsGo(g, h, s.inputs.now, s.event.state.None?)
    else if s.event.state == Some(3) then h.started && h.held && h.sent == g.sent
    else if s.inputs.accepted then h.sent == g.sent + [STARTUP] && h.awaiting == StartupReply && h.held && !h.started
    else LetsGo(g, h, s.inputs.now, true)
  }

  predicate OnStartup(g: Gate, h: Gate, s: Step, repaired: bool)
    requires s.event.StartupReplied?
  {
    if s.event.answer.None? || s.inputs.mapping then LetsGo(g, h, s.inputs.now, s.event.answer.None?)
    else if s.event.answer == Some(true) then h.started && h.held && h.sent == g.sent
    else if !repaired && s.inputs.accepted then
      h.sent == g.sent + [RESET] && h.awaiting == ResetReply && h.held && !h.started
    else h.exit == GaveUp && !h.held && !h.started && h.sent == g.sent
  }

  predicate OnReset(g: Gate, h: Gate, s: Step)
    requires s.event.ResetReplied?
  {
    if s.event.answer == Some(true) then LetsGo(g, h, s.inputs.now, true)
    else h.exit == GaveUp && !h.held && !h.started && h.sent == g.sent
  }

  /** The reply is stored for the node that was asked, and the next node is asked exactly when its
      services are up; otherwise it is asked again later. */
  predicate OnReading(g: Gate, h: Gate, s: Step)
    requires s.event.ParametersReplied? ==> g.awaiting.Parameters?
  {
    && h.replies == g.replies + (if s.event.ParametersReplied? then [(g.awaiting.node, s.event.reply)] else [])
    && (g.pending != [] ==>
          && h.sent == g.sent && h.exit == Running && h.held
          && h.awaiting == (if s.inputs.parametersReady then Parameters(g.pending[0]) else RetryTimer)
          && h.pending == if s.inputs.parametersReady then g.pending[1..] else g.pending)
  }

  lemma CheckGate(g: Gate, s: Step)
    requires LeaseDiscipline(g) && Enabled(g, s.event) && s.event.Check?
    ensures OnCheck(g, Next(g, s.event, s.inputs), s)
  {}

  /** The localization timer asks for the planner's state exactly when mapping is not announced,
      nothing is running, the retry time has come, localization and both services are ready, and the
      lease is held or was met free; otherwise it changes no request, command or retry time. */
  lemma CheckMeans(steps: seq<Step>, s: Step)
    requires Admissible(steps + [s]) && s.event.Check?
    ensures Admissible(steps) && OnCheck(After(steps), After(steps + [s]), s)
  {
    OneStep(steps, s);
    CheckGate(After(steps), s);
  }

  lemma StateReplyGate(g: Gate, s: Step)
    requires LeaseDiscipline(g) && Enabled(g, s.event) && s.event.StateReplied?
    ensures OnState(g, Next(g, s.event, s.inputs), s)
  {}

  /** A reply about the planner's state: an inactive planner (any state but 3) is sent exactly one
      STARTUP, an active one is validated at once with no command; a failed call, an announced mapping
      or a refused call lets go of the lease with nothing sent. */
  lemma StateReplyMeans(steps: seq<Step>, s: Step)
    requires Admissible(steps + [s]) && s.event.StateReplied?
    ensures Admissible(steps) && OnState(After(steps), After(steps + [s]), s)
  {
    OneStep(steps, s);
    StateReplyGate(After(steps), s);
  }

  /** Read clear of mapping and with the call accepted, a state is answered with exactly one more
      command, STARTUP, if and only if it is not 3, and with validation if and only if it is 3. */
  lemma PlannerStateDecides(steps: seq<Step>, s: Step, state: int)
    requires Admissible(steps + [s]) && s.event == StateReplied(Some(state))
    requires !s.inputs.mapping && s.inputs.accepted
    ensures Admissible(steps)
    ensures After(steps + [s]).sent == After(steps).sent + [STARTUP] <==> state != 3
    ensures After(steps + [s]).sent == After(steps).sent <==> state == 3
    ensures After(steps + [s]).started <==> state == 3
  {
    StateReplyMeans(steps, s);
    assert |After(steps).sent + [STARTUP]| == |After(steps).sent| + 1;
  }

  lemma StartupReplyGate(g: Gate, s: Step)
    requires LeaseDiscipline(g) && Enabled(g, s.event) && s.event.StartupReplied?
    ensures OnStartup(g, Next(g, s.event, s.inputs), s, g.repairAttempted)
  {}

  /** A reply to STARTUP: success is validated, the first rejection is sent exactly one RESET, and a
      second one, or a RESET that does not get out, ends the gate; a failed call or an announced
      mapping lets go of the lease with nothing sent. */
  lemma StartupReplyMeans(steps: seq<Step>, s: Step)
    requires Admissible(steps + [s]) && s.event.StartupReplied?
    ensures Admissible(steps)
    ensures OnStartup(After(steps), After(steps + [s]), s, RejectedStartups(steps) > 0)
  {
    OneStep(steps, s);
    SecondRejectionStops(steps);
    StartupReplyGate(After(steps), s);
  }

  lemma ResetReplyGate(g: Gate, s: Step)
    requires LeaseDiscipline(g) && Enabled(g, s.event) && s.event.ResetReplied?
    ensures OnReset(g, Next(g, s.event, s.inputs), s)
  {}

  /** A reply to RESET: success puts off the next try, anything else ends the gate. */
  lemma ResetReplyMeans(steps: seq<Step>, s: Step)
    requires Admissible(steps + [s]) && s.event.ResetReplied?
    ensures Admissible(steps) && OnReset(After(steps), After(steps + [s]), s)
  {
    OneStep(steps, s);
    ResetReplyGate(After(steps), s);
  }

  lemma ReadingGate(g: Gate, s: Step)
    requires LeaseDiscipline(g) && Enabled(g, s.event) && (s.event.ParametersReplied? || s.event.TimerFired?)
    ensures OnReading(g, Next(g, s.event, s.inputs), s)
  {}

  lemma ReadingMeans(steps: seq<Step>, s: Step)
    requires Admissible(steps + [s]) && (s.event.ParametersReplied? || s.event.TimerFired?)
    ensures Admissible(steps) && Enabled(After(steps), s.event) && OnReading(After(steps), After(steps + [s]), s)
  {
    OneStep(steps, s);
    ReadingGate(After(steps), s);
  }

  lemma PauseReplyMeans(steps: seq<Step>, s: Step)
    requires Admissible(steps + [s]) && s.event.PauseReplied?
    ensures Admissible(steps) && After(steps + [s]).exit == Paused && !After(steps + [s]).held
    ensures After(steps + [s]).sent == After(steps).sent
  {
    OneStep(steps, s);
  }

  // ---------- what a whole run does ----------

  /** Navigation is known to run: the planner was met active, or STARTUP succeeded, with no mapping
      announced. */
  predicate Begins(s: Step) {
    !s.inputs.mapping && (s.event == StateReplied(Some(3)) || s.event == StartupReplied(Some(true)))
  }

  /** Validation has begun if and only if some reply showed that navigation runs. */
  lemma {:induction false} StartedExactly(steps: seq<Step>)
    requires Admissible(steps)
    ensures After(steps).started <==> exists k :: 0 <= k < |steps| && Begins(steps[k])
  {
    if steps != [] {
      var before, s := steps[..|steps| - 1], steps[|steps| - 1];
      assert steps == before + [s];
      StartedExactly(before);
      StartedStep(before, s);
      if k :| 0 <= k < |before| && Begins(before[k]) {
        assert Begins(steps[k]);
      }
      assert forall k :: 0 <= k < |before| ==> steps[k] == before[k];
    }
  }

  lemma StartedStep(steps: seq<Step>, s: Step)
    requires Admissible(steps + [s])
    ensures Admissible(steps) && (After(steps + [s]).started <==> After(steps).started || Begins(s))
  {
    OneStep(steps, s);
    if s.event.StateReplied? {
      StateReplyMeans(steps, s);
    } else if s.event.StartupReplied? {
      StartupReplyMeans(steps, s);
    }
  }

  /** The commands the replies call for: a STARTUP for each inactive planner and a RESET for the
      first rejected STARTUP, when mapping is not announced and the call gets out. */
  function Commands(steps: seq<Step>): seq<Command> {
    if steps == [] then []
    else
      var before, s := steps[..|steps| - 1], steps[|steps| - 1];
      Commands(before) + Called(s, RejectedStartups(before) > 0)
  }

  function Called(s: Step, repaired: bool): seq<Command> {
    if s.inputs.mapping || !s.inputs.accepted then []
    else if s.event.StateReplied? && s.event.state.Some? && s.event.state.value != 3 then [STARTUP]
    else if s.event == StartupReplied(Some(false)) && !repaired then [RESET]
    else []
  }

  /** The commands sent are exactly those the replies call for, and a PAUSE after them while the gate
      is pausing navigation. */
  lemma {:induction false} CommandsAreHistory(steps: seq<Step>)
    requires Admissible(steps)
    ensures After(steps).sent == Commands(steps) + if Pausing(After(steps)) then [PAUSE] else []
  {
    if steps != [] {
      var before, s := steps[..|steps| - 1], steps[|steps| - 1];
      assert steps == before + [s];
      CommandsAreHistory(before);
      CommandStep(before, s);
    }
  }

  lemma CommandStep(steps: seq<Step>, s: Step)
    requires Admissible(steps + [s])
    ensures Admissible(steps) && CallsFor(After(steps), After(steps + [s]), Called(s, RejectedStartups(steps) > 0))
  {
    OneStep(steps, s);
    SecondRejectionStops(steps);
    CommandGate(After(steps), s);
  }

  predicate CallsFor(g: Gate, h: Gate, called: seq<Command>) {
    if called != [] then h.sent == g.sent + called && !Pausing(g) && !Pausing(h)
    else if Pausing(g) then h.sent == g.sent && Pausing(h)
    else h.sent == g.sent + if Pausing(h) then [PAUSE] else []
  }

  lemma CommandGate(g: Gate, s: Step)
    requires LeaseDiscipline(g) && Enabled(g, s.event)
    ensures CallsFor(g, Next(g, s.event, s.inputs), Called(s, g.repairAttempted))
  {
    match s.event
    case Check(_, _, _, _) =>
    case StateReplied(_) =>
    case StartupReplied(_) =>
    case ResetReplied(_) =>
    case _ =>
  }

  /** The gate gives up exactly on a reply that a RESET failed, or that STARTUP was rejected when a
      RESET was already spent or did not get out; after that nothing runs. */
  predicate GivesUp(before: seq<Step>, s: Step) {
    || (s.event.ResetReplied? && s.event.answer != Some(true))
    || (s.event == StartupReplied(Some(false)) && !s.inputs.mapping
        && (RejectedStartups(before) > 0 || !s.inputs.accepted))
  }

  lemma GaveUpExactly(steps: seq<Step>)
    requires Admissible(steps)
    ensures After(steps).exit == GaveUp <==>
            steps != [] && GivesUp(steps[..|steps| - 1], steps[|steps| - 1])
  {
    if steps != [] {
      var before, s := steps[..|steps| - 1], steps[|steps| - 1];
      assert steps == before + [s];
      OneStep(before, s);
      SecondRejectionStops(before);
      GaveUpGate(After(before), s);
    }
  }

  lemma GaveUpGate(g: Gate, s: Step)
    requires LeaseDiscipline(g) && Enabled(g, s.event)
    ensures Next(g, s.event, s.inputs).exit == GaveUp <==>
            || (s.event.ResetReplied? && s.event.answer != Some(true))
            || (s.event == StartupReplied(Some(false)) && !s.inputs.mapping
                && (g.repairAttempted || !s.inputs.accepted))
  {
    match s.event
    case Check(_, _, _, _) =>
    case StateReplied(_) =>
    case StartupReplied(_) =>
    case ResetReplied(_) =>
    case _ =>
  }

  // ---------- asking again ----------

  /** A request that came to nothing, so that the next one is put off. */
  predicate PutsOff(g: Gate, s: Step) {
    match s.event
    case Check(_, _, _, _) => Asks(g, s) && !s.inputs.accepted
    case StateReplied(state) =>
      state.None? || (!s.inputs.mapping && state.value != 3 && !s.inputs.accepted)
    case StartupReplied(answer) => answer.None?
    case ResetReplied(answer) => answer == Some(true)
    case _ => false
  }

  /** How often the run has put off its next request. */
  function Deferrals(steps: seq<Step>): nat
    requires Admissible(steps)
  {
    if steps == [] then 0
    else
      var before := steps[..|steps| - 1];
      Deferrals(before) + if PutsOff(After(before), steps[|steps| - 1]) then 1 else 0
  }

  /** Half a second, doubled for each deferral, at most five seconds. */
  function Backoff(n: nat): real {
    if n == 0 then 0.5 else if n == 1 then 1.0 else if n == 2 then 2.0 else if n == 3 then 4.0 else 5.0
  }

  /** The times of the deferrals: each puts the next request off by the backoff before it. */
  function RetryTime(steps: seq<Step>): real
    requires Admissible(steps)
  {
    if steps == [] then 0.0
    else
      var before := steps[..|steps| - 1];
      if PutsOff(After(before), steps[|steps| - 1]) then steps[|steps| - 1].inputs.now + Backoff(Deferrals(before))
      else RetryTime(before)
  }

  /** Until validation begins, the delay is half a second doubled once for each request that came to
      nothing, at most five seconds, and the next request waits for it from the last of them. */
  lemma {:induction false} BackoffIsExact(steps: seq<Step>)
    requires Admissible(steps) && !After(steps).started
    ensures After(steps).delay == Backoff(Deferrals(steps))
    ensures After(steps).nextRetry == RetryTime(steps)
  {
    if steps != [] {
      var before, s := steps[..|steps| - 1], steps[|steps| - 1];
      assert steps == before + [s];
      StartedStep(before, s);
      BackoffIsExact(before);
      DelayStep(before, s);
    }
  }

  predicate Delays(g: Gate, h: Gate, s: Step) {
    if PutsOff(g, s) then h.nextRetry == s.inputs.now + g.delay && h.delay == Min(5.0, 2.0 * g.delay)
    else h.nextRetry == g.nextRetry && h.delay == g.delay
  }

  lemma DelayStep(steps: seq<Step>, s: Step)
    requires Admissible(steps + [s]) && !After(steps + [s]).started
    ensures Admissible(steps) && Delays(After(steps), After(steps + [s]), s)
  {
    OneStep(steps, s);
    DelayGate(After(steps), s);
  }

  lemma DelayGate(g: Gate, s: Step)
    requires LeaseDiscipline(g) && Enabled(g, s.event) && !Next(g, s.event, s.inputs).started
    ensures Delays(g, Next(g, s.event, s.inputs), s)
  {
    match s.event
    case Check(_, _, _, _) =>
    case StateReplied(_) =>
    case StartupReplied(_) =>
    case ResetReplied(_) =>
    case _ =>
  }
}
