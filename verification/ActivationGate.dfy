/** The gate that starts navigation once localization is fresh and then checks its runtime contract
    (amr_base_driver/nav2_activation_gate.py, lines 90-410). Futures and timers are the environment:
    each callback is a method whose parameters are what it is told and what it reads. */
module ActivationGate {
  import opened Common
  import opened RuntimeContract
  import MappingSession
  import Interlock = LifecycleInterlock

  type Command = MappingSession.Command
  const STARTUP := MappingSession.Startup
  const PAUSE := MappingSession.Pause
  const RESET := MappingSession.Reset

  /** The callback that the executor still owes the gate. */
  datatype Awaiting =
    Nothing | PlannerState | StartupReply | ResetReply | Parameters(node: Node) | RetryTimer | PauseReply

  datatype Exit = Running | Verified | Paused | GaveUp | Crashed

  datatype Gate = Gate(
    inFlight: bool,
    started: bool,
    held: bool,
    delay: real,
    nextRetry: real,
    repairAttempted: bool,
    pending: seq<Node>,
    values: Readings,
    awaiting: Awaiting,
    exit: Exit,
    sent: seq<Command>,             // commands that reached the navigation manager
    replies: seq<(Node, Values)>)     // parameter replies, in order

  const INITIAL := Gate(false, false, false, 0.5, 0.0, false, [], map[], Nothing, Running, [], [])

  /** What a callback reads besides its future. */
  datatype Inputs = Inputs(
    mapping: bool,                  // is the mapping marker set
    now: real,
    accepted: bool,                 // did the asynchronous call it makes get out
    parametersReady: bool,          // are the next node's parameter services up
    publishers: bool,               // does every expected topic have a publisher
    reader: Reader)

  datatype Event =
    | Check(localized: bool, ready: bool, attempt: Interlock.Attempt, mappingNow: bool)
    | StateReplied(state: Option<int>)
    | StartupReplied(answer: Option<bool>)
    | ResetReplied(answer: Option<bool>)
    | ParametersReplied(reply: Values)
    | TimerFired
    | PauseReplied(answer: Option<bool>)

  // ---------- the state after each callback ----------

  function Deferred(g: Gate, now: real): Gate {
    g.(nextRetry := now + g.delay, delay := Min(5.0, Max(0.5, g.delay * 2.0)))
  }

  function Failed(g: Gate, now: real): Gate {
    Deferred(g, now).(inFlight := false, held := false, awaiting := Nothing)
  }

  function Stopped(g: Gate): Gate {
    g.(inFlight := false, held := false, awaiting := Nothing, exit := GaveUp)
  }

  function Finished(g: Gate, i: Inputs): Gate {
    if Conforms(g.values, i.reader) && i.publishers then g.(held := false, awaiting := Nothing, exit := Verified)
    else if i.accepted then g.(awaiting := PauseReply, sent := g.sent + [PAUSE])
    else g.(held := false, awaiting := Nothing, exit := Crashed)
  }

  function NextRead(g: Gate, i: Inputs): Gate {
    if g.pending == [] then Finished(g, i)
    else if i.parametersReady then g.(pending := g.pending[1..], awaiting := Parameters(g.pending[0]))
    else g.(awaiting := RetryTimer)
  }

  function Validating(g: Gate, i: Inputs): Gate {
    NextRead(g.(inFlight := false, delay := 0.5, nextRetry := 0.0, started := true, pending := NODES), i)
  }

  function Resetting(g: Gate, i: Inputs): Gate {
    if i.accepted then g.(inFlight := true, repairAttempted := true, awaiting := ResetReply, sent := g.sent + [RESET])
    else Stopped(g.(repairAttempted := true))
  }

  function Checked(g: Gate, e: Event, i: Inputs): Gate
    requires e.Check?
  {
    if i.mapping || g.started || g.inFlight || i.now < g.nextRetry || !e.localized || !e.ready then g
    else if !g.held && !e.attempt.Free? then g
    else if e.mappingNow then g.(held := false)
    else if i.accepted then g.(inFlight := true, held := true, awaiting := PlannerState)
    else Failed(g, i.now)
  }

  function AfterState(g: Gate, e: Event, i: Inputs): Gate
    requires e.StateReplied?
  {
    if e.state.None? then Failed(g, i.now)
    else if i.mapping then g.(inFlight := false, held := false, awaiting := Nothing)
    else if e.state.value == 3 then Validating(g, i)
    else if i.accepted then g.(awaiting := StartupReply, sent := g.sent + [STARTUP])
    else Failed(g, i.now)
  }

  function AfterStartup(g: Gate, e: Event, i: Inputs): Gate
    requires e.StartupReplied?
  {
    if e.answer.None? then Failed(g, i.now)
    else if i.mapping then g.(inFlight := false, held := false, awaiting := Nothing)
    else if e.answer.value then Validating(g, i)
    else if !g.repairAttempted then Resetting(g, i)
    else Stopped(g)
  }

  function AfterReset(g: Gate, e: Event, i: Inputs): Gate
    requires e.ResetReplied?
  {
    if e.answer == Some(true) then Failed(g, i.now) else Stopped(g)
  }

  function AfterRead(g: Gate, e: Event, i: Inputs): Gate
    requires e.ParametersReplied? && g.awaiting.Parameters?
  {
    var node := g.awaiting.node;
    NextRead(g.(values := g.values[node := e.reply], replies := g.replies + [(node, e.reply)]), i)
  }

  /** The callback is one that the executor may run now; the localization timer may fire any time. */
  predicate Enabled(g: Gate, e: Event) {
    && g.exit == Running
    && match e
       case Check(_, _, _, _) => true
       case StateReplied(_) => g.awaiting == PlannerState
       case StartupReplied(_) => g.awaiting == StartupReply
       case ResetReplied(_) => g.awaiting == ResetReply
       case ParametersReplied(_) => g.awaiting.Parameters?
       case TimerFired => g.awaiting == RetryTimer
       case PauseReplied(_) => g.awaiting == PauseReply
  }

  function Next(g: Gate, e: Event, i: Inputs): Gate
    requires Enabled(g, e)
  {
    match e
    case Check(_, _, _, _) => Checked(g, e, i)
    case StateReplied(_) => AfterState(g, e, i)
    case StartupReplied(_) => AfterStartup(g, e, i)
    case ResetReplied(_) => AfterReset(g, e, i)
    case ParametersReplied(_) => AfterRead(g, e, i)
    case TimerFired => NextRead(g, i)
    case PauseReplied(_) => g.(held := false, awaiting := Nothing, exit := Paused)
  }

  // ---------- what every callback keeps ----------

  predicate Requesting(a: Awaiting) {
    a == PlannerState || a == StartupReply || a == ResetReply
  }

  predicate Checking(a: Awaiting) {
    a.Parameters? || a == RetryTimer || a == PauseReply
  }

  /** The lease is held exactly while a request is in flight or validation or a pause is running. */
  predicate LeaseDiscipline(g: Gate) {
    && g.inFlight == Requesting(g.awaiting)
    && g.held == (Requesting(g.awaiting) || Checking(g.awaiting))
    && g.started == (Checking(g.awaiting) || g.exit in {Verified, Paused, Crashed})
    && (g.exit != Running ==> g.awaiting == Nothing)
    && 0.5 <= g.delay <= 5.0
  }

  function ReadNodes(replies: seq<(Node, Values)>): seq<Node> {
    seq(|replies|, k requires 0 <= k < |replies| => replies[k].0)
  }

  /** Validation reads each expected node exactly once, in order, and keeps what it read. */
  predicate ReadOnce(g: Gate) {
    && (g.awaiting.Parameters? ==> ReadNodes(g.replies) + [g.awaiting.node] + g.pending == NODES)
    && (g.awaiting == RetryTimer ==> ReadNodes(g.replies) + g.pending == NODES && g.pending != [])
    && (g.awaiting == PauseReply || g.exit in {Verified, Paused, Crashed} ==> ReadNodes(g.replies) == NODES)
    && (!g.started ==> g.replies == [])
    && (g.started ==> Kept(g))
  }

  /** Every reply is the stored reading of its node. */
  predicate Kept(g: Gate) {
    forall k :: 0 <= k < |g.replies| ==> g.replies[k].0 in g.values && g.values[g.replies[k].0] == g.replies[k].1
  }

  function Resets(sent: seq<Command>): nat {
    if sent == [] then 0 else Resets(sent[..|sent| - 1]) + (if sent[|sent| - 1] == RESET then 1 else 0)
  }

  /** A RESET follows a STARTUP. */
  predicate RepairsAt(sent: seq<Command>, k: nat)
    requires k < |sent|
  {
    sent[k] == RESET ==> k > 0 && sent[k - 1] == STARTUP
  }

  /** RESET goes out at most once, right behind a STARTUP. */
  ghost predicate RepairedOnce(sent: seq<Command>, repaired: bool) {
    && Resets(sent) <= 1 && (Resets(sent) == 1 ==> repaired)
    && forall k :: 0 <= k < |sent| ==> RepairsAt(sent, k)
  }

  predicate EndsWith(sent: seq<Command>, c: Command) {
    sent != [] && sent[|sent| - 1] == c
  }

  /** PAUSE is the last command, and sent exactly when the gate pauses navigation. */
  predicate PausedLast(sent: seq<Command>, pausing: bool) {
    (forall k :: 0 <= k < |sent| - 1 ==> sent[k] != PAUSE) && EndsWith(sent, PAUSE) == pausing
  }

  predicate Pausing(g: Gate) {
    g.awaiting == PauseReply || g.exit == Paused
  }

  /** RESET goes out at most once, right behind a STARTUP, and nothing follows a PAUSE. */
  ghost predicate CommandOrder(g: Gate) {
    && RepairedOnce(g.sent, g.repairAttempted)
    && PausedLast(g.sent, Pausing(g))
    && (g.awaiting == StartupReply ==> EndsWith(g.sent, STARTUP))
  }

  lemma LeaseKept(g: Gate, e: Event, i: Inputs)
    requires LeaseDiscipline(g) && Enabled(g, e)
    ensures LeaseDiscipline(Next(g, e, i))
  {
    if e.Check? {
      CheckKeepsLease(g, e, i);
    } else if e.StateReplied? || e.StartupReplied? {
      ReplyKeepsLease(g, e, i);
    }
  }

  lemma CheckKeepsLease(g: Gate, e: Event, i: Inputs)
    requires LeaseDiscipline(g) && Enabled(g, e) && e.Check?
    ensures LeaseDiscipline(Next(g, e, i))
  {}

  lemma ReplyKeepsLease(g: Gate, e: Event, i: Inputs)
    requires LeaseDiscipline(g) && Enabled(g, e) && (e.StateReplied? || e.StartupReplied?)
    ensures LeaseDiscipline(Next(g, e, i))
  {}

  /** What one callback can do to the commands sent. */
  predicate Sends(g: Gate, h: Gate) {
    || (h.sent == g.sent && (h.awaiting == StartupReply ==> g.awaiting == StartupReply)
        && Pausing(h) == Pausing(g) && (g.repairAttempted ==> h.repairAttempted))
    || (h.sent == g.sent + [STARTUP] && h.awaiting == StartupReply && !Pausing(g) && !Pausing(h)
        && h.repairAttempted == g.repairAttempted)
    || (h.sent == g.sent + [RESET] && g.awaiting == StartupReply && h.awaiting == ResetReply
        && !Pausing(g) && !Pausing(h) && !g.repairAttempted && h.repairAttempted)
    || (h.sent == g.sent + [PAUSE] && h.awaiting == PauseReply && !Pausing(g)
        && h.repairAttempted == g.repairAttempted)
  }

  lemma OneCommand(g: Gate, e: Event, i: Inputs)
    requires LeaseDiscipline(g) && Enabled(g, e)
    ensures Sends(g, Next(g, e, i))
  {}

  lemma SendsKeepsOrder(g: Gate, h: Gate)
    requires CommandOrder(g) && Sends(g, h)
    ensures CommandOrder(h)
  {
    if h.sent != g.sent {
      var c := h.sent[|h.sent| - 1];
      assert h.sent == g.sent + [c];
      OneMore(g.sent, c, g.repairAttempted);
      AfterNoPause(g.sent, c);
    }
  }

  lemma OneMore(sent: seq<Command>, c: Command, repaired: bool)
    requires RepairedOnce(sent, repaired) && (c == RESET ==> EndsWith(sent, STARTUP) && !repaired)
    ensures RepairedOnce(sent + [c], repaired || c == RESET)
  {
    var longer := sent + [c];
    assert longer[..|longer| - 1] == sent;
    forall k | 0 <= k < |longer|
      ensures RepairsAt(longer, k)
    {
      if k < |sent| {
        assert RepairsAt(sent, k);
      }
    }
  }

  lemma AfterNoPause(sent: seq<Command>, c: Command)
    requires PausedLast(sent, false)
    ensures PausedLast(sent + [c], c == PAUSE) && EndsWith(sent + [c], c)
  {
    forall k | 0 <= k < |sent|
      ensures sent[k] != PAUSE
    {
      if k == |sent| - 1 {
        assert !EndsWith(sent, PAUSE);
      }
    }
  }

  lemma NodesDistinct()
    ensures |NODES| == 4 && forall a, b :: 0 <= a < b < |NODES| ==> NODES[a] != NODES[b]
  {}

  lemma ReplyKeeps(g: Gate, reply: Values)
    requires g.awaiting.Parameters? && g.started && ReadOnce(g)
    ensures var h := g.(values := g.values[g.awaiting.node := reply],
                        replies := g.replies + [(g.awaiting.node, reply)]);
      Kept(h) && ReadNodes(h.replies) + h.pending == NODES
  {
    var node, n := g.awaiting.node, |g.replies|;
    var before := ReadNodes(g.replies);
    NodesDistinct();
    forall k | 0 <= k < n
      ensures g.replies[k].0 != node
    {
      assert NODES[k] == (before + [node] + g.pending)[k] == before[k];
      assert NODES[n] == (before + [node] + g.pending)[n] == node;
    }
    assert ReadNodes(g.replies + [(node, reply)]) == before + [node];
    assert before + [node] + g.pending == NODES;
  }

  lemma NextReadKeeps(g: Gate, i: Inputs)
    requires g.exit == Running && g.started && Kept(g) && ReadNodes(g.replies) + g.pending == NODES
    ensures ReadOnce(NextRead(g, i))
  {
    if g.pending != [] {
      assert g.pending == [g.pending[0]] + g.pending[1..];
      assert ReadNodes(g.replies) + [g.pending[0]] + g.pending[1..] == ReadNodes(g.replies) + g.pending;
    } else {
      assert ReadNodes(g.replies) + [] == ReadNodes(g.replies);
    }
  }

  lemma ReadOnceKept(g: Gate, e: Event, i: Inputs)
    requires LeaseDiscipline(g) && ReadOnce(g) && Enabled(g, e)
    ensures ReadOnce(Next(g, e, i))
  {
    if e.ParametersReplied? {
      ReplyKeeps(g, e.reply);
      NextReadKeeps(g.(values := g.values[g.awaiting.node := e.reply],
                       replies := g.replies + [(g.awaiting.node, e.reply)]), i);
    } else if e.TimerFired? {
      NextReadKeeps(g, i);
    } else if e.StateReplied? || e.StartupReplied? {
      assert ReadNodes([]) + NODES == NODES;
      NextReadKeeps(g.(inFlight := false, delay := 0.5, nextRetry := 0.0, started := true, pending := NODES), i);
    }
  }

  // ---------- runs ----------

  datatype Step = Step(event: Event, inputs: Inputs)

  predicate Admissible(steps: seq<Step>)
    decreases |steps|, 0
  {
    steps == [] ||
    (Admissible(steps[..|steps| - 1]) && Enabled(After(steps[..|steps| - 1]), steps[|steps| - 1].event))
  }

  function After(steps: seq<Step>): Gate
    requires Admissible(steps)
    decreases |steps|, 1
  {
    if steps == [] then INITIAL
    else Next(After(steps[..|steps| - 1]), steps[|steps| - 1].event, steps[|steps| - 1].inputs)
  }

  /** In every run the lease is held exactly while it is needed, RESET goes out at most once, every
      expected node is read once, and the retry delay stays in its band. */
  lemma {:induction false} RunIsDisciplined(steps: seq<Step>)
    requires Admissible(steps)
    ensures LeaseDiscipline(After(steps)) && ReadOnce(After(steps)) && CommandOrder(After(steps))
  {
    if steps != [] {
      var before, last := steps[..|steps| - 1], steps[|steps| - 1];
      RunIsDisciplined(before);
      LeaseKept(After(before), last.event, last.inputs);
      ReadOnceKept(After(before), last.event, last.inputs);
      OneCommand(After(before), last.event, last.inputs);
      SendsKeepsOrder(After(before), After(steps));
    } else {
      assert ReadNodes([]) == [];
    }
  }

  predicate ContractMet(g: Gate, i: Inputs) {
    Conforms(g.values, i.reader) && i.publishers
  }

  lemma ValidationDecides(g: Gate, e: Event, i: Inputs)
    requires LeaseDiscipline(g) && Enabled(g, e)
    ensures Next(g, e, i).exit == Verified ==> ContractMet(Next(g, e, i), i)
  {}

  /** A gate exits "verified" only after each expected node was read exactly once and every reply
      met the contract, with every expected topic published. */
  lemma VerifiedExit(steps: seq<Step>)
    requires Admissible(steps) && After(steps).exit == Verified
    ensures steps != [] && steps[|steps| - 1].inputs.publishers
    ensures var g := After(steps);
      && ReadNodes(g.replies) == NODES && !g.held
      && forall k :: 0 <= k < |g.replies| ==>
           NodeConforms(g.replies[k].0, g.replies[k].1, steps[|steps| - 1].inputs.reader)
  {
    var before, last := steps[..|steps| - 1], steps[|steps| - 1];
    RunIsDisciplined(before);
    RunIsDisciplined(steps);
    ValidationDecides(After(before), last.event, last.inputs);
    RepliesConform(After(steps), last.inputs.reader);
  }

  lemma RepliesConform(g: Gate, reader: Reader)
    requires Kept(g) && Conforms(g.values, reader)
    ensures forall k :: 0 <= k < |g.replies| ==> NodeConforms(g.replies[k].0, g.replies[k].1, reader)
  {
    AllNodes();
    forall k | 0 <= k < |g.replies|
      ensures NodeConforms(g.replies[k].0, g.replies[k].1, reader)
    {
      var node := g.replies[k].0;
      assert node in NODES && Lookup(g.values, node, map[]) == g.replies[k].1;
    }
  }

  /** Validation has come to a verdict. */
  predicate Decided(g: Gate) {
    g.exit in {Verified, Paused, Crashed} || g.awaiting == PauseReply
  }

  /** The verdict as the state shows it: verified, paused or pausing, or crashed on the way to pausing. */
  datatype Verdict = Met | Broken | Unpaused

  function VerdictOf(g: Gate): Verdict {
    if g.exit == Verified then Met else if g.exit == Crashed then Unpaused else Broken
  }

  function VerdictFor(met: bool, accepted: bool): Verdict {
    if met then Met else if accepted then Broken else Unpaused
  }

  lemma VerdictStep(g: Gate, e: Event, i: Inputs)
    requires LeaseDiscipline(g) && Enabled(g, e)
    ensures var h := Next(g, e, i);
      && (Decided(g) ==> Decided(h) && VerdictOf(h) == VerdictOf(g))
      && (!Decided(g) && Decided(h) ==> VerdictOf(h) == VerdictFor(ContractMet(h, i), i.accepted))
  {}

  /** Every gate that has come to a verdict did so in one step: it is verified if and only if the
      contract was met there, pauses navigation if and only if it was broken and the PAUSE call got
      out, and otherwise crashes with no PAUSE sent. */
  lemma {:induction false} ValidationExit(steps: seq<Step>) returns (k: nat)
    requires Admissible(steps) && Decided(After(steps))
    ensures k < |steps| && Admissible(steps[..k + 1])
    ensures var g, met := After(steps), ContractMet(After(steps[..k + 1]), steps[k].inputs);
      && (g.exit == Verified <==> met)
      && (Pausing(g) <==> !met && steps[k].inputs.accepted)
      && (g.exit == Crashed <==> !met && !steps[k].inputs.accepted)
      && (g.exit == Crashed ==> PAUSE !in g.sent)
  {
    k := VerdictAt(steps);
    RunIsDisciplined(steps);
  }

  /** The gate pauses navigation only when the contract was found broken, and PAUSE is then its last
      command. */
  lemma PausedExit(steps: seq<Step>) returns (k: nat)
    requires Admissible(steps) && Pausing(After(steps))
    ensures k < |steps| && Admissible(steps[..k + 1])
    ensures !ContractMet(After(steps[..k + 1]), steps[k].inputs)
    ensures After(steps).sent != [] && After(steps).sent[|After(steps).sent| - 1] == PAUSE
  {
    k := ValidationExit(steps);
    RunIsDisciplined(steps);
  }

  lemma {:induction false} VerdictAt(steps: seq<Step>) returns (k: nat)
    requires Admissible(steps) && Decided(After(steps))
    ensures k < |steps| && Admissible(steps[..k + 1])
    ensures VerdictOf(After(steps)) ==
            VerdictFor(ContractMet(After(steps[..k + 1]), steps[k].inputs), steps[k].inputs.accepted)
  {
    var before, last := steps[..|steps| - 1], steps[|steps| - 1];
    RunIsDisciplined(before);
    assert steps[..|steps|] == steps;
    VerdictStep(After(before), last.event, last.inputs);
    if Decided(After(before)) {
      k := VerdictAt(before);
      assert before[..k + 1] == steps[..k + 1];
    } else {
      k := |steps| - 1;
    }
  }

  predicate RejectedStartup(s: Step) {
    s.event.StartupReplied? && s.event.answer == Some(false) && !s.inputs.mapping
  }

  function RejectedStartups(steps: seq<Step>): nat {
    if steps == [] then 0
    else RejectedStartups(steps[..|steps| - 1]) + (if RejectedStartup(steps[|steps| - 1]) then 1 else 0)
  }

  lemma RejectionStep(g: Gate, s: Step)
    requires LeaseDiscipline(g) && Enabled(g, s.event)
    ensures var h := Next(g, s.event, s.inputs);
      if RejectedStartup(s) then h.repairAttempted && (g.repairAttempted ==> h.exit == GaveUp)
      else h.repairAttempted == g.repairAttempted
  {}

  /** One rejected STARTUP is repaired by a reset; a second one ends the gate for good, with
      validation never begun. */
  lemma {:induction false} SecondRejectionStops(steps: seq<Step>)
    requires Admissible(steps)
    ensures RejectedStartups(steps) <= 2
    ensures After(steps).repairAttempted <==> RejectedStartups(steps) >= 1
    ensures RejectedStartups(steps) == 2 ==>
              After(steps).exit == GaveUp && !After(steps).started && After(steps).replies == []
  {
    if steps != [] {
      var before, last := steps[..|steps| - 1], steps[|steps| - 1];
      SecondRejectionStops(before);
      RunIsDisciplined(before);
      RunIsDisciplined(steps);
      RejectionStep(After(before), last);
    }
  }

  // ---------- the gate object ----------

  class Nav2ActivationGate {
    const interlock: Interlock.LifecycleInterlock
    var requestInFlight: bool
    var navigationStarted: bool
    var retryDelaySeconds: real
    var nextRetryMonotonic: real
    var lifecycleRepairAttempted: bool
    var validationPending: seq<Node>
    var runtimeValues: Readings
    ghost var awaiting: Awaiting
    ghost var exit: Exit
    ghost var sent: seq<Command>
    ghost var replies: seq<(Node, Values)>

    ghost function State(): Gate
      reads this, interlock
    {
      Gate(requestInFlight, navigationStarted, interlock.Held(), retryDelaySeconds, nextRetryMonotonic,
           lifecycleRepairAttempted, validationPending, runtimeValues, awaiting, exit, sent, replies)
    }

    constructor ()
      ensures State() == INITIAL && fresh(interlock)
    {
      interlock := new Interlock.LifecycleInterlock();
      requestInFlight, navigationStarted, lifecycleRepairAttempted := false, false, false;
      retryDelaySeconds, nextRetryMonotonic := 0.5, 0.0;
      validationPending, runtimeValues := [], map[];
      awaiting, exit, sent, replies := Nothing, Running, [], [];
    }

    method DeferRetry(now: real)
      modifies this`nextRetryMonotonic, this`retryDelaySeconds
      ensures State() == Deferred(old(State()), now)
    {
      nextRetryMonotonic := now + retryDelaySeconds;
      retryDelaySeconds := Min(5.0, Max(0.5, retryDelaySeconds * 2.0));
    }

    method FailRequest(now: real)
      modifies this, interlock
      ensures State() == Failed(old(State()), now)
    {
      requestInFlight := false;
      DeferRetry(now);
      interlock.Release();
      awaiting := Nothing;
    }

    method StopAfterFailedRepair()
      modifies this, interlock
      ensures State() == Stopped(old(State()))
    {
      requestInFlight := false;
      interlock.Release();
      awaiting, exit := Nothing, GaveUp;
    }

    method FinishValidation(i: Inputs)
      modifies this, interlock
      ensures State() == Finished(old(State()), i)
    {
      var errors := ValidateRuntimeParameters(runtimeValues, i.reader);
      if errors == [] && i.publishers {
        interlock.Release();
        awaiting, exit := Nothing, Verified;
        return;
      }
      if !i.accepted {
        interlock.Release();
        awaiting, exit := Nothing, Crashed;
        return;
      }
      sent, awaiting := sent + [PAUSE], PauseReply;
    }

    method RequestNextParameters(i: Inputs)
      modifies this, interlock
      ensures State() == NextRead(old(State()), i)
    {
      if validationPending == [] {
        FinishValidation(i);
        return;
      }
      var node := validationPending[0];
      validationPending := validationPending[1..];
      if !i.parametersReady {
        validationPending := [node] + validationPending;
        awaiting := RetryTimer;
        return;
      }
      awaiting := Parameters(node);
    }

    method BeginValidation(i: Inputs)
      modifies this, interlock
      ensures State() == NextRead(old(State()).(delay := 0.5, nextRetry := 0.0, started := true, pending := NODES), i)
    {
      retryDelaySeconds, nextRetryMonotonic := 0.5, 0.0;
      navigationStarted := true;
      validationPending := NODES;
      RequestNextParameters(i);
    }

    method RequestLifecycleReset(i: Inputs)
      modifies this, interlock
      ensures State() == (if i.accepted
                          then old(State()).(inFlight := true, awaiting := ResetReply, sent := old(sent) + [RESET])
                          else Stopped(old(State())))
    {
      requestInFlight := true;
      if !i.accepted {
        StopAfterFailedRepair();
        return;
      }
      sent, awaiting := sent + [RESET], ResetReply;
    }

    method CheckLocalization(e: Event, i: Inputs)
      requires e.Check? && Enabled(State(), e)
      modifies this, interlock
      ensures State() == Next(old(State()), e, i)
    {
      if i.mapping {
        return;
      }
      if navigationStarted || requestInFlight {
        return;
      }
      if i.now < nextRetryMonotonic {
        return;
      }
      if !e.localized || !e.ready {
        return;
      }
      var acquired := interlock.TryAcquire(e.attempt);
      if !acquired {
        return;
      }
      if e.mappingNow {
        interlock.Release();
        return;
      }
      requestInFlight := true;
      if !i.accepted {
        FailRequest(i.now);
        return;
      }
      awaiting := PlannerState;
    }

    method PlannerStateComplete(e: Event, i: Inputs)
      requires e.StateReplied? && Enabled(State(), e)
      modifies this, interlock
      ensures State() == Next(old(State()), e, i)
    {
      if e.state.None? {
        FailRequest(i.now);
        return;
      }
      if i.mapping {
        requestInFlight := false;
        interlock.Release();
        awaiting := Nothing;
        return;
      }
      if e.state.value == 3 {
        requestInFlight := false;
        BeginValidation(i);
        return;
      }
      if !i.accepted {
        FailRequest(i.now);
        return;
      }
      sent, awaiting := sent + [STARTUP], StartupReply;
    }

    method StartupComplete(e: Event, i: Inputs)
      requires e.StartupReplied? && Enabled(State(), e)
      modifies this, interlock
      ensures State() == Next(old(State()), e, i)
    {
      requestInFlight := false;
      if e.answer.None? {
        FailRequest(i.now);
        return;
      }
      if i.mapping {
        interlock.Release();
        awaiting := Nothing;
        return;
      }
      if !e.answer.value {
        if !lifecycleRepairAttempted {
          lifecycleRepairAttempted := true;
          RequestLifecycleReset(i);
          return;
        }
        StopAfterFailedRepair();
        return;
      }
      retryDelaySeconds, nextRetryMonotonic := 0.5, 0.0;
      BeginValidation(i);
    }

    method LifecycleResetComplete(e: Event, i: Inputs)
      requires e.ResetReplied? && Enabled(State(), e)
      modifies this, interlock
      ensures State() == Next(old(State()), e, i)
    {
      requestInFlight := false;
      if e.answer.None? {
        StopAfterFailedRepair();
        return;
      }
      if !e.answer.value {
        StopAfterFailedRepair();
        return;
      }
      DeferRetry(i.now);
      interlock.Release();
      awaiting := Nothing;
    }

    method ParametersReceived(node: Node, e: Event, i: Inputs)
      requires e.ParametersReplied? && Enabled(State(), e) && awaiting == Parameters(node)
      modifies this, interlock
      ensures State() == Next(old(State()), e, i)
    {
      runtimeValues := runtimeValues[node := e.reply];
      replies := replies + [(node, e.reply)];
      RequestNextParameters(i);
    }

    method RetryParameterRequest(e: Event, i: Inputs)
      requires e.TimerFired? && Enabled(State(), e)
      modifies this, interlock
      ensures State() == Next(old(State()), e, i)
    {
      RequestNextParameters(i);
    }

    method PauseComplete(e: Event, i: Inputs)
      requires e.PauseReplied? && Enabled(State(), e)
      modifies this, interlock
      ensures State() == Next(old(State()), e, i)
    {
      interlock.Release();
      awaiting, exit := Nothing, Paused;
    }
  }
}
