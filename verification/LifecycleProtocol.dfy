/** The two processes together: the activation gate and a mapping session share the marker file, the
    advisory lock and the navigation lifecycle manager, and interleave freely. A mapping session may
    take any legal action; the gate moves by its callbacks, and its marker reads, its lock attempt
    and its second marker read are steps of their own. */
module LifecycleProtocol {
  import opened Common
  import G = ActivationGate
  import M = MappingSession

  datatype Owner = Free | ByGate | ByMapping

  datatype World = World(
    lock: Owner,
    marker: bool,
    navigationActive: bool,
    gate: G.Gate,
    seen: Option<bool>,                      // the marker value the gate's next callback acts on
    trying: Option<(G.Event, G.Inputs)>,     // a check that has the lock and has yet to look again
    view: M.View)

  datatype Move =
    | Mapping(action: M.Action)
    | GateReads
    | GateTries(event: G.Event, inputs: G.Inputs)
    | GateLooksAgain(present: bool)
    | GateRuns(event: G.Event, inputs: G.Inputs)
    | GateRestarts
    | ManagerWorks                           // a gate request in flight changes navigation

  ghost predicate Init(w: World) {
    w.lock == Free && !w.marker && w.gate == G.INITIAL && w.seen == None && w.trying == None && w.view == M.FRESH
  }

  /** A command of the gate is on its way to the navigation manager. */
  predicate GateRequestInFlight(g: G.Gate) {
    g.awaiting == G.StartupReply || g.awaiting == G.ResetReply || g.awaiting == G.PauseReply
  }

  // ---------- the mapping side ----------

  /** What the shared resources answer to a mapping action. The lock may be refused at any time; a
      successful command leaves navigation as commanded, a failed one in any state. */
  predicate Answered(w: World, a: M.Action, after: bool) {
    match a
    case Lock(got) => after == w.navigationActive && (got ==> w.lock != ByGate)
    case Survey(navigation, _) => after == w.navigationActive && navigation == w.navigationActive
    case Query(manager, answer) =>
      after == w.navigationActive
      && (manager == M.Navigation && answer.Some? ==> answer.value == w.navigationActive)
    case Call(manager, c, ok) =>
      if manager == M.Navigation then ok ==> after == M.LeavesActive(c) else after == w.navigationActive
    case _ => after == w.navigationActive
  }

  function LockAfter(lock: Owner, a: M.Action): Owner {
    match a
    case Lock(got) => if got then ByMapping else lock
    case Unlock => if lock == ByMapping then Free else lock
    case _ => lock
  }

  function MarkerAfter(marker: bool, a: M.Action): bool {
    match a
    case Mark(present) => present
    case Unmark => false
    case _ => marker
  }

  ghost predicate MappingMoves(w: World, a: M.Action, w': World) {
    && M.Legal(w.view, a)
    && Answered(w, a, w'.navigationActive)
    && w' == w.(lock := LockAfter(w.lock, a), marker := MarkerAfter(w.marker, a),
                navigationActive := w'.navigationActive, view := M.Next(w.view, a))
  }

  // ---------- the gate ----------

  /** The callbacks that read the marker before they act. */
  predicate ReadsMarker(e: G.Event) {
    e.Check? || e.StateReplied? || e.StartupReplied?
  }

  function GateLock(lock: Owner, held: bool): Owner {
    if held then ByGate else if lock == ByGate then Free else lock
  }

  /** The gate state after a callback, with the lock as it leaves it. */
  function Ran(w: World, e: G.Event, i: G.Inputs): World
    requires G.Enabled(w.gate, e)
  {
    var g := G.Next(w.gate, e, i);
    w.(gate := g, lock := GateLock(w.lock, g.held), seen := if ReadsMarker(e) then None else w.seen)
  }

  /** A check gets past its guards and wants the lock. */
  predicate WantsLock(g: G.Gate, e: G.Event, i: G.Inputs) {
    && e.Check? && G.Enabled(g, e)
    && !i.mapping && !g.started && !g.inFlight && i.now >= g.nextRetry && e.localized && e.ready
  }

  ghost predicate GateRunsTo(w: World, e: G.Event, i: G.Inputs, w': World) {
    && w.trying == None && G.Enabled(w.gate, e)
    && (ReadsMarker(e) ==> w.seen == Some(i.mapping))
    && (e.Check? ==> !WantsLock(w.gate, e, i) || !e.attempt.Free?)
    && w' == Ran(w, e, i)
  }

  ghost predicate GateTriesTo(w: World, e: G.Event, i: G.Inputs, w': World) {
    && w.trying == None && WantsLock(w.gate, e, i) && e.attempt.Free? && w.lock == Free
    && w.seen == Some(i.mapping)
    && w' == w.(trying := Some((e, i)), lock := ByGate, seen := None)
  }

  ghost predicate GateLooksTo(w: World, present: bool, w': World) {
    && w.trying.Some? && present == w.marker
    && var (e, i) := w.trying.value;
       e.Check? && G.Enabled(w.gate, e)
       && w' == Ran(w, e.(mappingNow := present), i).(trying := None)
  }

  ghost predicate Moves(w: World, m: Move, w': World) {
    match m
    case Mapping(a) => MappingMoves(w, a, w')
    case GateReads => w' == w.(seen := Some(w.marker))
    case GateTries(e, i) => GateTriesTo(w, e, i, w')
    case GateLooksAgain(present) => GateLooksTo(w, present, w')
    case GateRuns(e, i) => GateRunsTo(w, e, i, w')
    case GateRestarts =>
      w.trying == None && w.gate.exit != G.Running && w' == w.(gate := G.INITIAL, seen := None)
    case ManagerWorks => GateRequestInFlight(w.gate) && w' == w.(navigationActive := w'.navigationActive)
  }

  // ---------- the invariant ----------

  predicate TryingIsCheck(w: World) {
    w.trying.Some? ==>
      && WantsLock(w.gate, w.trying.value.0, w.trying.value.1) && w.trying.value.0.attempt.Free?
      && w.gate.awaiting == G.Nothing
  }

  predicate Inv(w: World) {
    && (w.lock == ByMapping <==> w.view.holds)
    && (w.lock == ByGate <==> w.gate.held || w.trying.Some?)
    && w.marker == w.view.marked
    && (w.view.quiet ==> w.view.holds && !w.navigationActive)
    && M.Undisturbed(w.view)
    && G.LeaseDiscipline(w.gate)
    && TryingIsCheck(w)
  }

  lemma InitInv(w: World)
    requires Init(w)
    ensures Inv(w)
  {}

  lemma MappingKeepsInv(w: World, a: M.Action, w': World)
    requires Inv(w) && MappingMoves(w, a, w')
    ensures Inv(w')
  {}

  lemma GateRunsKeepsInv(w: World, e: G.Event, i: G.Inputs, w': World)
    requires Inv(w) && GateRunsTo(w, e, i, w')
    ensures Inv(w')
  {
    G.LeaseKept(w.gate, e, i);
  }

  lemma GateTriesKeepsInv(w: World, e: G.Event, i: G.Inputs, w': World)
    requires Inv(w) && GateTriesTo(w, e, i, w')
    ensures Inv(w')
  {}

  lemma GateLooksKeepsInv(w: World, present: bool, w': World)
    requires Inv(w) && GateLooksTo(w, present, w')
    ensures Inv(w')
  {
    var (e, i) := w.trying.value;
    G.LeaseKept(w.gate, e.(mappingNow := present), i);
  }

  lemma MovesKeepInv(w: World, m: Move, w': World)
    requires Inv(w) && Moves(w, m, w')
    ensures Inv(w')
  {
    match m {
      case Mapping(a) => MappingKeepsInv(w, a, w');
      case GateReads =>
      case GateTries(e, i) => GateTriesKeepsInv(w, e, i, w');
      case GateLooksAgain(present) => GateLooksKeepsInv(w, present, w');
      case GateRuns(e, i) => GateRunsKeepsInv(w, e, i, w');
      case GateRestarts =>
      case ManagerWorks =>
    }
  }

  // ---------- every interleaving ----------

  ghost predicate MoveAt(ws: seq<World>, ms: seq<Move>, k: nat)
    requires |ws| == |ms| + 1 && k < |ms|
  {
    Moves(ws[k], ms[k], ws[k + 1])
  }

  ghost predicate Interleaving(ws: seq<World>, ms: seq<Move>) {
    |ws| == |ms| + 1 && Init(ws[0]) && forall k: nat :: k < |ms| ==> MoveAt(ws, ms, k)
  }

  lemma {:induction false} ReachableInv(ws: seq<World>, ms: seq<Move>, k: nat)
    requires Interleaving(ws, ms) && k <= |ms|
    ensures Inv(ws[k])
  {
    if k == 0 {
      InitInv(ws[0]);
    } else {
      ReachableInv(ws, ms, k - 1);
      assert MoveAt(ws, ms, k - 1);
      MovesKeepInv(ws[k - 1], ms[k - 1], ws[k]);
    }
  }

  predicate CommandsNavigation(a: M.Action) {
    a.Call? && a.manager == M.Navigation
  }

  /** The gate put a command on its way in this move. */
  predicate GateSends(w: World, m: Move, w': World) {
    !m.GateRestarts? && w'.gate.sent != w.gate.sent
  }

  lemma GateSendsUnderLock(w: World, m: Move, w': World)
    requires Inv(w) && Moves(w, m, w') && GateSends(w, m, w')
    ensures w.lock == ByGate && w'.lock == ByGate
  {
    MovesKeepInv(w, m, w');
    match m {
      case GateRuns(e, i) =>
        G.OneCommand(w.gate, e, i);
        G.LeaseKept(w.gate, e, i);
        SentMeansHeld(w.gate, e, i);
      case GateLooksAgain(present) =>
      case _ =>
    }
  }

  lemma SentMeansHeld(g: G.Gate, e: G.Event, i: G.Inputs)
    requires G.LeaseDiscipline(g) && G.Enabled(g, e) && G.Next(g, e, i).sent != g.sent
    ensures g.held && G.Next(g, e, i).held
  {}

  /** In every interleaving the navigation manager is commanded only by the process that holds the
      lock, which it still holds while its request is in flight. */
  lemma ExclusiveCommands(ws: seq<World>, ms: seq<Move>, k: nat)
    requires Interleaving(ws, ms) && k < |ms|
    ensures ms[k].Mapping? && CommandsNavigation(ms[k].action) ==>
              ws[k].lock == ByMapping && ws[k + 1].lock == ByMapping
    ensures GateSends(ws[k], ms[k], ws[k + 1]) ==> ws[k].lock == ByGate && ws[k + 1].lock == ByGate
    ensures GateRequestInFlight(ws[k].gate) ==> ws[k].lock == ByGate
  {
    ReachableInv(ws, ms, k);
    assert MoveAt(ws, ms, k);
    if ms[k].Mapping? {
      MappingCommandsUnderLock(ws[k], ms[k].action, ws[k + 1]);
    } else if GateSends(ws[k], ms[k], ws[k + 1]) {
      GateSendsUnderLock(ws[k], ms[k], ws[k + 1]);
    }
  }

  lemma MappingCommandsUnderLock(w: World, a: M.Action, w': World)
    requires Inv(w) && MappingMoves(w, a, w')
    ensures CommandsNavigation(a) ==> w.lock == ByMapping && w'.lock == ByMapping
    ensures w'.gate == w.gate
  {}

  /** In every interleaving, a session that is mapping or in review holds the lock, with the marker
      set, navigation inactive and no request of the gate in flight. */
  lemma CaptureIsUndisturbed(ws: seq<World>, ms: seq<Move>, k: nat)
    requires Interleaving(ws, ms) && k <= |ms| && M.Capturing(ws[k].view.phase)
    ensures ws[k].lock == ByMapping && ws[k].marker && !ws[k].navigationActive
    ensures !GateRequestInFlight(ws[k].gate)
  {
    ReachableInv(ws, ms, k);
  }

  /** A gate that finds the marker set when it looks again gives the lock back and asks nothing. */
  lemma LookingAgainYields(ws: seq<World>, ms: seq<Move>, k: nat)
    requires Interleaving(ws, ms) && k < |ms| && ms[k] == GateLooksAgain(true)
    ensures ws[k].marker && ws[k].lock == ByGate && ws[k + 1].lock == Free
    ensures ws[k + 1].gate.awaiting == G.Nothing && ws[k + 1].gate.sent == ws[k].gate.sent
  {
    ReachableInv(ws, ms, k);
    assert MoveAt(ws, ms, k);
  }

  function Waiting(lock: Owner, marker: bool, seen: Option<bool>, phase: M.Phase, quiet: bool): World {
    World(lock, marker, false, G.INITIAL, seen, None,
          M.View(phase, lock == ByMapping, marker, quiet, false, false, false, None, false, false, false))
  }

  lemma StartMoves()
    ensures Moves(Waiting(Free, false, None, M.IDLE, false), Mapping(M.Enter(M.STARTING)),
                  Waiting(Free, false, None, M.STARTING, false))
    ensures Moves(Waiting(Free, false, None, M.STARTING, false), Mapping(M.Mark(true)),
                  Waiting(Free, true, None, M.STARTING, false))
    ensures Moves(Waiting(Free, true, None, M.STARTING, false), GateReads,
                  Waiting(Free, true, Some(true), M.STARTING, false))
  {}

  lemma CaptureMoves()
    ensures Moves(Waiting(Free, true, Some(true), M.STARTING, false), Mapping(M.Lock(true)),
                  Waiting(ByMapping, true, Some(true), M.STARTING, false))
    ensures Moves(Waiting(ByMapping, true, Some(true), M.STARTING, false), Mapping(M.Survey(false, false)),
                  Waiting(ByMapping, true, Some(true), M.STARTING, true))
    ensures Moves(Waiting(ByMapping, true, Some(true), M.STARTING, true), Mapping(M.Enter(M.MAPPING)),
                  Waiting(ByMapping, true, Some(true), M.MAPPING, true))
  {}

  /** A run in which the gate looks at the marker in time, and the session comes to map. */
  lemma CaptureIsReachable() returns (ws: seq<World>, ms: seq<Move>)
    ensures Interleaving(ws, ms) && ws[|ms|].view.phase == M.MAPPING && ws[|ms|].seen == Some(true)
  {
    ws := [Waiting(Free, false, None, M.IDLE, false), Waiting(Free, false, None, M.STARTING, false),
           Waiting(Free, true, None, M.STARTING, false), Waiting(Free, true, Some(true), M.STARTING, false),
           Waiting(ByMapping, true, Some(true), M.STARTING, false),
           Waiting(ByMapping, true, Some(true), M.STARTING, true),
           Waiting(ByMapping, true, Some(true), M.MAPPING, true)];
    ms := [Mapping(M.Enter(M.STARTING)), Mapping(M.Mark(true)), GateReads, Mapping(M.Lock(true)),
           Mapping(M.Survey(false, false)), Mapping(M.Enter(M.MAPPING))];
    StartMoves();
    CaptureMoves();
    forall k: nat | k < |ms|
      ensures MoveAt(ws, ms, k)
    {
      assert k == 0 || k == 1 || k == 2 || k == 3 || k == 4 || k == 5;
    }
  }

  // ---------- the marker bounds the gate ----------

  /** The gate sends a command that brings navigation up or resets it. */
  predicate GateStarts(w: World, m: Move, w': World) {
    GateSends(w, m, w') && |w'.gate.sent| > 0 && w'.gate.sent[|w'.gate.sent| - 1] != G.PAUSE
  }

  function Starts(ws: seq<World>, ms: seq<Move>, i: nat, j: nat): nat
    requires |ws| == |ms| + 1 && i <= j <= |ms|
    decreases j
  {
    if i == j then 0 else Starts(ws, ms, i, j - 1) + M.Bit(GateStarts(ws[j - 1], ms[j - 1], ws[j]))
  }

  lemma StartsOnlyUnmarked(g: G.Gate, e: G.Event, i: G.Inputs)
    requires G.LeaseDiscipline(g) && G.Enabled(g, e) && G.Next(g, e, i).sent != g.sent
    ensures G.Next(g, e, i).sent == g.sent + [G.PAUSE] || (ReadsMarker(e) && !i.mapping)
  {}

  lemma StartUsesUpReading(w: World, m: Move, w': World)
    requires Inv(w) && Moves(w, m, w') && w.marker
    ensures M.Bit(GateStarts(w, m, w')) + M.Bit(w'.seen == Some(false)) <= M.Bit(w.seen == Some(false))
  {
    match m {
      case GateRuns(e, i) =>
        if G.Next(w.gate, e, i).sent != w.gate.sent {
          StartsOnlyUnmarked(w.gate, e, i);
        }
      case GateLooksAgain(present) =>
      case _ =>
    }
  }

  /** While the marker stays set, the gate sends at most one STARTUP or RESET, and that one only on
      a reading of the marker made before it was set. */
  lemma {:induction false} MarkerBoundsGate(ws: seq<World>, ms: seq<Move>, i: nat, j: nat)
    requires Interleaving(ws, ms) && i <= j <= |ms| && forall k :: i <= k < j ==> ws[k].marker
    ensures Starts(ws, ms, i, j) + M.Bit(ws[j].seen == Some(false)) <= M.Bit(ws[i].seen == Some(false))
    decreases j
  {
    if i < j {
      MarkerBoundsGate(ws, ms, i, j - 1);
      ReachableInv(ws, ms, j - 1);
      assert MoveAt(ws, ms, j - 1);
      StartUsesUpReading(ws[j - 1], ms[j - 1], ws[j]);
    }
  }

  // ---------- the session inside the interleaving ----------

  function MappingLog(ms: seq<Move>): seq<M.Action> {
    if ms == [] then []
    else
      MappingLog(ms[..|ms| - 1])
      + (if ms[|ms| - 1].Mapping? then [ms[|ms| - 1].action] else [])
  }

  /** The mapping actions of an interleaving form a legal history, so what such histories conserve
      is conserved whatever the gate does in between. */
  lemma {:induction false} ProjectionIsLegal(ws: seq<World>, ms: seq<Move>, k: nat)
    requires Interleaving(ws, ms) && k <= |ms|
    ensures M.Traced(MappingLog(ms[..k]), ws[k].view)
  {
    if k == 0 {
      M.TraceStarts();
    } else {
      ProjectionIsLegal(ws, ms, k - 1);
      assert MoveAt(ws, ms, k - 1);
      assert ms[..k][..k - 1] == ms[..k - 1];
      ProjectionStep(ws[k - 1], ms[k - 1], ws[k], MappingLog(ms[..k - 1]));
    }
  }

  lemma ProjectionStep(w: World, m: Move, w': World, log: seq<M.Action>)
    requires M.Traced(log, w.view) && Moves(w, m, w')
    ensures M.Traced(log + (if m.Mapping? then [m.action] else []), w'.view)
  {
    if m.Mapping? {
      M.TraceExtends(log, w.view, m.action);
    } else {
      assert log + [] == log;
    }
  }
}
