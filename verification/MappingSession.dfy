/** What a mapping session may do to the resources it shares with navigation, and what every
    history of such actions conserves
    (robot_agent/amr_web_bridge/amr_web_bridge/mapping_runtime.py). */
module MappingSession {
  import opened Common

  datatype Manager = Localization | Navigation

  /** The lifecycle-manager commands; their wire numbers are 0, 1, 2 and 3. */
  datatype Command = Startup | Pause | Resume | Reset

  datatype Phase = IDLE | STARTING | MAPPING | REVIEW | SAVING | RESTORING | FAILED

  /** One externally visible step, with the answer it met. */
  datatype Action =
    | Mark(present: bool)                                  // write the marker; is it there afterwards
    | Unmark
    | Lock(got: bool)
    | Unlock
    | Survey(navigation: bool, localization: bool)         // which managers are active as a session starts
    | Query(manager: Manager, answer: Option<bool>)        // is the manager's node active; None on an error
    | Call(manager: Manager, command: Command, ok: bool)
    | Activate                                             // the caller's map activation took over
    | Enter(phase: Phase)

  /** What a history leaves the session with: its phase, what it holds, whether it knows that
      navigation is inactive, the managers it remembers having to restore, whether navigation has
      been reset since its last unconfirmed command, the command whose answer was lost just now, the
      managers that the start under way has paused and not yet asked back, and whether it has begun
      to give up. */
  datatype View = View(
    phase: Phase,
    holds: bool,
    marked: bool,
    quiet: bool,
    owesLocalization: bool,
    owesNavigation: bool,
    clean: bool,
    asked: Option<(Manager, Command)>,
    pausedLocalization: bool,
    pausedNavigation: bool,
    undoing: bool)

  const FRESH := View(IDLE, false, false, false, false, false, false, None, false, false, false)

  predicate OwesNothing(v: View) {
    !v.owesLocalization && !v.owesNavigation
  }

  /** What a node's state must be after the command has worked. */
  predicate LeavesActive(c: Command) {
    c == Startup || c == Resume
  }

  /** The command that an action proves done: it succeeded, or its answer was lost and the state
      query right after it shows the effect. */
  function Confirms(asked: Option<(Manager, Command)>, a: Action): Option<(Manager, Command)> {
    match a
    case Call(m, c, ok) => if ok then Some((m, c)) else None
    case Query(m, answer) =>
      if asked.Some? && asked.value.0 == m && answer == Some(LeavesActive(asked.value.1)) then asked else None
    case _ => None
  }

  function Asked(a: Action): Option<(Manager, Command)> {
    if a.Call? && !a.ok then Some((a.manager, a.command)) else None
  }

  /** What is known about navigation being inactive after an action. */
  predicate QuietAfter(quiet: bool, a: Action) {
    match a
    case Unlock => false
    case Survey(navigation, _) => !navigation
    case Query(m, answer) => if m == Navigation then answer == Some(false) else quiet
    case Call(m, c, ok) => if m == Navigation then ok && !LeavesActive(c) else quiet
    case _ => quiet
  }

  predicate CleanAfter(clean: bool, done: Option<(Manager, Command)>, a: Action) {
    match a
    case Call(m, c, ok) => if m == Navigation && c == Reset then ok else clean
    case Query(_, _) => clean || done == Some((Navigation, Reset))
    case _ => clean && !a.Survey? && !a.Unlock?
  }

  /** The command gives the manager back. */
  predicate Returning(done: Option<(Manager, Command)>, m: Manager) {
    done.Some? && done.value.0 == m && LeavesActive(done.value.1)
  }

  predicate PausedAfter(paused: bool, a: Action, m: Manager) {
    match a
    case Call(n, c, ok) => if n == m then (c == Pause && ok) || (c != Resume && paused) else paused
    case Enter(p) => p != STARTING && paused
    case _ => paused && !a.Unlock?
  }

  function Next(v: View, a: Action): View {
    var done := Confirms(v.asked, a);
    View(
      if a.Enter? then a.phase else v.phase,
      if a.Lock? then v.holds || a.got else v.holds && !a.Unlock?,
      if a.Mark? then a.present else v.marked && !a.Unmark?,
      QuietAfter(v.quiet, a),
      if a.Survey? then a.localization
      else v.owesLocalization && !a.Unlock? && !a.Activate? && !Returning(done, Localization),
      if a.Survey? then a.navigation
      else v.owesNavigation && !a.Unlock? && !a.Activate? && !Returning(done, Navigation),
      CleanAfter(v.clean, done, a),
      Asked(a),
      PausedAfter(v.pausedLocalization, a, Localization),
      PausedAfter(v.pausedNavigation, a, Navigation),
      a.Unmark? || (v.undoing && !a.Unlock? && !a.Enter?))
  }

  /** The phases in which the robot is being driven to map and nothing else may navigate it. */
  predicate Capturing(p: Phase) {
    p == MAPPING || p == REVIEW
  }

  /** What capturing relies on. */
  predicate Undisturbed(v: View) {
    Capturing(v.phase) ==> v.holds && v.marked && v.quiet
  }

  /** Access discipline: managers are commanded and observed only under the lock, and capturing is
      undisturbed after the action. */
  predicate Orderly(v: View, a: Action) {
    && (a.Call? || a.Query? || a.Survey? ==> v.holds)
    && Undisturbed(Next(v, a))
  }

  /** Every command goes to a manager that is owed. A start pauses a manager once, and on giving up
      asks each paused one back once, localization first; afterwards a manager is brought back by
      RESUME, or, once localization is back, by RESET and STARTUP. */
  predicate MayCall(v: View, m: Manager, c: Command) {
    match (m, c)
    case (Localization, Pause) =>
      v.phase == STARTING && !v.undoing && v.owesLocalization && !v.pausedLocalization
    case (Navigation, Pause) =>
      v.phase == STARTING && !v.undoing && v.owesNavigation && !v.pausedNavigation
    case (Localization, Resume) =>
      v.owesLocalization && (v.phase == STARTING ==> v.undoing && v.pausedLocalization)
    case (Navigation, Resume) =>
      v.phase == STARTING && v.owesNavigation && v.undoing && v.pausedNavigation && !v.pausedLocalization
    case (Navigation, Reset) => v.phase != STARTING && v.owesNavigation && !v.owesLocalization
    case (Navigation, Startup) => v.phase != STARTING && v.owesNavigation && !v.owesLocalization && v.clean
    case _ => false
  }

  predicate MayEnter(v: View, p: Phase) {
    match p
    case IDLE => (v.phase == SAVING || v.phase == RESTORING) && !v.holds && !v.marked && OwesNothing(v)
    case STARTING => v.phase == IDLE || v.phase == FAILED
    case MAPPING =>
      v.phase == STARTING && v.pausedLocalization == v.owesLocalization && v.pausedNavigation == v.owesNavigation
    case REVIEW => v.phase == MAPPING || v.phase == SAVING
    case SAVING => v.phase == REVIEW
    case RESTORING => Capturing(v.phase) || v.phase == FAILED
    case FAILED =>
      || v.phase == SAVING || v.phase == RESTORING
      || (v.phase == STARTING && !v.holds && !v.marked && OwesNothing(v))
  }

  /** What a mapping session may do next. */
  predicate Legal(v: View, a: Action) {
    && Orderly(v, a)
    && match a
       case Mark(_) => v.phase == STARTING && !v.undoing
       case Lock(_) => v.phase == STARTING && !v.undoing
       case Survey(_, _) =>
         v.phase == STARTING && !v.undoing && v.marked && !v.pausedLocalization && !v.pausedNavigation
       case Query(m, _) => v.phase != STARTING && v.asked.Some? && v.asked.value.0 == m
       case Call(m, c, _) => MayCall(v, m, c)
       case Activate => v.phase == SAVING
       case Unmark => v.phase == STARTING || OwesNothing(v)
       case Unlock =>
         && !v.marked
         && (if v.phase == STARTING then v.undoing && !v.pausedLocalization && !v.pausedNavigation
             else OwesNothing(v))
       case Enter(p) => MayEnter(v, p)
  }

  function ViewAfter(log: seq<Action>): View {
    if log == [] then FRESH else Next(ViewAfter(log[..|log| - 1]), log[|log| - 1])
  }

  predicate LegalAt(log: seq<Action>, k: nat)
    requires k < |log|
  {
    Legal(ViewAfter(log[..k]), log[k])
  }

  predicate LegalLog(log: seq<Action>) {
    forall k: nat :: k < |log| ==> LegalAt(log, k)
  }

  lemma Extend(log: seq<Action>, a: Action)
    requires LegalLog(log) && Legal(ViewAfter(log), a)
    ensures LegalLog(log + [a]) && ViewAfter(log + [a]) == Next(ViewAfter(log), a)
  {
    var longer := log + [a];
    assert longer[..|log|] == log;
    forall k: nat | k < |longer|
      ensures LegalAt(longer, k)
    {
      if k < |log| {
        assert longer[..k] == log[..k] && LegalAt(log, k);
      }
    }
  }

  lemma StepView(log: seq<Action>, k: nat)
    requires k < |log|
    ensures ViewAfter(log[..k + 1]) == Next(ViewAfter(log[..k]), log[k])
  {
    assert log[..k + 1][..k] == log[..k];
  }

  // ---------- histories given by their views ----------

  ghost predicate StepOk(views: seq<View>, log: seq<Action>, k: nat)
    requires |views| == |log| + 1 && k < |log|
  {
    Legal(views[k], log[k]) && views[k + 1] == Next(views[k], log[k])
  }

  ghost predicate TraceOf(views: seq<View>, log: seq<Action>, v: View) {
    && |views| == |log| + 1
    && views[0] == FRESH
    && views[|log|] == v
    && forall k: nat :: k < |log| ==> StepOk(views, log, k)
  }

  /** The history is legal and leaves v. */
  ghost predicate Traced(log: seq<Action>, v: View) {
    exists views :: TraceOf(views, log, v)
  }

  lemma TraceStarts()
    ensures Traced([], FRESH)
  {
    assert TraceOf([FRESH], [], FRESH);
  }

  lemma TraceExtends(log: seq<Action>, v: View, a: Action)
    requires Traced(log, v) && Legal(v, a)
    ensures Traced(log + [a], Next(v, a))
  {
    var views :| TraceOf(views, log, v);
    var longer := views + [Next(v, a)];
    forall k: nat | k < |log + [a]|
      ensures StepOk(longer, log + [a], k)
    {
      if k < |log| {
        assert StepOk(views, log, k);
      }
    }
    assert TraceOf(longer, log + [a], Next(v, a));
  }

  /** A history that can be traced is legal, and the trace ends in its view. */
  lemma TracedIsLegal(log: seq<Action>, v: View)
    requires Traced(log, v)
    ensures LegalLog(log) && ViewAfter(log) == v
  {
    var views :| TraceOf(views, log, v);
    forall k: nat | k <= |log|
      ensures ViewAfter(log[..k]) == views[k]
    {
      PrefixView(views, log, v, k);
    }
    forall k: nat | k < |log|
      ensures LegalAt(log, k)
    {
      assert StepOk(views, log, k);
    }
    assert log[..|log|] == log;
  }

  lemma {:induction false} PrefixView(views: seq<View>, log: seq<Action>, v: View, k: nat)
    requires TraceOf(views, log, v) && k <= |log|
    ensures ViewAfter(log[..k]) == views[k]
  {
    if k > 0 {
      PrefixView(views, log, v, k - 1);
      StepView(log, k - 1);
      assert StepOk(views, log, k - 1);
    }
  }

  // ---------- conservation ----------

  /** Action k of the history proves command c of manager m done. */
  predicate Confirmed(log: seq<Action>, k: nat, m: Manager, c: Command)
    requires k < |log|
  {
    || log[k] == Call(m, c, true)
    || (k > 0 && log[k - 1] == Call(m, c, false) && log[k] == Query(m, Some(LeavesActive(c))))
  }

  /** Action k proves that the manager was brought back. */
  predicate Returned(log: seq<Action>, k: nat, m: Manager)
    requires k < |log|
  {
    Confirmed(log, k, m, Resume) || Confirmed(log, k, m, Startup)
  }

  /** How often actions lo..hi bring the manager back. */
  function Returns(log: seq<Action>, lo: nat, hi: nat, m: Manager): nat
    requires lo <= hi <= |log|
    decreases hi - lo
  {
    if lo == hi then 0 else Returns(log, lo, hi - 1, m) + Bit(Returned(log, hi - 1, m))
  }

  function Bit(b: bool): nat {
    if b then 1 else 0
  }

  /** The question left open is the failed call just before. */
  lemma AskedIs(log: seq<Action>, k: nat)
    requires k <= |log|
    ensures ViewAfter(log[..k]).asked == if k == 0 then None else Asked(log[k - 1])
  {
    if k > 0 {
      StepView(log, k - 1);
    }
  }

  lemma ConfirmsIs(log: seq<Action>, k: nat, m: Manager, c: Command)
    requires k < |log|
    ensures Confirms(ViewAfter(log[..k]).asked, log[k]) == Some((m, c)) <==> Confirmed(log, k, m, c)
  {
    AskedIs(log, k);
  }

  /** No session ends, restarts or is handed over strictly between two points of the history. */
  predicate SameSession(log: seq<Action>, i: nat, n: nat)
    requires i < n <= |log|
  {
    forall k :: i < k < n ==> !log[k].Survey? && !log[k].Unlock? && !log[k].Activate?
  }

  function Owed(v: View, m: Manager): bool {
    if m == Localization then v.owesLocalization else v.owesNavigation
  }

  lemma CallIsOwed(v: View, a: Action)
    requires Legal(v, a) && a.Call?
    ensures Owed(v, a.manager)
    ensures a.manager == Navigation && (a.command == Reset || a.command == Startup) ==> !v.owesLocalization
    ensures a.manager == Navigation && a.command == Startup ==> v.clean
  {}

  lemma LostAnswerKeepsDebt(v: View, a: Action, m: Manager)
    requires a.Call? && !a.ok
    ensures Owed(Next(v, a), m) == Owed(v, m)
  {}

  /** Only an owed manager is ever brought back. */
  lemma OwedWhenReturned(log: seq<Action>, k: nat, m: Manager)
    requires LegalLog(log) && k < |log| && Returned(log, k, m)
    ensures Owed(ViewAfter(log[..k]), m)
  {
    if log[k].Call? {
      assert LegalAt(log, k);
      CallIsOwed(ViewAfter(log[..k]), log[k]);
    } else {
      assert LegalAt(log, k - 1);
      var before := ViewAfter(log[..k - 1]);
      CallIsOwed(before, log[k - 1]);
      LostAnswerKeepsDebt(before, log[k - 1], m);
      StepView(log, k - 1);
    }
  }

  function Owing(log: seq<Action>, m: Manager): nat -> nat {
    (k: nat) => if k > |log| then 0 else Bit(Owed(ViewAfter(log[..k]), m))
  }

  /** Within a session a debt ends exactly when its manager is brought back. */
  lemma OwedNext(v: View, a: Action, m: Manager)
    requires !a.Survey? && !a.Unlock? && !a.Activate?
    ensures Owed(Next(v, a), m) == (Owed(v, m) && !Returning(Confirms(v.asked, a), m))
  {}

  lemma ReturnedIs(log: seq<Action>, k: nat, m: Manager)
    requires k < |log|
    ensures Returning(Confirms(ViewAfter(log[..k]).asked, log[k]), m) == Returned(log, k, m)
  {
    ConfirmsIs(log, k, m, Resume);
    ConfirmsIs(log, k, m, Startup);
  }

  /** One action repays exactly what it brings back. */
  lemma Repays(log: seq<Action>, k: nat, m: Manager)
    requires LegalLog(log) && k < |log| && !log[k].Survey? && !log[k].Unlock? && !log[k].Activate?
    ensures Owing(log, m)(k) == Owing(log, m)(k + 1) + Bit(Returned(log, k, m))
  {
    StepView(log, k);
    ReturnedIs(log, k, m);
    OwedNext(ViewAfter(log[..k]), log[k], m);
    if Returned(log, k, m) {
      OwedWhenReturned(log, k, m);
    }
  }

  lemma {:induction false} Sum(log: seq<Action>, lo: nat, n: nat, m: Manager, owing: nat -> nat)
    requires lo <= n <= |log|
    requires forall k: nat :: lo <= k < n ==> owing(k) == owing(k + 1) + Bit(Returned(log, k, m))
    ensures owing(lo) == owing(n) + Returns(log, lo, n, m)
    decreases n
  {
    if n > lo {
      Sum(log, lo, n - 1, m, owing);
      assert owing(n - 1) == owing(n) + Bit(Returned(log, n - 1, m));
    }
  }

  /** Within a session, what is still owed plus what has been brought back is what was active when
      the session surveyed the managers. */
  lemma DebtBalance(log: seq<Action>, i: nat, n: nat, m: Manager)
    requires LegalLog(log) && i < n <= |log| && log[i].Survey? && SameSession(log, i, n)
    ensures Bit(Owed(ViewAfter(log[..n]), m)) + Returns(log, i + 1, n, m) == Bit(WasActive(log, i, m))
  {
    StepView(log, i);
    var owing := Owing(log, m);
    forall k: nat | i + 1 <= k < n
      ensures owing(k) == owing(k + 1) + Bit(Returned(log, k, m))
    {
      Repays(log, k, m);
    }
    Sum(log, i + 1, n, m, owing);
  }

  predicate WasActive(log: seq<Action>, i: nat, m: Manager)
    requires i < |log| && log[i].Survey?
  {
    if m == Localization then log[i].localization else log[i].navigation
  }

  predicate Restored(log: seq<Action>, i: nat, n: nat, m: Manager)
    requires i < n <= |log| && log[i].Survey?
  {
    Returns(log, i + 1, n, m) == Bit(WasActive(log, i, m))
  }

  /** A session that got past its start gives up the marker, and then the lock, only when exactly
      the managers that its survey found active have been restored, each of them once. */
  lemma SessionConservation(log: seq<Action>, i: nat, u: nat)
    requires LegalLog(log) && i < u < |log| && log[i].Survey? && SameSession(log, i, u)
    requires (log[u] == Unlock || log[u] == Unmark) && ViewAfter(log[..u]).phase != STARTING
    ensures Restored(log, i, u, Localization) && Restored(log, i, u, Navigation)
    ensures log[u] == Unlock ==> !ViewAfter(log[..u]).marked
  {
    assert LegalAt(log, u);
    DebtBalance(log, i, u, Localization);
    DebtBalance(log, i, u, Navigation);
  }

  /** From index i on, the history neither restarts nor hands the session over. */
  predicate NoRestart(log: seq<Action>, i: nat) {
    forall k :: i < k < |log| ==> !log[k].Survey? && !log[k].Activate? && log[k] != Enter(STARTING)
  }

  /** The first release behind index i, or the end of the history. */
  function FirstUnlock(log: seq<Action>, i: nat): (u: nat)
    requires i < |log|
    ensures i < u <= |log| && (u < |log| ==> log[u] == Unlock)
    ensures forall k :: i < k < u ==> log[k] != Unlock
    decreases |log| - i
  {
    if i + 1 == |log| || log[i + 1] == Unlock then i + 1 else FirstUnlock(log, i + 1)
  }

  lemma HoldsOn(v: View, a: Action)
    requires v.holds && a != Unlock
    ensures Next(v, a).holds
  {}

  /** The lock is held until it is released. */
  lemma {:induction false} HeldUntil(log: seq<Action>, i: nat, n: nat)
    requires i <= n <= |log| && ViewAfter(log[..i]).holds && forall k :: i <= k < n ==> log[k] != Unlock
    ensures ViewAfter(log[..n]).holds
    decreases n
  {
    if n > i {
      HeldUntil(log, i, n - 1);
      StepView(log, n - 1);
      HoldsOn(ViewAfter(log[..n - 1]), log[n - 1]);
    }
  }

  lemma {:induction false} NeverStartingAgain(log: seq<Action>, i: nat, m: nat, n: nat)
    requires i < m < n <= |log| && NoRestart(log, i) && log[m] == Enter(MAPPING)
    ensures ViewAfter(log[..n]).phase != STARTING
    decreases n
  {
    StepView(log, n - 1);
    if n > m + 1 {
      NeverStartingAgain(log, i, m, n - 1);
    }
  }

  lemma SurveyHolds(log: seq<Action>, i: nat)
    requires LegalLog(log) && i < |log| && log[i].Survey?
    ensures ViewAfter(log[..i]).holds
  {
    assert LegalAt(log, i);
  }

  lemma UnlockAfterMapping(log: seq<Action>, i: nat, m: nat) returns (u: nat)
    requires i < m < |log| && log[i].Survey? && log[m] == Enter(MAPPING)
    requires SameSession(log, i, m) && NoRestart(log, i)
    requires ViewAfter(log[..i]).holds && !ViewAfter(log[..|log|]).holds
    ensures m < u < |log| && log[u] == Unlock && SameSession(log, i, u) && ViewAfter(log[..u]).phase != STARTING
  {
    u := FirstUnlock(log, i);
    if u == |log| {
      HeldUntil(log, i, u);
    }
    NeverStartingAgain(log, i, m, u);
  }

  /** A session that reached mapping and is idle in the end, however many saves or discards failed
      in between, has released the lock with exactly the managers restored that it had found
      active. */
  lemma CompletedSession(log: seq<Action>, i: nat, m: nat) returns (u: nat)
    requires LegalLog(log) && i < m < |log| && log[i].Survey? && log[m] == Enter(MAPPING)
    requires SameSession(log, i, m) && NoRestart(log, i) && ViewAfter(log).phase == IDLE
    ensures m < u < |log| && log[u] == Unlock && SameSession(log, i, u)
    ensures Restored(log, i, u, Localization) && Restored(log, i, u, Navigation)
    ensures !ViewAfter(log[..u]).marked
  {
    SurveyHolds(log, i);
    IdleLeavesNothing(log);
    assert log[..|log|] == log;
    u := UnlockAfterMapping(log, i, m);
    SessionConservation(log, i, u);
  }

  /** A manager is commanded only if the survey found it active and it is not back already; navigation
      is reset or started only after localization is back, and started only after a confirmed RESET. */
  lemma RestorationOrder(log: seq<Action>, i: nat, k: nat)
    requires LegalLog(log) && i < k < |log| && log[i].Survey? && SameSession(log, i, k) && log[k].Call?
    ensures var m, c := log[k].manager, log[k].command;
      && WasActive(log, i, m) && Returns(log, i + 1, k, m) == 0
      && (m == Navigation && (c == Reset || c == Startup) ==> Restored(log, i, k, Localization))
      && (m == Navigation && c == Startup ==> exists r :: i < r < k && Confirmed(log, r, Navigation, Reset))
  {
    DebtBalance(log, i, k, Localization);
    DebtBalance(log, i, k, Navigation);
    assert LegalAt(log, k);
    CallIsOwed(ViewAfter(log[..k]), log[k]);
    if log[k].manager == Navigation && log[k].command == Startup {
      var r := LastReset(log, i, k);
    }
  }

  lemma CleanSince(v: View, a: Action)
    requires Next(v, a).clean
    ensures !a.Survey? && (v.clean || Confirms(v.asked, a) == Some((Navigation, Reset)))
  {}

  lemma {:induction false} LastReset(log: seq<Action>, i: nat, n: nat) returns (r: nat)
    requires i < n <= |log| && log[i].Survey? && SameSession(log, i, n) && ViewAfter(log[..n]).clean
    ensures i < r < n && Confirmed(log, r, Navigation, Reset)
    decreases n
  {
    StepView(log, n - 1);
    CleanSince(ViewAfter(log[..n - 1]), log[n - 1]);
    ConfirmsIs(log, n - 1, Navigation, Reset);
    if Confirmed(log, n - 1, Navigation, Reset) {
      r := n - 1;
    } else {
      r := LastReset(log, i, n - 1);
    }
  }

  /** What an idle session leaves behind: nothing. */
  predicate Released(v: View) {
    !v.holds && !v.marked && OwesNothing(v)
  }

  /** An idle session holds no lock, sets no marker and owes nothing. */
  lemma {:induction false} IdleLeavesNothing(log: seq<Action>)
    requires LegalLog(log)
    ensures ViewAfter(log).phase == IDLE ==> Released(ViewAfter(log))
  {
    if log != [] {
      var n := |log| - 1;
      assert log[..n + 1] == log;
      forall k: nat | k < n
        ensures LegalAt(log[..n], k)
      {
        assert log[..n][..k] == log[..k] && LegalAt(log, k);
      }
      IdleLeavesNothing(log[..n]);
      StepView(log, n);
      assert LegalAt(log, n);
    }
  }

  // ---------- what becomes of each manager ----------

  /** The history shows the manager running: a survey found it active or it was brought back, and it
      has been sent no command since. */
  predicate Running(log: seq<Action>, m: Manager) {
    log != [] &&
    var k := |log| - 1;
    match log[k]
    case Survey(navigation, localization) => if m == Localization then localization else navigation
    case Call(n, _, _) => if n == m then Returned(log, k, m) else Running(log[..k], m)
    case Query(n, _) => Returned(log, k, m) || Running(log[..k], m)
    case _ => Running(log[..k], m)
  }

  /** Between i and n the manager was sent a command. */
  predicate Commanded(log: seq<Action>, i: nat, n: nat, m: Manager)
    requires n <= |log|
  {
    exists k :: i < k < n && log[k].Call? && log[k].manager == m
  }

  lemma ReturnedPrefix(log: seq<Action>, n: nat, k: nat, m: Manager)
    requires k < n <= |log|
    ensures Returned(log[..n], k, m) == Returned(log, k, m)
  {}

  /** What one more action shows about a manager. */
  lemma RunningStep(log: seq<Action>, n: nat, m: Manager)
    requires 0 < n <= |log|
    ensures var a := log[n - 1];
      Running(log[..n], m) ==
      if a.Survey? then WasActive(log, n - 1, m)
      else Returned(log, n - 1, m) || (Running(log[..n - 1], m) && !(a.Call? && a.manager == m))
  {
    assert log[..n][..n - 1] == log[..n - 1];
    ReturnedPrefix(log, n, n - 1, m);
  }

  lemma CommandedStep(log: seq<Action>, i: nat, n: nat, m: Manager)
    requires i + 1 < n <= |log|
    ensures Commanded(log, i, n, m) <==> Commanded(log, i, n - 1, m) || (log[n - 1].Call? && log[n - 1].manager == m)
  {}

  /** Throughout a session a manager is running exactly when the survey found it active and it was
      either left alone or brought back. */
  lemma {:induction false} RunningInSession(log: seq<Action>, i: nat, n: nat, m: Manager)
    requires LegalLog(log) && i < n <= |log| && log[i].Survey? && SameSession(log, i, n)
    ensures Running(log[..n], m) <==>
            WasActive(log, i, m) && (!Commanded(log, i, n, m) || !Owed(ViewAfter(log[..n]), m))
    decreases n
  {
    RunningStep(log, n, m);
    DebtBalance(log, i, n, m);
    if n > i + 1 {
      RunningInSession(log, i, n - 1, m);
      DebtBalance(log, i, n - 1, m);
      CommandedStep(log, i, n, m);
      if log[n - 1].Call? && log[n - 1].manager == m {
        RestorationOrder(log, i, n - 1);
      }
    }
  }

  /** What one session does to a manager by the time it releases the lock. A session that got past its
      start leaves running exactly what it found active; one that gives up in its start leaves a
      manager running exactly when it never commanded it or brought it back. */
  lemma SessionOutcome(log: seq<Action>, i: nat, u: nat, m: Manager)
    requires LegalLog(log) && i < u < |log| && log[i].Survey? && log[u] == Unlock && SameSession(log, i, u)
    ensures Running(log[..u], m) <==>
            WasActive(log, i, m) && (!Commanded(log, i, u, m) || Returns(log, i + 1, u, m) == 1)
    ensures ViewAfter(log[..u]).phase != STARTING ==> (Running(log[..u], m) <==> WasActive(log, i, m))
  {
    RunningInSession(log, i, u, m);
    DebtBalance(log, i, u, m);
    assert LegalAt(log, u);
  }

  lemma OwesNothingOn(log: seq<Action>, k: nat)
    requires k < |log| && !log[k].Survey? && (log[k] == Unlock || OwesNothing(ViewAfter(log[..k])))
    ensures OwesNothing(ViewAfter(log[..k + 1]))
  {
    StepView(log, k);
  }

  lemma {:induction false} DebtFree(log: seq<Action>, u: nat, n: nat)
    requires u < n <= |log| && log[u] == Unlock && forall k :: u < k < n ==> !log[k].Survey?
    ensures OwesNothing(ViewAfter(log[..n]))
    decreases n
  {
    if n > u + 1 {
      DebtFree(log, u, n - 1);
    }
    OwesNothingOn(log, n - 1);
  }

  lemma NoDebtNoCommand(log: seq<Action>, k: nat, m: Manager)
    requires LegalLog(log) && k < |log| && OwesNothing(ViewAfter(log[..k]))
    ensures !log[k].Call? && !Returned(log, k, m)
  {
    if log[k].Call? {
      assert LegalAt(log, k);
      CallIsOwed(ViewAfter(log[..k]), log[k]);
    } else if Returned(log, k, m) {
      OwedWhenReturned(log, k, m);
    }
  }

  lemma {:induction false} LeftAlone(log: seq<Action>, u: nat, n: nat, m: Manager)
    requires u <= n <= |log|
    requires forall k: nat :: u <= k < n ==> !log[k].Survey? && !log[k].Call? && !Returned(log, k, m)
    ensures Running(log[..n], m) == Running(log[..u], m)
    decreases n
  {
    if n > u {
      LeftAlone(log, u, n - 1, m);
      RunningStep(log, n, m);
    }
  }

  /** Nothing changes for a manager once the lock is released, until the next survey: whatever was
      not brought back by then stays so, and nobody remembers owing it. */
  lemma NothingAfterUnlock(log: seq<Action>, u: nat, n: nat, m: Manager)
    requires LegalLog(log) && u < n <= |log| && log[u] == Unlock && forall k :: u < k < n ==> !log[k].Survey?
    ensures OwesNothing(ViewAfter(log[..n])) && Running(log[..n], m) == Running(log[..u], m)
  {
    DebtFree(log, u, n);
    forall k: nat | u <= k < n
      ensures !log[k].Survey? && !log[k].Call? && !Returned(log, k, m)
    {
      if k > u {
        DebtFree(log, u, k);
        NoDebtNoCommand(log, k, m);
      }
    }
    LeftAlone(log, u, n, m);
  }

  // ---------- a start that gives up ----------

  /** How many of the actions lo..hi are this one. */
  function Tally(log: seq<Action>, lo: nat, hi: nat, a: Action): nat
    requires lo <= hi <= |log|
    decreases hi - lo
  {
    if lo == hi then 0 else Tally(log, lo, hi - 1, a) + Bit(log[hi - 1] == a)
  }

  function Resumes(log: seq<Action>, lo: nat, hi: nat, m: Manager): nat
    requires lo <= hi <= |log|
  {
    Tally(log, lo, hi, Call(m, Resume, true)) + Tally(log, lo, hi, Call(m, Resume, false))
  }

  function Paused(v: View, m: Manager): bool {
    if m == Localization then v.pausedLocalization else v.pausedNavigation
  }

  /** Between i and n nothing but the start's own steps: no phase was entered. */
  predicate StillStarting(log: seq<Action>, i: nat, n: nat)
    requires i < n <= |log|
  {
    SameSession(log, i, n) && forall k :: i < k < n ==> !log[k].Enter?
  }

  /** What a start under way knows about a manager. */
  datatype Stage = Stage(starting: bool, paused: bool, undoing: bool)

  function StageOf(v: View, m: Manager): Stage {
    Stage(v.phase == STARTING, Paused(v, m), v.undoing)
  }

  function Stages(log: seq<Action>, m: Manager): nat -> Stage {
    (k: nat) => if k > |log| then Stage(false, false, false) else StageOf(ViewAfter(log[..k]), m)
  }

  /** How one of the start's own steps moves it on. */
  predicate StageMoves(s: Stage, a: Action, t: Stage, m: Manager) {
    && s.starting && t.starting && (s.undoing ==> t.undoing)
    && match a
       case Call(n, Pause, true) =>
         if n == m then !s.undoing && !s.paused && t.paused else t.paused == s.paused
       case Call(n, Resume, _) =>
         s.undoing && (if n == m then s.paused && !t.paused else t.paused == s.paused)
       case _ => t.paused == s.paused
  }

  lemma StepMoves(log: seq<Action>, k: nat, m: Manager)
    requires LegalLog(log) && k < |log| && ViewAfter(log[..k]).phase == STARTING
    requires !log[k].Survey? && !log[k].Unlock? && !log[k].Enter? && !log[k].Activate?
    ensures StageMoves(Stages(log, m)(k), log[k], Stages(log, m)(k + 1), m)
  {
    StepView(log, k);
    assert LegalAt(log, k);
  }

  lemma SurveyStage(log: seq<Action>, i: nat, m: Manager)
    requires LegalLog(log) && i < |log| && log[i].Survey?
    ensures Stages(log, m)(i + 1) == Stage(true, false, false)
  {
    StepView(log, i);
    assert LegalAt(log, i);
  }

  /** The ledger of a start under way: how often a manager was paused and asked back. */
  predicate Ledger(s: Stage, pauses: nat, resumes: nat) {
    s.starting && pauses == resumes + Bit(s.paused) && pauses <= 1 && (!s.undoing ==> resumes == 0)
  }

  lemma {:induction false} LedgerSum(log: seq<Action>, lo: nat, n: nat, m: Manager, stage: nat -> Stage)
    requires lo <= n <= |log| && stage(lo) == Stage(true, false, false)
    requires forall k: nat :: lo <= k < n ==> StageMoves(stage(k), log[k], stage(k + 1), m)
    ensures Ledger(stage(n), Tally(log, lo, n, Call(m, Pause, true)), Resumes(log, lo, n, m))
    decreases n
  {
    if n > lo {
      LedgerSum(log, lo, n - 1, m, stage);
      assert StageMoves(stage(n - 1), log[n - 1], stage(n), m);
    }
  }

  lemma {:induction false} StaysStarting(log: seq<Action>, i: nat, n: nat)
    requires LegalLog(log) && i < n <= |log| && log[i].Survey? && StillStarting(log, i, n)
    ensures ViewAfter(log[..n]).phase == STARTING
    decreases n
  {
    if n == i + 1 {
      SurveyStage(log, i, Localization);
    } else {
      StaysStarting(log, i, n - 1);
      StepMoves(log, n - 1, Localization);
    }
  }

  lemma StartLedger(log: seq<Action>, i: nat, n: nat, m: Manager)
    requires LegalLog(log) && i < n <= |log| && log[i].Survey? && StillStarting(log, i, n)
    ensures Ledger(StageOf(ViewAfter(log[..n]), m),
                   Tally(log, i + 1, n, Call(m, Pause, true)), Resumes(log, i + 1, n, m))
  {
    SurveyStage(log, i, m);
    forall k: nat | i + 1 <= k < n
      ensures StageMoves(Stages(log, m)(k), log[k], Stages(log, m)(k + 1), m)
    {
      StaysStarting(log, i, k);
      StepMoves(log, k, m);
    }
    LedgerSum(log, i + 1, n, m, Stages(log, m));
  }

  lemma OnlyResumeReturns(log: seq<Action>, i: nat, k: nat, m: Manager)
    requires LegalLog(log) && i < k < |log| && log[i].Survey? && StillStarting(log, i, k + 1)
    ensures Returned(log, k, m) == (log[k] == Call(m, Resume, true))
  {
    StaysStarting(log, i, k);
    assert LegalAt(log, k);
  }

  lemma {:induction false} ReturnsAreResumes(log: seq<Action>, i: nat, n: nat, m: Manager)
    requires LegalLog(log) && i < n <= |log| && log[i].Survey? && StillStarting(log, i, n)
    ensures Returns(log, i + 1, n, m) == Tally(log, i + 1, n, Call(m, Resume, true))
    decreases n
  {
    if n > i + 1 {
      ReturnsAreResumes(log, i, n - 1, m);
      OnlyResumeReturns(log, i, n - 1, m);
    }
  }

  lemma UnlockPaysAll(v: View, m: Manager)
    requires Legal(v, Unlock) && v.phase == STARTING
    ensures !Paused(v, m)
  {}

  /** A start that gives up after its survey has asked every manager it paused back exactly once; a
      manager is left running exactly when the survey found it active and either no command reached
      it or that one RESUME was confirmed. */
  lemma GivenUpStart(log: seq<Action>, i: nat, u: nat, m: Manager)
    requires LegalLog(log) && i < u < |log| && log[i].Survey? && log[u] == Unlock && StillStarting(log, i, u)
    ensures Resumes(log, i + 1, u, m) == Tally(log, i + 1, u, Call(m, Pause, true)) <= 1
    ensures Running(log[..u], m) <==>
            WasActive(log, i, m) && (!Commanded(log, i, u, m) || Tally(log, i + 1, u, Call(m, Resume, true)) == 1)
  {
    assert LegalAt(log, u);
    StartLedger(log, i, u, m);
    UnlockPaysAll(ViewAfter(log[..u]), m);
    ReturnsAreResumes(log, i, u, m);
    SessionOutcome(log, i, u, m);
  }

  // ---------- a session started again ----------

  /** The last survey in front of index n. */
  function LastSurvey(log: seq<Action>, i: nat, n: nat): (j: nat)
    requires i < n <= |log| && log[i].Survey?
    ensures i <= j < n && log[j].Survey? && forall k :: j < k < n ==> !log[k].Survey?
    decreases n
  {
    if log[n - 1].Survey? then n - 1 else LastSurvey(log, i, n - 1)
  }

  /** Whatever a history does between a survey and the next release of the lock, restarts over failed
      restorations included: a manager that the first survey found active is running at the release
      if and only if the last survey found it active too and the session was then past its start, or
      left it alone, or brought it back. */
  lemma RestartRestores(log: seq<Action>, i: nat, u: nat, m: Manager)
    requires LegalLog(log) && i < u < |log| && log[i].Survey? && WasActive(log, i, m) && log[u] == Unlock
    requires forall k :: i < k < u ==> !log[k].Unlock? && !log[k].Activate?
    ensures var j := LastSurvey(log, i, u);
      Running(log[..u], m) <==>
      && WasActive(log, j, m)
      && (ViewAfter(log[..u]).phase != STARTING || !Commanded(log, j, u, m) || Returns(log, j + 1, u, m) == 1)
  {
    SessionOutcome(log, LastSurvey(log, i, u), u, m);
  }

  /** The state behind a released lock until the next survey: the lock can be taken again, but not
      past the start. */
  predicate Unsurveyed(v: View) {
    OwesNothing(v) && !v.quiet && (v.holds ==> v.phase == STARTING)
  }

  lemma UnsurveyedStep(v: View, a: Action)
    requires Legal(v, a) && !a.Survey? && (a == Unlock || Unsurveyed(v))
    ensures Unsurveyed(Next(v, a))
  {
    if a.Call? {
      CallIsOwed(v, a);
    }
  }

  lemma UnsurveyedOn(log: seq<Action>, k: nat)
    requires LegalLog(log) && k < |log| && !log[k].Survey?
    requires log[k] == Unlock || Unsurveyed(ViewAfter(log[..k]))
    ensures Unsurveyed(ViewAfter(log[..k + 1]))
  {
    StepView(log, k);
    assert LegalAt(log, k);
    UnsurveyedStep(ViewAfter(log[..k]), log[k]);
  }

  lemma {:induction false} StaysUnsurveyed(log: seq<Action>, u: nat, n: nat)
    requires LegalLog(log) && u < n <= |log| && log[u] == Unlock && forall k :: u < k < n ==> !log[k].Survey?
    ensures Unsurveyed(ViewAfter(log[..n]))
    decreases n
  {
    if n > u + 1 {
      StaysUnsurveyed(log, u, n - 1);
    }
    UnsurveyedOn(log, n - 1);
  }

  /** A session that holds the lock past its start, was not handed over, and remembers owing a manager
      nothing, has lost nothing: the manager is running if the last survey found it active. */
  lemma NothingOwedNothingLost(log: seq<Action>, i: nat, n: nat, m: Manager)
    requires LegalLog(log) && i < n <= |log| && log[i].Survey? && WasActive(log, i, m)
    requires forall k :: i < k < n ==> !log[k].Survey? && !log[k].Activate?
    requires var v := ViewAfter(log[..n]); v.holds && v.phase != STARTING && !Owed(v, m)
    ensures Running(log[..n], m)
  {
    forall u | i < u < n
      ensures log[u] != Unlock
    {
      if log[u] == Unlock {
        StaysUnsurveyed(log, u, n);
      }
    }
    RunningInSession(log, i, n, m);
  }
}
