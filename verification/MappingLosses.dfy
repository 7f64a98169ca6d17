/** Four histories of a mapping session in which a manager that was active is left paused for good:
    the inputs that show which stronger promises about restoration fail
    (robot_agent/amr_web_bridge/amr_web_bridge/mapping_runtime.py, lines 226-315). */
module MappingLosses {
  import opened Common
  import opened MappingSession

  /** Views that follow the actions one by one prove a history legal. */
  lemma {:induction false} LegalTrace(log: seq<Action>, view: nat -> View)
    requires view(0) == FRESH
    requires forall k: nat :: k < |log| ==> Legal(view(k), log[k]) && view(k + 1) == Next(view(k), log[k])
    ensures LegalLog(log) && ViewAfter(log) == view(|log|)
  {
    if log == [] {
      assert ViewAfter(log) == FRESH;
    } else {
      var n := |log| - 1;
      LegalTrace(log[..n], view);
      assert view(n + 1) == Next(view(n), log[n]);
      Extend(log[..n], log[n]);
      assert log[..n] + [log[n]] == log;
    }
  }

  lemma {:induction false} Falls(up: nat -> bool, p: nat, n: nat)
    requires p <= n && !up(p) && forall k: nat :: p <= k < n && !up(k) ==> !up(k + 1)
    ensures !up(n)
    decreases n
  {
    if n > p {
      Falls(up, p, n - 1);
    }
  }

  lemma StaysDown(log: seq<Action>, p: nat, m: Manager)
    requires p <= |log| && !Running(log[..p], m)
    requires forall k: nat :: p <= k < |log| ==> !log[k].Survey? && !Returned(log, k, m)
    ensures !Running(log, m)
  {
    var up := (k: nat) => k <= |log| && Running(log[..k], m);
    forall k: nat | p <= k < |log| && !up(k)
      ensures !up(k + 1)
    {
      StaysDownOnce(log, k, m);
    }
    Falls(up, p, |log|);
    assert log[..|log|] == log;
  }

  lemma StaysDownOnce(log: seq<Action>, k: nat, m: Manager)
    requires k < |log| && !Running(log[..k], m) && !log[k].Survey? && !Returned(log, k, m)
    ensures !Running(log[..k + 1], m)
  {
    RunningStep(log, k + 1, m);
  }

  /** Localization alone is active: a view of such a session. */
  function Alone(phase: Phase, holds: bool, marked: bool, owes: bool, lost: bool, paused: bool, undoing: bool): View {
    View(phase, holds, marked, holds && phase != IDLE, owes, false, false,
         if lost then Some((Localization, Resume)) else None, paused, false, undoing)
  }

  /** A history of actions with the views between them. */
  datatype Story = Story(action: nat -> Action, view: nat -> View, length: nat)

  function Told(s: Story): (log: seq<Action>)
    ensures |log| == s.length && forall k :: 0 <= k < s.length ==> log[k] == s.action(k)
  {
    seq(s.length, (k: nat) => s.action(k))
  }

  /** A session maps, and its restoration fails in all of its three attempts. */
  function FailedRestoration(k: nat): Action {
    match k
    case 0 => Enter(STARTING) case 1 => Mark(true) case 2 => Lock(true) case 3 => Survey(false, true)
    case 4 => Call(Localization, Pause, true) case 5 => Enter(MAPPING) case 6 => Enter(RESTORING)
    case 7 => Call(Localization, Resume, false) case 8 => Query(Localization, None)
    case 9 => Call(Localization, Resume, false) case 10 => Query(Localization, None)
    case 11 => Call(Localization, Resume, false) case 12 => Query(Localization, None)
    case _ => Enter(FAILED)
  }

  function FailedRestorationView(k: nat): View {
    if k == 0 then FRESH
    else if k <= 3 then Alone(STARTING, k == 3, k >= 2, false, false, false, false).(quiet := false)
    else if k <= 7 then
      Alone(if k <= 5 then STARTING else if k == 6 then MAPPING else RESTORING, true, true, true, false, k >= 5, false)
    else Alone(if k <= 13 then RESTORING else FAILED, true, true, true, k % 2 == 0 && k <= 12, false, false)
  }

  lemma FailedRestorationStep(k: nat)
    requires k < 14
    ensures Legal(FailedRestorationView(k), FailedRestoration(k))
    ensures FailedRestorationView(k + 1) == Next(FailedRestorationView(k), FailedRestoration(k))
  {
    if k < 7 {
      EarlyStep(k);
    } else {
      LateStep(k);
    }
  }

  lemma EarlyStep(k: nat)
    requires k < 7
    ensures Legal(FailedRestorationView(k), FailedRestoration(k))
    ensures FailedRestorationView(k + 1) == Next(FailedRestorationView(k), FailedRestoration(k))
  {}

  lemma LateStep(k: nat)
    requires 7 <= k < 14
    ensures Legal(FailedRestorationView(k), FailedRestoration(k))
    ensures FailedRestorationView(k + 1) == Next(FailedRestorationView(k), FailedRestoration(k))
  {}

  /** Localization has been surveyed active; the start pauses it, gives up, and its RESUME is lost.
      The failed session is then discarded. */
  function GivenUp(k: nat): Action {
    match k
    case 0 => Call(Localization, Pause, true) case 1 => Unmark case 2 => Call(Localization, Resume, false)
    case 3 => Unlock case 4 => Enter(FAILED) case 5 => Enter(RESTORING) case 6 => Unmark case 7 => Unlock
    case _ => Enter(IDLE)
  }

  function GivenUpView(k: nat): View {
    if k <= 1 then Alone(STARTING, true, true, true, false, k == 1, false)
    else if k <= 3 then Alone(STARTING, true, false, true, k == 3, k == 2, true)
    else Alone(if k == 4 then STARTING else if k == 5 then FAILED else if k <= 8 then RESTORING else IDLE,
               false, false, false, false, false, k == 7)
  }

  lemma GivenUpStep(k: nat)
    requires k < 9
    ensures Legal(GivenUpView(k), GivenUp(k)) && GivenUpView(k + 1) == Next(GivenUpView(k), GivenUp(k))
  {}

  /** Localization has been surveyed active; the answer to its PAUSE is lost, the start gives up without
      asking it back, and the failed session is discarded. */
  function Unanswered(k: nat): Action {
    match k
    case 0 => Call(Localization, Pause, false) case 1 => Unmark case 2 => Unlock
    case 3 => Enter(FAILED) case 4 => Enter(RESTORING) case 5 => Unmark case 6 => Unlock
    case _ => Enter(IDLE)
  }

  function UnansweredView(k: nat): View {
    if k == 0 then Alone(STARTING, true, true, true, false, false, false)
    else if k == 1 then
      View(STARTING, true, true, true, true, false, false, Some((Localization, Pause)), false, false, false)
    else if k == 2 then Alone(STARTING, true, false, true, false, false, true)
    else Alone(if k == 3 then STARTING else if k == 4 then FAILED else if k <= 7 then RESTORING else IDLE,
               false, false, false, false, false, k == 6)
  }

  lemma UnansweredStep(k: nat)
    requires k < 8
    ensures Legal(UnansweredView(k), Unanswered(k))
    ensures UnansweredView(k + 1) == Next(UnansweredView(k), Unanswered(k))
  {}

  /** The lock and the marker are still there when a failed session is started again. */
  function Restart(active: bool, k: nat): Action {
    match k
    case 0 => Enter(STARTING) case 1 => Mark(true) case 2 => Lock(true) case _ => Survey(false, active)
  }

  function RestartView(active: bool, k: nat): View {
    Alone(if k == 0 then FAILED else STARTING, true, true, k < 4 || active, false, false, false)
  }

  lemma RestartStep(active: bool, k: nat)
    requires k < 4
    ensures Legal(RestartView(active, k), Restart(active, k))
    ensures RestartView(active, k + 1) == Next(RestartView(active, k), Restart(active, k))
  {}

  /** A session that found nothing active maps and is discarded. */
  function NothingOwed(k: nat): Action {
    match k
    case 0 => Enter(MAPPING) case 1 => Enter(RESTORING) case 2 => Unmark case 3 => Unlock case _ => Enter(IDLE)
  }

  function NothingOwedView(k: nat): View {
    if k <= 2 then
      Alone(if k == 0 then STARTING else if k == 1 then MAPPING else RESTORING, true, true, false, false, false, false)
    else Alone(if k <= 4 then RESTORING else IDLE, k == 3, false, false, false, false, k == 3)
  }

  lemma NothingOwedStep(k: nat)
    requires k < 5
    ensures Legal(NothingOwedView(k), NothingOwed(k))
    ensures NothingOwedView(k + 1) == Next(NothingOwedView(k), NothingOwed(k))
  {}

  /** An action is legal where it is told, leads to the next view, and brings nothing back. */
  predicate TellsAt(s: Story, k: nat) {
    && Legal(s.view(k), s.action(k)) && s.view(k + 1) == Next(s.view(k), s.action(k))
    && BringsNothingBack(s.action(k))
  }

  ghost predicate Tells(s: Story) {
    forall k: nat :: k < s.length ==> TellsAt(s, k)
  }

  predicate BringsNothingBack(a: Action) {
    !(a.Call? && a.ok && LeavesActive(a.command)) && !(a.Query? && a.answer.Some?)
  }

  lemma TrueStory(s: Story)
    requires s.view(0) == FRESH && Tells(s)
    ensures LegalLog(Told(s)) && ViewAfter(Told(s)) == s.view(s.length)
    ensures forall k: nat, m :: k < s.length ==> !Returned(Told(s), k, m)
  {
    forall k: nat | k < s.length
      ensures Legal(s.view(k), Told(s)[k]) && s.view(k + 1) == Next(s.view(k), Told(s)[k])
      ensures BringsNothingBack(Told(s)[k])
    {
      assert TellsAt(s, k) && Told(s)[k] == s.action(k);
    }
    LegalTrace(Told(s), s.view);
  }

  /** One story after another: the second begins in the view that the first ends with. */
  function Then(s: Story, t: Story): Story {
    Story((k: nat) => if k < s.length then s.action(k) else t.action(k - s.length),
          (k: nat) => if k < s.length then s.view(k) else t.view(k - s.length), s.length + t.length)
  }

  lemma ThenTells(s: Story, t: Story)
    requires Tells(s) && Tells(t) && t.length > 0 && s.view(s.length) == t.view(0)
    ensures Tells(Then(s, t))
  {
    var both := Then(s, t);
    forall k: nat | k < both.length
      ensures TellsAt(both, k)
    {
      if k < s.length {
        assert TellsAt(s, k);
      } else {
        assert TellsAt(t, k - s.length);
      }
    }
  }

  function Failing(length: nat): Story {
    Story((k: nat) => FailedRestoration(k), (k: nat) => FailedRestorationView(k), length)
  }

  function Restarting(active: bool): Story {
    Story((k: nat) => Restart(active, k), (k: nat) => RestartView(active, k), 4)
  }

  function GivingUp(): Story {
    Story((k: nat) => GivenUp(k), (k: nat) => GivenUpView(k), 9)
  }

  function LosingThePause(): Story {
    Story((k: nat) => Unanswered(k), (k: nat) => UnansweredView(k), 8)
  }

  function MappingNothing(): Story {
    Story((k: nat) => NothingOwed(k), (k: nat) => NothingOwedView(k), 5)
  }

  lemma FailingTellsAt(length: nat, k: nat)
    requires k < length <= 14
    ensures TellsAt(Failing(length), k)
  {
    FailedRestorationStep(k);
  }

  lemma FailingTells(length: nat)
    requires length <= 14
    ensures Tells(Failing(length))
  {
    forall k: nat | k < length
      ensures TellsAt(Failing(length), k)
    {
      FailingTellsAt(length, k);
    }
  }

  lemma RestartingTells(active: bool)
    ensures Tells(Restarting(active))
  {
    forall k: nat | k < 4
      ensures TellsAt(Restarting(active), k)
    {
      RestartStep(active, k);
    }
  }

  lemma GivingUpTells()
    ensures Tells(GivingUp())
  {
    forall k: nat | k < 9
      ensures TellsAt(GivingUp(), k)
    {
      GivenUpStep(k);
    }
  }

  lemma LosingThePauseTells()
    ensures Tells(LosingThePause())
  {
    forall k: nat | k < 8
      ensures TellsAt(LosingThePause(), k)
    {
      UnansweredStep(k);
    }
  }

  lemma MappingNothingTells()
    ensures Tells(MappingNothing())
  {
    forall k: nat | k < 5
      ensures TellsAt(MappingNothing(), k)
    {
      NothingOwedStep(k);
    }
  }

  /** The history ends idle with nothing remembered, and localization, which survey i found active, is
      never brought back and not running. */
  ghost predicate LosesLocalization(log: seq<Action>, i: nat) {
    && LegalLog(log) && ViewAfter(log).phase == IDLE && OwesNothing(ViewAfter(log))
    && i < |log| && log[i] == Survey(false, true)
    && (forall k: nat :: k < |log| ==> !Returned(log, k, Localization))
    && !Running(log, Localization)
  }

  /** Localization is found inactive, or asked to pause, with or without an answer. */
  predicate PutsDown(a: Action) {
    a == Survey(false, false) || (a.Call? && a.manager == Localization && a.command == Pause)
  }

  /** A story that surveys localization active, later finds or puts it down for the last time, and ends
      idle, has lost it. */
  lemma StoryLoses(s: Story, i: nat, j: nat)
    requires Tells(s) && s.view(0) == FRESH && i < s.length && s.action(i) == Survey(false, true)
    requires s.view(s.length).phase == IDLE && OwesNothing(s.view(s.length))
    requires j < s.length && (PutsDown(s.action(j)))
    requires forall k: nat :: j < k < s.length ==> !s.action(k).Survey?
    ensures LosesLocalization(Told(s), i)
  {
    var log := Told(s);
    TrueStory(s);
    assert log[j] == s.action(j);
    RunningStep(log, j + 1, Localization);
    StaysDown(log, j + 1, Localization);
  }

  /** A session started again after a failed restoration surveys the managers anew: what the first
      survey found active is forgotten. */
  lemma RestartForgets() returns (log: seq<Action>)
    ensures LosesLocalization(log, 3)
  {
    var second := Then(Restarting(false), MappingNothing());
    RestartingTells(false);
    MappingNothingTells();
    ThenTells(Restarting(false), MappingNothing());
    FailingTells(14);
    FailingJoins();
    LosesInTheEnd(Failing(14), second, 3, 3);
    log := Told(Then(Failing(14), second));
  }

  /** Both surveys find localization active, and it is still lost: the second start pauses it, gives
      up, and its one RESUME is not confirmed. */
  lemma RestartLosesAgain() returns (log: seq<Action>)
    ensures LosesLocalization(log, 3) && |log| == 27 && log[17] == Survey(false, true)
  {
    var second := Then(Restarting(true), GivingUp());
    RestartingTells(true);
    GivingUpTells();
    ThenTells(Restarting(true), GivingUp());
    FailingTells(14);
    FailingJoins();
    LosesInTheEnd(Failing(14), second, 3, 4);
    log := Told(Then(Failing(14), second));
    assert log[17] == second.action(3);
  }

  /** story is the first story and then the second. */
  ghost predicate InTurn(first: Story, second: Story, story: Story) {
    && story.length == first.length + second.length
    && (forall k: nat :: k < first.length ==> story.action(k) == first.action(k))
    && (forall k: nat :: first.length <= k ==> story.action(k) == second.action(k - first.length))
  }

  lemma ThenIs(first: Story, second: Story)
    ensures InTurn(first, second, Then(first, second))
    ensures Then(first, second).view(first.length + second.length) == second.view(second.length)
    ensures first.length > 0 ==> Then(first, second).view(0) == first.view(0)
  {}

  /** Two stories in a row, the second of which has the last word about localization. */
  lemma LosesInTheEnd(first: Story, second: Story, i: nat, j: nat)
    requires Tells(first) && Tells(second) && first.view(0) == FRESH && first.view(first.length) == second.view(0)
    requires i < first.length && first.action(i) == Survey(false, true) && j < second.length
    requires second.view(second.length).phase == IDLE && OwesNothing(second.view(second.length))
    requires PutsDown(second.action(j))
    requires forall k: nat :: j < k < second.length ==> !second.action(k).Survey?
    ensures LosesLocalization(Told(Then(first, second)), i)
  {
    ThenTells(first, second);
    ThenIs(first, second);
    JointlyLoses(first, second, Then(first, second), i, j);
  }

  lemma JointlyLoses(first: Story, second: Story, story: Story, i: nat, j: nat)
    requires Tells(story) && InTurn(first, second, story)
    requires i < first.length && first.action(i) == Survey(false, true) && j < second.length
    requires story.view(0) == FRESH && story.view(story.length).phase == IDLE && OwesNothing(story.view(story.length))
    requires PutsDown(second.action(j))
    requires forall k: nat :: j < k < second.length ==> !second.action(k).Survey?
    ensures LosesLocalization(Told(story), i)
  {
    forall k: nat | first.length + j < k < story.length
      ensures !story.action(k).Survey?
    {
      assert story.action(k) == second.action(k - first.length);
    }
    assert story.action(first.length + j) == second.action(first.length + j - first.length);
    StoryLoses(story, i, first.length + j);
  }

  lemma FailingJoins()
    ensures Failing(14).view(14) == RestartView(true, 0) && Failing(14).view(0) == FRESH
    ensures Failing(14).action(3) == Survey(false, true)
    ensures Failing(4).view(4) == GivenUpView(0) && Failing(4).view(0) == FRESH
    ensures Failing(4).view(4) == UnansweredView(0)
    ensures Failing(4).action(3) == Survey(false, true)
  {}

  /** Even from idle: a start that gives up and whose RESUME is lost leaves localization paused, and
      the discard that follows succeeds without bringing it back. */
  lemma FailedStartLoses() returns (log: seq<Action>)
    ensures LosesLocalization(log, 3) && |log| == 13
  {
    FailingTells(4);
    GivingUpTells();
    FailingJoins();
    LosesInTheEnd(Failing(4), GivingUp(), 3, 0);
    log := Told(Then(Failing(4), GivingUp()));
  }

  /** Even without any RESUME: when the answer to the PAUSE itself is lost, the start gives up without
      asking localization back, although the PAUSE may have taken effect. */
  lemma LostPauseLoses() returns (log: seq<Action>)
    ensures LosesLocalization(log, 3) && |log| == 12
    ensures forall a :: a in log && a.Call? ==> a == Call(Localization, Pause, false)
  {
    FailingTells(4);
    LosingThePauseTells();
    FailingJoins();
    LosesInTheEnd(Failing(4), LosingThePause(), 3, 0);
    var story := Then(Failing(4), LosingThePause());
    log := Told(story);
    forall k | 0 <= k < 12 && log[k].Call?
      ensures log[k] == Call(Localization, Pause, false)
    {
      OnlyThePause(k);
    }
  }

  lemma OnlyThePause(k: nat)
    requires k < 12
    ensures var a := Then(Failing(4), LosingThePause()).action(k);
      a.Call? ==> a == Call(Localization, Pause, false)
  {}
}
