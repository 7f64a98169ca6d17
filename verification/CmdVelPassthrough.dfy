/** Lease-based ownership of the base velocity command, and the stream it publishes. */
module CmdVelPassthrough {
  datatype Owner = STOPPED | RECOVERY | MANUAL | NAVIGATION

  /** Highest priority first. */
  const PRIORITY := [STOPPED, RECOVERY, MANUAL, NAVIGATION]

  type Deadlines = d: map<Owner, real> | AllOwners(d) witness NO_DEADLINES

  predicate AllOwners(d: map<Owner, real>) {
    STOPPED in d && RECOVERY in d && MANUAL in d && NAVIGATION in d
  }

  const NO_DEADLINES := map[STOPPED := 0.0, RECOVERY := 0.0, MANUAL := 0.0, NAVIGATION := 0.0]

  // ---------- the arbiter as functions of its state ----------

  datatype Arbiter = Arbiter(lease: real, deadlines: Deadlines, owner: Owner)

  function Select(d: Deadlines, now: real): Owner {
    if d[STOPPED] > now then STOPPED
    else if d[RECOVERY] > now then RECOVERY
    else if d[MANUAL] > now then MANUAL
    else if d[NAVIGATION] > now then NAVIGATION
    else STOPPED
  }

  predicate Refused(a: Arbiter, o: Owner, now: real) {
    o != STOPPED && a.deadlines[STOPPED] > now
  }

  function OnAccept(a: Arbiter, o: Owner, now: real): Arbiter {
    if Refused(a, o, now) then a
    else
      var d: Deadlines := (if o == STOPPED then NO_DEADLINES else a.deadlines)[o := now + a.lease];
      a.(deadlines := d, owner := Select(d, now))
  }

  function OnExpire(a: Arbiter, now: real): Arbiter {
    a.(owner := Select(a.deadlines, now))
  }

  // ---------- ownership by history ----------

  datatype Event =
    | Command(source: Owner, time: real)
    | Watchdog(time: real)

  function After(lease: real, history: seq<Event>): Arbiter {
    if history == [] then Arbiter(lease, NO_DEADLINES, STOPPED)
    else
      var a := After(lease, history[..|history| - 1]);
      match history[|history| - 1]
      case Command(o, t) => OnAccept(a, o, t)
      case Watchdog(t) => OnExpire(a, t)
  }

  /** Clock readings are never negative and never run backwards. */
  ghost predicate Timely(history: seq<Event>) {
    && (forall i :: 0 <= i < |history| ==> history[i].time >= 0.0)
    && (forall i, j :: 0 <= i <= j < |history| ==> history[i].time <= history[j].time)
  }

  /** A stop command still young at time now, which refuses motion commands. */
  predicate StopLive(lease: real, history: seq<Event>, now: real) {
    exists i :: 0 <= i < |history| && history[i].Command? && history[i].source == STOPPED
                && history[i].time + lease > now
  }

  /** Event i is a command that was not refused: a stop, or motion with no stop alive. */
  predicate Granted(lease: real, history: seq<Event>, i: int)
    requires 0 <= i < |history|
  {
    history[i].Command? && (history[i].source == STOPPED || !StopLive(lease, history[..i], history[i].time))
  }

  /** Event i granted source o a lease that is still young at time now and was not cancelled by
      a later stop. */
  ghost predicate Grants(lease: real, history: seq<Event>, i: int, o: Owner, now: real) {
    && 0 <= i < |history| && Granted(lease, history, i)
    && history[i].source == o && history[i].time + lease > now
    && forall j :: i < j < |history| && history[j].Command? ==> history[j].source != STOPPED || o == STOPPED
  }

  ghost predicate Live(lease: real, history: seq<Event>, o: Owner, now: real) {
    exists i :: Grants(lease, history, i, o, now)
  }

  ghost function OwnerByHistory(lease: real, history: seq<Event>, now: real): Owner {
    if Live(lease, history, STOPPED, now) then STOPPED
    else if Live(lease, history, RECOVERY, now) then RECOVERY
    else if Live(lease, history, MANUAL, now) then MANUAL
    else if Live(lease, history, NAVIGATION, now) then NAVIGATION
    else STOPPED
  }

  /** A command that is not refused renews its own lease; a stop also cancels all others. */
  lemma AcceptDeadline(a: Arbiter, p: Owner, now: real, o: Owner)
    ensures OnAccept(a, p, now).deadlines[o] ==
      if Refused(a, p, now) then a.deadlines[o]
      else if o == p then now + a.lease
      else if p == STOPPED then 0.0
      else a.deadlines[o]
  {
    match o
    case STOPPED => case RECOVERY => case MANUAL => case NAVIGATION =>
  }

  lemma GrantsExtend(lease: real, history: seq<Event>, e: Event, i: int, o: Owner, now: real)
    requires 0 <= i < |history|
    ensures Grants(lease, history + [e], i, o, now) <==>
      Grants(lease, history, i, o, now) && !(e.Command? && e.source == STOPPED && o != STOPPED)
  {
    var longer := history + [e];
    assert longer[..i] == history[..i];
    assert forall j :: 0 <= j < |history| ==> longer[j] == history[j];
    assert longer[|history|] == e;
  }

  lemma StopLiveIsLive(lease: real, history: seq<Event>, now: real)
    ensures StopLive(lease, history, now) <==> Live(lease, history, STOPPED, now)
  {
    if StopLive(lease, history, now) {
      var i :| 0 <= i < |history| && history[i].Command? && history[i].source == STOPPED
               && history[i].time + lease > now;
      assert Grants(lease, history, i, STOPPED, now);
    }
  }

  /** The mutable deadline of each source tells, at any time from the last event on, whether
      history still grants it a lease. */
  lemma {:induction false} DeadlinesAreLeases(lease: real, history: seq<Event>, o: Owner, now: real)
    requires Timely(history) && now >= 0.0
    requires forall i :: 0 <= i < |history| ==> history[i].time <= now
    ensures After(lease, history).lease == lease
    ensures After(lease, history).deadlines[o] > now <==> Live(lease, history, o, now)
    decreases |history|
  {
    if history != [] {
      var n := |history| - 1;
      var earlier, e := history[..n], history[n];
      assert history == earlier + [e];
      DeadlinesAreLeases(lease, earlier, o, now);
      DeadlinesAreLeases(lease, earlier, STOPPED, e.time);
      StopLiveIsLive(lease, earlier, e.time);
      LiveExtends(lease, earlier, e, o, now);
      if Live(lease, earlier, o, now) {
        var i :| Grants(lease, earlier, i, o, now);
        assert earlier[i] == history[i] && history[i].time <= e.time;
      }
      var a := After(lease, earlier);
      assert a.deadlines[o] > now <==> Live(lease, earlier, o, now);
      if e.Command? {
        AcceptDeadline(a, e.source, e.time, o);
      }
    }
  }

  /** How one more event changes which leases are alive. */
  lemma LiveExtends(lease: real, earlier: seq<Event>, e: Event, o: Owner, now: real)
    ensures Live(lease, earlier + [e], o, now) <==>
      || (e.Command? && e.source == o && e.time + lease > now
          && (o == STOPPED || !StopLive(lease, earlier, e.time)))
      || (Live(lease, earlier, o, now) && !(e.Command? && e.source == STOPPED && o != STOPPED))
  {
    var n, longer := |earlier|, earlier + [e];
    assert longer[..n] == earlier && longer[n] == e;
    forall i | 0 <= i < n
      ensures Grants(lease, longer, i, o, now) <==>
        Grants(lease, earlier, i, o, now) && !(e.Command? && e.source == STOPPED && o != STOPPED)
    {
      GrantsExtend(lease, earlier, e, i, o, now);
    }
    assert Grants(lease, longer, n, o, now) <==>
      e.Command? && e.source == o && e.time + lease > now && (o == STOPPED || !StopLive(lease, earlier, e.time));
  }

  /** Refinement: the owner kept by the mutable state is the owner the history dictates. */
  lemma {:induction false} OwnerRefinesHistory(lease: real, history: seq<Event>)
    requires Timely(history) && history != []
    ensures After(lease, history).owner == OwnerByHistory(lease, history, history[|history| - 1].time)
    decreases |history|
  {
    var n := |history| - 1;
    var earlier, e, now := history[..n], history[n], history[n].time;
    var a := After(lease, earlier);
    SelectIsByHistory(lease, history, now);
    if e.Command? && Refused(a, e.source, now) {
      DeadlinesAreLeases(lease, earlier, STOPPED, now);
      DeadlinesAreLeases(lease, history, STOPPED, now);
      if earlier != [] {
        OwnerRefinesHistory(lease, earlier);
        SelectIsByHistory(lease, earlier, earlier[n - 1].time);
      }
    }
  }

  lemma SelectIsByHistory(lease: real, history: seq<Event>, now: real)
    requires Timely(history) && now >= 0.0
    requires forall i :: 0 <= i < |history| ==> history[i].time <= now
    ensures Select(After(lease, history).deadlines, now) == OwnerByHistory(lease, history, now)
  {
    DeadlinesAreLeases(lease, history, STOPPED, now);
    DeadlinesAreLeases(lease, history, RECOVERY, now);
    DeadlinesAreLeases(lease, history, MANUAL, now);
    DeadlinesAreLeases(lease, history, NAVIGATION, now);
  }

  /** Whoever may move the base holds a lease that is still young and was taken out after every
      stop command had itself expired: no lease from before a stop revives. */
  lemma MotionOwnerIsJustified(lease: real, history: seq<Event>) returns (k: nat)
    requires Timely(history) && history != [] && After(lease, history).owner != STOPPED
    ensures k < |history| && history[k] == Command(After(lease, history).owner, history[k].time)
    ensures history[|history| - 1].time < history[k].time + lease
    ensures forall i :: 0 <= i < |history| && history[i].Command? && history[i].source == STOPPED ==>
      i < k && history[i].time + lease <= history[k].time
  {
    var now := history[|history| - 1].time;
    OwnerRefinesHistory(lease, history);
    var owner := After(lease, history).owner;
    assert Live(lease, history, owner, now);
    var g :| Grants(lease, history, g, owner, now);
    k := g;
    forall i | 0 <= i < |history| && history[i].Command? && history[i].source == STOPPED
      ensures i < k && history[i].time + lease <= history[k].time
    {
      assert !(k < i < |history|);
      assert i != k;
      assert history[..k][i] == history[i];
      assert !StopLive(lease, history[..k], history[k].time);
    }
  }

  // ---------- the published stream ----------

  datatype Output =
    | Motion(source: Owner, time: real)
    | Zero(time: real)

  /** What accept reports: the command may be published, the owner changed. */
  function Verdict(a: Arbiter, o: Owner, now: real): (bool, bool) {
    var a' := OnAccept(a, o, now);
    if Refused(a, o, now) then (false, false) else (a'.owner == o, a'.owner != a.owner)
  }

  function Published(a: Arbiter, e: Event): seq<Output> {
    match e
    case Command(o, now) =>
      var (accepted, changed) := Verdict(a, o, now);
      (if changed then [Zero(now)] else [])
      + (if !accepted then [] else if o != STOPPED then [Motion(o, now)] else [Zero(now)])
    case Watchdog(now) =>
      if OnExpire(a, now).owner != a.owner then [Zero(now)] else []
  }

  function Stream(lease: real, history: seq<Event>): seq<Output> {
    if history == [] then []
    else
      var n := |history| - 1;
      Stream(lease, history[..n]) + Published(After(lease, history[..n]), history[n])
  }

  /** The owner that the history dictates at its last event. */
  ghost function LastOwner(lease: real, history: seq<Event>): Owner {
    if history == [] then STOPPED else OwnerByHistory(lease, history, history[|history| - 1].time)
  }

  /** What an event calls for: a zero whenever the owner changes, then a zero for every stop command,
      and the command of a moving source exactly when that source owns the base with it and no stop is
      alive. */
  function Due(before: Owner, after: Owner, stopLive: bool, e: Event): seq<Output> {
    (if after != before then [Zero(e.time)] else []) +
    match e
    case Watchdog(_) => []
    case Command(source, now) =>
      if source == STOPPED then [Zero(now)] else if source == after && !stopLive then [Motion(source, now)] else []
  }

  /** What is published for an event is what it calls for, told by the history alone. */
  lemma EventPublishes(lease: real, history: seq<Event>, e: Event)
    requires Timely(history + [e])
    ensures Stream(lease, history + [e]) == Stream(lease, history)
      + Due(LastOwner(lease, history), LastOwner(lease, history + [e]), StopLive(lease, history, e.time), e)
  {
    var n, longer := |history|, history + [e];
    assert longer[..n] == history && longer[n] == e;
    assert forall i :: 0 <= i < n ==> history[i] == longer[i];
    LastOwnerIs(lease, longer);
    LastOwnerIs(lease, history);
    AfterEvent(lease, longer, n);
    assert longer[..n + 1] == longer;
    DeadlinesAreLeases(lease, history, STOPPED, e.time);
    StopLiveIsLive(lease, history, e.time);
    PublishedIsDue(After(lease, history), e);
  }

  lemma LastOwnerIs(lease: real, history: seq<Event>)
    requires Timely(history)
    ensures LastOwner(lease, history) == After(lease, history).owner
  {
    if history != [] {
      OwnerRefinesHistory(lease, history);
    }
  }

  lemma PublishedIsDue(a: Arbiter, e: Event)
    requires e.time >= 0.0
    ensures var after := if e.Command? then OnAccept(a, e.source, e.time) else OnExpire(a, e.time);
      Published(a, e) == Due(a.owner, after.owner, a.deadlines[STOPPED] > e.time, e)
  {
    if e.Command? && e.source == STOPPED {
      StopOwns(a, e.time);
    }
  }

  /** A stop command always leaves the base stopped. */
  lemma StopOwns(a: Arbiter, now: real)
    requires now >= 0.0
    ensures OnAccept(a, STOPPED, now).owner == STOPPED && !Refused(a, STOPPED, now)
  {
    AcceptDeadline(a, STOPPED, now, RECOVERY);
    AcceptDeadline(a, STOPPED, now, MANUAL);
    AcceptDeadline(a, STOPPED, now, NAVIGATION);
  }

  /** A source that owns the base with its command while no stop is alive has that command published,
      as the last thing of the event. */
  lemma AcceptedMotionIsPublished(lease: real, history: seq<Event>, o: Owner, now: real)
    requires Timely(history + [Command(o, now)]) && o != STOPPED && !StopLive(lease, history, now)
    requires LastOwner(lease, history + [Command(o, now)]) == o
    ensures var s := Stream(lease, history + [Command(o, now)]);
      |s| > |Stream(lease, history)| && s[|s| - 1] == Motion(o, now)
  {
    EventPublishes(lease, history, Command(o, now));
    assert Due(LastOwner(lease, history), o, false, Command(o, now)) ==
           (if o != LastOwner(lease, history) then [Zero(now)] else []) + [Motion(o, now)];
  }

  ghost predicate NoZeroBetween(s: seq<Output>, i: int, j: int)
    requires 0 <= i && j <= |s|
  {
    forall k :: i < k < j ==> s[k].Motion?
  }

  lemma {:induction false} SinceLastZero(lease: real, history: seq<Event>, i: nat)
    requires i < |Stream(lease, history)| && Stream(lease, history)[i].Motion?
    requires NoZeroBetween(Stream(lease, history), i, |Stream(lease, history)|)
    ensures Stream(lease, history)[i].source == After(lease, history).owner
    decreases |history|
  {
    var n := |history| - 1;
    var earlier := Stream(lease, history[..n]);
    var s := Stream(lease, history);
    assert forall k :: 0 <= k < |earlier| ==> s[k] == earlier[k];
    if i < |earlier| {
      SinceLastZero(lease, history[..n], i);
      assert forall k :: |earlier| <= k < |s| ==> s[k].Motion?;
      if |s| > |earlier| {
        assert s[|earlier|].Motion?;
      }
    }
  }

  lemma {:induction false} NoZeroSameOwner(lease: real, history: seq<Event>, i: nat, j: nat)
    requires i < j < |Stream(lease, history)|
    requires Stream(lease, history)[i].Motion? && Stream(lease, history)[j].Motion?
    requires NoZeroBetween(Stream(lease, history), i, j)
    ensures Stream(lease, history)[i].source == Stream(lease, history)[j].source
    decreases |history|
  {
    var n := |history| - 1;
    var earlier := Stream(lease, history[..n]);
    var out := Published(After(lease, history[..n]), history[n]);
    if j < |earlier| {
      assert Stream(lease, history)[i] == earlier[i] && Stream(lease, history)[j] == earlier[j];
      QuietPrefix(earlier, out, i, j);
      NoZeroSameOwner(lease, history[..n], i, j);
    } else if i < |earlier| {
      QuietParts(earlier, out, i, j);
      SinceLastZero(lease, history[..n], i);
      MotionFirst(After(lease, history[..n]), history[n], j - |earlier|);
    }
  }

  lemma QuietPrefix(earlier: seq<Output>, out: seq<Output>, i: nat, j: nat)
    requires i < j < |earlier| && NoZeroBetween(earlier + out, i, j)
    ensures NoZeroBetween(earlier, i, j)
  {
    forall k | i < k < j
      ensures earlier[k].Motion?
    {
      assert (earlier + out)[k].Motion?;
    }
  }

  lemma QuietParts(earlier: seq<Output>, out: seq<Output>, i: nat, j: nat)
    requires i < |earlier| <= j < |earlier + out| && NoZeroBetween(earlier + out, i, j)
    ensures (earlier + out)[i] == earlier[i] && (earlier + out)[j] == out[j - |earlier|]
    ensures NoZeroBetween(earlier, i, |earlier|)
    ensures forall m :: 0 <= m < j - |earlier| ==> out[m].Motion?
  {
    forall k | i < k < |earlier|
      ensures earlier[k].Motion?
    {
      assert (earlier + out)[k].Motion?;
    }
    forall m | 0 <= m < j - |earlier|
      ensures out[m].Motion?
    {
      assert (earlier + out)[|earlier| + m].Motion?;
    }
  }

  /** Motion published with no zero in front of it is the old owner's. */
  lemma MotionFirst(a: Arbiter, e: Event, k: nat)
    requires k < |Published(a, e)| && Published(a, e)[k].Motion?
    requires forall m :: 0 <= m < k ==> Published(a, e)[m].Motion?
    ensures Published(a, e)[k].source == a.owner
  {
    assert Published(a, e)[0].Motion?;
    if e.Command? && Verdict(a, e.source, e.time).1 {
      ChangeStartsWithZero(a, e);
    }
  }

  lemma ChangeStartsWithZero(a: Arbiter, e: Event)
    requires e.Command? && Verdict(a, e.source, e.time).1
    ensures |Published(a, e)| > 0 && Published(a, e)[0] == Zero(e.time)
  {}

  /** Between motion published for one owner and motion published for another there is a zero. */
  lemma HandoverPassesThroughZero(lease: real, history: seq<Event>, i: nat, j: nat)
    requires i < j < |Stream(lease, history)|
    requires Stream(lease, history)[i].Motion? && Stream(lease, history)[j].Motion?
    requires Stream(lease, history)[i].source != Stream(lease, history)[j].source
    ensures exists k :: i < k < j && Stream(lease, history)[k].Zero?
  {
    if NoZeroBetween(Stream(lease, history), i, j) {
      NoZeroSameOwner(lease, history, i, j);
    }
  }

  // ---------- the dead-man bound ----------

  /** The watchdog runs at least once in every period of the run. */
  ghost predicate WatchdogRuns(history: seq<Event>, period: real) {
    forall x :: |history| > 0 && history[0].time <= x && x + period <= history[|history| - 1].time ==>
      WatchdogWithin(history, x, period)
  }

  ghost predicate WatchdogWithin(history: seq<Event>, x: real, period: real) {
    exists w :: 0 <= w < |history| && history[w].Watchdog? && x <= history[w].time <= x + period
  }

  /** Event j publishes a zero, or motion from the same owner again. */
  predicate RenewsOrStops(lease: real, history: seq<Event>, j: int, o: Owner)
    requires 0 <= j < |history|
  {
    exists x :: x in Published(After(lease, history[..j]), history[j]) && (x.Zero? || x.source == o)
  }

  predicate PublishesMotion(lease: real, history: seq<Event>, i: int, o: Owner)
    requires 0 <= i < |history|
  {
    Motion(o, history[i].time) in Published(After(lease, history[..i]), history[i])
  }

  /** Source o owns the base under a lease taken at the given time. */
  predicate OwnsSince(a: Arbiter, lease: real, o: Owner, time: real) {
    lease > 0.0 && o != STOPPED && a.owner == o && a.lease == lease
    && o in a.deadlines && a.deadlines[o] == time + lease
  }

  lemma {:induction false} OwnerStaysWhileQuiet(lease: real, history: seq<Event>, i: nat, k: nat, o: Owner)
    requires i <= k < |history| && PublishesMotion(lease, history, i, o)
    requires forall j :: i < j <= k ==> !RenewsOrStops(lease, history, j, o)
    ensures OwnsSince(After(lease, history[..k + 1]), lease, o, history[i].time)
    decreases k
  {
    if k == i {
      OwnsAfterMotion(lease, history, i, o);
    } else {
      OwnerStaysWhileQuiet(lease, history, i, k - 1, o);
      OwnsAfterQuiet(lease, history, k, o, history[i].time);
    }
  }

  lemma OwnsAfterMotion(lease: real, history: seq<Event>, i: nat, o: Owner)
    requires i < |history| && PublishesMotion(lease, history, i, o)
    ensures OwnsSince(After(lease, history[..i + 1]), lease, o, history[i].time)
  {
    AfterEvent(lease, history, i);
    AfterKeepsLease(lease, history[..i]);
    MotionTakesLease(After(lease, history[..i]), history[i], o);
  }

  lemma OwnsAfterQuiet(lease: real, history: seq<Event>, k: nat, o: Owner, time: real)
    requires k < |history| && OwnsSince(After(lease, history[..k]), lease, o, time)
    requires !RenewsOrStops(lease, history, k, o)
    ensures OwnsSince(After(lease, history[..k + 1]), lease, o, time)
  {
    AfterEvent(lease, history, k);
    QuietMeans(lease, history, k, o);
    QuietEvent(After(lease, history[..k]), history[k], lease, o, time);
  }

  lemma QuietMeans(lease: real, history: seq<Event>, k: nat, o: Owner)
    requires k < |history| && !RenewsOrStops(lease, history, k, o)
    ensures forall x :: x in Published(After(lease, history[..k]), history[k]) ==> x.Motion? && x.source != o
  {}

  lemma AfterEvent(lease: real, history: seq<Event>, k: nat)
    requires k < |history|
    ensures var a, e := After(lease, history[..k]), history[k];
      After(lease, history[..k + 1]) == if e.Command? then OnAccept(a, e.source, e.time) else OnExpire(a, e.time)
  {
    assert history[..k + 1][..k] == history[..k];
  }

  /** An event that publishes nothing from the owner, and no zero, leaves its lease alone. */
  lemma QuietEvent(a: Arbiter, e: Event, lease: real, o: Owner, time: real)
    requires OwnsSince(a, lease, o, time)
    requires forall x :: x in Published(a, e) ==> x.Motion? && x.source != o
    ensures OwnsSince(if e.Command? then OnAccept(a, e.source, e.time) else OnExpire(a, e.time), lease, o, time)
  {
    if e.Command? {
      QuietCommand(a, e.source, e.time, o);
    } else {
      assert OnExpire(a, e.time).owner != a.owner ==> Zero(e.time) in Published(a, e);
    }
  }

  lemma {:induction false} AfterKeepsLease(lease: real, history: seq<Event>)
    ensures After(lease, history).lease == lease
  {
    if history != [] {
      AfterKeepsLease(lease, history[..|history| - 1]);
    }
  }

  lemma SelectedIsYoung(d: Deadlines, now: real)
    ensures Select(d, now) != STOPPED ==> d[Select(d, now)] > now
  {}

  /** Publishing motion means the source owns the base under a lease that starts now. */
  lemma MotionTakesLease(a: Arbiter, e: Event, o: Owner)
    requires Motion(o, e.time) in Published(a, e)
    ensures e == Command(o, e.time) && o != STOPPED && a.lease > 0.0
    ensures var a' := OnAccept(a, o, e.time);
      a'.owner == o && a'.deadlines[o] == e.time + a.lease
  {
    AcceptDeadline(a, o, e.time, o);
    SelectedIsYoung(OnAccept(a, o, e.time).deadlines, e.time);
  }

  lemma QuietCommand(a: Arbiter, p: Owner, now: real, o: Owner)
    requires a.lease > 0.0 && a.owner == o != STOPPED
    requires forall x :: x in Published(a, Command(p, now)) ==> x.Motion? && x.source != o
    ensures OnAccept(a, p, now).owner == o && OnAccept(a, p, now).deadlines[o] == a.deadlines[o]
  {
    AcceptDeadline(a, p, now, o);
    AcceptDeadline(a, p, now, STOPPED);
    var out := Published(a, Command(p, now));
    var (accepted, changed) := Verdict(a, p, now);
    assert !changed by {
      assert changed ==> Zero(now) in out;
    }
    assert !(accepted && p == o) by {
      assert accepted && p == o ==> Motion(o, now) in out;
    }
  }

  /** Dead-man bound: if the watchdog runs at least once per period, then within lease + period
      of every published motion command its owner publishes again or a zero is published. */
  lemma DeadManBound(lease: real, period: real, history: seq<Event>, i: nat, o: Owner)
    requires Timely(history) && period >= 0.0 && WatchdogRuns(history, period)
    requires i < |history| && PublishesMotion(lease, history, i, o)
    requires history[i].time + lease + period <= history[|history| - 1].time
    ensures exists j :: i < j < |history| && history[j].time <= history[i].time + lease + period
                        && RenewsOrStops(lease, history, j, o)
  {
    OwnerStaysWhileQuiet(lease, history, i, i, o);
    var x := history[i].time + lease;
    assert WatchdogWithin(history, x, period);
    var w :| 0 <= w < |history| && history[w].Watchdog? && x <= history[w].time <= x + period;
    assert i < w;
    if forall j :: i < j < w ==> !RenewsOrStops(lease, history, j, o) {
      OwnerStaysWhileQuiet(lease, history, i, w - 1, o);
      var a := After(lease, history[..w]);
      SelectedIsYoung(a.deadlines, history[w].time);
      assert Zero(history[w].time) in Published(a, history[w]);
      assert RenewsOrStops(lease, history, w, o);
    }
  }

  /** After a stop command no motion is published before its lease has run out. */
  lemma StopSilencesMotion(lease: real, history: seq<Event>, i: nat, j: nat, o: Owner)
    requires Timely(history) && i < j < |history|
    requires history[i].Command? && history[i].source == STOPPED
    requires PublishesMotion(lease, history, j, o)
    ensures history[j].time >= history[i].time + lease
  {
    var prefix := history[..j + 1];
    assert prefix[..j] == history[..j] && prefix[j] == history[j];
    AfterKeepsLease(lease, history[..j]);
    MotionTakesLease(After(lease, history[..j]), history[j], o);
    var k := MotionOwnerIsJustified(lease, prefix);
    assert prefix[i] == history[i] && prefix[k] == history[k];
  }

  // ---------- the classes ----------

  class CommandArbiter {
    const lease: real
    var deadlines: Deadlines
    var owner: Owner

    function View(): Arbiter
      reads this
    {
      Arbiter(lease, deadlines, owner)
    }

    constructor (lease: real)
      ensures View() == After(lease, []) && this.lease == lease
    {
      this.lease := lease;
      deadlines := NO_DEADLINES;
      owner := STOPPED;
    }

    method SelectOwner(now: real) returns (selected: Owner)
      ensures selected == Select(deadlines, now)
    {
      assert PRIORITY[0] == STOPPED && PRIORITY[1] == RECOVERY && PRIORITY[2] == MANUAL && PRIORITY[3] == NAVIGATION;
      var i := 0;
      while i < |PRIORITY|
        invariant 0 <= i <= |PRIORITY|
        invariant forall k :: 0 <= k < i ==> deadlines[PRIORITY[k]] <= now
      {
        if deadlines[PRIORITY[i]] > now {
          return PRIORITY[i];
        }
        i := i + 1;
      }
      selected := STOPPED;
    }

    method Accept(source: Owner, now: real) returns (accepted: bool, changed: bool)
      modifies this`deadlines, this`owner
      ensures View() == OnAccept(old(View()), source, now)
      ensures (accepted, changed) == Verdict(old(View()), source, now)
    {
      if source != STOPPED && deadlines[STOPPED] > now {
        return false, false;
      }
      if source == STOPPED {
        var i := 0;
        while i < |PRIORITY|
          invariant 0 <= i <= |PRIORITY|
          invariant forall k :: 0 <= k < i ==> deadlines[PRIORITY[k]] == 0.0
          modifies this`deadlines
        {
          deadlines := deadlines[PRIORITY[i] := 0.0];
          i := i + 1;
        }
        assert PRIORITY[0] == STOPPED && PRIORITY[1] == RECOVERY && PRIORITY[2] == MANUAL && PRIORITY[3] == NAVIGATION;
        AllZero(deadlines);
      }
      deadlines := deadlines[source := now + lease];
      var previous := owner;
      owner := SelectOwner(now);
      return owner == source, owner != previous;
    }

    method Expire(now: real) returns (changed: bool)
      modifies this`owner
      ensures View() == OnExpire(old(View()), now)
      ensures changed == (owner != old(owner))
    {
      var previous := owner;
      owner := SelectOwner(now);
      return owner != previous;
    }
  }

  lemma AllZero(d: Deadlines)
    requires d[STOPPED] == d[RECOVERY] == d[MANUAL] == d[NAVIGATION] == 0.0
    ensures d == NO_DEADLINES
  {
    forall o: Owner
      ensures o in d && o in NO_DEADLINES && d[o] == NO_DEADLINES[o]
    {
      match o
      case STOPPED => case RECOVERY => case MANUAL => case NAVIGATION =>
    }
    assert d.Keys == NO_DEADLINES.Keys;
  }

  class Passthrough {
    const arbiter: CommandArbiter
    var published: seq<Output>

    constructor (lease: real)
      ensures fresh(arbiter) && arbiter.View() == After(lease, []) && published == []
    {
      arbiter := new CommandArbiter(lease);
      published := [];
    }

    method PublishStop(now: real)
      modifies this`published
      ensures published == old(published) + [Zero(now)]
    {
      published := published + [Zero(now)];
    }

    method HandleCommand(source: Owner, now: real)
      modifies this`published, arbiter
      ensures arbiter.View() == OnAccept(old(arbiter.View()), source, now)
      ensures published == old(published) + Published(old(arbiter.View()), Command(source, now))
    {
      var accepted, changed := arbiter.Accept(source, now);
      if changed {
        PublishStop(now);
      }
      if accepted && source != STOPPED {
        published := published + [Motion(source, now)];
      } else if accepted {
        PublishStop(now);
      }
    }

    method ExpireOwner(now: real)
      modifies this`published, arbiter
      ensures arbiter.View() == OnExpire(old(arbiter.View()), now)
      ensures published == old(published) + Published(old(arbiter.View()), Watchdog(now))
    {
      var changed := arbiter.Expire(now);
      if changed {
        PublishStop(now);
      }
    }
  }
}
