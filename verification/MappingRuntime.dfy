/** The mapping session object of the Robot Agent
    (robot_agent/amr_web_bridge/amr_web_bridge/mapping_runtime.py). Every external effect is
    appended to a ghost history; answers of services, processes and files are nondeterministic. */
module MappingRuntime {
  import opened Common
  import opened MappingSession
  import Interlock = LifecycleInterlock

  datatype Outcome = Done | Rejected | Failed

  class MappingRuntime {
    const interlock: Interlock.LifecycleInterlock
    var marker: bool
    var phase: Phase
    var process: bool
    var sessionId: Option<string>
    var savedMapId: Option<string>
    var navigationWasActive: bool
    var localizationWasActive: bool
    ghost var log: seq<Action>
    ghost var view: View

    /** The fields agree with what the history says was done, and every step of it was legal. */
    ghost predicate Synced()
      reads this, interlock
    {
      && Traced(log, view)
      && view.phase == phase
      && view.holds == interlock.Held()
      && view.marked == marker
      && Undisturbed(view)
    }

    /** The flags name exactly the managers still to be restored. */
    ghost predicate FlagsAgree()
      reads this
    {
      && view.owesLocalization == localizationWasActive
      && view.owesNavigation == navigationWasActive
    }

    predicate Clear()
      reads this, interlock
    {
      !interlock.Held() && !marker && !localizationWasActive && !navigationWasActive
    }

    /** Between calls. A SLAM process exists only while capturing, or in the saving phase that an
        error in examining the target leaves behind. */
    ghost predicate Valid()
      reads this, interlock
    {
      && Synced()
      && FlagsAgree()
      && (localizationWasActive || navigationWasActive ==> interlock.Held() && marker)
      && (phase == IDLE ==> Clear())
      && (process ==> Capturing(phase) || phase == SAVING)
      && (Capturing(phase) ==> process && savedMapId == None)
      && phase != STARTING && phase != RESTORING
    }

    /** A new agent clears the marker its predecessor may have left. */
    constructor ()
      ensures Valid() && fresh(interlock) && phase == IDLE && log == []
    {
      interlock := new Interlock.LifecycleInterlock();
      marker, phase, process := false, IDLE, false;
      sessionId, savedMapId := None, None;
      navigationWasActive, localizationWasActive := false, false;
      log, view := [], FRESH;
      TraceStarts();
    }

    ghost method Emit(a: Action)
      requires Traced(log, view) && Legal(view, a)
      modifies this`log, this`view
      ensures log == old(log) + [a] && Traced(log, view) && view == Next(old(view), a)
      ensures Undisturbed(view)
    {
      TraceExtends(log, view, a);
      log, view := log + [a], Next(view, a);
    }

    method Set(p: Phase)
      requires Synced() && MayEnter(view, p) && (Capturing(p) ==> interlock.Held() && marker && view.quiet)
      modifies this`phase, this`log, this`view
      ensures Synced() && phase == p
      ensures log == old(log) + [Enter(p)]
      ensures view == old(view).(phase := p, asked := None, undoing := false,
                                 pausedLocalization := p != STARTING && old(view).pausedLocalization,
                                 pausedNavigation := p != STARTING && old(view).pausedNavigation)
    {
      phase := p;
      Emit(Enter(p));
    }

    lemma MarkIsLegal(v: View, present: bool)
      requires v.phase == STARTING && !v.undoing
      ensures Legal(v, Mark(present)) && Next(v, Mark(present)) == v.(marked := present, asked := None)
    {}

    lemma LockIsLegal(v: View, got: bool)
      requires v.phase == STARTING && !v.undoing
      ensures Legal(v, Lock(got)) && Next(v, Lock(got)) == v.(holds := v.holds || got, asked := None)
    {}

    ghost method EmitMark(present: bool)
      requires Traced(log, view) && view.phase == STARTING && !view.undoing
      modifies this`log, this`view
      ensures Traced(log, view) && log == old(log) + [Mark(present)]
      ensures view == old(view).(marked := present, asked := None)
    {
      MarkIsLegal(view, present);
      TraceExtends(log, view, Mark(present));
      log, view := log + [Mark(present)], view.(marked := present, asked := None);
    }

    ghost method EmitLock(got: bool)
      requires Traced(log, view) && view.phase == STARTING && !view.undoing
      modifies this`log, this`view
      ensures Traced(log, view) && log == old(log) + [Lock(got)]
      ensures view == old(view).(holds := old(view).holds || got, asked := None)
    {
      LockIsLegal(view, got);
      TraceExtends(log, view, Lock(got));
      log, view := log + [Lock(got)], view.(holds := view.holds || got, asked := None);
    }

    method MarkMappingActive(a: StartAnswers) returns (ok: bool)
      requires Synced() && phase == STARTING && !view.undoing
      modifies this`marker, this`log, this`view
      ensures Synced() && ok == a.marked && marker == (a.marked || a.leftBehind)
      ensures log == old(log) + [Mark(marker)]
      ensures view == old(view).(marked := marker, asked := None)
    {
      ok := a.marked;
      EmitMark(a.marked || a.leftBehind);
      marker := a.marked || a.leftBehind;
    }

    method ClearMappingActive()
      requires Synced() && !Capturing(phase) && (phase == STARTING || OwesNothing(view))
      modifies this`marker, this`log, this`view
      ensures Synced() && !marker
      ensures log == old(log) + [Unmark] && view == old(view).(marked := false, asked := None, undoing := true)
    {
      marker := false;
      Emit(Unmark);
    }

    method ReleaseLease()
      requires Synced() && !Capturing(phase) && !marker
      requires if phase == STARTING then view.undoing && !view.pausedLocalization && !view.pausedNavigation
               else OwesNothing(view)
      modifies this`log, this`view, interlock
      ensures Synced() && !interlock.Held()
      ensures log == old(log) + [Unlock]
      ensures view == FRESH.(phase := phase, marked := marker)
    {
      interlock.Release();
      Emit(Unlock);
    }

    /** One lifecycle command; a lost or negative answer raises. */
    method Lifecycle(manager: Manager, command: Command) returns (ok: bool)
      requires Synced() && interlock.Held() && !Capturing(phase) && MayCall(view, manager, command)
      modifies this`log, this`view
      ensures Synced() && log == old(log) + [Call(manager, command, ok)]
      ensures view == Next(old(view), Call(manager, command, ok))
    {
      ok := *;
      Emit(Call(manager, command, ok));
    }

    /** Is the manager's node active? Asked only after a lost answer; None when the query raises. */
    method LifecycleNodeActive(manager: Manager) returns (answer: Option<bool>)
      requires Synced() && interlock.Held() && !Capturing(phase) && phase != STARTING
      requires view.asked.Some? && view.asked.value.0 == manager
      modifies this`log, this`view
      ensures Synced() && log == old(log) + [Query(manager, answer)]
      ensures view == Next(old(view), Query(manager, answer))
    {
      answer := *;
      Emit(Query(manager, answer));
    }

    /** One attempt to bring a manager back; an effect seen despite a lost answer counts. */
    method StartOnce(manager: Manager, command: Command) returns (done: bool)
      requires Synced() && interlock.Held() && !Capturing(phase) && phase != STARTING
      requires command == Remedy(manager) && MayCall(view, manager, command)
      modifies this`log, this`view
      ensures Synced() && old(log) <= log && Attempt(log[|old(log)|..], manager, command, true, done)
      ensures Owed(view, manager) == !done
      ensures Owed(view, Other(manager)) == old(Owed(view, Other(manager)))
      ensures !done ==> MayCall(view, manager, command)
    {
      done := Lifecycle(manager, command);
      if !done {
        var active := LifecycleNodeActive(manager);
        done := active == Some(true);
      }
    }

    method ResetOnce() returns (done: bool)
      requires Synced() && interlock.Held() && !Capturing(phase) && MayCall(view, Navigation, Reset)
      modifies this`log, this`view
      ensures Synced() && old(log) <= log && Attempt(log[|old(log)|..], Navigation, Reset, false, done)
      ensures MayCall(view, Navigation, Reset) && (done ==> view.clean)
    {
      done := Lifecycle(Navigation, Reset);
      if !done {
        var active := LifecycleNodeActive(Navigation);
        done := active == Some(false);
      }
    }

    /** Up to three attempts to bring a manager back, ended by the first that works. A failure leaves it
        owed, and the history shows three attempts whose command was not confirmed and whose query did
        not find the manager active. */
    method EnsureLifecycleStarted(manager: Manager, command: Command) returns (ok: bool)
      requires Synced() && interlock.Held() && !Capturing(phase) && phase != STARTING
      requires command == Remedy(manager) && MayCall(view, manager, command)
      modifies this`log, this`view
      ensures Synced() && old(log) <= log && Tries(log[|old(log)|..], manager, command, true, ok)
      ensures Owed(view, manager) == !ok
      ensures Owed(view, Other(manager)) == old(Owed(view, Other(manager)))
    {
      for attempt := 0 to 3
        invariant Synced() && old(log) <= log && |log| == |old(log)| + 2 * attempt
        invariant Failing(log[|old(log)|..], manager, command, true)
        invariant Owed(view, manager) && MayCall(view, manager, command)
        invariant Owed(view, Other(manager)) == old(Owed(view, Other(manager)))
        modifies this`log, this`view
      {
        ghost var before := log;
        var done := StartOnce(manager, command);
        OneMoreTry(old(log), before, log, manager, command, true, done);
        if done {
          return true;
        }
      }
      return false;
    }

    /** Up to three attempts to reset navigation, ended by the first that works; a failure means that
        none of three was confirmed or seen to leave navigation inactive. */
    method EnsureLifecycleReset() returns (ok: bool)
      requires Synced() && interlock.Held() && !Capturing(phase) && MayCall(view, Navigation, Reset)
      modifies this`log, this`view
      ensures Synced() && old(log) <= log && Tries(log[|old(log)|..], Navigation, Reset, false, ok)
      ensures MayCall(view, Navigation, Reset) && (ok ==> view.clean)
    {
      for attempt := 0 to 3
        invariant Synced() && old(log) <= log && |log| == |old(log)| + 2 * attempt
        invariant Failing(log[|old(log)|..], Navigation, Reset, false)
        invariant MayCall(view, Navigation, Reset)
        modifies this`log, this`view
      {
        ghost var before := log;
        var done := ResetOnce();
        OneMoreTry(old(log), before, log, Navigation, Reset, false, done);
        if done {
          return true;
        }
      }
      return false;
    }

    /** The process is forgotten even when stopping it raises. */
    method StopSlamProcess(stops: bool) returns (ok: bool)
      modifies this`process
      ensures !process && ok == (!old(process) || stops)
    {
      ok := true;
      if process {
        ok := stops;
      }
      process := false;
    }

    /** Localization first, then navigation by RESET and STARTUP; each flag falls only when its
        manager is back, so a later attempt resumes where this one failed. */
    method ResumeLifecycles() returns (ok: bool)
      requires Synced() && FlagsAgree() && !Capturing(phase) && phase != STARTING
      requires localizationWasActive || navigationWasActive ==> interlock.Held()
      modifies this`log, this`view, this`localizationWasActive, this`navigationWasActive
      ensures Synced() && FlagsAgree() && old(log) <= log
      ensures ok == (!localizationWasActive && !navigationWasActive)
      ensures localizationWasActive ==> old(localizationWasActive)
      ensures navigationWasActive ==> old(navigationWasActive)
      ensures !ok ==> Exhausted(log, |old(log)|)
    {
      if localizationWasActive {
        ok := EnsureLifecycleStarted(Localization, Resume);
        ExhaustedBy(log, |old(log)|, |old(log)|, Localization, Resume, true, ok);
        if !ok {
          return;
        }
        localizationWasActive := false;
      }
      if navigationWasActive {
        ghost var from := |log|;
        ok := EnsureLifecycleReset();
        ExhaustedBy(log, |old(log)|, from, Navigation, Reset, false, ok);
        if !ok {
          return;
        }
        from := |log|;
        ok := EnsureLifecycleStarted(Navigation, Startup);
        ExhaustedBy(log, |old(log)|, from, Navigation, Startup, true, ok);
        if !ok {
          return;
        }
        navigationWasActive := false;
      }
      return true;
    }

    method GiveUp()
      requires Synced() && !Capturing(phase) && phase != STARTING && OwesNothing(view)
      modifies this`log, this`view, this`marker, interlock
      ensures Synced() && !interlock.Held() && !marker
      ensures log == old(log) + [Unmark, Unlock] && view == FRESH.(phase := phase)
    {
      ClearMappingActive();
      ReleaseLease();
    }

    /** The marker and the lock are given up only once nothing is owed any more. */
    method Restore(stops: bool) returns (ok: bool)
      requires Synced() && FlagsAgree() && !Capturing(phase) && phase != STARTING
      requires localizationWasActive || navigationWasActive ==> interlock.Held()
      modifies this`log, this`view, this`process, this`marker, this`localizationWasActive, this`navigationWasActive,
               interlock
      ensures Synced() && FlagsAgree() && old(log) <= log && !process
      ensures ok ==> Clear() && |log| >= 2 && log[|log| - 2..] == [Unmark, Unlock]
      ensures !ok ==> interlock.Held() == old(interlock.Held()) && marker == old(marker)
      ensures !ok ==> old(process) || old(localizationWasActive) || old(navigationWasActive)
      ensures !ok ==> (old(process) && !stops) || Exhausted(log, |old(log)|)
      ensures localizationWasActive ==> old(localizationWasActive)
      ensures navigationWasActive ==> old(navigationWasActive)
    {
      ok := StopSlamProcess(stops);
      if !ok {
        return;
      }
      ok := ResumeLifecycles();
      if ok {
        GiveUp();
      }
    }

    method AcquireLease(p: Interlock.Polls) returns (got: bool)
      requires Synced() && phase == STARTING && !view.undoing && Interlock.Advances(p, 0.05)
      modifies this`log, this`view, interlock
      ensures Synced() && got == interlock.Held() == (old(interlock.Held()) || LockMetFree(p))
      ensures log == old(log) + [Lock(got)] && view == old(view).(holds := got, asked := None)
    {
      got := interlock.Acquire(30.0, 0.05, p);
      EmitLock(got);
    }

    /** The start under way has paused nothing yet and is not giving up. */
    ghost predicate Fresh()
      reads this
    {
      phase == STARTING && !view.undoing && !view.pausedLocalization && !view.pausedNavigation
    }

    /** Remember which managers are active; the query may raise. */
    method SurveyManagers(a: StartAnswers) returns (ok: bool)
      requires Synced() && Fresh() && interlock.Held() && marker
      modifies this`log, this`view, this`navigationWasActive, this`localizationWasActive
      ensures Synced() && Fresh() && ok == a.found.Some?
      ensures ok ==> FlagsAgree() && a.found == Some((navigationWasActive, localizationWasActive))
      ensures ok ==> log == old(log) + [Survey(navigationWasActive, localizationWasActive)]
      ensures ok ==> view.quiet == !navigationWasActive
      ensures !ok ==> log == old(log)
    {
      ok := a.found.Some?;
      if ok {
        navigationWasActive, localizationWasActive := a.found.value.0, a.found.value.1;
        Emit(Survey(navigationWasActive, localizationWasActive));
      }
    }

    method PauseOne(manager: Manager) returns (ok: bool)
      requires Synced() && phase == STARTING && !view.undoing && interlock.Held()
      requires Owed(view, manager) && !Paused(view, manager)
      modifies this`log, this`view
      ensures Synced() && log == old(log) + [Call(manager, Pause, ok)]
      ensures view.owesLocalization == old(view).owesLocalization && view.owesNavigation == old(view).owesNavigation
      ensures Paused(view, manager) == ok && Paused(view, Other(manager)) == Paused(old(view), Other(manager))
      ensures !view.undoing && (view.quiet == if manager == Navigation then ok else old(view).quiet)
    {
      ok := Lifecycle(manager, Pause);
    }

    /** Pause what is active, one manager after the other. */
    method PauseActive() returns (ok: bool, navigationPaused: bool, localizationPaused: bool, ghost tried: seq<Action>)
      requires Synced() && Fresh() && interlock.Held() && FlagsAgree()
      requires view.quiet == !navigationWasActive
      modifies this`log, this`view
      ensures Synced() && FlagsAgree() && !view.undoing
      ensures log == old(log) + tried && Tried(tried, navigationPaused, localizationPaused)
      ensures view.pausedNavigation == navigationPaused && view.pausedLocalization == localizationPaused
      ensures navigationPaused ==> navigationWasActive
      ensures localizationPaused ==> localizationWasActive
      ensures ok == PausesConfirmed(tried)
      ensures ok ==> view.quiet && tried == Pauses(navigationWasActive, localizationWasActive)
      ensures ok ==> navigationPaused == navigationWasActive && localizationPaused == localizationWasActive
    {
      navigationPaused, localizationPaused, tried := false, false, [];
      if navigationWasActive {
        ok := PauseOne(Navigation);
        tried := [Call(Navigation, Pause, ok)];
        if !ok {
          return;
        }
        navigationPaused := true;
      }
      if localizationWasActive {
        ok := PauseOne(Localization);
        tried := tried + [Call(Localization, Pause, ok)];
        if !ok {
          return;
        }
        localizationPaused := true;
      }
      ok := true;
    }

    /** Announce the session, take the lock, and only then look at the managers. */
    method TakeOwnership(p: Interlock.Polls, a: StartAnswers) returns (ok: bool, ghost tried: seq<Action>)
      requires Synced() && Fresh() && Interlock.Advances(p, 0.05)
      modifies this`log, this`view, this`marker, interlock, this`navigationWasActive, this`localizationWasActive
      ensures Synced() && Fresh() && log == old(log) + tried && Tried(tried, false, false) && PausesConfirmed(tried)
      ensures ok == (a.marked && (old(interlock.Held()) || LockMetFree(p)) && a.found.Some?)
      ensures ok ==> a.found == Some((navigationWasActive, localizationWasActive))
      ensures ok ==> interlock.Held() && marker && FlagsAgree() && view.quiet == !navigationWasActive
      ensures ok ==> tried == [Mark(true), Lock(true), Survey(navigationWasActive, localizationWasActive)]
    {
      ok := MarkMappingActive(a);
      tried := [Mark(marker)];
      if !ok {
        return;
      }
      ok := AcquireLease(p);
      tried := tried + [Lock(ok)];
      if !ok {
        return;
      }
      ok := SurveyManagers(a);
      if ok {
        tried := tried + [Survey(navigationWasActive, localizationWasActive)];
      }
    }

    /** Own the navigation stack with nothing of it active. */
    method Prepare(p: Interlock.Polls, a: StartAnswers)
      returns (ok: bool, navigationPaused: bool, localizationPaused: bool, ghost tried: seq<Action>)
      requires Synced() && Fresh() && Interlock.Advances(p, 0.05)
      modifies this`log, this`view, this`marker, interlock, this`navigationWasActive, this`localizationWasActive
      ensures Synced() && !view.undoing && log == old(log) + tried && Tried(tried, navigationPaused, localizationPaused)
      ensures view.pausedNavigation == navigationPaused && view.pausedLocalization == localizationPaused
      ensures navigationPaused ==> interlock.Held() && Owed(view, Navigation)
      ensures localizationPaused ==> interlock.Held() && Owed(view, Localization)
      ensures ok ==> tried == [Mark(true), Lock(true), Survey(navigationWasActive, localizationWasActive)]
                              + Pauses(navigationWasActive, localizationWasActive)
      ensures ok == (a.marked && (old(interlock.Held()) || LockMetFree(p)) && a.found.Some? && PausesConfirmed(tried))
      ensures ok ==> a.found == Some((navigationWasActive, localizationWasActive))
      ensures ok ==> FlagsAgree() && interlock.Held() && marker && view.quiet
      ensures ok ==> navigationPaused == navigationWasActive && localizationPaused == localizationWasActive
    {
      navigationPaused, localizationPaused := false, false;
      ok, tried := TakeOwnership(p, a);
      if !ok {
        return;
      }
      ghost var pauses: seq<Action>;
      ok, navigationPaused, localizationPaused, pauses := PauseActive();
      TriedMore(tried, pauses, navigationPaused, localizationPaused);
      ConfirmedMore(tried, pauses);
      tried := tried + pauses;
    }

    /** The guarded part of a start; any step of it may raise. */
    method TryStart(p: Interlock.Polls, a: StartAnswers)
      returns (ok: bool, navigationPaused: bool, localizationPaused: bool, ghost tried: seq<Action>)
      requires Synced() && Fresh() && !process && Interlock.Advances(p, 0.05)
      modifies this`log, this`view, this`marker, this`phase, this`process, interlock,
               this`navigationWasActive, this`localizationWasActive
      ensures Synced() && log == old(log) + tried
      ensures ok == Unhindered(a, old(interlock.Held()) || LockMetFree(p), tried)
      ensures ok ==> a.found == Some((navigationWasActive, localizationWasActive))
      ensures ok ==> phase == MAPPING && process && FlagsAgree()
      ensures ok ==> tried == [Mark(true), Lock(true)] + Entry(navigationWasActive, localizationWasActive)
      ensures !ok ==> phase == STARTING && !process && !view.undoing
      ensures !ok ==> Tried(tried, navigationPaused, localizationPaused)
      ensures !ok ==> view.pausedNavigation == navigationPaused && view.pausedLocalization == localizationPaused
      ensures !ok && navigationPaused ==> interlock.Held() && Owed(view, Navigation)
      ensures !ok && localizationPaused ==> interlock.Held() && Owed(view, Localization)
    {
      ok, navigationPaused, localizationPaused, tried := Prepare(p, a);
      if !ok {
        return;
      }
      ok := Launch(a.launches);
      if ok {
        ConfirmedMore(tried, [Enter(MAPPING)]);
        tried := tried + [Enter(MAPPING)];
      }
    }

    /** Start the SLAM process; it may fail to start or exit at once. */
    method Launch(launches: bool) returns (ok: bool)
      requires Synced() && phase == STARTING && !process && FlagsAgree() && interlock.Held() && marker && view.quiet
      requires view.pausedLocalization == view.owesLocalization && view.pausedNavigation == view.owesNavigation
      modifies this`log, this`view, this`phase, this`process
      ensures Synced() && ok == launches
      ensures ok ==> phase == MAPPING && process && FlagsAgree() && log == old(log) + [Enter(MAPPING)]
      ensures !ok ==> unchanged(this)
    {
      ok := launches;
      if ok {
        process := true;
        Set(MAPPING);
      }
    }

    /** Ask a paused manager back; a failure is ignored. */
    method SafeLifecycle(manager: Manager) returns (ghost ok: bool)
      requires Synced() && phase == STARTING && view.undoing && interlock.Held()
      requires Owed(view, manager) && Paused(view, manager)
      requires manager == Navigation ==> !view.pausedLocalization
      modifies this`log, this`view
      ensures Synced() && log == old(log) + [Call(manager, Resume, ok)] && view.undoing
      ensures Owed(view, Other(manager)) == Owed(old(view), Other(manager))
      ensures !Paused(view, manager) && Paused(view, Other(manager)) == Paused(old(view), Other(manager))
    {
      var answered := Lifecycle(manager, Resume);
      ok := answered;
    }

    /** Give up a start: clear the marker, ask each manager it has paused back once, localization first
        and whatever the answer, release the lock, and forget the flags. */
    method Rollback(navigationPaused: bool, localizationPaused: bool)
      returns (ghost localizationBack: bool, ghost navigationBack: bool)
      requires Synced() && phase == STARTING && !process && !view.undoing
      requires view.pausedNavigation == navigationPaused && view.pausedLocalization == localizationPaused
      requires navigationPaused ==> interlock.Held() && Owed(view, Navigation)
      requires localizationPaused ==> interlock.Held() && Owed(view, Localization)
      modifies this`log, this`view, this`marker, this`phase, this`process, interlock,
               this`navigationWasActive, this`localizationWasActive
      ensures Synced() && FlagsAgree() && phase == FAILED && Clear() && !process
      ensures log == old(log) + [Unmark]
                     + AskBack(localizationPaused, localizationBack, navigationPaused, navigationBack)
                     + [Unlock, Enter(FAILED)]
    {
      localizationBack, navigationBack := false, false;
      var stopped := StopSlamProcess(true);
      ClearMappingActive();
      if localizationPaused {
        localizationBack := SafeLifecycle(Localization);
      }
      if navigationPaused {
        navigationBack := SafeLifecycle(Navigation);
      }
      EndStart();
    }

    /** Roll back a start that has tried these steps. */
    method Abandon(
        navigationPaused: bool, localizationPaused: bool, ghost before: seq<Action>, ghost tried: seq<Action>)
      requires Synced() && phase == STARTING && !process && !view.undoing
      requires view.pausedNavigation == navigationPaused && view.pausedLocalization == localizationPaused
      requires navigationPaused ==> interlock.Held() && Owed(view, Navigation)
      requires localizationPaused ==> interlock.Held() && Owed(view, Localization)
      requires log == before + [Enter(STARTING)] + tried && Tried(tried, navigationPaused, localizationPaused)
      modifies this`log, this`view, this`marker, this`phase, this`process, interlock,
               this`navigationWasActive, this`localizationWasActive
      ensures Synced() && FlagsAgree() && phase == FAILED && Clear() && !process
      ensures before <= log && GaveUp(log[|before|..])
      ensures PausesConfirmed(log[|before|..]) == PausesConfirmed(tried)
    {
      ghost var l, n := Rollback(navigationPaused, localizationPaused);
      GaveUpIs(before, log, tried, localizationPaused, l, navigationPaused, n);
    }

    method EndStart()
      requires Synced() && phase == STARTING && !marker
      requires view.undoing && !view.pausedLocalization && !view.pausedNavigation
      modifies this`log, this`view, this`phase, interlock, this`navigationWasActive, this`localizationWasActive
      ensures Synced() && FlagsAgree() && phase == FAILED && Clear() && log == old(log) + [Unlock, Enter(FAILED)]
    {
      ReleaseLease();
      localizationWasActive, navigationWasActive := false, false;
      Set(FAILED);
    }

    /** A start either captures with exclusive, quiet navigation, having paused exactly the managers
        it found active; or it leaves no lock, no marker, no flag and no process behind, having asked
        every manager it paused back once. It captures exactly when nothing hinders it: the marker is
        written, the lock is its own or met free in time, the managers can be surveyed, every PAUSE is
        confirmed, and the process runs. */
    method Start(id: string, p: Interlock.Polls, a: StartAnswers) returns (outcome: Outcome)
      requires Valid() && Interlock.Advances(p, 0.05)
      modifies this, interlock
      ensures Valid() && old(log) <= log
      ensures outcome == Rejected <==> old(phase) != IDLE && old(phase) != FAILED
      ensures outcome == Rejected ==> log == old(log) && unchanged(this) && unchanged(interlock)
      ensures outcome != Rejected ==>
        (outcome == Done <==> Unhindered(a, old(interlock.Held()) || LockMetFree(p), log[|old(log)|..]))
      ensures outcome == Done ==> a.found == Some((navigationWasActive, localizationWasActive))
      ensures outcome == Done ==> phase == MAPPING && sessionId == Some(id)
      ensures outcome == Done ==>
                log == old(log) + [Enter(STARTING), Mark(true), Lock(true)]
                       + Entry(navigationWasActive, localizationWasActive)
      ensures outcome == Failed ==> phase == FAILED && Clear() && !process && GaveUp(log[|old(log)|..])
    {
      if phase != IDLE && phase != FAILED {
        return Rejected;
      }
      var ok := Begin(id, p, a);
      return if ok then Done else Failed;
    }

    method OpenSession(id: string)
      requires Valid() && (phase == IDLE || phase == FAILED)
      modifies this`phase, this`log, this`view, this`sessionId, this`savedMapId
      ensures Synced() && Fresh() && log == old(log) + [Enter(STARTING)]
      ensures sessionId == Some(id) && savedMapId == None
    {
      Set(STARTING);
      sessionId, savedMapId := Some(id), None;
    }

    /** Open a session and try to start it. */
    method TrySession(id: string, p: Interlock.Polls, a: StartAnswers)
      returns (ok: bool, navigationPaused: bool, localizationPaused: bool, ghost tried: seq<Action>)
      requires Valid() && Interlock.Advances(p, 0.05) && (phase == IDLE || phase == FAILED)
      modifies this, interlock
      ensures Synced() && log == old(log) + [Enter(STARTING)] + tried
      ensures ok == Unhindered(a, old(interlock.Held()) || LockMetFree(p), tried)
      ensures ok ==> a.found == Some((navigationWasActive, localizationWasActive))
      ensures ok ==> Valid() && phase == MAPPING && sessionId == Some(id)
      ensures ok ==> tried == [Mark(true), Lock(true)] + Entry(navigationWasActive, localizationWasActive)
      ensures !ok ==> phase == STARTING && !process && !view.undoing
      ensures !ok ==> Tried(tried, navigationPaused, localizationPaused)
      ensures !ok ==> view.pausedNavigation == navigationPaused && view.pausedLocalization == localizationPaused
      ensures !ok && navigationPaused ==> interlock.Held() && Owed(view, Navigation)
      ensures !ok && localizationPaused ==> interlock.Held() && Owed(view, Localization)
    {
      OpenSession(id);
      ok, navigationPaused, localizationPaused, tried := TryStart(p, a);
    }

    method Begin(id: string, p: Interlock.Polls, a: StartAnswers) returns (ok: bool)
      requires Valid() && Interlock.Advances(p, 0.05) && (phase == IDLE || phase == FAILED)
      modifies this, interlock
      ensures Valid() && old(log) <= log
      ensures ok == Unhindered(a, old(interlock.Held()) || LockMetFree(p), log[|old(log)|..])
      ensures ok ==> a.found == Some((navigationWasActive, localizationWasActive))
      ensures ok ==> phase == MAPPING && sessionId == Some(id)
      ensures ok ==> log == old(log) + [Enter(STARTING), Mark(true), Lock(true)]
                            + Entry(navigationWasActive, localizationWasActive)
      ensures !ok ==> phase == FAILED && Clear() && !process && GaveUp(log[|old(log)|..])
    {
      var navigationPaused, localizationPaused;
      ghost var tried: seq<Action>;
      ok, navigationPaused, localizationPaused, tried := TrySession(id, p, a);
      if ok {
        StartedIs(old(log), log, tried);
      } else {
        Abandon(navigationPaused, localizationPaused, old(log), tried);
      }
    }

    method StopCapture() returns (outcome: Outcome)
      requires Valid()
      modifies this`phase, this`log, this`view
      ensures Valid()
      ensures outcome == (if old(phase) == MAPPING then Done else Rejected)
      ensures outcome == Done ==> phase == REVIEW && log == old(log) + [Enter(REVIEW)]
      ensures outcome == Rejected ==> phase == old(phase) && log == old(log)
    {
      if phase != MAPPING {
        return Rejected;
      }
      Set(REVIEW);
      return Done;
    }

    /** A failed discard can be tried again: it keeps the lock and the marker and what it still
        owes. A successful one owes nothing any more and has given up marker and lock. It fails only if
        stopping the process raises or some command was tried three times in vain; so it succeeds
        whenever every command is confirmed. */
    method Discard(stops: bool) returns (outcome: Outcome)
      requires Valid()
      modifies this, interlock
      ensures Valid() && old(log) <= log
      ensures outcome == Rejected <==> !Capturing(old(phase)) && old(phase) != FAILED
      ensures outcome == Rejected ==> log == old(log) && unchanged(this) && unchanged(interlock)
      ensures outcome == Done ==> phase == IDLE && Clear() && !process && sessionId == None && savedMapId == None
      ensures outcome == Done ==> |log| >= 3 && log[|log| - 3..] == [Unmark, Unlock, Enter(IDLE)]
      ensures outcome == Failed ==> phase == FAILED && !process && interlock.Held() && marker
      ensures outcome == Failed ==> (old(process) && !stops) || Exhausted(log, |old(log)|)
      ensures outcome != Rejected && stops && AllConfirmed(log[|old(log)|..]) ==> outcome == Done
      ensures localizationWasActive ==> old(localizationWasActive)
      ensures navigationWasActive ==> old(navigationWasActive)
    {
      if phase != MAPPING && phase != REVIEW && phase != FAILED {
        return Rejected;
      }
      var ok := GiveBack(stops);
      if !ok {
        ExhaustedUnconfirmed(log, |old(log)|);
        return Failed;
      }
      sessionId, savedMapId := None, None;
      return Done;
    }

    method GiveBack(stops: bool) returns (ok: bool)
      requires Valid() && (Capturing(phase) || phase == FAILED)
      modifies this`log, this`view, this`phase, this`process, this`marker,
               this`localizationWasActive, this`navigationWasActive, interlock
      ensures Synced() && FlagsAgree() && old(log) <= log && !process
      ensures phase == if ok then IDLE else FAILED
      ensures ok ==> Clear() && |log| >= 3 && log[|log| - 3..] == [Unmark, Unlock, Enter(IDLE)]
      ensures !ok ==> interlock.Held() && marker
      ensures !ok ==> (old(process) && !stops) || Exhausted(log, |old(log)|)
      ensures localizationWasActive ==> old(localizationWasActive)
      ensures navigationWasActive ==> old(navigationWasActive)
    {
      Set(RESTORING);
      ghost var restoring := log;
      ok := Restore(stops);
      ghost var restored := log;
      Set(if ok then IDLE else FAILED);
      ExhaustedGrows(restored, log, |old(log)|, |restoring|);
    }

    /** What saving to a map of that name meets before anything is written. */
    method CheckTarget(checks: SaveChecks) returns (verdict: Verdict)
      ensures !checks.idMatches || !checks.directoryConfigured ==> verdict == Refused
      ensures verdict == Crashed <==> Raises(checks)
      ensures verdict == Accepted <==> Acceptable(checks)
    {
      if !checks.idMatches {
        return Refused;
      }
      if !checks.directoryConfigured {
        return Refused;
      }
      if !checks.resolved {
        return Crashed;
      }
      if !checks.inside {
        return Refused;
      }
      if !checks.examined {
        return Crashed;
      }
      if checks.taken {
        return Refused;
      }
      return Accepted;
    }

    /** Once the map is on disk: restore what was paused, or let the caller activate the map. */
    method FinishSave(activation: bool, a: SaveAnswers) returns (ok: bool)
      requires Synced() && FlagsAgree() && phase == SAVING && interlock.Held() && marker
      modifies this`log, this`view, this`phase, this`process, this`marker,
               this`localizationWasActive, this`navigationWasActive, interlock
      ensures Synced() && FlagsAgree() && old(log) <= log && !process
      ensures phase == if ok then IDLE else FAILED
      ensures ok ==> Clear()
      ensures ok && !activation ==> |log| >= 3 && log[|log| - 3..] == [Unmark, Unlock, Enter(IDLE)]
      ensures ok && activation ==> log == old(log) + [Activate, Unmark, Unlock, Enter(IDLE)]
      ensures !ok ==> interlock.Held() && marker
      ensures !ok && activation ==>
                localizationWasActive == old(localizationWasActive) && navigationWasActive == old(navigationWasActive)
      ensures activation ==> ok == ((!old(process) || a.stops) && a.activates)
      ensures |log| > |old(log)|
      ensures !ok && !activation ==> (old(process) && !a.stops) || Exhausted(log, |old(log)|)
      ensures localizationWasActive ==> old(localizationWasActive)
      ensures navigationWasActive ==> old(navigationWasActive)
    {
      if activation {
        ok := ActivateSaved(a);
      } else {
        ok := Restore(a.stops);
      }
      ghost var restored := log;
      Set(if ok then IDLE else FAILED);
      ExhaustedGrows(restored, log, |old(log)|, |old(log)|);
    }

    method ActivateSaved(a: SaveAnswers) returns (ok: bool)
      requires Synced() && FlagsAgree() && phase == SAVING && interlock.Held() && marker
      modifies this`log, this`view, this`process, this`marker,
               this`localizationWasActive, this`navigationWasActive, interlock
      ensures Synced() && FlagsAgree() && !process && ok == ((!old(process) || a.stops) && a.activates)
      ensures ok ==> Clear() && log == old(log) + [Activate, Unmark, Unlock]
      ensures !ok ==> log == old(log) && view == old(view) && unchanged(`marker) && unchanged(interlock)
      ensures !ok ==> unchanged(`localizationWasActive) && unchanged(`navigationWasActive)
    {
      ok := StopSlamProcess(a.stops);
      if !ok {
        return;
      }
      ok := a.activates;
      if !ok {
        return;
      }
      Emit(Activate);
      GiveUp();
      localizationWasActive, navigationWasActive := false, false;
    }

    /** A save ends in one of four ways: idle with nothing owed; still in review, ready for
        another try; failed with the map on disk and the restoration still owed; or, when examining
        the target raises, left saving. */
    method Save(mapId: string, checks: SaveChecks, activation: bool, a: SaveAnswers) returns (outcome: Outcome)
      requires Valid()
      modifies this, interlock
      ensures Valid() && old(log) <= log && sessionId == old(sessionId)
      ensures outcome == Rejected <==> old(phase) != REVIEW
      ensures outcome == Rejected ==> log == old(log) && unchanged(this) && unchanged(interlock)
      ensures outcome == Done ==> phase == IDLE && Clear() && !process && savedMapId == Some(mapId)
      ensures outcome == Failed ==> interlock.Held() && marker && phase in {REVIEW, SAVING, FAILED}
      ensures outcome == Failed && phase == FAILED ==> savedMapId == Some(mapId) && !process
      ensures outcome == Failed && phase != FAILED ==>
                savedMapId == None && process && log[|old(log)|..] <= [Enter(SAVING), Enter(REVIEW)]
      ensures outcome == Done && activation ==>
                log == old(log) + [Enter(SAVING), Activate, Unmark, Unlock, Enter(IDLE)]
      ensures outcome == Failed && phase == SAVING <==> old(phase) == REVIEW && Raises(checks)
      ensures outcome == Failed && phase == REVIEW <==>
                old(phase) == REVIEW && !Raises(checks) && !(Acceptable(checks) && a.written)
      ensures outcome == Failed && phase == FAILED ==>
                !a.stops || (activation && !a.activates) || Exhausted(log, |old(log)|)
      ensures old(phase) == REVIEW && Acceptable(checks) && a.written && a.stops && (activation ==> a.activates) ==>
        (AllConfirmed(log[|old(log)|..]) ==> outcome == Done)
      ensures localizationWasActive ==> old(localizationWasActive)
      ensures navigationWasActive ==> old(navigationWasActive)
    {
      if phase != REVIEW {
        return Rejected;
      }
      Set(SAVING);
      ghost var saving := log;
      outcome := SaveMap(mapId, checks, activation, a);
      ExhaustedGrows(log, log, |old(log)|, |saving|);
      ExhaustedUnconfirmed(log, |old(log)|);
    }

    /** A save under way: examine the target, write the files, and finish. */
    method SaveMap(mapId: string, checks: SaveChecks, activation: bool, a: SaveAnswers) returns (outcome: Outcome)
      requires Synced() && FlagsAgree() && phase == SAVING && interlock.Held() && marker && process
      requires savedMapId == None && view.quiet
      modifies this`savedMapId, this`log, this`view, this`phase, this`process, this`marker,
               this`localizationWasActive, this`navigationWasActive, interlock
      ensures Valid() && old(log) <= log && outcome != Rejected
      ensures outcome == Done ==> phase == IDLE && Clear() && !process && savedMapId == Some(mapId)
      ensures outcome == Failed ==> interlock.Held() && marker && phase in {REVIEW, SAVING, FAILED}
      ensures outcome == Failed && phase == FAILED ==> savedMapId == Some(mapId) && !process && |old(log)| < |log|
      ensures outcome == Failed && phase != FAILED ==> savedMapId == None && process
      ensures outcome == Failed && phase != FAILED ==>
                log == old(log) + if phase == REVIEW then [Enter(REVIEW)] else []
      ensures outcome == Failed && phase == SAVING <==> Raises(checks)
      ensures outcome == Failed && phase == REVIEW <==> !Raises(checks) && !(Acceptable(checks) && a.written)
      ensures outcome == Done && activation ==> log == old(log) + [Activate, Unmark, Unlock, Enter(IDLE)]
      ensures outcome == Failed && phase == FAILED ==>
                !a.stops || (activation && !a.activates) || Exhausted(log, |old(log)|)
      ensures localizationWasActive ==> old(localizationWasActive)
      ensures navigationWasActive ==> old(navigationWasActive)
    {
      var verdict := CheckTarget(checks);
      if verdict == Crashed {
        return Failed;
      }
      if verdict == Refused || !a.written {
        Set(REVIEW);
        return Failed;
      }
      var ok := StoreMap(mapId, activation, a);
      return if ok then Done else Failed;
    }

    /** The map is on disk: remember it and finish. */
    method StoreMap(mapId: string, activation: bool, a: SaveAnswers) returns (ok: bool)
      requires Synced() && FlagsAgree() && phase == SAVING && interlock.Held() && marker && process
      modifies this`savedMapId, this`log, this`view, this`phase, this`process, this`marker,
               this`localizationWasActive, this`navigationWasActive, interlock
      ensures Valid() && !process && old(log) <= log && |old(log)| < |log| && savedMapId == Some(mapId)
      ensures phase == (if ok then IDLE else FAILED) && (if ok then Clear() else interlock.Held() && marker)
      ensures ok && activation ==> log == old(log) + [Activate, Unmark, Unlock, Enter(IDLE)]
      ensures activation ==> ok == (a.stops && a.activates)
      ensures !ok && !activation ==> !a.stops || Exhausted(log, |old(log)|)
      ensures localizationWasActive ==> old(localizationWasActive)
      ensures navigationWasActive ==> old(navigationWasActive)
    {
      savedMapId := Some(mapId);
      ok := FinishSave(activation, a);
    }

    /** Any sequence of requests keeps the object valid; once a save was left in its saving phase, all
        of them are rejected and nothing changes any more. */
    method Serve(requests: seq<Request>) returns (outcomes: seq<Outcome>)
      requires Valid()
      requires forall k :: 0 <= k < |requests| && requests[k].StartRequest? ==>
        Interlock.Advances(requests[k].polls, 0.05)
      modifies this, interlock
      ensures Valid() && old(log) <= log && |outcomes| == |requests|
      ensures old(phase) == SAVING ==> Stranded() && outcomes == seq(|requests|, k => Rejected)
    {
      outcomes := [];
      for k := 0 to |requests|
        invariant Valid() && old(log) <= log && |outcomes| == k
        invariant old(phase) == SAVING ==> Stranded() && forall j :: 0 <= j < k ==> outcomes[j] == Rejected
      {
        var outcome;
        match requests[k] {
          case StartRequest(id, polls, found) => outcome := Start(id, polls, found);
          case StopRequest => outcome := StopCapture();
          case SaveRequest(mapId, checks, activation, answers) =>
            outcome := Save(mapId, checks, activation, answers);
          case DiscardRequest(stops) => outcome := Discard(stops);
        }
        outcomes := outcomes + [outcome];
      }
    }

    /** Still saving, and nothing has happened since. */
    twostate predicate Stranded()
      reads this, interlock
    {
      && phase == SAVING && log == old(log) && process == old(process) && marker == old(marker)
      && interlock.Held() == old(interlock.Held())
      && localizationWasActive == old(localizationWasActive) && navigationWasActive == old(navigationWasActive)
    }

    /** Whatever calls failed on the way: an idle object whose last session reached mapping, and was
        not handed over to another map, has restored exactly the managers it had found active. */
    lemma GivesBack(i: nat, m: nat) returns (u: nat)
      requires Valid() && phase == IDLE && i < m < |log| && log[i].Survey? && log[m] == Enter(MAPPING)
      requires SameSession(log, i, m) && NoRestart(log, i)
      ensures LegalLog(log) && m < u < |log| && log[u] == Unlock && SameSession(log, i, u)
      ensures Restored(log, i, u, Localization) && Restored(log, i, u, Navigation)
      ensures !ViewAfter(log[..u]).marked
    {
      TracedIsLegal(log, view);
      u := CompletedSession(log, i, m);
    }
  }

  /** What a save meets before anything is written: the name's pattern, a configured directory,
      directory and target resolved and made without an error, the target inside the directory, its
      files looked for without an error, and whether some exist. */
  datatype SaveChecks = SaveChecks(
    idMatches: bool, directoryConfigured: bool, resolved: bool, inside: bool, examined: bool, taken: bool)

  /** Examining the target raises, outside the guarded part of the save. */
  predicate Raises(c: SaveChecks) {
    c.idMatches && c.directoryConfigured && (!c.resolved || (c.inside && !c.examined))
  }

  predicate Acceptable(c: SaveChecks) {
    c.idMatches && c.directoryConfigured && c.resolved && c.inside && c.examined && !c.taken
  }

  /** What a save meets afterwards: the files written and valid, the process stopped without an error,
      and the caller's activation of the map without an error. */
  datatype SaveAnswers = SaveAnswers(written: bool, stops: bool, activates: bool)

  /** What a start meets: the marker written without an error, or left behind by an error; the managers
      found active (navigation first), or an error; and a process that runs. */
  datatype StartAnswers = StartAnswers(
    marked: bool, leftBehind: bool, found: Option<(bool, bool)>, launches: bool)

  /** What the Robot Agent is asked to do with its session; each start meets its own polls of the lock. */
  datatype Request =
    | StartRequest(id: string, polls: Interlock.Polls, found: StartAnswers)
    | StopRequest
    | SaveRequest(mapId: string, checks: SaveChecks, activation: bool, answers: SaveAnswers)
    | DiscardRequest(stops: bool)

  datatype Verdict = Accepted | Refused | Crashed

  // ---------- attempts ----------

  /** One attempt: the command, confirmed or not, and after a lost answer the query. It is done when the
      command is confirmed or the manager is seen as the command leaves it. */
  predicate Attempt(steps: seq<Action>, m: Manager, c: Command, active: bool, done: bool) {
    if done then steps == [Call(m, c, true)] || steps == [Call(m, c, false), Query(m, Some(active))]
    else |steps| == 2 && FailsAt(steps, 0, m, c, active) && FailsAt(steps, 1, m, c, active)
  }

  predicate FailsAt(steps: seq<Action>, k: nat, m: Manager, c: Command, active: bool)
    requires k < |steps|
  {
    if k % 2 == 0 then steps[k] == Call(m, c, false)
    else steps[k].Query? && steps[k].manager == m && steps[k].answer != Some(active)
  }

  /** Attempts that all failed. */
  predicate Failing(steps: seq<Action>, m: Manager, c: Command, active: bool) {
    |steps| % 2 == 0 && forall k :: 0 <= k < |steps| ==> FailsAt(steps, k, m, c, active)
  }

  /** At most two failed attempts and one that worked; or three failed ones. */
  ghost predicate Tries(steps: seq<Action>, m: Manager, c: Command, active: bool, ok: bool) {
    if ok then exists cut: nat :: LastTry(steps, cut, m, c, active)
    else |steps| == 6 && Failing(steps, m, c, active)
  }

  predicate LastTry(steps: seq<Action>, cut: nat, m: Manager, c: Command, active: bool) {
    cut <= 4 && cut <= |steps| && Failing(steps[..cut], m, c, active) && Attempt(steps[cut..], m, c, active, true)
  }

  lemma OneMoreTry(
      base: seq<Action>, before: seq<Action>, after: seq<Action>, m: Manager, c: Command, active: bool, done: bool)
    requires base <= before <= after && |before| - |base| <= 4 && Failing(before[|base|..], m, c, active)
    requires Attempt(after[|before|..], m, c, active, done)
    ensures if done then Tries(after[|base|..], m, c, active, true)
            else Failing(after[|base|..], m, c, active) && |after| == |before| + 2
  {
    var steps, cut := after[|base|..], |before| - |base|;
    assert steps[..cut] == before[|base|..] && steps[cut..] == after[|before|..];
    if done {
      assert LastTry(steps, cut, m, c, active);
    } else {
      TwoMore(steps, cut, m, c, active);
    }
  }

  lemma TwoMore(steps: seq<Action>, cut: nat, m: Manager, c: Command, active: bool)
    requires cut <= |steps| && Failing(steps[..cut], m, c, active) && Attempt(steps[cut..], m, c, active, false)
    ensures Failing(steps, m, c, active) && |steps| == cut + 2
  {
    forall k | 0 <= k < |steps|
      ensures FailsAt(steps, k, m, c, active)
    {
      if k < cut {
        assert FailsAt(steps[..cut], k, m, c, active);
      } else {
        assert FailsAt(steps[cut..], k - cut, m, c, active);
      }
    }
  }

  /** Six actions of the history, from index k on, are three failed attempts at one of the restorations. */
  predicate GivenUpAt(log: seq<Action>, k: nat) {
    k + 6 <= |log| &&
    (|| Failing(log[k..k + 6], Localization, Resume, true)
     || Failing(log[k..k + 6], Navigation, Reset, false)
     || Failing(log[k..k + 6], Navigation, Startup, true))
  }

  /** Behind index from, the history shows three failed attempts at one of the restorations. */
  ghost predicate Exhausted(log: seq<Action>, from: nat) {
    exists k: nat :: from <= k && GivenUpAt(log, k)
  }

  lemma ExhaustedBy(log: seq<Action>, from: nat, mid: nat, m: Manager, c: Command, active: bool, ok: bool)
    requires from <= mid <= |log| && Tries(log[mid..], m, c, active, ok)
    requires (m, c, active) in {(Localization, Resume, true), (Navigation, Reset, false), (Navigation, Startup, true)}
    ensures !ok ==> Exhausted(log, from)
  {
    if !ok {
      assert log[mid..] == log[mid..mid + 6];
      assert GivenUpAt(log, mid);
    }
  }

  /** Later actions leave it so. */
  lemma ExhaustedGrows(log: seq<Action>, longer: seq<Action>, from: nat, mid: nat)
    requires log <= longer && from <= mid
    ensures Exhausted(log, mid) ==> Exhausted(longer, from)
  {
    if Exhausted(log, mid) {
      var k: nat :| mid <= k && GivenUpAt(log, k);
      assert longer[k..k + 6] == log[k..k + 6];
      assert GivenUpAt(longer, k);
    }
  }

  /** Every command was confirmed. */
  predicate AllConfirmed(steps: seq<Action>) {
    forall x :: x in steps && x.Call? ==> x.ok
  }

  lemma ExhaustedUnconfirmed(log: seq<Action>, from: nat)
    requires from <= |log|
    ensures Exhausted(log, from) ==> !AllConfirmed(log[from..])
  {
    if Exhausted(log, from) {
      var k: nat :| from <= k && GivenUpAt(log, k);
      FirstFails(log, k);
      assert log[from..][k - from] == log[k];
    }
  }

  lemma FirstFails(log: seq<Action>, k: nat)
    requires GivenUpAt(log, k)
    ensures log[k].Call? && !log[k].ok
  {
    var six := log[k..k + 6];
    assert FailsAt(six, 0, Localization, Resume, true) || FailsAt(six, 0, Navigation, Reset, false)
           || FailsAt(six, 0, Navigation, Startup, true);
  }

  predicate PausesConfirmed(steps: seq<Action>) {
    Call(Localization, Pause, false) !in steps && Call(Navigation, Pause, false) !in steps
  }

  lemma ConfirmedMore(tried: seq<Action>, more: seq<Action>)
    ensures PausesConfirmed(tried + more) == (PausesConfirmed(tried) && PausesConfirmed(more))
  {}

  /** Some poll of the lock met it free within thirty seconds. */
  ghost predicate LockMetFree(p: Interlock.Polls) {
    Interlock.FreeInTime(p, p.start + 30.0)
  }

  /** Nothing keeps a start from capturing. */
  predicate Unhindered(a: StartAnswers, got: bool, steps: seq<Action>) {
    a.marked && got && a.found.Some? && PausesConfirmed(steps) && a.launches
  }

  // ---------- what a start does ----------

  function Pauses(navigation: bool, localization: bool): seq<Action> {
    (if navigation then [Call(Navigation, Pause, true)] else [])
    + (if localization then [Call(Localization, Pause, true)] else [])
  }

  /** From the survey to the mapping phase. */
  function Entry(navigation: bool, localization: bool): seq<Action> {
    [Survey(navigation, localization)] + Pauses(navigation, localization) + [Enter(MAPPING)]
  }

  /** What a failing start has tried: it commands nothing but pauses, and these are the managers whose
      pause was confirmed. */
  ghost predicate Tried(tried: seq<Action>, navigationPaused: bool, localizationPaused: bool) {
    && (forall a :: a in tried && a.Call? ==> a.command == Pause)
    && (navigationPaused <==> Call(Navigation, Pause, true) in tried)
    && (localizationPaused <==> Call(Localization, Pause, true) in tried)
  }

  lemma TriedMore(tried: seq<Action>, more: seq<Action>, navigationPaused: bool, localizationPaused: bool)
    requires Tried(tried, false, false) && Tried(more, navigationPaused, localizationPaused)
    ensures Tried(tried + more, navigationPaused, localizationPaused)
  {}

  /** One RESUME to each paused manager, localization first. */
  function AskBack(localization: bool, localizationBack: bool, navigation: bool, navigationBack: bool): seq<Action> {
    (if localization then [Call(Localization, Resume, localizationBack)] else [])
    + (if navigation then [Call(Navigation, Resume, navigationBack)] else [])
  }

  /** The steps of a start that failed: what it tried, and then its rollback. */
  ghost predicate GaveUp(steps: seq<Action>) {
    exists tried, localizationBack, navigationBack :: GaveUpAfter(steps, tried, localizationBack, navigationBack)
  }

  ghost predicate GaveUpAfter(steps: seq<Action>, tried: seq<Action>, localizationBack: bool, navigationBack: bool) {
    var l, n := Call(Localization, Pause, true) in tried, Call(Navigation, Pause, true) in tried;
    && Tried(tried, n, l)
    && steps == [Enter(STARTING)] + tried + [Unmark] + AskBack(l, localizationBack, n, navigationBack)
                + [Unlock, Enter(FAILED)]
  }

  lemma StartedIs(before: seq<Action>, after: seq<Action>, tried: seq<Action>)
    requires after == before + [Enter(STARTING)] + tried
    ensures before <= after && PausesConfirmed(after[|before|..]) == PausesConfirmed(tried)
  {
    assert after[|before|..] == [Enter(STARTING)] + tried;
  }

  lemma GaveUpIs(
      before: seq<Action>, after: seq<Action>, tried: seq<Action>, l: bool, lBack: bool, n: bool, nBack: bool)
    requires Tried(tried, n, l)
    requires after == before + [Enter(STARTING)] + tried + [Unmark] + AskBack(l, lBack, n, nBack)
                      + [Unlock, Enter(FAILED)]
    ensures before <= after && GaveUp(after[|before|..])
    ensures PausesConfirmed(after[|before|..]) == PausesConfirmed(tried)
  {
    var steps := [Enter(STARTING)] + tried + [Unmark] + AskBack(l, lBack, n, nBack) + [Unlock, Enter(FAILED)];
    assert after == before + steps;
    assert GaveUpAfter(after[|before|..], tried, lBack, nBack);
  }

  /** The command that brings a manager back after mapping. */
  function Remedy(m: Manager): Command {
    if m == Localization then Resume else Startup
  }

  function Other(m: Manager): Manager {
    if m == Localization then Navigation else Localization
  }
}
