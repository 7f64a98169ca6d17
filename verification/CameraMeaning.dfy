/** The camera connection told by its history alone: whether frames are asked for, which frame waits,
    which one goes out, and when the next may be taken
    (robot_agent/amr_web_bridge/amr_web_bridge/camera_relay.py, lines 336-415). */
module CameraMeaning {
  import opened Common
  import opened CameraWindow

  /** The last thing the control plane said about demand. */
  function LastDemand(requested: bool, events: seq<Event>): bool {
    if events == [] then requested
    else
      var last := events[|events| - 1];
      match last
      case Control(Some(demand)) => demand
      case Demand(on) => on
      case _ => LastDemand(requested, events[..|events| - 1])
  }

  /** A frame was offered since the last one was taken, sent after a sleep, or demand ended. */
  function Waiting(events: seq<Event>): bool {
    if events == [] then false
    else
      var before, last := events[..|events| - 1], events[|events| - 1];
      match last
      case Offer(_) => true
      case Take(_) => false
      case Demand(on) => on && Waiting(before)
      case Send => !Slept(before) && Waiting(before)
      case _ => Waiting(before)
  }

  /** The sender sleeps before it sends the frame it took last. */
  function Slept(events: seq<Event>): bool {
    if events == [] then false
    else
      var last := events[|events| - 1];
      if last.Take? then last.delayed else Slept(events[..|events| - 1])
  }

  /** The newest frame at the time the sender last took one. */
  function NewestAtTake(events: seq<Event>): int {
    if events == [] then -1
    else
      var before, last := events[..|events| - 1], events[|events| - 1];
      if last.Take? then Newest(before) else NewestAtTake(before)
  }

  /** A frame was taken and not sent yet. */
  function InHand(events: seq<Event>): bool {
    if events == [] then false
    else
      var last := events[|events| - 1];
      if last.Take? then true else if last.Send? then false else InHand(events[..|events| - 1])
  }

  /** The state is what the history says. */
  predicate Told(requested: bool, events: seq<Event>, w: Window) {
    && w.requested == w.active == LastDemand(requested, events)
    && w.queue.Some? == Waiting(events) && (w.queue.Some? ==> w.queue.value == Newest(events))
    && (w.hand != Empty) == InHand(events)
    && (w.hand != Empty ==>
          && w.hand.number == NewestAtTake(events) && w.hand.delayed == Slept(events)
          && (w.queue.None? ==> w.hand.number == Newest(events)))
    && w.closed == (Broken in events)
  }

  lemma {:induction false} ToldByHistory(requested: bool, events: seq<Event>)
    requires Admissible(requested, events)
    ensures Told(requested, events, After(requested, events))
    decreases |events|
  {
    if events != [] {
      var before, last := events[..|events| - 1], events[|events| - 1];
      assert events == before + [last];
      ToldByHistory(requested, before);
      WindowRefinesHistory(requested, before);
      ToldKept(requested, before, last, After(requested, before));
    }
  }

  lemma ToldKept(requested: bool, events: seq<Event>, e: Event, w: Window)
    requires Told(requested, events, w) && Shape(w, Newest(events)) && Enabled(w, e)
    ensures Told(requested, events + [e], Next(w, e))
  {
    assert (events + [e])[..|events + [e]| - 1] == events;
  }

  /** The frame that goes out is the newest one offered so far when the sender slept, and otherwise the
      newest one at the time it was taken; it is pending from then on. */
  lemma SentFrame(requested: bool, events: seq<Event>)
    requires Admissible(requested, events + [Send])
    ensures Admissible(requested, events)
    ensures var n := if Slept(events) then Newest(events) else NewestAtTake(events);
      && n >= 0 && Traffic(requested, events + [Send]) == Traffic(requested, events) + [Sent(n)]
      && After(requested, events + [Send]).pending == After(requested, events).pending + [n]
  {
    assert (events + [Send])[..|events + [Send]| - 1] == events;
    ToldByHistory(requested, events);
  }

  /** The sender may take a frame exactly while the connection lives, frames are asked for, none is in
      hand, fewer than three await an acknowledgement, and one waits. */
  lemma TakeIsDue(requested: bool, events: seq<Event>, delayed: bool)
    requires Admissible(requested, events)
    ensures Admissible(requested, events + [Take(delayed)]) <==>
            && Broken !in events && LastDemand(requested, events) && !InHand(events) && Waiting(events)
            && |After(requested, events).pending| < 3
  {
    assert (events + [Take(delayed)])[..|events + [Take(delayed)]| - 1] == events;
    ToldByHistory(requested, events);
  }

  /** The end of demand empties window and queue; demand that goes on changes neither. */
  lemma DemandMeans(requested: bool, events: seq<Event>, on: bool)
    requires Admissible(requested, events + [Demand(on)])
    ensures Admissible(requested, events)
    ensures var w, v := After(requested, events), After(requested, events + [Demand(on)]);
      && v.requested == v.active == on
      && v.pending == (if on then w.pending else []) && v.queue == (if on then w.queue else None)
  {
    assert (events + [Demand(on)])[..|events + [Demand(on)]| - 1] == events;
  }
}
