/** The acknowledged sending window of one camera connection
    (robot_agent/amr_web_bridge/amr_web_bridge/camera_relay.py, lines 336-415). Frames are known by
    their source sequence number; frames arriving, messages and elapsed delays are the environment. */
module CameraWindow {
  import opened Common

  const MAX_IN_FLIGHT := 3

  /** A frame taken from the queue, and whether the sender sleeps before sending it. */
  datatype Hand = Empty | Holding(number: nat, delayed: bool)

  datatype Window = Window(
    requested: bool, active: bool, pending: seq<nat>, queue: Option<nat>, hand: Hand, closed: bool)

  datatype Event =
    | Offer(number: nat)                // the source captured a frame
    | Control(demand: Option<bool>)     // a message while nothing is requested
    | Take(delayed: bool)
    | Send
    | Demand(on: bool)                  // a demand update while streaming
    | Ack(number: nat)
    | Broken                            // an invalid message, or none in time

  function Initial(requested: bool): Window {
    Window(requested, requested, [], None, Empty, false)
  }

  function DropAcked(pending: seq<nat>, number: nat): seq<nat> {
    if pending != [] && pending[0] <= number then DropAcked(pending[1..], number) else pending
  }

  /** Waiting for a message of the control plane while streaming. */
  predicate Listening(w: Window) {
    w.requested && w.hand == Empty && w.pending != []
  }

  predicate Enabled(w: Window, e: Event) {
    && !w.closed
    && match e
       case Offer(_) => true
       case Control(_) => !w.requested
       case Take(_) => w.requested && w.hand == Empty && |w.pending| < MAX_IN_FLIGHT && w.queue.Some?
       case Send => w.hand != Empty
       case Demand(_) => Listening(w)
       case Ack(_) => Listening(w)
       case Broken => Listening(w)
  }

  /** The frame that goes out: after a sleep, the newest one. */
  function Outgoing(w: Window): nat
    requires w.hand != Empty
  {
    if w.hand.delayed && w.queue.Some? then w.queue.value else w.hand.number
  }

  function Next(w: Window, e: Event): Window
    requires Enabled(w, e)
  {
    match e
    case Offer(n) => w.(queue := Some(n))
    case Control(demand) => if demand.Some? then w.(requested := demand.value, active := demand.value) else w
    case Take(delayed) => w.(hand := Holding(w.queue.value, delayed), queue := None)
    case Send =>
      w.(pending := w.pending + [Outgoing(w)], queue := if w.hand.delayed then None else w.queue, hand := Empty)
    case Demand(on) =>
      if on then w.(requested := true, active := true)
      else w.(requested := false, active := false, pending := [], queue := None)
    case Ack(n) => w.(pending := DropAcked(w.pending, n))
    case Broken => w.(closed := true)
  }

  // ---------- runs ----------

  /** The source numbers its frames in increasing order. */
  predicate Admissible(requested: bool, events: seq<Event>)
    decreases |events|, 0
  {
    events == [] ||
    (var before, last := events[..|events| - 1], events[|events| - 1];
     && Admissible(requested, before)
     && Enabled(After(requested, before), last)
     && (last.Offer? ==> last.number > Newest(before)))
  }

  function Newest(events: seq<Event>): int {
    if events == [] then -1
    else
      var last := events[|events| - 1];
      if last.Offer? then last.number else Newest(events[..|events| - 1])
  }

  function After(requested: bool, events: seq<Event>): Window
    requires Admissible(requested, events)
    decreases |events|, 1
  {
    if events == [] then Initial(requested)
    else Next(After(requested, events[..|events| - 1]), events[|events| - 1])
  }

  /** What the connection carries: frames sent, acknowledgements and the end of demand. */
  datatype Item = Sent(number: nat) | Acked(number: nat) | Off | Quiet

  function ItemOf(w: Window, e: Event): Item
    requires Enabled(w, e)
  {
    match e
    case Send => Sent(Outgoing(w))
    case Ack(n) => Acked(n)
    case Demand(on) => if on then Quiet else Off
    case _ => Quiet
  }

  function Traffic(requested: bool, events: seq<Event>): (items: seq<Item>)
    requires Admissible(requested, events)
    ensures |items| == |events|
    decreases |events|, 1
  {
    if events == [] then []
    else
      var before := events[..|events| - 1];
      Traffic(requested, before) + [ItemOf(After(requested, before), events[|events| - 1])]
  }

  // ---------- the window by history ----------

  /** A frame sent since the last end of demand and not covered by a later acknowledgement. */
  predicate Outstanding(items: seq<Item>, k: nat) {
    && k < |items| && items[k].Sent?
    && forall j :: k < j < |items| ==> items[j] != Off && (items[j].Acked? ==> items[j].number < items[k].number)
  }

  ghost predicate AwaitsAck(items: seq<Item>, n: nat) {
    exists k: nat :: Outstanding(items, k) && items[k].number == n
  }

  predicate Increasing(s: seq<nat>) {
    forall i, j :: 0 <= i < j < |s| ==> s[i] < s[j]
  }

  /** Frames leave in increasing order, and all of them before the given number. */
  ghost predicate SentBefore(items: seq<Item>, bound: int) {
    && (forall i, j :: 0 <= i < j < |items| && items[i].Sent? && items[j].Sent? ==> items[i].number < items[j].number)
    && (forall i :: 0 <= i < |items| && items[i].Sent? ==> items[i].number < bound)
  }

  /** The oldest number that can still be sent. */
  function Ahead(w: Window, newest: int): int {
    if w.hand != Empty then w.hand.number
    else if w.queue.Some? then w.queue.value
    else newest + 1
  }

  ghost predicate WindowIs(w: Window, items: seq<Item>) {
    && Increasing(w.pending)
    && forall n: nat :: n in w.pending <==> AwaitsAck(items, n)
  }

  predicate Shape(w: Window, newest: int) {
    && |w.pending| + (if w.hand != Empty then 1 else 0) <= MAX_IN_FLIGHT
    && (!w.requested ==> w.pending == [] && w.hand == Empty)
    && w.active == w.requested
    && (w.hand != Empty ==> w.hand.number <= newest)
    && (w.queue.Some? ==> w.queue.value == newest)
    && (w.hand != Empty && w.queue.Some? ==> w.hand.number < w.queue.value)
  }

  lemma {:induction false} DropAckedKeeps(pending: seq<nat>, n: nat)
    requires Increasing(pending)
    ensures Increasing(DropAcked(pending, n)) && |DropAcked(pending, n)| <= |pending|
    ensures forall m :: m in DropAcked(pending, n) <==> m in pending && m > n
  {
    if pending != [] && pending[0] <= n {
      assert pending == [pending[0]] + pending[1..];
      DropAckedKeeps(pending[1..], n);
    }
  }

  lemma ShapeKept(w: Window, e: Event, newest: int)
    requires Shape(w, newest) && Increasing(w.pending) && Enabled(w, e) && (e.Offer? ==> e.number > newest)
    ensures Shape(Next(w, e), if e.Offer? then e.number else newest)
  {
    if e.Ack? {
      DropAckedKeeps(w.pending, e.number);
    }
  }

  /** How one more item changes which frames await an acknowledgement. */
  lemma AwaitsAfter(items: seq<Item>, x: Item, n: nat)
    ensures AwaitsAck(items + [x], n) <==>
            (x == Sent(n) || (AwaitsAck(items, n) && x != Off && (x.Acked? ==> x.number < n)))
  {
    var longer := items + [x];
    if AwaitsAck(longer, n) {
      var k: nat :| Outstanding(longer, k) && longer[k].number == n;
      if k < |items| {
        assert longer[|items|] == x;
        assert forall j :: k < j < |items| ==> longer[j] == items[j];
        assert Outstanding(items, k);
      }
    }
    if x == Sent(n) {
      assert Outstanding(longer, |items|);
    } else if AwaitsAck(items, n) && x != Off && (x.Acked? ==> x.number < n) {
      var k: nat :| Outstanding(items, k) && items[k].number == n;
      assert Outstanding(longer, k);
    }
  }

  lemma WindowKept(w: Window, e: Event, items: seq<Item>, newest: int)
    requires Enabled(w, e) && Shape(w, newest) && WindowIs(w, items) && SentBefore(items, Ahead(w, newest))
    ensures WindowIs(Next(w, e), items + [ItemOf(w, e)])
  {
    var h, x := Next(w, e), ItemOf(w, e);
    forall n: nat
      ensures n in h.pending <==> AwaitsAck(items + [x], n)
    {
      AwaitsAfter(items, x, n);
      if e.Ack? {
        DropAckedKeeps(w.pending, e.number);
      }
    }
    if e.Ack? {
      DropAckedKeeps(w.pending, e.number);
    } else if e.Send? {
      forall k | 0 <= k < |w.pending|
        ensures w.pending[k] < Outgoing(w)
      {
        assert AwaitsAck(items, w.pending[k]);
      }
    }
  }

  lemma SentKept(w: Window, e: Event, items: seq<Item>, newest: int)
    requires Enabled(w, e) && Shape(w, newest) && SentBefore(items, Ahead(w, newest))
    requires e.Offer? ==> e.number > newest
    ensures SentBefore(items + [ItemOf(w, e)], Ahead(Next(w, e), if e.Offer? then e.number else newest))
  {
    var longer := items + [ItemOf(w, e)];
    forall i | 0 <= i < |longer| && longer[i].Sent?
      ensures longer[i].number < Ahead(Next(w, e), if e.Offer? then e.number else newest)
    {
      if i < |items| {
        assert items[i].Sent?;
      }
    }
    forall i, j | 0 <= i < j < |longer| && longer[i].Sent? && longer[j].Sent?
      ensures longer[i].number < longer[j].number
    {
      assert items[i].Sent?;
    }
  }

  /** In every run of a connection: frames leave with strictly increasing numbers; at most three are
      pending; and the pending window is exactly the increasing list of the frames sent since the
      last end of demand and not covered by a later acknowledgement. */
  lemma {:induction false} WindowRefinesHistory(requested: bool, events: seq<Event>)
    requires Admissible(requested, events)
    ensures var w, items, newest := After(requested, events), Traffic(requested, events), Newest(events);
      && Shape(w, newest) && |w.pending| <= 3
      && WindowIs(w, items)
      && SentBefore(items, Ahead(w, newest))
    decreases |events|
  {
    if events != [] {
      var before, last := events[..|events| - 1], events[|events| - 1];
      WindowRefinesHistory(requested, before);
      var w, items := After(requested, before), Traffic(requested, before);
      ShapeKept(w, last, Newest(before));
      WindowKept(w, last, items, Newest(before));
      SentKept(w, last, items, Newest(before));
    }
  }

  lemma OldestIsNewer(w: Window, items: seq<Item>, bound: int, k: nat, off: nat)
    requires WindowIs(w, items) && SentBefore(items, bound)
    requires k < off < |items| && items[k].Sent? && items[off] == Off
    ensures DropAcked(w.pending, items[k].number) == w.pending
  {
    if w.pending != [] {
      assert w.pending[0] in w.pending;
      assert AwaitsAck(items, w.pending[0]);
      var j: nat :| Outstanding(items, j) && items[j].number == w.pending[0];
      assert j > off;
    }
  }

  /** An acknowledgement of a frame sent before the last end of demand removes nothing. */
  lemma StaleAckRemovesNothing(requested: bool, events: seq<Event>, k: nat, off: nat)
    requires Admissible(requested, events)
    requires var items := Traffic(requested, events);
      k < off < |items| && items[k].Sent? && items[off] == Off
    ensures var n := Traffic(requested, events)[k].number;
      DropAcked(After(requested, events).pending, n) == After(requested, events).pending
  {
    WindowRefinesHistory(requested, events);
    var w, newest := After(requested, events), Newest(events);
    OldestIsNewer(w, Traffic(requested, events), Ahead(w, newest), k, off);
  }

  /** An acknowledgement is cumulative: exactly the newer frames stay pending. */
  lemma AckIsCumulative(requested: bool, events: seq<Event>, n: nat)
    requires Admissible(requested, events) && Enabled(After(requested, events), Ack(n))
    ensures var w := After(requested, events);
      && Increasing(Next(w, Ack(n)).pending)
      && forall m :: m in Next(w, Ack(n)).pending <==> m in w.pending && m > n
  {
    WindowRefinesHistory(requested, events);
    DropAckedKeeps(After(requested, events).pending, n);
  }

  // ---------- the connection object ----------

  class CameraConnection {
    var streamRequested: bool
    var sourceActive: bool
    var pendingSequences: seq<nat>
    var frames: Option<nat>          // the queue of size one
    var hand: Hand
    var closed: bool

    function State(): Window
      reads this
    {
      Window(streamRequested, sourceActive, pendingSequences, frames, hand, closed)
    }

    constructor (requested: bool)
      ensures State() == Initial(requested)
    {
      streamRequested, sourceActive := requested, requested;
      pendingSequences, frames, hand, closed := [], None, Empty, false;
    }

    /** A newer frame replaces one that was not taken yet. */
    method OfferFrame(number: nat)
      requires !closed
      modifies this`frames
      ensures State() == Next(old(State()), Offer(number))
    {
      frames := Some(number);
    }

    method ReceiveControl(demand: Option<bool>)
      requires Enabled(State(), Control(demand))
      modifies this
      ensures State() == Next(old(State()), Control(demand))
    {
      if demand.Some? {
        streamRequested := demand.value;
        sourceActive := demand.value;
      }
    }

    method TakeFrame(delayed: bool)
      requires Enabled(State(), Take(delayed))
      modifies this
      ensures State() == Next(old(State()), Take(delayed))
    {
      hand := Holding(frames.value, delayed);
      frames := None;
    }

    method SendFrame() returns (number: nat)
      requires Enabled(State(), Send)
      modifies this
      ensures State() == Next(old(State()), Send) && number == Outgoing(old(State()))
    {
      number := hand.number;
      if hand.delayed {
        if frames.Some? {
          number := frames.value;
        }
        frames := None;
      }
      pendingSequences := pendingSequences + [number];
      hand := Empty;
    }

    method ReceiveDemand(on: bool)
      requires Enabled(State(), Demand(on))
      modifies this
      ensures State() == Next(old(State()), Demand(on))
    {
      streamRequested := on;
      sourceActive := on;
      if !on {
        pendingSequences := [];
        frames := None;
      }
    }

    method ReceiveAck(number: nat)
      requires Enabled(State(), Ack(number))
      modifies this
      ensures State() == Next(old(State()), Ack(number))
    {
      while pendingSequences != [] && pendingSequences[0] <= number
        invariant DropAcked(pendingSequences, number) == DropAcked(old(pendingSequences), number)
        invariant State() == old(State()).(pending := pendingSequences)
        decreases |pendingSequences|
      {
        pendingSequences := pendingSequences[1..];
      }
    }

    /** An invalid acknowledgement, or none in time, ends the connection. */
    method Fail()
      requires Enabled(State(), Broken)
      modifies this
      ensures State() == Next(old(State()), Broken)
    {
      closed := true;
    }
  }
}
