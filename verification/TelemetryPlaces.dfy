/** Where in the bytes of a stream its events lie (amr_base_driver/serial_bridge.py, lines 519-544). */
module TelemetryPlaces {
  import opened Common
  import opened TelemetryFrame
  import opened TelemetryStream

  /** The magic number stands here, with the version and length bytes behind it. */
  predicate HeaderAt(s: seq<Byte>, i: int) {
    0 <= i <= |s| - 4 && s[i] == 0x5A && s[i + 1] == 0xA5
  }

  ghost predicate FirstHeader(s: seq<Byte>, cut: nat, i: int) {
    cut <= i && HeaderAt(s, i) && forall k :: cut <= k < i ==> !HeaderAt(s, k)
  }

  /** The event that a header gives rise to: an error for a wrong length byte, otherwise the 44 bytes
      from there on, handled if their CRC is right. */
  function EventAt(s: seq<Byte>, i: int): Event
    requires HeaderAt(s, i) && (s[i + 3] == 44 ==> i + 44 <= |s|)
  {
    if s[i + 3] != 44 then LengthError
    else if StoredCrcMatches(s[i..i + 44]) then Handled(s[i..i + 44])
    else CrcError
  }

  /** The events are those of the headers at these places: each the first one not before the end of the
      event in front of it, which takes up one byte or 44, until none is left or its frame is not
      complete yet. */
  ghost predicate EventsFrom(s: seq<Byte>, cut: nat, places: seq<nat>, events: seq<Event>)
    decreases |places|
  {
    if places == [] then
      events == [] && forall i :: FirstHeader(s, cut, i) ==> s[i + 3] == 44 && i + 44 > |s|
    else
      var i := places[0];
      && FirstHeader(s, cut, i) && (s[i + 3] == 44 ==> i + 44 <= |s|)
      && events != [] && events[0] == EventAt(s, i)
      && EventsFrom(s, i + (if s[i + 3] == 44 then 44 else 1), places[1..], events[1..])
  }

  lemma HeaderIsMagic(s: seq<Byte>, cut: nat, i: int)
    requires cut <= |s| && cut <= i <= |s| - 4
    ensures HeaderAt(s, i) == MagicAt(s[cut..], i - cut)
  {}

  lemma ConsEvents(s: seq<Byte>, cut: nat, i: nat, rest: seq<nat>, events: seq<Event>)
    requires FirstHeader(s, cut, i) && (s[i + 3] == 44 ==> i + 44 <= |s|)
    requires EventsFrom(s, i + (if s[i + 3] == 44 then 44 else 1), rest, events)
    ensures EventsFrom(s, cut, [i] + rest, [EventAt(s, i)] + events)
  {
    assert ([i] + rest)[1..] == rest && ([EventAt(s, i)] + events)[1..] == events;
  }

  lemma FirstMagicIsHeader(s: seq<Byte>, cut: nat) returns (i: int)
    requires cut <= |s|
    ensures i < 0 ==> forall k :: cut <= k ==> !HeaderAt(s, k)
    ensures i >= 0 ==> FirstHeader(s, cut, i) && Scan(CrcTest, s[cut..]) == Scan(CrcTest, s[i..])
    ensures i < 0 ==> Scan(CrcTest, s[cut..]) == []
  {
    var u := s[cut..];
    var j := FindMagic(u);
    forall k | cut <= k <= |s| - 4
      ensures HeaderAt(s, k) == MagicAt(u, k - cut)
    {
      HeaderIsMagic(s, cut, k);
    }
    if 0 <= j && cut + j <= |s| - 4 {
      i := cut + j;
      ScanSkips(CrcTest, u, j);
      assert u[j..] == s[i..];
    } else {
      i := -1;
      var k := if j < 0 then |u| else j;
      ScanSkips(CrcTest, u, k);
      ShortScan(CrcTest, u[k..]);
    }
  }

  /** The events of a stream are exactly those of its headers, taken from left to right. */
  lemma {:induction false} EventsByPlace(s: seq<Byte>, cut: nat) returns (places: seq<nat>)
    requires cut <= |s|
    ensures EventsFrom(s, cut, places, Scan(CrcTest, s[cut..]))
    decreases |s| - cut
  {
    var i := FirstMagicIsHeader(s, cut);
    places := [];
    if i >= 0 {
      if s[i + 3] != 44 {
        FirstLengthError(CrcTest, s[i..]);
        assert s[i..][1..] == s[i + 1..];
        var rest := EventsByPlace(s, i + 1);
        ConsEvents(s, cut, i, rest, Scan(CrcTest, s[i + 1..]));
        places := [i] + rest;
      } else if i + 44 <= |s| {
        FirstFrame(CrcTest, s[i..]);
        assert s[i..][44..] == s[i + 44..] && s[i..][..44] == s[i..i + 44];
        var rest := EventsByPlace(s, i + 44);
        ConsEvents(s, cut, i, rest, Scan(CrcTest, s[i + 44..]));
        places := [i] + rest;
      } else {
        PendingFrame(CrcTest, s[i..]);
      }
    }
  }
}
