/** Where the delivered frames lie in the received stream, also once the buffer limit cuts
    (robot_agent/amr_web_bridge/amr_web_bridge/camera_relay.py, lines 157-190). */
module CameraSpans {
  import opened Common
  import opened CameraStream

  /** The frames are the bytes of consecutive closed spans of the stream between cut and end. */
  ghost predicate Placed(s: seq<Byte>, cut: nat, end: nat, spans: seq<Span>, frames: seq<seq<Byte>>)
    decreases |spans|
  {
    if spans == [] then frames == [] && cut <= end
    else
      && frames != [] && ClosedSpan(s, cut, spans[0]) && frames[0] == s[spans[0].from..spans[0].to]
      && Placed(s, spans[0].to, end, spans[1..], frames[1..])
  }

  lemma ConsPlaced(s: seq<Byte>, cut: nat, end: nat, first: Span, rest: seq<Span>, frames: seq<seq<Byte>>)
    requires ClosedSpan(s, cut, first) && Placed(s, first.to, end, rest, frames)
    ensures Placed(s, cut, end, [first] + rest, [s[first.from..first.to]] + frames)
  {
    var spans, all := [first] + rest, [s[first.from..first.to]] + frames;
    assert spans[1..] == rest && all[1..] == frames;
  }

  lemma {:induction false} PlacedThenMore(
      s: seq<Byte>, cut: nat, mid: nat, end: nat, p: seq<Span>, f: seq<seq<Byte>>, q: seq<Span>, g: seq<seq<Byte>>)
    requires Placed(s, cut, mid, p, f) && Placed(s, mid, end, q, g)
    ensures Placed(s, cut, end, p + q, f + g)
    decreases |p|
  {
    if p == [] {
      assert p + q == q && f + g == g;
      PlacedEarlier(s, cut, mid, end, q, g);
    } else {
      PlacedThenMore(s, p[0].to, mid, end, p[1..], f[1..], q, g);
      ConsPlaced(s, cut, end, p[0], p[1..] + q, f[1..] + g);
      HeadThenMore(p, q);
      HeadThenMore(f, g);
    }
  }

  lemma HeadThenMore<T>(a: seq<T>, b: seq<T>)
    requires a != []
    ensures [a[0]] + (a[1..] + b) == a + b
  {}

  lemma PlacedEarlier(s: seq<Byte>, cut: nat, mid: nat, end: nat, p: seq<Span>, f: seq<seq<Byte>>)
    requires cut <= mid && Placed(s, mid, end, p, f)
    ensures Placed(s, cut, end, p, f)
  {}

  lemma ShiftWithin(s: seq<Byte>, off: nat, n: nat, code: Byte, i: int)
    requires off <= n <= |s| && 0 <= i && off + i + 1 < n
    ensures MarkerAt(s[off..n], code, i) == MarkerAt(s, code, off + i)
  {}

  lemma EndIsClosedSpan(s: seq<Byte>, off: nat, n: nat)
    requires off <= n <= |s| && End(s[off..n]) >= 0
    ensures ClosedSpan(s, off, Span(off + Start(s[off..n]), off + End(s[off..n])))
  {
    var u := s[off..n];
    var a, b := Start(u), End(u);
    Markers(s);
    ShiftWithin(s, off, n, SOI, a);
    ShiftWithin(s, off, n, EOI, b - 2);
    forall i | off + a + 2 <= i < off + b - 2
      ensures !ClosesAt(s, i)
    {
      ShiftWithin(s, off, n, EOI, i - off);
    }
  }

  lemma NextInStretch(s: seq<Byte>, u: seq<Byte>, off: nat, n: nat, first: Span)
    requires off <= n <= |s| && u == s[off..n] && End(u) >= 0
    requires first == Span(off + Start(u), off + End(u))
    ensures Frames(u) == [s[first.from..first.to]] + Frames(s[first.to..n]) && Kept(u) == Kept(s[first.to..n])
  {
    SliceOfSlice(s, off, n, Start(u), End(u));
    NextParts(u, s[first.from..first.to], s[first.to..n]);
  }

  lemma SliceOfSlice<T>(s: seq<T>, off: nat, n: nat, a: nat, b: nat)
    requires off <= n <= |s| && a <= b <= n - off
    ensures s[off..n][a..b] == s[off + a..off + b] && s[off..n][b..] == s[off + b..n]
  {
    forall i | 0 <= i < b - a
      ensures s[off..n][a..b][i] == s[off + a..off + b][i]
    {}
  }

  lemma NoneInStretch(s: seq<Byte>, off: nat, n: nat) returns (next: nat)
    requires off <= n <= |s| && End(s[off..n]) < 0
    ensures off <= next <= n && Kept(s[off..n]) == s[next..n] && Frames(s[off..n]) == []
  {
    NoFrames(s[off..n]);
    next := if Start(s[off..n]) < 0 then off else off + Start(s[off..n]);
  }

  /** The frames cut out of a stretch of the stream, and where what is kept of it begins. */
  lemma {:induction false} StretchPlaced(s: seq<Byte>, off: nat, n: nat) returns (spans: seq<Span>, next: nat)
    requires off <= n <= |s|
    ensures off <= next <= n && Kept(s[off..n]) == s[next..n]
    ensures Placed(s, off, next, spans, Frames(s[off..n]))
    decreases n - off
  {
    if End(s[off..n]) < 0 {
      spans := [];
      next := NoneInStretch(s, off, n);
    } else {
      var first := Span(off + Start(s[off..n]), off + End(s[off..n]));
      EndIsClosedSpan(s, off, n);
      NextInStretch(s, s[off..n], off, n, first);
      var rest;
      rest, next := StretchPlaced(s, first.to, n);
      ConsPlaced(s, off, next, first, rest, Frames(s[first.to..n]));
      spans := [first] + rest;
    }
  }

  lemma ResiduePlaced(s: seq<Byte>, next: nat, n: nat) returns (off: nat)
    requires next <= n <= |s|
    ensures next <= off <= n && Trimmed(s[next..n]) == s[off..n]
  {
    off := if n - next > MAX_BUFFER_BYTES then n - 2 else next;
  }

  /** While reads arrive, with the buffer holding the stream from off to n. */
  lemma {:induction false} ReadPlaced(s: seq<Byte>, off: nat, n: nat, chunks: seq<seq<Byte>>)
    returns (spans: seq<Span>)
    requires off <= n <= |s| && s[n..] == Concat(chunks)
    ensures Placed(s, off, |s|, spans, Read(s[off..n], chunks))
    decreases |chunks|
  {
    if chunks == [] {
      spans := [];
    } else {
      var m := n + |chunks[0]|;
      NextChunk(s, n, m, chunks);
      assert s[off..n] + chunks[0] == s[off..m];
      var p, next := StretchPlaced(s, off, m);
      var from := ResiduePlaced(s, next, m);
      var q := ReadPlaced(s, from, m, chunks[1..]);
      PlacedEarlier(s, next, from, |s|, q, Read(s[from..m], chunks[1..]));
      PlacedThenMore(s, off, next, |s|, p, Frames(s[off..m]), q, Read(s[from..m], chunks[1..]));
      spans := p + q;
    }
  }

  lemma NextChunk(s: seq<Byte>, n: nat, m: nat, chunks: seq<seq<Byte>>)
    requires n <= |s| && s[n..] == Concat(chunks) && chunks != [] && m == n + |chunks[0]|
    ensures m <= |s| && s[n..m] == chunks[0] && s[m..] == Concat(chunks[1..])
  {
    assert s[n..] == chunks[0] + Concat(chunks[1..]);
    assert s[n..m] == s[n..][..|chunks[0]|] && s[m..] == s[n..][|chunks[0]|..];
  }

  /** Whether or not the buffer limit cuts: the delivered frames are contiguous parts of the received
      stream, in order and apart, each from a start marker to the first end marker behind it. */
  lemma FramesAreWhole(chunks: seq<seq<Byte>>) returns (spans: seq<Span>)
    ensures Placed(Concat(chunks), 0, |Concat(chunks)|, spans, Read([], chunks))
  {
    var s := Concat(chunks);
    assert s[0..] == s && s[0..0] == [];
    spans := ReadPlaced(s, 0, 0, chunks);
  }
}
