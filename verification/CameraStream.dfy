/** How the camera relay cuts an MJPEG byte stream into frames
    (robot_agent/amr_web_bridge/amr_web_bridge/camera_relay.py, lines 151-190). A frame runs from a
    start-of-image marker to the first end-of-image marker behind it; the markers are those of
    section B.1.1.3 of ITU-T T.81. */
module CameraStream {
  import opened Common

  const MAX_BUFFER_BYTES := 2_000_000
  const SOI: Byte := 0xD8
  const EOI: Byte := 0xD9

  predicate MarkerAt(s: seq<Byte>, code: Byte, i: int) {
    0 <= i && i + 1 < |s| && s[i] == 0xFF && s[i + 1] == code
  }

  /** bytearray.find for a marker from a given offset. */
  function Find(s: seq<Byte>, code: Byte, from: nat): (i: int)
    ensures i >= 0 ==> i >= from && MarkerAt(s, code, i) && forall k :: from <= k < i ==> !MarkerAt(s, code, k)
    ensures i < 0 ==> forall k :: from <= k ==> !MarkerAt(s, code, k)
    decreases |s| - from
  {
    if from + 1 >= |s| then -1
    else if MarkerAt(s, code, from) then from
    else Find(s, code, from + 1)
  }

  function Start(s: seq<Byte>): int {
    Find(s, SOI, 0)
  }

  /** Where the first frame ends, or -1 while there is no complete one. */
  function End(s: seq<Byte>): (e: int)
    ensures e >= 0 ==> 0 <= Start(s) && Start(s) + 4 <= e <= |s|
  {
    if Start(s) < 0 then -1
    else
      var i := Find(s, EOI, Start(s) + 2);
      if i < 0 then -1 else i + 2
  }

  /** The frames of a stream seen as a whole. */
  function Frames(s: seq<Byte>): seq<seq<Byte>>
    decreases |s|
  {
    if End(s) < 0 then [] else [s[Start(s)..End(s)]] + Frames(s[End(s)..])
  }

  /** What is left once every complete frame is cut out. */
  function Kept(s: seq<Byte>): (r: seq<Byte>)
    decreases |s|
  {
    if Start(s) < 0 then s
    else if End(s) < 0 then s[Start(s)..]
    else Kept(s[End(s)..])
  }

  /** What the relay keeps: too long a remainder is cut to its last two bytes. */
  function Residue(s: seq<Byte>): (r: seq<Byte>)
    ensures |r| <= MAX_BUFFER_BYTES
  {
    Trimmed(Kept(s))
  }

  function Trimmed(r: seq<Byte>): seq<Byte> {
    if |r| > MAX_BUFFER_BYTES then r[|r| - 2..] else r
  }

  // ---------- frames are the leftmost spans ----------

  datatype Span = Span(from: nat, to: nat)

  /** The bytes FF D8, which begin an image. */
  predicate OpensAt(s: seq<Byte>, i: int) {
    0 <= i < |s| - 1 && s[i] == 0xFF && s[i + 1] == 0xD8
  }

  /** The bytes FF D9, which end an image. */
  predicate ClosesAt(s: seq<Byte>, i: int) {
    0 <= i < |s| - 1 && s[i] == 0xFF && s[i + 1] == 0xD9
  }

  lemma Markers(s: seq<Byte>)
    ensures forall i :: OpensAt(s, i) == MarkerAt(s, SOI, i)
    ensures forall i :: ClosesAt(s, i) == MarkerAt(s, EOI, i)
  {}

  /** Not in front of cut, the span opens at a start marker and closes at the first end marker behind
      that. */
  ghost predicate ClosedSpan(s: seq<Byte>, cut: nat, p: Span) {
    && cut <= p.from && p.from + 4 <= p.to <= |s|
    && OpensAt(s, p.from) && ClosesAt(s, p.to - 2)
    && (forall i :: p.from + 2 <= i < p.to - 2 ==> !ClosesAt(s, i))
  }

  /** From cut on, the span opens at the first start marker and closes at the first end marker
      behind that. */
  ghost predicate FirstSpan(s: seq<Byte>, cut: nat, p: Span) {
    ClosedSpan(s, cut, p) && forall i :: cut <= i < p.from ==> !OpensAt(s, i)
  }

  /** From cut on, no start marker has an end marker behind it. */
  ghost predicate NoFrame(s: seq<Byte>, cut: nat) {
    forall i, j :: cut <= i && i + 2 <= j && OpensAt(s, i) ==> !ClosesAt(s, j)
  }

  /** The frames are the bytes of consecutive first spans, and nothing complete is left. */
  ghost predicate Leftmost(s: seq<Byte>, cut: nat, spans: seq<Span>, frames: seq<seq<Byte>>)
    decreases |spans|
  {
    if spans == [] then frames == [] && NoFrame(s, cut)
    else
      && frames != [] && FirstSpan(s, cut, spans[0]) && frames[0] == s[spans[0].from..spans[0].to]
      && Leftmost(s, spans[0].to, spans[1..], frames[1..])
  }

  lemma Shift(s: seq<Byte>, cut: nat, code: Byte, i: int)
    requires cut <= |s| && cut <= i
    ensures MarkerAt(s, code, i) == MarkerAt(s[cut..], code, i - cut)
  {}

  lemma EndIsFirstSpan(s: seq<Byte>, cut: nat)
    requires cut <= |s| && End(s[cut..]) >= 0
    ensures FirstSpan(s, cut, Span(cut + Start(s[cut..]), cut + End(s[cut..])))
  {
    Markers(s);
    forall i, code | cut <= i
      ensures MarkerAt(s, code, i) == MarkerAt(s[cut..], code, i - cut)
    {
      Shift(s, cut, code, i);
    }
  }

  lemma NoEndNoFrame(s: seq<Byte>, cut: nat)
    requires cut <= |s| && End(s[cut..]) < 0
    ensures NoFrame(s, cut)
  {
    forall i, j | cut <= i && i + 2 <= j && OpensAt(s, i)
      ensures !ClosesAt(s, j)
    {
      Shift(s, cut, SOI, i);
      Shift(s, cut, EOI, j);
    }
  }

  lemma ConsLeftmost(s: seq<Byte>, cut: nat, first: Span, rest: seq<Span>, frames: seq<seq<Byte>>)
    requires FirstSpan(s, cut, first) && Leftmost(s, first.to, rest, frames)
    ensures Leftmost(s, cut, [first] + rest, [s[first.from..first.to]] + frames)
  {
    var spans, all := [first] + rest, [s[first.from..first.to]] + frames;
    assert spans[1..] == rest && all[1..] == frames;
  }

  lemma FirstFrame(s: seq<Byte>, cut: nat, first: Span)
    requires cut <= |s| && End(s[cut..]) >= 0
    requires first == Span(cut + Start(s[cut..]), cut + End(s[cut..])) && first.to <= |s|
    ensures Frames(s[cut..]) == [s[first.from..first.to]] + Frames(s[first.to..])
  {
    var u := s[cut..];
    assert u[End(u)..] == s[first.to..] && u[Start(u)..End(u)] == s[first.from..first.to];
  }

  /** The frames of a stream are exactly its leftmost start-to-first-end spans. */
  lemma {:induction false} FramesAreSpans(s: seq<Byte>, cut: nat) returns (spans: seq<Span>)
    requires cut <= |s|
    ensures Leftmost(s, cut, spans, Frames(s[cut..]))
    decreases |s| - cut
  {
    if End(s[cut..]) < 0 {
      NoEndNoFrame(s, cut);
      spans := [];
    } else {
      var first := Span(cut + Start(s[cut..]), cut + End(s[cut..]));
      EndIsFirstSpan(s, cut);
      FirstFrame(s, cut, first);
      var rest := FramesAreSpans(s, first.to);
      ConsLeftmost(s, cut, first, rest, Frames(s[first.to..]));
      spans := [first] + rest;
    }
  }

  // ---------- independence of the read boundaries ----------

  lemma FindAppend(s: seq<Byte>, t: seq<Byte>, code: Byte, from: nat)
    requires Find(s, code, from) >= 0
    ensures Find(s + t, code, from) == Find(s, code, from)
  {
    var i := Find(s, code, from);
    assert MarkerAt(s + t, code, i);
    forall k | from <= k < i
      ensures !MarkerAt(s + t, code, k)
    {
      assert !MarkerAt(s, code, k);
    }
  }

  lemma FindDrop(s: seq<Byte>, code: Byte, drop: nat, from: nat)
    requires drop <= |s|
    ensures Find(s[drop..], code, from) ==
            if Find(s, code, from + drop) < 0 then -1 else Find(s, code, from + drop) - drop
    decreases |s| - from
  {
    var u := s[drop..];
    if from + 1 < |u| {
      assert MarkerAt(u, code, from) == MarkerAt(s, code, from + drop);
      if !MarkerAt(u, code, from) {
        FindDrop(s, code, drop, from + 1);
      }
    }
  }

  lemma NextFrames(s: seq<Byte>)
    requires End(s) >= 0
    ensures Frames(s) == [s[Start(s)..End(s)]] + Frames(s[End(s)..]) && Kept(s) == Kept(s[End(s)..])
  {}

  lemma NoFrames(s: seq<Byte>)
    requires End(s) < 0
    ensures Frames(s) == [] && Kept(s) == if Start(s) < 0 then s else s[Start(s)..]
  {}

  lemma NextParts(u: seq<Byte>, data: seq<Byte>, rest: seq<Byte>)
    requires End(u) >= 0 && u[Start(u)..End(u)] == data && u[End(u)..] == rest
    ensures Frames(u) == [data] + Frames(rest) && Kept(u) == Kept(rest)
  {
    NextFrames(u);
  }

  /** What follows the first start marker, seen on its own. */
  lemma FromStart(s: seq<Byte>, u: seq<Byte>)
    requires Start(s) >= 0 && u == s[Start(s)..]
    ensures Start(u) == 0 && End(u) == if End(s) < 0 then -1 else End(s) - Start(s)
    ensures End(s) >= 0 ==> u[..End(u)] == s[Start(s)..End(s)] && u[End(u)..] == s[End(s)..]
  {
    FindDrop(s, SOI, Start(s), 0);
    FindDrop(s, EOI, Start(s), 2);
  }

  /** Bytes in front of the first start marker produce nothing. */
  lemma DropBeforeStart(s: seq<Byte>)
    requires Start(s) >= 0
    ensures Frames(s[Start(s)..]) == Frames(s)
  {
    SameFrames(s, s[Start(s)..]);
  }

  lemma SameFrames(s: seq<Byte>, u: seq<Byte>)
    requires Start(s) >= 0 && u == s[Start(s)..]
    ensures Frames(u) == Frames(s)
  {
    FromStart(s, u);
    if End(s) >= 0 {
      NextFrames(s);
      NextParts(u, s[Start(s)..End(s)], s[End(s)..]);
    } else {
      NoFrames(s);
      NoFrames(u);
    }
  }

  lemma UnfinishedThenMore(s: seq<Byte>, t: seq<Byte>)
    requires Start(s) >= 0 && End(s) < 0
    ensures Frames(s + t) == Frames(s[Start(s)..] + t)
  {
    FindAppend(s, t, SOI, 0);
    DropBeforeStart(s + t);
    assert (s + t)[Start(s)..] == s[Start(s)..] + t;
  }

  lemma EndAppend(s: seq<Byte>, t: seq<Byte>)
    requires End(s) >= 0
    ensures Start(s + t) == Start(s) && End(s + t) == End(s)
  {
    FindAppend(s, t, SOI, 0);
    FindAppend(s, t, EOI, Start(s) + 2);
  }

  lemma FrameThenMore(s: seq<Byte>, t: seq<Byte>)
    requires End(s) >= 0
    ensures Frames(s + t) == [s[Start(s)..End(s)]] + Frames(s[End(s)..] + t)
  {
    EndAppend(s, t);
    NextFrames(s + t);
    assert (s + t)[End(s)..] == s[End(s)..] + t && (s + t)[Start(s)..End(s)] == s[Start(s)..End(s)];
  }

  /** Later bytes mean the same whether or not earlier frames were already cut out. */
  lemma {:induction false} FramesThenMore(s: seq<Byte>, t: seq<Byte>)
    ensures Frames(s + t) == Frames(s) + Frames(Kept(s) + t)
    decreases |s|
  {
    if End(s) >= 0 {
      FrameThenMore(s, t);
      NextFrames(s);
      FramesThenMore(s[End(s)..], t);
    } else {
      NoFrames(s);
      if Start(s) >= 0 {
        UnfinishedThenMore(s, t);
      }
    }
  }

  lemma {:induction false} KeptIsQuiet(s: seq<Byte>)
    ensures Frames(Kept(s)) == [] && Kept(Kept(s)) == Kept(s) && |Kept(s)| <= |s|
    decreases |s|
  {
    if Start(s) >= 0 {
      if End(s) < 0 {
        DropBeforeStart(s);
        FindDrop(s, SOI, Start(s), 0);
        FindDrop(s, EOI, Start(s), 2);
        assert s[Start(s)..][0..] == s[Start(s)..];
      } else {
        KeptIsQuiet(s[End(s)..]);
      }
    }
  }

  lemma {:induction false} KeptIsSuffix(s: seq<Byte>) returns (k: nat)
    ensures k <= |s| && Kept(s) == s[k..]
    decreases |s|
  {
    if Start(s) < 0 {
      k := 0;
    } else if End(s) < 0 {
      k := Start(s);
    } else {
      k := KeptIsSuffix(s[End(s)..]);
      assert s[End(s)..][k..] == s[End(s) + k..];
      k := End(s) + k;
    }
  }

  /** What is left after cutting out frames stays in the buffer as it is up to 2,000,000 bytes; beyond
      that exactly the last two bytes received stay. */
  lemma ResidueMeans(s: seq<Byte>)
    ensures |Kept(s)| <= 2_000_000 ==> Residue(s) == Kept(s)
    ensures |Kept(s)| > 2_000_000 ==> |s| >= 2 && Residue(s) == s[|s| - 2..]
  {
    var k := KeptIsSuffix(s);
    if |Kept(s)| > 2_000_000 {
      assert s[k..][|s| - k - 2..] == s[|s| - 2..];
    }
  }

  // ---------- reading ----------

  /** The frames found when the reads are appended to the buffer one by one. */
  function Read(buffer: seq<Byte>, chunks: seq<seq<Byte>>): seq<seq<Byte>>
    decreases |chunks|
  {
    if chunks == [] then []
    else Frames(buffer + chunks[0]) + Read(Residue(buffer + chunks[0]), chunks[1..])
  }

  /** The unfinished frame never outgrows the buffer while these reads arrive. */
  predicate WithinLimit(buffer: seq<Byte>, chunks: seq<seq<Byte>>)
    decreases |chunks|
  {
    chunks == [] ||
    (|Kept(buffer + chunks[0])| <= MAX_BUFFER_BYTES && WithinLimit(Kept(buffer + chunks[0]), chunks[1..]))
  }

  lemma FirstRead(buffer: seq<Byte>, chunks: seq<seq<Byte>>)
    requires chunks != [] && |Kept(buffer + chunks[0])| <= MAX_BUFFER_BYTES
    ensures Read(buffer, chunks) == Frames(buffer + chunks[0]) + Read(Kept(buffer + chunks[0]), chunks[1..])
  {}

  lemma ConcatFirst(buffer: seq<Byte>, chunks: seq<seq<Byte>>)
    requires chunks != []
    ensures buffer + Concat(chunks) == buffer + chunks[0] + Concat(chunks[1..])
  {}

  /** While the buffer stays within its limit, the frames do not depend on how the stream was cut
      into reads: they are those of the stream seen as a whole. */
  lemma {:induction false} ChunkInvariance(buffer: seq<Byte>, chunks: seq<seq<Byte>>)
    requires Frames(buffer) == [] && WithinLimit(buffer, chunks)
    ensures Read(buffer, chunks) == Frames(buffer + Concat(chunks))
    decreases |chunks|
  {
    if chunks == [] {
      assert buffer + Concat(chunks) == buffer;
    } else {
      var filled, rest := buffer + chunks[0], chunks[1..];
      KeptIsQuiet(filled);
      ChunkInvariance(Kept(filled), rest);
      Rejoin(buffer, chunks);
    }
  }

  lemma Rejoin(buffer: seq<Byte>, chunks: seq<seq<Byte>>)
    requires chunks != [] && |Kept(buffer + chunks[0])| <= MAX_BUFFER_BYTES
    requires Read(Kept(buffer + chunks[0]), chunks[1..]) == Frames(Kept(buffer + chunks[0]) + Concat(chunks[1..]))
    ensures Read(buffer, chunks) == Frames(buffer + Concat(chunks))
  {
    FirstRead(buffer, chunks);
    ConcatFirst(buffer, chunks);
    FramesThenMore(buffer + chunks[0], Concat(chunks[1..]));
  }

  // ---------- the reader ----------

  datatype CapturedJpeg = CapturedJpeg(sequence: nat, data: seq<Byte>)

  /** The frames with consecutive numbers behind the given one. */
  function Numbered(sequence: nat, frames: seq<seq<Byte>>): (captured: seq<CapturedJpeg>)
    ensures |captured| == |frames|
  {
    if frames == [] then []
    else
      var n := |frames| - 1;
      Numbered(sequence, frames[..n]) + [CapturedJpeg(sequence + n + 1, frames[n])]
  }

  lemma {:induction false} NumberedConsecutively(n: nat, frames: seq<seq<Byte>>, k: nat)
    requires k < |frames|
    ensures Numbered(n, frames)[k] == CapturedJpeg(n + 1 + k, frames[k])
    decreases |frames|
  {
    if k < |frames| - 1 {
      NumberedConsecutively(n, frames[..|frames| - 1], k);
    }
  }

  lemma NumberedOne(n: nat, a: seq<seq<Byte>>, data: seq<Byte>)
    ensures Numbered(n, a + [data]) == Numbered(n, a) + [CapturedJpeg(n + |a| + 1, data)]
  {
    assert (a + [data])[..|a|] == a;
  }

  lemma {:induction false} NumberedAppend(n: nat, a: seq<seq<Byte>>, b: seq<seq<Byte>>)
    ensures Numbered(n, a + b) == Numbered(n, a) + Numbered(n + |a|, b)
    decreases |b|
  {
    if b == [] {
      assert a + b == a;
    } else {
      var last := |b| - 1;
      NumberedAppend(n, a, b[..last]);
      assert a + b == (a + b[..last]) + [b[last]];
      NumberedOne(n, a + b[..last], b[last]);
    }
  }

  /** The reads before the stream ends. */
  function Reads(chunks: seq<seq<Byte>>): seq<seq<Byte>> {
    if chunks == [] || chunks[0] == [] then [] else [chunks[0]] + Reads(chunks[1..])
  }

  lemma NextRead(buffer: seq<Byte>, chunks: seq<seq<Byte>>)
    requires chunks != [] && chunks[0] != []
    ensures Read(buffer, Reads(chunks)) ==
            Frames(buffer + chunks[0]) + Read(Residue(buffer + chunks[0]), Reads(chunks[1..]))
  {
    assert Reads(chunks)[1..] == Reads(chunks[1..]);
  }

  /** What has been cut out of a filled buffer so far, and what is still in it. */
  ghost predicate Cutting(filled: seq<Byte>, cut: seq<seq<Byte>>, buffer: seq<Byte>) {
    Frames(filled) == cut + Frames(buffer) && Kept(filled) == Kept(buffer)
  }

  lemma CutStep(filled: seq<Byte>, cut: seq<seq<Byte>>, buffer: seq<Byte>, start: nat, end: nat)
    requires Cutting(filled, cut, buffer) && start == Find(buffer, SOI, 0) && end == Find(buffer, EOI, start + 2)
    ensures Cutting(filled, cut + [buffer[start..end + 2]], buffer[end + 2..])
  {
    var data, rest := buffer[start..end + 2], buffer[end + 2..];
    NextFrames(buffer);
    Regrouped(cut, data, Frames(rest));
  }

  lemma Regrouped<T>(cut: seq<T>, x: T, rest: seq<T>)
    ensures cut + ([x] + rest) == cut + [x] + rest
  {}

  lemma CutEnds(filled: seq<Byte>, cut: seq<seq<Byte>>, buffer: seq<Byte>)
    requires Cutting(filled, cut, buffer) && End(buffer) < 0
    ensures Frames(filled) == cut
    ensures Residue(filled) == Trimmed(if Start(buffer) < 0 then buffer else buffer[Start(buffer)..])
  {
    NoFrames(buffer);
    assert cut + [] == cut;
  }

  /** The frames delivered before, then these. */
  function Delivered(before: seq<CapturedJpeg>, n: nat, frames: seq<seq<Byte>>): seq<CapturedJpeg> {
    before + Numbered(n, frames)
  }

  lemma DeliverOne(before: seq<CapturedJpeg>, n: nat, frames: seq<seq<Byte>>, data: seq<Byte>)
    ensures Delivered(before, n, frames + [data]) ==
            Delivered(before, n, frames) + [CapturedJpeg(n + |frames| + 1, data)]
  {
    NumberedOne(n, frames, data);
  }

  lemma DeliverMore(before: seq<CapturedJpeg>, n: nat, frames: seq<seq<Byte>>, more: seq<seq<Byte>>)
    ensures Delivered(before, n, frames + more) == Delivered(Delivered(before, n, frames), n + |frames|, more)
  {
    NumberedAppend(n, frames, more);
  }

  class LatestJpegSource {
    var sequence: nat
    var frame: Option<CapturedJpeg>
    ghost var delivered: seq<CapturedJpeg>   // every frame handed to the callback, in order

    constructor ()
      ensures sequence == 0 && frame == None && delivered == []
    {
      sequence, frame, delivered := 0, None, [];
    }

    method Capture(data: seq<Byte>)
      modifies this
      ensures sequence == old(sequence) + 1 && frame == Some(CapturedJpeg(sequence, data))
      ensures delivered == old(delivered) + [CapturedJpeg(sequence, data)]
    {
      var captured := CapturedJpeg(sequence + 1, data);
      sequence := sequence + 1;
      frame := Some(captured);
      delivered := delivered + [captured];
    }

    /** Cut every complete frame out of the buffer and return what is kept of it. */
    method Extract(filled: seq<Byte>) returns (buffer: seq<Byte>)
      modifies this
      ensures buffer == Residue(filled)
      ensures delivered == Delivered(old(delivered), old(sequence), Frames(filled))
      ensures sequence == old(sequence) + |Frames(filled)|
      ensures frame == if Frames(filled) == [] then old(frame) else Some(delivered[|delivered| - 1])
    {
      buffer := filled;
      ghost var cut: seq<seq<Byte>>, before, n := [], delivered, sequence;
      while true
        invariant Cutting(filled, cut, buffer)
        invariant delivered == Delivered(before, n, cut) && sequence == n + |cut|
        invariant frame == if cut == [] then old(frame) else Some(delivered[|delivered| - 1])
        decreases |buffer|
      {
        var start := Find(buffer, SOI, 0);
        if start < 0 {
          CutEnds(filled, cut, buffer);
          buffer := Trimmed(buffer);
          return;
        }
        var end := Find(buffer, EOI, start + 2);
        if end < 0 {
          CutEnds(filled, cut, buffer);
          buffer := Trimmed(buffer[start..]);
          return;
        }
        var data := buffer[start..end + 2];
        CutStep(filled, cut, buffer, start, end);
        DeliverOne(before, n, cut, data);
        buffer := buffer[end + 2..];
        Capture(data);
        cut := cut + [data];
      }
    }

    method ReadOne(chunks: seq<seq<Byte>>, k: nat, buffer: seq<Byte>,
                   ghost before: seq<CapturedJpeg>, ghost n: nat, ghost found: seq<seq<Byte>>)
      returns (rest: seq<Byte>, ghost found': seq<seq<Byte>>)
      requires k < |chunks| && chunks[k] != [] && Reading(chunks, k, buffer, found)
      requires delivered == Delivered(before, n, found) && sequence == n + |found|
      modifies this
      ensures |rest| <= MAX_BUFFER_BYTES && Reading(chunks, k + 1, rest, found')
      ensures delivered == Delivered(before, n, found') && sequence == n + |found'|
    {
      ReadingStep(chunks, k, buffer, found);
      DeliverMore(before, n, found, Frames(buffer + chunks[k]));
      found' := found + Frames(buffer + chunks[k]);
      rest := Extract(buffer + chunks[k]);
    }

    /** The reader thread over the reads of one connection; an empty read ends the stream. Every
        frame is delivered with the next number, and the buffer is bounded after each read. */
    method ReadStream(chunks: seq<seq<Byte>>) returns (buffer: seq<Byte>)
      modifies this
      ensures |buffer| <= MAX_BUFFER_BYTES
      ensures delivered == Delivered(old(delivered), old(sequence), Read([], Reads(chunks)))
      ensures sequence == old(sequence) + |Read([], Reads(chunks))|
    {
      buffer := [];
      ghost var found: seq<seq<Byte>>, before, n := [], delivered, sequence;
      var k := 0;
      while k < |chunks| && chunks[k] != []
        invariant k <= |chunks| && |buffer| <= MAX_BUFFER_BYTES
        invariant Reading(chunks, k, buffer, found)
        invariant delivered == Delivered(before, n, found) && sequence == n + |found|
      {
        buffer, found := ReadOne(chunks, k, buffer, before, n, found);
        k := k + 1;
      }
      ReadingEnds(chunks, k, buffer, found);
    }
  }

  /** The first k reads are behind the reader, with these frames found. */
  ghost predicate Reading(chunks: seq<seq<Byte>>, k: nat, buffer: seq<Byte>, found: seq<seq<Byte>>)
    requires k <= |chunks|
  {
    Read([], Reads(chunks)) == found + Read(buffer, Reads(chunks[k..]))
  }

  lemma ReadingStep(chunks: seq<seq<Byte>>, k: nat, buffer: seq<Byte>, found: seq<seq<Byte>>)
    requires k < |chunks| && chunks[k] != [] && Reading(chunks, k, buffer, found)
    ensures Reading(chunks, k + 1, Residue(buffer + chunks[k]), found + Frames(buffer + chunks[k]))
  {
    NextRead(buffer, chunks[k..]);
    assert chunks[k..][1..] == chunks[k + 1..];
  }

  lemma ReadingEnds(chunks: seq<seq<Byte>>, k: nat, buffer: seq<Byte>, found: seq<seq<Byte>>)
    requires k <= |chunks| && (k < |chunks| ==> chunks[k] == []) && Reading(chunks, k, buffer, found)
    ensures Read([], Reads(chunks)) == found
  {
    assert Reads(chunks[k..]) == [] && found + [] == found;
  }
}
