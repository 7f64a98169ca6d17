/** How a byte stream from the UART decomposes into frames and parse errors.

    Scan is the reference meaning of a stream, one byte at a time.  Residue is
    what the bridge keeps in its receive buffer.  The two are tied together by
    ScanResidue, which makes the outcome independent of how reads are cut.  The
    test that accepts a complete frame is a parameter of the scan. */
module TelemetryStream {
  import opened Common
  import opened Crc16
  import opened TelemetryFrame

  datatype Event =
    | LengthError
    | CrcError
    | Handled(frame: seq<Byte>)

  /** Decides whether a complete frame is handled. */
  type Test = seq<Byte> -> bool

  predicate MagicAt(s: seq<Byte>, i: int) {
    0 <= i && i + 1 < |s| && s[i] == MAGIC_0 && s[i + 1] == MAGIC_1
  }

  function Scan(accept: Test, s: seq<Byte>): seq<Event>
    decreases |s|
  {
    if |s| < 4 then []
    else if !MagicAt(s, 0) then Scan(accept, s[1..])
    else if s[3] != LENGTH then [LengthError] + Scan(accept, s[1..])
    else if |s| < LENGTH then []
    else [Verdict(accept, s[..LENGTH])] + Scan(accept, s[LENGTH..])
  }

  function Verdict(accept: Test, f: seq<Byte>): Event {
    if accept(f) then Handled(f) else CrcError
  }

  /** The bridge's test of a complete frame. */
  predicate CrcTest(f: seq<Byte>) {
    |f| == LENGTH && StoredCrcMatches(f)
  }

  /** bytearray.find for the two magic bytes. */
  function FindMagic(s: seq<Byte>): (i: int)
    ensures -1 <= i < |s|
    ensures i >= 0 ==> MagicAt(s, i) && forall k :: 0 <= k < i ==> !MagicAt(s, k)
    ensures i < 0 ==> forall k :: 0 <= k < |s| ==> !MagicAt(s, k)
    decreases |s|
  {
    if |s| < 2 then -1
    else if MagicAt(s, 0) then 0
    else
      var i := FindMagic(s[1..]);
      assert forall k :: 0 < k < |s| ==> MagicAt(s, k) == MagicAt(s[1..], k - 1);
      if i < 0 then -1 else i + 1
  }

  /** A possible first magic byte split across reads is retained. */
  function KeepSplitMagic(s: seq<Byte>): (r: seq<Byte>)
    requires s != []
  {
    if s[|s| - 1] == MAGIC_0 then [MAGIC_0] else []
  }

  /** The bytes left in the receive buffer once the extraction loop returns. */
  function Residue(s: seq<Byte>): (r: seq<Byte>)
    ensures |r| < LENGTH
    decreases |s|
  {
    if |s| < 4 then s
    else
      var i := FindMagic(s);
      if i < 0 then KeepSplitMagic(s)
      else
        var u := s[i..];
        if |u| < 4 then u
        else if u[3] != LENGTH then Residue(u[1..])
        else if |u| < LENGTH then u
        else Residue(u[LENGTH..])
  }

  // ---------- independence of the read boundaries ----------

  /** Bytes in front of the first possible frame start produce nothing. */
  lemma {:induction false} ScanSkips(accept: Test, s: seq<Byte>, k: nat)
    requires k <= |s| && forall i :: 0 <= i < k ==> !MagicAt(s, i)
    ensures Scan(accept, s) == Scan(accept, s[k..])
    decreases |s|
  {
    if k > 0 && |s| >= 4 {
      assert forall i :: 0 <= i < k - 1 ==> MagicAt(s[1..], i) == MagicAt(s, i + 1);
      ScanSkips(accept, s[1..], k - 1);
      assert s[1..][k - 1..] == s[k..];
    }
  }

  lemma SkipBeforeAppended(accept: Test, s: seq<Byte>, t: seq<Byte>, k: nat)
    requires k <= |s| && (forall i :: 0 <= i < k ==> !MagicAt(s, i))
    requires k == |s| > 0 ==> s[|s| - 1] != MAGIC_0
    ensures Scan(accept, s + t) == Scan(accept, s[k..] + t)
  {
    forall i | 0 <= i < k
      ensures !MagicAt(s + t, i)
    {
      assert !MagicAt(s, i);
    }
    ScanSkips(accept, s + t, k);
    assert (s + t)[k..] == s[k..] + t;
  }

  lemma ScanFrame(accept: Test, f: seq<Byte>, rest: seq<Byte>)
    requires |f| == LENGTH && MagicAt(f, 0) && f[3] == LENGTH
    ensures Scan(accept, f + rest) == [Verdict(accept, f)] + Scan(accept, rest)
  {
    var u := f + rest;
    assert u[0] == f[0] && u[1] == f[1] && u[3] == f[3];
    assert u[..LENGTH] == f && u[LENGTH..] == rest;
  }

  lemma ScanLengthError(accept: Test, u: seq<Byte>, t: seq<Byte>)
    requires |u| >= 4 && MagicAt(u, 0) && u[3] != LENGTH
    ensures Scan(accept, u + t) == [LengthError] + Scan(accept, u[1..] + t)
  {
    assert (u + t)[1..] == u[1..] + t;
  }

  // The three ways a buffer that starts with the magic bytes can go on.

  lemma FirstLengthError(accept: Test, u: seq<Byte>)
    requires |u| >= 4 && MagicAt(u, 0) && u[3] != LENGTH
    ensures Scan(accept, u) == [LengthError] + Scan(accept, u[1..]) && ResidueAtMagic(u) == Residue(u[1..])
  {}

  lemma PendingFrame(accept: Test, u: seq<Byte>)
    requires 4 <= |u| < LENGTH && MagicAt(u, 0) && u[3] == LENGTH
    ensures Scan(accept, u) == [] && ResidueAtMagic(u) == u
  {}

  lemma FirstFrame(accept: Test, u: seq<Byte>)
    requires |u| >= LENGTH && MagicAt(u, 0) && u[3] == LENGTH
    ensures Scan(accept, u) == [Verdict(accept, u[..LENGTH])] + Scan(accept, u[LENGTH..])
    ensures ResidueAtMagic(u) == Residue(u[LENGTH..])
  {}

  /** Later bytes are interpreted the same whether or not earlier ones were already consumed. */
  lemma {:induction false} ScanResidue(accept: Test, s: seq<Byte>, t: seq<Byte>)
    ensures Scan(accept, s + t) == Scan(accept, s) + Scan(accept, Residue(s) + t)
    decreases |s|, 1
  {
    if |s| < 4 {
      assert Scan(accept, s) == [];
    } else {
      var i := FindMagic(s);
      if i < 0 {
        ScanSkips(accept, s, |s|);
        NoMagicResidue(accept, s, t);
      } else {
        ScanSkips(accept, s, i);
        SkipBeforeAppended(accept, s, t, i);
        ResidueFromMagic(s);
        ScanResidueAtMagic(accept, s[i..], t);
      }
    }
  }

  /** The residue of a buffer that starts with the magic bytes. */
  function ResidueAtMagic(u: seq<Byte>): seq<Byte> {
    if |u| < 4 then u
    else if u[3] != LENGTH then Residue(u[1..])
    else if |u| < LENGTH then u
    else Residue(u[LENGTH..])
  }

  lemma ResidueFromMagic(s: seq<Byte>)
    requires |s| >= 4 && FindMagic(s) >= 0
    ensures Residue(s) == ResidueAtMagic(s[FindMagic(s)..])
  {}

  lemma LengthErrorThenResidue(accept: Test, u: seq<Byte>, t: seq<Byte>, later: seq<Event>)
    requires |u| >= 4 && MagicAt(u, 0) && u[3] != LENGTH
    requires Scan(accept, u[1..] + t) == Scan(accept, u[1..]) + later
    ensures Scan(accept, u + t) == Scan(accept, u) + later
  {
    ScanLengthError(accept, u, t);
    ScanLengthError(accept, u, []);
    assert u + [] == u && u[1..] + [] == u[1..];
  }

  lemma FrameThenResidue(accept: Test, f: seq<Byte>, v: seq<Byte>, t: seq<Byte>, later: seq<Event>)
    requires |f| == LENGTH && MagicAt(f, 0) && f[3] == LENGTH
    requires Scan(accept, v + t) == Scan(accept, v) + later
    ensures Scan(accept, f + v + t) == Scan(accept, f + v) + later
  {
    assert f + v + t == f + (v + t);
    ScanFrame(accept, f, v);
    ScanFrame(accept, f, v + t);
  }

  lemma {:induction false} ScanResidueAtMagic(accept: Test, u: seq<Byte>, t: seq<Byte>)
    requires MagicAt(u, 0)
    ensures Scan(accept, u + t) == Scan(accept, u) + Scan(accept, ResidueAtMagic(u) + t)
    decreases |u|, 0
  {
    if |u| < 4 {
      ShortScan(accept, u);
    } else if u[3] != LENGTH {
      ScanResidue(accept, u[1..], t);
      LengthErrorThenResidue(accept, u, t, Scan(accept, Residue(u[1..]) + t));
    } else if |u| < LENGTH {
    } else {
      var f, v := u[..LENGTH], u[LENGTH..];
      assert u == f + v;
      ScanResidue(accept, v, t);
      FrameThenResidue(accept, f, v, t, Scan(accept, Residue(v) + t));
    }
  }

  lemma NoMagicResidue(accept: Test, s: seq<Byte>, t: seq<Byte>)
    requires |s| >= 4 && FindMagic(s) < 0
    ensures Scan(accept, s + t) == Scan(accept, KeepSplitMagic(s) + t)
  {
    var k := if s[|s| - 1] == MAGIC_0 then |s| - 1 else |s|;
    SkipBeforeAppended(accept, s, t, k);
    assert s[k..] == KeepSplitMagic(s);
  }

  datatype Outcome = Outcome(events: seq<Event>, buffer: seq<Byte>)

  /** The reader thread: append each read to the buffer and extract. */
  function Read(accept: Test, buffer: seq<Byte>, chunks: seq<seq<Byte>>): Outcome
    decreases |chunks|
  {
    if chunks == [] then Outcome([], buffer)
    else
      var filled := buffer + chunks[0];
      var rest := Read(accept, Residue(filled), chunks[1..]);
      Outcome(Scan(accept, filled) + rest.events, rest.buffer)
  }

  /** The events that reads yield, for any way of scanning and extracting. */
  function Found(
      scan: seq<Byte> -> seq<Event>, residue: seq<Byte> -> seq<Byte>, buffer: seq<Byte>, chunks: seq<seq<Byte>>)
    : seq<Event>
    decreases |chunks|
  {
    if chunks == [] then []
    else scan(buffer + chunks[0]) + Found(scan, residue, residue(buffer + chunks[0]), chunks[1..])
  }

  lemma {:induction false} ReadFinds(accept: Test, buffer: seq<Byte>, chunks: seq<seq<Byte>>)
    requires |buffer| < LENGTH
    ensures Read(accept, buffer, chunks).events == Found(s => Scan(accept, s), s => Residue(s), buffer, chunks)
    ensures |Read(accept, buffer, chunks).buffer| < LENGTH
    decreases |chunks|
  {
    if chunks != [] {
      ReadFinds(accept, Residue(buffer + chunks[0]), chunks[1..]);
    }
  }

  lemma ConcatFirst(buffer: seq<Byte>, chunks: seq<seq<Byte>>)
    requires chunks != []
    ensures buffer + Concat(chunks) == buffer + chunks[0] + Concat(chunks[1..])
  {}

  /** Later bytes scan the same whether or not the first ones were extracted. */
  ghost predicate ScansAt(
      scan: seq<Byte> -> seq<Event>, residue: seq<Byte> -> seq<Byte>, s: seq<Byte>, t: seq<Byte>) {
    scan(s + t) == scan(s) + scan(residue(s) + t)
  }

  lemma {:induction false} FoundWhole(
      scan: seq<Byte> -> seq<Event>, residue: seq<Byte> -> seq<Byte>, buffer: seq<Byte>, chunks: seq<seq<Byte>>)
    requires (forall s, t :: ScansAt(scan, residue, s, t)) && scan(buffer) == []
    ensures Found(scan, residue, buffer, chunks) == scan(buffer + Concat(chunks))
    decreases |chunks|
  {
    if chunks == [] {
      assert buffer + Concat(chunks) == buffer;
    } else {
      var filled := buffer + chunks[0];
      assert ScansAt(scan, residue, filled, []) && ScansAt(scan, residue, filled, Concat(chunks[1..]));
      assert filled + [] == filled && residue(filled) + [] == residue(filled);
      FoundWhole(scan, residue, residue(filled), chunks[1..]);
      ConcatFirst(buffer, chunks);
    }
  }

  /** However a stream is cut into reads, the handled frames and parse errors, in their
      order, are those of the stream scanned at once, and less than one frame stays behind. */
  lemma ChunkInvariance(accept: Test, buffer: seq<Byte>, chunks: seq<seq<Byte>>)
    requires |buffer| < LENGTH && Scan(accept, buffer) == []
    ensures Read(accept, buffer, chunks).events == Scan(accept, buffer + Concat(chunks))
    ensures |Read(accept, buffer, chunks).buffer| < LENGTH
  {
    var scan, residue := (s: seq<Byte>) => Scan(accept, s), (s: seq<Byte>) => Residue(s);
    forall s, t
      ensures ScansAt(scan, residue, s, t)
    {
      ScanResidue(accept, s, t);
    }
    FoundWhole(scan, residue, buffer, chunks);
    ReadFinds(accept, buffer, chunks);
  }

  lemma ShortScan(accept: Test, s: seq<Byte>)
    requires |s| < 4
    ensures Scan(accept, s) == []
  {}

  /** Nothing complete is ever left in the buffer. */
  lemma {:induction false} ResidueIsQuiet(accept: Test, s: seq<Byte>)
    ensures Scan(accept, Residue(s)) == []
    decreases |s|, 1
  {
    if |s| < 4 || FindMagic(s) < 0 {
      ShortScan(accept, Residue(s));
    } else {
      ResidueFromMagic(s);
      ResidueAtMagicIsQuiet(accept, s[FindMagic(s)..]);
    }
  }

  lemma {:induction false} ResidueAtMagicIsQuiet(accept: Test, u: seq<Byte>)
    requires MagicAt(u, 0)
    ensures Scan(accept, ResidueAtMagic(u)) == []
    decreases |u|, 0
  {
    if |u| < 4 {
      ShortScan(accept, u);
    } else if u[3] != LENGTH {
      ResidueIsQuiet(accept, u[1..]);
    } else if |u| >= LENGTH {
      ResidueIsQuiet(accept, u[LENGTH..]);
    }
  }

  // ---------- what a stream of packets and line noise means ----------

  datatype Packet =
    | Intact(bytes: seq<Byte>)
    | Damaged(bytes: seq<Byte>, sent: seq<Byte>, from: nat)

  /** A damaged packet is a frame whose bytes 4..41 suffered a burst of at most 16 bits. */
  ghost predicate ValidPacket(p: Packet) {
    match p
    case Intact(f) => IsFrame(f)
    case Damaged(g, f, from) =>
      && IsFrame(f) && |g| == LENGTH && g[..4] == f[..4] && g[42..] == f[42..]
      && IsBurst(Difference(BitsOf(f[..42]), BitsOf(g[..42])), from)
  }

  /** Noise may contain anything but the two magic bytes in a row. */
  ghost predicate IsNoise(s: seq<Byte>) {
    forall i :: 0 <= i < |s| ==> !MagicAt(s, i)
  }

  datatype Segment = Segment(noise: seq<Byte>, packet: Packet)

  ghost predicate ValidSegments(segments: seq<Segment>) {
    forall k :: 0 <= k < |segments| ==> IsNoise(segments[k].noise) && ValidPacket(segments[k].packet)
  }

  function Wire(segments: seq<Segment>, tail: seq<Byte>): seq<Byte> {
    if segments == [] then tail
    else segments[0].noise + segments[0].packet.bytes + Wire(segments[1..], tail)
  }

  /** An intact packet is handled; a damaged one is one CRC error. */
  function Meaning(p: Packet): Event {
    if p.Intact? then Handled(p.bytes) else CrcError
  }

  function Expected(segments: seq<Segment>): (es: seq<Event>)
    ensures |es| == |segments|
    ensures forall k :: 0 <= k < |segments| ==> es[k] == Meaning(segments[k].packet)
  {
    if segments == [] then [] else [Meaning(segments[0].packet)] + Expected(segments[1..])
  }

  lemma NoiseThenPacket(accept: Test, noise: seq<Byte>, rest: seq<Byte>)
    requires IsNoise(noise) && |rest| >= 2 && rest[0] == MAGIC_0
    ensures Scan(accept, noise + rest) == Scan(accept, rest)
  {
    forall i | 0 <= i < |noise|
      ensures !MagicAt(noise + rest, i)
    {
      assert !MagicAt(noise, i);
    }
    ScanSkips(accept, noise + rest, |noise|);
    assert (noise + rest)[|noise|..] == rest;
  }

  lemma PacketVerdict(p: Packet)
    requires ValidPacket(p)
    ensures |p.bytes| == LENGTH && MagicAt(p.bytes, 0) && p.bytes[3] == LENGTH
    ensures Verdict(CrcTest, p.bytes) == Meaning(p)
  {
    if p.Damaged? {
      assert forall i :: 0 <= i < 4 ==> p.bytes[i] == p.bytes[..4][i] == p.sent[..4][i] == p.sent[i];
      DamagedPayloadIsRejected(p.sent, p.bytes, p.from);
    }
  }

  lemma OneSegment(noise: seq<Byte>, packet: Packet, later: seq<Byte>)
    requires IsNoise(noise) && ValidPacket(packet)
    ensures Scan(CrcTest, noise + packet.bytes + later) == [Meaning(packet)] + Scan(CrcTest, later)
  {
    PacketVerdict(packet);
    NoiseThenPacket(CrcTest, noise, packet.bytes + later);
    assert noise + packet.bytes + later == noise + (packet.bytes + later);
    ScanFrame(CrcTest, packet.bytes, later);
  }

  /** Corruption isolation: every intact frame is handled, in order, and every damaged one
      costs exactly itself and one parse error, with line noise in between. */
  lemma {:induction false} WireMeaning(segments: seq<Segment>, tail: seq<Byte>)
    requires ValidSegments(segments) && IsNoise(tail)
    ensures Scan(CrcTest, Wire(segments, tail)) == Expected(segments)
    decreases |segments|
  {
    if segments == [] {
      ScanSkips(CrcTest, tail, |tail|);
    } else {
      WireMeaning(segments[1..], tail);
      OneSegment(segments[0].noise, segments[0].packet, Wire(segments[1..], tail));
    }
  }

  // ---------- round trip ----------

  function Records(events: seq<Event>): seq<Record>
    requires forall e :: e in events && e.Handled? ==> |e.frame| == LENGTH
  {
    if events == [] then []
    else if events[0].Handled? then [Unpack(events[0].frame)] + Records(events[1..])
    else Records(events[1..])
  }

  /** Packets carrying the given records, each behind some noise. */
  function Transmission(noises: seq<seq<Byte>>, records: seq<Record>): (segments: seq<Segment>)
    requires |noises| == |records|
    ensures |segments| == |records|
    ensures forall k :: 0 <= k < |records| ==> segments[k] == Segment(noises[k], Intact(Pack(records[k])))
  {
    seq(|records|, k requires 0 <= k < |records| => Segment(noises[k], Intact(Pack(records[k]))))
  }

  /** Records packed into frames, buried in noise and delivered in any chunks are decoded to
      exactly those records, in order, and no parse error is counted. */
  lemma RoundTrip(noises: seq<seq<Byte>>, tail: seq<Byte>, records: seq<Record>, chunks: seq<seq<Byte>>)
    requires |noises| == |records|
    requires (forall k :: 0 <= k < |noises| ==> IsNoise(noises[k])) && IsNoise(tail)
    requires Concat(chunks) == Wire(Transmission(noises, records), tail)
    ensures var events := Read(CrcTest, [], chunks).events;
      && (forall e :: e in events ==> e.Handled? && IsFrame(e.frame) && e.frame[2] == VERSION)
      && Records(events) == records
  {
    var segments := Transmission(noises, records);
    WireMeaning(segments, tail);
    ChunkInvariance(CrcTest, [], chunks);
    assert [] + Concat(chunks) == Concat(chunks);
    DecodeAll(noises, records);
  }

  ghost predicate Carries(e: Event, r: Record) {
    e.Handled? && |e.frame| == LENGTH && Unpack(e.frame) == r
  }

  lemma DecodeAll(noises: seq<seq<Byte>>, records: seq<Record>)
    requires |noises| == |records|
    ensures var events := Expected(Transmission(noises, records));
      && (forall e :: e in events ==> e.Handled? && IsFrame(e.frame) && e.frame[2] == VERSION)
      && Records(events) == records
  {
    var events := Expected(Transmission(noises, records));
    forall k | 0 <= k < |records|
      ensures Carries(events[k], records[k])
    {
      PackUnpack(records[k]);
    }
    RecordsOf(events, records);
  }

  lemma {:induction false} RecordsOf(events: seq<Event>, records: seq<Record>)
    requires |events| == |records|
    requires forall k :: 0 <= k < |records| ==> Carries(events[k], records[k])
    ensures forall e :: e in events ==> e.Handled? && |e.frame| == LENGTH
    ensures Records(events) == records
    decreases |records|
  {
    if records != [] {
      assert Carries(events[0], records[0]);
      RecordsOf(events[1..], records[1..]);
    }
  }
}
