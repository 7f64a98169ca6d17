/** What the receive buffer holds between two reads (amr_base_driver/serial_bridge.py, lines 353-363
    and 519-544), for every way of cutting a stream into reads: which bytes may still become part
    of a frame, which buffers can be left at all, and when two cuts can leave different ones. */
module TelemetryResidue {
  import opened Common
  import opened TelemetryFrame
  import opened TelemetryStream

  /** The bytes that one read returns at most. */
  const MAX_READ := 4096

  /** The bytes that may still become part of a frame. */
  function Pending(s: seq<Byte>): seq<Byte> {
    if FindMagic(s) >= 0 then s[FindMagic(s)..] else if s == [] then [] else KeepSplitMagic(s)
  }

  /** What is pending once a buffer is extracted. */
  function PendingOf(s: seq<Byte>): seq<Byte> {
    Pending(Residue(s))
  }

  // ---------- what the scan leaves unconsumed ----------

  /** The bytes that the first event takes, with what stands in front of them; 0 without an event. */
  function Taken(s: seq<Byte>): (n: nat)
    ensures n <= |s|
  {
    var i := FindMagic(s);
    if i < 0 || |s| - i < 4 then 0
    else if s[i + 3] != LENGTH then i + 1
    else if |s| - i < LENGTH then 0
    else i + LENGTH
  }

  /** The bytes behind the last event. */
  function Tail(s: seq<Byte>): (t: seq<Byte>)
    ensures |t| <= |s|
    decreases |s|
  {
    if Taken(s) == 0 then s else Tail(s[Taken(s)..])
  }

  lemma ScanAtMagic(accept: Test, s: seq<Byte>)
    requires FindMagic(s) >= 0
    ensures Scan(accept, s) == Scan(accept, s[FindMagic(s)..])
  {
    ScanSkips(accept, s, FindMagic(s));
  }

  /** An event takes exactly these bytes off the scan. */
  lemma ScanTakes(accept: Test, s: seq<Byte>)
    ensures Taken(s) == 0 ==> Scan(accept, s) == []
    ensures Taken(s) > 0 ==> |Scan(accept, s)| == 1 + |Scan(accept, s[Taken(s)..])|
  {
    var i := FindMagic(s);
    if i < 0 {
      ScanSkips(accept, s, |s|);
    } else {
      var u := s[i..];
      ScanAtMagic(accept, s);
      if |u| < 4 {
        ShortScan(accept, u);
      } else if u[3] != LENGTH {
        FirstLengthError(accept, u);
        assert u[1..] == s[i + 1..];
      } else if |u| < LENGTH {
        PendingFrame(accept, u);
      } else {
        FirstFrame(accept, u);
        assert u[LENGTH..] == s[i + LENGTH..];
      }
    }
  }

  predicate IsSuffix(r: seq<Byte>, s: seq<Byte>) {
    |r| <= |s| && r == s[|s| - |r|..]
  }

  lemma SuffixOfDrop(r: seq<Byte>, s: seq<Byte>, k: nat)
    requires k <= |s| && IsSuffix(r, s[k..])
    ensures IsSuffix(r, s)
  {}

  /** The tail is the end of the stream, no event is in it, and it is the whole stream exactly when
      the stream has no event. */
  lemma {:induction false} TailIsUnscanned(accept: Test, s: seq<Byte>)
    ensures IsSuffix(Tail(s), s) && Taken(Tail(s)) == 0 && Scan(accept, Tail(s)) == []
    ensures Tail(s) == s <==> Scan(accept, s) == []
    decreases |s|
  {
    ScanTakes(accept, s);
    if Taken(s) > 0 {
      TailIsUnscanned(accept, s[Taken(s)..]);
      SuffixOfDrop(Tail(s), s, Taken(s));
    }
  }

  // ---------- more bytes ----------

  lemma FindMagicAppend(s: seq<Byte>, c: seq<Byte>)
    requires FindMagic(s) >= 0
    ensures FindMagic(s + c) == FindMagic(s)
  {
    var i := FindMagic(s);
    assert MagicAt(s + c, i);
    forall k | 0 <= k < i
      ensures !MagicAt(s + c, k)
    {
      assert !MagicAt(s, k);
    }
  }

  lemma TakenAppend(s: seq<Byte>, c: seq<Byte>)
    requires Taken(s) > 0
    ensures Taken(s + c) == Taken(s) && (s + c)[Taken(s)..] == s[Taken(s)..] + c
  {
    FindMagicAppend(s, c);
    assert (s + c)[FindMagic(s) + 3] == s[FindMagic(s) + 3];
  }

  /** Later bytes are consumed the same whether or not earlier events were already taken off. */
  lemma {:induction false} TailAppend(s: seq<Byte>, c: seq<Byte>)
    ensures Tail(s + c) == Tail(Tail(s) + c)
    decreases |s|
  {
    if Taken(s) > 0 {
      TakenAppend(s, c);
      TailAppend(s[Taken(s)..], c);
    }
  }

  /** An event that is decided by the first bytes is there without the others. */
  lemma TakenPrefix(q: seq<Byte>, c: seq<Byte>)
    requires 0 < Taken(q + c) <= |q| - 3
    ensures Taken(q) == Taken(q + c)
  {
    var i := FindMagic(q + c);
    assert MagicAt(q, i);
    forall k | 0 <= k < i
      ensures !MagicAt(q, k)
    {
      assert !MagicAt(q + c, k);
    }
    assert (q + c)[i + 3] == q[i + 3];
  }

  /** Cutting a stream inside its tail, at least three bytes behind the last event, cuts the tail. */
  lemma TailOfPrefix(p: seq<Byte>, c: seq<Byte>)
    requires |Tail(p + c)| >= |c| + 3
    ensures Tail(p + c) == Tail(p) + c
  {
    var q := Tail(p);
    TailAppend(p, c);
    TailIsUnscanned(CrcTest, p);
    if Taken(q + c) > 0 {
      TakenPrefix(q, c);
      assert false;
    }
  }

  // ---------- bytes that cannot start a frame ----------

  /** No frame can start in front of k, whatever comes behind s. */
  ghost predicate CleanTo(s: seq<Byte>, k: int) {
    && 0 <= k <= |s| && (forall i :: 0 <= i < k ==> !MagicAt(s, i))
    && (k == |s| > 0 ==> s[|s| - 1] != MAGIC_0)
  }

  lemma CleanAppend(s: seq<Byte>, c: seq<Byte>, k: nat)
    requires CleanTo(s, k)
    ensures forall i :: 0 <= i < k ==> !MagicAt(s + c, i)
    ensures CleanTo(s + c, k) && (s + c)[k..] == s[k..] + c
  {
    forall i | 0 <= i < k
      ensures !MagicAt(s + c, i)
    {
      assert !MagicAt(s, i);
    }
  }

  lemma FindMagicSkips(s: seq<Byte>, k: nat)
    requires CleanTo(s, k)
    ensures FindMagic(s[k..]) == if FindMagic(s) < 0 then -1 else FindMagic(s) - k
  {
    var i, l := FindMagic(s), FindMagic(s[k..]);
    forall m | 0 <= m
      ensures MagicAt(s[k..], m) == MagicAt(s, m + k)
    {}
    if i >= 0 {
      assert i >= k && MagicAt(s[k..], i - k);
    }
    if l >= 0 {
      assert MagicAt(s, l + k);
    }
  }

  /** Such bytes leave nothing pending. */
  lemma PendingSkips(s: seq<Byte>, k: nat)
    requires CleanTo(s, k)
    ensures Pending(s[k..]) == Pending(s)
  {
    FindMagicSkips(s, k);
    if FindMagic(s) >= 0 {
      assert s[k..][FindMagic(s) - k..] == s[FindMagic(s)..];
    }
  }

  /** Nor do they change what the first event takes. */
  lemma TakenSkips(s: seq<Byte>, k: nat)
    requires CleanTo(s, k)
    ensures Taken(s[k..]) == if Taken(s) == 0 then 0 else Taken(s) - k
    ensures Taken(s) > 0 ==> Taken(s) > k && s[k..][Taken(s) - k..] == s[Taken(s)..]
  {
    FindMagicSkips(s, k);
    if FindMagic(s) >= 0 && |s| - FindMagic(s) >= 4 {
      assert s[k..][FindMagic(s) - k + 3] == s[FindMagic(s) + 3];
    }
  }

  lemma TailSkips(s: seq<Byte>, k: nat)
    requires CleanTo(s, k)
    ensures Tail(s[k..]) == if Taken(s) == 0 then s[k..] else Tail(s)
  {
    TakenSkips(s, k);
  }

  /** What is pending is what is left behind the bytes that cannot start a frame. */
  lemma PendingStart(s: seq<Byte>) returns (k: nat)
    ensures CleanTo(s, k) && Pending(s) == s[k..]
    ensures FindMagic(s) >= 0 ==> |Pending(s)| >= 2
    ensures FindMagic(s) < 0 && s != [] ==> |Pending(s)| == Bit(s[|s| - 1] == MAGIC_0)
  {
    if FindMagic(s) >= 0 {
      k := FindMagic(s);
    } else if s != [] && s[|s| - 1] == MAGIC_0 {
      k := |s| - 1;
      assert s[k..] == [MAGIC_0];
    } else {
      k := |s|;
      assert s[k..] == [];
    }
  }

  function Bit(b: bool): nat {
    if b then 1 else 0
  }

  // ---------- the buffer behind one extraction ----------

  /** What extraction leaves of an unconsumed tail: from four bytes on, only what is pending. */
  function Flushed(t: seq<Byte>): seq<Byte> {
    if |t| < 4 then t else Pending(t)
  }

  lemma ResidueTakes(s: seq<Byte>)
    ensures Residue(s) == if Taken(s) == 0 then Flushed(s) else Residue(s[Taken(s)..])
  {
    if |s| >= 4 && FindMagic(s) >= 0 {
      var i := FindMagic(s);
      ResidueFromMagic(s);
      assert |s| > i + 1 ==> s[i..][1..] == s[i + 1..];
      assert |s| >= i + LENGTH ==> s[i..][LENGTH..] == s[i + LENGTH..];
    }
  }

  lemma {:induction false} ResidueOfTail(s: seq<Byte>)
    ensures Residue(s) == Flushed(Tail(s))
    decreases |s|
  {
    ResidueTakes(s);
    if Taken(s) > 0 {
      ResidueOfTail(s[Taken(s)..]);
    }
  }

  // ---------- the buffers that reads can leave ----------

  /** The buffer behind a stream with tail t if extraction last dropped bytes when j bytes of the
      tail had come: too few came since then to look at them. */
  predicate LeftBy(t: seq<Byte>, j: int, b: seq<Byte>) {
    4 <= j <= |t| && b == Pending(t[..j]) + t[j..] && |b| < 4
  }

  /** The buffers that reads can leave behind a stream with tail t. */
  ghost predicate MayLeave(t: seq<Byte>, b: seq<Byte>) {
    if |t| < 4 then b == t else b == Pending(t) || exists j :: LeftBy(t, j, b)
  }

  lemma FlushedMayLeave(t: seq<Byte>)
    ensures MayLeave(t, Flushed(t))
  {}

  /** They all are what is left behind bytes that cannot start a frame. */
  lemma LeftIsClean(t: seq<Byte>, b: seq<Byte>) returns (k: nat)
    requires MayLeave(t, b)
    ensures CleanTo(t, k) && b == t[k..]
  {
    if |t| < 4 {
      k := 0;
    } else if b == Pending(t) {
      k := PendingStart(t);
    } else {
      var j :| LeftBy(t, j, b);
      k := PendingThenMore(t, t[..j], t[j..]);
    }
  }

  lemma PendingThenMore(t: seq<Byte>, s: seq<Byte>, c: seq<Byte>) returns (k: nat)
    requires t == s + c
    ensures CleanTo(t, k) && Pending(s) + c == t[k..]
  {
    k := PendingStart(s);
    CleanAppend(s, c, k);
  }

  lemma SplitAppend(t: seq<Byte>, c: seq<Byte>, j: nat)
    requires j <= |t|
    ensures (t + c)[..j] == t[..j] && (t + c)[j..] == t[j..] + c
  {}

  lemma StillLeftBy(t: seq<Byte>, j: int, b: seq<Byte>, c: seq<Byte>)
    requires LeftBy(t, j, b) && |b + c| < 4
    ensures LeftBy(t + c, j, b + c)
  {
    SplitAppend(t, c, j);
    Regroup(Pending(t[..j]), t[j..], c);
  }

  lemma Regroup(x: seq<Byte>, y: seq<Byte>, z: seq<Byte>)
    ensures x + y + z == x + (y + z)
  {}

  lemma LeftByNow(t: seq<Byte>)
    requires |t| >= 4 && |Pending(t)| < 4
    ensures LeftBy(t, |t|, Pending(t))
  {
    assert t[..|t|] == t;
    assert Pending(t) + t[|t|..] == Pending(t);
  }

  lemma LeftByMore(t: seq<Byte>, b: seq<Byte>, c: seq<Byte>)
    requires MayLeave(t, b) && |b + c| < 4
    ensures MayLeave(t + c, b + c)
  {
    if |t| >= 4 {
      var j := |t|;
      if b == Pending(t) {
        LeftByNow(t);
      } else {
        j :| LeftBy(t, j, b);
      }
      StillLeftBy(t, j, b, c);
    }
  }

  /** One more read. */
  lemma LeftAfter(t: seq<Byte>, b: seq<Byte>, c: seq<Byte>)
    requires MayLeave(t, b) && Taken(t) == 0
    ensures MayLeave(Tail(t + c), Residue(b + c))
    ensures |b + c| >= 4 ==> Residue(b + c) == Flushed(Tail(t + c))
  {
    var k := LeftIsClean(t, b);
    CleanAppend(t, c, k);
    TailSkips(t + c, k);
    ResidueOfTail(b + c);
    FlushedMayLeave(Tail(t + c));
    if Taken(t + c) == 0 {
      if |b + c| < 4 {
        LeftByMore(t, b, c);
      } else {
        PendingSkips(t + c, k);
      }
    }
  }

  lemma {:induction false} ReadLeaves(accept: Test, buffer: seq<Byte>, t: seq<Byte>, chunks: seq<seq<Byte>>)
    requires MayLeave(t, buffer) && Taken(t) == 0
    ensures MayLeave(Tail(t + Concat(chunks)), Read(accept, buffer, chunks).buffer)
    decreases |chunks|
  {
    if chunks == [] {
      assert t + Concat(chunks) == t;
    } else {
      LeftAfter(t, buffer, chunks[0]);
      TailIsUnscanned(accept, t + chunks[0]);
      ReadLeaves(accept, Residue(buffer + chunks[0]), Tail(t + chunks[0]), chunks[1..]);
      TailAppend(t + chunks[0], Concat(chunks[1..]));
      ConcatFirst(t, chunks);
    }
  }

  /** However a stream is cut into reads, the bytes that may still become part of a frame are those
      that one extraction of the whole stream leaves. */
  lemma PendingInvariance(accept: Test, buffer: seq<Byte>, chunks: seq<seq<Byte>>)
    requires PendingOf(buffer) == Pending(buffer)
    ensures Pending(Read(accept, buffer, chunks).buffer) == PendingOf(buffer + Concat(chunks))
  {
    if chunks == [] {
      assert buffer + Concat(chunks) == buffer;
    } else {
      var filled, rest := buffer + chunks[0], Concat(chunks[1..]);
      ResidueOfTail(filled);
      FlushedMayLeave(Tail(filled));
      TailIsUnscanned(accept, filled);
      ReadLeaves(accept, Residue(filled), Tail(filled), chunks[1..]);
      TailAppend(filled, rest);
      ConcatFirst(buffer, chunks);
      SamePending(filled + rest, Read(accept, buffer, chunks).buffer);
    }
  }

  lemma SamePending(s: seq<Byte>, b: seq<Byte>)
    requires MayLeave(Tail(s), b)
    ensures Pending(b) == PendingOf(s)
  {
    ResidueOfTail(s);
    FlushedMayLeave(Tail(s));
    LeavesPending(Tail(s), b);
    LeavesPending(Tail(s), Residue(s));
  }

  lemma LeavesPending(t: seq<Byte>, b: seq<Byte>)
    requires MayLeave(t, b)
    ensures Pending(b) == Pending(t) && IsSuffix(b, t)
  {
    var k := LeftIsClean(t, b);
    PendingSkips(t, k);
  }

  // ---------- cuts ----------

  /** Reads of a stream: each returns some bytes, and not too many. */
  ghost predicate IsCut(s: seq<Byte>, chunks: seq<seq<Byte>>) {
    Concat(chunks) == s && forall k :: 0 <= k < |chunks| ==> 0 < |chunks[k]| <= MAX_READ
  }

  /** The reads are a cut of s and leave b. */
  ghost predicate CutLeaving(accept: Test, s: seq<Byte>, chunks: seq<seq<Byte>>, b: seq<Byte>) {
    IsCut(s, chunks) && Read(accept, [], chunks).buffer == b
  }

  lemma {:induction false} ConcatLast(chunks: seq<seq<Byte>>, c: seq<Byte>)
    ensures Concat(chunks + [c]) == Concat(chunks) + c
  {
    if chunks == [] {
      assert [] + [c] == [c] && [c][1..] == [];
      assert Concat([c]) == c + Concat([c][1..]);
    } else {
      assert (chunks + [c])[1..] == chunks[1..] + [c];
      ConcatLast(chunks[1..], c);
    }
  }

  lemma {:induction false} ReadLast(accept: Test, buffer: seq<Byte>, chunks: seq<seq<Byte>>, c: seq<Byte>)
    ensures Read(accept, buffer, chunks + [c]).buffer == Residue(Read(accept, buffer, chunks).buffer + c)
    decreases |chunks|
  {
    if chunks == [] {
      assert [] + [c] == [c] && [c][1..] == [];
      assert Read(accept, buffer, [c]).buffer == Read(accept, Residue(buffer + c), []).buffer;
    } else {
      assert (chunks + [c])[1..] == chunks[1..] + [c];
      ReadLast(accept, Residue(buffer + chunks[0]), chunks[1..], c);
    }
  }

  lemma CutMore(accept: Test, s: seq<Byte>, chunks: seq<seq<Byte>>, c: seq<Byte>)
    requires IsCut(s, chunks) && 0 < |c| <= MAX_READ
    ensures IsCut(s + c, chunks + [c])
    ensures Read(accept, [], chunks + [c]).buffer == Residue(Read(accept, [], chunks).buffer + c)
  {
    ConcatLast(chunks, c);
    ReadLast(accept, [], chunks, c);
  }

  /** Every cut leaves one of these buffers. */
  lemma CutLeaves(accept: Test, s: seq<Byte>, chunks: seq<seq<Byte>>)
    requires IsCut(s, chunks)
    ensures MayLeave(Tail(s), Read(accept, [], chunks).buffer)
  {
    ReadLeaves(accept, [], [], chunks);
    assert [] + Concat(chunks) == s;
  }

  /** Full reads from the end on: the last one brings extraction to drop what cannot start a frame. */
  lemma {:induction false} FullReads(accept: Test, s: seq<Byte>) returns (chunks: seq<seq<Byte>>)
    ensures CutLeaving(accept, s, chunks, Flushed(Tail(s)))
    decreases |s|
  {
    if s == [] {
      chunks := [];
      NoReads(accept);
    } else {
      var p, c := LastRead(s);
      var before := FullReads(accept, p);
      chunks := before + [c];
      FullRead(accept, s, p, before, c);
    }
  }

  lemma LastRead(s: seq<Byte>) returns (p: seq<Byte>, c: seq<Byte>)
    requires s != []
    ensures p + c == s && 0 < |c| <= MAX_READ && (p == [] || |c| >= 4)
  {
    var n := if |s| <= MAX_READ then 0 else |s| - MAX_READ;
    p, c := s[..n], s[n..];
  }

  lemma NoReads(accept: Test)
    ensures CutLeaving(accept, [], [], Flushed(Tail([])))
  {}

  lemma FullRead(accept: Test, s: seq<Byte>, p: seq<Byte>, before: seq<seq<Byte>>, c: seq<Byte>)
    requires CutLeaving(accept, p, before, Flushed(Tail(p)))
    requires p + c == s && 0 < |c| <= MAX_READ && (p == [] || |c| >= 4)
    ensures CutLeaving(accept, s, before + [c], Flushed(Tail(s)))
  {
    CutMore(accept, p, before, c);
    LastReadFlushes(p, c);
  }

  lemma LastReadFlushes(p: seq<Byte>, c: seq<Byte>)
    requires p == [] || |c| >= 4
    ensures Residue(Flushed(Tail(p)) + c) == Flushed(Tail(p + c))
  {
    FlushedMayLeave(Tail(p));
    TailIsUnscanned(CrcTest, p);
    LeftAfter(Tail(p), Flushed(Tail(p)), c);
    TailAppend(p, c);
    if p == [] {
      assert [] + c == c;
      ResidueOfTail(c);
    }
  }

  /** Full reads up to the place of the last drop, and then the rest. */
  lemma LateRead(accept: Test, s: seq<Byte>, j: int, b: seq<Byte>) returns (chunks: seq<seq<Byte>>)
    requires LeftBy(Tail(s), j, b) && j < |Tail(s)|
    ensures CutLeaving(accept, s, chunks, b)
  {
    var p, c := CutInTail(s, j);
    var before := FullReads(accept, p);
    chunks := before + [c];
    CutMore(accept, p, before, c);
  }

  lemma CutInTail(s: seq<Byte>, j: int) returns (p: seq<Byte>, c: seq<Byte>)
    requires 3 <= j <= |Tail(s)|
    ensures p + c == s && Tail(p) == Tail(s)[..j] && c == Tail(s)[j..]
  {
    var n := |s| - |Tail(s)| + j;
    p, c := s[..n], s[n..];
    TailIsUnscanned(CrcTest, s);
    assert p + c == s;
    TailOfPrefix(p, c);
    SplitAt(Tail(p), c, Tail(s), j);
  }

  lemma SplitAt(q: seq<Byte>, c: seq<Byte>, t: seq<Byte>, j: int)
    requires t == q + c && 0 <= j <= |t| && |c| == |t| - j
    ensures q == t[..j] && c == t[j..]
  {}

  /** The buffers that some cut of a stream leaves are exactly these. */
  lemma ReachableBuffers(accept: Test, s: seq<Byte>, b: seq<Byte>)
    ensures (exists chunks :: CutLeaving(accept, s, chunks, b)) <==> MayLeave(Tail(s), b)
  {
    if chunks :| CutLeaving(accept, s, chunks, b) {
      CutLeaves(accept, s, chunks);
    }
    if MayLeave(Tail(s), b) {
      var chunks := SomeCut(accept, s, b);
    }
  }

  lemma SomeCut(accept: Test, s: seq<Byte>, b: seq<Byte>) returns (chunks: seq<seq<Byte>>)
    requires MayLeave(Tail(s), b)
    ensures CutLeaving(accept, s, chunks, b)
  {
    var t := Tail(s);
    if b == Flushed(t) {
      chunks := FullReads(accept, s);
    } else {
      var j := BeforeTheEnd(t, b);
      chunks := LateRead(accept, s, j, b);
    }
  }

  lemma BeforeTheEnd(t: seq<Byte>, b: seq<Byte>) returns (j: int)
    requires MayLeave(t, b) && b != Flushed(t)
    ensures LeftBy(t, j, b) && j < |t|
  {
    j :| LeftBy(t, j, b);
    if j == |t| {
      LeftAtEnd(t, t[..j], t[j..], b);
    }
  }

  lemma LeftAtEnd(t: seq<Byte>, all: seq<Byte>, none: seq<Byte>, b: seq<Byte>)
    requires all == t && none == [] && b == Pending(all) + none
    ensures b == Pending(t)
  {}

  // ---------- when cuts disagree ----------

  /** Dropping bytes for the last time once j bytes of the tail have come keeps more than what is
      pending in the end: fewer than four bytes, some of which cannot start a frame any more. */
  predicate LateDrop(t: seq<Byte>, j: int) {
    4 <= j <= |t| && |Pending(t)| < |t| - j + Bit(t[j - 1] == MAGIC_0) < 4
  }

  predicate AdmitsLateDrop(t: seq<Byte>) {
    exists j :: 4 <= j <= |t| && LateDrop(t, j)
  }

  lemma MagicStaysPending(t: seq<Byte>, j: int)
    requires 0 <= j <= |t| && FindMagic(t[..j]) >= 0
    ensures Pending(t) == Pending(t[..j]) + t[j..] && |Pending(t)| >= |t| - j + 2
  {
    assert t[..j] + t[j..] == t;
    FindMagicAppend(t[..j], t[j..]);
  }

  lemma LeftIsLate(t: seq<Byte>, j: int, b: seq<Byte>)
    requires LeftBy(t, j, b) && b != Pending(t)
    ensures LateDrop(t, j)
  {
    if FindMagic(t[..j]) >= 0 {
      MagicStaysPending(t, j);
    }
    NoMagicLeft(t, j);
    LeavesPending(t, b);
    MorePending(b);
  }

  lemma NoMagicLeft(t: seq<Byte>, j: int)
    requires 4 <= j <= |t| && FindMagic(t[..j]) < 0
    ensures |Pending(t[..j]) + t[j..]| == |t| - j + Bit(t[j - 1] == MAGIC_0)
  {
    var k := PendingStart(t[..j]);
  }

  lemma MorePending(b: seq<Byte>)
    ensures |Pending(b)| <= |b| && (|Pending(b)| == |b| ==> Pending(b) == b)
  {
    PendingIsSuffix(b);
  }

  lemma LateIsLeft(t: seq<Byte>, j: int) returns (b: seq<Byte>)
    requires LateDrop(t, j)
    ensures LeftBy(t, j, b) && b != Pending(t)
  {
    b := Pending(t[..j]) + t[j..];
    LateHasNoMagic(t, j);
    NoMagicLeft(t, j);
  }

  lemma LateHasNoMagic(t: seq<Byte>, j: int)
    requires LateDrop(t, j)
    ensures FindMagic(t[..j]) < 0
  {
    if FindMagic(t[..j]) >= 0 {
      MagicStaysPending(t, j);
    }
  }

  /** Two cuts of the stream leave different buffers. */
  ghost predicate CutsMayDiffer(accept: Test, s: seq<Byte>) {
    exists one, r, two, q :: CutLeaving(accept, s, one, r) && CutLeaving(accept, s, two, q) && r != q
  }

  /** Two cuts of a stream leave different buffers if and only if the bytes behind its last event
      admit a late drop. */
  lemma CutsDisagree(accept: Test, s: seq<Byte>)
    ensures CutsMayDiffer(accept, s) <==> AdmitsLateDrop(Tail(s))
  {
    if CutsMayDiffer(accept, s) {
      DisagreeingDropsLate(accept, s);
    }
    if AdmitsLateDrop(Tail(s)) {
      LateDropDisagrees(accept, s);
    }
  }

  lemma DisagreeingDropsLate(accept: Test, s: seq<Byte>)
    requires CutsMayDiffer(accept, s)
    ensures AdmitsLateDrop(Tail(s))
  {
    var one, r, two, q :| CutLeaving(accept, s, one, r) && CutLeaving(accept, s, two, q) && r != q;
    CutLeaves(accept, s, one);
    CutLeaves(accept, s, two);
    DifferentIsLate(Tail(s), r, q);
  }

  lemma LateDropDisagrees(accept: Test, s: seq<Byte>)
    requires AdmitsLateDrop(Tail(s))
    ensures CutsMayDiffer(accept, s)
  {
    var t := Tail(s);
    var j :| LateDrop(t, j);
    var b := LateIsLeft(t, j);
    var one := FullReads(accept, s);
    var two := SomeCut(accept, s, b);
    assert CutLeaving(accept, s, one, Flushed(t)) && CutLeaving(accept, s, two, b);
  }

  lemma DifferentIsLate(t: seq<Byte>, r: seq<Byte>, q: seq<Byte>)
    requires MayLeave(t, r) && MayLeave(t, q) && r != q
    ensures AdmitsLateDrop(t)
  {
    var b := if r == Pending(t) then q else r;
    var j :| LeftBy(t, j, b);
    LeftIsLate(t, j, b);
  }

  /** Any two cuts leave the same bytes pending, at the end of each buffer. Buffers of one length are
      equal, and unequal ones have fewer than four bytes, fewer than three of them pending. */
  lemma ResiduesAgree(accept: Test, one: seq<seq<Byte>>, two: seq<seq<Byte>>)
    requires Concat(one) == Concat(two)
    ensures var r, q := Read(accept, [], one).buffer, Read(accept, [], two).buffer;
      && Pending(r) == Pending(q) && IsSuffix(Pending(r), r) && IsSuffix(Pending(q), q)
      && (r == q <==> |r| == |q|)
      && (r != q ==> |r| < 4 && |q| < 4 && |Pending(r)| < 3)
  {
    var t := Tail(Concat(one));
    var r, q := Read(accept, [], one).buffer, Read(accept, [], two).buffer;
    assert [] + Concat(one) == Concat(one);
    ReadLeaves(accept, [], [], one);
    ReadLeaves(accept, [], [], two);
    LeftAgree(t, r, q);
  }

  lemma LeftAgree(t: seq<Byte>, r: seq<Byte>, q: seq<Byte>)
    requires MayLeave(t, r) && MayLeave(t, q)
    ensures Pending(r) == Pending(q) && IsSuffix(Pending(r), r) && IsSuffix(Pending(q), q)
    ensures r == q <==> |r| == |q|
    ensures r != q ==> |r| < 4 && |q| < 4 && |Pending(r)| < 3
  {
    LeavesPending(t, r);
    LeavesPending(t, q);
    PendingIsSuffix(r);
    PendingIsSuffix(q);
    SuffixesAgree(r, q, t);
    if r != q {
      DifferentIsLate(t, r, q);
      OnlyPendingIsLong(t, r);
      OnlyPendingIsLong(t, q);
    }
  }

  lemma SuffixesAgree(r: seq<Byte>, q: seq<Byte>, t: seq<Byte>)
    requires IsSuffix(r, t) && IsSuffix(q, t)
    ensures r == q <==> |r| == |q|
  {}

  lemma PendingIsSuffix(s: seq<Byte>)
    ensures IsSuffix(Pending(s), s)
  {
    var k := PendingStart(s);
  }

  lemma OnlyPendingIsLong(t: seq<Byte>, b: seq<Byte>)
    requires MayLeave(t, b) && |Pending(t)| < 4
    ensures |b| < 4
  {}

  /** The shortest disagreement: leading bytes that cannot start a frame are dropped only once four
      bytes are present. */
  lemma ResidueDependsOnReads()
    ensures Read(CrcTest, [], [[1, 2, 3, 4], [5]]).buffer == [5]
    ensures Read(CrcTest, [], [[1, 2, 3, 4, 5]]).buffer == []
  {
    var a: seq<Byte> := [1, 2, 3, 4];
    var b: seq<Byte> := [5];
    var c: seq<Byte> := [1, 2, 3, 4, 5];
    assert [] + a == a && [] + b == b && [] + c == c;
    assert Residue(a) == [] && Residue(b) == [5] && Residue(c) == [];
    var chunks := [a, b];
    assert chunks[1..] == [b];
    assert [b][1..] == [] && [c][1..] == [];
    assert Read(CrcTest, [5], []).buffer == [5];
    assert Read(CrcTest, [], [b]).buffer == [5];
    assert Read(CrcTest, [], [c]).buffer == Read(CrcTest, [], []).buffer;
  }
}
