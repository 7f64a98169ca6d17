/** The firmware's wrong-direction monitor, with its 32-bit millisecond clock. */
module DirectionMonitor {
  import opened Common

  const REVERSAL_GRACE_MS := 1000
  const CONFIRM_MS := 350

  datatype Monitor = Monitor(sign: int, changedAt: UInt32, wrongAt: UInt32, wrongActive: bool)

  const INITIAL := Monitor(0, 0, 0, false)

  function TargetSign(target: real): int {
    if target >= 20.0 then 1 else if target <= -20.0 then -1 else 0
  }

  predicate Against(target: real, measured: real) {
    target * measured < -100.0
  }

  predicate Wrong(target: real, measured: real) {
    TargetSign(target) != 0 && Against(target, measured)
  }

  /** Unsigned 32-bit subtraction. */
  function Elapsed(now: int, since: int): UInt32 {
    (now - since) % TWO_32
  }

  function Check(m: Monitor, now: UInt32, target: real, measured: real): (Monitor, bool) {
    var sign := TargetSign(target);
    var m1 := if sign != m.sign then Monitor(sign, now, m.wrongAt, false) else m;
    if !Wrong(target, measured) || Elapsed(now, m1.changedAt) < REVERSAL_GRACE_MS then
      (m1.(wrongActive := false), false)
    else
      var m2 := if m1.wrongActive then m1 else m1.(wrongAt := now, wrongActive := true);
      (m2, Elapsed(now, m2.wrongAt) >= CONFIRM_MS)
  }

  class DirectionMonitor {
    var sign: int
    var changedAt: UInt32
    var wrongAt: UInt32
    var wrongActive: bool

    function View(): Monitor
      reads this
    {
      Monitor(sign, changedAt, wrongAt, wrongActive)
    }

    constructor ()
      ensures View() == INITIAL
    {
      sign, changedAt, wrongAt, wrongActive := 0, 0, 0, false;
    }

    method CheckNow(now: UInt32, target: real, measured: real) returns (fault: bool)
      modifies this
      ensures (View(), fault) == Check(old(View()), now, target, measured)
    {
      var nextSign := if target >= 20.0 then 1 else if target <= -20.0 then -1 else 0;
      if nextSign != sign {
        sign := nextSign;
        changedAt := now;
        wrongActive := false;
      }
      var wrong := sign != 0 && target * measured < -100.0;
      if !wrong || (now - changedAt) % TWO_32 < REVERSAL_GRACE_MS {
        wrongActive := false;
        return false;
      }
      if !wrongActive {
        wrongAt := now;
        wrongActive := true;
      }
      return (now - wrongAt) % TWO_32 >= CONFIRM_MS;
    }
  }

  // ---------- runs against true, unbounded time ----------

  datatype Sample = Sample(time: nat, target: real, measured: real)

  ghost predicate Timely(samples: seq<Sample>) {
    forall i, j :: 0 <= i <= j < |samples| ==> samples[i].time <= samples[j].time
  }

  function After(samples: seq<Sample>): Monitor {
    if samples == [] then INITIAL
    else
      var s := samples[|samples| - 1];
      Check(After(samples[..|samples| - 1]), s.time % TWO_32, s.target, s.measured).0
  }

  function Fault(samples: seq<Sample>): bool
    requires samples != []
  {
    var s := samples[|samples| - 1];
    Check(After(samples[..|samples| - 1]), s.time % TWO_32, s.target, s.measured).1
  }

  predicate SameWay(s: Sample, forward: bool) {
    if forward then s.target >= 20.0 else s.target <= -20.0
  }

  /** Every target from check c on is at least 20 rpm the same way, and the one before c was not. */
  ghost predicate SteadyFrom(samples: seq<Sample>, c: int) {
    && 0 <= c < |samples|
    && (forall i :: c <= i < |samples| ==> SameWay(samples[i], samples[c].target > 0.0))
    && (c > 0 ==> !SameWay(samples[c - 1], samples[c].target > 0.0))
  }

  /** The wheel turns against a target of at least 20 rpm. */
  predicate Opposed(s: Sample) {
    (s.target >= 20.0 || s.target <= -20.0) && Against(s.target, s.measured)
  }

  /** Turning against the target is turning the other way, so fast that the sizes of the two speeds
      multiply to over 100. */
  lemma AgainstMeans(target: real, measured: real)
    ensures Against(target, measured) <==>
            || (target > 0.0 && measured < 0.0 && target * -measured > 100.0)
            || (target < 0.0 && measured > 0.0 && -target * measured > 100.0)
  {
    if target >= 0.0 && measured >= 0.0 {
      assert target * measured >= 0.0;
    } else if target <= 0.0 && measured <= 0.0 {
      assert -target * -measured >= 0.0;
    }
  }

  lemma SameWayIsSign(s: Sample)
    ensures SameWay(s, true) <==> TargetSign(s.target) == 1
    ensures SameWay(s, false) <==> TargetSign(s.target) == -1
  {}

  /** The check at i saw wrong-direction motion outside the grace time as the 32-bit clock shows it. */
  predicate Suspect(samples: seq<Sample>, c: int, i: int)
    requires 0 <= c <= i < |samples|
  {
    Opposed(samples[i]) && (samples[i].time - samples[c].time) % 0x1_0000_0000 >= 1000
  }

  /** Every check from w on was suspect, and w is where that began. */
  ghost predicate SuspectFrom(samples: seq<Sample>, c: int, w: int)
    requires 0 <= c < |samples|
  {
    && c <= w < |samples| && (forall i :: w <= i < |samples| ==> Suspect(samples, c, i))
    && (w > c ==> !Suspect(samples, c, w - 1))
  }

  lemma ElapsedWraps(a: nat, b: nat)
    ensures Elapsed(a % TWO_32, b % TWO_32) == Elapsed(a, b)
    ensures a >= b ==> Elapsed(a, b) <= a - b
    ensures b <= a < b + TWO_32 ==> Elapsed(a, b) == a - b
  {}

  function SignAfter(samples: seq<Sample>): int {
    if samples == [] then 0 else TargetSign(samples[|samples| - 1].target)
  }

  lemma {:induction false} RemembersSign(samples: seq<Sample>)
    ensures After(samples).sign == SignAfter(samples)
    ensures After(samples).wrongActive ==> SignAfter(samples) != 0
  {
    if samples != [] {
      RemembersSign(samples[..|samples| - 1]);
    }
  }

  lemma SteadyExtends(earlier: seq<Sample>, s: Sample, c: int)
    requires SteadyFrom(earlier, c) && TargetSign(s.target) == SignAfter(earlier)
    ensures SteadyFrom(earlier + [s], c)
  {
    var longer := earlier + [s];
    assert forall i :: 0 <= i < |earlier| ==> longer[i] == earlier[i];
    assert longer[|earlier|] == s;
  }

  lemma SuspectExtends(earlier: seq<Sample>, s: Sample, c: int, w: int)
    requires 0 <= c < |earlier| && SuspectFrom(earlier, c, w) && Suspect(earlier + [s], c, |earlier|)
    ensures SuspectFrom(earlier + [s], c, w)
  {
    var longer := earlier + [s];
    forall i | c <= i < |earlier|
      ensures Suspect(longer, c, i) == Suspect(earlier, c, i)
    {
      assert longer[i] == earlier[i] && longer[c] == earlier[c];
    }
  }

  /** What the monitor remembers, in terms of the history: when the sign changed, and when the
      unbroken series of suspect checks began. */
  lemma {:induction false} Remembers(samples: seq<Sample>) returns (c: int, w: int)
    requires SignAfter(samples) != 0
    ensures SteadyFrom(samples, c) && After(samples).changedAt == samples[c].time % TWO_32
    ensures After(samples).wrongActive ==>
      SuspectFrom(samples, c, w) && After(samples).wrongAt == samples[w].time % TWO_32
    ensures !After(samples).wrongActive ==> !Suspect(samples, c, |samples| - 1)
    decreases |samples|
  {
    var n := |samples| - 1;
    var earlier, s := samples[..n], samples[n];
    assert samples == earlier + [s];
    RemembersSign(earlier);
    if SignAfter(earlier) != TargetSign(s.target) {
      c, w := n, n;
      ElapsedWraps(s.time, s.time);
    } else {
      c, w := Remembers(earlier);
      SteadyExtends(earlier, s, c);
      ElapsedWraps(s.time, samples[c].time);
      if Suspect(samples, c, n) {
        if After(earlier).wrongActive {
          SuspectExtends(earlier, s, c, w);
        } else {
          assert Suspect(samples, c, n - 1) == Suspect(earlier, c, n - 1);
          w := n;
        }
      }
    }
  }

  lemma SteadyUnique(samples: seq<Sample>, c: int, c': int)
    requires SteadyFrom(samples, c) && SteadyFrom(samples, c')
    ensures c == c'
  {}

  lemma SuspectUnique(samples: seq<Sample>, c: int, w: int, w': int)
    requires 0 <= c < |samples| && SuspectFrom(samples, c, w) && SuspectFrom(samples, c, w')
    ensures w == w'
  {}

  /** Exactly when the monitor reports a fault, on the clock it sees. */
  lemma FaultExactly(samples: seq<Sample>)
    requires samples != []
    ensures Fault(samples) <==>
      exists c, w :: SteadyFrom(samples, c) && SuspectFrom(samples, c, w)
        && (samples[|samples| - 1].time - samples[w].time) % 0x1_0000_0000 >= 350
  {
    RemembersSign(samples);
    if SignAfter(samples) != 0 {
      var c, w := Remembers(samples);
      var last := samples[|samples| - 1];
      FaultFromMemory(samples);
      if After(samples).wrongActive {
        ElapsedWraps(last.time, samples[w].time);
      }
      forall c', w' | SteadyFrom(samples, c') && SuspectFrom(samples, c', w')
        ensures After(samples).wrongActive && c' == c && w' == w
      {
        SteadyUnique(samples, c, c');
        assert Suspect(samples, c, |samples| - 1);
        SuspectUnique(samples, c, w, w');
      }
    }
  }

  lemma FaultFromMemory(samples: seq<Sample>)
    requires samples != []
    ensures var m := After(samples);
      Fault(samples) <==> m.wrongActive && Elapsed(samples[|samples| - 1].time % TWO_32, m.wrongAt) >= CONFIRM_MS
  {}

  /** Soundness across timer wrap: a reported fault means the commanded direction was constant for
      at least 1350 ms of true time, and every check over at least the last 350 ms saw motion the
      wrong way. */
  lemma FaultIsSound(samples: seq<Sample>) returns (c: int, w: int)
    requires samples != [] && Timely(samples) && Fault(samples)
    ensures 0 <= c <= w < |samples|
    ensures var now := samples[|samples| - 1].time;
      now - samples[c].time >= 1350 && now - samples[w].time >= 350
    ensures (forall i :: c <= i < |samples| ==> samples[i].target >= 20.0)
         || (forall i :: c <= i < |samples| ==> samples[i].target <= -20.0)
    ensures forall i :: w <= i < |samples| ==> Against(samples[i].target, samples[i].measured)
  {
    FaultExactly(samples);
    c, w :| SteadyFrom(samples, c) && SuspectFrom(samples, c, w)
            && (samples[|samples| - 1].time - samples[w].time) % 0x1_0000_0000 >= 350;
    SuspectTimes(samples, c, w);
    SteadyMeans(samples, c);
    SuspectMeans(samples, c, w);
  }

  lemma SuspectTimes(samples: seq<Sample>, c: int, w: int)
    requires Timely(samples) && 0 <= c < |samples| && SuspectFrom(samples, c, w)
    requires (samples[|samples| - 1].time - samples[w].time) % 0x1_0000_0000 >= 350
    ensures samples[|samples| - 1].time - samples[c].time >= 1350
    ensures samples[|samples| - 1].time - samples[w].time >= 350
  {
    assert Suspect(samples, c, w);
    TrueTimes(samples[|samples| - 1].time, samples[w].time, samples[c].time);
  }

  lemma SteadyMeans(samples: seq<Sample>, c: int)
    requires SteadyFrom(samples, c)
    ensures (forall i :: c <= i < |samples| ==> samples[i].target >= 20.0)
         || (forall i :: c <= i < |samples| ==> samples[i].target <= -20.0)
  {}

  lemma SuspectMeans(samples: seq<Sample>, c: int, w: int)
    requires 0 <= c < |samples| && SuspectFrom(samples, c, w)
    ensures forall i :: w <= i < |samples| ==> Against(samples[i].target, samples[i].measured)
  {
    forall i | w <= i < |samples|
      ensures Against(samples[i].target, samples[i].measured)
    {
      assert Suspect(samples, c, i);
    }
  }

  lemma TrueTimes(now: nat, began: nat, changed: nat)
    requires changed <= began <= now
    requires (began - changed) % 0x1_0000_0000 >= 1000 && (now - began) % 0x1_0000_0000 >= 350
    ensures now - began >= 350 && now - changed >= 1350
  {
    ElapsedWraps(now, began);
    ElapsedWraps(began, changed);
  }

  lemma FaultNeedsSuspicion(samples: seq<Sample>, c: int)
    requires SteadyFrom(samples, c)
    ensures Fault(samples) ==> Suspect(samples, c, |samples| - 1)
  {
    if Fault(samples) {
      FaultExactly(samples);
      var c', w :| SteadyFrom(samples, c') && SuspectFrom(samples, c', w);
      SteadyUnique(samples, c, c');
    }
  }

  /** Completeness before the first wrap: within 2^32 ms of the last change of direction, motion
      the wrong way that is confirmed for 350 ms after the grace time is always reported. */
  lemma FaultIsComplete(samples: seq<Sample>, c: int, w: int)
    requires Timely(samples) && SteadyFrom(samples, c) && c <= w < |samples|
    requires samples[|samples| - 1].time - samples[c].time < 0x1_0000_0000
    requires samples[w].time - samples[c].time >= 1000 && samples[|samples| - 1].time - samples[w].time >= 350
    requires forall i :: w <= i < |samples| ==> Opposed(samples[i])
    ensures Fault(samples)
  {
    forall i | w <= i < |samples|
      ensures Suspect(samples, c, i)
    {
      SuspectInTime(samples, c, w, i);
    }
    var v := SeriesStart(samples, c, w);
    StillWithin(samples[|samples| - 1].time, samples[w].time, samples[v].time, samples[c].time);
    FaultExactly(samples);
  }

  lemma SuspectInTime(samples: seq<Sample>, c: int, w: int, i: int)
    requires Timely(samples) && 0 <= c <= w <= i < |samples| && Opposed(samples[i])
    requires samples[i].time - samples[c].time < 0x1_0000_0000 && samples[w].time - samples[c].time >= 1000
    ensures Suspect(samples, c, i)
  {
    ElapsedWraps(samples[i].time, samples[c].time);
  }

  lemma StillWithin(now: nat, w: nat, v: nat, c: nat)
    requires c <= v <= w && now - w >= 350 && now - c < 0x1_0000_0000
    ensures (now - v) % 0x1_0000_0000 >= 350
  {
    ElapsedWraps(now, v);
  }

  lemma SeriesStart(samples: seq<Sample>, c: int, w: int) returns (v: int)
    requires 0 <= c <= w < |samples| && forall i :: w <= i < |samples| ==> Suspect(samples, c, i)
    ensures c <= v <= w && SuspectFrom(samples, c, v)
    decreases w
  {
    v := w;
    if w > c && Suspect(samples, c, w - 1) {
      v := SeriesStart(samples, c, w - 1);
    }
  }

  /** While the clock it sees is within the grace time of the last change of direction, however long
      ago that was in truth, nothing is reported: the grace time is granted anew whenever the 32-bit
      clock comes round. */
  lemma BlindInGrace(samples: seq<Sample>, c: int)
    requires SteadyFrom(samples, c)
    requires (samples[|samples| - 1].time - samples[c].time) % 0x1_0000_0000 < 1000
    ensures !Fault(samples)
  {
    FaultNeedsSuspicion(samples, c);
  }

  /** So wrong motion can go unreported at a check made 2^32 ms and a little after the change of
      direction, although the check before it saw wrong motion too. */
  lemma BlindAfterRollover()
    ensures var samples := [Sample(0, 30.0, -30.0), Sample(2000, 30.0, -30.0), Sample(TWO_32 + 500, 30.0, -30.0)];
      && Timely(samples) && SteadyFrom(samples, 0)
      && (forall i :: 0 <= i < 3 ==> Opposed(samples[i]))
      && !Fault(samples)
  {
    var samples := [Sample(0, 30.0, -30.0), Sample(2000, 30.0, -30.0), Sample(TWO_32 + 500, 30.0, -30.0)];
    BlindInGrace(samples, 0);
  }
}
