/** The laser guard in numbers of the scan: which directions each sector takes in, and which beams
    stand in the way of a straight motion (amr_base_driver/guarded_reverse.py, lines 51-189 and
    306-361). */
module ClearanceMeaning {
  import opened Common
  import opened GuardedReverse

  // ---------- sectors ----------

  function Behind(degrees: int -> real): (int, real) -> bool {
    (i, r) => degrees(i) >= 150.0 || degrees(i) <= -150.0
  }

  function OnLeft(degrees: int -> real): (int, real) -> bool {
    (i, r) => 70.0 <= degrees(i) <= 155.0
  }

  function OnRight(degrees: int -> real): (int, real) -> bool {
    (i, r) => -155.0 <= degrees(i) <= -70.0
  }

  /** The range reported is that of the nearest pair of neighbouring usable beams that pass, and 0.0
      when there is none. */
  ghost predicate Reports(ranges: Scan, low: real, high: real, keep: (int, real) -> bool, c: real) {
    || (c == 0.0 && IsNearest(ranges, low, high, keep, None))
    || IsNearest(ranges, low, high, keep, Some(c))
  }

  lemma SectorReports(ranges: Scan, low: real, high: real, a: (int, real) -> bool, b: (int, real) -> bool)
    requires forall i, r :: a(i, r) == b(i, r)
    ensures Reports(ranges, low, high, b, SectorClearance(ranges, low, high, a))
  {
    var c := AdjacentClusterClearance(Select(ranges, low, high, a, |ranges|), |ranges|);
    SelectedClearance(ranges, low, high, a);
    SameTestSameNearest(ranges, low, high, a, b, c);
  }

  /** The rear clearance is about the beams within 30 degrees of straight back, the side clearances
      about those from 70 to 155 degrees to the left and to the right. */
  lemma SectorsMean(ranges: Scan, degrees: int -> real, low: real, high: real)
    ensures Reports(ranges, low, high, Behind(degrees), SectorClearance(ranges, low, high, RearTest(degrees)))
    ensures Reports(ranges, low, high, OnLeft(degrees), SectorClearance(ranges, low, high, SideTest(degrees, 1)))
    ensures Reports(ranges, low, high, OnRight(degrees), SectorClearance(ranges, low, high, SideTest(degrees, -1)))
  {
    forall i: int, r: real
      ensures RearTest(degrees)(i, r) == Behind(degrees)(i, r)
      ensures SideTest(degrees, 1)(i, r) == OnLeft(degrees)(i, r)
      ensures SideTest(degrees, -1)(i, r) == OnRight(degrees)(i, r)
    {
      assert RearTest(degrees)(i, r) == InRear(degrees(i));
      assert SideTest(degrees, 1)(i, r) == InSide(degrees(i), 1);
    }
    SectorReports(ranges, low, high, RearTest(degrees), Behind(degrees));
    SectorReports(ranges, low, high, SideTest(degrees, 1), OnLeft(degrees));
    SectorReports(ranges, low, high, SideTest(degrees, -1), OnRight(degrees));
  }

  /** A pair of neighbouring beams at 90 degrees to one side bounds that side's clearance, and is not
      what the other side or the rear reports. */
  lemma PairBeside(ranges: Scan, degrees: int -> real, low: real, high: real, i: int, direction: int)
    requires direction == 1 || direction == -1
    requires Usable(ranges, low, high, i) && Usable(ranges, low, high, i + 1) && low > 0.0
    requires degrees(i) == degrees(i + 1) == 90.0 * direction as real
    ensures var worse := Max(ranges[i].value, ranges[i + 1].value);
      && 0.0 < SectorClearance(ranges, low, high, SideTest(degrees, direction)) <= worse
      && !SideTest(degrees, -direction)(i, worse) && !RearTest(degrees)(i, worse)
  {
    var keep := SideTest(degrees, direction);
    var worse := Max(ranges[i].value, ranges[i + 1].value);
    SelectedClearance(ranges, low, high, keep);
    assert SeenCluster(ranges, low, high, keep, worse, i, i + 1);
    assert SeenAt(ranges, low, high, keep, worse);
  }

  // ---------- the straight sweep ----------

  /** A beam of this range ends in the lane of the padded footprint: at most 0.210 m to either side of
      the base, and, driving on, from the middle of the base to its front 0.323 m ahead, or, backing,
      to its rear 0.107 m behind, moved on by the length of the motion. Lengths from the lidar, which
      sits 0.042 m behind and 0.005 m to the right of the middle. */
  function InTheWay(g: Geometry, direction: int, length: real): (int, real) -> bool {
    (i, r) => InLane(g, direction, length, i, r)
  }

  predicate InLane(g: Geometry, direction: int, length: real, i: int, r: real) {
    && -0.205 <= r * g.sine(i) <= 0.215
    && if direction == 1 then 0.042 <= r * g.cosine(i) <= 0.365 + length
       else -0.065 - length <= r * g.cosine(i) <= 0.042
  }

  /** The displacements of the base meet a point exactly when it lies in the lane. */
  lemma LaneIsSwept(direction: int, length: real, x: real, y: real)
    requires length >= 0.01
    ensures !Excused(direction, x, y) && SweptOver(direction, length, x, y) <==>
      && -0.210 <= y <= 0.210
      && (if direction == 1 then 0.0 <= x <= 0.323 + length else -0.107 - length <= x <= 0.0)
  {
    var moved := if direction == 1 then Max(0.0, x - 0.323) else Max(0.0, -0.107 - x);
    if 0.0 <= moved <= length {
      assert Covers(direction, x, y, moved) <==> InPadded(x - Signed(direction, moved), y);
    }
    if m :| 0.0 <= m <= length && Covers(direction, x, y, m) {
      assert InPadded(x - Signed(direction, m), y);
    }
  }

  lemma InTheWayIsMet(g: Geometry, direction: int, length: real, i: int, r: real)
    requires length >= 0.01
    ensures RealTest(g, direction, length)(i, r) == InTheWay(g, direction, length)(i, r)
  {
    LaneIsSwept(direction, length, PointX(g, i, r), PointY(g, i, r));
  }

  /** The straight sweep reports the nearest pair of neighbouring beams that end in the lane of the
      motion, at least 0.01 m long, and nothing exactly when no pair does. */
  lemma StraightSweepInNumbers(ranges: Scan, g: Geometry, low: real, high: real, direction: int, distance: real)
    ensures IsNearest(ranges, low, high, InTheWay(g, direction, Max(0.01, Abs(distance))),
                      AdjacentClusterClearance(
                        Select(ranges, low, high, SweepTest(g, direction, SweepLength(distance)), |ranges|), |ranges|))
  {
    var length := Max(0.01, Abs(distance));
    StraightSweepMeaning(ranges, g, low, high, direction, distance);
    forall i, r
      ensures RealTest(g, direction, length)(i, r) == InTheWay(g, direction, length)(i, r)
    {
      InTheWayIsMet(g, direction, length, i, r);
    }
    SameTestSameNearest(
      ranges, low, high, RealTest(g, direction, length), InTheWay(g, direction, length),
      AdjacentClusterClearance(Select(ranges, low, high, SweepTest(g, direction, length), |ranges|), |ranges|));
  }

  /** A wall straight ahead that two neighbouring beams see no further off than the front of the
      padded base will reach is reported to a forward motion, and its beams are out of the way of a
      backward one. */
  lemma WallAhead(ranges: Scan, g: Geometry, low: real, high: real, distance: real, i: int)
    requires Usable(ranges, low, high, i) && Usable(ranges, low, high, i + 1)
    requires g.cosine(i) == g.cosine(i + 1) == 1.0 && g.sine(i) == g.sine(i + 1) == 0.0
    requires 0.042 < ranges[i].value <= 0.365 + SweepLength(distance)
    requires 0.042 < ranges[i + 1].value <= 0.365 + SweepLength(distance)
    ensures var forward := AdjacentClusterClearance(
              Select(ranges, low, high, SweepTest(g, 1, SweepLength(distance)), |ranges|), |ranges|);
      forward.Some? && forward.value <= Max(ranges[i].value, ranges[i + 1].value)
    ensures !InTheWay(g, -1, SweepLength(distance))(i, ranges[i].value)
  {
    var keep, worse := InTheWay(g, 1, SweepLength(distance)), Max(ranges[i].value, ranges[i + 1].value);
    StraightSweepInNumbers(ranges, g, low, high, 1, distance);
    assert keep(i, ranges[i].value) && keep(i + 1, ranges[i + 1].value);
    assert SeenCluster(ranges, low, high, keep, worse, i, i + 1);
    assert SeenAt(ranges, low, high, keep, worse);
  }
}
