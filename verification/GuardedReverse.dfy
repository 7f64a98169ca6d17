/** Laser guard of the escape manoeuvres: two-beam clusters, the one-pass sector scan
    and the sampled straight sweep of the padded footprint. */
module GuardedReverse {
  import opened Common

  const FOOTPRINT_MIN_X := -0.087
  const FOOTPRINT_MAX_X := 0.303
  const FOOTPRINT_MIN_Y := -0.190
  const FOOTPRINT_MAX_Y := 0.190
  const PADDING := 0.020
  const LIDAR_X := -0.042
  const LIDAR_Y := -0.005

  // ---------- clusters ----------

  datatype Hit = Hit(beam: int, range: real)

  /** Sorting by beam is stable, as in the source language. */
  function Insert(h: Hit, sorted: seq<Hit>): seq<Hit> {
    if sorted == [] || h.beam <= sorted[0].beam then [h] + sorted
    else [sorted[0]] + Insert(h, sorted[1..])
  }

  function SortByBeam(hits: seq<Hit>): seq<Hit> {
    if hits == [] then [] else Insert(hits[0], SortByBeam(hits[1..]))
  }

  ghost predicate StrictlySorted(hits: seq<Hit>) {
    forall i, j :: 0 <= i < j < |hits| ==> hits[i].beam < hits[j].beam
  }

  /** The worse range of each pair of neighbouring entries that are neighbouring beams. */
  function PairRanges(ordered: seq<Hit>): seq<real> {
    if |ordered| < 2 then []
    else
      (if ordered[1].beam == ordered[0].beam + 1 then [Max(ordered[0].range, ordered[1].range)] else [])
      + PairRanges(ordered[1..])
  }

  /** The first and last beam of a full scan are neighbours too. */
  function WrapRange(ordered: seq<Hit>, beams: int): seq<real> {
    if beams != 0 && |ordered| >= 2 && ordered[0].beam == 0 && ordered[|ordered| - 1].beam == beams - 1
    then [Max(ordered[0].range, ordered[|ordered| - 1].range)] else []
  }

  function Minimum(values: seq<real>): real
    requires values != []
  {
    if |values| == 1 then values[0] else Min(values[0], Minimum(values[1..]))
  }

  function AdjacentClusterClearance(hits: seq<Hit>, beams: int): Option<real> {
    var ordered := SortByBeam(hits);
    var candidates := PairRanges(ordered) + WrapRange(ordered, beams);
    if candidates == [] then None else Some(Minimum(candidates))
  }

  // ----- meaning -----

  /** Two beams next to each other in the circular scan. */
  predicate Neighbours(a: int, b: int, beams: int) {
    b == a + 1 || (beams != 0 && a == 0 && b == beams - 1)
  }

  /** g and h form a two-beam cluster whose worse range is r. */
  predicate Cluster(hits: seq<Hit>, beams: int, r: real, g: Hit, h: Hit) {
    g in hits && h in hits && g != h && Neighbours(g.beam, h.beam, beams) && r == Max(g.range, h.range)
  }

  ghost predicate ClusterAt(hits: seq<Hit>, beams: int, r: real) {
    exists g, h :: Cluster(hits, beams, r, g, h)
  }

  /** At most one hit per beam, and only beams of the scan when their number is known. */
  ghost predicate FromScan(hits: seq<Hit>, beams: int) {
    && (forall i, j :: 0 <= i < j < |hits| ==> hits[i].beam != hits[j].beam)
    && (beams != 0 ==> forall i :: 0 <= i < |hits| ==> 0 <= hits[i].beam < beams)
  }

  /** The least cluster range, if there is a cluster at all. */
  ghost predicate IsClearance(hits: seq<Hit>, beams: int, clearance: Option<real>) {
    match clearance
    case None => forall r :: !ClusterAt(hits, beams, r)
    case Some(m) => ClusterAt(hits, beams, m) && forall r :: ClusterAt(hits, beams, r) ==> m <= r
  }

  lemma {:induction false} MinimumIsLeast(values: seq<real>)
    requires values != []
    ensures Minimum(values) in values && forall v :: v in values ==> Minimum(values) <= v
  {
    if |values| > 1 {
      MinimumIsLeast(values[1..]);
      assert values == [values[0]] + values[1..];
    }
  }

  ghost predicate PairAt(ordered: seq<Hit>, k: int, r: real) {
    && 0 <= k < |ordered| - 1 && ordered[k + 1].beam == ordered[k].beam + 1
    && r == Max(ordered[k].range, ordered[k + 1].range)
  }

  lemma {:induction false} PairRangesAre(ordered: seq<Hit>, r: real)
    ensures r in PairRanges(ordered) <==> exists k :: PairAt(ordered, k, r)
  {
    if |ordered| >= 2 {
      var rest := ordered[1..];
      PairRangesAre(rest, r);
      var first := if ordered[1].beam == ordered[0].beam + 1 then [Max(ordered[0].range, ordered[1].range)] else [];
      assert r in PairRanges(ordered) <==> r in first || r in PairRanges(rest);
      assert r in first <==> PairAt(ordered, 0, r);
      if k :| PairAt(rest, k, r) {
        assert PairAt(ordered, k + 1, r);
      }
      if k :| PairAt(ordered, k, r) && k > 0 {
        assert PairAt(rest, k - 1, r);
      }
    }
  }

  lemma {:induction false} InsertKeepsStrict(h: Hit, sorted: seq<Hit>)
    requires StrictlySorted(sorted) && forall i :: 0 <= i < |sorted| ==> sorted[i].beam != h.beam
    ensures StrictlySorted(Insert(h, sorted))
    ensures forall g :: g in Insert(h, sorted) <==> g == h || g in sorted
  {
    if sorted != [] && h.beam > sorted[0].beam {
      InsertKeepsStrict(h, sorted[1..]);
      var rest := Insert(h, sorted[1..]);
      forall k | 0 <= k < |rest|
        ensures sorted[0].beam < rest[k].beam
      {
        assert rest[k] in rest;
      }
    }
  }

  lemma {:induction false} SortOfScan(hits: seq<Hit>, beams: int)
    requires FromScan(hits, beams)
    ensures StrictlySorted(SortByBeam(hits)) && forall g :: g in SortByBeam(hits) <==> g in hits
  {
    if hits != [] {
      SortOfScan(hits[1..], beams);
      var sorted := SortByBeam(hits[1..]);
      forall i | 0 <= i < |sorted|
        ensures sorted[i].beam != hits[0].beam
      {
        assert sorted[i] in sorted;
        assert sorted[i] in hits[1..];
      }
      InsertKeepsStrict(hits[0], sorted);
      assert forall g :: g in hits <==> g == hits[0] || g in hits[1..];
    }
  }

  lemma {:induction false} BeamGap(ordered: seq<Hit>, p: nat, q: nat)
    requires StrictlySorted(ordered) && p <= q < |ordered|
    ensures ordered[q].beam - ordered[p].beam >= q - p
    decreases q
  {
    if p < q {
      BeamGap(ordered, p, q - 1);
    }
  }

  lemma NextBeamIsNextIndex(ordered: seq<Hit>, p: nat, q: nat)
    requires StrictlySorted(ordered) && p < |ordered| && q < |ordered|
    requires ordered[q].beam == ordered[p].beam + 1
    ensures q == p + 1
  {
    if p <= q {
      BeamGap(ordered, p, q);
    } else {
      BeamGap(ordered, q, p);
    }
  }

  lemma CandidateIsCluster(ordered: seq<Hit>, beams: int, r: real)
    requires StrictlySorted(ordered) && FromScan(ordered, beams)
    requires r in PairRanges(ordered) || r in WrapRange(ordered, beams)
    ensures ClusterAt(ordered, beams, r)
  {
    PairRangesAre(ordered, r);
    if k :| PairAt(ordered, k, r) {
      assert Cluster(ordered, beams, r, ordered[k], ordered[k + 1]);
    } else {
      assert Cluster(ordered, beams, r, ordered[0], ordered[|ordered| - 1]);
    }
  }

  lemma ClusterIsCandidate(ordered: seq<Hit>, beams: int, r: real, g: Hit, h: Hit)
    requires StrictlySorted(ordered) && FromScan(ordered, beams) && Cluster(ordered, beams, r, g, h)
    ensures r in PairRanges(ordered) || r in WrapRange(ordered, beams)
  {
    PairRangesAre(ordered, r);
    var p :| 0 <= p < |ordered| && ordered[p] == g;
    var q :| 0 <= q < |ordered| && ordered[q] == h;
    if h.beam == g.beam + 1 {
      NextBeamIsNextIndex(ordered, p, q);
      assert PairAt(ordered, p, r);
    } else {
      FirstBeam(ordered, beams, p);
      LastBeam(ordered, beams, q);
    }
  }

  lemma FirstBeam(ordered: seq<Hit>, beams: int, p: nat)
    requires StrictlySorted(ordered) && FromScan(ordered, beams) && beams != 0
    requires p < |ordered| && ordered[p].beam == 0
    ensures p == 0
  {
    BeamGap(ordered, 0, p);
  }

  lemma LastBeam(ordered: seq<Hit>, beams: int, q: nat)
    requires StrictlySorted(ordered) && FromScan(ordered, beams) && beams != 0
    requires q < |ordered| && ordered[q].beam == beams - 1
    ensures q == |ordered| - 1
  {
    BeamGap(ordered, q, |ordered| - 1);
  }

  lemma CandidatesAreClusters(ordered: seq<Hit>, beams: int, r: real)
    requires StrictlySorted(ordered) && FromScan(ordered, beams)
    ensures r in PairRanges(ordered) + WrapRange(ordered, beams) <==> ClusterAt(ordered, beams, r)
  {
    if r in PairRanges(ordered) || r in WrapRange(ordered, beams) {
      CandidateIsCluster(ordered, beams, r);
    }
    if g, h :| Cluster(ordered, beams, r, g, h) {
      ClusterIsCandidate(ordered, beams, r, g, h);
    }
  }

  /** The clearance is the nearest two-beam cluster; single speckles never count. */
  lemma ClearanceIsNearestCluster(hits: seq<Hit>, beams: int)
    requires FromScan(hits, beams)
    ensures IsClearance(hits, beams, AdjacentClusterClearance(hits, beams))
  {
    var ordered := SortByBeam(hits);
    var candidates := PairRanges(ordered) + WrapRange(ordered, beams);
    SortOfScan(hits, beams);
    SortedFromScan(hits, ordered, beams);
    forall r
      ensures r in candidates <==> ClusterAt(hits, beams, r)
    {
      CandidatesAreClusters(ordered, beams, r);
      forall g, h
        ensures Cluster(ordered, beams, r, g, h) <==> Cluster(hits, beams, r, g, h)
      {}
    }
    if candidates != [] {
      MinimumIsLeast(candidates);
    } else {
      assert forall r :: r !in candidates;
    }
  }

  lemma SortedFromScan(hits: seq<Hit>, ordered: seq<Hit>, beams: int)
    requires FromScan(hits, beams) && StrictlySorted(ordered) && forall g :: g in ordered <==> g in hits
    ensures FromScan(ordered, beams)
  {
    forall i | 0 <= i < |ordered|
      ensures beams != 0 ==> 0 <= ordered[i].beam < beams
    {
      assert ordered[i] in hits;
    }
  }

  lemma ClearanceUnique(hits: seq<Hit>, beams: int, a: Option<real>, b: Option<real>)
    requires IsClearance(hits, beams, a) && IsClearance(hits, beams, b)
    ensures a == b
  {}

  /** Removing a hit that has no neighbouring hit changes nothing. */
  lemma LoneSpeckleIgnored(hits: seq<Hit>, beams: int, k: nat)
    requires k < |hits| && FromScan(hits, beams)
    requires forall i :: 0 <= i < |hits| && i != k ==>
      !Neighbours(hits[k].beam, hits[i].beam, beams) && !Neighbours(hits[i].beam, hits[k].beam, beams)
    ensures AdjacentClusterClearance(hits[..k] + hits[k + 1..], beams) == AdjacentClusterClearance(hits, beams)
  {
    var rest := hits[..k] + hits[k + 1..];
    assert FromScan(rest, beams);
    forall r, g, h
      ensures Cluster(rest, beams, r, g, h) <==> Cluster(hits, beams, r, g, h)
    {
      assert forall x :: x in hits && x != hits[k] ==> x in rest;
      if Cluster(hits, beams, r, g, h) {
        var i :| 0 <= i < |hits| && hits[i] == g;
        var j :| 0 <= j < |hits| && hits[j] == h;
        assert i != k && j != k;
      }
    }
    forall r
      ensures ClusterAt(rest, beams, r) <==> ClusterAt(hits, beams, r)
    {
      if g, h :| Cluster(hits, beams, r, g, h) {
        assert Cluster(rest, beams, r, g, h);
      }
      if g, h :| Cluster(rest, beams, r, g, h) {
        assert Cluster(hits, beams, r, g, h);
      }
    }
    ClearanceIsNearestCluster(hits, beams);
    ClearanceIsNearestCluster(rest, beams);
    ClearanceUnique(hits, beams, AdjacentClusterClearance(hits, beams), AdjacentClusterClearance(rest, beams));
  }

  // ---------- scans ----------

  /** Beam readings; None stands for a reading that is not finite. */
  type Scan = seq<Option<real>>

  predicate Usable(ranges: Scan, low: real, high: real, i: int) {
    0 <= i < |ranges| && ranges[i].Some? && low <= ranges[i].value <= high
  }

  /** The usable readings among the first n beams that pass a test. */
  function Select(ranges: Scan, low: real, high: real, keep: (int, real) -> bool, n: nat): seq<Hit>
    requires n <= |ranges|
  {
    if n == 0 then []
    else
      var earlier := Select(ranges, low, high, keep, n - 1);
      if Usable(ranges, low, high, n - 1) && keep(n - 1, ranges[n - 1].value)
      then earlier + [Hit(n - 1, ranges[n - 1].value)] else earlier
  }

  lemma {:induction false} SelectIsFromScan(ranges: Scan, low: real, high: real, keep: (int, real) -> bool, n: nat)
    requires n <= |ranges|
    ensures var hits := Select(ranges, low, high, keep, n);
      && FromScan(hits, |ranges|)
      && (forall i :: 0 <= i < |hits| ==> hits[i].beam < n)
      && forall h :: h in hits <==>
           && 0 <= h.beam < n && Usable(ranges, low, high, h.beam)
           && h.range == ranges[h.beam].value && keep(h.beam, h.range)
  {
    if n > 0 {
      SelectIsFromScan(ranges, low, high, keep, n - 1);
    }
  }

  // ----- sectors; degrees(i) is the direction of beam i, normalised to [-180, 180] -----

  predicate InRear(degrees: real) {
    Abs(degrees) >= 150.0
  }

  predicate InSide(degrees: real, direction: int) {
    70.0 <= (if direction == 1 then degrees else -degrees) <= 155.0
  }

  function SectorClearance(ranges: Scan, low: real, high: real, keep: (int, real) -> bool): real {
    match AdjacentClusterClearance(Select(ranges, low, high, keep, |ranges|), |ranges|)
    case None => 0.0
    case Some(c) => c
  }

  /** i and j are different usable neighbouring beams that pass the test, the worse at range r. */
  ghost predicate SeenCluster(ranges: Scan, low: real, high: real, keep: (int, real) -> bool, r: real, i: int, j: int) {
    && i != j && Neighbours(i, j, |ranges|)
    && Usable(ranges, low, high, i) && keep(i, ranges[i].value)
    && Usable(ranges, low, high, j) && keep(j, ranges[j].value)
    && r == Max(ranges[i].value, ranges[j].value)
  }

  ghost predicate SeenAt(ranges: Scan, low: real, high: real, keep: (int, real) -> bool, r: real) {
    exists i, j :: SeenCluster(ranges, low, high, keep, r, i, j)
  }

  ghost predicate IsNearest(ranges: Scan, low: real, high: real, keep: (int, real) -> bool, c: Option<real>) {
    match c
    case None => forall r :: !SeenAt(ranges, low, high, keep, r)
    case Some(m) => SeenAt(ranges, low, high, keep, m) && forall r :: SeenAt(ranges, low, high, keep, r) ==> m <= r
  }

  /** What any guarded scan reports: the nearest pair of neighbouring beams that pass its test. */
  lemma SelectedClearance(ranges: Scan, low: real, high: real, keep: (int, real) -> bool)
    ensures IsNearest(ranges, low, high, keep,
                      AdjacentClusterClearance(Select(ranges, low, high, keep, |ranges|), |ranges|))
  {
    var n := |ranges|;
    var hits := Select(ranges, low, high, keep, n);
    SelectIsFromScan(ranges, low, high, keep, n);
    ClearanceIsNearestCluster(hits, n);
    forall r
      ensures ClusterAt(hits, n, r) <==> SeenAt(ranges, low, high, keep, r)
    {
      if g, h :| Cluster(hits, n, r, g, h) {
        assert SeenCluster(ranges, low, high, keep, r, g.beam, h.beam);
      }
      if i, j :| SeenCluster(ranges, low, high, keep, r, i, j) {
        assert Cluster(hits, n, r, Hit(i, ranges[i].value), Hit(j, ranges[j].value));
      }
    }
  }

  function RearTest(degrees: int -> real): (int, real) -> bool {
    (i, r) => InRear(degrees(i))
  }

  function SideTest(degrees: int -> real, direction: int): (int, real) -> bool {
    (i, r) => InSide(degrees(i), direction)
  }

  method RobustRearClearance(ranges: Scan, degrees: int -> real, low: real, high: real) returns (clearance: real)
    ensures clearance == SectorClearance(ranges, low, high, RearTest(degrees))
  {
    var values: seq<Hit> := [];
    for index := 0 to |ranges|
      invariant values == Select(ranges, low, high, RearTest(degrees), index)
    {
      if ranges[index].None? || !(low <= ranges[index].value <= high) {
        continue;
      }
      if Abs(degrees(index)) >= 150.0 {
        values := values + [Hit(index, ranges[index].value)];
      }
    }
    var found := AdjacentClusterClearance(values, |ranges|);
    return if found.None? then 0.0 else found.value;
  }

  datatype SideResult = InvalidDirection | Side(clearance: real)

  method RobustTurnSideClearance(ranges: Scan, degrees: int -> real, low: real, high: real, direction: int)
    returns (result: SideResult)
    ensures result == if direction != -1 && direction != 1 then InvalidDirection
                      else Side(SectorClearance(ranges, low, high, SideTest(degrees, direction)))
  {
    if direction != -1 && direction != 1 {
      return InvalidDirection;
    }
    var values: seq<Hit> := [];
    for index := 0 to |ranges|
      invariant values == Select(ranges, low, high, SideTest(degrees, direction), index)
    {
      if ranges[index].None? || !(low <= ranges[index].value <= high) {
        continue;
      }
      var signedDegrees := if direction == 1 then degrees(index) else -degrees(index);
      if 70.0 <= signedDegrees <= 155.0 {
        values := values + [Hit(index, ranges[index].value)];
      }
    }
    var found := AdjacentClusterClearance(values, |ranges|);
    return Side(if found.None? then 0.0 else found.value);
  }

  /** One pass over the scan yields what the three separate scans yield. */
  method RecoverySectorClearances(ranges: Scan, degrees: int -> real, low: real, high: real)
    returns (rear: real, left: real, right: real)
    ensures rear == SectorClearance(ranges, low, high, RearTest(degrees))
    ensures left == SectorClearance(ranges, low, high, SideTest(degrees, 1))
    ensures right == SectorClearance(ranges, low, high, SideTest(degrees, -1))
  {
    var rears: seq<Hit>, lefts: seq<Hit>, rights: seq<Hit> := [], [], [];
    for index := 0 to |ranges|
      invariant rears == Select(ranges, low, high, RearTest(degrees), index)
      invariant lefts == Select(ranges, low, high, SideTest(degrees, 1), index)
      invariant rights == Select(ranges, low, high, SideTest(degrees, -1), index)
    {
      if ranges[index].None? || !(low <= ranges[index].value <= high) {
        continue;
      }
      var d := degrees(index);
      var sample := Hit(index, ranges[index].value);
      if Abs(d) >= 150.0 {
        rears := rears + [sample];
      }
      if 70.0 <= d <= 155.0 {
        lefts := lefts + [sample];
      } else if -155.0 <= d <= -70.0 {
        rights := rights + [sample];
      }
    }
    var r, l, g := AdjacentClusterClearance(rears, |ranges|), AdjacentClusterClearance(lefts, |ranges|),
                   AdjacentClusterClearance(rights, |ranges|);
    rear := if r.None? then 0.0 else r.value;
    left := if l.None? then 0.0 else l.value;
    right := if g.None? then 0.0 else g.value;
  }

  // ---------- the straight sweep ----------

  /** Where beam i at a given range lies, from the cosine and sine of its direction. */
  datatype Geometry = Geometry(cosine: int -> real, sine: int -> real)

  function PointX(g: Geometry, i: int, range: real): real {
    LIDAR_X + range * g.cosine(i)
  }

  function PointY(g: Geometry, i: int, range: real): real {
    LIDAR_Y + range * g.sine(i)
  }

  predicate InPadded(x: real, y: real) {
    && FOOTPRINT_MIN_X - PADDING <= x <= FOOTPRINT_MAX_X + PADDING
    && FOOTPRINT_MIN_Y - PADDING <= y <= FOOTPRINT_MAX_Y + PADDING
  }

  function SweepLength(distance: real): (d: real)
    ensures d >= 0.01
  {
    Max(0.01, Abs(distance))
  }

  function Ceiling(x: real): int {
    -(-x).Floor
  }

  function Steps(length: real): (n: int)
    ensures n >= 6
  {
    var c := Ceiling(length / 0.01);
    if c > 6 then c else 6
  }

  /** direction times v, for a direction of 1 or -1. */
  function Signed(direction: int, v: real): real {
    if direction == 1 then v else -v
  }

  function Pose(direction: int, length: real, step: int, steps: int): real
    requires steps > 0
  {
    Signed(direction, length * step as real / steps as real)
  }

  /** The point only overlaps at the end of the chassis that the motion leaves behind. */
  predicate Excused(direction: int, x: real, y: real) {
    InPadded(x, y) && Signed(direction, x) < 0.0
  }

  predicate Covers(direction: int, x: real, y: real, moved: real) {
    InPadded(x - Signed(direction, moved), y)
  }

  /** One of the sampled poses covers the point. */
  predicate SampledHit(direction: int, length: real, x: real, y: real) {
    exists step :: 1 <= step <= Steps(length) && InPadded(x - Pose(direction, length, step, Steps(length)), y)
  }

  /** The moving footprint really covers the point at some displacement along the way. */
  ghost predicate SweptOver(direction: int, length: real, x: real, y: real) {
    exists moved :: 0.0 <= moved <= length && Covers(direction, x, y, moved)
  }

  lemma NonNegativeFactor(r: real, x: real)
    requires r > 0.0 && r * x >= 0.0
    ensures x >= 0.0
  {}

  lemma StepSize(length: real, n: int)
    requires length >= 0.01 && n == Steps(length)
    ensures 0.0 < length / n as real <= 0.01 && n as real * (length / n as real) == length
  {
    var r := n as real;
    var h := length / r;
    assert r >= length / 0.01;
    assert r * h == length;
    assert r * (0.01 - h) == r * 0.01 - length;
    NonNegativeFactor(r, 0.01 - h);
    NonNegativeFactor(r, h);
  }

  /** Along one axis, with steps of size h: an interval wider than a step that the motion reaches
      within n steps is hit by one of them. */
  lemma StepInto(p: real, low: real, high: real, h: real, n: int, moved: real) returns (step: int)
    requires 0.0 < h <= 0.01 && n >= 1 && low <= -0.01 && high >= 0.01
    requires 0.0 <= moved <= n as real * h && low <= p - moved <= high
    requires low <= p <= high ==> p >= 0.0
    ensures 1 <= step <= n && low <= p - step as real * h <= high
  {
    if p <= high {
      step := 1;
    } else {
      var q := (p - high) / h;
      assert q * h == p - high;
      step := Ceiling(q);
      CeilingTimes(q, h, step);
      assert step <= n by {
        NonNegativeFactor(h, n as real - q);
      }
    }
  }

  lemma CeilingTimes(q: real, h: real, k: int)
    requires h > 0.0 && q * h > 0.0 && k == Ceiling(q)
    ensures k >= 1 && q * h <= k as real * h < q * h + h
  {
    var r := k as real;
    assert q <= r < q + 1.0;
    NonNegativeFactor(h, q);
    assert (r - q) * h >= 0.0;
    assert (q + 1.0 - r) * h > 0.0;
  }

  lemma PoseIsSteps(direction: int, length: real, step: int, n: int)
    requires n > 0
    ensures Pose(direction, length, step, n) == Signed(direction, step as real * (length / n as real))
  {
    var h := length / n as real;
    assert h * n as real == length;
    assert length * step as real == step as real * h * n as real;
  }

  lemma StepWithin(step: int, n: int, h: real, length: real)
    requires 0 <= step <= n && h > 0.0 && n as real * h == length
    ensures 0.0 <= step as real * h <= length
  {
    assert (n - step) as real * h >= 0.0;
  }

  lemma Spacing(direction: int, length: real, n: int) returns (h: real)
    requires length >= 0.01 && n == Steps(length)
    ensures 0.0 < h <= 0.01 && n as real * h == length
    ensures forall step :: Pose(direction, length, step, n) == Signed(direction, step as real * h)
  {
    h := length / n as real;
    StepSize(length, n);
    forall step
      ensures Pose(direction, length, step, n) == Signed(direction, step as real * h)
    {
      PoseIsSteps(direction, length, step, n);
    }
  }

  /** Every sampled pose is a real displacement between zero and the full length. */
  lemma SampleMoves(direction: int, length: real, step: int, n: int) returns (moved: real)
    requires length >= 0.01 && n == Steps(length) && 1 <= step <= n
    ensures 0.0 <= moved <= length && Pose(direction, length, step, n) == Signed(direction, moved)
  {
    var h := Spacing(direction, length, n);
    moved := step as real * h;
    assert 0.0 <= moved <= length by {
      StepWithin(step, n, h, length);
    }
  }

  /** A displacement that covers the point fixes a sampled step that covers it too. */
  lemma MoveIsSampled(direction: int, x: real, y: real, h: real, n: int, moved: real) returns (step: int)
    requires 0.0 < h <= 0.01 && n >= 1 && 0.0 <= moved <= n as real * h
    requires Covers(direction, x, y, moved) && !Excused(direction, x, y)
    ensures 1 <= step <= n && Covers(direction, x, y, step as real * h)
  {
    if direction == 1 {
      step := StepInto(x, FOOTPRINT_MIN_X - PADDING, FOOTPRINT_MAX_X + PADDING, h, n, moved);
    } else {
      step := StepInto(-x, -(FOOTPRINT_MAX_X + PADDING), -(FOOTPRINT_MIN_X - PADDING), h, n, moved);
    }
  }

  lemma SampleIsDisplacement(direction: int, length: real, x: real, y: real)
    requires length >= 0.01 && SampledHit(direction, length, x, y)
    ensures SweptOver(direction, length, x, y)
  {
    var step :| 1 <= step <= Steps(length) && InPadded(x - Pose(direction, length, step, Steps(length)), y);
    var moved := SampleMoves(direction, length, step, Steps(length));
    assert Covers(direction, x, y, moved);
  }

  lemma DisplacementIsSampled(direction: int, length: real, x: real, y: real)
    requires length >= 0.01 && !Excused(direction, x, y) && SweptOver(direction, length, x, y)
    ensures SampledHit(direction, length, x, y)
  {
    var n := Steps(length);
    var moved :| 0.0 <= moved <= length && Covers(direction, x, y, moved);
    var h := Spacing(direction, length, n);
    var step := MoveIsSampled(direction, x, y, h, n, moved);
    assert InPadded(x - Pose(direction, length, step, n), y);
  }

  /** The sampled sweep is exact: a point that is not excused is hit by a sample exactly when the
      padded footprint covers it at some real displacement between zero and the full length. */
  lemma SweepIsExact(direction: int, length: real, x: real, y: real)
    requires length >= 0.01 && !Excused(direction, x, y)
    ensures SampledHit(direction, length, x, y) <==> SweptOver(direction, length, x, y)
  {
    if SampledHit(direction, length, x, y) {
      SampleIsDisplacement(direction, length, x, y);
    }
    if SweptOver(direction, length, x, y) {
      DisplacementIsSampled(direction, length, x, y);
    }
  }

  /** Whether the sweep loop reports a beam. */
  function SweepTest(g: Geometry, direction: int, length: real): (int, real) -> bool {
    (i, r) => !Excused(direction, PointX(g, i, r), PointY(g, i, r))
              && SampledHit(direction, length, PointX(g, i, r), PointY(g, i, r))
  }

  datatype SweepResult = InvalidMotion | Swept(clearance: Option<real>)

  method SweptStraightObstacleDistance(
      ranges: Scan, g: Geometry, low: real, high: real, direction: int, distance: real)
    returns (result: SweepResult)
    ensures result == if direction != -1 && direction != 1 then InvalidMotion
      else Swept(AdjacentClusterClearance(
             Select(ranges, low, high, SweepTest(g, direction, SweepLength(distance)), |ranges|), |ranges|))
  {
    if direction != -1 && direction != 1 {
      return InvalidMotion;
    }
    var length := SweepLength(distance);
    var steps := Steps(length);
    var collisions: seq<Hit> := [];
    for index := 0 to |ranges|
      invariant collisions == Select(ranges, low, high, SweepTest(g, direction, length), index)
    {
      if ranges[index].None? || !(low <= ranges[index].value <= high) {
        continue;
      }
      var range := ranges[index].value;
      var x, y := PointX(g, index, range), PointY(g, index, range);
      if InPadded(x, y) && Signed(direction, x) < 0.0 {
        continue;
      }
      var step, found := 1, false;
      while step <= steps && !found
        invariant 1 <= step <= steps + 1
        invariant found ==> SampledHit(direction, length, x, y)
        invariant !found ==> forall k :: 1 <= k < step ==> !InPadded(x - Pose(direction, length, k, steps), y)
        decreases steps - step, !found
      {
        if InPadded(x - Pose(direction, length, step, steps), y) {
          found := true;
        } else {
          step := step + 1;
        }
      }
      if found {
        collisions := collisions + [Hit(index, range)];
      }
    }
    return Swept(AdjacentClusterClearance(collisions, |ranges|));
  }

  /** The continuous sweep's own test of a beam. */
  ghost function RealTest(g: Geometry, direction: int, length: real): (int, real) -> bool {
    (i, r) => !Excused(direction, PointX(g, i, r), PointY(g, i, r))
              && SweptOver(direction, length, PointX(g, i, r), PointY(g, i, r))
  }

  /** The reported obstacle is the nearest pair of neighbouring beams that the continuous sweep
      meets, and none is reported exactly when the continuous sweep meets none. */
  lemma StraightSweepMeaning(ranges: Scan, g: Geometry, low: real, high: real, direction: int, distance: real)
    ensures var length := SweepLength(distance);
      IsNearest(ranges, low, high, RealTest(g, direction, length),
                AdjacentClusterClearance(
                  Select(ranges, low, high, SweepTest(g, direction, length), |ranges|), |ranges|))
  {
    var length := SweepLength(distance);
    var keep, real' := SweepTest(g, direction, length), RealTest(g, direction, length);
    forall i, r
      ensures keep(i, r) == real'(i, r)
    {
      TestsAgree(g, direction, length, i, r);
    }
    SelectedClearance(ranges, low, high, keep);
    SameTestSameNearest(ranges, low, high, keep, real',
                        AdjacentClusterClearance(Select(ranges, low, high, keep, |ranges|), |ranges|));
  }

  lemma TestsAgree(g: Geometry, direction: int, length: real, i: int, range: real)
    requires length >= 0.01
    ensures SweepTest(g, direction, length)(i, range) == RealTest(g, direction, length)(i, range)
  {
    var x, y := PointX(g, i, range), PointY(g, i, range);
    if !Excused(direction, x, y) {
      SweepIsExact(direction, length, x, y);
    }
  }

  lemma SameTestSameNearest(
      ranges: Scan, low: real, high: real, a: (int, real) -> bool, b: (int, real) -> bool, c: Option<real>)
    requires (forall i, r :: a(i, r) == b(i, r)) && IsNearest(ranges, low, high, a, c)
    ensures IsNearest(ranges, low, high, b, c)
  {
    forall r
      ensures SeenAt(ranges, low, high, a, r) <==> SeenAt(ranges, low, high, b, r)
    {
      if i, j :| SeenCluster(ranges, low, high, a, r, i, j) {
        assert SeenCluster(ranges, low, high, b, r, i, j);
      }
      if i, j :| SeenCluster(ranges, low, high, b, r, i, j) {
        assert SeenCluster(ranges, low, high, a, r, i, j);
      }
    }
  }
}
