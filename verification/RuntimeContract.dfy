/** The physical-profile contract that a started navigation stack must meet
    (amr_base_driver/nav2_activation_gate.py, lines 23-87). */
module RuntimeContract {
  import opened Common

  datatype Node = LocalCostmap | GlobalCostmap | ControllerServer | CollisionMonitor

  /** A parameter value as read back; Absent is a parameter that was not read. */
  datatype Value =
    | Absent
    | Flag(flag: bool)
    | Whole(whole: int)
    | Decimal(decimal: real)
    | Text(text: string)
    | Texts(texts: seq<string>)
    | Points(points: seq<seq<real>>)

  type Values = map<string, Value>
  type Readings = map<Node, Values>

  /** How text is read as a number and as a literal list of points. */
  datatype Reader = Reader(number: string -> Option<real>, literal: string -> Value)

  const NODES := [LocalCostmap, GlobalCostmap, ControllerServer, CollisionMonitor]

  const FOOTPRINT := Points([[0.303, 0.190], [0.303, -0.190], [-0.087, -0.190], [-0.087, 0.190]])

  function Expected(node: Node): seq<(string, Value)> {
    match node
    case LocalCostmap => [
      ("global_frame", Text("odom")), ("robot_base_frame", Text("base_footprint")), ("rolling_window", Flag(true)),
      ("width", Decimal(3.0)), ("height", Decimal(3.0)), ("resolution", Decimal(0.05)),
      ("footprint_padding", Decimal(0.02)), ("plugins", Texts(["obstacle_layer", "inflation_layer"]))]
    case GlobalCostmap => [
      ("global_frame", Text("map")), ("robot_base_frame", Text("base_footprint")), ("resolution", Decimal(0.03)),
      ("footprint_padding", Decimal(0.02)), ("plugins", Texts(["static_layer", "obstacle_layer", "inflation_layer"]))]
    case ControllerServer => [
      ("controller_plugins", Texts(["FollowPath"])), ("odom_topic", Text("/odometry/filtered")),
      ("FollowPath.use_collision_detection", Flag(true)), ("FollowPath.use_rotate_to_heading", Flag(true)),
      ("FollowPath.allow_reversing", Flag(false))]
    case CollisionMonitor => [
      ("base_frame_id", Text("base_footprint")), ("odom_frame_id", Text("odom")),
      ("cmd_vel_in_topic", Text("/cmd_vel_smoothed")), ("cmd_vel_out_topic", Text("/cmd_vel_navigation")),
      ("polygons", Texts(["FootprintApproach"])),
      ("FootprintApproach.footprint_topic", Text("/local_costmap/published_footprint")),
      ("observation_sources", Texts(["scan"])), ("scan.topic", Text("/scan"))]
  }

  predicate IsCostmap(node: Node) {
    node == LocalCostmap || node == GlobalCostmap
  }

  function Lookup<K(==), V>(m: map<K, V>, k: K, missing: V): V {
    if k in m then m[k] else missing
  }

  /** The number a value stands for where a float is expected. */
  function AsNumber(v: Value, reader: Reader): Option<real> {
    match v
    case Flag(b) => Some(if b then 1.0 else 0.0)
    case Whole(n) => Some(n as real)
    case Decimal(x) => Some(x)
    case Text(t) => reader.number(t)
    case _ => None
  }

  predicate Close(x: real, y: real) {
    Abs(x - y) <= Max(0.000000001 * Max(Abs(x), Abs(y)), 0.000001)
  }

  /** Equality of values: a flag equals the number it counts as. */
  predicate SameValue(a: Value, b: Value) {
    || a == b
    || (b.Flag? && a.Whole? && a.whole == (if b.flag then 1 else 0))
    || (b.Flag? && a.Decimal? && a.decimal == (if b.flag then 1.0 else 0.0))
  }

  predicate Equivalent(actual: Value, expected: Value, reader: Reader) {
    if expected.Decimal? then
      var x := AsNumber(actual, reader);
      x.Some? && Close(x.value, expected.decimal)
    else SameValue(actual, expected)
  }

  /** A number of the profile, none of which exceeds 100, is met exactly by a value that reads as a
      number at most a millionth away from it. */
  lemma NumbersMean(actual: Value, expected: real, reader: Reader)
    requires -100.0 <= expected <= 100.0
    ensures Equivalent(actual, Decimal(expected), reader) <==>
            && AsNumber(actual, reader).Some?
            && expected - 0.000001 <= AsNumber(actual, reader).value <= expected + 0.000001
  {
    if AsNumber(actual, reader).Some? {
      var x := AsNumber(actual, reader).value;
      if Close(x, expected) && Abs(x - expected) > 0.000001 {
        assert Abs(x) <= Abs(x - expected) + 100.0;
      }
    }
  }

  predicate FootprintMatches(footprint: Value, reader: Reader) {
    (if footprint.Text? then reader.literal(footprint.text) else footprint) == FOOTPRINT
  }

  /** Everything the profile asks of one node. */
  predicate NodeConforms(node: Node, actual: Values, reader: Reader) {
    && (forall k :: 0 <= k < |Expected(node)| ==>
          Equivalent(Lookup(actual, Expected(node)[k].0, Absent), Expected(node)[k].1, reader))
    && (IsCostmap(node) ==> FootprintMatches(Lookup(actual, "footprint", Absent), reader))
  }

  predicate Conforms(values: Readings, reader: Reader) {
    forall node :: node in NODES ==> NodeConforms(node, Lookup(values, node, map[]), reader)
  }

  datatype Violation = Parameter(node: Node, index: nat, actual: Value) | Footprint(node: Node, actual: Value)

  /** A reported violation is a real one. */
  predicate IsViolation(values: Readings, v: Violation, reader: Reader) {
    var actual := Lookup(values, v.node, map[]);
    match v
    case Parameter(node, index, found) =>
      && index < |Expected(node)|
      && found == Lookup(actual, Expected(node)[index].0, Absent)
      && !Equivalent(found, Expected(node)[index].1, reader)
    case Footprint(node, found) =>
      IsCostmap(node) && found == Lookup(actual, "footprint", Absent) && !FootprintMatches(found, reader)
  }

  method NodeViolations(node: Node, values: Readings, reader: Reader) returns (errors: seq<Violation>)
    ensures forall v :: v in errors <==> v.node == node && IsViolation(values, v, reader)
  {
    errors := [];
    var actual := Lookup(values, node, map[]);
    for k := 0 to |Expected(node)|
      invariant forall v :: v in errors <==>
        v.node == node && v.Parameter? && v.index < k && IsViolation(values, v, reader)
    {
      var found := Lookup(actual, Expected(node)[k].0, Absent);
      if !Equivalent(found, Expected(node)[k].1, reader) {
        errors := errors + [Parameter(node, k, found)];
      }
    }
    if IsCostmap(node) {
      var footprint := Lookup(actual, "footprint", Absent);
      if !FootprintMatches(footprint, reader) {
        errors := errors + [Footprint(node, footprint)];
      }
    }
  }

  /** Exactly the violations are reported, and there are none exactly when all of the contract holds. */
  method ValidateRuntimeParameters(values: Readings, reader: Reader) returns (errors: seq<Violation>)
    ensures forall v :: v in errors <==> IsViolation(values, v, reader)
    ensures errors == [] <==> Conforms(values, reader)
  {
    errors := [];
    for k := 0 to |NODES|
      invariant forall v :: v in errors <==> v.node in NODES[..k] && IsViolation(values, v, reader)
    {
      var more := NodeViolations(NODES[k], values, reader);
      errors := errors + more;
    }
    AllNodes();
    NoViolationsConforms(values, reader, errors);
  }

  lemma AllNodes()
    ensures NODES[..|NODES|] == NODES && forall node: Node :: node in NODES
  {
    assert NODES[0] == LocalCostmap && NODES[1] == GlobalCostmap && NODES[2] == ControllerServer
           && NODES[3] == CollisionMonitor;
    forall node: Node
      ensures node in NODES
    {
      match node {
        case LocalCostmap =>
        case GlobalCostmap =>
        case ControllerServer =>
        case CollisionMonitor =>
      }
    }
  }

  lemma NoViolationsConforms(values: Readings, reader: Reader, errors: seq<Violation>)
    requires forall v :: v in errors <==> IsViolation(values, v, reader)
    ensures errors == [] <==> Conforms(values, reader)
  {
    if errors == [] {
      forall node | node in NODES
        ensures NodeConforms(node, Lookup(values, node, map[]), reader)
      {
        var actual := Lookup(values, node, map[]);
        forall k | 0 <= k < |Expected(node)|
          ensures Equivalent(Lookup(actual, Expected(node)[k].0, Absent), Expected(node)[k].1, reader)
        {
          assert !IsViolation(values, Parameter(node, k, Lookup(actual, Expected(node)[k].0, Absent)), reader);
        }
        assert !IsViolation(values, Footprint(node, Lookup(actual, "footprint", Absent)), reader);
      }
    } else {
      assert errors[0] in errors;
      AllNodes();
    }
  }

  /** A node that was not read, or whose reading failed, never conforms. */
  lemma UnreadNodeFails(values: Readings, reader: Reader, node: Node)
    requires node !in values || forall k :: 0 <= k < |Expected(node)| ==> Expected(node)[k].0 !in values[node]
    ensures !Conforms(values, reader)
  {
    if Conforms(values, reader) {
      ConformsAt(values, reader, node);
      NothingReadFails(node, Lookup(values, node, map[]), reader);
    }
  }

  lemma ConformsAt(values: Readings, reader: Reader, node: Node)
    requires Conforms(values, reader)
    ensures NodeConforms(node, Lookup(values, node, map[]), reader)
  {
    AllNodes();
  }

  lemma NothingReadFails(node: Node, actual: Values, reader: Reader)
    requires Expected(node)[0].0 !in actual
    ensures !NodeConforms(node, actual, reader)
  {
    assert !Equivalent(Absent, Expected(node)[0].1, reader);
  }
}
