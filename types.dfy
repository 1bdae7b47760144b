/**
 * The exporter's value types (src/Types.h): vertices with their tolerance
 * comparisons, joints, the synthetic Root and per-frame joint transforms.
 * Floating-point fields are modelled as reals.
 */
module Types {

  /** Absolute tolerance of every vertex comparison (1e-6). */
  const Tolerance: real := 0.000001

  function Abs(x: real): real { if x < 0.0 then -x else x }

  /** `fabs(a - b) < 1e-6`. */
  predicate Near(a: real, b: real) { Abs(a - b) < Tolerance }

  datatype Vec3 = Vec3(x: real, y: real, z: real)
  datatype Rgb = Rgb(r: real, g: real, b: real)
  datatype Quat = Quat(x: real, y: real, z: real, w: real)

  const Zero3 := Vec3(0.0, 0.0, 0.0)
  const White := Rgb(1.0, 1.0, 1.0)

  /** The four joint-ID slots and the four weight slots of a vertex. */
  type JointSlots = s: seq<int> | |s| == 4 witness [0, 0, 0, 0]
  type WeightSlots = s: seq<real> | |s| == 4 witness [0.0, 0.0, 0.0, 0.0]

  const NoJoints: JointSlots := [0, 0, 0, 0]
  const NoWeights: WeightSlots := [0.0, 0.0, 0.0, 0.0]

  datatype Vertex = Vertex(
    position: Vec3,
    color: Rgb,
    normal: Vec3,
    u: real,
    v: real,
    jointID: JointSlots,
    weight: WeightSlots)

  /** `Vertex{}`: every field value-initialised to zero. */
  const DefaultVertex := Vertex(Zero3, Rgb(0.0, 0.0, 0.0), Zero3, 0.0, 0.0, NoJoints, NoWeights)

  /**
   * `MPoint::isEquivalent` / `MFloatVector::isEquivalent`, taken to be a
   * strict bound on every coordinate (the Maya library's own test is not
   * part of this model).
   */
  predicate IsEquivalent(a: Vec3, b: Vec3, tolerance: real) {
    Abs(a.x - b.x) < tolerance && Abs(a.y - b.y) < tolerance && Abs(a.z - b.z) < tolerance
  }

  /**
   * `Vertex::Compare`: positions only. The test is symmetric, accepts equal
   * positions, and ignores every other field.
   */
  predicate Compare(a: Vertex, b: Vertex): (r: bool)
    ensures r <==> IsEquivalent(b.position, a.position, Tolerance)
    ensures a.position == b.position ==> r
  {
    IsEquivalent(a.position, b.position, Tolerance)
  }

  /**
   * `Vertex::operator==`: position, colour, normal, u and v, each within the
   * tolerance. It is symmetric, implies `Compare`, holds of vertices with the
   * same hash input, and never reads the joint and weight slots.
   */
  predicate Equal(a: Vertex, b: Vertex): (r: bool)
    ensures r ==> Compare(a, b) && Compare(b, a)
    ensures HashFields(a) == HashFields(b) ==> r
    ensures r <==> EqualFields(HashFields(b), HashFields(a))
  {
    && IsEquivalent(a.position, b.position, Tolerance)
    && Near(a.color.r, b.color.r)
    && Near(a.color.g, b.color.g)
    && Near(a.color.b, b.color.b)
    && IsEquivalent(a.normal, b.normal, Tolerance)
    && Near(a.u, b.u)
    && Near(a.v, b.v)
  }

  lemma EqualIsReflexiveAndSymmetric(a: Vertex, b: Vertex)
    ensures Equal(a, a)
    ensures Equal(a, b) <==> Equal(b, a)
  {
  }

  lemma EqualImpliesCompare(a: Vertex, b: Vertex)
    ensures Equal(a, b) ==> Compare(a, b)
  {
  }

  /**
   * The eleven values `std::hash<Vertex>` feeds into its seed, in order:
   * position x, y, z; colour r, g, b; normal x, y, z; u; v.
   */
  datatype HashKey = HashKey(px: real, py: real, pz: real,
                             r: real, g: real, b: real,
                             nx: real, ny: real, nz: real,
                             u: real, v: real)

  function HashFields(x: Vertex): HashKey {
    HashKey(x.position.x, x.position.y, x.position.z,
            x.color.r, x.color.g, x.color.b,
            x.normal.x, x.normal.y, x.normal.z,
            x.u, x.v)
  }

  /**
   * The hash reads exactly the fields `==` reads: two vertices have the same
   * hash input iff they agree on position, colour, normal, u and v; the
   * joint IDs and weights never enter it.
   */
  lemma HashCoversEqualityFields(a: Vertex, b: Vertex)
    ensures HashFields(a) == HashFields(b) <==>
      (a.position == b.position && a.color == b.color && a.normal == b.normal && a.u == b.u && a.v == b.v)
    ensures HashFields(a) == HashFields(b) ==> Equal(a, b)
    ensures HashFields(a.(jointID := b.jointID, weight := b.weight)) == HashFields(a)
  {
  }

  /** Every hashed value of `a` within the tolerance of the same value of `b`. */
  predicate EqualFields(a: HashKey, b: HashKey) {
    && Near(a.px, b.px) && Near(a.py, b.py) && Near(a.pz, b.pz)
    && Near(a.r, b.r) && Near(a.g, b.g) && Near(a.b, b.b)
    && Near(a.nx, b.nx) && Near(a.ny, b.ny) && Near(a.nz, b.nz)
    && Near(a.u, b.u) && Near(a.v, b.v)
  }

  /** The eleven hashed values in the order the seed takes them. */
  function HashValues(k: HashKey): (vs: seq<real>)
    ensures |vs| == 11
  {
    [k.px, k.py, k.pz, k.r, k.g, k.b, k.nx, k.ny, k.nz, k.u, k.v]
  }

  /** `size_t`, 64 bits wide. */
  type Size = bv64

  /** `customHash`: one value folded into the seed, with `size_t` wrap-around. */
  function Mix(seed: Size, value: Size): Size {
    seed ^ (value + 1954435769 + (seed << 6) + (seed >> 2))
  }

  /** The seed after folding in `values`, one after the other, through the per-value hash `hashOf`. */
  function Fold(hashOf: real -> Size, seed: Size, values: seq<real>): Size {
    if values == [] then seed else Mix(Fold(hashOf, seed, values[..|values| - 1]), hashOf(values[|values| - 1]))
  }

  /**
   * `std::hash<Vertex>`: a zero seed, then the eleven hashed values in
   * order. `hashOf` stands for `std::hash<double>` and `std::hash<float>`.
   */
  method HashVertex(v: Vertex, hashOf: real -> Size) returns (seed: Size)
    ensures seed == Fold(hashOf, 0, HashValues(HashFields(v)))
  {
    var values := HashValues(HashFields(v));
    seed := 0;
    for i := 0 to 11
      invariant seed == Fold(hashOf, 0, values[..i])
    {
      assert values[..i + 1][..i] == values[..i];
      seed := Mix(seed, hashOf(values[i]));
    }
    assert values[..11] == values;
  }

  /**
   * The hash of a vertex is a function of its hashed fields alone:
   * vertices that agree on position, colour, normal, u and v hash alike
   * whatever their joint IDs and weights.
   */
  lemma HashIgnoresSlots(hashOf: real -> Size, a: Vertex, b: Vertex)
    requires a.position == b.position && a.color == b.color && a.normal == b.normal && a.u == b.u && a.v == b.v
    ensures Fold(hashOf, 0, HashValues(HashFields(a))) == Fold(hashOf, 0, HashValues(HashFields(b)))
  {
    HashCoversEqualityFields(a, b);
  }

  /** `==` depends on nothing but the hashed fields. */
  lemma EqualReadsOnlyHashedFields(a: Vertex, a': Vertex, b: Vertex)
    requires HashFields(a) == HashFields(a')
    ensures Equal(a, b) <==> Equal(a', b)
  {
    HashCoversEqualityFields(a, a');
  }

  /** Which step of `MAF_Helper::GetAnimationData` to run. */
  datatype AnimationGatheringInformation = JointHierarchy | JointTransformationOverTheTimeline | Both

  datatype MeshType = Animated | Static

  /** A reference to a node of the host scene (an `MObject` or `MDagPath`). */
  type Handle = int

  /** The null `MObject` a default-constructed `Root` holds. */
  const NullHandle: Handle := -1

  datatype JointTransform = JointTransform(
    position: Vec3,
    eulerRotation: Vec3,
    rotation: Quat,
    scale: Vec3,
    shear: Vec3)

  /**
   * A joint of the influence list. `parentID == -1` means the parent is the
   * Root; `transformPerFrame[n]` is the transform at frame n.
   */
  datatype Joint = Joint(
    parentID: int,
    influenceID: int,
    childrenIDs: seq<int>,
    name: string,
    transformPerFrame: seq<JointTransform>,
    ownDagPath: Handle,
    childrenObjs: seq<Handle>)

  /** The synthetic Root: a host node outside the influence list, with the indices of its children. */
  datatype Root = Root(rootObj: Handle, childrenIDs: seq<int>)

  const DefaultRoot := Root(NullHandle, [])
}
