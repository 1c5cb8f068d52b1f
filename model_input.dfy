/** The already-parsed model document that Code/Linear3D/Structure.py reads:
    declared table sizes and the node, cross-section, element, load and
    fixed-point records, in document order. */
module ModelInput {

  datatype Vec3 = Vec3(x: real, y: real, z: real)

  /** Per-axis support flags of a fixed point (translation or rotation). */
  datatype Flags3 = Flags3(x: bool, y: bool, z: bool)

  datatype NodeRecord = NodeRecord(id: int, x: real, y: real, z: real)

  /** `dimensions`: a rectangle reads `y` and `z`, a circle reads `radius`. */
  datatype Dimensions = Dimensions(y: real, z: real, radius: real)

  datatype SectionRecord = SectionRecord(id: int, shape: string, dimensions: Dimensions)

  /** `element_type` is the id of the element's cross-section. */
  datatype ElementRecord = ElementRecord(id: int, startNodeId: int, endNodeId: int, elementType: int)

  datatype LoadRecord = LoadRecord(pointId: int, force: Vec3, torque: Vec3)

  datatype FixedPointRecord = FixedPointRecord(pointId: int, translation: Flags3, rotation: Flags3)

  /** The declared counts are plain integers as the document gives them; the
      three table sizes are checked when the tables are allocated. */
  datatype ModelRecord = ModelRecord(
    noOfNodes: int, nodes: seq<NodeRecord>,
    noOfCrosssectionTypes: int, crossSections: seq<SectionRecord>,
    noOfElements: int, elements: seq<ElementRecord>,
    noOfLoads: int, loads: seq<LoadRecord>,
    noOfFixedPoints: int, fixedPoints: seq<FixedPointRecord>)

  // The id each record is put under or looked up by.
  function NodeId(r: NodeRecord): int { r.id }
  function SectionId(r: SectionRecord): int { r.id }
  function ElementId(r: ElementRecord): int { r.id }
  function LoadTarget(r: LoadRecord): int { r.pointId }
  function FixedTarget(r: FixedPointRecord): int { r.pointId }

  // ---------------------------------------------------------------------------
  // Element length, through its square
  // ---------------------------------------------------------------------------

  function Abs(v: real): real { if v < 0.0 then -v else v }

  /** The square of an element's length as the constructor computes it:
      absolute coordinate differences, each squared, summed in the order
      y, x, z. */
  function LengthSquared(a: Vec3, b: Vec3): real
  {
    var yDiff := Abs(a.y - b.y);
    var xDiff := Abs(a.x - b.x);
    var zDiff := Abs(a.z - b.z);
    yDiff * yDiff + xDiff * xDiff + zDiff * zDiff
  }

  /** Taking `abs` first changes nothing: the result is the squared Euclidean
      distance between the two points. */
  lemma LengthSquaredIsSquaredDistance(a: Vec3, b: Vec3)
    ensures LengthSquared(a, b)
            == (a.x - b.x) * (a.x - b.x) + (a.y - b.y) * (a.y - b.y) + (a.z - b.z) * (a.z - b.z)
  {
  }

  /** The squared length does not depend on the order of the endpoints. */
  lemma LengthSquaredSymmetric(a: Vec3, b: Vec3)
    ensures LengthSquared(a, b) == LengthSquared(b, a)
  {
  }

  /** The squared length is never negative, and zero for coinciding
      endpoints. */
  lemma LengthSquaredSign(a: Vec3, b: Vec3)
    ensures LengthSquared(a, b) >= 0.0
    ensures a == b ==> LengthSquared(a, b) == 0.0
  {
  }
}
