/** The construction of the virtual structure in Code/Linear3D/Structure.py:
    id-indexed tables of nodes, cross-sections and elements built from the
    model document, then loads and fixed points written onto the nodes. */
module Linear3D {
  import opened Indexing
  import opened ModelInput

  // ---------------------------------------------------------------------------
  // Cross-sections
  // ---------------------------------------------------------------------------

  datatype CrossSection =
    | SquareCrossSection(id: int, width: real, height: real)
    | CircularCrossSection(id: int, radius: real)

  function ShapeTag(c: CrossSection): string
  {
    match c
    case SquareCrossSection(_, _, _) => "rectangle"
    case CircularCrossSection(_, _) => "circle"
  }

  /** The dimensions record a section is read back from; the entries its
      shape does not read are zero. */
  function DimensionsOf(c: CrossSection): Dimensions
  {
    match c
    case SquareCrossSection(_, width, height) => Dimensions(width, height, 0.0)
    case CircularCrossSection(_, radius) => Dimensions(0.0, 0.0, radius)
  }

  /** The section a record describes: a rectangle of width `dimensions.y`
      and height `dimensions.z`, a circle of radius `dimensions.radius`,
      and nothing for any other shape tag. */
  function MakeSection(r: SectionRecord): (s: Option<CrossSection>)
    ensures s.Some? <==> r.shape == "rectangle" || r.shape == "circle"
    ensures s.Some? ==> s.value.id == r.id && ShapeTag(s.value) == r.shape
    ensures s.Some? && s.value.SquareCrossSection? ==>
              s.value.width == r.dimensions.y && s.value.height == r.dimensions.z
    ensures s.Some? && s.value.CircularCrossSection? ==> s.value.radius == r.dimensions.radius
  {
    if r.shape == "rectangle" then Some(SquareCrossSection(r.id, r.dimensions.y, r.dimensions.z))
    else if r.shape == "circle" then Some(CircularCrossSection(r.id, r.dimensions.radius))
    else None
  }

  /** Every section is read back from the record that describes it. */
  lemma SectionRoundTrip(c: CrossSection)
    ensures MakeSection(SectionRecord(c.id, ShapeTag(c), DimensionsOf(c))) == Some(c)
  {
  }

  // ---------------------------------------------------------------------------
  // Nodes
  // ---------------------------------------------------------------------------

  /** Everything a node carries, as one value. */
  datatype NodeState = NodeState(id: int, position: Vec3, force: Vec3, torque: Vec3,
                                 translation: Flags3, rotation: Flags3)

  const Zero := Vec3(0.0, 0.0, 0.0)
  const Free := Flags3(false, false, false)

  /** A node as the node loop creates it: no load and no support yet. */
  function Unloaded(r: NodeRecord): NodeState
  {
    NodeState(r.id, Vec3(r.x, r.y, r.z), Zero, Zero, Free, Free)
  }

  class Node {
    var id: int
    var px: real
    var py: real
    var pz: real
    var fx: real
    var fy: real
    var fz: real
    var mx: real
    var my: real
    var mz: real
    var tx: bool
    var ty: bool
    var tz: bool
    var rx: bool
    var ry: bool
    var rz: bool

    ghost function State(): NodeState
      reads this
    {
      NodeState(id, Vec3(px, py, pz), Vec3(fx, fy, fz), Vec3(mx, my, mz),
                Flags3(tx, ty, tz), Flags3(rx, ry, rz))
    }

    constructor (id: int, px: real, py: real, pz: real)
      ensures State() == Unloaded(NodeRecord(id, px, py, pz))
    {
      this.id, this.px, this.py, this.pz := id, px, py, pz;
      fx, fy, fz, mx, my, mz := 0.0, 0.0, 0.0, 0.0, 0.0, 0.0;
      tx, ty, tz, rx, ry, rz := false, false, false, false, false, false;
    }

    /** Overwrites the six load components. */
    method SetLoad(force: Vec3, torque: Vec3)
      modifies this
      ensures State() == old(State()).(force := force, torque := torque)
    {
      fx, fy, fz := force.x, force.y, force.z;
      mx, my, mz := torque.x, torque.y, torque.z;
    }

    /** Overwrites the six support flags. */
    method SetSupport(translation: Flags3, rotation: Flags3)
      modifies this
      ensures State() == old(State()).(translation := translation, rotation := rotation)
    {
      tx, ty, tz := translation.x, translation.y, translation.z;
      rx, ry, rz := rotation.x, rotation.y, rotation.z;
    }
  }

  // ---------------------------------------------------------------------------
  // Elements
  // ---------------------------------------------------------------------------

  /** An element shares its end nodes with the node table; its three angles
      are left unset. The length is kept through its square. */
  datatype Element = Element(id: int, startNode: Node, endNode: Node, crossSection: Option<CrossSection>,
                             thetaX: Option<real>, thetaY: Option<real>, thetaZ: Option<real>,
                             lengthSquared: real)

  // ---------------------------------------------------------------------------
  // What the tables hold once the records have been read
  // ---------------------------------------------------------------------------

  /** Slot `k` of the node table after the node loop over `rs`. */
  function PlacedNode(rs: seq<NodeRecord>, n: nat, k: nat): Option<NodeState>
  {
    match LastAt(rs, NodeId, n, k)
    case None => None
    case Some(i) => Some(Unloaded(rs[i]))
  }

  /** A node after the load loop: the last load aimed at slot `k` replaces
      all six load components; without one the node keeps its own. */
  function Loaded(s: NodeState, loads: seq<LoadRecord>, n: nat, k: nat): NodeState
  {
    match LastAt(loads, LoadTarget, n, k)
    case None => s
    case Some(j) => s.(force := loads[j].force, torque := loads[j].torque)
  }

  /** A node after the fixed-point loop: the last fixed point aimed at slot
      `k` replaces all six support flags; without one the node keeps its own. */
  function Supported(s: NodeState, fixedPoints: seq<FixedPointRecord>, n: nat, k: nat): NodeState
  {
    match LastAt(fixedPoints, FixedTarget, n, k)
    case None => s
    case Some(j) => s.(translation := fixedPoints[j].translation, rotation := fixedPoints[j].rotation)
  }

  /** Slot `k` of the node table after the load loop over `loads`. */
  function WithLoads(p: Option<NodeState>, loads: seq<LoadRecord>, n: nat, k: nat): Option<NodeState>
  {
    match p
    case None => None
    case Some(s) => Some(Loaded(s, loads, n, k))
  }

  /** Slot `k` of the node table after the fixed-point loop over `fixedPoints`. */
  function WithSupports(p: Option<NodeState>, fixedPoints: seq<FixedPointRecord>, n: nat, k: nat): Option<NodeState>
  {
    match p
    case None => None
    case Some(s) => Some(Supported(s, fixedPoints, n, k))
  }

  /** Slot `k` of the node table once construction is over. */
  function ExpectedNode(m: ModelRecord, k: nat): Option<NodeState>
    requires m.noOfNodes >= 0
  {
    WithSupports(WithLoads(PlacedNode(m.nodes, m.noOfNodes, k), m.loads, m.noOfNodes, k),
                 m.fixedPoints, m.noOfNodes, k)
  }

  /** Slot `k` of the cross-section table after the section loop over `rs`. */
  function SectionAt(rs: seq<SectionRecord>, n: nat, k: nat): Option<CrossSection>
  {
    match LastAt(rs, SectionId, n, k)
    case None => None
    case Some(i) => MakeSection(rs[i])
  }

  /** When every node id is within the table, the node in slot `k` is the
      one whose id is `k`. */
  lemma PlacedNodeHasOwnId(rs: seq<NodeRecord>, n: nat, k: nat)
    requires forall i :: 0 <= i < |rs| ==> 0 <= rs[i].id < n
    ensures PlacedNode(rs, n, k).Some? ==> PlacedNode(rs, n, k).value.id == k
    ensures PlacedNode(rs, n, k).Some? <==> exists i :: 0 <= i < |rs| && rs[i].id == k
  {
    if PlacedNode(rs, n, k).None? {
      forall i | 0 <= i < |rs|
        ensures rs[i].id != k
      {
        assert Slot(NodeId(rs[i]), n) != Some(k);
      }
    }
  }

  /** A later load aimed at a node replaces whatever the earlier ones set:
      loads are not summed. */
  lemma LastLoadWins(s: NodeState, loads: seq<LoadRecord>, load: LoadRecord, n: nat, k: nat)
    requires Slot(load.pointId, n) == Some(k)
    ensures Loaded(s, loads + [load], n, k) == s.(force := load.force, torque := load.torque)
  {
    assert (loads + [load])[|loads|] == load;
  }

  /** A later fixed point aimed at a node replaces the flags the earlier
      ones set. */
  lemma LastSupportWins(s: NodeState, fixedPoints: seq<FixedPointRecord>, fixedPoint: FixedPointRecord, n: nat, k: nat)
    requires Slot(fixedPoint.pointId, n) == Some(k)
    ensures Supported(s, fixedPoints + [fixedPoint], n, k)
            == s.(translation := fixedPoint.translation, rotation := fixedPoint.rotation)
  {
    assert (fixedPoints + [fixedPoint])[|fixedPoints|] == fixedPoint;
  }

  /** A node no load and no fixed point is aimed at keeps the state the
      node loop gave it: no load and no support. */
  lemma UntargetedNodeKeepsFields(m: ModelRecord, k: nat)
    requires m.noOfNodes >= 0
    requires forall j :: 0 <= j < |m.loads| ==> Slot(m.loads[j].pointId, m.noOfNodes) != Some(k)
    requires forall j :: 0 <= j < |m.fixedPoints| ==> Slot(m.fixedPoints[j].pointId, m.noOfNodes) != Some(k)
    ensures ExpectedNode(m, k) == PlacedNode(m.nodes, m.noOfNodes, k)
    ensures ExpectedNode(m, k).Some? ==>
              ExpectedNode(m, k).value.force == Zero && ExpectedNode(m, k).value.torque == Zero
              && ExpectedNode(m, k).value.translation == Free && ExpectedNode(m, k).value.rotation == Free
  {
    assert forall j :: 0 <= j < |m.loads| ==> Slot(LoadTarget(m.loads[j]), m.noOfNodes) != Some(k);
    assert forall j :: 0 <= j < |m.fixedPoints| ==> Slot(FixedTarget(m.fixedPoints[j]), m.noOfNodes) != Some(k);
  }

  // ---------------------------------------------------------------------------
  // Construction errors: the exceptions the constructor raises
  // ---------------------------------------------------------------------------

  /** The record (by its position in its own list) at which construction
      stops, and why. */
  datatype BuildError =
    | NegativeNodeCount                    // np.empty(no_of_nodes): ValueError
    | NegativeSectionCount                 // np.empty(no_of_crosssection_types)
    | NegativeElementCount                 // np.empty(no_of_elements)
    | NodeIdOutOfRange(record: nat)        // nodes.put(id, ...)
    | SectionIdOutOfRange(record: nat)     // cross_sections.put(id, ...)
    | StartNodeOutOfRange(record: nat)     // nodes[start_node_id]
    | EndNodeOutOfRange(record: nat)       // nodes[end_node_id]
    | ElementTypeOutOfRange(record: nat)   // cross_sections[element_type]
    | StartNodeMissing(record: nat)        // `.p_y` of an empty node slot
    | EndNodeMissing(record: nat)
    | ElementIdOutOfRange(record: nat)     // elements.put(id, ...)
    | LoadTargetOutOfRange(record: nat)    // nodes[point_id]
    | LoadTargetMissing(record: nat)       // load fields set on an empty slot
    | FixedTargetOutOfRange(record: nat)
    | FixedTargetMissing(record: nat)

  /** Some node record was put at slot `k`. */
  predicate Placed(m: ModelRecord, k: nat)
    requires m.noOfNodes >= 0
  {
    LastAt(m.nodes, NodeId, m.noOfNodes, k).Some?
  }

  function NodeFault(m: ModelRecord, i: nat): Option<BuildError>
    requires m.noOfNodes >= 0 && i < |m.nodes|
  {
    if Slot(m.nodes[i].id, m.noOfNodes).None? then Some(NodeIdOutOfRange(i)) else None
  }

  function SectionFault(m: ModelRecord, i: nat): Option<BuildError>
    requires m.noOfCrosssectionTypes >= 0 && i < |m.crossSections|
  {
    if Slot(m.crossSections[i].id, m.noOfCrosssectionTypes).None? then Some(SectionIdOutOfRange(i)) else None
  }

  /** The checks on one element record, in the order the element loop
      performs them. */
  function ElementFault(m: ModelRecord, i: nat): Option<BuildError>
    requires CountsValid(m) && i < |m.elements|
  {
    var e := m.elements[i];
    var start := Slot(e.startNodeId, m.noOfNodes);
    var end := Slot(e.endNodeId, m.noOfNodes);
    if start.None? then Some(StartNodeOutOfRange(i))
    else if end.None? then Some(EndNodeOutOfRange(i))
    else if Slot(e.elementType, m.noOfCrosssectionTypes).None? then Some(ElementTypeOutOfRange(i))
    else if !Placed(m, start.value) then Some(StartNodeMissing(i))
    else if !Placed(m, end.value) then Some(EndNodeMissing(i))
    else if Slot(e.id, m.noOfElements).None? then Some(ElementIdOutOfRange(i))
    else None
  }

  function LoadFault(m: ModelRecord, i: nat): Option<BuildError>
    requires m.noOfNodes >= 0 && i < |m.loads|
  {
    var target := Slot(m.loads[i].pointId, m.noOfNodes);
    if target.None? then Some(LoadTargetOutOfRange(i))
    else if !Placed(m, target.value) then Some(LoadTargetMissing(i))
    else None
  }

  function FixedFault(m: ModelRecord, i: nat): Option<BuildError>
    requires m.noOfNodes >= 0 && i < |m.fixedPoints|
  {
    var target := Slot(m.fixedPoints[i].pointId, m.noOfNodes);
    if target.None? then Some(FixedTargetOutOfRange(i))
    else if !Placed(m, target.value) then Some(FixedTargetMissing(i))
    else None
  }

  /** The three tables can be allocated. */
  predicate CountsValid(m: ModelRecord)
  {
    m.noOfNodes >= 0 && m.noOfCrosssectionTypes >= 0 && m.noOfElements >= 0
  }

  /** No count and no record of the document makes construction raise. */
  ghost predicate Buildable(m: ModelRecord)
  {
    && CountsValid(m)
    && (forall i :: 0 <= i < |m.nodes| ==> NodeFault(m, i).None?)
    && (forall i :: 0 <= i < |m.crossSections| ==> SectionFault(m, i).None?)
    && (forall i :: 0 <= i < |m.elements| ==> ElementFault(m, i).None?)
    && (forall i :: 0 <= i < |m.loads| ==> LoadFault(m, i).None?)
    && (forall i :: 0 <= i < |m.fixedPoints| ==> FixedFault(m, i).None?)
  }

  // The checks of each loop, one per record, in document order.

  function NodeFaults(m: ModelRecord): (r: seq<Option<BuildError>>)
    requires m.noOfNodes >= 0
    ensures |r| == |m.nodes| && forall i :: 0 <= i < |r| ==> r[i] == NodeFault(m, i)
  {
    seq(|m.nodes|, i requires 0 <= i < |m.nodes| => NodeFault(m, i))
  }

  function SectionFaults(m: ModelRecord): (r: seq<Option<BuildError>>)
    requires m.noOfCrosssectionTypes >= 0
    ensures |r| == |m.crossSections| && forall i :: 0 <= i < |r| ==> r[i] == SectionFault(m, i)
  {
    seq(|m.crossSections|, i requires 0 <= i < |m.crossSections| => SectionFault(m, i))
  }

  function ElementFaults(m: ModelRecord): (r: seq<Option<BuildError>>)
    requires CountsValid(m)
    ensures |r| == |m.elements| && forall i :: 0 <= i < |r| ==> r[i] == ElementFault(m, i)
  {
    seq(|m.elements|, i requires 0 <= i < |m.elements| => ElementFault(m, i))
  }

  function LoadFaults(m: ModelRecord): (r: seq<Option<BuildError>>)
    requires m.noOfNodes >= 0
    ensures |r| == |m.loads| && forall i :: 0 <= i < |r| ==> r[i] == LoadFault(m, i)
  {
    seq(|m.loads|, i requires 0 <= i < |m.loads| => LoadFault(m, i))
  }

  function FixedFaults(m: ModelRecord): (r: seq<Option<BuildError>>)
    requires m.noOfNodes >= 0
    ensures |r| == |m.fixedPoints| && forall i :: 0 <= i < |r| ==> r[i] == FixedFault(m, i)
  {
    seq(|m.fixedPoints|, i requires 0 <= i < |m.fixedPoints| => FixedFault(m, i))
  }

  /** The error construction raises: the first failing check, taking the
      steps in source order (node table, nodes, section table, sections,
      element table, elements, loads, fixed points) and the records of each
      loop in document order. */
  function FirstError(m: ModelRecord): (r: Option<BuildError>)
    ensures r.None? <==> Buildable(m)
  {
    if m.noOfNodes < 0 then Some(NegativeNodeCount)
    else if FirstSome(NodeFaults(m)).Some? then FirstSome(NodeFaults(m))
    else if m.noOfCrosssectionTypes < 0 then Some(NegativeSectionCount)
    else if FirstSome(SectionFaults(m)).Some? then FirstSome(SectionFaults(m))
    else if m.noOfElements < 0 then Some(NegativeElementCount)
    else if FirstSome(ElementFaults(m)).Some? then FirstSome(ElementFaults(m))
    else if FirstSome(LoadFaults(m)).Some? then FirstSome(LoadFaults(m))
    else FirstSome(FixedFaults(m))
  }

  /** A negative table size is reported when its table is allocated: after
      the records of the loops before it, ahead of the records after it. */
  lemma CountErrorReported(m: ModelRecord)
    ensures m.noOfNodes < 0 ==> FirstError(m) == Some(NegativeNodeCount)
    ensures m.noOfNodes >= 0 && (forall j :: 0 <= j < |m.nodes| ==> NodeFault(m, j).None?)
            && m.noOfCrosssectionTypes < 0
            ==> FirstError(m) == Some(NegativeSectionCount)
    ensures m.noOfNodes >= 0 && (forall j :: 0 <= j < |m.nodes| ==> NodeFault(m, j).None?)
            && m.noOfCrosssectionTypes >= 0 && (forall j :: 0 <= j < |m.crossSections| ==> SectionFault(m, j).None?)
            && m.noOfElements < 0
            ==> FirstError(m) == Some(NegativeElementCount)
  {
  }

  /** The error reported for a document whose node records are bad is
      that of the first bad node record. */
  lemma FirstNodeErrorReported(m: ModelRecord, i: nat)
    requires m.noOfNodes >= 0
    requires i < |m.nodes| && NodeFault(m, i).Some?
    requires forall j :: 0 <= j < i ==> NodeFault(m, j).None?
    ensures FirstError(m) == Some(NodeIdOutOfRange(i))
  {
    FirstSomeAt(NodeFaults(m), i);
  }

  /** Once the node records are sound, the first bad cross-section record
      is reported, ahead of every later record. */
  lemma FirstSectionErrorReported(m: ModelRecord, i: nat)
    requires m.noOfNodes >= 0 && m.noOfCrosssectionTypes >= 0
    requires forall j :: 0 <= j < |m.nodes| ==> NodeFault(m, j).None?
    requires i < |m.crossSections| && SectionFault(m, i).Some?
    requires forall j :: 0 <= j < i ==> SectionFault(m, j).None?
    ensures FirstError(m) == Some(SectionIdOutOfRange(i))
  {
    FirstSomeAt(SectionFaults(m), i);
  }

  /** Once the node and section records are sound, the first bad element
      record is reported, ahead of every load and fixed-point record. */
  lemma FirstElementErrorReported(m: ModelRecord, i: nat)
    requires CountsValid(m)
    requires forall j :: 0 <= j < |m.nodes| ==> NodeFault(m, j).None?
    requires forall j :: 0 <= j < |m.crossSections| ==> SectionFault(m, j).None?
    requires i < |m.elements| && ElementFault(m, i).Some?
    requires forall j :: 0 <= j < i ==> ElementFault(m, j).None?
    ensures FirstError(m) == ElementFault(m, i)
  {
    FirstSomeAt(ElementFaults(m), i);
  }

  /** Once the tables are built, the first bad load is reported, ahead of
      every fixed-point record. */
  lemma FirstLoadErrorReported(m: ModelRecord, i: nat)
    requires CountsValid(m)
    requires forall j :: 0 <= j < |m.nodes| ==> NodeFault(m, j).None?
    requires forall j :: 0 <= j < |m.crossSections| ==> SectionFault(m, j).None?
    requires forall j :: 0 <= j < |m.elements| ==> ElementFault(m, j).None?
    requires i < |m.loads| && LoadFault(m, i).Some?
    requires forall j :: 0 <= j < i ==> LoadFault(m, j).None?
    ensures FirstError(m) == LoadFault(m, i)
  {
    FirstSomeAt(LoadFaults(m), i);
  }

  /** Once the tables are built and the loads assigned, the first bad fixed
      point is reported. */
  lemma FirstFixedErrorReported(m: ModelRecord, i: nat)
    requires CountsValid(m)
    requires forall j :: 0 <= j < |m.nodes| ==> NodeFault(m, j).None?
    requires forall j :: 0 <= j < |m.crossSections| ==> SectionFault(m, j).None?
    requires forall j :: 0 <= j < |m.elements| ==> ElementFault(m, j).None?
    requires forall j :: 0 <= j < |m.loads| ==> LoadFault(m, j).None?
    requires i < |m.fixedPoints| && FixedFault(m, i).Some?
    requires forall j :: 0 <= j < i ==> FixedFault(m, j).None?
    ensures FirstError(m) == FixedFault(m, i)
  {
    FirstSomeAt(FixedFaults(m), i);
  }

  // ---------------------------------------------------------------------------
  // The structure
  // ---------------------------------------------------------------------------

  class Structure {
    var fixPointArray: seq<int>
    const nNodes: nat
    const nodes: array<Node?>
    const noOfCrosssectionTypes: nat
    const crossSections: array<Option<CrossSection>>
    const nElements: nat
    const elements: array<Option<Element>>
    const noOfLoads: int
    const noOfFixedPoints: int

    /** The node objects in the node table. */
    ghost function NodeSet(): set<Node>
      reads nodes
    {
      set k | 0 <= k < nodes.Length && nodes[k] != null :: nodes[k]
    }

    /** No node object sits in two slots. */
    ghost predicate NodesDistinct()
      reads nodes
    {
      forall i, j :: 0 <= i < nodes.Length && 0 <= j < nodes.Length && nodes[i] != null && nodes[i] == nodes[j] ==> i == j
    }

    /** Slot `k` of the node table is empty exactly when `expected` is, and
        otherwise holds a node in state `expected`. */
    ghost predicate NodeIs(k: nat, expected: Option<NodeState>)
      requires k < nodes.Length
      reads nodes, nodes[k]
    {
      if nodes[k] == null then expected.None? else expected == Some(nodes[k].State())
    }

    /** The element made from record `e`: the very node objects in the slots
        its end ids address, the section in the slot its type addresses, no
        angles, and the squared distance between its end nodes. */
    ghost predicate ElementBuiltFrom(el: Element, m: ModelRecord, e: ElementRecord)
      reads nodes, crossSections
    {
      var start := Slot(e.startNodeId, nodes.Length);
      var end := Slot(e.endNodeId, nodes.Length);
      var section := Slot(e.elementType, crossSections.Length);
      && start.Some? && end.Some? && section.Some?
      && el.id == e.id
      && el.startNode == nodes[start.value]
      && el.endNode == nodes[end.value]
      && el.crossSection == crossSections[section.value]
      && el.thetaX.None? && el.thetaY.None? && el.thetaZ.None?
      && PlacedNode(m.nodes, nodes.Length, start.value).Some?
      && PlacedNode(m.nodes, nodes.Length, end.value).Some?
      && el.lengthSquared == LengthSquared(PlacedNode(m.nodes, nodes.Length, start.value).value.position,
                                           PlacedNode(m.nodes, nodes.Length, end.value).value.position)
    }

    /** Slot `k` of the element table after the element loop over `es`. */
    ghost predicate ElementIs(m: ModelRecord, es: seq<ElementRecord>, k: nat)
      requires k < elements.Length
      reads nodes, crossSections, elements
    {
      match LastAt(es, ElementId, elements.Length, k)
      case None => elements[k].None?
      case Some(i) => elements[k].Some? && ElementBuiltFrom(elements[k].value, m, es[i])
    }

    /** The node table after the node loop over `rs`. */
    ghost predicate NodesPlaced(rs: seq<NodeRecord>)
      reads nodes, NodeSet()
    {
      forall k :: 0 <= k < nodes.Length ==> NodeIs(k, PlacedNode(rs, nodes.Length, k))
    }

    /** The node table after the node loop over the whole document, the
        load loop over `loads` and the fixed-point loop over `fixedPoints`. */
    ghost predicate NodesAfter(m: ModelRecord, loads: seq<LoadRecord>, fixedPoints: seq<FixedPointRecord>)
      reads nodes, NodeSet()
    {
      forall k :: 0 <= k < nodes.Length ==>
        NodeIs(k, WithSupports(WithLoads(PlacedNode(m.nodes, nodes.Length, k), loads, nodes.Length, k),
                               fixedPoints, nodes.Length, k))
    }

    /** The cross-section table after the section loop over `rs`. */
    ghost predicate SectionsAfter(rs: seq<SectionRecord>)
      reads crossSections
    {
      forall k :: 0 <= k < crossSections.Length ==> crossSections[k] == SectionAt(rs, crossSections.Length, k)
    }

    /** The element table after the element loop over `es`. */
    ghost predicate ElementsAfter(m: ModelRecord, es: seq<ElementRecord>)
      reads nodes, crossSections, elements
    {
      forall k :: 0 <= k < elements.Length ==> ElementIs(m, es, k)
    }

    /** `fixPointArray` lists the targets of `fixedPoints`, in order. */
    ghost predicate FixPointsAfter(fixedPoints: seq<FixedPointRecord>)
      reads this`fixPointArray
    {
      && |fixPointArray| == |fixedPoints|
      && forall j :: 0 <= j < |fixPointArray| ==> fixPointArray[j] == fixedPoints[j].pointId
    }

    /** The structure is the one built from document `m`. */
    ghost predicate Models(m: ModelRecord)
      reads this`fixPointArray, nodes, crossSections, elements, NodeSet()
    {
      && nNodes == m.noOfNodes == nodes.Length
      && noOfCrosssectionTypes == m.noOfCrosssectionTypes == crossSections.Length
      && nElements == m.noOfElements == elements.Length
      && noOfLoads == m.noOfLoads && noOfFixedPoints == m.noOfFixedPoints
      && NodesAfter(m, m.loads, m.fixedPoints)
      && SectionsAfter(m.crossSections)
      && ElementsAfter(m, m.elements)
      && FixPointsAfter(m.fixedPoints)
    }

    /** `Structure.__init__` for a document on which it raises nothing. */
    constructor (m: ModelRecord)
      requires Buildable(m)
      ensures fresh(nodes) && fresh(crossSections) && fresh(elements)
      ensures forall k :: 0 <= k < nodes.Length && nodes[k] != null ==> fresh(nodes[k])
      ensures NodesDistinct()
      ensures Models(m)
    {
      fixPointArray := [];
      nNodes := m.noOfNodes;
      nodes := new Node?[m.noOfNodes](_ => null);
      noOfCrosssectionTypes := m.noOfCrosssectionTypes;
      crossSections := new Option<CrossSection>[m.noOfCrosssectionTypes](_ => None);
      nElements := m.noOfElements;
      elements := new Option<Element>[m.noOfElements](_ => None);
      noOfLoads := m.noOfLoads;
      noOfFixedPoints := m.noOfFixedPoints;
      new;
      ReadTables(m);
      AssignNodeData(m);
    }

    /** The first three loops of the constructor: nodes, cross-sections and
        elements, into the freshly allocated tables. */
    method ReadTables(m: ModelRecord)
      requires nodes.Length == m.noOfNodes && crossSections.Length == m.noOfCrosssectionTypes
      requires elements.Length == m.noOfElements
      requires forall k :: 0 <= k < nodes.Length ==> nodes[k] == null
      requires forall k :: 0 <= k < crossSections.Length ==> crossSections[k].None?
      requires forall k :: 0 <= k < elements.Length ==> elements[k].None?
      requires Buildable(m)
      modifies nodes, crossSections, elements
      ensures NodesDistinct()
      ensures forall k :: 0 <= k < nodes.Length && nodes[k] != null ==> fresh(nodes[k])
      ensures NodesAfter(m, [], [])
      ensures SectionsAfter(m.crossSections)
      ensures ElementsAfter(m, m.elements)
    {
      ReadNodes(m);
      ReadCrossSections(m);
      CreateElements(m);
    }

    /** The last two loops of the constructor: loads and fixed points,
        onto the nodes already in the table. */
    method AssignNodeData(m: ModelRecord)
      requires nodes.Length == m.noOfNodes
      requires NodesDistinct()
      requires fixPointArray == []
      requires NodesAfter(m, [], [])
      requires Buildable(m)
      modifies this`fixPointArray, NodeSet()
      ensures FixPointsAfter(m.fixedPoints)
      ensures NodesAfter(m, m.loads, m.fixedPoints)
    {
      AssignLoads(m);
      AssignFixedPoints(m);
    }

    /** The node loop: a fresh node per record, put at the slot its id
        addresses, a later record replacing an earlier one. */
    method ReadNodes(m: ModelRecord)
      requires nodes.Length == m.noOfNodes
      requires forall k :: 0 <= k < nodes.Length ==> nodes[k] == null
      requires forall i :: 0 <= i < |m.nodes| ==> NodeFault(m, i).None?
      modifies nodes
      ensures NodesDistinct()
      ensures forall k :: 0 <= k < nodes.Length && nodes[k] != null ==> fresh(nodes[k])
      ensures NodesAfter(m, [], [])
    {
      for i := 0 to |m.nodes|
        invariant NodesDistinct()
        invariant forall k :: 0 <= k < nodes.Length && nodes[k] != null ==> fresh(nodes[k])
        invariant NodesPlaced(m.nodes[..i])
      {
        PlaceNode(m, i);
      }
      assert m.nodes[..|m.nodes|] == m.nodes;
    }

    /** One pass of the node loop: node record `i` put into the table. */
    method PlaceNode(m: ModelRecord, i: nat)
      requires nodes.Length == m.noOfNodes && i < |m.nodes|
      requires NodesDistinct()
      requires NodesPlaced(m.nodes[..i])
      requires NodeFault(m, i).None?
      modifies nodes
      ensures NodesDistinct()
      ensures var slot := Slot(m.nodes[i].id, nodes.Length).value;
              && nodes[slot] != null && fresh(nodes[slot])
              && forall k :: 0 <= k < nodes.Length && k != slot ==> nodes[k] == old(nodes[k])
      ensures NodesPlaced(m.nodes[..i + 1])
    {
      var node := m.nodes[i];
      var newNode := new Node(node.id, node.x, node.y, node.z);
      var slot := Slot(node.id, nodes.Length).value;
      nodes[slot] := newNode;
      ghost var done := m.nodes[..i + 1];
      forall k | 0 <= k < nodes.Length
        ensures NodeIs(k, PlacedNode(done, nodes.Length, k))
      {
        LastAtExtend(m.nodes, NodeId, nodes.Length, i, k);
        if k != slot {
          assert old(NodeIs(k, PlacedNode(m.nodes[..i], nodes.Length, k)));
        }
      }
      assert NodesPlaced(done);
    }

    /** The cross-section loop: the section a record describes (or nothing,
        for an unknown shape) put at the slot its id addresses. */
    method ReadCrossSections(m: ModelRecord)
      requires crossSections.Length == m.noOfCrosssectionTypes
      requires forall k :: 0 <= k < crossSections.Length ==> crossSections[k].None?
      requires forall i :: 0 <= i < |m.crossSections| ==> SectionFault(m, i).None?
      modifies crossSections
      ensures SectionsAfter(m.crossSections)
    {
      for i := 0 to |m.crossSections|
        invariant SectionsAfter(m.crossSections[..i])
      {
        var crossSection := m.crossSections[i];
        assert SectionFault(m, i).None?;
        var newCrossSection := MakeSection(crossSection);
        crossSections[Slot(crossSection.id, crossSections.Length).value] := newCrossSection;
        ghost var done := m.crossSections[..i + 1];
        forall k | 0 <= k < crossSections.Length
          ensures crossSections[k] == SectionAt(done, crossSections.Length, k)
        {
          LastAtExtend(m.crossSections, SectionId, crossSections.Length, i, k);
        }
      }
      assert m.crossSections[..|m.crossSections|] == m.crossSections;
    }

    /** The element loop: each element references the node objects and the
        section already in the tables, and goes to the slot its id addresses. */
    method CreateElements(m: ModelRecord)
      requires nodes.Length == m.noOfNodes && crossSections.Length == m.noOfCrosssectionTypes
      requires elements.Length == m.noOfElements
      requires forall k :: 0 <= k < elements.Length ==> elements[k].None?
      requires NodesAfter(m, [], [])
      requires forall i :: 0 <= i < |m.elements| ==> ElementFault(m, i).None?
      modifies elements
      ensures ElementsAfter(m, m.elements)
    {
      for i := 0 to |m.elements|
        invariant ElementsAfter(m, m.elements[..i])
      {
        CreateElement(m, i);
      }
      assert m.elements[..|m.elements|] == m.elements;
    }

    /** One pass of the element loop: element record `i` put into the table. */
    method CreateElement(m: ModelRecord, i: nat)
      requires nodes.Length == m.noOfNodes && crossSections.Length == m.noOfCrosssectionTypes
      requires elements.Length == m.noOfElements && i < |m.elements|
      requires NodesAfter(m, [], [])
      requires ElementsAfter(m, m.elements[..i])
      requires ElementFault(m, i).None?
      modifies elements
      ensures ElementsAfter(m, m.elements[..i + 1])
    {
      var element := m.elements[i];
      var newElement := MakeElement(m, element);
      var slot := Slot(element.id, elements.Length).value;
      elements[slot] := Some(newElement);
      ghost var done := m.elements[..i + 1];
      forall k | 0 <= k < elements.Length
        ensures ElementIs(m, done, k)
      {
        LastAtExtend(m.elements, ElementId, elements.Length, i, k);
        if k == slot {
          assert done[i] == element;
        } else {
          assert old(ElementIs(m, m.elements[..i], k));
        }
      }
    }

    /** The element record `element` describes, from the node and
        cross-section tables as they stand. */
    method MakeElement(m: ModelRecord, element: ElementRecord) returns (newElement: Element)
      requires nodes.Length == m.noOfNodes && crossSections.Length == m.noOfCrosssectionTypes
      requires NodesAfter(m, [], [])
      requires Slot(element.startNodeId, m.noOfNodes).Some? && Placed(m, Slot(element.startNodeId, m.noOfNodes).value)
      requires Slot(element.endNodeId, m.noOfNodes).Some? && Placed(m, Slot(element.endNodeId, m.noOfNodes).value)
      requires Slot(element.elementType, m.noOfCrosssectionTypes).Some?
      ensures ElementBuiltFrom(newElement, m, element)
    {
      var startNodeId := Slot(element.startNodeId, nodes.Length).value;
      var endNodeId := Slot(element.endNodeId, nodes.Length).value;
      assert NodeIs(startNodeId, WithSupports(WithLoads(PlacedNode(m.nodes, nodes.Length, startNodeId), [], nodes.Length, startNodeId),
                                              [], nodes.Length, startNodeId));
      assert NodeIs(endNodeId, WithSupports(WithLoads(PlacedNode(m.nodes, nodes.Length, endNodeId), [], nodes.Length, endNodeId),
                                            [], nodes.Length, endNodeId));
      var startNode := nodes[startNodeId];
      var endNode := nodes[endNodeId];
      var crossSection := crossSections[Slot(element.elementType, crossSections.Length).value];
      var startPosition := Vec3(startNode.px, startNode.py, startNode.pz);
      var endPosition := Vec3(endNode.px, endNode.py, endNode.pz);
      assert startPosition == PlacedNode(m.nodes, nodes.Length, startNodeId).value.position;
      assert endPosition == PlacedNode(m.nodes, nodes.Length, endNodeId).value.position;
      var lengthSquared := LengthSquared(startPosition, endPosition);
      newElement := Element(element.id, startNode, endNode, crossSection, None, None, None, lengthSquared);
    }

    /** The load loop: the six load fields of the target node are
        overwritten with the record's force and torque. */
    method AssignLoads(m: ModelRecord)
      requires nodes.Length == m.noOfNodes
      requires NodesDistinct()
      requires NodesAfter(m, [], [])
      requires forall i :: 0 <= i < |m.loads| ==> LoadFault(m, i).None?
      modifies NodeSet()
      ensures NodesAfter(m, m.loads, [])
    {
      for i := 0 to |m.loads|
        invariant NodesAfter(m, m.loads[..i], [])
      {
        ApplyLoad(m, i);
      }
      assert m.loads[..|m.loads|] == m.loads;
    }

    /** One pass of the load loop: load record `i` written onto its node. */
    method ApplyLoad(m: ModelRecord, i: nat)
      requires nodes.Length == m.noOfNodes && i < |m.loads|
      requires NodesDistinct()
      requires NodesAfter(m, m.loads[..i], [])
      requires LoadFault(m, i).None?
      modifies NodeSet()
      ensures NodesAfter(m, m.loads[..i + 1], [])
    {
      var load := m.loads[i];
      var nodeId := Slot(load.pointId, nodes.Length).value;
      assert NodeIs(nodeId, WithSupports(WithLoads(PlacedNode(m.nodes, nodes.Length, nodeId), m.loads[..i], nodes.Length, nodeId),
                                         [], nodes.Length, nodeId));
      var node := nodes[nodeId];
      node.SetLoad(load.force, load.torque);
      ghost var done := m.loads[..i + 1];
      forall k | 0 <= k < nodes.Length
        ensures NodeIs(k, WithSupports(WithLoads(PlacedNode(m.nodes, nodes.Length, k), done, nodes.Length, k),
                                       [], nodes.Length, k))
      {
        LastAtExtend(m.loads, LoadTarget, nodes.Length, i, k);
        assert old(NodeIs(k, WithSupports(WithLoads(PlacedNode(m.nodes, nodes.Length, k), m.loads[..i], nodes.Length, k),
                                          [], nodes.Length, k)));
      }
    }

    /** The fixed-point loop: each target id is appended to `fixPointArray`
        and the six support flags of the target node are overwritten. */
    method AssignFixedPoints(m: ModelRecord)
      requires nodes.Length == m.noOfNodes
      requires NodesDistinct()
      requires fixPointArray == []
      requires NodesAfter(m, m.loads, [])
      requires forall i :: 0 <= i < |m.fixedPoints| ==> FixedFault(m, i).None?
      modifies this`fixPointArray, NodeSet()
      ensures FixPointsAfter(m.fixedPoints)
      ensures NodesAfter(m, m.loads, m.fixedPoints)
    {
      for i := 0 to |m.fixedPoints|
        invariant FixPointsAfter(m.fixedPoints[..i])
        invariant NodesAfter(m, m.loads, m.fixedPoints[..i])
      {
        fixPointArray := fixPointArray + [m.fixedPoints[i].pointId];
        ApplySupport(m, i);
      }
      assert m.fixedPoints[..|m.fixedPoints|] == m.fixedPoints;
    }

    /** One pass of the fixed-point loop, after the append: the support
        flags of fixed point `i` written onto its node. */
    method ApplySupport(m: ModelRecord, i: nat)
      requires nodes.Length == m.noOfNodes && i < |m.fixedPoints|
      requires NodesDistinct()
      requires NodesAfter(m, m.loads, m.fixedPoints[..i])
      requires FixedFault(m, i).None?
      modifies NodeSet()
      ensures NodesAfter(m, m.loads, m.fixedPoints[..i + 1])
    {
      var fixedPoint := m.fixedPoints[i];
      var slot := Slot(fixedPoint.pointId, nodes.Length).value;
      assert NodeIs(slot, WithSupports(WithLoads(PlacedNode(m.nodes, nodes.Length, slot), m.loads, nodes.Length, slot),
                                       m.fixedPoints[..i], nodes.Length, slot));
      var node := nodes[slot];
      node.SetSupport(fixedPoint.translation, fixedPoint.rotation);
      ghost var done := m.fixedPoints[..i + 1];
      forall k | 0 <= k < nodes.Length
        ensures NodeIs(k, WithSupports(WithLoads(PlacedNode(m.nodes, nodes.Length, k), m.loads, nodes.Length, k),
                                       done, nodes.Length, k))
      {
        LastAtExtend(m.fixedPoints, FixedTarget, nodes.Length, i, k);
        assert old(NodeIs(k, WithSupports(WithLoads(PlacedNode(m.nodes, nodes.Length, k), m.loads, nodes.Length, k),
                                          m.fixedPoints[..i], nodes.Length, k)));
      }
    }

    /** Construction with its exceptions as values: the first offending
        record when the document has one, otherwise the structure. */
    static method Build(m: ModelRecord) returns (r: Result<Structure, BuildError>)
      ensures r.Failure? <==> FirstError(m).Some?
      ensures r.Failure? ==> FirstError(m) == Some(r.error)
      ensures r.Success? ==>
                && fresh(r.value) && fresh(r.value.nodes) && fresh(r.value.crossSections) && fresh(r.value.elements)
                && (forall k :: 0 <= k < r.value.nodes.Length && r.value.nodes[k] != null ==> fresh(r.value.nodes[k]))
                && r.value.NodesDistinct()
                && r.value.Models(m)
    {
      var error := FirstError(m);
      if error.Some? {
        return Failure(error.value);
      }
      var structure := new Structure(m);
      return Success(structure);
    }
  }
}
