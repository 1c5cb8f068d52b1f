# Piecewise material models and 3D frame structure construction

This project models two pieces of a linear static analysis program for 3D
frame structures, in Dafny, and proves properties of the model.

- **Material models** (`Code/Project/Material.py`). A `MaterialModel` cuts the
  stress axis into `no_of_ranges` ranges by a list of upper limits. It keeps
  one strain formula per range and that formula's derivative, the tangent
  modulus. `get_strain` and `get_e` pick a range by scanning the limits with
  a strict `<`. The first match wins and the last range is open-ended.
  `load_material_models` fills a registry of models indexed by model id.
- **Structure construction** (`Structure.__init__` in
  `Code/Linear3D/Structure.py`). It turns the model document into id-indexed
  tables of nodes, cross-sections and elements, sized by the declared counts.
  It then writes loads and supports onto the nodes and lists the
  fixed-point ids.

Files:

- `indexing.dfy` (module `Indexing`) holds `Option`/`Result` and numpy
  addressing. `Slot(i, n)` is the position that `a[i]` or `a.put(i, v)`
  addresses in an array of length `n`. Indices `-n .. n-1` are accepted, a
  negative one counting from the end; any other index raises `IndexError`.
  `LastAt` gives the record whose `put` survives in a slot. `FirstSome`
  gives the first failing check.
- `material.dfy` (module `Material`) holds the range selection, the
  `MaterialModel` class (arrays of formulas) and the registry loader.
- `model_input.dfy` (module `ModelInput`) holds the parsed model document
  as typed records, plus the element length through its square.
- `structure.dfy` (module `Linear3D`) holds cross-sections, the `Node`
  class, elements, the construction errors and the `Structure` class.

Python exceptions become values:
- Range lookup returns `Result<real, EvalError>`.
- The registry loader returns `Result<array<MaterialModel?>, LoadError>`.
- `Structure.Build` returns `Result<Structure, BuildError>`.

Each error names the offending record by its position. The error reported
is that of the first check the source would fail. `Structure.Build`
computes that error first and runs the constructor only on a document on
which it raises nothing. This is observably the same: a raising
`__init__` leaves no object behind.

A few points where the model states what the code does rather than how
the program is meant to be used:

- **Node ids.** Ids are meant to be dense indices `0..n-1`. The code uses
  numpy addressing, so a negative id `-n <= id < 0` is accepted and lands in
  slot `id + n`. `PlacedNodeHasOwnId` states the dense case.
- **Element contents.** The code gives an element three unset angles and
  no material, and the model does the same.
- **Malformed documents.** The code raises `ValueError` from `np.empty` on
  a negative count, `IndexError` from numpy on an id outside a table, or
  `AttributeError` on an empty node slot. The model reports which of those
  checks failed, and on which record.

## Model

| member | source | states |
|---|---|---|
| Indexing.Slot | Code/Linear3D/Structure.py:32 | an index is accepted iff `-n <= i < n`; the slot is below `n` and is `i` or `i + n` |
| Indexing.LastAt | Code/Linear3D/Structure.py:25-32 | the record that survives in slot `k` addresses `k`, and no later record does; with no such record, none addresses `k` |
| Indexing.LastAtExtend | Code/Linear3D/Structure.py:32 | one more `put` wins its own slot and leaves every other slot's winner unchanged |
| Indexing.FirstSome | Code/Project/Material.py:48-55 | no error is reported iff every check passed |
| Indexing.FirstSomeAt | Code/Project/Material.py:48-55 | the error reported is that of the earliest failing check |
| Material.SelectFrom | Code/Project/Material.py:26-30 | the scan fails with no ranges iff `n == 0`; otherwise it returns an index `< n`, no larger than the number of limits, such that every limit it passed is `<= stress`, and the stress lies strictly below the limit of any range before the last; it fails on a missing limit only when the limits run out before `n-1` |
| Material.SelectIsFirstMatch | Code/Project/Material.py:26-30 | with the limits present, a range is always found: the least `i <= n-2` with `stress < limits[i]`, else `n-1`; every earlier limit is `<= stress` |
| Material.SelectStrictAtLimit | Code/Project/Material.py:28 | a stress equal to `limits[i]` never selects range `i` |
| Material.SelectSingleRange | Code/Project/Material.py:26-30 | with one range, formula 0 is chosen and no limit is read, even from an empty limit list |
| Material.SelectIgnoresTopLimits | Code/Project/Material.py:26-30 | the selection depends only on the first `n-1` limits; `limits[n-1]` is never consulted |
| Material.SelectMonotone | Code/Project/Material.py:26-29 | a larger stress never selects an earlier range |
| Material.SelectIsContainingRange | Code/Project/Material.py:25-30 | for ascending limits, range `i` is selected iff `limits[i-1] <= stress < limits[i]` (open at both ends) |
| Material.TwoRangeExample | Code/Project/Material.py:25-37 | limits `[10, ..]` with `x/2` and `x/2 + 5`: strain 2.5 at 5 and 10 at 10, modulus 0.5 at both |
| Material.MaterialModel.constructor | Code/Project/Material.py:8-23 | `formulas` and `d_formulas` have `no_of_ranges` slots; slot `k` holds the `k`-th compiled formula and its derivative, in input order; slots past the list stay empty |
| Material.MaterialModel.GetStrain | Code/Project/Material.py:25-30 | the result is the strain formula of the selected range at `stress`, or the failure the scan or an empty slot causes |
| Material.MaterialModel.GetE | Code/Project/Material.py:32-37 | the result is the derivative formula of the range the same scan selects, or the same failure |
| Material.StrainAndModulusShareRange | Code/Project/Material.py:25-37 | for a fully specified model, strain and modulus come from the same range `i < n`: formula `i` and its derivative |
| Material.LoadMaterialModels | Code/Project/Material.py:43-55 | fails on a negative `no_of_material_models` before reading any record; otherwise fails iff some record fails (negative `no_of_ranges`, more formulas than ranges, id outside the registry, checked in that order), with the first such record's error; on success it returns `no_of_material_models` slots, each empty or holding the model built from the last record whose id addresses it; the stored models are new objects and none sits in two slots |
| Material.PutModel | Code/Project/Material.py:54-55 | the record's model is put at the slot its id addresses and every other slot keeps its model, so each slot again holds the model of the last record addressing it |
| ModelInput.LengthSquaredIsSquaredDistance | Code/Linear3D/Structure.py:74-77 | the squared length computed from absolute differences is the squared Euclidean distance |
| ModelInput.LengthSquaredSymmetric | Code/Linear3D/Structure.py:74-77 | swapping the endpoints leaves the squared length unchanged |
| ModelInput.LengthSquaredSign | Code/Linear3D/Structure.py:74-77 | the squared length is non-negative, and zero for coinciding endpoints |
| Linear3D.MakeSection | Code/Linear3D/Structure.py:42-57 | a section exists iff the tag is `"rectangle"` or `"circle"`; it keeps the record's id and tag; width/height are `dimensions.y`/`z`, the radius is `dimensions.radius` |
| Linear3D.SectionRoundTrip | Code/Linear3D/Structure.py:43-57 | every section is read back from the record that describes it |
| Linear3D.Node.constructor | Code/Linear3D/Structure.py:31 | a new node has the record's id and position, zero loads and no supports |
| Linear3D.Node.SetLoad | Code/Linear3D/Structure.py:102-103 | the six load fields are replaced and nothing else changes |
| Linear3D.Node.SetSupport | Code/Linear3D/Structure.py:122-123 | the six support flags are replaced and nothing else changes |
| Linear3D.PlacedNodeHasOwnId | Code/Linear3D/Structure.py:25-32 | with ids in `0..n-1`, slot `k` holds a node iff some record has id `k`, and that node's id is `k` |
| Linear3D.LastLoadWins | Code/Linear3D/Structure.py:90-103 | a later load on a node replaces the earlier ones' force and torque; loads are not summed |
| Linear3D.LastSupportWins | Code/Linear3D/Structure.py:106-123 | a later fixed point on a node replaces the earlier ones' flags |
| Linear3D.UntargetedNodeKeepsFields | Code/Linear3D/Structure.py:88-123 | a node named by no load and no fixed point keeps its placed state: zero loads, no supports |
| Linear3D.FirstError | Code/Linear3D/Structure.py:13-128 | no error iff the three table sizes are non-negative and every node, section, element, load and fixed-point record passes its checks |
| Linear3D.CountErrorReported | Code/Linear3D/Structure.py:22-63 | a negative table size is reported when that table is allocated: after the records of the earlier loops, ahead of every later record |
| Linear3D.FirstNodeErrorReported | Code/Linear3D/Structure.py:25-32 | the first node with an out-of-range id is the one reported |
| Linear3D.FirstSectionErrorReported | Code/Linear3D/Structure.py:38-57 | with sound nodes, the first section with an out-of-range id is reported, before any element, load or fixed point |
| Linear3D.FirstElementErrorReported | Code/Linear3D/Structure.py:62-84 | with sound nodes and sections, the first bad element is reported, before any load or fixed point |
| Linear3D.FirstLoadErrorReported | Code/Linear3D/Structure.py:88-103 | with the tables built, the first bad load is reported, before any fixed point |
| Linear3D.FirstFixedErrorReported | Code/Linear3D/Structure.py:106-123 | with the tables built and the loads sound, the first bad fixed point is reported |
| Linear3D.Structure.constructor | Code/Linear3D/Structure.py:13-128 | tables sized by the declared counts; every node slot, section slot, element slot and `fix_Point_array` is as the document determines; node objects are fresh and distinct |
| Linear3D.Structure.ReadTables | Code/Linear3D/Structure.py:22-84 | the node, cross-section and element loops in order leave the three tables as the records determine |
| Linear3D.Structure.AssignNodeData | Code/Linear3D/Structure.py:88-123 | after the load and fixed-point loops, every node is in its expected final state and the fixed-point ids are listed |
| Linear3D.Structure.ReadNodes | Code/Linear3D/Structure.py:22-32 | slot `k` holds a fresh node made from the last record whose id addresses `k`, or is empty; no node sits in two slots |
| Linear3D.Structure.PlaceNode | Code/Linear3D/Structure.py:25-32 | record `i` put into its slot as a new node object; every other slot keeps the very same node object |
| Linear3D.Structure.ReadCrossSections | Code/Linear3D/Structure.py:38-57 | slot `k` holds the section described by the last record addressing `k` (nothing for an unknown shape), or is empty |
| Linear3D.Structure.CreateElements | Code/Linear3D/Structure.py:62-84 | slot `k` holds the element made from the last record addressing `k`, or is empty |
| Linear3D.Structure.CreateElement | Code/Linear3D/Structure.py:65-84 | one element put into its slot; other slots keep their elements |
| Linear3D.Structure.MakeElement | Code/Linear3D/Structure.py:66-83 | the element shares the very node objects in the end-node slots and the section in the type slot, has no angles, and its squared length is that of its endpoints |
| Linear3D.Structure.AssignLoads | Code/Linear3D/Structure.py:88-103 | every node's force and torque are those of the last load aimed at it; nodes with no load keep theirs |
| Linear3D.Structure.ApplyLoad | Code/Linear3D/Structure.py:90-103 | one load written onto its node |
| Linear3D.Structure.AssignFixedPoints | Code/Linear3D/Structure.py:106-123 | `fix_Point_array` is the fixed-point ids in input order, duplicates kept; every node's flags are those of the last fixed point aimed at it, otherwise unchanged |
| Linear3D.Structure.ApplySupport | Code/Linear3D/Structure.py:108-123 | one fixed point's flags written onto its node |
| Linear3D.Structure.Build | Code/Linear3D/Structure.py:13-128 | fails iff the document has a negative table size or a bad record, with the first error; otherwise it returns a new structure built from the document, whose tables and node objects are new and whose node objects are distinct |

## Left out

- Symbolic algebra (`sympify`, `lambdify`, `.diff`) is a parameter `compile` that yields a value function and a derivative function per formula string; that the derivative really is one is taken as given.
- A formula that is ill-defined at a stress, and floating-point evaluation, are not modelled; formulas are total functions on reals.
- The unused `sys` and `matplotlib` imports, and all logging calls, are not modelled.
- JSON access (key lookup, missing keys, wrong value types) is not modelled; the document arrives as typed records.
- Node, Element and the cross-section classes are not part of this model beyond the fields the constructor reads and writes. The `Node` module imported at Code/Linear3D/Structure.py:3 is not part of this model; a new node is taken to start with zero loads and no supports. Translation and rotation entries are modelled as booleans.
- The element length is stated through its square; `math.sqrt` and floating-point rounding are not modelled.
- ModelInput.LengthSquaredSign: states non-negativity and zero for equal endpoints, but not that distinct endpoints give a positive value.
- `load_material_models` returns the registry instead of assigning the module-level `material_models`; the partly filled global that a failing call leaves behind is not modelled.
- Material.MaterialModel.constructor: takes `no_of_ranges` as a `nat` and requires at most that many formulas, where the source raises `ValueError` from `np.empty` and `IndexError` from `put`; `LoadMaterialModels` reports these cases as `NegativeRangeCount` and `TooManyFormulas` before constructing.
- Linear3D.Structure.constructor: requires a document on which construction raises nothing; `Linear3D.Structure.Build` reports the error case.
- The stiffness assembly, boundary-condition reduction and solve are not in the modelled source and are not part of this model.
