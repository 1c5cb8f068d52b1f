/** The piecewise material response of Code/Project/Material.py: a stress axis
    cut into `noOfRanges` ranges by upper limits, one strain formula per range
    and that formula's derivative (the tangent modulus), and the registry of
    material models filled from the model document. */
module Material {
  import opened Indexing

  /** What the symbolic-algebra step makes of one formula string: an
      evaluable function of the stress and its analytic derivative. */
  datatype Compiled = Compiled(value: real -> real, derivative: real -> real)

  /** Why a strain or modulus lookup cannot produce a number. */
  datatype EvalError =
    | NoRanges                    // `formulas[-1]` on an empty array: IndexError
    | MissingUpperLimit(index: nat)  // `range_upper_limits[index]` past its end: IndexError
    | MissingFormula(index: nat)  // the selected slot still holds None: not callable

  // ---------------------------------------------------------------------------
  // Range selection: the scan shared by get_strain and get_e
  // ---------------------------------------------------------------------------

  /** The scan over `range_upper_limits[i .. n-2]`, stopping at the first limit
      the stress lies strictly below and falling through to the last range. */
  function SelectFrom(limits: seq<real>, n: nat, stress: real, i: nat): (r: Result<nat, EvalError>)
    requires (i == 0 || i < n) && i <= |limits|
    ensures r == Failure(NoRanges) <==> n == 0
    ensures r.Success? ==>
              && i <= r.value < n
              && r.value <= |limits|
              && (forall j :: i <= j < r.value ==> limits[j] <= stress)
              && (r.value < n - 1 ==> r.value < |limits| && stress < limits[r.value])
    ensures r.Failure? && n > 0 ==>
              && r == Failure(MissingUpperLimit(|limits|))
              && i <= |limits| < n - 1
              && forall j :: i <= j < |limits| ==> limits[j] <= stress
    decreases n - i
  {
    if i + 1 >= n then (if n == 0 then Failure(NoRanges) else Success(n - 1))
    else if i >= |limits| then Failure(MissingUpperLimit(i))
    else if stress < limits[i] then Success(i)
    else SelectFrom(limits, n, stress, i + 1)
  }

  /** The range that `get_strain(stress)` and `get_e(stress)` both evaluate. */
  function Select(limits: seq<real>, n: nat, stress: real): Result<nat, EvalError>
  {
    SelectFrom(limits, n, stress, 0)
  }

  /** Applying the formula table to the selected range. */
  function Evaluate(table: seq<Option<real -> real>>, selected: Result<nat, EvalError>, stress: real)
    : Result<real, EvalError>
  {
    match selected
    case Failure(e) => Failure(e)
    case Success(i) =>
      if i < |table| && table[i].Some? then Success(table[i].value(stress))
      else Failure(MissingFormula(i))
  }

  /** With every limit that the scan reads present, a range is always found:
      the least `i <= n-2` whose limit exceeds the stress, otherwise the
      open-ended last range `n-1`. */
  lemma SelectIsFirstMatch(limits: seq<real>, n: nat, stress: real)
    requires n >= 1 && |limits| >= n - 1
    ensures Select(limits, n, stress).Success?
    ensures var i := Select(limits, n, stress).value;
            && i < n
            && (forall j :: 0 <= j < i ==> stress >= limits[j])
            && (i < n - 1 ==> stress < limits[i])
  {
  }

  /** The comparison is strict: a stress equal to the upper limit of range
      `i` never selects range `i` (below the last range). */
  lemma SelectStrictAtLimit(limits: seq<real>, n: nat, i: nat)
    requires i < n - 1 && i < |limits|
    ensures Select(limits, n, limits[i]) != Success(i)
  {
  }

  /** A model with a single range always uses formula 0 and reads no limit,
      whatever the limits are (even none at all). */
  lemma SelectSingleRange(limits: seq<real>, stress: real)
    ensures Select(limits, 1, stress) == Success(0)
  {
  }

  /** `range_upper_limits[n-1]` (and anything after it) is never consulted:
      the selection only depends on the first `n-1` limits. */
  lemma {:induction false} SelectIgnoresTopLimits(limits: seq<real>, others: seq<real>, n: nat, stress: real)
    requires n >= 1 && |limits| >= n - 1 && |others| >= n - 1
    requires limits[..n - 1] == others[..n - 1]
    ensures Select(limits, n, stress) == Select(others, n, stress)
  {
    SelectFromAgree(limits, others, n, stress, 0);
  }

  lemma {:induction false} SelectFromAgree(limits: seq<real>, others: seq<real>, n: nat, stress: real, i: nat)
    requires n >= 1 && i < n && |limits| >= n - 1 && |others| >= n - 1
    requires limits[..n - 1] == others[..n - 1]
    ensures SelectFrom(limits, n, stress, i) == SelectFrom(others, n, stress, i)
    decreases n - i
  {
    if i + 1 < n {
      assert limits[i] == limits[..n - 1][i] == others[..n - 1][i] == others[i];
      SelectFromAgree(limits, others, n, stress, i + 1);
    }
  }

  /** A larger stress never selects an earlier range, whatever the limits. */
  lemma SelectMonotone(limits: seq<real>, n: nat, s1: real, s2: real)
    requires n >= 1 && |limits| >= n - 1
    requires s1 <= s2
    ensures Select(limits, n, s1).Success? && Select(limits, n, s2).Success?
    ensures Select(limits, n, s1).value <= Select(limits, n, s2).value
  {
    SelectIsFirstMatch(limits, n, s1);
    SelectIsFirstMatch(limits, n, s2);
  }

  ghost predicate Ascending(limits: seq<real>)
  {
    forall i, j :: 0 <= i < j < |limits| ==> limits[i] <= limits[j]
  }

  /** Range `i` is `[limits[i-1], limits[i])`, the first range unbounded
      below and the last unbounded above. */
  ghost predicate InRange(limits: seq<real>, n: nat, i: nat, stress: real)
    requires i < n && |limits| >= n - 1
  {
    && (i == 0 || limits[i - 1] <= stress)
    && (i == n - 1 || stress < limits[i])
  }

  /** For ascending limits the scan picks exactly the range the stress lies in. */
  lemma SelectIsContainingRange(limits: seq<real>, n: nat, i: nat, stress: real)
    requires n >= 1 && |limits| >= n - 1 && Ascending(limits)
    requires i < n
    ensures Select(limits, n, stress) == Success(i) <==> InRange(limits, n, i, stress)
  {
    SelectIsFirstMatch(limits, n, stress);
  }

  /** A two-range model: ranges `[.., 10)` and `[10, ..)`
      with strains `x/2` and `x/2 + 5`, both with modulus `1/2`. */
  lemma TwoRangeExample(top: real)
    ensures var limits := [10.0, top];
            var strain := [Some((x: real) => x / 2.0), Some((x: real) => x / 2.0 + 5.0)];
            var modulus := [Some((x: real) => 0.5), Some((x: real) => 0.5)];
            && Evaluate(strain, Select(limits, 2, 5.0), 5.0) == Success(2.5)
            && Evaluate(strain, Select(limits, 2, 10.0), 10.0) == Success(10.0)
            && Evaluate(modulus, Select(limits, 2, 5.0), 5.0) == Success(0.5)
            && Evaluate(modulus, Select(limits, 2, 10.0), 10.0) == Success(0.5)
  {
  }

  // ---------------------------------------------------------------------------
  // The material model object
  // ---------------------------------------------------------------------------

  /** The `k`-th entry of a table filled from `formulasList` with the
      `index += 1` loop: the compiled formula at `k < |formulasList|`, still
      None past the end of the list. */
  function ValueTable(formulasList: seq<string>, n: nat, compile: string -> Compiled): seq<Option<real -> real>>
  {
    seq(n, k requires 0 <= k < n => if k < |formulasList| then Some(compile(formulasList[k]).value) else None)
  }

  function DerivativeTable(formulasList: seq<string>, n: nat, compile: string -> Compiled): seq<Option<real -> real>>
  {
    seq(n, k requires 0 <= k < n => if k < |formulasList| then Some(compile(formulasList[k]).derivative) else None)
  }

  class MaterialModel {
    const id: int
    const noOfRanges: nat
    const rangeUpperLimits: seq<real>
    const formulas: array<Option<real -> real>>
    const dFormulas: array<Option<real -> real>>

    ghost predicate Valid()
    {
      formulas.Length == noOfRanges && dFormulas.Length == noOfRanges && formulas != dFormulas
    }

    /** The model holds exactly what the constructor stores for these arguments. */
    ghost predicate BuiltFrom(id: int, noOfRanges: nat, rangeUpperLimits: seq<real>,
                              formulasList: seq<string>, compile: string -> Compiled)
      reads formulas, dFormulas
    {
      && Valid()
      && this.id == id && this.noOfRanges == noOfRanges && this.rangeUpperLimits == rangeUpperLimits
      && formulas[..] == ValueTable(formulasList, noOfRanges, compile)
      && dFormulas[..] == DerivativeTable(formulasList, noOfRanges, compile)
    }

    /** Stores the `k`-th formula of `formulasList`, compiled, at index `k` of
        `formulas` and its derivative at index `k` of `dFormulas`. */
    constructor (id: int, noOfRanges: nat, rangeUpperLimits: seq<real>,
                 formulasList: seq<string>, compile: string -> Compiled)
      requires |formulasList| <= noOfRanges
      ensures fresh(formulas) && fresh(dFormulas)
      ensures BuiltFrom(id, noOfRanges, rangeUpperLimits, formulasList, compile)
    {
      this.noOfRanges := noOfRanges;
      this.id := id;
      this.rangeUpperLimits := rangeUpperLimits;
      formulas := new Option<real -> real>[noOfRanges](_ => None);
      dFormulas := new Option<real -> real>[noOfRanges](_ => None);
      new;
      var index := 0;
      for i := 0 to |formulasList|
        invariant index == i
        invariant forall k :: 0 <= k < noOfRanges ==>
                    formulas[k] == ValueTable(formulasList, noOfRanges, compile)[k] || (k >= i && formulas[k] == None)
        invariant forall k :: 0 <= k < noOfRanges ==>
                    dFormulas[k] == DerivativeTable(formulasList, noOfRanges, compile)[k] || (k >= i && dFormulas[k] == None)
        invariant forall k :: 0 <= k < i ==> formulas[k].Some? && dFormulas[k].Some?
      {
        var formula := formulasList[i];
        var compiled := compile(formula);
        formulas[index] := Some(compiled.value);
        dFormulas[index] := Some(compiled.derivative);
        index := index + 1;
      }
      assert formulas[..] == ValueTable(formulasList, noOfRanges, compile);
      assert dFormulas[..] == DerivativeTable(formulasList, noOfRanges, compile);
    }

    /** `get_strain`: the strain formula of the selected range, at `stress`. */
    method GetStrain(stress: real) returns (r: Result<real, EvalError>)
      requires Valid()
      ensures r == Evaluate(formulas[..], Select(rangeUpperLimits, noOfRanges, stress), stress)
    {
      var index := 0;
      while index + 1 < noOfRanges
        invariant (index == 0 || index < noOfRanges) && index <= |rangeUpperLimits|
        invariant Select(rangeUpperLimits, noOfRanges, stress)
                  == SelectFrom(rangeUpperLimits, noOfRanges, stress, index)
      {
        if index >= |rangeUpperLimits| {
          return Failure(MissingUpperLimit(index));
        }
        if stress < rangeUpperLimits[index] {
          match formulas[index]
          case None => return Failure(MissingFormula(index));
          case Some(f) => return Success(f(stress));
        }
        index := index + 1;
      }
      if noOfRanges == 0 {
        return Failure(NoRanges);
      }
      match formulas[noOfRanges - 1]
      case None => r := Failure(MissingFormula(noOfRanges - 1));
      case Some(f) => r := Success(f(stress));
    }

    /** `get_e`: the derivative of the strain formula of the same range,
        chosen by the same scan as `GetStrain`. */
    method GetE(stress: real) returns (r: Result<real, EvalError>)
      requires Valid()
      ensures r == Evaluate(dFormulas[..], Select(rangeUpperLimits, noOfRanges, stress), stress)
    {
      var index := 0;
      while index + 1 < noOfRanges
        invariant (index == 0 || index < noOfRanges) && index <= |rangeUpperLimits|
        invariant Select(rangeUpperLimits, noOfRanges, stress)
                  == SelectFrom(rangeUpperLimits, noOfRanges, stress, index)
      {
        if index >= |rangeUpperLimits| {
          return Failure(MissingUpperLimit(index));
        }
        if stress < rangeUpperLimits[index] {
          match dFormulas[index]
          case None => return Failure(MissingFormula(index));
          case Some(f) => return Success(f(stress));
        }
        index := index + 1;
      }
      if noOfRanges == 0 {
        return Failure(NoRanges);
      }
      match dFormulas[noOfRanges - 1]
      case None => r := Failure(MissingFormula(noOfRanges - 1));
      case Some(f) => r := Success(f(stress));
    }
  }

  /** A fully specified model (one formula per range, a limit for every range
      the scan reads) answers both queries, from the same range: the strain
      from formula `i` and the modulus from its derivative. */
  lemma StrainAndModulusShareRange(limits: seq<real>, formulasList: seq<string>, n: nat,
                                   compile: string -> Compiled, stress: real)
    requires n >= 1 && |formulasList| == n && |limits| >= n - 1
    ensures var i := Select(limits, n, stress).value;
            && Select(limits, n, stress).Success? && i < n
            && Evaluate(ValueTable(formulasList, n, compile), Select(limits, n, stress), stress)
               == Success(compile(formulasList[i]).value(stress))
            && Evaluate(DerivativeTable(formulasList, n, compile), Select(limits, n, stress), stress)
               == Success(compile(formulasList[i]).derivative(stress))
  {
    SelectIsFirstMatch(limits, n, stress);
  }

  // ---------------------------------------------------------------------------
  // The registry: load_material_models
  // ---------------------------------------------------------------------------

  /** One entry of the document's `material_models` list. */
  datatype MaterialRecord = MaterialRecord(id: int, name: string, noOfRanges: int,
                                           rangeUpperLimits: seq<real>, formulas: seq<string>)

  function MaterialId(r: MaterialRecord): int { r.id }

  /** Why filling the registry stops, naming the offending record's position. */
  datatype LoadError =
    | NegativeModelCount                 // np.empty(no_of_material_models): ValueError
    | NegativeRangeCount(record: nat)    // the constructor's np.empty(no_of_ranges)
    | TooManyFormulas(record: nat)       // the constructor's `put` past `no_of_ranges`
    | MaterialIdOutOfRange(record: nat)  // `material_models.put(id, ...)`

  function RecordFault(count: nat, records: seq<MaterialRecord>, i: nat): Option<LoadError>
    requires i < |records|
  {
    if records[i].noOfRanges < 0 then Some(NegativeRangeCount(i))
    else if |records[i].formulas| > records[i].noOfRanges then Some(TooManyFormulas(i))
    else if Slot(records[i].id, count).None? then Some(MaterialIdOutOfRange(i))
    else None
  }

  /** The error the loader raises: that of the first record that fails. */
  function RegistryError(count: nat, records: seq<MaterialRecord>): Option<LoadError>
  {
    FirstSome(RecordFaults(count, records))
  }

  /** The checks of the loader's loop, one per record, in document order. */
  function RecordFaults(count: nat, records: seq<MaterialRecord>): (r: seq<Option<LoadError>>)
    ensures |r| == |records| && forall i :: 0 <= i < |r| ==> r[i] == RecordFault(count, records, i)
  {
    seq(|records|, i requires 0 <= i < |records| => RecordFault(count, records, i))
  }

  /** The error of the whole call: the registry's own size is checked
      before any record is read. */
  function LoaderError(count: int, records: seq<MaterialRecord>): Option<LoadError>
  {
    if count < 0 then Some(NegativeModelCount) else RegistryError(count, records)
  }

  /** Slot `k` of the registry after the records have been put: empty if no
      record's id addresses it, otherwise the model built from the last such
      record, whose own id addresses slot `k`. */
  ghost predicate RegistrySlot(entry: MaterialModel?, records: seq<MaterialRecord>, count: nat, k: nat,
                               compile: string -> Compiled)
    reads if entry == null then {} else {entry.formulas, entry.dFormulas}
  {
    match LastAt(records, MaterialId, count, k)
    case None => entry == null
    case Some(i) =>
      var rec := records[i];
      && entry != null
      && Slot(entry.id, count) == Some(k)
      && rec.noOfRanges >= 0
      && entry.BuiltFrom(rec.id, rec.noOfRanges, rec.rangeUpperLimits, rec.formulas, compile)
  }

  /** `load_material_models`, returning the registry instead of assigning a
      global: `noOfMaterialModels` slots, each model at the slot its id
      addresses, a later record with the same slot replacing an earlier one. */
  method LoadMaterialModels(noOfMaterialModels: int, records: seq<MaterialRecord>, compile: string -> Compiled)
    returns (r: Result<array<MaterialModel?>, LoadError>)
    ensures r.Failure? <==> LoaderError(noOfMaterialModels, records).Some?
    ensures r.Failure? ==> LoaderError(noOfMaterialModels, records) == Some(r.error)
    ensures r.Success? ==>
              && fresh(r.value)
              && r.value.Length == noOfMaterialModels
              && (forall k :: 0 <= k < r.value.Length ==>
                    RegistrySlot(r.value[k], records, r.value.Length, k, compile))
              && (forall k :: 0 <= k < r.value.Length && r.value[k] != null ==> fresh(r.value[k]))
              && (forall k, l :: 0 <= k < l < r.value.Length && r.value[k] != null ==> r.value[k] != r.value[l])
  {
    if noOfMaterialModels < 0 {
      return Failure(NegativeModelCount);
    }
    var materialModels := new MaterialModel?[noOfMaterialModels](_ => null);
    for i := 0 to |records|
      invariant forall j :: 0 <= j < i ==> RecordFault(noOfMaterialModels, records, j).None?
      invariant forall k :: 0 <= k < noOfMaterialModels ==>
                  RegistrySlot(materialModels[k], records[..i], noOfMaterialModels, k, compile)
      invariant forall k :: 0 <= k < noOfMaterialModels && materialModels[k] != null ==>
                  fresh(materialModels[k])
    {
      var rec := records[i];
      if rec.noOfRanges < 0 {
        FirstSomeAt(RecordFaults(noOfMaterialModels, records), i);
        return Failure(NegativeRangeCount(i));
      }
      if |rec.formulas| > rec.noOfRanges {
        FirstSomeAt(RecordFaults(noOfMaterialModels, records), i);
        return Failure(TooManyFormulas(i));
      }
      var materialModel := new MaterialModel(rec.id, rec.noOfRanges, rec.rangeUpperLimits, rec.formulas, compile);
      if Slot(rec.id, noOfMaterialModels).None? {
        FirstSomeAt(RecordFaults(noOfMaterialModels, records), i);
        return Failure(MaterialIdOutOfRange(i));
      }
      ghost var slot := Slot(rec.id, noOfMaterialModels).value;
      label BeforePut:
      PutModel(materialModels, records, i, compile, materialModel);
      forall k | 0 <= k < noOfMaterialModels && materialModels[k] != null
        ensures fresh(materialModels[k])
      {
        if k != slot {
          assert materialModels[k] == old@BeforePut(materialModels[k]);
        }
      }
    }
    assert records[..|records|] == records;
    // A stored model's id addresses its own slot, so it sits in no other.
    forall k, l | 0 <= k < l < noOfMaterialModels && materialModels[k] != null
      ensures materialModels[k] != materialModels[l]
    {
      assert RegistrySlot(materialModels[k], records, noOfMaterialModels, k, compile);
      if materialModels[l] != null {
        assert RegistrySlot(materialModels[l], records, noOfMaterialModels, l, compile);
      }
    }
    return Success(materialModels);
  }

  /** One pass of the loader's loop for a record that passes its checks: its
      model put at the slot its id addresses, every other slot unchanged. */
  method PutModel(registry: array<MaterialModel?>, records: seq<MaterialRecord>, i: nat,
                  compile: string -> Compiled, model: MaterialModel)
    requires i < |records| && RecordFault(registry.Length, records, i).None?
    requires model.BuiltFrom(records[i].id, records[i].noOfRanges, records[i].rangeUpperLimits,
                             records[i].formulas, compile)
    requires forall k :: 0 <= k < registry.Length ==>
               RegistrySlot(registry[k], records[..i], registry.Length, k, compile)
    modifies registry
    ensures var slot := Slot(records[i].id, registry.Length).value;
            && registry[slot] == model
            && forall k :: 0 <= k < registry.Length && k != slot ==> registry[k] == old(registry[k])
    ensures forall k :: 0 <= k < registry.Length ==>
              RegistrySlot(registry[k], records[..i + 1], registry.Length, k, compile)
  {
    var slot := Slot(records[i].id, registry.Length).value;
    registry[slot] := model;
    forall k | 0 <= k < registry.Length
      ensures RegistrySlot(registry[k], records[..i + 1], registry.Length, k, compile)
    {
      LastAtExtend(records, MaterialId, registry.Length, i, k);
      if k != slot {
        assert old(RegistrySlot(registry[k], records[..i], registry.Length, k, compile));
      }
    }
  }
}
