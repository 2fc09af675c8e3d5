/**
  The unit-conversion tab of the item editor: a small form (from unit, to unit,
  factor, error message) in front of a list of conversions owned by the caller.
  Adding validates in a fixed order and reports the first failure; deleting
  filters by id; unit ids are shown by name.
 */
module UnitConversions {
  import opened Optional
  import opened Seqs

  datatype Unit = Unit(id: string, name: string)

  /** One conversion row: `conversionFactor` units of `toUnitId` per `fromUnitId`. */
  datatype Conversion = Conversion(id: string, fromUnitId: string, toUnitId: string, conversionFactor: real)

  /** The six units shown when the caller supplies none. */
  const SampleUnits: seq<Unit> := [
    Unit("unit1", "Piece (Pcs)"),
    Unit("unit2", "Kilogram (Kg)"),
    Unit("unit3", "Liter (L)"),
    Unit("unit4", "Box"),
    Unit("unit5", "Meter (m)"),
    Unit("unit6", "Carton")
  ]

  /** The units offered in the two pickers. */
  function DisplayUnits(units: seq<Unit>): seq<Unit> {
    if |units| > 0 then units else SampleUnits
  }

  /** The position of the first unit with id `unitId` (`Array.prototype.find`). */
  function FirstWithId(units: seq<Unit>, unitId: string): (r: Option<nat>)
    ensures r.Some? ==> r.value < |units| && units[r.value].id == unitId
                        && forall j :: 0 <= j < r.value ==> units[j].id != unitId
    ensures r.None? ==> forall j :: 0 <= j < |units| ==> units[j].id != unitId
    decreases |units|
  {
    if units == [] then None
    else if units[0].id == unitId then Some(0)
    else match FirstWithId(units[1..], unitId)
      case None => None
      case Some(k) => Some(k + 1)
  }

  /** The name of the first displayed unit with that id, or the id itself when there is none. */
  function GetUnitName(units: seq<Unit>, unitId: string): (r: string)
    ensures var shown := DisplayUnits(units);
            (exists i :: 0 <= i < |shown| && shown[i].id == unitId
                         && (forall j :: 0 <= j < i ==> shown[j].id != unitId)
                         && r == shown[i].name)
            || ((forall i :: 0 <= i < |shown| ==> shown[i].id != unitId) && r == unitId)
  {
    match FirstWithId(DisplayUnits(units), unitId)
    case Some(i) => DisplayUnits(units)[i].name
    case None => unitId
  }

  /** With no units supplied the sample names are used: "unit2" reads "Kilogram (Kg)", an unknown id reads as itself. */
  lemma SampleUnitNames()
    ensures GetUnitName([], "unit2") == "Kilogram (Kg)"
    ensures GetUnitName([], "unit9") == "unit9"
  {
    assert FirstWithId(SampleUnits, "unit2") == Some(1);
  }

  /** The checks of the add button, in the order they run. */
  datatype AddError = MissingFrom | MissingTo | SameUnit | NonPositiveFactor | Duplicate

  /** The text each failed check shows under the form. */
  function Message(e: AddError): string {
    match e
    case MissingFrom => "Please select a 'From Unit'"
    case MissingTo => "Please select a 'To Unit'"
    case SameUnit => "From Unit and To Unit cannot be the same"
    case NonPositiveFactor => "Conversion factor must be greater than 0"
    case Duplicate => "This unit conversion already exists"
  }

  /** Some row already converts `fromUnitId` to `toUnitId` (the pair is ordered). */
  predicate HasPair(conversions: seq<Conversion>, fromUnitId: string, toUnitId: string) {
    exists i :: 0 <= i < |conversions|
      && conversions[i].fromUnitId == fromUnitId && conversions[i].toUnitId == toUnitId
  }

  /** The first check that fails, or `None` when the conversion may be added. */
  function Validate(conversions: seq<Conversion>, fromUnitId: string, toUnitId: string, factor: real)
    : (r: Option<AddError>)
    ensures r == None <==>
              fromUnitId != "" && toUnitId != "" && fromUnitId != toUnitId
              && factor > 0.0 && !HasPair(conversions, fromUnitId, toUnitId)
    ensures r == Some(MissingFrom) <==> fromUnitId == ""
    ensures r == Some(MissingTo) <==> fromUnitId != "" && toUnitId == ""
    ensures r == Some(SameUnit) <==> fromUnitId != "" && toUnitId != "" && fromUnitId == toUnitId
    ensures r == Some(NonPositiveFactor) <==>
              fromUnitId != "" && toUnitId != "" && fromUnitId != toUnitId && factor <= 0.0
    ensures r == Some(Duplicate) <==>
              fromUnitId != "" && toUnitId != "" && fromUnitId != toUnitId && factor > 0.0
              && HasPair(conversions, fromUnitId, toUnitId)
  {
    if fromUnitId == "" then Some(MissingFrom)
    else if toUnitId == "" then Some(MissingTo)
    else if fromUnitId == toUnitId then Some(SameUnit)
    else if factor <= 0.0 then Some(NonPositiveFactor)
    else if HasPair(conversions, fromUnitId, toUnitId) then Some(Duplicate)
    else None
  }

  /** The list handed to the caller after a successful add: the old rows, then the new one. */
  function AddConversion(conversions: seq<Conversion>, id: string, fromUnitId: string, toUnitId: string,
                         factor: real): seq<Conversion> {
    conversions + [Conversion(id, fromUnitId, toUnitId, factor)]
  }

  /** The list handed to the caller after deleting `id`. */
  function DeleteConversion(conversions: seq<Conversion>, id: string): (r: seq<Conversion>)
    ensures forall c :: c in r <==> c in conversions && c.id != id
  {
    Filter(conversions, (c: Conversion) => c.id != id)
  }

  /** Deleting an id no row carries leaves the list as it was. */
  lemma DeleteAbsentIdKeepsList(conversions: seq<Conversion>, id: string)
    requires forall i :: 0 <= i < |conversions| ==> conversions[i].id != id
    ensures DeleteConversion(conversions, id) == conversions
  {
    FilterKeepsAll(conversions, (c: Conversion) => c.id != id);
  }

  /** Deleting from a concatenation deletes from each part, so the kept rows stay in order. */
  lemma DeleteKeepsOrder(a: seq<Conversion>, b: seq<Conversion>, id: string)
    ensures DeleteConversion(a + b, id) == DeleteConversion(a, id) + DeleteConversion(b, id)
  {
    FilterAppend(a, b, (c: Conversion) => c.id != id);
  }

  /** Every row that passed the checks: two different units and a positive factor. */
  predicate WellFormed(c: Conversion) {
    c.fromUnitId != "" && c.toUnitId != "" && c.fromUnitId != c.toUnitId && c.conversionFactor > 0.0
  }

  ghost predicate DistinctPairs(conversions: seq<Conversion>) {
    Pairwise(conversions, (a: Conversion, b: Conversion) =>
      a.fromUnitId != b.fromUnitId || a.toUnitId != b.toUnitId)
  }

  /** The invariant of the list: well-formed rows and no ordered (from, to) pair twice. */
  ghost predicate ConversionsValid(conversions: seq<Conversion>) {
    (forall i :: 0 <= i < |conversions| ==> WellFormed(conversions[i])) && DistinctPairs(conversions)
  }

  /** A conversion that passes the checks keeps the list valid once appended. */
  lemma AddPreservesValid(conversions: seq<Conversion>, id: string, fromUnitId: string, toUnitId: string,
                          factor: real)
    requires ConversionsValid(conversions)
    requires Validate(conversions, fromUnitId, toUnitId, factor) == None
    ensures ConversionsValid(AddConversion(conversions, id, fromUnitId, toUnitId, factor))
  {
    var r := AddConversion(conversions, id, fromUnitId, toUnitId, factor);
    forall i, j | 0 <= i < j < |r|
      ensures r[i].fromUnitId != r[j].fromUnitId || r[i].toUnitId != r[j].toUnitId
    {
      if j == |conversions| {
        assert r[i] == conversions[i];
        assert !(conversions[i].fromUnitId == fromUnitId && conversions[i].toUnitId == toUnitId);
      } else {
        assert r[i] == conversions[i] && r[j] == conversions[j];
      }
    }
  }

  /** Deleting keeps the list valid. */
  lemma DeletePreservesValid(conversions: seq<Conversion>, id: string)
    requires ConversionsValid(conversions)
    ensures ConversionsValid(DeleteConversion(conversions, id))
  {
    var r := DeleteConversion(conversions, id);
    forall i | 0 <= i < |r| ensures WellFormed(r[i]) {
      assert r[i] in conversions;
    }
    FilterPairwise(conversions, (c: Conversion) => c.id != id,
                   (a: Conversion, b: Conversion) => a.fromUnitId != b.fromUnitId || a.toUnitId != b.toUnitId);
  }

  /** The reverse of an existing pair is not a duplicate. */
  lemma ReversePairAccepted(conversions: seq<Conversion>, a: string, b: string, factor: real)
    requires ConversionsValid(conversions) && HasPair(conversions, a, b) && !HasPair(conversions, b, a)
    requires factor > 0.0
    ensures Validate(conversions, b, a, factor) == None
  {
    var i :| 0 <= i < |conversions| && conversions[i].fromUnitId == a && conversions[i].toUnitId == b;
    assert WellFormed(conversions[i]);
  }

  /** The add form. `units` is the caller's unit list; the conversion list itself belongs to the caller. */
  class UnitConversionsTab {
    const units: seq<Unit>
    var fromUnitId: string
    var toUnitId: string
    var conversionFactor: real
    var error: string

    constructor (units: seq<Unit>)
      ensures this.units == units
      ensures fromUnitId == "" && toUnitId == "" && conversionFactor == 1.0 && error == ""
    {
      this.units := units;
      fromUnitId, toUnitId, conversionFactor, error := "", "", 1.0, "";
    }

    method SelectFromUnit(id: string)
      modifies this
      ensures fromUnitId == id
      ensures toUnitId == old(toUnitId) && conversionFactor == old(conversionFactor) && error == old(error)
    {
      fromUnitId := id;
    }

    method SelectToUnit(id: string)
      modifies this
      ensures toUnitId == id
      ensures fromUnitId == old(fromUnitId) && conversionFactor == old(conversionFactor) && error == old(error)
    {
      toUnitId := id;
    }

    method EnterFactor(factor: real)
      modifies this
      ensures conversionFactor == factor
      ensures fromUnitId == old(fromUnitId) && toUnitId == old(toUnitId) && error == old(error)
    {
      conversionFactor := factor;
    }

    /**
      The add button. On the first failing check: its message is shown and nothing else
      changes (the result is `None`: the caller is not told). Otherwise the caller receives
      the list with the new row at the end and the form is reset.
      `freshId` stands for the clock-derived id of the new row.
     */
    method HandleAddConversion(unitConversions: seq<Conversion>, freshId: string)
      returns (changed: Option<seq<Conversion>>)
      modifies this
      ensures var check := Validate(unitConversions, old(fromUnitId), old(toUnitId), old(conversionFactor));
              match check
              case Some(e) =>
                && changed == None && error == Message(e)
                && fromUnitId == old(fromUnitId) && toUnitId == old(toUnitId)
                && conversionFactor == old(conversionFactor)
              case None =>
                && changed == Some(AddConversion(unitConversions, freshId, old(fromUnitId), old(toUnitId),
                                                 old(conversionFactor)))
                && fromUnitId == "" && toUnitId == "" && conversionFactor == 1.0 && error == ""
    {
      if fromUnitId == "" {
        error := Message(MissingFrom);
        return None;
      }
      if toUnitId == "" {
        error := Message(MissingTo);
        return None;
      }
      if fromUnitId == toUnitId {
        error := Message(SameUnit);
        return None;
      }
      if conversionFactor <= 0.0 {
        error := Message(NonPositiveFactor);
        return None;
      }
      var existing := HasPair(unitConversions, fromUnitId, toUnitId);
      if existing {
        error := Message(Duplicate);
        return None;
      }
      changed := Some(AddConversion(unitConversions, freshId, fromUnitId, toUnitId, conversionFactor));
      fromUnitId, toUnitId, conversionFactor, error := "", "", 1.0, "";
    }

    /** The name shown for a unit id in the conversion list. */
    function UnitName(unitId: string): (r: string)
      ensures var shown := DisplayUnits(units);
              (exists i :: 0 <= i < |shown| && shown[i].id == unitId
                           && (forall j :: 0 <= j < i ==> shown[j].id != unitId)
                           && r == shown[i].name)
              || ((forall i :: 0 <= i < |shown| ==> shown[i].id != unitId) && r == unitId)
    {
      GetUnitName(units, unitId)
    }
  }
}
