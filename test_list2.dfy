/** The blood-chemistry entry grid of src/screens/TestList2.js: ten rats,
    each with six measurement fields kept as the text typed into them, a
    per-rat count of the filled fields, and the edit and clear actions. */
module BloodChemistry {
  import opened Common

  /** The `key`s of `measurementFields`, in order; a rat's measurement
      object has exactly these keys, in this order. */
  const FieldKeys: seq<string> := ["glucose", "cholesterol", "hemoglobin", "creatinine", "albumin", "bilirubin"]

  /** A measurement object with every field empty. */
  const NoMeasurements: seq<string> := ["", "", "", "", "", ""]

  /** A rat: its measurements are the values of its measurement object, in
      `FieldKeys` order. */
  datatype Rat = Rat(id: string, gender: string, measurements: seq<string>)

  /** The initial `ratData`. */
  const InitialRats: seq<Rat> := [
    Rat("R1", "Male", NoMeasurements), Rat("R2", "Male", NoMeasurements),
    Rat("R3", "Male", NoMeasurements), Rat("R4", "Male", NoMeasurements),
    Rat("R5", "Male", NoMeasurements), Rat("R6", "Female", NoMeasurements),
    Rat("R7", "Female", NoMeasurements), Rat("R8", "Female", NoMeasurements),
    Rat("R9", "Female", NoMeasurements), Rat("R10", "Female", NoMeasurements)]

  /** The initial table holds R1 to R10, the first five male and the rest
      female, with all six fields of every rat empty. */
  lemma InitialRatsShape()
    ensures |InitialRats| == 10
    ensures forall i :: 0 <= i < 10 ==>
      InitialRats[i].id == "R" + NatToDecimal(i + 1) &&
      InitialRats[i].gender == (if i < 5 then "Male" else "Female") &&
      InitialRats[i].measurements == NoMeasurements
  {
    forall i | 0 <= i < 10
      ensures InitialRats[i].id == "R" + NatToDecimal(i + 1)
    {
      if i < 9 {
        assert NatToDecimal(i + 1) == [DigitChar(i + 1)];
      } else {
        assert NatToDecimal(10) == NatToDecimal(1) + [DigitChar(0)];
      }
    }
  }

  /** The position of a field key in a measurement object. */
  function FieldIndex(key: string): (i: nat)
    requires key in FieldKeys
    ensures i < |FieldKeys| && FieldKeys[i] == key
  {
    if key == FieldKeys[0] then 0
    else if key == FieldKeys[1] then 1
    else if key == FieldKeys[2] then 2
    else if key == FieldKeys[3] then 3
    else if key == FieldKeys[4] then 4
    else 5
  }

  /** `Object.values(m).filter(v => v.trim() !== '').length`. */
  function Filled(values: seq<string>): (r: nat)
    ensures r <= |values|
  {
    if |values| == 0 then 0
    else Filled(values[..|values| - 1]) + (if Blank(values[|values| - 1]) then 0 else 1)
  }

  /** `hasAnyMeasurements`: some value is not blank after `trim`. */
  predicate HasAny(values: seq<string>)
  {
    exists i :: 0 <= i < |values| && !Blank(values[i])
  }

  /** The filled part of `getCompletionStatus`. */
  datatype Status = Status(filled: nat, total: nat)

  function CompletionStatus(values: seq<string>): (r: Status)
    requires |values| == |FieldKeys|
    ensures r.total == |FieldKeys| && r.filled <= r.total
  {
    Status(Filled(values), |FieldKeys|)
  }

  /** A rat has some measurement exactly when its filled count is positive. */
  lemma {:induction false} HasAnyIffFilled(values: seq<string>)
    ensures HasAny(values) <==> Filled(values) > 0
  {
    if |values| > 0 {
      var prefix := values[..|values| - 1];
      HasAnyIffFilled(prefix);
      if HasAny(prefix) {
        var i :| 0 <= i < |prefix| && !Blank(prefix[i]);
        assert !Blank(values[i]);
      }
      if HasAny(values) && Blank(values[|values| - 1]) {
        var i :| 0 <= i < |values| && !Blank(values[i]);
        assert !Blank(prefix[i]);
      }
    }
  }

  /** All fields are filled exactly when none is blank. */
  lemma {:induction false} FilledAll(values: seq<string>)
    ensures Filled(values) == |values| <==> forall i :: 0 <= i < |values| ==> !Blank(values[i])
  {
    if |values| > 0 {
      var prefix := values[..|values| - 1];
      FilledAll(prefix);
      if Filled(values) == |values| {
        assert forall i :: 0 <= i < |prefix| ==> !Blank(prefix[i]);
      }
    }
  }

  /** Setting one field changes the filled count by that field alone. */
  lemma {:induction false} FilledAfterSet(values: seq<string>, k: nat, v: string)
    requires k < |values|
    ensures Filled(values[k := v]) + (if Blank(values[k]) then 0 else 1) ==
            Filled(values) + (if Blank(v) then 0 else 1)
  {
    var n := |values| - 1;
    if k < n {
      FilledAfterSet(values[..n], k, v);
      assert values[k := v][..n] == values[..n][k := v];
    } else {
      assert values[k := v][..n] == values[..n];
    }
  }

  /** An empty measurement object has nothing filled. */
  lemma NothingFilled()
    ensures Filled(NoMeasurements) == 0 && !HasAny(NoMeasurements)
  {
    assert forall i :: 0 <= i < |NoMeasurements| ==> NoMeasurements[i] == "";
    HasAnyIffFilled(NoMeasurements);
  }

  /** The screen's table of rats. */
  class BloodChemistryScreen {
    var ratData: seq<Rat>

    /** Every rat has a value for each of the six fields. */
    predicate Valid()
      reads this
    {
      forall i :: 0 <= i < |ratData| ==> |ratData[i].measurements| == |FieldKeys|
    }

    constructor ()
      ensures Valid() && ratData == InitialRats
    {
      ratData := InitialRats;
    }

    /** `updateMeasurement`, called from the text input of field `fieldKey`
        on the card of rat `ratIndex`: only that field of that rat changes. */
    method UpdateMeasurement(ratIndex: nat, fieldKey: string, value: string)
      requires Valid() && ratIndex < |ratData| && fieldKey in FieldKeys
      modifies this
      ensures Valid() && |ratData| == |old(ratData)|
      ensures ratData[ratIndex].measurements[FieldIndex(fieldKey)] == value
      ensures forall j :: 0 <= j < |ratData| ==>
        ratData[j].id == old(ratData)[j].id && ratData[j].gender == old(ratData)[j].gender
      ensures forall j :: 0 <= j < |ratData| && j != ratIndex ==> ratData[j] == old(ratData)[j]
      ensures forall k :: 0 <= k < |FieldKeys| && k != FieldIndex(fieldKey) ==>
        ratData[ratIndex].measurements[k] == old(ratData)[ratIndex].measurements[k]
    {
      var rat := ratData[ratIndex];
      var updated := rat.(measurements := rat.measurements[FieldIndex(fieldKey) := value]);
      ratData := ratData[ratIndex := updated];
    }

    /** `clearAllMeasurements`: only the "Clear" button of the confirmation
        dialog empties every field; ids and genders stay. */
    method ClearAllMeasurements(confirmed: bool)
      requires Valid()
      modifies this
      ensures Valid() && |ratData| == |old(ratData)|
      ensures !confirmed ==> ratData == old(ratData)
      ensures confirmed ==> forall j :: 0 <= j < |ratData| ==>
        ratData[j] == Rat(old(ratData)[j].id, old(ratData)[j].gender, NoMeasurements)
    {
      if confirmed {
        ratData := seq(|ratData|, j requires 0 <= j < |ratData| reads this =>
          Rat(ratData[j].id, ratData[j].gender, NoMeasurements));
      }
    }
  }
}
