/** The test-detail screen (src/screens/TestDetail.js): the roster of test
    subjects generated from a group's male and female counts, and the
    completed count it shows. */
module TestDetail {
  import opened Common

  /** A group's `no_of_male` or `no_of_female` as JSON gives it: absent
      (`undefined`), `null`, or a whole number. */
  datatype JsCount = Absent | NullCount | Count(n: nat)

  /** One generated test subject. */
  datatype Animal = Animal(id: string, gender: string, completed: bool)

  /** How often `for (let i = 1; i <= c; i++)` runs: `i <= undefined` is
      false, `null` compares as 0. */
  function Iterations(c: JsCount): nat
  {
    match c
    case Count(n) => n
    case _ => 0
  }

  /** `${species_type}${k}`. */
  function IdOf(speciesType: string, k: nat): string
  {
    speciesType + NatToDecimal(k)
  }

  /** Ids built from different numbers differ. */
  lemma IdOfInjective(speciesType: string, a: nat, b: nat)
    requires IdOf(speciesType, a) == IdOf(speciesType, b)
    ensures a == b
  {
    assert IdOf(speciesType, a)[|speciesType|..] == NatToDecimal(a);
    assert IdOf(speciesType, b)[|speciesType|..] == NatToDecimal(b);
    DecimalInjective(a, b);
  }

  /** The males the first loop pushes after `n` rounds. */
  function Males(speciesType: string, n: nat): (r: seq<Animal>)
    ensures |r| == n
  {
    if n == 0 then [] else Males(speciesType, n - 1) + [Animal(IdOf(speciesType, n), "Male", false)]
  }

  /** The females the second loop pushes after `n` rounds, numbered on
      from `offset`. */
  function Females(speciesType: string, offset: nat, n: nat): (r: seq<Animal>)
    ensures |r| == n
  {
    if n == 0 then [] else Females(speciesType, offset, n - 1) + [Animal(IdOf(speciesType, offset + n), "Female", false)]
  }

  /** `generateAnimalData`, numbering the females on from `no_of_male || 0`,
      as the total on the line before the loops counts the males. */
  function Roster(speciesType: string, male: JsCount, female: JsCount): seq<Animal>
  {
    Males(speciesType, Iterations(male)) + Females(speciesType, Iterations(male), Iterations(female))
  }

  /** The roster holds `no_of_male` males then `no_of_female` females (an
      absent or null count as none); the k-th subject, counting from 1, has
      the id `${species_type}${k}`, and none is completed yet. */
  lemma {:induction false} RosterShape(speciesType: string, male: JsCount, female: JsCount)
    ensures var r := Roster(speciesType, male, female);
      |r| == Iterations(male) + Iterations(female) &&
      forall i :: 0 <= i < |r| ==>
        r[i].id == IdOf(speciesType, i + 1) && !r[i].completed &&
        r[i].gender == (if i < Iterations(male) then "Male" else "Female")
  {
    MalesShape(speciesType, Iterations(male));
    FemalesShape(speciesType, Iterations(male), Iterations(female));
  }

  lemma {:induction false} MalesShape(speciesType: string, n: nat)
    ensures forall i :: 0 <= i < n ==> Males(speciesType, n)[i] == Animal(IdOf(speciesType, i + 1), "Male", false)
  {
    if n > 0 {
      MalesShape(speciesType, n - 1);
    }
  }

  lemma {:induction false} FemalesShape(speciesType: string, offset: nat, n: nat)
    ensures forall i :: 0 <= i < n ==>
      Females(speciesType, offset, n)[i] == Animal(IdOf(speciesType, offset + i + 1), "Female", false)
  {
    if n > 0 {
      FemalesShape(speciesType, offset, n - 1);
    }
  }

  /** The ids are pairwise distinct, as their use as list keys needs. */
  lemma RosterIdsDistinct(speciesType: string, male: JsCount, female: JsCount)
    ensures var r := Roster(speciesType, male, female);
      forall i, j :: 0 <= i < j < |r| ==> r[i].id != r[j].id
  {
    var r := Roster(speciesType, male, female);
    RosterShape(speciesType, male, female);
    forall i, j | 0 <= i < j < |r|
      ensures r[i].id != r[j].id
    {
      if r[i].id == r[j].id {
        IdOfInjective(speciesType, i + 1, j + 1);
      }
    }
  }

  /** `generateAnimalData`: the two counting loops. */
  method GenerateAnimalData(speciesType: string, male: JsCount, female: JsCount) returns (animals: seq<Animal>)
    ensures animals == Roster(speciesType, male, female)
  {
    animals := [];
    var i := 1;
    while i <= Iterations(male)
      invariant 1 <= i <= Iterations(male) + 1
      invariant animals == Males(speciesType, i - 1)
    {
      animals := animals + [Animal(IdOf(speciesType, i), "Male", false)];
      i := i + 1;
    }
    ghost var males := animals;
    i := 1;
    while i <= Iterations(female)
      invariant 1 <= i <= Iterations(female) + 1
      invariant animals == males + Females(speciesType, Iterations(male), i - 1)
    {
      animals := animals + [Animal(IdOf(speciesType, i + Iterations(male)), "Female", false)];
      i := i + 1;
    }
  }

  /** `animalData.filter(animal => animal.completed).length`. */
  function CompletedCount(animals: seq<Animal>): (r: nat)
    ensures r <= |animals|
  {
    if |animals| == 0 then 0
    else CompletedCount(animals[..|animals| - 1]) + (if animals[|animals| - 1].completed then 1 else 0)
  }

  lemma {:induction false} NoneCompletedCountsZero(animals: seq<Animal>)
    requires forall i :: 0 <= i < |animals| ==> !animals[i].completed
    ensures CompletedCount(animals) == 0
  {
    if |animals| > 0 {
      NoneCompletedCountsZero(animals[..|animals| - 1]);
    }
  }

  /** The progress line reads "0/n subjects completed" for a roster of n. */
  lemma RosterProgress(speciesType: string, male: JsCount, female: JsCount)
    ensures CompletedCount(Roster(speciesType, male, female)) == 0
    ensures |Roster(speciesType, male, female)| == Iterations(male) + Iterations(female)
  {
    RosterShape(speciesType, male, female);
    NoneCompletedCountsZero(Roster(speciesType, male, female));
  }

  // ---------------------------------------------------------------------------
  // The female ids as written.

  /** `${species_type}${i + no_of_male}` as written: `i + undefined` is NaN,
      `i + null` is `i`. */
  function FemaleIdAsWritten(speciesType: string, male: JsCount, i: nat): string
  {
    match male
    case Absent => speciesType + "NaN"
    case NullCount => IdOf(speciesType, i)
    case Count(n) => IdOf(speciesType, i + n)
  }

  function FemalesAsWritten(speciesType: string, male: JsCount, n: nat): (r: seq<Animal>)
    ensures |r| == n
  {
    if n == 0 then []
    else FemalesAsWritten(speciesType, male, n - 1) + [Animal(FemaleIdAsWritten(speciesType, male, n), "Female", false)]
  }

  function RosterAsWritten(speciesType: string, male: JsCount, female: JsCount): seq<Animal>
  {
    Males(speciesType, Iterations(male)) + FemalesAsWritten(speciesType, male, Iterations(female))
  }

  /** Whenever `no_of_male` is present, null or a number, the loops as
      written give the roster. */
  lemma {:induction false} RosterAsWrittenAgrees(speciesType: string, male: JsCount, female: JsCount)
    requires male != Absent
    ensures RosterAsWritten(speciesType, male, female) == Roster(speciesType, male, female)
  {
    FemalesAgree(speciesType, male, Iterations(female));
  }

  lemma {:induction false} FemalesAgree(speciesType: string, male: JsCount, n: nat)
    requires male != Absent
    ensures FemalesAsWritten(speciesType, male, n) == Females(speciesType, Iterations(male), n)
  {
    if n > 0 {
      FemalesAgree(speciesType, male, n - 1);
    }
  }

  /** With `no_of_male` absent and two or more females, every female gets
      the id `${species_type}NaN`, so the list keys repeat. */
  lemma RosterAsWrittenRepeatsIds(speciesType: string, female: JsCount)
    requires Iterations(female) >= 2
    ensures var r := RosterAsWritten(speciesType, Absent, female);
      |r| >= 2 && r[0].id == r[1].id == speciesType + "NaN"
  {
    var n := Iterations(female);
    FemalesAsWrittenIds(speciesType, n);
  }

  lemma {:induction false} FemalesAsWrittenIds(speciesType: string, n: nat)
    ensures forall i :: 0 <= i < n ==> FemalesAsWritten(speciesType, Absent, n)[i].id == speciesType + "NaN"
  {
    if n > 0 {
      FemalesAsWrittenIds(speciesType, n - 1);
    }
  }
}
