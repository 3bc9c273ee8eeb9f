/** The animal-details screen of src/screens/AnimalDetails.js: the selected
    group's male and female animals as one list with a section header
    before each non-empty part, and the texts of each card. */
module AnimalDetails {
  import opened Common

  /** An animal record as the API gives it. */
  datatype Animal = Animal(aId: JsField, aType: JsField, source: JsField, strain: JsField,
                           aSrlNum: JsField, sourceDate: JsField)

  /** A JSON value where a list of animals is expected: an array, or
      anything else (absent, null, an object, ...). */
  datatype AnimalList = NotArray | Array(items: seq<Animal>)

  /** The fields of the selected group the screen reads. */
  datatype Group = Group(studyType: JsField, speciesType: JsField, ratListM: AnimalList, ratListF: AnimalList)

  /** `Array.isArray(l) ? l : []`; a missing group has no lists. */
  function AnimalsOf(group: Option<Group>, male: bool): seq<Animal>
  {
    if group.None? then []
    else
      var l := if male then group.value.ratListM else group.value.ratListF;
      if l.Array? then l.items else []
  }

  /** `getSpeciesType`: the four species codes, anything else 'Unknown'. */
  function SpeciesName(species: JsField): (r: string)
    ensures r == "Unknown" <==> !(species in {Str("R"), Str("P"), Str("M"), Str("D")})
  {
    if species == Str("R") then "Rat"
    else if species == Str("P") then "Pig"
    else if species == Str("M") then "Monkey"
    else if species == Str("D") then "Dog"
    else "Unknown"
  }

  /** The species name of a (possibly missing) group. */
  function GroupSpecies(group: Option<Group>): string
  {
    SpeciesName(if group.Some? then group.value.speciesType else Missing)
  }

  /** One entry of the list: a section header or an animal card. */
  datatype Item = Header(id: string, title: string) | Card(animal: Animal)

  function Cards(animals: seq<Animal>): (r: seq<Item>)
    ensures |r| == |animals|
    ensures forall i :: 0 <= i < |r| ==> r[i] == Card(animals[i])
  {
    seq(|animals|, i requires 0 <= i < |animals| => Card(animals[i]))
  }

  /** A section header's title, such as 'Male Rats'. */
  function HeaderTitle(sex: string, species: string): string
  {
    sex + " " + species + "s"
  }

  /** The header before the animals of one sex, present only when there are
      some. */
  function SectionHeader(animals: seq<Animal>, id: string, sex: string, species: string): seq<Item>
  {
    if |animals| > 0 then [Header(id, HeaderTitle(sex, species))] else []
  }

  /** The items of one sex: its header, then its cards. */
  function Section(animals: seq<Animal>, id: string, sex: string, species: string): seq<Item>
  {
    SectionHeader(animals, id, sex, species) + Cards(animals)
  }

  /** The male section, then the female one. */
  function Listing(males: seq<Animal>, females: seq<Animal>, species: string): seq<Item>
  {
    Section(males, "male", "Male", species) + Section(females, "female", "Female", species)
  }

  /** `allAnimals`. */
  function AllAnimals(group: Option<Group>): seq<Item>
  {
    Listing(AnimalsOf(group, true), AnimalsOf(group, false), GroupSpecies(group))
  }

  function HeaderCount(animals: seq<Animal>): nat
  {
    if |animals| > 0 then 1 else 0
  }

  lemma ListingFront(m: seq<Animal>, f: seq<Animal>, species: string)
    ensures |Listing(m, f, species)| == |m| + |f| + HeaderCount(m) + HeaderCount(f)
    ensures |m| > 0 ==> Listing(m, f, species)[0] == Header("male", HeaderTitle("Male", species))
    ensures forall i :: 0 <= i < |m| ==> Listing(m, f, species)[HeaderCount(m) + i] == Card(m[i])
  {
    SectionLayout(m, "male", "Male", species);
    SectionLayout(f, "female", "Female", species);
    forall i | 0 <= i < |m|
      ensures Listing(m, f, species)[HeaderCount(m) + i] == Card(m[i])
    {
      SectionCard(m, "male", "Male", species, i);
    }
  }

  lemma ListingBack(m: seq<Animal>, f: seq<Animal>, species: string)
    ensures |f| > 0 ==> Listing(m, f, species)[HeaderCount(m) + |m|] == Header("female", HeaderTitle("Female", species))
    ensures forall i :: 0 <= i < |f| ==> Listing(m, f, species)[HeaderCount(m) + |m| + HeaderCount(f) + i] == Card(f[i])
  {
    var front := Section(m, "male", "Male", species);
    var back := Section(f, "female", "Female", species);
    SectionLayout(m, "male", "Male", species);
    SectionLayout(f, "female", "Female", species);
    if |f| > 0 {
      assert (front + back)[|front|] == back[0];
    }
    forall i | 0 <= i < |f|
      ensures Listing(m, f, species)[HeaderCount(m) + |m| + HeaderCount(f) + i] == Card(f[i])
    {
      SectionCard(f, "female", "Female", species, i);
      assert (front + back)[|front| + (HeaderCount(f) + i)] == back[HeaderCount(f) + i];
    }
  }

  lemma ListingLayout(m: seq<Animal>, f: seq<Animal>, species: string)
    ensures |Listing(m, f, species)| == |m| + |f| + HeaderCount(m) + HeaderCount(f)
    ensures |m| > 0 ==> Listing(m, f, species)[0] == Header("male", HeaderTitle("Male", species))
    ensures forall i :: 0 <= i < |m| ==> Listing(m, f, species)[HeaderCount(m) + i] == Card(m[i])
    ensures |f| > 0 ==> Listing(m, f, species)[HeaderCount(m) + |m|] == Header("female", HeaderTitle("Female", species))
    ensures forall i :: 0 <= i < |f| ==> Listing(m, f, species)[HeaderCount(m) + |m| + HeaderCount(f) + i] == Card(f[i])
  {
    ListingFront(m, f, species);
    ListingBack(m, f, species);
  }

  /** The list is the male header when there are males, the males, the
      female header when there are females, then the females. */
  lemma AllAnimalsLayout(group: Option<Group>)
    ensures var m := AnimalsOf(group, true);
      var f := AnimalsOf(group, false);
      var r := AllAnimals(group);
      var hm := HeaderCount(m);
      var species := GroupSpecies(group);
      |r| == |m| + |f| + HeaderCount(m) + HeaderCount(f) &&
      (|m| > 0 ==> r[0] == Header("male", HeaderTitle("Male", species))) &&
      (forall i :: 0 <= i < |m| ==> r[hm + i] == Card(m[i])) &&
      (|f| > 0 ==> r[hm + |m|] == Header("female", HeaderTitle("Female", species))) &&
      (forall i :: 0 <= i < |f| ==> r[hm + |m| + HeaderCount(f) + i] == Card(f[i]))
  {
    ListingLayout(AnimalsOf(group, true), AnimalsOf(group, false), GroupSpecies(group));
  }

  /** One section: its header when the list is non-empty, then its cards. */
  lemma SectionLayout(animals: seq<Animal>, id: string, sex: string, species: string)
    ensures |Section(animals, id, sex, species)| == HeaderCount(animals) + |animals|
    ensures |animals| > 0 ==> Section(animals, id, sex, species)[0] == Header(id, HeaderTitle(sex, species))
  {
  }

  /** The card of the i-th animal sits right after the section's header. */
  lemma SectionCard(animals: seq<Animal>, id: string, sex: string, species: string, i: int)
    requires 0 <= i < |animals|
    ensures Section(animals, id, sex, species)[HeaderCount(animals) + i] == Card(animals[i])
  {
    var hs := SectionHeader(animals, id, sex, species);
    assert (hs + Cards(animals))[|hs| + i] == Cards(animals)[i];
  }

  /** The animals of a list, headers dropped. */
  function CardsOf(items: seq<Item>): seq<Animal>
  {
    if |items| == 0 then []
    else CardsOf(items[..|items| - 1]) + (if items[|items| - 1].Card? then [items[|items| - 1].animal] else [])
  }

  /** The number of headers in a list. */
  function Headers(items: seq<Item>): nat
  {
    if |items| == 0 then 0
    else Headers(items[..|items| - 1]) + (if items[|items| - 1].Header? then 1 else 0)
  }

  lemma {:induction false} CardsOfAppend(a: seq<Item>, b: seq<Item>)
    ensures CardsOf(a + b) == CardsOf(a) + CardsOf(b)
    ensures Headers(a + b) == Headers(a) + Headers(b)
  {
    if |b| > 0 {
      var n := |b| - 1;
      CardsOfAppend(a, b[..n]);
      assert (a + b)[..|a| + n] == a + b[..n];
    } else {
      assert a + b == a;
    }
  }

  lemma {:induction false} CardsOfCards(animals: seq<Animal>)
    ensures CardsOf(Cards(animals)) == animals && Headers(Cards(animals)) == 0
  {
    if |animals| > 0 {
      var n := |animals| - 1;
      CardsOfCards(animals[..n]);
      assert Cards(animals)[..n] == Cards(animals[..n]);
    }
  }

  lemma ListingCards(m: seq<Animal>, f: seq<Animal>, species: string)
    ensures CardsOf(Listing(m, f, species)) == m + f
    ensures Headers(Listing(m, f, species)) == HeaderCount(m) + HeaderCount(f)
  {
    var hm := SectionHeader(m, "male", "Male", species);
    var hf := SectionHeader(f, "female", "Female", species);
    CardsOfCards(m);
    CardsOfCards(f);
    CardsOfAppend(hm, Cards(m));
    CardsOfAppend(hf, Cards(f));
    CardsOfAppend(Section(m, "male", "Male", species), Section(f, "female", "Female", species));
    assert CardsOf(hm) == [] && CardsOf(hf) == [];
  }

  /** Dropping the headers gives back exactly the males then the females,
      and there is one header per non-empty sex. */
  lemma AllAnimalsCards(group: Option<Group>)
    ensures CardsOf(AllAnimals(group)) == AnimalsOf(group, true) + AnimalsOf(group, false)
    ensures Headers(AllAnimals(group)) == HeaderCount(AnimalsOf(group, true)) + HeaderCount(AnimalsOf(group, false))
  {
    ListingCards(AnimalsOf(group, true), AnimalsOf(group, false), GroupSpecies(group));
  }

  /** The body of the screen: the message, or the list. */
  datatype Body = NoAnimals | AnimalList(items: seq<Item>)

  function ScreenBody(group: Option<Group>): (r: Body)
    ensures r.NoAnimals? <==> AnimalsOf(group, true) == [] && AnimalsOf(group, false) == []
    ensures r.AnimalList? ==> r.items == AllAnimals(group)
  {
    var all := AllAnimals(group);
    if |all| == 0 then NoAnimals else AnimalList(all)
  }

  /** The list key of an entry: the header's id or the animal's `a_id`. */
  function Key(item: Item): JsField
  {
    if item.Header? then Str(item.id) else item.animal.aId
  }

  /** Where the headers sit in the list: the male one first, the female one
      right after the male cards. */
  lemma HeaderPositions(m: seq<Animal>, f: seq<Animal>, species: string, i: int)
    requires 0 <= i < |Listing(m, f, species)| && Listing(m, f, species)[i].Header?
    ensures (i == 0 && |m| > 0 && Listing(m, f, species)[i].id == "male") ||
            (i == HeaderCount(m) + |m| && Listing(m, f, species)[i].id == "female")
  {
    ListingLayout(m, f, species);
    var hm := HeaderCount(m);
    if hm <= i < hm + |m| {
      assert false;
    } else if i > hm + |m| {
      assert false;
    }
  }

  /** The keys the list relies on: the two headers are keyed 'male' and
      'female', the male one first, and a card is keyed by its `a_id`. */
  lemma AllAnimalsKeys(group: Option<Group>)
    ensures var r := AllAnimals(group);
      (forall i :: 0 <= i < |r| && r[i].Card? ==> Key(r[i]) == r[i].animal.aId) &&
      (forall i :: 0 <= i < |r| && r[i].Header? ==> Key(r[i]) == Str("male") || Key(r[i]) == Str("female")) &&
      (forall i, j :: 0 <= i < j < |r| && r[i].Header? && r[j].Header? ==>
        Key(r[i]) == Str("male") && Key(r[j]) == Str("female"))
  {
    var r := AllAnimals(group);
    forall i | 0 <= i < |r| && r[i].Header?
      ensures Key(r[i]) == Str("male") || Key(r[i]) == Str("female")
    {
      HeaderPositions(AnimalsOf(group, true), AnimalsOf(group, false), GroupSpecies(group), i);
    }
    forall i, j | 0 <= i < j < |r| && r[i].Header? && r[j].Header?
      ensures Key(r[i]) == Str("male") && Key(r[j]) == Str("female")
    {
      HeaderPositions(AnimalsOf(group, true), AnimalsOf(group, false), GroupSpecies(group), i);
      HeaderPositions(AnimalsOf(group, true), AnimalsOf(group, false), GroupSpecies(group), j);
    }
  }

  // ---------------------------------------------------------------------------
  // Card texts.

  /** The `Type:` line: 'M' and 'F' read as the sexes, anything else as
      'Unknown'. */
  function TypeLabel(aType: JsField): (r: string)
    ensures r == "Male" <==> aType == Str("M")
    ensures r == "Female" <==> aType == Str("F")
    ensures r == "Unknown" <==> aType != Str("M") && aType != Str("F")
  {
    if aType == Str("M") then "Male" else if aType == Str("F") then "Female" else "Unknown"
  }

  /** `field || 'N/A'`. */
  function OrNotAvailable(f: JsField): (r: string)
    ensures r == "N/A" <==> !f.Str? || f.s == "" || f.s == "N/A"
  {
    if f.Str? && f.s != "" then f.s else "N/A"
  }

  /** The `Date:` line: 'N/A' for a missing or empty date; otherwise the
      locale formatting, which is library behaviour and so a parameter. */
  function DateLine(sourceDate: JsField, format: string -> string): (r: string)
    ensures !(sourceDate.Str? && sourceDate.s != "") ==> r == "N/A"
    ensures sourceDate.Str? && sourceDate.s != "" ==> r == format(sourceDate.s)
  {
    if sourceDate.Str? && sourceDate.s != "" then format(sourceDate.s) else "N/A"
  }
}
