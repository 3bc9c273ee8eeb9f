/** What the two capture screens share (src/screens/CaptureData.js and
    src/components/CaptureSubtypeDataModal.js): the captured-data records
    they read, the completion status they show, the `find` they look
    records up with, the per-sub-type maps their reduces build, the payload
    they post and the clock label they stamp it with. */
module CaptureRecords {
  import opened Common

  /** A captured value as `getCapturedData` returns it. */
  datatype CapturedRecord = CapturedRecord(
    ratNo: string, testTypeId: int, testSubType: Option<string>, tValue: JsField, remarks: Option<string>)

  /** An entry of a test's `test_sub_type_list`. */
  datatype SubType = SubType(id: int, name: string)

  /** The body of a `postGLPTestData` call. */
  datatype Payload = Payload(
    testTypeId: int, callMode: string, groupId: int, testName: string, ratNo: string,
    testTime: string, testDate: string, testValue: string, remarks: string)

  /** The status object `getCompletionStatus` gives for a group, test and date. */
  datatype Completion = Completion(status: string, completedCount: int, totalCount: int)

  /** `allData.filter(item => item.rat_no === ratId)`. */
  function RatData(data: seq<CapturedRecord>, rat: string): (r: seq<CapturedRecord>)
    ensures |r| <= |data|
    ensures forall x :: x in r <==> x in data && x.ratNo == rat
  {
    if |data| == 0 then []
    else
      assert forall x :: x in data <==> x == data[0] || x in data[1..];
      (if data[0].ratNo == rat then [data[0]] else []) + RatData(data[1..], rat)
  }

  /** What a `find` looks for: a record of a test, or of one of its sub-types. */
  datatype Query = ForTest(testId: int) | ForSubType(subType: SubType)

  predicate Matches(x: CapturedRecord, q: Query)
  {
    match q
    case ForTest(id) => x.testTypeId == id
    case ForSubType(st) => x.testTypeId == st.id && x.testSubType == Some(st.name)
  }

  /** The position `find` stops at: the first matching record, if any. */
  function FindIndex(data: seq<CapturedRecord>, q: Query): (r: Option<nat>)
    ensures r.None? <==> forall i :: 0 <= i < |data| ==> !Matches(data[i], q)
    ensures r.Some? ==> r.value < |data| && Matches(data[r.value], q)
    ensures r.Some? ==> forall j :: 0 <= j < r.value ==> !Matches(data[j], q)
  {
    if |data| == 0 then None
    else if Matches(data[0], q) then Some(0)
    else
      var rest := FindIndex(data[1..], q);
      assert forall i :: 1 <= i < |data| ==> data[i] == data[1..][i - 1];
      if rest.None? then None else Some(rest.value + 1)
  }

  /** `data.find(...)`. */
  function Find(data: seq<CapturedRecord>, q: Query): Option<CapturedRecord>
  {
    var i := FindIndex(data, q);
    if i.None? then None else Some(data[i.value])
  }

  /** `record?.t_value || ''`. */
  function ValueOf(record: Option<CapturedRecord>): string
  {
    if record.None? then "" else FieldOrEmpty(record.value.tValue)
  }

  // ---------------------------------------------------------------------------
  // Maps keyed by sub-type name, as `subTypes.reduce((acc, st) => { acc[st.test_sub_type] = ...; return acc }, {})` builds them.

  /** The names of a sequence of sub-types. */
  function Names(subTypes: seq<SubType>): (r: set<string>)
    ensures |r| <= |subTypes|
  {
    if |subTypes| == 0 then {}
    else Names(subTypes[..|subTypes| - 1]) + {subTypes[|subTypes| - 1].name}
  }

  /** A name is among the names exactly when some sub-type carries it. */
  lemma {:induction false} NamesSpec(subTypes: seq<SubType>)
    ensures forall k :: k in Names(subTypes) <==> exists i :: 0 <= i < |subTypes| && subTypes[i].name == k
    decreases |subTypes|
  {
    if |subTypes| > 0 {
      var n := |subTypes| - 1;
      NamesSpec(subTypes[..n]);
      assert forall i :: 0 <= i < n ==> subTypes[..n][i] == subTypes[i];
    }
  }

  /** Every sub-type's name is among the names. */
  lemma {:induction false} NameInNames(subTypes: seq<SubType>, i: nat)
    requires i < |subTypes|
    ensures subTypes[i].name in Names(subTypes)
    decreases |subTypes|
  {
    var n := |subTypes| - 1;
    if i < n {
      NameInNames(subTypes[..n], i);
    }
  }

  /** The reduce: every sub-type writes its own name, a later one overwriting an earlier one. */
  function ByName<V>(subTypes: seq<SubType>, f: SubType -> V): map<string, V>
  {
    if |subTypes| == 0 then map[]
    else
      var n := |subTypes| - 1;
      ByName(subTypes[..n], f)[subTypes[n].name := f(subTypes[n])]
  }

  /** The map has a key for every sub-type name and no other. */
  lemma {:induction false} ByNameKeys<V>(subTypes: seq<SubType>, f: SubType -> V)
    ensures ByName(subTypes, f).Keys == Names(subTypes)
    decreases |subTypes|
  {
    if |subTypes| > 0 {
      ByNameKeys(subTypes[..|subTypes| - 1], f);
    }
  }

  /** A name holds the value of the last sub-type that carries it. */
  lemma {:induction false} ByNameLastWins<V>(subTypes: seq<SubType>, f: SubType -> V, i: nat)
    requires i < |subTypes|
    requires forall j :: i < j < |subTypes| ==> subTypes[j].name != subTypes[i].name
    ensures subTypes[i].name in ByName(subTypes, f)
    ensures ByName(subTypes, f)[subTypes[i].name] == f(subTypes[i])
    decreases |subTypes|
  {
    var n := |subTypes| - 1;
    var prefix := subTypes[..n];
    assert ByName(subTypes, f) == ByName(prefix, f)[subTypes[n].name := f(subTypes[n])];
    if i < n {
      assert prefix[i] == subTypes[i];
      assert subTypes[n].name != subTypes[i].name;
      assert forall j :: i < j < |prefix| ==> prefix[j] == subTypes[j];
      ByNameLastWins(prefix, f, i);
    }
  }

  /** A subset is no larger than its superset. */
  lemma {:induction false} SubsetCard<T>(a: set<T>, b: set<T>)
    requires a <= b
    ensures |a| <= |b|
    decreases |b|
  {
    if a != {} {
      var x :| x in a;
      SubsetCard(a - {x}, b - {x});
    }
  }

  // ---------------------------------------------------------------------------
  // The clock label both submit handlers stamp on a payload.

  /** `${String(hours % 12 || 12).padStart(2, '0')}:${minutes} ${hours >= 12 ? 'PM' : 'AM'}`,
      with `minutes` padded to two digits. */
  function TimeLabel(hours: nat, minutes: nat): (r: string)
    requires hours < 24 && minutes < 60
    ensures |r| == 8 && r[2] == ':' && r[5] == ' ' && r[7] == 'M'
    ensures r[6] == (if hours < 12 then 'A' else 'P')
  {
    var h12 := if hours % 12 == 0 then 12 else hours % 12;
    Pad2(h12) + ":" + Pad2(minutes) + " " + (if hours >= 12 then "PM" else "AM")
  }

  /** Reads an 'hh:mm AM' / 'hh:mm PM' label back as a 24-hour time. */
  function ClockOf(text: string): Option<(nat, nat)>
  {
    if |text| != 8 || text[2] != ':' || text[5] != ' ' || text[7] != 'M'
      || (text[6] != 'A' && text[6] != 'P')
      || !IsDigit(text[0]) || !IsDigit(text[1]) || !IsDigit(text[3]) || !IsDigit(text[4])
    then None
    else
      var h12 := DigitValue(text[0]) * 10 + DigitValue(text[1]);
      var m := DigitValue(text[3]) * 10 + DigitValue(text[4]);
      if h12 < 1 || 12 < h12 || 60 <= m then None
      else Some((h12 % 12 + (if text[6] == 'P' then 12 else 0), m))
  }

  /** The label names the time it was made from: hour 0 prints as 12 AM,
      hour 12 as 12 PM, and the AM/PM half follows `hours < 12`. */
  lemma TimeLabelRoundTrip(hours: nat, minutes: nat)
    requires hours < 24 && minutes < 60
    ensures ClockOf(TimeLabel(hours, minutes)) == Some((hours, minutes))
  {
    var h12 := if hours % 12 == 0 then 12 else hours % 12;
    var r := TimeLabel(hours, minutes);
    var hp, mp := Pad2(h12), Pad2(minutes);
    assert r[0] == hp[0] && r[1] == hp[1] && r[3] == mp[0] && r[4] == mp[1];
  }
}
