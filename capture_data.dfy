/** The data-capture screen (src/screens/CaptureData.js): for one test, group
    and schedule date it loads every rat's captured value and remark, keeps
    the edits the value modals save, and submits the rats that differ from
    the loaded snapshot. */
module CaptureData {
  import opened Common
  import opened CaptureRecords

  /** The test being captured: `test.id`, `test.name`,
      `test.is_sub_type_applicable` and `test.test_sub_type_list || []`. */
  datatype CaptureTest = CaptureTest(id: int, name: string, useModal: bool, subTypes: seq<SubType>)

  /** A rat's entry in `dataEntries`: the text of a plain test, or the value
      of every sub-type of a sub-typed test. */
  datatype Entry = Text(s: string) | Values(m: map<string, string>)

  /** What the load writes for one rat into `dataEntries`, `remarks` and `existingData`. */
  datatype RatLoad = RatLoad(entry: Entry, remark: string, existing: bool)

  const NoRemarks: string := "No Remarks"

  function Lookup<V>(m: map<string, V>, k: string): Option<V>
  {
    if k in m then Some(m[k]) else None
  }

  /** The id list passed to `getCapturedData`: the sub-type ids, or the test id. */
  function RequestedIds(test: CaptureTest): (r: seq<int>)
    ensures test.useModal ==> |r| == |test.subTypes| && forall i :: 0 <= i < |r| ==> r[i] == test.subTypes[i].id
    ensures !test.useModal ==> r == [test.id]
  {
    if test.useModal then seq(|test.subTypes|, i requires 0 <= i < |test.subTypes| => test.subTypes[i].id)
    else [test.id]
  }

  // ---------------------------------------------------------------------------
  // Loading.

  /** A sub-type's value for a rat: its record's `t_value`, or ''. */
  function SubTypeValue(ratData: seq<CapturedRecord>, st: SubType): string
  {
    ValueOf(Find(ratData, ForSubType(st)))
  }

  /** `subTypeData`: one value per sub-type name. */
  function SubTypeValues(subTypes: seq<SubType>, ratData: seq<CapturedRecord>): map<string, string>
  {
    ByName(subTypes, st => SubTypeValue(ratData, st))
  }

  /** `Object.values(m).some(v => v !== '' && v !== null)`. */
  predicate AnyFilled(m: map<string, string>)
  {
    exists k :: k in m && m[k] != ""
  }

  /** `ratRecord && ratRecord.t_value !== '' && ratRecord.t_value !== null`:
      a missing `t_value` passes both comparisons. */
  predicate HasExistingValue(record: Option<CapturedRecord>)
  {
    record.Some? && record.value.tValue != Str("") && record.value.tValue != Null
  }

  /** The body of the load's `forEach` for one rat. A sub-typed test takes
      its remark from the rat's first record of any sub-type, a plain test
      from the rat's record of the test. */
  function LoadRat(data: seq<CapturedRecord>, test: CaptureTest, rat: string): RatLoad
  {
    var ratData := RatData(data, rat);
    if test.useModal then
      var values := SubTypeValues(test.subTypes, ratData);
      var first := if |ratData| > 0 then ratData[0].remarks else None;
      RatLoad(Values(values), OrDefault(first, NoRemarks), AnyFilled(values))
    else
      var record := Find(ratData, ForTest(test.id));
      RatLoad(Text(ValueOf(record)), OrDefault(if record.Some? then record.value.remarks else None, NoRemarks),
              HasExistingValue(record))
  }

  /** A plain test: the entry is the rat's record value or '', the flag says
      a record exists whose value is neither '' nor null, and the remark is
      the record's or 'No Remarks'. */
  lemma LoadRatPlain(data: seq<CapturedRecord>, test: CaptureTest, rat: string)
    requires !test.useModal
    ensures var r := LoadRat(data, test, rat);
      var i := FindIndex(RatData(data, rat), ForTest(test.id));
      r.remark != "" &&
      (i.None? ==> r == RatLoad(Text(""), NoRemarks, false)) &&
      (i.Some? ==> var rec := RatData(data, rat)[i.value];
        rec.ratNo == rat && rec.testTypeId == test.id && rec in data &&
        r.entry == Text(FieldOrEmpty(rec.tValue)) &&
        (r.existing <==> rec.tValue != Str("") && rec.tValue != Null))
  {
    var i := FindIndex(RatData(data, rat), ForTest(test.id));
    if i.Some? {
      assert RatData(data, rat)[i.value] in RatData(data, rat);
    }
  }

  /** The loader's one quirk: a record without `t_value` shows an empty
      entry yet marks the rat as having data. */
  lemma MissingValueCountsAsExisting(test: CaptureTest, rec: CapturedRecord)
    requires !test.useModal && rec.testTypeId == test.id && rec.tValue == Missing
    ensures LoadRat([rec], test, rec.ratNo).entry == Text("")
    ensures LoadRat([rec], test, rec.ratNo).existing
  {
    assert RatData([rec], rec.ratNo) == [rec];
  }

  /** A sub-typed test: the rat's map has a key for every sub-type name; a
      name that no later sub-type repeats holds that sub-type's value; and
      the flag says some value is filled. */
  lemma LoadRatSubTyped(data: seq<CapturedRecord>, test: CaptureTest, rat: string)
    requires test.useModal
    ensures var r := LoadRat(data, test, rat);
      r.entry.Values? && r.entry.m.Keys == Names(test.subTypes) && r.remark != "" &&
      (r.existing <==> AnyFilled(r.entry.m))
    ensures forall i :: (0 <= i < |test.subTypes| &&
      (forall j :: i < j < |test.subTypes| ==> test.subTypes[j].name != test.subTypes[i].name)) ==>
      test.subTypes[i].name in LoadRat(data, test, rat).entry.m &&
      LoadRat(data, test, rat).entry.m[test.subTypes[i].name] == SubTypeValue(RatData(data, rat), test.subTypes[i])
  {
    var ratData := RatData(data, rat);
    var f := st => SubTypeValue(ratData, st);
    ByNameKeys(test.subTypes, f);
    forall i | 0 <= i < |test.subTypes| &&
      (forall j :: i < j < |test.subTypes| ==> test.subTypes[j].name != test.subTypes[i].name)
      ensures test.subTypes[i].name in LoadRat(data, test, rat).entry.m
      ensures LoadRat(data, test, rat).entry.m[test.subTypes[i].name] == SubTypeValue(ratData, test.subTypes[i])
    {
      ByNameLastWins(test.subTypes, f, i);
    }
  }

  /** Every rat of the group, and no other key, has the entry, remark and
      flag LoadRat gives it. */
  ghost predicate LoadedFrom(rats: seq<string>, data: seq<CapturedRecord>, test: CaptureTest,
                       entries: map<string, Entry>, remarks: map<string, string>, existing: map<string, bool>)
  {
    (forall r :: r in entries <==> r in rats) &&
    (forall r :: r in remarks <==> r in rats) &&
    (forall r :: r in existing <==> r in rats) &&
    (forall r :: r in rats ==>
      var l := LoadRat(data, test, r);
      entries[r] == l.entry && remarks[r] == l.remark && existing[r] == l.existing)
  }

  /** The load's `forEach`: every rat of the group gets its entry, remark and flag. */
  method LoadEntries(rats: seq<string>, data: seq<CapturedRecord>, test: CaptureTest)
    returns (entries: map<string, Entry>, remarks: map<string, string>, existing: map<string, bool>)
    ensures LoadedFrom(rats, data, test, entries, remarks, existing)
  {
    entries, remarks, existing := map[], map[], map[];
    var i := 0;
    while i < |rats|
      invariant 0 <= i <= |rats|
      invariant LoadedFrom(rats[..i], data, test, entries, remarks, existing)
    {
      var rat := rats[i];
      var l := LoadRat(data, test, rat);
      entries := entries[rat := l.entry];
      remarks := remarks[rat := l.remark];
      existing := existing[rat := l.existing];
      assert rats[..i + 1] == rats[..i] + [rat];
      i := i + 1;
    }
    assert rats[..i] == rats;
  }

  // ---------------------------------------------------------------------------
  // Changes against the snapshot.

  /** The screen's `dataEntries` and `remarks`, keyed by rat; the snapshot
      `initialData` holds a copy of both. */
  datatype Sheet = Sheet(entries: map<string, Entry>, remarks: map<string, string>)

  /** checkForChanges: some rat of the new entries differs from the snapshot
      in its entry or its remark (a rat the snapshot lacks differs). Plain
      entries compare as strings, sub-typed ones through their JSON text,
      which for the maps the reduce builds is equality of the maps. */
  predicate HasChanges(current: Sheet, initial: Sheet)
  {
    exists rat :: rat in current.entries &&
      (Lookup(current.entries, rat) != Lookup(initial.entries, rat)
       || Lookup(current.remarks, rat) != Lookup(initial.remarks, rat))
  }

  /** Entries that equal their snapshot have no changes. */
  lemma SnapshotHasNoChanges(current: Sheet)
    ensures !HasChanges(current, current)
  {
  }

  /** `remarks[ratId] !== 'No Remarks' ? remarks[ratId] : ''`. */
  function SubmittedRemark(r: Option<string>): (s: Option<string>)
    ensures s != Some(NoRemarks)
    ensures r.Some? && r.value != NoRemarks ==> s == r
  {
    if r == Some(NoRemarks) then Some("") else r
  }

  /** hasChanged in the submit loop, for a plain test. */
  predicate RatChanged(rat: string, current: Sheet, initial: Sheet)
  {
    Lookup(current.entries, rat) != Lookup(initial.entries, rat)
    || SubmittedRemark(Lookup(current.remarks, rat)) != SubmittedRemark(Lookup(initial.remarks, rat))
  }

  /** The rats among the first `n` of the roster that the submit loop posts for, in roster order. */
  function ChangedAmong(rats: seq<string>, n: nat, current: Sheet, initial: Sheet): (r: seq<string>)
    requires n <= |rats|
    ensures |r| <= n
  {
    if n == 0 then []
    else ChangedAmong(rats, n - 1, current, initial) + (if RatChanged(rats[n - 1], current, initial) then [rats[n - 1]] else [])
  }

  /** The rats the submit loop posts for, in roster order. */
  function ChangedRats(rats: seq<string>, current: Sheet, initial: Sheet): (r: seq<string>)
    ensures |r| <= |rats|
  {
    ChangedAmong(rats, |rats|, current, initial)
  }

  /** Exactly the rats that differ from the snapshot are posted for. */
  lemma {:induction false} ChangedAmongSpec(rats: seq<string>, n: nat, current: Sheet, initial: Sheet)
    requires n <= |rats|
    ensures forall x :: x in ChangedAmong(rats, n, current, initial) <==> x in rats[..n] && RatChanged(x, current, initial)
  {
    if n > 0 {
      ChangedAmongSpec(rats, n - 1, current, initial);
      assert rats[..n] == rats[..n - 1] + [rats[n - 1]];
    }
  }

  lemma ChangedRatsSpec(rats: seq<string>, current: Sheet, initial: Sheet)
    ensures forall x :: x in ChangedRats(rats, current, initial) <==> x in rats && RatChanged(x, current, initial)
  {
    ChangedAmongSpec(rats, |rats|, current, initial);
    assert rats[..|rats|] == rats;
  }

  /** The changed rats of a prefix of the roster are a prefix of the changed rats. */
  lemma {:induction false} ChangedAmongPrefix(rats: seq<string>, i: nat, n: nat, current: Sheet, initial: Sheet)
    requires i <= n <= |rats|
    ensures var p := ChangedAmong(rats, i, current, initial);
      var all := ChangedAmong(rats, n, current, initial);
      |p| <= |all| && p == all[..|p|]
    decreases n
  {
    if i < n {
      ChangedAmongPrefix(rats, i, n - 1, current, initial);
    }
  }

  /** No rat among the first `n` changed: nothing to post for them. */
  lemma {:induction false} NoneChanged(rats: seq<string>, n: nat, current: Sheet, initial: Sheet)
    requires n <= |rats|
    requires forall k :: 0 <= k < n ==> !RatChanged(rats[k], current, initial)
    ensures ChangedAmong(rats, n, current, initial) == []
  {
    if n > 0 {
      NoneChanged(rats, n - 1, current, initial);
    }
  }

  /** When checkForChanges finds nothing, the submit loop posts nothing, as
      long as every rat of the roster has an entry (as the load gives it). */
  lemma NoChangesNothingSubmitted(rats: seq<string>, current: Sheet, initial: Sheet)
    requires forall r :: r in rats ==> r in current.entries
    requires !HasChanges(current, initial)
    ensures ChangedRats(rats, current, initial) == []
  {
    NoneChanged(rats, |rats|, current, initial);
  }

  /** Right after a successful submit the snapshot is the sheet itself, so
      a second submit finds nothing to post. */
  lemma ResubmitPostsNothing(rats: seq<string>, current: Sheet)
    ensures ChangedRats(rats, current, current) == []
  {
    NoneChanged(rats, |rats|, current, current);
  }

  /** `String(data)` of a plain entry. */
  function EntryString(e: Option<Entry>): string
  {
    match e
    case None => "undefined"
    case Some(Text(s)) => s
    case Some(Values(_)) => "[object Object]"
  }

  /** What every payload of one submit shares: the test, the selected group,
      the clock text and the printed schedule date. */
  datatype Batch = Batch(test: CaptureTest, groupId: int, time: string, date: string)

  /** The payload posted for a changed rat of a plain test. */
  function PayloadFor(rat: string, batch: Batch, current: Sheet): Payload
  {
    Payload(batch.test.id, "ADD_TEST", batch.groupId, batch.test.name, rat, batch.time, batch.date,
            EntryString(Lookup(current.entries, rat)),
            OrDefault(SubmittedRemark(Lookup(current.remarks, rat)), "Data captured via mobile app"))
  }

  /** The payloads for a sequence of rats, in order. */
  function Payloads(rats: seq<string>, batch: Batch, current: Sheet): seq<Payload>
  {
    if |rats| == 0 then []
    else
      var n := |rats| - 1;
      Payloads(rats[..n], batch, current) + [PayloadFor(rats[n], batch, current)]
  }

  /** One payload per rat, naming that rat, as a first post ('ADD_TEST') of
      the test, with the rat's entry as text and a non-empty remark. */
  lemma {:induction false} PayloadsSpec(rats: seq<string>, batch: Batch, current: Sheet)
    ensures var r := Payloads(rats, batch, current);
      |r| == |rats| &&
      forall i :: 0 <= i < |rats| ==>
        r[i] == PayloadFor(rats[i], batch, current) &&
        r[i].ratNo == rats[i] && r[i].callMode == "ADD_TEST" && r[i].testTypeId == batch.test.id &&
        r[i].groupId == batch.groupId && r[i].testTime == batch.time && r[i].testDate == batch.date &&
        r[i].testValue == EntryString(Lookup(current.entries, rats[i])) && r[i].remarks != ""
    decreases |rats|
  {
    if |rats| > 0 {
      var n := |rats| - 1;
      PayloadsSpec(rats[..n], batch, current);
    }
  }

  lemma PayloadsSnoc(rats: seq<string>, rat: string, batch: Batch, current: Sheet)
    ensures Payloads(rats + [rat], batch, current) == Payloads(rats, batch, current) + [PayloadFor(rat, batch, current)]
  {
    assert (rats + [rat])[..|rats|] == rats;
  }

  /** `setExistingData(prev => ({ ...prev, [ratId]: true }))` for each posted rat. */
  function MarkExisting(existing: map<string, bool>, rats: seq<string>): map<string, bool>
  {
    if |rats| == 0 then existing
    else MarkExisting(existing, rats[..|rats| - 1])[rats[|rats| - 1] := true]
  }

  /** The posted rats become flagged; every other flag stays as it was. */
  lemma {:induction false} MarkExistingSpec(existing: map<string, bool>, rats: seq<string>)
    ensures var m := MarkExisting(existing, rats);
      (forall r :: r in m <==> r in existing || r in rats) &&
      (forall r :: r in rats ==> m[r]) &&
      (forall r :: r in existing && r !in rats ==> m[r] == existing[r])
    decreases |rats|
  {
    if |rats| > 0 {
      var n := |rats| - 1;
      MarkExistingSpec(existing, rats[..n]);
      assert forall x :: x in rats <==> x in rats[..n] || x == rats[n];
    }
  }

  lemma MarkExistingSnoc(existing: map<string, bool>, rats: seq<string>, rat: string)
    ensures MarkExisting(existing, rats + [rat]) == MarkExisting(existing, rats)[rat := true]
  {
    assert (rats + [rat])[..|rats|] == rats;
  }

  /** The number of posts that go through: all of them, or those before the one that rejects. */
  function PostedCount(changed: nat, failsAt: Option<nat>): (k: nat)
    ensures k <= changed
    ensures k < changed <==> failsAt.Some? && failsAt.value < changed
  {
    if failsAt.Some? && failsAt.value < changed then failsAt.value else changed
  }

  /** The rats a submit posts for before the post numbered `failsAt` rejects. */
  function PostedRats(rats: seq<string>, current: Sheet, initial: Sheet, failsAt: Option<nat>): (r: seq<string>)
    ensures var changed := ChangedRats(rats, current, initial);
      |r| == PostedCount(|changed|, failsAt) && r == changed[..|r|]
  {
    var changed := ChangedRats(rats, current, initial);
    changed[..PostedCount(|changed|, failsAt)]
  }

  /** When no post rejects, every changed rat is posted for. */
  lemma PostedWithoutFailure(rats: seq<string>, current: Sheet, initial: Sheet, failsAt: Option<nat>)
    requires failsAt.None? || |ChangedRats(rats, current, initial)| <= failsAt.value
    ensures PostedRats(rats, current, initial, failsAt) == ChangedRats(rats, current, initial)
  {
  }

  /** A rejected post at a changed rat leaves exactly the changed rats before it posted. */
  lemma PostedAtFailure(rats: seq<string>, i: nat, current: Sheet, initial: Sheet, failsAt: Option<nat>)
    requires i < |rats| && RatChanged(rats[i], current, initial)
    requires failsAt == Some(|ChangedAmong(rats, i, current, initial)|)
    ensures PostedRats(rats, current, initial, failsAt) == ChangedAmong(rats, i, current, initial)
    ensures |ChangedAmong(rats, i, current, initial)| < |ChangedRats(rats, current, initial)|
  {
    ChangedAmongPrefix(rats, i + 1, |rats|, current, initial);
  }

  /** What the submit loop has done after posting for `done`: the number of
      posts, the flags with those rats set, and every payload posted so far. */
  datatype Tally = Tally(count: nat, existing: map<string, bool>, posted: seq<Payload>)

  function TallyOf(done: seq<string>, batch: Batch, current: Sheet, existing0: map<string, bool>,
                   posted0: seq<Payload>): Tally
  {
    Tally(|done|, MarkExisting(existing0, done), posted0 + Payloads(done, batch, current))
  }

  lemma TallySnoc(done: seq<string>, rat: string, batch: Batch, current: Sheet, existing0: map<string, bool>,
                  posted0: seq<Payload>)
    ensures var t := TallyOf(done, batch, current, existing0, posted0);
      TallyOf(done + [rat], batch, current, existing0, posted0)
      == Tally(t.count + 1, t.existing[rat := true], t.posted + [PayloadFor(rat, batch, current)])
  {
    PayloadsSnoc(done, rat, batch, current);
    MarkExistingSnoc(existing0, done, rat);
  }

  /** The submit loop: for every rat of the roster that differs from the
      snapshot, post its payload, flag the rat and count it. The post
      numbered `failsAt` (from 0) rejects, which leaves the loop with the
      earlier posts done. */
  method PostChanged(rats: seq<string>, current: Sheet, initial: Sheet, batch: Batch, failsAt: Option<nat>,
                     existing0: map<string, bool>, posted0: seq<Payload>)
    returns (count: nat, failed: bool, existing: map<string, bool>, posted: seq<Payload>)
    ensures Tally(count, existing, posted)
      == TallyOf(PostedRats(rats, current, initial, failsAt), batch, current, existing0, posted0)
    ensures failed <==> count < |ChangedRats(rats, current, initial)|
  {
    var t := Tally(0, existing0, posted0);
    failed := false;
    var i := 0;
    while i < |rats|
      invariant 0 <= i <= |rats|
      invariant t == TallyOf(ChangedAmong(rats, i, current, initial), batch, current, existing0, posted0)
      invariant failsAt.None? || t.count <= failsAt.value
    {
      var rat := rats[i];
      if RatChanged(rat, current, initial) {
        if failsAt == Some(t.count) {
          PostedAtFailure(rats, i, current, initial, failsAt);
          failed := true;
          break;
        }
        TallySnoc(ChangedAmong(rats, i, current, initial), rat, batch, current, existing0, posted0);
        t := Tally(t.count + 1, t.existing[rat := true], t.posted + [PayloadFor(rat, batch, current)]);
        assert ChangedAmong(rats, i + 1, current, initial) == ChangedAmong(rats, i, current, initial) + [rat];
      } else {
        assert ChangedAmong(rats, i + 1, current, initial) == ChangedAmong(rats, i, current, initial);
      }
      i := i + 1;
    }
    if !failed {
      PostedWithoutFailure(rats, current, initial, failsAt);
    }
    count, existing, posted := t.count, t.existing, t.posted;
  }

  // ---------------------------------------------------------------------------
  // Saving one rat's value and the sub-type progress line.

  /** The value a modal hands to handleDataSave. */
  datatype SavedValue = UndefinedValue | NullValue | TextValue(s: string) | ObjectValue(json: string)

  /** `typeof value === 'object' ? JSON.stringify(value) : String(value)`;
      an object value is given by its JSON text. */
  function FormatSaved(v: SavedValue): string
  {
    match v
    case UndefinedValue => "undefined"
    case NullValue => "null"
    case TextValue(s) => s
    case ObjectValue(json) => json
  }

  /** The keys of a sub-type map whose value is filled. */
  function FilledKeys(m: map<string, string>): set<string>
  {
    set k | k in m && m[k] != ""
  }

  /** `Object.values(dataEntries[ratId] || {}).filter(v => v !== '' && v !== null).length`.
      The values of a string are its characters, none of them '', so a text
      entry counts its length. */
  function EntryFilled(e: Option<Entry>): nat
  {
    match e
    case None => 0
    case Some(Text(s)) => |s|
    case Some(Values(m)) => |FilledKeys(m)|
  }

  /** getSubTypeProgress: null for a plain test, else 'k/n completed'. */
  function SubTypeProgress(test: CaptureTest, entries: map<string, Entry>, rat: string): (r: Option<string>)
    ensures r.None? <==> !test.useModal
  {
    if !test.useModal then None
    else Some(NatToDecimal(EntryFilled(Lookup(entries, rat))) + "/" + NatToDecimal(|test.subTypes|) + " completed")
  }

  /** A map keyed by sub-type names has at most as many filled values as there are sub-types. */
  lemma FilledAtMostSubTypes(m: map<string, string>, subTypes: seq<SubType>)
    requires m.Keys <= Names(subTypes)
    ensures |FilledKeys(m)| <= |subTypes|
  {
    SubsetCard(FilledKeys(m), Names(subTypes));
  }

  /** Right after the load, a sub-typed rat's progress counts filled sub-types: k <= n. */
  lemma LoadedProgressBounded(data: seq<CapturedRecord>, test: CaptureTest, rat: string)
    requires test.useModal
    ensures EntryFilled(Some(LoadRat(data, test, rat).entry)) <= |test.subTypes|
  {
    LoadRatSubTyped(data, test, rat);
    FilledAtMostSubTypes(LoadRat(data, test, rat).entry.m, test.subTypes);
  }

  /** As written, the sub-type modal calls `onSuccess()` without an argument,
      so handleDataSave stores the text 'undefined' and the progress line
      counts its nine characters whatever the number of sub-types. */
  lemma ProgressAfterSubTypeSaveAsWritten(test: CaptureTest, entries: map<string, Entry>, rat: string)
    requires test.useModal
    ensures SubTypeProgress(test, entries[rat := Text(FormatSaved(UndefinedValue))], rat)
      == Some("9/" + NatToDecimal(|test.subTypes|) + " completed")
    ensures |test.subTypes| < 9 ==> EntryFilled(Some(Text(FormatSaved(UndefinedValue)))) > |test.subTypes|
  {
    assert Lookup(entries[rat := Text(FormatSaved(UndefinedValue))], rat) == Some(Text("undefined"));
    assert EntryFilled(Some(Text("undefined"))) == |"undefined"| == 9;
    assert NatToDecimal(9) == [DigitChar(9)] == "9";
    assert NatToDecimal(9) + "/" == "9/";
  }

  /** With the values handed back as a map, the progress never exceeds the sub-type count. */
  lemma ProgressAfterSubTypeSaveBounded(test: CaptureTest, entries: map<string, Entry>, rat: string,
                                        values: map<string, string>)
    requires test.useModal && values.Keys <= Names(test.subTypes)
    ensures EntryFilled(Lookup(entries[rat := Values(values)], rat)) <= |test.subTypes|
  {
    assert Lookup(entries[rat := Values(values)], rat) == Some(Values(values));
    FilledAtMostSubTypes(values, test.subTypes);
  }

  /** Which value modal is open. */
  datatype OpenModal = NoModal | TestDataModal | SubTypeModal

  /** The three messages the screen shows instead of the roster, if any:
      no group or no rats, then an invalid schedule date. */
  function Notice(groupFound: bool, ratCount: nat, isValidScheduleDate: bool): (r: Option<string>)
    ensures r.None? <==> groupFound && ratCount > 0 && isValidScheduleDate
  {
    if !groupFound || ratCount == 0 then Some("No rats assigned to this group.")
    else if !isValidScheduleDate then Some("Invalid schedule date for this test frequency.")
    else None
  }
  /** One row of the roster as the screen draws it: the value box (a plain
      test with data only), the button's text and whether it is disabled,
      the sub-type progress line and the remark line. */
  datatype RatRow = RatRow(value: Option<string>, button: string, disabled: bool,
                           progress: Option<string>, remark: Option<string>)

  /** `existingData[ratId]`, where a rat without a flag counts as without data. */
  predicate HasData(existing: map<string, bool>, rat: string)
  {
    rat in existing && existing[rat]
  }

  /** The row of `rat`: the button reads View / Capture Data for a sub-typed
      test and Edit / Add for a plain one, and is disabled once the rat has
      data; a remark other than 'No Remarks' and '' is shown. */
  function Row(test: CaptureTest, current: Sheet, existing: map<string, bool>, rat: string): (r: RatRow)
    ensures r.disabled <==> HasData(existing, rat)
    ensures r.value.Some? <==> !test.useModal && HasData(existing, rat)
    ensures r.value.Some? ==> r.value.value == EntryString(Lookup(current.entries, rat))
    ensures r.button in (if test.useModal then ["View", "Capture Data"] else ["Edit", "Add"])
    ensures r.progress.Some? <==> test.useModal
    ensures r.remark.Some? <==> Truthy(Lookup(current.remarks, rat)) && current.remarks[rat] != NoRemarks
    ensures r.remark.Some? ==> r.remark.value == current.remarks[rat]
  {
    var hasData := HasData(existing, rat);
    var remark := Lookup(current.remarks, rat);
    RatRow(if !test.useModal && hasData then Some(EntryString(Lookup(current.entries, rat))) else None,
           if test.useModal then (if hasData then "View" else "Capture Data") else (if hasData then "Edit" else "Add"),
           hasData,
           SubTypeProgress(test, current.entries, rat),
           if remark != Some(NoRemarks) && Truthy(remark) then remark else None)
  }

  /** After a submit, the row of every rat that was posted for is locked. */
  lemma PostedRowsLocked(rats: seq<string>, current: Sheet, initial: Sheet, failsAt: Option<nat>,
                         test: CaptureTest, existing: map<string, bool>)
    ensures var done := PostedRats(rats, current, initial, failsAt);
      forall rat :: rat in done ==> Row(test, current, MarkExisting(existing, done), rat).disabled
  {
    MarkExistingSpec(existing, PostedRats(rats, current, initial, failsAt));
  }
}

/** The capture screen's state and its handlers (src/screens/CaptureData.js). */
module CaptureDataScreen {
  import opened Common
  import opened CaptureRecords
  import opened CaptureData

  class CaptureScreen {
    /** The route's test and selected group, and the group's rats (male then female). */
    const test: CaptureTest
    const groupId: int
    const groupFound: bool
    const rats: seq<string>

    /** `dataEntries` and `remarks`. */
    var sheet: Sheet
    /** `existingData`: the rats shown as having data. */
    var existing: map<string, bool>
    /** The snapshot `initialData` the change check compares against. */
    var initialData: Sheet
    var hasChanges: bool
    var isValidScheduleDate: bool
    var loading: bool
    var completion: Completion
    /** The force-refresh flag of every `getCompletionStatus` call made. */
    var completionRequests: seq<bool>
    /** Every payload posted, in order. */
    var posted: seq<Payload>
    var message: string
    var showSuccess: bool
    var showError: bool
    var selectedRat: Option<string>
    var openModal: OpenModal

    constructor (test: CaptureTest, groupId: int, groupFound: bool, rats: seq<string>)
      ensures this.test == test && this.groupId == groupId && this.groupFound == groupFound && this.rats == rats
      ensures sheet == Sheet(map[], map[]) && existing == map[] && initialData == Sheet(map[], map[])
      ensures !hasChanges && isValidScheduleDate && loading
      ensures completion == Completion("Pending", 0, 0) && completionRequests == [] && posted == []
      ensures message == "" && !showSuccess && !showError && selectedRat == None && openModal == NoModal
    {
      this.test, this.groupId, this.groupFound, this.rats := test, groupId, groupFound, rats;
      sheet, existing, initialData := Sheet(map[], map[]), map[], Sheet(map[], map[]);
      hasChanges, isValidScheduleDate, loading := false, true, true;
      completion, completionRequests, posted := Completion("Pending", 0, 0), [], [];
      message, showSuccess, showError := "", false, false;
      selectedRat, openModal := None, NoModal;
    }

    /** The fetch effect. The schedule date and the dates `getTestSchedule`
        lists are day numbers; `fetched` is what `getCapturedData` resolves
        to (None when it rejects) and `status` what `getCompletionStatus`
        resolves to. Returns the ids the data was requested for, None when
        nothing was requested. */
    method Load(scheduleDay: int, scheduleDays: seq<int>, fetched: Option<seq<CapturedRecord>>,
                status: Option<Completion>) returns (requested: Option<seq<int>>)
      modifies this`loading, this`isValidScheduleDate, this`sheet, this`existing, this`initialData,
               this`hasChanges, this`completionRequests, this`completion, this`message, this`showError
      ensures !loading
      ensures requested.Some? <==> groupFound && |rats| > 0 && scheduleDay in scheduleDays
      ensures requested.Some? ==> requested.value == RequestedIds(test)
      ensures groupFound && |rats| > 0 ==> isValidScheduleDate == (scheduleDay in scheduleDays)
      ensures requested.None? || fetched.None? ==>
        sheet == old(sheet) && existing == old(existing) && initialData == old(initialData) &&
        completionRequests == old(completionRequests) && completion == old(completion) &&
        hasChanges == old(hasChanges)
      ensures requested.None? ==> message == old(message) && showError == old(showError)
      ensures requested.Some? && fetched.None? ==>
        message == "Failed to load data. Please try again." && showError
      ensures requested.Some? && fetched.Some? ==>
        LoadedFrom(rats, fetched.value, test, sheet.entries, sheet.remarks, existing) &&
        initialData == sheet && !hasChanges &&
        completionRequests == old(completionRequests) + [false]
      ensures requested.Some? && fetched.Some? && status.Some? ==>
        completion == status.value && message == old(message) && showError == old(showError)
      ensures requested.Some? && fetched.Some? && status.None? ==>
        message == "Failed to load data. Please try again." && showError && completion == old(completion)
    {
      requested := None;
      if !groupFound || |rats| == 0 {
        loading := false;
        return;
      }
      loading := true;
      isValidScheduleDate := scheduleDay in scheduleDays;
      if !isValidScheduleDate {
        loading := false;
        return;
      }
      requested := Some(RequestedIds(test));
      if fetched.None? {
        message, showError := "Failed to load data. Please try again.", true;
      } else {
        Fill(fetched.value, status);
      }
      loading := false;
    }

    /** The load's success: the roster's entries, remarks and flags, a
        snapshot of them, and the completion status. */
    method Fill(data: seq<CapturedRecord>, status: Option<Completion>)
      modifies this`sheet, this`existing, this`initialData, this`hasChanges, this`completionRequests,
               this`completion, this`message, this`showError
      ensures LoadedFrom(rats, data, test, sheet.entries, sheet.remarks, existing)
      ensures initialData == sheet && !hasChanges
      ensures completionRequests == old(completionRequests) + [false]
      ensures status.Some? ==> completion == status.value && message == old(message) && showError == old(showError)
      ensures status.None? ==>
        message == "Failed to load data. Please try again." && showError && completion == old(completion)
    {
      var e, r, x := LoadEntries(rats, data, test);
      sheet, existing := Sheet(e, r), x;
      initialData := sheet;
      hasChanges := false;
      completionRequests := completionRequests + [false];
      if status.Some? {
        completion := status.value;
      } else {
        message, showError := "Failed to load data. Please try again.", true;
      }
    }

    /** handleCaptureData: select the rat and open the modal the test uses. */
    method OpenCapture(rat: string)
      modifies this`selectedRat, this`openModal
      ensures selectedRat == Some(rat)
      ensures openModal == (if test.useModal then SubTypeModal else TestDataModal)
    {
      selectedRat := Some(rat);
      openModal := if test.useModal then SubTypeModal else TestDataModal;
    }

    /** handleModalClose. */
    method CloseModal()
      modifies this`selectedRat, this`openModal
      ensures selectedRat == None && openModal == NoModal
    {
      selectedRat, openModal := None, NoModal;
    }

    /** Stores one rat's entry and remark, recomputes the change flag and closes the modals. */
    method Store(rat: string, entry: Entry, remark: string, filled: bool)
      modifies this`sheet, this`existing, this`hasChanges, this`openModal, this`selectedRat
      ensures sheet == Sheet(old(sheet).entries[rat := entry], old(sheet).remarks[rat := remark])
      ensures existing == old(existing)[rat := filled]
      ensures hasChanges == HasChanges(sheet, initialData)
      ensures openModal == NoModal && selectedRat == None
    {
      sheet := Sheet(sheet.entries[rat := entry], sheet.remarks[rat := remark]);
      existing := existing[rat := filled];
      hasChanges := HasChanges(sheet, initialData);
      openModal, selectedRat := NoModal, None;
    }

    /** handleDataSave: only the saved rat's entry, remark and flag change;
        the value is stored as text and flags the rat iff that text is
        neither '' nor 'null'; the remark defaults to 'No Remarks'. */
    method HandleDataSave(rat: string, value: SavedValue, remark: Option<string>)
      modifies this`sheet, this`existing, this`hasChanges, this`openModal, this`selectedRat
      ensures sheet == Sheet(old(sheet).entries[rat := Text(FormatSaved(value))],
                             old(sheet).remarks[rat := OrDefault(remark, NoRemarks)])
      ensures existing == old(existing)[rat := FormatSaved(value) != "" && FormatSaved(value) != "null"]
      ensures hasChanges == HasChanges(sheet, initialData)
      ensures openModal == NoModal && selectedRat == None
    {
      var text := FormatSaved(value);
      Store(rat, Text(text), OrDefault(remark, NoRemarks), text != "" && text != "null");
    }

    /** The sub-type modal's `onSuccess` as written: the modal calls it
        without an argument, so handleDataSave receives `undefined`, stores
        the text 'undefined' as the rat's entry and flags the rat, whatever
        was submitted; the rat's remark (`remarks[selectedRat] || 'No
        Remarks'`) is kept. */
    method SubTypeSuccess(rat: string)
      modifies this`sheet, this`existing, this`hasChanges, this`openModal, this`selectedRat
      ensures sheet == Sheet(old(sheet).entries[rat := Text("undefined")],
                             old(sheet).remarks[rat := OrDefault(Lookup(old(sheet).remarks, rat), NoRemarks)])
      ensures existing == old(existing)[rat := true]
      ensures hasChanges == HasChanges(sheet, initialData)
      ensures openModal == NoModal && selectedRat == None
    {
      HandleDataSave(rat, UndefinedValue, Some(OrDefault(Lookup(sheet.remarks, rat), NoRemarks)));
    }

    /** The corrected sub-type success: the modal hands the submitted values
        back and handleDataSave keeps them as the map the load builds
        instead of their JSON text. The rat's remark is kept and the rat is
        flagged iff a value is filled, as the load flags it. */
    method HandleSubTypeSave(rat: string, values: map<string, string>)
      modifies this`sheet, this`existing, this`hasChanges, this`openModal, this`selectedRat
      ensures sheet == Sheet(old(sheet).entries[rat := Values(values)],
                             old(sheet).remarks[rat := OrDefault(Lookup(old(sheet).remarks, rat), NoRemarks)])
      ensures existing == old(existing)[rat := AnyFilled(values)]
      ensures hasChanges == HasChanges(sheet, initialData)
      ensures openModal == NoModal && selectedRat == None
    {
      Store(rat, Values(values), OrDefault(Lookup(sheet.remarks, rat), NoRemarks), AnyFilled(values));
    }

    /** getSubTypeProgress for a rat of the roster. */
    function Progress(rat: string): (r: Option<string>)
      reads this`sheet
      ensures r.None? <==> !test.useModal
    {
      SubTypeProgress(test, sheet.entries, rat)
    }

    /** handleSubmit, reachable only through the Submit button a plain test
        shows. The clock reads `hours`:`minutes`; `date` is the schedule date
        as the payload prints it; the post numbered `failsAt` (counting from
        0) rejects, if any; `refreshed` is what the forced completion refresh
        resolves to (None when it rejects). */
    method Submit(hours: nat, minutes: nat, date: string, failsAt: Option<nat>, refreshed: Option<Completion>)
      requires hours < 24 && minutes < 60
      requires !test.useModal
      modifies this`existing, this`posted, this`message, this`showError, this`showSuccess,
               this`hasChanges, this`initialData, this`completionRequests, this`completion
      ensures var done := PostedRats(rats, sheet, old(initialData), failsAt);
        Tally(|done|, existing, posted)
        == TallyOf(done, Batch(test, groupId, TimeLabel(hours, minutes), date), sheet, old(existing), old(posted))
      ensures var k := |PostedRats(rats, sheet, old(initialData), failsAt)|;
        var n := |ChangedRats(rats, sheet, old(initialData))|;
        if k < n then
          message == "Failed to save data. Please try again." && showError &&
          initialData == old(initialData) && hasChanges == old(hasChanges) &&
          completionRequests == old(completionRequests) &&
          showSuccess == old(showSuccess) && completion == old(completion)
        else if n == 0 then
          message == "No changes detected to submit" && showError &&
          initialData == old(initialData) && hasChanges == old(hasChanges) &&
          completionRequests == old(completionRequests) &&
          showSuccess == old(showSuccess) && completion == old(completion)
        else
          showSuccess && !hasChanges && initialData == sheet &&
          completionRequests == old(completionRequests) + [true] &&
          (refreshed.Some? ==> message == NatToDecimal(n) + " record(s) saved successfully" &&
                               completion == refreshed.value && showError == old(showError)) &&
          (refreshed.None? ==> message == "Failed to save data. Please try again." && showError &&
                               completion == old(completion))
    {
      var batch := Batch(test, groupId, TimeLabel(hours, minutes), date);
      var count, failed, x, p := PostChanged(rats, sheet, initialData, batch, failsAt, existing, posted);
      existing, posted := x, p;
      Conclude(count, failed, refreshed);
    }

    /** The end of handleSubmit, once the loop has posted `count` payloads
        or stopped at a rejected post. */
    method Conclude(count: nat, failed: bool, refreshed: Option<Completion>)
      modifies this`message, this`showError, this`showSuccess, this`hasChanges, this`initialData,
               this`completionRequests, this`completion
      ensures if failed then
          message == "Failed to save data. Please try again." && showError &&
          initialData == old(initialData) && hasChanges == old(hasChanges) &&
          completionRequests == old(completionRequests) &&
          showSuccess == old(showSuccess) && completion == old(completion)
        else if count == 0 then
          message == "No changes detected to submit" && showError &&
          initialData == old(initialData) && hasChanges == old(hasChanges) &&
          completionRequests == old(completionRequests) &&
          showSuccess == old(showSuccess) && completion == old(completion)
        else
          showSuccess && !hasChanges && initialData == sheet &&
          completionRequests == old(completionRequests) + [true] &&
          (refreshed.Some? ==> message == NatToDecimal(count) + " record(s) saved successfully" &&
                               completion == refreshed.value && showError == old(showError)) &&
          (refreshed.None? ==> message == "Failed to save data. Please try again." && showError &&
                               completion == old(completion))
    {
      if failed {
        message, showError := "Failed to save data. Please try again.", true;
      } else if count > 0 {
        message, showSuccess := NatToDecimal(count) + " record(s) saved successfully", true;
        hasChanges := false;
        initialData := sheet;
        completionRequests := completionRequests + [true];
        if refreshed.Some? {
          completion := refreshed.value;
        } else {
          message, showError := "Failed to save data. Please try again.", true;
        }
      } else {
        message, showError := "No changes detected to submit", true;
      }
    }
  }
}
