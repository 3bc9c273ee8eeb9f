/** The sub-type capture modal (src/components/CaptureSubtypeDataModal.js):
    for one rat and a test with sub-types it loads the rat's value and remark
    of every sub-type, lets the user type values and remarks, marks the
    fields that count as changed, and posts the changed, non-blank values,
    as a first post or as an update. */
module CaptureSubtype {
  import opened Common
  import opened CaptureRecords

  /** One sub-type's entry in `initialData` / `modalData`. The load fills
      both parts; a keystroke handler writing into a missing entry leaves
      the other part undefined. */
  datatype Field = Field(value: Option<string>, remark: Option<string>)

  /** `m[name]?.value`. */
  function ValueAt(m: map<string, Field>, name: string): Option<string>
  {
    if name in m then m[name].value else None
  }

  /** `m[name]?.remark`. */
  function RemarkAt(m: map<string, Field>, name: string): Option<string>
  {
    if name in m then m[name].remark else None
  }

  // ---------------------------------------------------------------------------
  // Loading.

  /** The loaded entry of one sub-type: the matching record's `t_value` or
      '', and its `remarks` or ''. */
  function InitialField(testData: seq<CapturedRecord>, st: SubType): Field
  {
    var record := Find(testData, ForSubType(st));
    Field(Some(ValueOf(record)), Some(OrEmpty(if record.Some? then record.value.remarks else None)))
  }

  /** The `initial` reduce: one entry per sub-type name. */
  function InitialFields(subTypes: seq<SubType>, testData: seq<CapturedRecord>): map<string, Field>
  {
    ByName(subTypes, st => InitialField(testData, st))
  }

  /** Every sub-type name has an entry, and no other key; a name that no
      later sub-type repeats holds its own record's value and remark, both
      defined. */
  lemma InitialFieldsSpec(subTypes: seq<SubType>, testData: seq<CapturedRecord>)
    ensures InitialFields(subTypes, testData).Keys == Names(subTypes)
    ensures forall k :: k in InitialFields(subTypes, testData) ==>
      InitialFields(subTypes, testData)[k].value.Some? && InitialFields(subTypes, testData)[k].remark.Some?
    ensures forall i :: (0 <= i < |subTypes| &&
      (forall j :: i < j < |subTypes| ==> subTypes[j].name != subTypes[i].name)) ==>
      subTypes[i].name in InitialFields(subTypes, testData) &&
      InitialFields(subTypes, testData)[subTypes[i].name] == InitialField(testData, subTypes[i])
  {
    var f := st => InitialField(testData, st);
    ByNameKeys(subTypes, f);
    forall i | 0 <= i < |subTypes| && (forall j :: i < j < |subTypes| ==> subTypes[j].name != subTypes[i].name)
      ensures subTypes[i].name in InitialFields(subTypes, testData)
      ensures InitialFields(subTypes, testData)[subTypes[i].name] == InitialField(testData, subTypes[i])
    {
      ByNameLastWins(subTypes, f, i);
    }
    forall k | k in InitialFields(subTypes, testData)
      ensures InitialFields(subTypes, testData)[k].value.Some? && InitialFields(subTypes, testData)[k].remark.Some?
    {
      InitialValuesDefined(subTypes, testData, k);
    }
  }

  lemma {:induction false} InitialValuesDefined(subTypes: seq<SubType>, testData: seq<CapturedRecord>, k: string)
    requires k in InitialFields(subTypes, testData)
    ensures InitialFields(subTypes, testData)[k].value.Some? && InitialFields(subTypes, testData)[k].remark.Some?
    decreases |subTypes|
  {
    var n := |subTypes| - 1;
    if subTypes[n].name != k {
      InitialValuesDefined(subTypes[..n], testData, k);
    }
  }

  /** The remarks map the load and the reset build from a snapshot (the
      `remarks` reduce): every sub-type name gets its snapshot remark, read
      through `?.` so that a name missing from the snapshot gets ''. */
  function RemarksOf(subTypes: seq<SubType>, initial: map<string, Field>): (r: map<string, string>)
    ensures r.Keys == Names(subTypes)
  {
    if |subTypes| == 0 then map[]
    else
      var name := subTypes[|subTypes| - 1].name;
      RemarksOf(subTypes[..|subTypes| - 1], initial)[name := OrEmpty(RemarkAt(initial, name))]
  }

  /** Each name's remark is the snapshot's remark of that name, whichever
      sub-type carrying it came last. */
  lemma {:induction false} RemarksOfSpec(subTypes: seq<SubType>, initial: map<string, Field>, k: string)
    requires k in RemarksOf(subTypes, initial)
    ensures RemarksOf(subTypes, initial)[k] == OrEmpty(RemarkAt(initial, k))
    decreases |subTypes|
  {
    var n := |subTypes| - 1;
    if subTypes[n].name != k {
      RemarksOfSpec(subTypes[..n], initial, k);
    }
  }

  /** As written, the reset reads `initialData[name].remark`, which throws
      when the snapshot lacks the name; None stands for the throw. */
  function RemarksOfAsWritten(subTypes: seq<SubType>, initial: map<string, Field>): (r: Option<map<string, string>>)
    ensures r.Some? <==> Names(subTypes) <= initial.Keys
  {
    if Names(subTypes) <= initial.Keys then Some(RemarksOf(subTypes, initial)) else None
  }

  /** Before a successful load the snapshot is empty, so the reset of a
      modal with any sub-type throws, and the close handlers never reach
      `onClose`. */
  lemma ResetThrowsWithoutSnapshot(subTypes: seq<SubType>)
    requires |subTypes| > 0
    ensures RemarksOfAsWritten(subTypes, map[]) == None
  {
    NameInNames(subTypes, 0);
  }

  /** The corrected reset agrees with the original wherever the original
      does not throw, and always gives every sub-type name a remark. */
  lemma RemarksOfAgrees(subTypes: seq<SubType>, initial: map<string, Field>)
    ensures RemarksOf(subTypes, initial).Keys == Names(subTypes)
    ensures forall k :: k in RemarksOf(subTypes, initial) ==> RemarksOf(subTypes, initial)[k] == OrEmpty(RemarkAt(initial, k))
    ensures RemarksOfAsWritten(subTypes, initial).Some? ==>
      RemarksOfAsWritten(subTypes, initial).value == RemarksOf(subTypes, initial)
  {
    forall k | k in RemarksOf(subTypes, initial)
      ensures RemarksOf(subTypes, initial)[k] == OrEmpty(RemarkAt(initial, k))
    {
      RemarksOfSpec(subTypes, initial, k);
    }
  }

  /** `Object.values(m).filter(item => item.value !== '' && item.value !== null).length`:
      the entries whose value is not '' (an undefined value passes). */
  function FilledNames(m: map<string, Field>): set<string>
  {
    set k | k in m && m[k].value != Some("")
  }

  function Completed(m: map<string, Field>): nat
  {
    |FilledNames(m)|
  }

  /** `isDisabled && completed === subTypes.length`. */
  predicate ViewMode(isDisabled: bool, initial: map<string, Field>, subTypes: seq<SubType>)
  {
    isDisabled && Completed(initial) == |subTypes|
  }

  lemma SubsetSameCard<T>(a: set<T>, b: set<T>)
    requires a <= b && |b| <= |a|
    ensures a == b
  {
    if a != b {
      var x :| x in b && x !in a;
      SubsetCard(a, b - {x});
    }
  }

  /** A snapshot keyed by sub-type names never counts more than the sub-types. */
  lemma CompletedBounded(m: map<string, Field>, subTypes: seq<SubType>)
    requires m.Keys <= Names(subTypes)
    ensures Completed(m) <= |subTypes|
  {
    SubsetCard(FilledNames(m), Names(subTypes));
  }

  /** View mode means every sub-type has a filled value in the snapshot (so
      two sub-types sharing a name keep the modal out of view mode). */
  lemma ViewModeMeansAllFilled(isDisabled: bool, initial: map<string, Field>, subTypes: seq<SubType>)
    requires initial.Keys <= Names(subTypes)
    requires ViewMode(isDisabled, initial, subTypes)
    ensures forall i :: 0 <= i < |subTypes| ==>
      subTypes[i].name in initial && initial[subTypes[i].name].value != Some("")
    ensures forall i, j :: 0 <= i < j < |subTypes| ==> subTypes[i].name != subTypes[j].name
  {
    var filled := FilledNames(initial);
    assert filled <= Names(subTypes);
    SubsetSameCard(filled, Names(subTypes));
    forall i | 0 <= i < |subTypes|
      ensures subTypes[i].name in initial && initial[subTypes[i].name].value != Some("")
    {
      NameInNames(subTypes, i);
      assert subTypes[i].name in filled;
    }
    forall i, j | 0 <= i < j < |subTypes|
      ensures subTypes[i].name != subTypes[j].name
    {
      if subTypes[i].name == subTypes[j].name {
        NamesWithRepeat(subTypes, i, j);
      }
    }
  }

  /** Two sub-types sharing a name leave fewer names than sub-types. */
  lemma {:induction false} NamesWithRepeat(subTypes: seq<SubType>, i: nat, j: nat)
    requires i < j < |subTypes| && subTypes[i].name == subTypes[j].name
    ensures |Names(subTypes)| < |subTypes|
    decreases |subTypes|
  {
    var n := |subTypes| - 1;
    var prefix := subTypes[..n];
    var x := subTypes[n].name;
    assert Names(subTypes) == Names(prefix) + {x};
    assert prefix[i] == subTypes[i];
    if j < n {
      assert prefix[j] == subTypes[j];
      NamesWithRepeat(prefix, i, j);
      assert |Names(prefix) + {x}| <= |Names(prefix)| + 1;
    } else {
      NameInNames(prefix, i);
    }
  }

  // ---------------------------------------------------------------------------
  // Which fields can be typed into, and which keystrokes count as changes.

  /** isSubTypeDisabled. */
  predicate Disabled(isViewMode: bool, isEditing: bool, isDisabled: bool, initial: map<string, Field>, name: string)
  {
    isViewMode || (!isEditing && (isDisabled || Truthy(ValueAt(initial, name))))
  }

  /** handleInputChange marks the field changed under this condition. */
  predicate ValueEditCounts(isEditing: bool, initial: map<string, Field>, name: string)
  {
    isEditing || !Truthy(ValueAt(initial, name))
  }

  /** handleRemarkChange marks the field changed under this condition. */
  predicate RemarkEditCounts(isEditing: bool, initial: map<string, Field>, name: string)
  {
    isEditing || !Truthy(RemarkAt(initial, name))
  }

  /** Typing a value into a field the modal lets one type into always marks
      it as changed, so the value entered there is considered by the submit. */
  lemma EditableFieldsAreMarked(isViewMode: bool, isEditing: bool, isDisabled: bool,
                                initial: map<string, Field>, name: string)
    requires !Disabled(isViewMode, isEditing, isDisabled, initial, name)
    ensures ValueEditCounts(isEditing, initial, name)
  {
  }

  /** Remark keystrokes follow a different rule: outside editing, a field
      that can be typed into but whose snapshot remark is filled is not
      marked by a remark keystroke, although a value keystroke marks it. */
  lemma RemarkEditUnmarkedUnderFilledRemark(isViewMode: bool, isDisabled: bool,
                                            initial: map<string, Field>, name: string)
    requires !Disabled(isViewMode, false, isDisabled, initial, name) && Truthy(RemarkAt(initial, name))
    ensures ValueEditCounts(false, initial, name)
    ensures !RemarkEditCounts(false, initial, name)
  {
  }

  /** Outside editing, a field with a filled initial value is locked. */
  lemma FilledFieldsLockedOutsideEditing(isViewMode: bool, isDisabled: bool, initial: map<string, Field>, name: string)
    requires Truthy(ValueAt(initial, name))
    ensures Disabled(isViewMode, false, isDisabled, initial, name)
    ensures !ValueEditCounts(false, initial, name)
  {
  }

  // ---------------------------------------------------------------------------
  // The submit.

  /** What the submit reads: the snapshot, the typed entries, the remarks,
      the names marked changed and whether the user pressed Edit. */
  datatype Form = Form(initial: map<string, Field>, data: map<string, Field>, remarks: map<string, string>,
                       changed: set<string>, isEditing: bool)

  /** What every payload of one submit shares: the group, the rat, the clock
      text and the printed date. */
  datatype Batch = Batch(groupId: int, ratId: string, time: string, date: string)

  /** `isChanged && value && value.trim() !== ''`. */
  predicate Postable(st: SubType, form: Form)
  {
    st.name in form.changed && Truthy(ValueAt(form.data, st.name)) && !Blank(ValueAt(form.data, st.name).value)
  }

  /** `initialData[name]?.value ? 'UPDATE_TEST' : 'ADD_TEST'`. */
  function CallMode(form: Form, name: string): (r: string)
    ensures r == "UPDATE_TEST" <==> Truthy(ValueAt(form.initial, name))
    ensures r == "UPDATE_TEST" || r == "ADD_TEST"
  {
    if Truthy(ValueAt(form.initial, name)) then "UPDATE_TEST" else "ADD_TEST"
  }

  /** The remark a payload falls back to. */
  function DefaultRemark(isEditing: bool): string
  {
    "Data " + (if isEditing then "updated" else "captured") + " via mobile app"
  }

  /** The payload posted for one sub-type. */
  function SubTypePayload(st: SubType, form: Form, batch: Batch): Payload
  {
    Payload(st.id, CallMode(form, st.name), batch.groupId, st.name, batch.ratId, batch.time, batch.date,
            OrEmpty(ValueAt(form.data, st.name)),
            OrDefault(Lookup(form.remarks, st.name), DefaultRemark(form.isEditing)))
  }

  function Lookup(m: map<string, string>, k: string): Option<string>
  {
    if k in m then Some(m[k]) else None
  }

  /** The postable sub-types among the first `n`, in order. */
  function PostableAmong(subTypes: seq<SubType>, n: nat, form: Form): (r: seq<SubType>)
    requires n <= |subTypes|
    ensures |r| <= n
  {
    if n == 0 then []
    else PostableAmong(subTypes, n - 1, form) + (if Postable(subTypes[n - 1], form) then [subTypes[n - 1]] else [])
  }

  /** Exactly the sub-types that are marked changed and hold a non-blank value are posted for. */
  lemma {:induction false} PostableAmongSpec(subTypes: seq<SubType>, n: nat, form: Form)
    requires n <= |subTypes|
    ensures forall st :: st in PostableAmong(subTypes, n, form) <==> st in subTypes[..n] && Postable(st, form)
  {
    if n > 0 {
      PostableAmongSpec(subTypes, n - 1, form);
      assert subTypes[..n] == subTypes[..n - 1] + [subTypes[n - 1]];
    }
  }

  lemma {:induction false} PostableAmongPrefix(subTypes: seq<SubType>, i: nat, n: nat, form: Form)
    requires i <= n <= |subTypes|
    ensures var p := PostableAmong(subTypes, i, form);
      var all := PostableAmong(subTypes, n, form);
      |p| <= |all| && p == all[..|p|]
    decreases n
  {
    if i < n {
      PostableAmongPrefix(subTypes, i, n - 1, form);
    }
  }

  /** With no field marked changed, nothing is postable. */
  lemma {:induction false} NothingMarkedNothingPosted(subTypes: seq<SubType>, n: nat, form: Form)
    requires n <= |subTypes| && form.changed == {}
    ensures PostableAmong(subTypes, n, form) == []
  {
    if n > 0 {
      NothingMarkedNothingPosted(subTypes, n - 1, form);
    }
  }

  /** The sub-types a submit posts for before the post numbered `failsAt` rejects. */
  function PostedSubTypes(subTypes: seq<SubType>, form: Form, failsAt: Option<nat>): (r: seq<SubType>)
    ensures var all := PostableAmong(subTypes, |subTypes|, form);
      |r| <= |all| && r == all[..|r|]
    ensures var all := PostableAmong(subTypes, |subTypes|, form);
      |r| < |all| <==> failsAt.Some? && failsAt.value < |all|
  {
    var all := PostableAmong(subTypes, |subTypes|, form);
    if failsAt.Some? && failsAt.value < |all| then all[..failsAt.value] else all
  }

  function Payloads(sts: seq<SubType>, form: Form, batch: Batch): seq<Payload>
  {
    if |sts| == 0 then [] else Payloads(sts[..|sts| - 1], form, batch) + [SubTypePayload(sts[|sts| - 1], form, batch)]
  }

  /** Each posted payload names its sub-type and the rat, carries a
      non-blank value, is an update exactly when the snapshot value was
      filled, and has a non-empty remark. */
  lemma {:induction false} PayloadsSpec(subTypes: seq<SubType>, form: Form, batch: Batch, failsAt: Option<nat>)
    ensures var sts := PostedSubTypes(subTypes, form, failsAt);
      var ps := Payloads(sts, form, batch);
      |ps| == |sts| &&
      forall i :: 0 <= i < |ps| ==>
        sts[i] in subTypes && Postable(sts[i], form) && sts[i].name in form.changed &&
        ps[i].testTypeId == sts[i].id && ps[i].testName == sts[i].name && ps[i].ratNo == batch.ratId &&
        ps[i].testValue == ValueAt(form.data, sts[i].name).value && !Blank(ps[i].testValue) &&
        (ps[i].callMode == "UPDATE_TEST" <==> Truthy(ValueAt(form.initial, sts[i].name))) &&
        ps[i].remarks != ""
  {
    var all := PostableAmong(subTypes, |subTypes|, form);
    var sts := PostedSubTypes(subTypes, form, failsAt);
    PostableAmongSpec(subTypes, |subTypes|, form);
    assert subTypes[..|subTypes|] == subTypes;
    PayloadsOf(sts, form, batch);
    forall i | 0 <= i < |sts|
      ensures sts[i] in subTypes && Postable(sts[i], form)
    {
      assert sts[i] == all[i];
      assert all[i] in all;
    }
  }

  lemma {:induction false} PayloadsOf(sts: seq<SubType>, form: Form, batch: Batch)
    ensures |Payloads(sts, form, batch)| == |sts|
    ensures forall i :: 0 <= i < |sts| ==> Payloads(sts, form, batch)[i] == SubTypePayload(sts[i], form, batch)
    decreases |sts|
  {
    if |sts| > 0 {
      PayloadsOf(sts[..|sts| - 1], form, batch);
    }
  }

  /** The submit loop's running state: how many posts went through and
      every payload posted so far. */
  datatype Tally = Tally(count: nat, posted: seq<Payload>)

  function TallyOf(done: seq<SubType>, form: Form, batch: Batch, posted0: seq<Payload>): Tally
  {
    Tally(|done|, posted0 + Payloads(done, form, batch))
  }

  /** Posting one more sub-type counts it and appends its payload. */
  lemma TallySnoc(done: seq<SubType>, st: SubType, form: Form, batch: Batch, posted0: seq<Payload>)
    ensures var t := TallyOf(done, form, batch, posted0);
      TallyOf(done + [st], form, batch, posted0) == Tally(t.count + 1, t.posted + [SubTypePayload(st, form, batch)])
  {
    assert (done + [st])[..|done|] == done;
  }

  /** A rejected post at a postable sub-type leaves exactly the postable sub-types before it posted. */
  lemma PostedAtFailure(subTypes: seq<SubType>, i: nat, form: Form, failsAt: Option<nat>)
    requires i < |subTypes| && Postable(subTypes[i], form)
    requires failsAt == Some(|PostableAmong(subTypes, i, form)|)
    ensures PostedSubTypes(subTypes, form, failsAt) == PostableAmong(subTypes, i, form)
    ensures |PostableAmong(subTypes, i, form)| < |PostableAmong(subTypes, |subTypes|, form)|
  {
    PostableAmongPrefix(subTypes, i + 1, |subTypes|, form);
  }

  /** When no post rejects, every postable sub-type is posted for. */
  lemma PostedWithoutFailure(subTypes: seq<SubType>, form: Form, failsAt: Option<nat>)
    requires failsAt.None? || |PostableAmong(subTypes, |subTypes|, form)| <= failsAt.value
    ensures PostedSubTypes(subTypes, form, failsAt) == PostableAmong(subTypes, |subTypes|, form)
  {
  }

  /** The submit loop: post every postable sub-type, in order, until the
      post numbered `failsAt` (from 0) rejects. */
  method PostSubTypes(subTypes: seq<SubType>, form: Form, batch: Batch, failsAt: Option<nat>, posted0: seq<Payload>)
    returns (count: nat, failed: bool, posted: seq<Payload>)
    ensures Tally(count, posted) == TallyOf(PostedSubTypes(subTypes, form, failsAt), form, batch, posted0)
    ensures failed <==> count < |PostableAmong(subTypes, |subTypes|, form)|
  {
    var t := Tally(0, posted0);
    failed := false;
    var i := 0;
    while i < |subTypes|
      invariant 0 <= i <= |subTypes|
      invariant t == TallyOf(PostableAmong(subTypes, i, form), form, batch, posted0)
      invariant failsAt.None? || t.count <= failsAt.value
    {
      var st := subTypes[i];
      if Postable(st, form) {
        if failsAt == Some(t.count) {
          PostedAtFailure(subTypes, i, form, failsAt);
          failed := true;
          break;
        }
        TallySnoc(PostableAmong(subTypes, i, form), st, form, batch, posted0);
        t := Tally(t.count + 1, t.posted + [SubTypePayload(st, form, batch)]);
        assert PostableAmong(subTypes, i + 1, form) == PostableAmong(subTypes, i, form) + [st];
      } else {
        assert PostableAmong(subTypes, i + 1, form) == PostableAmong(subTypes, i, form);
      }
      i := i + 1;
    }
    if !failed {
      PostedWithoutFailure(subTypes, form, failsAt);
    }
    count, posted := t.count, t.posted;
  }

  /** How a submit ends: a post rejected, nothing was postable, or every
      postable sub-type was posted. */
  datatype Outcome = Rejected | NothingValid | AllPosted(count: nat)

  /** The end a submit reaches: a post rejects exactly when one of the
      postable sub-types is numbered `failsAt`; a submit ends with nothing
      posted exactly when no sub-type is postable. */
  function SubmitOutcome(subTypes: seq<SubType>, form: Form, failsAt: Option<nat>): (o: Outcome)
    ensures var all := PostableAmong(subTypes, |subTypes|, form);
      o.Rejected? <==> |PostedSubTypes(subTypes, form, failsAt)| < |all|
    ensures o.NothingValid? <==> PostableAmong(subTypes, |subTypes|, form) == []
    ensures o.AllPosted? ==> o.count > 0 && PostedSubTypes(subTypes, form, failsAt) == PostableAmong(subTypes, |subTypes|, form)
  {
    var all := PostableAmong(subTypes, |subTypes|, form);
    if failsAt.Some? && failsAt.value < |all| then Rejected
    else if |all| == 0 then NothingValid
    else AllPosted(|all|)
  }

  /** What the submit loop reports determines the end it reached. */
  lemma LoopOutcome(subTypes: seq<SubType>, form: Form, failsAt: Option<nat>, count: nat, failed: bool)
    requires count == |PostedSubTypes(subTypes, form, failsAt)|
    requires failed <==> count < |PostableAmong(subTypes, |subTypes|, form)|
    ensures SubmitOutcome(subTypes, form, failsAt)
      == if failed then Rejected else if count == 0 then NothingValid else AllPosted(count)
  {
  }

  /** The message after a submit that posted `count` payloads without a rejection. */
  function SubmitMessage(count: nat, isEditing: bool): (r: string)
    ensures count == 0 ==> r == "No valid data to submit."
    ensures count > 0 ==> r == NatToDecimal(count) + " record(s) successfully " + (if isEditing then "updated" else "saved")
  {
    if count == 0 then "No valid data to submit."
    else NatToDecimal(count) + " record(s) successfully " + (if isEditing then "updated" else "saved")
  }

  /** The message after a rejected post or a rejected cache update. */
  function FailureMessage(isEditing: bool): string
  {
    "Failed to " + (if isEditing then "update" else "submit") + " data. Please try again."
  }
}

/** The modal's state and its handlers. The external calls are parameters:
    what `getCapturedData` resolves to, the post that rejects, and whether
    `updateCompletionCache` resolves; the parent's `onClose` and `onSuccess`
    callbacks are counted. */
module CaptureSubtypeModal {
  import opened Common
  import opened CaptureRecords
  import opened CaptureSubtype

  class SubtypeModal {
    /** The props: the rat, its test's sub-types, whether the parent disables
        the fields, and the group. */
    const ratId: string
    const subTypes: seq<SubType>
    const isDisabled: bool
    const groupId: int

    /** The state the submit reads, kept together: `initialData` (the
        snapshot of the last load), `modalData` (the entries being typed),
        `remarks`, the keys of `changedFields`, and `isEditing`. */
    var form: Form
    var isViewMode: bool
    /** `completionStatus.completed`; the total is `|subTypes|`. */
    var completed: nat
    var focused: Option<string>
    var message: string
    var showError: bool
    var showSuccess: bool
    var showSubmitConfirm: bool
    var showExitConfirm: bool
    /** Every payload posted, in order. */
    var posted: seq<Payload>
    /** How many times `updateCompletionCache`, `onClose` and `onSuccess` were called. */
    var cacheUpdates: nat
    var closeCalls: nat
    var successCalls: nat

    /** The snapshot only holds entries of the modal's sub-types. */
    ghost predicate Valid()
      reads this`form
    {
      form.initial.Keys <= Names(subTypes)
    }

    constructor (ratId: string, subTypes: seq<SubType>, isDisabled: bool, groupId: int)
      ensures this.ratId == ratId && this.subTypes == subTypes && this.isDisabled == isDisabled
      ensures this.groupId == groupId
      ensures form == Form(map[], map[], map[], {}, false)
      ensures !isViewMode && completed == 0 && focused == None
      ensures message == "" && !showError && !showSuccess && !showSubmitConfirm && !showExitConfirm
      ensures posted == [] && cacheUpdates == 0 && closeCalls == 0 && successCalls == 0
      ensures Valid()
    {
      this.ratId, this.subTypes, this.isDisabled, this.groupId := ratId, subTypes, isDisabled, groupId;
      form := Form(map[], map[], map[], {}, false);
      isViewMode, completed, focused := false, 0, None;
      message, showError, showSuccess, showSubmitConfirm, showExitConfirm := "", false, false, false, false;
      posted, cacheUpdates, closeCalls, successCalls := [], 0, 0, 0;
    }

    /** The fetch effect. `ready` is the effect's guard (the modal is visible
        and the rat, reference, group and schedule date are set); `testData`
        is what `getCapturedData` resolves to, None when it rejects. A load
        keys the snapshot by exactly the sub-type names, never counts more
        filled entries than sub-types, and enters view mode only when every
        sub-type, under a name of its own, has a filled value. */
    method Load(ready: bool, testData: Option<seq<CapturedRecord>>)
      requires Valid()
      modifies this`form, this`completed, this`isViewMode, this`message, this`showError
      ensures Valid()
      ensures !ready ==> form == old(form) && message == old(message) && showError == old(showError)
      ensures ready && testData.None? ==>
        form == old(form) && message == "Failed to load existing data." && showError
      ensures !ready || testData.None? ==> completed == old(completed) && isViewMode == old(isViewMode)
      ensures ready && testData.Some? ==>
        var initial := InitialFields(subTypes, testData.value);
        form == Form(initial, initial, RemarksOf(subTypes, initial), {}, false) &&
        completed == Completed(initial) && isViewMode == ViewMode(isDisabled, initial, subTypes) &&
        message == old(message) && showError == old(showError)
      ensures ready && testData.Some? ==>
        form.initial.Keys == Names(subTypes) && completed <= |subTypes| &&
        (isViewMode ==> forall i :: 0 <= i < |subTypes| ==>
           subTypes[i].name in form.initial && form.initial[subTypes[i].name].value != Some(""))
    {
      if !ready {
        return;
      }
      if testData.None? {
        message, showError := "Failed to load existing data.", true;
        return;
      }
      var initial := InitialFields(subTypes, testData.value);
      InitialFieldsSpec(subTypes, testData.value);
      CompletedBounded(initial, subTypes);
      form := Form(initial, initial, RemarksOf(subTypes, initial), {}, false);
      completed := Completed(initial);
      isViewMode := ViewMode(isDisabled, initial, subTypes);
      if isViewMode {
        ViewModeMeansAllFilled(isDisabled, initial, subTypes);
      }
    }

    /** handleInputChange: the entry takes the typed value and keeps its
        remark; the field is marked changed while editing or when its
        snapshot value is empty. */
    method InputChange(name: string, value: string)
      modifies this`form
      ensures form == old(form).(
        data := old(form).data[name := Field(Some(value), RemarkAt(old(form).data, name))],
        changed := if ValueEditCounts(old(form).isEditing, old(form).initial, name)
                   then old(form).changed + {name} else old(form).changed)
    {
      form := form.(
        data := form.data[name := Field(Some(value), RemarkAt(form.data, name))],
        changed := if ValueEditCounts(form.isEditing, form.initial, name) then form.changed + {name} else form.changed);
    }

    /** handleRemarkChange: the remark is stored in both maps, the value is
        kept; the field is marked changed while editing or when its snapshot
        remark is empty. */
    method RemarkChange(name: string, remark: string)
      modifies this`form
      ensures form == old(form).(
        data := old(form).data[name := Field(ValueAt(old(form).data, name), Some(remark))],
        remarks := old(form).remarks[name := remark],
        changed := if RemarkEditCounts(old(form).isEditing, old(form).initial, name)
                   then old(form).changed + {name} else old(form).changed)
    {
      form := form.(
        data := form.data[name := Field(ValueAt(form.data, name), Some(remark))],
        remarks := form.remarks[name := remark],
        changed := if RemarkEditCounts(form.isEditing, form.initial, name) then form.changed + {name} else form.changed);
    }

    /** handleInputFocus. */
    method Focus(name: string)
      modifies this`focused
      ensures focused == Some(name)
    {
      focused := Some(name);
    }

    /** handleEdit: editing unlocks every field. */
    method Edit()
      modifies this`form, this`isViewMode
      ensures form == old(form).(isEditing := true) && !isViewMode
      ensures forall name :: !Disabled(isViewMode, form.isEditing, isDisabled, form.initial, name)
    {
      form := form.(isEditing := true);
      isViewMode := false;
    }

    /** resetModal, with each remark read through `?.` so that a missing
        snapshot entry gives '' instead of throwing: the entries and remarks
        go back to the snapshot, editing ends and nothing is marked changed. */
    method Reset()
      modifies this`form, this`focused, this`isViewMode
      ensures form == Form(old(form).initial, old(form).initial, RemarksOf(subTypes, old(form).initial), {}, false)
      ensures focused == None
      ensures isViewMode == ViewMode(isDisabled, form.initial, subTypes)
    {
      form := Form(form.initial, form.initial, RemarksOf(subTypes, form.initial), {}, false);
      focused := None;
      isViewMode := ViewMode(isDisabled, form.initial, subTypes);
    }

    /** handleClose and handleCancel: with a field marked changed they ask
        for confirmation; otherwise they reset and call `onClose`. */
    method Close()
      modifies this`showExitConfirm, this`form, this`focused, this`isViewMode, this`closeCalls
      ensures old(form).changed != {} ==>
        showExitConfirm && closeCalls == old(closeCalls) && form == old(form) &&
        focused == old(focused) && isViewMode == old(isViewMode)
      ensures old(form).changed == {} ==>
        showExitConfirm == old(showExitConfirm) && closeCalls == old(closeCalls) + 1 &&
        form == Form(old(form).initial, old(form).initial, RemarksOf(subTypes, old(form).initial), {}, false) &&
        focused == None && isViewMode == ViewMode(isDisabled, form.initial, subTypes)
    {
      if form.changed != {} {
        showExitConfirm := true;
      } else {
        Reset();
        closeCalls := closeCalls + 1;
      }
    }

    /** confirmExit: discard the changes and close. */
    method ConfirmExit()
      modifies this`showExitConfirm, this`form, this`focused, this`isViewMode, this`closeCalls
      ensures !showExitConfirm && closeCalls == old(closeCalls) + 1
      ensures form == Form(old(form).initial, old(form).initial, RemarksOf(subTypes, old(form).initial), {}, false)
      ensures focused == None && isViewMode == ViewMode(isDisabled, form.initial, subTypes)
    {
      showExitConfirm := false;
      Reset();
      closeCalls := closeCalls + 1;
    }

    /** cancelExit. */
    method CancelExit()
      modifies this`showExitConfirm
      ensures !showExitConfirm
    {
      showExitConfirm := false;
    }

    /** handleSubmitConfirmation: the confirmation opens only when a field is
        marked changed. */
    method SubmitConfirmation()
      modifies this`message, this`showError, this`showSubmitConfirm
      ensures form.changed == {} ==>
        message == "No changes detected to submit." && showError && showSubmitConfirm == old(showSubmitConfirm)
      ensures form.changed != {} ==>
        showSubmitConfirm && message == old(message) && showError == old(showError)
    {
      if form.changed == {} {
        message, showError := "No changes detected to submit.", true;
      } else {
        showSubmitConfirm := true;
      }
    }

    /** handleSubmit. The clock reads `hours`:`minutes`; `date` is the
        'DD-MM-YYYY' text of the day; the post numbered `failsAt` (from 0)
        rejects, if any; `cacheUpdated` says whether the cache update
        resolves. The postable sub-types are posted in order up to the
        rejected post; a submit that posted them all recounts the filled
        entries and updates the cache once. */
    method Submit(hours: nat, minutes: nat, date: string, failsAt: Option<nat>, cacheUpdated: bool)
      requires hours < 24 && minutes < 60
      modifies this`showSubmitConfirm, this`posted, this`completed, this`cacheUpdates,
               this`message, this`showError, this`showSuccess
      ensures !showSubmitConfirm
      ensures var done := PostedSubTypes(subTypes, form, failsAt);
        Tally(|done|, posted) == TallyOf(done, form, Batch(groupId, ratId, TimeLabel(hours, minutes), date), old(posted))
      ensures var o := SubmitOutcome(subTypes, form, failsAt);
        (o.Rejected? ==> message == FailureMessage(form.isEditing) && showError && showSuccess == old(showSuccess) &&
                         completed == old(completed) && cacheUpdates == old(cacheUpdates)) &&
        (o.NothingValid? ==> message == "No valid data to submit." && showError && showSuccess == old(showSuccess) &&
                             completed == old(completed) && cacheUpdates == old(cacheUpdates)) &&
        (o.AllPosted? ==> completed == Completed(form.data) && cacheUpdates == old(cacheUpdates) + 1 &&
                          (cacheUpdated ==> message == SubmitMessage(o.count, form.isEditing) && showSuccess &&
                                            showError == old(showError)) &&
                          (!cacheUpdated ==> message == FailureMessage(form.isEditing) && showError &&
                                             showSuccess == old(showSuccess)))
    {
      showSubmitConfirm := false;
      var batch := Batch(groupId, ratId, TimeLabel(hours, minutes), date);
      var count, failed, p := PostSubTypes(subTypes, form, batch, failsAt, posted);
      posted := p;
      LoopOutcome(subTypes, form, failsAt, count, failed);
      Conclude(if failed then Rejected else if count == 0 then NothingValid else AllPosted(count), cacheUpdated);
    }

    /** The end of handleSubmit, once the loop has reached outcome `o`. */
    method Conclude(o: Outcome, cacheUpdated: bool)
      modifies this`completed, this`cacheUpdates, this`message, this`showError, this`showSuccess
      ensures o.Rejected? ==> message == FailureMessage(form.isEditing) && showError &&
                              showSuccess == old(showSuccess) &&
                              completed == old(completed) && cacheUpdates == old(cacheUpdates)
      ensures o.NothingValid? ==> message == "No valid data to submit." && showError &&
                                  showSuccess == old(showSuccess) &&
                                  completed == old(completed) && cacheUpdates == old(cacheUpdates)
      ensures o.AllPosted? ==> completed == Completed(form.data) && cacheUpdates == old(cacheUpdates) + 1 &&
                               (cacheUpdated ==> message == SubmitMessage(o.count, form.isEditing) && showSuccess &&
                                                 showError == old(showError)) &&
                               (!cacheUpdated ==> message == FailureMessage(form.isEditing) && showError &&
                                                  showSuccess == old(showSuccess))
    {
      match o
      case Rejected =>
        message, showError := FailureMessage(form.isEditing), true;
      case NothingValid =>
        message, showError := "No valid data to submit.", true;
      case AllPosted(count) =>
        completed := Completed(form.data);
        cacheUpdates := cacheUpdates + 1;
        if cacheUpdated {
          message, showSuccess := SubmitMessage(count, form.isEditing), true;
        } else {
          message, showError := FailureMessage(form.isEditing), true;
        }
    }

    /** handleSuccessModalClose: reset to the snapshot, then call `onClose`
        and `onSuccess`. */
    method SuccessClose()
      modifies this`showSuccess, this`form, this`focused, this`isViewMode, this`closeCalls, this`successCalls
      ensures !showSuccess && closeCalls == old(closeCalls) + 1 && successCalls == old(successCalls) + 1
      ensures form == Form(old(form).initial, old(form).initial, RemarksOf(subTypes, old(form).initial), {}, false)
      ensures focused == None && isViewMode == ViewMode(isDisabled, form.initial, subTypes)
    {
      showSuccess := false;
      Reset();
      closeCalls := closeCalls + 1;
      successCalls := successCalls + 1;
    }
  }
}
