/** The grouping of the booking list that src/screens/Test.js (lines
    100-129) and src/screens/LabBooking.js (lines 54-85) share: rows are
    gathered by lab name, a missing name becoming 'Unassigned Lab', and
    within a lab by activity name, a repeated activity only adding its
    equipment. */
module Bookings {
  import opened Common

  /** One row of the booking list as the API gives it. */
  datatype Row = Row(id: int, labName: Option<string>, activityName: JsField, eqName: JsField,
                     startTime: JsField, endTime: JsField, status: JsField, projectTitle: JsField,
                     bookingDate: JsField)

  datatype Activity = Activity(id: int, name: JsField, equipment: seq<JsField>, time: string,
                               status: JsField, projectTitle: JsField, bookingDate: JsField)

  datatype Lab = Lab(id: int, labName: string, activities: seq<Activity>)

  /** A field written into a template literal. */
  function FieldText(f: JsField): string
  {
    match f
    case Missing => "undefined"
    case Null => "null"
    case Str(s) => s
  }

  /** `item.lab_name || 'Unassigned Lab'`. */
  function LabOf(r: Row): string
  {
    OrDefault(r.labName, "Unassigned Lab")
  }

  /** The activity a row opens. */
  function NewActivity(r: Row): Activity
  {
    Activity(r.id, r.activityName, [r.eqName], FieldText(r.startTime) + " - " + FieldText(r.endTime),
             r.status, r.projectTitle, r.bookingDate)
  }

  function LabNames(labs: seq<Lab>): (r: seq<string>)
    ensures |r| == |labs|
  {
    seq(|labs|, i requires 0 <= i < |labs| => labs[i].labName)
  }

  function ActivityNames(acts: seq<Activity>): (r: seq<JsField>)
    ensures |r| == |acts|
  {
    seq(|acts|, i requires 0 <= i < |acts| => acts[i].name)
  }

  /** `acc.find(lab => lab.labName === name)`, as an index. */
  function LabIndex(labs: seq<Lab>, name: string): (r: Option<nat>)
    ensures r.Some? ==> r.value < |labs| && labs[r.value].labName == name
    ensures r.None? ==> name !in LabNames(labs)
  {
    if |labs| == 0 then None
    else if labs[0].labName == name then Some(0)
    else
      var rest := LabIndex(labs[1..], name);
      assert LabNames(labs) == [labs[0].labName] + LabNames(labs[1..]);
      if rest.Some? then Some(rest.value + 1) else None
  }

  /** `existingLab.activities.find(act => act.name === item.activity_name)`, as an index. */
  function ActivityIndex(acts: seq<Activity>, name: JsField): (r: Option<nat>)
    ensures r.Some? ==> r.value < |acts| && acts[r.value].name == name
    ensures r.None? ==> name !in ActivityNames(acts)
  {
    if |acts| == 0 then None
    else if acts[0].name == name then Some(0)
    else
      var rest := ActivityIndex(acts[1..], name);
      assert ActivityNames(acts) == [acts[0].name] + ActivityNames(acts[1..]);
      if rest.Some? then Some(rest.value + 1) else None
  }

  /** A row for an existing lab: more equipment for its activity, or a new activity. */
  function AddToLab(lab: Lab, r: Row): Lab
  {
    match ActivityIndex(lab.activities, r.activityName)
    case Some(ai) =>
      var a := lab.activities[ai];
      lab.(activities := lab.activities[ai := a.(equipment := a.equipment + [r.eqName])])
    case None => lab.(activities := lab.activities + [NewActivity(r)])
  }

  /** One step of the reduce. */
  function AddRow(labs: seq<Lab>, r: Row): seq<Lab>
  {
    match LabIndex(labs, LabOf(r))
    case Some(li) => labs[li := AddToLab(labs[li], r)]
    case None => labs + [Lab(r.id, LabOf(r), [NewActivity(r)])]
  }

  /** The reduce over the first `n` rows. */
  function Group(rows: seq<Row>, n: nat): seq<Lab>
    requires n <= |rows|
  {
    if n == 0 then [] else AddRow(Group(rows, n - 1), rows[n - 1])
  }

  /** The grouping loop, updating the accumulated labs in place. */
  method GroupBookings(rows: seq<Row>) returns (labs: seq<Lab>)
    ensures labs == Group(rows, |rows|)
  {
    labs := [];
    var k := 0;
    while k < |rows|
      invariant k <= |rows|
      invariant labs == Group(rows, k)
    {
      var item := rows[k];
      var labName := OrDefault(item.labName, "Unassigned Lab");
      var existingLab := LabIndex(labs, labName);
      var activity := NewActivity(item);
      if existingLab.Some? {
        var li := existingLab.value;
        var existingActivity := ActivityIndex(labs[li].activities, item.activityName);
        if existingActivity.Some? {
          var ai := existingActivity.value;
          var a := labs[li].activities[ai];
          labs := labs[li := labs[li].(activities := labs[li].activities[ai := a.(equipment := a.equipment + [item.eqName])])];
        } else {
          labs := labs[li := labs[li].(activities := labs[li].activities + [activity])];
        }
      } else {
        labs := labs + [Lab(item.id, labName, [activity])];
      }
      k := k + 1;
    }
  }

  // ---------------------------------------------------------------------------
  // What the grouping should hold, read off the rows.

  /** The lab names of the first `n` rows. */
  function RowLabNames(rows: seq<Row>, n: nat): (r: seq<string>)
    requires n <= |rows|
    ensures |r| == n
  {
    if n == 0 then [] else RowLabNames(rows, n - 1) + [LabOf(rows[n - 1])]
  }

  /** The activity names of the first `n` rows that belong to `lab`. */
  function ActNames(rows: seq<Row>, n: nat, lab: string): seq<JsField>
    requires n <= |rows|
  {
    if n == 0 then []
    else ActNames(rows, n - 1, lab) + (if LabOf(rows[n - 1]) == lab then [rows[n - 1].activityName] else [])
  }

  /** The equipment of the first `n` rows that belong to `lab` and `name`, in order. */
  function EquipmentOf(rows: seq<Row>, n: nat, lab: string, name: JsField): seq<JsField>
    requires n <= |rows|
  {
    if n == 0 then []
    else
      EquipmentOf(rows, n - 1, lab, name)
      + (if LabOf(rows[n - 1]) == lab && rows[n - 1].activityName == name then [rows[n - 1].eqName] else [])
  }

  /** The first of the first `n` rows that belongs to `lab`. */
  function FirstOfLab(rows: seq<Row>, n: nat, lab: string): (r: Option<nat>)
    requires n <= |rows|
    ensures r.Some? ==> r.value < n
  {
    if n == 0 then None
    else
      var prev := FirstOfLab(rows, n - 1, lab);
      if prev.Some? then prev else if LabOf(rows[n - 1]) == lab then Some(n - 1) else None
  }

  /** The first of the first `n` rows that belongs to `lab` and `name`. */
  function FirstOfActivity(rows: seq<Row>, n: nat, lab: string, name: JsField): (r: Option<nat>)
    requires n <= |rows|
    ensures r.Some? ==> r.value < n
  {
    if n == 0 then None
    else
      var prev := FirstOfActivity(rows, n - 1, lab, name);
      if prev.Some? then prev
      else if LabOf(rows[n - 1]) == lab && rows[n - 1].activityName == name then Some(n - 1) else None
  }

  /** An activity as built from the first `n` rows: the fields of its first
      row, and the equipment of all its rows. */
  predicate ActivityGrouped(a: Activity, lab: string, rows: seq<Row>, n: nat)
    requires n <= |rows|
  {
    var first := FirstOfActivity(rows, n, lab, a.name);
    first.Some? && a == NewActivity(rows[first.value]).(equipment := EquipmentOf(rows, n, lab, a.name))
  }

  /** A lab as built from the first `n` rows: the id of its first row, and
      one activity per distinct activity name among its rows, in order of
      first appearance. */
  predicate LabGrouped(lab: Lab, rows: seq<Row>, n: nat)
    requires n <= |rows|
  {
    var first := FirstOfLab(rows, n, lab.labName);
    first.Some? && lab.id == rows[first.value].id &&
    ActivityNames(lab.activities) == Distinct(ActNames(rows, n, lab.labName)) &&
    ActivitiesGrouped(lab.activities, lab.labName, rows, n)
  }

  predicate ActivitiesGrouped(acts: seq<Activity>, lab: string, rows: seq<Row>, n: nat)
    requires n <= |rows|
  {
    forall ai :: 0 <= ai < |acts| ==> ActivityGrouped(acts[ai], lab, rows, n)
  }

  /** The labs built from the first `n` rows: one per distinct lab name, in
      order of first appearance. */
  predicate GroupedBy(labs: seq<Lab>, rows: seq<Row>, n: nat)
    requires n <= |rows|
  {
    LabNames(labs) == Distinct(RowLabNames(rows, n)) && LabsGrouped(labs, rows, n)
  }

  predicate LabsGrouped(labs: seq<Lab>, rows: seq<Row>, n: nat)
    requires n <= |rows|
  {
    forall li :: 0 <= li < |labs| ==> LabGrouped(labs[li], rows, n)
  }

  // ---------------------------------------------------------------------------
  // The proof that the reduce builds that.

  /** A lab name none of the rows carries has no first row. */
  lemma {:induction false} AbsentLab(rows: seq<Row>, n: nat, lab: string)
    requires n <= |rows|
    requires lab !in RowLabNames(rows, n)
    ensures FirstOfLab(rows, n, lab).None?
  {
    if n > 0 {
      assert RowLabNames(rows, n) == RowLabNames(rows, n - 1) + [LabOf(rows[n - 1])];
      AbsentLab(rows, n - 1, lab);
    }
  }

  /** A lab without rows has neither activities nor equipment. */
  lemma {:induction false} NoRowOfLab(rows: seq<Row>, n: nat, lab: string, name: JsField)
    requires n <= |rows|
    requires FirstOfLab(rows, n, lab).None?
    ensures ActNames(rows, n, lab) == [] && EquipmentOf(rows, n, lab, name) == []
    ensures FirstOfActivity(rows, n, lab, name).None?
  {
    if n > 0 {
      NoRowOfLab(rows, n - 1, lab, name);
    }
  }

  /** An activity name none of the lab's rows carries has no first row. */
  lemma {:induction false} AbsentActivity(rows: seq<Row>, n: nat, lab: string, name: JsField)
    requires n <= |rows|
    requires name !in ActNames(rows, n, lab)
    ensures FirstOfActivity(rows, n, lab, name).None?
  {
    if n > 0 {
      AbsentActivity(rows, n - 1, lab, name);
    }
  }

  /** An activity without rows has no equipment. */
  lemma {:induction false} NoRowOfActivity(rows: seq<Row>, n: nat, lab: string, name: JsField)
    requires n <= |rows|
    requires FirstOfActivity(rows, n, lab, name).None?
    ensures EquipmentOf(rows, n, lab, name) == []
  {
    if n > 0 {
      NoRowOfActivity(rows, n - 1, lab, name);
    }
  }

  /** A row that is not of an activity leaves that activity's description as it was. */
  lemma OtherActivityRow(a: Activity, lab: string, rows: seq<Row>, n: nat)
    requires 0 < n <= |rows|
    requires LabOf(rows[n - 1]) != lab || rows[n - 1].activityName != a.name
    requires ActivityGrouped(a, lab, rows, n - 1)
    ensures ActivityGrouped(a, lab, rows, n)
  {
    assert EquipmentOf(rows, n, lab, a.name) == EquipmentOf(rows, n - 1, lab, a.name);
  }

  /** A row of an activity adds its equipment to it. */
  lemma SameActivityRow(a: Activity, lab: string, rows: seq<Row>, n: nat)
    requires 0 < n <= |rows|
    requires LabOf(rows[n - 1]) == lab && rows[n - 1].activityName == a.name
    requires ActivityGrouped(a, lab, rows, n - 1)
    ensures ActivityGrouped(a.(equipment := a.equipment + [rows[n - 1].eqName]), lab, rows, n)
  {
  }

  /** The first row of an activity opens it. */
  lemma FirstActivityRow(lab: string, rows: seq<Row>, n: nat)
    requires 0 < n <= |rows|
    requires LabOf(rows[n - 1]) == lab
    requires rows[n - 1].activityName !in ActNames(rows, n - 1, lab)
    ensures ActivityGrouped(NewActivity(rows[n - 1]), lab, rows, n)
  {
    var r := rows[n - 1];
    AbsentActivity(rows, n - 1, lab, r.activityName);
    NoRowOfActivity(rows, n - 1, lab, r.activityName);
    assert FirstOfActivity(rows, n, lab, r.activityName) == Some(n - 1);
    assert EquipmentOf(rows, n, lab, r.activityName) == [r.eqName];
  }

  /** A row of another lab leaves a lab's description as it was. */
  lemma OtherLabRow(lab: Lab, rows: seq<Row>, n: nat)
    requires 0 < n <= |rows|
    requires LabOf(rows[n - 1]) != lab.labName
    requires LabGrouped(lab, rows, n - 1)
    ensures LabGrouped(lab, rows, n)
  {
    assert ActNames(rows, n, lab.labName) == ActNames(rows, n - 1, lab.labName);
    forall ai | 0 <= ai < |lab.activities|
      ensures ActivityGrouped(lab.activities[ai], lab.labName, rows, n)
    {
      OtherActivityRow(lab.activities[ai], lab.labName, rows, n);
    }
  }

  /** The row's activity is not yet in the lab: it is appended. */
  lemma NewActivityRow(lab: Lab, rows: seq<Row>, n: nat)
    requires 0 < n <= |rows|
    requires LabOf(rows[n - 1]) == lab.labName
    requires rows[n - 1].activityName !in ActivityNames(lab.activities)
    requires LabGrouped(lab, rows, n - 1)
    ensures LabGrouped(lab.(activities := lab.activities + [NewActivity(rows[n - 1])]), rows, n)
  {
    var r := rows[n - 1];
    var L := lab.labName;
    var acts := lab.activities + [NewActivity(r)];
    assert FirstOfLab(rows, n, L) == FirstOfLab(rows, n - 1, L);
    DistinctHas(ActNames(rows, n - 1, L), r.activityName);
    DistinctSnoc(ActNames(rows, n - 1, L), r.activityName);
    assert ActivityNames(acts) == ActivityNames(lab.activities) + [r.activityName];
    NewActivityActivities(lab.activities, L, rows, n);
  }

  lemma NewActivityActivities(acts: seq<Activity>, L: string, rows: seq<Row>, n: nat)
    requires 0 < n <= |rows|
    requires LabOf(rows[n - 1]) == L
    requires rows[n - 1].activityName !in ActNames(rows, n - 1, L)
    requires rows[n - 1].activityName !in ActivityNames(acts)
    requires ActivitiesGrouped(acts, L, rows, n - 1)
    ensures ActivitiesGrouped(acts + [NewActivity(rows[n - 1])], L, rows, n)
  {
    var cur := acts + [NewActivity(rows[n - 1])];
    forall ai | 0 <= ai < |cur|
      ensures ActivityGrouped(cur[ai], L, rows, n)
    {
      if ai == |acts| {
        FirstActivityRow(L, rows, n);
      } else {
        assert cur[ai] == acts[ai];
        assert acts[ai].name == ActivityNames(acts)[ai];
        OtherActivityRow(acts[ai], L, rows, n);
      }
    }
  }

  /** The row's activity is already in the lab: its equipment grows. */
  lemma MoreEquipmentRow(lab: Lab, rows: seq<Row>, n: nat, ai: nat)
    requires 0 < n <= |rows|
    requires LabOf(rows[n - 1]) == lab.labName
    requires ai < |lab.activities| && lab.activities[ai].name == rows[n - 1].activityName
    requires LabGrouped(lab, rows, n - 1)
    ensures var a := lab.activities[ai];
      LabGrouped(lab.(activities := lab.activities[ai := a.(equipment := a.equipment + [rows[n - 1].eqName])]), rows, n)
  {
    var r := rows[n - 1];
    var L := lab.labName;
    var a := lab.activities[ai];
    var acts := lab.activities[ai := a.(equipment := a.equipment + [r.eqName])];
    assert FirstOfLab(rows, n, L) == FirstOfLab(rows, n - 1, L);
    assert r.activityName in ActNames(rows, n - 1, L) by {
      assert ActivityNames(lab.activities)[ai] == r.activityName;
      DistinctHas(ActNames(rows, n - 1, L), r.activityName);
    }
    DistinctSnoc(ActNames(rows, n - 1, L), r.activityName);
    assert ActivityNames(acts) == ActivityNames(lab.activities);
    MoreEquipmentActivities(lab, rows, n, ai);
  }

  lemma MoreEquipmentActivities(lab: Lab, rows: seq<Row>, n: nat, ai: nat)
    requires 0 < n <= |rows|
    requires LabOf(rows[n - 1]) == lab.labName
    requires ai < |lab.activities| && lab.activities[ai].name == rows[n - 1].activityName
    requires LabGrouped(lab, rows, n - 1)
    ensures var a := lab.activities[ai];
      ActivitiesGrouped(lab.activities[ai := a.(equipment := a.equipment + [rows[n - 1].eqName])], lab.labName, rows, n)
  {
    var a := lab.activities[ai];
    var acts := lab.activities[ai := a.(equipment := a.equipment + [rows[n - 1].eqName])];
    forall bi | 0 <= bi < |acts|
      ensures ActivityGrouped(acts[bi], lab.labName, rows, n)
    {
      if bi == ai {
        SameActivityRow(a, lab.labName, rows, n);
      } else {
        assert acts[bi] == lab.activities[bi];
        SiblingActivityRow(lab, rows, n, ai, bi);
      }
    }
  }

  /** A row of one activity leaves the lab's other activities as they were. */
  lemma SiblingActivityRow(lab: Lab, rows: seq<Row>, n: nat, ai: nat, bi: nat)
    requires 0 < n <= |rows|
    requires LabOf(rows[n - 1]) == lab.labName
    requires ai < |lab.activities| && lab.activities[ai].name == rows[n - 1].activityName
    requires bi < |lab.activities| && bi != ai
    requires LabGrouped(lab, rows, n - 1)
    ensures ActivityGrouped(lab.activities[bi], lab.labName, rows, n)
  {
    var names := ActivityNames(lab.activities);
    var acts := ActNames(rows, n - 1, lab.labName);
    if bi < ai {
      DistinctNoRepeats(acts, bi, ai);
    } else {
      DistinctNoRepeats(acts, ai, bi);
    }
    assert lab.activities[bi].name == names[bi] != names[ai] == rows[n - 1].activityName;
    OtherActivityRow(lab.activities[bi], lab.labName, rows, n);
  }

  /** The row opens a new lab. */
  lemma NewLabRow(rows: seq<Row>, n: nat)
    requires 0 < n <= |rows|
    requires LabOf(rows[n - 1]) !in RowLabNames(rows, n - 1)
    ensures LabGrouped(Lab(rows[n - 1].id, LabOf(rows[n - 1]), [NewActivity(rows[n - 1])]), rows, n)
  {
    var r := rows[n - 1];
    var L := LabOf(r);
    AbsentLab(rows, n - 1, L);
    NoRowOfLab(rows, n - 1, L, r.activityName);
    assert ActNames(rows, n - 1, L) == [];
    assert ActNames(rows, n, L) == [r.activityName];
    assert Distinct([r.activityName]) == [r.activityName];
    assert ActivityNames([NewActivity(r)]) == [r.activityName];
    FirstActivityRow(L, rows, n);
  }

  /** A row of a lab already there updates that lab faithfully. */
  lemma SameLabRow(lab: Lab, rows: seq<Row>, n: nat)
    requires 0 < n <= |rows|
    requires LabOf(rows[n - 1]) == lab.labName
    requires LabGrouped(lab, rows, n - 1)
    ensures LabGrouped(AddToLab(lab, rows[n - 1]), rows, n)
  {
    var found := ActivityIndex(lab.activities, rows[n - 1].activityName);
    if found.Some? {
      MoreEquipmentRow(lab, rows, n, found.value);
    } else {
      NewActivityRow(lab, rows, n);
    }
    assert AddToLab(lab, rows[n - 1]) == if found.Some? then
        var a := lab.activities[found.value];
        lab.(activities := lab.activities[found.value := a.(equipment := a.equipment + [rows[n - 1].eqName])])
      else lab.(activities := lab.activities + [NewActivity(rows[n - 1])]);
  }

  /** A row of one lab leaves the other labs as they were. */
  lemma SiblingLabRow(labs: seq<Lab>, rows: seq<Row>, n: nat, li: nat, lj: nat)
    requires 0 < n <= |rows|
    requires LabNames(labs) == Distinct(RowLabNames(rows, n - 1))
    requires li < |labs| && labs[li].labName == LabOf(rows[n - 1])
    requires lj < |labs| && lj != li
    requires LabGrouped(labs[lj], rows, n - 1)
    ensures LabGrouped(labs[lj], rows, n)
  {
    var names := LabNames(labs);
    if lj < li {
      DistinctNoRepeats(RowLabNames(rows, n - 1), lj, li);
    } else {
      DistinctNoRepeats(RowLabNames(rows, n - 1), li, lj);
    }
    assert labs[lj].labName == names[lj] != names[li] == LabOf(rows[n - 1]);
    OtherLabRow(labs[lj], rows, n);
  }

  /** The row goes to a lab that is already there. */
  lemma ExistingLabStep(labs: seq<Lab>, rows: seq<Row>, n: nat, li: nat)
    requires 0 < n <= |rows|
    requires GroupedBy(labs, rows, n - 1)
    requires li < |labs| && labs[li].labName == LabOf(rows[n - 1])
    ensures GroupedBy(labs[li := AddToLab(labs[li], rows[n - 1])], rows, n)
  {
    ExistingLabNames(labs, rows, n, li, AddToLab(labs[li], rows[n - 1]));
    ExistingLabLabs(labs, rows, n, li);
  }

  lemma ExistingLabNames(labs: seq<Lab>, rows: seq<Row>, n: nat, li: nat, lab: Lab)
    requires 0 < n <= |rows|
    requires LabNames(labs) == Distinct(RowLabNames(rows, n - 1))
    requires li < |labs| && labs[li].labName == LabOf(rows[n - 1]) == lab.labName
    ensures LabNames(labs[li := lab]) == Distinct(RowLabNames(rows, n))
  {
    var L := LabOf(rows[n - 1]);
    assert L in RowLabNames(rows, n - 1) by {
      assert LabNames(labs)[li] == L;
      DistinctHas(RowLabNames(rows, n - 1), L);
    }
    DistinctSnoc(RowLabNames(rows, n - 1), L);
    assert LabNames(labs[li := lab]) == LabNames(labs);
  }

  lemma ExistingLabLabs(labs: seq<Lab>, rows: seq<Row>, n: nat, li: nat)
    requires 0 < n <= |rows|
    requires GroupedBy(labs, rows, n - 1)
    requires li < |labs| && labs[li].labName == LabOf(rows[n - 1])
    ensures LabsGrouped(labs[li := AddToLab(labs[li], rows[n - 1])], rows, n)
  {
    var cur := labs[li := AddToLab(labs[li], rows[n - 1])];
    forall lj | 0 <= lj < |cur|
      ensures LabGrouped(cur[lj], rows, n)
    {
      if lj == li {
        SameLabRow(labs[li], rows, n);
      } else {
        assert cur[lj] == labs[lj];
        SiblingLabRow(labs, rows, n, li, lj);
      }
    }
  }

  /** The row opens a lab after the ones already there. */
  lemma NewLabStep(labs: seq<Lab>, rows: seq<Row>, n: nat)
    requires 0 < n <= |rows|
    requires GroupedBy(labs, rows, n - 1)
    requires LabOf(rows[n - 1]) !in LabNames(labs)
    ensures GroupedBy(labs + [Lab(rows[n - 1].id, LabOf(rows[n - 1]), [NewActivity(rows[n - 1])])], rows, n)
  {
    var r := rows[n - 1];
    NewLabNames(labs, rows, n, Lab(r.id, LabOf(r), [NewActivity(r)]));
    DistinctHas(RowLabNames(rows, n - 1), LabOf(r));
    NewLabLabs(labs, rows, n);
  }

  lemma NewLabNames(labs: seq<Lab>, rows: seq<Row>, n: nat, lab: Lab)
    requires 0 < n <= |rows|
    requires LabNames(labs) == Distinct(RowLabNames(rows, n - 1))
    requires LabOf(rows[n - 1]) !in LabNames(labs)
    requires lab.labName == LabOf(rows[n - 1])
    ensures LabNames(labs + [lab]) == Distinct(RowLabNames(rows, n))
  {
    var L := LabOf(rows[n - 1]);
    DistinctHas(RowLabNames(rows, n - 1), L);
    DistinctSnoc(RowLabNames(rows, n - 1), L);
    assert LabNames(labs + [lab]) == LabNames(labs) + [L];
  }

  lemma NewLabLabs(labs: seq<Lab>, rows: seq<Row>, n: nat)
    requires 0 < n <= |rows|
    requires LabsGrouped(labs, rows, n - 1)
    requires LabOf(rows[n - 1]) !in LabNames(labs)
    requires LabOf(rows[n - 1]) !in RowLabNames(rows, n - 1)
    ensures LabsGrouped(labs + [Lab(rows[n - 1].id, LabOf(rows[n - 1]), [NewActivity(rows[n - 1])])], rows, n)
  {
    var r := rows[n - 1];
    var cur := labs + [Lab(r.id, LabOf(r), [NewActivity(r)])];
    forall lj | 0 <= lj < |cur|
      ensures LabGrouped(cur[lj], rows, n)
    {
      if lj == |labs| {
        NewLabRow(rows, n);
      } else {
        assert cur[lj] == labs[lj];
        assert labs[lj].labName == LabNames(labs)[lj];
        OtherLabRow(labs[lj], rows, n);
      }
    }
  }

  /** One reduce step keeps the grouping faithful to the rows read so far. */
  lemma AddRowStep(labs: seq<Lab>, rows: seq<Row>, n: nat)
    requires 0 < n <= |rows|
    requires GroupedBy(labs, rows, n - 1)
    ensures GroupedBy(AddRow(labs, rows[n - 1]), rows, n)
  {
    var found := LabIndex(labs, LabOf(rows[n - 1]));
    if found.Some? {
      ExistingLabStep(labs, rows, n, found.value);
    } else {
      NewLabStep(labs, rows, n);
    }
  }

  /** The reduce yields one lab per distinct lab name in order of first
      appearance, carrying the id of its first row; within it one activity
      per distinct activity name of its rows in order of first appearance,
      carrying the fields of its first row and the equipment of all its
      rows in input order. */
  lemma {:induction false} GroupSpec(rows: seq<Row>, n: nat)
    requires n <= |rows|
    ensures GroupedBy(Group(rows, n), rows, n)
  {
    if n > 0 {
      GroupSpec(rows, n - 1);
      AddRowStep(Group(rows, n - 1), rows, n);
    }
  }

  // ---------------------------------------------------------------------------
  // Every row's equipment is kept.

  /** The equipment entries of `acts[i..]`. */
  function ActivitiesEquipment(acts: seq<Activity>, i: nat): nat
    requires i <= |acts|
    decreases |acts| - i
  {
    if i == |acts| then 0 else |acts[i].equipment| + ActivitiesEquipment(acts, i + 1)
  }

  /** The equipment entries of `labs[i..]`. */
  function TotalEquipment(labs: seq<Lab>, i: nat): nat
    requires i <= |labs|
    decreases |labs| - i
  {
    if i == |labs| then 0 else ActivitiesEquipment(labs[i].activities, 0) + TotalEquipment(labs, i + 1)
  }

  lemma {:induction false} ActivitiesEquipmentUpdate(acts: seq<Activity>, k: nat, a: Activity, i: nat)
    requires i <= k < |acts|
    ensures ActivitiesEquipment(acts[k := a], i) == ActivitiesEquipment(acts, i) - |acts[k].equipment| + |a.equipment|
    decreases k - i
  {
    if i < k {
      ActivitiesEquipmentUpdate(acts, k, a, i + 1);
    } else {
      ActivitiesEquipmentBeyond(acts, k, a, k + 1);
    }
  }

  lemma {:induction false} ActivitiesEquipmentBeyond(acts: seq<Activity>, k: nat, a: Activity, i: nat)
    requires k < i <= |acts|
    ensures ActivitiesEquipment(acts[k := a], i) == ActivitiesEquipment(acts, i)
    decreases |acts| - i
  {
    if i < |acts| {
      ActivitiesEquipmentBeyond(acts, k, a, i + 1);
    }
  }

  lemma {:induction false} ActivitiesEquipmentSnoc(acts: seq<Activity>, a: Activity, i: nat)
    requires i <= |acts|
    ensures ActivitiesEquipment(acts + [a], i) == ActivitiesEquipment(acts, i) + |a.equipment|
    decreases |acts| - i
  {
    if i < |acts| {
      ActivitiesEquipmentSnoc(acts, a, i + 1);
    }
  }

  lemma {:induction false} TotalEquipmentUpdate(labs: seq<Lab>, k: nat, lab: Lab, i: nat)
    requires i <= k < |labs|
    ensures TotalEquipment(labs[k := lab], i) ==
      TotalEquipment(labs, i) - ActivitiesEquipment(labs[k].activities, 0) + ActivitiesEquipment(lab.activities, 0)
    decreases k - i
  {
    if i < k {
      TotalEquipmentUpdate(labs, k, lab, i + 1);
    } else {
      TotalEquipmentBeyond(labs, k, lab, k + 1);
    }
  }

  lemma {:induction false} TotalEquipmentBeyond(labs: seq<Lab>, k: nat, lab: Lab, i: nat)
    requires k < i <= |labs|
    ensures TotalEquipment(labs[k := lab], i) == TotalEquipment(labs, i)
    decreases |labs| - i
  {
    if i < |labs| {
      TotalEquipmentBeyond(labs, k, lab, i + 1);
    }
  }

  lemma {:induction false} TotalEquipmentSnoc(labs: seq<Lab>, lab: Lab, i: nat)
    requires i <= |labs|
    ensures TotalEquipment(labs + [lab], i) == TotalEquipment(labs, i) + ActivitiesEquipment(lab.activities, 0)
    decreases |labs| - i
  {
    if i < |labs| {
      TotalEquipmentSnoc(labs, lab, i + 1);
    }
  }

  /** One reduce step keeps one more equipment entry. */
  lemma AddRowAddsOne(labs: seq<Lab>, r: Row)
    ensures TotalEquipment(AddRow(labs, r), 0) == TotalEquipment(labs, 0) + 1
  {
    var foundLab := LabIndex(labs, LabOf(r));
    if foundLab.Some? {
      var li := foundLab.value;
      var lab := labs[li];
      var foundActivity := ActivityIndex(lab.activities, r.activityName);
      if foundActivity.Some? {
        var ai := foundActivity.value;
        var a := lab.activities[ai];
        ActivitiesEquipmentUpdate(lab.activities, ai, a.(equipment := a.equipment + [r.eqName]), 0);
      } else {
        ActivitiesEquipmentSnoc(lab.activities, NewActivity(r), 0);
      }
      TotalEquipmentUpdate(labs, li, AddToLab(lab, r), 0);
    } else {
      TotalEquipmentSnoc(labs, Lab(r.id, LabOf(r), [NewActivity(r)]), 0);
    }
  }

  /** The equipment entries across all labs are exactly as many as the rows. */
  lemma {:induction false} EquipmentCount(rows: seq<Row>, n: nat)
    requires n <= |rows|
    ensures TotalEquipment(Group(rows, n), 0) == n
  {
    if n > 0 {
      var prev := Group(rows, n - 1);
      EquipmentCount(rows, n - 1);
      AddRowAddsOne(prev, rows[n - 1]);
    }
  }

  // ---------------------------------------------------------------------------
  // Fetching.

  /** The booking request: it fails, or answers with a `data` field that
      may be missing. */
  datatype Fetch = Failed | Answered(data: Option<seq<Row>>)

  /** The rows `res.data || []` gives. */
  function RowsOf(f: Fetch): seq<Row>
    requires f.Answered?
  {
    if f.data.Some? then f.data.value else []
  }

  /** What `setBookings` receives: nothing when the request throws, else
      the grouping of the answered rows, which keeps every row's
      equipment. */
  function Fetched(f: Fetch): (labs: seq<Lab>)
    ensures f.Failed? ==> labs == []
    ensures f.Answered? ==> GroupedBy(labs, RowsOf(f), |RowsOf(f)|)
    ensures f.Answered? ==> TotalEquipment(labs, 0) == |RowsOf(f)|
  {
    match f
    case Failed => []
    case Answered(_) =>
      var rows := RowsOf(f);
      GroupSpec(rows, |rows|);
      EquipmentCount(rows, |rows|);
      Group(rows, |rows|)
  }
}
