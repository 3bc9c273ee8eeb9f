/** The study-result screen (src/screens/StudyResult.js): for one project
    it validates the group, test and tab it was opened with, lists the
    occurrences of the project's tests under the selected tab (Today,
    Upcoming, Overdue or Completed) for every group a test is attributed
    to, keeps those of the selected group, gathers them by group name and
    orders the groups. `getTestSchedule` and `getCompletionStatus` are
    inputs; dates are day numbers. */
module StudyResult {
  import opened Common
  import opened CaptureRecords
  import opened ProjectContext
  import Calendar

  /** CURRENT_DATE, the fixed date 2025-06-14, as a day number. */
  const CurrentDay: int := 20253

  lemma CurrentDayIsJune14()
    ensures Calendar.ValidCivil(Calendar.Civil(2025, 6, 14))
    ensures Calendar.DayFromCivil(Calendar.Civil(2025, 6, 14)) == CurrentDay
  {
  }

  // ---------------------------------------------------------------------------
  // The opening parameters.

  datatype Tab = Today | Upcoming | Overdue | Completed

  const TabNames: seq<string> := ["Today", "Upcoming", "Overdue", "Completed"]

  function TabName(t: Tab): string
  {
    match t
    case Today => "Today"
    case Upcoming => "Upcoming"
    case Overdue => "Overdue"
    case Completed => "Completed"
  }

  /** `tabs.includes(initialTab) ? initialTab : 'Today'`: a tab the screen
      was opened with is kept exactly when it names one of the four tabs. */
  function ValidInitialTab(initialTab: Option<string>): (r: Tab)
    ensures initialTab.Some? && initialTab.value in TabNames ==> TabName(r) == initialTab.value
    ensures !(initialTab.Some? && initialTab.value in TabNames) ==> r == Today
  {
    if initialTab == Some("Upcoming") then Upcoming
    else if initialTab == Some("Overdue") then Overdue
    else if initialTab == Some("Completed") then Completed
    else Today
  }

  predicate HasStudyType(groups: seq<Group>, name: string)
  {
    exists i | 0 <= i < |groups| :: groups[i].studyType == name
  }

  predicate HasTestNamed(tests: seq<TestType>, name: string)
  {
    exists i | 0 <= i < |tests| :: tests[i].name == name
  }

  /** The group selection: 'All' or the study type of one of the project's groups. */
  predicate GroupSelectable(groups: seq<Group>, group: string)
  {
    group == "All" || HasStudyType(groups, group)
  }

  /** The test selection: 'All' or the name of one of the project's tests. */
  predicate TestSelectable(tests: seq<TestType>, test: string)
  {
    test == "All" || HasTestNamed(tests, test)
  }

  /** validInitialGroup: the group the screen was opened with is kept
      exactly when one of the project's groups has that study type. */
  function ValidInitialGroup(groups: seq<Group>, initialGroup: Option<string>): (r: string)
    ensures GroupSelectable(groups, r)
    ensures initialGroup.Some? && HasStudyType(groups, initialGroup.value) ==> r == initialGroup.value
    ensures !(initialGroup.Some? && HasStudyType(groups, initialGroup.value)) ==> r == "All"
  {
    if initialGroup.Some? && HasStudyType(groups, initialGroup.value) then initialGroup.value else "All"
  }

  /** validInitialTest: a non-empty test parameter is kept when it is 'All'
      or names one of the project's tests. */
  function ValidInitialTest(tests: seq<TestType>, initialTest: Option<string>): (r: string)
    ensures TestSelectable(tests, r)
    ensures Truthy(initialTest) && TestSelectable(tests, initialTest.value) ==> r == initialTest.value
    ensures !(Truthy(initialTest) && TestSelectable(tests, initialTest.value)) ==> r == "All"
  {
    if Truthy(initialTest) && TestSelectable(tests, initialTest.value) then initialTest.value else "All"
  }

  /** The validation effect's rule for the group: an unknown group falls back to 'All'. */
  function RevalidGroup(groups: seq<Group>, group: string): (r: string)
  {
    if !GroupSelectable(groups, group) && group != "All" then "All" else group
  }

  /** The validation effect's rule for the test. */
  function RevalidTest(tests: seq<TestType>, test: string): (r: string)
  {
    if !TestSelectable(tests, test) && test != "All" then "All" else test
  }

  /** The validation effect always leaves a selectable group and test, it
      changes nothing that is already selectable (so it never undoes the
      validated opening parameters), and it is idempotent. */
  lemma RevalidationSettles(groups: seq<Group>, tests: seq<TestType>, group: string, test: string)
    ensures GroupSelectable(groups, RevalidGroup(groups, group))
    ensures TestSelectable(tests, RevalidTest(tests, test))
    ensures GroupSelectable(groups, group) ==> RevalidGroup(groups, group) == group
    ensures TestSelectable(tests, test) ==> RevalidTest(tests, test) == test
    ensures RevalidGroup(groups, RevalidGroup(groups, group)) == RevalidGroup(groups, group)
    ensures RevalidTest(tests, RevalidTest(tests, test)) == RevalidTest(tests, test)
  {
  }

  lemma OpeningSelectionIsStable(groups: seq<Group>, tests: seq<TestType>,
                                 initialGroup: Option<string>, initialTest: Option<string>)
    ensures var g := ValidInitialGroup(groups, initialGroup);
      RevalidGroup(groups, g) == g
    ensures var t := ValidInitialTest(tests, initialTest);
      RevalidTest(tests, t) == t
  {
    RevalidationSettles(groups, tests, ValidInitialGroup(groups, initialGroup), ValidInitialTest(tests, initialTest));
  }

  // ---------------------------------------------------------------------------
  // The inputs of the listing effect.

  /** What `getTestSchedule(test, CURRENT_DATE)` gives. */
  datatype Schedule = Schedule(status: string, scheduleDates: seq<int>, nextScheduleDate: Option<int>,
                               frequencyLabel: string)

  /** The project reference, its groups, today's tasks, and the two context
      functions: the schedule of a test, and the completion status of a
      (group id, test id, day). */
  datatype Inputs = Inputs(ref: string, groups: seq<Group>, tasks: seq<Task>,
                           schedule: TestType -> Schedule, completion: (int, int, int) -> Completion)

  /** A group a test is listed for: its study type and group id. */
  datatype GroupRef = GroupRef(studyType: string, groupId: int)

  /** The `occurrenceId` of an entry: none, `${id}-next`, or `${id}-${index}`. */
  datatype Occurrence = Plain | Next | AtIndex(index: nat)

  /** One element of `testsWithDetails`. */
  datatype Entry = Entry(test: TestType, status: string, day: int, groupName: string, groupId: int,
                         frequencyLabel: string, completion: Completion, occurrence: Occurrence)

  /** A task of this project that references the test. */
  predicate Refers(task: Task, ref: string, test: TestType)
  {
    task.projectCode == ref && task.test.id == test.id
  }

  /** `associatedGroups`, over the first `n` tasks. */
  function AssociatedGroups(tasks: seq<Task>, ref: string, test: TestType, n: nat): (r: seq<GroupRef>)
    requires n <= |tasks|
    ensures |r| <= n
  {
    if n == 0 then []
    else
      AssociatedGroups(tasks, ref, test, n - 1)
      + (if Refers(tasks[n - 1], ref, test)
         then [GroupRef(tasks[n - 1].group.studyType, tasks[n - 1].group.groupId)] else [])
  }

  /** Exactly the groups of the referencing tasks are associated. */
  lemma {:induction false} AssociatedGroupsSpec(tasks: seq<Task>, ref: string, test: TestType, n: nat, g: GroupRef)
    requires n <= |tasks|
    ensures g in AssociatedGroups(tasks, ref, test, n) <==>
      exists i :: 0 <= i < n && Refers(tasks[i], ref, test) &&
        g == GroupRef(tasks[i].group.studyType, tasks[i].group.groupId)
  {
    if n > 0 {
      AssociatedGroupsSpec(tasks, ref, test, n - 1, g);
    }
  }

  lemma {:induction false} NoReferenceNoAssociation(tasks: seq<Task>, ref: string, test: TestType, n: nat)
    requires n <= |tasks|
    requires forall i :: 0 <= i < n ==> !Refers(tasks[i], ref, test)
    ensures AssociatedGroups(tasks, ref, test, n) == []
  {
    if n > 0 {
      NoReferenceNoAssociation(tasks, ref, test, n - 1);
    }
  }

  function GroupRefs(groups: seq<Group>): (r: seq<GroupRef>)
    ensures |r| == |groups|
    ensures forall i :: 0 <= i < |groups| ==> r[i] == GroupRef(groups[i].studyType, groups[i].groupId)
  {
    if |groups| == 0 then []
    else GroupRefs(groups[..|groups| - 1]) + [GroupRef(groups[|groups| - 1].studyType, groups[|groups| - 1].groupId)]
  }

  /** `groupInfo`: the associated groups, or every group of the project when none is. */
  function GroupInfo(inputs: Inputs, test: TestType): seq<GroupRef>
  {
    var assoc := AssociatedGroups(inputs.tasks, inputs.ref, test, |inputs.tasks|);
    if |assoc| > 0 then assoc else GroupRefs(inputs.groups)
  }

  /** A test no task of today references is attributed to every group of
      the project; a referenced test only to the groups of its referencing
      tasks. */
  lemma GroupInfoSpec(inputs: Inputs, test: TestType)
    ensures (forall i :: 0 <= i < |inputs.tasks| ==> !Refers(inputs.tasks[i], inputs.ref, test)) ==>
      GroupInfo(inputs, test) == GroupRefs(inputs.groups)
    ensures forall k :: 0 <= k < |inputs.tasks| && Refers(inputs.tasks[k], inputs.ref, test) ==>
      forall g :: g in GroupInfo(inputs, test) <==>
        exists i :: 0 <= i < |inputs.tasks| && Refers(inputs.tasks[i], inputs.ref, test) &&
          g == GroupRef(inputs.tasks[i].group.studyType, inputs.tasks[i].group.groupId)
  {
    var tasks, n := inputs.tasks, |inputs.tasks|;
    if forall i :: 0 <= i < n ==> !Refers(tasks[i], inputs.ref, test) {
      NoReferenceNoAssociation(tasks, inputs.ref, test, n);
    }
    forall k, g | 0 <= k < n && Refers(tasks[k], inputs.ref, test)
      ensures g in GroupInfo(inputs, test) <==>
        exists i :: 0 <= i < n && Refers(tasks[i], inputs.ref, test) &&
          g == GroupRef(tasks[i].group.studyType, tasks[i].group.groupId)
    {
      var gk := GroupRef(tasks[k].group.studyType, tasks[k].group.groupId);
      AssociatedGroupsSpec(tasks, inputs.ref, test, n, gk);
      AssociatedGroupsSpec(tasks, inputs.ref, test, n, g);
    }
  }

  // ---------------------------------------------------------------------------
  // The entries of one test.

  /** What one push shares across the attributed groups: the test, the
      status and day it shows, its frequency tag and occurrence, and the
      completion status an entry must have to be pushed, if any. */
  datatype Slot = Slot(test: TestType, status: string, day: int, frequencyLabel: string,
                       occurrence: Occurrence, wanted: Option<string>)

  function EntryFor(slot: Slot, g: GroupRef, completion: (int, int, int) -> Completion): Entry
  {
    Entry(slot.test, slot.status, slot.day, g.studyType, g.groupId, slot.frequencyLabel,
          completion(g.groupId, slot.test.id, slot.day), slot.occurrence)
  }

  predicate Pushed(slot: Slot, g: GroupRef, completion: (int, int, int) -> Completion)
  {
    slot.wanted.None? || completion(g.groupId, slot.test.id, slot.day).status == slot.wanted.value
  }

  /** `groupInfo.forEach(...)`: one entry per attributed group, or only
      those whose completion status is the wanted one. */
  function SlotEntries(slot: Slot, gs: seq<GroupRef>, completion: (int, int, int) -> Completion): (r: seq<Entry>)
    ensures |r| <= |gs|
    ensures slot.wanted.None? ==> |r| == |gs|
  {
    if |gs| == 0 then []
    else
      var g := gs[|gs| - 1];
      SlotEntries(slot, gs[..|gs| - 1], completion) + (if Pushed(slot, g, completion) then [EntryFor(slot, g, completion)] else [])
  }

  /** Every entry of a push carries the slot's test, status, day, label and
      occurrence, one of the attributed groups, and that group's completion
      status at the day, which is the wanted one when there is one. */
  predicate FromSlot(e: Entry, slot: Slot, gs: seq<GroupRef>, completion: (int, int, int) -> Completion)
  {
    e.test == slot.test && e.status == slot.status && e.day == slot.day &&
    e.frequencyLabel == slot.frequencyLabel && e.occurrence == slot.occurrence &&
    GroupRef(e.groupName, e.groupId) in gs && e.completion == completion(e.groupId, slot.test.id, slot.day) &&
    (slot.wanted.Some? ==> e.completion.status == slot.wanted.value)
  }

  lemma {:induction false} SlotEntriesFit(slot: Slot, gs: seq<GroupRef>, completion: (int, int, int) -> Completion)
    ensures forall e :: e in SlotEntries(slot, gs, completion) ==> FromSlot(e, slot, gs, completion)
  {
    if |gs| > 0 {
      var init := gs[..|gs| - 1];
      SlotEntriesFit(slot, init, completion);
      assert forall g :: g in init ==> g in gs;
    }
  }

  /** The Overdue and Completed branches: the schedule dates among the
      first `n` that lie before today, each for every attributed group whose
      completion status at that date is the wanted one. */
  function DatedEntries(test: TestType, sched: Schedule, gs: seq<GroupRef>, completion: (int, int, int) -> Completion,
                        tag: string, n: nat): seq<Entry>
    requires n <= |sched.scheduleDates|
  {
    if n == 0 then []
    else
      var date := sched.scheduleDates[n - 1];
      DatedEntries(test, sched, gs, completion, tag, n - 1)
      + (if date < CurrentDay then SlotEntries(DateSlot(test, sched, tag, n - 1), gs, completion) else [])
  }

  lemma DatedStep(acc: seq<Entry>, test: TestType, sched: Schedule, gs: seq<GroupRef>, completion: (int, int, int) -> Completion,
                  tag: string, k: nat)
    requires k < |sched.scheduleDates|
    ensures acc + DatedEntries(test, sched, gs, completion, tag, k + 1) ==
      acc + DatedEntries(test, sched, gs, completion, tag, k)
      + (if sched.scheduleDates[k] < CurrentDay then SlotEntries(DateSlot(test, sched, tag, k), gs, completion) else [])
  {
  }

  /** The push for the schedule date at `index`. */
  function DateSlot(test: TestType, sched: Schedule, tag: string, index: nat): Slot
    requires index < |sched.scheduleDates|
  {
    Slot(test, tag, sched.scheduleDates[index], sched.frequencyLabel, AtIndex(index),
         Some(if tag == "Overdue" then "Pending" else tag))
  }

  /** A dated entry shows one of the first `n` schedule dates, lying before
      today, for an attributed group whose completion status at that date is
      'Pending' under Overdue and the tag itself otherwise. */
  lemma {:induction false} DatedEntriesFit(test: TestType, sched: Schedule, gs: seq<GroupRef>,
                                           completion: (int, int, int) -> Completion, tag: string, n: nat)
    requires n <= |sched.scheduleDates|
    ensures forall e :: e in DatedEntries(test, sched, gs, completion, tag, n) ==>
      e.test == test && e.status == tag && e.day < CurrentDay && e.frequencyLabel == sched.frequencyLabel &&
      e.occurrence.AtIndex? && e.occurrence.index < n && sched.scheduleDates[e.occurrence.index] == e.day &&
      GroupRef(e.groupName, e.groupId) in gs && e.completion == completion(e.groupId, test.id, e.day) &&
      e.completion.status == (if tag == "Overdue" then "Pending" else tag)
  {
    if n > 0 {
      DatedEntriesFit(test, sched, gs, completion, tag, n - 1);
      SlotEntriesFit(DateSlot(test, sched, tag, n - 1), gs, completion);
    }
  }

  /** The converse of SlotEntriesFit: every attributed group whose
      completion status passes the slot's filter gets its entry. */
  lemma {:induction false} SlotEntriesComplete(slot: Slot, gs: seq<GroupRef>, completion: (int, int, int) -> Completion,
                                               g: GroupRef)
    requires g in gs && Pushed(slot, g, completion)
    ensures EntryFor(slot, g, completion) in SlotEntries(slot, gs, completion)
  {
    var init := gs[..|gs| - 1];
    if g != gs[|gs| - 1] {
      assert g in init by {
        var i :| 0 <= i < |gs| && gs[i] == g;
        assert init[i] == g;
      }
      SlotEntriesComplete(slot, init, completion, g);
    }
  }

  /** The push of a schedule date before today, among the first `n`, is
      part of the dated entries. */
  lemma {:induction false} DatedIncludesSlot(test: TestType, sched: Schedule, gs: seq<GroupRef>,
                                             completion: (int, int, int) -> Completion, tag: string, n: nat,
                                             k: nat, e: Entry)
    requires k < n <= |sched.scheduleDates| && sched.scheduleDates[k] < CurrentDay
    requires e in SlotEntries(DateSlot(test, sched, tag, k), gs, completion)
    ensures e in DatedEntries(test, sched, gs, completion, tag, n)
  {
    var prev := DatedEntries(test, sched, gs, completion, tag, n - 1);
    var last := if sched.scheduleDates[n - 1] < CurrentDay
      then SlotEntries(DateSlot(test, sched, tag, n - 1), gs, completion) else [];
    assert DatedEntries(test, sched, gs, completion, tag, n) == prev + last;
    if k < n - 1 {
      DatedIncludesSlot(test, sched, gs, completion, tag, n - 1, k, e);
    }
  }

  /** The converse of DatedEntriesFit: every schedule date among the first
      `n` that lies before today gives an entry for every attributed group
      whose completion status at that date is the wanted one. */
  lemma DatedEntriesComplete(test: TestType, sched: Schedule, gs: seq<GroupRef>,
                             completion: (int, int, int) -> Completion, tag: string, n: nat,
                             k: nat, g: GroupRef)
    requires k < n <= |sched.scheduleDates|
    requires sched.scheduleDates[k] < CurrentDay && g in gs
    requires completion(g.groupId, test.id, sched.scheduleDates[k]).status == (if tag == "Overdue" then "Pending" else tag)
    ensures EntryFor(DateSlot(test, sched, tag, k), g, completion) in DatedEntries(test, sched, gs, completion, tag, n)
  {
    SlotEntriesComplete(DateSlot(test, sched, tag, k), gs, completion, g);
    DatedIncludesSlot(test, sched, gs, completion, tag, n, k, EntryFor(DateSlot(test, sched, tag, k), g, completion));
  }

  /** What the listing pushes for one test under the selected tab. */
  function TestEntries(test: TestType, inputs: Inputs, tab: Tab): seq<Entry>
  {
    var sched := inputs.schedule(test);
    var gs := GroupInfo(inputs, test);
    match tab
    case Today =>
      if sched.status == "Today"
      then SlotEntries(Slot(test, sched.status, CurrentDay, sched.frequencyLabel, Plain, None), gs, inputs.completion)
      else []
    case Upcoming =>
      if sched.nextScheduleDate.Some? && sched.nextScheduleDate.value > CurrentDay
      then SlotEntries(Slot(test, sched.status, sched.nextScheduleDate.value, sched.frequencyLabel, Next, None),
                       gs, inputs.completion)
      else []
    case Overdue => DatedEntries(test, sched, gs, inputs.completion, "Overdue", |sched.scheduleDates|)
    case Completed => DatedEntries(test, sched, gs, inputs.completion, "Completed", |sched.scheduleDates|)
  }

  /** What every listed entry satisfies under each tab: it belongs to one
      of the test's attributed groups; a Today entry is for a test whose
      status is 'Today' and shows today; an Upcoming entry shows the test's
      next date, which lies after today; an Overdue (Completed) entry shows a
      schedule date before today whose completion status is 'Pending'
      ('Completed'). */
  predicate EntryFits(e: Entry, inputs: Inputs, tab: Tab)
  {
    var sched := inputs.schedule(e.test);
    GroupRef(e.groupName, e.groupId) in GroupInfo(inputs, e.test) &&
    e.frequencyLabel == sched.frequencyLabel &&
    match tab
    case Today =>
      sched.status == "Today" && e.status == "Today" && e.day == CurrentDay && e.occurrence == Plain &&
      e.completion == inputs.completion(e.groupId, e.test.id, CurrentDay)
    case Upcoming =>
      sched.nextScheduleDate == Some(e.day) && e.day > CurrentDay && e.status == sched.status &&
      e.occurrence == Next && e.completion == inputs.completion(e.groupId, e.test.id, e.day)
    case Overdue =>
      e.status == "Overdue" && e.day < CurrentDay && e.completion.status == "Pending" &&
      e.occurrence.AtIndex? && e.occurrence.index < |sched.scheduleDates| &&
      sched.scheduleDates[e.occurrence.index] == e.day && e.completion == inputs.completion(e.groupId, e.test.id, e.day)
    case Completed =>
      e.status == "Completed" && e.day < CurrentDay && e.completion.status == "Completed" &&
      e.occurrence.AtIndex? && e.occurrence.index < |sched.scheduleDates| &&
      sched.scheduleDates[e.occurrence.index] == e.day && e.completion == inputs.completion(e.groupId, e.test.id, e.day)
  }

  lemma TestEntriesFit(test: TestType, inputs: Inputs, tab: Tab)
    ensures forall e :: e in TestEntries(test, inputs, tab) ==> e.test == test && EntryFits(e, inputs, tab)
  {
    var sched := inputs.schedule(test);
    var gs := GroupInfo(inputs, test);
    match tab
    case Today =>
      SlotEntriesFit(Slot(test, sched.status, CurrentDay, sched.frequencyLabel, Plain, None), gs, inputs.completion);
    case Upcoming =>
      if sched.nextScheduleDate.Some? {
        SlotEntriesFit(Slot(test, sched.status, sched.nextScheduleDate.value, sched.frequencyLabel, Next, None),
                       gs, inputs.completion);
      }
    case Overdue =>
      DatedEntriesFit(test, sched, gs, inputs.completion, "Overdue", |sched.scheduleDates|);
    case Completed =>
      DatedEntriesFit(test, sched, gs, inputs.completion, "Completed", |sched.scheduleDates|);
  }

  /** The converse of TestEntriesFit: every entry that fits the tab for
      the test is pushed. Under Overdue, for instance, every schedule date
      before today gives an entry, tagged with its index, for every
      attributed group whose completion status at that date is 'Pending'. */
  lemma TestEntriesComplete(test: TestType, inputs: Inputs, tab: Tab, e: Entry)
    requires e.test == test && EntryFits(e, inputs, tab)
    ensures e in TestEntries(test, inputs, tab)
  {
    var sched := inputs.schedule(test);
    var gs := GroupInfo(inputs, test);
    var g := GroupRef(e.groupName, e.groupId);
    match tab
    case Today =>
      SlotEntriesComplete(Slot(test, sched.status, CurrentDay, sched.frequencyLabel, Plain, None), gs, inputs.completion, g);
    case Upcoming =>
      SlotEntriesComplete(Slot(test, sched.status, e.day, sched.frequencyLabel, Next, None), gs, inputs.completion, g);
    case Overdue =>
      DatedEntriesComplete(test, sched, gs, inputs.completion, "Overdue", |sched.scheduleDates|, e.occurrence.index, g);
    case Completed =>
      DatedEntriesComplete(test, sched, gs, inputs.completion, "Completed", |sched.scheduleDates|, e.occurrence.index, g);
  }

  /** Under Today, a test whose status is 'Today' gets exactly one entry per attributed group. */
  lemma TodayOnePerGroup(test: TestType, inputs: Inputs)
    requires inputs.schedule(test).status == "Today"
    ensures |TestEntries(test, inputs, Today)| == |GroupInfo(inputs, test)|
  {
  }

  // ---------------------------------------------------------------------------
  // The listing over the project's tests.

  /** The two early returns of the `allTests.forEach`. */
  predicate Considered(test: TestType, ref: string, selectedTest: string)
  {
    test.projectCode == ref && (selectedTest == "All" || test.name == selectedTest)
  }

  /** `testsWithDetails` after the first `n` tests. */
  function Listing(tests: seq<TestType>, inputs: Inputs, tab: Tab, selectedTest: string, n: nat): seq<Entry>
    requires n <= |tests|
  {
    if n == 0 then []
    else
      Listing(tests, inputs, tab, selectedTest, n - 1)
      + (if Considered(tests[n - 1], inputs.ref, selectedTest) then TestEntries(tests[n - 1], inputs, tab) else [])
  }

  /** Every listed entry is for one of the project's tests that passes the
      test filter, and fits the selected tab. */
  predicate Listed(e: Entry, tests: seq<TestType>, inputs: Inputs, tab: Tab, selectedTest: string)
  {
    e.test in tests && Considered(e.test, inputs.ref, selectedTest) && EntryFits(e, inputs, tab)
  }

  lemma {:induction false} ListingFits(tests: seq<TestType>, inputs: Inputs, tab: Tab, selectedTest: string, n: nat)
    requires n <= |tests|
    ensures forall e :: e in Listing(tests, inputs, tab, selectedTest, n) ==> Listed(e, tests, inputs, tab, selectedTest)
  {
    if n > 0 {
      ListingFits(tests, inputs, tab, selectedTest, n - 1);
      TestEntriesFit(tests[n - 1], inputs, tab);
    }
  }

  /** The converse of ListingFits: an entry that fits the tab for one of
      the first `n` tests that passes the test filter is listed. */
  lemma {:induction false} ListingComplete(tests: seq<TestType>, inputs: Inputs, tab: Tab, selectedTest: string,
                                           n: nat, j: nat, e: Entry)
    requires j < n <= |tests|
    requires e.test == tests[j] && Considered(e.test, inputs.ref, selectedTest) && EntryFits(e, inputs, tab)
    ensures e in Listing(tests, inputs, tab, selectedTest, n)
  {
    if j < n - 1 {
      ListingComplete(tests, inputs, tab, selectedTest, n - 1, j, e);
    } else {
      TestEntriesComplete(tests[j], inputs, tab, e);
    }
  }

  /** The listing holds exactly the entries that fit the selected tab for a
      project test passing the test filter. */
  lemma ListingExact(tests: seq<TestType>, inputs: Inputs, tab: Tab, selectedTest: string, e: Entry)
    ensures e in Listing(tests, inputs, tab, selectedTest, |tests|) <==> Listed(e, tests, inputs, tab, selectedTest)
  {
    ListingFits(tests, inputs, tab, selectedTest, |tests|);
    if Listed(e, tests, inputs, tab, selectedTest) {
      var j :| 0 <= j < |tests| && tests[j] == e.test;
      ListingComplete(tests, inputs, tab, selectedTest, |tests|, j, e);
    }
  }

  /** One `groupInfo.forEach` push loop. */
  method PushSlot(acc: seq<Entry>, slot: Slot, gs: seq<GroupRef>, completion: (int, int, int) -> Completion)
    returns (r: seq<Entry>)
    ensures r == acc + SlotEntries(slot, gs, completion)
  {
    r := acc;
    var j := 0;
    while j < |gs|
      invariant 0 <= j <= |gs|
      invariant r == acc + SlotEntries(slot, gs[..j], completion)
    {
      assert gs[..j + 1][..j] == gs[..j];
      if Pushed(slot, gs[j], completion) {
        r := r + [EntryFor(slot, gs[j], completion)];
      }
      j := j + 1;
    }
    assert gs[..j] == gs;
  }

  /** One `scheduleDates.forEach` loop of the Overdue and Completed branches. */
  method PushDated(acc: seq<Entry>, test: TestType, sched: Schedule, gs: seq<GroupRef>,
                   completion: (int, int, int) -> Completion, tag: string)
    returns (r: seq<Entry>)
    ensures r == acc + DatedEntries(test, sched, gs, completion, tag, |sched.scheduleDates|)
  {
    r := acc;
    var k := 0;
    while k < |sched.scheduleDates|
      invariant 0 <= k <= |sched.scheduleDates|
      invariant r == acc + DatedEntries(test, sched, gs, completion, tag, k)
    {
      if sched.scheduleDates[k] < CurrentDay {
        r := PushSlot(r, DateSlot(test, sched, tag, k), gs, completion);
      }
      DatedStep(acc, test, sched, gs, completion, tag, k);
      k := k + 1;
    }
  }

  /** The body of the `allTests.forEach` for one considered test. */
  method PushTest(acc: seq<Entry>, test: TestType, inputs: Inputs, tab: Tab) returns (r: seq<Entry>)
    ensures r == acc + TestEntries(test, inputs, tab)
  {
    var sched := inputs.schedule(test);
    var gs := GroupInfo(inputs, test);
    r := acc;
    if tab == Today && sched.status == "Today" {
      r := PushSlot(r, Slot(test, sched.status, CurrentDay, sched.frequencyLabel, Plain, None), gs, inputs.completion);
    } else if tab == Upcoming && sched.nextScheduleDate.Some? && sched.nextScheduleDate.value > CurrentDay {
      r := PushSlot(r, Slot(test, sched.status, sched.nextScheduleDate.value, sched.frequencyLabel, Next, None),
                    gs, inputs.completion);
    } else if tab == Overdue {
      r := PushDated(r, test, sched, gs, inputs.completion, "Overdue");
    } else if tab == Completed {
      r := PushDated(r, test, sched, gs, inputs.completion, "Completed");
    }
  }

  /** The listing loop: `testsWithDetails`. */
  method CollectEntries(tests: seq<TestType>, inputs: Inputs, tab: Tab, selectedTest: string)
    returns (entries: seq<Entry>)
    ensures entries == Listing(tests, inputs, tab, selectedTest, |tests|)
  {
    entries := [];
    var i := 0;
    while i < |tests|
      invariant 0 <= i <= |tests|
      invariant entries == Listing(tests, inputs, tab, selectedTest, i)
    {
      if Considered(tests[i], inputs.ref, selectedTest) {
        entries := PushTest(entries, tests[i], inputs, tab);
      }
      i := i + 1;
    }
  }

  // ---------------------------------------------------------------------------
  // Gathering by group name.

  /** One key of `grouped`: a group name and its entries. */
  datatype Section = Section(name: string, entries: seq<Entry>)

  /** The entries the group filter keeps. */
  predicate Shown(e: Entry, selectedGroup: string)
  {
    selectedGroup == "All" || e.groupName == selectedGroup
  }

  /** The index of the section called `name`, if any. */
  function SectionIndex(sections: seq<Section>, name: string): (r: Option<nat>)
    ensures r.Some? ==> r.value < |sections| && sections[r.value].name == name
    ensures r.None? ==> forall i :: 0 <= i < |sections| ==> sections[i].name != name
  {
    if |sections| == 0 then None
    else if sections[|sections| - 1].name == name then Some(|sections| - 1)
    else SectionIndex(sections[..|sections| - 1], name)
  }

  /** `if (!grouped[name]) grouped[name] = []; grouped[name].push(test)`. */
  function AddEntry(sections: seq<Section>, e: Entry): seq<Section>
  {
    match SectionIndex(sections, e.groupName)
    case Some(i) => sections[i := Section(e.groupName, sections[i].entries + [e])]
    case None => sections + [Section(e.groupName, [e])]
  }

  /** `grouped` after the first `n` entries. */
  function Grouped(entries: seq<Entry>, selectedGroup: string, n: nat): seq<Section>
    requires n <= |entries|
  {
    if n == 0 then []
    else
      var prev := Grouped(entries, selectedGroup, n - 1);
      if Shown(entries[n - 1], selectedGroup) then AddEntry(prev, entries[n - 1]) else prev
  }

  /** The shown entries among the first `n` whose group is `name`, in order. */
  function OfGroup(entries: seq<Entry>, selectedGroup: string, name: string, n: nat): seq<Entry>
    requires n <= |entries|
  {
    if n == 0 then []
    else
      OfGroup(entries, selectedGroup, name, n - 1)
      + (if Shown(entries[n - 1], selectedGroup) && entries[n - 1].groupName == name then [entries[n - 1]] else [])
  }

  /** The sections have distinct names; a name has a section exactly when a
      shown entry has that group; each section holds exactly the shown
      entries of its group, in listing order. */
  predicate GroupedBy(sections: seq<Section>, entries: seq<Entry>, selectedGroup: string, n: nat)
    requires n <= |entries|
  {
    (forall i, j :: 0 <= i < j < |sections| ==> sections[i].name != sections[j].name) &&
    (forall i :: 0 <= i < |sections| ==> sections[i].entries == OfGroup(entries, selectedGroup, sections[i].name, n)) &&
    (forall k :: 0 <= k < n && Shown(entries[k], selectedGroup) ==>
       SectionIndex(sections, entries[k].groupName).Some?)
  }

  lemma {:induction false} OfGroupEmpty(entries: seq<Entry>, selectedGroup: string, name: string, n: nat)
    requires n <= |entries|
    requires forall k :: 0 <= k < n && Shown(entries[k], selectedGroup) ==> entries[k].groupName != name
    ensures OfGroup(entries, selectedGroup, name, n) == []
  {
    if n > 0 {
      OfGroupEmpty(entries, selectedGroup, name, n - 1);
    }
  }

  lemma {:induction false} GroupedSpec(entries: seq<Entry>, selectedGroup: string, n: nat)
    requires n <= |entries|
    ensures GroupedBy(Grouped(entries, selectedGroup, n), entries, selectedGroup, n)
  {
    if n > 0 {
      GroupedSpec(entries, selectedGroup, n - 1);
      var prev := Grouped(entries, selectedGroup, n - 1);
      var e := entries[n - 1];
      if Shown(e, selectedGroup) {
        var idx := SectionIndex(prev, e.groupName);
        if idx.None? {
          forall k | 0 <= k < n - 1 && Shown(entries[k], selectedGroup)
            ensures entries[k].groupName != e.groupName
          {
            var ki := SectionIndex(prev, entries[k].groupName);
            assert prev[ki.value].name == entries[k].groupName;
          }
          OfGroupEmpty(entries, selectedGroup, e.groupName, n - 1);
        }
        GroupedStep(prev, entries, selectedGroup, n);
      }
    }
  }

  /** Adding an entry extends the section of its group, at index `ci`,
      or opens one at the end; every other section is left as it was. */
  lemma AddEntryShape(prev: seq<Section>, e: Entry) returns (ci: nat)
    ensures var cur := AddEntry(prev, e);
      ci < |cur| <= |prev| + 1 && |prev| <= |cur| && cur[ci].name == e.groupName &&
      (ci < |prev| <==> SectionIndex(prev, e.groupName).Some?) &&
      (ci < |prev| ==> cur[ci].entries == prev[ci].entries + [e]) &&
      (ci == |prev| ==> cur[ci].entries == [e]) &&
      (forall i :: 0 <= i < |cur| && i != ci ==> i < |prev| && cur[i] == prev[i])
  {
    match SectionIndex(prev, e.groupName)
    case Some(i) => ci := i;
    case None => ci := |prev|;
  }

  /** One shown entry added to a well-formed grouping keeps it well formed. */
  lemma GroupedStep(prev: seq<Section>, entries: seq<Entry>, selectedGroup: string, n: nat)
    requires 0 < n <= |entries|
    requires Shown(entries[n - 1], selectedGroup)
    requires GroupedBy(prev, entries, selectedGroup, n - 1)
    requires SectionIndex(prev, entries[n - 1].groupName).None? ==>
      OfGroup(entries, selectedGroup, entries[n - 1].groupName, n - 1) == []
    ensures GroupedBy(AddEntry(prev, entries[n - 1]), entries, selectedGroup, n)
  {
    var e := entries[n - 1];
    var cur := AddEntry(prev, e);
    var ci := AddEntryShape(prev, e);
    forall i, j | 0 <= i < j < |cur|
      ensures cur[i].name != cur[j].name
    {
      if i != ci && j != ci {
        assert cur[i] == prev[i] && cur[j] == prev[j];
      } else if ci == |prev| {
        var other := if i == ci then j else i;
        assert cur[other] == prev[other];
      }
    }
    forall i | 0 <= i < |cur|
      ensures cur[i].entries == OfGroup(entries, selectedGroup, cur[i].name, n)
    {
      var name := cur[i].name;
      assert OfGroup(entries, selectedGroup, name, n)
        == OfGroup(entries, selectedGroup, name, n - 1) + (if e.groupName == name then [e] else []);
      if i != ci {
        assert cur[i] == prev[i];
        if ci < |prev| {
          assert name != e.groupName;
        }
      }
    }
    forall k | 0 <= k < n && Shown(entries[k], selectedGroup)
      ensures SectionIndex(cur, entries[k].groupName).Some?
    {
      if k < n - 1 {
        var ki := SectionIndex(prev, entries[k].groupName).value;
        if ki != ci {
          assert cur[ki] == prev[ki];
        }
        NameHasIndex(cur, ki);
      } else {
        NameHasIndex(cur, ci);
      }
    }
  }

  lemma NameHasIndex(sections: seq<Section>, i: nat)
    requires i < |sections|
    ensures SectionIndex(sections, sections[i].name).Some?
  {
  }

  /** The gathering loop over `testsWithDetails`. */
  method GroupEntries(entries: seq<Entry>, selectedGroup: string) returns (sections: seq<Section>)
    ensures sections == Grouped(entries, selectedGroup, |entries|)
  {
    sections := [];
    var i := 0;
    while i < |entries|
      invariant 0 <= i <= |entries|
      invariant sections == Grouped(entries, selectedGroup, i)
    {
      var e := entries[i];
      if Shown(e, selectedGroup) {
        match SectionIndex(sections, e.groupName)
        case Some(k) =>
          sections := sections[k := Section(e.groupName, sections[k].entries + [e])];
        case None =>
          sections := sections + [Section(e.groupName, [e])];
      }
      i := i + 1;
    }
  }

  /** Under a selected group, only that group's section can appear. */
  lemma OnlySelectedGroup(entries: seq<Entry>, selectedGroup: string)
    requires selectedGroup != "All"
    ensures forall s :: s in Grouped(entries, selectedGroup, |entries|) ==> s.name == selectedGroup
  {
    var sections := Grouped(entries, selectedGroup, |entries|);
    GroupedSpec(entries, selectedGroup, |entries|);
    forall s | s in sections
      ensures s.name == selectedGroup
    {
      var i :| 0 <= i < |sections| && sections[i] == s;
      GroupsNonEmpty(entries, selectedGroup, |entries|);
      NonEmptySection(entries, selectedGroup, s.name, |entries|);
    }
  }

  /** A group with a non-empty section has a shown entry, whose group name it is. */
  lemma {:induction false} NonEmptySection(entries: seq<Entry>, selectedGroup: string, name: string, n: nat)
    requires n <= |entries|
    requires selectedGroup != "All"
    requires OfGroup(entries, selectedGroup, name, n) != []
    ensures name == selectedGroup
  {
    if n > 0 && !(Shown(entries[n - 1], selectedGroup) && entries[n - 1].groupName == name) {
      NonEmptySection(entries, selectedGroup, name, n - 1);
    }
  }

  // ---------------------------------------------------------------------------
  // Ordering within a group.

  predicate IsPending(e: Entry)
  {
    e.completion.status == "Pending"
  }

  /** The within-group comparator as written: `statusA` ranks a pending
      entry 0 and any other 1, but `statusB` ranks a pending entry 1 and any
      other 0. */
  function CompareAsWritten(a: Entry, b: Entry): int
  {
    var statusA := if IsPending(a) then 0 else 1;
    var statusB := if IsPending(b) then 1 else 0;
    statusA - statusB
  }

  /** The comparator as written is inconsistent: two pending entries each
      compare below the other, and a pending and a non-pending entry compare
      equal, in either order. */
  lemma CompareAsWrittenInconsistent(a: Entry, b: Entry)
    ensures IsPending(a) && IsPending(b) ==> CompareAsWritten(a, b) < 0 && CompareAsWritten(b, a) < 0
    ensures IsPending(a) && !IsPending(b) ==> CompareAsWritten(a, b) == 0 && CompareAsWritten(b, a) == 0
  {
  }

  /** The intended comparator: pending entries first, the rest in place. */
  function Compare(a: Entry, b: Entry): (r: int)
    ensures r < 0 <==> IsPending(a) && !IsPending(b)
    ensures r == 0 <==> (IsPending(a) <==> IsPending(b))
  {
    (if IsPending(a) then 0 else 1) - (if IsPending(b) then 0 else 1)
  }

  function Pendings(es: seq<Entry>): seq<Entry>
  {
    if |es| == 0 then []
    else Pendings(es[..|es| - 1]) + (if IsPending(es[|es| - 1]) then [es[|es| - 1]] else [])
  }

  function Others(es: seq<Entry>): seq<Entry>
  {
    if |es| == 0 then []
    else Others(es[..|es| - 1]) + (if IsPending(es[|es| - 1]) then [] else [es[|es| - 1]])
  }

  /** The stable sort by the intended comparator: the pending entries, then
      the others, each in their original order. */
  function PendingFirst(es: seq<Entry>): seq<Entry>
  {
    Pendings(es) + Others(es)
  }

  lemma {:induction false} PartsArePending(es: seq<Entry>)
    ensures forall e :: e in Pendings(es) ==> IsPending(e)
    ensures forall e :: e in Others(es) ==> !IsPending(e)
  {
    if |es| > 0 {
      PartsArePending(es[..|es| - 1]);
    }
  }

  lemma {:induction false} PartsArePermutation(es: seq<Entry>)
    ensures multiset(Pendings(es)) + multiset(Others(es)) == multiset(es)
  {
    if |es| > 0 {
      var n := |es| - 1;
      PartsArePermutation(es[..n]);
      assert es == es[..n] + [es[n]];
    }
  }

  /** PendingFirst reorders and no more, and leaves the entries in the
      intended comparator's order. */
  lemma PendingFirstSorted(es: seq<Entry>)
    ensures multiset(PendingFirst(es)) == multiset(es)
    ensures forall i, j :: 0 <= i < j < |PendingFirst(es)| ==> Compare(PendingFirst(es)[i], PendingFirst(es)[j]) <= 0
  {
    PartsArePermutation(es);
    PartsArePending(es);
    var r, p := PendingFirst(es), Pendings(es);
    forall i, j | 0 <= i < j < |r|
      ensures Compare(r[i], r[j]) <= 0
    {
      if i < |p| {
        assert r[i] in p;
      } else {
        assert r[i] in Others(es) && r[j] in Others(es);
      }
    }
  }

  /** The within-group sort of every group. */
  function SortWithinGroups(sections: seq<Section>): (r: seq<Section>)
    ensures |r| == |sections|
    ensures forall i :: 0 <= i < |r| ==> r[i] == Section(sections[i].name, PendingFirst(sections[i].entries))
  {
    if |sections| == 0 then []
    else
      var n := |sections| - 1;
      SortWithinGroups(sections[..n]) + [Section(sections[n].name, PendingFirst(sections[n].entries))]
  }

  // ---------------------------------------------------------------------------
  // Ordering the groups.

  function HasPending(entries: seq<Entry>): bool
  {
    exists i | 0 <= i < |entries| :: entries[i].completion.status == "Pending"
  }

  /** `groups.findIndex(g => g.study_type === name)`, -1 when none. */
  function PositionOf(groups: seq<Group>, name: string): (r: int)
    ensures -1 <= r < |groups|
  {
    if |groups| == 0 then -1
    else if groups[0].studyType == name then 0
    else
      var r := PositionOf(groups[1..], name);
      if r == -1 then -1 else r + 1
  }

  /** The position is that of the first group with the name, and -1 exactly
      when no group has it. */
  lemma {:induction false} PositionOfSpec(groups: seq<Group>, name: string)
    ensures var r := PositionOf(groups, name);
      (r >= 0 ==> groups[r].studyType == name && forall i :: 0 <= i < r ==> groups[i].studyType != name) &&
      (r == -1 <==> !HasStudyType(groups, name))
  {
    if |groups| > 0 && groups[0].studyType != name {
      PositionOfSpec(groups[1..], name);
      if PositionOf(groups[1..], name) == -1 {
        assert forall i :: 1 <= i < |groups| ==> groups[i] == groups[1..][i - 1];
      } else {
        var j := PositionOf(groups[1..], name);
        assert groups[j + 1] == groups[1..][j];
      }
    }
  }

  function Rank(s: Section): int
  {
    if HasPending(s.entries) then 0 else 1
  }

  /** The comparator returns at most 0: a group with a pending entry before
      one without, and otherwise by position in the project's group list. */
  predicate InOrder(a: Section, b: Section, groups: seq<Group>)
  {
    Rank(a) < Rank(b) || (Rank(a) == Rank(b) && PositionOf(groups, a.name) <= PositionOf(groups, b.name))
  }

  predicate Ordered(s: seq<Section>, groups: seq<Group>)
  {
    forall i, j :: 0 <= i < j < |s| ==> InOrder(s[i], s[j], groups)
  }

  /** Stable insertion: `x` goes after every section not after it. */
  function Insert(sorted: seq<Section>, x: Section, groups: seq<Group>): (r: seq<Section>)
    ensures multiset(r) == multiset(sorted) + multiset{x}
    ensures |r| == |sorted| + 1
  {
    if |sorted| == 0 || InOrder(sorted[|sorted| - 1], x, groups) then sorted + [x]
    else
      var n := |sorted| - 1;
      assert sorted == sorted[..n] + [sorted[n]];
      Insert(sorted[..n], x, groups) + [sorted[n]]
  }

  lemma {:induction false} InsertOrdered(sorted: seq<Section>, x: Section, groups: seq<Group>)
    requires Ordered(sorted, groups)
    ensures Ordered(Insert(sorted, x, groups), groups)
    decreases |sorted|
  {
    if |sorted| > 0 && !InOrder(sorted[|sorted| - 1], x, groups) {
      var n := |sorted| - 1;
      InsertOrdered(sorted[..n], x, groups);
      var r := Insert(sorted, x, groups);
      var left := Insert(sorted[..n], x, groups);
      assert r == left + [sorted[n]];
      forall i | 0 <= i < |left|
        ensures InOrder(left[i], sorted[n], groups)
      {
        assert left[i] in multiset(left);
        assert left[i] in multiset(sorted[..n]) + multiset{x};
        if left[i] != x {
          assert left[i] in sorted[..n];
        }
      }
    }
  }

  /** The `Object.keys(grouped).sort(...)` order, as a stable sort. */
  function OrderGroups(sections: seq<Section>, groups: seq<Group>): (r: seq<Section>)
    ensures multiset(r) == multiset(sections)
    ensures |r| == |sections|
  {
    if |sections| == 0 then []
    else
      var n := |sections| - 1;
      assert sections == sections[..n] + [sections[n]];
      Insert(OrderGroups(sections[..n], groups), sections[n], groups)
  }

  /** The groups come out in comparator order: groups alike in holding a
      pending entry or not by position in the project's group list. */
  lemma {:induction false} OrderGroupsOrdered(sections: seq<Section>, groups: seq<Group>)
    ensures Ordered(OrderGroups(sections, groups), groups)
    decreases |sections|
  {
    if |sections| > 0 {
      var n := |sections| - 1;
      var prefix := OrderGroups(sections[..n], groups);
      OrderGroupsOrdered(sections[..n], groups);
      InsertOrdered(prefix, sections[n], groups);
      assert OrderGroups(sections, groups) == Insert(prefix, sections[n], groups);
    }
  }

  /** The sections of `s`, in their order there, that the comparator ties
      with a section of the given rank and group-list position. */
  function Tied(s: seq<Section>, rank: int, pos: int, groups: seq<Group>): seq<Section>
  {
    if |s| == 0 then []
    else
      var n := |s| - 1;
      Tied(s[..n], rank, pos, groups) +
        (if Rank(s[n]) == rank && PositionOf(groups, s[n].name) == pos then [s[n]] else [])
  }

  lemma TiedSnoc(s: seq<Section>, y: Section, rank: int, pos: int, groups: seq<Group>)
    ensures Tied(s + [y], rank, pos, groups) ==
      Tied(s, rank, pos, groups) + (if Rank(y) == rank && PositionOf(groups, y.name) == pos then [y] else [])
  {
    assert (s + [y])[..|s|] == s;
  }

  lemma {:induction false} InsertStable(sorted: seq<Section>, x: Section, groups: seq<Group>, rank: int, pos: int)
    ensures Tied(Insert(sorted, x, groups), rank, pos, groups) ==
      Tied(sorted, rank, pos, groups) + (if Rank(x) == rank && PositionOf(groups, x.name) == pos then [x] else [])
    decreases |sorted|
  {
    if |sorted| == 0 || InOrder(sorted[|sorted| - 1], x, groups) {
      TiedSnoc(sorted, x, rank, pos, groups);
    } else {
      var n := |sorted| - 1;
      var left := Insert(sorted[..n], x, groups);
      InsertStable(sorted[..n], x, groups, rank, pos);
      TiedSnoc(left, sorted[n], rank, pos, groups);
      TiedSnoc(sorted[..n], sorted[n], rank, pos, groups);
      assert sorted[..n] + [sorted[n]] == sorted;
    }
  }

  /** Stability: sections the comparator ties keep their relative order. */
  lemma {:induction false} OrderGroupsStable(sections: seq<Section>, groups: seq<Group>, rank: int, pos: int)
    ensures Tied(OrderGroups(sections, groups), rank, pos, groups) == Tied(sections, rank, pos, groups)
    decreases |sections|
  {
    if |sections| > 0 {
      var n := |sections| - 1;
      OrderGroupsStable(sections[..n], groups, rank, pos);
      InsertStable(OrderGroups(sections[..n], groups), sections[n], groups, rank, pos);
    }
  }

  /** In comparator order every group holding a pending entry comes before
      every group holding none. */
  lemma PendingGroupsFirst(s: seq<Section>, groups: seq<Group>)
    requires Ordered(s, groups)
    ensures forall i, j :: 0 <= i < j < |s| && HasPending(s[j].entries) ==> HasPending(s[i].entries)
  {
    forall i, j | 0 <= i < j < |s| && HasPending(s[j].entries)
      ensures HasPending(s[i].entries)
    {
      assert InOrder(s[i], s[j], groups);
    }
  }

  // ---------------------------------------------------------------------------
  // The screen.

  /** The listing effect end to end: the ordered groups of the shown entries. */
  function GroupedTests(tests: seq<TestType>, inputs: Inputs, tab: Tab, selectedTest: string,
                        selectedGroup: string): seq<Section>
  {
    var entries := Listing(tests, inputs, tab, selectedTest, |tests|);
    OrderGroups(SortWithinGroups(Grouped(entries, selectedGroup, |entries|)), inputs.groups)
  }

  predicate NoneShown(entries: seq<Entry>, selectedGroup: string)
  {
    forall k :: 0 <= k < |entries| ==> !Shown(entries[k], selectedGroup)
  }

  /** There are no groups exactly when no entry passes the group filter. */
  lemma NoGroupsIffNoneShown(entries: seq<Entry>, selectedGroup: string)
    ensures |Grouped(entries, selectedGroup, |entries|)| == 0 <==> NoneShown(entries, selectedGroup)
  {
    GroupedSpec(entries, selectedGroup, |entries|);
    var sections := Grouped(entries, selectedGroup, |entries|);
    if |sections| > 0 {
      GroupsNonEmpty(entries, selectedGroup, |entries|);
      var k := ShownWitness(entries, selectedGroup, sections[0].name, |entries|);
    }
  }

  /** 'No tests are available' shows exactly when no listed entry passes the group filter. */
  lemma EmptyNoticeSpec(tests: seq<TestType>, inputs: Inputs, tab: Tab, selectedTest: string, selectedGroup: string)
    ensures |GroupedTests(tests, inputs, tab, selectedTest, selectedGroup)| == 0 <==>
      NoneShown(Listing(tests, inputs, tab, selectedTest, |tests|), selectedGroup)
  {
    var entries := Listing(tests, inputs, tab, selectedTest, |tests|);
    var sections := Grouped(entries, selectedGroup, |entries|);
    assert |GroupedTests(tests, inputs, tab, selectedTest, selectedGroup)| == |SortWithinGroups(sections)| == |sections|;
    NoGroupsIffNoneShown(entries, selectedGroup);
  }

  /** Every section holds an entry. */
  lemma {:induction false} GroupsNonEmpty(entries: seq<Entry>, selectedGroup: string, n: nat)
    requires n <= |entries|
    ensures forall i :: 0 <= i < |Grouped(entries, selectedGroup, n)| ==>
      |Grouped(entries, selectedGroup, n)[i].entries| > 0
  {
    if n > 0 {
      GroupsNonEmpty(entries, selectedGroup, n - 1);
      var prev := Grouped(entries, selectedGroup, n - 1);
      var e := entries[n - 1];
      if Shown(e, selectedGroup) {
        var idx := SectionIndex(prev, e.groupName);
        if idx.Some? {
          assert Grouped(entries, selectedGroup, n) == prev[idx.value := Section(e.groupName, prev[idx.value].entries + [e])];
        } else {
          assert Grouped(entries, selectedGroup, n) == prev + [Section(e.groupName, [e])];
        }
      }
    }
  }

  lemma {:induction false} ShownWitness(entries: seq<Entry>, selectedGroup: string, name: string, n: nat)
    returns (k: nat)
    requires n <= |entries|
    requires OfGroup(entries, selectedGroup, name, n) != []
    ensures k < n && Shown(entries[k], selectedGroup) && entries[k].groupName == name
  {
    if Shown(entries[n - 1], selectedGroup) && entries[n - 1].groupName == name {
      k := n - 1;
    } else {
      k := ShownWitness(entries, selectedGroup, name, n - 1);
    }
  }

  /** The screen's selections and what its listing effect last produced. */
  class StudyResultScreen {
    const tests: seq<TestType>
    const inputs: Inputs
    var selectedGroup: string
    var selectedTest: string
    var selectedTab: Tab
    var groupedTests: seq<Section>

    /** The opening: each parameter is validated against the project's
        groups, tests and the four tabs. */
    constructor (tests: seq<TestType>, inputs: Inputs, initialGroup: Option<string>, initialTest: Option<string>,
                 initialTab: Option<string>)
      ensures this.tests == tests && this.inputs == inputs
      ensures selectedGroup == ValidInitialGroup(inputs.groups, initialGroup)
      ensures selectedTest == ValidInitialTest(tests, initialTest)
      ensures selectedTab == ValidInitialTab(initialTab)
      ensures groupedTests == []
    {
      this.tests, this.inputs := tests, inputs;
      selectedGroup := ValidInitialGroup(inputs.groups, initialGroup);
      selectedTest := ValidInitialTest(tests, initialTest);
      selectedTab := ValidInitialTab(initialTab);
      groupedTests := [];
    }

    /** The validation effect. */
    method Revalidate()
      modifies this`selectedGroup, this`selectedTest
      ensures selectedGroup == RevalidGroup(inputs.groups, old(selectedGroup))
      ensures selectedTest == RevalidTest(tests, old(selectedTest))
      ensures GroupSelectable(inputs.groups, selectedGroup) && TestSelectable(tests, selectedTest)
    {
      RevalidationSettles(inputs.groups, tests, selectedGroup, selectedTest);
      if !GroupSelectable(inputs.groups, selectedGroup) && selectedGroup != "All" {
        selectedGroup := "All";
      }
      if !TestSelectable(tests, selectedTest) && selectedTest != "All" {
        selectedTest := "All";
      }
    }

    /** The listing effect: list, gather by group, order the groups. */
    method Refresh()
      modifies this`groupedTests
      ensures groupedTests == GroupedTests(tests, inputs, selectedTab, selectedTest, selectedGroup)
    {
      var entries := CollectEntries(tests, inputs, selectedTab, selectedTest);
      var sections := GroupEntries(entries, selectedGroup);
      groupedTests := OrderGroups(SortWithinGroups(sections), inputs.groups);
    }
  }
}
