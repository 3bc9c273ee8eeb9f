# Atomwalk GLP app: a verified model of its screen logic

This project models, in Dafny, the rules behind the screens of the Atomwalk
GLP mobile app (a React Native app for good-laboratory-practice studies).
It does not model rendering, the network or timers. It covers these parts:

- The shared project state (`context/ProjectContext.js`):
  - whether a test is due today;
  - removal of repeated activities, keeping the first one per reference number;
  - the stable sort of activities by status;
  - today's tasks, as the cross product of groups and scheduled tests.
- The capture screens (`CaptureData.js`, `CaptureSubtypeDataModal.js`,
  `TestDataModal.js`):
  - load the captured values into entries and "has data" flags;
  - keep a snapshot of what was loaded;
  - post only what changed, counting the posts;
  - choose between `ADD_TEST` and `UPDATE_TEST`;
  - print the 12-hour time label.
- The study-result screen (`StudyResult.js`):
  - parameter validation;
  - the Today / Upcoming / Overdue / Completed listing;
  - the group filter, the within-group order and the group order;
  - its filter sheet (`StudyResultFilterModal.js`).
- The list builders:
  - the test-subject roster (`TestDetail.js`);
  - the sectioned animal list (`AnimalDetails.js`);
  - the grouping of booking rows by lab and activity, which `Test.js` and
    `LabBooking.js` share;
  - the responsive grid and card texts (`LabBooking.js`);
  - the test list (`TestList.js`);
  - the project picker (`ProjectList.js`);
  - the blood-chemistry grid (`TestList2.js`).
- The date field (`DatePicker.js`): the India Standard Time date of an
  instant. It rests on the time-value arithmetic of ECMA-262, section
  21.4.1, in `calendar.dfy`.
- The safety-check ticker (`AnalysisScreen.js`, repeated in `Test.js`) and
  the screen transitions of `Test.js`.

**How the model is written**

- Pure code is written as functions with lemmas.
- Components whose state changes step by step are classes:
  - their fields are the component's state;
  - their methods are its handlers, each with a `modifies` clause.
- Loops are methods proved against a specification function.
- Each logic the source repeats in two files is defined once:
  - the reduce that removes repeated activities;
  - the booking grouping;
  - the tick updater.

**Inputs the model takes as given**

- What the services and the context functions answer (`getCapturedData`,
  `getCompletionStatus`, `getTestSchedule`, `updateCompletionCache`, the
  API lists) is a parameter: a sequence, an option, an arrow, or the index
  of the post that rejects.
- Dates are day numbers. The DatePicker instants are millisecond time values.

JavaScript values that may be `undefined` or `null` are explicit:
- `Option` where the source only asks whether a value is there;
- `JsField = Missing | Null | Str(s)` where it compares with `''` and
  `null` separately.

## Model

| member | source | states |
|---|---|---|
| ProjectContext.ConfiguredSchedule | context/ProjectContext.js:18-36 | with the configured start and today, 7 days apart: a daily or weekly test is due iff it lasts more than 7 days; a once-at-end test iff it lasts exactly 8; a before-start test never |
| ProjectContext.ScheduledCodes | context/ProjectContext.js:26-38 | only the codes D, W, O and B are ever due; N and every unrecognised code never are |
| ProjectContext.WeeklyWithinDaily | context/ProjectContext.js:27-30 | from the study's start on, a weekly test is due only on days a daily test is due |
| ProjectContext.CountsOverStudy | context/ProjectContext.js:26-38 | over the offsets 0..n-1 of an n-day study: a daily test is due n times, a weekly one ceil(n/7) times, once-at-end and before-start tests once each, N tests never |
| ProjectContext.FrequencyOfRoundTrip | context/ProjectContext.js:26-38 | the five known codes read back as themselves; an unrecognised code never collides with a known one |
| ProjectContext.FrequencyCodeRoundTrip | context/ProjectContext.js:26 | reading a frequency code loses nothing: the code can be written back |
| ProjectContext.DedupByRefNum | context/ProjectContext.js:49-53 | the reduce loop returns exactly the records that are the first with their reference number, in input order |
| ProjectContext.FindByRef | context/ProjectContext.js:50 | `find` returns a record of the list with the reference, and None iff there is none |
| ProjectContext.FirstOccurrencesRefs | context/ProjectContext.js:49-53 | every input reference number is kept, and none twice |
| ProjectContext.FirstOccurrencesAreFirst | context/ProjectContext.js:49-53 | each kept record is the first input record with its reference number, and kept records keep the input order |
| ProjectContext.StatusPriority | context/ProjectContext.js:56-62 | rank 1 iff the lower-cased status is 'in progress', 2 iff it is 'completed', 3 for anything else, a missing status included |
| ProjectContext.ToLowerAscii | context/ProjectContext.js:57 | the ASCII part of `toLowerCase`: the length is kept, each ASCII capital is lowered, and the result is idempotent (non-ASCII capitals: see Left out) |
| ProjectContext.StatusIgnoresCase | context/ProjectContext.js:57 | a status ranks as its lower-case form, so the ranking ignores case |
| ProjectContext.SortIsSorted | context/ProjectContext.js:55-64 | the sorted activities never decrease in priority |
| ProjectContext.SortIsPermutation | context/ProjectContext.js:55-64 | the sort only reorders: the result is a permutation of its input |
| ProjectContext.SortIsStable | context/ProjectContext.js:55-64 | records of equal priority keep their relative order |
| ProjectContext.StableSortUnique | context/ProjectContext.js:55-64 | any priority-sorted arrangement that keeps the order within each priority equals the modelled sort, so the model is the result of every stable sort |
| ProjectContext.CollectProjectTasks | context/ProjectContext.js:90-101 | the nested group and test loops produce, group-major, one task per group and scheduled test |
| ProjectContext.GroupTasksAreScheduledTests | context/ProjectContext.js:91-99 | a group contributes exactly its scheduled tests, in test order |
| ProjectContext.CrossTasksCount | context/ProjectContext.js:90-101 | the number of tasks is the number of groups times the number of scheduled tests |
| ProjectContext.CrossTasksMembership | context/ProjectContext.js:90-101 | a task is listed iff its group is one of the groups and its test is a scheduled one of the tests |
| ProjectContext.FetchProjects | context/ProjectContext.js:69-106 | per project: groups are recorded iff the group fetch answered 200; tests, and that project's tasks, iff the test fetch answered 200; a project whose fetch threw adds nothing and the loop goes on |
| ProjectContext.AllTasksSplit | context/ProjectContext.js:73-106 | projects contribute independently and in order, so a failing project removes only its own tasks |
| ProjectProvider.ProjectStore.FetchAllData | context/ProjectContext.js:43-117 | without an activity list, only the error is set and loading ends. Otherwise the projects become the deduplicated, sorted list; today's tasks are all projects' tasks; the group and test maps hold exactly the projects whose fetch answered 200, each with the list that 200 answer carried |
| ProjectList.ProjectListScreen.Load | src/screens/ProjectList.js:12-23 | a listed response stores the first activity of each reference number, in order; no data stores undefined; a rejection or a missing list leaves the activities as they were |
| TestList.FrequencyLabel | src/screens/TestList.js:14-20 | a code reads 'Unknown' iff it is not one of D, W, O, B and N |
| TestList.KnownLabelsDistinct | src/screens/TestList.js:14-20 | the five known codes have five different labels |
| TestList.UnknownNeverScheduled | src/screens/TestList.js:65 | a test shown with frequency 'Unknown' is never due today |
| TestList.Body | src/screens/TestList.js:45-70 | the project's error text wins; otherwise an empty list shows 'No tests are available'; otherwise one card per test, in order, with its id, name and frequency label |
| TestList.RenderUnderProviderCrashes | src/screens/TestList.js:8-12 | as written, the screen reads `projectTitles` and `errors`, which the provider's context value does not define, so the render throws for every project |
| TestList.RenderUnderProviderShowsTests | src/screens/TestList.js:8-70 | the repaired render, which reads the missing fields as empty, shows the reference number as title and one card per test of the project under the provider |
| DatePicker.ConvertToIstFormattedString | src/components/DatePicker.js:36-43 | the text reads back as a valid calendar date naming the UTC day of the instant moved forward by 19,800,000 ms; it is the Invalid Date text iff the moved instant leaves the time-value range |
| DatePicker.FormatRoundTrip | src/components/DatePicker.js:39-42 | printing a valid date and reading it back gives the same year, month and day |
| DatePicker.IstShiftsAfter1830 | src/components/DatePicker.js:37-38 | the IST date is the next UTC day exactly for instants at or after 18:30 UTC, and the same UTC day otherwise |
| DatePicker.ConvertMonotone | src/components/DatePicker.js:36-43 | a later instant never yields an earlier date |
| DatePicker.DisplayedDate | src/components/DatePicker.js:46-53 | the stored date text when there is one, otherwise the IST conversion of the current instant, whose 'YYYY-MM-DD' text names the IST day of that instant |
| DatePicker.DatePickerField.HandleDateChange | src/components/DatePicker.js:55-61 | the picker closes; a picked instant replaces the stored text with its IST date; a dismissal leaves the text as it was |
| DatePicker.DatePickerField.Open | src/components/DatePicker.js:66 | pressing the field shows the picker and leaves the stored text as it was |
| Calendar.CivilFromDay | src/components/DatePicker.js:39-41 | the UTC calendar date of a day number is a valid date that names that very day |
| Calendar.CivilRoundTrip | src/components/DatePicker.js:39-41 | decoding a valid date's day number gives that date back |
| Calendar.YearFromDayIsLargest | src/components/DatePicker.js:39 | the year of a day is the largest year that starts at or before it |
| Calendar.CivilFromDayMonotone | src/components/DatePicker.js:39-41 | a later day never has an earlier calendar date |
| Common.Pad2 | src/components/DatePicker.js:40-41 | below 100, `padStart(2, '0')` gives exactly two digits, which read back as the number |
| Common.DecimalRoundTrip | src/screens/TestDetail.js:30 | the decimal text of a number consists of digits and reads back as that number |
| Common.DecimalInjective | src/screens/TestDetail.js:30 | different numbers have different decimal texts |
| Common.DistinctHas | src/screens/LabBooking.js:54-85 | the distinct elements of a sequence are exactly its elements |
| Common.DistinctNoRepeats | src/screens/LabBooking.js:54-85 | the distinct elements repeat nothing |
| CaptureRecords.TimeLabel | src/screens/CaptureData.js:197-202 | the label has eight characters, 'hh:mm' then ' AM' iff hours < 12 and ' PM' otherwise |
| CaptureRecords.TimeLabelRoundTrip | src/screens/CaptureData.js:197-202 | the label reads back as the 24-hour time it was made from: hour 0 prints as 12 AM, hour 12 as 12 PM, and it says AM iff hours < 12 |
| CaptureRecords.RatData | src/screens/CaptureData.js:110 | keeps exactly the records of the rat, and no more records than there were |
| CaptureRecords.FindIndex | src/components/CaptureSubtypeDataModal.js:51-53 | `find` stops at the first matching record, and finds nothing iff no record matches |
| CaptureRecords.ByNameKeys | src/components/CaptureSubtypeDataModal.js:50-59 | the reduce gives a key for every sub-type name and no other |
| CaptureRecords.ByNameLastWins | src/components/CaptureSubtypeDataModal.js:54 | a name holds the value of the last sub-type that carries it |
| CaptureData.RequestedIds | src/screens/CaptureData.js:98-103 | the captured data is asked for the sub-type ids of a sub-typed test, and for the test id otherwise |
| CaptureData.LoadRatPlain | src/screens/CaptureData.js:124-130 | for a plain test, a rat's entry is its record's value or ''; it has data iff a record exists whose value is neither '' nor null; its remark is the record's or 'No Remarks' |
| CaptureData.MissingValueCountsAsExisting | src/screens/CaptureData.js:126-127 | a record without `t_value` shows an empty entry yet marks the rat as having data |
| CaptureData.LoadRatSubTyped | src/screens/CaptureData.js:112-123 | for a sub-typed test, every sub-type name has a key; a name no later sub-type repeats holds that sub-type's value; the rat has data iff some value is filled |
| CaptureData.LoadEntries | src/screens/CaptureData.js:109-131 | the load loop gives every rat of the group, and no other key, the entry, remark and flag of its records |
| CaptureData.SnapshotHasNoChanges | src/screens/CaptureData.js:155-167 | entries equal to their snapshot have no changes |
| CaptureData.SubmittedRemark | src/screens/CaptureData.js:209-210 | the submitted remark is never 'No Remarks', and any other remark passes unchanged |
| CaptureData.ChangedAmongSpec | src/screens/CaptureData.js:206-237 | a rat is posted for iff its entry or remark differs from the snapshot, 'No Remarks' counting as '' |
| CaptureData.NoChangesNothingSubmitted | src/screens/CaptureData.js:155-167 | when the change check finds nothing, the submit loop posts nothing, as long as every rat has an entry |
| CaptureData.ResubmitPostsNothing | src/screens/CaptureData.js:239-250 | right after a successful submit the snapshot is the sheet itself, so a second submit posts nothing |
| CaptureData.PayloadsSpec | src/screens/CaptureData.js:219-229 | one payload per posted rat, naming that rat, with call mode 'ADD_TEST', the entry as text and a non-empty remark |
| CaptureData.MarkExistingSpec | src/screens/CaptureData.js:232-235 | the posted rats get their data flag set; every other flag stays as it was |
| CaptureData.PostedWithoutFailure | src/screens/CaptureData.js:206-237 | when no post rejects, every changed rat is posted for |
| CaptureData.PostedAtFailure | src/screens/CaptureData.js:206-258 | a post rejected at a changed rat leaves exactly the changed rats before it posted |
| CaptureData.PostChanged | src/screens/CaptureData.js:206-237 | the loop posts, flags and counts exactly the changed rats in roster order, stopping at the rejected post if any |
| CaptureData.SubTypeProgress | src/screens/CaptureData.js:302-307 | null iff the test is plain; a sub-typed test gets its 'k/n completed' line |
| CaptureData.LoadedProgressBounded | src/screens/CaptureData.js:302-307 | right after the load, a rat's progress counts at most as many filled values as there are sub-types |
| CaptureData.ProgressAfterSubTypeSaveAsWritten | src/screens/CaptureData.js:436-438 | as written, a sub-type save stores the text 'undefined', so the progress reads '9/n completed' whatever was saved |
| CaptureData.ProgressAfterSubTypeSaveBounded | src/screens/CaptureData.js:302-307 | with the values handed back as a map, the progress never exceeds the sub-type count |
| CaptureData.Notice | src/screens/CaptureData.js:309-329 | no notice is shown iff the group is found, it has rats and the schedule date is valid |
| CaptureData.Row | src/screens/CaptureData.js:357-396 | the button reads View or Capture Data for a sub-typed test and Edit or Add for a plain one, and it is disabled iff the rat has data; a remark other than 'No Remarks' is shown |
| CaptureData.PostedRowsLocked | src/screens/CaptureData.js:232-235 | after a submit, the row of every rat that was posted for is locked |
| CaptureDataScreen.CaptureScreen.Load | src/screens/CaptureData.js:78-153 | nothing is fetched without a group or rats, or when the schedule date is not one of the test's dates; a failed fetch keeps the sheet; a successful one fills entries, remarks, flags and snapshot |
| CaptureDataScreen.CaptureScreen.Fill | src/screens/CaptureData.js:109-143 | the roster's entries, remarks and flags as the load loop gives them, the snapshot equal to them, and the completion status |
| CaptureDataScreen.CaptureScreen.HandleDataSave | src/screens/CaptureData.js:169-188 | only the saved rat's entry, remark and flag change; the value is stored as text; the flag is set iff the text is neither '' nor 'null'; the modals close |
| CaptureDataScreen.CaptureScreen.SubTypeSuccess | src/screens/CaptureData.js:436-438 | as written (first Findings row): the modal's `onSuccess()` passes no value, so the rat's entry becomes the text 'undefined' and the rat is flagged, whatever was submitted; the remark is kept |
| CaptureDataScreen.CaptureScreen.HandleSubTypeSave | src/screens/CaptureData.js:169-188 | the corrected half of the first Findings row, not the code as written: with the values handed back and kept as a map rather than stringified at line 170, the save stores the map, keeps the rat's remark, flags the rat iff some value is filled, and changes no other rat |
| CaptureDataScreen.CaptureScreen.OpenCapture | src/screens/CaptureData.js:269-276 | selects the rat and opens the modal the test uses |
| CaptureDataScreen.CaptureScreen.CloseModal | src/screens/CaptureData.js:278-282 | closes both modals and clears the selection |
| CaptureDataScreen.CaptureScreen.Progress | src/screens/CaptureData.js:302-307 | the progress line of a rat of the roster |
| CaptureDataScreen.CaptureScreen.Submit | src/screens/CaptureData.js:190-259 | posts for the changed rats. With no changes: the no-changes message and the snapshot kept. Otherwise the snapshot becomes the sheet and completion is refreshed, unless a post rejects |
| CaptureDataScreen.CaptureScreen.Conclude | src/screens/CaptureData.js:239-258 | the message and snapshot at the end of a submit, from the post count and whether a post rejected |
| CaptureSubtype.InitialFieldsSpec | src/components/CaptureSubtypeDataModal.js:50-59 | every sub-type name has an entry, and nothing else does; a name no later sub-type repeats holds its record's value and remark, each '' when missing |
| CaptureSubtype.RemarksOfSpec | src/components/CaptureSubtypeDataModal.js:63-68 | each name's remark is the snapshot's remark for that name |
| CaptureSubtype.ResetThrowsWithoutSnapshot | src/components/CaptureSubtypeDataModal.js:146-153 | as written, a reset before a successful load reads `.remark` of undefined and throws for any modal with a sub-type |
| CaptureSubtype.RemarksOfAgrees | src/components/CaptureSubtypeDataModal.js:146-153 | the corrected reset agrees with the original wherever the original does not throw, and always gives every sub-type name a remark |
| CaptureSubtype.CompletedBounded | src/components/CaptureSubtypeDataModal.js:71-75 | a snapshot keyed by sub-type names counts at most as many filled values as there are sub-types |
| CaptureSubtype.ViewModeMeansAllFilled | src/components/CaptureSubtypeDataModal.js:77 | view mode means every sub-type has a filled value in the snapshot, so sub-types sharing a name keep the modal out of view mode |
| CaptureSubtype.EditableFieldsAreMarked | src/components/CaptureSubtypeDataModal.js:89-99 | typing a value into a field the modal lets one edit always marks it as changed |
| CaptureSubtype.RemarkEditUnmarkedUnderFilledRemark | src/components/CaptureSubtypeDataModal.js:102-117 | remark keystrokes follow line 111: outside editing, an editable field whose snapshot remark is filled is not marked by a remark keystroke, though a value keystroke marks it |
| CaptureSubtype.FilledFieldsLockedOutsideEditing | src/components/CaptureSubtypeDataModal.js:293-298 | outside editing, a field with a filled initial value is disabled |
| CaptureSubtype.CallMode | src/components/CaptureSubtypeDataModal.js:207 | 'UPDATE_TEST' iff the snapshot value is truthy, else 'ADD_TEST' |
| CaptureSubtype.PostableAmongSpec | src/components/CaptureSubtypeDataModal.js:199-204 | a sub-type is posted for iff it is marked changed and its value is non-blank after trim |
| CaptureSubtype.NothingMarkedNothingPosted | src/components/CaptureSubtypeDataModal.js:199-204 | with no field marked changed, nothing is posted |
| CaptureSubtype.PayloadsSpec | src/components/CaptureSubtypeDataModal.js:205-215 | each payload names its sub-type and the rat, carries a non-blank value, is an update iff the snapshot value was filled, and has a non-empty remark |
| CaptureSubtype.PostedWithoutFailure | src/components/CaptureSubtypeDataModal.js:199-221 | when no post rejects, every postable sub-type is posted for |
| CaptureSubtype.PostedAtFailure | src/components/CaptureSubtypeDataModal.js:199-221 | a rejected post leaves exactly the postable sub-types before it posted |
| CaptureSubtype.PostSubTypes | src/components/CaptureSubtypeDataModal.js:199-221 | the loop posts exactly the postable sub-types in order, counting them, until the rejected post |
| CaptureSubtype.SubmitOutcome | src/components/CaptureSubtypeDataModal.js:199-241 | a post rejects iff a postable sub-type is numbered to reject; the submit ends with nothing posted iff no sub-type is postable |
| CaptureSubtype.LoopOutcome | src/components/CaptureSubtypeDataModal.js:197-237 | the count and failure the loop reports determine the end it reached |
| CaptureSubtype.SubmitMessage | src/components/CaptureSubtypeDataModal.js:232 | the success message gives the count and says 'updated' while editing, 'saved' otherwise |
| CaptureSubtypeModal.SubtypeModal.Load | src/components/CaptureSubtypeDataModal.js:44-87 | a guarded, successful load sets snapshot and entries to the initial map, the remarks from it, nothing changed, editing off, and view mode iff disabled and all filled, leaving message and error flag alone; a failure shows the load error and keeps the form, completion count and view mode; an unguarded call changes nothing |
| CaptureSubtypeModal.SubtypeModal.InputChange | src/components/CaptureSubtypeDataModal.js:89-100 | the entry takes the typed value and keeps its remark; it is marked changed iff editing or its snapshot value is empty; nothing else changes |
| CaptureSubtypeModal.SubtypeModal.RemarkChange | src/components/CaptureSubtypeDataModal.js:102-117 | the remark is stored in both maps and the value kept; it is marked changed iff editing or its snapshot remark is empty |
| CaptureSubtypeModal.SubtypeModal.Edit | src/components/CaptureSubtypeDataModal.js:123-126 | editing starts and view mode ends |
| CaptureSubtypeModal.SubtypeModal.Reset | src/components/CaptureSubtypeDataModal.js:146-158 | the corrected reset of the third Findings row (remarks read through `?.`, so it never throws): entries and remarks go back to the snapshot, editing ends, nothing is marked changed, and view mode is recomputed |
| CaptureSubtypeModal.SubtypeModal.Close | src/components/CaptureSubtypeDataModal.js:128-144 | with a field marked changed the exit confirmation opens; and form, focus and view mode are kept; otherwise the modal resets, with the corrected reset of the third Findings row, clearing the focus and recomputing view mode, and calls `onClose` |
| CaptureSubtypeModal.SubtypeModal.ConfirmExit | src/components/CaptureSubtypeDataModal.js:160-164 | the changes are discarded by the corrected reset of the third Findings row, which clears the focus and recomputes view mode, and `onClose` is called |
| CaptureSubtypeModal.SubtypeModal.CancelExit | src/components/CaptureSubtypeDataModal.js:166-168 | the exit confirmation closes and nothing else changes |
| CaptureSubtypeModal.SubtypeModal.SubmitConfirmation | src/components/CaptureSubtypeDataModal.js:170-178 | with nothing marked changed, the error 'No changes detected to submit.'; otherwise the submit confirmation opens |
| CaptureSubtypeModal.SubtypeModal.Submit | src/components/CaptureSubtypeDataModal.js:180-245 | posts the postable sub-types and ends with the outcome SubmitOutcome names; the error paths leave the success flag alone and the success path leaves the error flag alone |
| CaptureSubtypeModal.SubtypeModal.Conclude | src/components/CaptureSubtypeDataModal.js:223-244 | nothing posted: 'No valid data to submit.'. A rejection: the failure message. Otherwise the completion count is recomputed and, when the cache update resolves, the success message with the count. Each error path leaves the success flag alone, and the success path the error flag |
| CaptureSubtypeModal.SubtypeModal.SuccessClose | src/components/CaptureSubtypeDataModal.js:247-253 | reset to the snapshot by the corrected reset of the third Findings row, clearing the focus and recomputing view mode, then `onClose` and `onSuccess` are called once each |
| TestDataEntry.SaveOf | src/components/TestDataModal.js:27-33 | a blank value raises the alert and saves nothing; any other value is saved untrimmed, with the remarks |
| TestDataEntry.TestDataModal.Rerender | src/components/TestDataModal.js:19-24 | when a dependency changed and the modal is visible, value and remarks go back to the initial ones ('' when missing); otherwise what was typed stays |
| TestDataEntry.TestDataModal.Save | src/components/TestDataModal.js:27-33 | a blank value adds an alert and no save; otherwise exactly one `onSave(value, remarks)` is recorded |
| TestDataEntry.TestDataModal.Close | src/components/TestDataModal.js:35-37 | `onClose` is called once and nothing is saved |
| TestDataEntry.TestDataModal.TypeValue | src/components/TestDataModal.js:63 | the typed text replaces the value; the remarks and the logs of saves, alerts and `onClose` calls stay the same |
| TestDataEntry.TestDataModal.TypeRemarks | src/components/TestDataModal.js:76 | the typed text replaces the remarks; the value and the logs of saves, alerts and `onClose` calls stay the same |
| TestDataEntry.ReopenForAnotherRat | src/components/TestDataModal.js:19-24 | reopening the modal for another rat discards what was typed: value and remarks are the new rat's initial ones |
| StudyResult.CurrentDayIsJune14 | src/screens/StudyResult.js:27 | the fixed current day is 2025-06-14 |
| StudyResult.ValidInitialTab | src/screens/StudyResult.js:20 | the opening tab is kept iff it names one of the four tabs, else 'Today' |
| StudyResult.ValidInitialGroup | src/screens/StudyResult.js:19 | the opening group is kept iff a group of the project has that study type, else 'All' |
| StudyResult.ValidInitialTest | src/screens/StudyResult.js:21 | a non-empty opening test is kept iff it is 'All' or names one of the project's tests, else 'All' |
| StudyResult.RevalidationSettles | src/screens/StudyResult.js:30-44 | the validation effect always leaves a selectable group and test, changes nothing already selectable, and is idempotent |
| StudyResult.OpeningSelectionIsStable | src/screens/StudyResult.js:19-44 | the validated opening selection is never undone by the validation effect |
| StudyResult.AssociatedGroupsSpec | src/screens/StudyResult.js:55-57 | a group is associated iff one of the project's tasks for that test carries it |
| StudyResult.GroupInfoSpec | src/screens/StudyResult.js:59-61 | a test no task references is attributed to every group of the project; a referenced test only to its referencing groups |
| StudyResult.SlotEntriesFit | src/screens/StudyResult.js:63-89 | every pushed entry carries the slot's test, status, day and occurrence, one attributed group, and that group's completion, which is the wanted one when there is one |
| StudyResult.SlotEntriesComplete | src/screens/StudyResult.js:63-130 | every attributed group that passes a push's completion filter gets its entry |
| StudyResult.DatedEntriesComplete | src/screens/StudyResult.js:90-130 | every schedule date before today gives an entry, tagged with its index, for every attributed group whose completion at that date is 'Pending' (Overdue) or 'Completed' |
| StudyResult.TestEntriesComplete | src/screens/StudyResult.js:63-130 | every entry that fits the tab for the test is pushed: one per attributed group for Today and Upcoming, and per past date and group with the wanted status for Overdue and Completed |
| StudyResult.ListingComplete | src/screens/StudyResult.js:50-131 | an entry that fits the tab for a project test passing the test filter is listed |
| StudyResult.ListingExact | src/screens/StudyResult.js:50-131 | the listing holds an entry iff it fits the selected tab for a project test that passes the test filter |
| StudyResult.DatedEntriesFit | src/screens/StudyResult.js:90-130 | Overdue and Completed entries show a schedule date before today, for an attributed group whose completion at that date is 'Pending' (Overdue) or 'Completed' |
| StudyResult.TestEntriesFit | src/screens/StudyResult.js:63-130 | Today entries need status 'Today' and show today; Upcoming entries need a next date after today and show it; dated entries as above |
| StudyResult.TodayOnePerGroup | src/screens/StudyResult.js:63-75 | under Today, a test whose status is 'Today' gets exactly one entry per attributed group |
| StudyResult.ListingFits | src/screens/StudyResult.js:50-131 | every listed entry is for a test of the project that passes the test filter, and fits the selected tab |
| StudyResult.CollectEntries | src/screens/StudyResult.js:49-131 | the listing loops push exactly the modelled listing |
| StudyResult.GroupedSpec | src/screens/StudyResult.js:133-139 | sections have distinct names; a name has a section iff a shown entry has that group; each section holds exactly its group's shown entries, in listing order |
| StudyResult.GroupEntries | src/screens/StudyResult.js:133-139 | the gathering loop builds exactly that grouping |
| StudyResult.OnlySelectedGroup | src/screens/StudyResult.js:136 | under a selected group, only that group's section can appear |
| StudyResult.CompareAsWrittenInconsistent | src/screens/StudyResult.js:142-146 | as written, two pending entries each compare below the other, and a pending and a non-pending entry compare equal in either order |
| StudyResult.PendingFirstSorted | src/screens/StudyResult.js:141-147 | the corrected within-group order is a permutation with the pending entries first, each part in its original order |
| StudyResult.PositionOfSpec | src/screens/StudyResult.js:155-156 | `findIndex` gives the first group with the name, and -1 iff there is none |
| StudyResult.OrderGroupsOrdered | src/screens/StudyResult.js:149-158 | the groups come out in comparator order: a group holding a pending entry first, then by position in the project's group list |
| StudyResult.OrderGroupsStable | src/screens/StudyResult.js:149-158 | the group sort is stable: groups the comparator ties (alike in holding a pending entry and at the same group-list position) keep their relative order |
| StudyResult.InsertStable | src/screens/StudyResult.js:149-158 | one insertion step of that sort puts the new group after every group it ties with |
| StudyResult.PendingGroupsFirst | src/screens/StudyResult.js:151-154 | in that order every group holding a pending entry comes before every group holding none |
| StudyResult.EmptyNoticeSpec | src/screens/StudyResult.js:222-224 | 'No tests are available' shows iff no listed entry passes the group filter |
| StudyResult.GroupsNonEmpty | src/screens/StudyResult.js:137-138 | every section holds an entry |
| StudyResult.StudyResultScreen.constructor | src/screens/StudyResult.js:19-24 | the opening selections are the validated parameters |
| StudyResult.StudyResultScreen.Revalidate | src/screens/StudyResult.js:30-44 | the validation effect resets an unknown group or test to 'All' |
| StudyResult.StudyResultScreen.Refresh | src/screens/StudyResult.js:46-165 | the listing effect stores the ordered groups of the shown entries, sorted within each group by the corrected pending-first order of the fourth Findings row |
| FilterSheet.Edited | src/components/StudyResultFilterModal.js:67-97 | an edit changes only its own field of the draft |
| FilterSheet.LastEditWins | src/components/StudyResultFilterModal.js:67-97 | when an edit is the last one of its control, the draft's field holds the value it set, whatever earlier edits set |
| FilterSheet.UntouchedKept | src/components/StudyResultFilterModal.js:67-97 | a control that was never touched keeps its starting value |
| FilterSheet.FilterModal.Rerender | src/components/StudyResultFilterModal.js:21-25 | when `visible` or `filters` changed and the sheet is visible, the draft is reset to the parent's filters; otherwise it stays |
| FilterSheet.FilterModal.EditFilter | src/components/StudyResultFilterModal.js:67-97 | the draft takes the edit; the parent's filters do not change |
| FilterSheet.FilterModal.Apply | src/components/StudyResultFilterModal.js:27-30 | the parent's filters become the draft, and `onClose` is called |
| FilterSheet.FilterModal.Clear | src/components/StudyResultFilterModal.js:32-41 | draft and filters become the current date with group and test 'All', and `onClose` is called |
| FilterSheet.FilterModal.Dismiss | src/components/StudyResultFilterModal.js:48-57 | `onClose` is called and nothing is applied |
| FilterSheet.OpenEditApply | src/components/StudyResultFilterModal.js:19-41 | applying publishes exactly the edited draft; dismissing leaves the filters as they were; the next opening starts from the published filters |
| TestDetail.GenerateAnimalData | src/screens/TestDetail.js:22-46 | the two counting loops build the roster, numbering females from `no_of_male || 0`: the corrected line 39 of the fifth Findings row |
| TestDetail.RosterShape | src/screens/TestDetail.js:22-46 | for the corrected roster of the fifth Findings row: `no_of_male` males then `no_of_female` females (a missing or null count as none); subject k has id species+k; none is completed |
| TestDetail.RosterIdsDistinct | src/screens/TestDetail.js:100-102 | the ids are pairwise distinct, as list keys need |
| TestDetail.NoneCompletedCountsZero | src/screens/TestDetail.js:50 | a roster with nothing completed has a completed count of 0 |
| TestDetail.RosterProgress | src/screens/TestDetail.js:48-50 | the progress reads 0 of n for a roster of n |
| TestDetail.RosterAsWrittenAgrees | src/screens/TestDetail.js:37-43 | whenever `no_of_male` is present, null or a number, the loops as written give that roster |
| TestDetail.RosterAsWrittenRepeatsIds | src/screens/TestDetail.js:39 | as written, with `no_of_male` missing and two or more females, every female gets the id species+'NaN', so the keys repeat |
| AnimalDetails.SpeciesName | src/screens/AnimalDetails.js:19-24 | R, P, M, D name their species; anything else reads 'Unknown' |
| AnimalDetails.AllAnimalsLayout | src/screens/AnimalDetails.js:27-32 | male header iff males, the males, female header iff females, the females; length m + f + non-empty lists |
| AnimalDetails.AllAnimalsCards | src/screens/AnimalDetails.js:16-32 | dropping headers gives back the males then the females (a non-array list as empty); one header per non-empty list |
| AnimalDetails.ScreenBody | src/screens/AnimalDetails.js:76-78 | the no-animals message iff both lists are empty, else the sectioned list |
| AnimalDetails.HeaderPositions | src/screens/AnimalDetails.js:27-32 | a header sits either first, keyed 'male', when there are males, or right after the male cards, keyed 'female' |
| AnimalDetails.AllAnimalsKeys | src/screens/AnimalDetails.js:83 | the list keys: a card is keyed by its `a_id`, a header by 'male' or 'female', and of two headers the first is 'male' and the second 'female', so the header keys differ |
| AnimalDetails.TypeLabel | src/screens/AnimalDetails.js:56 | 'Male' iff 'M', 'Female' iff 'F', 'Unknown' otherwise |
| AnimalDetails.OrNotAvailable | src/screens/AnimalDetails.js:57-59 | 'N/A' for a missing or empty field; the field itself otherwise |
| AnimalDetails.DateLine | src/screens/AnimalDetails.js:35-46 | 'N/A' for a missing or empty date; the formatted date otherwise |
| BloodChemistry.InitialRatsShape | src/screens/TestList2.js:6-17 | ten rats R1..R10, the first five male and the rest female, with all six fields empty |
| BloodChemistry.CompletionStatus | src/screens/TestList2.js:75-79 | total is 6 and filled is at most total |
| BloodChemistry.HasAnyIffFilled | src/screens/TestList2.js:70-79 | a rat has some measurement iff its filled count is positive |
| BloodChemistry.FilledAll | src/screens/TestList2.js:75-79 | all fields are filled iff none is blank |
| BloodChemistry.FilledAfterSet | src/screens/TestList2.js:30-34 | setting one field changes the filled count by that field alone |
| BloodChemistry.BloodChemistryScreen.UpdateMeasurement | src/screens/TestList2.js:30-34 | exactly one field of one rat takes the value; all other rats and fields, ids and genders are unchanged |
| BloodChemistry.BloodChemistryScreen.ClearAllMeasurements | src/screens/TestList2.js:48-67 | only a confirmed clear empties every field, keeping ids and genders |
| Bookings.GroupBookings | src/screens/Test.js:100-129 | the grouping loop returns exactly the modelled reduce |
| Bookings.GroupSpec | src/screens/LabBooking.js:54-85 | one lab per distinct lab name ('Unassigned Lab' when missing), in first-appearance order, with its first row's id; one activity per distinct activity name, with its first row's fields and all its rows' equipment in order |
| Bookings.EquipmentCount | src/screens/Test.js:104-126 | the equipment entries across all labs are exactly as many as the rows |
| Bookings.Fetched | src/screens/Test.js:92-141 | a failed request gives no bookings; otherwise the grouping of the answered rows (none when the data is missing), keeping every row's equipment |
| LabApp.LabBookingApp.FetchBookings | src/screens/Test.js:92-141 | loading ends and the bookings are the grouped rows, or none on failure; the screen state is untouched |
| LabApp.LabBookingApp.PressEnterLab | src/screens/Test.js:165-168 | a press on an enabled button selects the activity and opens the camera; the disabled button of a completed booking ignores it |
| LabApp.LabBookingApp.LabSelect | src/screens/Test.js:170-173 | the lab is selected and the activities screen opens |
| LabApp.LabBookingApp.StartAnalysis | src/screens/Test.js:175-180 | the analysis screen opens with no steps completed, step -1 and completion off |
| LabApp.LabBookingApp.AnalysisEffect | src/screens/Test.js:144-163 | entering the analysis screen sets step 0 and starts the interval |
| LabApp.LabBookingApp.Tick | src/screens/Test.js:147-158 | the shared tick: the active step's key is completed and the step advances, up to the number of steps |
| LabApp.LabBookingApp.CompletionTimeout | src/screens/Test.js:154 | the pending one-second timeout marks the analysis complete and clears the pending flag; the screen, selections, bookings, steps and interval stay the same |
| LabApp.LabBookingApp.ResetToBookings | src/screens/Test.js:182-189 | back to the list, with activity, lab, steps and completion cleared |
| LabApp.LabBookingApp.BackToLabs | src/screens/Test.js:191-194 | back to the list, clearing only the lab |
| Analysis.Advance | src/screens/AnalysisScreen.js:24-34 | below the last step the key is added and the step advances; at the last step the key is added, the step moves past it and completion is scheduled; past it nothing changes |
| Analysis.AdvanceKeepsProgress | src/screens/AnalysisScreen.js:24-34 | the completed set stays exactly the keys of the steps before the active one, so it never shrinks and the step never passes the step count |
| Analysis.RunFromStart | src/screens/AnalysisScreen.js:21-38 | after n ticks from mounting, the step is n capped at 4 and the completed keys are those of the steps before it |
| Analysis.AllChecksAfterFourTicks | src/screens/AnalysisScreen.js:25-31 | from four ticks on, all four safety checks are completed |
| Analysis.AnalysisScreen.Mount | src/screens/AnalysisScreen.js:21-23 | mounting sets step 0 and starts the interval |
| Analysis.AnalysisScreen.IntervalTick | src/screens/AnalysisScreen.js:23-35 | one tick applies the updater and keeps the screen's invariant |
| Analysis.AnalysisScreen.CompletionTimeout | src/screens/AnalysisScreen.js:30 | the pending timeout marks the analysis complete |
| Analysis.AnalysisScreen.Unmount | src/screens/AnalysisScreen.js:37 | the cleanup stops the interval |
| LabBooking.ScreenTypeOf | src/screens/LabBooking.js:14-25 | xs below 350, sm below 768, md below 1024, lg otherwise, each as an if-and-only-if |
| LabBooking.WiderNeverSmaller | src/screens/LabBooking.js:20-35 | a wider window never gives a smaller size class or padding, and never loses the tablet layout |
| LabBooking.GridColumns | src/screens/LabBooking.js:144-149 | two columns iff tablet and more than one lab, one otherwise |
| LabBooking.GridRows | src/screens/LabBooking.js:197-233 | rows are consecutive slices of `columns` labs that give the list back; no row is empty; only the last may be short; a row has a filler iff it is short |
| LabBooking.RenderBookings | src/screens/LabBooking.js:151-234 | the empty notice iff no bookings; the grid iff tablet and more than one; else the single column of all bookings; grid rows hold one or two labs, with a filler iff one |
| LabBooking.BadgeReadsBack | src/screens/LabBooking.js:177 | the badge starts with the count, which reads back, and says 'activity' iff the count is one |
| LabBooking.PreviewShort | src/screens/LabBooking.js:189-190 | with at most two activities the preview is their names joined by ', ' |
| LabBooking.PreviewHidden | src/screens/LabBooking.js:189-190 | with more, the first two names and ' +N more', where N reads back as the count minus two |
| LabBooking.LabBookingScreen.FetchBookings | src/screens/LabBooking.js:46-94 | the bookings are the grouped rows, or none on failure, and loading ends |
| LabBooking.LabBookingScreen.Resize | src/screens/LabBooking.js:38-43 | the width changes and nothing else |
| LabBooking.LabBookingScreen.LabSelect | src/screens/LabBooking.js:113-119 | the lab is selected and pushed to the router once |
| LabBooking.LabBookingScreen.Render | src/screens/LabBooking.js:129-234 | the padding of the current size class, and the layout of the bookings for it |

## Left out

- Network and storage: every service call is an input to the model. This covers the activity, group, test and booking lists, the captured data, the posts and the completion cache. An answer is a value, a post that rejects is the index at which it fails, and a thrown exception is `None` or `Threw`.
- The context functions `getTestSchedule`, `getCompletionStatus`, `getCapturedData`, `updateCompletionCache` and `getRatIds` have no body in the modelled files. They are parameters, so nothing is assumed about their calling convention.
- Dates are integer day numbers. `new Date(text)`, `toISOString` and `toLocaleDateString` are library behaviour and are not modelled. The one exception is DatePicker's arithmetic on epoch milliseconds, which is modelled after section 21.4.1 of ECMA-262. The clock (`new Date()`) is a parameter.
- AnimalDetails.DateLine: the locale date formatting of a non-empty date is a parameter. The model states only when 'N/A' is shown.
- Timers: `setInterval` and `setTimeout` are left out. Their callbacks are the tick and timeout methods, which the caller invokes. The completion timeout that a reset leaves pending is not cancelled in the model either, as in the source.
- Rendering, styles, icons, the window height, the `Dimensions` listener's cleanup, and the status colours are not modelled. Router navigation is a log of the labs passed to it. Alert and confirmation dialogs are a `confirmed` flag and counters.
- React scheduling: each handler's state updates are applied at once, in order. Batching, StrictMode double calls and stale closures are not modelled. Effect dependencies are compared by value, while React compares props by reference.
- ToLowerAscii: lowers only the ASCII capitals, while `toLowerCase` also lowers other capitals ('É' becomes 'é'). The status ranks are unaffected: a non-ASCII capital lowers to text holding a non-ASCII character, or (the Kelvin sign) to 'k', and neither 'in progress' nor 'completed' holds such a character.
- EditableFieldsAreMarked: covers value keystrokes only. Remark keystrokes follow line 111's own condition, which RemarkEditUnmarkedUnderFilledRemark states.
- The project context as the screens read it: CaptureData.js:30, AnimalDetails.js:11 and StudyResult.js:12 index `projectTitles`, and CaptureSubtypeDataModal.js:25 reads `getCapturedData` and `updateCompletionCache`. The context value at context/ProjectContext.js:130-142 defines none of these. The models of those screens assume a provider that supplies them; only TestList's crash is modelled (second Findings row).
- A 200 answer without `data`: context/ProjectContext.js:78 stores the group list raw, so the source keeps `undefined` where the model stores the empty list. The title effect at context/ProjectContext.js:123-128 reads that entry; it is not part of this model.
- JSON field values are modelled only as a string, `undefined` or `null`. A number, boolean or object changes behaviour in three places the model does not capture: the status's `toLowerCase` at context/ProjectContext.js:57 would throw; the `t_value || ''` defaults at src/screens/CaptureData.js:118, 127 and src/components/CaptureSubtypeDataModal.js:55 replace `0` and `false` by '', while the `!== ''` test at src/screens/CaptureData.js:126 still counts them as existing data; and the `|| 'N/A'` fallbacks at src/screens/AnimalDetails.js:57-59 show 'N/A' for `0`.
- Floating-point percentages (TestList2.js:78 and the progress bars) are display-only and left out.
- BloodChemistry.CompletionStatus: does not model the percentage half of `getCompletionStatus`, which is floating point.
- Records that are not objects: the reduces would throw on `null` items, which the model does not represent.
- JavaScript objects used as dictionaries are maps. The order of `Object.keys` is the insertion order; the special order of integer-like keys is not modelled. A study type or sub-type name such as "constructor", which would hit an inherited property, is not modelled either.
- The booking grouping mutates the accumulated lab and activity objects in place. It is modelled on values: the lab in the sequence is replaced by its updated copy. Aliasing of these objects is not captured.
- TestDetail's counts arrive as JSON numbers, null or missing. A count given as a string ("3" + 1 concatenates) is not modelled.
- TestDataEntry.TestDataModal.constructor: a `null` initial value while the modal is hidden is taken as '', as the effect's first visible run does.
- ProjectContext.IsTestScheduledToday: `daysSinceStart` is fixed by the two configured dates. The model takes the offset `d` as a parameter and proves the configured value 7 only through ConfiguredSchedule.
- StudyResult: tab revalidation is omitted because the tab is a datatype and is always valid. The `projectTitles` lookup is also omitted, because the provider does not define it (see the findings).
- CaptureData: the submit button exists only for plain tests, so CaptureScreen.Submit models only plain tests. `isSubmitting` is only visible while a request is pending, so it is not modelled in either capture screen.
- CaptureSubtypeModal.SubtypeModal.Focus: the focused field only affects styling.
- getSpeciesType's lookup for an inherited key: a `species_type` of "constructor" would not give 'Unknown'. The model treats every unknown code as 'Unknown'.

## Findings

| source | as written | input that shows it | evidently intended | confidence | as-written member | corrected member |
|---|---|---|---|---|---|---|
| src/components/CaptureSubtypeDataModal.js:251 with src/screens/CaptureData.js:436-438 | the modal calls `onSuccess()` with no argument, so the capture screen stores `String(undefined)` as the rat's entry and the progress counts its characters | a sub-typed test with 3 sub-types, after any successful sub-type submit: the row reads '9/3 completed' | the submitted values are handed back and line 170 keeps them as a map instead of their JSON text, so the progress counts filled sub-types, at most n | not executed | CaptureData.ProgressAfterSubTypeSaveAsWritten | CaptureData.ProgressAfterSubTypeSaveBounded |
| src/screens/TestList.js:8-12 | the screen destructures `projectTitles` and `errors` from the context, which the provider never defines, and indexes them | any project: `projectTitles[ref_num]` throws a TypeError on undefined | a missing title falls back to the reference number, and a missing error map means no error; CaptureData.js:30, AnimalDetails.js:11 and StudyResult.js:12 index the same missing `projectTitles` | not executed | TestList.RenderUnderProviderCrashes | TestList.RenderUnderProviderShowsTests |
| src/components/CaptureSubtypeDataModal.js:150 | `resetModal` reads `initialData[name].remark`, which throws while the snapshot lacks the name | close the modal of a rat with one sub-type before its load resolved, or after a failed load with no earlier successful one: the reset throws and `onClose` is never called | each remark is read through `?.`, giving '' | not executed | CaptureSubtype.ResetThrowsWithoutSnapshot | CaptureSubtype.RemarksOfAgrees |
| src/screens/StudyResult.js:142-146 | the within-group comparator ranks `b` pending as 1 and `a` pending as 0, so it is inconsistent | two pending entries: each compares below the other; a pending and a completed entry compare equal | pending entries before the others, stable otherwise | not executed | StudyResult.CompareAsWrittenInconsistent | StudyResult.PendingFirstSorted |
| src/screens/TestDetail.js:39 | female ids add `no_of_male` without the zero default used at line 24 | a group with `no_of_male` missing and 2 females: both ids are species+'NaN' | females numbered on from the male count, with a missing count taken as 0 | not executed | TestDetail.RosterAsWrittenRepeatsIds | TestDetail.RosterIdsDistinct |
