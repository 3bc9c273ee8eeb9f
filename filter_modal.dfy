/** The filter sheet of src/components/StudyResultFilterModal.js: edits go
    to a private draft (`tempFilters`) and reach the parent's `filters` only
    through Apply or Clear; reopening the sheet discards an unapplied draft. */
module FilterSheet {

  /** A filter: a start date (as a day number), a group and a test, where
      'All' means no restriction. */
  datatype Filters = Filters(startDate: int, group: string, test: string)

  /** The filter Clear installs. */
  function Defaults(currentDate: int): (r: Filters)
    ensures r.startDate == currentDate && r.group == "All" && r.test == "All"
  {
    Filters(currentDate, "All", "All")
  }

  /** One control of the sheet. */
  datatype Edit = SetDate(date: int) | SetGroup(group: string) | SetTest(test: string)

  /** The `setTempFilters(prev => ({ ...prev, field: value }))` updaters:
      the edited field takes the value, the other two keep theirs. */
  function Edited(f: Filters, e: Edit): (r: Filters)
    ensures r.startDate == (if e.SetDate? then e.date else f.startDate)
    ensures r.group == (if e.SetGroup? then e.group else f.group)
    ensures r.test == (if e.SetTest? then e.test else f.test)
  {
    match e
    case SetDate(d) => f.(startDate := d)
    case SetGroup(g) => f.(group := g)
    case SetTest(t) => f.(test := t)
  }

  /** A sequence of edits applied in order. */
  function EditedAll(f: Filters, edits: seq<Edit>): Filters
  {
    if |edits| == 0 then f else Edited(EditedAll(f, edits[..|edits| - 1]), edits[|edits| - 1])
  }

  /** The last edit of a control wins: when `edits[i]` is the last edit of
      its control, the draft's field holds the value it set, whatever
      earlier edits of that control set. */
  lemma {:induction false} LastEditWins(f: Filters, edits: seq<Edit>, i: nat)
    requires i < |edits|
    ensures edits[i].SetGroup? && (forall j :: i < j < |edits| ==> !edits[j].SetGroup?) ==>
      EditedAll(f, edits).group == edits[i].group
    ensures edits[i].SetTest? && (forall j :: i < j < |edits| ==> !edits[j].SetTest?) ==>
      EditedAll(f, edits).test == edits[i].test
    ensures edits[i].SetDate? && (forall j :: i < j < |edits| ==> !edits[j].SetDate?) ==>
      EditedAll(f, edits).startDate == edits[i].date
  {
    var n := |edits| - 1;
    if i < n {
      LastEditWins(f, edits[..n], i);
    }
  }

  /** A control that was never touched keeps its starting value. */
  lemma {:induction false} UntouchedKept(f: Filters, edits: seq<Edit>)
    ensures (forall i :: 0 <= i < |edits| ==> !edits[i].SetGroup?) ==> EditedAll(f, edits).group == f.group
    ensures (forall i :: 0 <= i < |edits| ==> !edits[i].SetTest?) ==> EditedAll(f, edits).test == f.test
    ensures (forall i :: 0 <= i < |edits| ==> !edits[i].SetDate?) ==> EditedAll(f, edits).startDate == f.startDate
  {
    if |edits| > 0 {
      UntouchedKept(f, edits[..|edits| - 1]);
    }
  }

  /** The sheet with its props (`visible`, the parent's `filters`, which
      `setFilters` updates, and `currentDate`) and its own draft. */
  class FilterModal {
    var visible: bool
    var filters: Filters
    var tempFilters: Filters
    const currentDate: int
    /** How many times `onClose` was called. */
    var closeCalls: nat

    /** The first render: the draft starts as the parent's filters (and the
        effect's first run copies them again when the sheet is visible). */
    constructor (visible: bool, filters: Filters, currentDate: int)
      ensures this.visible == visible && this.filters == filters && this.currentDate == currentDate
      ensures tempFilters == filters && closeCalls == 0
    {
      this.visible := visible;
      this.filters := filters;
      this.tempFilters := filters;
      this.currentDate := currentDate;
      closeCalls := 0;
    }

    /** A re-render with new props: the effect runs when `visible` or
        `filters` changed and, when the sheet is visible, resets the draft
        to the parent's filters. */
    method Rerender(newVisible: bool, newFilters: Filters)
      modifies this`visible, this`filters, this`tempFilters
      ensures visible == newVisible && filters == newFilters
      ensures (old(visible) != newVisible || old(filters) != newFilters) && newVisible ==>
        tempFilters == newFilters
      ensures !((old(visible) != newVisible || old(filters) != newFilters) && newVisible) ==>
        tempFilters == old(tempFilters)
    {
      var changed := visible != newVisible || filters != newFilters;
      visible := newVisible;
      filters := newFilters;
      if changed && visible {
        tempFilters := filters;
      }
    }

    /** The date picker or one of the two dropdowns: the draft changes, the
        parent's filters do not. */
    method EditFilter(e: Edit)
      modifies this`tempFilters
      ensures tempFilters == Edited(old(tempFilters), e)
    {
      tempFilters := Edited(tempFilters, e);
    }

    /** `handleApply`: the draft becomes the parent's filters and the sheet
        asks to close. */
    method Apply()
      modifies this`filters, this`closeCalls
      ensures filters == tempFilters && closeCalls == old(closeCalls) + 1
    {
      filters := tempFilters;
      closeCalls := closeCalls + 1;
    }

    /** `handleClear`: draft and filters both become the defaults, and the
        sheet asks to close. */
    method Clear()
      modifies this`filters, this`tempFilters, this`closeCalls
      ensures filters == Defaults(currentDate) && tempFilters == Defaults(currentDate)
      ensures closeCalls == old(closeCalls) + 1
    {
      var defaultFilters := Filters(currentDate, "All", "All");
      tempFilters := defaultFilters;
      filters := defaultFilters;
      closeCalls := closeCalls + 1;
    }

    /** The overlay or the close icon: `onClose` alone, nothing applied. */
    method Dismiss()
      modifies this`closeCalls
      ensures closeCalls == old(closeCalls) + 1
    {
      closeCalls := closeCalls + 1;
    }
  }

  /** Opening the sheet, editing, and applying publishes exactly the edited
      draft; dismissing instead leaves the parent's filters as they were,
      and the next opening starts from them again. */
  method OpenEditApply(filters: Filters, currentDate: int, edits: seq<Edit>, apply: bool)
    returns (published: Filters, draftOnReopen: Filters)
    ensures apply ==> published == EditedAll(filters, edits)
    ensures !apply ==> published == filters
    ensures draftOnReopen == published
  {
    var sheet := new FilterModal(false, filters, currentDate);
    sheet.Rerender(true, filters);
    var i := 0;
    while i < |edits|
      invariant 0 <= i <= |edits|
      invariant sheet.tempFilters == EditedAll(filters, edits[..i])
      invariant sheet.filters == filters && sheet.visible
      modifies sheet
    {
      assert edits[..i + 1][..i] == edits[..i];
      sheet.EditFilter(edits[i]);
      i := i + 1;
    }
    assert edits[..|edits|] == edits;
    if apply {
      sheet.Apply();
    } else {
      sheet.Dismiss();
    }
    published := sheet.filters;
    sheet.Rerender(false, published);
    sheet.Rerender(true, published);
    draftOnReopen := sheet.tempFilters;
  }
}
