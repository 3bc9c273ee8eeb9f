/** The value-entry dialog of src/components/TestDataModal.js: a test value
    and remarks, reset from the props whenever the dialog is shown for
    another rat or other initial values, and handed to `onSave` only when
    the value is not blank. */
module TestDataEntry {
  import opened Common

  /** What pressing Save does with the typed value and remarks: a blank
      value (empty or only white space) raises the error alert and saves
      nothing; any other value is passed on untrimmed with the remarks. */
  datatype SaveOutcome = EmptyValueAlert | Saved(value: string, remarks: string)

  function SaveOf(testValue: string, remarks: string): (r: SaveOutcome)
    ensures r.EmptyValueAlert? <==> Blank(testValue)
    ensures r.Saved? ==> r.value == testValue && r.remarks == remarks
  {
    if Blank(testValue) then EmptyValueAlert else Saved(testValue, remarks)
  }

  /** A saved value always holds a character other than white space, so its
      `trim()` is not empty. */
  lemma SavedValueHasContent(testValue: string, remarks: string)
    requires SaveOf(testValue, remarks).Saved?
    ensures FirstNonBlank(SaveOf(testValue, remarks).value).Some?
  {
  }

  /** The dialog with its props and state, and what it reported to its
      parent. */
  class TestDataModal {
    var visible: bool
    var ratId: string
    var initialValue: JsField
    var initialRemarks: JsField
    var testValue: string
    var remarks: string
    /** The `onSave(testValue, remarks)` calls, in order. */
    var saves: seq<(string, string)>
    /** How many times `onClose` was called. */
    var closeCalls: nat
    /** How many 'Test value cannot be empty.' alerts were raised. */
    var alerts: nat

    /** The mount: state from the initial props (`|| ''` as the effect's
        first run applies it when the dialog is visible). */
    constructor (visible: bool, ratId: string, initialValue: JsField, initialRemarks: JsField)
      ensures this.visible == visible && this.ratId == ratId
      ensures this.initialValue == initialValue && this.initialRemarks == initialRemarks
      ensures testValue == FieldOrEmpty(initialValue) && remarks == FieldOrEmpty(initialRemarks)
      ensures saves == [] && closeCalls == 0 && alerts == 0
    {
      this.visible := visible;
      this.ratId := ratId;
      this.initialValue := initialValue;
      this.initialRemarks := initialRemarks;
      testValue := FieldOrEmpty(initialValue);
      remarks := FieldOrEmpty(initialRemarks);
      saves := [];
      closeCalls := 0;
      alerts := 0;
    }

    /** A re-render with new props: when any of `visible`, `ratId`,
        `initialValue`, `initialRemarks` changed and the dialog is visible,
        value and remarks go back to the initial ones ('' for a missing or
        null one); otherwise what was typed stays. */
    method Rerender(newVisible: bool, newRatId: string, newInitialValue: JsField, newInitialRemarks: JsField)
      modifies this`visible, this`ratId, this`initialValue, this`initialRemarks, this`testValue, this`remarks
      ensures visible == newVisible && ratId == newRatId
      ensures initialValue == newInitialValue && initialRemarks == newInitialRemarks
      ensures var changed := old(visible) != newVisible || old(ratId) != newRatId ||
          old(initialValue) != newInitialValue || old(initialRemarks) != newInitialRemarks;
        if changed && newVisible
        then testValue == FieldOrEmpty(newInitialValue) && remarks == FieldOrEmpty(newInitialRemarks)
        else testValue == old(testValue) && remarks == old(remarks)
    {
      var changed := visible != newVisible || ratId != newRatId ||
        initialValue != newInitialValue || initialRemarks != newInitialRemarks;
      visible, ratId, initialValue, initialRemarks := newVisible, newRatId, newInitialValue, newInitialRemarks;
      if changed && visible {
        testValue := FieldOrEmpty(initialValue);
        remarks := FieldOrEmpty(initialRemarks);
      }
    }

    /** Typing into the value field. */
    method TypeValue(text: string)
      modifies this`testValue
      ensures testValue == text
    {
      testValue := text;
    }

    /** Typing into the remarks field. */
    method TypeRemarks(text: string)
      modifies this`remarks
      ensures remarks == text
    {
      remarks := text;
    }

    /** `handleSave`. */
    method Save()
      modifies this`saves, this`alerts
      ensures SaveOf(testValue, remarks).EmptyValueAlert? ==> saves == old(saves) && alerts == old(alerts) + 1
      ensures SaveOf(testValue, remarks).Saved? ==> saves == old(saves) + [(testValue, remarks)] && alerts == old(alerts)
    {
      if Blank(testValue) {
        alerts := alerts + 1;
        return;
      }
      saves := saves + [(testValue, remarks)];
    }

    /** Cancel, the close icon, the back button or a press outside the
        dialog: `onClose` only. */
    method Close()
      modifies this`closeCalls
      ensures closeCalls == old(closeCalls) + 1
    {
      closeCalls := closeCalls + 1;
    }
  }

  /** Reopening the dialog for another rat discards what was typed for the
      previous one: the value and remarks are the new rat's initial ones. */
  method ReopenForAnotherRat(first: string, second: string, typed: string, v: JsField, r: JsField)
    returns (value: string, remarks: string)
    requires first != second
    ensures value == FieldOrEmpty(v) && remarks == FieldOrEmpty(r)
  {
    var dialog := new TestDataModal(true, first, Missing, Missing);
    dialog.TypeValue(typed);
    dialog.Close();
    dialog.Rerender(false, first, Missing, Missing);
    dialog.Rerender(true, second, v, r);
    value, remarks := dialog.testValue, dialog.remarks;
  }
}
