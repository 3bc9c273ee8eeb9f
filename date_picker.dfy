/** The date field of the filter modal (src/components/DatePicker.js): it
    shows the stored 'YYYY-MM-DD' text, or today's date in India Standard
    Time when none is stored, and stores the picked date in that format. */
module DatePicker {
  import opened Common
  import opened Calendar

  /** 5.5 hours in milliseconds: the fixed offset of India Standard Time. */
  const IstOffsetMs: int := 19800000

  /** What `${yyyy}-${mm}-${dd}` prints for an Invalid Date. */
  const InvalidText: string := "NaN-NaN-NaN"

  /** A time value a Date object can hold. */
  predicate IsTimeValue(t: int)
  {
    -MaxTimeValue <= t <= MaxTimeValue
  }

  /** `${yyyy}-${mm}-${dd}`: the year as `String` prints it, month and day padded to two digits. */
  function FormatYmd(c: Civil): string
    requires ValidCivil(c)
  {
    IntToDecimal(c.year) + "-" + Pad2(c.month) + "-" + Pad2(c.day)
  }

  /** convertToISTFormattedString: shift the instant by +5:30 and print the UTC
      calendar date of the shifted instant. `new Date(x)` is an Invalid Date
      when x leaves the time-value range, and every getter then gives NaN. */
  function ConvertToIstFormattedString(t: int): (r: string)
    requires IsTimeValue(t)
    ensures r == InvalidText <==> !IsTimeValue(t + IstOffsetMs)
    ensures IsTimeValue(t + IstOffsetMs) ==>
      var c := ParseYmd(r);
      c.Some? && ValidCivil(c.value) && DayFromCivil(c.value) == Day(t + IstOffsetMs)
  {
    var shifted := t + IstOffsetMs;
    if !IsTimeValue(shifted) then InvalidText
    else
      var c := CivilFromDay(Day(shifted));
      FormatRoundTrip(c);
      FormatYmd(c)
  }

  // ---------------------------------------------------------------------------
  // Reading the printed text back.

  predicate AllDigits(s: string)
  {
    forall i :: 0 <= i < |s| ==> IsDigit(s[i])
  }

  /** The integer a `String(n)` text denotes: digits, optionally after a minus sign. */
  function ParseInt(s: string): Option<int>
  {
    if |s| >= 1 && AllDigits(s) then Some(DecimalValue(s))
    else if |s| >= 2 && s[0] == '-' && AllDigits(s[1..]) then Some(0 - (DecimalValue(s[1..]) as int))
    else None
  }

  /** Splits 'Y-MM-DD' at its last two dashes and reads the three numbers. */
  function ParseYmd(s: string): Option<Civil>
  {
    if |s| < 7 || s[|s| - 6] != '-' || s[|s| - 3] != '-' then None
    else
      var y := ParseInt(s[..|s| - 6]);
      var mm, dd := s[|s| - 5..|s| - 3], s[|s| - 2..];
      if y.None? || !AllDigits(mm) || !AllDigits(dd) then None
      else Some(Civil(y.value, DecimalValue(mm), DecimalValue(dd)))
  }

  lemma Pad2Value(n: nat)
    requires n < 100
    ensures AllDigits(Pad2(n)) && DecimalValue(Pad2(n)) == n
  {
    var p := Pad2(n);
    assert p[..1][..0] == [];
    assert DecimalValue(p[..1]) == DigitValue(p[0]);
  }

  lemma IntTextValue(n: int)
    ensures ParseInt(IntToDecimal(n)) == Some(n)
  {
    var s := IntToDecimal(n);
    if n >= 0 {
      DecimalRoundTrip(n);
    } else {
      DecimalRoundTrip(-n);
      assert s[1..] == NatToDecimal(-n);
      assert !IsDigit(s[0]);
    }
  }

  /** Printing a valid date and reading it back gives the same date. */
  lemma FormatRoundTrip(c: Civil)
    requires ValidCivil(c)
    ensures ParseYmd(FormatYmd(c)) == Some(c)
  {
    var ys, ms, ds := IntToDecimal(c.year), Pad2(c.month), Pad2(c.day);
    var s := FormatYmd(c);
    assert s == ys + "-" + ms + "-" + ds;
    Pad2Value(c.month);
    Pad2Value(c.day);
    IntTextValue(c.year);
    assert s[..|s| - 6] == ys;
    assert s[|s| - 5..|s| - 3] == ms;
    assert s[|s| - 2..] == ds;
  }

  // ---------------------------------------------------------------------------
  // Properties of the conversion.

  /** The IST date is the next UTC day exactly for instants at or after 18:30 UTC. */
  lemma IstShiftsAfter1830(t: int)
    ensures Day(t + IstOffsetMs) == Day(t) + (if TimeWithinDay(t) >= 66600000 then 1 else 0)
  {
    var q, r := Day(t), TimeWithinDay(t);
    if r >= 66600000 {
      assert t + IstOffsetMs == (q + 1) * MsPerDay + (r - 66600000);
    } else {
      assert t + IstOffsetMs == q * MsPerDay + (r + IstOffsetMs);
    }
  }

  lemma DayMonotone(a: int, b: int)
    requires a <= b
    ensures Day(a) <= Day(b)
  {
  }

  /** A later instant never yields an earlier printed date. */
  lemma ConvertMonotone(t1: int, t2: int)
    requires IsTimeValue(t1) && IsTimeValue(t2) && t1 <= t2
    requires IsTimeValue(t2 + IstOffsetMs)
    ensures ParseYmd(ConvertToIstFormattedString(t1)).Some?
    ensures ParseYmd(ConvertToIstFormattedString(t2)).Some?
    ensures CivilLe(ParseYmd(ConvertToIstFormattedString(t1)).value,
                    ParseYmd(ConvertToIstFormattedString(t2)).value)
  {
    var d1, d2 := Day(t1 + IstOffsetMs), Day(t2 + IstOffsetMs);
    DayMonotone(t1 + IstOffsetMs, t2 + IstOffsetMs);
    var c1, c2 := ParseYmd(ConvertToIstFormattedString(t1)).value, ParseYmd(ConvertToIstFormattedString(t2)).value;
    CivilRoundTrip(c1);
    CivilRoundTrip(c2);
    CivilFromDayMonotone(d1, d2);
  }

  /** `cDate || getCurrentFormattedIST()`: the text the field shows, with the
      current instant `now` passed in. */
  function DisplayedDate(cDate: Option<string>, now: int): (r: string)
    requires IsTimeValue(now)
    ensures Truthy(cDate) ==> r == cDate.value
    ensures !Truthy(cDate) ==> r == ConvertToIstFormattedString(now)
    ensures !Truthy(cDate) && IsTimeValue(now + IstOffsetMs) ==>
      ParseYmd(r).Some? && DayFromCivil(ParseYmd(r).value) == Day(now + IstOffsetMs)
  {
    if Truthy(cDate) then cDate.value else ConvertToIstFormattedString(now)
  }

  /** The field's state: the parent's stored date text (cDate / setCDate) and
      whether the native picker is shown. */
  class DatePickerField {
    var cDate: Option<string>
    var showPicker: bool

    constructor (initial: Option<string>)
      ensures cDate == initial && !showPicker
    {
      cDate := initial;
      showPicker := false;
    }

    /** Pressing the field opens the picker. */
    method Open()
      modifies this
      ensures showPicker && cDate == old(cDate)
    {
      showPicker := true;
    }

    /** handleDateChange: the picker closes; a picked instant replaces the
        stored text by its IST date, a dismissal leaves it as it was. */
    method HandleDateChange(selected: Option<int>)
      requires selected.Some? ==> IsTimeValue(selected.value)
      modifies this
      ensures !showPicker
      ensures selected.None? ==> cDate == old(cDate)
      ensures selected.Some? ==> cDate == Some(ConvertToIstFormattedString(selected.value))
    {
      showPicker := false;
      if selected.Some? {
        cDate := Some(ConvertToIstFormattedString(selected.value));
      }
    }
  }
}
