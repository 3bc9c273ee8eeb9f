/** The responsive booking list of src/screens/LabBooking.js: the screen
    size classes and what depends on them, the two-column grid that chunks
    the labs into rows, the card texts, and the screen's own state. The
    grouping of the fetched rows is the one in bookings.dfy. */
module LabBooking {
  import opened Common
  import opened Bookings

  // ---------------------------------------------------------------------------
  // Screen size.

  datatype ScreenType = Xs | Sm | Md | Lg

  /** `getScreenType`, on the window width in density-independent pixels
      (a JavaScript number, so possibly fractional). */
  function ScreenTypeOf(width: real): (r: ScreenType)
    ensures r == Xs <==> width < 350.0
    ensures r == Sm <==> 350.0 <= width < 768.0
    ensures r == Md <==> 768.0 <= width < 1024.0
    ensures r == Lg <==> 1024.0 <= width
  {
    if width < 350.0 then Xs
    else if width < 768.0 then Sm
    else if width < 1024.0 then Md
    else Lg
  }

  function Rank(t: ScreenType): nat
  {
    match t
    case Xs => 0
    case Sm => 1
    case Md => 2
    case Lg => 3
  }

  /** `isTablet`. */
  predicate IsTablet(t: ScreenType)
  {
    t == Md || t == Lg
  }

  /** `getContentPadding` (its `default` branch is unreachable). */
  function ContentPadding(t: ScreenType): nat
  {
    match t
    case Xs => 12
    case Sm => 16
    case Md => 24
    case Lg => 32
  }

  /** A wider window never gives a smaller size class, a narrower padding,
      or loses the tablet layout. */
  lemma {:induction false} WiderNeverSmaller(w1: real, w2: real)
    requires w1 <= w2
    ensures Rank(ScreenTypeOf(w1)) <= Rank(ScreenTypeOf(w2))
    ensures ContentPadding(ScreenTypeOf(w1)) <= ContentPadding(ScreenTypeOf(w2))
    ensures IsTablet(ScreenTypeOf(w1)) ==> IsTablet(ScreenTypeOf(w2))
  {
    var t1 := ScreenTypeOf(w1);
    var t2 := ScreenTypeOf(w2);
    assert t1 == Lg ==> t2 == Lg;
    assert t1 == Md ==> t2 == Md || t2 == Lg;
  }

  /** `getGridColumns`: two columns exactly on a tablet with more than one
      lab, otherwise one. */
  function GridColumns(t: ScreenType, count: nat): (r: nat)
    ensures r == 1 || r == 2
    ensures r == 2 <==> IsTablet(t) && count > 1
  {
    if IsTablet(t) && count > 1 then 2 else 1
  }

  // ---------------------------------------------------------------------------
  // The grid.

  /** One row of the grid: its labs, and whether an invisible filler cell
      pads it. */
  datatype GridRow = GridRow(items: seq<Lab>, filler: bool)

  /** The labs of a sequence of rows, left to right and top to bottom. */
  function Flatten(rows: seq<GridRow>): seq<Lab>
  {
    if |rows| == 0 then [] else Flatten(rows[..|rows| - 1]) + rows[|rows| - 1].items
  }

  lemma FlattenSnoc(rows: seq<GridRow>, row: GridRow)
    ensures Flatten(rows + [row]) == Flatten(rows) + row.items
  {
    assert (rows + [row])[..|rows|] == rows;
  }

  function Min(a: int, b: int): int
  {
    if a <= b then a else b
  }

  /** The grid loop of `renderBookings`: rows are consecutive slices of
      `columns` labs that together give the list back; every row has at
      least one lab; only the last row may be short, and a row gets a filler
      exactly when it is short. */
  method GridRows(bookings: seq<Lab>, columns: nat) returns (rows: seq<GridRow>)
    requires columns > 0
    ensures Flatten(rows) == bookings
    ensures forall k :: 0 <= k < |rows| ==> 0 < |rows[k].items| <= columns
    ensures forall k :: 0 <= k < |rows| - 1 ==> |rows[k].items| == columns
    ensures forall k :: 0 <= k < |rows| ==> (rows[k].filler <==> |rows[k].items| < columns)
  {
    rows := [];
    var i := 0;
    while i < |bookings|
      invariant 0 <= i
      invariant Flatten(rows) == bookings[..Min(i, |bookings|)]
      invariant forall k :: 0 <= k < |rows| ==> 0 < |rows[k].items| <= columns
      invariant forall k :: 0 <= k < |rows| ==> (rows[k].filler <==> |rows[k].items| < columns)
      invariant forall k :: 0 <= k < |rows| ==> |rows[k].items| == columns || (k == |rows| - 1 && i >= |bookings|)
      decreases |bookings| - i
    {
      var rowItems := bookings[i..Min(i + columns, |bookings|)];
      var row := GridRow(rowItems, |rowItems| < columns);
      FlattenSnoc(rows, row);
      assert bookings[..Min(i + columns, |bookings|)] == bookings[..i] + rowItems;
      rows := rows + [row];
      i := i + columns;
    }
  }

  /** What the list area shows. */
  datatype Layout = NoBookings | SingleColumn(labs: seq<Lab>) | Grid(rows: seq<GridRow>)

  /** The list area: the empty notice, one card per lab, or the grid. */
  method RenderBookings(bookings: seq<Lab>, t: ScreenType) returns (layout: Layout)
    ensures layout.NoBookings? <==> bookings == []
    ensures layout.Grid? <==> IsTablet(t) && |bookings| > 1
    ensures layout.SingleColumn? ==> layout.labs == bookings
    ensures layout.Grid? ==> Flatten(layout.rows) == bookings
    ensures layout.Grid? ==> forall k :: 0 <= k < |layout.rows| ==>
      0 < |layout.rows[k].items| <= 2 && (layout.rows[k].filler <==> |layout.rows[k].items| == 1)
  {
    if |bookings| == 0 {
      return NoBookings;
    }
    var columns := GridColumns(t, |bookings|);
    if columns == 1 {
      layout := SingleColumn(bookings);
    } else {
      var rows := GridRows(bookings, columns);
      layout := Grid(rows);
    }
  }

  // ---------------------------------------------------------------------------
  // Card texts.

  /** The single-column badge: the count, then 'activity' or 'activities'. */
  function BadgeText(n: nat): string
  {
    NatToDecimal(n) + " " + (if n == 1 then "activity" else "activities")
  }

  /** The badge reads back as its count, and says 'activity' for exactly one. */
  lemma BadgeReadsBack(n: nat)
    ensures var t := BadgeText(n); var d := NatToDecimal(n);
      |t| > |d| && t[..|d|] == d && DecimalValue(t[..|d|]) == n && t[|d|] == ' ' &&
      (t[|d| + 1..] == "activity" <==> n == 1)
  {
    var t := BadgeText(n);
    var d := NatToDecimal(n);
    DecimalRoundTrip(n);
    assert t[..|d|] == d;
    assert t[|d| + 1..] == (if n == 1 then "activity" else "activities");
  }

  /** A name as `Array.prototype.join` writes it: `null` and `undefined`
      become empty. */
  function JoinText(f: JsField): string
  {
    if f.Str? then f.s else ""
  }

  /** `names.join(', ')`. */
  function Joined(names: seq<JsField>): string
  {
    if |names| == 0 then ""
    else if |names| == 1 then JoinText(names[0])
    else Joined(names[..|names| - 1]) + ", " + JoinText(names[|names| - 1])
  }

  /** The activity preview: the first two names, and ` +N more` when more
      are hidden. */
  function Preview(names: seq<JsField>): string
  {
    if |names| <= 2 then Joined(names) else Joined(names[..2]) + HiddenNote(|names| - 2)
  }

  /** ` +N more`. */
  function HiddenNote(n: nat): string
  {
    " +" + NatToDecimal(n) + " more"
  }

  /** `[a, b].join(', ')`. */
  lemma JoinedTwo(names: seq<JsField>)
    requires |names| == 2
    ensures Joined(names) == JoinText(names[0]) + ", " + JoinText(names[1])
  {
    assert names[..1] == [names[0]];
  }

  /** With at most two activities the preview is just their names. */
  lemma PreviewShort(names: seq<JsField>)
    requires |names| <= 2
    ensures |names| == 0 ==> Preview(names) == ""
    ensures |names| == 1 ==> Preview(names) == JoinText(names[0])
    ensures |names| == 2 ==> Preview(names) == JoinText(names[0]) + ", " + JoinText(names[1])
  {
    if |names| == 2 {
      JoinedTwo(names);
    }
  }

  /** With more, the preview is the first two names and a count that reads
      back as the number of activities left out. */
  lemma PreviewHidden(names: seq<JsField>)
    requires |names| > 2
    ensures var head := JoinText(names[0]) + ", " + JoinText(names[1]);
      Preview(names) == head + HiddenNote(|names| - 2)
    ensures var note := HiddenNote(|names| - 2);
      |note| > 7 && note[..2] == " +" && note[|note| - 5..] == " more" &&
      DecimalValue(note[2..|note| - 5]) + 2 == |names|
  {
    JoinedTwo(names[..2]);
    var d := NatToDecimal(|names| - 2);
    var note := HiddenNote(|names| - 2);
    assert note[2..|note| - 5] == d;
    DecimalRoundTrip(|names| - 2);
  }

  // ---------------------------------------------------------------------------
  // The screen.

  class LabBookingScreen {
    var bookings: seq<Lab>
    var isLoading: bool
    var selectedLab: Option<Lab>
    var width: real
    /** The labs passed to the router, in order. */
    var navigations: seq<Lab>

    constructor (initialWidth: real)
      ensures bookings == [] && !isLoading && selectedLab.None?
      ensures width == initialWidth && navigations == []
    {
      bookings := [];
      isLoading := false;
      selectedLab := None;
      width := initialWidth;
      navigations := [];
    }

    /** The fetch effect, given how the request ends. */
    method FetchBookings(f: Fetch)
      modifies this
      ensures bookings == Fetched(f) && !isLoading
      ensures selectedLab == old(selectedLab) && width == old(width) && navigations == old(navigations)
    {
      isLoading := true;
      if f.Failed? {
        bookings := [];
      } else {
        var apiData := if f.data.Some? then f.data.value else [];
        bookings := GroupBookings(apiData);
      }
      isLoading := false;
    }

    /** The dimension-change listener. */
    method Resize(newWidth: real)
      modifies this
      ensures width == newWidth
      ensures bookings == old(bookings) && isLoading == old(isLoading)
      ensures selectedLab == old(selectedLab) && navigations == old(navigations)
    {
      width := newWidth;
    }

    /** `handleLabSelect`: remembers the lab and opens its activity screen. */
    method LabSelect(lab: Lab)
      modifies this
      ensures selectedLab == Some(lab) && navigations == old(navigations) + [lab]
      ensures bookings == old(bookings) && isLoading == old(isLoading) && width == old(width)
    {
      selectedLab := Some(lab);
      navigations := navigations + [lab];
    }

    /** The body below the header. */
    method Render() returns (layout: Layout, padding: nat)
      ensures padding == ContentPadding(ScreenTypeOf(width))
      ensures layout.NoBookings? <==> bookings == []
      ensures layout.Grid? <==> IsTablet(ScreenTypeOf(width)) && |bookings| > 1
      ensures layout.SingleColumn? ==> layout.labs == bookings
      ensures layout.Grid? ==> Flatten(layout.rows) == bookings
    {
      var t := ScreenTypeOf(width);
      padding := ContentPadding(t);
      layout := RenderBookings(bookings, t);
    }
  }
}
