/** Values and text helpers shared by every screen of the app: JavaScript's
    "missing" values, truthiness of strings, `trim`-blankness, and the decimal
    text that template literals and `String(n)` produce for integers. */
module Common {

  datatype Option<T> = None | Some(value: T)

  /** A record field as the API delivers it: absent (undefined), null, or a string. */
  datatype JsField = Missing | Null | Str(s: string)

  /** `x || ''` for an optional string: undefined, null and '' all give ''. */
  function OrEmpty(x: Option<string>): string
  {
    if x.Some? then x.value else ""
  }

  /** `x || d` for an optional string. */
  function OrDefault(x: Option<string>, d: string): string
  {
    if x.Some? && x.value != "" then x.value else d
  }

  /** `f || ''` for a record field. */
  function FieldOrEmpty(f: JsField): string
  {
    if f.Str? then f.s else ""
  }

  /** JavaScript truthiness of an optional string. */
  predicate Truthy(x: Option<string>)
  {
    x.Some? && x.value != ""
  }

  /** The characters `String.prototype.trim` removes (the ASCII and common
      Unicode white-space and line-terminator code points). */
  predicate IsJsWhitespace(c: char)
  {
    c == ' ' || c == '\t' || c == '\n' || c == '\r' || c == '\U{B}' || c == '\U{C}'
    || c == '\U{A0}' || c == '\U{1680}' || ('\U{2000}' <= c <= '\U{200A}')
    || c == '\U{2028}' || c == '\U{2029}' || c == '\U{202F}' || c == '\U{205F}'
    || c == '\U{3000}' || c == '\U{FEFF}'
  }

  /** `s.trim() === ''`: every character is white space. */
  predicate Blank(s: string)
  {
    forall i :: 0 <= i < |s| ==> IsJsWhitespace(s[i])
  }

  /** The index of a non-white-space character, when there is one. */
  function FirstNonBlank(s: string): (r: Option<nat>)
    ensures r.None? <==> Blank(s)
    ensures r.Some? ==> r.value < |s| && !IsJsWhitespace(s[r.value])
    ensures r.Some? ==> forall i :: 0 <= i < r.value ==> IsJsWhitespace(s[i])
  {
    if |s| == 0 then None
    else if !IsJsWhitespace(s[0]) then Some(0)
    else
      var rest := FirstNonBlank(s[1..]);
      if rest.None? then None else Some(rest.value + 1)
  }

  // ---------------------------------------------------------------------------
  // Decimal text of integers, as `String(n)` and `${n}` write them.

  predicate IsDigit(c: char)
  {
    '0' <= c <= '9'
  }

  function DigitValue(c: char): nat
    requires IsDigit(c)
  {
    (c as int - '0' as int) as nat
  }

  function DigitChar(d: nat): (c: char)
    requires d < 10
    ensures IsDigit(c) && DigitValue(c) == d
  {
    ('0' as int + d) as char
  }

  /** Decimal text of a natural number, without leading zeros. */
  function NatToDecimal(n: nat): (r: string)
    ensures |r| >= 1
    ensures forall i :: 0 <= i < |r| ==> IsDigit(r[i])
    decreases n
  {
    if n < 10 then [DigitChar(n)] else NatToDecimal(n / 10) + [DigitChar(n % 10)]
  }

  /** The number a string of digits denotes. */
  function DecimalValue(s: string): nat
    requires forall i :: 0 <= i < |s| ==> IsDigit(s[i])
  {
    if |s| == 0 then 0 else 10 * DecimalValue(s[..|s| - 1]) + DigitValue(s[|s| - 1])
  }

  lemma {:induction false} DecimalRoundTrip(n: nat)
    ensures DecimalValue(NatToDecimal(n)) == n
    decreases n
  {
    var r := NatToDecimal(n);
    if n < 10 {
      assert r == [DigitChar(n)];
    } else {
      DecimalRoundTrip(n / 10);
      assert r[..|r| - 1] == NatToDecimal(n / 10);
    }
  }

  /** Different numbers have different decimal texts (so ids built from them differ). */
  lemma DecimalInjective(a: nat, b: nat)
    requires NatToDecimal(a) == NatToDecimal(b)
    ensures a == b
  {
    DecimalRoundTrip(a);
    DecimalRoundTrip(b);
  }

  /** `String(n)` for any integer: a minus sign before the magnitude when negative. */
  function IntToDecimal(n: int): (r: string)
    ensures |r| >= 1
    ensures n >= 0 ==> r == NatToDecimal(n)
    ensures n < 0 ==> r == "-" + NatToDecimal(-n)
  {
    if n >= 0 then NatToDecimal(n) else "-" + NatToDecimal(-n)
  }

  /** `String(n).padStart(2, '0')` for a natural number. */
  function Pad2(n: nat): (r: string)
    ensures n < 100 ==> |r| == 2 && IsDigit(r[0]) && IsDigit(r[1])
    ensures n < 100 ==> DigitValue(r[0]) * 10 + DigitValue(r[1]) == n
  {
    var s := NatToDecimal(n);
    assert n < 10 ==> s == [DigitChar(n)];
    assert 10 <= n < 100 ==> s == NatToDecimal(n / 10) + [DigitChar(n % 10)] == [DigitChar(n / 10), DigitChar(n % 10)];
    if |s| >= 2 then s else "0" + s
  }

  // ---------------------------------------------------------------------------
  // First-appearance order, as the `acc.find(...)` reduces build it.

  /** The distinct elements of `s` in order of first appearance. */
  function Distinct<T(==)>(s: seq<T>): (r: seq<T>)
    ensures |r| <= |s|
  {
    if |s| == 0 then []
    else
      var prefix := Distinct(s[..|s| - 1]);
      if s[|s| - 1] in prefix then prefix else prefix + [s[|s| - 1]]
  }

  /** Distinct keeps exactly the elements of its input. */
  lemma {:induction false} DistinctHas<T>(s: seq<T>, x: T)
    ensures x in Distinct(s) <==> x in s
  {
    if |s| > 0 {
      DistinctHas(s[..|s| - 1], x);
      assert s == s[..|s| - 1] + [s[|s| - 1]];
    }
  }

  /** Distinct repeats nothing. */
  lemma {:induction false} DistinctNoRepeats<T>(s: seq<T>, i: nat, j: nat)
    requires i < j < |Distinct(s)|
    ensures Distinct(s)[i] != Distinct(s)[j]
  {
    var prefix := s[..|s| - 1];
    if s[|s| - 1] in Distinct(prefix) || j < |Distinct(prefix)| {
      DistinctNoRepeats(prefix, i, j);
    } else {
      assert Distinct(s)[i] in Distinct(prefix);
    }
  }

  /** One more element: Distinct grows by it exactly when it is new. */
  lemma DistinctSnoc<T>(s: seq<T>, x: T)
    ensures Distinct(s + [x]) == if x in s then Distinct(s) else Distinct(s) + [x]
  {
    assert (s + [x])[..|s|] == s;
    DistinctHas(s, x);
  }
}
