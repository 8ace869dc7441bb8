/** Date strings: `formatDate` (YYYY-MM-DD for the search window) and the
    guard branches of `formatDisplayDate`. */
module FormatDate {
  import opened Outcomes
  import opened Decimal

  /** The calendar fields a JavaScript `Date` reports: `getFullYear()`, the
      0-based `getMonth()` and `getDate()`. */
  datatype CalendarDate = CalendarDate(year: int, monthIndex: int, day: int)

  /** The ranges a real date's month index and day fall in. */
  predicate InRange(d: CalendarDate) {
    0 <= d.monthIndex < 12 && 1 <= d.day <= 31
  }

  function Repeat(c: char, n: nat): (s: string)
    ensures |s| == n && forall i :: 0 <= i < n ==> s[i] == c
  {
    if n == 0 then [] else [c] + Repeat(c, n - 1)
  }

  /** `s.padStart(width, fill)` with a one-character fill. */
  function PadStart(s: string, width: nat, fill: char): (r: string)
    ensures |s| >= width ==> r == s
    ensures |s| < width ==> |r| == width && r[width - |s|..] == s &&
                            forall i :: 0 <= i < width - |s| ==> r[i] == fill
  {
    if |s| >= width then s else Repeat(fill, width - |s|) + s
  }

  /** `String(n).padStart(2, "0")`. */
  function TwoDigits(n: int): string {
    PadStart(IntToString(n), 2, '0')
  }

  /** `formatDate(date)`. */
  function Format(d: CalendarDate): string {
    IntToString(d.year) + "-" + TwoDigits(d.monthIndex + 1) + "-" + TwoDigits(d.day)
  }

  /** `s.split(sep)` for a one-character separator. */
  function Split(s: string, sep: char): (parts: seq<string>)
    ensures |parts| >= 1
  {
    if s == [] then [""]
    else
      var rest := Split(s[1..], sep);
      if s[0] == sep then [""] + rest else [[s[0]] + rest[0]] + rest[1..]
  }

  /** A part without the separator splits off at the first separator. */
  lemma {:induction false} SplitAfter(a: string, sep: char, b: string)
    requires sep !in a
    ensures Split(a + [sep] + b, sep) == [a] + Split(b, sep)
  {
    var s := a + [sep] + b;
    if a == [] {
      assert s[0] == sep && s[1..] == b;
    } else {
      assert s[0] == a[0] && s[1..] == a[1..] + [sep] + b;
      SplitAfter(a[1..], sep, b);
      assert [a[0]] + a[1..] == a;
    }
  }

  /** A string without the separator is one part. */
  lemma {:induction false} SplitNone(a: string, sep: char)
    requires sep !in a
    ensures Split(a, sep) == [a]
  {
    if a != [] {
      SplitNone(a[1..], sep);
      assert [a[0]] + a[1..] == a;
    }
  }

  /** A padded value from 1 to 99 is exactly two digits and reads back. */
  lemma {:induction false} TwoDigitsFacts(n: int)
    requires 1 <= n < 100
    ensures |TwoDigits(n)| == 2
    ensures forall c :: c in TwoDigits(n) ==> IsDigit(c)
    ensures ParseNat(TwoDigits(n)) == Some(n)
  {
    NatToStringLength(n);
    NatToStringRoundTrip(n);
    var s := NatToString(n);
    if n < 10 {
      assert TwoDigits(n) == "0" + s;
      LeadingZero(s);
    }
  }

  /** For a real date the month and day parts are two characters each, and
      the month part is the month index plus one. */
  lemma FormatParts(d: CalendarDate)
    requires InRange(d)
    ensures |TwoDigits(d.monthIndex + 1)| == 2 && |TwoDigits(d.day)| == 2
    ensures ParseNat(TwoDigits(d.monthIndex + 1)) == Some(d.monthIndex + 1)
    ensures ParseNat(TwoDigits(d.day)) == Some(d.day)
  {
    TwoDigitsFacts(d.monthIndex + 1);
    TwoDigitsFacts(d.day);
  }

  /** Three parts without "-", joined by "-", split back into themselves. */
  lemma SplitThree(a: string, b: string, c: string)
    requires '-' !in a && '-' !in b && '-' !in c
    ensures Split(a + "-" + b + "-" + c, '-') == [a, b, c]
  {
    assert a + "-" + b + "-" + c == a + ['-'] + (b + ['-'] + c);
    SplitAfter(a, '-', b + ['-'] + c);
    SplitAfter(b, '-', c);
    SplitNone(c, '-');
  }

  /** For a non-negative year, splitting the output on "-" gives three
      parts that read back as the year, the 1-based month and the day. */
  lemma FormatRoundTrip(d: CalendarDate)
    requires InRange(d) && d.year >= 0
    ensures |Split(Format(d), '-')| == 3
    ensures ParseNat(Split(Format(d), '-')[0]) == Some(d.year)
    ensures ParseNat(Split(Format(d), '-')[1]) == Some(d.monthIndex + 1)
    ensures ParseNat(Split(Format(d), '-')[2]) == Some(d.day)
  {
    var y, m, dd := NatToString(d.year), TwoDigits(d.monthIndex + 1), TwoDigits(d.day);
    NatToStringRoundTrip(d.year);
    TwoDigitsFacts(d.monthIndex + 1);
    TwoDigitsFacts(d.day);
    assert '-' !in y && '-' !in m && '-' !in dd;
    assert Format(d) == y + "-" + m + "-" + dd;
    SplitThree(y, m, dd);
  }

  /** What parsing an ISO string into a `Date` yields: a throw, or a time
      value that may be NaN (`None`). */
  datatype ParsedTime = ParseThrew | TimeValue(millis: Option<int>)

  /** The guard branches of `formatDisplayDate`. Parsing and the en-US
      locale formatting are parameters. */
  function FormatDisplayDate(isoDateString: Option<string>, parse: string -> ParsedTime,
                             toLocaleDate: int -> string): (r: string)
    ensures !Truthy(isoDateString) ==> r == ""
    ensures Truthy(isoDateString) && !parse(isoDateString.value).TimeValue? ==> r == "Invalid Date"
    ensures Truthy(isoDateString) && parse(isoDateString.value) == TimeValue(None) ==> r == "Invalid Date"
    ensures Truthy(isoDateString) && parse(isoDateString.value).TimeValue? &&
            parse(isoDateString.value).millis.Some? ==>
              r == toLocaleDate(parse(isoDateString.value).millis.value)
  {
    if !Truthy(isoDateString) then ""
    else match parse(isoDateString.value)
      case ParseThrew => "Invalid Date"
      case TimeValue(None) => "Invalid Date"
      case TimeValue(Some(t)) => toLocaleDate(t)
  }
}
