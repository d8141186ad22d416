/** Calendar dates and the date-string conversions used on the edit and
    display paths: `YYYY-MM-DD` (what a date input holds), `DD/MM/YYYY`
    (what the backend is sent and what listings show) and the host's
    generic `new Date(string)`, which stays a parameter. */
module Dates {
  import opened Common
  import opened Text

  datatype Date = Date(year: int, month: int, day: int)

  predicate IsLeapYear(y: int)
  {
    y % 4 == 0 && (y % 100 != 0 || y % 400 == 0)
  }

  function DaysInMonth(y: int, m: int): int
    requires 1 <= m <= 12
  {
    if m == 2 then (if IsLeapYear(y) then 29 else 28)
    else if m == 4 || m == 6 || m == 9 || m == 11 then 30
    else 31
  }

  /** A real Gregorian calendar day with a four-digit year. */
  predicate ValidDate(d: Date)
  {
    0 <= d.year <= 9999 && 1 <= d.month <= 12 && 1 <= d.day <= DaysInMonth(d.year, d.month)
  }

  type CalendarDate = d: Date | ValidDate(d) witness Date(1970, 1, 1)

  /** The host's `new Date(string)`: the calendar day it denotes, or `None`
      for an Invalid Date. */
  type DateParser = string -> Option<CalendarDate>

  /** `YYYY-MM-DD`, as `toISOString().split("T")[0]` gives it. */
  function FormatIso(d: CalendarDate): (s: string)
    ensures IsIsoDateShape(s)
  {
    var y, m, dd := PadDigits(d.year, 4), PadDigits(d.month, 2), PadDigits(d.day, 2);
    assert (y + "-" + m + "-" + dd)[5..7] == m && (y + "-" + m + "-" + dd)[8..] == dd;
    y + "-" + m + "-" + dd
  }

  /** `DD/MM/YYYY`, as the `en-GB` locale renders a day (the year padded
      to four digits). */
  function FormatDisplay(d: CalendarDate): (s: string)
    ensures IsDisplayShape(s)
  {
    var y, m, dd := PadDigits(d.year, 4), PadDigits(d.month, 2), PadDigits(d.day, 2);
    assert (dd + "/" + m + "/" + y)[3..5] == m && (dd + "/" + m + "/" + y)[6..] == y;
    dd + "/" + m + "/" + y
  }

  /** `toISOString()` of the midnight (UTC) at the start of `d`. */
  function IsoTimestamp(d: CalendarDate): string
  {
    FormatIso(d) + "T00:00:00.000Z"
  }

  /** The ISO date-only shape `dddd-dd-dd`. */
  predicate IsIsoDateShape(s: string)
  {
    |s| == 10 && s[4] == '-' && s[7] == '-'
    && AllDigits(s[..4]) && AllDigits(s[5..7]) && AllDigits(s[8..])
  }

  /** The regular expression `^\d{2}\/\d{2}\/\d{4}$`. */
  predicate IsDisplayShape(s: string)
  {
    |s| == 10 && s[2] == '/' && s[5] == '/'
    && AllDigits(s[..2]) && AllDigits(s[3..5]) && AllDigits(s[6..])
  }

  /** `new Date("YYYY-MM-DD")`: an ISO date-only string is read as that day;
      a string of that shape naming no real day is an Invalid Date. */
  function ParseIsoDate(s: string): (r: Option<CalendarDate>)
    ensures r.Some? ==> IsIsoDateShape(s) && FormatIso(r.value) == s
  {
    if IsIsoDateShape(s) then
      var d := Date(DigitsValue(s[..4]), DigitsValue(s[5..7]), DigitsValue(s[8..]));
      if ValidDate(d) then
        IsoCanonical(s);
        Some(d)
      else None
    else None
  }

  lemma IsoCanonical(s: string)
    requires IsIsoDateShape(s)
    requires ValidDate(Date(DigitsValue(s[..4]), DigitsValue(s[5..7]), DigitsValue(s[8..])))
    ensures FormatIso(Date(DigitsValue(s[..4]), DigitsValue(s[5..7]), DigitsValue(s[8..]))) == s
  {
    PadOfDigits(s[..4]);
    PadOfDigits(s[5..7]);
    PadOfDigits(s[8..]);
    assert s == s[..4] + "-" + s[5..7] + "-" + s[8..];
  }

  /** Reading back a formatted ISO date gives the same day. */
  lemma IsoRoundTrip(d: CalendarDate)
    ensures ParseIsoDate(FormatIso(d)) == Some(d)
  {
    var y, m, dd := PadDigits(d.year, 4), PadDigits(d.month, 2), PadDigits(d.day, 2);
    var s := FormatIso(d);
    assert s[..4] == y && s[5..7] == m && s[8..] == dd;
    assert Pow10(2) == 100 && Pow10(4) == 10000;
    DigitsOfPad(d.year, 4);
    DigitsOfPad(d.month, 2);
    DigitsOfPad(d.day, 2);
  }

  lemma JoinThree(a: string, b: string, c: string, sep: char)
    ensures Join([a, b, c], sep) == a + [sep] + b + [sep] + c
  {
    assert [a, b, c][1..] == [b, c];
    assert [b, c][1..] == [c];
    assert Join([c], sep) == c;
    assert Join([b, c], sep) == b + [sep] + c;
  }

  lemma SplitIso(d: CalendarDate)
    ensures Split(FormatIso(d), '-') == [PadDigits(d.year, 4), PadDigits(d.month, 2), PadDigits(d.day, 2)]
  {
    var y, m, dd := PadDigits(d.year, 4), PadDigits(d.month, 2), PadDigits(d.day, 2);
    assert '-' !in y && '-' !in m && '-' !in dd;
    JoinThree(y, m, dd, '-');
    SplitJoin([y, m, dd], '-');
  }

  lemma SplitDisplay(d: CalendarDate)
    ensures Split(FormatDisplay(d), '/') == [PadDigits(d.day, 2), PadDigits(d.month, 2), PadDigits(d.year, 4)]
  {
    var y, m, dd := PadDigits(d.year, 4), PadDigits(d.month, 2), PadDigits(d.day, 2);
    assert '/' !in y && '/' !in m && '/' !in dd;
    JoinThree(dd, m, y, '/');
    SplitJoin([dd, m, y], '/');
  }

  /** The value `parseDateForInput` converts before printing: `None` for an
      empty or missing string; for the fixed-width `DD/MM/YYYY` shape the
      day read back from `YYYY-MM-DD`; otherwise the host's generic parse. */
  function ParseDate(s: Option<string>, parse: DateParser): (r: Option<CalendarDate>)
  {
    if s.None? || s.value == "" then None
    else if IsDisplayShape(s.value) then
      var parts := Split(s.value, '/');
      ParseIsoDate(Part(parts, 2) + "-" + Part(parts, 1) + "-" + Part(parts, 0))
    else parse(s.value)
  }

  /** `parseDateForInput`: the `YYYY-MM-DD` a date input accepts, or `""`. */
  function ParseDateForInput(s: Option<string>, parse: DateParser): (r: string)
    ensures s.None? || s == Some("") ==> r == ""
    ensures r == "" || IsIsoDateShape(r)
  {
    var d := ParseDate(s, parse);
    if d.None? then "" else
      IsoRoundTrip(d.value);
      FormatIso(d.value)
  }

  /** `formatDateForBackend` (date input to backend): `null` for an empty or
      missing value, otherwise the three `-` pieces reversed around `/`. */
  function FormatDateForBackend(s: Option<string>): (r: Option<string>)
    ensures r.None? <==> s.None? || s == Some("")
  {
    if s.None? || s.value == "" then None
    else
      var parts := Split(s.value, '-');
      Some(Part(parts, 2) + "/" + Part(parts, 1) + "/" + Part(parts, 0))
  }

  /** `formatSafeDate`: `null` for a missing or invalid date, otherwise the
      `DD/MM/YYYY` rendering; it never fails. */
  function FormatSafeDate(d: Option<Date>): (r: Option<string>)
    ensures r.Some? <==> d.Some? && ValidDate(d.value)
    ensures r.Some? ==> IsDisplayShape(r.value)
  {
    if d.None? || !ValidDate(d.value) then None else Some(FormatDisplay(d.value))
  }

  /** A non-empty date that must become a stored date: the host's parse, with
      an Invalid Date rejected at `path`. What `x ? new Date(x) : null`
      followed by the schema's Date cast yields. */
  function CoerceDate(path: string, s: Option<string>, parse: DateParser): (r: Result<Option<CalendarDate>, SaveError>)
    ensures s.None? || s == Some("") ==> r == Ok(None)
    ensures s.Some? && s.value != "" ==>
              r == (if parse(s.value).Some? then Ok(parse(s.value)) else Err(Invalid(path)))
    ensures r.Err? ==> r.error == Invalid(path)
  {
    if s.None? || s.value == "" then Ok(None)
    else match parse(s.value)
      case Some(d) => Ok(Some(d))
      case None => Err(Invalid(path))
  }

  // ---- properties of the conversions ----

  /** `formatDateForBackend` turns a day's `YYYY-MM-DD` into its `DD/MM/YYYY`. */
  lemma ForBackendOfIso(d: CalendarDate)
    ensures FormatDateForBackend(Some(FormatIso(d))) == Some(FormatDisplay(d))
  {
    SplitIso(d);
  }

  /** The fixed-width `DD/MM/YYYY` branch reads the day back whatever the
      host's generic parser does. */
  lemma ParseOfDisplay(d: CalendarDate, parse: DateParser)
    ensures ParseDate(Some(FormatDisplay(d)), parse) == Some(d)
    ensures ParseDateForInput(Some(FormatDisplay(d)), parse) == FormatIso(d)
  {
    SplitDisplay(d);
    IsoRoundTrip(d);
  }

  /** The pattern match takes priority: on a `DD/MM/YYYY`-shaped string the
      result does not depend on the host's parser. */
  lemma DisplayShapeIgnoresHost(s: string, p1: DateParser, p2: DateParser)
    requires IsDisplayShape(s)
    ensures ParseDate(Some(s), p1) == ParseDate(Some(s), p2)
  {
  }

  /** Round trip: for a well-formed `YYYY-MM-DD` naming a real day,
      `parseDateForInput(formatDateForBackend(s)) == s`. */
  lemma InputBackendRoundTrip(s: string, parse: DateParser)
    requires ParseIsoDate(s).Some?
    ensures ParseDateForInput(FormatDateForBackend(Some(s)), parse) == s
  {
    var d := ParseIsoDate(s).value;
    ForBackendOfIso(d);
    ParseOfDisplay(d, parse);
  }

  /** Splitting the backend string on `/`, reversing and joining with `-`
      gives back any input made of exactly three `-` pieces free of `/`. */
  lemma {:induction false} BackendFormatReversible(s: string)
    requires |Split(s, '-')| == 3
    requires forall i :: 0 <= i < 3 ==> '/' !in Split(s, '-')[i]
    ensures s != ""
    ensures FormatDateForBackend(Some(s)).Some?
    ensures var out := Split(FormatDateForBackend(Some(s)).value, '/');
            |out| == 3 && Join([out[2], out[1], out[0]], '-') == s
  {
    var p := Split(s, '-');
    JoinThree(p[2], p[1], p[0], '/');
    assert FormatDateForBackend(Some(s)).value == Join([p[2], p[1], p[0]], '/');
    SplitJoin([p[2], p[1], p[0]], '/');
    JoinSplit(s, '-');
    assert p == [p[0], p[1], p[2]];
  }

  /** What a listing shows is read back as the same day by the edit form. */
  lemma SafeDateReadBack(d: CalendarDate, parse: DateParser)
    ensures ParseDateForInput(FormatSafeDate(Some(d)), parse) == FormatIso(d)
  {
    ParseOfDisplay(d, parse);
  }

  /** `formatDateForBackend` of whatever `parseDateForInput` produced: the
      day in `DD/MM/YYYY`, or `null` when nothing was parsed. */
  lemma BackendOfParsed(s: Option<string>, parse: DateParser)
    ensures FormatDateForBackend(Some(ParseDateForInput(s, parse))) ==
            (match ParseDate(s, parse) case None => None case Some(d) => Some(FormatDisplay(d)))
  {
    match ParseDate(s, parse)
    case None =>
    case Some(d) => ForBackendOfIso(d);
  }
}
