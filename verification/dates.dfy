/** Release-date rendering: the `strptime('%Y-%m-%d')` / `strftime('%B %d, %Y')`
    pipeline of the discography pages, in its lenient and its strict revision. */
module Dates {
  import opened Text
  import opened Wrappers

  datatype Date = Date(year: nat, month: nat, day: nat)

  /** A value of the `release_date` column: absent, not a string, or text. */
  datatype DateInput = Missing | NotText | Text(s: string)

  datatype DateError =
    | NotAString        // `strptime(None, ...)` raises TypeError
    | DoesNotMatch      // ValueError: the text does not fit the format or the calendar

  const MonthNames: seq<string> := ["January", "February", "March", "April", "May", "June",
    "July", "August", "September", "October", "November", "December"]

  predicate IsLeapYear(y: nat) {
    y % 4 == 0 && (y % 100 != 0 || y % 400 == 0)
  }

  function DaysInMonth(y: nat, m: nat): nat
    requires 1 <= m <= 12
  {
    if m == 2 then (if IsLeapYear(y) then 29 else 28)
    else if m == 4 || m == 6 || m == 9 || m == 11 then 30
    else 31
  }

  /** What Python's `datetime` constructor accepts. */
  predicate ValidDate(d: Date) {
    1 <= d.year <= 9999 && 1 <= d.month <= 12 && 1 <= d.day <= DaysInMonth(d.year, d.month)
  }

  // ---------------------------------------------------------------------------
  // `strptime` tokens. `%Y` is exactly four digits; `%m` is `1[0-2]|0[1-9]|[1-9]`;
  // `%d` is `3[01]|[12]\d|0[1-9]|[1-9]| [1-9]`, and nothing may follow it.

  function YearToken(t: string): (r: Option<nat>)
    ensures r.Some? ==> 1 <= r.value <= 9999
  {
    if |t| == 4 && AllDigits(t) && DigitsValue(t) >= 1 then
      DigitsValueBound(t);
      Some(DigitsValue(t))
    else None
  }

  function MonthToken(t: string): (r: Option<nat>)
    ensures r.Some? ==> 1 <= r.value <= 12
  {
    if (|t| == 1 || |t| == 2) && AllDigits(t) && 1 <= DigitsValue(t) <= 12
    then Some(DigitsValue(t)) else None
  }

  function DayToken(t: string): (r: Option<nat>)
    ensures r.Some? ==> 1 <= r.value <= 31
  {
    if (|t| == 1 || |t| == 2) && AllDigits(t) && 1 <= DigitsValue(t) <= 31
    then Some(DigitsValue(t))
    else if |t| == 2 && t[0] == ' ' && IsDigit(t[1]) && t[1] != '0'
    then Some(DigitValue(t[1]))
    else None
  }

  function IndexOfDash(s: string): (r: Option<nat>)
    ensures r.Some? ==> r.value < |s| && s[r.value] == '-'
  {
    if |s| == 0 then None
    else if s[0] == '-' then Some(0)
    else match IndexOfDash(s[1..])
      case None => None
      case Some(i) => Some(i + 1)
  }

  /** `datetime.strptime(s, '%Y-%m-%d')`; `None` stands for the ValueError. */
  function ParseFull(s: string): (r: Option<Date>)
    ensures r.Some? ==> ValidDate(r.value)
  {
    if |s| < 5 || s[4] != '-' then None
    else
      var rest := s[5..];
      match IndexOfDash(rest)
      case None => None
      case Some(k) =>
        match (YearToken(s[..4]), MonthToken(rest[..k]), DayToken(rest[k + 1..]))
        case (Some(y), Some(m), Some(d)) =>
          var date := Date(y, m, d);
          if ValidDate(date) then Some(date) else None
        case _ => None
  }

  /** `datetime.strptime(s, '%Y-%m')`, used only on seven-character text, so the
      month is the two characters after the dash. */
  function ParseYearMonth(s: string): (r: Option<(nat, nat)>)
    ensures r.Some? ==> 1 <= r.value.0 <= 9999 && 1 <= r.value.1 <= 12
  {
    if |s| != 7 || s[4] != '-' then None
    else match (YearToken(s[..4]), MonthToken(s[5..]))
      case (Some(y), Some(m)) => Some((y, m))
      case _ => None
  }

  /** `%Y`: the year zero-filled to four digits. */
  function YearText(y: nat): string
    requires 1 <= y <= 9999
  {
    ZeroFill(NatToString(y), 4)
  }

  /** `strftime('%B %d, %Y')`. */
  function LongForm(d: Date): string
    requires ValidDate(d)
  {
    MonthNames[d.month - 1] + " " + Pad2(d.day) + ", " + YearText(d.year)
  }

  const UnknownDate := "Unknown Date"
  const InvalidDate := "Invalid Date Format"

  /** artistrack/discotech/generate_discography.py `format_date`: never raises. */
  function FormatDate(v: DateInput): string {
    match v
    case Missing => UnknownDate
    case NotText => UnknownDate
    case Text(s) =>
      if s == "" then UnknownDate
      else match ParseFull(s)
        case Some(d) => LongForm(d)
        case None =>
          if |s| == 4 then s
          else if |s| == 7 then
            match ParseYearMonth(s)
            case Some((y, m)) => MonthNames[m - 1] + " " + YearText(y)
            case None => InvalidDate
          else InvalidDate
  }

  /** disco/generate_discography.py and wraithdisco.py: the bare strptime/strftime pair. */
  function StrictFormatDate(v: DateInput): Result<string, DateError> {
    match v
    case Missing => Failure(NotAString)
    case NotText => Failure(NotAString)
    case Text(s) =>
      match ParseFull(s)
      case Some(d) => Success(LongForm(d))
      case None => Failure(DoesNotMatch)
  }

  // ---------------------------------------------------------------------------
  // The ISO form the Spotify API uses, and the round trip through the parser.

  /** `YYYY-MM-DD` with both fields zero-filled, whether or not the date exists. */
  function IsoText(y: nat, m: nat, d: nat): string
    requires 1 <= y <= 9999 && m < 100 && d < 100
  {
    YearText(y) + "-" + Pad2(m) + "-" + Pad2(d)
  }

  lemma YearTextValue(y: nat)
    requires 1 <= y <= 9999
    ensures |YearText(y)| == 4 && AllDigits(YearText(y)) && DigitsValue(YearText(y)) == y
  {
    NatToStringWidth(y, 4);
    ZeroFillValue(NatToString(y), 4);
    DigitsValueOfNatToString(y);
  }

  /** A zero-filled date text parses exactly when it names a calendar day,
      and then to that day. */
  lemma ParseIsoText(y: nat, m: nat, d: nat)
    requires 1 <= y <= 9999 && m < 100 && d < 100
    ensures ParseFull(IsoText(y, m, d)) == if ValidDate(Date(y, m, d)) then Some(Date(y, m, d)) else None
  {
    var s := IsoText(y, m, d);
    YearTextValue(y);
    Pad2Value(m);
    Pad2Value(d);
    var rest := s[5..];
    assert s[..4] == YearText(y);
    assert s[4] == '-';
    assert rest == Pad2(m) + "-" + Pad2(d);
    assert rest[0] != '-' && rest[1] != '-' by {
      assert IsDigit(Pad2(m)[0]) && IsDigit(Pad2(m)[1]);
    }
    assert IndexOfDash(rest[2..]) == Some(0);
    assert rest[1..][1..] == rest[2..];
    assert IndexOfDash(rest[1..]) == Some(1);
    assert IndexOfDash(rest) == Some(2);
    assert rest[..2] == Pad2(m);
    assert rest[3..] == Pad2(d);
    assert Pad2(d)[0] != ' ' by {
      assert IsDigit(Pad2(d)[0]);
    }
  }

  /** The page shows an existing date, written `YYYY-MM-DD`, as `Month DD, YYYY`. */
  lemma FormatIsoDate(d: Date)
    requires ValidDate(d)
    ensures FormatDate(Text(IsoText(d.year, d.month, d.day))) ==
              MonthNames[d.month - 1] + " " + Pad2(d.day) + ", " + YearText(d.year)
    ensures StrictFormatDate(Text(IsoText(d.year, d.month, d.day))) ==
              Success(FormatDate(Text(IsoText(d.year, d.month, d.day))))
  {
    var s := IsoText(d.year, d.month, d.day);
    ParseIsoText(d.year, d.month, d.day);
    assert ParseFull(s) == Some(d);
    assert s != "" by {
      assert |s| >= |YearText(d.year) + "-"| > 0;
    }
    assert FormatDate(Text(s)) == LongForm(d);
  }

  /** A ten-character date text naming no calendar day is `Invalid Date Format`,
      and the strict revision raises on it. */
  lemma FormatImpossibleDate(y: nat, m: nat, d: nat)
    requires 1 <= y <= 9999 && m < 100 && d < 100 && !ValidDate(Date(y, m, d))
    ensures FormatDate(Text(IsoText(y, m, d))) == InvalidDate
    ensures StrictFormatDate(Text(IsoText(y, m, d))) == Failure(DoesNotMatch)
  {
    ParseIsoText(y, m, d);
    YearTextValue(y);
    Pad2Value(m);
    Pad2Value(d);
  }

  /** The calendar is checked: 29 February exists only in leap years. */
  lemma LeapDayExamples()
    ensures FormatDate(Text(IsoText(2023, 2, 29))) == InvalidDate
    ensures FormatDate(Text(IsoText(2024, 2, 29))) == MonthNames[1] + " " + Pad2(29) + ", " + YearText(2024)
  {
    assert !ValidDate(Date(2023, 2, 29)) by {
      assert !IsLeapYear(2023) && DaysInMonth(2023, 2) == 28;
    }
    FormatImpossibleDate(2023, 2, 29);
    assert ValidDate(Date(2024, 2, 29)) by {
      assert IsLeapYear(2024) && DaysInMonth(2024, 2) == 29;
    }
    FormatIsoDate(Date(2024, 2, 29));
  }

  lemma IsoTextExample()
    ensures IsoText(2023, 2, 29) == "2023-02-29"
  {
    assert NatToString(2) == "2";
    assert NatToString(20) == "20";
    assert NatToString(202) == "202";
    assert NatToString(2023) == "2023";
    assert Pad2(29) == "29" by {
      assert NatToString(29) == "29";
    }
  }

  /** Whenever the strict revision renders a date, the lenient one renders the same
      text; where the strict one raises, the lenient one falls back. */
  lemma LenientExtendsStrict(v: DateInput)
    ensures StrictFormatDate(v).Success? ==> FormatDate(v) == StrictFormatDate(v).value
    ensures StrictFormatDate(v).Failure? ==>
              FormatDate(v) == UnknownDate || FormatDate(v) == InvalidDate ||
              (v.Text? && |v.s| == 4 && FormatDate(v) == v.s) ||
              (v.Text? && |v.s| == 7 && ParseYearMonth(v.s).Some?)
  {
  }

  /** Any four-character text that is not a full date, even `"TBA "`, is shown as given. */
  lemma FourCharactersShownAsGiven(s: string)
    requires |s| == 4
    ensures FormatDate(Text(s)) == s
  {
  }

  /** A year-month text is shown as `Month YYYY`. */
  lemma YearMonthForm(y: nat, m: nat)
    requires 1 <= y <= 9999 && 1 <= m <= 12
    ensures FormatDate(Text(YearText(y) + "-" + Pad2(m))) == MonthNames[m - 1] + " " + YearText(y)
  {
    var s := YearText(y) + "-" + Pad2(m);
    YearMonthParses(y, m);
    assert |s| == 7 && s != "";
  }

  /** The text has no second dash, so it is not a full date, and it reads back as
      its year and month. */
  lemma YearMonthParses(y: nat, m: nat)
    requires 1 <= y <= 9999 && 1 <= m <= 12
    ensures var s := YearText(y) + "-" + Pad2(m);
            |s| == 7 && ParseFull(s).None? && ParseYearMonth(s) == Some((y, m))
  {
    var s := YearText(y) + "-" + Pad2(m);
    YearTextValue(y);
    Pad2Value(m);
    assert |s| == 7 && s[4] == '-';
    assert s[..4] == YearText(y);
    assert s[5..] == Pad2(m);
    assert IndexOfDash(s[5..]).None? by {
      assert IsDigit(s[5..][0]) && IsDigit(s[5..][1]);
      assert s[5..][1..][1..] == "";
    }
  }

  /** Missing and non-text values read `Unknown Date`; the strict revision raises. */
  lemma NonTextIsUnknown(v: DateInput)
    requires !v.Text? || v.s == ""
    ensures FormatDate(v) == UnknownDate
    ensures !v.Text? ==> StrictFormatDate(v) == Failure(NotAString)
  {
  }

  /** Any other length that does not parse is `Invalid Date Format`. */
  lemma OtherLengthsInvalid(s: string)
    requires s != "" && ParseFull(s).None? && |s| != 4 && |s| != 7
    ensures FormatDate(Text(s)) == InvalidDate
  {
  }

  /** Single-digit and space-padded fields are accepted, as `strptime` accepts them. */
  lemma LooseSpelling(y: nat, m: nat, d: nat)
    requires 1 <= m <= 9 && 1 <= d <= 9 && ValidDate(Date(y, m, d))
    ensures ParseFull(YearText(y) + "-" + [DigitChar(m)] + "- " + [DigitChar(d)]) == Some(Date(y, m, d))
  {
    var s := YearText(y) + "-" + [DigitChar(m)] + "- " + [DigitChar(d)];
    YearTextValue(y);
    var rest := s[5..];
    assert s[..4] == YearText(y);
    assert rest == [DigitChar(m), '-', ' ', DigitChar(d)];
    assert IndexOfDash(rest[1..]) == Some(0);
    assert IndexOfDash(rest) == Some(1);
    assert rest[..1] == [DigitChar(m)];
    assert DigitsValue(rest[..1]) == m by {
      assert rest[..1][..0] == "";
    }
    assert rest[2..] == [' ', DigitChar(d)];
    assert !AllDigits(rest[2..]) by {
      assert rest[2..][0] == ' ';
    }
    assert DigitValue(DigitChar(d)) == d;
    assert DayToken(rest[2..]) == Some(d);
    assert MonthToken(rest[..1]) == Some(m);
  }
}
