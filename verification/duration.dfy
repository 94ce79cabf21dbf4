/** The four `M:SS` duration formatters of the repository and the proof that
    they agree on every non-negative millisecond count. */
module Duration {
  import opened Text
  import opened Wrappers

  /** `f"{minutes}:{seconds:02d}"`: the text every formatter produces. */
  function Clock(minutes: nat, seconds: nat): string {
    NatToString(minutes) + ":" + Pad2(seconds)
  }

  function IndexOfColon(s: string): (r: Option<nat>)
    ensures r.Some? ==> r.value < |s| && s[r.value] == ':' &&
                        forall j :: 0 <= j < r.value ==> s[j] != ':'
    ensures r.None? ==> forall j :: 0 <= j < |s| ==> s[j] != ':'
  {
    if |s| == 0 then None
    else if s[0] == ':' then Some(0)
    else match IndexOfColon(s[1..])
      case None => None
      case Some(i) => Some(i + 1)
  }

  /** Reads an `M:SS` text back into minutes and seconds. */
  function ParseClock(s: string): Option<(nat, nat)> {
    match IndexOfColon(s)
    case None => None
    case Some(i) =>
      var left := s[..i];
      var right := s[i + 1..];
      if 1 <= |left| && AllDigits(left) && |right| == 2 && AllDigits(right)
      then Some((DigitsValue(left), DigitsValue(right)))
      else None
  }

  /** Every clock text with seconds below 100 reads back as the numbers it was made from. */
  lemma ClockRoundTrip(minutes: nat, seconds: nat)
    requires seconds < 100
    ensures ParseClock(Clock(minutes, seconds)) == Some((minutes, seconds))
  {
    var m := NatToString(minutes);
    var c := Clock(minutes, seconds);
    assert forall j :: 0 <= j < |m| ==> c[j] == m[j] && IsDigit(m[j]);
    assert c[|m|] == ':';
    assert IndexOfColon(c) == Some(|m|);
    assert c[..|m|] == m;
    assert c[|m| + 1..] == Pad2(seconds);
    DigitsValueOfNatToString(minutes);
    Pad2Value(seconds);
  }

  lemma DivModUnique(a: int, b: int, q: int, r: int)
    requires b > 0 && a == b * q + r && 0 <= r < b
    ensures a / b == q && a % b == r
  {
    var q', r' := a / b, a % b;
    assert b * (q - q') == r' - r;
    if q > q' {
      MulAtLeast(b, q - q');
    } else if q < q' {
      MulAtLeast(b, q' - q);
    }
  }

  lemma MulAtLeast(b: int, k: int)
    requires b > 0 && k >= 1
    ensures b * k >= b
  {
  }

  // ---------------------------------------------------------------------------
  // artistrack/data/data_manager.py:98-101 — integer arithmetic.

  function FromMillis(ms: nat): string {
    Clock(ms / 60000, (ms % 60000) / 1000)
  }

  /** The clock shows whole minutes and whole seconds of `ms`, truncated:
      seconds stay below 60 and the shown time is at most 999 ms short of `ms`. */
  lemma FromMillisMeaning(ms: nat)
    ensures ParseClock(FromMillis(ms)).Some?
    ensures var (m, s) := ParseClock(FromMillis(ms)).value;
            s < 60 && m * 60000 + s * 1000 <= ms < m * 60000 + s * 1000 + 1000
  {
    var m, s := ms / 60000, (ms % 60000) / 1000;
    ClockRoundTrip(m, s);
  }

  lemma FromMillisExamples()
    ensures FromMillis(0) == "0:00"
    ensures FromMillis(180000) == "3:00"
    ensures FromMillis(3599999) == "59:59"
  {
    assert NatToString(3) == "3";
    assert NatToString(59) == "59" by {
      assert NatToString(5) == "5";
    }
  }

  // ---------------------------------------------------------------------------
  // populate_db.py:6-11 and populate_singles.py:14-19 — whole seconds first.

  /** `int(ms / 1000)` truncates, which for `ms >= 0` is integer division; Python's
      float quotient truncates to the same whole number below 2^53 ms only. */
  function FromMillisViaSeconds(ms: nat): string {
    var total := ms / 1000;
    Clock(total / 60, total % 60)
  }

  lemma SecondsFirstSplit(ms: nat)
    ensures (ms / 1000) / 60 == ms / 60000
    ensures (ms / 1000) % 60 == (ms % 60000) / 1000
  {
    var t, r1 := ms / 1000, ms % 1000;
    var q, r2 := t / 60, t % 60;
    assert ms == 60000 * q + (1000 * r2 + r1);
    DivModUnique(ms, 60000, q, 1000 * r2 + r1);
    DivModUnique(1000 * r2 + r1, 1000, r2, r1);
  }

  /** In exact arithmetic the root scripts' formatter prints exactly what the data
      manager stores. */
  lemma ViaSecondsAgrees(ms: nat)
    ensures FromMillisViaSeconds(ms) == FromMillis(ms)
  {
    SecondsFirstSplit(ms);
  }

  // ---------------------------------------------------------------------------
  // artistrack/web.py:36-48 — accepts stored text or an integer.

  datatype DurationCell = TextCell(text: string) | IntCell(ms: int)

  /** The ASCII characters `str.isspace` accepts. */
  predicate IsWhitespace(c: char) {
    c == ' ' || c == '\t' || c == '\n' || c == '\r' || c == '\U{000B}' || c == '\U{000C}'
  }

  predicate AllWhitespace(s: string) {
    forall i :: 0 <= i < |s| ==> IsWhitespace(s[i])
  }

  /** The whitespace `int()` ignores around its argument, removed from both ends. */
  function TrimWhitespace(s: string): (r: string)
    ensures |r| <= |s|
    ensures |r| > 0 ==> !IsWhitespace(r[0]) && !IsWhitespace(r[|r| - 1])
    decreases |s|
  {
    if |s| > 0 && IsWhitespace(s[0]) then TrimWhitespace(s[1..])
    else if |s| > 0 && IsWhitespace(s[|s| - 1]) then TrimWhitespace(s[..|s| - 1])
    else s
  }

  /** A base-10 numeral as `int()` reads one: digits, with single underscores
      allowed between two digits. */
  predicate Numeral(s: string) {
    |s| > 0 && IsDigit(s[0]) && IsDigit(s[|s| - 1]) &&
    (forall i :: 0 <= i < |s| ==> IsDigit(s[i]) || s[i] == '_') &&
    (forall i :: 0 <= i < |s| - 1 ==> s[i] == '_' ==> s[i + 1] != '_')
  }

  /** The digits of a numeral, its underscores dropped. */
  function DropUnderscores(s: string): (r: string)
    requires forall i :: 0 <= i < |s| ==> IsDigit(s[i]) || s[i] == '_'
    ensures AllDigits(r)
    ensures AllDigits(s) ==> r == s
  {
    if |s| == 0 then ""
    else (if s[0] == '_' then "" else [s[0]]) + DropUnderscores(s[1..])
  }

  /** Python's `int(s)` in base 10 on ASCII text: surrounding whitespace, then an
      optional sign, then a numeral. */
  function ParseInt(s: string): Option<int> {
    var t := TrimWhitespace(s);
    if Numeral(t) then Some(DigitsValue(DropUnderscores(t)))
    else if 2 <= |t| && t[0] == '-' && Numeral(t[1..]) then Some(-(DigitsValue(DropUnderscores(t[1..])) as int))
    else if 2 <= |t| && t[0] == '+' && Numeral(t[1..]) then Some(DigitsValue(DropUnderscores(t[1..])))
    else None
  }

  /** Whitespace around a text whose ends are not whitespace is all `int()` strips. */
  lemma {:induction false} TrimWhitespacePadded(w1: string, d: string, w2: string)
    requires AllWhitespace(w1) && AllWhitespace(w2)
    requires |d| > 0 && !IsWhitespace(d[0]) && !IsWhitespace(d[|d| - 1])
    ensures TrimWhitespace(w1 + d + w2) == d
    decreases |w1| + |w2|
  {
    var s := w1 + d + w2;
    if |w1| > 0 {
      assert s[0] == w1[0];
      assert s[1..] == w1[1..] + d + w2;
      TrimWhitespacePadded(w1[1..], d, w2);
    } else if |w2| > 0 {
      assert s == d + w2;
      assert s[0] == d[0];
      assert s[|s| - 1] == w2[|w2| - 1];
      assert s[..|s| - 1] == w1 + d + w2[..|w2| - 1];
      TrimWhitespacePadded(w1, d, w2[..|w2| - 1]);
    } else {
      assert s == d;
    }
  }

  /** Any run of digits is a numeral that reads as its decimal value. */
  lemma DigitsNumeral(d: string)
    requires |d| > 0 && AllDigits(d)
    ensures Numeral(d) && DropUnderscores(d) == d
  {
    assert IsDigit(d[0]) && IsDigit(d[|d| - 1]);
    assert forall i :: 0 <= i < |d| - 1 ==> d[i] != '_' by {
      forall i | 0 <= i < |d| - 1 ensures d[i] != '_' {
        assert IsDigit(d[i]);
      }
    }
  }

  /** `int()` reads a text whose trimmed form is a numeral as that numeral's value. */
  lemma ParseNumeral(s: string)
    requires Numeral(TrimWhitespace(s))
    ensures ParseInt(s) == Some(DigitsValue(DropUnderscores(TrimWhitespace(s))) as int)
  {
  }

  /** A run of digits with whitespace around it reads as its decimal value. */
  lemma DigitsParse(w1: string, d: string, w2: string)
    requires AllWhitespace(w1) && AllWhitespace(w2)
    requires |d| > 0 && AllDigits(d)
    ensures ParseInt(w1 + d + w2) == Some(DigitsValue(d) as int)
  {
    assert IsDigit(d[0]) && IsDigit(d[|d| - 1]);
    TrimWhitespacePadded(w1, d, w2);
    DigitsNumeral(d);
    ParseNumeral(w1 + d + w2);
  }

  lemma SixtyThousandText()
    ensures NatToString(60000) == "60000" && DigitsValue("60000") == 60000
  {
    assert NatToString(6) == "6";
    assert NatToString(60) == "60";
    assert NatToString(600) == "600";
    assert NatToString(6000) == "6000";
    DigitsValueOfNatToString(60000);
  }

  lemma UnderscoreNumeral()
    ensures TrimWhitespace("60_000") == "60_000"
    ensures Numeral("60_000")
  {
    var s := "60_000";
    assert "" + s + "" == s;
    TrimWhitespacePadded("", s, "");
  }

  /** One underscore between two digit groups is dropped and the groups join. */
  lemma {:induction false} DropUnderscoresJoin(a: string, b: string)
    requires AllDigits(a) && AllDigits(b)
    ensures DropUnderscores(a + "_" + b) == a + b
    decreases |a|
  {
    var s := a + "_" + b;
    if |a| == 0 {
      assert s == "_" + b && s[1..] == b;
    } else {
      assert s[0] == a[0] && IsDigit(a[0]);
      assert s[1..] == a[1..] + "_" + b;
      DropUnderscoresJoin(a[1..], b);
      assert [a[0]] + (a[1..] + b) == a + b;
    }
  }

  lemma UnderscoreDropped()
    ensures DropUnderscores("60_000") == "60000"
  {
    assert "60" + "_" + "000" == "60_000";
    DropUnderscoresJoin("60", "000");
    assert "60" + "000" == "60000";
  }

  /** An underscore between two digit groups leaves the value unchanged, so
      `int("60_000")` reads as 60000. */
  lemma UnderscoreExample()
    ensures ParseInt("60_000") == Some(60000)
  {
    UnderscoreNumeral();
    UnderscoreDropped();
    SixtyThousandText();
    ParseNumeral("60_000");
  }

  /** Python's `int(a / b)`: division truncated toward zero, the quotient taken as
      exact (the float quotient truncates to the same whole number below 2^53). */
  function TruncDiv(a: int, b: nat): int
    requires b > 0
  {
    if a >= 0 then a / b else -((-a) / b)
  }

  /** `int(ms / 60000)` minutes and `int((ms / 1000) % 60)` seconds; Python's
      float `%` takes the divisor's sign, so the seconds are `floor(ms / 1000) mod 60`. */
  function WebClock(ms: int): string {
    IntToString(TruncDiv(ms, 60000)) + ":" + Pad2((ms / 1000) % 60)
  }

  function WebFormat(d: DurationCell): string {
    match d
    case IntCell(ms) => WebClock(ms)
    case TextCell(s) =>
      if ContainsChar(s, ':') then s
      else match ParseInt(s)
        case None => "0:00"
        case Some(ms) => WebClock(ms)
  }

  /** On a non-negative integer, in exact arithmetic, the web formatter agrees with
      the data manager. */
  lemma WebAgrees(ms: nat)
    ensures WebFormat(IntCell(ms)) == FromMillis(ms)
  {
    SecondsFirstSplit(ms);
  }

  /** A stored `M:SS` text (anything holding a colon) is shown unchanged. */
  lemma WebKeepsColonText(s: string)
    requires ContainsChar(s, ':')
    ensures WebFormat(TextCell(s)) == s
  {
  }

  /** A text that is neither `M:SS` nor an integer is shown as `0:00`. */
  lemma WebNonIntegerText(s: string)
    requires !ContainsChar(s, ':') && ParseInt(s).None?
    ensures WebFormat(TextCell(s)) == "0:00"
  {
  }

  /** The decimal text of a millisecond count, with any whitespace around it,
      formats like the count itself. */
  lemma WebDecimalText(w1: string, ms: nat, w2: string)
    requires AllWhitespace(w1) && AllWhitespace(w2)
    ensures WebFormat(TextCell(w1 + NatToString(ms) + w2)) == FromMillis(ms)
  {
    var d := NatToString(ms);
    var s := w1 + d + w2;
    DigitsValueOfNatToString(ms);
    assert !ContainsChar(s, ':') by {
      forall i | 0 <= i < |s| ensures s[i] != ':' {
        if i < |w1| {
          assert s[i] == w1[i];
        } else if i < |w1| + |d| {
          assert s[i] == d[i - |w1|];
          assert IsDigit(d[i - |w1|]);
        } else {
          assert s[i] == w2[i - |w1| - |d|];
        }
      }
    }
    DigitsParse(w1, d, w2);
    WebAgrees(ms);
  }

  lemma OneMinuteClock()
    ensures FromMillis(60000) == "1:00"
  {
    assert NatToString(1) == "1";
    assert NatToString(0) == "0";
    assert Pad2(0) == "00";
  }

  /** `int()` ignores the space, so ` 60000` shows as one minute. */
  lemma WebPaddedExample()
    ensures WebFormat(TextCell(" 60000")) == "1:00"
  {
    SixtyThousandText();
    assert " " + NatToString(60000) + "" == " 60000";
    assert AllWhitespace(" ");
    WebDecimalText(" ", 60000, "");
    OneMinuteClock();
  }

  /** A negative count, which only the web formatter accepts, still shows seconds in 0..59. */
  lemma WebNegativeExample()
    ensures WebFormat(TextCell("-5000")) == "0:55"
  {
    NegativeText();
    NegativeClock();
    assert !ContainsChar("-5000", ':');
  }

  /** `int()` reads a minus sign before a numeral as the negated value. */
  lemma ParseNegative(s: string)
    requires var t := TrimWhitespace(s); 2 <= |t| && t[0] == '-' && Numeral(t[1..])
    ensures var t := TrimWhitespace(s); ParseInt(s) == Some(-(DigitsValue(DropUnderscores(t[1..])) as int))
  {
  }

  lemma FiveThousandText()
    ensures DigitsValue("5000") == 5000
  {
    assert NatToString(5) == "5";
    assert NatToString(50) == "50";
    assert NatToString(500) == "500";
    assert NatToString(5000) == "5000";
    DigitsValueOfNatToString(5000);
  }

  lemma NegativeText()
    ensures ParseInt("-5000") == Some(-5000)
  {
    var s := "-5000";
    assert TrimWhitespace(s) == s by {
      assert "" + s + "" == s;
      TrimWhitespacePadded("", s, "");
    }
    assert s[0] == '-' && s[1..] == "5000";
    DigitsNumeral("5000");
    FiveThousandText();
    ParseNegative(s);
  }

  lemma NegativeClock()
    ensures WebClock(-5000) == "0:55"
  {
    assert TruncDiv(-5000, 60000) == 0;
    assert (-5000 / 1000) % 60 == 55;
    assert NatToString(55) == "55" by {
      assert NatToString(5) == "5";
    }
  }
}
