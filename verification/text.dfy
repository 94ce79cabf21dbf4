/** Text helpers shared by every revision: decimal rendering, ASCII case folding,
    prefix tests and the file-name sanitiser used for story and track files. */
module Text {

  predicate IsDigit(c: char) {
    '0' <= c <= '9'
  }

  /** ASCII approximation of Python's `str.isalnum`. */
  predicate IsAlnum(c: char) {
    IsDigit(c) || 'a' <= c <= 'z' || 'A' <= c <= 'Z'
  }

  predicate AllDigits(s: string) {
    forall i :: 0 <= i < |s| ==> IsDigit(s[i])
  }

  function DigitChar(d: nat): (c: char)
    requires d < 10
    ensures IsDigit(c)
  {
    (48 + d) as char
  }

  function DigitValue(c: char): nat
    requires IsDigit(c)
  {
    (c as int) - 48
  }

  /** Python's `str(n)` for a non-negative integer. */
  function NatToString(n: nat): (s: string)
    ensures 1 <= |s| && AllDigits(s)
    decreases n
  {
    if n < 10 then [DigitChar(n)] else NatToString(n / 10) + [DigitChar(n % 10)]
  }

  /** Python's `int(s)` for a string of ASCII digits (the empty string reads as 0). */
  function DigitsValue(s: string): nat
    requires AllDigits(s)
  {
    if |s| == 0 then 0 else DigitsValue(s[..|s| - 1]) * 10 + DigitValue(s[|s| - 1])
  }

  lemma {:induction false} DigitsValueOfNatToString(n: nat)
    ensures DigitsValue(NatToString(n)) == n
    decreases n
  {
    if n >= 10 {
      var p := NatToString(n / 10);
      var s := p + [DigitChar(n % 10)];
      assert s[..|s| - 1] == p;
      DigitsValueOfNatToString(n / 10);
    }
  }

  /** `str(n)` is injective: distinct integers print differently. */
  lemma NatToStringInjective(m: nat, n: nat)
    requires NatToString(m) == NatToString(n)
    ensures m == n
  {
    DigitsValueOfNatToString(m);
    DigitsValueOfNatToString(n);
  }

  function Pow10(k: nat): (p: nat)
    ensures p >= 1
  {
    if k == 0 then 1 else 10 * Pow10(k - 1)
  }

  /** A digit string of length k denotes a number below 10^k. */
  lemma {:induction false} DigitsValueBound(s: string)
    requires AllDigits(s)
    ensures DigitsValue(s) < Pow10(|s|)
    decreases |s|
  {
    if |s| > 0 {
      DigitsValueBound(s[..|s| - 1]);
    }
  }

  /** Reading a concatenation: the left part is shifted by the right part's width. */
  lemma {:induction false} DigitsValueAppend(a: string, b: string)
    requires AllDigits(a) && AllDigits(b)
    ensures DigitsValue(a + b) == DigitsValue(a) * Pow10(|b|) + DigitsValue(b)
    decreases |b|
  {
    if |b| == 0 {
      assert a + b == a;
    } else {
      var b' := b[..|b| - 1];
      var d := DigitValue(b[|b| - 1]);
      assert (a + b)[..|a + b| - 1] == a + b';
      assert (a + b)[|a + b| - 1] == b[|b| - 1];
      assert DigitsValue(a + b) == DigitsValue(a + b') * 10 + d;
      assert DigitsValue(b) == DigitsValue(b') * 10 + d;
      DigitsValueAppend(a, b');
      ShiftDigit(DigitsValue(a), Pow10(|b'|), DigitsValue(b'), d);
    }
  }

  lemma ShiftDigit(x: int, p: int, v: int, d: int)
    ensures (x * p + v) * 10 + d == x * (10 * p) + (v * 10 + d)
  {
  }

  function Zeros(k: nat): (z: string)
    ensures |z| == k && AllDigits(z)
  {
    seq(k, _ => '0')
  }

  lemma {:induction false} ZerosValue(k: nat)
    ensures DigitsValue(Zeros(k)) == 0
  {
    if k > 0 {
      assert Zeros(k)[..k - 1] == Zeros(k - 1);
      ZerosValue(k - 1);
    }
  }

  /** Left-pads a digit string with zeros to at least `width` characters. */
  function ZeroFill(s: string, width: nat): string {
    if |s| >= width then s else Zeros(width - |s|) + s
  }

  lemma ZeroFillValue(s: string, width: nat)
    requires AllDigits(s)
    ensures |ZeroFill(s, width)| == if |s| >= width then |s| else width
    ensures AllDigits(ZeroFill(s, width))
    ensures DigitsValue(ZeroFill(s, width)) == DigitsValue(s)
  {
    if |s| < width {
      ZerosValue(width - |s|);
      DigitsValueAppend(Zeros(width - |s|), s);
    }
  }

  /** A number below 10^k prints in at most k digits. */
  lemma {:induction false} NatToStringWidth(n: nat, k: nat)
    requires 1 <= k && n < Pow10(k)
    ensures |NatToString(n)| <= k
    decreases k
  {
    if n >= 10 {
      NatToStringWidth(n / 10, k - 1);
    }
  }

  /** Python's `str(i)` for any integer. */
  function IntToString(i: int): string {
    if i < 0 then "-" + NatToString(-i) else NatToString(i)
  }

  /** Python's `f"{n:02d}"` for a non-negative integer. */
  function Pad2(n: nat): (s: string)
    ensures AllDigits(s)
  {
    if n < 10 then "0" + NatToString(n) else NatToString(n)
  }

  lemma Pad2Value(n: nat)
    requires n < 100
    ensures |Pad2(n)| == 2 && DigitsValue(Pad2(n)) == n
  {
    if n < 10 {
      var s := Pad2(n);
      assert s == ['0', DigitChar(n)];
      assert s[..1] == ['0'];
      assert DigitsValue(s[..1]) == 0 by {
        assert s[..1][..0] == [];
      }
    } else {
      DigitsValueOfNatToString(n);
      var p := NatToString(n / 10);
      assert NatToString(n) == p + [DigitChar(n % 10)];
      assert n / 10 < 10;
      assert |p| == 1;
    }
  }

  /** SQLite's built-in `LOWER`, which folds ASCII letters only. */
  function LowerChar(c: char): char {
    if 'A' <= c <= 'Z' then ((c as int) + 32) as char else c
  }

  function Lower(s: string): (r: string)
    ensures |r| == |s|
    ensures forall i :: 0 <= i < |s| ==> r[i] == LowerChar(s[i])
  {
    if |s| == 0 then "" else [LowerChar(s[0])] + Lower(s[1..])
  }

  /** Folding twice folds once. */
  lemma LowerIdempotent(s: string)
    ensures Lower(Lower(s)) == Lower(s)
  {
    assert forall i :: 0 <= i < |s| ==> LowerChar(LowerChar(s[i])) == LowerChar(s[i]);
  }

  predicate StartsWith(s: string, prefix: string) {
    |prefix| <= |s| && s[..|prefix|] == prefix
  }

  predicate EndsWith(s: string, suffix: string) {
    |suffix| <= |s| && s[|s| - |suffix|..] == suffix
  }

  /** Python's `sub in s`, and SQL's `LIKE '%sub%'` once both sides are lower case. */
  predicate Contains(s: string, sub: string)
    decreases |s|
  {
    StartsWith(s, sub) || (|s| > 0 && Contains(s[1..], sub))
  }

  predicate ContainsChar(s: string, c: char) {
    exists i :: 0 <= i < |s| && s[i] == c
  }

  // ---------------------------------------------------------------------------
  // The sanitiser of instastory.py and wraithtrack.py: keep alphanumerics,
  // space, '-' and '_', strip the ends, then turn spaces into '-'.

  predicate Kept(c: char) {
    IsAlnum(c) || c == ' ' || c == '-' || c == '_'
  }

  /** A character that may appear in a sanitised name. */
  predicate SafeChar(c: char) {
    IsAlnum(c) || c == '-' || c == '_'
  }

  function KeepAllowed(s: string): (r: string)
    ensures forall i :: 0 <= i < |r| ==> Kept(r[i])
  {
    if |s| == 0 then ""
    else if Kept(s[0]) then [s[0]] + KeepAllowed(s[1..])
    else KeepAllowed(s[1..])
  }

  function TrimLeftSpaces(s: string): (r: string)
    ensures |r| <= |s| && r == s[|s| - |r|..]
    ensures |r| > 0 ==> r[0] != ' '
    ensures forall i :: 0 <= i < |s| - |r| ==> s[i] == ' '
  {
    if |s| > 0 && s[0] == ' ' then TrimLeftSpaces(s[1..]) else s
  }

  function TrimRightSpaces(s: string): (r: string)
    ensures |r| <= |s| && r == s[..|r|]
    ensures |r| > 0 ==> r[|r| - 1] != ' '
    ensures forall i :: |r| <= i < |s| ==> s[i] == ' '
  {
    if |s| > 0 && s[|s| - 1] == ' ' then TrimRightSpaces(s[..|s| - 1]) else s
  }

  /** Python's `str.strip()` on a string whose only whitespace is the space. */
  function StripSpaces(s: string): string {
    TrimRightSpaces(TrimLeftSpaces(s))
  }

  function SpacesToDashes(s: string): (r: string)
    ensures |r| == |s|
    ensures forall i :: 0 <= i < |s| ==> r[i] == (if s[i] == ' ' then '-' else s[i])
  {
    if |s| == 0 then "" else [if s[0] == ' ' then '-' else s[0]] + SpacesToDashes(s[1..])
  }

  function SafeName(s: string): string {
    SpacesToDashes(StripSpaces(KeepAllowed(s)))
  }

  /** The alphanumeric characters of a string, in order. */
  function AlnumOnly(s: string): string {
    if |s| == 0 then "" else (if IsAlnum(s[0]) then [s[0]] else []) + AlnumOnly(s[1..])
  }

  lemma AlnumOnlyAppend(a: string, b: string)
    ensures AlnumOnly(a + b) == AlnumOnly(a) + AlnumOnly(b)
  {
    if |a| > 0 {
      assert (a + b)[1..] == a[1..] + b;
      AlnumOnlyAppend(a[1..], b);
    } else {
      assert a + b == b;
    }
  }

  lemma AlnumOnlySpaces(s: string)
    requires forall i :: 0 <= i < |s| ==> s[i] == ' '
    ensures AlnumOnly(s) == ""
  {
    if |s| > 0 {
      AlnumOnlySpaces(s[1..]);
    }
  }

  lemma {:induction false} AlnumOnlyKeepAllowed(s: string)
    ensures AlnumOnly(KeepAllowed(s)) == AlnumOnly(s)
  {
    if |s| > 0 {
      AlnumOnlyKeepAllowed(s[1..]);
      if Kept(s[0]) {
        assert KeepAllowed(s) == [s[0]] + KeepAllowed(s[1..]);
        AlnumOnlyAppend([s[0]], KeepAllowed(s[1..]));
      }
    }
  }

  lemma AlnumOnlyTrimLeft(s: string)
    ensures AlnumOnly(TrimLeftSpaces(s)) == AlnumOnly(s)
  {
    var l := TrimLeftSpaces(s);
    var pre := s[..|s| - |l|];
    assert s == pre + l;
    AlnumOnlySpaces(pre);
    AlnumOnlyAppend(pre, l);
  }

  lemma AlnumOnlyTrimRight(s: string)
    ensures AlnumOnly(TrimRightSpaces(s)) == AlnumOnly(s)
  {
    var r := TrimRightSpaces(s);
    var post := s[|r|..];
    assert s == r + post;
    AlnumOnlySpaces(post);
    AlnumOnlyAppend(r, post);
  }

  lemma AlnumOnlyStrip(s: string)
    ensures AlnumOnly(StripSpaces(s)) == AlnumOnly(s)
  {
    AlnumOnlyTrimLeft(s);
    AlnumOnlyTrimRight(TrimLeftSpaces(s));
  }

  lemma {:induction false} AlnumOnlyDashes(s: string)
    ensures AlnumOnly(SpacesToDashes(s)) == AlnumOnly(s)
  {
    if |s| > 0 {
      AlnumOnlyDashes(s[1..]);
      assert SpacesToDashes(s)[1..] == SpacesToDashes(s[1..]);
    }
  }

  /** The sanitiser never loses or reorders a letter or digit of the title. */
  lemma SafeNameKeepsAlnums(s: string)
    ensures AlnumOnly(SafeName(s)) == AlnumOnly(s)
  {
    AlnumOnlyKeepAllowed(s);
    AlnumOnlyStrip(KeepAllowed(s));
    AlnumOnlyDashes(StripSpaces(KeepAllowed(s)));
  }

  /** A sanitised name holds only letters, digits, '-' and '_': in particular no space. */
  lemma SafeNameChars(s: string)
    ensures forall i :: 0 <= i < |SafeName(s)| ==> SafeChar(SafeName(s)[i])
  {
    var k := KeepAllowed(s);
    var t := StripSpaces(k);
    var l := TrimLeftSpaces(k);
    assert forall i :: 0 <= i < |t| ==> t[i] == k[|k| - |l| + i];
  }

  /** A name made only of safe characters is its own sanitised form. */
  lemma SafeNameFixes(s: string)
    requires forall i :: 0 <= i < |s| ==> SafeChar(s[i])
    ensures SafeName(s) == s
  {
    KeepAllowedFixes(s);
    assert TrimLeftSpaces(s) == s;
    assert TrimRightSpaces(s) == s;
    assert SpacesToDashes(s) == s;
  }

  lemma KeepAllowedFixes(s: string)
    requires forall i :: 0 <= i < |s| ==> Kept(s[i])
    ensures KeepAllowed(s) == s
  {
  }

  /** Sanitising twice is the same as sanitising once. */
  lemma SafeNameIdempotent(s: string)
    ensures SafeName(SafeName(s)) == SafeName(s)
  {
    SafeNameChars(s);
    SafeNameFixes(SafeName(s));
  }
}
