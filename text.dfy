/** Text operations the data loader relies on: Python's substring test, the
    comma-to-dot rewrite applied to numeric text before `astype(float)`, and
    the plain-notation number and calendar-date parsers that stand in for
    `astype(float)`, `astype(int)` and `pd.to_datetime(..., format=...)`. */
module Text {
  import opened Wrappers

  // ---------------------------------------------------------------------
  // Substrings (Python's `sub in s`)
  // ---------------------------------------------------------------------

  /** `sub` occurs in `s` starting at position `i`. */
  predicate OccursAt(s: string, sub: string, i: int) {
    0 <= i && i + |sub| <= |s| && s[i..i + |sub|] == sub
  }

  /** Python's `sub in s`: a literal, case-sensitive substring test. */
  predicate Contains(s: string, sub: string) {
    exists i | 0 <= i <= |s| :: OccursAt(s, sub, i)
  }

  /** An occurrence stays an occurrence whatever text surrounds it. */
  lemma ContainsInContext(p: string, s: string, q: string, sub: string)
    requires Contains(s, sub)
    ensures Contains(p + s + q, sub)
  {
    var i :| 0 <= i <= |s| && OccursAt(s, sub, i);
    var t := p + s + q;
    assert t[|p| + i..|p| + i + |sub|] == s[i..i + |sub|];
    assert OccursAt(t, sub, |p| + i);
  }

  // ---------------------------------------------------------------------
  // Comma-to-dot rewrite (`.str.replace(',', '.')`)
  // ---------------------------------------------------------------------

  /** Every `,` of the text becomes `.`; nothing else changes. */
  function NormalizeDecimal(s: string): (r: string)
    ensures |r| == |s|
    ensures ',' !in r
    ensures forall i | 0 <= i < |s| && s[i] != ',' :: r[i] == s[i]
    ensures forall i | 0 <= i < |s| && s[i] == ',' :: r[i] == '.'
  {
    seq(|s|, i requires 0 <= i < |s| => if s[i] == ',' then '.' else s[i])
  }

  /** Applying the rewrite twice is the same as applying it once. */
  lemma NormalizeDecimalIdempotent(s: string)
    ensures NormalizeDecimal(NormalizeDecimal(s)) == NormalizeDecimal(s)
  {
  }

  /** The rewrite works character by character, so it distributes over
      concatenation. */
  lemma NormalizeDecimalAppend(a: string, b: string)
    ensures NormalizeDecimal(a + b) == NormalizeDecimal(a) + NormalizeDecimal(b)
  {
  }

  /** Text without commas is left alone. */
  lemma NormalizeDecimalNoComma(s: string)
    requires ',' !in s
    ensures NormalizeDecimal(s) == s
  {
  }

  // ---------------------------------------------------------------------
  // Decimal digits
  // ---------------------------------------------------------------------

  predicate IsDigit(c: char) {
    '0' <= c <= '9'
  }

  predicate AllDigits(s: string) {
    forall i | 0 <= i < |s| :: IsDigit(s[i])
  }

  function DigitValue(c: char): (d: nat)
    requires IsDigit(c)
    ensures d < 10
  {
    c as int - '0' as int
  }

  function DigitChar(d: nat): (c: char)
    requires d < 10
    ensures IsDigit(c) && DigitValue(c) == d
  {
    ('0' as int + d) as char
  }

  function Pow10(k: nat): (p: nat)
    ensures p >= 1
  {
    if k == 0 then 1 else 10 * Pow10(k - 1)
  }

  /** Powers of ten multiply by adding their exponents. */
  lemma {:induction false} Pow10Add(a: nat, b: nat)
    ensures Pow10(a + b) == Pow10(a) * Pow10(b)
  {
    if a > 0 {
      Pow10Add(a - 1, b);
    }
  }

  /** The number a string of decimal digits denotes (most significant first). */
  function DigitsValue(s: string): nat
    requires AllDigits(s)
  {
    if s == [] then 0 else DigitsValue(s[..|s| - 1]) * 10 + DigitValue(s[|s| - 1])
  }

  /** `n` written with exactly `width` digits, zero-padded on the left (the
      digits above `width` are dropped). */
  function Padded(n: nat, width: nat): (r: string)
    ensures |r| == width && AllDigits(r)
  {
    if width == 0 then [] else Padded(n / 10, width - 1) + [DigitChar(n % 10)]
  }

  lemma {:induction false} DigitsValueBound(s: string)
    requires AllDigits(s)
    ensures DigitsValue(s) < Pow10(|s|)
  {
    if s != [] {
      DigitsValueBound(s[..|s| - 1]);
    }
  }

  /** Reading back a padded numeral gives the number, when it fits. */
  lemma {:induction false} PaddedValue(n: nat, width: nat)
    requires n < Pow10(width)
    ensures DigitsValue(Padded(n, width)) == n
  {
    if width > 0 {
      var init := Padded(n / 10, width - 1);
      var r := Padded(n, width);
      assert r[..|r| - 1] == init;
      PaddedValue(n / 10, width - 1);
    }
  }

  /** A digit string is the padded numeral of its own value: the value of a
      fixed-width field determines the field. */
  lemma {:induction false} PaddedOfValue(s: string)
    requires AllDigits(s)
    ensures Padded(DigitsValue(s), |s|) == s
  {
    if s != [] {
      var init := s[..|s| - 1];
      PaddedOfValue(init);
      assert s == init + [s[|s| - 1]];
    }
  }

  // ---------------------------------------------------------------------
  // Numbers (`astype(float)`, `astype(int)`) in plain notation
  // ---------------------------------------------------------------------

  /** Position of the first `c` in `s`, or `|s|` when there is none. */
  function IndexOf(s: string, c: char): (k: nat)
    ensures k <= |s|
    ensures k < |s| ==> s[k] == c
    ensures forall i | 0 <= i < k :: s[i] != c
  {
    if s == [] then 0 else if s[0] == c then 0 else 1 + IndexOf(s[1..], c)
  }

  /** The text after an optional leading sign, and whether the sign is `-`. */
  function Unsigned(s: string): (string, bool) {
    if |s| > 0 && (s[0] == '-' || s[0] == '+') then (s[1..], s[0] == '-') else (s, false)
  }

  /** The value of the numeral `whole.fraction`. */
  function Magnitude(whole: string, fraction: string): real
    requires AllDigits(whole) && AllDigits(fraction)
  {
    DigitsValue(whole) as real + DigitsValue(fraction) as real / Pow10(|fraction|) as real
  }

  /** Python's `float(s)` on plain decimal notation: an optional sign, then
      digits with at most one `.` among them, and at least one digit. Any
      other text (a `,` in particular) is rejected, as `float` raises on it. */
  function ParseDecimal(s: string): (r: Option<real>)
  {
    var (body, negative) := Unsigned(s);
    var k := IndexOf(body, '.');
    var whole := body[..k];
    var fraction := if k < |body| then body[k + 1..] else "";
    if AllDigits(whole) && AllDigits(fraction) && |whole| + |fraction| > 0 then
      var magnitude := Magnitude(whole, fraction);
      Some(if negative then -magnitude else magnitude)
    else
      None
  }

  /** Python's `int(s)` on plain notation: an optional sign and at least one
      digit. */
  function ParseInteger(s: string): (r: Option<int>)
  {
    var (body, negative) := Unsigned(s);
    if |body| > 0 && AllDigits(body) then
      Some(if negative then -(DigitsValue(body) as int) else DigitsValue(body))
    else
      None
  }

  /** `n` written with an optional `-` and `width` digits. */
  function IntegerText(n: int, width: nat): (s: string)
    ensures |s| == width + (if n < 0 then 1 else 0)
  {
    (if n < 0 then "-" else "") + Padded(if n < 0 then -n else n, width)
  }

  /** Every integer whose digits fit the width reads back as itself. */
  lemma IntegerRoundTrip(n: int, width: nat)
    requires 0 < width && (if n < 0 then -n else n) < Pow10(width)
    ensures ParseInteger(IntegerText(n, width)) == Some(n)
  {
    var m := if n < 0 then -n else n;
    var digits := Padded(m, width);
    PaddedValue(m, width);
    assert IsDigit(digits[0]);
    if n < 0 {
      assert IntegerText(n, width) == "-" + digits;
      assert ("-" + digits)[1..] == digits;
      assert Unsigned(IntegerText(n, width)) == (digits, true);
    } else {
      assert IntegerText(n, width) == digits;
      assert Unsigned(digits) == (digits, false);
    }
  }

  /** `int()` rejects a decimal point, so `1.5` is not an integer. */
  lemma IntegerRejectsPoint(s: string)
    requires '.' in s
    ensures ParseInteger(s) == None
  {
    var (body, _) := Unsigned(s);
    var i :| 0 <= i < |s| && s[i] == '.';
    if |s| > 0 && (s[0] == '-' || s[0] == '+') {
      assert body[i - 1] == '.';
    } else {
      assert body[i] == '.';
    }
  }

  /** Text holding a comma is not a number until the comma is rewritten. */
  lemma CommaIsNotANumber(s: string)
    requires ',' in s
    ensures ParseDecimal(s) == None
  {
    var (body, negative) := Unsigned(s);
    var j :| 0 <= j < |s| && s[j] == ',';
    var b := j - (|s| - |body|);
    assert 0 <= b < |body| && body[b] == ',';
    var k := IndexOf(body, '.');
    if b < k {
      assert body[..k][b] == ',';
    } else {
      assert b != k;
      assert body[k + 1..][b - k - 1] == ',';
    }
  }

  /** Reading an unsigned numeral split at its point. */
  lemma ParseUnsignedDecimal(w: string, f: string)
    requires AllDigits(w) && AllDigits(f) && |w| + |f| > 0
    ensures ParseDecimal(w + "." + f) == Some(Magnitude(w, f))
  {
    var s := w + "." + f;
    if |w| > 0 {
      assert s[0] == w[0];
    } else {
      assert s[0] == '.';
    }
    assert Unsigned(s) == (s, false);
    var k := IndexOf(s, '.');
    assert s[|w|] == '.';
    assert forall i | 0 <= i < |w| :: s[i] == w[i] && s[i] != '.';
    assert k == |w|;
    assert s[..k] == w;
    assert s[k + 1..] == f;
  }

  /** The numeral `whole.fraction` (the fraction written with `width`
      digits) reads back as the number it shows. */
  lemma DecimalRoundTrip(whole: nat, wholeWidth: nat, fraction: nat, width: nat)
    requires whole < Pow10(wholeWidth) && fraction < Pow10(width)
    requires wholeWidth + width > 0
    ensures ParseDecimal(Padded(whole, wholeWidth) + "." + Padded(fraction, width)).Some?
    ensures ParseDecimal(Padded(whole, wholeWidth) + "." + Padded(fraction, width)).value
         == whole as real + fraction as real / Pow10(width) as real
  {
    var w, f := Padded(whole, wholeWidth), Padded(fraction, width);
    PaddedValue(whole, wholeWidth);
    PaddedValue(fraction, width);
    ParseUnsignedDecimal(w, f);
    var m := Magnitude(w, f);
    assert m == whole as real + fraction as real / Pow10(width) as real by {
      assert DigitsValue(w) == whole && DigitsValue(f) == fraction && |f| == width;
    }
    assert ParseDecimal(w + "." + f) == Some(m);
  }

  /** A decimal written with a comma separator, as the CSV extracts hold it,
      reads as the intended number once the comma is rewritten. */
  lemma CommaDecimalRoundTrip(whole: nat, wholeWidth: nat, fraction: nat, width: nat)
    requires whole < Pow10(wholeWidth) && fraction < Pow10(width)
    requires wholeWidth + width > 0
    ensures ParseDecimal(NormalizeDecimal(Padded(whole, wholeWidth) + "," + Padded(fraction, width))).Some?
    ensures ParseDecimal(NormalizeDecimal(Padded(whole, wholeWidth) + "," + Padded(fraction, width))).value
         == whole as real + fraction as real / Pow10(width) as real
  {
    var w := Padded(whole, wholeWidth);
    var f := Padded(fraction, width);
    NormalizeDecimalAppend(w + ",", f);
    NormalizeDecimalAppend(w, ",");
    NormalizeDecimalNoComma(w);
    NormalizeDecimalNoComma(f);
    assert NormalizeDecimal(",") == ".";
    DecimalRoundTrip(whole, wholeWidth, fraction, width);
  }

  /** The text `12,50` is read as twelve and a half. */
  lemma CommaDecimalExample()
    ensures ParseDecimal(NormalizeDecimal("12,50")) == Some(12.5)
  {
    assert Padded(12, 2) + "," + Padded(50, 2) == "12,50";
    CommaDecimalRoundTrip(12, 2, 50, 2);
  }

  // ---------------------------------------------------------------------
  // Calendar dates (`pd.to_datetime(..., format=...)`)
  // ---------------------------------------------------------------------

  datatype Date = Date(year: int, month: int, day: int)

  predicate IsLeapYear(y: int) {
    y % 4 == 0 && (y % 100 != 0 || y % 400 == 0)
  }

  function DaysInMonth(y: int, m: int): (n: int)
    requires 1 <= m <= 12
    ensures 28 <= n <= 31
  {
    if m == 2 then (if IsLeapYear(y) then 29 else 28)
    else if m == 4 || m == 6 || m == 9 || m == 11 then 30
    else 31
  }

  /** A day of the proleptic Gregorian calendar with a four-digit year, the
      range Python's `datetime` accepts. */
  predicate ValidDate(d: Date) {
    1 <= d.year <= 9999 && 1 <= d.month <= 12 && 1 <= d.day <= DaysInMonth(d.year, d.month)
  }

  /** The day named by a year, month and day field, if it exists. */
  function DateOf(y: string, m: string, d: string): (r: Option<Date>)
    requires AllDigits(y) && AllDigits(m) && AllDigits(d)
    ensures r.Some? ==> ValidDate(r.value)
  {
    var date := Date(DigitsValue(y), DigitsValue(m), DigitsValue(d));
    if ValidDate(date) then Some(date) else None
  }

  /** Format `%Y-%m-%d` (ISO 8601 calendar date), as the campaign extract
      writes its start and end dates. */
  function ParseIsoDate(s: string): (r: Option<Date>)
    ensures r.Some? ==> ValidDate(r.value)
  {
    if |s| == 10 && s[4] == '-' && s[7] == '-'
       && AllDigits(s[..4]) && AllDigits(s[5..7]) && AllDigits(s[8..])
    then DateOf(s[..4], s[5..7], s[8..])
    else None
  }

  /** Format `%d/%m/%Y`, day first, as the order extract writes its dates. */
  function ParseDayFirstDate(s: string): (r: Option<Date>)
    ensures r.Some? ==> ValidDate(r.value)
  {
    if |s| == 10 && s[2] == '/' && s[5] == '/'
       && AllDigits(s[..2]) && AllDigits(s[3..5]) && AllDigits(s[6..])
    then DateOf(s[6..], s[3..5], s[..2])
    else None
  }

  function IsoText(d: Date): (s: string)
    requires ValidDate(d)
    ensures |s| == 10
  {
    Padded(d.year, 4) + "-" + Padded(d.month, 2) + "-" + Padded(d.day, 2)
  }

  function DayFirstText(d: Date): (s: string)
    requires ValidDate(d)
    ensures |s| == 10
  {
    Padded(d.day, 2) + "/" + Padded(d.month, 2) + "/" + Padded(d.year, 4)
  }

  /** The fields of a valid day, written with their usual widths, name it. */
  lemma DateOfPadded(d: Date)
    requires ValidDate(d)
    ensures DateOf(Padded(d.year, 4), Padded(d.month, 2), Padded(d.day, 2)) == Some(d)
  {
    PaddedValue(d.year, 4);
    PaddedValue(d.month, 2);
    PaddedValue(d.day, 2);
  }

  /** Every valid day, written in ISO form, parses back to itself. */
  lemma IsoRoundTrip(d: Date)
    requires ValidDate(d)
    ensures ParseIsoDate(IsoText(d)) == Some(d)
  {
    var s := IsoText(d);
    assert s[..4] == Padded(d.year, 4);
    assert s[5..7] == Padded(d.month, 2);
    assert s[8..] == Padded(d.day, 2);
    DateOfPadded(d);
  }

  /** Every valid day, written day first, parses back to itself. */
  lemma DayFirstRoundTrip(d: Date)
    requires ValidDate(d)
    ensures ParseDayFirstDate(DayFirstText(d)) == Some(d)
  {
    var s := DayFirstText(d);
    assert s[..2] == Padded(d.day, 2);
    assert s[3..5] == Padded(d.month, 2);
    assert s[6..] == Padded(d.year, 4);
    DateOfPadded(d);
  }

  /** The ISO parser accepts exactly one spelling of each day. */
  lemma IsoParseUnique(s: string)
    requires ParseIsoDate(s).Some?
    ensures IsoText(ParseIsoDate(s).value) == s
  {
    PaddedOfValue(s[..4]);
    PaddedOfValue(s[5..7]);
    PaddedOfValue(s[8..]);
    assert s == s[..4] + "-" + s[5..7] + "-" + s[8..];
  }

  /** The day-first parser accepts exactly one spelling of each day. */
  lemma DayFirstParseUnique(s: string)
    requires ParseDayFirstDate(s).Some?
    ensures DayFirstText(ParseDayFirstDate(s).value) == s
  {
    PaddedOfValue(s[..2]);
    PaddedOfValue(s[3..5]);
    PaddedOfValue(s[6..]);
    assert s == s[..2] + "/" + s[3..5] + "/" + s[6..];
  }

  /** The two formats name the same day exactly when the day-first text is
      the ISO text with its fields reversed: both parsers agree on the
      calendar, whatever the field order. */
  lemma FormatsAgree(iso: string, dayFirst: string)
    requires ParseIsoDate(iso).Some?
    ensures ParseDayFirstDate(dayFirst) == ParseIsoDate(iso)
        <==> dayFirst == iso[8..] + "/" + iso[5..7] + "/" + iso[..4]
  {
    var d := ParseIsoDate(iso).value;
    IsoParseUnique(iso);
    assert iso[8..] == Padded(d.day, 2) && iso[5..7] == Padded(d.month, 2) && iso[..4] == Padded(d.year, 4);
    DayFirstRoundTrip(d);
    if ParseDayFirstDate(dayFirst) == ParseIsoDate(iso) {
      DayFirstParseUnique(dayFirst);
    }
  }

  /** 5 April 2025 in the ad export's format. */
  lemma IsoDateExample()
    ensures ParseIsoDate("2025-04-05") == Some(Date(2025, 4, 5))
  {
    var d := Date(2025, 4, 5);
    assert IsoText(d) == "2025-04-05";
    IsoRoundTrip(d);
  }

  /** 5 April 2025 in the order export's format. */
  lemma DayFirstDateExample()
    ensures ParseDayFirstDate("05/04/2025") == Some(Date(2025, 4, 5))
  {
    var d := Date(2025, 4, 5);
    assert DayFirstText(d) == "05/04/2025";
    DayFirstRoundTrip(d);
  }

  /** 5 April 2025 in both source formats. */
  lemma DateFormatsExample()
    ensures ParseDayFirstDate("05/04/2025") == ParseIsoDate("2025-04-05") == Some(Date(2025, 4, 5))
  {
    IsoDateExample();
    DayFirstDateExample();
  }
}
