/**
 * The match date: `datetime.strptime(date, '%Y-%m-%d')` read as a
 * (year, month, day) triple that is compared lexicographically.
 */
module Dates {
  import opened Wrappers
  import Text

  datatype Date = Date(year: int, month: int, day: int)

  /** The string that failed to parse, as in strptime's ValueError. */
  datatype DateError = InvalidDate(text: string)

  predicate IsLeapYear(y: int) {
    y % 4 == 0 && (y % 100 != 0 || y % 400 == 0)
  }

  function DaysInMonth(y: int, m: int): (n: int)
    requires 1 <= m <= 12
    ensures 28 <= n <= 31
  {
    if m == 2 then (if IsLeapYear(y) then 29 else 28)
    else if m == 4 || m == 6 || m == 9 || m == 11 then 30
    else 31
  }

  /** A date `datetime` accepts: years 1 to 9999, a real month and a day
      that exists in it. */
  predicate ValidDate(d: Date) {
    && 1 <= d.year <= 9999
    && 1 <= d.month <= 12
    && 1 <= d.day <= DaysInMonth(d.year, d.month)
  }

  /** `strptime(s, '%Y-%m-%d')` on the zero-padded form: four digits, a dash,
      two digits, a dash, two digits, naming a valid date. */
  function ParseDate(s: string): (r: Result<Date, DateError>)
    ensures r.Ok? ==> ValidDate(r.value)
    ensures r.Err? ==> r.error == InvalidDate(s)
  {
    if |s| != 10 || s[4] != '-' || s[7] != '-'
       || !Text.IsDigits(s[..4]) || !Text.IsDigits(s[5..7]) || !Text.IsDigits(s[8..])
    then Err(InvalidDate(s))
    else
      var d := Date(Text.DigitsValue(s[..4]), Text.DigitsValue(s[5..7]), Text.DigitsValue(s[8..]));
      if ValidDate(d) then Ok(d) else Err(InvalidDate(s))
  }

  function Pow10(w: nat): (p: nat)
    ensures p >= 1
  {
    if w == 0 then 1 else 10 * Pow10(w - 1)
  }

  /** `n` written with exactly `w` digits, zero-padded on the left. */
  function Padded(n: nat, w: nat): (s: string)
    ensures |s| == w
  {
    if w == 0 then [] else Padded(n / 10, w - 1) + [('0' as int + n % 10) as char]
  }

  /** The zero-padded `YYYY-MM-DD` text of a date. */
  function FormatDate(d: Date): (s: string)
    requires ValidDate(d)
    ensures |s| == 10
  {
    Padded(d.year, 4) + "-" + Padded(d.month, 2) + "-" + Padded(d.day, 2)
  }

  lemma {:induction false} PaddedValue(n: nat, w: nat)
    requires n < Pow10(w)
    ensures Text.IsDigits(Padded(n, w)) || w == 0
    ensures forall i :: 0 <= i < w ==> Text.IsDigit(Padded(n, w)[i])
    ensures Text.DigitsValue(Padded(n, w)) == n
  {
    if w > 0 {
      PaddedValue(n / 10, w - 1);
      var s := Padded(n, w);
      assert s[..w - 1] == Padded(n / 10, w - 1);
    }
  }

  lemma {:induction false} DigitsPadded(s: string)
    requires forall i :: 0 <= i < |s| ==> Text.IsDigit(s[i])
    ensures Text.DigitsValue(s) < Pow10(|s|)
    ensures Padded(Text.DigitsValue(s), |s|) == s
  {
    if s != [] {
      var t := s[..|s| - 1];
      DigitsPadded(t);
      var n := Text.DigitsValue(s);
      var c := s[|s| - 1] as int - '0' as int;
      assert n == Text.DigitsValue(t) * 10 + c;
      assert n / 10 == Text.DigitsValue(t) && n % 10 == c;
      assert s == t + [s[|s| - 1]];
    }
  }

  /** Formatting a valid date and parsing it back gives the date. */
  lemma FormatThenParse(d: Date)
    requires ValidDate(d)
    ensures ParseDate(FormatDate(d)) == Ok(d)
  {
    var s := FormatDate(d);
    PaddedValue(d.year, 4);
    PaddedValue(d.month, 2);
    PaddedValue(d.day, 2);
    assert s[..4] == Padded(d.year, 4);
    assert s[5..7] == Padded(d.month, 2);
    assert s[8..] == Padded(d.day, 2);
  }

  /** Only the canonical text of a date parses to it. */
  lemma ParseThenFormat(s: string)
    requires ParseDate(s).Ok?
    ensures FormatDate(ParseDate(s).value) == s
  {
    DigitsPadded(s[..4]);
    DigitsPadded(s[5..7]);
    DigitsPadded(s[8..]);
    assert s == s[..4] + "-" + s[5..7] + "-" + s[8..];
  }

  /** Lexicographic order on (year, month, day): the order of `datetime`. */
  predicate DateLe(a: Date, b: Date) {
    a.year < b.year
    || (a.year == b.year && (a.month < b.month || (a.month == b.month && a.day <= b.day)))
  }

  /** An integer key for sorting by date. */
  function Ordinal(d: Date): int {
    d.year * 10000 + d.month * 100 + d.day
  }

  /** On valid dates the integer key orders exactly as the triples do, and
      tells dates apart. */
  lemma OrdinalOrder(a: Date, b: Date)
    requires ValidDate(a) && ValidDate(b)
    ensures DateLe(a, b) <==> Ordinal(a) <= Ordinal(b)
    ensures Ordinal(a) == Ordinal(b) <==> a == b
  {
  }
}
