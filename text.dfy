/**
 * The string helpers the tracker relies on: `str.strip()`, `str.isdigit()`,
 * `int(...)` and `str(int)`, restricted to ASCII.
 */
module Text {
  import opened Wrappers

  /** `str.isspace()` on an ASCII character: tab through carriage return,
      the four separator characters 0x1C-0x1F, and space. */
  predicate IsSpace(c: char) {
    9 <= c as int <= 13 || 28 <= c as int <= 32
  }

  /** `str.lstrip()`: drops leading whitespace. */
  function TrimStart(s: string): (r: string)
    ensures |r| <= |s| && r == s[|s| - |r|..]
    ensures r == [] || !IsSpace(r[0])
    ensures forall i :: 0 <= i < |s| - |r| ==> IsSpace(s[i])
  {
    if s != [] && IsSpace(s[0]) then
      var r := TrimStart(s[1..]);
      SliceSpaces(s, 1, 0, |s| - 1 - |r|);
      r
    else s
  }

  /** `str.rstrip()`: drops trailing whitespace. */
  function TrimEnd(s: string): (r: string)
    ensures |r| <= |s| && r == s[..|r|]
    ensures r == [] || !IsSpace(r[|r| - 1])
    ensures forall i :: |r| <= i < |s| ==> IsSpace(s[i])
  {
    if s != [] && IsSpace(s[|s| - 1]) then TrimEnd(s[..|s| - 1]) else s
  }

  /** How many whitespace characters `s` starts with. */
  function LeadingSpaces(s: string): (a: nat)
    ensures a <= |s|
    ensures forall i :: 0 <= i < a ==> IsSpace(s[i])
    ensures a == |s| || !IsSpace(s[a])
  {
    |s| - |TrimStart(s)|
  }

  /** `str.strip()`: the slice of `s` left after cutting whitespace off both
      ends; it neither starts nor ends with whitespace, and everything cut
      off is whitespace. */
  function Strip(s: string): (r: string)
    ensures LeadingSpaces(s) + |r| <= |s|
    ensures r == s[LeadingSpaces(s)..LeadingSpaces(s) + |r|]
    ensures forall i :: LeadingSpaces(s) + |r| <= i < |s| ==> IsSpace(s[i])
    ensures r == [] || (!IsSpace(r[0]) && !IsSpace(r[|r| - 1]))
  {
    var t := TrimStart(s);
    var r := TrimEnd(t);
    var a := |s| - |t|;
    assert r == s[a..a + |r|];
    SliceSpaces(s, a, |r|, |t|);
    r
  }

  /** Whitespace at positions `lo` to `hi` of the slice `s[a..]` is
      whitespace at the same places of `s`. */
  lemma SliceSpaces(s: string, a: nat, lo: nat, hi: nat)
    requires a <= |s| && lo <= hi <= |s| - a
    requires forall j :: lo <= j < hi ==> IsSpace(s[a..][j])
    ensures forall i :: a + lo <= i < a + hi ==> IsSpace(s[i])
  {
    forall i | a + lo <= i < a + hi
      ensures IsSpace(s[i])
    {
      assert s[a..][i - a] == s[i];
    }
  }

  /** A string with no whitespace at either end is its own strip. */
  lemma StripUnpadded(s: string)
    requires s == [] || (!IsSpace(s[0]) && !IsSpace(s[|s| - 1]))
    ensures Strip(s) == s
  {
    assert TrimStart(s) == s;
    assert TrimEnd(s) == s;
  }

  /** A string of digits has no whitespace to strip. */
  lemma DigitsUnpadded(s: string)
    ensures IsDigits(s) ==> Strip(s) == s
  {
    if IsDigits(s) {
      StripUnpadded(s);
    }
  }

  /** Stripping twice is stripping once. */
  lemma StripIdempotent(s: string)
    ensures Strip(Strip(s)) == Strip(s)
  {
    StripUnpadded(Strip(s));
  }

  predicate IsDigit(c: char) { '0' <= c <= '9' }

  /** `str.isdigit()` on ASCII: non-empty and every character a digit. */
  predicate IsDigits(s: string) {
    |s| > 0 && forall i :: 0 <= i < |s| ==> IsDigit(s[i])
  }

  /** The decimal value of a string of digits, read most significant first. */
  function DigitsValue(s: string): (n: nat)
    requires forall i :: 0 <= i < |s| ==> IsDigit(s[i])
  {
    if s == [] then 0
    else
      assert IsDigit(s[|s| - 1]);
      DigitsValue(s[..|s| - 1]) * 10 + (s[|s| - 1] as int - '0' as int)
  }

  /** `str(n)` for a natural number: decimal digits, no leading zero. */
  function NatToString(n: nat): (s: string)
  {
    if n < 10 then [('0' as int + n) as char]
    else NatToString(n / 10) + [('0' as int + n % 10) as char]
  }

  /** `str(n)` for any integer. */
  function IntToString(n: int): (s: string)
  {
    if n < 0 then "-" + NatToString(-n) else NatToString(n)
  }

  /** The whitespace `int()` skips around a numeral: tab through carriage
      return, and space. Unlike `str.strip()`, it does not skip the
      separators 0x1C-0x1F. */
  predicate IsIntSpace(c: char) {
    9 <= c as int <= 13 || c as int == 32
  }

  /** Everything `Strip` cuts off `s` is whitespace that `int()` skips too. */
  predicate IntPadded(s: string) {
    var a := LeadingSpaces(s);
    && (forall i :: 0 <= i < a ==> IsIntSpace(s[i]))
    && (forall i :: a + |Strip(s)| <= i < |s| ==> IsIntSpace(s[i]))
  }

  /** An optional sign followed by at least one digit. */
  predicate IsNumeral(t: string) {
    IsDigits(t) || (|t| > 0 && (t[0] == '-' || t[0] == '+') && IsDigits(t[1..]))
  }

  /** `int(s)`: surrounding whitespace is skipped, then an optional sign and
      at least one digit; anything else is the ValueError case. A separator
      0x1C-0x1F around the numeral is not skipped by `int()`, and since it
      cannot be part of a numeral either, it makes the text rejected. */
  function ParseInt(s: string): (r: Option<int>)
    ensures r.Some? <==> IntPadded(s) && IsNumeral(Strip(s))
    ensures IsDigits(s) ==> r == Some(DigitsValue(s))
    ensures r.Some? ==> Strip(s) != []
    ensures r.Some? && r.value < 0 ==> Strip(s)[0] == '-'
  {
    DigitsUnpadded(s);
    var t := Strip(s);
    if !IntPadded(s) then None
    else if |t| > 0 && (t[0] == '-' || t[0] == '+') then
      if IsDigits(t[1..]) then
        Some(if t[0] == '-' then -(DigitsValue(t[1..]) as int) else DigitsValue(t[1..]))
      else None
    else if IsDigits(t) then Some(DigitsValue(t))
    else None
  }

  /** `int("\x1c5")` raises: the separator is stripped by `str.strip()` but
      not skipped by `int()`. Tab and space around a numeral are skipped. */
  lemma SeparatorRejected()
    ensures ParseInt([28 as char, '5']) == None
    ensures ParseInt([9 as char, '5', ' ']) == Some(5)
  {
    var s, u := [28 as char, '5'], [9 as char, '5', ' '];
    assert TrimStart(s[1..]) == s[1..];
    assert TrimStart(s) == s[1..];
    assert LeadingSpaces(s) == 1;
    assert TrimStart(u[1..]) == u[1..];
    assert LeadingSpaces(u) == 1;
    assert TrimEnd(u[1..]) == ['5'];
    assert Strip(u) == ['5'];
    assert DigitsValue(['5']) == 5;
  }

  /** `str` of a natural number is all digits, starts with a non-zero digit
      unless it is "0", and `int` reads it back. */
  lemma {:induction false} NatToStringRoundTrip(n: nat)
    ensures IsDigits(NatToString(n))
    ensures DigitsValue(NatToString(n)) == n
    ensures NatToString(n)[0] != '0' || n == 0
  {
    var s := NatToString(n);
    if n >= 10 {
      NatToStringRoundTrip(n / 10);
      assert s[..|s| - 1] == NatToString(n / 10);
    }
  }

  /** What `save_data` writes as a score, `load_data` reads back as the same
      integer: `int(str(n)) == n`. */
  lemma IntToStringRoundTrip(n: int)
    ensures ParseInt(IntToString(n)) == Some(n)
  {
    var m: nat := if n < 0 then -n else n;
    NatToStringRoundTrip(m);
    var s := IntToString(n);
    UnpaddedIntPadded(s);
    if n < 0 {
      assert s[1..] == NatToString(m);
    }
    assert IsNumeral(s);
  }

  /** A text with no whitespace at either end has nothing for `int()` to
      skip. */
  lemma UnpaddedIntPadded(s: string)
    requires s == [] || (!IsSpace(s[0]) && !IsSpace(s[|s| - 1]))
    ensures Strip(s) == s && LeadingSpaces(s) == 0 && IntPadded(s)
  {
    assert TrimStart(s) == s;
    assert TrimEnd(s) == s;
    assert LeadingSpaces(s) == 0;
    var r := Strip(s);
    assert r == s;
    assert LeadingSpaces(s) + |r| == |s|;
  }
}
