/** Decimal spelling and parsing of integers: Python's `str(int)` and `int(str)`
    as the replay loop uses them to go between history keys and version numbers. */
module Decimal {
  import opened Wrappers
  import opened Text

  predicate IsDigit(c: char) {
    '0' <= c <= '9'
  }

  predicate AllDigits(s: string) {
    forall i :: 0 <= i < |s| ==> IsDigit(s[i])
  }

  function DigitValue(c: char): (d: nat)
    requires IsDigit(c)
    ensures d < 10
  {
    c as int - '0' as int
  }

  function DigitChar(d: nat): (c: char)
    requires d < 10
    ensures IsDigit(c) && DigitValue(c) == d
  {
    ('0' as int + d) as char
  }

  /** The decimal digits of `n`, most significant first, with no leading zero. */
  function ShowNat(n: nat): (s: string)
    ensures |s| > 0 && AllDigits(s)
    ensures s[0] == '0' ==> n == 0
  {
    if n < 10 then [DigitChar(n)] else ShowNat(n / 10) + [DigitChar(n % 10)]
  }

  /** Python's `str` of an integer: a minus sign for negative numbers, then the digits. */
  function ShowInt(i: int): string {
    if i < 0 then "-" + ShowNat(-i) else ShowNat(i)
  }

  /** The value of a run of decimal digits; leading zeros are allowed. */
  function DigitsValue(s: string): nat
    requires AllDigits(s)
  {
    if |s| == 0 then 0 else DigitsValue(s[..|s| - 1]) * 10 + DigitValue(s[|s| - 1])
  }

  /** Python's `int` of a string, for the spellings the model admits: an
      optional `+` or `-` followed by one or more ASCII digits. Anything else
      is the `ValueError` case. */
  function ParseInt(s: string): Option<int> {
    if |s| > 0 && (s[0] == '-' || s[0] == '+') then
      var digits := s[1..];
      if |digits| > 0 && AllDigits(digits) then
        var magnitude: int := DigitsValue(digits);
        Some(if s[0] == '-' then -magnitude else magnitude)
      else None
    else if |s| > 0 && AllDigits(s) then Some(DigitsValue(s))
    else None
  }

  /** A key is canonical when it is exactly `str` of the number it parses to. */
  predicate IsCanonical(s: string) {
    ParseInt(s).Some? && ShowInt(ParseInt(s).value) == s
  }

  lemma {:induction false} DigitsValueOfShowNat(n: nat)
    ensures DigitsValue(ShowNat(n)) == n
  {
    if n >= 10 {
      var s := ShowNat(n);
      assert s[..|s| - 1] == ShowNat(n / 10);
      DigitsValueOfShowNat(n / 10);
    }
  }

  /** `int(str(i)) == i` for every integer. */
  lemma ParseShowInt(i: int)
    ensures ParseInt(ShowInt(i)) == Some(i)
  {
    if i < 0 {
      var digits := ShowNat(-i);
      DigitsValueOfShowNat(-i);
      assert ShowInt(i) == "-" + digits;
      assert ("-" + digits)[1..] == digits;
    } else {
      var digits := ShowNat(i);
      DigitsValueOfShowNat(i);
      assert ShowInt(i) == digits;
      assert IsDigit(digits[0]);
    }
  }

  /** Every `str` of an integer is a canonical key, and different integers
      have different spellings. */
  lemma ShowIntCanonical(i: int, j: int)
    ensures IsCanonical(ShowInt(i))
    ensures ShowInt(i) == ShowInt(j) ==> i == j
  {
    ParseShowInt(i);
    ParseShowInt(j);
  }

  /** Two different canonical keys name two different versions. */
  lemma CanonicalKeysDistinct(a: string, b: string)
    requires IsCanonical(a) && IsCanonical(b) && a != b
    ensures ParseInt(a).value != ParseInt(b).value
  {
  }

  // ---------------------------------------------------------------------------
  // Reading back the number at the end of a command line.

  function TrimTrailingSpaces(s: string): (t: string)
    ensures |t| <= |s| && t == s[..|t|]
  {
    if |s| > 0 && s[|s| - 1] == ' ' then TrimTrailingSpaces(s[..|s| - 1]) else s
  }

  /** The number of decimal digits at the end of `s`. */
  function DigitSuffixLength(s: string): (n: nat)
    ensures n <= |s|
  {
    if |s| > 0 && IsDigit(s[|s| - 1]) then 1 + DigitSuffixLength(s[..|s| - 1]) else 0
  }

  lemma {:induction false} DigitSuffixIsDigits(s: string)
    ensures AllDigits(s[|s| - DigitSuffixLength(s)..])
  {
    if |s| > 0 && IsDigit(s[|s| - 1]) {
      var p := s[..|s| - 1];
      DigitSuffixIsDigits(p);
      assert s[|s| - DigitSuffixLength(s)..] == p[|p| - DigitSuffixLength(p)..] + [s[|s| - 1]];
    }
  }

  /** The integer written at the end of `s`, before any trailing spaces: the
      final run of digits, negated when a minus sign precedes it. */
  function TrailingInt(s: string): Option<int> {
    EndingInt(TrimTrailingSpaces(s))
  }

  /** The integer written at the very end of `t`. */
  function EndingInt(t: string): Option<int> {
    var n := DigitSuffixLength(t);
    if n == 0 then None
    else
      DigitSuffixIsDigits(t);
      var digits := t[|t| - n..];
      var rest := t[..|t| - n];
      var magnitude: int := DigitsValue(digits);
      if |rest| > 0 && rest[|rest| - 1] == '-' then Some(-magnitude) else Some(magnitude)
  }

  lemma {:induction false} TrimSpacesAfterDigit(s: string, pad: nat)
    requires |s| > 0 && s[|s| - 1] != ' '
    ensures TrimTrailingSpaces(s + seq(pad, _ => ' ')) == s
  {
    if pad > 0 {
      var p := s + seq(pad, _ => ' ');
      assert p[..|p| - 1] == s + seq(pad - 1, _ => ' ');
      TrimSpacesAfterDigit(s, pad - 1);
    } else {
      assert s + seq(pad, _ => ' ') == s;
    }
  }

  lemma {:induction false} DigitSuffixOfDigits(prefix: string, digits: string)
    requires AllDigits(digits)
    requires |prefix| == 0 || !IsDigit(prefix[|prefix| - 1])
    ensures DigitSuffixLength(prefix + digits) == |digits|
  {
    if |digits| > 0 {
      var s := prefix + digits;
      assert s[..|s| - 1] == prefix + digits[..|digits| - 1];
      DigitSuffixOfDigits(prefix, digits[..|digits| - 1]);
    } else {
      assert prefix + digits == prefix;
    }
  }

  /** A run of digits after a non-digit is read back. */
  lemma EndingIntOfDigits(lead: string, digits: string)
    requires |digits| > 0 && AllDigits(digits)
    requires |lead| == 0 || !IsDigit(lead[|lead| - 1])
    ensures EndingInt(lead + digits) ==
            var magnitude: int := DigitsValue(digits);
            if |lead| > 0 && lead[|lead| - 1] == '-' then Some(-magnitude) else Some(magnitude)
  {
    var body := lead + digits;
    DigitSuffixOfDigits(lead, digits);
    assert body[|body| - |digits|..] == digits;
    assert body[..|body| - |digits|] == lead;
  }

  /** A run of digits after a non-digit, followed by spaces, is read back. */
  lemma TrailingIntOfDigits(lead: string, digits: string, pad: nat)
    requires |digits| > 0 && AllDigits(digits)
    requires |lead| == 0 || !IsDigit(lead[|lead| - 1])
    ensures TrailingInt(lead + digits + seq(pad, _ => ' ')) ==
            var magnitude: int := DigitsValue(digits);
            if |lead| > 0 && lead[|lead| - 1] == '-' then Some(-magnitude) else Some(magnitude)
  {
    var body := lead + digits;
    assert body[|body| - 1] == digits[|digits| - 1];
    TrimSpacesAfterDigit(body, pad);
    EndingIntOfDigits(lead, digits);
  }

  /** The digits of a natural number after a non-digit, followed by spaces, are read back. */
  lemma TrailingIntOfShowNat(lead: string, n: nat, pad: nat)
    requires |lead| == 0 || !IsDigit(lead[|lead| - 1])
    ensures TrailingInt(lead + ShowNat(n) + seq(pad, _ => ' ')) ==
            if |lead| > 0 && lead[|lead| - 1] == '-' then Some(-(n as int)) else Some(n as int)
  {
    TrailingIntOfDigits(lead, ShowNat(n), pad);
    DigitsValueOfShowNat(n);
  }

  /** Writing `str(i)` after a space and before `pad` spaces is read back as `i`. */
  lemma TrailingIntOfShowInt(prefix: string, i: int, pad: nat)
    requires EndsWith(prefix, " ")
    ensures TrailingInt(prefix + ShowInt(i) + seq(pad, _ => ' ')) == Some(i)
  {
    assert prefix[|prefix| - 1] == ' ';
    if i < 0 {
      assert prefix + ShowInt(i) == (prefix + "-") + ShowNat(-i);
      TrailingIntOfShowNat(prefix + "-", -i, pad);
    } else {
      TrailingIntOfShowNat(prefix, i, pad);
    }
  }

  /** A string ending in a space-terminated `lead`, the decimal text of `i`
      and two spaces has `i` as its trailing number. */
  lemma TrailingIntAfter(r: string, lead: string, i: int)
    requires EndsWith(lead, " ")
    requires EndsWith(r, lead + ShowInt(i) + "  ")
    ensures TrailingInt(r) == Some(i)
  {
    var digits := ShowInt(i);
    var tail := lead + digits + "  ";
    var prefix := r[..|r| - |digits| - 2];
    assert r == prefix + digits + seq(2, _ => ' ') by {
      assert r[|r| - |tail|..] == tail;
      assert r[|r| - |digits| - 2..] == digits + "  ";
    }
    assert prefix[|prefix| - 1] == ' ' by {
      assert prefix[|prefix| - 1] == tail[|lead| - 1] == lead[|lead| - 1];
    }
    TrailingIntOfShowInt(prefix, i, 2);
  }
}
