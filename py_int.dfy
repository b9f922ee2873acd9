/**
 * Python's built-in int() applied to a str in base 10, and str() of an int,
 * as far as the index parser relies on them.
 *
 * Accepted grammar: whitespace* [ '+' | '-' ] digit ( ['_'] digit )* whitespace*
 * where a digit is an ASCII digit and whitespace is what int() skips: the ASCII
 * characters tab, line feed, vertical tab, form feed, carriage return and space,
 * and every character above U+007F for which str.isspace() holds (int() first
 * turns those into spaces and leaves every other ASCII character alone).
 */
module PyInt {
  import opened Wrappers

  /**
   * The characters int() strips from both ends: C-locale whitespace among the ASCII
   * characters (U+001C to U+001F are str.isspace() but not skipped), and the
   * non-ASCII characters str.isspace() accepts.
   */
  predicate IsSpace(c: char) {
    var n := c as int;
    (9 <= n <= 13) || n == 32 || n == 0x85 || n == 0xA0 || n == 0x1680
    || (0x2000 <= n <= 0x200A) || n == 0x2028 || n == 0x2029 || n == 0x202F
    || n == 0x205F || n == 0x3000
  }

  predicate IsDigit(c: char) {
    '0' <= c <= '9'
  }

  function DigitValue(c: char): nat
    requires IsDigit(c)
  {
    (c as int) - ('0' as int)
  }

  function DigitChar(d: nat): (c: char)
    requires d < 10
    ensures IsDigit(c) && DigitValue(c) == d
  {
    (('0' as int) + d) as char
  }

  /** Drops the leading whitespace. */
  function StripLeading(s: string): string {
    if s != [] && IsSpace(s[0]) then StripLeading(s[1..]) else s
  }

  /** Drops the trailing whitespace. */
  function StripTrailing(s: string): string {
    if s != [] && IsSpace(s[|s| - 1]) then StripTrailing(s[..|s| - 1]) else s
  }

  /** StripLeading removes a prefix made only of whitespace and leaves no whitespace in front. */
  lemma {:induction false} StripLeadingSpec(s: string)
    ensures var r := StripLeading(s);
      && |r| <= |s| && r == s[|s| - |r|..]
      && (forall i :: 0 <= i < |s| - |r| ==> IsSpace(s[i]))
      && (r != [] ==> !IsSpace(r[0]))
  {
    if s != [] && IsSpace(s[0]) {
      var t := s[1..];
      StripLeadingSpec(t);
      var r := StripLeading(t);
      assert StripLeading(s) == r;
      assert r == s[|s| - |r|..] by {
        assert t[|t| - |r|..] == s[|s| - |r|..];
      }
      forall i | 0 <= i < |s| - |r|
        ensures IsSpace(s[i])
      {
        if i > 0 {
          assert s[i] == t[i - 1];
        }
      }
    }
  }

  /** StripTrailing removes a suffix made only of whitespace and leaves no whitespace at the end. */
  lemma {:induction false} StripTrailingSpec(s: string)
    ensures var r := StripTrailing(s);
      && |r| <= |s| && r == s[..|r|]
      && (forall i :: |r| <= i < |s| ==> IsSpace(s[i]))
      && (r != [] ==> !IsSpace(r[|r| - 1]))
  {
    if s != [] && IsSpace(s[|s| - 1]) {
      var t := s[..|s| - 1];
      StripTrailingSpec(t);
      var r := StripTrailing(t);
      assert StripTrailing(s) == r;
      assert r == s[..|r|] by {
        assert t[..|r|] == s[..|r|];
      }
      forall i | |r| <= i < |s|
        ensures IsSpace(s[i])
      {
        if i < |s| - 1 {
          assert s[i] == t[i];
        }
      }
    }
  }

  function Strip(s: string): string {
    StripTrailing(StripLeading(s))
  }

  /**
   * A run of digits in which single underscores may separate two digits:
   * it ends in a digit, preceded by nothing, by such a run, or by such a run and one '_'.
   */
  predicate IsDigitString(s: string) {
    && |s| > 0
    && IsDigit(s[|s| - 1])
    && (|s| == 1 || IsDigitString(s[..|s| - 1]) || (|s| >= 3 && s[|s| - 2] == '_' && IsDigitString(s[..|s| - 2])))
  }

  /** The value of the digits of s, read in base 10, other characters ignored. */
  function DigitsValue(s: string): nat {
    if s == [] then 0
    else if IsDigit(s[|s| - 1]) then DigitsValue(s[..|s| - 1]) * 10 + DigitValue(s[|s| - 1])
    else DigitsValue(s[..|s| - 1])
  }

  /** A digit string holds only digits and underscores, and never starts with '_'. */
  lemma {:induction false} DigitStringChars(s: string)
    requires IsDigitString(s)
    ensures IsDigit(s[0])
    ensures forall i :: 0 <= i < |s| ==> IsDigit(s[i]) || s[i] == '_'
  {
    if |s| > 1 {
      if IsDigitString(s[..|s| - 1]) {
        DigitStringChars(s[..|s| - 1]);
        assert forall i :: 0 <= i < |s| - 1 ==> s[i] == s[..|s| - 1][i];
      } else {
        DigitStringChars(s[..|s| - 2]);
        assert forall i :: 0 <= i < |s| - 2 ==> s[i] == s[..|s| - 2][i];
      }
    }
  }

  /** A non-empty run of digits is a digit string. */
  lemma {:induction false} AllDigitsIsDigitString(s: string)
    requires |s| > 0 && forall i :: 0 <= i < |s| ==> IsDigit(s[i])
    ensures IsDigitString(s)
  {
    if |s| > 1 {
      AllDigitsIsDigitString(s[..|s| - 1]);
    }
  }

  /** int(s): the integer s denotes, or None where Python raises ValueError. */
  function ParseInt(s: string): Option<int> {
    var t := Strip(s);
    if t != [] && (t[0] == '+' || t[0] == '-') then
      var digits := t[1..];
      if IsDigitString(digits) then
        var v: int := DigitsValue(digits);
        Some(if t[0] == '-' then -v else v)
      else None
    else if IsDigitString(t) then Some(DigitsValue(t))
    else None
  }

  /** str(n) for a natural number: its decimal digits, most significant first. */
  function NatString(n: nat): string {
    if n < 10 then [DigitChar(n)] else NatString(n / 10) + [DigitChar(n % 10)]
  }

  /** str(n): an optional minus sign followed by the decimal digits. */
  function DecimalString(n: int): string {
    if n < 0 then "-" + NatString(-n) else NatString(n)
  }

  lemma {:induction false} NatStringDigits(n: nat)
    ensures |NatString(n)| > 0
    ensures forall i :: 0 <= i < |NatString(n)| ==> IsDigit(NatString(n)[i])
    ensures IsDigitString(NatString(n))
    ensures DigitsValue(NatString(n)) == n
  {
    if n >= 10 {
      NatStringDigits(n / 10);
      var s := NatString(n);
      assert s[..|s| - 1] == NatString(n / 10);
    }
    AllDigitsIsDigitString(NatString(n));
  }

  /** A string whose ends are not whitespace is left alone by Strip. */
  lemma StripUnpadded(s: string)
    requires s != [] && !IsSpace(s[0]) && !IsSpace(s[|s| - 1])
    ensures Strip(s) == s
  {
    assert StripLeading(s) == s;
  }

  /** int(str(n)) == n: every integer written the way str() writes it parses back to itself. */
  lemma ParseIntOfDecimalString(n: int)
    ensures ParseInt(DecimalString(n)) == Some(n)
  {
    var m := if n < 0 then -n else n;
    NatStringDigits(m);
    var digits := NatString(m);
    var s := DecimalString(n);
    assert s[|s| - 1] == digits[|digits| - 1];
    StripUnpadded(s);
    if n < 0 {
      assert s[1..] == digits;
    }
  }

  /** A string holding a character that is neither whitespace, a sign, a digit nor '_' is rejected. */
  lemma ParseIntRejectsForeignChar(s: string, i: nat)
    requires i < |s|
    requires !IsSpace(s[i]) && !IsDigit(s[i]) && s[i] != '+' && s[i] != '-' && s[i] != '_'
    ensures ParseInt(s) == None
  {
    var l := StripLeading(s);
    var t := StripTrailing(l);
    StripLeadingSpec(s);
    StripTrailingSpec(l);
    var j := i - (|s| - |l|);
    assert i >= |s| - |l|;
    assert l[j] == s[i];
    assert j < |t|;
    assert t[j] == s[i];
    if t != [] && (t[0] == '+' || t[0] == '-') {
      assert j > 0;
      assert t[1..][j - 1] == s[i];
      if IsDigitString(t[1..]) {
        DigitStringChars(t[1..]);
      }
    } else if IsDigitString(t) {
      DigitStringChars(t);
    }
  }

  /** int() of an empty or all-whitespace string raises. */
  /** U+001C is whitespace to str.isspace(), but int() does not skip it: the string is rejected. */
  lemma ParseIntKeepsAsciiSeparators()
    ensures ParseInt("\U{1C}5") == None
  {
    ParseIntRejectsForeignChar("\U{1C}5", 0);
  }

  lemma ParseIntRejectsBlank(s: string)
    requires forall i :: 0 <= i < |s| ==> IsSpace(s[i])
    ensures ParseInt(s) == None
  {
    StripLeadingSpec(s);
    assert StripLeading(s) == [];
  }
}
