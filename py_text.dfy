/**
 * The pieces of Python's text handling that the services rely on:
 * `str.strip()`, `str(int)`, `int(str)` and the UTF-8 length `str.encode()`
 * produces. Dafny's `char` is a Unicode scalar value, as a Python code point is.
 */
module PyText {
  import opened Wrappers

  /** A character for which Python's `str.isspace()` holds (used by `str.strip()`). */
  predicate IsUnicodeSpace(c: char) {
    var n := c as int;
    (9 <= n <= 13) || (28 <= n <= 32) || n == 0x85 || n == 0xA0 || n == 0x1680
    || (0x2000 <= n <= 0x200A) || n == 0x2028 || n == 0x2029 || n == 0x202F
    || n == 0x205F || n == 0x3000
  }

  /** C's `isspace` on an ASCII byte, the set `int()` skips around an ASCII literal. */
  predicate IsAsciiSpace(c: char) {
    c == ' ' || ('\t' <= c <= '\r')
  }

  predicate IsDigit(c: char) {
    '0' <= c <= '9'
  }

  predicate IsAscii(c: char) {
    c as int < 128
  }

  /** Drops the leading characters satisfying `isSpace`. */
  function StripLeading(s: string, isSpace: char -> bool): (r: string)
    ensures |r| <= |s| && r == s[|s| - |r|..]
    ensures r == [] || !isSpace(r[0])
    ensures forall i :: 0 <= i < |s| - |r| ==> isSpace(s[i])
    decreases |s|
  {
    if |s| > 0 && isSpace(s[0]) then StripLeading(s[1..], isSpace) else s
  }

  /** Drops the trailing characters satisfying `isSpace`. */
  function StripTrailing(s: string, isSpace: char -> bool): (r: string)
    ensures |r| <= |s| && r == s[..|r|]
    ensures r == [] || !isSpace(r[|r| - 1])
    ensures forall i :: |r| <= i < |s| ==> isSpace(s[i])
    decreases |s|
  {
    if |s| > 0 && isSpace(s[|s| - 1]) then StripTrailing(s[..|s| - 1], isSpace) else s
  }

  /**
   * `r` is `s[a..a + |r|]`, and every character of `s` before and after that
   * slice satisfies `isSpace`.
   */
  predicate TrimmedAt(s: string, a: int, r: string, isSpace: char -> bool) {
    && 0 <= a <= |s| - |r| && r == s[a..a + |r|]
    && (forall i | 0 <= i < a :: isSpace(s[i]))
    && (forall i | a + |r| <= i < |s| :: isSpace(s[i]))
  }

  /** A suffix of `s` after `isSpace` characters, then a prefix of that before more of them, trims `s`. */
  lemma {:induction false} TrimmedOfParts(s: string, lead: string, r: string, isSpace: char -> bool)
    requires |lead| <= |s| && lead == s[|s| - |lead|..]
    requires forall i :: 0 <= i < |s| - |lead| ==> isSpace(s[i])
    requires |r| <= |lead| && r == lead[..|r|]
    requires forall i :: |r| <= i < |lead| ==> isSpace(lead[i])
    ensures TrimmedAt(s, |s| - |lead|, r, isSpace)
  {
    var a := |s| - |lead|;
    assert lead[..|r|] == s[a..a + |r|];
    forall i | a + |r| <= i < |s| ensures isSpace(s[i]) {
      assert s[i] == lead[i - a];
    }
  }

  /**
   * Python's `s.strip()`: `s` with its leading and trailing white space
   * removed, and nothing else; what is left neither starts nor ends with it.
   */
  function Strip(s: string): (r: string)
    ensures |r| <= |s|
    ensures exists a :: TrimmedAt(s, a, r, IsUnicodeSpace)
    ensures r == [] || (!IsUnicodeSpace(r[0]) && !IsUnicodeSpace(r[|r| - 1]))
    ensures (forall c | c in s :: !IsUnicodeSpace(c)) ==> r == s
  {
    var lead := StripLeading(s, IsUnicodeSpace);
    TrimmedOfParts(s, lead, StripTrailing(lead, IsUnicodeSpace), IsUnicodeSpace);
    StripTrailing(lead, IsUnicodeSpace)
  }

  /** A string that `Strip` leaves alone: it neither starts nor ends with white space. */
  lemma {:induction false} StripUnchanged(s: string)
    requires s == [] || (!IsUnicodeSpace(s[0]) && !IsUnicodeSpace(s[|s| - 1]))
    ensures Strip(s) == s
  {
  }

  /** `s.strip().strip() == s.strip()`. */
  lemma {:induction false} StripIdempotent(s: string)
    ensures Strip(Strip(s)) == Strip(s)
  {
    var r := Strip(s);
    assert r == [] || (!IsUnicodeSpace(r[0]) && !IsUnicodeSpace(r[|r| - 1]));
    StripUnchanged(r);
  }

  /** The number of bytes `c` takes in UTF-8. */
  function Utf8Width(c: char): (w: nat)
    ensures 1 <= w <= 4
    ensures w == 1 <==> IsAscii(c)
  {
    var n := c as int;
    if n < 0x80 then 1 else if n < 0x800 then 2 else if n < 0x10000 then 3 else 4
  }

  /** `len(s.encode())`: the UTF-8 length of `s`. */
  function Utf8Length(s: string): (n: nat)
    ensures n >= |s|
    ensures (forall c | c in s :: IsAscii(c)) ==> n == |s|
  {
    if s == [] then 0 else Utf8Width(s[0]) + Utf8Length(s[1..])
  }

  function DigitChar(d: int): (c: char)
    requires 0 <= d < 10
    ensures IsDigit(c) && IsAscii(c)
  {
    ('0' as int + d) as char
  }

  function DigitValue(c: char): (d: nat)
    requires IsDigit(c)
    ensures d < 10 && DigitChar(d) == c
  {
    c as int - '0' as int
  }

  /** The decimal digits of `n`, most significant first, without leading zeros. */
  function Digits(n: nat): (s: string)
    ensures |s| > 0 && forall c | c in s :: IsDigit(c)
    ensures (s[0] == '0') <==> n == 0
  {
    if n < 10 then [DigitChar(n)] else Digits(n / 10) + [DigitChar(n % 10)]
  }

  /** Python's `str(i)` for an int: an optional minus sign, then the digits. */
  function Str(i: int): (s: string)
    ensures |s| > 0 && forall c | c in s :: IsAscii(c) && (IsDigit(c) || c == '-')
    ensures IsDigit(s[|s| - 1])
  {
    if i < 0 then "-" + Digits(-i) else Digits(i)
  }

  /**
   * The digit part of a base-10 `int()` literal: digits, with single
   * underscores allowed between two digits (`[0-9](_?[0-9])*`).
   */
  function DigitGroups(s: string): (r: Option<nat>)
    ensures r.Some? ==> |s| > 0 && IsDigit(s[0]) && IsDigit(s[|s| - 1])
    decreases |s|
  {
    if |s| == 0 || !IsDigit(s[|s| - 1]) then None
    else if |s| == 1 then Some(DigitValue(s[0]))
    else
      var init := s[..|s| - 1];
      var body := if init[|init| - 1] == '_' then init[..|init| - 1] else init;
      match DigitGroups(body)
      case None => None
      case Some(v) => Some(10 * v + DigitValue(s[|s| - 1]))
  }

  /**
   * Python's `int(s)` on an ASCII string: surrounding ASCII white space, an
   * optional sign, then the digit groups; anything else is a ValueError (None).
   */
  function PyInt(s: string): Option<int> {
    var t := StripTrailing(StripLeading(s, IsAsciiSpace), IsAsciiSpace);
    if |t| > 0 && (t[0] == '+' || t[0] == '-') then
      match DigitGroups(t[1..])
      case None => None
      case Some(v) => Some(if t[0] == '-' then -(v as int) else v as int)
    else
      match DigitGroups(t)
      case None => None
      case Some(v) => Some(v)
  }

  lemma {:induction false} DigitGroupsOfDigits(n: nat)
    ensures DigitGroups(Digits(n)) == Some(n)
  {
    if n >= 10 {
      var s := Digits(n);
      assert s[..|s| - 1] == Digits(n / 10);
      DigitGroupsOfDigits(n / 10);
    }
  }

  lemma {:induction false} StripAsciiUnchanged(s: string)
    requires |s| > 0 && !IsAsciiSpace(s[0]) && !IsAsciiSpace(s[|s| - 1])
    ensures StripTrailing(StripLeading(s, IsAsciiSpace), IsAsciiSpace) == s
  {
    assert StripLeading(s, IsAsciiSpace) == s;
  }

  lemma {:induction false} PyIntOfDigits(n: nat)
    ensures PyInt(Str(n)) == Some(n)
  {
    var s := Str(n);
    assert s == Digits(n);
    assert s[0] in s && s[|s| - 1] in s;
    StripAsciiUnchanged(s);
    DigitGroupsOfDigits(n);
  }

  lemma {:induction false} PyIntNegative(s: string, v: nat)
    requires |s| > 1 && s[0] == '-' && !IsAsciiSpace(s[|s| - 1]) && DigitGroups(s[1..]) == Some(v)
    ensures PyInt(s) == Some(-(v as int))
  {
    StripAsciiUnchanged(s);
  }

  lemma {:induction false} PyIntOfNegative(i: int)
    requires i < 0
    ensures PyInt(Str(i)) == Some(i)
  {
    var d := Digits(-i);
    assert Str(i) == "-" + d;
    DigitGroupsOfDigits(-i);
    var s := "-" + d;
    assert s[|s| - 1] == d[|d| - 1] && d[|d| - 1] in d;
    assert s[1..] == d;
    PyIntNegative(s, -i);
  }

  /** Round trip: `int(str(i)) == i`. */
  lemma {:induction false} PyIntOfStr(i: int)
    ensures PyInt(Str(i)) == Some(i)
  {
    if i < 0 {
      PyIntOfNegative(i);
    } else {
      PyIntOfDigits(i);
    }
  }

  lemma {:induction false} PyIntUnsigned(s: string)
    requires |s| > 0 && IsDigit(s[0]) && !IsAsciiSpace(s[|s| - 1])
    ensures PyInt(s) == match DigitGroups(s) case None => None case Some(v) => Some(v as int)
  {
    StripAsciiUnchanged(s);
  }

  /** `int()` also accepts literals `str()` never produces: leading zeros, a sign, spaces, underscores. */
  lemma {:induction false} PyIntAcceptsLeadingZeros()
    ensures PyInt("007") == Some(7)
  {
    PyIntUnsigned("007");
    assert "007"[..2] == "00" && "00"[..1] == "0";
  }

  lemma {:induction false} PyIntAcceptsSignAndSpaces()
    ensures PyInt(" +7\n") == Some(7)
  {
    var s := " +7\n";
    assert StripLeading(s, IsAsciiSpace) == StripLeading(s[1..], IsAsciiSpace) == "+7\n";
    assert "+7\n"[..2] == "+7";
    assert StripTrailing("+7\n", IsAsciiSpace) == "+7";
    assert "+7"[1..] == "7";
  }

  lemma {:induction false} PyIntAcceptsOneUnderscore()
    ensures PyInt("1_0") == Some(10)
  {
    PyIntUnsigned("1_0");
    assert "1_0"[..2] == "1_" && "1_"[..1] == "1";
  }

  lemma {:induction false} PyIntRejectsDoubleUnderscore()
    ensures PyInt("1__0") == None
  {
    PyIntUnsigned("1__0");
    assert "1__0"[..3] == "1__" && "1__"[..2] == "1_";
  }

  /** A literal must start (after white space) with a sign or a digit: `int("_1")` fails. */
  lemma {:induction false} PyIntRejectsNonDigitStart(s: string)
    requires |s| > 0 && !IsAsciiSpace(s[0]) && !IsAsciiSpace(s[|s| - 1])
    requires !IsDigit(s[0]) && s[0] != '+' && s[0] != '-'
    ensures PyInt(s) == None
  {
    StripAsciiUnchanged(s);
  }

  lemma {:induction false} PyIntRejectsTrailingUnderscore()
    ensures PyInt("1_") == None
  {
    PyIntUnsigned("1_");
  }
}
