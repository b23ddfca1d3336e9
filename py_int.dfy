/**
 * Python's built-in `int(x)` on the list elements that `cat_many` converts:
 * ints pass through, floats are truncated toward zero, and strings are parsed as
 * base-10 literals (surrounding whitespace, an optional sign, digits with single
 * underscores between them). A string that is not such a literal raises
 * `ValueError`, modelled as `None`.
 */
module PyInt {
  import opened Results

  /** A list element as Python holds it. */
  datatype PyItem = PyInt(i: int) | PyFloat(f: real) | PyStr(s: string)

  /**
   * The whitespace `int()` skips around a literal: the ASCII space and `\t`
   * to `\r`, and the non-ASCII characters for which `str.isspace` holds (a
   * string holding any non-ASCII character has those turned into spaces before
   * it is parsed). U+001C to U+001F satisfy `str.isspace` but are below
   * U+007F, so they are kept as they are and `int()` rejects them.
   */
  predicate IsSpace(c: char) {
    || c == ' ' || ('\t' <= c <= '\r')
    || c == '\U{85}' || c == '\U{a0}' || c == '\U{1680}'
    || ('\U{2000}' <= c <= '\U{200a}') || c == '\U{2028}' || c == '\U{2029}'
    || c == '\U{202f}' || c == '\U{205f}' || c == '\U{3000}'
  }

  predicate IsDigit(c: char) {
    '0' <= c <= '9'
  }

  function DigitValue(c: char): nat
    requires IsDigit(c)
  {
    (c as int) - ('0' as int)
  }

  /** Drops the leading whitespace. */
  function StripLeft(s: string): (r: string)
    ensures |r| <= |s|
    ensures r == [] || !IsSpace(r[0])
    ensures forall i :: 0 <= i < |s| - |r| ==> IsSpace(s[i])
  {
    if |s| > 0 && IsSpace(s[0]) then StripLeft(s[1..]) else s
  }

  /** Drops the trailing whitespace. */
  function StripRight(s: string): (r: string)
    ensures |r| <= |s|
    ensures r == [] || !IsSpace(r[|r| - 1])
    ensures forall i :: |r| <= i < |s| ==> IsSpace(s[i])
  {
    if |s| > 0 && IsSpace(s[|s| - 1]) then StripRight(s[..|s| - 1]) else s
  }

  function Strip(s: string): string {
    StripRight(StripLeft(s))
  }

  /** The magnitude part of a literal: digits, with an underscore allowed only between two digits. */
  predicate WellFormedDigits(u: string) {
    && |u| > 0
    && IsDigit(u[0])
    && IsDigit(u[|u| - 1])
    && (forall i :: 0 <= i < |u| ==> IsDigit(u[i]) || u[i] == '_')
    && (forall i :: 0 <= i < |u| - 1 && u[i] == '_' ==> u[i + 1] != '_')
  }

  /** The value of a run of digits and underscores; underscores are skipped. */
  function DigitsValue(u: string): nat
    requires forall i :: 0 <= i < |u| ==> IsDigit(u[i]) || u[i] == '_'
  {
    if |u| == 0 then 0
    else
      var last := u[|u| - 1];
      var init := DigitsValue(u[..|u| - 1]);
      if last == '_' then init else init * 10 + DigitValue(last)
  }

  /**
   * The most digits `int()` converts from a base-10 text: the default of
   * `sys.get_int_max_str_digits()`. Leading zeros count; underscores do not.
   */
  const MaxStrDigits: nat := 4300

  /** The number of digits in a run of digits and underscores. */
  function DigitCount(u: string): nat {
    if |u| == 0 then 0
    else DigitCount(u[..|u| - 1]) + (if u[|u| - 1] == '_' then 0 else 1)
  }

  /** A run made only of digits has as many digits as characters. */
  lemma {:induction false} DigitCountOfDigits(u: string)
    requires forall i :: 0 <= i < |u| ==> IsDigit(u[i])
    ensures DigitCount(u) == |u|
  {
    if |u| > 0 {
      DigitCountOfDigits(u[..|u| - 1]);
    }
  }

  /**
   * An unsigned literal: its value, or `None` when it is not well formed or
   * has more digits than `int()` converts.
   */
  function ParseUnsigned(u: string): Option<nat> {
    if WellFormedDigits(u) && DigitCount(u) <= MaxStrDigits then Some(DigitsValue(u)) else None
  }

  /** A stripped literal with an optional leading sign. */
  function ParseSigned(t: string): Option<int> {
    if |t| > 0 && t[0] == '-' then
      match ParseUnsigned(t[1..])
      case None => None
      case Some(v) => var magnitude: int := v; Some(-magnitude)
    else if |t| > 0 && t[0] == '+' then ParseUnsigned(t[1..])
    else ParseUnsigned(t)
  }

  /** `int(s)` for a string `s`, in base 10. */
  function ParseInt(s: string): Option<int> {
    ParseSigned(Strip(s))
  }

  /** `int(f)` for a float `f`: truncation toward zero. */
  function Truncate(f: real): (r: int)
    ensures 0.0 <= f ==> 0 <= r && r as real <= f < r as real + 1.0
    ensures f < 0.0 ==> r <= 0 && r as real - 1.0 < f <= r as real
  {
    if f >= 0.0 then f.Floor else -((-f).Floor)
  }

  /** `int(x)` for a list element; `None` where Python raises `ValueError`. */
  function ToInt(x: PyItem): Option<int> {
    match x
    case PyInt(i) => Some(i)
    case PyFloat(f) => Some(Truncate(f))
    case PyStr(s) => ParseInt(s)
  }

  /** The decimal digits of `n`, as Python's `str(n)` writes them. */
  function NatDigits(n: nat): (r: string)
    ensures |r| > 0 && forall i :: 0 <= i < |r| ==> IsDigit(r[i])
  {
    var d := ['0' + (n % 10) as char];
    if n < 10 then d else NatDigits(n / 10) + d
  }

  /** Python's `str(n)` for an int `n`. */
  function Show(n: int): string {
    if n < 0 then "-" + NatDigits(-n) else NatDigits(n)
  }

  lemma {:induction false} NatDigitsValue(n: nat)
    ensures DigitsValue(NatDigits(n)) == n
  {
    var r := NatDigits(n);
    var d := ['0' + (n % 10) as char];
    if n >= 10 {
      NatDigitsValue(n / 10);
      assert r == NatDigits(n / 10) + d;
      assert r[..|r| - 1] == NatDigits(n / 10);
    }
  }

  /** A text that neither starts nor ends with whitespace is its own stripped form. */
  lemma StripUnpadded(s: string)
    requires |s| > 0 && !IsSpace(s[0]) && !IsSpace(s[|s| - 1])
    ensures Strip(s) == s
  {
    assert StripLeft(s) == s;
  }

  /** The digits Python prints for a natural number parse back to it, within the digit limit. */
  lemma ParseNatDigits(m: nat)
    requires |NatDigits(m)| <= MaxStrDigits
    ensures ParseUnsigned(NatDigits(m)) == Some(m)
  {
    NatDigitsValue(m);
    DigitCountOfDigits(NatDigits(m));
    assert WellFormedDigits(NatDigits(m));
  }

  /** The text Python prints for an int has no whitespace at either end. */
  lemma ShowUnpadded(n: int)
    ensures Strip(Show(n)) == Show(n)
  {
    var s := Show(n);
    var digits := NatDigits(if n < 0 then -n else n);
    assert s[|s| - 1] == digits[|digits| - 1];
    assert IsDigit(s[|s| - 1]);
    assert s[0] == '-' || IsDigit(s[0]);
    StripUnpadded(s);
  }

  /**
   * `int(str(n)) == n`: every int Python prints is parsed back to itself.
   * `str(n)` itself raises `ValueError` beyond the digit limit, so the ints
   * Python prints are those with at most MaxStrDigits digits.
   */
  lemma ParseShow(n: int)
    requires |NatDigits(if n < 0 then -n else n)| <= MaxStrDigits
    ensures ParseInt(Show(n)) == Some(n)
  {
    var s := Show(n);
    ShowUnpadded(n);
    if n < 0 {
      ParseNatDigits(-n);
      assert s[1..] == NatDigits(-n);
    } else {
      ParseNatDigits(n);
      assert s[0] != '-' && s[0] != '+';
    }
  }

  lemma StripExample()
    ensures Strip(" -42\n") == "-42"
  {
    assert " -42\n"[1..] == "-42\n";
    assert StripLeft(" -42\n") == "-42\n";
    assert "-42\n"[..3] == "-42";
  }

  lemma DigitsExample()
    ensures ParseUnsigned("42") == Some(42)
  {
    assert "42"[..1] == "4";
    assert "4"[..0] == "";
    assert DigitsValue("4") == 4;
    assert WellFormedDigits("42");
  }

  /** `int(" -42\n") == -42`: whitespace around the literal and a sign are accepted. */
  lemma ParseIntPaddedNegative()
    ensures ParseInt(" -42\n") == Some(-42)
  {
    StripExample();
    DigitsExample();
    assert "-42"[1..] == "42";
  }

  lemma UnderscoreDigitsExample()
    ensures ParseSigned("1_000") == Some(1000)
  {
    assert "1_000"[..4] == "1_00";
    assert "1_00"[..3] == "1_0";
    assert "1_0"[..2] == "1_";
    assert "1_"[..1] == "1";
    assert "1"[..0] == "";
    assert DigitsValue("1_") == 1;
    assert DigitsValue("1_0") == 10;
    assert DigitsValue("1_00") == 100;
    assert WellFormedDigits("1_000");
  }

  lemma UnderscoreStripExample()
    ensures Strip("1_000") == "1_000"
  {
    StripUnpadded("1_000");
  }

  /** `int("1_000") == 1000`: an underscore between digits is skipped. */
  lemma ParseIntUnderscore()
    ensures ParseInt("1_000") == Some(1000)
  {
    UnderscoreStripExample();
    UnderscoreDigitsExample();
  }

  /** Literals with a misplaced underscore, or none at all, are rejected before any sign is read. */
  lemma RejectedUnderscores()
    ensures ParseInt("") == None
    ensures ParseInt("1__0") == None
    ensures ParseInt("_1") == None
  {
    StripUnpadded("1__0");
    StripUnpadded("_1");
    assert !WellFormedDigits("1__0") by { assert "1__0"[1] == '_' && "1__0"[2] == '_'; }
  }

  /** An information separator is not whitespace to `int()`: `int("\x1c5")` raises. */
  lemma RejectedSeparator()
    ensures ParseInt("\U{1c}5") == None
  {
    StripUnpadded("\U{1c}5");
    assert !IsDigit("\U{1c}5"[0]);
  }

  /** A no-break space around a literal is skipped: `int("\xa05\n") == 5`. */
  lemma NoBreakSpaceStripped()
    ensures ParseInt("\U{a0}5\n") == Some(5)
  {
    assert "\U{a0}5\n"[1..] == "5\n";
    assert StripLeft("\U{a0}5\n") == "5\n";
    assert "5\n"[..1] == "5";
    assert Strip("\U{a0}5\n") == "5";
    assert "5"[..0] == "";
  }

  /** A literal with more than MaxStrDigits digits raises, even when they are leading zeros. */
  lemma RejectedOverlong()
    ensures ParseInt(seq(MaxStrDigits + 1, _ => '0') + "5") == None
  {
    var s := seq(MaxStrDigits + 1, _ => '0') + "5";
    assert s[0] == '0' && s[|s| - 1] == '5';
    StripUnpadded(s);
    DigitCountOfDigits(s);
  }

  /** A space after the sign and a decimal point are not digits. */
  lemma RejectedNonDigits()
    ensures ParseInt("- 5") == None
    ensures ParseInt("1.5") == None
  {
    StripUnpadded("- 5");
    StripUnpadded("1.5");
    assert "- 5"[1..] == " 5";
    assert !WellFormedDigits(" 5") by { assert !IsDigit(" 5"[0]); }
    assert !WellFormedDigits("1.5") by { assert "1.5"[1] == '.'; }
  }
}
