/**
 * Python's text operations used on user input: `str.strip()`, `int(s)` for
 * base-10 integers, and `str(n)` for a non-negative integer.
 */
module PyText {
  import opened Python

  /** `c.isspace()`: the Unicode whitespace characters Python strips. */
  predicate IsSpace(c: char) {
    || ('\t' <= c <= '\r')
    || ('\U{1C}' <= c <= '\U{1F}')
    || c == ' ' || c == '\U{85}' || c == '\U{A0}' || c == '\U{1680}'
    || ('\U{2000}' <= c <= '\U{200A}')
    || c == '\U{2028}' || c == '\U{2029}' || c == '\U{202F}' || c == '\U{205F}' || c == '\U{3000}'
  }

  predicate IsDigit(c: char) {
    '0' <= c <= '9'
  }

  predicate AllSpace(s: string) {
    forall i :: 0 <= i < |s| ==> IsSpace(s[i])
  }

  /** `s.lstrip()`: drops the leading whitespace, and only that. */
  function LStrip(s: string): (r: string)
    ensures |r| <= |s| && r == s[|s| - |r|..]
    ensures forall i :: 0 <= i < |s| - |r| ==> IsSpace(s[i])
    ensures r != [] ==> !IsSpace(r[0])
  {
    if s != [] && IsSpace(s[0]) then LStrip(s[1..]) else s
  }

  /** `s.rstrip()`: drops the trailing whitespace, and only that. */
  function RStrip(s: string): (r: string)
    ensures |r| <= |s| && r == s[..|r|]
    ensures forall i :: |r| <= i < |s| ==> IsSpace(s[i])
    ensures r != [] ==> !IsSpace(r[|r| - 1])
  {
    if s != [] && IsSpace(s[|s| - 1]) then RStrip(s[..|s| - 1]) else s
  }

  /** `s.strip()`: neither end of the result is whitespace, and nothing but whitespace was removed. */
  function Strip(s: string): (r: string)
    ensures |r| <= |s|
    ensures r != [] ==> !IsSpace(r[0]) && !IsSpace(r[|r| - 1])
    ensures exists k :: 0 <= k <= |s| - |r| && r == s[k..k + |r|] && AllSpace(s[..k]) && AllSpace(s[k + |r|..])
  {
    var l := LStrip(s);
    var r := RStrip(l);
    StripSlice(s, l, r);
    var k := |s| - |l|;
    assert 0 <= k <= |s| - |r| && r == s[k..k + |r|] && AllSpace(s[..k]) && AllSpace(s[k + |r|..]);
    r
  }

  /**
   * A suffix l of s after only whitespace, and a prefix r of l before only
   * whitespace: r is a slice of s with only whitespace around it.
   */
  lemma StripSlice(s: string, l: string, r: string)
    requires |l| <= |s| && l == s[|s| - |l|..] && forall i :: 0 <= i < |s| - |l| ==> IsSpace(s[i])
    requires |r| <= |l| && r == l[..|r|] && forall i :: |r| <= i < |l| ==> IsSpace(l[i])
    ensures 0 <= |s| - |l| <= |s| - |r|
    ensures r == s[|s| - |l|..|s| - |l| + |r|]
    ensures AllSpace(s[..|s| - |l|]) && AllSpace(s[|s| - |l| + |r|..])
  {
    var k := |s| - |l|;
    assert r == s[k..k + |r|];
    assert AllSpace(s[..k]) by {
      forall i | 0 <= i < k ensures IsSpace(s[..k][i]) {
        assert s[..k][i] == s[i];
      }
    }
    assert s[k + |r|..] == l[|r|..];
    assert AllSpace(l[|r|..]) by {
      forall i | 0 <= i < |l| - |r| ensures IsSpace(l[|r|..][i]) {
        assert l[|r|..][i] == l[|r| + i];
      }
    }
  }

  /** A string strips to nothing exactly when it is all whitespace. */
  lemma StripBlank(s: string)
    ensures Strip(s) == [] <==> AllSpace(s)
  {
  }

  /** A word with no whitespace at either end is left as it is by `strip`. */
  lemma StripPlain(s: string)
    requires s != [] && !IsSpace(s[0]) && !IsSpace(s[|s| - 1])
    ensures Strip(s) == s
  {
  }

  lemma {:induction false} LStripPadded(pad: string, core: string)
    requires AllSpace(pad)
    requires core != [] && !IsSpace(core[0])
    ensures LStrip(pad + core) == core
    decreases |pad|
  {
    if pad == [] {
      assert pad + core == core;
    } else {
      var s := pad + core;
      assert s[0] == pad[0];
      assert s[1..] == pad[1..] + core;
      LStripPadded(pad[1..], core);
    }
  }

  lemma {:induction false} RStripPadded(core: string, pad: string)
    requires AllSpace(pad)
    requires core != [] && !IsSpace(core[|core| - 1])
    ensures RStrip(core + pad) == core
    decreases |pad|
  {
    if pad == [] {
      assert core + pad == core;
    } else {
      var s := core + pad;
      assert s[|s| - 1] == pad[|pad| - 1];
      assert s[..|s| - 1] == core + pad[..|pad| - 1];
      RStripPadded(core, pad[..|pad| - 1]);
    }
  }

  /** Whitespace around a word is what `strip` removes, and all it removes. */
  lemma StripPadded(left: string, core: string, right: string)
    requires AllSpace(left) && AllSpace(right)
    requires core != [] && !IsSpace(core[0]) && !IsSpace(core[|core| - 1])
    ensures Strip(left + core + right) == core
  {
    assert left + core + right == left + (core + right);
    LStripPadded(left, core + right);
    RStripPadded(core, right);
  }

  /**
   * What `int()` accepts after the sign: ASCII digits, with single
   * underscores allowed only between two digits ("1_000", not "_1", "1_" or "1__0").
   */
  predicate DigitGroups(b: string) {
    && |b| > 0
    && IsDigit(b[0])
    && IsDigit(b[|b| - 1])
    && (forall i :: 0 <= i < |b| ==> IsDigit(b[i]) || b[i] == '_')
    && (forall i, j :: 0 <= i < |b| && i < j < |b| && b[i] == '_' && b[j] == '_' ==> j != i + 1)
  }

  /** The number the digits of `b` spell, underscores skipped. */
  function DigitsValue(b: string): nat {
    if b == [] then 0
    else if IsDigit(b[|b| - 1]) then DigitsValue(b[..|b| - 1]) * 10 + (b[|b| - 1] as int - '0' as int)
    else DigitsValue(b[..|b| - 1])
  }

  /** How many digits a digit group holds: its length less its underscores. */
  function DigitCount(b: string): int {
    |b| - multiset(b)['_']
  }

  /**
   * The default limit on the digits `int()` converts (`sys.int_info.default_max_str_digits`,
   * introduced in CPython 3.11 and in the 2022 security releases of 3.7 to 3.10).
   */
  const MaxStrDigits: nat := 4300

  /** U+001C..U+001F, the information separators: `str.isspace` counts them, `int()` does not skip them. */
  predicate IsInfoSeparator(c: char) {
    '\U{1C}' <= c <= '\U{1F}'
  }

  predicate SeparatorFree(s: string) {
    forall i :: 0 <= i < |s| ==> !IsInfoSeparator(s[i])
  }

  /** The whitespace `int()` skips around a number: `str.isspace` less the information separators. */
  predicate AllIntSpace(s: string) {
    forall i :: 0 <= i < |s| ==> IsSpace(s[i]) && !IsInfoSeparator(s[i])
  }

  /**
   * `int(s)` in base 10: the whitespace `int()` skips is ignored at both
   * ends, then one optional sign and digit groups of at most `MaxStrDigits`
   * digits; anything else raises ValueError (None here). An information
   * separator anywhere makes it raise: `int()` does not skip one at the ends,
   * and inside the number it is neither a sign nor a digit. Without one,
   * what `int()` skips is exactly what `str.strip` removes.
   */
  function ParseInt(s: string): (r: Option<int>)
    ensures !SeparatorFree(s) ==> r.None?
    ensures AllSpace(s) ==> r.None?
  {
    if !SeparatorFree(s) then None else ParseSigned(Strip(s))
  }

  /** `int()` of text already stripped: one optional sign, then the digits. */
  function ParseSigned(t: string): Option<int> {
    if t != [] && (t[0] == '+' || t[0] == '-') then
      match ParseDigits(t[1..])
      case None => None
      case Some(v) => Some(if t[0] == '-' then -(v as int) else v)
    else ParseDigits(t)
  }

  /** The unsigned part of `int()`: digit groups of at most `MaxStrDigits` digits. */
  function ParseDigits(b: string): Option<nat> {
    if DigitGroups(b) && DigitCount(b) <= MaxStrDigits then Some(DigitsValue(b)) else None
  }

  /**
   * `int()` of an optional sign and digit groups, with any whitespace it
   * skips around them: the signed value, or ValueError beyond
   * `MaxStrDigits` digits.
   */
  lemma ParseIntDigitGroups(left: string, sign: string, b: string, right: string)
    requires AllIntSpace(left) && AllIntSpace(right)
    requires sign == "" || sign == "+" || sign == "-"
    requires DigitGroups(b)
    ensures ParseInt(left + sign + b + right) ==
      if DigitCount(b) <= MaxStrDigits then Some(if sign == "-" then -(DigitsValue(b) as int) else DigitsValue(b)) else None
  {
    var core := sign + b;
    assert left + sign + b + right == left + core + right;
    assert core[|core| - 1] == b[|b| - 1];
    assert core[0] == if sign == "" then b[0] else sign[0];
    assert AllSpace(left) && AllSpace(right);
    StripPadded(left, core, right);
    SignedGroupsSeparatorFree(sign, b);
    SeparatorFreeConcat(left, core);
    SeparatorFreeConcat(left + core, right);
    ParseSignedDigits(sign, b);
  }

  /** `int()` of an optional sign and digit groups with nothing around them. */
  lemma ParseIntPlain(sign: string, b: string)
    requires sign == "" || sign == "+" || sign == "-"
    requires DigitGroups(b)
    ensures ParseInt(sign + b).Some? <==> DigitCount(b) <= MaxStrDigits
    ensures ParseInt(sign + b).Some? ==> ParseInt(sign + b).value == if sign == "-" then -(DigitsValue(b) as int) else DigitsValue(b)
  {
    var core := sign + b;
    assert core[|core| - 1] == b[|b| - 1];
    assert core[0] == if sign == "" then b[0] else sign[0];
    StripPlain(core);
    SignedGroupsSeparatorFree(sign, b);
    ParseSignedDigits(sign, b);
  }

  lemma SignedGroupsSeparatorFree(sign: string, b: string)
    requires sign == "" || sign == "+" || sign == "-"
    requires DigitGroups(b)
    ensures SeparatorFree(sign + b)
  {
    SeparatorFreeConcat(sign, b);
  }

  lemma SeparatorFreeConcat(a: string, b: string)
    requires SeparatorFree(a) && SeparatorFree(b)
    ensures SeparatorFree(a + b)
  {
    forall i | 0 <= i < |a + b|
      ensures !IsInfoSeparator((a + b)[i])
    {
      if i < |a| {
        assert (a + b)[i] == a[i];
      } else {
        assert (a + b)[i] == b[i - |a|];
      }
    }
  }

  /** An optional sign followed by digit groups reads as their signed value, within the digit limit. */
  lemma ParseSignedDigits(sign: string, b: string)
    requires sign == "" || sign == "+" || sign == "-"
    requires DigitGroups(b)
    ensures ParseSigned(sign + b) ==
      if DigitCount(b) <= MaxStrDigits then Some(if sign == "-" then -(DigitsValue(b) as int) else DigitsValue(b)) else None
  {
    if sign == "" {
      assert sign + b == b;
      ParseSignedUnsigned(b);
    } else {
      var c := sign[0];
      assert sign == [c];
      assert c == '-' <==> sign == "-";
      ParseSignedSigned(c, b);
    }
  }

  /** Text that starts with a digit has no sign. */
  lemma ParseSignedUnsigned(b: string)
    requires DigitGroups(b)
    ensures ParseSigned(b) == ParseDigits(b)
  {
    assert IsDigit(b[0]);
  }

  /** A leading "+" or "-" is the sign, and the rest is read as digits. */
  lemma ParseSignedSigned(c: char, b: string)
    requires c == '+' || c == '-'
    ensures ParseSigned([c] + b) == match ParseDigits(b)
      case None => None
      case Some(v) => Some(if c == '-' then -(v as int) else v)
  {
    assert ([c] + b)[1..] == b;
  }

  function DigitChar(d: nat): (c: char)
    requires d < 10
    ensures IsDigit(c) && c as int - '0' as int == d
  {
    ('0' as int + d) as char
  }

  /** `str(n)` for n >= 0: its decimal digits, most significant first. */
  function DecimalString(n: nat): (r: string)
    ensures r != [] && forall i :: 0 <= i < |r| ==> IsDigit(r[i])
  {
    if n < 10 then [DigitChar(n)] else DecimalString(n / 10) + [DigitChar(n % 10)]
  }

  /** Reading back the digits of `str(n)` gives n. */
  lemma {:induction false} DecimalStringValue(n: nat)
    ensures DigitsValue(DecimalString(n)) == n
  {
    var s := DecimalString(n);
    if n < 10 {
      assert s[..0] == [];
    } else {
      assert s[..|s| - 1] == DecimalString(n / 10);
      DecimalStringValue(n / 10);
    }
  }

  /** `int(str(n)) == n`, with or without whitespace `int()` skips around it, as long as str(n) is within the digit limit. */
  lemma ParseIntDecimalString(left: string, n: nat, right: string)
    requires AllIntSpace(left) && AllIntSpace(right)
    ensures ParseInt(left + DecimalString(n) + right) == if |DecimalString(n)| <= MaxStrDigits then Some(n) else None
  {
    var d := DecimalString(n);
    assert left + d + right == left + "" + d + right;
    DigitsAreGroups(d);
    ParseIntDigitGroups(left, "", d, right);
    DecimalStringValue(n);
  }

  /**
   * `int("-" + str(n)) == -n`, with or without whitespace `int()` skips around it: a minus
   * sign parses to a negative number (or to 0 for "-0"), as long as str(n) is
   * within the digit limit.
   */
  lemma ParseIntNegated(left: string, n: nat, right: string)
    requires AllIntSpace(left) && AllIntSpace(right)
    ensures ParseInt(left + "-" + DecimalString(n) + right).Some? <==> |DecimalString(n)| <= MaxStrDigits
    ensures ParseInt(left + "-" + DecimalString(n) + right).Some? ==> ParseInt(left + "-" + DecimalString(n) + right).value == -(n as int)
  {
    var d := DecimalString(n);
    DecimalStringValue(n);
    DigitsAreGroups(d);
    ParseIntDigitGroups(left, "-", d, right);
  }

  /** A non-empty run of digits is a valid digit group, all of whose characters count as digits. */
  lemma DigitsAreGroups(b: string)
    requires b != [] && forall i :: 0 <= i < |b| ==> IsDigit(b[i])
    ensures DigitGroups(b) && DigitCount(b) == |b|
  {
    assert '_' !in b;
  }

  /** `str` is injective on non-negative integers. */
  lemma DecimalStringInjective(m: nat, n: nat)
    requires DecimalString(m) == DecimalString(n)
    ensures m == n
  {
    DecimalStringValue(m);
    DecimalStringValue(n);
  }
}
