/**
 * The two pieces of JavaScript number handling the quiz relies on: the global
 * `parseInt` called without a radix (section 19.2.5 of ECMA-262, 2021 and later
 * editions) and the decimal text a non-negative integer turns into inside a
 * template literal or a URL query.
 *
 * Values are exact integers. A digit string long enough to lose precision as a
 * JavaScript Number only ever matters here through a comparison with 1 and 50,
 * which the exact value decides the same way.
 */
module JsNumbers {
  import opened Wrappers

  /** WhiteSpace and LineTerminator code points: what parseInt trims from the front. */
  predicate IsTrimmable(c: char) {
    c == '\t' || c == '\U{000B}' || c == '\U{000C}' || c == ' ' || c == '\U{00A0}' || c == '\U{FEFF}'
    || c == '\n' || c == '\r' || c == '\U{2028}' || c == '\U{2029}'
    || c == '\U{1680}' || ('\U{2000}' <= c <= '\U{200A}') || c == '\U{202F}' || c == '\U{205F}' || c == '\U{3000}'
  }

  /** The input without its leading white space and line terminators. */
  function TrimStart(s: string): (r: string)
    ensures |r| <= |s| && r == s[|s| - |r|..]
    ensures forall i :: 0 <= i < |s| - |r| ==> IsTrimmable(s[i])
    ensures r == [] || !IsTrimmable(r[0])
  {
    if s != [] && IsTrimmable(s[0]) then TrimStart(s[1..]) else s
  }

  /** The value of `c` as a digit of any radix up to 36; 36 when it is no digit at all. */
  function DigitValue(c: char): (d: nat)
    ensures d <= 36
    ensures d < 10 <==> '0' <= c <= '9'
  {
    if '0' <= c <= '9' then c as int - '0' as int
    else if 'a' <= c <= 'z' then c as int - 'a' as int + 10
    else if 'A' <= c <= 'Z' then c as int - 'A' as int + 10
    else 36
  }

  /** The longest prefix of `s` made of digits of the given radix. */
  function DigitPrefix(s: string, radix: nat): (z: string)
    ensures |z| <= |s| && z == s[..|z|]
    ensures forall i :: 0 <= i < |z| ==> DigitValue(z[i]) < radix
    ensures |z| < |s| ==> DigitValue(s[|z|]) >= radix
  {
    if s != [] && DigitValue(s[0]) < radix then [s[0]] + DigitPrefix(s[1..], radix) else []
  }

  /** The integer a digit string denotes in the given radix, most significant digit first. */
  function DigitsValue(z: string, radix: nat): nat
  {
    if z == [] then 0 else DigitsValue(z[..|z| - 1], radix) * radix + DigitValue(z[|z| - 1])
  }

  /**
   * `parseInt(input)` with the radix left undefined: leading white space is
   * skipped, one sign is read, a "0x"/"0X" prefix switches to radix 16, and the
   * longest run of digits that follows is the value; `None` (NaN) when that run
   * is empty. A negative zero is 0 here.
   */
  function ParseInt(input: string): Option<int>
  {
    ParseSigned(TrimStart(input))
  }

  /** The sign step of parseInt, on the trimmed text. */
  function ParseSigned(s: string): Option<int>
  {
    if s != [] && s[0] == '-' then Negated(ParseMagnitude(s[1..]))
    else if s != [] && s[0] == '+' then ParseMagnitude(s[1..])
    else ParseMagnitude(s)
  }

  function Negated(v: Option<int>): Option<int>
  {
    if v.Some? then Some(-v.value) else None
  }

  predicate HasHexPrefix(u: string) {
    |u| >= 2 && u[0] == '0' && (u[1] == 'x' || u[1] == 'X')
  }

  /** The radix step of parseInt, after the sign. */
  function ParseMagnitude(u: string): Option<int>
  {
    if HasHexPrefix(u) then ParseDigits(u[2..], 16) else ParseDigits(u, 10)
  }

  /** The value of the leading digits of `b`; `None` when `b` does not start with a digit. */
  function ParseDigits(b: string, radix: nat): (r: Option<int>)
    ensures r.None? <==> b == [] || DigitValue(b[0]) >= radix
    ensures r.Some? ==> r.value >= 0
  {
    var z := DigitPrefix(b, radix);
    if z == [] then None else Some(DigitsValue(z, radix))
  }

  function DigitChar(d: nat): (c: char)
    requires d < 10
    ensures '0' <= c <= '9' && DigitValue(c) == d
  {
    ('0' as int + d) as char
  }

  /**
   * The decimal text of `n`, as `String(n)` writes an integer below 10^21 (from
   * there on JavaScript switches to exponent notation): no sign, no leading
   * zeros. The quiz only writes counts and scores of at most 50.
   */
  function NatToString(n: nat): (r: string)
    ensures |r| >= 1
    ensures forall i :: 0 <= i < |r| ==> '0' <= r[i] <= '9'
    ensures n > 0 ==> r[0] != '0'
    ensures n < 10 <==> |r| == 1
  {
    if n < 10 then [DigitChar(n)] else NatToString(n / 10) + [DigitChar(n % 10)]
  }

  /** The decimal text of `i`, with a leading '-' when it is negative. */
  function IntToString(i: int): (r: string)
    ensures |r| >= 1
    ensures r[0] == '-' <==> i < 0
    ensures forall k :: 0 < k < |r| ==> '0' <= r[k] <= '9'
    ensures i >= 0 ==> r == NatToString(i)
  {
    if i < 0 then "-" + NatToString(-i) else NatToString(i)
  }

  /** Reading the decimal text of `n` gives `n` back. */
  lemma {:induction false} DecimalValue(n: nat)
    ensures DigitsValue(NatToString(n), 10) == n
  {
    if n >= 10 {
      var z := NatToString(n);
      assert z[..|z| - 1] == NatToString(n / 10);
      DecimalValue(n / 10);
    }
  }

  /** A run of digits followed by something that is not one of them is exactly the digit prefix. */
  lemma {:induction false} DigitPrefixOfDigits(z: string, rest: string, radix: nat)
    requires forall i :: 0 <= i < |z| ==> DigitValue(z[i]) < radix
    requires rest == [] || DigitValue(rest[0]) >= radix
    ensures DigitPrefix(z + rest, radix) == z
  {
    if z != [] {
      assert (z + rest)[1..] == z[1..] + rest;
      DigitPrefixOfDigits(z[1..], rest, radix);
    }
  }

  /** Text that does not start with white space is left as it is by the trimming step. */
  lemma TrimStartKeeps(s: string)
    requires s == [] || !IsTrimmable(s[0])
    ensures TrimStart(s) == s
  {
  }

  /**
   * The sign step of parseInt: a '-' negates what the rest reads as, and a '+'
   * is skipped, when the rest starts neither with white space nor with a sign.
   */
  lemma ParseSign(t: string)
    requires t == [] || !(IsTrimmable(t[0]) || t[0] == '+' || t[0] == '-')
    ensures ParseInt("-" + t) == Negated(ParseInt(t))
    ensures ParseInt("+" + t) == ParseInt(t)
  {
    ParseUnsigned(t);
    ParseMinus(t);
    ParsePlus(t);
  }

  lemma ParseUnsigned(t: string)
    requires t == [] || !(IsTrimmable(t[0]) || t[0] == '+' || t[0] == '-')
    ensures ParseInt(t) == ParseMagnitude(t)
  {
    TrimStartKeeps(t);
    assert ParseInt(t) == ParseSigned(t);
  }

  lemma ParseMinus(t: string)
    ensures ParseInt("-" + t) == Negated(ParseMagnitude(t))
  {
    var m := "-" + t;
    assert m[0] == '-' && m[1..] == t;
    TrimStartKeeps(m);
    assert ParseInt(m) == ParseSigned(m);
  }

  lemma ParsePlus(t: string)
    ensures ParseInt("+" + t) == ParseMagnitude(t)
  {
    var p := "+" + t;
    assert p[0] == '+' && p[1..] == t;
    TrimStartKeeps(p);
    assert ParseInt(p) == ParseSigned(p);
  }

  /**
   * A "0x" or "0X" prefix switches parseInt to radix 16, whatever the prefix is
   * followed by: the value is that of the hexadecimal digits after it, and NaN
   * when none follow.
   */
  lemma ParseHexPrefix(t: string)
    ensures ParseInt("0x" + t) == ParseDigits(t, 16)
    ensures ParseInt("0X" + t) == ParseDigits(t, 16)
  {
    var l, u := "0x" + t, "0X" + t;
    assert l[0] == '0' && HasHexPrefix(l) && l[2..] == t;
    assert u[0] == '0' && HasHexPrefix(u) && u[2..] == t;
    TrimStartKeeps(l);
    TrimStartKeeps(u);
  }

  /** parseInt reads "0x1A" as 26: the prefix switches to radix 16. */
  lemma ParseHexExample()
    ensures ParseInt("0x1A") == Some(26)
  {
    assert "0x1A" == "0x" + "1A";
    ParseHexPrefix("1A");
    TwoDigits("1A", 16, 26);
  }

  /** parseInt reads " -0x10" as -16: white space, then the sign, then the hexadecimal prefix. */
  lemma ParseSignedHexExample()
    ensures ParseInt(" -0x10") == Some(-16)
  {
    assert " -0x10" == [' '] + "-0x10" && "-0x10" == "-" + "0x10" && "0x10" == "0x" + "10";
    ParseSkipsWhiteSpace(' ', "-0x10");
    ParseSign("0x10");
    ParseHexPrefix("10");
    TwoDigits("10", 16, 16);
  }

  /** parseInt reads "12.7" as 12: it stops at the first character that is not a digit. */
  lemma ParseFractionExample()
    ensures ParseInt("12.7") == Some(12)
  {
    assert NatToString(12) == "12";
    assert "12.7" == NatToString(12) + ".7";
    ParseDecimalPrefix(12, ".7");
  }

  /** parseInt reads "07" as 7: no hexadecimal prefix, and leading zeros add nothing. */
  lemma ParseLeadingZeroExample()
    ensures ParseInt("07") == Some(7)
  {
    var z := "07";
    assert z[0] == '0' && z[1] == '7' && !HasHexPrefix(z);
    ParseDigitLed(z);
    TwoDigits(z, 10, 7);
  }

  /** parseInt reads "abc" as NaN: no decimal digit leads. */
  lemma ParseNaNExample()
    ensures ParseInt("abc") == None
  {
    var z := "abc";
    assert z[0] == 'a' && DigitValue(z[0]) == 10;
    TrimStartKeeps(z);
    assert !HasHexPrefix(z);
  }

  /** The two-character text `z` of digits of the radix denotes `v`. */
  lemma TwoDigits(z: string, radix: nat, v: nat)
    requires |z| == 2 && DigitValue(z[0]) < radix && DigitValue(z[1]) < radix
    requires DigitValue(z[0]) * radix + DigitValue(z[1]) == v
    ensures ParseDigits(z, radix) == Some(v)
  {
    assert z + [] == z;
    DigitPrefixOfDigits(z, [], radix);
    var h := z[..1];
    assert h[0] == z[0] && h[..0] == [];
    assert DigitsValue(h, radix) == DigitValue(z[0]);
  }

  /** Text that starts with a decimal digit is read unsigned, as it stands. */
  lemma ParseDigitLed(s: string)
    requires s != [] && '0' <= s[0] <= '9'
    ensures ParseInt(s) == ParseMagnitude(s)
  {
    assert !IsTrimmable(s[0]);
    assert TrimStart(s) == s;
  }

  /**
   * parseInt reads the decimal text of `n` back as `n`, whatever follows it,
   * provided what follows does not continue the number: "12.7" and "3e2" read
   * as 12 and 3. After a lone "0" an 'x' would start a hexadecimal number.
   */
  lemma ParseDecimalPrefix(n: nat, rest: string)
    requires rest == [] || !('0' <= rest[0] <= '9')
    requires n == 0 && rest != [] ==> rest[0] != 'x' && rest[0] != 'X'
    ensures ParseInt(NatToString(n) + rest) == Some(n)
  {
    var t := NatToString(n);
    assert (t + rest)[0] == t[0];
    ParseDigitLed(t + rest);
    MagnitudeOfDecimal(n, rest);
  }

  lemma MagnitudeOfDecimal(n: nat, rest: string)
    requires rest == [] || !('0' <= rest[0] <= '9')
    requires n == 0 && rest != [] ==> rest[0] != 'x' && rest[0] != 'X'
    ensures ParseMagnitude(NatToString(n) + rest) == Some(n)
  {
    var t := NatToString(n);
    var s := t + rest;
    assert s[0] == t[0];
    assert n < 10 ==> |t| == 1 && (|s| >= 2 ==> s[1] == rest[0]);
    assert !HasHexPrefix(s);
    DigitPrefixOfDigits(t, rest, 10);
    DecimalValue(n);
  }

  /** parseInt reads the text of any integer back as that integer. */
  lemma ParseIntToString(i: int)
    ensures ParseInt(IntToString(i)) == Some(i)
  {
    if i >= 0 {
      ParseNatText(i);
    } else {
      ParseNegativeText(i);
    }
  }

  lemma ParseNatText(n: nat)
    ensures ParseInt(IntToString(n)) == Some(n)
  {
    assert IntToString(n) == NatToString(n) + [];
    ParseDecimalPrefix(n, []);
  }

  lemma ParseNegativeText(i: int)
    requires i < 0
    ensures ParseInt(IntToString(i)) == Some(i)
  {
    var n: nat := -i;
    assert IntToString(i) == "-" + NatToString(n);
    ParseNegative(n);
  }

  lemma ParseNegative(n: nat)
    ensures ParseInt("-" + NatToString(n)) == Negated(Some(n))
  {
    var t := NatToString(n);
    var s := "-" + t;
    assert s[0] == '-' && !IsTrimmable(s[0]);
    assert TrimStart(s) == s;
    assert ParseSigned(s) == Negated(ParseMagnitude(s[1..]));
    assert s[1..] == t + [];
    MagnitudeOfDecimal(n, []);
  }

  /** Leading white space does not change what parseInt reads. */
  lemma ParseSkipsWhiteSpace(c: char, s: string)
    requires IsTrimmable(c)
    ensures ParseInt([c] + s) == ParseInt(s)
  {
    assert ([c] + s)[1..] == s;
  }
}
