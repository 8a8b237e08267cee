/** The JavaScript semantics the configuration code relies on: reading a
    variable of the process environment, the `||` operator on a string that
    may be undefined, the global `parseInt` with no radix argument (section
    19.2.5 of ECMA-262) and the decimal form in which a template literal
    writes a non-negative integer. */
module Js {
  import opened Wrappers

  /** `process.env[key]`: the value when the key is present, `undefined`
      otherwise. */
  function Lookup(env: map<string, string>, key: string): (r: Option<string>)
    ensures r.Some? <==> key in env
    ensures r.Some? ==> r.value == env[key]
  {
    if key in env then Some(env[key]) else None
  }

  /** A string that may be undefined is truthy when it is present and not
      the empty string. */
  predicate Truthy(v: Option<string>)
    ensures Truthy(v) <==> v != None && v != Some("")
  {
    v.Some? && v.value != ""
  }

  /** `v || fallback` for a string fallback: `v` exactly when it is present
      and not empty. */
  function Or(v: Option<string>, fallback: string): (r: string)
    ensures v.Some? && v.value != "" ==> r == v.value
    ensures v == None || v == Some("") ==> r == fallback
  {
    if Truthy(v) then v.value else fallback
  }

  /** `v || undefined`: the empty string becomes undefined, and a present
      result is never empty. */
  function OrUndefined(v: Option<string>): (r: Option<string>)
    ensures r == None <==> v == None || v == Some("")
    ensures r.Some? ==> r == v && r.value != ""
  {
    if Truthy(v) then v else None
  }

  // ---------------------------------------------------------------------
  // parseInt
  // ---------------------------------------------------------------------

  /** StrWhiteSpaceChar of ECMA-262: the WhiteSpace code points (tab,
      vertical tab, form feed, zero-width no-break space and the Unicode
      space separators) and the LineTerminator code points. */
  predicate IsWhiteSpace(c: char)
  {
    || c == '\t' || c == '\n' || c == '\U{000B}' || c == '\U{000C}' || c == '\r'
    || c == ' ' || c == '\U{00A0}' || c == '\U{1680}'
    || ('\U{2000}' <= c <= '\U{200A}')
    || c == '\U{2028}' || c == '\U{2029}' || c == '\U{202F}' || c == '\U{205F}'
    || c == '\U{3000}' || c == '\U{FEFF}'
  }

  /** The number of white-space characters that `s` starts with. */
  function LeadingWhiteSpace(s: string): (n: nat)
    ensures n <= |s|
    ensures forall i :: 0 <= i < n ==> IsWhiteSpace(s[i])
    ensures n < |s| ==> !IsWhiteSpace(s[n])
  {
    if s != [] && IsWhiteSpace(s[0]) then 1 + LeadingWhiteSpace(s[1..]) else 0
  }

  /** The string with its leading white space removed: what is left of `s`
      after a prefix made only of white space, and not starting with white
      space itself. */
  function TrimStart(s: string): (r: string)
    ensures |r| <= |s| && r == s[|s| - |r|..]
    ensures forall i :: 0 <= i < |s| - |r| ==> IsWhiteSpace(s[i])
    ensures r == [] || !IsWhiteSpace(r[0])
  {
    s[LeadingWhiteSpace(s)..]
  }

  /** The value of a character as a digit in radices up to 36, and 36 for a
      character that is a digit in no radix. */
  function DigitValue(c: char): nat
  {
    if '0' <= c <= '9' then c as int - '0' as int
    else if 'a' <= c <= 'z' then c as int - 'a' as int + 10
    else if 'A' <= c <= 'Z' then c as int - 'A' as int + 10
    else 36
  }

  /** The length of the longest prefix of `s` made of radix-`radix` digits. */
  function DigitRun(s: string, radix: nat): (n: nat)
    ensures n <= |s|
    ensures forall i :: 0 <= i < n ==> DigitValue(s[i]) < radix
    ensures n < |s| ==> DigitValue(s[n]) >= radix
  {
    if s != [] && DigitValue(s[0]) < radix then 1 + DigitRun(s[1..], radix) else 0
  }

  /** The number a string of digits denotes in the given radix, most
      significant digit first. */
  function DigitsValue(ds: string, radix: nat): nat
  {
    if ds == [] then 0
    else DigitsValue(ds[..|ds| - 1], radix) * radix + DigitValue(ds[|ds| - 1])
  }

  /** `parseInt(s)`: skip leading white space, take an optional sign, take a
      `0x` or `0X` prefix as radix 16 (radix 10 otherwise), then read the
      longest run of digits and ignore the rest. No digit gives NaN, modelled
      as `None`. */
  function ParseInt(s: string): (r: Option<int>)
    ensures r.Some? ==> TrimStart(s) != []
    ensures r.Some? && r.value < 0 ==> TrimStart(s)[0] == '-'
    ensures var t := TrimStart(s); t != [] && '1' <= t[0] <= '9' ==> r.Some? && r.value >= 0
  {
    ParseSigned(TrimStart(s))
  }

  /** The sign step of `parseInt`, on the text after the white space. */
  function ParseSigned(t: string): Option<int>
  {
    if t != [] && t[0] == '-' then
      match ParseUnsigned(t[1..])
      case None => None
      case Some(m) => Some(-m)
    else if t != [] && t[0] == '+' then ParseUnsigned(t[1..])
    else ParseUnsigned(t)
  }

  /** The radix step of `parseInt`, on the text after the sign. */
  function ParseUnsigned(u: string): Option<int>
  {
    if |u| >= 2 && u[0] == '0' && (u[1] == 'x' || u[1] == 'X') then ParseDigits(u[2..], 16)
    else ParseDigits(u, 10)
  }

  /** The digit step of `parseInt`: the value of the longest prefix of
      digits, NaN when there is none. */
  function ParseDigits(digits: string, radix: nat): Option<int>
  {
    var end := DigitRun(digits, radix);
    if end == 0 then None else Some(DigitsValue(digits[..end], radix))
  }

  // ---------------------------------------------------------------------
  // Decimal numerals
  // ---------------------------------------------------------------------

  function DigitChar(d: nat): (c: char)
    requires d < 10
    ensures '0' <= c <= '9' && DigitValue(c) == d
  {
    (d + '0' as int) as char
  }

  /** The decimal numeral of a non-negative integer, which is what `${n}`
      writes for every `n` below 2^53 and so for every port: digits only,
      and no leading zero except for zero itself. (Above 2^53 JavaScript
      writes the shortest numeral of the nearest double, padded with zeros,
      and from 10^21 on it switches to exponent notation.) */
  function Decimal(n: nat): (s: string)
    ensures |s| >= 1
    ensures forall i :: 0 <= i < |s| ==> '0' <= s[i] <= '9'
    ensures s[0] == '0' <==> n == 0
    ensures |s| == 1 <==> n < 10
  {
    if n < 10 then [DigitChar(n)] else Decimal(n / 10) + [DigitChar(n % 10)]
  }

  /** The digits of `Decimal(n)` denote `n`; for a port, or any `n` below
      2^53, that is what `${n}` writes. */
  lemma {:induction false} DigitsValueOfDecimal(n: nat)
    ensures DigitsValue(Decimal(n), 10) == n
  {
    var s := Decimal(n);
    if n < 10 {
      assert s[..0] == [];
    } else {
      var p := Decimal(n / 10);
      assert s == p + [DigitChar(n % 10)];
      assert s[..|s| - 1] == p;
      DigitsValueOfDecimal(n / 10);
    }
  }

  /** `parseInt` reads back the numeral `${n}`, after an optional leading
      sign and followed by anything that does not continue the numeral: a
      non-digit, and for zero not an `x` or `X` either (`"0x1"` is
      hexadecimal). */
  lemma ParseIntReadsNumeral(sign: string, n: nat, rest: string)
    requires sign == "" || sign == "+" || sign == "-"
    requires rest == [] || !('0' <= rest[0] <= '9')
    requires n == 0 && rest != [] ==> rest[0] != 'x' && rest[0] != 'X'
    ensures ParseInt(sign + Decimal(n) + rest) == Some(if sign == "-" then -(n as int) else n)
  {
    ParseDigitsReadsNumeral(n, rest);
    ParseSignedReadsNumber(sign, Decimal(n), rest, n);
  }

  /** `parseInt` reads back the numeral `${n}` on its own. */
  lemma ParseIntOfDecimal(n: nat)
    ensures ParseInt(Decimal(n)) == Some(n)
  {
    ParseIntReadsNumeral("", n, "");
    assert "" + Decimal(n) + "" == Decimal(n);
  }

  /** The sign step, on text that begins with a sign or a digit, which is no
      white space. */
  lemma ParseSignedReadsNumber(sign: string, d: string, rest: string, n: nat)
    requires sign == "" || sign == "+" || sign == "-"
    requires d != [] && '0' <= d[0] <= '9'
    requires ParseUnsigned(d + rest) == Some(n)
    ensures ParseInt(sign + d + rest) == Some(if sign == "-" then -(n as int) else n)
  {
    var u := d + rest;
    if sign == "" {
      assert sign + d + rest == u && u[0] == d[0];
      ParseIntOfUnsigned(u, n);
    } else {
      assert sign + d + rest == [sign[0]] + u;
      ParseIntOfSigned(sign[0], u, n);
    }
  }

  lemma ParseIntOfUnsigned(u: string, n: nat)
    requires u != [] && '0' <= u[0] <= '9'
    requires ParseUnsigned(u) == Some(n)
    ensures ParseInt(u) == Some(n)
  {
    TrimStartOfNonWhite(u);
  }

  lemma ParseIntOfSigned(c: char, u: string, n: nat)
    requires c == '+' || c == '-'
    requires ParseUnsigned(u) == Some(n)
    ensures ParseInt([c] + u) == Some(if c == '-' then -(n as int) else n)
  {
    var s := [c] + u;
    TrimStartOfNonWhite(s);
    assert s[1..] == u;
  }

  lemma ParseDigitsReadsNumeral(n: nat, rest: string)
    requires rest == [] || !('0' <= rest[0] <= '9')
    requires n == 0 && rest != [] ==> rest[0] != 'x' && rest[0] != 'X'
    ensures ParseUnsigned(Decimal(n) + rest) == Some(n)
  {
    var d := Decimal(n);
    var u := d + rest;
    assert !(|u| >= 2 && u[0] == '0' && (u[1] == 'x' || u[1] == 'X')) by {
      if |u| >= 2 && u[0] == '0' {
        assert n == 0 && |d| == 1 && u[1] == rest[0];
      }
    }
    var end := DigitRun(u, 10);
    assert end == |d| by {
      assert forall i :: 0 <= i < |d| ==> u[i] == d[i];
    }
    assert u[..end] == d;
    DigitsValueOfDecimal(n);
  }

  lemma TrimStartOfNonWhite(s: string)
    requires s != [] && !IsWhiteSpace(s[0])
    ensures TrimStart(s) == s
  {
    assert LeadingWhiteSpace(s) == 0;
  }

  /** Leading white space does not change what `parseInt` reads. */
  lemma TrimStartSkipsWhiteSpace(ws: string, s: string)
    requires forall i :: 0 <= i < |ws| ==> IsWhiteSpace(ws[i])
    ensures TrimStart(ws + s) == TrimStart(s)
  {
    var t := ws + s;
    var n := LeadingWhiteSpace(s);
    var m := LeadingWhiteSpace(t);
    assert forall i :: 0 <= i < |s| ==> t[|ws| + i] == s[i];
    assert m == |ws| + n;
    assert t[m..] == s[n..];
  }

  lemma ParseIntSkipsWhiteSpace(ws: string, s: string)
    requires forall i :: 0 <= i < |ws| ==> IsWhiteSpace(ws[i])
    ensures ParseInt(ws + s) == ParseInt(s)
  {
    TrimStartSkipsWhiteSpace(ws, s);
  }

  /** `parseInt` gives NaN when the text after the white space and the
      optional sign does not start with a decimal digit. */
  lemma ParseIntNaN(s: string)
    requires var t := TrimStart(s); t == [] || !('0' <= t[0] <= '9')
    requires var t := TrimStart(s); t != [] && (t[0] == '-' || t[0] == '+') ==>
      |t| == 1 || !('0' <= t[1] <= '9')
    ensures ParseInt(s) == None
  {
    var t := TrimStart(s);
    assert ParseInt(s) == ParseSigned(t);
  }
}
