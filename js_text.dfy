/**
 * The JavaScript string operations the backend relies on:
 * `String.prototype.trim` (Mongoose's `trim` setter), `toLowerCase`
 * (the `lowercase` setter) and the global `parseInt` (page numbers).
 */
module JsText {
  import opened Common

  /** WhiteSpace and LineTerminator code points of ECMAScript (section 12.2 and 12.3 of ECMA-262). */
  predicate IsWhitespace(c: char)
  {
    || c == '\t' || c == '\n' || c == '\U{000B}' || c == '\U{000C}' || c == '\r' || c == ' '
    || c == '\U{00A0}' || c == '\U{1680}' || ('\U{2000}' <= c <= '\U{200A}')
    || c == '\U{2028}' || c == '\U{2029}' || c == '\U{202F}' || c == '\U{205F}'
    || c == '\U{3000}' || c == '\U{FEFF}'
  }

  /** `s` with its leading whitespace removed: a suffix of `s` starting at a non-blank. */
  function TrimStart(s: string): (r: string)
    ensures |r| <= |s| && r == s[|s| - |r|..]
    ensures forall k | 0 <= k < |s| - |r| :: IsWhitespace(s[k])
    ensures r == [] || !IsWhitespace(r[0])
  {
    if s != [] && IsWhitespace(s[0]) then TrimStart(s[1..]) else s
  }

  /** `s` with its trailing whitespace removed: a prefix of `s` ending at a non-blank. */
  function TrimEnd(s: string): (r: string)
    ensures |r| <= |s| && r == s[..|r|]
    ensures forall k | |r| <= k < |s| :: IsWhitespace(s[k])
    ensures r == [] || !IsWhitespace(r[|r| - 1])
  {
    if s != [] && IsWhitespace(s[|s| - 1]) then TrimEnd(s[..|s| - 1]) else s
  }

  /**
   * `String.prototype.trim`: the part of `s` left after dropping whitespace
   * on both sides; only whitespace is dropped and none is left at either end.
   */
  function Trim(s: string): (r: string)
    ensures var i := |s| - |TrimStart(s)|;
      && i + |r| <= |s| && r == s[i..i + |r|]
      && (forall k | 0 <= k < i :: IsWhitespace(s[k]))
      && (forall k | i + |r| <= k < |s| :: IsWhitespace(s[k]))
    ensures r == [] || (!IsWhitespace(r[0]) && !IsWhitespace(r[|r| - 1]))
  {
    TrimEnd(TrimStart(s))
  }

  lemma TrimIdempotent(s: string)
    ensures Trim(Trim(s)) == Trim(s)
  {
    var t := Trim(s);
    assert TrimStart(t) == t;
    assert TrimEnd(t) == t;
  }

  /** `toLowerCase` on one code point; only the ASCII capitals are folded. */
  function LowerChar(c: char): char
  {
    if 'A' <= c <= 'Z' then (c as int + 32) as char else c
  }

  /** `String.prototype.toLowerCase`, restricted to ASCII letters. */
  function ToLower(s: string): (r: string)
    ensures |r| == |s|
    ensures forall k | 0 <= k < |r| :: !('A' <= r[k] <= 'Z')
    ensures forall k | 0 <= k < |r| :: r[k] == s[k] || ('A' <= s[k] <= 'Z' && r[k] == s[k] + 32 as char)
  {
    seq(|s|, k requires 0 <= k < |s| => LowerChar(s[k]))
  }

  lemma ToLowerIdempotent(s: string)
    ensures ToLower(ToLower(s)) == ToLower(s)
  {
  }

  /** Folding case never turns a blank into a non-blank or back. */
  lemma ToLowerKeepsWhitespace(s: string, k: int)
    requires 0 <= k < |s|
    ensures IsWhitespace(ToLower(s)[k]) <==> IsWhitespace(s[k])
  {
  }

  /** Folding case keeps a blank or non-blank first and last character. */
  lemma ToLowerKeepsEnds(s: string)
    ensures s != [] ==> (IsWhitespace(ToLower(s)[0]) <==> IsWhitespace(s[0]))
    ensures s != [] ==> (IsWhitespace(ToLower(s)[|s| - 1]) <==> IsWhitespace(s[|s| - 1]))
  {
    if s != [] {
      ToLowerKeepsWhitespace(s, 0);
      ToLowerKeepsWhitespace(s, |s| - 1);
    }
  }

  lemma {:induction false} TrimStartToLower(s: string)
    ensures TrimStart(ToLower(s)) == ToLower(TrimStart(s))
    decreases |s|
  {
    if s != [] {
      ToLowerKeepsWhitespace(s, 0);
      if IsWhitespace(s[0]) {
        assert ToLower(s)[1..] == ToLower(s[1..]);
        TrimStartToLower(s[1..]);
      }
    }
  }

  lemma {:induction false} TrimEndToLower(s: string)
    ensures TrimEnd(ToLower(s)) == ToLower(TrimEnd(s))
    decreases |s|
  {
    if s != [] {
      ToLowerKeepsWhitespace(s, |s| - 1);
      if IsWhitespace(s[|s| - 1]) {
        assert ToLower(s)[..|s| - 1] == ToLower(s[..|s| - 1]);
        TrimEndToLower(s[..|s| - 1]);
      }
    }
  }

  /** Trimming and folding case commute, so the order of Mongoose's setters does not matter. */
  lemma TrimToLowerCommute(s: string)
    ensures Trim(ToLower(s)) == ToLower(Trim(s))
  {
    TrimStartToLower(s);
    TrimEndToLower(TrimStart(s));
  }

  // ---------------------------------------------------------------- parseInt

  /** The value of a digit in radix 36, or 36 for a character that is no digit. */
  function DigitValue(c: char): (v: nat)
    ensures v <= 36
  {
    if '0' <= c <= '9' then c as int - '0' as int
    else if 'a' <= c <= 'z' then c as int - 'a' as int + 10
    else if 'A' <= c <= 'Z' then c as int - 'A' as int + 10
    else 36
  }

  predicate IsDigit(c: char, radix: nat)
  {
    DigitValue(c) < radix
  }

  /** The longest prefix of `s` made of digits of `radix`. */
  function DigitPrefix(s: string, radix: nat): (r: string)
    ensures |r| <= |s| && r == s[..|r|]
    ensures forall k | 0 <= k < |r| :: IsDigit(r[k], radix)
    ensures |r| < |s| ==> !IsDigit(s[|r|], radix)
  {
    if s != [] && IsDigit(s[0], radix) then [s[0]] + DigitPrefix(s[1..], radix) else []
  }

  /** The number a string of digits denotes, most significant digit first. */
  function DigitsValue(ds: string, radix: nat): nat
  {
    if ds == [] then 0
    else DigitsValue(ds[..|ds| - 1], radix) * radix + DigitValue(ds[|ds| - 1])
  }

  /** The digits after the sign: radix 16 after `0x` or `0X`, radix 10 otherwise. */
  function ParseUnsigned(u: string): Option<nat>
  {
    if |u| >= 2 && u[0] == '0' && (u[1] == 'x' || u[1] == 'X') then
      var ds := DigitPrefix(u[2..], 16);
      if ds == [] then None else Some(DigitsValue(ds, 16))
    else
      var ds := DigitPrefix(u, 10);
      if ds == [] then None else Some(DigitsValue(ds, 10))
  }

  /**
   * The global `parseInt` with no radix argument (section 19.2.5 of ECMA-262):
   * skip leading whitespace, read an optional sign, then the digits;
   * `None` stands for NaN.
   */
  function ParseInt(s: string): (r: Option<int>)
    ensures TrimStart(s) == [] ==> r.None?
    ensures r.Some? && r.value < 0 ==> TrimStart(s)[0] == '-'
  {
    var t := TrimStart(s);
    if t != [] && t[0] == '-' then
      match ParseUnsigned(t[1..])
      case None => None
      case Some(v) => Some(-(v as int))
    else if t != [] && t[0] == '+' then ParseUnsigned(t[1..])
    else ParseUnsigned(t)
  }

  /** The decimal numeral of `n`, as `String(n)` writes it. */
  function Decimal(n: nat): (r: string)
    ensures r != []
    ensures forall k | 0 <= k < |r| :: '0' <= r[k] <= '9'
  {
    if n < 10 then ['0' + n as char] else Decimal(n / 10) + ['0' + (n % 10) as char]
  }

  lemma {:induction false} DecimalValue(n: nat)
    ensures DigitsValue(Decimal(n), 10) == n
  {
    if n >= 10 {
      var d := Decimal(n);
      assert d[..|d| - 1] == Decimal(n / 10);
      DecimalValue(n / 10);
    }
  }

  lemma {:induction false} DigitPrefixOfDigits(ds: string, rest: string, radix: nat)
    requires forall k | 0 <= k < |ds| :: IsDigit(ds[k], radix)
    requires rest == [] || !IsDigit(rest[0], radix)
    ensures DigitPrefix(ds + rest, radix) == ds
  {
    if ds != [] {
      assert (ds + rest)[1..] == ds[1..] + rest;
      DigitPrefixOfDigits(ds[1..], rest, radix);
    }
  }

  /** A run of decimal digits not read as hexadecimal parses to its value. */
  lemma {:induction false} ParseUnsignedDecimal(ds: string, rest: string)
    requires ds != []
    requires forall k | 0 <= k < |ds| :: '0' <= ds[k] <= '9'
    requires rest == [] || (!('0' <= rest[0] <= '9') && rest[0] != 'x' && rest[0] != 'X')
    ensures ParseUnsigned(ds + rest) == Some(DigitsValue(ds, 10))
  {
    var t := ds + rest;
    assert t[0] == ds[0];
    assert |t| >= 2 ==> t[1] == (if |ds| >= 2 then ds[1] else rest[0]);
    DigitPrefixOfDigits(ds, rest, 10);
  }

  /** A string starting with neither a blank nor a sign is read as unsigned digits. */
  lemma ParseIntUnsigned(t: string)
    requires t != [] && !IsWhitespace(t[0]) && t[0] != '-' && t[0] != '+'
    ensures ParseInt(t) == ParseUnsigned(t)
  {
    assert TrimStart(t) == t;
  }

  /** A string starting with `-` and then digits worth `v` is read as `-v`. */
  lemma ParseIntMinus(t: string, v: nat)
    requires t != [] && t[0] == '-' && ParseUnsigned(t[1..]) == Some(v)
    ensures ParseInt(t) == Some(0 - v)
  {
    assert TrimStart(t) == t;
  }

  /** A run of decimal digits, followed by anything that does not continue it, parses to its value. */
  lemma ParseIntOfDigits(ds: string, rest: string)
    requires ds != [] && forall k | 0 <= k < |ds| :: '0' <= ds[k] <= '9'
    requires rest == [] || (!('0' <= rest[0] <= '9') && rest[0] != 'x' && rest[0] != 'X')
    ensures ParseInt(ds + rest) == Some(DigitsValue(ds, 10))
  {
    var t := ds + rest;
    assert t[0] == ds[0];
    ParseIntUnsigned(t);
    ParseUnsignedDecimal(ds, rest);
  }

  /**
   * A decimal numeral followed by anything that does not continue it
   * (`"2abc"`, `"1.5"`) parses to the numeral's value; a following `x` is
   * excluded because `"0x1"` reads as hexadecimal.
   */
  lemma {:induction false} ParseIntOfDecimal(n: nat, rest: string)
    requires rest == [] || (!('0' <= rest[0] <= '9') && rest[0] != 'x' && rest[0] != 'X')
    ensures ParseInt(Decimal(n) + rest) == Some(n)
  {
    ParseIntOfDigits(Decimal(n), rest);
    DecimalValue(n);
  }

  /** The same numeral after a minus sign parses to the negated value. */
  lemma {:induction false} ParseIntOfNegativeDecimal(n: nat, rest: string)
    requires rest == [] || (!('0' <= rest[0] <= '9') && rest[0] != 'x' && rest[0] != 'X')
    ensures ParseInt("-" + Decimal(n) + rest) == Some(0 - n)
  {
    var d := Decimal(n);
    var u := d + rest;
    var m := "-" + d + rest;
    assert m == ['-'] + u;
    assert m[1..] == u;
    ParseUnsignedDecimal(d, rest);
    DecimalValue(n);
    ParseIntMinus(m, n);
  }
}
