/**
 * String operations with the meaning the JavaScript built-ins used by the app give them:
 * String.prototype.trim, startsWith, length (UTF-16 code units), Number-to-string for
 * whole milliseconds, and parseInt without a radix. Strings are sequences of Unicode scalar values.
 */
module JsText {
  import opened Wrappers
  import opened Seqs

  /** The WhiteSpace and LineTerminator code points of ECMAScript, which trim and parseInt skip. */
  predicate IsSpace(c: char)
  {
    c == '\t' || c == '\n' || c == '\U{000B}' || c == '\U{000C}' || c == '\r' || c == ' '
    || c == '\U{00A0}' || c == '\U{1680}' || ('\U{2000}' <= c <= '\U{200A}')
    || c == '\U{2028}' || c == '\U{2029}' || c == '\U{202F}' || c == '\U{205F}'
    || c == '\U{3000}' || c == '\U{FEFF}'
  }

  /** A string that trims to the empty string, which JavaScript treats as false. */
  predicate IsBlank(s: string)
  {
    forall i | 0 <= i < |s| :: IsSpace(s[i])
  }

  /** Drops the leading white space. */
  function TrimStart(s: string): (r: string)
    ensures |r| <= |s| && r == s[|s| - |r|..]
    ensures r == [] || !IsSpace(r[0])
    ensures forall i | 0 <= i < |s| - |r| :: IsSpace(s[i])
  {
    if s != [] && IsSpace(s[0]) then TrimStart(s[1..]) else s
  }

  /** Drops the trailing white space. */
  function TrimEnd(s: string): (r: string)
    ensures |r| <= |s| && r == s[..|r|]
    ensures r == [] || !IsSpace(r[|r| - 1])
    ensures forall i | |r| <= i < |s| :: IsSpace(s[i])
  {
    if s != [] && IsSpace(s[|s| - 1]) then TrimEnd(s[..|s| - 1]) else s
  }

  /** r is the stretch of s that starts at k, and everything of s before and after it is white space. */
  predicate IsTrimmedAt(r: string, s: string, k: nat)
  {
    && k + |r| <= |s| && r == s[k..k + |r|]
    && (forall i | 0 <= i < k :: IsSpace(s[i]))
    && (forall i | k + |r| <= i < |s| :: IsSpace(s[i]))
  }

  /** No white space at either end. */
  predicate Unpadded(r: string)
  {
    r == [] || (!IsSpace(r[0]) && !IsSpace(r[|r| - 1]))
  }

  /**
   * String.prototype.trim: the input with its leading and trailing white space removed; empty
   * exactly for a blank string, otherwise without white space at either end.
   */
  function Trim(s: string): (r: string)
    ensures |r| <= |s|
    ensures exists k: nat :: IsTrimmedAt(r, s, k)
    ensures Unpadded(r)
    ensures r == [] <==> IsBlank(s)
  {
    var t := TrimStart(s);
    var r := TrimEnd(t);
    TrimBothEnds(s, t, r);
    r
  }

  /** Dropping white space from the start of s, then from the end, leaves the stretch between. */
  lemma TrimBothEnds(s: string, t: string, r: string)
    requires |t| <= |s| && t == s[|s| - |t|..] && forall i | 0 <= i < |s| - |t| :: IsSpace(s[i])
    requires t == [] || !IsSpace(t[0])
    requires |r| <= |t| && r == t[..|r|] && forall i | |r| <= i < |t| :: IsSpace(t[i])
    requires r == [] || !IsSpace(r[|r| - 1])
    ensures IsTrimmedAt(r, s, |s| - |t|)
    ensures Unpadded(r)
    ensures r == [] <==> IsBlank(s)
  {
    var k := |s| - |t|;
    assert r == s[k..k + |r|];
    forall i | k + |r| <= i < |s|
      ensures IsSpace(s[i])
    {
      assert s[i] == t[i - k];
    }
    if r != [] {
      assert r[0] == t[0];
      assert t[0] == s[k] && !IsSpace(s[k]);
    }
  }

  predicate StartsWith(s: string, prefix: string)
  {
    |prefix| <= |s| && s[..|prefix|] == prefix
  }

  /** A code point above U+FFFF, which UTF-16 writes as a surrogate pair. */
  predicate IsSupplementary(c: char)
  {
    c as int >= 0x1_0000
  }

  /**
   * The length property of a JavaScript string: one UTF-16 unit per code point, plus one more
   * for each code point above U+FFFF.
   */
  function Utf16Length(s: string): (n: nat)
    ensures n == |s| + Count(IsSupplementary, s)
    ensures |s| <= n <= 2 * |s|
    ensures (forall i | 0 <= i < |s| :: s[i] as int < 0x1_0000) ==> n == |s|
  {
    if s == [] then 0
    else
      CountAll(IsSupplementary, s);
      (if s[0] as int < 0x1_0000 then 1 else 2) + Utf16Length(s[1..])
  }

  predicate IsDecimalDigit(c: char)
  {
    '0' <= c <= '9'
  }

  function DigitChar(d: nat): (c: char)
    requires d < 10
    ensures IsDecimalDigit(c)
  {
    ('0' as int + d) as char
  }

  /** Number-to-string for a whole number below 10^21: its decimal digits, without leading zeros. */
  function DecimalString(n: nat): (s: string)
    ensures |s| >= 1
    ensures forall i | 0 <= i < |s| :: IsDecimalDigit(s[i])
    ensures |s| > 1 ==> s[0] != '0'
  {
    if n < 10 then [DigitChar(n)] else DecimalString(n / 10) + [DigitChar(n % 10)]
  }

  /** The value of c as a digit of radix up to 36 (letters of either case above 9); 36 when it is none. */
  function DigitValue(c: char): nat
  {
    if '0' <= c <= '9' then c as int - '0' as int
    else if 'a' <= c <= 'z' then c as int - 'a' as int + 10
    else if 'A' <= c <= 'Z' then c as int - 'A' as int + 10
    else 36
  }

  /** The longest prefix of s made of digits of the given radix. */
  function DigitPrefix(s: string, radix: nat): (z: string)
    ensures |z| <= |s| && z == s[..|z|]
    ensures forall i | 0 <= i < |z| :: DigitValue(z[i]) < radix
    ensures |z| == |s| || DigitValue(s[|z|]) >= radix
  {
    if s != [] && DigitValue(s[0]) < radix then [s[0]] + DigitPrefix(s[1..], radix) else []
  }

  /** The value of a string of digits, most significant first. */
  function DigitsValue(z: string, radix: nat): nat
  {
    if z == [] then 0 else DigitsValue(z[..|z| - 1], radix) * radix + DigitValue(z[|z| - 1])
  }

  /**
   * parseInt(s) with no radix argument: skip white space, read one optional sign, then an
   * unsigned number; None is NaN.
   */
  function ParseInt(s: string): (r: Option<int>)
    ensures IsBlank(s) ==> r == None
    ensures s != [] && (forall i | 0 <= i < |s| :: IsDecimalDigit(s[i])) ==> r == Some(DigitsValue(s, 10))
  {
    LeadingText(s);
    var t := TrimStart(s);
    var negative := t != [] && t[0] == '-';
    var u := if t != [] && (t[0] == '-' || t[0] == '+') then t[1..] else t;
    match ParseUnsigned(u)
    case None => None
    case Some(magnitude) =>
      var value: int := if negative then -(magnitude as int) else magnitude;
      Some(value)
  }

  /** The unsigned part: a "0x"/"0X" prefix selects radix 16 (10 otherwise), then the longest digit prefix. */
  function ParseUnsigned(u: string): (m: Option<nat>)
    ensures u == [] ==> m == None
    ensures u != [] && (forall i | 0 <= i < |u| :: IsDecimalDigit(u[i])) ==> m == Some(DigitsValue(u, 10))
  {
    DecimalDigitsReadWhole(u);
    var hex := |u| >= 2 && u[0] == '0' && (u[1] == 'x' || u[1] == 'X');
    var radix := if hex then 16 else 10;
    var z := DigitPrefix(if hex then u[2..] else u, radix);
    if z == [] then None else Some(DigitsValue(z, radix))
  }

  /** Where parseInt starts reading: nowhere in a blank string, at the first digit of a string of digits. */
  lemma LeadingText(s: string)
    ensures IsBlank(s) ==> TrimStart(s) == []
    ensures s != [] && (forall i | 0 <= i < |s| :: IsDecimalDigit(s[i])) ==>
      TrimStart(s) == s && s[0] != '-' && s[0] != '+'
  {
    if IsBlank(s) {
      TrimStartOfBlank(s);
    }
    if s != [] && IsDecimalDigit(s[0]) {
      DigitsAreNotSpace(s[0]);
    }
  }

  /** A string of decimal digits is read whole in radix 10. */
  lemma DecimalDigitsReadWhole(s: string)
    ensures (forall i | 0 <= i < |s| :: IsDecimalDigit(s[i])) ==> DigitPrefix(s, 10) == s
  {
    if forall i | 0 <= i < |s| :: IsDecimalDigit(s[i]) {
      forall i | 0 <= i < |s|
        ensures DigitValue(s[i]) < 10
      {
        DigitsAreNotSpace(s[i]);
      }
      DigitPrefixOfDigits(s, 10);
    }
  }

  /** A blank string trims to nothing from the start. */
  lemma {:induction false} TrimStartOfBlank(s: string)
    requires IsBlank(s)
    ensures TrimStart(s) == []
  {
    if s != [] {
      assert forall i | 0 <= i < |s| - 1 :: s[1..][i] == s[i + 1];
      TrimStartOfBlank(s[1..]);
    }
  }

  lemma {:induction false} DecimalStringValue(n: nat)
    ensures DigitsValue(DecimalString(n), 10) == n
  {
    if n >= 10 {
      DecimalStringValue(n / 10);
      var s := DecimalString(n / 10);
      assert (s + [DigitChar(n % 10)])[..|s|] == s;
    }
  }

  lemma {:induction false} DigitPrefixOfDigits(s: string, radix: nat)
    requires forall i | 0 <= i < |s| :: DigitValue(s[i]) < radix
    ensures DigitPrefix(s, radix) == s
  {
    if s != [] {
      DigitPrefixOfDigits(s[1..], radix);
    }
  }

  /** parseInt reads back every decimal string that Number-to-string produces. */
  lemma ParseIntDecimalString(n: nat)
    ensures ParseInt(DecimalString(n)) == Some(n)
  {
    DecimalStringValue(n);
  }

  lemma DigitsAreNotSpace(c: char)
    requires IsDecimalDigit(c)
    ensures !IsSpace(c) && DigitValue(c) < 10
  {
  }
}
