/**
 * The two number conversions the router relies on: the global `parseInt(string)` with no radix
 * (ECMAScript, section 19.2.5 "parseInt ( string, radix )") and the conversion of an integral
 * Number to a string (section 6.1.6.1.20 "Number::toString"), restricted to values that are
 * mathematical integers.
 */
module JsNumbers {
  import opened Wrappers

  /** `\d` of a regular expression, and the decimal digits of `parseInt`. */
  predicate IsDecimalDigit(c: char) {
    '0' <= c <= '9'
  }

  /** StrWhiteSpaceChar: WhiteSpace or LineTerminator, the characters `parseInt` skips first. */
  predicate IsWhiteSpace(c: char) {
    c == '\t' || c == '\U{000B}' || c == '\U{000C}' || c == ' ' || c == '\U{00A0}' || c == '\U{FEFF}'
    || c == '\U{1680}' || ('\U{2000}' <= c <= '\U{200A}') || c == '\U{202F}' || c == '\U{205F}'
    || c == '\U{3000}'
    || c == '\n' || c == '\r' || c == '\U{2028}' || c == '\U{2029}'
  }

  /** The value of `c` as a digit in radices up to 36; 36 when `c` is no digit at all. */
  function DigitValue(c: char): (v: nat)
    ensures v <= 36
    ensures IsDecimalDigit(c) <==> v < 10
  {
    if '0' <= c <= '9' then c as nat - '0' as nat
    else if 'a' <= c <= 'z' then c as nat - 'a' as nat + 10
    else if 'A' <= c <= 'Z' then c as nat - 'A' as nat + 10
    else 36
  }

  /** `s` with its leading white space removed. */
  function TrimStart(s: string): (t: string)
    ensures |t| <= |s|
    ensures forall k :: 0 <= k < |s| - |t| ==> IsWhiteSpace(s[k])
    ensures t == [] || !IsWhiteSpace(t[0])
  {
    if s != [] && IsWhiteSpace(s[0]) then TrimStart(s[1..]) else s
  }

  /** The number of leading characters of `s` that are digits in `radix`. */
  function DigitPrefixLength(s: string, radix: nat): (k: nat)
    ensures k <= |s|
    ensures forall j :: 0 <= j < k ==> DigitValue(s[j]) < radix
    ensures k < |s| ==> DigitValue(s[k]) >= radix
  {
    if s != [] && DigitValue(s[0]) < radix then 1 + DigitPrefixLength(s[1..], radix) else 0
  }

  /** The value of the digit string `ds` read most significant digit first. */
  function DigitsValue(ds: string, radix: nat): nat {
    if ds == [] then 0
    else DigitsValue(ds[..|ds| - 1], radix) * radix + DigitValue(ds[|ds| - 1])
  }

  /**
   * `parseInt(s)` with no radix: skip white space, take one optional sign, read a `0x`/`0X`
   * prefix as radix 16 and otherwise use radix 10, then take the longest run of digits.
   * `None` is `NaN`, produced when that run is empty.
   */
  function ParseInt(s: string): Option<int> {
    ParseSigned(TrimStart(s))
  }

  /** The sign step of `parseInt`, after white space is gone. */
  function ParseSigned(t: string): Option<int> {
    if t != [] && t[0] == '-' then
      match ParseMagnitude(t[1..])
      case None => None
      case Some(m) => Some(-m)
    else if t != [] && t[0] == '+' then ParseMagnitude(t[1..])
    else ParseMagnitude(t)
  }

  /** The radix step of `parseInt`: a `0x` or `0X` prefix selects radix 16, anything else radix 10. */
  function ParseMagnitude(u: string): Option<int> {
    if |u| >= 2 && u[0] == '0' && (u[1] == 'x' || u[1] == 'X') then ParseDigits(u[2..], 16)
    else ParseDigits(u, 10)
  }

  /** The longest leading run of `radix` digits of `v`, or `NaN` when it is empty. */
  function ParseDigits(v: string, radix: nat): Option<int> {
    var k := DigitPrefixLength(v, radix);
    if k == 0 then None else Some(DigitsValue(v[..k], radix))
  }

  function DigitChar(d: nat): char
    requires d < 10
  {
    ('0' as nat + d) as char
  }

  /** The decimal numeral of `n`, with no leading zeros. */
  function Natural(n: nat): string {
    if n < 10 then [DigitChar(n)] else Natural(n / 10) + [DigitChar(n % 10)]
  }

  /** Number::toString of an integral Number `n` (no exponent form: |n| is taken to be below 10^21). */
  function IntToString(n: int): string {
    if n < 0 then "-" + Natural(-n) else Natural(n)
  }

  /** The string JavaScript concatenates for the Number `x`, where `None` is `NaN`. */
  function NumberToString(x: Option<int>): string {
    match x
    case None => "NaN"
    case Some(n) => IntToString(n)
  }

  /** A non-empty string of decimal digits is what `parseInt` reads as its decimal value. */
  lemma ParseIntOfDigits(ds: string)
    requires ds != [] && forall k :: 0 <= k < |ds| ==> IsDecimalDigit(ds[k])
    ensures ParseInt(ds) == Some(DigitsValue(ds, 10))
  {
    MagnitudeOfDigits(ds);
    ParseIntUnsigned(ds);
  }

  lemma MagnitudeOfDigits(ds: string)
    requires ds != [] && forall k :: 0 <= k < |ds| ==> IsDecimalDigit(ds[k])
    ensures ParseMagnitude(ds) == Some(DigitsValue(ds, 10))
  {
    assert |ds| >= 2 ==> DigitValue(ds[1]) < 10;
    WholeDigitRun(ds);
    assert ds[..|ds|] == ds;
  }

  /** In a string of decimal digits, the run of decimal digits is the whole string. */
  lemma WholeDigitRun(ds: string)
    requires forall k :: 0 <= k < |ds| ==> IsDecimalDigit(ds[k])
    ensures DigitPrefixLength(ds, 10) == |ds|
  {
  }

  /** A string that starts with a digit is read by the radix step alone. */
  lemma ParseIntUnsigned(ds: string)
    requires ds != [] && IsDecimalDigit(ds[0])
    ensures ParseInt(ds) == ParseMagnitude(ds)
  {
    NoWhiteSpaceToTrim(ds);
  }

  /** A `-` followed by a magnitude `v` is read as `-v`. */
  lemma ParseIntNegative(ds: string, v: int)
    requires ParseMagnitude(ds) == Some(v)
    ensures ParseInt("-" + ds) == Some(0 - v)
  {
    var m := "-" + ds;
    NoWhiteSpaceToTrim(m);
    assert m[1..] == ds;
  }

  /**
   * What `TrimStart` leaves is a suffix of its input. A lemma rather than a postcondition: as an
   * equation between a string and a slice of it, it would be rewritten without end in every proof.
   */
  lemma {:induction false} TrimStartSuffix(s: string)
    ensures TrimStart(s) == s[|s| - |TrimStart(s)|..]
  {
    if s != [] && IsWhiteSpace(s[0]) {
      TrimStartSuffix(s[1..]);
      assert s[1..][|s[1..]| - |TrimStart(s[1..])|..] == s[|s| - |TrimStart(s)|..];
    }
  }

  lemma NoWhiteSpaceToTrim(t: string)
    requires t != [] && (IsDecimalDigit(t[0]) || t[0] == '-')
    ensures TrimStart(t) == t
  {
  }

  /** The numeral of `n` is made of decimal digits and denotes `n`. */
  lemma {:induction false} NaturalDigits(n: nat)
    ensures Natural(n) != []
    ensures forall k :: 0 <= k < |Natural(n)| ==> IsDecimalDigit(Natural(n)[k])
    ensures DigitsValue(Natural(n), 10) == n
  {
    if n >= 10 {
      NaturalDigits(n / 10);
      var s := Natural(n);
      assert s[..|s| - 1] == Natural(n / 10);
    }
  }

  /** Converting an integer to a string and parsing it back gives the integer. */
  lemma IntToStringRoundTrip(n: int)
    ensures ParseInt(IntToString(n)) == Some(n)
  {
    if n < 0 {
      var ds := Natural(-n);
      NaturalDigits(-n);
      MagnitudeOfDigits(ds);
      ParseIntNegative(ds, -n);
      assert IntToString(n) == "-" + ds;
    } else {
      var ds := Natural(n);
      NaturalDigits(n);
      ParseIntOfDigits(ds);
      assert IntToString(n) == ds;
    }
  }

  /** The string of an integer holds no `/` and no line terminator: only digits and perhaps a leading `-`. */
  lemma IntToStringChars(n: int)
    ensures IntToString(n) != []
    ensures forall k :: 0 <= k < |IntToString(n)| ==>
              IsDecimalDigit(IntToString(n)[k]) || (k == 0 && IntToString(n)[k] == '-' && n < 0)
    ensures n >= 0 ==> forall k :: 0 <= k < |IntToString(n)| ==> IsDecimalDigit(IntToString(n)[k])
  {
    if n < 0 { NaturalDigits(-n); } else { NaturalDigits(n); }
  }

  /** `parseInt` reads back the string of every Number, `NaN` included. */
  lemma NumberToStringRoundTrip(x: Option<int>)
    ensures ParseInt(NumberToString(x)) == x
  {
    match x
    case None =>
      var s := "NaN";
      assert TrimStart(s) == s;
      assert DigitPrefixLength(s, 10) == 0;
    case Some(n) =>
      IntToStringRoundTrip(n);
  }

  /** `parseInt` gives a number only for a string that holds a decimal digit; otherwise `NaN`. */
  lemma ParseIntNeedsDigit(s: string)
    ensures ParseInt(s).Some? ==> exists k :: 0 <= k < |s| && IsDecimalDigit(s[k])
  {
    var t := TrimStart(s);
    TrimStartSuffix(s);
    if ParseSigned(t).Some? {
      var u := if t != [] && (t[0] == '-' || t[0] == '+') then t[1..] else t;
      var o := |s| - |u|;
      assert u == s[o..];
      assert ParseMagnitude(u).Some?;
      if |u| >= 2 && u[0] == '0' && (u[1] == 'x' || u[1] == 'X') {
        assert IsDecimalDigit(s[o]);
      } else {
        assert DigitPrefixLength(u, 10) > 0;
        assert IsDecimalDigit(s[o]);
      }
    }
  }
}
