/**
 * Text helpers shared by the formatting members: decimal rendering of integers
 * (what a template literal `${n}` prints for a whole number), reading such a
 * rendering back, ASCII case mapping and JavaScript's `String.prototype.trim`.
 */
module Text {

  predicate IsDigit(c: char) {
    '0' <= c <= '9'
  }

  predicate AllDigits(s: string) {
    forall i :: 0 <= i < |s| ==> IsDigit(s[i])
  }

  function DigitChar(d: nat): (c: char)
    requires d < 10
    ensures IsDigit(c)
  {
    ['0', '1', '2', '3', '4', '5', '6', '7', '8', '9'][d]
  }

  function DigitValue(c: char): (d: nat)
    requires IsDigit(c)
    ensures d < 10
  {
    (c as int - '0' as int) as nat
  }

  lemma DigitRoundTrip(d: nat)
    requires d < 10
    ensures DigitValue(DigitChar(d)) == d
  {
  }

  /** Decimal digits of `n`, most significant first, without leading zeros. */
  function NatToString(n: nat): (s: string)
    ensures |s| >= 1 && AllDigits(s)
    ensures |s| > 1 ==> s[0] != '0'
  {
    if n < 10 then [DigitChar(n)] else NatToString(n / 10) + [DigitChar(n % 10)]
  }

  /** How JavaScript prints an integral number: a minus sign for negatives. */
  function IntToString(i: int): string {
    if i < 0 then "-" + NatToString(-i) else NatToString(i)
  }

  /** Reads a string of digits as a decimal number (the inverse of NatToString). */
  function ParseNat(s: string): nat
    requires AllDigits(s)
  {
    if s == [] then 0 else 10 * ParseNat(s[..|s| - 1]) + DigitValue(s[|s| - 1])
  }

  lemma {:induction false} ParseNatToString(n: nat)
    ensures ParseNat(NatToString(n)) == n
  {
    var s := NatToString(n);
    if n >= 10 {
      assert s[..|s| - 1] == NatToString(n / 10);
      ParseNatToString(n / 10);
      DigitRoundTrip(n % 10);
    } else {
      DigitRoundTrip(n);
    }
  }

  /** Splits off the longest prefix of decimal digits. */
  function SplitDigits(s: string): (r: (string, string))
    ensures AllDigits(r.0) && r.0 + r.1 == s
    ensures r.1 == [] || !IsDigit(r.1[0])
  {
    if s == [] || !IsDigit(s[0]) then ([], s)
    else
      var rest := SplitDigits(s[1..]);
      ([s[0]] + rest.0, rest.1)
  }

  /** A digit run followed by a non-digit (or nothing) is split exactly there. */
  lemma {:induction false} SplitDigitsAt(ds: string, rest: string)
    requires AllDigits(ds)
    requires rest == [] || !IsDigit(rest[0])
    ensures SplitDigits(ds + rest) == (ds, rest)
  {
    if ds != [] {
      assert IsDigit(ds[0]);
      var s := ds + rest;
      assert s[0] == ds[0] && s[1..] == ds[1..] + rest;
      assert [ds[0]] + ds[1..] == ds;
      SplitDigitsAt(ds[1..], rest);
    } else {
      assert ds + rest == rest;
    }
  }

  /** Reading the number at the head of `NatToString(n) + rest` gives back `n` and `rest`. */
  lemma ReadBackNat(n: nat, rest: string)
    requires rest == [] || !IsDigit(rest[0])
    ensures var r := SplitDigits(NatToString(n) + rest); ParseNat(r.0) == n && r.1 == rest
  {
    SplitDigitsAt(NatToString(n), rest);
    ParseNatToString(n);
  }

  /** Two numbers rendered in front of non-digit suffixes give equal strings only when both agree. */
  lemma NatPrefixInjective(a: nat, ra: string, b: nat, rb: string)
    requires ra == [] || !IsDigit(ra[0])
    requires rb == [] || !IsDigit(rb[0])
    requires NatToString(a) + ra == NatToString(b) + rb
    ensures a == b && ra == rb
  {
    ReadBackNat(a, ra);
    ReadBackNat(b, rb);
  }

  function ToLowerChar(c: char): (r: char)
    ensures !('A' <= r <= 'Z')
    ensures !('A' <= c <= 'Z') ==> r == c
  {
    if 'A' <= c <= 'Z' then (c as int + 32) as char else c
  }

  function ToUpperChar(c: char): (r: char)
    ensures !('a' <= r <= 'z')
    ensures !('a' <= c <= 'z') ==> r == c
  {
    if 'a' <= c <= 'z' then (c as int - 32) as char else c
  }

  /** `String.prototype.toLowerCase`, restricted to the Latin letters A-Z. */
  function ToLower(s: string): (r: string)
    ensures |r| == |s|
    ensures forall i :: 0 <= i < |s| ==> r[i] == ToLowerChar(s[i])
  {
    if s == [] then [] else [ToLowerChar(s[0])] + ToLower(s[1..])
  }

  /** The characters ECMAScript counts as white space or line terminators (what `trim` strips). */
  predicate IsJsWhiteSpace(c: char) {
    var k := c as int;
    (9 <= k <= 13) || k == 0x20 || k == 0xA0 || k == 0x1680 || (0x2000 <= k <= 0x200A)
    || k == 0x2028 || k == 0x2029 || k == 0x202F || k == 0x205F || k == 0x3000 || k == 0xFEFF
  }

  function TrimStart(s: string): (r: string)
    ensures r == [] || !IsJsWhiteSpace(r[0])
  {
    if s != [] && IsJsWhiteSpace(s[0]) then TrimStart(s[1..]) else s
  }

  function TrimEnd(s: string): (r: string)
    ensures r == [] || !IsJsWhiteSpace(r[|r| - 1])
  {
    if s != [] && IsJsWhiteSpace(s[|s| - 1]) then TrimEnd(s[..|s| - 1]) else s
  }

  /** `String.prototype.trim`. */
  function Trim(s: string): string {
    TrimEnd(TrimStart(s))
  }

  /** A trimmed string is empty exactly when every character of the original is white space. */
  lemma {:induction false} TrimEmptyIff(s: string)
    ensures Trim(s) == [] <==> forall i :: 0 <= i < |s| ==> IsJsWhiteSpace(s[i])
  {
    TrimStartEmptyIff(s);
    var t := TrimStart(s);
    if t != [] {
      TrimEndNonEmpty(t);
    }
  }

  lemma {:induction false} TrimStartEmptyIff(s: string)
    ensures TrimStart(s) == [] <==> forall i :: 0 <= i < |s| ==> IsJsWhiteSpace(s[i])
  {
    if s != [] && IsJsWhiteSpace(s[0]) {
      TrimStartEmptyIff(s[1..]);
      assert forall i :: 1 <= i < |s| ==> s[i] == s[1..][i - 1];
    }
  }

  lemma {:induction false} TrimEndNonEmpty(t: string)
    requires t != [] && !IsJsWhiteSpace(t[0])
    ensures TrimEnd(t) != []
  {
    if IsJsWhiteSpace(t[|t| - 1]) {
      assert |t| > 1;
      assert t[..|t| - 1][0] == t[0];
      TrimEndNonEmpty(t[..|t| - 1]);
    }
  }
}
