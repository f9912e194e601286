/** Decimal text of integers as the store keeps them: `Number.prototype.toString`
    on integer values and `parseInt(text, 10)`. */
module Decimal {
  import opened Wrappers
  import opened Chars

  function DigitChar(d: nat): (c: char)
    requires d < 10
    ensures IsDigit(c)
  {
    ['0', '1', '2', '3', '4', '5', '6', '7', '8', '9'][d]
  }

  /** The value of a digit character (0 for any other character). */
  function DigitValue(c: char): (d: nat)
    ensures d < 10 && (IsDigit(c) ==> DigitChar(d) == c)
  {
    if IsDigit(c) then (c as int - '0' as int) as nat else 0
  }

  predicate AllDigits(s: string) {
    forall i :: 0 <= i < |s| ==> IsDigit(s[i])
  }

  /** Decimal digits of a natural number, most significant first, without
      leading zeros. */
  function NatToDecimal(n: nat): (s: string)
    ensures |s| > 0 && AllDigits(s)
    ensures s[0] == '0' ==> n == 0
    decreases n
  {
    if n < 10 then [DigitChar(n)] else NatToDecimal(n / 10) + [DigitChar(n % 10)]
  }

  /** `n.toString()` for an integer-valued number. */
  function IntToString(n: int): (s: string)
    ensures |s| > 0
  {
    if n < 0 then "-" + NatToDecimal(-n) else NatToDecimal(n)
  }

  /** Value of a string of decimal digits, most significant first. */
  function DigitsValue(s: string): nat {
    if s == [] then 0 else DigitsValue(s[..|s| - 1]) * 10 + DigitValue(s[|s| - 1])
  }

  /** The longest prefix of `s` made of decimal digits. */
  function DigitPrefix(s: string): string {
    if s == [] || !IsDigit(s[0]) then [] else [s[0]] + DigitPrefix(s[1..])
  }

  /** `DigitPrefix` is a prefix of `s`, all digits, and stops only at a non-digit. */
  lemma {:induction false} DigitPrefixIsLongest(s: string)
    ensures var p := DigitPrefix(s);
      |p| <= |s| && p == s[..|p|] && AllDigits(p) && (|p| < |s| ==> !IsDigit(s[|p|]))
  {
    if s != [] && IsDigit(s[0]) {
      DigitPrefixIsLongest(s[1..]);
      var p := DigitPrefix(s);
      var rest := DigitPrefix(s[1..]);
      assert p == [s[0]] + rest;
      assert s == [s[0]] + s[1..];
    }
  }

  /** `s` with its leading white space and line terminators removed. */
  function TrimStart(s: string): string {
    if s != [] && IsWhitespace(s[0]) then TrimStart(s[1..]) else s
  }

  /** `TrimStart` drops the longest prefix made only of white space: the part
      dropped is all white space, and what is left does not start with it. */
  lemma {:induction false} TrimStartDropsSpace(s: string)
    ensures var t := TrimStart(s);
      && |t| <= |s| && t == s[|s| - |t|..] && (t != [] ==> !IsWhitespace(t[0]))
      && (forall k | 0 <= k < |s| - |t| :: IsWhitespace(s[k]))
  {
    if s != [] && IsWhitespace(s[0]) {
      TrimStartDropsSpace(s[1..]);
      assert s[1..][|s| - 1 - |TrimStart(s)|..] == s[|s| - |TrimStart(s)|..];
      forall k | 1 <= k < |s| - |TrimStart(s)|
        ensures IsWhitespace(s[k])
      {
        assert s[k] == s[1..][k - 1];
      }
    }
  }

  /** The value of the digits at the head of `s`, `None` when there are none. */
  function LeadingDigitsValue(s: string): Option<nat> {
    var digits := DigitPrefix(s);
    if digits == [] then None else Some(DigitsValue(digits))
  }

  /** `parseInt(s, 10)`: skip leading white space, read an optional sign and
      the longest run of decimal digits after it; `None` stands for `NaN`
      (no digits). A negative zero is read as 0. */
  function ParseInt(s: string): Option<int> {
    ParseSigned(TrimStart(s))
  }

  /** The sign-and-digits part of `parseInt`, once white space is skipped. */
  function ParseSigned(t: string): Option<int> {
    if t != [] && t[0] == '-' then Negated(LeadingDigitsValue(t[1..]))
    else if t != [] && t[0] == '+' then AsInt(LeadingDigitsValue(t[1..]))
    else AsInt(LeadingDigitsValue(t))
  }

  function Negated(v: Option<nat>): Option<int> {
    match v
    case None => None
    case Some(n) => Some(-(n as int))
  }

  function AsInt(v: Option<nat>): Option<int> {
    match v
    case None => None
    case Some(n) => Some(n)
  }

  lemma {:induction false} DigitsValueOfNatToDecimal(n: nat)
    ensures DigitsValue(NatToDecimal(n)) == n
    decreases n
  {
    var s := NatToDecimal(n);
    if n >= 10 {
      var p := NatToDecimal(n / 10);
      assert s == p + [DigitChar(n % 10)];
      assert s[..|s| - 1] == p;
      DigitsValueOfNatToDecimal(n / 10);
    }
  }

  lemma {:induction false} DigitPrefixOfDigits(s: string)
    requires AllDigits(s)
    ensures DigitPrefix(s) == s
  {
    if s != [] {
      DigitPrefixOfDigits(s[1..]);
    }
  }

  lemma TrimStartKeeps(s: string)
    requires s != [] && !IsWhitespace(s[0])
    ensures TrimStart(s) == s
  {
  }

  /** The digits at the head of a run of digits are the whole run. */
  lemma LeadingDigitsOfDigits(d: string)
    requires d != [] && AllDigits(d)
    ensures LeadingDigitsValue(d) == Some(DigitsValue(d))
  {
    DigitPrefixOfDigits(d);
  }

  /** `parseInt` reads an unsigned run of digits in full. */
  lemma ParseIntOfDigits(d: string)
    requires d != [] && AllDigits(d)
    ensures ParseInt(d) == Some(DigitsValue(d))
  {
    assert IsDigit(d[0]);
    TrimStartKeeps(d);
    LeadingDigitsOfDigits(d);
  }

  /** `parseInt` reads a minus sign followed by a run of digits in full. */
  lemma ParseSignedNegative(d: string)
    requires d != [] && AllDigits(d)
    ensures ParseSigned("-" + d) == Some(-(DigitsValue(d) as int))
  {
    var t := "-" + d;
    assert t != [] && t[0] == '-' && t[1..] == d;
    assert ParseSigned(t) == Negated(LeadingDigitsValue(d));
    LeadingDigitsOfDigits(d);
  }

  lemma ParseIntOfNegatedDigits(d: string)
    requires d != [] && AllDigits(d)
    ensures ParseInt("-" + d) == Some(-(DigitsValue(d) as int))
  {
    var s := "-" + d;
    assert s[0] == '-';
    TrimStartKeeps(s);
    ParseSignedNegative(d);
  }

  /** Text `toString` produces for an integer: digits, after a minus sign
      when negative. */
  predicate IsDecimal(s: string) {
    (s != [] && AllDigits(s)) || (|s| > 1 && s[0] == '-' && AllDigits(s[1..]))
  }

  /** The integer a decimal text denotes. */
  function DecimalValue(s: string): int
    requires IsDecimal(s)
  {
    if s[0] == '-' then -(DigitsValue(s[1..]) as int) else DigitsValue(s)
  }

  /** `parseInt` reads decimal text as the integer it denotes. */
  lemma ParseIntOfDecimal(s: string)
    requires IsDecimal(s)
    ensures ParseInt(s) == Some(DecimalValue(s))
  {
    if s[0] == '-' {
      var d := s[1..];
      assert s == "-" + d;
      ParseIntOfNegatedDigits(d);
    } else {
      ParseIntOfDigits(s);
    }
  }

  /** `toString` writes decimal text denoting the number written. */
  lemma DecimalOfIntToString(n: int)
    ensures IsDecimal(IntToString(n)) && DecimalValue(IntToString(n)) == n
  {
    var m: nat := if n < 0 then -n else n;
    DigitsValueOfNatToDecimal(m);
    if n < 0 {
      assert IntToString(n)[1..] == NatToDecimal(m);
    }
  }

  /** The decimal round trip the persisted counters and timestamps rely on:
      `parseInt(n.toString(), 10)` gives back `n`. */
  lemma ParseIntOfIntToString(n: int)
    ensures ParseInt(IntToString(n)) == Some(n)
  {
    DecimalOfIntToString(n);
    ParseIntOfDecimal(IntToString(n));
  }
}
