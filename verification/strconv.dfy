// Decimal conversion between machine integers and text, as the standard `strconv`
// package does it for `Atoi` and `Itoa` on a 64-bit platform.

module Strconv {
  import opened Wrappers
  import opened Bytes

  datatype NumError = ErrSyntax | ErrRange

  predicate IsDigit(c: char)
  {
    '0' <= c <= '9'
  }

  predicate AllDigits(ds: string)
  {
    forall i :: 0 <= i < |ds| ==> IsDigit(ds[i])
  }

  /** The value of a string of decimal digits, most significant first. */
  function DecimalValue(ds: string): nat
    requires AllDigits(ds)
  {
    if |ds| == 0 then 0 else 10 * DecimalValue(ds[..|ds| - 1]) + ((ds[|ds| - 1] as int) - ('0' as int))
  }

  /** The text after an optional leading sign. */
  function Unsigned(s: string): string
  {
    if |s| > 0 && (s[0] == '-' || s[0] == '+') then s[1..] else s
  }

  /** An optional '+' or '-' followed by at least one decimal digit, and nothing else. */
  predicate IsDecimalLiteral(s: string)
  {
    |Unsigned(s)| > 0 && AllDigits(Unsigned(s))
  }

  /** The value a decimal literal writes. */
  function LiteralValue(s: string): int
    requires IsDecimalLiteral(s)
  {
    if s[0] == '-' then 0 - DecimalValue(Unsigned(s)) else DecimalValue(Unsigned(s))
  }

  /** The digits `s` starts with, up to its first other character. */
  function LeadingDigits(s: string): (ds: string)
    ensures AllDigits(ds) && ds <= s
    ensures |ds| < |s| ==> !IsDigit(s[|ds|])
  {
    if |s| == 0 || !IsDigit(s[0]) then [] else [s[0]] + LeadingDigits(s[1..])
  }

  /**
   * Text to a signed 64-bit integer, read the way Go's `ParseUint` reads it: the
   * digits are scanned left to right and a value past 2^64 - 1 is a range error at
   * once, before any later character is looked at; otherwise a missing digit or a
   * character that is not a digit is a syntax error, and a value outside the signed
   * 64-bit range is a range error.
   */
  function Atoi(s: string): (r: Result<int, NumError>)
    ensures r.Success? <==> IsDecimalLiteral(s) && -TwoTo63 <= LiteralValue(s) < TwoTo63
    ensures r.Success? ==> r.value == LiteralValue(s)
    ensures r == Failure(ErrSyntax) ==> !IsDecimalLiteral(s)
    ensures !IsDecimalLiteral(s) && DecimalValue(LeadingDigits(Unsigned(s))) < TwoTo64 ==> r == Failure(ErrSyntax)
    ensures DecimalValue(LeadingDigits(Unsigned(s))) >= TwoTo64 ==> r == Failure(ErrRange)
  {
    var digits := Unsigned(s);
    var lead := LeadingDigits(digits);
    if |digits| == 0 then Failure(ErrSyntax)
    else if DecimalValue(lead) >= TwoTo64 then
      assert AllDigits(digits) ==> lead == digits;
      Failure(ErrRange)
    else if |lead| < |digits| then Failure(ErrSyntax)
    else
      assert lead == digits;
      var v := LiteralValue(s);
      if v < -TwoTo63 || v >= TwoTo63 then Failure(ErrRange) else Success(v)
  }

  /** Digits followed by anything start with those digits. */
  lemma {:induction false} LeadingDigitsAppend(ds: string, rest: string)
    requires AllDigits(ds)
    ensures LeadingDigits(ds + rest) == ds + LeadingDigits(rest)
  {
    if ds != [] {
      assert (ds + rest)[0] == ds[0] && (ds + rest)[1..] == ds[1..] + rest;
      LeadingDigitsAppend(ds[1..], rest);
    } else {
      assert ds + rest == rest;
    }
  }

  /** More digits never read as a smaller number. */
  lemma {:induction false} DecimalValueGrows(ds: string, more: string)
    requires AllDigits(ds + more)
    ensures AllDigits(ds) && DecimalValue(ds + more) >= DecimalValue(ds)
    decreases |more|
  {
    assert forall i | 0 <= i < |ds| :: (ds + more)[i] == ds[i];
    if more != [] {
      var shorter := ds + more[..|more| - 1];
      assert (ds + more)[..|ds + more| - 1] == shorter;
      assert shorter == ds + more[..|more| - 1];
      assert forall i | 0 <= i < |shorter| :: shorter[i] == (ds + more)[i];
      DecimalValueGrows(ds, more[..|more| - 1]);
    } else {
      assert ds + more == ds;
    }
  }

  /**
   * Digits whose value is past 2^64 - 1 make a range error whatever sign comes
   * before them and whatever follows them: the scan stops at the overflowing digit,
   * so "99999999999999999999x" and "-99999999999999999999x" are out of range rather
   * than malformed.
   */
  lemma RangeErrorBeforeSyntaxError(sign: string, ds: string, rest: string)
    requires sign == "" || sign == "-" || sign == "+"
    requires |ds| > 0 && AllDigits(ds) && DecimalValue(ds) >= TwoTo64
    ensures Atoi(sign + ds + rest) == Failure(ErrRange)
  {
    SignedLeadingDigits(sign, ds, rest);
    DecimalValueGrows(ds, LeadingDigits(rest));
  }

  /** After an optional sign, digits followed by anything lead with those digits. */
  lemma SignedLeadingDigits(sign: string, ds: string, rest: string)
    requires sign == "" || sign == "-" || sign == "+"
    requires |ds| > 0 && AllDigits(ds)
    ensures LeadingDigits(Unsigned(sign + ds + rest)) == ds + LeadingDigits(rest)
  {
    var digits := ds + rest;
    assert digits[0] == ds[0];
    assert sign + ds + rest == sign + digits;
    UnsignedAfterSign(sign, digits);
    LeadingDigitsAppend(ds, rest);
  }

  /** A sign in front of text that starts with a digit is what `Unsigned` strips. */
  lemma UnsignedAfterSign(sign: string, digits: string)
    requires sign == "" || sign == "-" || sign == "+"
    requires |digits| > 0 && IsDigit(digits[0])
    ensures Unsigned(sign + digits) == digits
  {
    if sign == "" {
      assert sign + digits == digits;
    } else {
      assert (sign + digits)[0] == sign[0] && (sign + digits)[1..] == digits;
    }
  }

  function DigitChar(d: nat): (c: char)
    requires d < 10
    ensures IsDigit(c) && (c as int) - ('0' as int) == d
  {
    (('0' as int) + d) as char
  }

  /** The shortest decimal digits of a natural number. */
  function NatDigits(n: nat): (ds: string)
    ensures |ds| >= 1 && AllDigits(ds)
    ensures ds[0] != '-' && ds[0] != '+'
  {
    if n < 10 then [DigitChar(n)] else NatDigits(n / 10) + [DigitChar(n % 10)]
  }

  /** Integer to text: the decimal digits, after a '-' when negative. */
  function Itoa(n: int): (s: string)
    ensures IsDecimalLiteral(s)
  {
    if n < 0 then "-" + NatDigits(-n) else NatDigits(n)
  }

  lemma {:induction false} DecimalValueOfNatDigits(n: nat)
    ensures DecimalValue(NatDigits(n)) == n
  {
    if n >= 10 {
      var ds := NatDigits(n);
      assert ds[..|ds| - 1] == NatDigits(n / 10);
      DecimalValueOfNatDigits(n / 10);
    }
  }

  /** Reading back the text of a 64-bit integer gives that integer. */
  lemma AtoiItoa(n: int)
    requires -TwoTo63 <= n < TwoTo63
    ensures Atoi(Itoa(n)) == Success(n)
  {
    var s := Itoa(n);
    if n < 0 {
      DecimalValueOfNatDigits(-n);
      assert s[0] == '-' && Unsigned(s) == NatDigits(-n);
      assert DecimalValue(Unsigned(s)) == -n;
    } else {
      DecimalValueOfNatDigits(n);
      assert s[0] != '-' && Unsigned(s) == NatDigits(n);
      assert DecimalValue(Unsigned(s)) == n;
    }
    assert LiteralValue(s) == n;
  }
}
