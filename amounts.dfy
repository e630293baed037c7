/** Amounts. The source reads an amount with the host's floating-point
    parser, rounds it to two decimals and derives integer cents. This module
    replaces that with an exact decimal grammar (`digits[.digits]`), exact
    rational values, and one half-up rounding to cents; it also gives the
    two-decimal text that is stored in a record. */
module Amounts {
  import opened Types

  type Digit = d: int | 0 <= d < 10

  /** A decimal amount: an integral part and the digits after the point. */
  datatype Decimal = Decimal(whole: nat, frac: seq<Digit>)

  predicate IsDigitChar(c: char) { '0' <= c <= '9' }

  predicate AllDigits(s: string) { forall i :: 0 <= i < |s| ==> IsDigitChar(s[i]) }

  function CharToDigit(c: char): Digit
    requires IsDigitChar(c)
  {
    (c as int) - ('0' as int)
  }

  function DigitToChar(d: Digit): (c: char)
    ensures IsDigitChar(c) && CharToDigit(c) == d
  {
    (('0' as int) + d) as char
  }

  /** The number a string of decimal digits denotes. */
  function DigitsValue(s: string): nat
    requires AllDigits(s)
  {
    if s == [] then 0 else 10 * DigitsValue(s[..|s| - 1]) + CharToDigit(s[|s| - 1])
  }

  /** The digits of a string of decimal digits, one by one. */
  function DigitList(s: string): (ds: seq<Digit>)
    requires AllDigits(s)
    ensures |ds| == |s|
    ensures forall i :: 0 <= i < |s| ==> ds[i] == CharToDigit(s[i])
  {
    if s == [] then [] else [CharToDigit(s[0])] + DigitList(s[1..])
  }

  /** The decimal text of a natural number, without leading zeros. */
  function NatToString(n: nat): (s: string)
    ensures |s| > 0 && AllDigits(s)
    ensures n == 0 ==> s == "0"
    ensures n > 0 ==> s[0] != '0'
    decreases n
  {
    if n < 10 then [DigitToChar(n)] else NatToString(n / 10) + [DigitToChar(n % 10)]
  }

  /** Number of leading digit characters of s. */
  function LeadingDigits(s: string): (n: nat)
    ensures n <= |s| && AllDigits(s[..n])
    ensures n < |s| ==> !IsDigitChar(s[n])
  {
    if s == [] || !IsDigitChar(s[0]) then 0
    else
      var k := LeadingDigits(s[1..]);
      assert s[..k + 1] == [s[0]] + s[1..][..k];
      k + 1
  }

  /** The amount grammar: optional digits, optionally a point followed by
      digits, with at least one digit in all. None for anything else.
      ParseAccepted and ParsePointed give what an accepted text denotes. */
  function ParseAmount(s: string): (r: Option<Decimal>)
    ensures AllDigits(s) && s != [] ==> r == Some(Decimal(DigitsValue(s), []))
    ensures r.Some? ==> s != [] && forall i :: 0 <= i < |s| ==> IsDigitChar(s[i]) || s[i] == '.'
    ensures r.Some? ==> |r.value.frac| < |s|
  {
    var n := LeadingDigits(s);
    if n == |s| then
      assert s[..n] == s;
      if n == 0 then None else Some(Decimal(DigitsValue(s), []))
    else if s[n] == '.' && AllDigits(s[n + 1..]) && (n > 0 || n + 1 < |s|) then
      assert forall i :: n < i < |s| ==> s[i] == s[n + 1..][i - n - 1];
      Some(Decimal(DigitsValue(s[..n]), DigitList(s[n + 1..])))
    else None
  }

  /** The value of the digits after the point. */
  function FracValue(ds: seq<Digit>): (v: real)
    ensures 0.0 <= v < 1.0
  {
    if ds == [] then 0.0 else (ds[0] as real + FracValue(ds[1..])) / 10.0
  }

  /** The exact value of a decimal amount. */
  function Value(d: Decimal): (v: real)
    ensures v >= d.whole as real
    ensures v < d.whole as real + 1.0
  {
    d.whole as real + FracValue(d.frac)
  }

  /** Cents of an amount: the value times 100, rounded half up. */
  function Cents(d: Decimal): (c: int)
    ensures c >= 0
    ensures (c as real) - 0.5 <= Value(d) * 100.0 < (c as real) + 0.5
  {
    (Value(d) * 100.0 + 0.5).Floor
  }

  /** The two-decimal text of an amount held in cents: a whole part
      without leading zeros, a point and two digits. */
  function FormatCents(c: nat): (s: string)
    ensures |s| >= 4 && s[|s| - 3] == '.'
    ensures AllDigits(s[..|s| - 3]) && AllDigits(s[|s| - 2..])
    ensures |s| == 4 || s[0] != '0'
  {
    var w := NatToString(c / 100);
    var s := w + "." + [DigitToChar((c / 10) % 10), DigitToChar(c % 10)];
    assert s[..|s| - 3] == w;
    s
  }

  lemma {:induction false} DigitsValueOfNatToString(n: nat)
    ensures DigitsValue(NatToString(n)) == n
    decreases n
  {
    if n >= 10 {
      var s := NatToString(n);
      var p := NatToString(n / 10);
      assert s == p + [DigitToChar(n % 10)];
      assert s[..|s| - 1] == p;
      DigitsValueOfNatToString(n / 10);
    }
  }

  lemma {:induction false} LeadingDigitsOfDigitsThenPoint(w: string, rest: string)
    requires AllDigits(w)
    requires |rest| > 0 && rest[0] == '.'
    ensures LeadingDigits(w + rest) == |w|
    decreases |w|
  {
    if w != [] {
      assert (w + rest)[1..] == w[1..] + rest;
      LeadingDigitsOfDigitsThenPoint(w[1..], rest);
    }
  }

  /** An accepted text is either all digits, denoting that whole number,
      or digits, one point and digits, denoting the whole part and the
      digits after the point; so "1.2.3" is refused. */
  lemma ParseAccepted(s: string)
    requires ParseAmount(s).Some?
    ensures || (AllDigits(s) && ParseAmount(s).value == Decimal(DigitsValue(s), []))
            || (exists k: nat :: k < |s| && s[k] == '.' && AllDigits(s[..k]) && AllDigits(s[k + 1..])
                 && ParseAmount(s).value == Decimal(DigitsValue(s[..k]), DigitList(s[k + 1..])))
  {
    var n := LeadingDigits(s);
    if n == |s| {
      assert s[..n] == s;
    }
  }

  /** Conversely, digits, a point and digits, with at least one digit in all, are
      accepted and denote the whole part and the digits after the point. */
  lemma ParsePointed(w: string, f: string)
    requires AllDigits(w) && AllDigits(f) && |w| + |f| > 0
    ensures ParseAmount(w + "." + f) == Some(Decimal(DigitsValue(w), DigitList(f)))
  {
    var s := w + "." + f;
    assert s == w + ("." + f);
    LeadingDigitsOfDigitsThenPoint(w, "." + f);
    assert s[..|w|] == w;
    assert s[|w| + 1..] == f;
  }

  /** The two-decimal text parses to the whole part and the two digits. */
  lemma ParseFormatted(c: nat)
    ensures ParseAmount(FormatCents(c)) == Some(Decimal(c / 100, [(c / 10) % 10, c % 10]))
  {
    var q, a, b := c / 100, (c / 10) % 10, c % 10;
    var f := [DigitToChar(a), DigitToChar(b)];
    assert FormatCents(c) == NatToString(q) + "." + f;
    ParsePointed(NatToString(q), f);
    assert DigitList(f) == [a, b];
    DigitsValueOfNatToString(q);
  }

  /** Any text of digits, a point and two digits (leading zeros allowed)
      gives exactly the cents it spells. */
  lemma TwoDecimalCents(w: string, a: Digit, b: Digit)
    requires AllDigits(w)
    ensures ParseAmount(w + "." + [DigitToChar(a), DigitToChar(b)]).Some?
    ensures Cents(ParseAmount(w + "." + [DigitToChar(a), DigitToChar(b)]).value) == 100 * DigitsValue(w) + 10 * a + b
  {
    var f := [DigitToChar(a), DigitToChar(b)];
    ParsePointed(w, f);
    assert DigitList(f) == [a, b];
    CentsOfTwoDigits(DigitsValue(w), a, b);
  }

  /** A whole part and two digits after the point are exact cents. */
  lemma CentsOfTwoDigits(q: nat, a: Digit, b: Digit)
    ensures Cents(Decimal(q, [a, b])) == 100 * q + 10 * a + b
  {
    assert FracValue([b]) == b as real / 10.0;
    assert FracValue([a, b]) == (a as real + b as real / 10.0) / 10.0;
    assert Value(Decimal(q, [a, b])) * 100.0 == (100 * q + 10 * a + b) as real;
  }

  /** A number of cents is its whole part and its two last digits. */
  lemma CentsDigits(c: nat)
    ensures c == 100 * (c / 100) + 10 * ((c / 10) % 10) + c % 10
  {
    assert c / 10 == 10 * (c / 100) + (c / 10) % 10;
  }

  /** The stored two-decimal text parses back to the same number of cents. */
  lemma FormatCentsRoundTrip(c: nat)
    ensures ParseAmount(FormatCents(c)) == Some(Decimal(c / 100, [(c / 10) % 10, c % 10]))
    ensures Cents(ParseAmount(FormatCents(c)).value) == c
  {
    ParseFormatted(c);
    CentsOfTwoDigits(c / 100, (c / 10) % 10, c % 10);
    CentsDigits(c);
  }
}
