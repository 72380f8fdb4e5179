/**
 * The text "<i>+" that names charge state i: the key of its series in the
 * API response, the name of its line renderer and the label of its legend row.
 * JavaScript builds it as `i + '+'`, which for every index the page's loops
 * reach is its decimal digits without leading zeros followed by a plus sign.
 */
module Labels {
  import opened Wrappers

  predicate IsDigit(c: char) {
    '0' <= c <= '9'
  }

  predicate AllDigits(s: string) {
    forall k :: 0 <= k < |s| ==> IsDigit(s[k])
  }

  function DigitChar(d: nat): (c: char)
    requires d < 10
    ensures IsDigit(c)
  {
    ('0' as int + d) as char
  }

  function DigitValue(c: char): (d: nat)
    requires IsDigit(c)
    ensures d < 10 && DigitChar(d) == c
  {
    c as int - '0' as int
  }

  /** The decimal numeral of n, most significant digit first. */
  function Decimal(n: nat): (s: string)
    ensures |s| > 0 && AllDigits(s)
    ensures n < 10 <==> |s| == 1
    ensures s[0] == '0' ==> n == 0
    decreases n
  {
    if n < 10 then [DigitChar(n)] else Decimal(n / 10) + [DigitChar(n % 10)]
  }

  /** The value of a string of decimal digits (the empty string reads as 0). */
  function ParseDecimal(s: string): nat
    requires AllDigits(s)
    decreases |s|
  {
    if s == [] then 0 else 10 * ParseDecimal(s[..|s| - 1]) + DigitValue(s[|s| - 1])
  }

  /** `i + '+'` for a charge-state index i. */
  function Label(i: nat): string {
    Decimal(i) + "+"
  }

  /** A numeral without leading zeros: one or more digits, and a leading '0' only in "0" itself. */
  predicate Canonical(s: string) {
    |s| > 0 && AllDigits(s) && (s[0] == '0' ==> |s| == 1)
  }

  /** A label is one or more decimal digits, with no leading zero, followed by '+'. */
  lemma LabelShape(i: nat)
    ensures var s := Label(i); |s| >= 2 && s[|s| - 1] == '+' && Canonical(s[..|s| - 1])
  {
    var s := Label(i);
    assert s[..|s| - 1] == Decimal(i);
  }

  /** Reads a label back: one or more digits followed by '+'. */
  function ParseLabel(s: string): Option<nat> {
    if |s| >= 2 && s[|s| - 1] == '+' && AllDigits(s[..|s| - 1])
    then Some(ParseDecimal(s[..|s| - 1]))
    else None
  }

  lemma {:induction false} DecimalRoundTrip(n: nat)
    ensures ParseDecimal(Decimal(n)) == n
    decreases n
  {
    if n >= 10 {
      var s := Decimal(n);
      assert s[..|s| - 1] == Decimal(n / 10);
      DecimalRoundTrip(n / 10);
    }
  }

  /**
   * Decimal(n) is the only numeral without leading zeros whose value is n, so
   * Label(i) is exactly the text JavaScript writes for `i + '+'`.
   */
  lemma {:induction false} CanonicalIsDecimal(s: string)
    requires Canonical(s)
    ensures Decimal(ParseDecimal(s)) == s
    decreases |s|
  {
    var t, c := s[..|s| - 1], s[|s| - 1];
    assert s == t + [c];
    if |s| > 1 {
      assert t[0] == s[0];
      CanonicalIsDecimal(t);
      var n := ParseDecimal(s);
      assert ParseDecimal(t) != 0;
      assert n / 10 == ParseDecimal(t) && n % 10 == DigitValue(c);
    }
  }

  /** Every label reads back as the index it was made from. */
  lemma LabelRoundTrip(i: nat)
    ensures ParseLabel(Label(i)) == Some(i)
  {
    var s := Label(i);
    assert s[..|s| - 1] == Decimal(i);
    DecimalRoundTrip(i);
  }

  /** Distinct charge states have distinct labels, so no two share a response field. */
  lemma LabelInjective(i: nat, j: nat)
    ensures Label(i) == Label(j) <==> i == j
  {
    LabelRoundTrip(i);
    LabelRoundTrip(j);
  }
}
