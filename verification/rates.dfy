/** Defect rates over exact integers. A rate is a number of hundredths of a
    percent: `faults / inspected * 100` rounded to two decimals, half up,
    becomes the natural number 100 times that value (5.00% is 500). */
module Rates {

  /** The rate of `n` faults over `d` inspected units: 0 without a
      denominator, otherwise the hundredth of a percent nearest to
      `n / d * 100`, ties rounded up. */
  function Rate(n: nat, d: nat): (r: nat)
    ensures d == 0 ==> r == 0
    ensures d > 0 ==> 2 * (r * d) <= 20000 * n + d < 2 * (r * d) + 2 * d
  {
    if d == 0 then 0 else (20000 * n + d) / (2 * d)
  }

  /** Scaling by a positive factor keeps the order both ways. */
  lemma ScaleOrder(a: nat, b: nat, d: nat)
    requires d > 0
    ensures a <= b <==> a * d <= b * d
  {
    if a <= b {
      assert b * d - a * d == (b - a) * d;
    } else {
      assert a * d - b * d == (a - b) * d;
    }
  }

  /** The bracket in `Rate`'s contract pins the result down: no other
      hundredth is as close to the exact value. */
  lemma RateIsUnique(n: nat, d: nat, r': nat)
    requires d > 0
    requires 2 * (r' * d) <= 20000 * n + d < 2 * (r' * d) + 2 * d
    ensures r' == Rate(n, d)
  {
    var r := Rate(n, d);
    ScaleOrder(r', r + 1, d);
    ScaleOrder(r, r' + 1, d);
    assert (r + 1) * d == r * d + d && (r' + 1) * d == r' * d + d;
  }

  /** No more faults than inspected units gives at most 100.00%. */
  lemma RateAtMostHundredPercent(n: nat, d: nat)
    requires n <= d
    ensures Rate(n, d) <= 10000
  {
    if d > 0 {
      var r := Rate(n, d);
      ScaleOrder(n, d, 20000);
      assert 2 * (r * d) <= 20000 * d + d;
      ScaleOrder(10001, r, d);
      assert 10001 * d == 10000 * d + d;
    }
  }

  /** More faults over the same denominator never lower the rate. */
  lemma RateMonotone(n: nat, n': nat, d: nat)
    requires n <= n'
    ensures Rate(n, d) <= Rate(n', d)
  {
    if d > 0 {
      var r, r' := Rate(n, d), Rate(n', d);
      ScaleOrder(r, r', d);
      assert (r' + 1) * d == r' * d + d;
      ScaleOrder(r, r' + 1, d);
    }
  }

  // ---------------------------------------------------------------------------
  // Two-decimal text, as `toFixed(2)` prints it
  // ---------------------------------------------------------------------------

  function DigitChar(v: nat): char
    requires v < 10
  {
    "0123456789"[v]
  }

  predicate IsDigit(c: char) {
    '0' <= c <= '9'
  }

  function DigitValue(c: char): nat
    requires IsDigit(c)
  {
    (c as int - '0' as int) as nat
  }

  /** The decimal numeral of `n`, without leading zeros. */
  function Decimal(n: nat): (s: string)
    ensures |s| > 0
    ensures forall i :: 0 <= i < |s| ==> IsDigit(s[i])
    ensures |s| > 1 ==> s[0] != '0'
  {
    if n < 10 then [DigitChar(n)] else Decimal(n / 10) + [DigitChar(n % 10)]
  }

  /** The value of a string of decimal digits. */
  function ParseDecimal(s: string): nat
    requires forall i :: 0 <= i < |s| ==> IsDigit(s[i])
  {
    if |s| == 0 then 0 else 10 * ParseDecimal(s[..|s| - 1]) + DigitValue(s[|s| - 1])
  }

  lemma {:induction false} DecimalRoundTrip(n: nat)
    ensures ParseDecimal(Decimal(n)) == n
  {
    if n >= 10 {
      DecimalRoundTrip(n / 10);
      var s := Decimal(n);
      assert s[..|s| - 1] == Decimal(n / 10);
      DigitRoundTrip(n % 10);
    } else {
      DigitRoundTrip(n);
      assert Decimal(n)[..0] == [];
    }
  }

  /** A rate printed with exactly two decimals. */
  function Fixed2(h: nat): (s: string)
    ensures |s| >= 4 && s[|s| - 3] == '.'
    ensures forall i :: 0 <= i < |s| && i != |s| - 3 ==> IsDigit(s[i])
    ensures s[0] == '0' ==> |s| == 4
  {
    Decimal(h / 100) + "." + [DigitChar(h / 10 % 10), DigitChar(h % 10)]
  }

  /** Reads back the text `Fixed2` prints. */
  function ParseFixed2(s: string): nat
    requires |s| >= 4 && s[|s| - 3] == '.'
    requires forall i :: 0 <= i < |s| && i != |s| - 3 ==> IsDigit(s[i])
  {
    100 * ParseDecimal(s[..|s| - 3]) + 10 * DigitValue(s[|s| - 2]) + DigitValue(s[|s| - 1])
  }

  /** The printed rate denotes exactly the computed rate. */
  lemma Fixed2RoundTrip(h: nat)
    ensures ParseFixed2(Fixed2(h)) == h
  {
    var s := Fixed2(h);
    var a, b, c := h / 100, h / 10 % 10, h % 10;
    assert s == Decimal(a) + "." + [DigitChar(b), DigitChar(c)];
    assert s[..|s| - 3] == Decimal(a);
    DecimalRoundTrip(a);
    DigitRoundTrip(b);
    DigitRoundTrip(c);
    PlaceValues(h);
  }

  lemma DigitRoundTrip(v: nat)
    requires v < 10
    ensures DigitValue(DigitChar(v)) == v
  {
  }

  lemma PlaceValues(h: nat)
    ensures 100 * (h / 100) + 10 * (h / 10 % 10) + h % 10 == h
  {
    var t := h / 10;
    assert h == 10 * t + h % 10;
    assert t == 10 * (t / 10) + t % 10;
    assert t / 10 == h / 100;
  }

  /** The text the dashboard shows for the overall defect rate: "0.00"
      when nothing was inspected, otherwise the two-decimal rate. */
  function DefectRateText(totalFaults: nat, totalInspected: nat): (s: string)
    ensures totalInspected == 0 ==> s == "0.00"
    ensures |s| >= 4 && s[|s| - 3] == '.'
    ensures forall i :: 0 <= i < |s| && i != |s| - 3 ==> IsDigit(s[i])
    ensures s[0] == '0' ==> |s| == 4
    ensures ParseFixed2(s) == Rate(totalFaults, totalInspected)
  {
    Fixed2RoundTrip(Rate(totalFaults, totalInspected));
    if totalInspected > 0 then Fixed2(Rate(totalFaults, totalInspected)) else "0.00"
  }

  /** The worked figures: 5 faults in 100 is 5.00%, 3 in 100 is 3.00%, 2 in
      100 is 2.00%, and 4 in 130 is 3.08%. */
  lemma RateExamples()
    ensures Rate(5, 100) == 500 && Rate(3, 100) == 300 && Rate(2, 100) == 200
    ensures Rate(4, 130) == 308
  {
  }
}
