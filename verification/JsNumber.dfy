/** JavaScript's rounding functions on exact numbers. */
module JsNumber {

  /** `Math.round`: to the nearest integer, halves up. */
  function Round(x: real): int { (x + 0.5).Floor }

  /** `Math.ceil`. */
  function Ceil(x: real): (r: int)
    ensures r as real - 1.0 < x <= r as real
  {
    -((-x).Floor)
  }

  /** `Math.trunc`, also what a `Date` does to its milliseconds. */
  function Trunc(x: real): int { if x >= 0.0 then x.Floor else Ceil(x) }

  function Max(x: real, y: real): real { if x >= y then x else y }

  function Min(x: real, y: real): real { if x <= y then x else y }

  /** A product, named so that proofs can handle it as a whole. */
  function Times(x: real, y: real): real { x * y }

  /** Rounds rupees to whole paise. */
  function Round2(n: real): real { Round(n * 100.0) as real / 100.0 }

  ghost predicate WholePaise(x: real) { Round2(x) == x }

  lemma RoundShift(x: real, k: int)
    ensures Round(x + k as real) == Round(x) + k
  {
  }

  lemma RoundMonotone(x: real, y: real)
    requires x <= y
    ensures Round(x) <= Round(y)
  {
  }

  lemma RoundError(x: real)
    ensures Round(x) as real - 0.5 <= x < Round(x) as real + 0.5
  {
  }

  lemma Round2IsWhole(x: real)
    ensures WholePaise(Round2(x))
  {
    assert Round2(x) * 100.0 == Round(x * 100.0) as real;
    RoundShift(0.0, Round(x * 100.0));
  }

  /** Whole paise pass through rounding. */
  lemma Round2Shift(x: real, p: real)
    requires WholePaise(p)
    ensures Round2(x + p) == Round2(x) + p
  {
    var k := Round(p * 100.0);
    assert p * 100.0 == k as real;
    RoundShift(x * 100.0, k);
    assert (x + p) * 100.0 == x * 100.0 + k as real;
  }

  lemma WholeSum(p: real, q: real)
    requires WholePaise(p) && WholePaise(q)
    ensures WholePaise(p + q)
  {
    Round2Shift(p, q);
  }

  lemma Round2Monotone(x: real, y: real)
    requires x <= y
    ensures Round2(x) <= Round2(y)
  {
    RoundMonotone(x * 100.0, y * 100.0);
  }

  lemma Round2Error(x: real)
    ensures Round2(x) - 0.005 <= x < Round2(x) + 0.005
  {
    RoundError(x * 100.0);
  }

  lemma Round2NonNegative(x: real)
    requires x >= 0.0
    ensures Round2(x) >= 0.0
  {
    Round2Monotone(0.0, x);
    assert Round2(0.0) == 0.0;
  }

  lemma TimesMonotone(x: real, y: real, c: real)
    requires x <= y && c >= 0.0
    ensures Times(x, c) <= Times(y, c)
  {
  }

  lemma TimesSum(x: real, y: real, c: real)
    ensures Times(x + y, c) == Times(x, c) + Times(y, c)
  {
  }

  lemma TimesNonNegative(x: real, c: real)
    requires x >= 0.0 && c >= 0.0
    ensures Times(x, c) >= 0.0
  {
  }

  lemma TimesPositive(x: real, c: real)
    requires x > 0.0 && c > 0.0
    ensures Times(x, c) > 0.0
  {
  }
}
