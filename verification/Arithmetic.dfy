/** Arithmetic on exact reals and the C conversion to integers. */
module Arithmetic {

  /** A C cast from float to integer drops the fraction. */
  function Truncate(x: real): int { if x >= 0.0 then x.Floor else -((-x).Floor) }

  lemma TimesMonotone(a: int, b: int, c: nat)
    requires a <= b
    ensures a * c <= b * c
  {
  }

  /** Products under a name, so that the steps of a proof can treat them as atoms. */
  function Times(a: real, b: real): real { a * b }

  lemma TimesPositive(a: real, b: real)
    requires a > 0.0 && b > 0.0
    ensures Times(a, b) > 0.0
  {
  }

  lemma TimesOrdered(a: real, b: real, c: real)
    requires a <= b && c >= 0.0
    ensures Times(a, c) <= Times(b, c)
  {
  }

  lemma TimesSum(a: real, b: real, c: real)
    ensures Times(a + b, c) == Times(a, c) + Times(b, c)
    ensures Times(a - b, c) == Times(a, c) - Times(b, c)
    ensures Times(1.0, c) == c && Times(0.0, c) == 0.0
  {
  }

  lemma ScaleStep(a: real, b: real, c: real)
    requires b <= a < b + 1.0 && c > 0.0
    ensures Times(b, c) <= Times(a, c) < Times(b, c) + c
  {
    hide Times;
    TimesOrdered(b, a, c);
    TimesPositive(b + 1.0 - a, c);
    TimesSum(b + 1.0, a, c);
    TimesSum(b, 1.0, c);
  }

  lemma TimesCommute(a: real, b: real)
    ensures Times(a, b) == Times(b, a)
  {
  }
}
