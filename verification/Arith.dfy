/** Facts about real multiplication and division that the solver needs one at a time. */
module Arith {

  function Min(a: real, b: real): real { if a <= b then a else b }

  function Max(a: real, b: real): real { if a >= b then a else b }

  lemma MulMono(a: real, b: real, k: real)
    requires a <= b && 0.0 <= k
    ensures k * a <= k * b && a * k <= b * k
  {
  }

  /** A product under a name: proofs that hide it stay linear. */
  function Times(a: real, b: real): real { a * b }

  lemma TimesAdd(c: real, a: real, b: real)
    ensures Times(c, a + b) == Times(c, a) + Times(c, b)
    ensures Times(c, 0.0) == 0.0 && Times(c, 1.0) == c
  {
  }

  lemma TimesMono(c: real, a: real, b: real)
    requires 0.0 <= c && a <= b
    ensures Times(c, a) <= Times(c, b)
  {
  }

  lemma MulPos(a: real, b: real)
    requires 0.0 < a && 0.0 < b
    ensures 0.0 < a * b
  {
  }

  lemma DivMul(a: real, b: real)
    requires b != 0.0
    ensures a / b * b == a && b * (a / b) == a
  {
  }

  lemma TimesStrict(c: real, a: real, b: real)
    requires 0.0 < c && a < b
    ensures Times(c, a) < Times(c, b)
  {
  }

  /** a / b <= x exactly when a <= x * b, for positive b. */
  lemma DivLe(a: real, b: real, x: real)
    requires 0.0 < b
    ensures a / b <= x <==> a <= x * b
  {
  }

  /** Fractions compare by cross-multiplication. */
  lemma CrossLe(a: real, b: real, c: real, d: real)
    requires 0.0 < b && 0.0 < d
    ensures a / b <= c / d <==> a * d <= c * b
  {
  }

  lemma DivPos(a: real, b: real)
    requires 0.0 <= a && 0.0 < b
    ensures 0.0 <= a / b
    ensures 0.0 < a ==> 0.0 < a / b
  {
  }

  /** Python's int() of a float: truncation toward zero. */
  function Int(x: real): int { if x >= 0.0 then x.Floor else -(-x).Floor }

  /** It is the whole number next to x on the side of zero. */
  lemma IntTruncates(x: real)
    ensures 0.0 <= x ==> Int(x) as real <= x < Int(x) as real + 1.0
    ensures x <= 0.0 ==> Int(x) as real - 1.0 < x <= Int(x) as real
  {
  }
}
