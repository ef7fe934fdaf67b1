/** JavaScript's `Math.round`, `Math.max` and the "round to two decimals"
    idiom `Math.round(x * 100) / 100`, stated over exact reals. */
module JsMath {

  /** `Math.round(y)`: the nearest integer, a half rounding up towards +infinity.
      The contract pins the result down uniquely. */
  function Round(y: real): (r: int)
    ensures y - 0.5 < r as real <= y + 0.5
  {
    (y + 0.5).Floor
  }

  /** `Math.round(x * 100) / 100`: the nearest multiple of 0.01. */
  function Round2(x: real): (r: real)
    ensures IsCents(r)
    ensures x - 0.005 < r <= x + 0.005
  {
    Round(x * 100.0) as real / 100.0
  }

  /** `x` is a whole number of hundredths. */
  predicate IsCents(x: real) {
    (x * 100.0).Floor as real == x * 100.0
  }

  /** `Math.max(a, b)`. */
  function Max(a: real, b: real): (r: real)
    ensures r >= a && r >= b
    ensures r == a || r == b
  {
    if a >= b then a else b
  }

  /** Rounding an integer leaves it alone. */
  lemma RoundInteger(n: int)
    ensures Round(n as real) == n
  {
  }

  /** Rounding to two decimals is the identity on values already of that form. */
  lemma Round2OfCents(x: real)
    requires IsCents(x)
    ensures Round2(x) == x
  {
    var k := (x * 100.0).Floor;
    RoundInteger(k);
  }

  /** Sums of hundredths are hundredths. */
  lemma CentsAdd(a: real, b: real)
    requires IsCents(a) && IsCents(b)
    ensures IsCents(a + b)
  {
    var ka := (a * 100.0).Floor;
    var kb := (b * 100.0).Floor;
    assert (a + b) * 100.0 == (ka + kb) as real;
  }

  /** Zero is a whole number of hundredths. */
  lemma CentsZero()
    ensures IsCents(0.0)
  {
  }

  lemma RoundMonotone(y: real, z: real)
    requires y <= z
    ensures Round(y) <= Round(z)
  {
  }

  lemma Round2Monotone(x: real, y: real)
    requires x <= y
    ensures Round2(x) <= Round2(y)
  {
    RoundMonotone(x * 100.0, y * 100.0);
  }
}
