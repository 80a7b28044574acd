/** Division rounded up. */
module Rounding {
  function Ceil(a: int, b: int): int
    requires b > 0
  {
    (a + b - 1) / b
  }

  lemma CeilCovers(k: int, a: int, b: int)
    requires b > 0 && k * b < a
    ensures k + 1 <= Ceil(a, b)
  {
    var q := Ceil(a, b);
    assert (k + 1) * b <= a + b - 1 < b * (q + 1);
    assert q <= k ==> b * (q + 1) <= b * (k + 1);
  }

  lemma CeilTight(a: int, b: int)
    requires b > 0
    ensures (Ceil(a, b) - 1) * b < a
  {
  }
}
