// Floor division and products, stated once with explicit bounds.
module Arithmetic {

  // Division of bigints: toward zero.
  function Truncated(a: int, d: int): int
    requires 0 < d
  {
    if 0 <= a then a / d else -(-a / d)
  }

  lemma MulMonotone(a: int, b: int, c: int)
    requires a <= b && 0 <= c
    ensures a * c <= b * c && c * a <= c * b
  {
    assert 0 <= (b - a) * c;
  }

  lemma MulStrict(a: int, b: int, c: int)
    requires a * c < b * c && 0 <= c
    ensures a < b
  {
    if b <= a {
      MulMonotone(b, a, c);
    }
  }

  lemma DivBounds(a: int, d: int)
    requires 0 < d
    ensures a / d * d <= a < a / d * d + d
  {
  }

  // The floor is the only multiple count within one divisor below.
  lemma DivUnique(a: int, d: int, q: int)
    requires 0 < d
    requires q * d <= a < q * d + d
    ensures a / d == q
  {
    var f := a / d;
    assert (f - q) * d < d && (q - f) * d < d by {
      assert (f - q) * d == f * d - q * d;
      assert (q - f) * d == q * d - f * d;
    }
    MulStrict(f - q, 1, d);
    MulStrict(q - f, 1, d);
  }

  lemma DivMonotone(a: int, b: int, d: int)
    requires 0 < d && a <= b
    ensures a / d <= b / d
  {
    var f, g := a / d, b / d;
    assert f * d <= b < g * d + d;
    assert f * d < (g + 1) * d;
    MulStrict(f, g + 1, d);
  }

  lemma DivStep(a: int, d: int)
    requires 0 < d
    ensures (a + d) / d == a / d + 1
  {
    assert (a / d + 1) * d == a / d * d + d;
    DivUnique(a + d, d, a / d + 1);
  }

  lemma DivAtLeast(a: int, d: int, q: int)
    requires 0 < d && q * d <= a
    ensures q <= a / d
  {
    assert q * d < (a / d + 1) * d;
    MulStrict(q, a / d + 1, d);
  }

  lemma DivBelow(a: int, d: int, q: int)
    requires 0 < d && a < q * d
    ensures a / d < q
  {
    MulStrict(a / d, q, d);
  }
}
