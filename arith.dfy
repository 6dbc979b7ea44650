/** Facts about integer multiplication and division that the solver does not find unaided. */
module Arith {
  lemma {:induction false} MulNonneg(a: int, b: int)
    requires a >= 0 && b >= 0
    ensures a * b >= 0
    decreases a
  {
    if a > 0 {
      MulNonneg(a - 1, b);
      assert a * b == (a - 1) * b + b;
    }
  }

  lemma MulLeMono(a: int, c: int, b: int)
    requires a <= c && b >= 0
    ensures a * b <= c * b
  {
    MulNonneg(c - a, b);
    assert c * b - a * b == (c - a) * b;
  }

  lemma DivIsUnique(x: int, b: int, q: int)
    requires b >= 1 && q * b <= x < q * b + b
    ensures x / b == q
  {
    var d := x / b;
    assert d * b + x % b == x;
    assert (d + 1) * b == d * b + b && (q + 1) * b == q * b + b;
    if d < q {
      MulLeMono(d + 1, q, b);
    } else if d > q {
      MulLeMono(q + 1, d, b);
    }
  }
}
