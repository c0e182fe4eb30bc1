/** Nonlinear integer facts, each small enough to be proved once and then used by name. */
module Arithmetic {

  lemma MulMono(a: nat, b: nat, c: nat, d: nat)
    requires a <= b && c <= d
    ensures a * c <= b * d
  {
    assert a * c <= b * c by { assert (b - a) * c >= 0; }
    assert b * c <= b * d by { assert b * (d - c) >= 0; }
  }

  lemma MulCancel(a: nat, b: nat, c: nat)
    requires 0 < c && a * c <= b * c
    ensures a <= b
  {
    if b < a {
      assert a * c == b * c + (a - b) * c;
      assert (a - b) * c >= c by { MulMono(1, a - b, c, c); }
    }
  }

  lemma DivBounds(a: nat, b: nat)
    requires 0 < b
    ensures a / b * b <= a < a / b * b + b
  {
  }

  /** `a * b / d`, rounded down: the shape of every price and share computation. */
  function MulDiv(a: nat, b: nat, d: nat): nat
    requires 0 < d
  {
    a * b / d
  }

  lemma MulDivBounds(a: nat, b: nat, d: nat)
    requires 0 < d
    ensures MulDiv(a, b, d) * d <= a * b < MulDiv(a, b, d) * d + d
  {
    DivBounds(a * b, d);
  }

  lemma DivAtLeast(a: nat, b: nat, q: nat)
    requires 0 < b && q * b <= a
    ensures q <= a / b
  {
    DivBounds(a, b);
    var r := a / b;
    assert (r + 1) * b == r * b + b;
    if r < q {
      MulMono(r + 1, q, b, b);
    }
  }

  lemma DivAtMost(a: nat, b: nat, q: nat)
    requires 0 < b && a < (q + 1) * b
    ensures a / b <= q
  {
    DivBounds(a, b);
    if q + 1 <= a / b {
      MulMono(q + 1, a / b, b, b);
    }
  }

  lemma ModUnique(a: nat, d: nat, q: nat, r: nat)
    requires 0 < d && a == q * d + r && r < d
    ensures a / d == q && a % d == r
  {
    DivAtLeast(a, d, q);
    assert (q + 1) * d == q * d + d;
    DivAtMost(a, d, q);
  }

  lemma ModPlus(a: nat, d: nat)
    requires 0 < d
    ensures (a + d) % d == a % d
  {
    DivBounds(a, d);
    var (q, r) := (a / d, a % d);
    assert (q + 1) * d == q * d + d;
    ModUnique(a + d, d, q + 1, r);
  }
}
