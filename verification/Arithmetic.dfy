/** Facts about products and quotients that several models share. */
module Arithmetic {

  lemma MulLe(a: nat, b: nat, k: nat)
    requires a <= b
    ensures a * k <= b * k
  {
  }

  lemma DivBound(h: nat, n: nat, groups: nat)
    requires groups > 0 && h < n * groups
    ensures h / groups < n
  {
  }

  lemma DivInGroup(g: nat, j: nat, groups: nat)
    requires j < groups
    ensures (g * groups + j) / groups == g
  {
    var q := (g * groups + j) / groups;
    if q < g {
      MulLe(q + 1, g, groups);
    } else if q > g {
      MulLe(g + 1, q, groups);
    }
  }

  lemma DivShift(lo: nat, h: nat, groups: nat)
    requires groups > 0
    ensures (lo * groups + h) / groups == lo + h / groups
  {
    var g, j := h / groups, h % groups;
    assert h == g * groups + j;
    assert lo * groups + h == (lo + g) * groups + j;
    DivInGroup(lo + g, j, groups);
  }

  /** Division is determined by its identity. */
  lemma Quotient(n: nat, d: nat, q: nat, r: nat)
    requires d > 0 && n == q * d + r && r < d
    ensures n / d == q && n % d == r
  {
    DivInGroup(q, r, d);
  }

  lemma Product(x: real, y: real) returns (d: real)
    requires x >= 0.0 && y >= 0.0
    ensures d == x * y && d >= 0.0
  {
    d := x * y;
  }

  lemma PositiveProduct(x: real, y: real) returns (d: real)
    requires x > 0.0 && y > 0.0
    ensures d == x * y && d > 0.0
  {
    d := x * y;
  }

  lemma SquareOrder(a: real, b: real)
    requires a >= 0.0 && b >= 0.0
    ensures a <= b <==> a * a <= b * b
  {
    if a > b {
      var d := PositiveProduct(a - b, a + b);
      assert a * a == b * b + d;
    } else if a < b {
      var d := PositiveProduct(b - a, a + b);
      assert b * b == a * a + d;
    }
  }
}
