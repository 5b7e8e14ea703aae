/**
 Products of reals, each handed around under a name so that no step has to multiply out more than
 one of them.
 */
module Reals {
  function Abs(x: real): real { if x < 0.0 then -x else x }

  lemma ProductGrows(x: real, y: real, f: real, xf: real, yf: real)
    requires x <= y && f >= 0.0 && xf == x * f && yf == y * f
    ensures xf <= yf
  {
  }

  lemma ProductGrowsStrictly(x: real, y: real, f: real, xf: real, yf: real)
    requires x < y && f > 0.0 && xf == x * f && yf == y * f
    ensures xf < yf
  {
  }

  /** A factor between -1 and 1 keeps a value within its bound. */
  lemma Scaled(x: real, bound: real, factor: real, product: real)
    requires -bound <= x <= bound && -1.0 <= factor <= 1.0 && product == x * factor
    ensures -bound <= product <= bound
  {
    if factor >= 0.0 {
      Shrunk(x, bound, factor, product);
      Shrunk(-x, bound, factor, -product);
    } else {
      Shrunk(x, bound, -factor, -product);
      Shrunk(-x, bound, -factor, product);
    }
  }

  lemma Shrunk(x: real, bound: real, factor: real, product: real)
    requires x <= bound && bound >= 0.0 && 0.0 <= factor <= 1.0 && product == x * factor
    ensures product <= bound
  {
    var b := bound * factor;
    ProductGrows(x, bound, factor, product, b);
    ProductGrows(factor, 1.0, bound, b, bound);
  }

  /** `r' s'` against `r s` when the factors differ by at most `dr` and `ds`. */
  lemma ProductError(r: real, s: real, r': real, s': real, dr: real, ds: real, product: real, product': real)
    requires 0.0 <= r <= 1.0 && -1.0 <= s' <= 1.0
    requires -dr <= r' - r <= dr && -ds <= s' - s <= ds
    requires product == r * s && product' == r' * s'
    ensures -(dr + ds) <= product' - product <= dr + ds
  {
    var x := (r' - r) * s';
    var y := (s' - s) * r;
    assert product' - product == x + y;
    Scaled(r' - r, dr, s', x);
    Scaled(s' - s, ds, r, y);
  }

  lemma Divided(x: real, u: real, q: real)
    requires u > 0.0 && q == x / u
    ensures q * u == x
  {
  }

  /** A quotient is bounded by what its numerator is bounded by. */
  lemma DividedBound(x: real, e: real, total: real, bound: real)
    requires total > 0.0 && bound == e * total && x <= bound
    ensures x / total <= e
  {
    var q := x / total;
    if q > e {
      ProductGrowsStrictly(e, q, total, bound, x);
    }
  }

  lemma Square(x: real) returns (squared: real)
    ensures squared == x * x && squared >= 0.0 && (x != 0.0 ==> squared > 0.0)
  {
    squared := x * x;
    if x > 0.0 {
      ProductGrowsStrictly(0.0, x, x, 0.0, squared);
    } else if x < 0.0 {
      var y := -x;
      ProductGrowsStrictly(0.0, y, y, 0.0, squared);
    }
  }

  lemma SquareBound(x: real, squared: real)
    requires squared == x * x && squared <= 1.0
    ensures -1.0 <= x <= 1.0
  {
    if x > 1.0 {
      ProductGrowsStrictly(1.0, x, x, x, squared);
    } else if x < -1.0 {
      var y := -x;
      ProductGrowsStrictly(1.0, y, y, y, squared);
    }
  }

  lemma RootOfOne(x: real, squared: real)
    requires x >= 0.0 && squared == x * x && squared == 1.0
    ensures x == 1.0
  {
    SquareBound(x, squared);
    if x < 1.0 {
      ProductGrows(x, 1.0, x, squared, x);
    }
  }

  lemma SquaredGap(x: real, y: real) returns (gap: real)
    ensures gap == x * x - 2.0 * (x * y) + y * y
    ensures gap >= 0.0 && (gap == 0.0 <==> x == y)
  {
    gap := Square(x - y);
  }
}
