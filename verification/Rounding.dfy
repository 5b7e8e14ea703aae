/** `round(x::numeric, places)`: nearest, halves away from zero. */
module Rounding {
  import opened Reals

  function Unit(places: nat): (u: real)
    ensures u >= 1.0
  {
    if places == 0 then 1.0 else 10.0 * Unit(places - 1)
  }

  function Round(x: real, places: nat): real {
    if x < 0.0 then -Upwards(-x, Unit(places)) else Upwards(x, Unit(places))
  }

  /** The nearest multiple of one `u`-th, halves upwards. */
  function Upwards(x: real, u: real): real
    requires u > 0.0
  {
    (x * u + 0.5).Floor as real / u
  }

  /** Rounding moves a value by at most half a unit in the last place kept. */
  lemma RoundMoves(x: real, places: nat, u: real, half: real)
    requires u == Unit(places) && half * u == 0.5
    ensures x - half <= Round(x, places) <= x + half
  {
    if x < 0.0 {
      UpwardsMoves(-x, u, half);
    } else {
      UpwardsMoves(x, u, half);
    }
  }

  lemma UpwardsMoves(x: real, u: real, half: real)
    requires u > 0.0 && half * u == 0.5
    ensures x - half <= Upwards(x, u) <= x + half
  {
    var scaled := x * u;
    var f := (scaled + 0.5).Floor as real;
    Divided(f, u, Upwards(x, u));
    WithinHalf(x, u, scaled, f, Upwards(x, u), half);
  }

  lemma WithinHalf(x: real, u: real, scaled: real, f: real, q: real, half: real)
    requires u > 0.0 && scaled == x * u && f == q * u && half * u == 0.5
    requires f - 0.5 <= scaled <= f + 0.5
    ensures x - half <= q <= x + half
  {
    var high, low := x + half, x - half;
    assert high * u == scaled + 0.5 && low * u == scaled - 0.5;
    if q > high {
      ProductGrowsStrictly(high, q, u, scaled + 0.5, f);
    }
    if q < low {
      ProductGrowsStrictly(q, low, u, f, scaled - 0.5);
    }
  }

  ghost predicate IsWhole(x: real) { x == x.Floor as real }

  /** A rounded value has no more than the places kept. */
  lemma RoundIsOnGrid(x: real, places: nat, scaled: real)
    requires scaled == Round(x, places) * Unit(places)
    ensures IsWhole(scaled)
  {
    if x < 0.0 {
      DownwardsIsOnGrid(-x, Unit(places), Round(x, places), scaled);
    } else {
      UpwardsIsOnGrid(x, Unit(places), Round(x, places), scaled);
    }
  }

  lemma DownwardsIsOnGrid(x: real, u: real, q: real, scaled: real)
    requires u > 0.0 && q == -Upwards(x, u) && scaled == q * u
    ensures IsWhole(scaled)
  {
    UpwardsIsOnGrid(x, u, -q, -scaled);
    NegatedWhole(scaled);
  }

  lemma NegatedWhole(x: real)
    requires IsWhole(-x)
    ensures IsWhole(x)
  {
    assert x == (-(-x).Floor) as real;
  }

  lemma UpwardsIsOnGrid(x: real, u: real, q: real, scaled: real)
    requires u > 0.0 && q == Upwards(x, u) && scaled == q * u
    ensures IsWhole(scaled)
  {
    var up := x * u;
    var n := (up + 0.5).Floor;
    Divided(n as real, u, q);
    assert scaled == n as real;
  }

  /** Halves round away from zero. */
  lemma HalvesRoundAway(n: nat)
    ensures Round(n as real + 0.5, 0) == (n + 1) as real && Round(-(n as real + 0.5), 0) == -((n + 1) as real)
  {
    assert Unit(0) == 1.0;
  }

  lemma Tenths()
    ensures Unit(1) == 10.0
  {
    assert Unit(0) == 1.0;
  }

  lemma Thousandths()
    ensures Unit(3) == 1000.0
  {
    Tenths();
    assert Unit(2) == 100.0;
  }

  /** Rounding does not carry a value past a whole-number bound. */
  lemma RoundWithin(x: real, top: nat, places: nat)
    requires 0.0 <= x <= top as real
    ensures 0.0 <= Round(x, places) <= top as real
  {
    var bound := top as real * Unit(places);
    BoundIsWhole(top, places, bound);
    UpwardsWithin(x, top as real, Unit(places), bound);
  }

  lemma BoundIsWhole(top: nat, places: nat, bound: real)
    requires bound == top as real * Unit(places)
    ensures bound == bound.Floor as real
  {
    UnitIsWhole(places);
    WholeProduct(top, Unit(places).Floor, Unit(places), bound);
  }

  lemma WholeProduct(top: nat, n: int, u: real, bound: real)
    requires u == n as real && bound == top as real * u
    ensures bound == (top * n) as real
  {
  }

  lemma UpwardsWithin(x: real, limit: real, u: real, bound: real)
    requires 0.0 <= x <= limit && u > 0.0 && bound == limit * u && bound == bound.Floor as real
    ensures 0.0 <= Upwards(x, u) <= limit
  {
    var scaled := x * u;
    ProductGrows(0.0, x, u, 0.0, scaled);
    ProductGrows(x, limit, u, scaled, bound);
    FloorWithin(scaled, bound.Floor);
    var f := (scaled + 0.5).Floor as real;
    Divided(f, u, Upwards(x, u));
    Between(Upwards(x, u), f, limit, u, bound);
  }

  lemma Between(q: real, f: real, limit: real, u: real, bound: real)
    requires u > 0.0 && f == q * u && bound == limit * u && 0.0 <= f <= bound
    ensures 0.0 <= q <= limit
  {
    if q > limit {
      ProductGrowsStrictly(limit, q, u, bound, f);
    }
    if q < 0.0 {
      ProductGrowsStrictly(q, 0.0, u, f, 0.0);
    }
  }

  lemma FloorWithin(scaled: real, bound: int)
    requires 0.0 <= scaled <= bound as real
    ensures 0 <= (scaled + 0.5).Floor <= bound
  {
  }

  lemma {:induction false} UnitIsWhole(places: nat)
    ensures Unit(places) == Unit(places).Floor as real
  {
    if places == 0 {
    } else {
      UnitIsWhole(places - 1);
      assert Unit(places) == (10 * Unit(places - 1).Floor) as real;
    }
  }
}
