/**
 How far the directions that are stored and shown can be from the true ones
 (transform/models/marts/fct_airspace_activity_hourly.sql, api/queries.py, api/static/index.html).
 */
module Accuracy {
  import opened Wrappers
  import opened Reals
  import opened Sums
  import opened Rounding
  import opened Direction
  import opened Recombination

  // --- when a bearing reads 360.0 ---

  /** Rounding carries a bearing up to 360.0 exactly from 359.95 on. */
  lemma RoundsUpToNorth(p: Polar)
    requires 0.0 <= p.bearing < 360.0
    ensures RoundPolar(p).bearing == 360.0 <==> p.bearing >= 359.95
    ensures RoundPolar(p).bearing < 360.0 <==> p.bearing < 359.95
  {
    Tenths();
    assert RoundPolar(p).bearing == (p.bearing * 10.0 + 0.5).Floor as real / 10.0;
  }

  /** What is derived from a mean vector reads 360.0 exactly when its unrounded bearing is 359.95 or more. */
  lemma BearingIs360ExactlyWhen(t: Trig, v: Heading)
    requires t.Laws()
    ensures RoundPolar(ToPolar(t, v)).bearing == 360.0 <==> ToPolar(t, v).bearing >= 359.95
    ensures RoundPolar(ToPolar(t, v)).bearing < 360.0 <==> ToPolar(t, v).bearing < 359.95
  {
    Compass(t, v);
    RoundsUpToNorth(ToPolar(t, v));
  }

  /** The mart's column. */
  lemma StoredBearingIs360ExactlyWhen<S>(t: Trig, samples: map<S, Heading>)
    requires t.Laws() && |samples| > 0
    ensures Rounded(Exact(t, samples)).polar.value.bearing == 360.0
       <==> Exact(t, samples).polar.value.bearing >= 359.95
    ensures Rounded(Exact(t, samples)).polar.value.bearing < 360.0
       <==> Exact(t, samples).polar.value.bearing < 359.95
  {
    BearingIs360ExactlyWhen(t, MeanVector(samples));
  }

  // --- when storing a direction loses nothing ---

  /** One stored bucket, recombined. */
  lemma OneBucketRecombines<K>(t: Trig, k: K, s: Summary)
    requires s.samples > 0 && s.polar.Some?
    ensures Recombine(t, map[k := s]) == Some(FromPolar(t, s.polar.value))
  {
    var buckets := map[k := s];
    var n, v := s.samples as real, FromPolar(t, s.polar.value);
    var w := Weighted(t, buckets);
    assert w == map[k := Times(n, v)];
    SumOfOne(Sines(w), k);
    SumOfOne(Cosines(w), k);
    SumOfOne(Samples(buckets), k);
    OverTimes(n, v);
  }

  lemma SumOfOne<K>(column: map<K, real>, k: K)
    requires column.Keys == {k}
    ensures Sum(column) == column[k]
  {
    SumTake({k}, column, k);
    assert {k} - {k} == {};
  }

  lemma OverTimes(n: real, v: Heading)
    requires n > 0.0
    ensures Over(Times(n, v), n) == v
  {
  }

  /** Two polar forms of one vector. */
  lemma SameVectorSamePolar(t: Trig, p: Polar, q: Polar)
    requires t.Laws() && p.length >= 0.0 && q.length >= 0.0 && FromPolar(t, p) == FromPolar(t, q)
    ensures p.length == q.length
    ensures p.length != 0.0 ==> t.Towards(p.bearing) == t.Towards(q.bearing)
  {
    SquaredLengthOf(t, p);
    SquaredLengthOf(t, q);
    EqualSquares(p.length, q.length);
    if p.length != 0.0 {
      SameFactor(p.length, t.sin(p.bearing), t.sin(q.bearing));
      SameFactor(p.length, t.cos(p.bearing), t.cos(q.bearing));
    }
  }

  lemma SquaredLengthOf(t: Trig, p: Polar)
    requires t.Laws()
    ensures FromPolar(t, p).SquaredLength() == p.length * p.length
  {
    assert t.OnCircle(p.bearing);
    SquareOfTimes(p.length, t.Towards(p.bearing), t.Towards(p.bearing).SquaredLength());
  }

  lemma SquareOfTimes(r: real, u: Heading, squared: real)
    requires squared == u.SquaredLength() && squared == 1.0
    ensures Times(r, u).SquaredLength() == r * r
  {
    assert r * u.sin * (r * u.sin) + r * u.cos * (r * u.cos) == r * r * squared;
  }

  lemma EqualSquares(x: real, y: real)
    requires x >= 0.0 && y >= 0.0 && x * x == y * y
    ensures x == y
  {
    if x < y {
      ProductGrows(x, y, x, x * x, y * x);
      ProductGrowsStrictly(x, y, y, x * y, y * y);
    } else if y < x {
      ProductGrows(y, x, y, y * y, x * y);
      ProductGrowsStrictly(y, x, x, y * x, x * x);
    }
  }

  lemma SameFactor(r: real, x: real, y: real)
    requires r != 0.0 && r * x == r * y
    ensures x == y
  {
  }

  lemma NorthIsZero(t: Trig, d: real)
    requires t.Laws() && 0.0 <= d < 360.0 && t.Towards(360.0) == t.Towards(d)
    ensures d == 0.0
  {
    assert t.FullTurn(0.0) && t.OneBearing(0.0, d);
  }

  /** A bearing and its rounded form point the same way only when they are the same number. */
  lemma RoundedBearingPointsElsewhere(t: Trig, p: Polar)
    requires t.Laws() && 0.0 <= p.bearing < 360.0
    requires t.Towards(RoundPolar(p).bearing) == t.Towards(p.bearing)
    ensures RoundPolar(p).bearing == p.bearing
  {
    Tenths();
    RoundsUpToNorth(p);
    RoundWithin(p.bearing, 360, 1);
    if p.bearing < 359.95 {
      assert t.OneBearing(RoundPolar(p).bearing, p.bearing);
    } else {
      NorthIsZero(t, p.bearing);
    }
  }

  /**
   One bucket survives being stored exactly when its length rounds to itself and either that length is
   zero or the bearing rounds to itself too.
   */
  lemma OneBucketIsExactWhen<K>(t: Trig, k: K, s: Summary)
    requires t.Laws() && s.samples > 0 && Consistent(s)
    ensures var p := s.polar.value;
            Recombine(t, Stored(map[k := s])) == Recombine(t, map[k := s]) <==>
            RoundPolar(p).length == p.length && (p.length == 0.0 || RoundPolar(p).bearing == p.bearing)
  {
    var p := s.polar.value;
    assert Stored(map[k := s]) == map[k := Rounded(s)];
    OneBucketRecombines(t, k, s);
    OneBucketRecombines(t, k, Rounded(s));
    SurvivesExactlyWhen(t, p);
  }

  /** A stored direction that is the same vector as before. */
  ghost predicate Survives(t: Trig, p: Polar) { FromPolar(t, RoundPolar(p)) == FromPolar(t, p) }

  lemma SurvivesExactlyWhen(t: Trig, p: Polar)
    requires t.Laws() && OnDial(p)
    ensures Survives(t, p) <==>
            RoundPolar(p).length == p.length && (p.length == 0.0 || RoundPolar(p).bearing == p.bearing)
  {
    StoredDirectionInRange(p);
    if Survives(t, p) {
      SameVectorSamePolar(t, p, RoundPolar(p));
      if p.length != 0.0 {
        RoundedBearingPointsElsewhere(t, p);
      }
    }
  }

  /** Any number of buckets whose directions all survive being stored recombine as if they had not been. */
  lemma SurvivingBucketsAreExact<K>(t: Trig, buckets: map<K, Summary>)
    requires forall k | k in buckets && buckets[k].polar.Some? :: Survives(t, buckets[k].polar.value)
    ensures Recombine(t, Stored(buckets)) == Recombine(t, buckets)
  {
    assert Samples(Stored(buckets)) == Samples(buckets);
    assert Weighted(t, Stored(buckets)) == Weighted(t, buckets);
  }

  /**
   How far several buckets are off as a whole: by the weighted sum of what storing did to each. So the
   mean is exact if and only if these errors cancel; for one bucket that is when there is none.
   */
  lemma ExactExactlyWhenErrorsCancel<K>(t: Trig, buckets: map<K, Summary>)
    requires Recombine(t, buckets).Some?
    ensures Recombine(t, Stored(buckets)) == Recombine(t, buckets) <==>
            SumVector(StorageErrors(t, buckets)) == Heading(0.0, 0.0)
  {
    StorageErrorsAddUp(t, buckets);
    BothAreQuotients(t, buckets);
    SameMean(SumVector(Weighted(t, buckets)), SumVector(Weighted(t, Stored(buckets))), Sum(Samples(buckets)));
  }

  lemma BothAreQuotients<K>(t: Trig, buckets: map<K, Summary>)
    requires Recombine(t, buckets).Some?
    ensures var total := Sum(Samples(buckets));
            && total != 0.0
            && Recombine(t, buckets) == Some(Over(SumVector(Weighted(t, buckets)), total))
            && Recombine(t, Stored(buckets)) == Some(Over(SumVector(Weighted(t, Stored(buckets))), total))
  {
    var w, w' := Weighted(t, buckets), Weighted(t, Stored(buckets));
    assert Samples(Stored(buckets)) == Samples(buckets);
    assert w.Keys == w'.Keys && |w| == |w.Keys| && |w'| == |w'.Keys|;
  }

  lemma SameMean(v: Heading, w: Heading, n: real)
    requires n != 0.0
    ensures Over(w, n) == Over(v, n) <==> Minus(w, v) == Heading(0.0, 0.0)
  {
    SameQuotient(v.sin, w.sin, n);
    SameQuotient(v.cos, w.cos, n);
  }

  /** Per bucket, its samples times the change of its direction. */
  ghost function StorageErrors<K>(t: Trig, buckets: map<K, Summary>): map<K, Heading> {
    map k | k in buckets && buckets[k].polar.Some? ::
      Minus(Times(buckets[k].samples as real, FromPolar(t, RoundPolar(buckets[k].polar.value))),
            Times(buckets[k].samples as real, FromPolar(t, buckets[k].polar.value)))
  }

  function Minus(v: Heading, w: Heading): Heading { Heading(v.sin - w.sin, v.cos - w.cos) }

  lemma StorageErrorsAddUp<K>(t: Trig, buckets: map<K, Summary>)
    ensures SumVector(StorageErrors(t, buckets))
         == Minus(SumVector(Weighted(t, Stored(buckets))), SumVector(Weighted(t, buckets)))
  {
    var w, w', e := Weighted(t, buckets), Weighted(t, Stored(buckets)), StorageErrors(t, buckets);
    assert w'.Keys == w.Keys && e.Keys == w.Keys;
    assert forall k | k in w :: e[k] == Minus(w'[k], w[k]);
    DifferencesAddUp(w, w', e);
  }

  lemma DifferencesAddUp<K>(w: map<K, Heading>, w': map<K, Heading>, e: map<K, Heading>)
    requires w'.Keys == w.Keys && e.Keys == w.Keys && forall k | k in w :: e[k] == Minus(w'[k], w[k])
    ensures SumVector(e) == Minus(SumVector(w'), SumVector(w))
  {
    SumAdd(w.Keys, Sines(w), Sines(e), Sines(w'));
    SumAdd(w.Keys, Cosines(w), Cosines(e), Cosines(w'));
    assert Sines(w).Keys == w.Keys && Sines(e).Keys == w.Keys && Sines(w').Keys == w.Keys;
    assert Cosines(w).Keys == w.Keys && Cosines(e).Keys == w.Keys && Cosines(w').Keys == w.Keys;
  }

  lemma SameQuotient(x: real, y: real, n: real)
    requires n != 0.0
    ensures x / n == y / n <==> x == y
  {
    assert (x / n) * n == x && (y / n) * n == y;
  }

  /** It can fail: samples that all head 0.04 degrees are recombined as if they headed due north. */
  lemma StoringCanMoveTheMean<S, K>(t: Trig, samples: map<S, Heading>, k: K)
    requires t.Laws() && |samples| > 0
    requires forall x | x in samples :: samples[x] == t.Towards(0.04)
    ensures var buckets := map[k := Exact(t, samples)];
            Recombine(t, Stored(buckets)) != Recombine(t, buckets) == Some(MeanVector(samples))
  {
    var s := Exact(t, samples);
    AgreementKeepsBearing(t, samples, 0.04);
    Tenths();
    assert RoundPolar(Polar(0.04, 1.0)).bearing == 0.0;
    OneBucketIsExactWhen(t, k, s);
    OneBucketRecombines(t, k, s);
    Compass(t, MeanVector(samples));
  }

  // --- the length and the bearing that are shown ---

  /** Each component of `w` within `e` of that of `v`. */
  predicate Close(v: Heading, w: Heading, e: real) { Abs(w.sin - v.sin) <= e && Abs(w.cos - v.cos) <= e }

  /** A vector reaches at most its own length along any unit direction. */
  lemma ReachAtMostLength(t: Trig, u: Heading, w: Heading)
    requires t.Laws() && u.IsUnit()
    ensures u.Dot(w) <= ToPolar(t, w).length
  {
    var q := ToPolar(t, w);
    var d := t.Towards(q.bearing);
    Compass(t, w);
    UnitDot(u, d);
    DotOfTimes(u, d, q.length, u.Dot(d));
  }

  lemma DotOfTimes(u: Heading, d: Heading, r: real, dot: real)
    requires dot == u.Dot(d) && dot <= 1.0 && r >= 0.0
    ensures u.Dot(Times(r, d)) <= r
  {
    assert u.Dot(Times(r, d)) == r * dot;
    ProductGrows(dot, 1.0, r, r * dot, r);
  }

  lemma ReachesAreClose(u: Heading, v: Heading, w: Heading, e: real)
    requires u.IsUnit() && Close(v, w, e)
    ensures u.Dot(v) <= u.Dot(w) + 2.0 * e
  {
    var x, y := (v.sin - w.sin) * u.sin, (v.cos - w.cos) * u.cos;
    UnitBounds(u);
    Scaled(v.sin - w.sin, e, u.sin, x);
    Scaled(v.cos - w.cos, e, u.cos, y);
    assert u.Dot(v) - u.Dot(w) == x + y;
  }

  lemma LengthAtMost(t: Trig, v: Heading, w: Heading, e: real)
    requires t.Laws() && Close(v, w, e)
    ensures ToPolar(t, v).length <= ToPolar(t, w).length + 2.0 * e
  {
    var u := t.Towards(ToPolar(t, v).bearing);
    LengthIsReach(t, v);
    ReachAtMostLength(t, u, w);
    ReachesAreClose(u, v, w, e);
  }

  /** Close vectors have close lengths. */
  lemma LengthsAreClose(t: Trig, v: Heading, w: Heading, e: real)
    requires t.Laws() && Close(v, w, e)
    ensures Abs(ToPolar(t, w).length - ToPolar(t, v).length) <= 2.0 * e
  {
    LengthAtMost(t, v, w, e);
    LengthAtMost(t, w, v, e);
  }

  /** One component of two close vectors, as seen along the second bearing. */
  lemma ComponentsAreClose(r: real, s: real, r': real, s': real, e: real, product: real, product': real)
    requires product == r * s && product' == r' * s' && Abs(product' - product) <= e
    requires Abs(r' - r) <= 2.0 * e && -1.0 <= s' <= 1.0
    ensures Moved(r, s, s') <= 3.0 * e
  {
    var shift := (r - r') * s';
    Scaled(r - r', 2.0 * e, s', shift);
    SignedGap(r, s, s', product, product' + shift, Moved(r, s, s'));
  }

  lemma SignedGap(r: real, s: real, s': real, product: real, moved: real, gap: real)
    requires product == r * s && moved == r * s' && gap == r * Abs(s' - s)
    ensures gap == if s' < s then product - moved else moved - product
  {
  }

  /** Close vectors have close bearings, the closer the longer they are. */
  lemma BearingsAreClose(t: Trig, v: Heading, w: Heading, e: real, p: Polar, q: Polar)
    requires t.Laws() && Close(v, w, e) && p == ToPolar(t, v) && q == ToPolar(t, w)
    ensures Turn(p.length, t.Towards(p.bearing), t.Towards(q.bearing), 3.0 * e)
  {
    PolarParts(t, v, p);
    PolarParts(t, w, q);
    LengthsAreClose(t, v, w, e);
    PolarsAreClose(p.length, t.Towards(p.bearing), q.length, t.Towards(q.bearing), v, w, e);
  }

  lemma PolarParts(t: Trig, v: Heading, p: Polar)
    requires t.Laws() && p == ToPolar(t, v)
    ensures v.sin == p.length * t.sin(p.bearing) && v.cos == p.length * t.cos(p.bearing)
    ensures -1.0 <= t.sin(p.bearing) <= 1.0 && -1.0 <= t.cos(p.bearing) <= 1.0
  {
    Compass(t, v);
    UnitBounds(t.Towards(p.bearing));
  }

  /** Turning an arm of length `r` from `a` to `b` moves its end by at most `bound` in each component. */
  predicate Turn(r: real, a: Heading, b: Heading, bound: real) {
    Moved(r, a.sin, b.sin) <= bound && Moved(r, a.cos, b.cos) <= bound
  }

  function Moved(r: real, s: real, s': real): real { r * Abs(s' - s) }

  lemma PolarsAreClose(r: real, a: Heading, r': real, b: Heading, v: Heading, w: Heading, e: real)
    requires v.sin == r * a.sin && v.cos == r * a.cos && w.sin == r' * b.sin && w.cos == r' * b.cos
    requires Close(v, w, e) && Abs(r' - r) <= 2.0 * e && -1.0 <= b.sin <= 1.0 && -1.0 <= b.cos <= 1.0
    ensures Turn(r, a, b, 3.0 * e)
  {
    ComponentsAreClose(r, a.sin, r', b.sin, e, v.sin, w.sin);
    ComponentsAreClose(r, a.cos, r', b.cos, e, v.cos, w.cos);
  }

  /** The dashboard draws no arrow below this concentration. */
  const MIN_CONCENTRATION: real := 0.55

  /** What the sine and cosine of an arrow's bearing can be off; a degree of arc is 0.0175. */
  const ARROW_ERROR: real := 0.0086

  /**
   A direction as shown against the true one: the length is close; the bearing is close in proportion to
   that length; and wherever an arrow is drawn its bearing is close outright.
   */
  ghost predicate ShownNearTruth(t: Trig, truth: Polar, shown: Polar) {
    && Abs(shown.length - truth.length) <= 2.0 * Tolerance(t) + 0.0005
    && Turn(truth.length, t.Towards(truth.bearing), t.Towards(shown.bearing), 3.0 * Tolerance(t) + 0.05 * t.degree)
    && (shown.length >= MIN_CONCENTRATION ==>
          Turn(1.0, t.Towards(truth.bearing), t.Towards(shown.bearing), ARROW_ERROR))
  }

  /** The last rounding, from the derived sine or cosine `x` to the shown one `y`. */
  lemma LastRounding(r: real, s: real, x: real, y: real, e: real, arc: real)
    requires 0.0 <= r <= 1.0 && 0.0 < e < 0.0014 && 0.0 < arc < 0.000875
    requires Moved(r, s, x) <= 3.0 * e && Abs(y - x) <= arc
    ensures Moved(r, s, y) <= 3.0 * e + arc
    ensures r >= 0.5467 ==> Moved(1.0, s, y) <= ARROW_ERROR
  {
    var before, last, after := Abs(x - s), Abs(y - x), Abs(y - s);
    AddLast(r, before, last, after, arc, Moved(r, s, x), Moved(r, s, y));
    if r >= 0.5467 {
      LongEnough(r, before, Moved(r, s, x));
    }
  }

  lemma AddLast(r: real, before: real, last: real, after: real, most: real, rb: real, ra: real)
    requires 0.0 <= r <= 1.0 && after <= before + last && 0.0 <= last <= most && rb == r * before && ra == r * after
    ensures ra <= rb + most
  {
    var rl := r * last;
    ProductGrows(after, before + last, r, ra, rb + rl);
    Shrunk(last, most, r, rl);
  }

  lemma LongEnough(r: real, off: real, product: real)
    requires r >= 0.5467 && off >= 0.0 && product == r * off && product <= 0.0042
    ensures off <= 0.0077
  {
    if off > 0.0077 {
      ProductGrowsStrictly(0.0077, off, r, 0.0077 * r, product);
    }
  }

  /**
   What is shown of a vector within the tolerance of the true mean: its length is within 0.0033 of the
   true one, its bearing is off in inverse proportion to that length, and by a bounded amount wherever
   the dashboard draws an arrow.
   */
  lemma ShownIsNearTruth<S>(t: Trig, samples: map<S, Heading>, flow: Option<Heading>)
    requires t.Laws() && NearMean(t, flow, samples) && flow.Some?
    requires forall x | x in samples :: samples[x].IsUnit()
    ensures ShownNearTruth(t, Exact(t, samples).polar.value, RoundPolar(ToPolar(t, flow.value)))
  {
    LengthMeasuresAgreement(t, samples);
    ShownOfCloseVector(t, MeanVector(samples), flow.value, ToPolar(t, flow.value));
  }

  lemma ShownOfCloseVector(t: Trig, v: Heading, w: Heading, q: Polar)
    requires t.Laws() && Close(v, w, Tolerance(t)) && 0.0 <= ToPolar(t, v).length <= 1.0 && q == ToPolar(t, w)
    ensures ShownNearTruth(t, ToPolar(t, v), RoundPolar(q))
  {
    LengthsAreClose(t, v, w, Tolerance(t));
    BearingsAreClose(t, v, w, Tolerance(t), ToPolar(t, v), q);
    RoundingIsNear(q);
    LastRoundings(t, ToPolar(t, v), q, RoundPolar(q));
  }

  lemma LastRoundings(t: Trig, truth: Polar, q: Polar, shown: Polar)
    requires t.Laws() && Near(q, shown) && 0.0 <= truth.length <= 1.0
    requires Abs(q.length - truth.length) <= 2.0 * Tolerance(t)
    requires Turn(truth.length, t.Towards(truth.bearing), t.Towards(q.bearing), 3.0 * Tolerance(t))
    ensures ShownNearTruth(t, truth, shown)
  {
    var r, e, arc := truth.length, Tolerance(t), 0.05 * t.degree;
    ToleranceIsSmall(t);
    ArcMoves(t, q.bearing, shown.bearing, arc);
    LastRounding(r, t.sin(truth.bearing), t.sin(q.bearing), t.sin(shown.bearing), e, arc);
    LastRounding(r, t.cos(truth.bearing), t.cos(q.bearing), t.cos(shown.bearing), e, arc);
  }
}
