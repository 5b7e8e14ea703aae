/**
 Circular means (transform/models/marts/fct_airspace_activity_hourly.sql, the direction columns, and
 the recombination in api/queries.py). Headings are unit vectors; a bucket keeps the polar form of
 their mean, and the dashboard turns the polar forms of many buckets back into one mean.
 */
module Direction {
  import opened Wrappers
  import opened Reals
  import opened Sums
  import opened Rounding

  datatype Heading = Heading(sin: real, cos: real)
  {
    function SquaredLength(): real { sin * sin + cos * cos }

    predicate IsUnit() { SquaredLength() == 1.0 }

    function Dot(v: Heading): real { sin * v.sin + cos * v.cos }
  }

  /**
   PostgreSQL's functions, with angles in degrees: `sin(d)` is `sin(radians(d))`, `atan2(s, c)` is
   `degrees(atan2(s, c))`, and `degree` is the length of one degree of arc. Nothing is known about
   them beyond these laws.
   */
  datatype Trig = Trig(
    sin: real -> real,
    cos: real -> real,
    atan2: (real, real) -> real,
    sqrt: real -> real,
    degree: real)
  {
    function Towards(d: real): Heading { Heading(sin(d), cos(d)) }

    ghost predicate OnCircle(d: real) { Towards(d).IsUnit() }

    ghost predicate FullTurn(d: real) { sin(d + 360.0) == sin(d) && cos(d + 360.0) == cos(d) }

    ghost predicate ChordBelowArc(a: real, b: real) {
      Abs(sin(a) - sin(b)) <= degree * Abs(a - b) && Abs(cos(a) - cos(b)) <= degree * Abs(a - b)
    }

    ghost predicate OneBearing(a: real, b: real) {
      0.0 <= a < 360.0 && 0.0 <= b < 360.0 && sin(a) == sin(b) && cos(a) == cos(b) ==> a == b
    }

    ghost predicate Root(x: real) { x >= 0.0 ==> sqrt(x) >= 0.0 && sqrt(x) * sqrt(x) == x }

    function Length(v: Heading): real { sqrt(v.SquaredLength()) }

    ghost predicate PolarForm(v: Heading) {
      && -180.0 <= atan2(v.sin, v.cos) <= 180.0
      && Length(v) * sin(atan2(v.sin, v.cos)) == v.sin
      && Length(v) * cos(atan2(v.sin, v.cos)) == v.cos
    }

    ghost predicate Laws() {
      && 0.0 < degree < 0.0175
      && (forall d :: OnCircle(d))
      && (forall d :: FullTurn(d))
      && (forall a, b :: ChordBelowArc(a, b))
      && (forall a, b :: OneBearing(a, b))
      && (forall x :: Root(x))
      && (forall v :: PolarForm(v))
    }
  }

  /** A direction and how strongly the samples agree on it. */
  datatype Polar = Polar(bearing: real, length: real)

  /** The columns `track_sample_count`, and `dominant_track_deg` with `track_concentration`. */
  datatype Summary = Summary(samples: nat, polar: Option<Polar>)

  function Mod360(x: real): real { x - (x / 360.0).Floor as real * 360.0 }

  /** A vector as a compass bearing and a length. */
  ghost function ToPolar(t: Trig, v: Heading): Polar {
    Polar(Mod360(t.atan2(v.sin, v.cos) + 360.0), t.Length(v))
  }

  function Times(r: real, v: Heading): Heading { Heading(r * v.sin, r * v.cos) }

  function FromPolar(t: Trig, p: Polar): Heading { Times(p.length, t.Towards(p.bearing)) }

  ghost function Sines<S>(samples: map<S, Heading>): map<S, real> { map x | x in samples :: samples[x].sin }
  ghost function Cosines<S>(samples: map<S, Heading>): map<S, real> { map x | x in samples :: samples[x].cos }

  ghost function SumVector<S>(samples: map<S, Heading>): Heading {
    Heading(Sum(Sines(samples)), Sum(Cosines(samples)))
  }

  function Over(v: Heading, n: real): Heading
    requires n != 0.0
  {
    Heading(v.sin / n, v.cos / n)
  }

  /** `avg(track_sin)` and `avg(track_cos)`. */
  ghost function MeanVector<S>(samples: map<S, Heading>): Heading
    requires |samples| > 0
  {
    Over(SumVector(samples), |samples| as real)
  }

  /** The direction columns before rounding. */
  ghost function Exact<S>(t: Trig, samples: map<S, Heading>): Summary {
    Summary(|samples|, if |samples| == 0 then None else Some(ToPolar(t, MeanVector(samples))))
  }

  function RoundPolar(p: Polar): Polar { Polar(Round(p.bearing, 1), Round(p.length, 3)) }

  /** The direction columns as stored. */
  function Rounded(s: Summary): Summary {
    Summary(s.samples, if s.polar.None? then None else Some(RoundPolar(s.polar.value)))
  }

  // --- recombining buckets ---

  function Weighted<K>(t: Trig, buckets: map<K, Summary>): map<K, Heading> {
    map k | k in buckets && buckets[k].polar.Some? ::
      Times(buckets[k].samples as real, FromPolar(t, buckets[k].polar.value))
  }

  function Samples<K>(buckets: map<K, Summary>): map<K, real> {
    map k | k in buckets :: buckets[k].samples as real
  }

  /** The sample-weighted mean; null when there is nothing to average or no sample to divide by. */
  ghost function Recombine<K>(t: Trig, buckets: map<K, Summary>): Option<Heading> {
    var weighted := Weighted(t, buckets);
    var total := Sum(Samples(buckets));
    if |weighted| == 0 || total == 0.0 then None
    else Some(Over(SumVector(weighted), total))
  }

  // --- polar form and back ---

  lemma Compass(t: Trig, v: Heading)
    requires t.Laws()
    ensures var p := ToPolar(t, v);
            0.0 <= p.bearing < 360.0 && p.length >= 0.0 && p.length * p.length == v.SquaredLength()
    ensures FromPolar(t, ToPolar(t, v)) == v
    ensures t.Towards(ToPolar(t, v).bearing).IsUnit()
  {
    var d := t.atan2(v.sin, v.cos);
    assert t.PolarForm(v) && t.FullTurn(d);
    var s2 := Square(v.sin);
    var c2 := Square(v.cos);
    WithinOneTurn(d);
    assert t.Root(v.SquaredLength());
    assert t.OnCircle(ToPolar(t, v).bearing);
  }

  lemma WithinOneTurn(d: real)
    requires -180.0 <= d <= 180.0
    ensures Mod360(d + 360.0) == if d < 0.0 then d + 360.0 else d
  {
    var q := (d + 360.0) / 360.0;
    assert q * 360.0 == d + 360.0;
    assert q.Floor == if d < 0.0 then 0 else 1;
  }

  // --- the resultant length ---

  /** Two unit vectors agree at most as much as one with itself, and only then as much. */
  lemma UnitDot(a: Heading, b: Heading)
    requires a.IsUnit() && b.IsUnit()
    ensures a.Dot(b) <= 1.0
    ensures a.Dot(b) == 1.0 <==> a == b
  {
    var p := SquaredGap(a.sin, b.sin);
    var q := SquaredGap(a.cos, b.cos);
    assert a.Dot(b) == a.sin * b.sin + a.cos * b.cos;
    assert p + q == 2.0 - 2.0 * (a.sin * b.sin + a.cos * b.cos);
  }

  ghost function Dots<S>(u: Heading, samples: map<S, Heading>): map<S, real> {
    map x | x in samples :: u.Dot(samples[x])
  }

  /** Reach along a direction is additive. */
  lemma DotsAddUp<S>(u: Heading, samples: map<S, Heading>)
    ensures SumOver(samples.Keys, Dots(u, samples)) == u.Dot(SumVector(samples))
  {
    assert Sines(samples).Keys == samples.Keys && Cosines(samples).Keys == samples.Keys;
    var total := SumVector(samples);
    SumDots(samples.Keys, Sines(samples), Cosines(samples), Dots(u, samples), u.sin, u.cos, total.sin, total.cos);
  }

  lemma SumDots<S>(rows: set<S>, a: map<S, real>, b: map<S, real>, dots: map<S, real>,
                   x: real, y: real, s: real, t: real)
    requires a.Keys == rows && b.Keys == rows && dots.Keys == rows
    requires s == SumOver(rows, a) && t == SumOver(rows, b)
    requires forall k | k in rows :: dots[k] == x * a[k] + y * b[k]
    ensures SumOver(rows, dots) == x * s + y * t
  {
    var xs := map k | k in rows :: x * a[k];
    var ys := map k | k in rows :: y * b[k];
    SumScale(rows, a, xs, x, s);
    SumScale(rows, b, ys, y, t);
    SumAdd(rows, xs, ys, dots);
  }

  /** Vectors that each reach at most their weight reach at most the total weight together. */
  lemma ReachOfSum<S>(u: Heading, samples: map<S, Heading>, weights: map<S, real>)
    requires samples.Keys <= weights.Keys
    requires forall x | x in samples :: Dots(u, samples)[x] <= weights[x]
    ensures u.Dot(SumVector(samples)) <= SumOver(samples.Keys, weights)
    ensures u.Dot(SumVector(samples)) == SumOver(samples.Keys, weights) ==>
              forall x | x in samples :: Dots(u, samples)[x] == weights[x]
  {
    DotsAddUp(u, samples);
    SumMonotone(samples.Keys, Dots(u, samples), weights);
  }

  /** Seen along any unit direction, the samples add up to at most their number. */
  lemma ReachAlong<S>(u: Heading, samples: map<S, Heading>)
    requires u.IsUnit() && forall x | x in samples :: samples[x].IsUnit()
    ensures u.Dot(SumVector(samples)) <= |samples| as real
    ensures u.Dot(SumVector(samples)) == |samples| as real ==> forall x | x in samples :: samples[x] == u
  {
    forall x | x in samples ensures Dots(u, samples)[x] <= 1.0 && (Dots(u, samples)[x] == 1.0 ==> samples[x] == u) {
      UnitDot(u, samples[x]);
    }
    SumOfOnes(samples.Keys, Ones(samples.Keys));
    assert |samples.Keys| == |samples|;
    ReachOfSum(u, samples, Ones(samples.Keys));
  }

  /** A vector is as long as its reach along its own bearing. */
  lemma LengthIsReach(t: Trig, v: Heading)
    requires t.Laws()
    ensures var p := ToPolar(t, v);
            t.Towards(p.bearing).IsUnit() && t.Towards(p.bearing).Dot(v) == p.length
  {
    Compass(t, v);
    SelfReach(t.Towards(ToPolar(t, v).bearing), ToPolar(t, v).length, v);
  }

  lemma SelfReach(u: Heading, r: real, v: Heading)
    requires u.IsUnit() && v == Times(r, u)
    ensures u.Dot(v) == r
  {
    assert u.sin * (r * u.sin) + u.cos * (r * u.cos) == r * u.SquaredLength();
  }

  lemma DotOver(u: Heading, v: Heading, n: real)
    requires n > 0.0
    ensures u.Dot(Over(v, n)) == u.Dot(v) / n
  {
  }

  lemma AtMostOne(total: real, n: real)
    requires n > 0.0 && total <= n
    ensures total / n <= 1.0 && (total / n == 1.0 ==> total == n)
  {
    assert (total / n) * n == total;
  }

  /**
   The resultant length of any non-empty bucket lies between zero and one, and is one exactly when
   every heading in it is the same.
   */
  lemma LengthMeasuresAgreement<S>(t: Trig, samples: map<S, Heading>)
    requires t.Laws() && |samples| > 0
    requires forall x | x in samples :: samples[x].IsUnit()
    ensures var p := Exact(t, samples).polar.value;
            && 0.0 <= p.length <= 1.0
            && (p.length == 1.0 <==> forall x, y | x in samples && y in samples :: samples[x] == samples[y])
  {
    MeanLength(t, samples);
    if forall x, y | x in samples && y in samples :: samples[x] == samples[y] {
      AgreementHasLengthOne(t, samples);
    }
  }

  lemma MeanLength<S>(t: Trig, samples: map<S, Heading>)
    requires t.Laws() && |samples| > 0
    requires forall x | x in samples :: samples[x].IsUnit()
    ensures var p := ToPolar(t, MeanVector(samples));
            && 0.0 <= p.length <= 1.0
            && (p.length == 1.0 ==> forall x | x in samples :: samples[x] == t.Towards(p.bearing))
  {
    var v, total, n := MeanVector(samples), SumVector(samples), |samples| as real;
    Compass(t, v);
    LengthIsReach(t, v);
    var u := t.Towards(ToPolar(t, v).bearing);
    ReachAlong(u, samples);
    DotOver(u, total, n);
    AtMostOne(u.Dot(total), n);
  }

  /** When all headings coincide, the mean is that heading and its length is one. */
  lemma AgreementHasLengthOne<S>(t: Trig, samples: map<S, Heading>)
    requires t.Laws() && |samples| > 0
    requires forall x | x in samples :: samples[x].IsUnit()
    requires forall x, y | x in samples && y in samples :: samples[x] == samples[y]
    ensures Exact(t, samples).polar.value.length == 1.0
    ensures forall x | x in samples :: MeanVector(samples) == samples[x]
  {
    assert |samples.Keys| > 0;
    var x :| x in samples;
    var h, n := samples[x], |samples| as real;
    SumOfEqual(samples.Keys, Sines(samples), h.sin);
    SumOfEqual(samples.Keys, Cosines(samples), h.cos);
    assert Sines(samples).Keys == samples.Keys && Cosines(samples).Keys == samples.Keys;
    Cancel(h.sin, n);
    Cancel(h.cos, n);
    assert MeanVector(samples) == h;
    assert Exact(t, samples).polar.value == ToPolar(t, h);
    Compass(t, h);
    RootOfOne(ToPolar(t, h).length, h.SquaredLength());
  }

  lemma Cancel(x: real, n: real)
    requires n > 0.0
    ensures x * n / n == x
  {
  }

  /** A single direction is reported as it was flown. */
  lemma AgreementKeepsBearing<S>(t: Trig, samples: map<S, Heading>, d: real)
    requires t.Laws() && |samples| > 0 && 0.0 <= d < 360.0
    requires forall x | x in samples :: samples[x] == t.Towards(d)
    ensures Exact(t, samples).polar == Some(Polar(d, 1.0))
  {
    assert t.OnCircle(d);
    AgreementHasLengthOne(t, samples);
    assert |samples.Keys| > 0;
    var x :| x in samples;
    Compass(t, samples[x]);
    var p := ToPolar(t, samples[x]);
    assert t.OneBearing(p.bearing, d);
  }

  /** Stored bearings may read 360.0: rounding can carry a bearing just below north up to it. */
  lemma StoredBearingCanReach360<S>(t: Trig, samples: map<S, Heading>)
    requires t.Laws() && |samples| > 0
    requires forall x | x in samples :: samples[x] == t.Towards(359.97)
    ensures Rounded(Exact(t, samples)).polar.value.bearing == 360.0
  {
    AgreementKeepsBearing(t, samples, 359.97);
    assert Unit(1) == 10.0;
    assert Round(359.97, 1) == 360.0;
  }

  /** Bearings are stored to a tenth of a degree, lengths to a thousandth. */
  lemma StoredIsOnGrid(p: Polar)
    ensures IsWhole(RoundPolar(p).bearing * 10.0) && IsWhole(RoundPolar(p).length * 1000.0)
  {
    Tenths();
    Thousandths();
    RoundIsOnGrid(p.bearing, 1, RoundPolar(p).bearing * 10.0);
    RoundIsOnGrid(p.length, 3, RoundPolar(p).length * 1000.0);
  }

  /** Stored directions stay in range: a bearing from 0 to 360 inclusive, a length from 0 to 1. */
  lemma StoredDirectionInRange(p: Polar)
    requires 0.0 <= p.bearing < 360.0 && 0.0 <= p.length <= 1.0
    ensures 0.0 <= RoundPolar(p).bearing <= 360.0 && 0.0 <= RoundPolar(p).length <= 1.0
  {
    RoundWithin(p.bearing, 360, 1);
    RoundWithin(p.length, 1, 3);
  }
}
