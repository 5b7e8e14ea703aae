/**
 Putting the polar summaries of many buckets back together (api/queries.py, `grid_density`): exact
 before rounding, within a fixed distance after it.
 */
module Recombination {
  import opened Wrappers
  import opened Reals
  import opened Sums
  import opened Rounding
  import opened Direction

  /** The samples that `group` files in bucket `k`. */
  ghost function Bucket<S, K>(samples: map<S, Heading>, group: map<S, K>, k: K): map<S, Heading>
    requires samples.Keys <= group.Keys
  {
    map x | x in samples && group[x] == k :: samples[x]
  }

  /** The unrounded mart: one summary per bucket, empty buckets included. */
  ghost function Summaries<S, K>(t: Trig, samples: map<S, Heading>, group: map<S, K>, groups: set<K>): map<K, Summary>
    requires samples.Keys <= group.Keys
  {
    map k | k in groups :: Exact(t, Bucket(samples, group, k))
  }

  /** The sum of the headings of some of the samples. */
  ghost function PartVector<S>(samples: map<S, Heading>, part: set<S>): Heading
    requires part <= samples.Keys
  {
    Heading(SumOver(part, Sines(samples)), SumOver(part, Cosines(samples)))
  }

  lemma BucketTotals<S, K>(samples: map<S, Heading>, group: map<S, K>, k: K)
    requires samples.Keys <= group.Keys
    ensures var bucket, part := Bucket(samples, group, k), Part(samples.Keys, group, k);
            |bucket| as real == SumOver(part, Ones(samples.Keys)) && SumVector(bucket) == PartVector(samples, part)
  {
    var bucket, part := Bucket(samples, group, k), Part(samples.Keys, group, k);
    assert bucket.Keys == part && |bucket| == |bucket.Keys|;
    SumOfOnes(part, Ones(samples.Keys));
    assert Sines(bucket).Keys == part && Cosines(bucket).Keys == part;
    SumSame(part, Sines(bucket), Sines(samples));
    SumSame(part, Cosines(bucket), Cosines(samples));
  }

  /** A summary stands for `n` samples that add up to `total`. */
  ghost predicate StandsFor(t: Trig, s: Summary, n: real, total: Heading) {
    && s.samples as real == n
    && (s.polar.Some? <==> s.samples > 0)
    && (s.polar.Some? ==> Times(n, FromPolar(t, s.polar.value)) == total)
  }

  lemma TimesOver(n: real, v: Heading)
    requires n > 0.0
    ensures Times(n, Over(v, n)) == v
  {
    assert n * (v.sin / n) == v.sin && n * (v.cos / n) == v.cos;
  }

  /** An exact summary stands for its bucket: samples times polar form is the sum of the headings. */
  lemma ExactStandsFor<S>(t: Trig, bucket: map<S, Heading>)
    requires t.Laws()
    ensures StandsFor(t, Exact(t, bucket), |bucket| as real, SumVector(bucket))
  {
    if |bucket| > 0 {
      Compass(t, MeanVector(bucket));
      TimesOver(|bucket| as real, SumVector(bucket));
    }
  }

  /** Summaries that stand for the buckets of a partition recombine to the mean of all samples. */
  lemma Recombines<S, K>(t: Trig, samples: map<S, Heading>, group: map<S, K>, buckets: map<K, Summary>)
    requires samples.Keys <= group.Keys && forall x | x in samples :: group[x] in buckets
    requires forall k | k in buckets ::
               var part := Part(samples.Keys, group, k);
               StandsFor(t, buckets[k], SumOver(part, Ones(samples.Keys)), PartVector(samples, part))
    ensures Recombine(t, buckets) == if |samples| == 0 then None else Some(MeanVector(samples))
  {
    SamplesAddUp(t, samples, group, buckets);
    WeightsAddUp(t, samples, group, buckets);
  }

  lemma WeightsAddUp<S, K>(t: Trig, samples: map<S, Heading>, group: map<S, K>, buckets: map<K, Summary>)
    requires samples.Keys <= group.Keys && forall x | x in samples :: group[x] in buckets
    requires forall k | k in buckets ::
               var part := Part(samples.Keys, group, k);
               StandsFor(t, buckets[k], SumOver(part, Ones(samples.Keys)), PartVector(samples, part))
    ensures SumVector(Weighted(t, buckets)) == SumVector(samples)
    ensures |samples| > 0 ==> |Weighted(t, buckets)| > 0
  {
    var w := Weighted(t, buckets);
    forall x | x in samples ensures group[x] in w {
      BucketHasWeight(t, samples, group, buckets, x);
    }
    HeadingsAddUp(samples, group, w);
    if |samples| > 0 {
      assert |samples.Keys| > 0;
      var x :| x in samples;
      assert group[x] in w.Keys;
    }
  }

  lemma SamplesAddUp<S, K>(t: Trig, samples: map<S, Heading>, group: map<S, K>, buckets: map<K, Summary>)
    requires samples.Keys <= group.Keys && forall x | x in samples :: group[x] in buckets
    requires forall k | k in buckets ::
               buckets[k].samples as real == SumOver(Part(samples.Keys, group, k), Ones(samples.Keys))
    ensures Sum(Samples(buckets)) == |samples| as real
  {
    var n := Samples(buckets);
    assert n.Keys == buckets.Keys && |samples.Keys| == |samples|;
    SumGrouped(samples.Keys, Ones(samples.Keys), group, n.Keys, n);
    SumOfOnes(samples.Keys, Ones(samples.Keys));
  }

  lemma BucketHasWeight<S, K>(t: Trig, samples: map<S, Heading>, group: map<S, K>, buckets: map<K, Summary>, x: S)
    requires samples.Keys <= group.Keys && x in samples && group[x] in buckets
    requires var part := Part(samples.Keys, group, group[x]);
             StandsFor(t, buckets[group[x]], SumOver(part, Ones(samples.Keys)), PartVector(samples, part))
    ensures group[x] in Weighted(t, buckets)
  {
    var part := Part(samples.Keys, group, group[x]);
    assert x in part;
    SumOfOnes(part, Ones(samples.Keys));
    assert |part| > 0;
  }

  lemma HeadingsAddUp<S, K>(samples: map<S, Heading>, group: map<S, K>, sums: map<K, Heading>)
    requires samples.Keys <= group.Keys && forall x | x in samples :: group[x] in sums
    requires forall k | k in sums :: sums[k] == PartVector(samples, Part(samples.Keys, group, k))
    ensures SumVector(sums) == SumVector(samples)
  {
    assert Sines(sums).Keys == sums.Keys && Cosines(sums).Keys == sums.Keys;
    assert Sines(samples).Keys == samples.Keys && Cosines(samples).Keys == samples.Keys;
    SumGrouped(samples.Keys, Sines(samples), group, sums.Keys, Sines(sums));
    SumGrouped(samples.Keys, Cosines(samples), group, sums.Keys, Cosines(sums));
  }

  /**
   Recombination is exact, for every partition of the samples into buckets: the recombined vector is
   the mean of all samples, and null only when there are none. Empty buckets contribute nothing.
   */
  lemma RecombinationIsExact<S, K>(t: Trig, samples: map<S, Heading>, group: map<S, K>, groups: set<K>)
    requires t.Laws() && samples.Keys <= group.Keys
    requires forall x | x in samples :: group[x] in groups
    ensures Recombine(t, Summaries(t, samples, group, groups))
         == if |samples| == 0 then None else Some(MeanVector(samples))
  {
    var buckets := Summaries(t, samples, group, groups);
    forall k | k in buckets
      ensures var part := Part(samples.Keys, group, k);
              StandsFor(t, buckets[k], SumOver(part, Ones(samples.Keys)), PartVector(samples, part))
    {
      BucketTotals(samples, group, k);
      ExactStandsFor(t, Bucket(samples, group, k));
    }
    Recombines(t, samples, group, buckets);
  }

  /** So what the dashboard shows over an unrounded mart is the mart's own formula over all samples at once. */
  lemma DashboardAgreesWithOneBigBucket<S, K>(t: Trig, samples: map<S, Heading>, group: map<S, K>, groups: set<K>)
    requires t.Laws() && samples.Keys <= group.Keys && |samples| > 0
    requires forall x | x in samples :: group[x] in groups
    ensures var recombined := Recombine(t, Summaries(t, samples, group, groups));
            recombined.Some? && Some(ToPolar(t, recombined.value)) == Exact(t, samples).polar
  {
    RecombinationIsExact(t, samples, group, groups);
  }

  // --- after rounding ---

  /** What rounding the stored columns can do to one component: 0.0014 at most. */
  function Tolerance(t: Trig): real { 0.0005 + 0.05 * t.degree }

  lemma ToleranceIsSmall(t: Trig)
    requires t.Laws()
    ensures 0.0 < Tolerance(t) < 0.0014
  {
  }

  predicate OnDial(p: Polar) {
    0.0 <= p.bearing < 360.0 && 0.0 <= p.length <= 1.0
  }

  predicate Consistent(s: Summary) {
    (s.samples > 0 <==> s.polar.Some?) && (s.polar.Some? ==> OnDial(s.polar.value))
  }

  /** Every bucket of unit headings has a sound summary. */
  lemma ExactIsSound<S>(t: Trig, samples: map<S, Heading>)
    requires t.Laws() && forall x | x in samples :: samples[x].IsUnit()
    ensures Consistent(Exact(t, samples))
  {
    if |samples| > 0 {
      LengthMeasuresAgreement(t, samples);
      Compass(t, MeanVector(samples));
    }
  }

  /** Stored about where it was computed: the length to 0.0005, the bearing to 0.05 degrees. */
  predicate Near(p: Polar, q: Polar) {
    Abs(q.length - p.length) <= 0.0005 && Abs(q.bearing - p.bearing) <= 0.05
  }

  predicate NearSummary(s: Summary, stored: Summary) {
    && stored.samples == s.samples
    && (stored.polar.Some? <==> s.polar.Some?)
    && (s.polar.Some? ==> Near(s.polar.value, stored.polar.value))
  }

  lemma RoundingIsNear(p: Polar)
    ensures Near(p, RoundPolar(p))
  {
    Tenths();
    Thousandths();
    RoundMoves(p.bearing, 1, 10.0, 0.05);
    RoundMoves(p.length, 3, 1000.0, 0.0005);
  }

  lemma UnitBounds(v: Heading)
    requires v.IsUnit()
    ensures -1.0 <= v.sin <= 1.0 && -1.0 <= v.cos <= 1.0
  {
    var s2 := Square(v.sin);
    var c2 := Square(v.cos);
    SquareBound(v.sin, s2);
    SquareBound(v.cos, c2);
  }

  /** A direction stored nearby has both components within the tolerance. */
  lemma StoredComponentError(t: Trig, p: Polar, q: Polar)
    requires t.Laws() && OnDial(p) && Near(p, q)
    ensures var v, stored := FromPolar(t, p), FromPolar(t, q);
            && -Tolerance(t) <= stored.sin - v.sin <= Tolerance(t)
            && -Tolerance(t) <= stored.cos - v.cos <= Tolerance(t)
  {
    var e := 0.05 * t.degree;
    ArcMoves(t, p.bearing, q.bearing, e);
    ProductMoves(p, q, t.Towards(p.bearing), t.Towards(q.bearing), e);
  }

  /** Moving along the circle by a twentieth of a degree. */
  lemma ArcMoves(t: Trig, d: real, d': real, e: real)
    requires t.Laws() && Abs(d' - d) <= 0.05 && e == 0.05 * t.degree
    ensures Abs(t.sin(d') - t.sin(d)) <= e && Abs(t.cos(d') - t.cos(d)) <= e
    ensures -1.0 <= t.sin(d') <= 1.0 && -1.0 <= t.cos(d') <= 1.0
  {
    assert t.ChordBelowArc(d', d) && t.OnCircle(d');
    UnitBounds(t.Towards(d'));
    ProductGrows(Abs(d' - d), 0.05, t.degree, t.degree * Abs(d' - d), e);
  }

  lemma ProductMoves(p: Polar, q: Polar, v: Heading, v': Heading, e: real)
    requires 0.0 <= p.length <= 1.0 && Near(p, q)
    requires Abs(v'.sin - v.sin) <= e && Abs(v'.cos - v.cos) <= e
    requires -1.0 <= v'.sin <= 1.0 && -1.0 <= v'.cos <= 1.0
    ensures var w, w' := Times(p.length, v), Times(q.length, v');
            -(0.0005 + e) <= w'.sin - w.sin <= 0.0005 + e && -(0.0005 + e) <= w'.cos - w.cos <= 0.0005 + e
  {
    ComponentMoves(p.length, v.sin, q.length, v'.sin, e, p.length * v.sin, q.length * v'.sin);
    ComponentMoves(p.length, v.cos, q.length, v'.cos, e, p.length * v.cos, q.length * v'.cos);
  }

  lemma ComponentMoves(r: real, s: real, r': real, s': real, e: real, product: real, product': real)
    requires 0.0 <= r <= 1.0 && -1.0 <= s' <= 1.0 && Abs(r' - r) <= 0.0005 && Abs(s' - s) <= e
    requires product == r * s && product' == r' * s'
    ensures -(0.0005 + e) <= product' - product <= 0.0005 + e
  {
    ProductError(r, s, r', s', 0.0005, e, product, product');
  }

  /** The mart's columns for the same buckets. */
  ghost function Stored<K>(buckets: map<K, Summary>): map<K, Summary> {
    map k | k in buckets :: Rounded(buckets[k])
  }

  /** When every term moves by at most `e` times its weight, the sum moves by at most `e` times theirs. */
  lemma SumError<K>(rows: set<K>, a: map<K, real>, b: map<K, real>, weights: map<K, real>,
                    e: real, weight: real, slack: real)
    requires rows <= a.Keys && rows <= b.Keys && rows <= weights.Keys
    requires forall k | k in rows :: a[k] <= b[k] + e * weights[k]
    requires weight == SumOver(rows, weights) && slack == e * weight
    ensures SumOver(rows, a) <= SumOver(rows, b) + slack
  {
    var slacks := map k | k in rows :: e * weights[k];
    var top := map k | k in rows :: b[k] + slacks[k];
    SumScale(rows, weights, slacks, e, weight);
    SumAdd(rows, b, slacks, top);
    SumMonotone(rows, a, top);
  }

  lemma FewerRowsWeighLess<K>(rows: set<K>, all: set<K>, weights: map<K, real>)
    requires rows <= all && all <= weights.Keys && forall k | k in all :: weights[k] >= 0.0
    ensures SumOver(rows, weights) <= SumOver(all, weights)
    ensures SumOver(rows, weights) >= 0.0
  {
    var zero := map k | k in all :: 0.0;
    SumDisjoint(rows, all - rows, weights);
    assert rows + (all - rows) == all;
    SumMonotone(all - rows, zero, weights);
    SumMonotone(rows, zero, weights);
    SumOfEqual(all - rows, zero, 0.0);
    SumOfEqual(rows, zero, 0.0);
  }

  lemma MeanError(a: real, b: real, slack: real, e: real, total: real, bound: real)
    requires total > 0.0 && a <= b + slack && slack <= bound && bound == e * total
    ensures a / total - b / total <= e
  {
    assert a / total - b / total == (a - b) / total;
    DividedBound(a - b, e, total, bound);
  }

  /**
   However many buckets and samples there are, recombining the stored, rounded directions gives
   components within the tolerance of the exact ones, and a null exactly when they are null.
   */
  lemma RecombinationError<K>(t: Trig, buckets: map<K, Summary>)
    requires t.Laws() && forall k | k in buckets :: Consistent(buckets[k])
    ensures var exact, stored := Recombine(t, buckets), Recombine(t, Stored(buckets));
            && (stored.None? <==> exact.None?)
            && (stored.Some? ==> && Abs(stored.value.sin - exact.value.sin) <= Tolerance(t)
                                 && Abs(stored.value.cos - exact.value.cos) <= Tolerance(t))
  {
    forall k | k in buckets ensures NearSummary(buckets[k], Stored(buckets)[k]) {
      if buckets[k].polar.Some? {
        RoundingIsNear(buckets[k].polar.value);
      }
    }
    NearBucketsRecombineNear(t, buckets, Stored(buckets));
  }

  lemma NearBucketsRecombineNear<K>(t: Trig, buckets: map<K, Summary>, stored: map<K, Summary>)
    requires t.Laws() && stored.Keys == buckets.Keys
    requires forall k | k in buckets :: Consistent(buckets[k]) && NearSummary(buckets[k], stored[k])
    ensures var exact, recombined := Recombine(t, buckets), Recombine(t, stored);
            && (recombined.None? <==> exact.None?)
            && (recombined.Some? ==> && Abs(recombined.value.sin - exact.value.sin) <= Tolerance(t)
                                     && Abs(recombined.value.cos - exact.value.cos) <= Tolerance(t))
  {
    var w, w', n := Weighted(t, buckets), Weighted(t, stored), Samples(buckets);
    WeightsAreNear(t, buckets, stored, w, w', n);
    if |w| > 0 && Sum(n) != 0.0 {
      FewerRowsWeighLess(w.Keys, n.Keys, n);
      BothComponents(w, w', n, Tolerance(t), Sum(n));
    }
  }

  lemma WeightsAreNear<K>(t: Trig, buckets: map<K, Summary>, stored: map<K, Summary>,
                          w: map<K, Heading>, w': map<K, Heading>, n: map<K, real>)
    requires t.Laws() && stored.Keys == buckets.Keys
    requires forall k | k in buckets :: Consistent(buckets[k]) && NearSummary(buckets[k], stored[k])
    requires w == Weighted(t, buckets) && w' == Weighted(t, stored) && n == Samples(buckets)
    ensures Samples(stored) == n && w'.Keys == w.Keys && |w'| == |w|
    ensures forall k | k in w :: WithinWeight(w[k], w'[k], n[k], Tolerance(t))
  {
    assert w'.Keys == w.Keys;
    assert |w'| == |w'.Keys| && |w| == |w.Keys|;
    forall k | k in w ensures WithinWeight(w[k], w'[k], n[k], Tolerance(t)) {
      BucketError(t, buckets[k], stored[k]);
    }
  }

  lemma BucketError(t: Trig, s: Summary, stored: Summary)
    requires t.Laws() && Consistent(s) && NearSummary(s, stored) && s.polar.Some?
    ensures var n := s.samples as real;
            WithinWeight(Times(n, FromPolar(t, s.polar.value)), Times(n, FromPolar(t, stored.polar.value)),
                         n, Tolerance(t))
  {
    StoredComponentError(t, s.polar.value, stored.polar.value);
    TimesError(s.samples as real, FromPolar(t, s.polar.value), FromPolar(t, stored.polar.value), Tolerance(t));
  }

  lemma TimesError(n: real, v: Heading, v': Heading, e: real)
    requires n >= 0.0 && -e <= v'.sin - v.sin <= e && -e <= v'.cos - v.cos <= e
    ensures WithinWeight(Times(n, v), Times(n, v'), n, e)
  {
    WeightedError(n, v.sin, v'.sin, e, n * v.sin, n * v'.sin, e * n);
    WeightedError(n, v.cos, v'.cos, e, n * v.cos, n * v'.cos, e * n);
  }

  predicate WithinWeight(v: Heading, v': Heading, n: real, e: real) {
    && v'.sin <= v.sin + e * n && v.sin <= v'.sin + e * n
    && v'.cos <= v.cos + e * n && v.cos <= v'.cos + e * n
  }

  lemma BothComponents<K>(w: map<K, Heading>, w': map<K, Heading>, n: map<K, real>, e: real, total: real)
    requires w.Keys == w'.Keys && w.Keys <= n.Keys && e >= 0.0
    requires forall k | k in w :: WithinWeight(w[k], w'[k], n[k], e)
    requires SumOver(w.Keys, n) <= total && total > 0.0
    ensures var v, v' := Over(SumVector(w), total), Over(SumVector(w'), total);
            Abs(v'.sin - v.sin) <= e && Abs(v'.cos - v.cos) <= e
  {
    ComponentError(w.Keys, Sines(w), Sines(w'), n, e, total);
    ComponentError(w.Keys, Cosines(w), Cosines(w'), n, e, total);
  }

  lemma WeightedError(n: real, v: real, v': real, e: real, nv: real, nv': real, en: real)
    requires n >= 0.0 && -e <= v' - v <= e && nv == n * v && nv' == n * v' && en == e * n
    ensures nv' <= nv + en && nv <= nv' + en
  {
    ProductGrows(v' - v, e, n, nv' - nv, en);
    ProductGrows(v - v', e, n, nv - nv', en);
  }

  lemma ComponentError<K>(rows: set<K>, a: map<K, real>, a': map<K, real>, n: map<K, real>, e: real, total: real)
    requires rows == a.Keys && rows == a'.Keys && rows <= n.Keys && e >= 0.0
    requires forall k | k in rows :: a'[k] <= a[k] + e * n[k] && a[k] <= a'[k] + e * n[k]
    requires SumOver(rows, n) <= total && total > 0.0
    ensures Abs(Sum(a') / total - Sum(a) / total) <= e
  {
    var weight := SumOver(rows, n);
    var slack, bound := e * weight, e * total;
    SumError(rows, a', a, n, e, weight, slack);
    SumError(rows, a, a', n, e, weight, slack);
    ProductGrows(weight, total, e, slack, bound);
    MeanError(Sum(a'), Sum(a), slack, e, total, bound);
    MeanError(Sum(a), Sum(a'), slack, e, total, bound);
  }

  // --- the length that is shown ---

  predicate StoredInRange(s: Summary) {
    (s.samples > 0 <==> s.polar.Some?) && (s.polar.Some? ==> 0.0 <= s.polar.value.length <= 1.0)
  }

  lemma StoredStaysInRange(s: Summary)
    requires Consistent(s)
    ensures StoredInRange(Rounded(s))
  {
    if s.polar.Some? {
      StoredDirectionInRange(s.polar.value);
    }
  }

  /** Whatever stored directions are recombined, the length shown lies between zero and one. */
  lemma ShownDirectionInRange<K>(t: Trig, buckets: map<K, Summary>)
    requires t.Laws() && forall k | k in buckets :: StoredInRange(buckets[k])
    ensures ShowsInRange(t, Recombine(t, buckets))
  {
    if Recombine(t, buckets).Some? {
      var v := Recombine(t, buckets).value;
      Compass(t, v);
      LengthIsReach(t, v);
      var u := t.Towards(ToPolar(t, v).bearing);
      RecombinedReach(t, buckets, u);
      StoredDirectionInRange(ToPolar(t, v));
    }
  }

  /** What is shown of a recombined vector, if there is one, is a bearing and a length. */
  ghost predicate ShowsInRange(t: Trig, flow: Option<Heading>) {
    flow.Some? ==>
      var shown := RoundPolar(ToPolar(t, flow.value));
      0.0 <= shown.length <= 1.0 && 0.0 <= shown.bearing <= 360.0
  }

  /** Along any unit direction the recombined vector reaches at most one. */
  lemma RecombinedReach<K>(t: Trig, buckets: map<K, Summary>, u: Heading)
    requires t.Laws() && u.IsUnit() && forall k | k in buckets :: StoredInRange(buckets[k])
    requires Recombine(t, buckets).Some?
    ensures u.Dot(Recombine(t, buckets).value) <= 1.0
  {
    var w, n := Weighted(t, buckets), Samples(buckets);
    forall k | k in w ensures Dots(u, w)[k] <= n[k] {
      BucketReach(t, u, buckets[k]);
    }
    ReachOfSum(u, w, n);
    FewerRowsWeighLess(w.Keys, n.Keys, n);
    DotOver(u, SumVector(w), Sum(n));
    AtMostOne(u.Dot(SumVector(w)), Sum(n));
  }

  lemma BucketReach(t: Trig, u: Heading, s: Summary)
    requires t.Laws() && u.IsUnit() && StoredInRange(s) && s.polar.Some?
    ensures u.Dot(Times(s.samples as real, FromPolar(t, s.polar.value))) <= s.samples as real
  {
    var p := s.polar.value;
    assert t.OnCircle(p.bearing);
    UnitDot(u, t.Towards(p.bearing));
    TimesReach(u, t.Towards(p.bearing), p.length, s.samples as real);
  }

  lemma TimesReach(u: Heading, d: Heading, r: real, n: real)
    requires u.Dot(d) <= 1.0 && 0.0 <= r <= 1.0 && n >= 0.0
    ensures u.Dot(Times(n, Times(r, d))) <= n
  {
    var v, nr := Times(n, Times(r, d)), n * r;
    var dot, reach := u.Dot(d), u.Dot(v);
    assert reach == nr * dot;
    ProductGrows(r, 1.0, n, nr, n);
    ProductGrows(0.0, r, n, 0.0, nr);
    ProductGrows(dot, 1.0, nr, reach, nr);
  }

  lemma SummariesAreSound<S, K>(t: Trig, samples: map<S, Heading>, group: map<S, K>, groups: set<K>)
    requires t.Laws() && samples.Keys <= group.Keys && forall x | x in samples :: samples[x].IsUnit()
    ensures forall k | k in groups :: Consistent(Summaries(t, samples, group, groups)[k])
  {
    forall k | k in groups ensures Consistent(Exact(t, Bucket(samples, group, k))) {
      ExactIsSound(t, Bucket(samples, group, k));
    }
  }

  /** Null together with the mean of the samples, and otherwise within the tolerance of it. */
  ghost predicate NearMean<S>(t: Trig, flow: Option<Heading>, samples: map<S, Heading>) {
    && (flow.None? <==> |samples| == 0)
    && (flow.Some? ==> && Abs(flow.value.sin - MeanVector(samples).sin) <= Tolerance(t)
                       && Abs(flow.value.cos - MeanVector(samples).cos) <= Tolerance(t))
  }

  /**
   From samples to dashboard and back: for every partition, the vector recombined from the stored
   columns is null exactly when there is no sample, and otherwise within the tolerance of the mean.
   */
  lemma StoredRecombinesNearMean<S, K>(t: Trig, samples: map<S, Heading>, group: map<S, K>, groups: set<K>)
    requires t.Laws() && samples.Keys <= group.Keys && forall x | x in samples :: samples[x].IsUnit()
    requires forall x | x in samples :: group[x] in groups
    ensures NearMean(t, Recombine(t, Stored(Summaries(t, samples, group, groups))), samples)
  {
    SummariesAreSound(t, samples, group, groups);
    RecombinationIsExact(t, samples, group, groups);
    RecombinationError(t, Summaries(t, samples, group, groups));
  }

  lemma StoredShowsInRange<S, K>(t: Trig, samples: map<S, Heading>, group: map<S, K>, groups: set<K>)
    requires t.Laws() && samples.Keys <= group.Keys && forall x | x in samples :: samples[x].IsUnit()
    ensures ShowsInRange(t, Recombine(t, Stored(Summaries(t, samples, group, groups))))
  {
    var summaries := Summaries(t, samples, group, groups);
    SummariesAreSound(t, samples, group, groups);
    forall k | k in summaries ensures StoredInRange(Stored(summaries)[k]) {
      StoredStaysInRange(summaries[k]);
    }
    ShownDirectionInRange(t, Stored(summaries));
  }
}
