/**
 The hourly mart (transform/models/marts/fct_airspace_activity_hourly.sql) and its reconciliation test
 (transform/tests/assert_hourly_mart_reconciles_with_source.sql): the group-by, the full rebuild, the
 incremental rebuild, and the comparison of counts per closed hour.
 */
module HourlyMart {
  import opened Wrappers
  import opened Clock
  import opened Reals
  import opened Sums
  import opened Rounding
  import opened Landing
  import opened Direction
  import opened Gridded

  // --- one bucket ---

  datatype BucketRow = BucketRow(
    observationCount: nat,
    distinctAircraft: nat,
    avgBaroAltitudeFt: Option<real>,
    avgVelocityKts: Option<real>,
    direction: Summary, // dominant_track_deg, track_concentration and track_sample_count
    firstObservedAt: Time,
    lastObservedAt: Time,
    contributingRunCount: nat,
    lastIngestedAt: Time)

  ghost function Earliest(ts: set<Time>): (t: Time)
    requires ts != {}
    ensures t in ts && forall u | u in ts :: t <= u
  {
    var x := Pick(ts);
    if ts == {x} then x
    else
      assert ts == (ts - {x}) + {x};
      var y := Earliest(ts - {x});
      if x < y then x else y
  }

  ghost function Latest(ts: set<Time>): (t: Time)
    requires ts != {}
    ensures t in ts && forall u | u in ts :: u <= t
  {
    var x := Pick(ts);
    if ts == {x} then x
    else
      assert ts == (ts - {x}) + {x};
      var y := Latest(ts - {x});
      if x > y then x else y
  }

  ghost function Average(column: map<Observation, real>, places: nat): Option<real> {
    if |column| == 0 then None else Some(Round(Sum(column) / |column| as real, places))
  }

  function Altitudes(obs: set<Observation>): map<Observation, real> {
    map o | o in obs && o.baroAltitudeFt.Some? :: o.baroAltitudeFt.value
  }

  function Speeds(obs: set<Observation>): map<Observation, real> {
    map o | o in obs && o.velocityKts.Some? :: o.velocityKts.value
  }

  ghost function AverageAltitude(obs: set<Observation>): Option<real> {
    Average(Altitudes(obs), 0)
  }

  ghost function AverageVelocity(obs: set<Observation>): Option<real> {
    Average(Speeds(obs), 1)
  }

  ghost function Tracks(obs: set<Observation>): map<Observation, Heading> {
    map o | o in obs && o.track.Some? :: o.track.value
  }

  function Aircraft(obs: set<Observation>): set<string> { set o | o in obs :: o.icao24 }

  function Runs(obs: set<Observation>): set<RunId> { set o | o in obs :: o.run }

  /** Every column of a bucket, from the set of its observations and nothing else. */
  ghost function Aggregate(t: Trig, obs: set<Observation>): BucketRow
    requires obs != {}
  {
    BucketRow(
      |obs|,
      |Aircraft(obs)|,
      AverageAltitude(obs),
      AverageVelocity(obs),
      Rounded(Exact(t, Tracks(obs))),
      Earliest(ObservedAt(obs)),
      Latest(ObservedAt(obs)),
      |Runs(obs)|,
      Latest(IngestedAt(obs)))
  }

  function ObservedAt(obs: set<Observation>): (times: set<Time>)
    ensures obs != {} ==> times != {}
  {
    var times := set o | o in obs :: o.observedAt;
    assert forall o | o in obs :: o.observedAt in times;
    times
  }

  function IngestedAt(obs: set<Observation>): (times: set<Time>)
    ensures obs != {} ==> times != {}
  {
    var times := set o | o in obs :: o.ingestedAt;
    assert forall o | o in obs :: o.ingestedAt in times;
    times
  }

  function Airborne(obs: set<Observation>): set<Observation> { set o | o in obs && o.track.Some? }

  /** The published counts and times in terms of the observations they summarise. */
  lemma ColumnsDescribeBucket(t: Trig, obs: set<Observation>)
    requires obs != {}
    ensures var row := Aggregate(t, obs);
            && 1 <= row.distinctAircraft <= row.observationCount
            && 1 <= row.contributingRunCount <= row.observationCount
            && row.direction.samples == |Airborne(obs)| <= row.observationCount
            && (forall o | o in obs :: row.firstObservedAt <= o.observedAt <= row.lastObservedAt)
            && (forall o | o in obs :: o.ingestedAt <= row.lastIngestedAt)
            && (exists o :: o in obs && o.observedAt == row.firstObservedAt)
            && (exists o :: o in obs && o.observedAt == row.lastObservedAt)
            && (exists o :: o in obs && o.ingestedAt == row.lastIngestedAt)
  {
    SomeOfEach(obs);
    NoMoreThanObservations(obs);
    TracksAreAirborne(obs);
    TimesOf(obs);
  }

  /** An average column: null or the mean, to half a unit, and with no more than the places kept. */
  ghost predicate IsAverage(x: Option<real>, column: map<Observation, real>, unit: real)
    requires unit > 0.0
  {
    Averages(x, column, 0.5 / unit) && (x.Some? ==> IsWhole(x.value * unit))
  }

  lemma AltitudeIsAverage(obs: set<Observation>)
    ensures IsAverage(AverageAltitude(obs), map o | o in obs && o.baroAltitudeFt.Some? :: o.baroAltitudeFt.value, 1.0)
  {
    AverageIsMean(Altitudes(obs), 0, 0.5);
    AverageIsOnGrid(Altitudes(obs), 0, 1.0);
  }

  lemma SpeedIsAverage(obs: set<Observation>)
    ensures IsAverage(AverageVelocity(obs), map o | o in obs && o.velocityKts.Some? :: o.velocityKts.value, 10.0)
  {
    Tenths();
    AverageIsMean(Speeds(obs), 1, 0.05);
    AverageIsOnGrid(Speeds(obs), 1, 10.0);
  }

  /** Every column of a bucket, from its observations. */
  lemma ColumnsAre(t: Trig, obs: set<Observation>)
    requires obs != {}
    ensures var row := Aggregate(t, obs);
            && row.observationCount == |obs|
            && row.distinctAircraft == |set o | o in obs :: o.icao24|
            && row.contributingRunCount == |set o | o in obs :: o.run|
            && IsAverage(row.avgBaroAltitudeFt,
                         map o | o in obs && o.baroAltitudeFt.Some? :: o.baroAltitudeFt.value, 1.0)
            && IsAverage(row.avgVelocityKts, map o | o in obs && o.velocityKts.Some? :: o.velocityKts.value, 10.0)
            && row.direction == Rounded(Exact(t, map o | o in obs && o.track.Some? :: o.track.value))
  {
    AltitudeIsAverage(obs);
    SpeedIsAverage(obs);
  }

  lemma AverageIsOnGrid(column: map<Observation, real>, places: nat, u: real)
    requires u == Unit(places)
    ensures Average(column, places).Some? ==> IsWhole(Average(column, places).value * u)
  {
    if |column| > 0 {
      RoundIsOnGrid(Sum(column) / |column| as real, places, Average(column, places).value * u);
    }
  }

  lemma TracksAreAirborne(obs: set<Observation>)
    ensures |Tracks(obs)| == |Airborne(obs)| <= |obs|
  {
    assert Tracks(obs).Keys == Airborne(obs) && |Tracks(obs)| == |Tracks(obs).Keys|;
    SubsetOfSameSize(Airborne(obs), obs);
  }

  predicate About(x: Option<real>, low: real, high: real, slack: real) {
    x.Some? && low - slack <= x.value <= high + slack
  }

  /** `x` is null when the column is, and otherwise times the number of values is their sum, to `slack` a value. */
  ghost predicate Averages(x: Option<real>, column: map<Observation, real>, slack: real) {
    && (x.None? <==> column == map[])
    && (x.Some? ==> MeanOf(x.value, |column| as real, Sum(column), slack))
  }

  predicate MeanOf(x: real, n: real, sum: real, slack: real) { Abs(x * n - sum) <= slack * n }

  lemma AverageIsMean(column: map<Observation, real>, places: nat, slack: real)
    requires slack * Unit(places) == 0.5
    ensures Averages(Average(column, places), column, slack)
  {
    if column != map[] {
      assert |column| == |column.Keys| && |column.Keys| > 0;
      var n, sum := |column| as real, Sum(column);
      RoundMoves(sum / n, places, Unit(places), slack);
      MeanTimesCount(sum, n, Round(sum / n, places), slack);
    }
  }

  lemma MeanTimesCount(sum: real, n: real, rounded: real, slack: real)
    requires n > 0.0 && sum / n - slack <= rounded <= sum / n + slack
    ensures MeanOf(rounded, n, sum, slack)
  {
    var mean, most, product := sum / n, slack * n, rounded * n;
    Divided(sum, n, mean);
    ProductGrows(rounded, mean + slack, n, product, sum + most);
    ProductGrows(mean - slack, rounded, n, sum - most, product);
  }

  /** An average is null when there is nothing to average, and otherwise lies among the values, up to its rounding. */
  lemma AverageIsAmongValues(column: map<Observation, real>, low: real, high: real, places: nat, slack: real)
    requires slack * Unit(places) == 0.5
    requires forall o | o in column :: low <= column[o] <= high
    ensures Average(column, places).None? <==> column == map[]
    ensures column != map[] ==> About(Average(column, places), low, high, slack)
  {
    if column != map[] {
      assert |column| == |column.Keys| && |column.Keys| > 0;
      var n, sum := |column| as real, Sum(column);
      var bottom, top := low * n, high * n;
      SumBetween(column.Keys, column, low, high, bottom, top);
      MeanBetween(sum, n, low, high, bottom, top);
      RoundMoves(sum / n, places, Unit(places), slack);
    }
  }

  lemma SumBetween(rows: set<Observation>, column: map<Observation, real>, low: real, high: real,
                   bottom: real, top: real)
    requires rows <= column.Keys && forall o | o in rows :: low <= column[o] <= high
    requires bottom == low * |rows| as real && top == high * |rows| as real
    ensures bottom <= SumOver(rows, column) <= top
  {
    var lows := map o | o in rows :: low;
    var highs := map o | o in rows :: high;
    SumMonotone(rows, lows, column);
    SumMonotone(rows, column, highs);
    SumOfEqual(rows, lows, low);
    SumOfEqual(rows, highs, high);
  }

  lemma MeanBetween(sum: real, n: real, low: real, high: real, bottom: real, top: real)
    requires n > 0.0 && bottom == low * n && top == high * n && bottom <= sum <= top
    ensures low <= sum / n <= high
  {
    var mean := sum / n;
    if mean < low {
      ProductGrowsStrictly(mean, low, n, sum, bottom);
    }
    if mean > high {
      ProductGrowsStrictly(high, mean, n, top, sum);
    }
  }

  /** Altitudes are averaged to the nearest foot. */
  lemma AltitudeIsAmongAltitudes(obs: set<Observation>, low: real, high: real)
    requires forall o | o in obs && o.baroAltitudeFt.Some? :: low <= o.baroAltitudeFt.value <= high
    ensures AverageAltitude(obs).None? <==> forall o | o in obs :: o.baroAltitudeFt.None?
    ensures AverageAltitude(obs).Some? ==> About(AverageAltitude(obs), low, high, 0.5)
    ensures Averages(AverageAltitude(obs), Altitudes(obs), 0.5)
  {
    var column := Altitudes(obs);
    assert forall o | o in obs && o.baroAltitudeFt.Some? :: o in column;
    AverageIsAmongValues(column, low, high, 0, 0.5);
    AverageIsMean(column, 0, 0.5);
  }

  /** Speeds are averaged to the nearest tenth of a knot. */
  lemma SpeedIsAmongSpeeds(obs: set<Observation>, low: real, high: real)
    requires forall o | o in obs && o.velocityKts.Some? :: low <= o.velocityKts.value <= high
    ensures AverageVelocity(obs).None? <==> forall o | o in obs :: o.velocityKts.None?
    ensures AverageVelocity(obs).Some? ==> About(AverageVelocity(obs), low, high, 0.05)
    ensures Averages(AverageVelocity(obs), Speeds(obs), 0.05)
  {
    var column := Speeds(obs);
    assert forall o | o in obs && o.velocityKts.Some? :: o in column;
    Tenths();
    AverageIsAmongValues(column, low, high, 1, 0.05);
    AverageIsMean(column, 1, 0.05);
  }

  /** Each average column is the rounded mean of its own values, and so lies among them. */
  lemma AveragesDescribeBucket(t: Trig, obs: set<Observation>, lowFt: real, highFt: real, lowKts: real, highKts: real)
    requires obs != {}
    requires forall o | o in obs && o.baroAltitudeFt.Some? :: lowFt <= o.baroAltitudeFt.value <= highFt
    requires forall o | o in obs && o.velocityKts.Some? :: lowKts <= o.velocityKts.value <= highKts
    ensures var row := Aggregate(t, obs);
            && Averages(row.avgBaroAltitudeFt, Altitudes(obs), 0.5)
            && Averages(row.avgVelocityKts, Speeds(obs), 0.05)
            && (row.avgBaroAltitudeFt.Some? <==> exists o :: o in obs && o.baroAltitudeFt.Some?)
            && (row.avgBaroAltitudeFt.Some? ==> About(row.avgBaroAltitudeFt, lowFt, highFt, 0.5))
            && (row.avgVelocityKts.Some? <==> exists o :: o in obs && o.velocityKts.Some?)
            && (row.avgVelocityKts.Some? ==> About(row.avgVelocityKts, lowKts, highKts, 0.05))
  {
    AltitudeIsAmongAltitudes(obs, lowFt, highFt);
    SpeedIsAmongSpeeds(obs, lowKts, highKts);
  }

  lemma SomeOfEach(obs: set<Observation>)
    requires obs != {}
    ensures |Aircraft(obs)| >= 1 && |Runs(obs)| >= 1
  {
    var o := Pick(obs);
    assert o.icao24 in Aircraft(obs) && o.run in Runs(obs);
  }

  lemma TimesOf(obs: set<Observation>)
    ensures forall o | o in obs :: o.observedAt in ObservedAt(obs) && o.ingestedAt in IngestedAt(obs)
  {
  }

  lemma {:induction false} NoMoreThanObservations(obs: set<Observation>)
    ensures |Aircraft(obs)| <= |obs| && |Runs(obs)| <= |obs|
  {
    if obs == {} {
    } else {
      var o := Pick(obs);
      NoMoreThanObservations(obs - {o});
      assert Aircraft(obs) == Aircraft(obs - {o}) + {o.icao24};
      assert Runs(obs) == Runs(obs - {o}) + {o.run};
    }
  }

  // --- the group-by ---

  type Mart = map<BucketKey, BucketRow>

  /** One row per hour, cell and band that occur together, over exactly the observations that share them. */
  lemma RowsOfGroupBy(t: Trig, obs: set<Observation>, k: BucketKey)
    ensures var bucket := set o | o in obs && TruncHour(o.observedAt) == k.hour && o.cell == k.cell && o.band == k.band;
            && (k in GroupBy(t, obs) <==> bucket != {})
            && (k in GroupBy(t, obs) ==> GroupBy(t, obs)[k] == Aggregate(t, bucket))
  {
    var bucket := set o | o in obs && TruncHour(o.observedAt) == k.hour && o.cell == k.cell && o.band == k.band;
    assert bucket == InBucket(obs, k);
    if bucket != {} {
      var o :| o in bucket;
      assert o.Bucket() == k;
    }
  }

  function Keys(obs: set<Observation>): set<BucketKey> { set o | o in obs :: o.Bucket() }

  function InBucket(obs: set<Observation>, k: BucketKey): (bucket: set<Observation>)
    ensures k in Keys(obs) ==> bucket != {}
  {
    var bucket := set o | o in obs && o.Bucket() == k;
    assert k in Keys(obs) ==> bucket != {} by {
      if k in Keys(obs) {
        var o :| o in obs && o.Bucket() == k;
        assert o in bucket;
      }
    }
    bucket
  }

  function InHour(obs: set<Observation>, h: Time): set<Observation> { set o | o in obs && o.Hour() == h }

  ghost function GroupBy(t: Trig, obs: set<Observation>): Mart {
    map k | k in Keys(obs) :: Aggregate(t, InBucket(obs, k))
  }

  /** What a full refresh would build. */
  ghost function Full(cfg: Config, raw: Table): Mart { GroupBy(cfg.trig, Observations(cfg, raw)) }

  function Hours(mart: Mart): set<Time> { set k | k in mart :: k.hour }

  function Slice(mart: Mart, h: Time): Mart { map k | k in mart && k.hour == h :: mart[k] }

  /** Some of the rows, chosen by key, and the observations they summarise. */
  function Where(mart: Mart, chosen: BucketKey -> bool): Mart { map k | k in mart && chosen(k) :: mart[k] }

  function Whose(obs: set<Observation>, chosen: BucketKey -> bool): set<Observation> {
    set o | o in obs && chosen(o.Bucket())
  }

  /** Choosing rows of the mart is grouping the observations chosen in the same way. */
  lemma WhereOfGroupBy(t: Trig, obs: set<Observation>, chosen: BucketKey -> bool)
    ensures Where(GroupBy(t, obs), chosen) == GroupBy(t, Whose(obs, chosen))
  {
    var part := Whose(obs, chosen);
    forall k ensures k in Keys(part) <==> k in Keys(obs) && chosen(k) {
      ChosenKeys(obs, chosen, k);
    }
    forall k | k in Keys(part) ensures InBucket(part, k) == InBucket(obs, k) {
      ChosenBucket(obs, chosen, k);
    }
    SameRows(Where(GroupBy(t, obs), chosen), GroupBy(t, part));
  }

  lemma ChosenKeys(obs: set<Observation>, chosen: BucketKey -> bool, k: BucketKey)
    ensures k in Keys(Whose(obs, chosen)) <==> k in Keys(obs) && chosen(k)
  {
    if k in Keys(obs) && chosen(k) {
      var o :| o in obs && o.Bucket() == k;
      assert o in Whose(obs, chosen);
    }
  }

  lemma ChosenBucket(obs: set<Observation>, chosen: BucketKey -> bool, k: BucketKey)
    requires chosen(k)
    ensures InBucket(Whose(obs, chosen), k) == InBucket(obs, k)
  {
  }

  lemma SameRows(a: Mart, b: Mart)
    requires a.Keys == b.Keys && forall k | k in a :: a[k] == b[k]
    ensures a == b
  {
  }

  /** An hour of the mart depends on the observations of that hour only. */
  lemma SliceOfGroupBy(t: Trig, obs: set<Observation>, h: Time)
    ensures Slice(GroupBy(t, obs), h) == GroupBy(t, InHour(obs, h))
  {
    HourIsChosen(GroupBy(t, obs), obs, h);
    WhereOfGroupBy(t, obs, AtHour(h));
  }

  function AtHour(h: Time): BucketKey -> bool { (k: BucketKey) => k.hour == h }

  lemma HourIsChosen(mart: Mart, obs: set<Observation>, h: Time)
    ensures Slice(mart, h) == Where(mart, AtHour(h)) && InHour(obs, h) == Whose(obs, AtHour(h))
  {
  }

  lemma HoursOfGroupBy(t: Trig, obs: set<Observation>, h: Time)
    ensures h in Hours(GroupBy(t, obs)) <==> InHour(obs, h) != {}
  {
    assert GroupBy(t, obs).Keys == Keys(obs);
    HoursOfKeys(obs, h);
  }

  lemma HoursOfKeys(obs: set<Observation>, h: Time)
    ensures (exists k :: k in Keys(obs) && k.hour == h) <==> InHour(obs, h) != {}
  {
    if k :| k in Keys(obs) && k.hour == h {
      var o :| o in obs && o.Bucket() == k;
      assert o in InHour(obs, h);
    }
    if InHour(obs, h) != {} {
      var o :| o in InHour(obs, h);
      assert o.Bucket() in Keys(obs) && o.Bucket().hour == h;
    }
  }

  lemma HoursOfSlice(mart: Mart, h: Time)
    ensures h in Hours(mart) <==> Slice(mart, h) != map[]
  {
    if h in Hours(mart) {
      var k :| k in mart && k.hour == h;
      assert k in Slice(mart, h);
    }
    if Slice(mart, h) != map[] {
      assert Slice(mart, h).Keys != {};
      var k :| k in Slice(mart, h).Keys;
    }
  }

  ghost function Counts(mart: Mart): map<BucketKey, real> {
    map k | k in mart :: mart[k].observationCount as real
  }

  /** The buckets partition the observations: their counts add up to all of them. */
  lemma CountsAddUp(t: Trig, obs: set<Observation>)
    ensures Sum(Counts(GroupBy(t, obs))) == |obs| as real
  {
    var group := map o | o in obs :: o.Bucket();
    var counts := Counts(GroupBy(t, obs));
    forall k | k in Keys(obs) ensures counts[k] == SumOver(Part(obs, group, k), Ones(obs)) {
      assert Part(obs, group, k) == InBucket(obs, k);
      SumOfOnes(InBucket(obs, k), Ones(obs));
    }
    assert counts.Keys == Keys(obs);
    SumGrouped(obs, Ones(obs), group, Keys(obs), counts);
    SumOfOnes(obs, Ones(obs));
  }

  /** Every positioned row is counted once, and only once. */
  lemma EveryRowCountedOnce(cfg: Config, raw: Table)
    requires WellKeyed(raw)
    ensures Sum(Counts(Full(cfg, raw)))
         == |set k | k in raw && raw[k].vector.latitude.Some? && raw[k].vector.longitude.Some?| as real
  {
    CountsAddUp(cfg.trig, Observations(cfg, raw));
    AsManyObservationsAsRows(cfg, raw);
    assert PositionedKeys(raw) == set k | k in raw && raw[k].vector.latitude.Some? && raw[k].vector.longitude.Some?;
  }

  // --- the incremental build ---

  /** `coalesce(max(activity_hour) - lookback, '-infinity')`. */
  ghost function Cutoff(cfg: Config, mart: Mart): Option<Time> {
    if mart == map[] then None
    else
      var k := Pick(mart.Keys);
      assert k.hour in Hours(mart);
      Some(Latest(Hours(mart)) - cfg.lookbackHours * HOUR)
  }

  predicate AtOrAfter(t: Time, cutoff: Option<Time>) { cutoff.Some? ==> t >= cutoff.value }

  /** What the incremental run reads. */
  function Recent(obs: set<Observation>, cutoff: Option<Time>): set<Observation> {
    set o | o in obs && AtOrAfter(o.observedAt, cutoff)
  }

  /** `delete+insert` keyed on the hour: rows of an hour that the batch touches go, the batch's rows come. */
  function DeleteInsert(mart: Mart, batch: Mart): Mart {
    (map k | k in mart && k.hour !in Hours(batch) :: mart[k]) + batch
  }

  ghost function Incremental(cfg: Config, raw: Table, mart: Mart): Mart {
    DeleteInsert(mart, GroupBy(cfg.trig, Recent(Observations(cfg, raw), Cutoff(cfg, mart))))
  }

  /** After a delete and insert, each hour comes from one side or the other, whole. */
  lemma DeleteInsertByHour(mart: Mart, batch: Mart, h: Time)
    ensures Slice(DeleteInsert(mart, batch), h) == if h in Hours(batch) then Slice(batch, h) else Slice(mart, h)
  {
    var after := DeleteInsert(mart, batch);
    if h in Hours(batch) {
      assert forall k | k in after && k.hour == h :: k in batch && after[k] == batch[k];
      assert Slice(after, h) == Slice(batch, h);
    } else {
      assert forall k | k in after && k.hour == h :: k !in batch && k in mart && after[k] == mart[k];
      assert forall k | k in mart && k.hour == h :: k !in batch;
      assert Slice(after, h) == Slice(mart, h);
    }
  }

  /** Mart hours are real hours, and raw still has the observations of each. */
  ghost predicate Backed(cfg: Config, raw: Table, mart: Mart) {
    forall h | h in Hours(mart) :: InHour(Observations(cfg, raw), h) != {}
  }

  lemma CutoffIsAligned(cfg: Config, raw: Table, mart: Mart)
    requires Backed(cfg, raw, mart) && Cutoff(cfg, mart).Some?
    ensures Cutoff(cfg, mart).value % HOUR == 0
  {
    var h := Latest(Hours(mart));
    var o :| o in InHour(Observations(cfg, raw), h);
    assert h % HOUR == 0;
    assert Cutoff(cfg, mart).value == h - cfg.lookbackHours * HOUR;
  }

  /** The filter on `observed_at` never splits an hour. */
  lemma RecentByHour(cfg: Config, raw: Table, mart: Mart, h: Time)
    requires Backed(cfg, raw, mart)
    ensures var obs := Observations(cfg, raw);
            InHour(Recent(obs, Cutoff(cfg, mart)), h) == if AtOrAfter(h, Cutoff(cfg, mart)) then InHour(obs, h) else {}
  {
    var obs, cutoff := Observations(cfg, raw), Cutoff(cfg, mart);
    if cutoff.Some? {
      CutoffIsAligned(cfg, raw, mart);
      forall o | o in InHour(obs, h) ensures AtOrAfter(o.observedAt, cutoff) <==> AtOrAfter(h, cutoff) {
        AlignedBoundary(cutoff.value, o.observedAt);
      }
    }
  }

  /**
   An incremental build makes every hour at or after its cutoff equal to the full rebuild, and leaves
   every earlier hour as it was.
   */
  lemma IncrementalByHour(cfg: Config, raw: Table, mart: Mart, h: Time)
    requires Backed(cfg, raw, mart)
    ensures Slice(Incremental(cfg, raw, mart), h)
         == Slice(if AtOrAfter(h, Cutoff(cfg, mart)) then Full(cfg, raw) else mart, h)
  {
    var obs, cutoff := Observations(cfg, raw), Cutoff(cfg, mart);
    var batch := GroupBy(cfg.trig, Recent(obs, cutoff));
    DeleteInsertByHour(mart, batch, h);
    RecentByHour(cfg, raw, mart, h);
    SliceOfGroupBy(cfg.trig, Recent(obs, cutoff), h);
    SliceOfGroupBy(cfg.trig, obs, h);
    HoursOfGroupBy(cfg.trig, Recent(obs, cutoff), h);
    if AtOrAfter(h, cutoff) && InHour(obs, h) == {} {
      assert h !in Hours(mart);
      HoursOfSlice(mart, h);
      assert GroupBy(cfg.trig, InHour(obs, h)) == map[];
    }
  }

  // --- snapshots of an hour ---

  /** Equal counts of a part and its whole mean the same observations, hence the same buckets and columns. */
  lemma SameCountSameSlice(t: Trig, part: set<Observation>, whole: set<Observation>, h: Time)
    requires part <= whole
    ensures |InHour(part, h)| == |InHour(whole, h)| <==> Slice(GroupBy(t, part), h) == Slice(GroupBy(t, whole), h)
    ensures |InHour(part, h)| <= |InHour(whole, h)|
    ensures |InHour(part, h)| == |InHour(whole, h)| <==> InHour(part, h) == InHour(whole, h)
  {
    assert InHour(part, h) <= InHour(whole, h);
    SubsetOfSameSize(InHour(part, h), InHour(whole, h));
    SliceOfGroupBy(t, part, h);
    SliceOfGroupBy(t, whole, h);
    CountsAddUp(t, InHour(part, h));
    CountsAddUp(t, InHour(whole, h));
  }

  /** The hour was built, whole, from an earlier state of the table. */
  ghost predicate FromSnapshot(cfg: Config, snapshot: Table, raw: Table, mart: Mart, h: Time) {
    Extends(snapshot, raw) && Slice(mart, h) == Slice(Full(cfg, snapshot), h)
  }

  ghost predicate Fresh(cfg: Config, raw: Table, mart: Mart, h: Time) {
    Slice(mart, h) == Slice(Full(cfg, raw), h)
  }

  // --- the reconciliation test ---

  ghost function MartCount(mart: Mart, h: Time): Option<real> {
    if h in Hours(mart) then Some(Sum(Counts(Slice(mart, h)))) else None
  }

  function SourceCount(obs: set<Observation>, h: Time): Option<real> {
    if InHour(obs, h) == {} then None else Some(|InHour(obs, h)| as real)
  }

  /** `coalesce(x, -1)`. */
  function OrMinusOne(x: Option<real>): real { if x.Some? then x.value else -1.0 }

  /** The rows the test returns, by hour: a full outer join of the two counts over closed hours. */
  ghost function Mismatches(cfg: Config, raw: Table, mart: Mart, now: Time): set<Time> {
    var obs := Observations(cfg, raw);
    set h | h in Hours(mart) + Hours(Full(cfg, raw)) && h < TruncHour(now)
         && OrMinusOne(MartCount(mart, h)) != OrMinusOne(SourceCount(obs, h))
  }

  /** For an hour built from an earlier snapshot, the counts agree exactly when the whole hour does. */
  lemma CountsDecide(cfg: Config, snapshot: Table, raw: Table, mart: Mart, h: Time)
    requires FromSnapshot(cfg, snapshot, raw, mart, h)
    ensures OrMinusOne(MartCount(mart, h)) == OrMinusOne(SourceCount(Observations(cfg, raw), h))
       <==> Fresh(cfg, raw, mart, h)
  {
    var t := cfg.trig;
    var seen, obs := Observations(cfg, snapshot), Observations(cfg, raw);
    ObservationsGrow(cfg, snapshot, raw);
    SameCountSameSlice(t, seen, obs, h);
    SliceOfGroupBy(t, seen, h);
    CountsAddUp(t, InHour(seen, h));
    HoursOfSlice(mart, h);
    HoursOfSlice(Full(cfg, snapshot), h);
    HoursOfGroupBy(t, seen, h);
    assert MartCount(mart, h) == SourceCount(seen, h);
  }

  /**
   The test compares only one number per hour, and that is enough: over a mart whose hours were each
   built from some earlier state of an append-only table, it reports exactly the closed hours in which
   any bucket or column differs from a full rebuild.
   */
  lemma ReconciliationIsComplete(cfg: Config, raw: Table, mart: Mart, now: Time)
    requires forall h | h in Hours(mart) :: exists snapshot :: FromSnapshot(cfg, snapshot, raw, mart, h)
    ensures forall h :: h in Mismatches(cfg, raw, mart, now) <==> h < TruncHour(now) && !Fresh(cfg, raw, mart, h)
  {
    forall h ensures h in Mismatches(cfg, raw, mart, now) <==> h < TruncHour(now) && !Fresh(cfg, raw, mart, h) {
      HoursOfSlice(mart, h);
      HoursOfSlice(Full(cfg, raw), h);
      if h in Hours(mart) {
        var snapshot :| FromSnapshot(cfg, snapshot, raw, mart, h);
        CountsDecide(cfg, snapshot, raw, mart, h);
      } else {
        EmptySnapshot(cfg, raw, mart, h);
        CountsDecide(cfg, map[], raw, mart, h);
      }
    }
  }

  /** An hour the mart does not have is the rebuild of the empty table. */
  lemma EmptySnapshot(cfg: Config, raw: Table, mart: Mart, h: Time)
    requires h !in Hours(mart)
    ensures FromSnapshot(cfg, map[], raw, mart, h)
  {
    HoursOfSlice(mart, h);
    assert Observations(cfg, map[]) == {};
    assert Full(cfg, map[]) == map[];
    HoursOfSlice(Full(cfg, map[]), h);
  }
}
