/**
 The daily profile (transform/models/marts/fct_airspace_activity_daily.sql), rebuilt in full from the
 observations, and how it relates to the hourly mart.
 */
module DailyMart {
  import opened Wrappers
  import opened Clock
  import opened Sums
  import opened Direction
  import opened Gridded
  import opened HourlyMart

  datatype DayKey = DayKey(date: int, band: Band)

  datatype DayRow = DayRow(
    observationCount: nat,
    distinctAircraft: nat,
    distinctGridCells: nat,
    avgBaroAltitudeFt: Option<real>,
    avgVelocityKts: Option<real>,
    firstObservedAt: Time,
    lastObservedAt: Time,
    contributingRunCount: nat,
    lastIngestedAt: Time)

  function DayOfBucket(k: BucketKey): DayKey { DayKey(DayOf(k.hour), k.band) }

  function Cells(obs: set<Observation>): set<Cell> { set o | o in obs :: o.cell }

  ghost function Profile(obs: set<Observation>): DayRow
    requires obs != {}
  {
    DayRow(
      |obs|,
      |Aircraft(obs)|,
      |Cells(obs)|,
      AverageAltitude(obs),
      AverageVelocity(obs),
      Earliest(ObservedAt(obs)),
      Latest(ObservedAt(obs)),
      |Runs(obs)|,
      Latest(IngestedAt(obs)))
  }

  function DayKeys(obs: set<Observation>): set<DayKey> { set o | o in obs :: DayKey(o.Day(), o.band) }

  function InDay(obs: set<Observation>, d: DayKey): (part: set<Observation>)
    ensures d in DayKeys(obs) ==> part != {}
  {
    var part := set o | o in obs && DayKey(o.Day(), o.band) == d;
    assert d in DayKeys(obs) ==> part != {} by {
      if d in DayKeys(obs) {
        var o :| o in obs && DayKey(o.Day(), o.band) == d;
        assert o in part;
      }
    }
    part
  }

  ghost function Daily(obs: set<Observation>): map<DayKey, DayRow> {
    map d | d in DayKeys(obs) :: Profile(InDay(obs, d))
  }

  /** Every column of a profile, from its observations. */
  lemma ProfileIs(obs: set<Observation>)
    requires obs != {}
    ensures var row := Profile(obs);
            && row.observationCount == |obs|
            && row.distinctAircraft == |set o | o in obs :: o.icao24|
            && row.distinctGridCells == |set o | o in obs :: o.cell|
            && row.contributingRunCount == |set o | o in obs :: o.run|
            && IsAverage(row.avgBaroAltitudeFt,
                         map o | o in obs && o.baroAltitudeFt.Some? :: o.baroAltitudeFt.value, 1.0)
            && IsAverage(row.avgVelocityKts, map o | o in obs && o.velocityKts.Some? :: o.velocityKts.value, 10.0)
  {
    AltitudeIsAverage(obs);
    SpeedIsAverage(obs);
  }

  lemma ProfileTimes(obs: set<Observation>)
    requires obs != {}
    ensures var row := Profile(obs);
            && (forall o | o in obs :: row.firstObservedAt <= o.observedAt <= row.lastObservedAt)
            && (forall o | o in obs :: o.ingestedAt <= row.lastIngestedAt)
            && (exists o :: o in obs && o.observedAt == row.firstObservedAt)
            && (exists o :: o in obs && o.observedAt == row.lastObservedAt)
            && (exists o :: o in obs && o.ingestedAt == row.lastIngestedAt)
  {
    TimesOf(obs);
  }

  /** One row per date and band that occur together, over exactly the observations that share them. */
  lemma RowsOfDaily(obs: set<Observation>, d: DayKey)
    ensures var part := set o | o in obs && DayOf(o.observedAt) == d.date && o.band == d.band;
            && (d in Daily(obs) <==> part != {})
            && (d in Daily(obs) ==> Daily(obs)[d] == Profile(part))
  {
    var part := set o | o in obs && DayOf(o.observedAt) == d.date && o.band == d.band;
    assert part == InDay(obs, d);
    if part != {} {
      var o :| o in part;
      assert DayKey(o.Day(), o.band) == d;
    }
  }

  /** The hourly rows of one date and band. */
  function DaySlice(mart: Mart, d: DayKey): Mart { map k | k in mart && DayOfBucket(k) == d :: mart[k] }

  /** A bucket lies within one date: its hour does. */
  lemma DayOfObservation(o: Observation)
    ensures DayOfBucket(o.Bucket()) == DayKey(o.Day(), o.band)
  {
    HourWithinDay(o.observedAt);
  }

  /** The hourly rows of a date and band are the grouping of that day's observations in that band. */
  lemma DaySliceOfGroupBy(t: Trig, obs: set<Observation>, d: DayKey)
    ensures DaySlice(GroupBy(t, obs), d) == GroupBy(t, InDay(obs, d))
  {
    DayIsChosen(GroupBy(t, obs), obs, d);
    WhereOfGroupBy(t, obs, OnDay(d));
  }

  function OnDay(d: DayKey): BucketKey -> bool { (k: BucketKey) => DayOfBucket(k) == d }

  lemma DayIsChosen(mart: Mart, obs: set<Observation>, d: DayKey)
    ensures DaySlice(mart, d) == Where(mart, OnDay(d)) && InDay(obs, d) == Whose(obs, OnDay(d))
  {
    forall o | o in obs ensures DayOfBucket(o.Bucket()) == DayKey(o.Day(), o.band) {
      DayOfObservation(o);
    }
  }

  /** The hourly counts of a date and band add up to the daily count. */
  lemma HourlyCountsAddUpToDaily(t: Trig, obs: set<Observation>, d: DayKey)
    requires d in DayKeys(obs)
    ensures Sum(Counts(DaySlice(GroupBy(t, obs), d))) == Daily(obs)[d].observationCount as real
  {
    DaySliceOfGroupBy(t, obs, d);
    CountsAddUp(t, InDay(obs, d));
  }

  ghost function AircraftCounts(mart: Mart): map<BucketKey, real> {
    map k | k in mart :: mart[k].distinctAircraft as real
  }

  function AircraftByBucket(obs: set<Observation>): map<BucketKey, set<string>> {
    map k | k in Keys(obs) :: Aircraft(InBucket(obs, k))
  }

  /** Some aircraft appears in two buckets. */
  predicate AircraftRecur(obs: set<Observation>) {
    exists o, p :: o in obs && p in obs && o.icao24 == p.icao24 && o.Bucket() != p.Bucket()
  }

  /**
   Distinct aircraft cannot be rolled up. The true number lies between the largest of the bucket
   figures and their sum, and the sum is right exactly when no aircraft was in two buckets.
   */
  lemma AircraftCannotBeSummed(t: Trig, obs: set<Observation>)
    ensures forall k | k in GroupBy(t, obs) :: GroupBy(t, obs)[k].distinctAircraft <= |Aircraft(obs)|
    ensures |Aircraft(obs)| as real <= Sum(AircraftCounts(GroupBy(t, obs)))
    ensures |Aircraft(obs)| as real == Sum(AircraftCounts(GroupBy(t, obs))) <==> !AircraftRecur(obs)
  {
    var counts := AircraftCounts(GroupBy(t, obs));
    assert counts.Keys == Keys(obs);
    UnionBound(Keys(obs), AircraftByBucket(obs), counts);
    AircraftUnion(obs);
    RecurringIsOverlap(obs);
    forall k | k in Keys(obs) ensures |Aircraft(InBucket(obs, k))| <= |Aircraft(obs)| {
      SubsetOfSameSize(Aircraft(InBucket(obs, k)), Aircraft(obs));
    }
  }

  lemma AircraftUnion(obs: set<Observation>)
    ensures UnionOf(Keys(obs), AircraftByBucket(obs)) == Aircraft(obs)
  {
    forall o | o in obs ensures o.icao24 in UnionOf(Keys(obs), AircraftByBucket(obs)) {
      assert o.Bucket() in Keys(obs) && o in InBucket(obs, o.Bucket());
      assert o.icao24 in AircraftByBucket(obs)[o.Bucket()];
    }
  }

  lemma RecurringIsOverlap(obs: set<Observation>)
    ensures Disjoint(Keys(obs), AircraftByBucket(obs)) <==> !AircraftRecur(obs)
  {
    var sets := AircraftByBucket(obs);
    if AircraftRecur(obs) {
      var o, p :| o in obs && p in obs && o.icao24 == p.icao24 && o.Bucket() != p.Bucket();
      assert o in InBucket(obs, o.Bucket()) && p in InBucket(obs, p.Bucket());
      assert o.icao24 in sets[o.Bucket()] && o.icao24 in sets[p.Bucket()];
    }
    if !Disjoint(Keys(obs), sets) {
      var j, k :| j in Keys(obs) && k in Keys(obs) && j != k && !(sets[j] !! sets[k]);
      var a :| a in sets[j] && a in sets[k];
      var o :| o in InBucket(obs, j) && o.icao24 == a;
      var p :| p in InBucket(obs, k) && p.icao24 == a;
      assert o.Bucket() != p.Bucket();
    }
  }

  /** The daily figure between the two roll-ups of the hourly mart. */
  lemma DailyAircraftBetween(t: Trig, obs: set<Observation>, d: DayKey)
    requires d in DayKeys(obs)
    ensures var hourly, daily := DaySlice(GroupBy(t, obs), d), Daily(obs)[d];
            && (forall k | k in hourly :: hourly[k].distinctAircraft <= daily.distinctAircraft)
            && daily.distinctAircraft as real <= Sum(AircraftCounts(hourly))
            && (daily.distinctAircraft as real == Sum(AircraftCounts(hourly)) <==> !AircraftRecur(InDay(obs, d)))
  {
    DaySliceOfGroupBy(t, obs, d);
    AircraftCannotBeSummed(t, InDay(obs, d));
  }

  /** Coverage and time span do roll up: the cells, the first and the last moment are those of the hourly rows. */
  lemma CoverageRollsUp(t: Trig, obs: set<Observation>, d: DayKey)
    requires d in DayKeys(obs)
    ensures var hourly, daily := DaySlice(GroupBy(t, obs), d), Daily(obs)[d];
            && daily.distinctGridCells == |set k | k in hourly :: k.cell|
            && (forall k | k in hourly :: daily.firstObservedAt <= hourly[k].firstObservedAt)
            && (exists k :: k in hourly && daily.firstObservedAt == hourly[k].firstObservedAt)
            && (forall k | k in hourly :: hourly[k].lastObservedAt <= daily.lastObservedAt)
            && (exists k :: k in hourly && daily.lastObservedAt == hourly[k].lastObservedAt)
  {
    var part := InDay(obs, d);
    DaySliceOfGroupBy(t, obs, d);
    CellsOfBuckets(t, part);
    SpanOfBuckets(t, part);
  }

  lemma CellsOfBuckets(t: Trig, obs: set<Observation>)
    ensures Cells(obs) == set k | k in GroupBy(t, obs) :: k.cell
  {
    forall o | o in obs ensures o.cell in set k | k in GroupBy(t, obs) :: k.cell {
      assert o.Bucket() in GroupBy(t, obs);
    }
  }

  lemma SpanOfBuckets(t: Trig, obs: set<Observation>)
    requires obs != {}
    ensures var mart, first, last := GroupBy(t, obs), Earliest(ObservedAt(obs)), Latest(ObservedAt(obs));
            && (forall k | k in mart :: first <= mart[k].firstObservedAt && mart[k].lastObservedAt <= last)
            && (exists k :: k in mart && first == mart[k].firstObservedAt)
            && (exists k :: k in mart && last == mart[k].lastObservedAt)
  {
    var mart, first, last := GroupBy(t, obs), Earliest(ObservedAt(obs)), Latest(ObservedAt(obs));
    forall k | k in mart ensures first <= mart[k].firstObservedAt && mart[k].lastObservedAt <= last {
      SpanOfBucket(obs, InBucket(obs, k));
    }
    var o :| o in obs && o.observedAt == first;
    SpanHolds(InBucket(obs, o.Bucket()), o);
    var p :| p in obs && p.observedAt == last;
    SpanHolds(InBucket(obs, p.Bucket()), p);
    assert o.Bucket() in mart && p.Bucket() in mart;
  }

  lemma SpanHolds(part: set<Observation>, o: Observation)
    requires o in part
    ensures Earliest(ObservedAt(part)) <= o.observedAt <= Latest(ObservedAt(part))
  {
    assert o.observedAt in ObservedAt(part);
  }

  lemma SpanOfBucket(obs: set<Observation>, part: set<Observation>)
    requires part != {} && part <= obs
    ensures Earliest(ObservedAt(obs)) <= Earliest(ObservedAt(part))
    ensures Latest(ObservedAt(part)) <= Latest(ObservedAt(obs))
  {
    assert ObservedAt(part) <= ObservedAt(obs);
  }
}
