/**
 The dashboard's density grid (api/queries.py, `grid_density`): per cell, over the hours since some
 moment, what the hourly buckets say together.
 */
module Density {
  import opened Wrappers
  import opened Clock
  import opened Accuracy
  import opened Sums
  import opened Direction
  import opened Recombination
  import opened Landing
  import opened Gridded
  import opened HourlyMart
  import DailyMart
  import MartRuns

  datatype CellRow = CellRow(
    observationCount: real,
    aircraftBucketTotal: real,
    trackSampleCount: real,
    direction: Option<Polar>) // dominant_track_deg and track_concentration, null together

  /** `WHERE activity_hour >= since`, for one cell. */
  function CellSlice(mart: Mart, since: Time, cell: Cell): Mart {
    map k | k in mart && k.hour >= since && k.cell == cell :: mart[k]
  }

  ghost function Directions(mart: Mart): map<BucketKey, Summary> {
    map k | k in mart :: mart[k].direction
  }

  /** The mean vector the query derives its columns from. */
  ghost function Flow(t: Trig, slice: Mart): Option<Heading> { Recombine(t, Directions(slice)) }

  ghost function Combined(t: Trig, slice: Mart): CellRow {
    CellRow(
      Sum(Counts(slice)),
      Sum(DailyMart.AircraftCounts(slice)),
      Sum(Samples(Directions(slice))),
      if Flow(t, slice).None? then None else Some(Shown(t, Flow(t, slice).value)))
  }

  ghost function GridDensity(t: Trig, mart: Mart, since: Time): map<Cell, CellRow> {
    map k | k in mart && k.hour >= since :: k.cell := Combined(t, CellSlice(mart, since, k.cell))
  }

  /** The observations behind a cell. */
  function Seen(obs: set<Observation>, since: Time, cell: Cell): set<Observation> {
    set o | o in obs && o.Hour() >= since && o.cell == cell
  }

  lemma CellSliceOfGroupBy(t: Trig, obs: set<Observation>, since: Time, cell: Cell)
    ensures CellSlice(GroupBy(t, obs), since, cell) == GroupBy(t, Seen(obs, since, cell))
  {
    CellIsChosen(GroupBy(t, obs), obs, since, cell);
    WhereOfGroupBy(t, obs, InCell(since, cell));
  }

  function InCell(since: Time, cell: Cell): BucketKey -> bool { (k: BucketKey) => k.hour >= since && k.cell == cell }

  lemma CellIsChosen(mart: Mart, obs: set<Observation>, since: Time, cell: Cell)
    ensures CellSlice(mart, since, cell) == Where(mart, InCell(since, cell))
    ensures Seen(obs, since, cell) == Whose(obs, InCell(since, cell))
  {
  }

  /** Which cells the query lists. */
  lemma ListedCells(t: Trig, obs: set<Observation>, since: Time, cell: Cell)
    ensures cell in GridDensity(t, GroupBy(t, obs), since) <==> Seen(obs, since, cell) != {}
  {
    Listed(t, GroupBy(t, obs), since, cell);
    if k :| k in Keys(obs) && k.hour >= since && k.cell == cell {
      var o :| o in obs && o.Bucket() == k;
      assert o in Seen(obs, since, cell);
    }
    if Seen(obs, since, cell) != {} {
      var o :| o in Seen(obs, since, cell);
      assert o.Bucket() in Keys(obs);
    }
  }

  lemma Listed(t: Trig, mart: Mart, since: Time, cell: Cell)
    ensures cell in GridDensity(t, mart, since) <==> exists k :: k in mart.Keys && k.hour >= since && k.cell == cell
    ensures cell in GridDensity(t, mart, since) ==>
              GridDensity(t, mart, since)[cell] == Combined(t, CellSlice(mart, since, cell))
  {
  }

  // --- the direction ---

  function ByBucket(obs: set<Observation>): map<Observation, BucketKey> { map o | o in obs :: o.Bucket() }

  ghost function TrueSummaries(t: Trig, obs: set<Observation>): map<BucketKey, Summary> {
    Summaries(t, Tracks(obs), ByBucket(obs), Keys(obs))
  }

  /** The mart's direction columns are the stored summaries of a partition of the tracks. */
  lemma MartStoresSummaries(t: Trig, obs: set<Observation>)
    ensures Directions(GroupBy(t, obs)) == Stored(TrueSummaries(t, obs))
  {
    forall k | k in Keys(obs) ensures GroupBy(t, obs)[k].direction == Rounded(TrueSummaries(t, obs)[k]) {
      TracksOfBucket(obs, k);
    }
    DirectionsAre(GroupBy(t, obs), TrueSummaries(t, obs));
  }

  lemma DirectionsAre(mart: Mart, summaries: map<BucketKey, Summary>)
    requires summaries.Keys == mart.Keys && forall k | k in mart :: mart[k].direction == Rounded(summaries[k])
    ensures Directions(mart) == Stored(summaries)
  {
  }

  lemma TracksOfBucket(obs: set<Observation>, k: BucketKey)
    ensures Tracks(InBucket(obs, k)) == Bucket(Tracks(obs), ByBucket(obs), k)
  {
  }

  ghost predicate UnitTracks(obs: set<Observation>) {
    forall o | o in obs && o.track.Some? :: o.track.value.IsUnit()
  }

  /**
   The flow recombined from the stored buckets against the circular mean of the observations
   themselves: null together, and otherwise each component within the tolerance, however many hours
   and bands went in.
   */
  lemma FlowIsNearTrueMean(t: Trig, obs: set<Observation>)
    requires t.Laws() && UnitTracks(obs)
    ensures NearMean(t, Flow(t, GroupBy(t, obs)), Tracks(obs))
  {
    MartStoresSummaries(t, obs);
    StoredRecombinesNearMean(t, Tracks(obs), ByBucket(obs), Keys(obs));
  }

  ghost function Shown(t: Trig, flow: Heading): Polar { RoundPolar(ToPolar(t, flow)) }

  /**
   What the query shows of a flow: a bearing that reads 360.0 exactly from 359.95 on, a length between
   zero and one, and both near the direction of the observations themselves.
   */
  ghost predicate ShowsTruth(t: Trig, obs: set<Observation>, flow: Heading, shown: Polar) {
    && shown == Shown(t, flow)
    && 0.0 <= shown.bearing <= 360.0 && 0.0 <= shown.length <= 1.0
    && (shown.bearing == 360.0 <==> ToPolar(t, flow).bearing >= 359.95)
    && |Tracks(obs)| > 0 && ShownNearTruth(t, Exact(t, Tracks(obs)).polar.value, shown)
  }

  lemma FlowShowsTruth(t: Trig, obs: set<Observation>)
    requires t.Laws() && UnitTracks(obs)
    ensures var flow := Flow(t, GroupBy(t, obs));
            flow.Some? ==> ShowsTruth(t, obs, flow.value, Shown(t, flow.value))
  {
    var flow := Flow(t, GroupBy(t, obs));
    if flow.Some? {
      FlowIsNearTrueMean(t, obs);
      ShownIsNearTruth(t, Tracks(obs), flow);
      BearingIs360ExactlyWhen(t, flow.value);
      MartStoresSummaries(t, obs);
      StoredShowsInRange(t, Tracks(obs), ByBucket(obs), Keys(obs));
    }
  }

  lemma TrackSamplesAddUp(t: Trig, obs: set<Observation>)
    ensures Sum(Samples(Directions(GroupBy(t, obs)))) == |Tracks(obs)| as real
  {
    var tracks, group := Tracks(obs), ByBucket(obs);
    var buckets := Stored(TrueSummaries(t, obs));
    MartStoresSummaries(t, obs);
    forall k | k in buckets
      ensures buckets[k].samples as real == SumOver(Part(tracks.Keys, group, k), Ones(tracks.Keys))
    {
      BucketTotals(tracks, group, k);
    }
    SamplesAddUp(t, tracks, group, buckets);
  }

  // --- the whole grid ---

  /** The hours the query looks at are as a full rebuild would have them; older ones may be stale. */
  ghost predicate FreshSince(cfg: Config, raw: Table, mart: Mart, since: Time) {
    forall h | h >= since :: Fresh(cfg, raw, mart, h)
  }

  lemma SameSince(cfg: Config, raw: Table, mart: Mart, since: Time, k: BucketKey)
    requires FreshSince(cfg, raw, mart, since) && k.hour >= since
    ensures k in mart <==> k in Full(cfg, raw)
    ensures k in mart ==> mart[k] == Full(cfg, raw)[k]
  {
    assert Fresh(cfg, raw, mart, k.hour);
    SameInSlice(mart, Full(cfg, raw), k);
  }

  lemma SameInSlice(a: Mart, b: Mart, k: BucketKey)
    requires Slice(a, k.hour) == Slice(b, k.hour)
    ensures (k in a <==> k in b) && (k in a ==> a[k] == b[k])
  {
    assert (k in Slice(a, k.hour) <==> k in a) && (k in Slice(b, k.hour) <==> k in b);
  }

  lemma WindowIsFull(cfg: Config, raw: Table, mart: Mart, since: Time, cell: Cell)
    requires FreshSince(cfg, raw, mart, since)
    ensures CellSlice(mart, since, cell) == CellSlice(Full(cfg, raw), since, cell)
  {
    forall k: BucketKey | k.hour >= since
      ensures (k in mart <==> k in Full(cfg, raw)) && (k in mart ==> mart[k] == Full(cfg, raw)[k])
    {
      SameSince(cfg, raw, mart, since, k);
    }
    SameCellSlice(mart, Full(cfg, raw), since, cell);
  }

  lemma SameCellSlice(a: Mart, b: Mart, since: Time, cell: Cell)
    requires forall k: BucketKey | k.hour >= since :: (k in a <==> k in b) && (k in a ==> a[k] == b[k])
    ensures CellSlice(a, since, cell) == CellSlice(b, since, cell)
  {
  }

  /** A cell is listed when its slice has a row. */
  lemma ListedExactlyWhen(t: Trig, mart: Mart, since: Time, cell: Cell)
    ensures cell in GridDensity(t, mart, since) <==> CellSlice(mart, since, cell) != map[]
  {
    Listed(t, mart, since, cell);
    if k :| k in mart.Keys && k.hour >= since && k.cell == cell {
      assert k in CellSlice(mart, since, cell);
    }
    if CellSlice(mart, since, cell) != map[] {
      assert CellSlice(mart, since, cell).Keys != {};
      var k :| k in CellSlice(mart, since, cell).Keys;
    }
  }

  /**
   Over a mart that is in step with its source from `since` on, each cell of the dashboard counts every
   observation of its hours once, counts every track sample once, over-counts aircraft exactly when one
   was in two buckets, and whenever there is a sample shows a direction in range: derived from a vector
   within the tolerance of the true mean, its length and bearing within their own bounds of the true ones.
   */
  lemma DashboardIsFaithful(cfg: Config, raw: Table, mart: Mart, since: Time, cell: Cell)
    requires cfg.trig.Laws() && FreshSince(cfg, raw, mart, since)
    ensures var t := cfg.trig;
            var seen, grid := Seen(Observations(cfg, raw), since, cell), GridDensity(t, mart, since);
            && (cell in grid <==> seen != {})
            && (cell in grid ==> CellIsFaithful(t, seen, grid[cell], Flow(t, CellSlice(mart, since, cell))))
  {
    var t, obs, full := cfg.trig, Observations(cfg, raw), Full(cfg, raw);
    TracksAreUnit(cfg, raw);
    WindowIsFull(cfg, raw, mart, since, cell);
    ListedExactlyWhen(t, mart, since, cell);
    ListedExactlyWhen(t, full, since, cell);
    ListedCells(t, obs, since, cell);
    Listed(t, mart, since, cell);
    CellSliceOfGroupBy(t, obs, since, cell);
    CombinedIsFaithful(t, Seen(obs, since, cell));
  }

  /** In any run: after a build the dashboard is faithful over any window without late hours. */
  lemma DashboardIsFaithfulAfterBuild(cfg: Config, events: seq<MartRuns.Event>, since: Time, cell: Cell)
    requires cfg.trig.Laws() && events != [] && events[|events| - 1].Build?
    requires forall h | h in MartRuns.LateHours(cfg, events) :: h < since
    ensures MartRuns.After(cfg, events).mart.Some?
    ensures var t, s := cfg.trig, MartRuns.After(cfg, events);
            var seen, grid := Seen(Observations(cfg, s.raw), since, cell), GridDensity(t, s.mart.value, since);
            && (cell in grid <==> seen != {})
            && (cell in grid ==> CellIsFaithful(t, seen, grid[cell], Flow(t, CellSlice(s.mart.value, since, cell))))
  {
    var s := MartRuns.After(cfg, events);
    forall h | h >= since ensures Fresh(cfg, s.raw, s.mart.value, h) {
      MartRuns.HourIsFreshExactlyWhen(cfg, events, h);
    }
    DashboardIsFaithful(cfg, s.raw, s.mart.value, since, cell);
  }

  /** A window that starts at or after the cutoff never has any, however stale the mart is before it. */
  lemma NothingLateFromCutoffOn(cfg: Config, events: seq<MartRuns.Event>, since: Time)
    requires MartRuns.After(cfg, events).mart.Some?
    requires AtOrAfter(since, Cutoff(cfg, MartRuns.After(cfg, events).mart.value))
    ensures forall h | h in MartRuns.LateHours(cfg, events) :: h < since
  {
    forall h | h in MartRuns.LateHours(cfg, events) ensures h < since {
      MartRuns.StaleExactlyWhenLate(cfg, events, h);
    }
  }

  ghost predicate CellIsFaithful(t: Trig, seen: set<Observation>, row: CellRow, flow: Option<Heading>) {
    && row.observationCount == |seen| as real
    && row.trackSampleCount == |Tracks(seen)| as real
    && row.aircraftBucketTotal >= |Aircraft(seen)| as real
    && (row.aircraftBucketTotal == |Aircraft(seen)| as real <==> !DailyMart.AircraftRecur(seen))
    && DirectionIsFaithful(t, seen, row.direction, flow)
  }

  ghost predicate DirectionIsFaithful(t: Trig, seen: set<Observation>, direction: Option<Polar>, flow: Option<Heading>)
  {
    && NearMean(t, flow, Tracks(seen))
    && (direction.None? <==> flow.None?)
    && (direction.Some? ==> flow.Some? && ShowsTruth(t, seen, flow.value, direction.value))
  }

  lemma CombinedIsFaithful(t: Trig, seen: set<Observation>)
    requires t.Laws() && UnitTracks(seen)
    ensures CellIsFaithful(t, seen, Combined(t, GroupBy(t, seen)), Flow(t, GroupBy(t, seen)))
  {
    CountsAddUp(t, seen);
    TrackSamplesAddUp(t, seen);
    DailyMart.AircraftCannotBeSummed(t, seen);
    CombinedDirection(t, seen);
  }

  lemma CombinedDirection(t: Trig, seen: set<Observation>)
    requires t.Laws() && UnitTracks(seen)
    ensures DirectionIsFaithful(t, seen, Combined(t, GroupBy(t, seen)).direction, Flow(t, GroupBy(t, seen)))
  {
    FlowIsNearTrueMean(t, seen);
    FlowShowsTruth(t, seen);
  }
}
