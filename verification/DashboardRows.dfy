/**
 The dashboard in terms of the landed rows themselves (api/queries.py, `grid_density`, through the mart, the
 gridded model and staging): which rows a cell stands for, which of them give it its direction.
 */
module DashboardRows {
  import opened Wrappers
  import opened Clock
  import opened Sums
  import opened Direction
  import opened Accuracy
  import opened StateVectors
  import opened Landing
  import opened Gridded
  import opened HourlyMart
  import opened Density
  import MartRuns

  predicate InBox(x: Option<real>, low: real, grid: Positive) {
    x.Some? && low <= x.value < low + grid
  }

  /** The landed rows of a cell, over the hours from `since` on. */
  function RowsBehind(cfg: Config, raw: Table, since: Time, cell: Cell): set<Key> {
    set k | k in raw && TruncHour(raw[k].vector.observedAt) >= since &&
            InBox(raw[k].vector.latitude, cell.lat, cfg.gridDegrees) &&
            InBox(raw[k].vector.longitude, cell.lon, cfg.gridDegrees)
  }

  /** Those of them that are airborne and have a track. */
  function TrackRows(cfg: Config, raw: Table, since: Time, cell: Cell): set<Key> {
    set k | k in RowsBehind(cfg, raw, since, cell) &&
            !raw[k].vector.onGround && raw[k].vector.trueTrackDeg.Some?
  }

  /** Their headings, as the database computes sines and cosines of their degrees. */
  function Headings(cfg: Config, raw: Table, keys: set<Key>): map<Key, Heading>
    requires keys <= raw.Keys && forall k | k in keys :: raw[k].vector.trueTrackDeg.Some?
  {
    map k | k in keys :: Heading(cfg.trig.sin(raw[k].vector.trueTrackDeg.value),
                                 cfg.trig.cos(raw[k].vector.trueTrackDeg.value))
  }

  /** The edges of a cell are multiples of the grid. */
  predicate Aligned(cfg: Config, cell: Cell, m: int, n: int) {
    cell.lat == m as real * cfg.gridDegrees && cell.lon == n as real * cfg.gridDegrees
  }

  lemma InCellExactlyWhen(cfg: Config, row: Landed, cell: Cell, m: int, n: int)
    requires row.vector.latitude.Some? && row.vector.longitude.Some? && Aligned(cfg, cell, m, n)
    ensures Observe(cfg, row).cell == cell <==>
            && InBox(row.vector.latitude, cell.lat, cfg.gridDegrees)
            && InBox(row.vector.longitude, cell.lon, cfg.gridDegrees)
  {
    SameEdge(row.vector.latitude.value, cfg.gridDegrees, m, cell.lat);
    SameEdge(row.vector.longitude.value, cfg.gridDegrees, n, cell.lon);
  }

  lemma SameEdge(x: real, grid: Positive, n: int, edge: real)
    requires edge == n as real * grid
    ensures CellFloor(x, grid) == edge <==> edge <= x < edge + grid
  {
    CellHoldsPoint(x, grid);
    if edge <= x < edge + grid {
      OnlyCell(x, grid, n);
    }
  }

  /** The observations behind a cell are those of its rows. */
  lemma SeenAreRows(cfg: Config, raw: Table, since: Time, cell: Cell, m: int, n: int)
    requires Aligned(cfg, cell, m, n)
    ensures RowsBehind(cfg, raw, since, cell) <= PositionedKeys(raw)
    ensures Seen(Observations(cfg, raw), since, cell)
         == set k | k in RowsBehind(cfg, raw, since, cell) :: Observe(cfg, raw[k])
  {
    forall k | k in raw && raw[k].vector.latitude.Some? && raw[k].vector.longitude.Some?
      ensures k in RowsBehind(cfg, raw, since, cell) <==>
              Observe(cfg, raw[k]).Hour() >= since && Observe(cfg, raw[k]).cell == cell
    {
      InCellExactlyWhen(cfg, raw[k], cell, m, n);
      ObservationIsItsRow(cfg, raw[k]);
    }
    ObservationsAre(cfg, raw);
  }

  lemma TracksAreRows(cfg: Config, raw: Table, since: Time, cell: Cell, m: int, n: int)
    requires Aligned(cfg, cell, m, n)
    ensures TrackRows(cfg, raw, since, cell) <= PositionedKeys(raw)
    ensures Tracks(Seen(Observations(cfg, raw), since, cell)).Keys
         == set k | k in TrackRows(cfg, raw, since, cell) :: Observe(cfg, raw[k])
  {
    SeenAreRows(cfg, raw, since, cell, m, n);
    forall k | k in RowsBehind(cfg, raw, since, cell)
      ensures Observe(cfg, raw[k]).track.Some? <==> k in TrackRows(cfg, raw, since, cell)
    {
      ObservationIsItsRow(cfg, raw[k]);
    }
  }

  lemma ObserveIsInjective(cfg: Config, raw: Table, j: Key, k: Key)
    requires WellKeyed(raw) && j in PositionedKeys(raw) && k in PositionedKeys(raw)
    requires Observe(cfg, raw[j]) == Observe(cfg, raw[k])
    ensures j == k
  {
    assert raw[j].Key() == j && raw[k].Key() == k;
  }

  /** The tracks of the observations add up to the headings of the rows. */
  lemma SameSum(cfg: Config, raw: Table, keys: set<Key>, tracks: map<Observation, Heading>)
    requires WellKeyed(raw) && keys <= PositionedKeys(raw)
    requires forall k | k in keys :: raw[k].vector.trueTrackDeg.Some?
    requires tracks.Keys == set k | k in keys :: Observe(cfg, raw[k])
    requires forall k | k in keys :: tracks[Observe(cfg, raw[k])] == Headings(cfg, raw, keys)[k]
    ensures SumVector(tracks) == SumVector(Headings(cfg, raw, keys))
  {
    var name, headings := map k | k in keys :: Observe(cfg, raw[k]), Headings(cfg, raw, keys);
    forall j, k | j in keys && k in keys && name[j] == name[k] ensures j == k {
      ObserveIsInjective(cfg, raw, j, k);
    }
    assert tracks.Keys == set k | k in keys :: name[k];
    RenamedHeadings(keys, name, headings, tracks);
  }

  lemma RenamedHeadings<A, B>(keys: set<A>, name: map<A, B>, a: map<A, Heading>, b: map<B, Heading>)
    requires a.Keys == keys && name.Keys == keys && b.Keys == set k | k in keys :: name[k]
    requires forall j, k | j in keys && k in keys && name[j] == name[k] :: j == k
    requires forall k | k in keys :: b[name[k]] == a[k]
    ensures SumVector(b) == SumVector(a)
  {
    assert Sines(b).Keys == b.Keys && Cosines(b).Keys == b.Keys;
    assert Sines(a).Keys == a.Keys && Cosines(a).Keys == a.Keys;
    SumRenamed(keys, name, Sines(a), Sines(b), b.Keys);
    SumRenamed(keys, name, Cosines(a), Cosines(b), b.Keys);
  }

  lemma TrackIsHeading(cfg: Config, raw: Table, since: Time, cell: Cell, k: Key, m: int, n: int)
    requires Aligned(cfg, cell, m, n) && k in TrackRows(cfg, raw, since, cell)
    ensures Observe(cfg, raw[k]) in Tracks(Seen(Observations(cfg, raw), since, cell))
    ensures Tracks(Seen(Observations(cfg, raw), since, cell))[Observe(cfg, raw[k])]
         == Headings(cfg, raw, TrackRows(cfg, raw, since, cell))[k]
  {
    TracksAreRows(cfg, raw, since, cell, m, n);
    assert Observe(cfg, raw[k]) in set j | j in TrackRows(cfg, raw, since, cell) :: Observe(cfg, raw[j]);
    ObservationIsItsRow(cfg, raw[k]);
  }

  /** As many samples, and the same mean. */
  lemma SameMeanOfRows(cfg: Config, raw: Table, since: Time, cell: Cell, m: int, n: int)
    requires WellKeyed(raw) && Aligned(cfg, cell, m, n)
    ensures var seen, keys := Seen(Observations(cfg, raw), since, cell), TrackRows(cfg, raw, since, cell);
            && |seen| == |RowsBehind(cfg, raw, since, cell)|
            && |Tracks(seen)| == |keys|
            && SumVector(Tracks(seen)) == SumVector(Headings(cfg, raw, keys))
  {
    var seen, keys := Seen(Observations(cfg, raw), since, cell), TrackRows(cfg, raw, since, cell);
    SeenAreRows(cfg, raw, since, cell, m, n);
    TracksAreRows(cfg, raw, since, cell, m, n);
    OneObservationPerRow(cfg, raw, RowsBehind(cfg, raw, since, cell));
    OneObservationPerRow(cfg, raw, keys);
    assert |Tracks(seen)| == |Tracks(seen).Keys|;
    forall k | k in keys
      ensures Observe(cfg, raw[k]) in Tracks(seen) && Tracks(seen)[Observe(cfg, raw[k])] == Headings(cfg, raw, keys)[k]
    {
      TrackIsHeading(cfg, raw, since, cell, k, m, n);
    }
    SameSum(cfg, raw, keys, Tracks(seen));
  }

  lemma ExactOfSameSum<A, B>(t: Trig, a: map<A, Heading>, b: map<B, Heading>)
    requires |a| == |b| && SumVector(a) == SumVector(b)
    ensures Exact(t, a) == Exact(t, b)
  {
  }

  lemma CellIsAligned(cfg: Config, obs: set<Observation>, raw: Table, cell: Cell) returns (m: int, n: int)
    requires obs == Observations(cfg, raw) && exists o :: o in obs && o.cell == cell
    ensures Aligned(cfg, cell, m, n)
  {
    var o :| o in obs && o.cell == cell;
    var k :| k in raw && Positioned(raw[k].vector) && o == Observe(cfg, raw[k]);
    m := CellIsOnGrid(raw[k].vector.latitude.value, cfg.gridDegrees);
    n := CellIsOnGrid(raw[k].vector.longitude.value, cfg.gridDegrees);
  }

  /** What a cell shows, of so many landed rows and of the headings of some of them. */
  ghost predicate Stands(t: Trig, row: CellRow, count: nat, headings: map<Key, Heading>) {
    && row.observationCount == count as real
    && row.trackSampleCount == |headings| as real
    && (row.direction.None? <==> |headings| == 0)
    && (row.direction.Some? ==> NearMeanOf(t, row.direction.value, headings))
  }

  ghost predicate NearMeanOf(t: Trig, shown: Polar, headings: map<Key, Heading>) {
    && |headings| > 0
    && Exact(t, headings).polar.Some?
    && ShownNearTruth(t, Exact(t, headings).polar.value, shown)
  }

  ghost predicate ShowsRows(cfg: Config, raw: Table, since: Time, cell: Cell, row: CellRow) {
    Stands(cfg.trig, row, |RowsBehind(cfg, raw, since, cell)|, Headings(cfg, raw, TrackRows(cfg, raw, since, cell)))
  }

  lemma DirectionOfRows(
      t: Trig, seen: set<Observation>, row: CellRow, flow: Option<Heading>, headings: map<Key, Heading>)
    requires DirectionIsFaithful(t, seen, row.direction, flow)
    requires |Tracks(seen)| == |headings| && Exact(t, Tracks(seen)) == Exact(t, headings)
    ensures row.direction.None? <==> |headings| == 0
    ensures row.direction.Some? ==> NearMeanOf(t, row.direction.value, headings)
  {
  }

  lemma CellOfRows(
      t: Trig, seen: set<Observation>, row: CellRow, flow: Option<Heading>, count: nat, headings: map<Key, Heading>)
    requires CellIsFaithful(t, seen, row, flow) && |seen| == count
    requires |Tracks(seen)| == |headings| && Exact(t, Tracks(seen)) == Exact(t, headings)
    ensures Stands(t, row, count, headings)
  {
    DirectionOfRows(t, seen, row, flow, headings);
  }

  /**
   A cell of the dashboard counts the landed rows with a position in it, on the ground or not; its samples are
   the airborne rows with a track, each once; and the direction it shows is near the circular mean of exactly
   those rows' own degrees, or null when there is none.
   */
  lemma DashboardShowsRows(cfg: Config, raw: Table, mart: Mart, since: Time, cell: Cell)
    requires cfg.trig.Laws() && WellKeyed(raw) && FreshSince(cfg, raw, mart, since)
    requires cell in GridDensity(cfg.trig, mart, since)
    ensures ShowsRows(cfg, raw, since, cell, GridDensity(cfg.trig, mart, since)[cell])
  {
    var t, seen := cfg.trig, Seen(Observations(cfg, raw), since, cell);
    DashboardIsFaithful(cfg, raw, mart, since, cell);
    var m, n := SeenIsAligned(cfg, raw, since, cell);
    var row, flow := GridDensity(t, mart, since)[cell], Flow(t, CellSlice(mart, since, cell));
    var count, headings := SameAsRows(cfg, raw, since, cell, m, n);
    CellOfRows(t, seen, row, flow, count, headings);
  }

  lemma SameAsRows(cfg: Config, raw: Table, since: Time, cell: Cell, m: int, n: int)
    returns (count: nat, headings: map<Key, Heading>)
    requires WellKeyed(raw) && Aligned(cfg, cell, m, n)
    ensures count == |RowsBehind(cfg, raw, since, cell)|
    ensures headings == Headings(cfg, raw, TrackRows(cfg, raw, since, cell))
    ensures var seen := Seen(Observations(cfg, raw), since, cell);
            && |seen| == count && |Tracks(seen)| == |headings|
            && Exact(cfg.trig, Tracks(seen)) == Exact(cfg.trig, headings)
  {
    var keys, tracks := TrackRows(cfg, raw, since, cell), Tracks(Seen(Observations(cfg, raw), since, cell));
    count, headings := |RowsBehind(cfg, raw, since, cell)|, Headings(cfg, raw, keys);
    SameMeanOfRows(cfg, raw, since, cell, m, n);
    assert headings.Keys == keys && |headings| == |headings.Keys|;
    ExactOfSameSum(cfg.trig, tracks, headings);
  }

  lemma SeenIsAligned(cfg: Config, raw: Table, since: Time, cell: Cell) returns (m: int, n: int)
    requires Seen(Observations(cfg, raw), since, cell) != {}
    ensures Aligned(cfg, cell, m, n)
  {
    var o :| o in Seen(Observations(cfg, raw), since, cell);
    m, n := CellIsAligned(cfg, Observations(cfg, raw), raw, cell);
  }

  /** No landed row with a position is missing from the map. */
  lemma EveryRowIsOnTheMap(cfg: Config, raw: Table, mart: Mart, since: Time, k: Key) returns (cell: Cell)
    requires cfg.trig.Laws() && FreshSince(cfg, raw, mart, since)
    requires k in raw && TruncHour(raw[k].vector.observedAt) >= since
    requires raw[k].vector.latitude.Some? && raw[k].vector.longitude.Some?
    ensures cell in GridDensity(cfg.trig, mart, since) && k in RowsBehind(cfg, raw, since, cell)
  {
    cell := CellOf(cfg, raw, since, k);
    DashboardIsFaithful(cfg, raw, mart, since, cell);
  }

  lemma CellOf(cfg: Config, raw: Table, since: Time, k: Key) returns (cell: Cell)
    requires k in raw && TruncHour(raw[k].vector.observedAt) >= since
    requires raw[k].vector.latitude.Some? && raw[k].vector.longitude.Some?
    ensures Seen(Observations(cfg, raw), since, cell) != {} && k in RowsBehind(cfg, raw, since, cell)
  {
    var v, o := raw[k].vector, Observe(cfg, raw[k]);
    cell := o.cell;
    ObservationsAre(cfg, raw);
    ObservationIsItsRow(cfg, raw[k]);
    CellHoldsPoint(v.latitude.value, cfg.gridDegrees);
    CellHoldsPoint(v.longitude.value, cfg.gridDegrees);
    assert o in Seen(Observations(cfg, raw), since, cell);
  }

  /** The same in any run after a build, over any window without late hours. */
  lemma DashboardShowsRowsAfterBuild(cfg: Config, events: seq<MartRuns.Event>, since: Time, cell: Cell)
    requires cfg.trig.Laws() && events != [] && events[|events| - 1].Build?
    requires forall h | h in MartRuns.LateHours(cfg, events) :: h < since
    ensures MartRuns.After(cfg, events).mart.Some?
    ensures var s := MartRuns.After(cfg, events);
            var grid := GridDensity(cfg.trig, s.mart.value, since);
            cell in grid ==> ShowsRows(cfg, s.raw, since, cell, grid[cell])
  {
    var s := MartRuns.After(cfg, events);
    MartRuns.EveryStateIsSound(cfg, events);
    forall h | h >= since ensures Fresh(cfg, s.raw, s.mart.value, h) {
      MartRuns.HourIsFreshExactlyWhen(cfg, events, h);
    }
    if cell in GridDensity(cfg.trig, s.mart.value, since) {
      DashboardShowsRows(cfg, s.raw, s.mart.value, since, cell);
    }
  }
}
