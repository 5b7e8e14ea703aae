/**
 From landed rows to observations in buckets (transform/models/staging/stg_opensky__state_vectors.sql
 and transform/models/intermediate/int_state_vectors__gridded.sql): one observation per positioned row.
 */
module Gridded {
  import opened Wrappers
  import opened Clock
  import opened Reals
  import opened StateVectors
  import opened Landing
  import opened Direction

  type Positive = r: real | r > 0.0 witness 1.0

  /** The dbt project's variables, and the database's trigonometry. */
  datatype Config = Config(trig: Trig, gridDegrees: Positive, lookbackHours: int)

  datatype Cell = Cell(lat: real, lon: real)

  datatype Band = Ground | Unknown | Below10k | From10kTo24k | From24kTo35k | Above35k

  datatype BucketKey = BucketKey(hour: Time, cell: Cell, band: Band)

  datatype Observation = Observation(
    icao24: string,
    observedAt: Time,
    cell: Cell,
    band: Band,
    baroAltitudeFt: Option<real>,
    velocityKts: Option<real>,
    track: Option<Heading>, // track_sin and track_cos, null together
    run: RunId,
    ingestedAt: Time)
  {
    function Hour(): Time { TruncHour(observedAt) }
    function Day(): int { DayOf(observedAt) }
    function Bucket(): BucketKey { BucketKey(Hour(), cell, band) }
  }

  const FEET_PER_METRE: real := 3.280839895
  const KNOTS_PER_MS: real := 1.943844

  function Converted(x: Option<real>, factor: real): Option<real> {
    if x.None? then None else Some(x.value * factor)
  }

  /** `floor(x / grid) * grid`. */
  function CellFloor(x: real, grid: Positive): real { (x / grid).Floor as real * grid }

  /** A point lies in the half-open cell it is assigned to. */
  lemma CellHoldsPoint(x: real, grid: Positive)
    ensures CellFloor(x, grid) <= x < CellFloor(x, grid) + grid
  {
    var q := x / grid;
    var low := q.Floor as real;
    ProductGrows(low, q, grid, low * grid, x);
    ProductGrowsStrictly(q, low + 1.0, grid, x, low * grid + grid);
  }

  function BandOf(onGround: bool, ft: Option<real>): Band {
    if onGround then Ground
    else if ft.None? then Unknown
    else if ft.value < 10000.0 then Below10k
    else if ft.value < 24000.0 then From10kTo24k
    else if ft.value < 35000.0 then From24kTo35k
    else Above35k
  }

  /** The altitudes a band stands for, from its lower edge up to but not including its upper one. */
  function BandEdges(b: Band): (Option<real>, Option<real>) {
    match b
    case Below10k => (None, Some(10000.0))
    case From10kTo24k => (Some(10000.0), Some(24000.0))
    case From24kTo35k => (Some(24000.0), Some(35000.0))
    case Above35k => (Some(35000.0), None)
    case _ => (None, None)
  }

  predicate BandHolds(b: Band, onGround: bool, ft: Option<real>) {
    && (b == Ground <==> onGround)
    && (b == Unknown <==> !onGround && ft.None?)
    && (b !in {Ground, Unknown} ==>
          && ft.Some?
          && (BandEdges(b).0.Some? ==> BandEdges(b).0.value <= ft.value)
          && (BandEdges(b).1.Some? ==> ft.value < BandEdges(b).1.value))
  }

  /** The two factors are the foot of 0.3048 metres and the nautical mile of 1852, to the digits given. */
  lemma UnitsAgree()
    ensures Abs(FEET_PER_METRE * 0.3048 - 1.0) < 0.000000001
    ensures Abs(KNOTS_PER_MS * 1852.0 - 3600.0) < 0.001
  {
  }

  predicate Positioned(v: StateVector) { v.latitude.Some? && v.longitude.Some? }

  function TrackOf(t: Trig, v: StateVector): Option<Heading> {
    if v.onGround || v.trueTrackDeg.None? then None else Some(t.Towards(v.trueTrackDeg.value))
  }

  function Observe(cfg: Config, row: Landed): Observation
    requires Positioned(row.vector)
  {
    var v := row.vector;
    var ft := Converted(v.baroAltitudeM, FEET_PER_METRE);
    Observation(v.icao24, v.observedAt,
                Cell(CellFloor(v.latitude.value, cfg.gridDegrees), CellFloor(v.longitude.value, cfg.gridDegrees)),
                BandOf(v.onGround, ft), ft, Converted(v.velocityMs, KNOTS_PER_MS),
                TrackOf(cfg.trig, v), row.run, row.ingestedAt)
  }

  predicate CellHolds(c: Cell, grid: Positive, lat: real, lon: real) {
    c.lat <= lat < c.lat + grid && c.lon <= lon < c.lon + grid
  }

  /** A nullable measure in other units. */
  predicate InUnits(x: Option<real>, y: Option<real>, factor: real) {
    if x.None? then y.None? else y == Some(x.value * factor)
  }

  /**
   An observation carries what its landed row says: who, when, under which run; its altitude in feet and
   its speed in knots; and a heading exactly when it is airborne and has a track, which is that track's.
   */
  lemma ObservationIsItsRow(cfg: Config, row: Landed)
    requires row.vector.latitude.Some? && row.vector.longitude.Some?
    ensures var o, v := Observe(cfg, row), row.vector;
            && o.icao24 == v.icao24 && o.observedAt == v.observedAt
            && o.run == row.run && o.ingestedAt == row.ingestedAt
            && InUnits(v.baroAltitudeM, o.baroAltitudeFt, 3.280839895) && InUnits(v.velocityMs, o.velocityKts, 1.943844)
            && (o.track.None? <==> v.onGround || v.trueTrackDeg.None?)
            && (o.track.Some? ==>
                  && o.track.value.sin == cfg.trig.sin(v.trueTrackDeg.value)
                  && o.track.value.cos == cfg.trig.cos(v.trueTrackDeg.value))
            && o.Bucket().hour == TruncHour(v.observedAt) && o.Bucket().cell == o.cell && o.Bucket().band == o.band
            && o.Hour() == TruncHour(v.observedAt) && o.Day() == DayOf(v.observedAt)
  {
  }

  /** Cells lie on the grid, and a point is in the only one of them that holds it. */
  lemma CellIsOnGrid(x: real, grid: Positive) returns (n: int)
    ensures CellFloor(x, grid) == n as real * grid
  {
    n := (x / grid).Floor;
  }

  lemma OnlyCell(x: real, grid: Positive, n: int)
    requires n as real * grid <= x < n as real * grid + grid
    ensures CellFloor(x, grid) == n as real * grid
  {
    Divided(x, grid, x / grid);
    QuotientIsIn(x, x / grid, n as real, grid, n as real * grid);
    assert (x / grid).Floor == n;
  }

  lemma QuotientIsIn(x: real, q: real, n: real, grid: Positive, edge: real)
    requires x == q * grid && edge == n * grid && edge <= x < edge + grid
    ensures n <= q < n + 1.0
  {
    if q < n {
      ProductGrowsStrictly(q, n, grid, x, edge);
    }
    if q >= n + 1.0 {
      ProductGrows(n + 1.0, q, grid, edge + grid, x);
    }
  }

  /**
   An observation is filed under the band that holds its altitude, the cell that holds its position, and
   the hour that holds its time.
   */
  lemma ObservationIsFiledRight(cfg: Config, row: Landed)
    requires Positioned(row.vector)
    ensures var o := Observe(cfg, row);
            && BandHolds(o.band, row.vector.onGround, o.baroAltitudeFt)
            && InUnits(row.vector.baroAltitudeM, o.baroAltitudeFt, 3.280839895)
            && CellHolds(o.cell, cfg.gridDegrees, row.vector.latitude.value, row.vector.longitude.value)
            && o.Hour() <= row.vector.observedAt < o.Hour() + HOUR
            && o.Day() * DAY <= o.Hour() && o.Hour() + HOUR <= (o.Day() + 1) * DAY
  {
    CellHoldsPoint(row.vector.latitude.value, cfg.gridDegrees);
    CellHoldsPoint(row.vector.longitude.value, cfg.gridDegrees);
    HourEndsWithinDay(row.vector.observedAt);
  }

  /** The rows of `int_state_vectors__gridded`. */
  function Observations(cfg: Config, raw: Table): set<Observation> {
    set k | k in raw && Positioned(raw[k].vector) :: Observe(cfg, raw[k])
  }

  /** The landed rows that have a latitude and a longitude, on the ground or not. */
  function PositionedKeys(raw: Table): set<Key> {
    set k | k in raw && raw[k].vector.latitude.Some? && raw[k].vector.longitude.Some?
  }

  /** They are what the model consists of: each is observed, and nothing else is. */
  lemma ObservationsAre(cfg: Config, raw: Table)
    ensures forall k | k in raw && raw[k].vector.latitude.Some? && raw[k].vector.longitude.Some? ::
              Observe(cfg, raw[k]) in Observations(cfg, raw)
    ensures forall o | o in Observations(cfg, raw) ::
              exists k | k in raw && raw[k].vector.latitude.Some? && raw[k].vector.longitude.Some? ::
                o == Observe(cfg, raw[k])
  {
    forall k | k in raw && raw[k].vector.latitude.Some? && raw[k].vector.longitude.Some?
      ensures Observe(cfg, raw[k]) in Observations(cfg, raw)
    {
    }
  }

  /** Every positioned row is one observation; none collapses into another. */
  lemma {:induction false} OneObservationPerRow(cfg: Config, raw: Table, keys: set<Key>)
    requires WellKeyed(raw) && keys <= PositionedKeys(raw)
    ensures |set k | k in keys :: Observe(cfg, raw[k])| == |keys|
  {
    if keys == {} {
    } else {
      var k :| k in keys;
      OneObservationPerRow(cfg, raw, keys - {k});
      var rest := set j | j in keys - {k} :: Observe(cfg, raw[j]);
      assert Observe(cfg, raw[k]) !in rest by {
        forall j | j in keys - {k} ensures Observe(cfg, raw[j]) != Observe(cfg, raw[k]) {
          assert raw[j].Key() == j && raw[k].Key() == k;
        }
      }
      assert (set j | j in keys :: Observe(cfg, raw[j])) == rest + {Observe(cfg, raw[k])};
    }
  }

  lemma AsManyObservationsAsRows(cfg: Config, raw: Table)
    requires WellKeyed(raw)
    ensures |Observations(cfg, raw)| == |PositionedKeys(raw)|
  {
    OneObservationPerRow(cfg, raw, PositionedKeys(raw));
    assert Observations(cfg, raw) == set k | k in PositionedKeys(raw) :: Observe(cfg, raw[k]);
  }

  /** A growing table only ever adds observations. */
  lemma ObservationsGrow(cfg: Config, before: Table, after: Table)
    requires Extends(before, after)
    ensures Observations(cfg, before) <= Observations(cfg, after)
  {
    forall k | k in before && Positioned(before[k].vector) ensures Observe(cfg, before[k]) in Observations(cfg, after) {
      assert k in after && after[k] == before[k];
    }
  }

  /** The headings of airborne observations are unit vectors. */
  lemma TracksAreUnit(cfg: Config, raw: Table)
    requires cfg.trig.Laws()
    ensures forall o | o in Observations(cfg, raw) && o.track.Some? :: o.track.value.IsUnit()
  {
    forall k | k in raw && Positioned(raw[k].vector) && Observe(cfg, raw[k]).track.Some?
      ensures Observe(cfg, raw[k]).track.value.IsUnit()
    {
      assert cfg.trig.OnCircle(raw[k].vector.trueTrackDeg.value);
    }
  }
}
