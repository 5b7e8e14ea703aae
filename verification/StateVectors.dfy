/**
 Parsing and validation of OpenSky state vectors (ingestion/models.py). A response row is a
 positional JSON array; it becomes a `StateVector`, or is rejected with a reason code, or makes the
 parser raise something other than its own error.
 */
module StateVectors {
  import opened Wrappers
  import opened Clock

  /**
   A JSON number as Python reads it. `Huge` is an integer literal too large for a double; `NaN` and
   `Infinite` are accepted by Python's JSON reader although JSON has no such literals.
   */
  datatype Numeral = Finite(value: real) | Huge | NaN | Infinite

  datatype Json =
    | Null
    | Bool(bit: bool)
    | Number(numeral: Numeral)
    | Text(text: string)
    | List(items: seq<Json>)
    | Object(isEmpty: bool)
  {
    /** Python's `bool(value)`. */
    predicate Truthy() {
      match this
      case Null => false
      case Bool(b) => b
      case Number(n) => n != Finite(0.0)
      case Text(t) => t != ""
      case List(items) => items != []
      case Object(isEmpty) => !isEmpty
    }
  }

  /** What parsing yields: a value, a `ParseError` with its reason code, or any other exception. */
  datatype Outcome<+T> = Accepted(value: T) | Rejected(reason: string) | Raised
  {
    predicate IsFailure() { !Accepted? }

    function PropagateFailure<U>(): Outcome<U>
      requires !Accepted?
    {
      if Raised? then Raised else Rejected(reason)
    }

    function Extract(): T
      requires Accepted?
    {
      value
    }
  }

  function Check(condition: bool, reason: string): Outcome<()> {
    if condition then Accepted(()) else Rejected(reason)
  }

  datatype Key = Key(icao24: string, observedAt: Time)

  datatype StateVector = StateVector(
    icao24: string,
    observedAt: Time,
    timePosition: Option<Time>,
    lastContact: Time,
    callsign: Option<string>,
    originCountry: Option<string>,
    longitude: Option<real>,
    latitude: Option<real>,
    baroAltitudeM: Option<real>,
    geoAltitudeM: Option<real>,
    onGround: bool,
    velocityMs: Option<real>,
    trueTrackDeg: Option<real>,
    verticalRateMs: Option<real>,
    squawk: Option<string>,
    spi: bool,
    positionSource: Option<int>,
    category: Option<int>)
  {
    function DedupKey(): Key { Key(icao24, observedAt) }
  }

  datatype RejectedRow = RejectedRow(reason: string, raw: seq<Json>)

  const IDX_ICAO24 := 0
  const IDX_CALLSIGN := 1
  const IDX_ORIGIN_COUNTRY := 2
  const IDX_TIME_POSITION := 3
  const IDX_LAST_CONTACT := 4
  const IDX_LONGITUDE := 5
  const IDX_LATITUDE := 6
  const IDX_BARO_ALTITUDE := 7
  const IDX_ON_GROUND := 8
  const IDX_VELOCITY := 9
  const IDX_TRUE_TRACK := 10
  const IDX_VERTICAL_RATE := 11
  const IDX_GEO_ALTITUDE := 13
  const IDX_SQUAWK := 14
  const IDX_SPI := 15
  const IDX_POSITION_SOURCE := 16
  const IDX_CATEGORY := 17
  const MIN_FIELDS: nat := 17

  const MICROSECONDS: real := 1_000_000.0 // in a second
  const MIN_PLAUSIBLE: Time := 946_684_800 * SECOND // 2000-01-01
  const MAX_SKEW: int := DAY
  const FIRST_DATETIME: Time := -62_135_596_800 * SECOND // year 1
  const LAST_DATETIME: Time := 253_402_300_800 * SECOND - 1 // end of year 9999

  // --- text ---

  predicate Blank(c: char) {
    c == ' ' || '\t' <= c <= '\r' || '\U{001C}' <= c <= '\U{001F}'
  }

  function TrimLeft(s: string): string {
    if s != "" && Blank(s[0]) then TrimLeft(s[1..]) else s
  }

  function TrimRight(s: string): (t: string)
    ensures s != "" && !Blank(s[0]) ==> t != "" && t[0] == s[0]
    ensures t != "" ==> !Blank(t[|t| - 1])
  {
    if s != "" && Blank(s[|s| - 1]) then TrimRight(s[..|s| - 1]) else s
  }

  function Strip(s: string): string { TrimRight(TrimLeft(s)) }

  predicate Upper(c: char) { 'A' <= c <= 'Z' }

  function Lower(s: string): (t: string)
    ensures |t| == |s|
    ensures forall i | 0 <= i < |t| :: !Upper(t[i])
    ensures forall i | 0 <= i < |t| :: if 'A' <= s[i] <= 'Z' then t[i] as int == s[i] as int + 32 else t[i] == s[i]
  {
    seq(|s|, i requires 0 <= i < |s| => if Upper(s[i]) then s[i] - 'A' + 'a' else s[i])
  }

  // --- fields ---

  function HalfEven(x: real): (n: int)
    ensures -0.5 <= x - n as real <= 0.5
    ensures x - n as real == 0.5 || x - n as real == -0.5 ==> n % 2 == 0
  {
    var n := x.Floor;
    if x - n as real < 0.5 || (x - n as real == 0.5 && n % 2 == 0) then n else n + 1
  }

  function Truncate(x: real): (n: int)
    ensures x >= 0.0 ==> n as real <= x < (n + 1) as real
    ensures x < 0.0 ==> (n - 1) as real < x <= n as real
  {
    if x < 0.0 then -(-x).Floor else x.Floor
  }

  function EpochToUtc(value: Json, field: string, now: Time): (t: Outcome<Time>)
    ensures !t.Raised?
    ensures t.Accepted? ==> MIN_PLAUSIBLE <= t.value <= now + MAX_SKEW
  {
    if !value.Number? then Rejected(field + "_not_numeric")
    else if !value.numeral.Finite? then Rejected(field + "_out_of_range")
    else
      var t := HalfEven(value.numeral.value * MICROSECONDS);
      if t < FIRST_DATETIME || t > LAST_DATETIME then Rejected(field + "_out_of_range")
      else if t < MIN_PLAUSIBLE || t > now + MAX_SKEW then Rejected(field + "_implausible")
      else Accepted(t)
  }

  function OptionalEpoch(value: Json, field: string, now: Time): (t: Outcome<Option<Time>>)
    ensures !t.Raised?
    ensures t.Accepted? && t.value.Some? ==> MIN_PLAUSIBLE <= t.value.value <= now + MAX_SKEW
  {
    if value.Null? then Accepted(None)
    else
      var t :- EpochToUtc(value, field, now);
      Accepted(Some(t))
  }

  function OptionalFloat(value: Json, field: string): Outcome<Option<real>> {
    match value
    case Null => Accepted(None)
    case Number(Finite(x)) => Accepted(Some(x))
    case Number(Huge) => Raised // float(value) overflows
    case Number(_) => Rejected(field + "_not_finite")
    case _ => Rejected(field + "_not_numeric")
  }

  function OptionalInt(value: Json, field: string): Outcome<Option<int>> {
    match value
    case Null => Accepted(None)
    case Number(Finite(x)) => Accepted(Some(Truncate(x)))
    case Number(Huge) => Accepted(Some(HUGE_INTEGER))
    case Number(_) => Raised // int(value) refuses NaN and infinities
    case _ => Rejected(field + "_not_numeric")
  }

  // Stands for every integer beyond a double; all that matters of it is that no column can hold it.
  const HUGE_INTEGER := 0x1_0000_0000_0000_0000

  function OptionalText(value: Json): Outcome<Option<string>> {
    match value
    case Null => Accepted(None)
    case Text(t) => Accepted(if Strip(t) == "" then None else Some(Strip(t)))
    case _ => Rejected("text_field_not_string")
  }

  predicate InRange(x: Option<real>, low: real, high: real) {
    x.Some? ==> low <= x.value <= high
  }

  // --- rows ---

  datatype Identity = Identity(icao24: string, lastContact: Time, timePosition: Option<Time>, onGround: bool)
  datatype Geometry = Geometry(longitude: Option<real>, latitude: Option<real>, trueTrack: Option<real>)
  datatype Details = Details(
    callsign: Option<string>, originCountry: Option<string>, baroAltitude: Option<real>,
    geoAltitude: Option<real>, velocity: Option<real>, verticalRate: Option<real>,
    squawk: Option<string>, positionSource: Option<int>, category: Option<int>)

  function ParseIdentity(f: seq<Json>, now: Time): Outcome<Identity>
    requires |f| >= MIN_FIELDS
  {
    var _ :- Check(f[IDX_ICAO24].Text? && Strip(f[IDX_ICAO24].text) != "", "icao24_missing");
    var lastContact :- EpochToUtc(f[IDX_LAST_CONTACT], "last_contact", now);
    var timePosition :- OptionalEpoch(f[IDX_TIME_POSITION], "time_position", now);
    var _ :- Check(f[IDX_ON_GROUND].Bool?, "on_ground_not_boolean");
    Accepted(Identity(Lower(Strip(f[IDX_ICAO24].text)), lastContact, timePosition, f[IDX_ON_GROUND].bit))
  }

  function ParseGeometry(f: seq<Json>): Outcome<Geometry>
    requires |f| >= MIN_FIELDS
  {
    var longitude :- OptionalFloat(f[IDX_LONGITUDE], "longitude");
    var latitude :- OptionalFloat(f[IDX_LATITUDE], "latitude");
    var _ :- Check(InRange(longitude, -180.0, 180.0), "longitude_out_of_range");
    var _ :- Check(InRange(latitude, -90.0, 90.0), "latitude_out_of_range");
    var trueTrack :- OptionalFloat(f[IDX_TRUE_TRACK], "true_track");
    var _ :- Check(trueTrack.Some? ==> 0.0 <= trueTrack.value < 360.0, "true_track_out_of_range");
    Accepted(Geometry(longitude, latitude, trueTrack))
  }

  function ParseDetails(f: seq<Json>): Outcome<Details>
    requires |f| >= MIN_FIELDS
  {
    var callsign :- OptionalText(f[IDX_CALLSIGN]);
    var originCountry :- OptionalText(f[IDX_ORIGIN_COUNTRY]);
    var baroAltitude :- OptionalFloat(f[IDX_BARO_ALTITUDE], "baro_altitude");
    var geoAltitude :- OptionalFloat(f[IDX_GEO_ALTITUDE], "geo_altitude");
    var velocity :- OptionalFloat(f[IDX_VELOCITY], "velocity");
    var verticalRate :- OptionalFloat(f[IDX_VERTICAL_RATE], "vertical_rate");
    var squawk :- OptionalText(f[IDX_SQUAWK]);
    var positionSource :- OptionalInt(f[IDX_POSITION_SOURCE], "position_source");
    var category :- if |f| > IDX_CATEGORY then OptionalInt(f[IDX_CATEGORY], "category") else Accepted(None);
    Accepted(Details(callsign, originCountry, baroAltitude, geoAltitude, velocity, verticalRate,
                     squawk, positionSource, category))
  }

  /** `parse_state_vector`; the three stages run in the order in which the fields are validated. */
  function ParseStateVector(row: Json, now: Time): Outcome<StateVector> {
    var _ :- Check(row.List?, "row_not_array");
    var _ :- Check(|row.items| >= MIN_FIELDS, "row_too_short");
    var id :- ParseIdentity(row.items, now);
    var where :- ParseGeometry(row.items);
    var rest :- ParseDetails(row.items);
    Accepted(StateVector(
      id.icao24,
      if id.timePosition.Some? then id.timePosition.value else id.lastContact,
      id.timePosition, id.lastContact, rest.callsign, rest.originCountry,
      where.longitude, where.latitude, rest.baroAltitude, rest.geoAltitude, id.onGround,
      rest.velocity, where.trueTrack, rest.verticalRate, rest.squawk,
      row.items[IDX_SPI].Truthy(), rest.positionSource, rest.category))
  }

  /** Whether `icao24` could have come out of `strip().lower()`. */
  predicate Normalised(s: string) {
    s != "" && !Blank(s[0]) && !Blank(s[|s| - 1]) && forall i | 0 <= i < |s| :: !Upper(s[i])
  }

  lemma {:induction false} TrimLeftStartsInk(s: string)
    ensures TrimLeft(s) != "" ==> !Blank(TrimLeft(s)[0])
  {
    if s == "" || !Blank(s[0]) {
    } else {
      TrimLeftStartsInk(s[1..]);
    }
  }

  /** Whether text could have come out of `strip()` and not been empty. */
  predicate Trimmed(s: string) { s != "" && !Blank(s[0]) && !Blank(s[|s| - 1]) }

  predicate TrimmedIfAny(s: Option<string>) { s.Some? ==> Trimmed(s.value) }

  /** From the year 2000 to a day ahead of the clock, and within the calendar. */
  predicate PlausibleTime(t: Time, now: Time) {
    946_684_800_000_000 <= t <= now + 86_400_000_000 && t < 253_402_300_800_000_000
  }

  /** What the parser vouches for. */
  predicate Plausible(v: StateVector, now: Time) {
    && Normalised(v.icao24)
    && PlausibleTime(v.lastContact, now) && (v.timePosition.Some? ==> PlausibleTime(v.timePosition.value, now))
    && v.observedAt == (if v.timePosition.Some? then v.timePosition.value else v.lastContact)
    && InRange(v.longitude, -180.0, 180.0) && InRange(v.latitude, -90.0, 90.0)
    && (v.trueTrackDeg.Some? ==> 0.0 <= v.trueTrackDeg.value < 360.0)
    && TrimmedIfAny(v.callsign) && TrimmedIfAny(v.originCountry) && TrimmedIfAny(v.squawk)
  }

  /** Every accepted vector is plausible. */
  lemma AcceptedIsPlausible(row: Json, now: Time)
    requires ParseStateVector(row, now).Accepted?
    ensures Plausible(ParseStateVector(row, now).value, now)
  {
    IdentityIsPlausible(row.items, now);
    GeometryIsPlausible(row.items);
    DetailsArePlausible(row.items);
  }

  lemma IdentityIsPlausible(f: seq<Json>, now: Time)
    requires |f| >= MIN_FIELDS && ParseIdentity(f, now).Accepted?
    ensures var id := ParseIdentity(f, now).value;
            && Normalised(id.icao24) && PlausibleTime(id.lastContact, now)
            && (id.timePosition.Some? ==> PlausibleTime(id.timePosition.value, now))
  {
    TrimLeftStartsInk(f[IDX_ICAO24].text);
  }

  lemma GeometryIsPlausible(f: seq<Json>)
    requires |f| >= MIN_FIELDS && ParseGeometry(f).Accepted?
    ensures var where := ParseGeometry(f).value;
            && InRange(where.longitude, -180.0, 180.0) && InRange(where.latitude, -90.0, 90.0)
            && (where.trueTrack.Some? ==> 0.0 <= where.trueTrack.value < 360.0)
  {
  }

  lemma DetailsArePlausible(f: seq<Json>)
    requires |f| >= MIN_FIELDS && ParseDetails(f).Accepted?
    ensures var rest := ParseDetails(f).value;
            TrimmedIfAny(rest.callsign) && TrimmedIfAny(rest.originCountry) && TrimmedIfAny(rest.squawk)
  {
    TextIsTrimmed(f[IDX_CALLSIGN]);
    TextIsTrimmed(f[IDX_ORIGIN_COUNTRY]);
    TextIsTrimmed(f[IDX_SQUAWK]);
  }

  lemma TextIsTrimmed(value: Json)
    ensures OptionalText(value).Accepted? ==> TrimmedIfAny(OptionalText(value).value)
  {
    if value.Text? {
      TrimLeftStartsInk(value.text);
    }
  }

  // --- exactly which rows are accepted ---

  predicate HasInk(s: string) { exists i :: 0 <= i < |s| && !Blank(s[i]) }

  lemma StripKeepsInk(s: string)
    ensures Strip(s) != "" <==> HasInk(s)
  {
    TrimLeftKeepsInk(s);
    TrimLeftStartsInk(s);
    if TrimLeft(s) != "" {
      assert HasInk(TrimLeft(s));
    }
  }

  lemma {:induction false} TrimLeftKeepsInk(s: string)
    ensures TrimLeft(s) != "" <==> HasInk(s)
    ensures TrimLeft(s) == "" ==> Strip(s) == ""
  {
    if s == "" || !Blank(s[0]) {
    } else {
      TrimLeftKeepsInk(s[1..]);
      if HasInk(s[1..]) {
        var i :| 0 <= i < |s[1..]| && !Blank(s[1..][i]);
        assert !Blank(s[i + 1]);
      }
      if HasInk(s) {
        var i :| 0 <= i < |s| && !Blank(s[i]);
        assert !Blank(s[1..][i - 1]);
      }
    }
  }

  predicate StampIn(value: Json, now: Time) {
    value.Number? && value.numeral.Finite? && PlausibleTime(HalfEven(value.numeral.value * MICROSECONDS), now)
  }

  predicate RealOrNull(value: Json) { value.Null? || (value.Number? && value.numeral.Finite?) }

  predicate RealBetween(value: Json, low: real, high: real) {
    value.Null? || (value.Number? && value.numeral.Finite? && low <= value.numeral.value <= high)
  }

  predicate TextOrNull(value: Json) { value.Null? || value.Text? }

  predicate IntegerOrNull(value: Json) {
    value.Null? || (value.Number? && (value.numeral.Finite? || value.numeral.Huge?))
  }

  predicate AcceptableIdentity(f: seq<Json>, now: Time)
    requires |f| >= MIN_FIELDS
  {
    && f[IDX_ICAO24].Text? && HasInk(f[IDX_ICAO24].text)
    && StampIn(f[IDX_LAST_CONTACT], now) && (f[IDX_TIME_POSITION].Null? || StampIn(f[IDX_TIME_POSITION], now))
    && f[IDX_ON_GROUND].Bool?
  }

  predicate AcceptableGeometry(f: seq<Json>)
    requires |f| >= MIN_FIELDS
  {
    && RealBetween(f[IDX_LONGITUDE], -180.0, 180.0) && RealBetween(f[IDX_LATITUDE], -90.0, 90.0)
    && RealBetween(f[IDX_TRUE_TRACK], 0.0, 360.0) && f[IDX_TRUE_TRACK] != Number(Finite(360.0))
  }

  predicate AcceptableDetails(f: seq<Json>)
    requires |f| >= MIN_FIELDS
  {
    && TextOrNull(f[IDX_CALLSIGN]) && TextOrNull(f[IDX_ORIGIN_COUNTRY]) && TextOrNull(f[IDX_SQUAWK])
    && RealOrNull(f[IDX_BARO_ALTITUDE]) && RealOrNull(f[IDX_GEO_ALTITUDE])
    && RealOrNull(f[IDX_VELOCITY]) && RealOrNull(f[IDX_VERTICAL_RATE])
    && IntegerOrNull(f[IDX_POSITION_SOURCE]) && (|f| > IDX_CATEGORY ==> IntegerOrNull(f[IDX_CATEGORY]))
  }

  predicate Acceptable(row: Json, now: Time) {
    && row.List? && |row.items| >= MIN_FIELDS
    && AcceptableIdentity(row.items, now) && AcceptableGeometry(row.items) && AcceptableDetails(row.items)
  }

  /** A row is accepted if and only if each of its fields, taken alone, is acceptable. */
  lemma AcceptedExactlyWhen(row: Json, now: Time)
    ensures ParseStateVector(row, now).Accepted? <==> Acceptable(row, now)
  {
    if row.List? && |row.items| >= MIN_FIELDS {
      IdentityAcceptedWhen(row.items, now);
      GeometryAcceptedWhen(row.items);
      DetailsAcceptedWhen(row.items);
    }
  }

  lemma IdentityAcceptedWhen(f: seq<Json>, now: Time)
    requires |f| >= MIN_FIELDS
    ensures ParseIdentity(f, now).Accepted? <==> AcceptableIdentity(f, now)
  {
    if f[IDX_ICAO24].Text? {
      StripKeepsInk(f[IDX_ICAO24].text);
    }
    StampAcceptedWhen(f[IDX_LAST_CONTACT], "last_contact", now);
    StampAcceptedWhen(f[IDX_TIME_POSITION], "time_position", now);
  }

  lemma StampAcceptedWhen(value: Json, field: string, now: Time)
    ensures EpochToUtc(value, field, now).Accepted? <==> StampIn(value, now)
  {
  }

  lemma GeometryAcceptedWhen(f: seq<Json>)
    requires |f| >= MIN_FIELDS
    ensures ParseGeometry(f).Accepted? <==> AcceptableGeometry(f)
  {
  }

  lemma DetailsAcceptedWhen(f: seq<Json>)
    requires |f| >= MIN_FIELDS
    ensures ParseDetails(f).Accepted? <==> AcceptableDetails(f)
  {
    TextAcceptedWhen(f[IDX_CALLSIGN]);
    TextAcceptedWhen(f[IDX_ORIGIN_COUNTRY]);
    TextAcceptedWhen(f[IDX_SQUAWK]);
  }

  lemma TextAcceptedWhen(value: Json)
    ensures OptionalText(value).Accepted? <==> TextOrNull(value)
  {
  }

  // --- what a field becomes ---

  /** Python's ASCII white space, by code point. */
  lemma BlankCodePoints(c: char)
    ensures Blank(c) <==> 9 <= c as int <= 13 || 28 <= c as int <= 32
  {
  }

  /** Stripping takes away blanks at both ends and nothing else. */
  lemma StripIs(s: string) returns (i: nat, j: nat)
    ensures i <= j <= |s| && Strip(s) == s[i..j]
    ensures forall k | 0 <= k < i || j <= k < |s| :: Blank(s[k])
    ensures Strip(s) != "" ==> !Blank(Strip(s)[0]) && !Blank(Strip(s)[|Strip(s)| - 1])
  {
    i := TrimLeftIs(s);
    var n := TrimRightIs(s[i..]);
    j := i + n;
    TrimLeftStartsInk(s);
    assert s[i..][..n] == s[i..j];
    forall k | j <= k < |s| ensures Blank(s[k]) {
      assert s[k] == s[i..][k - i];
    }
  }

  lemma {:induction false} TrimLeftIs(s: string) returns (i: nat)
    ensures i <= |s| && TrimLeft(s) == s[i..] && forall k | 0 <= k < i :: Blank(s[k])
  {
    if s == "" || !Blank(s[0]) {
      i := 0;
    } else {
      var n := TrimLeftIs(s[1..]);
      i := n + 1;
      assert forall k | 1 <= k < i :: s[k] == s[1..][k - 1];
    }
  }

  lemma {:induction false} TrimRightIs(s: string) returns (n: nat)
    ensures n <= |s| && TrimRight(s) == s[..n] && forall k | n <= k < |s| :: Blank(s[k])
  {
    if s == "" || !Blank(s[|s| - 1]) {
      n := |s|;
    } else {
      n := TrimRightIs(s[..|s| - 1]);
      assert forall k | n <= k < |s| - 1 :: s[k] == s[..|s| - 1][k];
    }
  }

  /** Python's truth of a JSON value. */
  lemma TruthIsPythons()
    ensures !Null.Truthy() && !Bool(false).Truthy() && Bool(true).Truthy()
    ensures forall n :: Number(n).Truthy() <==> n != Finite(0.0)
    ensures forall t :: Text(t).Truthy() <==> |t| > 0
    ensures forall items :: List(items).Truthy() <==> |items| > 0
    ensures !Object(true).Truthy() && Object(false).Truthy()
  {
  }

  /** `x` is the text, stripped, or null when there is none or nothing of it is left. */
  predicate TextIs(value: Json, x: Option<string>) {
    match value
    case Null => x.None?
    case Text(t) => if HasInk(t) then x == Some(Strip(t)) else x.None?
    case _ => false
  }

  predicate StampIs(value: Json, x: Option<Time>) {
    match value
    case Null => x.None?
    case Number(Finite(seconds)) => x == Some(HalfEven(seconds * 1_000_000.0))
    case _ => false
  }

  /** `x` is the number cut off towards zero; beyond a double all that matters is that no column holds it. */
  predicate IntegerIs(value: Json, x: Option<int>) {
    match value
    case Null => x.None?
    case Number(Finite(r)) => x == Some(Truncate(r))
    case Number(Huge) => x.Some? && x.value > 0x7fff_ffff_ffff_ffff
    case _ => false
  }

  predicate IdentityIs(f: seq<Json>, v: StateVector)
    requires |f| >= 17
  {
    && f[0].Text? && v.icao24 == Lower(Strip(f[0].text))
    && StampIs(f[3], v.timePosition) && StampIs(f[4], Some(v.lastContact))
    && v.observedAt == (if v.timePosition.Some? then v.timePosition.value else v.lastContact)
    && f[8] == Bool(v.onGround) && v.spi == f[15].Truthy()
  }

  predicate MeasuresAre(f: seq<Json>, v: StateVector)
    requires |f| >= 17
  {
    && f[5] == RealField(v.longitude) && f[6] == RealField(v.latitude) && f[7] == RealField(v.baroAltitudeM)
    && f[9] == RealField(v.velocityMs) && f[10] == RealField(v.trueTrackDeg) && f[11] == RealField(v.verticalRateMs)
    && f[13] == RealField(v.geoAltitudeM)
  }

  predicate CodesAre(f: seq<Json>, v: StateVector)
    requires |f| >= 17
  {
    && TextIs(f[1], v.callsign) && TextIs(f[2], v.originCountry) && TextIs(f[14], v.squawk)
    && IntegerIs(f[16], v.positionSource)
    && if |f| > 17 then IntegerIs(f[17], v.category) else v.category.None?
  }

  /** Every field of an accepted vector is its own position of the row, padded text and fractions included. */
  lemma AcceptedIsItsRow(row: Json, now: Time)
    requires ParseStateVector(row, now).Accepted?
    ensures row.List? && |row.items| >= 17
    ensures var v := ParseStateVector(row, now).value;
            IdentityIs(row.items, v) && MeasuresAre(row.items, v) && CodesAre(row.items, v)
  {
    AcceptedIdentityIs(row.items, now);
    AcceptedGeometryIs(row.items);
    AcceptedMeasuresAre(row.items);
    AcceptedCodesAre(row.items);
  }

  lemma AcceptedIdentityIs(f: seq<Json>, now: Time)
    requires |f| >= 17 && ParseIdentity(f, now).Accepted?
    ensures var id := ParseIdentity(f, now).value;
            && f[0].Text? && id.icao24 == Lower(Strip(f[0].text))
            && StampIs(f[3], id.timePosition) && StampIs(f[4], Some(id.lastContact)) && f[8] == Bool(id.onGround)
  {
    StampFieldIs(f[4], "last_contact", now);
    StampFieldIs(f[3], "time_position", now);
  }

  lemma AcceptedGeometryIs(f: seq<Json>)
    requires |f| >= 17 && ParseGeometry(f).Accepted?
    ensures var where := ParseGeometry(f).value;
            && f[5] == RealField(where.longitude) && f[6] == RealField(where.latitude)
            && f[10] == RealField(where.trueTrack)
  {
  }

  lemma AcceptedMeasuresAre(f: seq<Json>)
    requires |f| >= 17 && ParseDetails(f).Accepted?
    ensures var rest := ParseDetails(f).value;
            && f[7] == RealField(rest.baroAltitude) && f[9] == RealField(rest.velocity)
            && f[11] == RealField(rest.verticalRate) && f[13] == RealField(rest.geoAltitude)
  {
  }

  lemma AcceptedCodesAre(f: seq<Json>)
    requires |f| >= 17 && ParseDetails(f).Accepted?
    ensures var rest := ParseDetails(f).value;
            && TextIs(f[1], rest.callsign) && TextIs(f[2], rest.originCountry) && TextIs(f[14], rest.squawk)
            && IntegerIs(f[16], rest.positionSource)
            && if |f| > 17 then IntegerIs(f[17], rest.category) else rest.category.None?
  {
    TextFieldIs(f[1]);
    TextFieldIs(f[2]);
    TextFieldIs(f[14]);
  }

  lemma TextFieldIs(value: Json)
    ensures OptionalText(value).Accepted? ==> TextIs(value, OptionalText(value).value)
  {
    if value.Text? {
      StripKeepsInk(value.text);
    }
  }

  lemma StampFieldIs(value: Json, field: string, now: Time)
    ensures EpochToUtc(value, field, now).Accepted? ==> StampIs(value, Some(EpochToUtc(value, field, now).value))
  {
  }

  /** Two vectors are the same observation when code and time agree. */
  lemma KeyIsCodeAndTime(v: StateVector, w: StateVector)
    ensures v.DedupKey() == w.DedupKey() <==> v.icao24 == w.icao24 && v.observedAt == w.observedAt
  {
  }

  // --- the row that a vector came from ---

  function TextField(x: Option<string>): Json { if x.None? then Null else Text(x.value) }
  function RealField(x: Option<real>): Json { if x.None? then Null else Number(Finite(x.value)) }
  function IntField(x: Option<int>): Json { if x.None? then Null else Number(Finite(x.value as real)) }
  function EpochField(t: Time): Json { Number(Finite(t as real / MICROSECONDS)) }

  /** The positional array that OpenSky documents for a vector; position 12 (sensors) is not read. */
  function RowOf(v: StateVector): Json {
    List([Text(v.icao24), TextField(v.callsign), TextField(v.originCountry),
          if v.timePosition.None? then Null else EpochField(v.timePosition.value), EpochField(v.lastContact),
          RealField(v.longitude), RealField(v.latitude), RealField(v.baroAltitudeM), Bool(v.onGround),
          RealField(v.velocityMs), RealField(v.trueTrackDeg), RealField(v.verticalRateMs), Null,
          RealField(v.geoAltitudeM), TextField(v.squawk), Bool(v.spi),
          IntField(v.positionSource), IntField(v.category)])
  }

  /**
   Every plausible vector is what its own row parses to, field by field. With `AcceptedIsPlausible`,
   the vectors the parser can produce are exactly the plausible ones.
   */
  lemma RowsRoundTrip(v: StateVector, now: Time)
    requires Plausible(v, now)
    ensures ParseStateVector(RowOf(v), now) == Accepted(v)
  {
    var f := RowOf(v).items;
    IdentityRoundTrip(v, now);
    GeometryRoundTrip(v);
    DetailsRoundTrip(v);
    Assembled(f, now, v);
  }

  /** The three stages put together. */
  lemma Assembled(f: seq<Json>, now: Time, v: StateVector)
    requires |f| >= MIN_FIELDS
    requires ParseIdentity(f, now) == Accepted(Identity(v.icao24, v.lastContact, v.timePosition, v.onGround))
    requires ParseGeometry(f) == Accepted(Geometry(v.longitude, v.latitude, v.trueTrackDeg))
    requires ParseDetails(f) == Accepted(Details(v.callsign, v.originCountry, v.baroAltitudeM, v.geoAltitudeM,
                                                 v.velocityMs, v.verticalRateMs, v.squawk,
                                                 v.positionSource, v.category))
    requires v.observedAt == if v.timePosition.Some? then v.timePosition.value else v.lastContact
    requires f[IDX_SPI] == Bool(v.spi)
    ensures ParseStateVector(List(f), now) == Accepted(v)
  {
  }

  lemma GeometryRoundTrip(v: StateVector)
    requires InRange(v.longitude, -180.0, 180.0) && InRange(v.latitude, -90.0, 90.0)
    requires v.trueTrackDeg.Some? ==> 0.0 <= v.trueTrackDeg.value < 360.0
    ensures ParseGeometry(RowOf(v).items) == Accepted(Geometry(v.longitude, v.latitude, v.trueTrackDeg))
  {
  }

  lemma IdentityRoundTrip(v: StateVector, now: Time)
    requires Plausible(v, now)
    ensures ParseIdentity(RowOf(v).items, now)
         == Accepted(Identity(v.icao24, v.lastContact, v.timePosition, v.onGround))
  {
    TrimmedStays(v.icao24);
    LowerStays(v.icao24);
    EpochRoundTrip(v.lastContact, "last_contact", now);
    if v.timePosition.Some? {
      EpochRoundTrip(v.timePosition.value, "time_position", now);
    }
  }

  lemma EpochRoundTrip(t: Time, field: string, now: Time)
    requires PlausibleTime(t, now)
    ensures EpochToUtc(EpochField(t), field, now) == Accepted(t)
  {
    assert (t as real / MICROSECONDS) * MICROSECONDS == t as real;
    assert HalfEven(t as real) == t;
  }

  lemma DetailsRoundTrip(v: StateVector)
    requires TrimmedIfAny(v.callsign) && TrimmedIfAny(v.originCountry) && TrimmedIfAny(v.squawk)
    ensures ParseDetails(RowOf(v).items)
         == Accepted(Details(v.callsign, v.originCountry, v.baroAltitudeM, v.geoAltitudeM,
                             v.velocityMs, v.verticalRateMs, v.squawk, v.positionSource, v.category))
  {
    TextRoundTrip(v.callsign);
    TextRoundTrip(v.originCountry);
    TextRoundTrip(v.squawk);
    IntRoundTrip(v.positionSource, "position_source");
    IntRoundTrip(v.category, "category");
    DetailsAre(RowOf(v).items, Details(v.callsign, v.originCountry, v.baroAltitudeM, v.geoAltitudeM,
                                       v.velocityMs, v.verticalRateMs, v.squawk, v.positionSource, v.category));
  }

  lemma DetailsAre(f: seq<Json>, d: Details)
    requires |f| > IDX_CATEGORY
    requires OptionalText(f[IDX_CALLSIGN]) == Accepted(d.callsign)
    requires OptionalText(f[IDX_ORIGIN_COUNTRY]) == Accepted(d.originCountry)
    requires f[IDX_BARO_ALTITUDE] == RealField(d.baroAltitude) && f[IDX_GEO_ALTITUDE] == RealField(d.geoAltitude)
    requires f[IDX_VELOCITY] == RealField(d.velocity) && f[IDX_VERTICAL_RATE] == RealField(d.verticalRate)
    requires OptionalText(f[IDX_SQUAWK]) == Accepted(d.squawk)
    requires OptionalInt(f[IDX_POSITION_SOURCE], "position_source") == Accepted(d.positionSource)
    requires OptionalInt(f[IDX_CATEGORY], "category") == Accepted(d.category)
    ensures ParseDetails(f) == Accepted(d)
  {
  }

  lemma TextRoundTrip(x: Option<string>)
    requires TrimmedIfAny(x)
    ensures OptionalText(TextField(x)) == Accepted(x)
  {
    if x.Some? {
      TrimmedStays(x.value);
    }
  }

  lemma IntRoundTrip(x: Option<int>, field: string)
    ensures OptionalInt(IntField(x), field) == Accepted(x)
  {
    if x.Some? && x.value < 0 {
      assert -(x.value as real) == (-x.value) as real;
    }
  }

  lemma TrimmedStays(s: string)
    requires Trimmed(s)
    ensures Strip(s) == s
  {
  }

  lemma LowerStays(s: string)
    requires forall i | 0 <= i < |s| :: !Upper(s[i])
    ensures Lower(s) == s
  {
  }

  // --- the columns the vectors land in (db/migrations/0001_raw_state_vectors.sql) ---

  const MAX_ICAO24_LENGTH: nat := 12
  const SMALLINT_MAX: int := 32_767

  predicate Smallint(x: Option<int>) {
    x.Some? ==> -SMALLINT_MAX - 1 <= x.value <= SMALLINT_MAX
  }

  /** The CHECK constraints and column types of `raw.state_vectors`. */
  predicate Storable(v: StateVector) {
    && InRange(v.latitude, -90.0, 90.0)
    && InRange(v.longitude, -180.0, 180.0)
    && (v.trueTrackDeg.Some? ==> 0.0 <= v.trueTrackDeg.value < 360.0)
    && v.icao24 == Lower(v.icao24) && 1 <= |v.icao24| <= MAX_ICAO24_LENGTH
    && Smallint(v.positionSource) && Smallint(v.category)
  }

  /** What the table refuses, whoever writes to it. */
  lemma RefusedExactlyWhen(v: StateVector)
    ensures !Storable(v) <==>
            || (v.latitude.Some? && (v.latitude.value < -90.0 || v.latitude.value > 90.0))
            || (v.longitude.Some? && (v.longitude.value < -180.0 || v.longitude.value > 180.0))
            || (v.trueTrackDeg.Some? && (v.trueTrackDeg.value < 0.0 || v.trueTrackDeg.value >= 360.0))
            || (exists i :: 0 <= i < |v.icao24| && 'A' <= v.icao24[i] <= 'Z')
            || |v.icao24| == 0 || |v.icao24| > 12
            || (v.positionSource.Some? && (v.positionSource.value < -32_768 || v.positionSource.value > 32_767))
            || (v.category.Some? && (v.category.value < -32_768 || v.category.value > 32_767))
  {
    if v.icao24 == Lower(v.icao24) {
      assert forall i | 0 <= i < |v.icao24| :: Lower(v.icao24)[i] == v.icao24[i];
    } else {
      var i :| 0 <= i < |v.icao24| && Lower(v.icao24)[i] != v.icao24[i];
    }
  }

  /**
   The migration says its checks restate the parser's bounds. They do not quite: an accepted vector
   can be stored exactly when its transponder code is short enough and its two codes fit a smallint.
   */
  lemma AcceptedIsStorableExactlyWhen(row: Json, now: Time)
    requires ParseStateVector(row, now).Accepted?
    ensures var v := ParseStateVector(row, now).value;
            Storable(v) <==>
            && |v.icao24| <= 12
            && (v.positionSource.Some? ==> -32_768 <= v.positionSource.value <= 32_767)
            && (v.category.Some? ==> -32_768 <= v.category.value <= 32_767)
  {
    AcceptedIsPlausible(row, now);
    var v := ParseStateVector(row, now).value;
    assert v.icao24 == Lower(v.icao24);
  }

  /** A row of nulls around the four mandatory fields. */
  function MinimalRow(icao24: string, contact: real, positionSource: Json): Json {
    List([Text(icao24), Null, Null, Null, Number(Finite(contact)), Null, Null, Null, Bool(false),
          Null, Null, Null, Null, Null, Null, Null, positionSource])
  }

  lemma TooLongACodeIsAcceptedButNotStorable()
    ensures var parsed := ParseStateVector(MinimalRow("abcdefabcdefa", 1_757_500_000.0, Null), 1_757_500_000 * SECOND);
            parsed.Accepted? && !Storable(parsed.value)
  {
    var code := "abcdefabcdefa";
    assert TrimRight(code) == code && TrimLeft(code) == code;
    assert Strip(code) == code;
    assert HalfEven(1_757_500_000.0 * MICROSECONDS) == 1_757_500_000 * SECOND;
  }

  // --- rows that make the parser raise ---

  /** A number the field's conversion cannot represent. */
  predicate Unrepresentable(f: seq<Json>, i: nat)
    requires i < |f|
  {
    && f[i].Number?
    && (match f[i].numeral
        case Finite(_) => false
        case Huge => i in {IDX_LONGITUDE, IDX_LATITUDE, IDX_BARO_ALTITUDE, IDX_VELOCITY,
                           IDX_TRUE_TRACK, IDX_VERTICAL_RATE, IDX_GEO_ALTITUDE}
        case _ => i in {IDX_POSITION_SOURCE, IDX_CATEGORY})
  }

  predicate Representable(f: seq<Json>) {
    forall i | 0 <= i < |f| :: !Unrepresentable(f, i)
  }

  lemma RepresentableNeverRaises(f: seq<Json>)
    requires Representable(f) && |f| >= MIN_FIELDS
    ensures !ParseGeometry(f).Raised? && !ParseDetails(f).Raised?
  {
    assert !Unrepresentable(f, IDX_LONGITUDE) && !Unrepresentable(f, IDX_LATITUDE);
    assert !Unrepresentable(f, IDX_TRUE_TRACK) && !Unrepresentable(f, IDX_BARO_ALTITUDE);
    assert !Unrepresentable(f, IDX_GEO_ALTITUDE) && !Unrepresentable(f, IDX_VELOCITY);
    assert !Unrepresentable(f, IDX_VERTICAL_RATE) && !Unrepresentable(f, IDX_POSITION_SOURCE);
    assert |f| > IDX_CATEGORY ==> !Unrepresentable(f, IDX_CATEGORY);
  }

  /** The parser raises only on an unrepresentable number. */
  lemma RaisesOnlyOnUnrepresentable(row: Json, now: Time)
    requires ParseStateVector(row, now).Raised?
    ensures row.List? && !Representable(row.items)
  {
    if Representable(row.items) {
      RepresentableNeverRaises(row.items);
    }
  }

  /** What is asked of a field after the identity, one question at a time. */
  datatype FieldCheck =
    | IsReal(column: nat)
    | Within(column: nat, low: real, high: real)
    | Below(column: nat, limit: real)
    | IsText(column: nat)
    | IsInteger(column: nat)

  /** The questions in the order in which the parser asks them. */
  const CHECKS: seq<FieldCheck> := [
    IsReal(IDX_LONGITUDE), IsReal(IDX_LATITUDE),
    Within(IDX_LONGITUDE, -180.0, 180.0), Within(IDX_LATITUDE, -90.0, 90.0),
    IsReal(IDX_TRUE_TRACK), Within(IDX_TRUE_TRACK, 0.0, 360.0), Below(IDX_TRUE_TRACK, 360.0),
    IsText(IDX_CALLSIGN), IsText(IDX_ORIGIN_COUNTRY),
    IsReal(IDX_BARO_ALTITUDE), IsReal(IDX_GEO_ALTITUDE), IsReal(IDX_VELOCITY), IsReal(IDX_VERTICAL_RATE),
    IsText(IDX_SQUAWK), IsInteger(IDX_POSITION_SOURCE), IsInteger(IDX_CATEGORY)]

  function Field(f: seq<Json>, column: nat): Json { if column < |f| then f[column] else Null }

  predicate Passes(f: seq<Json>, c: FieldCheck) {
    match c
    case IsReal(column) => RealOrNull(Field(f, column))
    case Within(column, low, high) => RealBetween(Field(f, column), low, high)
    case Below(column, limit) => Field(f, column) != Number(Finite(limit))
    case IsText(column) => TextOrNull(Field(f, column))
    case IsInteger(column) => IntegerOrNull(Field(f, column))
  }

  /** The conversion itself fails: a float beyond the doubles, or an integer from NaN or an infinity. */
  predicate Breaks(f: seq<Json>, c: FieldCheck) {
    match c
    case IsReal(column) => Field(f, column) == Number(Huge)
    case IsInteger(column) => Field(f, column) in {Number(NaN), Number(Infinite)}
    case _ => false
  }

  /** From question `n` on, all are passed up to question `m`, which breaks. */
  predicate FailsFirstAt(f: seq<Json>, checks: seq<FieldCheck>, n: int, m: int) {
    0 <= n <= m < |checks| && Breaks(f, checks[m]) && forall k | n <= k < m :: Passes(f, checks[k])
  }

  /** The first question that is not passed is one that breaks. */
  ghost predicate FirstFailureBreaks(f: seq<Json>) {
    exists n :: FailsFirstAt(f, CHECKS, 0, n)
  }

  /** Which rows raise, in terms of the row. */
  ghost predicate RowRaises(row: Json, now: Time) {
    row.List? && |row.items| >= MIN_FIELDS && AcceptableIdentity(row.items, now) && FirstFailureBreaks(row.items)
  }

  /**
   The parser raises instead of rejecting if and only if the row is long enough, its identity is
   acceptable, and the first of its other fields to fail holds a number the field cannot represent.
   */
  lemma RaisesExactly(row: Json, now: Time)
    ensures ParseStateVector(row, now).Raised? <==> RowRaises(row, now)
  {
    if row.List? && |row.items| >= MIN_FIELDS {
      IdentityAcceptedWhen(row.items, now);
      IdentityNeverRaises(row.items, now);
      GeometryAcceptedWhen(row.items);
      GeometryRaisesWhen(row.items);
      FieldsRaiseWhen(row.items);
    }
  }

  lemma IdentityNeverRaises(f: seq<Json>, now: Time)
    requires |f| >= MIN_FIELDS
    ensures !ParseIdentity(f, now).Raised?
  {
  }

  predicate GeometryRaises(f: seq<Json>)
    requires |f| >= MIN_FIELDS
  {
    || f[IDX_LONGITUDE] == Number(Huge)
    || (RealOrNull(f[IDX_LONGITUDE]) && f[IDX_LATITUDE] == Number(Huge))
    || (RealBetween(f[IDX_LONGITUDE], -180.0, 180.0) && RealBetween(f[IDX_LATITUDE], -90.0, 90.0)
        && f[IDX_TRUE_TRACK] == Number(Huge))
  }

  lemma GeometryRaisesWhen(f: seq<Json>)
    requires |f| >= MIN_FIELDS
    ensures ParseGeometry(f).Raised? <==> GeometryRaises(f)
  {
  }

  /** The same recursively, from a given question on. */
  predicate BreaksFrom(f: seq<Json>, checks: seq<FieldCheck>, n: nat)
    requires n <= |checks|
    decreases |checks| - n
  {
    n < |checks| && (Breaks(f, checks[n]) || (Passes(f, checks[n]) && BreaksFrom(f, checks, n + 1)))
  }

  lemma {:induction false} BreaksFromMeans(f: seq<Json>, checks: seq<FieldCheck>, n: nat)
    requires n <= |checks|
    ensures BreaksFrom(f, checks, n) <==> exists m :: FailsFirstAt(f, checks, n, m)
    decreases |checks| - n
  {
    if n == |checks| {
    } else {
      BreaksFromMeans(f, checks, n + 1);
      if Breaks(f, checks[n]) {
        assert FailsFirstAt(f, checks, n, n);
      } else if Passes(f, checks[n]) && BreaksFrom(f, checks, n + 1) {
        var m :| FailsFirstAt(f, checks, n + 1, m);
        assert FailsFirstAt(f, checks, n, m);
      }
      forall m | FailsFirstAt(f, checks, n, m) && m > n ensures FailsFirstAt(f, checks, n + 1, m) {
      }
    }
  }

  lemma OneCheck(f: seq<Json>, n: nat, c: FieldCheck)
    requires n < |CHECKS| && CHECKS[n] == c
    ensures BreaksFrom(f, CHECKS, n) <==> Breaks(f, c) || (Passes(f, c) && BreaksFrom(f, CHECKS, n + 1))
  {
  }

  /** The first seven questions are those of the geometry, the rest those of the details. */
  lemma GeometryComesFirst(f: seq<Json>)
    requires |f| >= MIN_FIELDS
    ensures BreaksFrom(f, CHECKS, 0) <==> GeometryRaises(f) || (AcceptableGeometry(f) && BreaksFrom(f, CHECKS, 7))
  {
    OneCheck(f, 0, IsReal(IDX_LONGITUDE));
    OneCheck(f, 1, IsReal(IDX_LATITUDE));
    OneCheck(f, 2, Within(IDX_LONGITUDE, -180.0, 180.0));
    OneCheck(f, 3, Within(IDX_LATITUDE, -90.0, 90.0));
    OneCheck(f, 4, IsReal(IDX_TRUE_TRACK));
    OneCheck(f, 5, Within(IDX_TRUE_TRACK, 0.0, 360.0));
    OneCheck(f, 6, Below(IDX_TRUE_TRACK, 360.0));
  }

  predicate BadInteger(value: Json) { value in {Number(NaN), Number(Infinite)} }

  /** The last stretch: after the texts and reals, the squawk and the two integers. */
  predicate CodesRaise(f: seq<Json>)
    requires |f| >= MIN_FIELDS
  {
    && TextOrNull(f[IDX_SQUAWK])
    && (BadInteger(f[IDX_POSITION_SOURCE])
        || (IntegerOrNull(f[IDX_POSITION_SOURCE]) && |f| > IDX_CATEGORY && BadInteger(f[IDX_CATEGORY])))
  }

  predicate DetailsRaise(f: seq<Json>)
    requires |f| >= MIN_FIELDS
  {
    && TextOrNull(f[IDX_CALLSIGN]) && TextOrNull(f[IDX_ORIGIN_COUNTRY])
    && (f[IDX_BARO_ALTITUDE] == Number(Huge) || (RealOrNull(f[IDX_BARO_ALTITUDE])
    && (f[IDX_GEO_ALTITUDE] == Number(Huge) || (RealOrNull(f[IDX_GEO_ALTITUDE])
    && (f[IDX_VELOCITY] == Number(Huge) || (RealOrNull(f[IDX_VELOCITY])
    && (f[IDX_VERTICAL_RATE] == Number(Huge) || (RealOrNull(f[IDX_VERTICAL_RATE])
    && CodesRaise(f)))))))))
  }

  lemma DetailsRaiseWhen(f: seq<Json>)
    requires |f| >= MIN_FIELDS
    ensures ParseDetails(f).Raised? <==> DetailsRaise(f)
  {
  }

  lemma DetailsComeNext(f: seq<Json>)
    requires |f| >= MIN_FIELDS
    ensures BreaksFrom(f, CHECKS, 7) <==> DetailsRaise(f)
  {
    OneCheck(f, 7, IsText(IDX_CALLSIGN));
    OneCheck(f, 8, IsText(IDX_ORIGIN_COUNTRY));
    OneCheck(f, 9, IsReal(IDX_BARO_ALTITUDE));
    OneCheck(f, 10, IsReal(IDX_GEO_ALTITUDE));
    OneCheck(f, 11, IsReal(IDX_VELOCITY));
    OneCheck(f, 12, IsReal(IDX_VERTICAL_RATE));
    CodesComeLast(f);
  }

  lemma CodesComeLast(f: seq<Json>)
    requires |f| >= MIN_FIELDS
    ensures BreaksFrom(f, CHECKS, 13) <==> CodesRaise(f)
  {
    OneCheck(f, 13, IsText(IDX_SQUAWK));
    OneCheck(f, 14, IsInteger(IDX_POSITION_SOURCE));
    OneCheck(f, 15, IsInteger(IDX_CATEGORY));
  }

  lemma FieldsRaiseWhen(f: seq<Json>)
    requires |f| >= MIN_FIELDS
    ensures FirstFailureBreaks(f) <==> GeometryRaises(f) || (AcceptableGeometry(f) && ParseDetails(f).Raised?)
  {
    BreaksFromMeans(f, CHECKS, 0);
    GeometryComesFirst(f);
    DetailsComeNext(f);
    DetailsRaiseWhen(f);
  }

  /** An earlier rejection comes first: the very same number then does no harm. */
  lemma RejectionShieldsLaterNumbers(f: seq<Json>, now: Time)
    requires |f| >= MIN_FIELDS && f[IDX_LONGITUDE].Text?
    ensures ParseStateVector(List(f), now).Rejected?
  {
    IdentityNeverRaises(f, now);
  }
}
