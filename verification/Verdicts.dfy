/**
 Why a row is rejected (ingestion/models.py, `parse_state_vector`): the stable reason codes, as a list of
 questions in the order in which the parser asks them.
 */
module Verdicts {
  import opened Wrappers
  import opened Clock
  import opened StateVectors

  datatype Problem = Reason(code: string) | Unconvertible

  function NumberProblem(value: Json, name: string): Problem {
    if value.Number? then Reason(name + "_not_finite") else Reason(name + "_not_numeric")
  }

  /** What is wrong with the code of the aircraft, a stamp or the flag, if anything. */
  function CodeProblem(value: Json): Option<Problem> {
    if value.Text? && HasInk(value.text) then None else Some(Reason("icao24_missing"))
  }

  function StampProblem(value: Json, name: string, now: Time): Option<Problem> {
    if !value.Number? then Some(Reason(name + "_not_numeric"))
    else if !value.numeral.Finite? then Some(Reason(name + "_out_of_range"))
    else
      var t := HalfEven(value.numeral.value * 1_000_000.0);
      if t < -62_135_596_800_000_000 || t >= 253_402_300_800_000_000 then Some(Reason(name + "_out_of_range"))
      else if !PlausibleTime(t, now) then Some(Reason(name + "_implausible"))
      else None
  }

  function RealProblem(value: Json, name: string): Option<Problem> {
    if value == Number(Huge) then Some(Unconvertible)
    else if RealOrNull(value) then None
    else Some(NumberProblem(value, name))
  }

  function RangeProblem(value: Json, code: string, low: real, high: real): Option<Problem> {
    if RealBetween(value, low, high) then None else Some(Reason(code))
  }

  function TrackProblem(value: Json): Option<Problem> {
    if RealBetween(value, 0.0, 360.0) && value != Number(Finite(360.0)) then None
    else Some(Reason("true_track_out_of_range"))
  }

  function TextProblem(value: Json): Option<Problem> {
    if TextOrNull(value) then None else Some(Reason("text_field_not_string"))
  }

  function IntegerProblem(value: Json, name: string): Option<Problem> {
    if BadInteger(value) then Some(Unconvertible)
    else if IntegerOrNull(value) then None
    else Some(Reason(name + "_not_numeric"))
  }

  function First(problems: seq<Option<Problem>>): Option<Problem> {
    if problems == [] then None
    else if problems[0].Some? then problems[0]
    else First(problems[1..])
  }

  function IdentityProblems(f: seq<Json>, now: Time): seq<Option<Problem>>
    requires |f| >= 17
  {
    [CodeProblem(f[0]), StampProblem(f[4], "last_contact", now),
     if f[3].Null? then None else StampProblem(f[3], "time_position", now),
     if f[8].Bool? then None else Some(Reason("on_ground_not_boolean"))]
  }

  function GeometryProblems(f: seq<Json>): seq<Option<Problem>>
    requires |f| >= 17
  {
    [RealProblem(f[5], "longitude"), RealProblem(f[6], "latitude"),
     RangeProblem(f[5], "longitude_out_of_range", -180.0, 180.0),
     RangeProblem(f[6], "latitude_out_of_range", -90.0, 90.0),
     RealProblem(f[10], "true_track"), TrackProblem(f[10])]
  }

  function DetailsProblems(f: seq<Json>): seq<Option<Problem>>
    requires |f| >= 17
  {
    [TextProblem(f[1]), TextProblem(f[2]),
     RealProblem(f[7], "baro_altitude"), RealProblem(f[13], "geo_altitude"),
     RealProblem(f[9], "velocity"), RealProblem(f[11], "vertical_rate"),
     TextProblem(f[14]), IntegerProblem(f[16], "position_source"),
     if |f| > 17 then IntegerProblem(f[17], "category") else None]
  }

  /** The problems of a row in the order in which the parser looks for them. */
  function Problems(row: Json, now: Time): seq<Option<Problem>> {
    if !row.List? then [Some(Reason("row_not_array"))]
    else if |row.items| < 17 then [Some(Reason("row_too_short"))]
    else IdentityProblems(row.items, now) + GeometryProblems(row.items) + DetailsProblems(row.items)
  }

  predicate Agrees<T>(outcome: Outcome<T>, problem: Option<Problem>) {
    match problem
    case None => outcome.Accepted?
    case Some(Reason(code)) => outcome == Rejected(code)
    case Some(Unconvertible) => outcome.Raised?
  }

  /** The first problem of a row decides its fate: none accepts it, one with a code rejects it with that code. */
  lemma FirstProblemDecides(row: Json, now: Time)
    ensures Agrees(ParseStateVector(row, now), First(Problems(row, now)))
  {
    if row.List? && |row.items| >= 17 {
      var f := row.items;
      var a, b, c := IdentityProblems(f, now), GeometryProblems(f), DetailsProblems(f);
      IdentityAgrees(f, now);
      GeometryAgrees(f);
      DetailsAgree(f);
      FirstOfTwo(a + b, c);
      FirstOfTwo(a, b);
    }
  }

  lemma {:induction false} FirstOfTwo(a: seq<Option<Problem>>, b: seq<Option<Problem>>)
    ensures First(a + b) == if First(a).Some? then First(a) else First(b)
  {
    if a == [] {
      assert a + b == b;
    } else {
      assert (a + b)[1..] == a[1..] + b;
      FirstOfTwo(a[1..], b);
    }
  }

  lemma FirstStep(p: Option<Problem>, rest: seq<Option<Problem>>)
    ensures First([p] + rest) == if p.Some? then p else First(rest)
  {
    assert ([p] + rest)[1..] == rest;
  }

  lemma IdentityAgrees(f: seq<Json>, now: Time)
    requires |f| >= 17
    ensures Agrees(ParseIdentity(f, now), First(IdentityProblems(f, now)))
  {
    if f[0].Text? {
      StripKeepsInk(f[0].text);
    }
    StampAgrees(f[4], "last_contact", now);
    StampAgrees(f[3], "time_position", now);
    var p := IdentityProblems(f, now);
    FourSteps(p[0], p[1], p[2], p[3], []);
    assert p == [p[0], p[1], p[2], p[3]] + [];
  }

  lemma FourSteps(p: Option<Problem>, q: Option<Problem>, r: Option<Problem>, s: Option<Problem>,
                  rest: seq<Option<Problem>>)
    ensures First([p, q, r, s] + rest)
         == if p.Some? then p else if q.Some? then q else if r.Some? then r else if s.Some? then s else First(rest)
  {
    FirstStep(p, [q, r, s] + rest);
    FirstStep(q, [r, s] + rest);
    FirstStep(r, [s] + rest);
    FirstStep(s, rest);
    assert [p, q, r, s] + rest == [p] + ([q, r, s] + rest);
    assert [q, r, s] + rest == [q] + ([r, s] + rest);
    assert [r, s] + rest == [r] + ([s] + rest);
  }

  lemma StampAgrees(value: Json, field: string, now: Time)
    ensures Agrees(EpochToUtc(value, field, now), StampProblem(value, field, now))
  {
  }

  lemma GeometryAgrees(f: seq<Json>)
    requires |f| >= 17
    ensures Agrees(ParseGeometry(f), First(GeometryProblems(f)))
  {
    FirstGeometryProblem(f, GeometryProblems(f));
  }

  lemma FirstGeometryProblem(f: seq<Json>, p: seq<Option<Problem>>)
    requires |f| >= 17 && p == GeometryProblems(f)
    ensures First(p) == if p[0].Some? then p[0] else if p[1].Some? then p[1]
                        else if p[2].Some? then p[2] else if p[3].Some? then p[3]
                        else if p[4].Some? then p[4] else p[5]
  {
    SixSteps(p[0], p[1], p[2], p[3], p[4], p[5]);
  }

  lemma SixSteps(p: Option<Problem>, q: Option<Problem>, r: Option<Problem>, s: Option<Problem>,
                 t: Option<Problem>, u: Option<Problem>)
    ensures First([p, q, r, s, t, u]) == if p.Some? then p else if q.Some? then q else if r.Some? then r
                                         else if s.Some? then s else if t.Some? then t else u
  {
    FirstStep(t, [u]);
    FirstStep(u, []);
    FourSteps(p, q, r, s, [t, u]);
    assert [t, u] == [t] + [u] && [u] == [u] + [];
    assert [p, q, r, s, t, u] == [p, q, r, s] + [t, u];
  }

  lemma DetailsAgree(f: seq<Json>)
    requires |f| >= 17
    ensures Agrees(ParseDetails(f), First(DetailsProblems(f)))
  {
    var p := DetailsProblems(f);
    FirstOfNine(p[0], p[1], p[2], p[3], p[4], p[5], p[6], p[7], p[8]);
    assert p == [p[0], p[1], p[2], p[3], p[4], p[5], p[6], p[7], p[8]];
    DetailsAgreeInOrder(f, p[0], p[1], p[2], p[3], p[4], p[5], p[6], p[7], p[8]);
  }

  lemma FirstOfNine(a: Option<Problem>, b: Option<Problem>, c: Option<Problem>, d: Option<Problem>,
                    e: Option<Problem>, f: Option<Problem>, g: Option<Problem>, h: Option<Problem>, i: Option<Problem>)
    ensures First([a, b, c, d, e, f, g, h, i]) == OneOfNine(a, b, c, d, e, f, g, h, i)
  {
    FirstStep(i, []);
    FourSteps(e, f, g, h, [i]);
    FourSteps(a, b, c, d, [e, f, g, h, i]);
    assert [i] == [i] + [];
    assert [e, f, g, h, i] == [e, f, g, h] + [i];
    assert [a, b, c, d, e, f, g, h, i] == [a, b, c, d] + [e, f, g, h, i];
  }

  function OneOfNine(a: Option<Problem>, b: Option<Problem>, c: Option<Problem>, d: Option<Problem>, e: Option<Problem>,
                     f: Option<Problem>, g: Option<Problem>, h: Option<Problem>, i: Option<Problem>): Option<Problem>
  {
    if a.Some? then a else if b.Some? then b else if c.Some? then c else if d.Some? then d else if e.Some? then e
    else if f.Some? then f else if g.Some? then g else if h.Some? then h else i
  }

  lemma DetailsAgreeInOrder(f: seq<Json>, callsign: Option<Problem>, country: Option<Problem>, baro: Option<Problem>,
                            geo: Option<Problem>, velocity: Option<Problem>, rate: Option<Problem>,
                            squawk: Option<Problem>, source: Option<Problem>, category: Option<Problem>)
    requires |f| >= 17
    requires callsign == TextProblem(f[1]) && country == TextProblem(f[2]) && squawk == TextProblem(f[14])
    requires baro == RealProblem(f[7], "baro_altitude") && geo == RealProblem(f[13], "geo_altitude")
    requires velocity == RealProblem(f[9], "velocity") && rate == RealProblem(f[11], "vertical_rate")
    requires source == IntegerProblem(f[16], "position_source")
    requires category == if |f| > 17 then IntegerProblem(f[17], "category") else None
    ensures Agrees(ParseDetails(f), OneOfNine(callsign, country, baro, geo, velocity, rate, squawk, source, category))
  {
  }
}
