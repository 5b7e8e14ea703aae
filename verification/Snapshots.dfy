/**
 Whole response bodies (ingestion/models.py, `parse_states` and `deduplicate`; ingestion/run.py,
 `_reason_counts`): the three loops between fetching a snapshot and loading it.
 */
module Snapshots {
  import opened Wrappers
  import opened Clock
  import opened StateVectors

  // --- parse_states ---

  type Parsed = Outcome<StateVector>

  /** What the parser makes of each row of a body. */
  function Outcomes(rows: seq<Json>, now: Time): (outcomes: seq<Parsed>)
    ensures |outcomes| == |rows|
  {
    seq(|rows|, i requires 0 <= i < |rows| => ParseStateVector(rows[i], now))
  }

  function AcceptedOf(outcomes: seq<Parsed>): seq<StateVector> {
    if outcomes == [] then []
    else
      var before, last := AcceptedOf(outcomes[..|outcomes| - 1]), outcomes[|outcomes| - 1];
      if last.Accepted? then before + [last.value] else before
  }

  function RejectedOf(rows: seq<Json>, outcomes: seq<Parsed>): seq<RejectedRow>
    requires |rows| == |outcomes|
  {
    if rows == [] then []
    else
      var n := |rows| - 1;
      var before := RejectedOf(rows[..n], outcomes[..n]);
      if outcomes[n].Rejected? then before + [RejectedRow(outcomes[n].reason, RawOf(rows[n]))] else before
  }

  function RawOf(row: Json): seq<Json> {
    if row.List? then row.items else [row]
  }

  /** The vectors of the rows that parse, and the rows that do not with their reasons, in order. */
  function Accepts(rows: seq<Json>, now: Time): seq<StateVector> {
    AcceptedOf(Outcomes(rows, now))
  }

  function Rejects(rows: seq<Json>, now: Time): seq<RejectedRow> {
    RejectedOf(rows, Outcomes(rows, now))
  }

  predicate SomeRaised(outcomes: seq<Parsed>) {
    exists i :: 0 <= i < |outcomes| && outcomes[i].Raised?
  }

  predicate SomeRowRaises(rows: seq<Json>, now: Time) {
    SomeRaised(Outcomes(rows, now))
  }

  method ParseStates(rows: Option<seq<Json>>, now: Time)
    returns (result: Outcome<(seq<StateVector>, seq<RejectedRow>)>)
    ensures var body := if rows.Some? then rows.value else [];
            result == if SomeRowRaises(body, now) then Raised
                      else Accepted((Accepts(body, now), Rejects(body, now)))
  {
    if rows == None || rows.value == [] {
      return Accepted(([], []));
    }
    result := SortRows(rows.value, Outcomes(rows.value, now));
  }

  /** The loop: append to one list or the other, stop at the first exception. */
  method SortRows(rows: seq<Json>, outcomes: seq<Parsed>)
    returns (result: Outcome<(seq<StateVector>, seq<RejectedRow>)>)
    requires |rows| == |outcomes|
    ensures result == if SomeRaised(outcomes) then Raised
                      else Accepted((AcceptedOf(outcomes), RejectedOf(rows, outcomes)))
  {
    var accepted, rejected := [], [];
    for i := 0 to |rows|
      invariant accepted == AcceptedOf(outcomes[..i]) && rejected == RejectedOf(rows[..i], outcomes[..i])
      invariant !SomeRaised(outcomes[..i])
    {
      var parsed := outcomes[i];
      assert outcomes[..i + 1][..i] == outcomes[..i] && rows[..i + 1][..i] == rows[..i];
      if parsed.Raised? {
        return Raised;
      } else if parsed.Accepted? {
        accepted := accepted + [parsed.value];
      } else {
        rejected := rejected + [RejectedRow(parsed.reason, RawOf(rows[i]))];
      }
    }
    assert rows[..|rows|] == rows && outcomes[..|rows|] == outcomes;
    return Accepted((accepted, rejected));
  }

  /** No row is lost and none is counted twice. */
  lemma ParseConserves(rows: seq<Json>, now: Time)
    requires !SomeRowRaises(rows, now)
    ensures |Accepts(rows, now)| + |Rejects(rows, now)| == |rows|
  {
    EachOutcomeOnce(rows, Outcomes(rows, now));
  }

  lemma {:induction false} EachOutcomeOnce(rows: seq<Json>, outcomes: seq<Parsed>)
    requires |rows| == |outcomes| && !SomeRaised(outcomes)
    ensures |AcceptedOf(outcomes)| + |RejectedOf(rows, outcomes)| == |rows|
  {
    if rows == [] {
    } else {
      var n := |rows| - 1;
      assert forall i | 0 <= i < n :: outcomes[..n][i] == outcomes[i];
      EachOutcomeOnce(rows[..n], outcomes[..n]);
    }
  }

  /**
   One malformed row never fails the batch, except through a number its field cannot represent: a
   body of representable numbers always parses.
   */
  lemma RepresentableBodiesParse(rows: seq<Json>, now: Time)
    requires forall i | 0 <= i < |rows| :: rows[i].List? ==> Representable(rows[i].items)
    ensures !SomeRowRaises(rows, now)
  {
    if SomeRowRaises(rows, now) {
      var i :| 0 <= i < |rows| && Outcomes(rows, now)[i].Raised?;
      RaisesOnlyOnUnrepresentable(rows[i], now);
    }
  }

  /** A body fails if and only if one of its rows raises, and which rows do is said by their own fields. */
  lemma BodyFailsExactlyWhen(rows: seq<Json>, now: Time)
    ensures SomeRowRaises(rows, now) <==> exists i :: 0 <= i < |rows| && RowRaises(rows[i], now)
  {
    forall i | 0 <= i < |rows| ensures Outcomes(rows, now)[i].Raised? <==> RowRaises(rows[i], now) {
      RaisesExactly(rows[i], now);
    }
  }

  /** The exception: a single NaN category fails the whole body, good rows included. */
  lemma OneBadNumberFailsTheBatch(good: seq<Json>, now: Time)
    requires now == 1_757_500_000 * SECOND
    ensures SomeRowRaises(good + [MinimalRow("abc", 1_757_500_000.0, Number(NaN))], now)
  {
    var row := MinimalRow("abc", 1_757_500_000.0, Number(NaN));
    NotANumberRaises(row.items, now);
    assert (good + [row])[|good|] == row;
    assert Outcomes(good + [row], now)[|good|].Raised?;
  }

  lemma NotANumberRaises(f: seq<Json>, now: Time)
    requires now == 1_757_500_000 * SECOND && List(f) == MinimalRow("abc", 1_757_500_000.0, Number(NaN))
    ensures ParseStateVector(List(f), now).Raised?
  {
    MinimalIdentity(f, now);
    GeometryAcceptedWhen(f);
    DetailsRaiseWhen(f);
  }

  lemma MinimalIdentity(f: seq<Json>, now: Time)
    requires now == 1_757_500_000 * SECOND && List(f) == MinimalRow("abc", 1_757_500_000.0, Number(NaN))
    ensures ParseIdentity(f, now).Accepted?
  {
    assert !Blank(f[0].text[0]);
    assert HalfEven(1_757_500_000.0 * MICROSECONDS) == now;
    IdentityAcceptedWhen(f, now);
  }

  // --- which rows end up where ---

  function AcceptedAt(outcomes: seq<Parsed>): set<nat> { set i: nat | i < |outcomes| && outcomes[i].Accepted? }

  function RejectedAt(outcomes: seq<Parsed>): set<nat> { set i: nat | i < |outcomes| && outcomes[i].Rejected? }

  lemma {:induction false} CountAccepted(outcomes: seq<Parsed>)
    ensures |AcceptedOf(outcomes)| == |AcceptedAt(outcomes)|
  {
    if outcomes == [] {
    } else {
      var n := |outcomes| - 1;
      CountAccepted(outcomes[..n]);
      assert AcceptedAt(outcomes) == AcceptedAt(outcomes[..n]) + (if outcomes[n].Accepted? then {n} else {});
    }
  }

  lemma {:induction false} CountRejected(rows: seq<Json>, outcomes: seq<Parsed>)
    requires |rows| == |outcomes|
    ensures |RejectedOf(rows, outcomes)| == |RejectedAt(outcomes)|
  {
    if rows == [] {
    } else {
      var n := |rows| - 1;
      CountRejected(rows[..n], outcomes[..n]);
      assert RejectedAt(outcomes) == RejectedAt(outcomes[..n]) + (if outcomes[n].Rejected? then {n} else {});
    }
  }

  lemma {:induction false} AcceptedPrefix(outcomes: seq<Parsed>, i: nat)
    requires i <= |outcomes|
    ensures AcceptedOf(outcomes[..i]) <= AcceptedOf(outcomes)
  {
    if i == |outcomes| {
      assert outcomes[..i] == outcomes;
    } else {
      var n := |outcomes| - 1;
      AcceptedPrefix(outcomes[..n], i);
      assert outcomes[..n][..i] == outcomes[..i];
    }
  }

  lemma {:induction false} RejectedPrefix(rows: seq<Json>, outcomes: seq<Parsed>, i: nat)
    requires i <= |rows| == |outcomes|
    ensures RejectedOf(rows[..i], outcomes[..i]) <= RejectedOf(rows, outcomes)
  {
    if i == |rows| {
      assert outcomes[..i] == outcomes && rows[..i] == rows;
    } else {
      var n := |rows| - 1;
      RejectedPrefix(rows[..n], outcomes[..n], i);
      assert outcomes[..n][..i] == outcomes[..i] && rows[..n][..i] == rows[..i];
    }
  }

  /** The vector of an accepted row comes after those of the accepted rows before it. */
  lemma AcceptedPlace(outcomes: seq<Parsed>, i: nat)
    requires i < |outcomes| && outcomes[i].Accepted?
    ensures var place := |AcceptedAt(outcomes[..i])|;
            place < |AcceptedOf(outcomes)| && AcceptedOf(outcomes)[place] == outcomes[i].value
  {
    CountAccepted(outcomes[..i]);
    AcceptedPrefix(outcomes, i + 1);
    assert outcomes[..i + 1][..i] == outcomes[..i];
  }

  /** A rejected row is kept with its own reason and fields, after the rejected rows before it. */
  lemma RejectedPlace(rows: seq<Json>, outcomes: seq<Parsed>, i: nat)
    requires i < |rows| == |outcomes| && outcomes[i].Rejected?
    ensures var place := |RejectedAt(outcomes[..i])|;
            && place < |RejectedOf(rows, outcomes)|
            && RejectedOf(rows, outcomes)[place].reason == outcomes[i].reason
            && RejectedOf(rows, outcomes)[place].raw == if rows[i].List? then rows[i].items else [rows[i]]
  {
    CountRejected(rows[..i], outcomes[..i]);
    RejectedPrefix(rows, outcomes, i + 1);
    assert outcomes[..i + 1][..i] == outcomes[..i] && rows[..i + 1][..i] == rows[..i];
  }

  function AcceptableRows(rows: seq<Json>, now: Time): set<nat> {
    set i: nat | i < |rows| && Acceptable(rows[i], now)
  }

  ghost function UnacceptableRows(rows: seq<Json>, now: Time): set<nat> {
    set i: nat | i < |rows| && !Acceptable(rows[i], now) && !RowRaises(rows[i], now)
  }

  /** How many rows are accepted and how many rejected, counted in the body itself. */
  lemma CountByRow(rows: seq<Json>, now: Time)
    ensures |Accepts(rows, now)| == |AcceptableRows(rows, now)|
    ensures |Rejects(rows, now)| == |UnacceptableRows(rows, now)|
  {
    var outcomes := Outcomes(rows, now);
    CountAccepted(outcomes);
    CountRejected(rows, outcomes);
    forall i | 0 <= i < |rows|
      ensures outcomes[i].Accepted? <==> Acceptable(rows[i], now)
      ensures outcomes[i].Raised? <==> RowRaises(rows[i], now)
    {
      AcceptedExactlyWhen(rows[i], now);
      RaisesExactly(rows[i], now);
    }
    assert AcceptableRows(rows, now) == AcceptedAt(outcomes);
    assert UnacceptableRows(rows, now) == RejectedAt(outcomes);
  }

  // --- deduplicate ---

  function KeysOf(vectors: seq<StateVector>): set<Key> {
    set i | 0 <= i < |vectors| :: vectors[i].DedupKey()
  }

  /** What is left when every later repeat of a key is dropped. */
  function FirstOccurrences(vectors: seq<StateVector>): seq<StateVector> {
    if vectors == [] then []
    else
      var before := vectors[..|vectors| - 1];
      var last := vectors[|vectors| - 1];
      if last.DedupKey() in KeysOf(before) then FirstOccurrences(before)
      else FirstOccurrences(before) + [last]
  }

  method Deduplicate(vectors: seq<StateVector>) returns (unique: seq<StateVector>, duplicates: nat)
    ensures unique == FirstOccurrences(vectors)
    ensures |unique| + duplicates == |vectors|
  {
    var seen: set<Key> := {};
    unique := [];
    duplicates := 0;
    for i := 0 to |vectors|
      invariant seen == KeysOf(vectors[..i])
      invariant unique == FirstOccurrences(vectors[..i])
      invariant |unique| + duplicates == i
    {
      var vector := vectors[i];
      assert vectors[..i + 1][..i] == vectors[..i];
      KeysOfAppend(vectors[..i], vector);
      assert vectors[..i + 1] == vectors[..i] + [vector];
      if vector.DedupKey() in seen {
        duplicates := duplicates + 1;
      } else {
        seen := seen + {vector.DedupKey()};
        unique := unique + [vector];
      }
    }
    assert vectors[..|vectors|] == vectors;
  }

  lemma KeysOfAppend(vectors: seq<StateVector>, v: StateVector)
    ensures KeysOf(vectors + [v]) == KeysOf(vectors) + {v.DedupKey()}
  {
    var longer := vectors + [v];
    assert longer[|vectors|] == v;
    forall k | k in KeysOf(vectors) ensures k in KeysOf(longer) {
      var i :| 0 <= i < |vectors| && vectors[i].DedupKey() == k;
      assert longer[i] == vectors[i];
    }
  }

  /**
   Deduplication keeps every key exactly once, keeps the first vector of each, and keeps the order
   of the snapshot.
   */
  lemma {:induction false} DeduplicateKeepsFirsts(vectors: seq<StateVector>)
    returns (from: seq<nat>)
    ensures var unique := FirstOccurrences(vectors);
            && KeysOf(unique) == KeysOf(vectors)
            && |from| == |unique|
            && (forall i | 0 <= i < |unique| :: from[i] < |vectors| && unique[i] == vectors[from[i]])
            && (forall i, j | 0 <= i < j < |unique| :: from[i] < from[j])
            && (forall i, j | 0 <= i < |unique| && 0 <= j < from[i] :: vectors[j].DedupKey() != unique[i].DedupKey())
    ensures forall i, j | 0 <= i < j < |FirstOccurrences(vectors)| ::
              FirstOccurrences(vectors)[i].DedupKey() != FirstOccurrences(vectors)[j].DedupKey()
  {
    if vectors == [] {
      return [];
    }
    var before, last := vectors[..|vectors| - 1], vectors[|vectors| - 1];
    assert vectors == before + [last];
    from := DeduplicateKeepsFirsts(before);
    KeysOfAppend(before, last);
    KeysOfAppend(FirstOccurrences(before), last);
    if last.DedupKey() !in KeysOf(before) {
      from := from + [|before|];
    }
  }

  // --- _reason_counts ---

  method ReasonCounts(rejected: seq<RejectedRow>) returns (counts: map<string, nat>)
    ensures forall reason ::
              (if reason in counts then counts[reason] else 0) == multiset(ReasonsOf(rejected))[reason]
    ensures forall reason | reason in counts :: counts[reason] > 0
  {
    counts := map[];
    for i := 0 to |rejected|
      invariant forall reason ::
          (if reason in counts then counts[reason] else 0) == multiset(ReasonsOf(rejected[..i]))[reason]
      invariant forall reason | reason in counts :: counts[reason] > 0
    {
      var reason := rejected[i].reason;
      counts := counts[reason := (if reason in counts then counts[reason] else 0) + 1];
      assert ReasonsOf(rejected[..i + 1]) == ReasonsOf(rejected[..i]) + [reason];
    }
    assert rejected[..|rejected|] == rejected;
  }

  function ReasonsOf(rejected: seq<RejectedRow>): (reasons: seq<string>)
    ensures |reasons| == |rejected|
  {
    seq(|rejected|, i requires 0 <= i < |rejected| => rejected[i].reason)
  }
}
