/**
 The landing zone (ingestion/loader.py over db/migrations/0001_raw_state_vectors.sql): one row per
 observation, first load wins, and one row per ingestion run.
 */
module Landing {
  import opened Wrappers
  import opened Clock
  import opened StateVectors
  import opened Snapshots

  type RunId = string

  /** A row of `raw.state_vectors`: the vector with its provenance. */
  datatype Landed = Landed(vector: StateVector, run: RunId, snapshotTime: Time, ingestedAt: Time)
  {
    function Key(): Key { vector.DedupKey() }
  }

  /** `raw.state_vectors`, indexed by its primary key. */
  type Table = map<Key, Landed>

  predicate WellKeyed(table: Table) {
    forall k | k in table :: table[k].Key() == k
  }

  /** Nothing landed is ever changed or removed. */
  predicate Extends(before: Table, after: Table) {
    forall k | k in before :: k in after && after[k] == before[k]
  }

  function RowsFor(vectors: seq<StateVector>, run: RunId, snapshotTime: Time, at: Time): (rows: seq<Landed>)
    ensures |rows| == |vectors|
    ensures forall i | 0 <= i < |rows| :: rows[i] == Landed(vectors[i], run, snapshotTime, at)
  {
    seq(|vectors|, i requires 0 <= i < |vectors| => Landed(vectors[i], run, snapshotTime, at))
  }

  function RowKeys(rows: seq<Landed>): set<Key> {
    set i | 0 <= i < |rows| :: rows[i].Key()
  }

  // --- the meaning of a load: one row at a time, first wins ---

  function Land(table: Table, rows: seq<Landed>): Table {
    if rows == [] then table
    else
      var before := Land(table, rows[..|rows| - 1]);
      var row := rows[|rows| - 1];
      if row.Key() in before then before else before[row.Key() := row]
  }

  /** The first of `rows` to carry the key. */
  function FirstRow(rows: seq<Landed>, k: Key): (row: Landed)
    requires k in RowKeys(rows)
    ensures row in rows && row.Key() == k
  {
    var before, last := rows[..|rows| - 1], rows[|rows| - 1];
    if k in RowKeys(before) then FirstRow(before, k)
    else
      assert last.Key() == k by { RowKeysAppend(before, last); assert before + [last] == rows; }
      last
  }

  lemma RowKeysAppend(rows: seq<Landed>, row: Landed)
    ensures RowKeys(rows + [row]) == RowKeys(rows) + {row.Key()}
  {
    var longer := rows + [row];
    assert longer[|rows|] == row;
    forall k | k in RowKeys(rows) ensures k in RowKeys(longer) {
      var i :| 0 <= i < |rows| && rows[i].Key() == k;
      assert longer[i] == rows[i];
    }
  }

  /**
   What a load does to the table, row by row or not: earlier rows stay as they are, exactly the new
   keys appear, and each carries the payload of its first occurrence.
   */
  lemma {:induction false} LandMeaning(table: Table, rows: seq<Landed>)
    ensures var after := Land(table, rows);
            && Extends(table, after)
            && after.Keys == table.Keys + RowKeys(rows)
            && (forall k | k in RowKeys(rows) && k !in table :: after[k] == FirstRow(rows, k))
    ensures WellKeyed(table) ==> WellKeyed(Land(table, rows))
  {
    if rows == [] {
    } else {
      var before, last := rows[..|rows| - 1], rows[|rows| - 1];
      LandMeaning(table, before);
      assert before + [last] == rows;
      RowKeysAppend(before, last);
      assert Land(table, rows).Keys == Land(table, before).Keys + {last.Key()};
    }
  }

  lemma {:induction false} LandAppend(table: Table, a: seq<Landed>, b: seq<Landed>)
    ensures Land(table, a + b) == Land(Land(table, a), b)
  {
    if b == [] {
      assert a + b == a;
    } else {
      LandAppend(table, a, b[..|b| - 1]);
      assert (a + b)[..|a + b| - 1] == a + b[..|b| - 1];
    }
  }

  /** Deduplicating a snapshot before loading it changes nothing. */
  lemma {:induction false} DeduplicatingFirstChangesNothing(table: Table, vectors: seq<StateVector>, run: RunId,
                                                            snapshotTime: Time, at: Time)
    ensures Land(table, RowsFor(FirstOccurrences(vectors), run, snapshotTime, at))
         == Land(table, RowsFor(vectors, run, snapshotTime, at))
  {
    if vectors == [] {
    } else {
      var before, last := vectors[..|vectors| - 1], vectors[|vectors| - 1];
      DeduplicatingFirstChangesNothing(table, before, run, snapshotTime, at);
      LastRow(table, before, last, vectors, run, snapshotTime, at);
      if last.DedupKey() in KeysOf(before) {
        RepeatChangesNothing(table, before, last, run, snapshotTime, at);
      } else {
        LastRow(table, FirstOccurrences(before), last, FirstOccurrences(vectors), run, snapshotTime, at);
      }
    }
  }

  function LandOne(table: Table, row: Landed): Table {
    if row.Key() in table then table else table[row.Key() := row]
  }

  lemma LastRow(table: Table, before: seq<StateVector>, last: StateVector, vectors: seq<StateVector>,
                run: RunId, snapshotTime: Time, at: Time)
    requires vectors == before + [last]
    ensures Land(table, RowsFor(vectors, run, snapshotTime, at))
         == LandOne(Land(table, RowsFor(before, run, snapshotTime, at)), Landed(last, run, snapshotTime, at))
  {
    var rows := RowsFor(vectors, run, snapshotTime, at);
    assert rows[..|rows| - 1] == RowsFor(before, run, snapshotTime, at);
  }

  lemma RepeatChangesNothing(table: Table, before: seq<StateVector>, last: StateVector,
                             run: RunId, snapshotTime: Time, at: Time)
    requires last.DedupKey() in KeysOf(before)
    ensures last.DedupKey() in Land(table, RowsFor(before, run, snapshotTime, at))
  {
    var rows := RowsFor(before, run, snapshotTime, at);
    var i :| 0 <= i < |before| && before[i].DedupKey() == last.DedupKey();
    assert rows[i].Key() == last.DedupKey();
    LandMeaning(table, rows);
  }

  // --- loads one after another ---

  function LandAll(table: Table, loads: seq<seq<Landed>>): Table {
    if loads == [] then table else Land(LandAll(table, loads[..|loads| - 1]), loads[|loads| - 1])
  }

  function AllKeys(loads: seq<seq<Landed>>): set<Key> {
    set i, k | 0 <= i < |loads| && k in RowKeys(loads[i]) :: k
  }

  lemma {:induction false} LandAllMeaning(table: Table, loads: seq<seq<Landed>>)
    ensures var after := LandAll(table, loads);
            && Extends(table, after)
            && after.Keys == table.Keys + AllKeys(loads)
  {
    if loads == [] {
    } else {
      var before, last := loads[..|loads| - 1], loads[|loads| - 1];
      LandAllMeaning(table, before);
      LandMeaning(LandAll(table, before), last);
      AllKeysAppend(before, last, loads);
    }
  }

  lemma AllKeysAppend(before: seq<seq<Landed>>, last: seq<Landed>, loads: seq<seq<Landed>>)
    requires loads == before + [last]
    ensures AllKeys(loads) == AllKeys(before) + RowKeys(last)
  {
    forall k | k in AllKeys(before) ensures k in AllKeys(loads) {
      var i :| 0 <= i < |before| && k in RowKeys(before[i]);
      assert loads[i] == before[i];
    }
    assert loads[|before|] == last;
    forall k | k in AllKeys(loads) ensures k in AllKeys(before) + RowKeys(last) {
      var i :| 0 <= i < |loads| && k in RowKeys(loads[i]);
      assert i < |before| ==> before[i] == loads[i];
    }
  }

  /** The payload of a key is that of the first load to carry it, whatever was loaded since. */
  lemma {:induction false} FirstLoadWins(loads: seq<seq<Landed>>, first: nat, k: Key)
    requires first < |loads| && k in RowKeys(loads[first])
    requires forall i | 0 <= i < first :: k !in RowKeys(loads[i])
    ensures k in LandAll(map[], loads) && LandAll(map[], loads)[k] == FirstRow(loads[first], k)
  {
    var before, last := loads[..|loads| - 1], loads[|loads| - 1];
    LandMeaning(LandAll(map[], before), last);
    if first == |before| {
      LandAllMeaning(map[], before);
      assert forall i | 0 <= i < |before| :: before[i] == loads[i];
      assert k !in LandAll(map[], before);
    } else {
      assert forall i | 0 <= i < |before| :: before[i] == loads[i];
      FirstLoadWins(before, first, k);
    }
  }

  /** Replaying any earlier load, under any later run, leaves the table as it is. */
  lemma ReplayChangesNothing(loads: seq<seq<Landed>>, i: nat, replay: seq<Landed>)
    requires i < |loads| && RowKeys(replay) <= RowKeys(loads[i])
    ensures Land(LandAll(map[], loads), replay) == LandAll(map[], loads)
  {
    var table := LandAll(map[], loads);
    LandAllMeaning(map[], loads);
    assert RowKeys(replay) <= table.Keys;
    LandMeaning(table, replay);
  }

  /** The order of the loads decides payloads, never which observations are landed. */
  lemma LoadOrderKeepsKeys(loads: seq<seq<Landed>>, reordered: seq<seq<Landed>>)
    requires multiset(loads) == multiset(reordered)
    ensures LandAll(map[], loads).Keys == LandAll(map[], reordered).Keys
  {
    LandAllMeaning(map[], loads);
    LandAllMeaning(map[], reordered);
    SameLoadsSameKeys(loads, reordered);
    SameLoadsSameKeys(reordered, loads);
  }

  lemma SameLoadsSameKeys(loads: seq<seq<Landed>>, reordered: seq<seq<Landed>>)
    requires multiset(loads) == multiset(reordered)
    ensures AllKeys(loads) <= AllKeys(reordered)
  {
    forall k | k in AllKeys(loads) ensures k in AllKeys(reordered) {
      var i :| 0 <= i < |loads| && k in RowKeys(loads[i]);
      assert loads[i] in multiset(reordered);
      var j :| 0 <= j < |reordered| && reordered[j] == loads[i];
    }
  }

  // --- one statement: INSERT ... VALUES (...), ... ON CONFLICT DO NOTHING ---

  /** The keys the statement adds; their number is the statement's row count. */
  function FreshKeys(table: Table, chunk: seq<Landed>): set<Key> {
    RowKeys(chunk) - table.Keys
  }

  function InsertOrIgnore(table: Table, chunk: seq<Landed>): Table {
    table + map k | k in FreshKeys(table, chunk) :: FirstRow(chunk, k)
  }

  /** A multi-row statement does what its rows would do one at a time, and counts what it added. */
  lemma StatementIsRowByRow(table: Table, chunk: seq<Landed>)
    ensures InsertOrIgnore(table, chunk) == Land(table, chunk)
    ensures |FreshKeys(table, chunk)| == |Land(table, chunk)| - |table|
    ensures |FreshKeys(table, chunk)| <= |chunk|
  {
    LandMeaning(table, chunk);
    StatementLands(table, chunk, Land(table, chunk));
    StatementCounts(table, chunk, Land(table, chunk));
  }

  lemma StatementLands(table: Table, chunk: seq<Landed>, after: Table)
    requires Extends(table, after) && after.Keys == table.Keys + RowKeys(chunk)
    requires forall k | k in RowKeys(chunk) && k !in table :: after[k] == FirstRow(chunk, k)
    ensures InsertOrIgnore(table, chunk) == after
  {
    var statement := InsertOrIgnore(table, chunk);
    assert statement.Keys == after.Keys;
    forall k | k in after ensures statement[k] == after[k] {
      if k in table {
        assert k !in FreshKeys(table, chunk);
      }
    }
  }

  lemma NothingFresh(table: Table, chunk: seq<Landed>)
    requires FreshKeys(table, chunk) == {}
    ensures InsertOrIgnore(table, chunk) == table
  {
    assert InsertOrIgnore(table, chunk).Keys == table.Keys;
  }

  lemma StatementCounts(table: Table, chunk: seq<Landed>, after: Table)
    requires after.Keys == table.Keys + RowKeys(chunk)
    ensures |FreshKeys(table, chunk)| == |after| - |table| && |FreshKeys(table, chunk)| <= |chunk|
  {
    AtMostOneKeyPerRow(chunk);
    UnionSize(table.Keys, RowKeys(chunk));
  }

  lemma UnionSize<T>(a: set<T>, b: set<T>)
    ensures |a + b| == |a| + |b - a| && |b - a| <= |b|
  {
    assert a + b == a + (b - a);
    assert |b| == |b - a| + |b * a|;
  }

  lemma {:induction false} AtMostOneKeyPerRow(rows: seq<Landed>)
    ensures |RowKeys(rows)| <= |rows|
  {
    if rows == [] {
      assert RowKeys(rows) == {};
    } else {
      var before, last := rows[..|rows| - 1], rows[|rows| - 1];
      AtMostOneKeyPerRow(before);
      RowKeysAppend(before, last);
      assert before + [last] == rows;
    }
  }

  // --- raw.ingestion_runs ---

  datatype RunStatus = Running | Succeeded | Failed

  datatype RunRecord = RunRecord(
    creditsEstimated: nat,
    startedAt: Time,
    status: RunStatus,
    finishedAt: Option<Time>,
    httpStatus: Option<int>,
    snapshotTime: Option<Time>,
    rowsReceived: Option<int>,
    rowsRejected: Option<int>,
    rowsInserted: Option<int>,
    rowsDuplicate: Option<int>,
    errorMessage: Option<string>)
  {
    /** The table's constraint: a run has an end exactly when it is no longer running. */
    predicate FinishedAtAgrees() { (status == Running) <==> finishedAt.None? }
  }

  function StartedRun(credits: nat, at: Time): RunRecord {
    RunRecord(credits, at, Running, None, None, None, None, None, None, None, None)
  }

  /** Nothing that only a finished run has. */
  predicate NoOutcome(run: RunRecord) {
    run.finishedAt.None? && run.errorMessage.None? && NoResponse(run)
  }

  /** Nothing that only an answered run has. */
  predicate NoResponse(run: RunRecord) {
    && run.httpStatus.None? && run.snapshotTime.None?
    && run.rowsReceived.None? && run.rowsRejected.None? && run.rowsInserted.None? && run.rowsDuplicate.None?
  }

  const MAX_ERROR_LENGTH: nat := 2000

  function Truncated(message: string): (short: string)
    ensures short <= message && |short| == if |message| <= 2_000 then |message| else 2_000
  {
    if |message| <= MAX_ERROR_LENGTH then message else message[..MAX_ERROR_LENGTH]
  }

  function SucceededRun(run: RunRecord, at: Time, httpStatus: int, snapshotTime: Time,
                        received: int, rejected: int, inserted: int, duplicate: int): RunRecord {
    RunRecord(run.creditsEstimated, run.startedAt, Succeeded, Some(at), Some(httpStatus), Some(snapshotTime),
              Some(received), Some(rejected), Some(inserted), Some(duplicate), None)
  }

  function FailedRun(run: RunRecord, at: Time, message: string): RunRecord {
    RunRecord(run.creditsEstimated, run.startedAt, Failed, Some(at), None, None, None, None, None, None,
              if message == "" then None else Some(Truncated(message)))
  }

  // --- the loader ---

  datatype Result<+T> = Done(value: T) | Error

  const BIND_PARAMETERS_MAX: nat := 65_535
  const COLUMNS: nat := 20
  const STATEMENT_ROWS_MAX: nat := BIND_PARAMETERS_MAX / COLUMNS // 3276
  const DEFAULT_BATCH_SIZE: int := 1000

  function Min(a: int, b: int): int { if a < b then a else b }

  predicate StorableBetween(rows: seq<Landed>, low: nat, high: nat)
    requires low <= high <= |rows|
  {
    forall i | low <= i < high :: Storable(rows[i].vector)
  }

  /** One statement: refused whole, or inserting what is new and reporting how many rows that was. */
  function Execute(pending: Table, runExists: bool, chunk: seq<Landed>): Result<(Table, nat)> {
    var added := FreshKeys(pending, chunk);
    if |chunk| > STATEMENT_ROWS_MAX || !StorableBetween(chunk, 0, |chunk|) || (!runExists && added != {}) then Error
    else Done((InsertOrIgnore(pending, chunk), |added|))
  }

  /** Why PostgreSQL refuses a load: too many rows for a statement, a failed check, or no such run. */
  predicate Refused(table: Table, runExists: bool, rows: seq<Landed>, batchSize: nat) {
    || Min(batchSize, |rows|) > STATEMENT_ROWS_MAX
    || !StorableBetween(rows, 0, |rows|)
    || (!runExists && !(RowKeys(rows) <= table.Keys))
  }

  /** What the chunks so far have shown about that. */
  predicate NotYetRefused(table: Table, runExists: bool, rows: seq<Landed>, batchSize: nat, start: nat, pending: Table)
    requires start <= |rows|
  {
    && (start > 0 ==> Min(batchSize, |rows|) <= STATEMENT_ROWS_MAX)
    && StorableBetween(rows, 0, start)
    && (!runExists ==> pending == table)
  }

  /**
   The chunk loop inside the transaction: the table as the transaction sees it and the running
   count, or the error that rolls it back.
   */
  method InsertChunks(table: Table, runExists: bool, rows: seq<Landed>, batchSize: nat)
    returns (result: Result<(Table, nat)>)
    requires batchSize > 0 && rows != []
    ensures result.Error? <==> Refused(table, runExists, rows, batchSize)
    ensures result.Done? ==> result.value.0 == Land(table, rows)
    ensures result.Done? ==> result.value.1 == |Land(table, rows)| - |table| <= |rows|
  {
    var pending: Table, inserted: nat, start: nat := table, 0, 0;
    NothingLoaded(table, rows);
    while start < |rows|
      invariant 0 <= start <= |rows|
      invariant Loaded(table, rows, start, pending, inserted)
      invariant NotYetRefused(table, runExists, rows, batchSize, start, pending)
    {
      var end := Min(start + batchSize, |rows|);
      var statement := Execute(pending, runExists, rows[start..end]);
      NextChunk(table, rows, start, end, pending, inserted);
      ChunkDecides(table, runExists, rows, batchSize, start, end, pending);
      if statement.Error? {
        return Error;
      }
      pending, inserted := statement.value.0, inserted + statement.value.1;
      start := end;
    }
    AllLoaded(table, rows, pending, inserted);
    return Done((pending, inserted));
  }

  lemma ChunkDecides(table: Table, runExists: bool, rows: seq<Landed>, batchSize: nat,
                     start: nat, end: nat, pending: Table)
    requires start < |rows| && batchSize > 0 && end == Min(start + batchSize, |rows|)
    requires NotYetRefused(table, runExists, rows, batchSize, start, pending)
    ensures var statement := Execute(pending, runExists, rows[start..end]);
            && (statement.Error? ==> Refused(table, runExists, rows, batchSize))
            && (statement.Done? ==> NotYetRefused(table, runExists, rows, batchSize, end, statement.value.0))
  {
    var chunk := rows[start..end];
    ChunkChecks(rows, start, end);
    ChunkReferences(table, rows, start, end);
    if FreshKeys(pending, chunk) == {} {
      NothingFresh(pending, chunk);
    }
  }

  /** The first `n` rows are in, and counted. */
  predicate Loaded(table: Table, rows: seq<Landed>, n: nat, pending: Table, inserted: int)
    requires n <= |rows|
  {
    pending == Land(table, rows[..n]) && inserted == |pending| - |table| <= n
  }

  lemma NothingLoaded(table: Table, rows: seq<Landed>)
    ensures Loaded(table, rows, 0, table, 0)
  {
  }

  lemma AllLoaded(table: Table, rows: seq<Landed>, pending: Table, inserted: int)
    requires Loaded(table, rows, |rows|, pending, inserted)
    ensures pending == Land(table, rows) && inserted == |Land(table, rows)| - |table| <= |rows|
    ensures pending == table ==> RowKeys(rows) <= table.Keys
  {
    assert rows[..|rows|] == rows;
    LandMeaning(table, rows);
  }

  lemma ChunkChecks(rows: seq<Landed>, start: nat, end: nat)
    requires start <= end <= |rows|
    ensures StorableBetween(rows, 0, start) && StorableBetween(rows[start..end], 0, end - start) ==>
              StorableBetween(rows, 0, end)
    ensures !StorableBetween(rows[start..end], 0, end - start) ==> !StorableBetween(rows, 0, |rows|)
  {
    var chunk := rows[start..end];
    assert forall i | start <= i < end :: rows[i] == chunk[i - start];
  }

  /** A chunk that adds a key to the table is one reason why the load does. */
  lemma ChunkReferences(table: Table, rows: seq<Landed>, start: nat, end: nat)
    requires start <= end <= |rows|
    ensures FreshKeys(table, rows[start..end]) != {} ==> !(RowKeys(rows) <= table.Keys)
  {
    ChunkKeys(rows, start, end);
  }

  class LandingZone {
    var stateVectors: Table
    var runs: map<RunId, RunRecord>

    predicate Valid()
      reads this
    {
      && WellKeyed(stateVectors)
      && (forall k | k in stateVectors :: stateVectors[k].run in runs)
      && (forall id | id in runs :: runs[id].FinishedAtAgrees())
    }

    constructor ()
      ensures Valid() && stateVectors == map[] && runs == map[]
    {
      stateVectors := map[];
      runs := map[];
    }

    /** Refused by the primary key when the id is taken. */
    method StartRun(id: RunId, credits: nat, now: Time) returns (result: Result<RunId>)
      requires Valid()
      modifies this`runs
      ensures Valid()
      ensures if id in old(runs) then result == Error && runs == old(runs)
              else result == Done(id) && runs == old(runs)[id := StartedRun(credits, now)]
      ensures id !in old(runs) ==>
                var run := runs[id];
                && run.creditsEstimated == credits && run.startedAt == now && run.status == Running && NoOutcome(run)
    {
      if id in runs {
        return Error;
      }
      runs := runs[id := StartedRun(credits, now)];
      return Done(id);
    }

    /**
     `insert_state_vectors`. All chunks share one transaction, so the load lands entirely or not at
     all; when it lands it is the row-by-row load whatever the batch size, and the count returned is
     the growth of the table. A batch size of zero is a Python error, and a negative one loads nothing.
     */
    method InsertStateVectors(run: RunId, snapshotTime: Time, vectors: seq<StateVector>, batchSize: int, now: Time)
      returns (result: Result<nat>)
      requires Valid()
      modifies this`stateVectors
      ensures Valid()
      ensures result.Error? <==>
                vectors != [] &&
                (batchSize == 0 ||
                 (batchSize > 0 &&
                  (|| (batchSize * 20 > 65_535 && |vectors| * 20 > 65_535)
                   || (exists i :: 0 <= i < |vectors| && !Storable(vectors[i]))
                   || (run !in runs && exists i :: 0 <= i < |vectors| && vectors[i].DedupKey() !in old(stateVectors)))))
      ensures result.Error? ==> stateVectors == old(stateVectors)
      ensures result.Done? ==> result.value == |stateVectors| - |old(stateVectors)| <= |vectors|
      ensures result.Done? ==>
                stateVectors == Land(old(stateVectors),
                                     if batchSize < 0 then [] else RowsFor(vectors, run, snapshotTime, now))
      ensures forall k | k in stateVectors && k !in old(stateVectors) ::
                var row := stateVectors[k];
                && row.vector in vectors && row.vector.icao24 == k.icao24 && row.vector.observedAt == k.observedAt
                && row.run == run && row.snapshotTime == snapshotTime && row.ingestedAt == now
    {
      if vectors == [] {
        return Done(0);
      }
      if batchSize == 0 {
        return Error;
      }
      if batchSize < 0 {
        return Done(0);
      }
      var rows := RowsFor(vectors, run, snapshotTime, now);
      RefusedByVectors(stateVectors, run in runs, vectors, run, snapshotTime, now, batchSize);
      NewRowsAreOurs(stateVectors, rows, vectors, run, snapshotTime, now);
      var loaded := InsertChunks(stateVectors, run in runs, rows, batchSize);
      if loaded.Error? {
        return Error;
      }
      LandKeepsReferences(stateVectors, rows, run, runs.Keys);
      stateVectors := loaded.value.0;
      return Done(loaded.value.1);
    }

    /** `finish_run` with a success; updates no row when there is no such run. */
    method FinishSucceeded(id: RunId, now: Time, httpStatus: int, snapshotTime: Time,
                           received: int, rejected: int, inserted: int, duplicate: int)
      requires Valid()
      modifies this`runs
      ensures Valid()
      ensures runs == if id !in old(runs) then old(runs)
                      else old(runs)[id := SucceededRun(old(runs)[id], now, httpStatus, snapshotTime,
                                                        received, rejected, inserted, duplicate)]
      ensures id in runs ==>
                var before, after := old(runs)[id], runs[id];
                && after.status == Succeeded && after.finishedAt == Some(now) && after.errorMessage == None
                && after.httpStatus == Some(httpStatus) && after.snapshotTime == Some(snapshotTime)
                && after.rowsReceived == Some(received) && after.rowsRejected == Some(rejected)
                && after.rowsInserted == Some(inserted) && after.rowsDuplicate == Some(duplicate)
                && after.startedAt == before.startedAt && after.creditsEstimated == before.creditsEstimated
    {
      if id in runs {
        runs := runs[id := SucceededRun(runs[id], now, httpStatus, snapshotTime,
                                        received, rejected, inserted, duplicate)];
      }
    }

    /** `finish_run` with a failure: the counts are wiped and the message is cut to size. */
    method FinishFailed(id: RunId, now: Time, message: string)
      requires Valid()
      modifies this`runs
      ensures Valid()
      ensures runs == if id !in old(runs) then old(runs) else old(runs)[id := FailedRun(old(runs)[id], now, message)]
      ensures id in runs ==>
                var before, after := old(runs)[id], runs[id];
                && after.status == Failed && after.finishedAt == Some(now)
                && NoResponse(after)
                && (after.errorMessage.Some? <==> message != "")
                && (after.errorMessage.Some? ==>
                      var text := after.errorMessage.value;
                      text <= message && |text| == if |message| <= 2_000 then |message| else 2_000)
                && after.startedAt == before.startedAt && after.creditsEstimated == before.creditsEstimated
    {
      if id in runs {
        runs := runs[id := FailedRun(runs[id], now, message)];
      }
    }
  }

  /** What one more chunk does to the transaction's view of the table. */
  lemma NextChunk(table: Table, rows: seq<Landed>, start: nat, end: nat, pending: Table, inserted: int)
    requires start <= end <= |rows| && Loaded(table, rows, start, pending, inserted)
    ensures var chunk := rows[start..end];
            Loaded(table, rows, end, InsertOrIgnore(pending, chunk), inserted + |FreshKeys(pending, chunk)|)
  {
    var chunk := rows[start..end];
    assert rows[..end] == rows[..start] + chunk;
    LandAppend(table, rows[..start], chunk);
    StatementIsRowByRow(pending, chunk);
  }

  lemma ChunkKeys(rows: seq<Landed>, start: nat, end: nat)
    requires start <= end <= |rows|
    ensures RowKeys(rows[start..end]) <= RowKeys(rows)
  {
    var chunk := rows[start..end];
    forall k | k in RowKeys(chunk) ensures k in RowKeys(rows) {
      var i :| 0 <= i < |chunk| && chunk[i].Key() == k;
      assert rows[start + i].Key() == k;
    }
  }

  lemma SameChecks(vectors: seq<StateVector>, run: RunId, snapshotTime: Time, at: Time)
    ensures StorableBetween(RowsFor(vectors, run, snapshotTime, at), 0, |vectors|)
       <==> !exists i :: 0 <= i < |vectors| && !Storable(vectors[i])
  {
    var rows := RowsFor(vectors, run, snapshotTime, at);
    assert forall i | 0 <= i < |rows| :: rows[i].vector == vectors[i];
  }

  /** The reasons for refusing a load, in terms of the vectors. */
  lemma RefusedByVectors(table: Table, runExists: bool, vectors: seq<StateVector>, run: RunId, snapshotTime: Time,
                         at: Time, batchSize: nat)
    ensures Refused(table, runExists, RowsFor(vectors, run, snapshotTime, at), batchSize) <==>
            || (batchSize * 20 > 65_535 && |vectors| * 20 > 65_535)
            || (exists i :: 0 <= i < |vectors| && !Storable(vectors[i]))
            || (!runExists && exists i :: 0 <= i < |vectors| && vectors[i].DedupKey() !in table)
  {
    var rows := RowsFor(vectors, run, snapshotTime, at);
    SameChecks(vectors, run, snapshotTime, at);
    assert forall i | 0 <= i < |rows| :: rows[i].Key() == vectors[i].DedupKey();
    if i :| 0 <= i < |vectors| && vectors[i].DedupKey() !in table {
      assert rows[i].Key() in RowKeys(rows);
    }
    if !(RowKeys(rows) <= table.Keys) {
      var k :| k in RowKeys(rows) && k !in table;
      var i :| 0 <= i < |rows| && rows[i].Key() == k;
      assert vectors[i].DedupKey() !in table;
    }
  }

  /** What a load adds are its own vectors, under their own keys and with the load's provenance. */
  lemma NewRowsAreOurs(table: Table, rows: seq<Landed>, vectors: seq<StateVector>, run: RunId,
                       snapshotTime: Time, at: Time)
    requires rows == RowsFor(vectors, run, snapshotTime, at)
    ensures forall k | k in Land(table, rows) && k !in table ::
              var row := Land(table, rows)[k];
              && row.vector in vectors && row.vector.icao24 == k.icao24 && row.vector.observedAt == k.observedAt
              && row.run == run && row.snapshotTime == snapshotTime && row.ingestedAt == at
  {
    LandMeaning(table, rows);
    forall k | k in Land(table, rows) && k !in table
      ensures var row := Land(table, rows)[k];
              && row.vector in vectors && row.vector.icao24 == k.icao24 && row.vector.observedAt == k.observedAt
              && row.run == run && row.snapshotTime == snapshotTime && row.ingestedAt == at
    {
      var row := FirstRow(rows, k);
      var i :| 0 <= i < |rows| && rows[i] == row;
      assert vectors[i] == row.vector;
    }
  }

  /** The foreign key survives a load that either has its run or adds nothing. */
  lemma LandKeepsReferences(table: Table, rows: seq<Landed>, run: RunId, runs: set<RunId>)
    requires WellKeyed(table) && forall k | k in table :: table[k].run in runs
    requires forall i | 0 <= i < |rows| :: rows[i].run == run
    requires run !in runs ==> RowKeys(rows) <= table.Keys
    ensures WellKeyed(Land(table, rows)) && forall k | k in Land(table, rows) :: Land(table, rows)[k].run in runs
  {
    LandMeaning(table, rows);
    var after := Land(table, rows);
    forall k | k in after ensures after[k].run in runs {
      if k !in table {
        assert after[k] == FirstRow(rows, k);
      }
    }
  }
}
