/** One ingestion from start to finish (ingestion/run.py, `ingest_once`), alone in the landing zone. */
module Ingest {
  import opened Wrappers
  import opened Clock
  import opened StateVectors
  import opened Snapshots
  import opened Landing

  /** What `fetch_states` came back with. */
  datatype Fetched = Snapshot(rows: seq<Json>, snapshotTime: Time, httpStatus: int) | FetchError(message: string)

  datatype LoadResult = LoadResult(run: RunId, received: int, rejected: int, inserted: int, duplicate: int)
  datatype IngestResult = DryRun | Completed(result: LoadResult) | Failure

  /** A snapshot arrived, no row of it makes the parser raise, and the table accepts every vector. */
  predicate Loadable(fetched: Fetched, now: Time) {
    && fetched.Snapshot?
    && !SomeRowRaises(fetched.rows, now)
    && var unique := FirstOccurrences(Accepts(fetched.rows, now));
       !exists i :: 0 <= i < |unique| && !Storable(unique[i])
  }

  /** Every received row is booked once - rejected, inserted or duplicate - in a result that matches the table. */
  predicate Booked(r: LoadResult, fetched: Fetched, now: Time, before: Table, after: Table)
    requires fetched.Snapshot?
  {
    && EachRowOnce(r, fetched.rows, now)
    && r.inserted == |after| - |before|
    && after == Land(before, RowsFor(Accepts(fetched.rows, now), r.run, fetched.snapshotTime, now))
  }

  predicate EachRowOnce(r: LoadResult, rows: seq<Json>, now: Time) {
    && r.received == |rows| && r.rejected == |Rejects(rows, now)|
    && r.received == r.rejected + r.inserted + r.duplicate
    && r.rejected >= 0 && r.inserted >= 0 && r.duplicate >= 0
  }

  function Finished(run: RunRecord, now: Time, fetched: Fetched, r: LoadResult): RunRecord
    requires fetched.Snapshot?
  {
    SucceededRun(run, now, fetched.httpStatus, fetched.snapshotTime, r.received, r.rejected, r.inserted, r.duplicate)
  }

  /** The record of a completed ingestion, counted in the response's own rows. */
  ghost predicate Tells(run: RunRecord, credits: nat, now: Time, fetched: Fetched, inserted: int)
    requires fetched.Snapshot?
  {
    && run.creditsEstimated == credits && run.startedAt == now
    && run.status == Succeeded && run.finishedAt == Some(now) && run.errorMessage == None
    && run.httpStatus == Some(fetched.httpStatus) && run.snapshotTime == Some(fetched.snapshotTime)
    && run.rowsReceived == Some(|fetched.rows|)
    && run.rowsRejected == Some(|UnacceptableRows(fetched.rows, now)|)
    && run.rowsInserted == Some(inserted)
    && run.rowsDuplicate == Some(|AcceptableRows(fetched.rows, now)| - inserted)
  }

  lemma FinishedTells(credits: nat, now: Time, fetched: Fetched, r: LoadResult)
    requires fetched.Snapshot? && !SomeRowRaises(fetched.rows, now) && EachRowOnce(r, fetched.rows, now)
    ensures Tells(Finished(StartedRun(credits, now), now, fetched, r), credits, now, fetched, r.inserted)
  {
    BookedByRow(fetched.rows, now, r.received, r.rejected, r.inserted, r.duplicate);
    RecordTells(credits, now, fetched, r);
  }

  lemma BookedByRow(rows: seq<Json>, now: Time, received: int, rejected: int, inserted: int, duplicate: int)
    requires !SomeRowRaises(rows, now) && received == |rows| && rejected == |Rejects(rows, now)|
    requires received == rejected + inserted + duplicate
    ensures rejected == |UnacceptableRows(rows, now)| && duplicate == |AcceptableRows(rows, now)| - inserted
  {
    CountByRow(rows, now);
    ParseConserves(rows, now);
  }

  lemma RecordTells(credits: nat, now: Time, fetched: Fetched, r: LoadResult)
    requires fetched.Snapshot? && r.received == |fetched.rows|
    requires r.rejected == |UnacceptableRows(fetched.rows, now)|
    requires r.duplicate == |AcceptableRows(fetched.rows, now)| - r.inserted
    ensures Tells(Finished(StartedRun(credits, now), now, fetched, r), credits, now, fetched, r.inserted)
  {
  }

  /** The record of a failed ingestion: no counts, and as much of the message as fits, if there is one. */
  predicate Complains(run: RunRecord, credits: nat, now: Time, message: string) {
    && run.creditsEstimated == credits && run.startedAt == now
    && run.status == Failed && run.finishedAt == Some(now) && NoResponse(run)
    && run.errorMessage == if message == "" then None
                           else Some(if |message| <= 2_000 then message else message[..2_000])
  }

  lemma FailureComplains(credits: nat, now: Time, message: string)
    ensures Complains(FailedRun(StartedRun(credits, now), now, message), credits, now, message)
  {
  }

  /** What the handler records: what the fetch said, or else what the parser or the database said. */
  function Complaint(fetched: Fetched, otherwise: string): string {
    if fetched.FetchError? then fetched.message else otherwise
  }

  /** How an ingestion that got its run row ends: the result, the record and the table say the same. */
  ghost predicate Ended(result: IngestResult, run: RunRecord, id: RunId, credits: nat, fetched: Fetched,
                        otherwise: string, now: Time, before: Table, after: Table)
  {
    match result
    case DryRun => false
    case Failure =>
      && after == before
      && run == FailedRun(StartedRun(credits, now), now, Complaint(fetched, otherwise))
      && Complains(run, credits, now, if fetched.FetchError? then fetched.message else otherwise)
    case Completed(r) =>
      && fetched.Snapshot? && r.run == id && Booked(r, fetched, now, before, after)
      && run == Finished(StartedRun(credits, now), now, fetched, r)
      && Tells(run, credits, now, fetched, |after| - |before|)
  }

  lemma EndedInFailure(run: RunRecord, id: RunId, credits: nat, fetched: Fetched, otherwise: string,
                       now: Time, table: Table)
    requires run == FailedRun(StartedRun(credits, now), now, Complaint(fetched, otherwise))
    ensures Ended(Failure, run, id, credits, fetched, otherwise, now, table, table)
  {
    FailureComplains(credits, now, Complaint(fetched, otherwise));
  }

  lemma EndedInSuccess(result: IngestResult, run: RunRecord, id: RunId, credits: nat, fetched: Fetched,
                       otherwise: string, now: Time, before: Table, after: Table)
    requires fetched.Snapshot? && !SomeRowRaises(fetched.rows, now) && result.Completed? && result.result.run == id
    requires Booked(result.result, fetched, now, before, after)
    requires run == Finished(StartedRun(credits, now), now, fetched, result.result)
    ensures Ended(result, run, id, credits, fetched, otherwise, now, before, after)
  {
    FinishedTells(credits, now, fetched, result.result);
  }

  /**
   Parse, deduplicate, insert, record. A success grows the table by the row-by-row load of the accepted
   rows and books every received row exactly once; a failure leaves the table alone and the run `failed`,
   with the exception's text (`otherwise`, when it is not the fetch's) and without counts.
   */
  method IngestOnce(zone: LandingZone, id: RunId, credits: nat, fetched: Fetched, otherwise: string,
                    now: Time, dryRun: bool)
    returns (result: IngestResult)
    requires zone.Valid()
    modifies zone
    ensures zone.Valid()
    ensures dryRun ==> zone.stateVectors == old(zone.stateVectors) && zone.runs == old(zone.runs)
    ensures dryRun ==> result == if fetched.Snapshot? && !SomeRowRaises(fetched.rows, now) then DryRun else Failure
    ensures !dryRun ==> !result.DryRun? && (result.Completed? <==> id !in old(zone.runs) && Loadable(fetched, now))
    ensures !result.Completed? ==> zone.stateVectors == old(zone.stateVectors)
    ensures !dryRun && id in old(zone.runs) ==> zone.runs == old(zone.runs)
    ensures !dryRun && id !in old(zone.runs) ==>
              && id in zone.runs && zone.runs == old(zone.runs)[id := zone.runs[id]]
              && Ended(result, zone.runs[id], id, credits, fetched, otherwise, now,
                       old(zone.stateVectors), zone.stateVectors)
  {
    if dryRun {
      result := Rehearse(fetched, now);
      return;
    }
    var started := zone.StartRun(id, credits, now);
    if started.Error? {
      return Failure;
    }
    result := Attempt(zone, id, credits, fetched, otherwise, now);
  }

  /** Everything after the run row is written: the `try` and its handler. */
  method Attempt(zone: LandingZone, id: RunId, credits: nat, fetched: Fetched, otherwise: string, now: Time)
    returns (result: IngestResult)
    requires zone.Valid() && id in zone.runs && zone.runs[id] == StartedRun(credits, now)
    modifies zone
    ensures zone.Valid() && id in zone.runs && zone.runs == old(zone.runs)[id := zone.runs[id]]
    ensures !result.DryRun? && (result.Completed? <==> Loadable(fetched, now))
    ensures !result.Completed? ==> zone.stateVectors == old(zone.stateVectors)
    ensures Ended(result, zone.runs[id], id, credits, fetched, otherwise, now,
                  old(zone.stateVectors), zone.stateVectors)
  {
    result := FetchAndLoad(zone, id, fetched, now);
    if result.Failure? {
      zone.FinishFailed(id, now, Complaint(fetched, otherwise));
      EndedInFailure(zone.runs[id], id, credits, fetched, otherwise, now, zone.stateVectors);
    } else {
      EndedInSuccess(result, zone.runs[id], id, credits, fetched, otherwise, now,
                     old(zone.stateVectors), zone.stateVectors);
    }
  }

  /** A dry run: everything short of the database. */
  method Rehearse(fetched: Fetched, now: Time) returns (result: IngestResult)
    ensures result == if fetched.Snapshot? && !SomeRowRaises(fetched.rows, now) then DryRun else Failure
  {
    if fetched.FetchError? {
      return Failure;
    }
    var parsed := ParseStates(Some(fetched.rows), now);
    if !parsed.Accepted? {
      return Failure;
    }
    var unique, repeats := Deduplicate(parsed.value.0);
    return DryRun;
  }

  /** The body of the `try`: everything between the run row and the handler. */
  method FetchAndLoad(zone: LandingZone, id: RunId, fetched: Fetched, now: Time) returns (result: IngestResult)
    requires zone.Valid() && id in zone.runs
    modifies zone
    ensures zone.Valid()
    ensures !result.DryRun? && (result.Completed? <==> Loadable(fetched, now))
    ensures result.Failure? ==> zone.stateVectors == old(zone.stateVectors) && zone.runs == old(zone.runs)
    ensures result.Completed? ==>
              && result.result.run == id
              && Booked(result.result, fetched, now, old(zone.stateVectors), zone.stateVectors)
              && zone.runs == old(zone.runs)[id := Finished(old(zone.runs)[id], now, fetched, result.result)]
  {
    if fetched.FetchError? {
      return Failure;
    }
    var parsed := ParseStates(Some(fetched.rows), now);
    if !parsed.Accepted? {
      return Failure;
    }
    var (vectors, rejected) := parsed.value;
    var unique, repeats := Deduplicate(vectors);
    SameChecks(unique, id, fetched.snapshotTime, now);
    var inserted := zone.InsertStateVectors(id, fetched.snapshotTime, unique, DEFAULT_BATCH_SIZE, now);
    if inserted.Error? {
      return Failure;
    }
    var alreadyPresent := |unique| - inserted.value;
    var duplicates := alreadyPresent + repeats;
    zone.FinishSucceeded(id, now, fetched.httpStatus, fetched.snapshotTime,
                         |fetched.rows|, |rejected|, inserted.value, duplicates);
    ParseConserves(fetched.rows, now);
    DeduplicatingFirstChangesNothing(old(zone.stateVectors), vectors, id, fetched.snapshotTime, now);
    return Completed(LoadResult(id, |fetched.rows|, |rejected|, inserted.value, duplicates));
  }
}
