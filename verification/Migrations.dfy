/**
 The migration runner (ingestion/db.py): numbered files, each applied in a transaction of its own and
 recorded with a checksum.
 */
module Migrations {
  import opened Wrappers

  datatype File = File(name: string, body: string)

  /** SHA-256, taken to tell any two bodies apart. */
  datatype Digest = Digest(of: string)

  function Checksum(f: File): Digest { Digest(f.body) }

  /**
   The schema is what the committed bodies, in order, have made of it, so it is represented by them;
   `record` is `raw.schema_migrations`.
   */
  datatype Database = Database(committed: seq<File>, record: map<string, Digest>)

  /** What goes wrong with a transaction: nothing; it is rolled back; or it commits and the client never hears. */
  datatype Fault = Fine | RolledBack | LostAfterCommit

  /** `executes` says whether a body runs in a schema; `fault` what happens to each file's transaction in one run. */
  datatype Server = Server(executes: (seq<File>, string) -> bool, fault: string -> Fault)

  function Reliable(server: Server): Server { Server(server.executes, name => Fine) }

  datatype Outcome = Applied(names: seq<string>) | Edited(name: string) | Failed(name: string) | NoDirectory
  {
    function After(name: string): Outcome {
      if Applied? then Applied([name] + names) else this
    }
  }

  // --- file order ---

  predicate Before(a: string, b: string) {
    b != [] && (a == [] || a[0] < b[0] || (a[0] == b[0] && Before(a[1..], b[1..])))
  }

  lemma {:induction false} BeforeIsTotal(a: string, b: string)
    ensures Before(a, b) || Before(b, a) || a == b
  {
    if a == [] || b == [] || a[0] != b[0] {
    } else {
      BeforeIsTotal(a[1..], b[1..]);
      assert a == [a[0]] + a[1..] && b == [b[0]] + b[1..];
    }
  }

  lemma {:induction false} BeforeIsTransitive(a: string, b: string, c: string)
    requires Before(a, b) && Before(b, c)
    ensures Before(a, c)
  {
    if a == [] || a[0] != b[0] || b[0] != c[0] {
    } else {
      BeforeIsTransitive(a[1..], b[1..], c[1..]);
    }
  }

  predicate Ascending(files: seq<File>) {
    forall i, j | 0 <= i < j < |files| :: Before(files[i].name, files[j].name)
  }

  predicate DistinctNames(files: seq<File>) {
    forall i, j | 0 <= i < j < |files| :: files[i].name != files[j].name
  }

  function Insert(f: File, sorted: seq<File>): (r: seq<File>)
    ensures multiset(r) == multiset(sorted) + multiset{f}
  {
    if sorted == [] || Before(f.name, sorted[0].name) then [f] + sorted
    else
      assert sorted == [sorted[0]] + sorted[1..];
      [sorted[0]] + Insert(f, sorted[1..])
  }

  /** `sorted(directory.glob("*.sql"))`. */
  function Sorted(files: seq<File>): (r: seq<File>)
    ensures multiset(r) == multiset(files)
  {
    if files == [] then []
    else
      assert files == [files[0]] + files[1..];
      Insert(files[0], Sorted(files[1..]))
  }

  lemma {:induction false} InsertKeepsAscending(f: File, sorted: seq<File>)
    requires Ascending(sorted) && forall i | 0 <= i < |sorted| :: sorted[i].name != f.name
    ensures Ascending(Insert(f, sorted))
  {
    if sorted == [] {
    } else if Before(f.name, sorted[0].name) {
      forall i | 0 < i < |sorted| ensures Before(f.name, sorted[i].name) {
        BeforeIsTransitive(f.name, sorted[0].name, sorted[i].name);
      }
    } else {
      var rest := sorted[1..];
      BeforeIsTotal(f.name, sorted[0].name);
      InsertKeepsAscending(f, rest);
      forall g | g in Insert(f, rest) ensures Before(sorted[0].name, g.name) {
        assert g in multiset(Insert(f, rest));
        assert g in multiset(rest) || g == f;
        assert g in rest ==> exists i :: 0 <= i < |rest| && rest[i] == g && sorted[i + 1] == g;
      }
    }
  }

  /** Whatever order the directory lists its files in, they are taken in filename order. */
  lemma {:induction false} SortedIsAscending(files: seq<File>)
    requires DistinctNames(files)
    ensures Ascending(Sorted(files))
  {
    if files == [] {
    } else {
      var rest := Sorted(files[1..]);
      SortedIsAscending(files[1..]);
      forall i | 0 <= i < |rest| ensures rest[i].name != files[0].name {
        assert rest[i] in multiset(files[1..]);
      }
      InsertKeepsAscending(files[0], rest);
    }
  }

  lemma AscendingIsDistinct(files: seq<File>)
    requires Ascending(files)
    ensures DistinctNames(files)
  {
    forall i, j | 0 <= i < j < |files| ensures files[i].name != files[j].name {
      NotBeforeItself(files[i].name);
    }
  }

  lemma {:induction false} NotBeforeItself(a: string)
    ensures !Before(a, a)
  {
    if a == [] {
    } else {
      NotBeforeItself(a[1..]);
    }
  }

  // --- the runner's meaning ---

  function Commit(db: Database, f: File): Database {
    Database(db.committed + [f], db.record[f.name := Checksum(f)])
  }

  /** The body runs, and the filename is not yet taken. */
  predicate Executes(server: Server, db: Database, f: File) {
    server.executes(db.committed, f.body) && f.name !in db.record
  }

  /** What is left of one file's transaction. */
  function Transaction(db: Database, f: File, server: Server): Database {
    if Executes(server, db, f) && server.fault(f.name) != RolledBack then Commit(db, f) else db
  }

  predicate Acknowledged(db: Database, f: File, server: Server) {
    Executes(server, db, f) && server.fault(f.name) == Fine
  }

  function Migrate(db: Database, files: seq<File>, server: Server): (Database, Outcome)
    decreases files
  {
    if files == [] then (db, Applied([]))
    else
      var f, rest := files[0], files[1..];
      if f.name in db.record then
        if db.record[f.name] == Checksum(f) then Migrate(db, rest, server) else (db, Edited(f.name))
      else if Acknowledged(db, f, server) then
        var (after, outcome) := Migrate(Commit(db, f), rest, server);
        (after, outcome.After(f.name))
      else (Transaction(db, f, server), Failed(f.name))
  }

  // --- the runner ---

  class Runner {
    var db: Database
    var bookkeeping: bool // whether raw.schema_migrations exists

    constructor ()
      ensures db == Database([], map[]) && !bookkeeping
    {
      db := Database([], map[]);
      bookkeeping := false;
    }

    /**
     `apply_migrations`. The record is read once, before the loop, and one transaction per file follows;
     a directory that is not there is only noticed after the bookkeeping table was made.
     */
    method ApplyMigrations(directory: Option<seq<File>>, server: Server) returns (outcome: Outcome)
      requires directory.Some? ==> DistinctNames(directory.value)
      modifies this
      ensures bookkeeping
      ensures directory.None? ==> outcome == NoDirectory && db == old(db)
      ensures directory.Some? ==> (db, outcome) == Migrate(old(db), Sorted(directory.value), server)
    {
      bookkeeping := true;
      var alreadyApplied := db.record;
      if directory.None? {
        return NoDirectory;
      }
      var files := Sorted(directory.value);
      SortedIsAscending(directory.value);
      AscendingIsDistinct(files);
      outcome := ApplyFiles(files, alreadyApplied, server);
    }

    /** The loop, one transaction per file. */
    method ApplyFiles(files: seq<File>, alreadyApplied: map<string, Digest>, server: Server) returns (outcome: Outcome)
      requires DistinctNames(files) && Knows(alreadyApplied, db.record, files)
      modifies this`db
      ensures (db, outcome) == Migrate(old(db), files, server)
    {
      ghost var whole, left := Migrate(db, files, server), files;
      var names: seq<string>, i := [], 0;
      while i < |files|
        invariant 0 <= i <= |files| && left == files[i..]
        invariant DistinctNames(left) && Knows(alreadyApplied, db.record, left)
        invariant Rest(whole, Migrate(db, left, server), names)
      {
        var f := files[i];
        OneFile(whole, db, f, left, server, names);
        KnowsOnwards(alreadyApplied, db, f, left, server);
        left := left[1..];
        if f.name in alreadyApplied {
          if alreadyApplied[f.name] != Checksum(f) {
            return Edited(f.name);
          }
        } else {
          var acknowledged := Acknowledged(db, f, server);
          db := Transaction(db, f, server);
          if !acknowledged {
            return Failed(f.name);
          }
          names := names + [f.name];
        }
        i := i + 1;
      }
      assert names + [] == names;
      return Applied(names);
    }
  }

  lemma OneFile(whole: (Database, Outcome), db: Database, f: File, files: seq<File>, server: Server, names: seq<string>)
    requires files != [] && files[0] == f && Rest(whole, Migrate(db, files, server), names)
    ensures IsEdited(db, f) ==> whole == (db, Edited(f.name))
    ensures f.name in db.record && !IsEdited(db, f) ==> Rest(whole, Migrate(db, files[1..], server), names)
    ensures f.name !in db.record && Acknowledged(db, f, server) ==>
              && Transaction(db, f, server) == Commit(db, f)
              && Rest(whole, Migrate(Commit(db, f), files[1..], server), names + [f.name])
    ensures f.name !in db.record && !Acknowledged(db, f, server) ==>
              whole == (Transaction(db, f, server), Failed(f.name))
  {
    if f.name !in db.record && Acknowledged(db, f, server) {
      Longer(names, f.name, Migrate(Commit(db, f), files[1..], server).1);
    }
  }

  lemma Longer(names: seq<string>, name: string, rest: Outcome)
    ensures rest.Applied? ==> names + rest.After(name).names == names + [name] + rest.names
  {
  }

  lemma KnowsOnwards(read: map<string, Digest>, db: Database, f: File, files: seq<File>, server: Server)
    requires files != [] && files[0] == f && Knows(read, db.record, files) && DistinctNames(files)
    ensures f.name in read <==> f.name in db.record
    ensures f.name in read ==> read[f.name] == db.record[f.name]
    ensures DistinctNames(files[1..])
    ensures Knows(read, db.record, files[1..]) && Knows(read, Transaction(db, f, server).record, files[1..])
  {
    assert forall i | 0 <= i < |files[1..]| :: files[1..][i] == files[i + 1];
  }

  /** For the files still to come, the record read at the start is as good as the current one. */
  predicate Knows(read: map<string, Digest>, current: map<string, Digest>, files: seq<File>) {
    forall i | 0 <= i < |files| ::
      && (files[i].name in read <==> files[i].name in current)
      && (files[i].name in read ==> read[files[i].name] == current[files[i].name])
  }

  /** The whole run is the rest of it, after the names applied so far. */
  predicate Rest(whole: (Database, Outcome), rest: (Database, Outcome), names: seq<string>) {
    whole.0 == rest.0 && whole.1 == if rest.1.Applied? then Applied(names + rest.1.names) else rest.1
  }

  // --- what a run does ---

  function Pending(record: map<string, Digest>, files: seq<File>): seq<File> {
    if files == [] then []
    else (if files[0].name in record then [] else [files[0]]) + Pending(record, files[1..])
  }

  predicate UpToDate(db: Database, files: seq<File>) {
    forall i | 0 <= i < |files| :: files[i].name in db.record && db.record[files[i].name] == Checksum(files[i])
  }

  predicate RecordGrows(before: Database, after: Database) {
    && before.committed <= after.committed
    && forall name | name in before.record :: name in after.record && after.record[name] == before.record[name]
  }

  /** Nothing committed is ever taken back, and no record is altered. */
  lemma {:induction false} RunsOnlyAdd(db: Database, files: seq<File>, server: Server)
    ensures RecordGrows(db, Migrate(db, files, server).0)
    decreases files
  {
    if files == [] {
    } else {
      var f := files[0];
      if f.name in db.record {
        RunsOnlyAdd(db, files[1..], server);
      } else {
        RunsOnlyAdd(Commit(db, f), files[1..], server);
      }
    }
  }

  /** The record is exactly the files whose bodies committed, each once, with the checksum of that body. */
  predicate Faithful(db: Database) {
    && DistinctNames(db.committed)
    && (forall name | name in db.record :: exists i :: 0 <= i < |db.committed| && db.committed[i].name == name)
    && (forall i | 0 <= i < |db.committed| ::
          db.committed[i].name in db.record && db.record[db.committed[i].name] == Checksum(db.committed[i]))
  }

  lemma CommitKeepsFaithful(db: Database, f: File)
    requires Faithful(db) && f.name !in db.record
    ensures Faithful(Commit(db, f))
  {
    var after := Commit(db, f);
    assert after.committed[|db.committed|] == f;
    forall name | name in after.record
      ensures exists i :: 0 <= i < |after.committed| && after.committed[i].name == name
    {
      if name != f.name {
        var i :| 0 <= i < |db.committed| && db.committed[i].name == name;
        assert after.committed[i].name == name;
      }
    }
  }

  /** Whatever faults strike, and wherever, the record stays exactly what committed. */
  lemma {:induction false} RunsKeepFaithful(db: Database, files: seq<File>, server: Server)
    requires Faithful(db)
    ensures Faithful(Migrate(db, files, server).0)
    decreases files
  {
    if files == [] {
    } else {
      var f := files[0];
      if f.name in db.record {
        RunsKeepFaithful(db, files[1..], server);
      } else {
        CommitKeepsFaithful(db, f);
        RunsKeepFaithful(Commit(db, f), files[1..], server);
      }
    }
  }

  /** A file is committed and then recorded: rerunning passes it by. */
  lemma {:induction false} RerunCatchesUp(db: Database, files: seq<File>, faulty: Server)
    ensures var reliable := Reliable(faulty);
            var whole, again := Migrate(db, files, reliable), Migrate(Migrate(db, files, faulty).0, files, reliable);
            && again.0 == whole.0
            && (whole.1.Applied? <==> again.1.Applied?)
            && (!whole.1.Applied? ==> again.1 == whole.1)
    decreases files
  {
    if files == [] {
    } else {
      var f, rest := files[0], files[1..];
      if f.name in db.record {
        RunsOnlyAdd(db, rest, faulty);
        RerunCatchesUp(db, rest, faulty);
      } else {
        RunsOnlyAdd(Commit(db, f), rest, faulty);
        RerunCatchesUp(Commit(db, f), rest, faulty);
      }
    }
  }

  /** The database after a series of runs, each with faults of its own. */
  function Runs(db: Database, files: seq<File>, executes: (seq<File>, string) -> bool,
                faults: seq<string -> Fault>): Database
    decreases faults
  {
    if faults == [] then db
    else Runs(Migrate(db, files, Server(executes, faults[0])).0, files, executes, faults[1..])
  }

  /**
   Any number of runs, failing at any file in any way, followed by one without faults, leave the
   schema and the record that a single uninterrupted run leaves, and end as it ends.
   */
  lemma {:induction false} InterruptionsLeaveNoTrace(db: Database, files: seq<File>,
                                                     executes: (seq<File>, string) -> bool,
                                                     faults: seq<string -> Fault>)
    ensures var reliable := Server(executes, name => Fine);
            var whole := Migrate(db, files, reliable);
            var again := Migrate(Runs(db, files, executes, faults), files, reliable);
            && again.0 == whole.0
            && (whole.1.Applied? <==> again.1.Applied?)
            && (!whole.1.Applied? ==> again.1 == whole.1)
    decreases faults
  {
    if faults == [] {
    } else {
      var faulty := Server(executes, faults[0]);
      RerunCatchesUp(db, files, faulty);
      InterruptionsLeaveNoTrace(Migrate(db, files, faulty).0, files, executes, faults[1..]);
    }
  }

  function Names(files: seq<File>): seq<string> {
    if files == [] then [] else [files[0].name] + Names(files[1..])
  }

  /** A run that reports success has applied exactly the files that were missing, in order, and says so. */
  lemma {:induction false} SuccessAppliesWhatWasPending(db: Database, files: seq<File>, server: Server)
    requires DistinctNames(files) && Migrate(db, files, server).1.Applied?
    ensures Migrate(db, files, server).0.committed == db.committed + Pending(db.record, files)
    ensures Migrate(db, files, server).1.names == Names(Pending(db.record, files))
    decreases files
  {
    if files == [] {
    } else {
      var f, rest := files[0], files[1..];
      var next := if f.name in db.record then db else Commit(db, f);
      LaterNames(files);
      SuccessAppliesWhatWasPending(next, rest, server);
      SamePending(db.record, next.record, rest);
      Prepend(db.committed, f, Pending(db.record, rest));
    }
  }

  lemma Prepend(committed: seq<File>, f: File, pending: seq<File>)
    ensures committed + [f] + pending == committed + ([f] + pending)
    ensures Names([f] + pending) == [f.name] + Names(pending)
    ensures [] + pending == pending
  {
    assert ([f] + pending)[1..] == pending;
  }

  /** After a success every file is on record, with the checksum of what it now says. */
  lemma {:induction false} SuccessIsUpToDate(db: Database, files: seq<File>, server: Server)
    requires Migrate(db, files, server).1.Applied?
    ensures UpToDate(Migrate(db, files, server).0, files)
    decreases files
  {
    if files == [] {
    } else {
      var f, rest := files[0], files[1..];
      var next := if f.name in db.record then db else Commit(db, f);
      SuccessIsUpToDate(next, rest, server);
      FirstStays(next, f, rest, server);
      assert [f] + rest == files;
    }
  }

  lemma FirstStays(next: Database, f: File, rest: seq<File>, server: Server)
    requires f.name in next.record && next.record[f.name] == Checksum(f)
    requires UpToDate(Migrate(next, rest, server).0, rest)
    ensures UpToDate(Migrate(next, rest, server).0, [f] + rest)
  {
    RunsOnlyAdd(next, rest, server);
  }

  lemma LaterNames(files: seq<File>)
    requires files != [] && DistinctNames(files)
    ensures DistinctNames(files[1..])
    ensures forall i | 0 <= i < |files[1..]| :: files[1..][i] == files[i + 1] && files[1..][i].name != files[0].name
  {
  }

  lemma {:induction false} SamePending(a: map<string, Digest>, b: map<string, Digest>, files: seq<File>)
    requires forall i | 0 <= i < |files| :: files[i].name in a <==> files[i].name in b
    ensures Pending(a, files) == Pending(b, files)
  {
    if files == [] {
    } else {
      assert forall i | 0 <= i < |files[1..]| :: files[1..][i] == files[i + 1];
      SamePending(a, b, files[1..]);
    }
  }

  /** An up-to-date database is left alone, however unreliable the server. */
  lemma {:induction false} UpToDateAppliesNothing(db: Database, files: seq<File>, server: Server)
    requires UpToDate(db, files)
    ensures Migrate(db, files, server) == (db, Applied([]))
  {
    if files == [] {
    } else {
      assert forall i | 0 <= i < |files[1..]| :: files[1..][i] == files[i + 1];
      UpToDateAppliesNothing(db, files[1..], server);
    }
  }

  lemma RerunAppliesNothing(db: Database, files: seq<File>, server: Server, later: Server)
    requires Migrate(db, files, server).1.Applied?
    ensures Migrate(Migrate(db, files, server).0, files, later) == (Migrate(db, files, server).0, Applied([]))
  {
    SuccessIsUpToDate(db, files, server);
    UpToDateAppliesNothing(Migrate(db, files, server).0, files, later);
  }

  // --- edited files ---

  predicate IsEdited(db: Database, f: File) {
    f.name in db.record && db.record[f.name] != Checksum(f)
  }

  /**
   A file edited after it was applied stops the run: files before it are handled as if it were the end
   of the list, none after it is touched, and the run never reports success.
   */
  lemma {:induction false} EditedFileStopsTheRun(db: Database, files: seq<File>, i: nat, server: Server)
    requires DistinctNames(files) && i < |files| && IsEdited(db, files[i])
    requires forall j | 0 <= j < i :: !IsEdited(db, files[j])
    ensures var upTo, whole := Migrate(db, files[..i], server), Migrate(db, files, server);
            && whole.0 == upTo.0
            && whole.1 == (if upTo.1.Applied? then Edited(files[i].name) else upTo.1)
            && !whole.1.Applied?
    decreases files
  {
    if i == 0 {
    } else {
      var f, rest := files[0], files[1..];
      assert files[..i][1..] == rest[..i - 1];
      var next := if f.name in db.record then db else Commit(db, f);
      assert forall j | 0 <= j < |rest| :: rest[j] == files[j + 1];
      assert rest[i - 1] == files[i];
      EditedFileStopsTheRun(next, rest, i - 1, server);
    }
  }

  /** A run complains of an edited file only when there is one. */
  lemma {:induction false} OnlyEditedFilesAreRefused(db: Database, files: seq<File>, server: Server)
    requires DistinctNames(files) && Migrate(db, files, server).1.Edited?
    ensures exists i :: 0 <= i < |files| && IsEdited(db, files[i]) && files[i].name == Migrate(db, files, server).1.name
    decreases files
  {
    var f, rest := files[0], files[1..];
    if !IsEdited(db, f) {
      var next := if f.name in db.record then db else Commit(db, f);
      OnlyEditedFilesAreRefused(next, rest, server);
      var i :| 0 <= i < |rest| && IsEdited(next, rest[i]) && rest[i].name == Migrate(next, rest, server).1.name;
      assert files[i + 1] == rest[i];
    }
  }

  // --- what the server has to say ---

  /** Everything a run commits ran, in the schema that what was committed before it had made. */
  lemma {:induction false} CommittedFilesExecuted(db: Database, files: seq<File>, server: Server, j: nat)
    requires |db.committed| <= j < |Migrate(db, files, server).0.committed|
    ensures var after := Migrate(db, files, server).0;
            server.executes(after.committed[..j], after.committed[j].body)
    decreases files
  {
    if files == [] {
    } else {
      var f, rest := files[0], files[1..];
      if f.name in db.record {
        CommittedFilesExecuted(db, rest, server, j);
      } else if Acknowledged(db, f, server) {
        RunsOnlyAdd(Commit(db, f), rest, server);
        if j == |db.committed| {
          FirstIsExecuted(db, f, server, Migrate(Commit(db, f), rest, server).0);
        } else {
          CommittedFilesExecuted(Commit(db, f), rest, server, j);
        }
      } else {
        FirstIsExecuted(db, f, server, Transaction(db, f, server));
      }
    }
  }

  lemma FirstIsExecuted(db: Database, f: File, server: Server, after: Database)
    requires server.executes(db.committed, f.body) && db.committed + [f] <= after.committed
    ensures var j := |db.committed|;
            server.executes(after.committed[..j], after.committed[j].body)
  {
    assert after.committed[..|db.committed|] == db.committed;
    assert after.committed[|db.committed|] == (db.committed + [f])[|db.committed|] == f;
  }

  /** The `j`-th file is no obstacle: on record as it is, or new, and it runs and its transaction goes through. */
  predicate GoesThrough(db: Database, files: seq<File>, server: Server, j: nat)
    requires j < |files|
  {
    var f := files[j];
    if f.name in db.record then db.record[f.name].of == f.body
    else server.executes(db.committed + Pending(db.record, files[..j]), f.body) && server.fault(f.name) == Fine
  }

  /** After files that are no obstacle: what has been committed, and what the rest of the run starts from. */
  lemma {:induction false} AfterGoingThrough(db: Database, files: seq<File>, server: Server, i: nat)
    returns (mid: Database)
    requires DistinctNames(files) && i <= |files|
    requires forall j | 0 <= j < i :: GoesThrough(db, files, server, j)
    ensures mid.committed == db.committed + Pending(db.record, files[..i])
    ensures forall j | i <= j < |files| ::
              && (files[j].name in mid.record <==> files[j].name in db.record)
              && (files[j].name in mid.record ==> mid.record[files[j].name] == db.record[files[j].name])
    ensures Rest(Migrate(db, files, server), Migrate(mid, files[i..], server), Names(Pending(db.record, files[..i])))
  {
    if i == 0 {
      mid := db;
      assert files[0..] == files && files[..0] == [];
    } else {
      var before := AfterGoingThrough(db, files, server, i - 1);
      var f := files[i - 1];
      assert GoesThrough(db, files, server, i - 1);
      PendingOneMore(db.record, files, i - 1);
      OneFileOn(Migrate(db, files, server), before, f, files, i - 1, server, Names(Pending(db.record, files[..i - 1])));
      mid := if f.name in db.record then before else Commit(before, f);
    }
  }

  lemma OneFileOn(whole: (Database, Outcome), db: Database, f: File, files: seq<File>, i: nat, server: Server,
                  names: seq<string>)
    requires i < |files| && files[i] == f && Rest(whole, Migrate(db, files[i..], server), names) && !IsEdited(db, f)
    requires f.name !in db.record ==> Acknowledged(db, f, server)
    ensures if f.name in db.record then Rest(whole, Migrate(db, files[i + 1..], server), names)
            else Rest(whole, Migrate(Commit(db, f), files[i + 1..], server), names + [f.name])
  {
    assert files[i..][0] == f && files[i..][1..] == files[i + 1..];
    OneFile(whole, db, f, files[i..], server, names);
  }

  lemma PendingOneMore(record: map<string, Digest>, files: seq<File>, i: nat)
    requires i < |files|
    ensures Pending(record, files[..i + 1])
         == Pending(record, files[..i]) + if files[i].name in record then [] else [files[i]]
    ensures Names(Pending(record, files[..i + 1]))
         == Names(Pending(record, files[..i])) + if files[i].name in record then [] else [files[i].name]
  {
    assert files[..i + 1] == files[..i] + [files[i]];
    PendingAppend(record, files[..i], files[i]);
    var pending := Pending(record, files[..i]);
    if files[i].name in record {
      assert pending + [] == pending && Names(pending) + [] == Names(pending);
    } else {
      NamesAppend(pending, files[i]);
    }
  }

  lemma {:induction false} PendingAppend(record: map<string, Digest>, files: seq<File>, f: File)
    ensures Pending(record, files + [f]) == Pending(record, files) + if f.name in record then [] else [f]
  {
    if files == [] {
      assert [] + [f] == [f] && [f][1..] == [];
    } else {
      assert (files + [f])[1..] == files[1..] + [f];
      PendingAppend(record, files[1..], f);
    }
  }

  lemma {:induction false} NamesAppend(files: seq<File>, f: File)
    ensures Names(files + [f]) == Names(files) + [f.name]
  {
    if files == [] {
      assert [] + [f] == [f] && [f][1..] == [];
    } else {
      assert (files + [f])[1..] == files[1..] + [f];
      NamesAppend(files[1..], f);
    }
  }

  /**
   How a run ends. It succeeds when no file is an obstacle; otherwise at the first one that is: an edited
   file stops it without a trace, a new one that does not run or whose transaction fails is reported as
   failed - and is committed all the same exactly when it ran and only the acknowledgement was lost.
   */
  lemma RunEndsAt(db: Database, files: seq<File>, server: Server, i: nat)
    requires DistinctNames(files) && i <= |files|
    requires forall j | 0 <= j < i :: GoesThrough(db, files, server, j)
    requires i < |files| ==> !GoesThrough(db, files, server, i)
    ensures var (after, outcome) := Migrate(db, files, server);
            var done := db.committed + Pending(db.record, files[..i]);
            if i == |files| then outcome == Applied(Names(Pending(db.record, files))) && after.committed == done
            else if files[i].name in db.record then outcome == Edited(files[i].name) && after.committed == done
            else
              && outcome == Failed(files[i].name)
              && after.committed
              == done + if server.executes(done, files[i].body) && server.fault(files[i].name) == LostAfterCommit
                        then [files[i]] else []
  {
    var mid := AfterGoingThrough(db, files, server, i);
    var names := Names(Pending(db.record, files[..i]));
    if i == |files| {
      assert files[..i] == files && files[i..] == [];
      assert names + [] == names;
    } else {
      assert files[i..][0] == files[i];
      OneFile(Migrate(db, files, server), mid, files[i], files[i..], server, names);
      StopsThere(db, mid, files, server, i);
    }
  }

  lemma StopsThere(db: Database, mid: Database, files: seq<File>, server: Server, i: nat)
    requires i < |files| && mid.committed == db.committed + Pending(db.record, files[..i])
    requires files[i].name in mid.record <==> files[i].name in db.record
    requires files[i].name in mid.record ==> mid.record[files[i].name] == db.record[files[i].name]
    requires !GoesThrough(db, files, server, i)
    ensures if files[i].name in db.record then IsEdited(mid, files[i])
            else
              && files[i].name !in mid.record && !Acknowledged(mid, files[i], server)
              && Transaction(mid, files[i], server).committed
              == mid.committed + if server.executes(mid.committed, files[i].body) &&
                                    server.fault(files[i].name) == LostAfterCommit then [files[i]] else []
  {
  }

  /**
   A run reports success if and only if every file is on record unedited or is new, runs in the schema
   that those before it have made, and has its transaction go through.
   */
  lemma SucceedsExactlyWhen(db: Database, files: seq<File>, server: Server)
    requires DistinctNames(files)
    ensures Migrate(db, files, server).1.Applied? <==> forall j | 0 <= j < |files| :: GoesThrough(db, files, server, j)
  {
    if j :| 0 <= j < |files| && !GoesThrough(db, files, server, j) {
      var i := FirstObstacle(db, files, server, j);
      RunEndsAt(db, files, server, i);
    } else {
      RunEndsAt(db, files, server, |files|);
    }
  }

  lemma {:induction false} FirstObstacle(db: Database, files: seq<File>, server: Server, j: nat) returns (i: nat)
    requires j < |files| && !GoesThrough(db, files, server, j)
    ensures i <= j && !GoesThrough(db, files, server, i)
    ensures forall k | 0 <= k < i :: GoesThrough(db, files, server, k)
  {
    i := j;
    if k :| 0 <= k < j && !GoesThrough(db, files, server, k) {
      i := FirstObstacle(db, files, server, k);
    }
  }

  /** Filename order is that of the characters: the first difference decides, and a prefix comes first. */
  lemma {:induction false} BeforeMeans(a: string, b: string)
    ensures Before(a, b) <==> a != b && (a <= b || exists i :: DifferAt(a, b, i) && a[i] < b[i])
  {
    if a == [] || b == [] {
    } else if a[0] != b[0] {
      assert DifferAt(a, b, 0);
      assert forall i | DifferAt(a, b, i) :: i == 0;
    } else {
      BeforeMeans(a[1..], b[1..]);
      SameFirst(a, b);
      forall i ensures DifferAt(a, b, i) <==> DifferAt(a[1..], b[1..], i - 1) {
        DifferLater(a, b, i);
      }
      forall i | DifferAt(a[1..], b[1..], i) ensures DifferAt(a, b, i + 1) {
        DifferLater(a, b, i + 1);
      }
    }
  }

  lemma SameFirst(a: string, b: string)
    requires a != [] && b != [] && a[0] == b[0]
    ensures (a == b <==> a[1..] == b[1..]) && (a <= b <==> a[1..] <= b[1..])
  {
    assert a == [a[0]] + a[1..] && b == [b[0]] + b[1..];
  }

  lemma DifferLater(a: string, b: string, i: int)
    requires a != [] && b != [] && a[0] == b[0]
    ensures DifferAt(a, b, i) <==> DifferAt(a[1..], b[1..], i - 1)
  {
    if 1 <= i < |a| && i < |b| {
      assert a[..i] == [a[0]] + a[1..][..i - 1] && b[..i] == [b[0]] + b[1..][..i - 1];
    }
  }

  predicate DifferAt(a: string, b: string, i: int) {
    0 <= i < |a| && i < |b| && a[i] != b[i] && a[..i] == b[..i]
  }
}
