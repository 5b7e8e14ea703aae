/**
 Concurrent ingestion (ingestion/run.py, `ingest_once`, over ingestion/loader.py): any number of
 workers load into one landing zone, each through three separate transactions - start the run, insert
 the rows, finish the run - and each may raise or crash between any two steps.

 PostgreSQL's part, at READ COMMITTED: an `ON CONFLICT DO NOTHING` row meets the committed table and
 the rows other open transactions have inserted. A committed conflict drops the row, a conflict with
 an open transaction blocks until that transaction ends, and an abort releases its keys.
 */
module Protocol {
  import opened Clock
  import opened StateVectors
  import opened Snapshots
  import opened Landing

  type WorkerId = nat

  /** What a worker carries from the fetched snapshot: the counts so far and the rows to insert. */
  datatype Load = Load(run: RunId, snapshotTime: Time, received: int, rejected: int, repeats: int, rows: seq<Landed>)

  datatype Phase =
    | Fetching(run: RunId)
    | Inserting(load: Load, next: nat, pending: Table, inserted: nat)
    | Loaded(load: Load, inserted: nat) // the insert transaction has committed
    | Failing(run: RunId)               // an exception is on its way to the handler
  {
    function Run(): RunId {
      match this
      case Fetching(run) => run
      case Inserting(load, _, _, _) => load.run
      case Loaded(load, _) => load.run
      case Failing(run) => run
    }
  }

  /** `log` lists the committed loads in commit order. */
  datatype State = State(
    table: Table,
    runs: map<RunId, RunRecord>,
    workers: map<WorkerId, Phase>,
    log: seq<seq<Landed>>)

  datatype Step =
    | Start(w: WorkerId, run: RunId, credits: nat, now: Time)
    | Respond(w: WorkerId, body: seq<Json>, snapshotTime: Time, now: Time, at: Time)
    | InsertNext(w: WorkerId)
    | Commit(w: WorkerId)
    | Succeed(w: WorkerId, httpStatus: int, now: Time)
    | Raise(w: WorkerId)
    | Fail(w: WorkerId, message: string, now: Time)
    | Crash(w: WorkerId)

  const INITIAL := State(map[], map[], map[], [])

  /** `now` is the parser's clock, `at` the insert transaction's. */
  function LoadOf(run: RunId, body: seq<Json>, snapshotTime: Time, now: Time, at: Time): Load {
    var vectors := Accepts(body, now);
    var unique := FirstOccurrences(vectors);
    Load(run, snapshotTime, |body|, |Rejects(body, now)|, |vectors| - |unique|, RowsFor(unique, run, snapshotTime, at))
  }

  predicate Blocked(s: State, w: WorkerId, k: Key) {
    exists v :: v in s.workers && v != w && s.workers[v].Inserting? && k in s.workers[v].pending
  }

  predicate Enabled(s: State, step: Step) {
    match step
    case Start(w, run, _, _) => w !in s.workers && run !in s.runs
    case Respond(w, _, _, _, _) => w in s.workers && s.workers[w].Fetching?
    case InsertNext(w) =>
      && w in s.workers && s.workers[w].Inserting?
      && s.workers[w].next < |s.workers[w].load.rows|
      && Storable(s.workers[w].load.rows[s.workers[w].next].vector)
      && !Blocked(s, w, s.workers[w].load.rows[s.workers[w].next].Key())
    case Commit(w) => w in s.workers && s.workers[w].Inserting? && s.workers[w].next == |s.workers[w].load.rows|
    case Succeed(w, _, _) => w in s.workers && s.workers[w].Loaded? && s.workers[w].load.run in s.runs
    case Raise(w) => w in s.workers && !s.workers[w].Failing?
    case Fail(w, _, _) => w in s.workers && s.workers[w].Failing? && s.workers[w].run in s.runs
    case Crash(w) => w in s.workers
  }

  function AfterRow(table: Table, p: Phase): Phase
    requires p.Inserting? && p.next < |p.load.rows|
  {
    var row := p.load.rows[p.next];
    if row.Key() in table || row.Key() in p.pending then p.(next := p.next + 1)
    else p.(next := p.next + 1, pending := p.pending[row.Key() := row], inserted := p.inserted + 1)
  }

  function Without(workers: map<WorkerId, Phase>, w: WorkerId): map<WorkerId, Phase> {
    map v | v in workers && v != w :: workers[v]
  }

  function Next(s: State, step: Step): State
    requires Enabled(s, step)
  {
    match step
    case Start(w, run, credits, now) =>
      s.(runs := s.runs[run := StartedRun(credits, now)], workers := s.workers[w := Fetching(run)])
    case Respond(w, body, snapshotTime, now, at) =>
      var run := s.workers[w].run;
      if SomeRowRaises(body, now) then s.(workers := s.workers[w := Failing(run)])
      else s.(workers := s.workers[w := Inserting(LoadOf(run, body, snapshotTime, now, at), 0, map[], 0)])
    case InsertNext(w) =>
      s.(workers := s.workers[w := AfterRow(s.table, s.workers[w])])
    case Commit(w) =>
      var p := s.workers[w];
      s.(table := s.table + p.pending, workers := s.workers[w := Loaded(p.load, p.inserted)],
         log := s.log + [p.load.rows])
    case Succeed(w, httpStatus, now) =>
      var Loaded(load, inserted) := s.workers[w];
      var alreadyPresent := |load.rows| - inserted;
      s.(runs := s.runs[load.run := SucceededRun(s.runs[load.run], now, httpStatus, load.snapshotTime, load.received,
                                                 load.rejected, inserted, alreadyPresent + load.repeats)],
         workers := Without(s.workers, w))
    case Raise(w) =>
      s.(workers := s.workers[w := Failing(s.workers[w].Run())])
    case Fail(w, message, now) =>
      var run := s.workers[w].run;
      s.(runs := s.runs[run := FailedRun(s.runs[run], now, message)], workers := Without(s.workers, w))
    case Crash(w) =>
      s.(workers := Without(s.workers, w))
  }

  // --- the invariant ---

  function Owned(table: Table, run: RunId): set<Key> {
    set k | k in table && table[k].run == run
  }

  predicate Distinct(rows: seq<Landed>) {
    forall i, j | 0 <= i < j < |rows| :: rows[i].Key() != rows[j].Key()
  }

  predicate LoadOk(load: Load) {
    && Distinct(load.rows)
    && (forall i | 0 <= i < |load.rows| :: load.rows[i].run == load.run)
    && load.received == load.rejected + load.repeats + |load.rows|
    && load.rejected >= 0 && load.repeats >= 0
  }

  function KeysUpTo(rows: seq<Landed>, n: nat): set<Key>
    requires n <= |rows|
  {
    set i | 0 <= i < n :: rows[i].Key()
  }

  lemma OneMoreKey(rows: seq<Landed>, n: nat)
    requires n < |rows|
    ensures KeysUpTo(rows, n + 1) == KeysUpTo(rows, n) + {rows[n].Key()}
    ensures Distinct(rows) ==> rows[n].Key() !in KeysUpTo(rows, n)
  {
  }

  /** Every row handled so far is in the table or in the open transaction. */
  predicate Handled(table: Table, rows: seq<Landed>, next: nat, pending: Table)
    requires next <= |rows|
  {
    forall i | 0 <= i < next ::
      rows[i].Key() in table || (rows[i].Key() in pending && pending[rows[i].Key()] == rows[i])
  }

  /** The open transaction holds only such rows, under their own keys, and none the table has. */
  predicate PendingRows(table: Table, rows: seq<Landed>, run: RunId, next: nat, pending: Table)
    requires next <= |rows|
  {
    && pending.Keys !! table.Keys
    && forall k | k in pending :: pending[k].run == run && pending[k].Key() == k && k in KeysUpTo(rows, next)
  }

  predicate PendingOk(table: Table, p: Phase)
    requires p.Inserting?
  {
    && p.next <= |p.load.rows|
    && p.inserted == |p.pending| <= p.next
    && Handled(table, p.load.rows, p.next, p.pending)
    && PendingRows(table, p.load.rows, p.load.run, p.next, p.pending)
  }

  predicate WorkerOk(s: State, p: Phase) {
    && p.Run() in s.runs && s.runs[p.Run()].status == Running
    && match p
       case Fetching(run) => Owned(s.table, run) == {}
       case Inserting(load, _, _, _) => LoadOk(load) && Owned(s.table, load.run) == {} && PendingOk(s.table, p)
       case Loaded(load, inserted) => LoadOk(load) && inserted == |Owned(s.table, load.run)| <= |load.rows|
       case Failing(_) => true
  }

  predicate Apart(p: Phase, q: Phase) {
    p.Run() != q.Run() && (p.Inserting? && q.Inserting? ==> p.pending.Keys !! q.pending.Keys)
  }

  /** A succeeded run's books: what came in went somewhere, and what it claims to have inserted is there. */
  predicate Balanced(table: Table, id: RunId, run: RunRecord) {
    && run.rowsReceived.Some? && run.rowsRejected.Some? && run.rowsInserted.Some? && run.rowsDuplicate.Some?
    && run.rowsReceived.value == run.rowsRejected.value + run.rowsInserted.value + run.rowsDuplicate.value
    && run.rowsRejected.value >= 0 && run.rowsDuplicate.value >= 0
    && run.rowsInserted.value == |Owned(table, id)|
  }

  predicate TableOk(s: State) {
    && WellKeyed(s.table)
    && (forall k | k in s.table :: s.table[k].run in s.runs)
    && s.table == LandAll(map[], s.log)
  }

  predicate RunsOk(s: State) {
    && (forall id | id in s.runs :: s.runs[id].FinishedAtAgrees())
    && (forall id | id in s.runs && s.runs[id].status == Succeeded :: Balanced(s.table, id, s.runs[id]))
  }

  predicate WorkersOk(s: State) {
    forall w | w in s.workers :: WorkerOk(s, s.workers[w])
  }

  predicate AllApart(workers: map<WorkerId, Phase>) {
    forall v, w | v in workers && w in workers && v != w :: Apart(workers[v], workers[w])
  }

  predicate Inv(s: State) {
    TableOk(s) && RunsOk(s) && WorkersOk(s) && AllApart(s.workers)
  }

  // --- one step at a time ---

  lemma LoadIsOk(run: RunId, body: seq<Json>, snapshotTime: Time, now: Time, at: Time)
    requires !SomeRowRaises(body, now)
    ensures LoadOk(LoadOf(run, body, snapshotTime, now, at))
  {
    var vectors := Accepts(body, now);
    ParseConserves(body, now);
    UniqueIsShorter(vectors);
    var from := DeduplicateKeepsFirsts(vectors);
  }

  lemma {:induction false} UniqueIsShorter(vectors: seq<StateVector>)
    ensures |FirstOccurrences(vectors)| <= |vectors|
  {
    if vectors == [] {
    } else {
      UniqueIsShorter(vectors[..|vectors| - 1]);
    }
  }

  lemma RowHandled(table: Table, p: Phase)
    requires p.Inserting? && p.next < |p.load.rows| && LoadOk(p.load) && PendingOk(table, p)
    ensures PendingOk(table, AfterRow(table, p))
  {
    var rows := p.load.rows;
    var row := rows[p.next];
    OneMoreKey(rows, p.next);
    PendingKeysComeEarlier(table, rows, p.load.run, p.next, p.pending);
    if row.Key() in table {
      RowSkipped(table, rows, p.load.run, p.next, p.pending);
    } else {
      MapGrows(p.pending, row.Key(), row);
      HandledAdds(table, rows, p.next, p.pending);
      PendingRowAdded(table, rows, p.load.run, p.next, p.pending);
    }
  }

  lemma PendingKeysComeEarlier(table: Table, rows: seq<Landed>, run: RunId, next: nat, pending: Table)
    requires next < |rows| && Distinct(rows) && PendingRows(table, rows, run, next, pending)
    ensures rows[next].Key() !in pending && rows[next].Key() !in KeysUpTo(rows, next)
  {
  }

  lemma RowSkipped(table: Table, rows: seq<Landed>, run: RunId, next: nat, pending: Table)
    requires next < |rows| && rows[next].Key() in table
    requires Handled(table, rows, next, pending) && PendingRows(table, rows, run, next, pending)
    ensures Handled(table, rows, next + 1, pending) && PendingRows(table, rows, run, next + 1, pending)
  {
    OneMoreKey(rows, next);
  }

  lemma PendingRowAdded(table: Table, rows: seq<Landed>, run: RunId, next: nat, pending: Table)
    requires next < |rows| && rows[next].Key() !in table && rows[next].run == run
    requires PendingRows(table, rows, run, next, pending)
    ensures PendingRows(table, rows, run, next + 1, pending[rows[next].Key() := rows[next]])
  {
    OneMoreKey(rows, next);
  }

  lemma HandledAdds(table: Table, rows: seq<Landed>, next: nat, pending: Table)
    requires next < |rows| && Handled(table, rows, next, pending) && rows[next].Key() !in KeysUpTo(rows, next)
    ensures Handled(table, rows, next + 1, pending[rows[next].Key() := rows[next]])
  {
    assert forall i | 0 <= i < next :: rows[i].Key() in KeysUpTo(rows, next);
  }

  lemma MapGrows<K, V>(m: map<K, V>, k: K, v: V)
    requires k !in m
    ensures |m[k := v]| == |m| + 1
  {
    assert m[k := v].Keys == m.Keys + {k};
  }

  /** Committing an open transaction is the row-by-row load of its snapshot, done at that instant. */
  lemma CommitIsALoad(table: Table, p: Phase)
    requires p.Inserting? && p.next == |p.load.rows| && LoadOk(p.load) && PendingOk(table, p)
    ensures table + p.pending == Land(table, p.load.rows)
  {
    var rows := p.load.rows;
    LandMeaning(table, rows);
    assert KeysUpTo(rows, p.next) == RowKeys(rows);
    forall k | k in RowKeys(rows) && k !in table ensures k in p.pending && p.pending[k] == FirstRow(rows, k) {
      PendingHoldsFirst(table, p, k);
    }
    SameTable(table, p.pending, rows, Land(table, rows));
  }

  lemma PendingHoldsFirst(table: Table, p: Phase, k: Key)
    requires p.Inserting? && p.next == |p.load.rows| && PendingOk(table, p)
    requires k in RowKeys(p.load.rows) && k !in table
    ensures k in p.pending && p.pending[k] == FirstRow(p.load.rows, k)
  {
    var row := FirstRow(p.load.rows, k);
    var i :| 0 <= i < |p.load.rows| && p.load.rows[i] == row;
    assert row.Key() in table || (row.Key() in p.pending && p.pending[row.Key()] == row);
  }

  lemma SameTable(table: Table, pending: Table, rows: seq<Landed>, after: Table)
    requires Extends(table, after) && after.Keys == table.Keys + RowKeys(rows)
    requires forall k | k in RowKeys(rows) && k !in table :: after[k] == FirstRow(rows, k)
    requires pending.Keys !! table.Keys && pending.Keys <= RowKeys(rows)
    requires forall k | k in RowKeys(rows) && k !in table :: k in pending && pending[k] == FirstRow(rows, k)
    ensures table + pending == after
  {
    assert after.Keys == table.Keys + pending.Keys;
  }

  /** A commit adds the worker's rows to its own run and to no other. */
  lemma CommitOwnership(table: Table, p: Phase, run: RunId)
    requires p.Inserting? && PendingOk(table, p) && Owned(table, p.load.run) == {}
    ensures Owned(table + p.pending, run) == if run == p.load.run then p.pending.Keys else Owned(table, run)
  {
    var after := table + p.pending;
    assert forall k | k in table :: k !in p.pending && after[k] == table[k];
    assert forall k | k in table :: k !in Owned(table, p.load.run);
  }

  lemma CommitKeepsOthers(table: Table, p: Phase, q: Phase)
    requires p.Inserting? && PendingOk(table, p) && q.Inserting? && PendingOk(table, q) && Apart(p, q)
    ensures PendingOk(table + p.pending, q)
  {
  }

  lemma StepKeepsInv(s: State, step: Step)
    requires Inv(s) && Enabled(s, step)
    ensures Inv(Next(s, step))
  {
    match step
    case Start(w, run, _, _) => StartKeepsInv(s, step);
    case Respond(w, body, snapshotTime, now, at) =>
      var run := s.workers[w].run;
      if SomeRowRaises(body, now) {
        ReplaceKeepsInv(s, w, Failing(run));
      } else {
        LoadIsOk(run, body, snapshotTime, now, at);
        ReplaceKeepsInv(s, w, Inserting(LoadOf(run, body, snapshotTime, now, at), 0, map[], 0));
      }
    case InsertNext(w) => InsertKeepsInv(s, w);
    case Commit(w) => CommitKeepsInv(s, step);
    case Raise(w) => ReplaceKeepsInv(s, w, Failing(s.workers[w].Run()));
    case _ => EndKeepsInv(s, step);
  }

  lemma StartKeepsInv(s: State, step: Step)
    requires Inv(s) && step.Start? && Enabled(s, step)
    ensures Inv(Next(s, step))
  {
    var t := Next(s, step);
    forall v | v in t.workers ensures WorkerOk(t, t.workers[v]) {
      if v == step.w {
        assert Owned(s.table, step.run) == {};
      }
    }
  }

  /** A worker may move to any phase of the same run that is sound and clashes with no open transaction. */
  lemma ReplaceKeepsInv(s: State, w: WorkerId, q: Phase)
    requires Inv(s) && w in s.workers && q.Run() == s.workers[w].Run() && WorkerOk(s, q)
    requires forall v | v in s.workers && v != w :: Apart(s.workers[v], q)
    ensures Inv(s.(workers := s.workers[w := q]))
  {
    var t := s.(workers := s.workers[w := q]);
    forall v | v in t.workers ensures WorkerOk(t, t.workers[v]) {
      SameStoreSameSoundness(s, t, t.workers[v]);
    }
  }

  lemma SameStoreSameSoundness(s: State, t: State, p: Phase)
    requires WorkerOk(s, p) && t.table == s.table && t.runs == s.runs
    ensures WorkerOk(t, p)
  {
  }

  lemma InsertKeepsInv(s: State, w: WorkerId)
    requires Inv(s) && Enabled(s, InsertNext(w))
    ensures Inv(Next(s, InsertNext(w)))
  {
    var p := s.workers[w];
    var q := AfterRow(s.table, p);
    assert WorkerOk(s, p);
    RowHandled(s.table, p);
    forall v | v in s.workers && v != w ensures Apart(s.workers[v], q) {
      UnblockedStaysApart(s, w, v);
    }
    ReplaceKeepsInv(s, w, q);
  }

  lemma UnblockedStaysApart(s: State, w: WorkerId, v: WorkerId)
    requires AllApart(s.workers) && w in s.workers && v in s.workers && v != w
    requires s.workers[w].Inserting? && s.workers[w].next < |s.workers[w].load.rows|
    requires !Blocked(s, w, s.workers[w].load.rows[s.workers[w].next].Key())
    ensures Apart(s.workers[v], AfterRow(s.table, s.workers[w]))
  {
    assert Apart(s.workers[v], s.workers[w]);
  }

  lemma CommitKeepsInv(s: State, step: Step)
    requires Inv(s) && step.Commit? && Enabled(s, step)
    ensures Inv(Next(s, step))
  {
    var t, p := Next(s, step), s.workers[step.w];
    CommitKeepsTable(s, t, p);
    forall run ensures Owned(t.table, run) == if run == p.load.run then p.pending.Keys else Owned(s.table, run) {
      CommitOwnership(s.table, p, run);
    }
    CommitKeepsRuns(s, t, p);
    CommitKeepsWorkers(s, t, p, step.w);
    CommitKeepsApart(s, t, step.w);
  }

  lemma CommitKeepsTable(s: State, t: State, p: Phase)
    requires TableOk(s) && WorkerOk(s, p) && p.Inserting? && p.next == |p.load.rows|
    requires t.table == s.table + p.pending && t.runs == s.runs && t.log == s.log + [p.load.rows]
    ensures TableOk(t)
  {
    CommitIsALoad(s.table, p);
    assert t.log[..|t.log| - 1] == s.log;
  }

  lemma CommitKeepsRuns(s: State, t: State, p: Phase)
    requires RunsOk(s) && WorkerOk(s, p) && p.Inserting?
    requires t.runs == s.runs
    requires forall run :: Owned(t.table, run) == if run == p.load.run then p.pending.Keys else Owned(s.table, run)
    ensures RunsOk(t)
  {
    forall id | id in t.runs && t.runs[id].status == Succeeded ensures Balanced(t.table, id, t.runs[id]) {
      assert id != p.load.run;
      assert Balanced(s.table, id, s.runs[id]);
    }
  }

  lemma CommitKeepsApart(s: State, t: State, w: WorkerId)
    requires AllApart(s.workers) && w in s.workers && s.workers[w].Inserting?
    requires t.workers == s.workers[w := Loaded(s.workers[w].load, s.workers[w].inserted)]
    ensures AllApart(t.workers)
  {
  }

  lemma CommitKeepsWorkers(s: State, t: State, p: Phase, w: WorkerId)
    requires WorkersOk(s) && AllApart(s.workers) && w in s.workers && s.workers[w] == p && p.Inserting?
    requires p.next == |p.load.rows|
    requires t.table == s.table + p.pending && t.runs == s.runs
    requires t.workers == s.workers[w := Loaded(p.load, p.inserted)]
    requires forall run :: Owned(t.table, run) == if run == p.load.run then p.pending.Keys else Owned(s.table, run)
    ensures WorkersOk(t)
  {
    forall v | v in t.workers ensures WorkerOk(t, t.workers[v]) {
      if v != w {
        assert Apart(s.workers[v], p);
        if s.workers[v].Inserting? {
          CommitKeepsOthers(s.table, p, s.workers[v]);
        }
      }
    }
  }

  /** Crashing and recording the outcome touch neither the table nor the other workers. */
  lemma EndKeepsInv(s: State, step: Step)
    requires Inv(s) && Enabled(s, step)
    requires step.Succeed? || step.Fail? || step.Crash?
    ensures Inv(Next(s, step))
  {
    var t := Next(s, step);
    forall v | v in t.workers ensures WorkerOk(t, t.workers[v]) {
      assert v != step.w ==> Apart(s.workers[v], s.workers[step.w]);
    }
  }

  // --- whole runs ---

  ghost predicate Behaviour(states: seq<State>, steps: seq<Step>) {
    && |states| == |steps| + 1
    && states[0] == INITIAL
    && forall i {:trigger steps[i]} | 0 <= i < |steps| ::
         Enabled(states[i], steps[i]) && states[i + 1] == Next(states[i], steps[i])
  }

  /** Every interleaving of any number of workers, with failures and crashes anywhere, keeps the invariant. */
  lemma {:induction false} EveryStateIsSound(states: seq<State>, steps: seq<Step>, i: nat)
    requires Behaviour(states, steps) && i < |states|
    ensures Inv(states[i])
  {
    if i == 0 {
    } else {
      EveryStateIsSound(states, steps, i - 1);
      StepKeepsInv(states[i - 1], steps[i - 1]);
    }
  }

  /** The landing zone is append-only: what is landed keeps its payload and the run that first landed it. */
  lemma {:induction false} LandedRowsNeverChange(states: seq<State>, steps: seq<Step>, i: nat, j: nat)
    requires Behaviour(states, steps) && i <= j < |states|
    ensures Extends(states[i].table, states[j].table)
    decreases j - i
  {
    if i == j {
    } else {
      LandedRowsNeverChange(states, steps, i, j - 1);
      NeighboursExtend(states, steps, j - 1);
      ExtendsTransitive(states[i].table, states[j - 1].table, states[j].table);
    }
  }

  lemma NeighboursExtend(states: seq<State>, steps: seq<Step>, i: nat)
    requires Behaviour(states, steps) && i < |steps|
    ensures Extends(states[i].table, states[i + 1].table)
  {
    EveryStateIsSound(states, steps, i);
    StepExtends(states[i], steps[i]);
  }

  lemma StepExtends(s: State, step: Step)
    requires Inv(s) && Enabled(s, step)
    ensures Extends(s.table, Next(s, step).table)
  {
    if step.Commit? {
      assert WorkerOk(s, s.workers[step.w]);
    }
  }

  lemma ExtendsTransitive(a: Table, b: Table, c: Table)
    requires Extends(a, b) && Extends(b, c)
    ensures Extends(a, c)
  {
  }

  /** A run no worker holds any more is never written again: finished runs stay, crashed ones stay running. */
  lemma {:induction false} ReleasedRunsAreFinal(states: seq<State>, steps: seq<Step>, i: nat, j: nat, id: RunId)
    requires Behaviour(states, steps) && i <= j < |states|
    requires Released(states[i], id)
    ensures Released(states[j], id) && states[j].runs[id] == states[i].runs[id]
    decreases j - i
  {
    if i == j {
    } else {
      ReleasedRunsAreFinal(states, steps, i, j - 1, id);
      ReleasedStays(states[j - 1], steps[j - 1], id);
    }
  }

  predicate Released(s: State, id: RunId) {
    id in s.runs && forall w | w in s.workers :: s.workers[w].Run() != id
  }

  lemma ReleasedStays(s: State, step: Step, id: RunId)
    requires Enabled(s, step) && Released(s, id)
    ensures Released(Next(s, step), id) && Next(s, step).runs[id] == s.runs[id]
  {
    if step.InsertNext? {
      assert AfterRow(s.table, s.workers[step.w]).Run() == s.workers[step.w].Run();
    }
  }

  /**
   Whatever other workers have done or do later, a run recorded as succeeded keeps its record, its
   counts add up, and the number of rows it claims is the number of landed rows that carry its id.
   */
  lemma SucceededRunsStayTrue(states: seq<State>, steps: seq<Step>, i: nat, j: nat, id: RunId)
    requires Behaviour(states, steps) && i <= j < |states|
    requires id in states[i].runs && states[i].runs[id].status == Succeeded
    ensures id in states[j].runs && states[j].runs[id] == states[i].runs[id]
    ensures Balanced(states[j].table, id, states[j].runs[id])
  {
    EveryStateIsSound(states, steps, i);
    assert Released(states[i], id);
    ReleasedRunsAreFinal(states, steps, i, j, id);
    EveryStateIsSound(states, steps, j);
  }

  /**
   Concurrency cannot be seen in the result: the table of every reachable state is the committed
   snapshots loaded one at a time, row by row, in commit order.
   */
  lemma InterleavingsAreSerial(states: seq<State>, steps: seq<Step>, i: nat)
    requires Behaviour(states, steps) && i < |states|
    ensures states[i].table == LandAll(map[], states[i].log)
    ensures states[i].table.Keys == AllKeys(states[i].log)
  {
    EveryStateIsSound(states, steps, i);
    LandAllMeaning(map[], states[i].log);
  }

  /**
   Start, insert and finish are separate transactions, so a worker that crashes after its insert
   committed leaves rows whose run stays `running` for good. Only succeeded runs account for theirs.
   */
  lemma CrashAfterCommitOrphansRows(states: seq<State>, steps: seq<Step>, i: nat, j: nat)
    requires Behaviour(states, steps) && i < j < |states| && steps[i].Crash?
    requires states[i].workers[steps[i].w].Loaded? && states[i].workers[steps[i].w].inserted > 0
    ensures var id := states[i].workers[steps[i].w].load.run;
            id in states[j].runs && states[j].runs[id].status == Running && Owned(states[j].table, id) != {}
  {
    var w := steps[i].w;
    var id := states[i].workers[w].load.run;
    EveryStateIsSound(states, steps, i);
    var after := states[i + 1];
    forall v | v in after.workers ensures after.workers[v].Run() != id {
      assert Apart(states[i].workers[v], states[i].workers[w]);
    }
    ReleasedRunsAreFinal(states, steps, i + 1, j, id);
    LandedRowsNeverChange(states, steps, i, j);
    var k :| k in Owned(states[i].table, id);
    assert k in Owned(states[j].table, id);
  }

  // --- making a run, step by step ---

  lemma OneMoreStep(states: seq<State>, steps: seq<Step>, step: Step)
    requires Behaviour(states, steps) && Enabled(states[|steps|], step)
    ensures Behaviour(states + [Next(states[|steps|], step)], steps + [step])
  {
  }

  lemma Take(states: seq<State>, steps: seq<Step>, step: Step) returns (states': seq<State>, steps': seq<Step>)
    requires Behaviour(states, steps) && Enabled(states[|steps|], step)
    ensures Behaviour(states', steps') && states'[|steps'|] == Next(states[|steps|], step)
  {
    OneMoreStep(states, steps, step);
    states', steps' := states + [Next(states[|steps|], step)], steps + [step];
  }

  /** Start and fetch. */
  lemma Fetches(s: State, w: WorkerId, run: RunId, body: seq<Json>, now: Time, states: seq<State>, steps: seq<Step>)
    returns (states': seq<State>, steps': seq<Step>)
    requires Behaviour(states, steps) && s == states[|steps|]
    requires w !in s.workers && run !in s.runs && !SomeRowRaises(body, now)
    ensures Behaviour(states', steps')
    ensures var t := states'[|steps'|];
            && t.table == s.table && t.runs == s.runs[run := StartedRun(0, now)]
            && t.workers == s.workers[w := Inserting(LoadOf(run, body, now, now, now), 0, map[], 0)]
  {
    var start, respond := Start(w, run, 0, now), Respond(w, body, now, now, now);
    states', steps' := Take(states, steps, start);
    states', steps' := Take(states', steps', respond);
  }
}
