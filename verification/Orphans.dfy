/**
 Rows that no finished run accounts for (ingestion/run.py, `ingest_once`): start, insert and finish are
 separate transactions, so a run can be left `running` for good with rows landed under its id.
 */
module Orphans {
  import opened Clock
  import opened StateVectors
  import opened Snapshots
  import opened Landing
  import opened Protocol

  /** Rows under the id of a run that is recorded as running and that no worker holds. */
  predicate Orphaned(s: State, id: RunId) {
    && id in s.runs && s.runs[id].status == Running && Released(s, id)
    && Owned(s.table, id) != {}
  }

  /** The worker crashes with rows of its run landed: after its commit, before its finish. */
  predicate CrashesAfterCommit(s: State, step: Step, id: RunId) {
    step.Crash? && step.w in s.workers && s.workers[step.w].Run() == id && Owned(s.table, id) != {}
  }

  lemma CrashOrphans(s: State, step: Step, id: RunId)
    requires Inv(s) && CrashesAfterCommit(s, step, id)
    ensures Orphaned(Next(s, step), id)
  {
    assert WorkerOk(s, s.workers[step.w]);
    forall v | v in s.workers && v != step.w ensures s.workers[v].Run() != id {
      assert Apart(s.workers[v], s.workers[step.w]);
    }
  }

  /** Once orphaned, orphaned for good. */
  lemma OrphanedStays(states: seq<State>, steps: seq<Step>, i: nat, j: nat, id: RunId)
    requires Behaviour(states, steps) && i <= j < |states| && Orphaned(states[i], id)
    ensures Orphaned(states[j], id)
  {
    ReleasedRunsAreFinal(states, steps, i, j, id);
    LandedRowsNeverChange(states, steps, i, j);
    OwnedGrows(states[i].table, states[j].table, id);
  }

  lemma OwnedGrows(before: Table, after: Table, id: RunId)
    requires Extends(before, after) && Owned(before, id) != {}
    ensures Owned(after, id) != {}
  {
    var k :| k in Owned(before, id);
    assert k in Owned(after, id);
  }

  /** Only a crash after a commit orphans rows: every other way to let go of a run records its end. */
  lemma OnlyCrashesOrphan(s: State, step: Step, id: RunId)
    requires Inv(s) && Enabled(s, step) && Orphaned(Next(s, step), id) && !Orphaned(s, id)
    ensures CrashesAfterCommit(s, step, id)
  {
    var t := Next(s, step);
    if Released(s, id) {
      ReleasedStays(s, step, id);
      if step.Commit? {
        CommitAddsOwnRows(s, step, id);
      }
    } else {
      LetGo(s, step, id);
    }
  }

  lemma CommitAddsOwnRows(s: State, step: Step, id: RunId)
    requires Inv(s) && step.Commit? && Enabled(s, step) && Released(s, id)
    ensures Owned(Next(s, step).table, id) == Owned(s.table, id)
  {
    assert WorkerOk(s, s.workers[step.w]);
    CommitOwnership(s.table, s.workers[step.w], id);
  }

  /** A worker keeps its run until it finishes, fails or crashes. */
  lemma HolderKeepsRun(s: State, step: Step, w: WorkerId)
    requires Enabled(s, step) && w in s.workers
    requires step.w == w ==> !step.Succeed? && !step.Fail? && !step.Crash?
    ensures w in Next(s, step).workers && Next(s, step).workers[w].Run() == s.workers[w].Run()
  {
  }

  lemma LetGo(s: State, step: Step, id: RunId)
    requires Inv(s) && Enabled(s, step) && !Released(s, id)
    requires Released(Next(s, step), id) && Next(s, step).runs[id].status == Running
    ensures step.Crash? && s.workers[step.w].Run() == id
  {
    if id in s.runs {
      var w :| w in s.workers && s.workers[w].Run() == id;
      if step.w == w && (step.Succeed? || step.Fail? || step.Crash?) {
      } else {
        HolderKeepsRun(s, step, w);
      }
    } else {
      NewRunIsHeld(s, step, id);
    }
  }

  lemma NewRunIsHeld(s: State, step: Step, id: RunId)
    requires Enabled(s, step) && id !in s.runs && id in Next(s, step).runs
    ensures step.w in Next(s, step).workers && Next(s, step).workers[step.w].Run() == id
  {
  }

  lemma {:induction false} OrphanedOnlyAfterCrash(states: seq<State>, steps: seq<Step>, j: nat, id: RunId)
    returns (i: nat)
    requires Behaviour(states, steps) && j < |states| && Orphaned(states[j], id)
    ensures i < j && CrashesAfterCommit(states[i], steps[i], id)
  {
    if j == 0 {
    } else if Orphaned(states[j - 1], id) {
      i := OrphanedOnlyAfterCrash(states, steps, j - 1, id);
    } else {
      i := j - 1;
      EveryStateIsSound(states, steps, i);
      OnlyCrashesOrphan(states[i], steps[i], id);
    }
  }

  lemma OrphanedAfterCrash(states: seq<State>, steps: seq<Step>, i: nat, j: nat, id: RunId)
    requires Behaviour(states, steps) && i < j < |states| && CrashesAfterCommit(states[i], steps[i], id)
    ensures Orphaned(states[j], id)
  {
    EveryStateIsSound(states, steps, i);
    CrashOrphans(states[i], steps[i], id);
    OrphanedStays(states, steps, i + 1, j, id);
  }

  /**
   In every run of the protocol, rows are orphaned at some moment if and only if a worker crashed before
   it with rows of that run landed - between its commit and the record of its outcome.
   */
  lemma OrphanedExactlyWhen(states: seq<State>, steps: seq<Step>, j: nat, id: RunId)
    requires Behaviour(states, steps) && j < |states|
    ensures Orphaned(states[j], id) <==> exists i | 0 <= i < j :: CrashesAfterCommit(states[i], steps[i], id)
  {
    forall i | 0 <= i < j && CrashesAfterCommit(states[i], steps[i], id) ensures Orphaned(states[j], id) {
      OrphanedAfterCrash(states, steps, i, j, id);
    }
    if Orphaned(states[j], id) {
      var i := OrphanedOnlyAfterCrash(states, steps, j, id);
    }
  }

  // --- it happens ---

  lemma OneAccepted(a: StateVector, now: Time)
    requires Plausible(a, now)
    ensures !SomeRowRaises([RowOf(a)], now) && Accepts([RowOf(a)], now) == [a] && FirstOccurrences([a]) == [a]
  {
    RowsRoundTrip(a, now);
    assert Outcomes([RowOf(a)], now) == [Accepted(a)];
    assert [Accepted(a)][..0] == [] && [a][..0] == [];
    assert AcceptedOf([Accepted(a)]) == [a];
  }

  /** Any storable observation can be orphaned: fetch it, insert it, commit, crash. */
  lemma AnyRowCanBeOrphaned(a: StateVector, now: Time) returns (states: seq<State>, steps: seq<Step>)
    requires Plausible(a, now) && Storable(a)
    ensures Behaviour(states, steps) && Orphaned(states[|steps|], "one")
  {
    OneAccepted(a, now);
    states, steps := Fetches(INITIAL, 0, "one", [RowOf(a)], now, [INITIAL], []);
    var s := states[|steps|];
    GoesIn(s, a, now);
    states, steps := Take(states, steps, InsertNext(0));
    RowLands(states[|steps|], a);
    states, steps := Take(states, steps, Commit(0));
    LandsAndCrashes(states, steps, a);
    states, steps := Take(states, steps, Crash(0));
  }

  lemma RowLands(s: State, a: StateVector)
    requires s.table == map[] && 0 in s.workers && Done(s.workers[0], a)
    ensures Enabled(s, Commit(0))
    ensures var t := Next(s, Commit(0));
            0 in t.workers && t.workers[0].Run() == "one" && a.DedupKey() in Owned(t.table, "one")
  {
  }

  lemma GoesIn(s: State, a: StateVector, now: Time)
    requires Plausible(a, now) && Storable(a) && s.table == map[]
    requires s.workers == map[0 := Inserting(LoadOf("one", [RowOf(a)], now, now, now), 0, map[], 0)]
    ensures Enabled(s, InsertNext(0))
    ensures var t := Next(s, InsertNext(0));
            t.table == map[] && 0 in t.workers && Done(t.workers[0], a)
  {
    OneAccepted(a, now);
    assert LoadOf("one", [RowOf(a)], now, now, now).rows == [Landed(a, "one", now, now)];
  }

  /** All rows are in the open transaction, that of `a` among them. */
  predicate Done(p: Phase, a: StateVector) {
    && p.Inserting? && p.load.run == "one" && p.next == |p.load.rows|
    && a.DedupKey() in p.pending && p.pending[a.DedupKey()].run == "one"
  }

  lemma LandsAndCrashes(states: seq<State>, steps: seq<Step>, a: StateVector)
    requires Behaviour(states, steps) && 0 in states[|steps|].workers && states[|steps|].workers[0].Run() == "one"
    requires a.DedupKey() in Owned(states[|steps|].table, "one")
    ensures Enabled(states[|steps|], Crash(0)) && Orphaned(Next(states[|steps|], Crash(0)), "one")
  {
    EveryStateIsSound(states, steps, |steps|);
    CrashOrphans(states[|steps|], Crash(0), "one");
  }
}
