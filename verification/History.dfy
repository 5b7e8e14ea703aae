/**
 What a run's record says about the past (ingestion/run.py, `ingest_once`), in every interleaving of
 workers: whose snapshot it was, what became of each of its rows, and when.
 */
module History {
  import opened Wrappers
  import opened Clock
  import opened StateVectors
  import opened Snapshots
  import opened Landing
  import opened Protocol

  /** The load is that of the response: every row of the body counted, the first of each key to be inserted. */
  ghost predicate FromBody(load: Load, step: Step) {
    && step.Respond?
    && load.snapshotTime == step.snapshotTime
    && load.received == |step.body|
    && load.rejected == |UnacceptableRows(step.body, step.now)|
    && load.repeats == |AcceptableRows(step.body, step.now)| - |load.rows|
    && load.rows == RowsFor(FirstOccurrences(Accepts(step.body, step.now)), load.run, step.snapshotTime, step.at)
  }

  lemma LoadIsFromBody(run: RunId, body: seq<Json>, snapshotTime: Time, now: Time, at: Time, step: Step)
    requires step.Respond? && step.body == body && step.snapshotTime == snapshotTime && step.now == now && step.at == at
    ensures FromBody(LoadOf(run, body, snapshotTime, now, at), step)
  {
    CountByRow(body, now);
  }

  predicate HasLoad(p: Phase) { p.Inserting? || p.Loaded? }

  /** What a worker inserts came in a response. */
  lemma {:induction false} LoadCameInResponse(states: seq<State>, steps: seq<Step>, j: nat, w: WorkerId)
    returns (i: nat)
    requires Behaviour(states, steps) && j < |states| && w in states[j].workers && HasLoad(states[j].workers[w])
    ensures i < j && FromBody(states[j].workers[w].load, steps[i])
  {
    if j == 0 {
    } else {
      i := j - 1;
      var s, step := states[i], steps[i];
      if step.Respond? && step.w == w {
        LoadIsFromBody(s.workers[w].run, step.body, step.snapshotTime, step.now, step.at, step);
      } else {
        SameLoad(s, step, w);
        i := LoadCameInResponse(states, steps, i, w);
      }
    }
  }

  lemma SameLoad(s: State, step: Step, w: WorkerId)
    requires Enabled(s, step) && w in Next(s, step).workers && HasLoad(Next(s, step).workers[w])
    requires !(step.Respond? && step.w == w)
    ensures w in s.workers && HasLoad(s.workers[w]) && s.workers[w].load == Next(s, step).workers[w].load
    ensures s.workers[w].Inserting? && Next(s, step).workers[w].Loaded? ==> step.Commit? && step.w == w
  {
  }

  /** What a worker has committed is in the log. */
  lemma {:induction false} CommittedIsLogged(states: seq<State>, steps: seq<Step>, j: nat, w: WorkerId)
    returns (m: nat)
    requires Behaviour(states, steps) && j < |states| && w in states[j].workers && states[j].workers[w].Loaded?
    ensures m < |states[j].log| && states[j].log[m] == states[j].workers[w].load.rows
  {
    if j == 0 {
    } else {
      var s, step := states[j - 1], steps[j - 1];
      SameLoad(s, step, w);
      if s.workers[w].Loaded? {
        m := CommittedIsLogged(states, steps, j - 1, w);
      } else {
        m := |s.log|;
      }
    }
  }

  lemma {:induction false} LogGrows(states: seq<State>, steps: seq<Step>, i: nat, j: nat)
    requires Behaviour(states, steps) && i <= j < |states|
    ensures states[i].log <= states[j].log
    decreases j - i
  {
    if i == j {
    } else {
      LogGrows(states, steps, i, j - 1);
      LogStep(states[j - 1], steps[j - 1]);
    }
  }

  lemma LogStep(s: State, step: Step)
    requires Enabled(s, step)
    ensures s.log <= Next(s, step).log
  {
  }

  /** A run's cost and beginning are those of the step that started it. */
  lemma {:induction false} RunWasStarted(states: seq<State>, steps: seq<Step>, j: nat, id: RunId)
    returns (i: nat)
    requires Behaviour(states, steps) && j < |states| && id in states[j].runs
    ensures i < j && steps[i].Start? && steps[i].run == id
    ensures states[j].runs[id].creditsEstimated == steps[i].credits && states[j].runs[id].startedAt == steps[i].now
  {
    if j == 0 {
    } else {
      i := j - 1;
      StartStays(states[i], steps[i], id);
      if id in states[i].runs {
        i := RunWasStarted(states, steps, i, id);
      }
    }
  }

  lemma StartStays(s: State, step: Step, id: RunId)
    requires Enabled(s, step) && id in Next(s, step).runs
    ensures var run := Next(s, step).runs[id];
            if id in s.runs then
              run.creditsEstimated == s.runs[id].creditsEstimated && run.startedAt == s.runs[id].startedAt
            else step.Start? && step.run == id && run.creditsEstimated == step.credits && run.startedAt == step.now
  {
  }

  /** Which parts of a record are filled in, by its status. */
  predicate FilledByStatus(run: RunRecord) {
    match run.status
    case Running => NoOutcome(run)
    case Failed => run.finishedAt.Some? && NoResponse(run)
    case Succeeded => run.finishedAt.Some? && run.errorMessage.None?
  }

  lemma {:induction false} RecordsAreFilledByStatus(states: seq<State>, steps: seq<Step>, j: nat, id: RunId)
    requires Behaviour(states, steps) && j < |states| && id in states[j].runs
    ensures FilledByStatus(states[j].runs[id])
  {
    if j == 0 {
    } else {
      if id in states[j - 1].runs {
        RecordsAreFilledByStatus(states, steps, j - 1, id);
      }
      FilledStep(states[j - 1], steps[j - 1], id);
    }
  }

  lemma FilledStep(s: State, step: Step, id: RunId)
    requires Enabled(s, step) && id in Next(s, step).runs && (id in s.runs ==> FilledByStatus(s.runs[id]))
    ensures FilledByStatus(Next(s, step).runs[id])
  {
  }

  /** What a failed run says: when it failed, and as much of the handler's message as fits. */
  predicate FailureIs(run: RunRecord, fail: Step)
    requires fail.Fail?
  {
    && run.status == Failed && run.finishedAt == Some(fail.now) && NoResponse(run)
    && run.errorMessage == if fail.message == "" then None
                           else Some(if |fail.message| <= 2_000 then fail.message else fail.message[..2_000])
  }

  lemma FailRecords(s: State, step: Step)
    requires Enabled(s, step) && step.Fail?
    ensures FailureIs(Next(s, step).runs[s.workers[step.w].run], step)
  {
  }

  /** A run that has failed was failed by a step of its worker, and says what that step said. */
  lemma {:induction false} FailedRunTells(states: seq<State>, steps: seq<Step>, j: nat, id: RunId) returns (i: nat)
    requires Behaviour(states, steps) && j < |states|
    requires id in states[j].runs && states[j].runs[id].status == Failed
    ensures i < j && steps[i].Fail? && FailureIs(states[j].runs[id], steps[i])
  {
    if j == 0 {
    } else {
      i := j - 1;
      var s, step := states[i], steps[i];
      if id in s.runs && s.runs[id].status == Failed {
        EveryStateIsSound(states, steps, i);
        FailedStays(s, step, id);
        i := FailedRunTells(states, steps, i, id);
      } else {
        OnlyFailFails(s, step, id);
        FailRecords(s, step);
      }
    }
  }

  /** Nobody writes it again: workers hold runs that are running. */
  lemma FailedStays(s: State, step: Step, id: RunId)
    requires Inv(s) && Enabled(s, step) && id in s.runs && s.runs[id].status == Failed
    ensures id in Next(s, step).runs && Next(s, step).runs[id] == s.runs[id]
  {
    if step.Succeed? || step.Fail? {
      assert WorkerOk(s, s.workers[step.w]);
    }
  }

  lemma OnlyFailFails(s: State, step: Step, id: RunId)
    requires Enabled(s, step) && id in Next(s, step).runs && Next(s, step).runs[id].status == Failed
    requires id in s.runs ==> s.runs[id].status != Failed
    ensures step.Fail? && s.workers[step.w].run == id
  {
  }

  /** The record of a succeeded run is about the response `respond` and the step `succeed`. */
  ghost predicate RecordIs(run: RunRecord, respond: Step, succeed: Step)
    requires respond.Respond? && succeed.Succeed?
  {
    && run.status == Succeeded
    && run.finishedAt == Some(succeed.now) && run.httpStatus == Some(succeed.httpStatus)
    && run.snapshotTime == Some(respond.snapshotTime)
    && run.rowsReceived == Some(|respond.body|)
    && run.rowsRejected == Some(|UnacceptableRows(respond.body, respond.now)|)
    && run.rowsInserted.Some?
    && run.rowsDuplicate == Some(|AcceptableRows(respond.body, respond.now)| - run.rowsInserted.value)
  }

  lemma SucceedRecords(s: State, step: Step, respond: Step)
    requires Enabled(s, step) && step.Succeed? && FromBody(s.workers[step.w].load, respond)
    ensures RecordIs(Next(s, step).runs[s.workers[step.w].load.run], respond, step)
  {
  }

  lemma OnlySucceedSucceeds(s: State, step: Step, id: RunId)
    requires Enabled(s, step) && id in Next(s, step).runs && Next(s, step).runs[id].status == Succeeded
    requires id in s.runs ==> s.runs[id].status != Succeeded
    ensures step.Succeed? && s.workers[step.w].load.run == id
  {
  }

  /**
   Behind every succeeded run there is one response and one finish, and its record is about these: the
   snapshot's time and size, how many of its rows are unacceptable, and how many acceptable ones were not
   inserted. The rows it committed are the first of each key in that response, under its own id.
   */
  lemma {:induction false} SucceededRunTells(states: seq<State>, steps: seq<Step>, j: nat, id: RunId)
    returns (i: nat, c: nat, m: nat)
    requires Behaviour(states, steps) && j < |states|
    requires id in states[j].runs && states[j].runs[id].status == Succeeded
    ensures i < j && steps[i].Respond? && c < j && steps[c].Succeed?
    ensures RecordIs(states[j].runs[id], steps[i], steps[c])
    ensures states[j].runs[id].rowsInserted == Some(|Owned(states[j].table, id)|)
    ensures var accepted := FirstOccurrences(Accepts(steps[i].body, steps[i].now));
            m < |states[j].log| && states[j].log[m] == RowsFor(accepted, id, steps[i].snapshotTime, steps[i].at)
  {
    SucceededRunsStayTrue(states, steps, j, j, id);
    if j == 0 {
    } else {
      var s, step := states[j - 1], steps[j - 1];
      if id in s.runs && s.runs[id].status == Succeeded {
        i, c, m := SucceededRunTells(states, steps, j - 1, id);
        SucceededRunsStayTrue(states, steps, j - 1, j, id);
        LogStep(s, step);
      } else {
        OnlySucceedSucceeds(s, step, id);
        c := j - 1;
        i := LoadCameInResponse(states, steps, c, step.w);
        m := CommittedIsLogged(states, steps, c, step.w);
        SucceedRecords(s, step, steps[i]);
      }
    }
  }

  // --- nothing stands in the way of a worker that is alone ---

  predicate NobodyInserts(s: State) { forall w | w in s.workers :: !s.workers[w].Inserting? }

  /** Rows that the table accepts go in one after the other. */
  lemma {:induction false} InsertsAlone(states: seq<State>, steps: seq<Step>, w: WorkerId)
    returns (states': seq<State>, steps': seq<Step>)
    requires Behaviour(states, steps)
    requires var s := states[|steps|];
             && w in s.workers && s.workers[w].Inserting? && s.workers[w].next <= |s.workers[w].load.rows|
             && (forall v | v in s.workers && v != w :: !s.workers[v].Inserting?)
             && StorableBetween(s.workers[w].load.rows, 0, |s.workers[w].load.rows|)
    ensures Behaviour(states', steps')
    ensures var s, t := states[|steps|], states'[|steps'|];
            && t.runs == s.runs && w in t.workers && t.workers == s.workers[w := t.workers[w]]
            && t.workers[w].Inserting? && t.workers[w].load == s.workers[w].load
            && t.workers[w].next == |t.workers[w].load.rows|
    decreases |states[|steps|].workers[w].load.rows| - states[|steps|].workers[w].next
  {
    var s := states[|steps|];
    var p := s.workers[w];
    if p.next == |p.load.rows| {
      return states, steps;
    } else {
      assert !Blocked(s, w, p.load.rows[p.next].Key());
      states', steps' := Take(states, steps, InsertNext(w));
      states', steps' := InsertsAlone(states', steps', w);
    }
  }

  /** Any loadable response can be ingested: a worker that no other insert keeps waiting gets to the end. */
  lemma AnyResponseCanSucceed(states: seq<State>, steps: seq<Step>, w: WorkerId, run: RunId, body: seq<Json>, now: Time)
    returns (states': seq<State>, steps': seq<Step>)
    requires Behaviour(states, steps) && NobodyInserts(states[|steps|])
    requires w !in states[|steps|].workers && run !in states[|steps|].runs
    requires !SomeRowRaises(body, now)
    requires forall v | v in FirstOccurrences(Accepts(body, now)) :: Storable(v)
    ensures Behaviour(states', steps')
    ensures run in states'[|steps'|].runs && states'[|steps'|].runs[run].status == Succeeded
  {
    var s := states[|steps|];
    states', steps' := Fetches(s, w, run, body, now, states, steps);
    states', steps' := InsertsAlone(states', steps', w);
    states', steps' := CommitsAndFinishes(states', steps', w);
  }

  /** Any worker can fail at any point, and then leaves the table as it is and its run failed. */
  lemma AnyWorkerCanFail(states: seq<State>, steps: seq<Step>, w: WorkerId, message: string, now: Time)
    returns (states': seq<State>, steps': seq<Step>)
    requires Behaviour(states, steps) && w in states[|steps|].workers
    ensures Behaviour(states', steps')
    ensures var s, t, run := states[|steps|], states'[|steps'|], states[|steps|].workers[w].Run();
            && t.table == s.table && t.log == s.log && w !in t.workers
            && run in t.runs && FailureIs(t.runs[run], Fail(w, message, now))
  {
    var s := states[|steps|];
    EveryStateIsSound(states, steps, |steps|);
    assert WorkerOk(s, s.workers[w]);
    states', steps' := states, steps;
    if !s.workers[w].Failing? {
      states', steps' := Take(states', steps', Raise(w));
    }
    FailRecords(states'[|steps'|], Fail(w, message, now));
    states', steps' := Take(states', steps', Fail(w, message, now));
  }

  /** Any worker can crash at any point: what it had committed stays, and nothing of an open transaction does. */
  lemma AnyWorkerCanCrash(states: seq<State>, steps: seq<Step>, w: WorkerId)
    returns (states': seq<State>, steps': seq<Step>)
    requires Behaviour(states, steps) && w in states[|steps|].workers
    ensures Behaviour(states', steps')
    ensures var s, t := states[|steps|], states'[|steps'|];
            && t.table == s.table && t.log == s.log && t.runs == s.runs && t.workers.Keys == s.workers.Keys - {w}
            && forall v | v in t.workers :: t.workers[v] == s.workers[v]
  {
    states', steps' := Take(states, steps, Crash(w));
  }

  lemma CommitsAndFinishes(states: seq<State>, steps: seq<Step>, w: WorkerId)
    returns (states': seq<State>, steps': seq<Step>)
    requires Behaviour(states, steps)
    requires var s := states[|steps|];
             && w in s.workers && s.workers[w].Inserting? && s.workers[w].next == |s.workers[w].load.rows|
             && s.workers[w].load.run in s.runs
    ensures Behaviour(states', steps')
    ensures var run := states[|steps|].workers[w].load.run;
            run in states'[|steps'|].runs && states'[|steps'|].runs[run].status == Succeeded
  {
    states', steps' := Take(states, steps, Commit(w));
    states', steps' := Take(states', steps', Succeed(w, 200, 0));
  }
}
