/**
 Exactly when two concurrent loads can deadlock (ingestion/loader.py, `insert_state_vectors`): of the
 aircraft that both would insert, it matters which one each of them lists first.
 */
module TwoLoads {
  import opened StateVectors
  import opened Landing
  import opened Protocol
  import opened Deadlock

  // --- the condition ---

  /** How far a load can get: up to its first row that fails the table's checks. */
  function Reach(rows: seq<Landed>): (n: nat)
    ensures n <= |rows| && StorableBetween(rows, 0, n) && (n < |rows| ==> !Storable(rows[n].vector))
  {
    ReachFrom(rows, 0)
  }

  function ReachFrom(rows: seq<Landed>, n: nat): (r: nat)
    requires n <= |rows|
    ensures n <= r <= |rows| && StorableBetween(rows, n, r) && (r < |rows| ==> !Storable(rows[r].vector))
    decreases |rows| - n
  {
    if n < |rows| && Storable(rows[n].vector) then ReachFrom(rows, n + 1) else n
  }

  /** Both loads would insert the key, and the table does not have it. */
  predicate Contested(a: seq<Landed>, b: seq<Landed>, table: Table, k: Key) {
    k !in table && k in KeysUpTo(a, Reach(a)) && k in KeysUpTo(b, Reach(b))
  }

  predicate IsFirstContested(a: seq<Landed>, b: seq<Landed>, table: Table, i: nat) {
    && i < Reach(a) && Contested(a, b, table, a[i].Key())
    && forall j | 0 <= j < i :: !Contested(a, b, table, a[j].Key())
  }

  /** The position in `a` of its first contested key, or its reach if there is none. */
  function FirstContested(a: seq<Landed>, b: seq<Landed>, table: Table): (i: nat)
    ensures i < Reach(a) ==> IsFirstContested(a, b, table, i)
    ensures i >= Reach(a) ==> forall j | 0 <= j < Reach(a) :: !Contested(a, b, table, a[j].Key())
  {
    ContestedFrom(a, b, table, 0)
  }

  function ContestedFrom(a: seq<Landed>, b: seq<Landed>, table: Table, n: nat): (i: nat)
    requires n <= Reach(a)
    ensures n <= i <= Reach(a) && (i < Reach(a) ==> Contested(a, b, table, a[i].Key()))
    ensures forall j | n <= j < i :: !Contested(a, b, table, a[j].Key())
    decreases Reach(a) - n
  {
    if n < Reach(a) && !Contested(a, b, table, a[n].Key()) then ContestedFrom(a, b, table, n + 1) else n
  }

  /** The first contested keys of the two loads differ. */
  predicate FirstKeysDiffer(a: seq<Landed>, b: seq<Landed>, table: Table) {
    var i, j := FirstContested(a, b, table), FirstContested(b, a, table);
    i < Reach(a) && j < Reach(b) && a[i].Key() != b[j].Key()
  }

  /** They differ, and neither worker has already inserted the other's. */
  predicate CanMeet(table: Table, p: Phase, q: Phase)
    requires p.Inserting? && q.Inserting?
  {
    var a, b := p.load.rows, q.load.rows;
    && FirstKeysDiffer(a, b, table)
    && b[FirstContested(b, a, table)].Key() !in p.pending
    && a[FirstContested(a, b, table)].Key() !in q.pending
  }

  predicate OnlyOpen(s: State, v: WorkerId, w: WorkerId) {
    && v != w && v in s.workers && s.workers[v].Inserting? && w in s.workers && s.workers[w].Inserting?
    && forall u | u in s.workers && s.workers[u].Inserting? :: u == v || u == w
  }

  // --- what workers have behind them ---

  /** Every row a worker has handled has passed the table's checks. */
  predicate Passed(s: State) {
    forall w | w in s.workers && s.workers[w].Inserting? :: s.workers[w].next <= Reach(s.workers[w].load.rows)
  }

  ghost predicate Good(s: State) { Inv(s) && Passed(s) }

  lemma PassedStep(s: State, step: Step)
    requires Passed(s) && Enabled(s, step)
    ensures Passed(Next(s, step))
  {
    if step.InsertNext? {
      var p := s.workers[step.w];
      assert AfterRow(s.table, p).load == p.load && AfterRow(s.table, p).next == p.next + 1;
      assert p.next < Reach(p.load.rows);
    }
  }

  lemma GoodStep(s: State, step: Step)
    requires Good(s) && Enabled(s, step)
    ensures Good(Next(s, step))
  {
    StepKeepsInv(s, step);
    PassedStep(s, step);
  }

  lemma {:induction false} EveryStateIsGood(states: seq<State>, steps: seq<Step>, i: nat)
    requires Behaviour(states, steps) && i < |states|
    ensures Good(states[i])
  {
    if i == 0 {
      EveryStateIsSound(states, steps, 0);
    } else {
      EveryStateIsGood(states, steps, i - 1);
      GoodStep(states[i - 1], steps[i - 1]);
    }
  }

  /** A row behind the worker is in the table or in its transaction. */
  lemma HandledIsHeld(s: State, v: WorkerId, i: nat)
    requires Inv(s) && v in s.workers && s.workers[v].Inserting? && i < s.workers[v].next
    ensures s.workers[v].next <= |s.workers[v].load.rows|
    ensures var k := s.workers[v].load.rows[i].Key(); k in s.table || k in s.workers[v].pending
  {
    assert WorkerOk(s, s.workers[v]);
  }

  /** A key in the transaction is new to the table, and one of the rows behind the worker. */
  lemma HeldIsHandled(s: State, v: WorkerId, k: Key) returns (i: nat)
    requires Good(s) && v in s.workers && s.workers[v].Inserting? && k in s.workers[v].pending
    ensures k !in s.table && i < s.workers[v].next <= Reach(s.workers[v].load.rows)
    ensures s.workers[v].load.rows[i].Key() == k
  {
    var p := s.workers[v];
    assert WorkerOk(s, p);
    i :| 0 <= i < p.next && p.load.rows[i].Key() == k;
  }

  /** Whatever has been committed passes the table's checks. */
  lemma {:induction false} LandedRowsAreStorable(states: seq<State>, steps: seq<Step>, i: nat)
    requires Behaviour(states, steps) && i < |states|
    ensures forall k | k in states[i].table :: Storable(states[i].table[k].vector)
  {
    if i == 0 {
    } else {
      LandedRowsAreStorable(states, steps, i - 1);
      var s, step := states[i - 1], steps[i - 1];
      if step.Commit? {
        EveryStateIsGood(states, steps, i - 1);
        PendingIsStorable(s, step.w);
      }
    }
  }

  lemma PendingIsStorable(s: State, w: WorkerId)
    requires Good(s) && w in s.workers && s.workers[w].Inserting?
    ensures forall k | k in s.workers[w].pending :: Storable(s.workers[w].pending[k].vector)
  {
    forall k | k in s.workers[w].pending ensures Storable(s.workers[w].pending[k].vector) {
      var i := HeldIsHandled(s, w, k);
      assert WorkerOk(s, s.workers[w]);
    }
  }

  // --- continuing from a state ---

  /** What may happen from `s` on while no further load is opened. */
  ghost predicate Continues(s: State, states: seq<State>, steps: seq<Step>) {
    && |states| == |steps| + 1 && states[0] == s
    && forall i {:trigger StepAt(states, steps, i)} | 0 <= i < |steps| :: StepAt(states, steps, i)
  }

  predicate StepAt(states: seq<State>, steps: seq<Step>, i: nat)
    requires i < |steps| && |states| == |steps| + 1
  {
    !steps[i].Respond? && Enabled(states[i], steps[i]) && states[i + 1] == Next(states[i], steps[i])
  }

  lemma Extend(s: State, states: seq<State>, steps: seq<Step>, step: Step)
    requires Continues(s, states, steps) && !step.Respond? && Enabled(states[|steps|], step)
    ensures Continues(s, states + [Next(states[|steps|], step)], steps + [step])
  {
    var longer, more := states + [Next(states[|steps|], step)], steps + [step];
    forall i | 0 <= i < |more| ensures StepAt(longer, more, i) {
      assert i < |steps| ==> StepAt(states, steps, i);
    }
  }

  /** Worker `v` has moved on from `s` to `t`, and nobody else. */
  predicate MovedOn(s: State, t: State, v: WorkerId, w: WorkerId)
    requires OnlyOpen(s, v, w)
  {
    && OnlyOpen(t, v, w) && t.table == s.table && t.workers[w] == s.workers[w]
    && t.workers[v].load == s.workers[v].load && s.workers[v].pending.Keys <= t.workers[v].pending.Keys
  }

  /** One row further, as long as the other does not hold its key. */
  lemma InsertStep(s: State, v: WorkerId, w: WorkerId) returns (t: State)
    requires Good(s) && OnlyOpen(s, v, w) && s.workers[v].next < Reach(s.workers[v].load.rows)
    requires s.workers[v].load.rows[s.workers[v].next].Key() !in s.workers[w].pending
    ensures Enabled(s, InsertNext(v)) && t == Next(s, InsertNext(v)) && Good(t) && MovedOn(s, t, v, w)
    ensures t.workers[v].next == s.workers[v].next + 1
    ensures var k := s.workers[v].load.rows[s.workers[v].next].Key();
            t.workers[v].pending.Keys <= s.workers[v].pending.Keys + {k}
  {
    assert !Blocked(s, v, s.workers[v].load.rows[s.workers[v].next].Key());
    t := Next(s, InsertNext(v));
    GoodStep(s, InsertNext(v));
    RowGoesIn(s.table, s.workers[v]);
  }

  lemma RowGoesIn(table: Table, p: Phase)
    requires p.Inserting? && p.next < |p.load.rows|
    ensures var q := AfterRow(table, p);
            && q.Inserting? && q.load == p.load && q.next == p.next + 1
            && p.pending.Keys <= q.pending.Keys <= p.pending.Keys + {p.load.rows[p.next].Key()}
  {
  }

  // --- if they can meet, they do ---

  predicate Meeting(s: State, v: WorkerId, w: WorkerId, i: nat, j: nat) {
    && OnlyOpen(s, v, w)
    && IsFirstContested(s.workers[v].load.rows, s.workers[w].load.rows, s.table, i)
    && IsFirstContested(s.workers[w].load.rows, s.workers[v].load.rows, s.table, j)
    && s.workers[v].load.rows[i].Key() != s.workers[w].load.rows[j].Key()
    && s.workers[w].load.rows[j].Key() !in s.workers[v].pending
    && s.workers[v].load.rows[i].Key() !in s.workers[w].pending
  }

  /** Nothing up to its first contested key makes a worker wait. */
  lemma FreeUpToFirst(s: State, v: WorkerId, w: WorkerId, i: nat, j: nat)
    requires Good(s) && Meeting(s, v, w, i, j) && s.workers[v].next <= i
    ensures s.workers[v].load.rows[s.workers[v].next].Key() !in s.workers[w].pending
    ensures s.workers[v].load.rows[s.workers[v].next].Key() != s.workers[w].load.rows[j].Key()
  {
    var a, b, n := s.workers[v].load.rows, s.workers[w].load.rows, s.workers[v].next;
    BeforeFirst(a, b, s.table, i, j, n);
    if a[n].Key() in s.workers[w].pending {
      HeldIsContested(s, v, w, n);
    }
  }

  lemma BeforeFirst(a: seq<Landed>, b: seq<Landed>, table: Table, i: nat, j: nat, n: nat)
    requires IsFirstContested(a, b, table, i) && IsFirstContested(b, a, table, j) && n <= i
    requires a[i].Key() != b[j].Key()
    ensures a[n].Key() != b[j].Key() && (n < i ==> !Contested(a, b, table, a[n].Key()))
  {
    assert Contested(a, b, table, b[j].Key());
  }

  /** What the other holds and this load lists is contested. */
  lemma HeldIsContested(s: State, v: WorkerId, w: WorkerId, n: nat)
    requires Good(s) && OnlyOpen(s, v, w) && n < Reach(s.workers[v].load.rows)
    requires s.workers[v].load.rows[n].Key() in s.workers[w].pending
    ensures Contested(s.workers[v].load.rows, s.workers[w].load.rows, s.table, s.workers[v].load.rows[n].Key())
  {
    var m := HeldIsHandled(s, w, s.workers[v].load.rows[n].Key());
  }

  /** The worker goes on until it has inserted its first contested key. */
  lemma {:induction false} ClaimFirst(s: State, states: seq<State>, steps: seq<Step>, v: WorkerId, w: WorkerId,
                                      i: nat, j: nat)
    returns (states': seq<State>, steps': seq<Step>)
    requires Continues(s, states, steps) && Good(states[|steps|]) && Meeting(states[|steps|], v, w, i, j)
    ensures Continues(s, states', steps') && Good(states'[|steps'|]) && Meeting(states'[|steps'|], v, w, i, j)
    ensures MovedOn(states[|steps|], states'[|steps'|], v, w)
    ensures states'[|steps'|].workers[v].load.rows[i].Key() in states'[|steps'|].workers[v].pending
    decreases i - states[|steps|].workers[v].next
  {
    var now := states[|steps|];
    if now.workers[v].next > i {
      HandledIsHeld(now, v, i);
      return states, steps;
    } else {
      FreeUpToFirst(now, v, w, i, j);
      var t := InsertStep(now, v, w);
      Extend(s, states, steps, InsertNext(v));
      states', steps' := ClaimFirst(s, states + [t], steps + [InsertNext(v)], v, w, i, j);
    }
  }

  /** The worker goes on until it meets a key that the other has inserted. */
  lemma {:induction false} RunInto(s: State, states: seq<State>, steps: seq<Step>, v: WorkerId, w: WorkerId, m: nat)
    returns (states': seq<State>, steps': seq<Step>)
    requires Continues(s, states, steps) && Good(states[|steps|]) && OnlyOpen(states[|steps|], v, w)
    requires var p := states[|steps|].workers[v];
             p.next <= m < Reach(p.load.rows) && p.load.rows[m].Key() in states[|steps|].workers[w].pending
    ensures Continues(s, states', steps') && Good(states'[|steps'|])
    ensures MovedOn(states[|steps|], states'[|steps'|], v, w) && WaitsFor(states'[|steps'|], v, w)
    decreases m - states[|steps|].workers[v].next
  {
    var now := states[|steps|];
    if now.workers[v].load.rows[now.workers[v].next].Key() in now.workers[w].pending {
      return states, steps;
    } else {
      var t := InsertStep(now, v, w);
      Extend(s, states, steps, InsertNext(v));
      states', steps' := RunInto(s, states + [t], steps + [InsertNext(v)], v, w, m);
    }
  }

  /** The other's first contested key is still ahead. */
  lemma OthersFirstIsAhead(s: State, v: WorkerId, w: WorkerId, i: nat, j: nat) returns (m: nat)
    requires Good(s) && Meeting(s, v, w, i, j)
    ensures s.workers[v].next <= m < Reach(s.workers[v].load.rows)
    ensures s.workers[v].load.rows[m].Key() == s.workers[w].load.rows[j].Key()
  {
    var a, k := s.workers[v].load.rows, s.workers[w].load.rows[j].Key();
    assert k in KeysUpTo(a, Reach(a));
    m :| 0 <= m < Reach(a) && a[m].Key() == k;
    if m < s.workers[v].next {
      HandledIsHeld(s, v, m);
    }
  }

  lemma Meet(s: State, v: WorkerId, w: WorkerId, i: nat, j: nat) returns (states: seq<State>, steps: seq<Step>)
    requires Good(s) && Meeting(s, v, w, i, j)
    ensures Continues(s, states, steps) && Circle(states[|steps|], {v, w})
  {
    states, steps := ClaimFirst(s, [s], [], v, w, i, j);
    states, steps := ClaimFirst(s, states, steps, w, v, j, i);
    var t := states[|steps|];
    var m := OthersFirstIsAhead(t, v, w, i, j);
    var n := OthersFirstIsAhead(t, w, v, j, i);
    states, steps := RunInto(s, states, steps, v, w, m);
    states, steps := RunInto(s, states, steps, w, v, n);
    FaceEachOther(states[|steps|], v, w);
  }

  lemma FaceEachOther(s: State, v: WorkerId, w: WorkerId)
    requires WaitsFor(s, v, w) && WaitsFor(s, w, v)
    ensures Circle(s, {v, w})
  {
    assert WaitsWithin(s, v, {v, w}) && WaitsWithin(s, w, {v, w});
  }

  // --- and if they cannot, they never do ---

  /** What is left, at a later moment, of a worker's insert. */
  predicate Kept(s: State, t: State, x: WorkerId)
    requires x in s.workers && s.workers[x].Inserting?
  {
    x in t.workers && t.workers[x].Inserting? ==>
      t.workers[x].load == s.workers[x].load && s.workers[x].pending.Keys <= t.workers[x].pending.Keys
  }

  predicate Follows(s: State, t: State, v: WorkerId, w: WorkerId)
    requires OnlyOpen(s, v, w)
  {
    && OpenInserts(t) <= {v, w} && Kept(s, t, v) && Kept(s, t, w)
    && ({v, w} <= OpenInserts(t) ==> t.table == s.table)
  }

  lemma FollowsStep(s: State, t: State, step: Step, v: WorkerId, w: WorkerId)
    requires OnlyOpen(s, v, w) && Follows(s, t, v, w) && Enabled(t, step) && !step.Respond?
    ensures Follows(s, Next(t, step), v, w)
  {
    if step.InsertNext? {
      RowGoesIn(t.table, t.workers[step.w]);
      assert step.w in OpenInserts(t);
    }
    if step.Commit? {
      assert step.w in OpenInserts(t) && step.w !in OpenInserts(Next(t, step));
    }
    assert OpenInserts(Next(t, step)) <= OpenInserts(t);
  }

  lemma FollowsItself(s: State, v: WorkerId, w: WorkerId)
    requires OnlyOpen(s, v, w)
    ensures Follows(s, s, v, w)
  {
  }

  lemma {:induction false} ContinuationIsGood(s: State, states: seq<State>, steps: seq<Step>, i: nat)
    requires Good(s) && Continues(s, states, steps) && i < |states|
    ensures Good(states[i])
  {
    if i == 0 {
    } else {
      ContinuationIsGood(s, states, steps, i - 1);
      assert StepAt(states, steps, i - 1);
      GoodStep(states[i - 1], steps[i - 1]);
    }
  }

  lemma {:induction false} ContinuationFollows(s: State, states: seq<State>, steps: seq<Step>, i: nat,
                                               v: WorkerId, w: WorkerId)
    requires OnlyOpen(s, v, w) && Continues(s, states, steps) && i < |states|
    ensures Follows(s, states[i], v, w)
  {
    if i == 0 {
      FollowsItself(s, v, w);
    } else {
      ContinuationFollows(s, states, steps, i - 1, v, w);
      assert StepAt(states, steps, i - 1);
      FollowsStep(s, states[i - 1], steps[i - 1], v, w);
    }
  }

  lemma CircleIsBoth(t: State, circle: set<WorkerId>, v: WorkerId, w: WorkerId)
    requires OpenInserts(t) <= {v, w} && Circle(t, circle)
    ensures WaitsFor(t, v, w) && WaitsFor(t, w, v)
  {
    var x :| x in circle;
    assert WaitsWithin(t, x, circle);
    var y :| y in circle && WaitsFor(t, x, y);
    assert WaitsWithin(t, y, circle);
    var z :| z in circle && WaitsFor(t, y, z);
    assert x in OpenInserts(t) && y in OpenInserts(t) && z in OpenInserts(t);
  }

  /** A worker that another waits for has inserted its own first contested key. */
  lemma HolderHasItsFirst(t: State, v: WorkerId, w: WorkerId)
    requires Good(t) && WaitsFor(t, w, v)
    ensures var a, b := t.workers[v].load.rows, t.workers[w].load.rows;
            FirstContested(a, b, t.table) < Reach(a) && a[FirstContested(a, b, t.table)].Key() in t.workers[v].pending
  {
    var p, q := t.workers[v], t.workers[w];
    var m := HeldIsHandled(t, v, NextRow(q).Key());
    assert q.next < Reach(q.load.rows);
    var i := FirstComesBy(p.load.rows, q.load.rows, t.table, m, q.next);
    HandledIsHeld(t, v, i);
  }

  /** A key that both loads would insert comes no earlier than the first such key. */
  lemma FirstComesBy(a: seq<Landed>, b: seq<Landed>, table: Table, m: nat, n: nat) returns (i: nat)
    requires m < Reach(a) && n < Reach(b) && a[m].Key() == b[n].Key() && a[m].Key() !in table
    ensures i == FirstContested(a, b, table) <= m
  {
    i := FirstContested(a, b, table);
    assert a[m].Key() in KeysUpTo(a, Reach(a)) && b[n].Key() in KeysUpTo(b, Reach(b));
    assert Contested(a, b, table, a[m].Key());
  }

  lemma WaitingMeansMeeting(s: State, t: State, v: WorkerId, w: WorkerId)
    requires OnlyOpen(s, v, w) && Good(t) && Follows(s, t, v, w) && WaitsFor(t, v, w) && WaitsFor(t, w, v)
    ensures CanMeet(s.table, s.workers[v], s.workers[w])
  {
    BothStillOpen(s, t, v, w);
    HolderHasItsFirst(t, v, w);
    HolderHasItsFirst(t, w, v);
    PendingsAreApart(t, v, w);
    StillMeets(s.table, s.workers[v], s.workers[w], t.workers[v], t.workers[w]);
  }

  lemma BothStillOpen(s: State, t: State, v: WorkerId, w: WorkerId)
    requires OnlyOpen(s, v, w) && Follows(s, t, v, w) && WaitsFor(t, v, w) && WaitsFor(t, w, v)
    ensures t.table == s.table && t.workers[v].load == s.workers[v].load && t.workers[w].load == s.workers[w].load
    ensures s.workers[v].pending.Keys <= t.workers[v].pending.Keys
    ensures s.workers[w].pending.Keys <= t.workers[w].pending.Keys
  {
    assert v in OpenInserts(t) && w in OpenInserts(t);
  }

  lemma PendingsAreApart(t: State, v: WorkerId, w: WorkerId)
    requires Good(t) && WaitsFor(t, v, w) && t.workers[v].Inserting?
    ensures t.workers[v].pending.Keys !! t.workers[w].pending.Keys
  {
    assert Apart(t.workers[v], t.workers[w]);
  }

  lemma StillMeets(table: Table, p: Phase, q: Phase, p': Phase, q': Phase)
    requires p.Inserting? && q.Inserting? && p'.Inserting? && q'.Inserting?
    requires p'.load == p.load && q'.load == q.load && p'.pending.Keys !! q'.pending.Keys
    requires p.pending.Keys <= p'.pending.Keys && q.pending.Keys <= q'.pending.Keys
    requires var a, b := p.load.rows, q.load.rows;
             var i, j := FirstContested(a, b, table), FirstContested(b, a, table);
             i < Reach(a) && a[i].Key() in p'.pending && j < Reach(b) && b[j].Key() in q'.pending
    ensures CanMeet(table, p, q)
  {
  }

  // --- the theorem ---

  /**
   While no further load is opened, two open loads can come to wait for each other if and only if their
   first contested keys differ and neither has already inserted the other's.
   */
  lemma TwoLoadsDeadlockExactlyWhen(before: seq<State>, did: seq<Step>, v: WorkerId, w: WorkerId)
    requires Behaviour(before, did) && OnlyOpen(before[|did|], v, w)
    ensures var s := before[|did|];
            CanMeet(s.table, s.workers[v], s.workers[w]) <==>
            exists states, steps :: Continues(s, states, steps) && Deadlocked(states[|steps|])
  {
    var s := before[|did|];
    EveryStateIsGood(before, did, |did|);
    if CanMeet(s.table, s.workers[v], s.workers[w]) {
      var a, b := s.workers[v].load.rows, s.workers[w].load.rows;
      var states, steps := Meet(s, v, w, FirstContested(a, b, s.table), FirstContested(b, a, s.table));
    }
    if states, steps :| Continues(s, states, steps) && Deadlocked(states[|steps|]) {
      var circle :| Circle(states[|steps|], circle);
      ContinuationIsGood(s, states, steps, |steps|);
      ContinuationFollows(s, states, steps, |steps|, v, w);
      CircleIsBoth(states[|steps|], circle, v, w);
      WaitingMeansMeeting(s, states[|steps|], v, w);
    }
  }

  /**
   For loads that have not inserted anything yet, the two snapshots and the table decide it: they can
   deadlock if and only if their first contested keys differ.
   */
  lemma FreshLoadsDeadlockExactlyWhen(before: seq<State>, did: seq<Step>, v: WorkerId, w: WorkerId)
    requires Behaviour(before, did) && OnlyOpen(before[|did|], v, w)
    requires before[|did|].workers[v].next == 0 && before[|did|].workers[w].next == 0
    ensures var s := before[|did|];
            FirstKeysDiffer(s.workers[v].load.rows, s.workers[w].load.rows, s.table) <==>
            exists states, steps :: Continues(s, states, steps) && Deadlocked(states[|steps|])
  {
    var s := before[|did|];
    TwoLoadsDeadlockExactlyWhen(before, did, v, w);
    EveryStateIsSound(before, did, |did|);
    assert WorkerOk(s, s.workers[v]) && WorkerOk(s, s.workers[w]);
  }
}
