/**
 When concurrent loads wait for each other in a circle (ingestion/loader.py, `insert_state_vectors`). A
 load inserts its rows in the order of its snapshot, and nothing makes two snapshots agree on one.
 */
module Deadlock {
  import opened Clock
  import opened StateVectors
  import opened Snapshots
  import opened Landing
  import opened Protocol

  predicate HasNext(p: Phase) { p.Inserting? && p.next < |p.load.rows| }

  function NextRow(p: Phase): Landed
    requires HasNext(p)
  {
    p.load.rows[p.next]
  }

  /**
   The worker's next row passes the table's checks, which come first, and another open transaction has
   inserted its key.
   */
  predicate WaitsFor(s: State, w: WorkerId, v: WorkerId) {
    && w in s.workers && v in s.workers && v != w
    && HasNext(s.workers[w]) && Storable(NextRow(s.workers[w]).vector)
    && s.workers[v].Inserting? && NextRow(s.workers[w]).Key() in s.workers[v].pending
  }

  /** Waiting for somebody is exactly what keeps a worker with an acceptable row from inserting it. */
  lemma WaitsExactlyWhenStuck(s: State, w: WorkerId)
    requires w in s.workers && HasNext(s.workers[w])
    ensures (exists v :: WaitsFor(s, w, v)) <==> Storable(NextRow(s.workers[w]).vector) && !Enabled(s, InsertNext(w))
    ensures !Enabled(s, Commit(w))
  {
    if v :| v in s.workers && v != w && s.workers[v].Inserting? && NextRow(s.workers[w]).Key() in s.workers[v].pending {
      assert Storable(NextRow(s.workers[w]).vector) ==> WaitsFor(s, w, v);
    }
  }

  predicate WaitsWithin(s: State, w: WorkerId, group: set<WorkerId>) {
    exists v :: v in group && WaitsFor(s, w, v)
  }

  /** Workers that each wait for another of them, whatever others do. */
  predicate Circle(s: State, circle: set<WorkerId>) {
    circle != {} && forall w {:trigger WaitsWithin(s, w, circle)} | w in circle :: WaitsWithin(s, w, circle)
  }

  /** What PostgreSQL detects. */
  ghost predicate Deadlocked(s: State) { exists circle :: Circle(s, circle) }

  function OpenInserts(s: State): set<WorkerId> { set w | w in s.workers && s.workers[w].Inserting? }

  /** Every open insert transaction waits for another one. */
  predicate Standstill(s: State) { Circle(s, OpenInserts(s)) }

  /** The load lists its keys in ascending order of `rank`. */
  predicate InOrder(load: Load, rank: Key -> int) {
    forall i, j | 0 <= i < j < |load.rows| :: rank(load.rows[i].Key()) < rank(load.rows[j].Key())
  }

  predicate AllInOrder(s: State, circle: set<WorkerId>, rank: Key -> int) {
    forall w | w in circle && w in s.workers && s.workers[w].Inserting? :: InOrder(s.workers[w].load, rank)
  }

  function Rank(s: State, rank: Key -> int, w: WorkerId): int
    requires w in s.workers && HasNext(s.workers[w])
  {
    rank(NextRow(s.workers[w]).Key())
  }

  /** Whoever holds the key a worker waits for is itself further up the order. */
  lemma HolderIsFurther(s: State, rank: Key -> int, w: WorkerId, v: WorkerId)
    requires Inv(s) && WaitsFor(s, w, v) && HasNext(s.workers[v]) && InOrder(s.workers[v].load, rank)
    ensures Rank(s, rank, w) < Rank(s, rank, v)
  {
    var p, k := s.workers[v], NextRow(s.workers[w]).Key();
    assert WorkerOk(s, p);
    var i :| 0 <= i < p.next && p.load.rows[i].Key() == k;
  }

  /** Some worker's next key ranks highest. */
  lemma {:induction false} Furthest(s: State, rank: Key -> int, waiting: set<WorkerId>) returns (w: WorkerId)
    requires waiting != {} && forall v | v in waiting :: v in s.workers && HasNext(s.workers[v])
    ensures w in waiting && forall v | v in waiting :: Rank(s, rank, v) <= Rank(s, rank, w)
  {
    w :| w in waiting;
    if waiting == {w} {
    } else {
      assert waiting == (waiting - {w}) + {w};
      var v := Furthest(s, rank, waiting - {w});
      w := if Rank(s, rank, w) < Rank(s, rank, v) then v else w;
    }
  }

  /** Loads that list their keys in one order never wait in a circle, whatever the other open loads do. */
  lemma OneOrderHasNoCircle(s: State, circle: set<WorkerId>, rank: Key -> int)
    requires Inv(s) && AllInOrder(s, circle, rank)
    ensures !Circle(s, circle)
  {
    if Circle(s, circle) {
      forall w | w in circle ensures w in s.workers && HasNext(s.workers[w]) {
        assert WaitsWithin(s, w, circle);
      }
      var w := Furthest(s, rank, circle);
      assert WaitsWithin(s, w, circle);
      var v :| v in circle && WaitsFor(s, w, v);
      HolderIsFurther(s, rank, w, v);
    }
  }

  lemma OneOrderNeverDeadlocks(s: State, rank: Key -> int)
    requires Inv(s) && AllInOrder(s, s.workers.Keys, rank)
    ensures !Deadlocked(s)
  {
    forall circle ensures !Circle(s, circle) {
      OneOrderHasNoCircle(s, circle, rank);
    }
  }

  /** In particular, in every reachable state. */
  lemma ReachableStatesInOrderDoNotDeadlock(states: seq<State>, steps: seq<Step>, i: nat, rank: Key -> int)
    requires Behaviour(states, steps) && i < |states| && AllInOrder(states[i], states[i].workers.Keys, rank)
    ensures !Deadlocked(states[i])
  {
    EveryStateIsSound(states, steps, i);
    OneOrderNeverDeadlocks(states[i], rank);
  }

  // --- two snapshots in opposite orders ---

  lemma TwoRows(a: StateVector, b: StateVector, now: Time)
    requires Plausible(a, now) && Plausible(b, now) && a.DedupKey() != b.DedupKey()
    ensures var body := [RowOf(a), RowOf(b)];
            !SomeRowRaises(body, now) && Accepts(body, now) == [a, b] && FirstOccurrences([a, b]) == [a, b]
  {
    RowsRoundTrip(a, now);
    RowsRoundTrip(b, now);
    var body := [RowOf(a), RowOf(b)];
    var outcomes := Outcomes(body, now);
    assert outcomes == [Accepted(a), Accepted(b)];
    TwoAccepted(a, b, outcomes);
    TwoFirsts(a, b);
  }

  lemma TwoAccepted(a: StateVector, b: StateVector, outcomes: seq<Parsed>)
    requires outcomes == [Accepted(a), Accepted(b)]
    ensures AcceptedOf(outcomes) == [a, b] && !SomeRaised(outcomes)
  {
    assert outcomes[..1] == [Accepted(a)] && outcomes[..1][..0] == [];
    assert AcceptedOf(outcomes[..1]) == [a];
  }

  lemma TwoFirsts(a: StateVector, b: StateVector)
    requires a.DedupKey() != b.DedupKey()
    ensures FirstOccurrences([a, b]) == [a, b]
  {
    assert [a, b][..1] == [a] && [a][..0] == [];
    assert FirstOccurrences([a]) == [a];
  }

  /** A worker that has inserted the first of two rows. */
  function HalfWay(run: RunId, a: StateVector, b: StateVector, now: Time): Phase {
    var load := LoadOf(run, [RowOf(a), RowOf(b)], now, now, now);
    Inserting(load, 1, map[a.DedupKey() := Landed(a, run, now, now)], 1)
  }

  lemma WaitsForSecond(run: RunId, a: StateVector, b: StateVector, now: Time)
    requires Plausible(a, now) && Plausible(b, now) && a.DedupKey() != b.DedupKey()
    ensures var p := HalfWay(run, a, b, now);
            HasNext(p) && NextRow(p) == Landed(b, run, now, now) && p.pending.Keys == {a.DedupKey()}
  {
    TwoRows(a, b, now);
  }

  /** Start, fetch, and insert the first row, while another worker may hold other keys. */
  lemma GetsHalfWay(s: State, w: WorkerId, run: RunId, a: StateVector, b: StateVector, now: Time,
                    states: seq<State>, steps: seq<Step>)
    returns (states': seq<State>, steps': seq<Step>)
    requires Behaviour(states, steps) && s == states[|steps|]
    requires w !in s.workers && run !in s.runs
    requires Plausible(a, now) && Plausible(b, now) && Storable(a) && a.DedupKey() != b.DedupKey()
    requires a.DedupKey() !in s.table && !Blocked(s, w, a.DedupKey())
    ensures Behaviour(states', steps')
    ensures var t := states'[|steps'|];
            && t.table == s.table && t.runs == s.runs[run := StartedRun(0, now)]
            && t.workers == s.workers[w := HalfWay(run, a, b, now)]
  {
    TwoRows(a, b, now);
    states', steps' := Fetches(s, w, run, [RowOf(a), RowOf(b)], now, states, steps);
    var t := states'[|steps'|];
    FirstRowGoesIn(s, t, w, run, a, b, now);
    states', steps' := Take(states', steps', InsertNext(w));
  }

  lemma FirstRowGoesIn(s: State, t: State, w: WorkerId, run: RunId, a: StateVector, b: StateVector, now: Time)
    requires Plausible(a, now) && Plausible(b, now) && Storable(a) && a.DedupKey() != b.DedupKey()
    requires t.workers == s.workers[w := Inserting(LoadOf(run, [RowOf(a), RowOf(b)], now, now, now), 0, map[], 0)]
    requires a.DedupKey() !in t.table && !Blocked(s, w, a.DedupKey())
    ensures Enabled(t, InsertNext(w))
    ensures Next(t, InsertNext(w)) == t.(workers := s.workers[w := HalfWay(run, a, b, now)])
  {
    TwoRows(a, b, now);
    assert t.workers[w].load.rows[0] == Landed(a, run, now, now);
    assert !Blocked(t, w, a.DedupKey());
  }

  /**
   Two workers whose snapshots list the same two aircraft in opposite orders can bring each other to a
   standstill; PostgreSQL then aborts one, which is an exception like any other.
   */
  lemma OppositeOrdersCanDeadlock(a: StateVector, b: StateVector, now: Time)
    returns (states: seq<State>, steps: seq<Step>)
    requires Plausible(a, now) && Plausible(b, now) && Storable(a) && Storable(b) && a.DedupKey() != b.DedupKey()
    ensures Behaviour(states, steps) && Standstill(states[|steps|]) && Deadlocked(states[|steps|])
  {
    states, steps := GetsHalfWay(INITIAL, 0, "one", a, b, now, [INITIAL], []);
    var s := states[|steps|];
    assert !Blocked(s, 1, b.DedupKey());
    states, steps := GetsHalfWay(s, 1, "two", b, a, now, states, steps);
    var t := states[|steps|];
    assert t.workers == map[0 := HalfWay("one", a, b, now), 1 := HalfWay("two", b, a, now)];
    FaceToFace(t, a, b, now);
  }

  lemma FaceToFace(t: State, a: StateVector, b: StateVector, now: Time)
    requires Plausible(a, now) && Plausible(b, now) && Storable(a) && Storable(b) && a.DedupKey() != b.DedupKey()
    requires t.workers == map[0 := HalfWay("one", a, b, now), 1 := HalfWay("two", b, a, now)]
    ensures Standstill(t)
  {
    WaitsForSecond("one", a, b, now);
    WaitsForSecond("two", b, a, now);
    assert 0 in t.workers && 1 in t.workers;
    assert WaitsFor(t, 0, 1) && WaitsFor(t, 1, 0);
    assert WaitsWithin(t, 0, OpenInserts(t)) && WaitsWithin(t, 1, OpenInserts(t));
  }
}
