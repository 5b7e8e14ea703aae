/**
 The hourly mart over whole runs: rows land in an append-only table, builds happen whenever the
 scheduler likes, with or without `--full-refresh`. What the mart then holds, and what its
 reconciliation test then says.
 */
module MartRuns {
  import opened Wrappers
  import opened Clock
  import opened Sums
  import opened StateVectors
  import opened Landing
  import opened Gridded
  import opened HourlyMart

  /** The mart table does not exist before its first build. */
  datatype State = State(raw: Table, mart: Option<Mart>)

  datatype Event = Load(rows: seq<Landed>) | Build(fullRefresh: bool)

  ghost function Rebuilt(cfg: Config, raw: Table, mart: Option<Mart>, fullRefresh: bool): Mart {
    if fullRefresh || mart.None? then Full(cfg, raw) else Incremental(cfg, raw, mart.value)
  }

  ghost function Next(cfg: Config, s: State, e: Event): State {
    match e
    case Load(rows) => State(Land(s.raw, rows), s.mart)
    case Build(fullRefresh) => State(s.raw, Some(Rebuilt(cfg, s.raw, s.mart, fullRefresh)))
  }

  ghost function After(cfg: Config, events: seq<Event>): State {
    if events == [] then State(map[], None)
    else Next(cfg, After(cfg, events[..|events| - 1]), events[|events| - 1])
  }

  /** The warehouse as its tables: dbt's delete+insert changes the mart in place. */
  class Warehouse {
    var raw: Table
    ghost var mart: Option<Mart>

    ghost function Current(): State
      reads this
    {
      State(raw, mart)
    }

    constructor (cfg: Config)
      ensures Current() == After(cfg, [])
    {
      raw := map[];
      mart := None;
    }

    method LoadRows(cfg: Config, rows: seq<Landed>)
      modifies this`raw
      ensures Current() == Next(cfg, old(Current()), Load(rows))
    {
      raw := InsertOrIgnore(raw, rows);
      StatementIsRowByRow(old(raw), rows);
    }

    /** One transaction: stage the batch, delete every row of an hour in it, insert it. */
    ghost method BuildMart(cfg: Config, fullRefresh: bool)
      modifies this`mart
      ensures Current() == Next(cfg, old(Current()), Build(fullRefresh))
    {
      if fullRefresh || mart.None? {
        mart := Some(Full(cfg, raw));
      } else {
        var staged := GroupBy(cfg.trig, Recent(Observations(cfg, raw), Cutoff(cfg, mart.value)));
        var kept := map k | k in mart.value && k.hour !in Hours(staged) :: mart.value[k];
        mart := Some(kept);
        mart := Some(mart.value + staged);
      }
    }
  }

  // --- raw only grows, and the mart never outlives its source ---

  ghost predicate Sound(cfg: Config, s: State) {
    WellKeyed(s.raw) && (s.mart.Some? ==> Backed(cfg, s.raw, s.mart.value))
  }

  lemma FullIsBacked(cfg: Config, raw: Table)
    ensures Backed(cfg, raw, Full(cfg, raw))
  {
    forall h | h in Hours(Full(cfg, raw)) ensures InHour(Observations(cfg, raw), h) != {} {
      HoursOfGroupBy(cfg.trig, Observations(cfg, raw), h);
    }
  }

  lemma IncrementalIsBacked(cfg: Config, raw: Table, mart: Mart)
    requires Backed(cfg, raw, mart)
    ensures Backed(cfg, raw, Incremental(cfg, raw, mart))
    ensures Hours(mart) <= Hours(Incremental(cfg, raw, mart)) <= Hours(Full(cfg, raw))
  {
    var after, full := Incremental(cfg, raw, mart), Full(cfg, raw);
    FullIsBacked(cfg, raw);
    forall h ensures h in Hours(mart) ==> h in Hours(full) {
      HoursOfGroupBy(cfg.trig, Observations(cfg, raw), h);
    }
    forall h ensures h in Hours(after) ==> h in Hours(full)
             ensures h in Hours(mart) ==> h in Hours(after)
    {
      IncrementalByHour(cfg, raw, mart, h);
      HoursOfSlice(after, h);
      HoursOfSlice(mart, h);
      HoursOfSlice(full, h);
    }
  }

  lemma BackedAsRawGrows(cfg: Config, raw: Table, after: Table, mart: Mart)
    requires Backed(cfg, raw, mart) && Extends(raw, after)
    ensures Backed(cfg, after, mart)
  {
    ObservationsGrow(cfg, raw, after);
    forall h | h in Hours(mart) ensures InHour(Observations(cfg, after), h) != {} {
      var o :| o in InHour(Observations(cfg, raw), h);
      assert o in InHour(Observations(cfg, after), h);
    }
  }

  lemma NextIsSound(cfg: Config, s: State, e: Event)
    requires Sound(cfg, s)
    ensures Sound(cfg, Next(cfg, s, e)) && Extends(s.raw, Next(cfg, s, e).raw)
  {
    match e
    case Load(rows) =>
      LandMeaning(s.raw, rows);
      if s.mart.Some? {
        BackedAsRawGrows(cfg, s.raw, Land(s.raw, rows), s.mart.value);
      }
    case Build(fullRefresh) =>
      FullIsBacked(cfg, s.raw);
      if s.mart.Some? {
        IncrementalIsBacked(cfg, s.raw, s.mart.value);
      }
  }

  lemma {:induction false} EveryStateIsSound(cfg: Config, events: seq<Event>)
    ensures Sound(cfg, After(cfg, events))
  {
    if events == [] {
    } else {
      EveryStateIsSound(cfg, events[..|events| - 1]);
      NextIsSound(cfg, After(cfg, events[..|events| - 1]), events[|events| - 1]);
    }
  }

  /** What was landed at any earlier moment is still there, unaltered. */
  lemma {:induction false} RawOnlyGrows(cfg: Config, events: seq<Event>, i: nat)
    requires i <= |events|
    ensures Extends(After(cfg, events[..i]).raw, After(cfg, events).raw)
  {
    if i == |events| {
      assert events[..i] == events;
    } else {
      var before := events[..|events| - 1];
      RawOnlyGrows(cfg, before, i);
      assert before[..i] == events[..i];
      EveryStateIsSound(cfg, before);
      NextIsSound(cfg, After(cfg, before), events[|events| - 1]);
    }
  }

  function Loads(events: seq<Event>): seq<seq<Landed>> {
    if events == [] then []
    else
      var last := events[|events| - 1];
      Loads(events[..|events| - 1]) + if last.Load? then [last.rows] else []
  }

  /** Builds read the landed table and never write it. */
  lemma {:induction false} RawIsWhatWasLoaded(cfg: Config, events: seq<Event>)
    ensures After(cfg, events).raw == LandAll(map[], Loads(events))
  {
    if events == [] {
    } else {
      var before, last := events[..|events| - 1], events[|events| - 1];
      RawIsWhatWasLoaded(cfg, before);
      if last.Load? {
        assert Loads(events) == Loads(before) + [last.rows];
        assert Loads(events)[..|Loads(events)| - 1] == Loads(before);
      } else {
        assert Loads(events) == Loads(before);
      }
    }
  }

  // --- every hour was built wholesale ---

  /** The hour is, row for row and column for column, what a full rebuild just before event `i` had for it. */
  ghost predicate BuiltAt(cfg: Config, events: seq<Event>, mart: Mart, h: Time, i: nat)
    requires i < |events|
  {
    events[i].Build? && Slice(mart, h) == Slice(Full(cfg, After(cfg, events[..i]).raw), h)
  }

  /** Whether the event makes the hour the full rebuild of this moment. */
  ghost predicate Rebuilds(cfg: Config, s: State, e: Event, h: Time) {
    e.Build? && (e.fullRefresh || s.mart.None? || AtOrAfter(h, Cutoff(cfg, s.mart.value)))
  }

  /** An event either rebuilds an hour, whole, or leaves it alone. */
  lemma HourAfterEvent(cfg: Config, s: State, e: Event, h: Time)
    requires Sound(cfg, s) && Next(cfg, s, e).mart.Some?
    ensures Rebuilds(cfg, s, e, h) ==> Slice(Next(cfg, s, e).mart.value, h) == Slice(Full(cfg, s.raw), h)
    ensures !Rebuilds(cfg, s, e, h) ==> s.mart.Some? && Slice(Next(cfg, s, e).mart.value, h) == Slice(s.mart.value, h)
  {
    if e.Build? && s.mart.Some? {
      IncrementalByHour(cfg, s.raw, s.mart.value, h);
    }
  }

  /** No hour of the mart is ever a mixture: each is the full rebuild of one earlier moment. */
  lemma {:induction false} EveryHourIsASnapshot(cfg: Config, events: seq<Event>, h: Time) returns (i: nat)
    requires After(cfg, events).mart.Some?
    ensures i < |events| && BuiltAt(cfg, events, After(cfg, events).mart.value, h, i)
  {
    var before, last := events[..|events| - 1], events[|events| - 1];
    var s, mart := After(cfg, before), After(cfg, events).mart.value;
    EveryStateIsSound(cfg, before);
    HourAfterEvent(cfg, s, last, h);
    if Rebuilds(cfg, s, last, h) {
      i := |before|;
    } else {
      i := EveryHourIsASnapshot(cfg, before, h);
      BuiltEarlier(cfg, events, s.mart.value, mart, h, i);
    }
  }

  lemma BuiltEarlier(cfg: Config, events: seq<Event>, mart: Mart, after: Mart, h: Time, i: nat)
    requires i < |events| - 1 && BuiltAt(cfg, events[..|events| - 1], mart, h, i)
    requires Slice(after, h) == Slice(mart, h)
    ensures BuiltAt(cfg, events, after, h, i)
  {
    assert events[..|events| - 1][..i] == events[..i];
  }

  /** The same, as the reconciliation needs it. */
  lemma HourHasSnapshot(cfg: Config, events: seq<Event>, h: Time) returns (snapshot: Table)
    requires After(cfg, events).mart.Some?
    ensures FromSnapshot(cfg, snapshot, After(cfg, events).raw, After(cfg, events).mart.value, h)
  {
    var i := EveryHourIsASnapshot(cfg, events, h);
    RawOnlyGrows(cfg, events, i);
    snapshot := After(cfg, events[..i]).raw;
  }

  /** In every run, the count-only test reports exactly the closed hours that differ from a full rebuild. */
  lemma ReconciliationOverRuns(cfg: Config, events: seq<Event>, now: Time)
    requires After(cfg, events).mart.Some?
    ensures var s := After(cfg, events);
            forall h :: h in Mismatches(cfg, s.raw, s.mart.value, now) <==>
                        h < TruncHour(now) && !Fresh(cfg, s.raw, s.mart.value, h)
  {
    var s := After(cfg, events);
    forall h | h in Hours(s.mart.value) ensures exists t :: FromSnapshot(cfg, t, s.raw, s.mart.value, h) {
      var t := HourHasSnapshot(cfg, events, h);
    }
    ReconciliationIsComplete(cfg, s.raw, s.mart.value, now);
  }

  // --- the cutoff only moves forward ---

  predicate NotEarlier(a: Option<Time>, b: Option<Time>) {
    a.Some? ==> b.Some? && a.value <= b.value
  }

  lemma LaterHoursLaterCutoff(cfg: Config, a: Mart, b: Mart)
    requires Hours(a) <= Hours(b)
    ensures NotEarlier(Cutoff(cfg, a), Cutoff(cfg, b))
  {
    if a != map[] {
      assert Cutoff(cfg, a).Some? && Latest(Hours(a)) in Hours(b);
      assert b != map[];
    }
  }

  /** No event moves the cutoff back, a full refresh included. */
  lemma CutoffNeverDecreases(cfg: Config, s: State, e: Event)
    requires Sound(cfg, s) && s.mart.Some?
    ensures Next(cfg, s, e).mart.Some?
    ensures NotEarlier(Cutoff(cfg, s.mart.value), Cutoff(cfg, Next(cfg, s, e).mart.value))
  {
    if e.Build? {
      IncrementalIsBacked(cfg, s.raw, s.mart.value);
      LaterHoursLaterCutoff(cfg, s.mart.value, Next(cfg, s, e).mart.value);
    }
  }

  predicate NoRefresh(events: seq<Event>) {
    forall i | 0 <= i < |events| :: events[i] != Build(true)
  }

  ghost predicate BelowCutoff(cfg: Config, s: State, h: Time) {
    s.mart.Some? && !AtOrAfter(h, Cutoff(cfg, s.mart.value))
  }

  lemma BelowStaysBelow(cfg: Config, s: State, e: Event, h: Time)
    requires Sound(cfg, s) && BelowCutoff(cfg, s, h)
    ensures BelowCutoff(cfg, Next(cfg, s, e), h)
    ensures e != Build(true) ==> Slice(Next(cfg, s, e).mart.value, h) == Slice(s.mart.value, h)
  {
    CutoffNeverDecreases(cfg, s, e);
    HourAfterEvent(cfg, s, e, h);
  }

  /** Below the cutoff nothing moves: until a full refresh the hour stays as it is, whatever lands or builds. */
  lemma {:induction false} BelowCutoffIsFrozen(cfg: Config, events: seq<Event>, more: seq<Event>, h: Time)
    requires BelowCutoff(cfg, After(cfg, events), h) && NoRefresh(more)
    ensures BelowCutoff(cfg, After(cfg, events + more), h)
    ensures Slice(After(cfg, events + more).mart.value, h) == Slice(After(cfg, events).mart.value, h)
  {
    if more == [] {
      assert events + more == events;
    } else {
      var before, last := more[..|more| - 1], more[|more| - 1];
      BelowCutoffIsFrozen(cfg, events, before, h);
      EveryStateIsSound(cfg, events + before);
      BelowStaysBelow(cfg, After(cfg, events + before), last, h);
      OneMoreEvent(cfg, events, more);
    }
  }

  lemma OneMoreEvent(cfg: Config, events: seq<Event>, more: seq<Event>)
    requires more != []
    ensures After(cfg, events + more) == Next(cfg, After(cfg, events + more[..|more| - 1]), more[|more| - 1])
  {
    assert (events + more)[..|events + more| - 1] == events + more[..|more| - 1];
  }

  /** An hour that has gone stale below the cutoff stays stale until a full refresh. */
  lemma StaleStaysStale(cfg: Config, events: seq<Event>, more: seq<Event>, h: Time)
    requires BelowCutoff(cfg, After(cfg, events), h) && NoRefresh(more)
    requires !Fresh(cfg, After(cfg, events).raw, After(cfg, events).mart.value, h)
    ensures var s := After(cfg, events + more);
            s.mart.Some? && !Fresh(cfg, s.raw, s.mart.value, h)
  {
    BelowCutoffIsFrozen(cfg, events, more, h);
    var snapshot := HourHasSnapshot(cfg, events, h);
    RawOnlyGrows(cfg, events + more, |events|);
    assert (events + more)[..|events|] == events;
    var raw, later := After(cfg, events).raw, After(cfg, events + more).raw;
    SameSliceSameRows(cfg, snapshot, raw, h);
    SameSliceSameRows(cfg, snapshot, later, h);
    Squeezed(cfg, snapshot, raw, later, h);
  }

  // --- late rows ---

  /** The keys under which a load adds observations that count towards the mart. */
  ghost function NewPositioned(raw: Table, rows: seq<Landed>): set<Key> {
    set k | k in FreshKeys(raw, rows) &&
            FirstRow(rows, k).vector.latitude.Some? && FirstRow(rows, k).vector.longitude.Some?
  }

  /** Every row the load adds is at or after the cutoff that the next build will use. */
  ghost predicate OnTime(cfg: Config, s: State, rows: seq<Landed>) {
    s.mart.Some? ==> forall k | k in NewPositioned(s.raw, rows) :: AtOrAfter(k.observedAt, Cutoff(cfg, s.mart.value))
  }

  /** No load since the last rebuild from scratch added a row below the cutoff of the time. */
  ghost predicate NoLateRows(cfg: Config, events: seq<Event>) {
    events == [] ||
    var before, last := events[..|events| - 1], events[|events| - 1];
    match last
    case Load(rows) => NoLateRows(cfg, before) && OnTime(cfg, After(cfg, before), rows)
    case Build(fullRefresh) => fullRefresh || After(cfg, before).mart.None? || NoLateRows(cfg, before)
  }

  /** Nothing is stale where no incremental build would look. */
  ghost predicate Clean(cfg: Config, s: State) {
    forall h | BelowCutoff(cfg, s, h) :: Fresh(cfg, s.raw, s.mart.value, h)
  }

  lemma EqualByHour(a: Mart, b: Mart)
    requires forall h :: Slice(a, h) == Slice(b, h)
    ensures a == b
  {
    forall k ensures (k in a <==> k in b) && (k in a ==> a[k] == b[k]) {
      assert k in Slice(a, k.hour) <==> k in a;
      assert k in Slice(b, k.hour) <==> k in b;
    }
  }

  /** Which hours a build leaves fresh. */
  lemma FreshAfterBuild(cfg: Config, s: State, e: Event, h: Time)
    requires Sound(cfg, s) && e.Build?
    ensures var t := Next(cfg, s, e);
            Fresh(cfg, t.raw, t.mart.value, h) <==> Rebuilds(cfg, s, e, h) || Fresh(cfg, s.raw, s.mart.value, h)
  {
    HourAfterEvent(cfg, s, e, h);
  }

  /** A build repairs everything or nothing of what is below its cutoff. */
  lemma BuildAndClean(cfg: Config, s: State, e: Event)
    requires Sound(cfg, s) && e.Build?
    ensures var t := Next(cfg, s, e);
            && (Clean(cfg, t) <==> e.fullRefresh || s.mart.None? || Clean(cfg, s))
            && (Clean(cfg, t) <==> t.mart.value == Full(cfg, s.raw))
  {
    var t := Next(cfg, s, e);
    if e.fullRefresh || s.mart.None? {
      assert t.mart.value == Full(cfg, s.raw);
    } else if Clean(cfg, s) {
      CleanBuild(cfg, s, e);
    } else {
      var h :| BelowCutoff(cfg, s, h) && !Fresh(cfg, s.raw, s.mart.value, h);
      BelowStaysBelow(cfg, s, e, h);
      assert !Fresh(cfg, t.raw, t.mart.value, h);
    }
  }

  lemma CleanBuild(cfg: Config, s: State, e: Event)
    requires Sound(cfg, s) && e.Build? && Clean(cfg, s)
    ensures Next(cfg, s, e).mart.value == Full(cfg, s.raw) && Clean(cfg, Next(cfg, s, e))
  {
    var after, full := Next(cfg, s, e).mart.value, Full(cfg, s.raw);
    forall h ensures Slice(after, h) == Slice(full, h) {
      FreshAfterBuild(cfg, s, e, h);
      assert Rebuilds(cfg, s, e, h) || BelowCutoff(cfg, s, h);
    }
    EqualByHour(after, full);
  }

  /** Where a load adds observations. */
  lemma NewObservationsByHour(cfg: Config, raw: Table, rows: seq<Landed>, h: Time)
    requires WellKeyed(raw)
    ensures InHour(Observations(cfg, raw), h) == InHour(Observations(cfg, Land(raw, rows)), h)
       <==> forall k | k in NewPositioned(raw, rows) :: TruncHour(k.observedAt) != h
  {
    var after := Land(raw, rows);
    var a, b := Observations(cfg, raw), Observations(cfg, after);
    LandMeaning(raw, rows);
    ObservationsGrow(cfg, raw, after);
    forall k | k in NewPositioned(raw, rows)
      ensures Observe(cfg, after[k]) in b - a && Observe(cfg, after[k]).Hour() == TruncHour(k.observedAt)
    {
      NewKeyNewObservation(cfg, raw, after, k);
    }
    forall o | o in b - a
      ensures exists k | k in NewPositioned(raw, rows) ::
                o == Observe(cfg, after[k]) && TruncHour(k.observedAt) == o.Hour()
    {
      var k :| k in after && Positioned(after[k].vector) && o == Observe(cfg, after[k]);
      assert k in NewPositioned(raw, rows);
    }
    SameHours(a, b, h);
  }

  lemma SameHours(a: set<Observation>, b: set<Observation>, h: Time)
    requires a <= b
    ensures InHour(a, h) == InHour(b, h) <==> forall o | o in b - a :: o.Hour() != h
  {
    forall o | o in b - a ensures o.Hour() == h <==> o in InHour(b, h) && o !in InHour(a, h) {
    }
  }

  lemma NewKeyNewObservation(cfg: Config, raw: Table, after: Table, k: Key)
    requires WellKeyed(raw) && WellKeyed(after) && k in after && k !in raw && Positioned(after[k].vector)
    ensures Observe(cfg, after[k]) in Observations(cfg, after)
    ensures Observe(cfg, after[k]) !in Observations(cfg, raw)
    ensures Observe(cfg, after[k]).Hour() == TruncHour(k.observedAt)
  {
    assert after[k].Key() == k;
  }

  /** A load keeps an hour below the cutoff fresh exactly when it was fresh and the load adds nothing to it. */
  lemma FreshAfterLoad(cfg: Config, snapshot: Table, s: State, rows: seq<Landed>, h: Time)
    requires Sound(cfg, s) && s.mart.Some? && FromSnapshot(cfg, snapshot, s.raw, s.mart.value, h)
    ensures Fresh(cfg, Land(s.raw, rows), s.mart.value, h)
       <==> Fresh(cfg, s.raw, s.mart.value, h) &&
            forall k | k in NewPositioned(s.raw, rows) :: TruncHour(k.observedAt) != h
  {
    LandMeaning(s.raw, rows);
    SameSliceSameRows(cfg, snapshot, s.raw, h);
    SameSliceSameRows(cfg, snapshot, Land(s.raw, rows), h);
    NewObservationsByHour(cfg, s.raw, rows, h);
    Squeezed(cfg, snapshot, s.raw, Land(s.raw, rows), h);
  }

  lemma SameSliceSameRows(cfg: Config, snapshot: Table, raw: Table, h: Time)
    requires Extends(snapshot, raw)
    ensures Slice(Full(cfg, snapshot), h) == Slice(Full(cfg, raw), h)
       <==> InHour(Observations(cfg, snapshot), h) == InHour(Observations(cfg, raw), h)
  {
    ObservationsGrow(cfg, snapshot, raw);
    SameCountSameSlice(cfg.trig, Observations(cfg, snapshot), Observations(cfg, raw), h);
  }

  lemma Squeezed(cfg: Config, a: Table, b: Table, c: Table, h: Time)
    requires Extends(a, b) && Extends(b, c)
    ensures var x, y := InHour(Observations(cfg, a), h), InHour(Observations(cfg, b), h);
            var z := InHour(Observations(cfg, c), h);
            x == z <==> x == y && y == z
  {
    ObservationsGrow(cfg, a, b);
    ObservationsGrow(cfg, b, c);
    Between(Observations(cfg, a), Observations(cfg, b), Observations(cfg, c), h);
  }

  lemma Between(a: set<Observation>, b: set<Observation>, c: set<Observation>, h: Time)
    requires a <= b <= c
    ensures InHour(a, h) == InHour(c, h) <==> InHour(a, h) == InHour(b, h) && InHour(b, h) == InHour(c, h)
  {
    assert InHour(a, h) <= InHour(b, h) <= InHour(c, h);
  }

  /** A row is late exactly when its hour is below the cutoff. */
  lemma OnTimeByHour(cfg: Config, s: State, k: Key)
    requires Sound(cfg, s) && s.mart.Some?
    ensures AtOrAfter(k.observedAt, Cutoff(cfg, s.mart.value)) <==> !BelowCutoff(cfg, s, TruncHour(k.observedAt))
  {
    var cutoff := Cutoff(cfg, s.mart.value);
    if cutoff.Some? {
      CutoffIsAligned(cfg, s.raw, s.mart.value);
      AlignedBoundary(cutoff.value, k.observedAt);
    }
  }

  lemma LoadAndClean(cfg: Config, events: seq<Event>, rows: seq<Landed>)
    requires After(cfg, events).mart.Some?
    ensures var s := After(cfg, events);
            Clean(cfg, Next(cfg, s, Load(rows))) <==> Clean(cfg, s) && OnTime(cfg, s, rows)
  {
    var s := After(cfg, events);
    var t := Next(cfg, s, Load(rows));
    EveryStateIsSound(cfg, events);
    forall h | BelowCutoff(cfg, s, h)
      ensures Fresh(cfg, t.raw, t.mart.value, h)
         <==> Fresh(cfg, s.raw, s.mart.value, h) &&
              forall k | k in NewPositioned(s.raw, rows) :: TruncHour(k.observedAt) != h
    {
      var snapshot := HourHasSnapshot(cfg, events, h);
      FreshAfterLoad(cfg, snapshot, s, rows, h);
    }
    forall k | k in NewPositioned(s.raw, rows)
      ensures AtOrAfter(k.observedAt, Cutoff(cfg, s.mart.value)) <==> !BelowCutoff(cfg, s, TruncHour(k.observedAt))
    {
      OnTimeByHour(cfg, s, k);
    }
    CleanAfterLoad(cfg, s, t, rows);
  }

  lemma CleanAfterLoad(cfg: Config, s: State, t: State, rows: seq<Landed>)
    requires s.mart.Some? && t.mart == s.mart
    requires forall h | BelowCutoff(cfg, s, h) ::
               (Fresh(cfg, t.raw, t.mart.value, h) <==>
                Fresh(cfg, s.raw, s.mart.value, h) &&
                forall k | k in NewPositioned(s.raw, rows) :: TruncHour(k.observedAt) != h)
    requires forall k | k in NewPositioned(s.raw, rows) ::
               (AtOrAfter(k.observedAt, Cutoff(cfg, s.mart.value)) <==> !BelowCutoff(cfg, s, TruncHour(k.observedAt)))
    ensures Clean(cfg, t) <==> Clean(cfg, s) && OnTime(cfg, s, rows)
  {
    var mart := s.mart.value;
    assert forall h :: BelowCutoff(cfg, t, h) <==> BelowCutoff(cfg, s, h);
    if Clean(cfg, t) {
      forall k | k in NewPositioned(s.raw, rows) ensures !BelowCutoff(cfg, s, TruncHour(k.observedAt)) {
        assert BelowCutoff(cfg, t, TruncHour(k.observedAt)) ==> Fresh(cfg, t.raw, mart, TruncHour(k.observedAt));
      }
    }
  }

  /** The mart is clean below its cutoff exactly when no row came late since it was last built from scratch. */
  lemma {:induction false} CleanExactlyWhenNoLateRows(cfg: Config, events: seq<Event>)
    ensures Clean(cfg, After(cfg, events)) <==> NoLateRows(cfg, events)
  {
    if events == [] {
    } else {
      var before, last := events[..|events| - 1], events[|events| - 1];
      CleanExactlyWhenNoLateRows(cfg, before);
      EveryStateIsSound(cfg, before);
      if last.Build? {
        BuildAndClean(cfg, After(cfg, before), last);
      } else if After(cfg, before).mart.Some? {
        LoadAndClean(cfg, before, last.rows);
      }
    }
  }

  /**
   After a build the mart equals a full refresh - every hour, bucket and column - exactly when no row
   landed below the cutoff since the last build from scratch.
   */
  lemma BuildIsFullExactlyWhen(cfg: Config, events: seq<Event>)
    requires events != [] && events[|events| - 1].Build?
    ensures var s := After(cfg, events);
            s.mart == Some(Full(cfg, s.raw)) <==> NoLateRows(cfg, events)
  {
    var before, last := events[..|events| - 1], events[|events| - 1];
    EveryStateIsSound(cfg, before);
    BuildAndClean(cfg, After(cfg, before), last);
    CleanExactlyWhenNoLateRows(cfg, events);
  }

  // --- late rows, hour by hour ---

  /** The hours to which a load adds a positioned row while they are below the cutoff. */
  ghost function MadeLate(cfg: Config, s: State, rows: seq<Landed>): set<Time> {
    set k | k in NewPositioned(s.raw, rows) && BelowCutoff(cfg, s, TruncHour(k.observedAt)) :: TruncHour(k.observedAt)
  }

  /** The hours made late since the last build from scratch. */
  ghost function LateHours(cfg: Config, events: seq<Event>): set<Time> {
    if events == [] then {}
    else
      var before, last := events[..|events| - 1], events[|events| - 1];
      match last
      case Load(rows) => LateHours(cfg, before) + MadeLate(cfg, After(cfg, before), rows)
      case Build(fullRefresh) =>
        if fullRefresh || After(cfg, before).mart.None? then {} else LateHours(cfg, before)
  }

  lemma FreshAfterRunLoad(cfg: Config, events: seq<Event>, rows: seq<Landed>, h: Time)
    requires BelowCutoff(cfg, After(cfg, events), h)
    ensures var s := After(cfg, events);
            Fresh(cfg, Land(s.raw, rows), s.mart.value, h) <==>
            Fresh(cfg, s.raw, s.mart.value, h) && h !in MadeLate(cfg, s, rows)
  {
    EveryStateIsSound(cfg, events);
    var snapshot := HourHasSnapshot(cfg, events, h);
    FreshAfterLoad(cfg, snapshot, After(cfg, events), rows, h);
  }

  /** Below the cutoff an hour is stale exactly when a row came late in it, and late rows are only ever there. */
  lemma {:induction false} StaleExactlyWhenLate(cfg: Config, events: seq<Event>, h: Time)
    ensures h in LateHours(cfg, events) ==> BelowCutoff(cfg, After(cfg, events), h)
    ensures var s := After(cfg, events);
            BelowCutoff(cfg, s, h) ==> (Fresh(cfg, s.raw, s.mart.value, h) <==> h !in LateHours(cfg, events))
  {
    if events == [] {
    } else {
      var before, last := events[..|events| - 1], events[|events| - 1];
      var s := After(cfg, before);
      StaleExactlyWhenLate(cfg, before, h);
      EveryStateIsSound(cfg, before);
      if last.Build? {
        FreshAfterBuild(cfg, s, last, h);
        if BelowCutoff(cfg, s, h) {
          BelowStaysBelow(cfg, s, last, h);
        }
      } else if BelowCutoff(cfg, s, h) {
        FreshAfterRunLoad(cfg, before, last.rows, h);
      }
    }
  }

  /** After a build an hour, wherever it lies, equals its full rebuild exactly when no row came late in it. */
  lemma HourIsFreshExactlyWhen(cfg: Config, events: seq<Event>, h: Time)
    requires events != [] && events[|events| - 1].Build?
    ensures var s := After(cfg, events);
            Fresh(cfg, s.raw, s.mart.value, h) <==> h !in LateHours(cfg, events)
  {
    var before, last := events[..|events| - 1], events[|events| - 1];
    StaleExactlyWhenLate(cfg, before, h);
    StaleExactlyWhenLate(cfg, events, h);
    EveryStateIsSound(cfg, before);
    FreshAfterBuild(cfg, After(cfg, before), last, h);
    if BelowCutoff(cfg, After(cfg, before), h) {
      BelowStaysBelow(cfg, After(cfg, before), last, h);
    }
  }

  /**
   After any build, wherever its cutoff lies, the test reports exactly the closed hours in which a row
   came late. Late rows in hours that are still open by the clock are what it cannot see.
   */
  lemma TestReportsExactlyLateHours(cfg: Config, events: seq<Event>, now: Time)
    requires events != [] && events[|events| - 1].Build?
    ensures var s := After(cfg, events);
            forall h :: h in Mismatches(cfg, s.raw, s.mart.value, now) <==>
                        h < TruncHour(now) && h in LateHours(cfg, events)
  {
    var s := After(cfg, events);
    ReconciliationOverRuns(cfg, events, now);
    forall h ensures Fresh(cfg, s.raw, s.mart.value, h) <==> h !in LateHours(cfg, events) {
      HourIsFreshExactlyWhen(cfg, events, h);
    }
  }

  /** After a build the mart is a full refresh exactly when no hour is late. */
  lemma FullExactlyWhenNoHourIsLate(cfg: Config, events: seq<Event>)
    requires events != [] && events[|events| - 1].Build?
    ensures var s := After(cfg, events);
            s.mart.value == Full(cfg, s.raw) <==> LateHours(cfg, events) == {}
  {
    var mart, full, late := After(cfg, events).mart.value, Full(cfg, After(cfg, events).raw), LateHours(cfg, events);
    forall h ensures Slice(mart, h) == Slice(full, h) <==> h !in late {
      HourIsFreshExactlyWhen(cfg, events, h);
    }
    EqualExactlyWhenNoneLate(mart, full, late);
  }

  lemma EqualExactlyWhenNoneLate(a: Mart, b: Mart, late: set<Time>)
    requires forall h :: Slice(a, h) == Slice(b, h) <==> h !in late
    ensures a == b <==> late == {}
  {
    if late == {} {
      EqualByHour(a, b);
    } else {
      var h := Pick(late);
      assert Slice(a, h) != Slice(b, h);
    }
  }

  /**
   Right after a build the test passes exactly when every late hour is still open by the clock. So it can
   pass over a stale mart, exactly when there are late hours and all of them are open; and it is as good
   as a comparison with a full refresh while the cutoff is not ahead of the clock.
   */
  lemma TestPassesExactlyWhen(cfg: Config, events: seq<Event>, now: Time)
    requires events != [] && events[|events| - 1].Build?
    ensures var s := After(cfg, events);
            var passes, full := Mismatches(cfg, s.raw, s.mart.value, now) == {}, s.mart.value == Full(cfg, s.raw);
            && (passes <==> forall h | h in LateHours(cfg, events) :: h >= TruncHour(now))
            && (full <==> LateHours(cfg, events) == {})
            && (full <==> NoLateRows(cfg, events))
            && ((forall h | BelowCutoff(cfg, s, h) :: h < TruncHour(now)) ==> (passes <==> full))
  {
    var s := After(cfg, events);
    TestReportsExactlyLateHours(cfg, events, now);
    FullExactlyWhenNoHourIsLate(cfg, events);
    BuildIsFullExactlyWhen(cfg, events);
    forall h | h in LateHours(cfg, events) ensures BelowCutoff(cfg, s, h) {
      StaleExactlyWhenLate(cfg, events, h);
    }
    NoneReported(Mismatches(cfg, s.raw, s.mart.value, now), LateHours(cfg, events), now);
  }

  lemma NoneReported(mismatches: set<Time>, late: set<Time>, now: Time)
    requires forall h :: h in mismatches <==> h < TruncHour(now) && h in late
    ensures mismatches == {} <==> forall h | h in late :: h >= TruncHour(now)
    ensures (forall h | h in late :: h < TruncHour(now)) ==> (mismatches == {} <==> late == {})
  {
    if mismatches != {} {
      var h := Pick(mismatches);
      assert h in late;
    } else if late != {} {
      var h := Pick(late);
      assert h !in mismatches;
    }
    forall h | h in late && h < TruncHour(now) ensures h in mismatches {
    }
  }

  /** Building again with nothing landed in between changes nothing. */
  lemma RebuildIsIdempotent(cfg: Config, s: State, e: Event)
    requires Sound(cfg, s) && e.Build?
    ensures Next(cfg, Next(cfg, s, e), Build(false)) == Next(cfg, s, e)
  {
    var t := Next(cfg, s, e);
    var u := Next(cfg, t, Build(false));
    NextIsSound(cfg, s, e);
    forall h ensures Slice(u.mart.value, h) == Slice(t.mart.value, h) {
      HourAfterEvent(cfg, t, Build(false), h);
      if BelowCutoff(cfg, s, h) {
        BelowStaysBelow(cfg, s, e, h);
      }
      HourAfterEvent(cfg, s, e, h);
    }
    EqualByHour(u.mart.value, t.mart.value);
  }

  // --- the lookback is counted from the mart's newest hour, not from the clock ---

  /**
   The next build reads everything within the lookback of the clock's own hour exactly when no hour
   of the mart is ahead of the clock.
   */
  lemma LookbackFromTheClock(cfg: Config, raw: Table, mart: Mart, now: Time)
    requires mart != map[] && Backed(cfg, raw, mart)
    ensures (forall t | t >= TruncHour(now) - cfg.lookbackHours * HOUR :: AtOrAfter(t, Cutoff(cfg, mart)))
       <==> forall h | h in Hours(mart) :: h <= now
  {
    var newest, promised := Cutoff(cfg, mart).value + cfg.lookbackHours * HOUR, TruncHour(now);
    assert newest == Latest(Hours(mart)) && newest in Hours(mart);
    assert newest % HOUR == 0 by {
      var o :| o in InHour(Observations(cfg, raw), newest);
    }
    AlignedBoundary(newest, now);
    if newest > promised {
      assert !AtOrAfter(promised - cfg.lookbackHours * HOUR, Cutoff(cfg, mart));
    }
  }

  predicate HasPlace(row: Landed) { row.vector.latitude.Some? && row.vector.longitude.Some? }

  /**
   One row with a stamp ahead of its time - the parser admits up to a day - is enough to shut out rows
   that are not late by the clock: the build after the second load is a full refresh exactly when that
   row is within the lookback of the first.
   */
  lemma StampAheadShutsRowsOut(cfg: Config, ahead: Landed, row: Landed, events: seq<Event>)
    requires HasPlace(ahead) && HasPlace(row) && ahead.Key() != row.Key()
    requires events == [Load([ahead])] + [Build(false)] + [Load([row])] + [Build(false)]
    ensures var s := After(cfg, events);
            s.mart == Some(Full(cfg, s.raw)) <==>
            row.vector.observedAt >= TruncHour(ahead.vector.observedAt) - cfg.lookbackHours * HOUR
  {
    var raw := map[ahead.Key() := ahead];
    FirstBuild(cfg, ahead);
    OneRow(raw, row);
    CutoffOfOneRow(cfg, ahead, raw, TruncHour(ahead.vector.observedAt));
    var two := [Load([ahead])] + [Build(false)];
    AppendTwo(cfg, two, After(cfg, two), row, two + [Load([row])], events);
    BuildIsFullExactlyWhen(cfg, events);
  }

  /**
   And the test need not notice: when such a row belongs to an hour that is still open by the clock, the
   test passes right after that build although the mart is not a full refresh.
   */
  lemma TestCanPassOverLateRow(cfg: Config, ahead: Landed, row: Landed, events: seq<Event>, now: Time)
    requires HasPlace(ahead) && HasPlace(row) && ahead.Key() != row.Key()
    requires events == [Load([ahead])] + [Build(false)] + [Load([row])] + [Build(false)]
    requires row.vector.observedAt < TruncHour(ahead.vector.observedAt) - cfg.lookbackHours * HOUR
    requires TruncHour(row.vector.observedAt) >= TruncHour(now)
    ensures var s := After(cfg, events);
            Mismatches(cfg, s.raw, s.mart.value, now) == {} && s.mart.value != Full(cfg, s.raw)
  {
    StampAheadShutsRowsOut(cfg, ahead, row, events);
    TestPassesExactlyWhen(cfg, events, now);
    var two := [Load([ahead])] + [Build(false)];
    FirstBuild(cfg, ahead);
    LateHoursOfBuild(cfg, [Load([ahead])], true);
    OneRow(After(cfg, two).raw, row);
    LateHoursOfLoad(cfg, two, row);
    LateHoursOfBuild(cfg, two + [Load([row])], false);
  }

  lemma LateHoursOfBuild(cfg: Config, before: seq<Event>, isFirst: bool)
    requires isFirst ==> After(cfg, before).mart.None?
    ensures LateHours(cfg, before + [Build(false)]) <= LateHours(cfg, before)
    ensures isFirst ==> LateHours(cfg, before + [Build(false)]) == {}
  {
    assert (before + [Build(false)])[..|before|] == before;
  }

  lemma LateHoursOfLoad(cfg: Config, before: seq<Event>, row: Landed)
    requires LateHours(cfg, before) == {}
    requires NewPositioned(After(cfg, before).raw, [row]) == {row.Key()}
    ensures forall h | h in LateHours(cfg, before + [Load([row])]) :: h == TruncHour(row.vector.observedAt)
  {
    assert (before + [Load([row])])[..|before|] == before;
  }

  lemma FirstBuild(cfg: Config, row: Landed)
    requires Positioned(row.vector)
    ensures var raw, events := map[row.Key() := row], [Load([row])] + [Build(false)];
            After(cfg, events) == State(raw, Some(Full(cfg, raw))) && NoLateRows(cfg, events)
  {
    OneRow(map[], row);
    Append(cfg, [], Load([row]));
    assert [] + [Load([row])] == [Load([row])];
    Append(cfg, [Load([row])], Build(false));
  }

  lemma Append(cfg: Config, before: seq<Event>, e: Event)
    ensures After(cfg, before + [e]) == Next(cfg, After(cfg, before), e)
    ensures NoLateRows(cfg, before) ==>
              (NoLateRows(cfg, before + [e]) <==> (e.Load? ==> OnTime(cfg, After(cfg, before), e.rows)))
  {
    assert (before + [e])[..|before|] == before;
  }

  lemma AppendTwo(cfg: Config, before: seq<Event>, s: State, row: Landed, middle: seq<Event>, all: seq<Event>)
    requires NoLateRows(cfg, before) && s == After(cfg, before) && s.mart.Some?
    requires middle == before + [Load([row])] && all == middle + [Build(false)]
    ensures NoLateRows(cfg, all) <==> OnTime(cfg, s, [row])
  {
    Append(cfg, before, Load([row]));
    BuildKeepsLateness(cfg, middle);
  }

  lemma BuildKeepsLateness(cfg: Config, before: seq<Event>)
    requires After(cfg, before).mart.Some?
    ensures NoLateRows(cfg, before + [Build(false)]) <==> NoLateRows(cfg, before)
  {
    assert (before + [Build(false)])[..|before|] == before;
  }

  lemma OneRow(raw: Table, row: Landed)
    requires row.Key() !in raw && Positioned(row.vector)
    ensures Land(raw, [row]) == raw[row.Key() := row]
    ensures NewPositioned(raw, [row]) == {row.Key()}
  {
    assert [row][..0] == [];
    assert Land(raw, []) == raw;
    LandMeaning(raw, [row]);
    RowKeysAppend([], row);
    assert [] + [row] == [row];
    assert RowKeys([]) == {};
    assert FirstRow([row], row.Key()) == row;
  }

  lemma CutoffOfOneRow(cfg: Config, row: Landed, raw: Table, h: Time)
    requires Positioned(row.vector) && raw == map[row.Key() := row] && h == TruncHour(row.vector.observedAt)
    ensures Cutoff(cfg, Full(cfg, raw)) == Some(h - cfg.lookbackHours * HOUR)
  {
    OneObservation(cfg, row, raw);
    CutoffOfOneObservation(cfg, Observations(cfg, raw), Observe(cfg, row), h);
  }

  lemma CutoffOfOneObservation(cfg: Config, obs: set<Observation>, o: Observation, h: Time)
    requires obs == {o} && h == o.Hour()
    ensures Cutoff(cfg, GroupBy(cfg.trig, obs)) == Some(h - cfg.lookbackHours * HOUR)
  {
    HoursOfOne(cfg, obs, o);
    CutoffOfOneHour(cfg, GroupBy(cfg.trig, obs), h);
  }

  lemma OneObservation(cfg: Config, row: Landed, raw: Table)
    requires Positioned(row.vector) && raw == map[row.Key() := row]
    ensures Observations(cfg, raw) == {Observe(cfg, row)}
  {
    assert row.Key() in raw;
  }

  lemma HoursOfOne(cfg: Config, obs: set<Observation>, o: Observation)
    requires obs == {o}
    ensures Hours(GroupBy(cfg.trig, obs)) == {o.Hour()}
  {
    forall h ensures h in Hours(GroupBy(cfg.trig, obs)) <==> h == o.Hour() {
      HoursOfGroupBy(cfg.trig, obs, h);
      assert h == o.Hour() ==> o in InHour(obs, h);
    }
  }

  lemma CutoffOfOneHour(cfg: Config, mart: Mart, h: Time)
    requires Hours(mart) == {h}
    ensures Cutoff(cfg, mart) == Some(h - cfg.lookbackHours * HOUR)
  {
    assert h in Hours(mart);
    assert mart != map[];
  }
}
