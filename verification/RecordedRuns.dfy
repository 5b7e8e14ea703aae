/**
 The credit estimates as they are recorded (ingestion/run.py, `ingest_once`; ingestion/loader.py,
 `start_run`): a run's row is stamped some time into its cycle, once the client and the connection exist.
 */
module RecordedRuns {
  import opened Cadence

  /** How long into each cycle its run was recorded: within the cycle's work, and never later than `most`. */
  predicate Delays(cycles: seq<Cycle>, delays: seq<real>, most: real) {
    && |delays| == |cycles|
    && (forall c | c in cycles :: Forward(c))
    && forall i | 0 <= i < |cycles| :: 0.0 <= delays[i] <= most && delays[i] <= cycles[i].work
  }

  /** The runs' `started_at`. */
  function Stamps(interval: Interval, begin: real, cycles: seq<Cycle>, delays: seq<real>): (stamps: seq<real>)
    requires |delays| == |cycles|
    ensures |stamps| == |cycles|
  {
    seq(|cycles|, i requires 0 <= i < |cycles| => Starts(interval, begin, cycles)[i] + delays[i])
  }

  /** What delays can take from the distance between stamps: at most one interval, however long they are. */
  function Slack(interval: Interval, most: real): real { if most < interval as real then most else interval as real }

  lemma StampsAreSpread(interval: Interval, begin: real, cycles: seq<Cycle>, delays: seq<real>, most: real,
                        i: nat, j: nat)
    requires Delays(cycles, delays, most) && i < j < |cycles|
    ensures Stamps(interval, begin, cycles, delays)[j] - Stamps(interval, begin, cycles, delays)[i]
         >= (interval * (j - i)) as real - Slack(interval, most)
  {
    Spread(interval, begin, cycles, i, j);
    Spread(interval, begin, cycles, i + 1, j);
    NextStartsAfterWork(interval, begin, cycles, i);
    assert interval * (j - i) == interval * (j - (i + 1)) + interval;
  }

  lemma NextStartsAfterWork(interval: Interval, begin: real, cycles: seq<Cycle>, i: nat)
    requires i < |cycles| && Forward(cycles[i])
    ensures Starts(interval, begin, cycles)[i + 1] - Starts(interval, begin, cycles)[i] >= cycles[i].work
  {
    var starts := Starts(interval, begin, cycles);
    StartsOfPrefix(interval, begin, cycles, i);
    StartsOfPrefix(interval, begin, cycles, i + 1);
    assert cycles[..i + 1][..i] == cycles[..i];
    assert starts[i] == starts[..i + 1][i];
    assert starts[i + 1] == starts[..i + 2][i + 1];
  }

  /** How many runs a day can hold when stamps may be `slack` closer than their starts. */
  function RunsPerDay(interval: Interval, slack: real): nat {
    var polls, rest := DAY_SECONDS / interval, DAY_SECONDS % interval;
    if rest == 0 && slack <= 0.0 then polls
    else if rest as real + slack <= interval as real then polls + 1
    else polls + 2
  }

  lemma RunsCoverDay(interval: Interval, slack: real)
    requires 0.0 <= slack <= interval as real
    ensures (interval * RunsPerDay(interval, slack)) as real >= DAY_SECONDS as real + slack
    ensures var n := RunsPerDay(interval, slack) - 1;
            n >= 0 && ((interval * n) as real < DAY_SECONDS as real + slack)
  {
    var polls, rest := DAY_SECONDS / interval, DAY_SECONDS % interval;
    assert interval * polls + rest == DAY_SECONDS;
    assert interval * (polls + 1) == interval * polls + interval;
    assert interval * (polls + 2) == interval * polls + 2 * interval;
    if polls > 0 {
      assert interval * (polls - 1) == interval * polls - interval;
    }
  }

  /** Any half-open day holds at most that many recorded runs. */
  lemma RecordedPerDay(interval: Interval, begin: real, cycles: seq<Cycle>, delays: seq<real>, most: real, from: real)
    requires Delays(cycles, delays, most) && most >= 0.0
    ensures |InDay(Stamps(interval, begin, cycles, delays), from)| <= RunsPerDay(interval, Slack(interval, most))
  {
    var stamps, n := Stamps(interval, begin, cycles, delays), RunsPerDay(interval, Slack(interval, most));
    var day := InDay(stamps, from);
    RunsCoverDay(interval, Slack(interval, most));
    if day != {} {
      var low := Least(day);
      forall i | i in day ensures i < low + n {
        if i > low {
          StampsAreSpread(interval, begin, cycles, delays, most, low, i);
          FitsCover(interval, i - low, n);
        }
      }
      AtMost(day, low, n);
    }
  }

  lemma FitsCover(interval: Interval, apart: nat, n: nat)
    requires interval * apart < interval * n
    ensures apart < n
  {
    if apart >= n {
      Scale(n, apart, interval);
    }
  }

  // --- the bound is met ---

  /** A loop that is always on schedule, but whose first run is recorded late. */
  function LateFirst(n: nat, delay: real): seq<Cycle>
    requires n > 0
  {
    [Cycle(delay, 0.0)] + seq(n - 1, i => Cycle(0.0, 0.0))
  }

  function OnlyFirst(n: nat, delay: real): seq<real>
    requires n > 0
  {
    [delay] + seq(n - 1, i => 0.0)
  }

  lemma {:induction false} LateFirstStarts(interval: Interval, n: nat, delay: real)
    requires n > 0 && 0.0 <= delay <= interval as real
    ensures forall i | 0 <= i <= n :: Starts(interval, 0.0, LateFirst(n, delay))[i] == (interval * i) as real
  {
    var cycles := LateFirst(n, delay);
    if n == 1 {
      assert cycles[..0] == [];
      assert Starts(interval, 0.0, []) == [0.0];
    } else {
      LateFirstStarts(interval, n - 1, delay);
      assert cycles[..n - 1] == LateFirst(n - 1, delay);
      assert interval * n == interval * (n - 1) + interval;
    }
  }

  lemma LateFirstFillsDay(interval: Interval, slack: real, n: nat)
    requires 0.0 <= slack <= interval as real && n > 0 && (interval * (n - 1)) as real < DAY_SECONDS as real + slack
    ensures |InDay(Stamps(interval, 0.0, LateFirst(n, slack), OnlyFirst(n, slack)), slack)| == n
  {
    var stamps := Stamps(interval, 0.0, LateFirst(n, slack), OnlyFirst(n, slack));
    LateFirstStarts(interval, n, slack);
    forall i: nat | i < n ensures slack <= stamps[i] < slack + DAY_SECONDS as real {
      if i > 0 {
        Scale(i, n - 1, interval);
        Scale(1, i, interval);
        assert interval * i <= interval * (n - 1);
      }
    }
    CountBelow(InDay(stamps, slack), n);
  }

  // --- the budget, as recorded ---

  function RecordedCredits(interval: Interval, begin: real, cycles: seq<Cycle>, delays: seq<real>,
                           from: real, cost: nat): nat
    requires |delays| == |cycles|
  {
    Credits(Stamps(interval, begin, cycles, delays), from, cost)
  }

  /** No loop whose runs are recorded within `most` of their cycle's start records more than `limit` in any day. */
  ghost predicate RecordsAtMost(interval: Interval, most: real, cost: nat, limit: nat) {
    forall begin: real, cycles: seq<Cycle>, delays: seq<real>, from: real | Delays(cycles, delays, most) ::
      RecordedCredits(interval, begin, cycles, delays, from, cost) <= limit
  }

  /** The largest number of credits that can be recorded in a day. */
  lemma RecordsAtMostExactlyWhen(interval: Interval, most: real, cost: nat, limit: nat)
    requires most >= 0.0
    ensures RecordsAtMost(interval, most, cost, limit) <==> RunsPerDay(interval, Slack(interval, most)) * cost <= limit
  {
    var slack := Slack(interval, most);
    var n := RunsPerDay(interval, slack);
    RunsCoverDay(interval, slack);
    if n * cost <= limit {
      forall begin: real, cycles: seq<Cycle>, delays: seq<real>, from: real | Delays(cycles, delays, most)
        ensures RecordedCredits(interval, begin, cycles, delays, from, cost) <= limit
      {
        RecordedPerDay(interval, begin, cycles, delays, most, from);
        Scale(|InDay(Stamps(interval, begin, cycles, delays), from)|, n, cost);
      }
    }
    if RecordsAtMost(interval, most, cost, limit) && n > 0 {
      LateFirstFillsDay(interval, slack, n);
      var cycles, delays := LateFirst(n, slack), OnlyFirst(n, slack);
      assert Delays(cycles, delays, most);
      assert RecordedCredits(interval, 0.0, cycles, delays, slack, cost) == n * cost;
    }
  }

  /**
   As recorded, `daily_credit_budget` bounds every day exactly when the interval divides the day and runs
   are recorded without delay; and the budget plus one call does exactly when the interval divides the day
   or the delay is no longer than what the interval has left over.
   */
  lemma RecordedBudgetHoldsExactlyWhen(interval: Interval, most: real, cost: nat)
    requires most >= 0.0 && cost >= 1
    ensures RecordsAtMost(interval, most, cost, DailyBudget(interval, cost))
       <==> DAY_SECONDS % interval == 0 && most == 0.0
    ensures RecordsAtMost(interval, most, cost, DailyBudget(interval, cost) + cost)
       <==> DAY_SECONDS % interval == 0 || (DAY_SECONDS % interval) as real + most <= interval as real
    ensures RecordsAtMost(interval, most, cost, DailyBudget(interval, cost) + 2 * cost)
  {
    var polls, n := DAY_SECONDS / interval, RunsPerDay(interval, Slack(interval, most));
    RecordsAtMostExactlyWhen(interval, most, cost, DailyBudget(interval, cost));
    RecordsAtMostExactlyWhen(interval, most, cost, DailyBudget(interval, cost) + cost);
    RecordsAtMostExactlyWhen(interval, most, cost, DailyBudget(interval, cost) + 2 * cost);
    assert (polls + 1) * cost == polls * cost + cost;
    assert (polls + 2) * cost == polls * cost + 2 * cost;
  }
}
