/**
 The polling loop (ingestion/run.py, `--loop`) and the credit budget that rests on its cadence
 (ingestion/config.py). Times are seconds on the monotonic clock.
 */
module Cadence {
  import opened Sums

  /** `credit_cost_for_area`. */
  function CreditCost(area: real): (cost: nat) {
    if area <= 25.0 then 1 else if area <= 100.0 then 2 else if area <= 400.0 then 3 else 4
  }

  /** A larger area never costs less, and each band includes its upper edge. */
  lemma CostFollowsArea(a: real, b: real)
    ensures a <= b ==> 1 <= CreditCost(a) <= CreditCost(b) <= 4
    ensures (CreditCost(a) >= 2 <==> a > 25.0) && (CreditCost(a) >= 3 <==> a > 100.0)
    ensures (CreditCost(a) == 4 <==> a > 400.0)
  {
  }

  const DAY_SECONDS: nat := 86_400

  /** `poll_interval_seconds`, which the settings keep at ten or more. */
  type Interval = n: nat | n >= 10 witness 10

  /** `daily_credit_budget`. */
  function DailyBudget(interval: Interval, cost: nat): nat { DAY_SECONDS / interval * cost }

  /** One cycle: how long `ingest_once` took, and how much later than asked the sleep returned. */
  datatype Cycle = Cycle(work: real, overshoot: real)

  predicate Forward(c: Cycle) { c.work >= 0.0 && c.overshoot >= 0.0 }

  function Max(a: real, b: real): real { if a < b then b else a }

  /** When each cycle starts, and after the last one, when the next would. */
  function Starts(interval: Interval, begin: real, cycles: seq<Cycle>): (starts: seq<real>)
    ensures |starts| == |cycles| + 1
  {
    if cycles == [] then [begin]
    else
      var before, last := Starts(interval, begin, cycles[..|cycles| - 1]), cycles[|cycles| - 1];
      before + [before[|before| - 1] + Max(interval as real, last.work) + last.overshoot]
  }

  /** The loop, until the source raises: fetch, then sleep for what is left of the interval. */
  method Poll(interval: Interval, begin: real, cycles: seq<Cycle>) returns (starts: seq<real>, clock: real)
    requires forall c | c in cycles :: Forward(c)
    ensures starts + [clock] == Starts(interval, begin, cycles)
  {
    starts, clock := [], begin;
    var i := 0;
    while i < |cycles|
      invariant 0 <= i <= |cycles|
      invariant starts + [clock] == Starts(interval, begin, cycles[..i])
    {
      var cycleStarted := clock;
      starts := starts + [cycleStarted];
      clock := clock + cycles[i].work;
      var elapsed := clock - cycleStarted;
      clock := clock + Max(interval as real - elapsed, 0.0) + cycles[i].overshoot;
      i := i + 1;
      assert cycles[..i][..i - 1] == cycles[..i - 1];
    }
    assert cycles[..|cycles|] == cycles;
  }

  lemma {:induction false} StartsOfPrefix(interval: Interval, begin: real, cycles: seq<Cycle>, n: nat)
    requires n <= |cycles|
    ensures Starts(interval, begin, cycles)[..n + 1] == Starts(interval, begin, cycles[..n])
  {
    if n == |cycles| {
      assert cycles[..n] == cycles;
    } else {
      var before := cycles[..|cycles| - 1];
      StartsOfPrefix(interval, begin, before, n);
      assert before[..n] == cycles[..n];
      assert Starts(interval, begin, cycles)[..n + 1] == Starts(interval, begin, before)[..n + 1];
    }
  }

  /**
   Successive cycles start at least an interval apart however long a fetch takes, and exactly an
   interval apart when the fetch fits into it and the sleep returns on time - and only then.
   */
  lemma GapAtLeastInterval(interval: Interval, begin: real, cycles: seq<Cycle>, i: nat)
    requires i < |cycles| && Forward(cycles[i])
    ensures var starts := Starts(interval, begin, cycles);
            && starts[i + 1] - starts[i]
            == (if cycles[i].work <= interval as real then interval as real else cycles[i].work) + cycles[i].overshoot
            && starts[i + 1] - starts[i] >= interval as real
            && (starts[i + 1] - starts[i] == interval as real <==>
                cycles[i].work <= interval as real && cycles[i].overshoot == 0.0)
  {
    var starts := Starts(interval, begin, cycles);
    StartsOfPrefix(interval, begin, cycles, i);
    StartsOfPrefix(interval, begin, cycles, i + 1);
    assert cycles[..i + 1][..i] == cycles[..i];
    assert starts[i] == starts[..i + 1][i];
    assert starts[i + 1] == starts[..i + 2][i + 1];
  }

  lemma {:induction false} Spread(interval: Interval, begin: real, cycles: seq<Cycle>, i: nat, j: nat)
    requires i <= j <= |cycles| && forall c | c in cycles :: Forward(c)
    ensures Starts(interval, begin, cycles)[j] - Starts(interval, begin, cycles)[i] >= (interval * (j - i)) as real
    decreases j
  {
    if i == j {
    } else {
      Spread(interval, begin, cycles, i, j - 1);
      GapAtLeastInterval(interval, begin, cycles, j - 1);
      assert interval * (j - i) == interval * (j - 1 - i) + interval;
    }
  }

  /** The cycles that start in the half-open day from `from`. */
  function InDay(starts: seq<real>, from: real): set<nat> {
    set i: nat | i < |starts| && from <= starts[i] < from + DAY_SECONDS as real
  }

  /** How many intervals it takes to cover a day. */
  function PollsToCoverDay(interval: Interval): (n: nat)
    ensures interval * n >= DAY_SECONDS && interval * (n - 1) < DAY_SECONDS
    ensures n == DAY_SECONDS / interval + if DAY_SECONDS % interval == 0 then 0 else 1
  {
    var n := DAY_SECONDS / interval;
    assert interval * n + DAY_SECONDS % interval == DAY_SECONDS;
    if DAY_SECONDS % interval == 0 then n else n + 1
  }

  lemma {:induction false} AtMost(s: set<nat>, low: nat, size: nat)
    requires forall i | i in s :: low <= i < low + size
    ensures |s| <= size
    decreases size
  {
    if size == 0 {
      assert s == {};
    } else {
      AtMost(s - {low}, low + 1, size - 1);
      assert s <= (s - {low}) + {low};
      SubsetOfSameSize(s, (s - {low}) + {low});
    }
  }

  lemma {:induction false} Least(s: set<nat>) returns (low: nat)
    requires s != {}
    ensures low in s && forall i | i in s :: low <= i
  {
    var x := Pick(s);
    if s == {x} {
      low := x;
    } else {
      assert s == (s - {x}) + {x};
      var rest := Least(s - {x});
      low := if x < rest then x else rest;
    }
  }

  /** Any half-open day holds at most as many cycles as it takes intervals to cover it. */
  lemma CyclesPerDay(interval: Interval, begin: real, cycles: seq<Cycle>, from: real)
    requires forall c | c in cycles :: Forward(c)
    ensures |InDay(Starts(interval, begin, cycles), from)| <= PollsToCoverDay(interval)
  {
    var starts := Starts(interval, begin, cycles);
    var day, most := InDay(starts, from), PollsToCoverDay(interval);
    if day != {} {
      var low := Least(day);
      forall i | i in day ensures i < low + most {
        Spread(interval, begin, cycles, low, i);
        FitsInDay(interval, i - low, most);
      }
      AtMost(day, low, most);
    }
  }

  lemma FitsInDay(interval: Interval, apart: nat, most: nat)
    requires interval * apart < DAY_SECONDS && interval * most >= DAY_SECONDS
    ensures apart < most
  {
    if apart >= most {
      Scale(most, apart, interval);
    }
  }

  /** One cost per cycle, counted when the cycle starts. */
  function Credits(starts: seq<real>, from: real, cost: nat): nat { |InDay(starts, from)| * cost }

  /**
   In any day of cycle starts the credits stay within the budget plus one call, and within the budget itself
   when the interval divides the day.
   */
  lemma CreditsPerDay(interval: Interval, begin: real, cycles: seq<Cycle>, from: real, cost: nat)
    requires forall c | c in cycles :: Forward(c)
    ensures var starts, budget := Starts(interval, begin, cycles), 86_400 / interval * cost;
            var credits := |set i: nat | i < |starts| && from <= starts[i] < from + 86_400.0| * cost;
            && credits == Credits(starts, from, cost) && budget == DailyBudget(interval, cost)
            && credits <= budget + cost
            && (86_400 % interval == 0 ==> credits <= budget)
  {
    CyclesPerDay(interval, begin, cycles, from);
    var n, polls := |InDay(Starts(interval, begin, cycles), from)|, DAY_SECONDS / interval;
    Scale(n, PollsToCoverDay(interval), cost);
    assert (polls + 1) * cost == polls * cost + cost;
  }

  lemma Scale(a: nat, b: nat, cost: nat)
    requires a <= b
    ensures a * cost <= b * cost
  {
  }

  // --- the budget as a promise ---

  /** A loop that never falls behind. */
  function OnSchedule(n: nat): seq<Cycle> { seq(n, i => Cycle(0.0, 0.0)) }

  lemma {:induction false} OnScheduleStarts(interval: Interval, n: nat)
    ensures forall i | 0 <= i <= n :: Starts(interval, 0.0, OnSchedule(n))[i] == (interval * i) as real
  {
    if n == 0 {
    } else {
      OnScheduleStarts(interval, n - 1);
      assert OnSchedule(n)[..n - 1] == OnSchedule(n - 1);
      assert interval * n == interval * (n - 1) + interval;
    }
  }

  /** The bound on cycles is met: a loop on schedule makes that many in its first day. */
  lemma CyclesPerDayIsTight(interval: Interval)
    ensures var most := PollsToCoverDay(interval);
            |InDay(Starts(interval, 0.0, OnSchedule(most)), 0.0)| == most
  {
    var most := PollsToCoverDay(interval);
    var starts := Starts(interval, 0.0, OnSchedule(most));
    OnScheduleStarts(interval, most);
    var day := InDay(starts, 0.0);
    forall i: nat ensures i in day <==> i < most {
      if i < most {
        assert interval * i <= interval * (most - 1) by { Scale(i, most - 1, interval); }
      } else if i < |starts| {
        assert i == most;
      }
    }
    CountBelow(day, most);
  }

  lemma {:induction false} CountBelow(s: set<nat>, n: nat)
    requires forall i: nat :: i in s <==> i < n
    ensures |s| == n
  {
    if n == 0 {
      assert s == {};
    } else {
      CountBelow(s - {n - 1}, n - 1);
    }
  }

  ghost predicate BudgetHolds(interval: Interval, cost: nat) {
    forall begin: real, cycles: seq<Cycle>, from: real {:trigger Credits(Starts(interval, begin, cycles), from, cost)} |
      forall c | c in cycles :: Forward(c) ::
        Credits(Starts(interval, begin, cycles), from, cost) <= DailyBudget(interval, cost)
  }

  /**
   `daily_credit_budget` is described as what a day of polling consumes. It is an upper bound for every
   loop and every day exactly when the interval divides the day; otherwise a loop on schedule makes one
   call more.
   */
  lemma BudgetHoldsExactlyWhen(interval: Interval, cost: nat)
    requires cost >= 1
    ensures BudgetHolds(interval, cost) <==> 86_400 % interval == 0
  {
    if DAY_SECONDS % interval == 0 {
      forall begin: real, cycles: seq<Cycle>, from: real | forall c | c in cycles :: Forward(c)
        ensures Credits(Starts(interval, begin, cycles), from, cost) <= DailyBudget(interval, cost)
      {
        CreditsPerDay(interval, begin, cycles, from, cost);
      }
    } else {
      var most, polls := PollsToCoverDay(interval), DAY_SECONDS / interval;
      CyclesPerDayIsTight(interval);
      assert forall c | c in OnSchedule(most) :: Forward(c);
      assert Credits(Starts(interval, 0.0, OnSchedule(most)), 0.0, cost) == most * cost;
      assert (polls + 1) * cost == polls * cost + cost;
    }
  }

  const REGISTERED_ALLOWANCE: nat := 4_000

  /** Whether starting the loop with credentials logs that the budget exceeds the allowance. */
  predicate WarnsOfBudget(interval: Interval, area: real) {
    DailyBudget(interval, CreditCost(area)) > REGISTERED_ALLOWANCE
  }

  /** A cadence that draws no warning stays within the registered allowance, give or take one call. */
  lemma NoWarningMeansWithinAllowance(interval: Interval, area: real, begin: real, cycles: seq<Cycle>, from: real)
    requires forall c | c in cycles :: Forward(c)
    ensures WarnsOfBudget(interval, area) <==> 86_400 / interval * CreditCost(area) > 4_000
    ensures !WarnsOfBudget(interval, area) ==>
              Credits(Starts(interval, begin, cycles), from, CreditCost(area)) <= 4_000 + CreditCost(area)
  {
    CreditsPerDay(interval, begin, cycles, from, CreditCost(area));
  }
}
