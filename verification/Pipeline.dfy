/** From concurrent ingestion to the hourly mart. */
module Pipeline {
  import opened Sums
  import opened Landing
  import opened Gridded
  import opened HourlyMart
  import Protocol
  import MartRuns

  /** The warehouse is fed by the landing zone: its loads are the loads that workers committed. */
  ghost predicate Fed(s: Protocol.State, events: seq<MartRuns.Event>) { MartRuns.Loads(events) == s.log }

  lemma BuildsReadTheLandingZone(states: seq<Protocol.State>, steps: seq<Protocol.Step>, i: nat,
                                 cfg: Config, events: seq<MartRuns.Event>)
    requires Protocol.Behaviour(states, steps) && i < |states| && Fed(states[i], events)
    ensures MartRuns.After(cfg, events).raw == states[i].table && WellKeyed(states[i].table)
  {
    MartRuns.RawIsWhatWasLoaded(cfg, events);
    Protocol.InterleavingsAreSerial(states, steps, i);
    Protocol.EveryStateIsSound(states, steps, i);
  }

  /**
   Whatever the workers' interleaving, crashes included, and whenever the builds ran: after a build
   with no late row behind it, the mart counts every positioned landed row exactly once.
   */
  lemma EveryLandedRowIsCounted(states: seq<Protocol.State>, steps: seq<Protocol.Step>, i: nat,
                                cfg: Config, events: seq<MartRuns.Event>)
    requires Protocol.Behaviour(states, steps) && i < |states| && Fed(states[i], events)
    requires events != [] && events[|events| - 1].Build? && MartRuns.NoLateRows(cfg, events)
    ensures MartRuns.After(cfg, events).mart.Some?
    ensures var table, counts := states[i].table, Counts(MartRuns.After(cfg, events).mart.value);
            Sum(counts) ==
            |set k | k in table && table[k].vector.latitude.Some? && table[k].vector.longitude.Some?| as real
  {
    BuildsReadTheLandingZone(states, steps, i, cfg, events);
    MartRuns.BuildIsFullExactlyWhen(cfg, events);
    EveryRowCountedOnce(cfg, states[i].table);
  }
}
