/**
 The part of the aggregator's configuration that its logic reads, and how percentiles come out on the
 doubles of the machine it runs on.
 */
module Config {
  import opened TimerStatistics

  datatype AggregatorConfig = AggregatorConfig(
    name: string,
    workers: int,
    frequency: int,
    percentiles: seq<int>,
    threshold: Threshold,
    prefix: string,
    prefixCounter: string,
    prefixTimer: string,
    prefixGauge: string,
    prefixSet: string)
  {
    function BadLinesKey(): string {
      name + ".bad_lines_seen"
    }

    function BadKeysKey(): string {
      name + ".bad_keys"
    }

    ghost predicate WellFormed() {
      && workers >= 1
      && frequency >= 1
      && (forall p :: p in percentiles ==> -100 <= p <= 100)
      && NearestRank(threshold)
      && ':' !in name
    }
  }
}
