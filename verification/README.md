# Statsdcc: a verified model of the aggregator, the proxy and the hash ring

Statsdcc receives metric lines over UDP, spreads them over worker threads by metric name, adds them up
in ledgers, and flushes each ledger to backends at a fixed interval. A proxy can sit in front of several
aggregators. This project models that path and proves what it keeps:

- **The hash ring** (`HashWord`, `Hashring`, `RingOwnership`, `RingDisruption`, `RingLabels`, `RingSize`,
  `RingRounding`): building the weighted ring, the binary search with its inclusive upper end and wrap to 0, who owns a
  key, which keys move when a shard joins or leaves, and how many points there are. The share of a node is
  a parameter of the ring; `RingRounding` gives the one the code computes, rounded double by double
  (`Doubles`).
- **The ledger** (`Text`, `Decimal`, `Numerals`, `MetricLine`, `LineGrammar`, `Amounts`, `TimerStatistics`,
  `Percentiles`, `PercentileRounding`, `Ledger`, `LineEffects`, `LedgerMeaning`, `LedgerOrder`, `GaugeOrder`):
  which texts are numbers and lines and what they mean, what one line does to a ledger, the processing of
  timers, and what a ledger holds after any stream of lines.
- **The worker pipeline** (`WorkerMachine`, `WorkerInvariants`, `WorkerTheorems`, `WorkerFigures`, `WorkerRuns`,
  `FirstFlush`, `Pipeline`, `PipelineInvariants`, `PipelineTheorems`, `Overtaking`, `Draining`, `Sharding`,
  `Routing`, `NamelessLines`, `LedgerMerge`, `Conservation`, `GaugeFlushes`): a transition system whose steps are those of the consumers,
  the worker threads, their flushers and the clock, interleaved freely, for any number of workers. `Worker`
  and `Consumer` hold the objects themselves; their methods are tied to the steps of the machine.
- **The Carbon backend** (`NameNormaliser`, `Gathering`, `Carbon`, `CarbonContents`, `CarbonPipeline`): names, lines,
  per-destination buffers over the ring, and what stands in them.
- **The proxy** (`ProxyMachine`, `ProxyTheorems`, `ProxyFleet`, `FleetFlushes`, `ProxyWorker`): several threads
  on one queue, and the composition of proxy and aggregators.

## What does not hold

Some promises fail on some inputs. Each failure is a lemma with concrete values or a run, and beside it
stands the condition under which the promise holds, as an if-and-only-if.

- Adding a shard can move keys between old shards when shards use the default virtual nodes. Nodes of
  weight 1 and 3 go from 20 and 60 virtual nodes to 24 and 72 when a third joins
  (`RingDisruption.DefaultVnodesDisrupt`). Six equal nodes have 40 virtual nodes each and 39 each once a
  seventh joins, because a seventh of 280 comes out below 40 in doubles (`RingRounding.SixToSevenDisrupts`).
  Keys can move if and only if an old shard's count changes while another old shard has points to take or
  lose them (`RingDisruption.DisruptionIffHandOver`); for names of any length, if and only if no two shards
  share a label and two shards can switch one (`RingLabels.DisruptionIffSwitch`); for equal nodes, if and only if the share changes
  (`RingDisruption.EqualWeightsDisruptIffShareChanges`).
- Lookups depend on the order of equal points if and only if two shards share one
  (`RingOwnership.DeterminedIffCollisionFree`). Two names that agree in their first 1023 characters share all
  of them, under any digest (`RingOwnership.LongNamesLeaveOwnerOpen`).
- A percentile is reported if and only if it covers a sample or there is just one
  (`Percentiles.ReportedIffCovering`). With one it reports 0 samples and a mean of 0/0
  (`Percentiles.SingleSample`). Exact halves are rounded either way (`PercentileRounding.HalfGoesDown`,
  `PercentileRounding.HalfGoesUp`); the nearest whole number decides the rank if and only if p * n is not 50
  more than a multiple of 100 (`PercentileRounding.RankDecidedIffNoHalf`).
- Once a worker's newer flusher has been started it can get to the backends before the older one if and
  only if that one still waits for the lock (`Overtaking.OvertakenIffWaiting`), and there are runs in which
  it does (`Overtaking.NewerFlushCanOvertake`).
- A worker's first flush is empty if and only if an interrupt came before it first tested its flag
  (`FirstFlush.FirstFlushEmptyIff`), and there are such runs (`FirstFlush.FirstFlushCanBeEmpty`).
- Name normalisation distributes over concatenation if and only if white space does not meet at the seam
  (`NameNormaliser.DistributesOverConcatenation`).
- Gauges come out right across a flush if and only if no gauge is changed by signed lines alone after it
  stood at other than 0: for two ledgers `GaugeFlushes.GaugesMergeIff`, for all of one worker
  `GaugeFlushes.WorkerGaugesIff`, for the whole aggregator `GaugeFlushes.SystemGaugesIff`, and behind a proxy
  `FleetFlushes.FlushedFleetGaugesIff`. There is a run that takes in "load:5|g" and "load:-1|g" and whose
  ledgers together say -1, not 4 (`GaugeFlushes.GaugesCanBeLost`).
- Gauges come out right behind a proxy, in every run, if and only if it has a single thread or no two lines
  it can forward clash, that is, write one gauge with different values, or write it and change it
  (`ProxyTheorems.GaugesKeptIff`). With two threads and two plain writes a gauge can end at its older value
  (`ProxyTheorems.GaugeCanGoBack`).

Where the code and its comments differ the model follows the code: the sample rate is read after `|@`
(src/ledger.cc:42), not after `c@` as the comment in include/statsdcc/ledger.h:33 has it; and nodes have at
most, not always, 160 points (include/statsdcc/hashring/hashring.h:75).

## Assumptions

- MD4 and `std::hash` are arbitrary functions. The clock, the text of printed numbers and the blacklist's
  regular expressions are parameters.
- The share of a node and the number of samples a percentile covers are arbitrary functions too, with the
  bounds each theorem asks for; those the code computes in doubles are shown to have them. Doubles there
  have 53-bit mantissas and unlimited exponents. What C++ leaves undefined, the share of a total weight of
  0, may be any number.
- Values, sums and quotients in the ledger are exact reals, or not finite once a rate of 0 has come in.
  Casting what is not finite to an integer gives `INT_MIN`, as on x86.
- `stable_sort` with a comparison that is `<=` yields the elements sorted by point, nothing more.
- The order in which an `unordered_map` is walked is arbitrary.
- Configurations have at least one worker, a flush interval of at least one second, a name without a colon
  and percentiles between -100 and 100. Beyond 100 the code reads past the end of the samples.
- Counters that the code leaves to the default constructor of an atomic start at 0.

## Model

| member | source | states |
|---|---|---|
| HashWord.HashValueOfBytes | include/statsdcc/hashring/hashring.h:184-190 | shifting and or-ing four bytes gives the number whose base-256 digits they are |
| HashWord.HashInjective | include/statsdcc/hashring/hashring.h:184-190 | two quadruples of bytes have one hash if and only if they are equal |
| HashWord.HashSurjective | include/statsdcc/hashring/hashring.h:184-190 | every 32-bit word is the hash of its own four bytes |
| HashRing.StableSort | lib/hashring/hashring.cc:67 | the result is sorted by point and holds the same elements as often |
| HashRing.LabelText | lib/hashring/hashring.cc:49-50 | a label is the name up to a NUL, a dash and the number, whole if it is shorter than 1023 characters and cut there if not |
| HashRing.DigestWordBytes | lib/hashring/hashring.cc:56-61 | word j of a digest is bytes 4j to 4j+3, lowest first |
| HashRing.Hashring.PushPoints | lib/hashring/hashring.cc:47-64 | the nested loops append four elements for each virtual node: element 4i + j is the shard's, with bytes 4j to 4j+3 of the digest of label i as its point, lowest first |
| HashRing.Hashring.GenerateContinuum | lib/hashring/hashring.cc:16-68 | for every order of walking the nodes and whatever the shares come to, the ring ends sorted and holds each point of each shard exactly as often as its virtual nodes or its share call for |
| HashRing.Hashring.Find | lib/hashring/hashring.cc:70-102 | on any sorted ring, with duplicates and any hash including 0, the search ends, stays in range and returns the first index whose point is at least the hash, or 0 |
| HashRing.Hashring.Get | include/statsdcc/hashring/hashring.h:123-131 | the owner of the key, whose hash is the first four bytes of its digest, lowest first, is a configured shard, so the subscript creates none, and its node is returned |
| HashRing.Hashring.Create | include/statsdcc/hashring/hashring.h:72-81 | an empty node list is refused with the original's message, any other gives a valid ring |
| RingOwnership.SuccessorIsNearest | lib/hashring/hashring.cc:70-102 | no point of a sorted ring is nearer clockwise than the one the search finds, wrap-around included |
| RingOwnership.OwnerIsNearest | include/statsdcc/hashring/hashring.h:115-131 | the owner of a hash is a configured node with the nearest point, said without the ring's order |
| RingOwnership.OwnerIsDetermined | lib/hashring/hashring.cc:30-67 | without shared points, rings built in any node order and with any order of ties give one owner |
| RingOwnership.CollisionLeavesOwnerOpen | include/statsdcc/hashring/hashring.h:63-65 | if two shards share a point, some other valid ring gives that point a different owner |
| RingOwnership.DeterminedIffCollisionFree | lib/hashring/hashring.cc:30-67 | owners are independent of ties and node order if and only if no two shards share a point |
| RingOwnership.LongNamesCollide | lib/hashring/hashring.cc:49-50 | shards with points whose names agree in the 1023 characters a label can hold share points under every digest |
| RingOwnership.LongNamesLeaveOwnerOpen | lib/hashring/hashring.cc:49-67 | two such names for which every ring has another one that gives some hash a different owner |
| RingOwnership.SelfLookup | lib/hashring/hashring.cc:47-63 | without shared points the key spelling label i of a shard, cut to the buffer or not, is owned by that shard |
| RingDisruption.NoHandOverNoDisruption | lib/hashring/hashring.cc:36-67 | if no old shard's point count can hand keys to another old shard, no hash changes hands between old shards |
| RingDisruption.MinimalDisruption | lib/hashring/hashring.cc:36-102 | when a shard joins, each hash stays or goes to it, and read backwards a leaving shard moves only its own hashes |
| RingDisruption.ExplicitVnodesCannotDisrupt | lib/hashring/hashring.cc:41-45 | shards with their own virtual nodes, other than 40, meet the condition, whatever the shares |
| RingDisruption.EqualWeightsCannotDisrupt | lib/hashring/hashring.cc:36-45 | so do shards of equal weight as long as their share is the same before and after |
| RingDisruption.EqualWeightsDisruptIffShareChanges | lib/hashring/hashring.cc:36-45 | and where two or more of them have default virtual nodes throughout, exactly then |
| RingDisruption.HandOverHappens | lib/hashring/hashring.cc:36-67 | wherever the condition fails there is a digest without shared points under which hash 0 changes hands between old shards |
| RingDisruption.DisruptionIffHandOver | lib/hashring/hashring.cc:36-67 | for any shares, joining can move keys between old shards, for some digest without shared points, if and only if an old shard's point count changes while another old shard has points to take or lose them |
| RingLabels.DisruptionIffSwitch | lib/hashring/hashring.cc:36-67 | for any two configurations, shares and names, keys can move between shards in both, for some digest without shared points, if and only if in neither two shards share a label and some label of one shard before and of another after are the same, or one of them is gone or new |
| RingDisruption.DefaultVnodesDisrupt | lib/hashring/hashring.cc:36-67 | for weights 1 and 3 with default virtual nodes, joined by weight 1, and all shares at most one below the exact ones, some digest without shared points moves keys between the first two |
| RingSize.ShardLength | lib/hashring/hashring.cc:36-64 | a shard has four points for each of its own virtual nodes, if it has a number of them other than 40, and else for each one its share of the weight comes to |
| RingSize.RingLength | lib/hashring/hashring.cc:30-65 | a ring has four points for each virtual node of each shard |
| RingSize.DefaultShares | lib/hashring/hashring.cc:22-45 | n nodes of positive weight on default virtual nodes get between 39n+1 and 40n of them in all for exact shares, and at least 38n+1 for shares at most one lower |
| RingSize.DefaultRingLength | lib/hashring/hashring.cc:22-64 | so their ring has between 4(39n+1) and 160n points, or at least 4(38n+1) |
| RingSize.RingNotEmpty | lib/hashring/hashring.cc:22-64 | any mix of non-negative virtual nodes and positive weights, with shares at most one below the exact ones, gives a ring with points, so lookups stay in bounds |
| RingRounding.DoubleShareNear | lib/hashring/hashring.cc:36-38 | the floor of the three rounded operations is the exact share, or one less where the exact quotient is a whole number |
| RingRounding.DoubleSharesWithin | lib/hashring/hashring.cc:36-38 | so the code's shares meet the bounds the other theorems ask for |
| RingRounding.NegativeShare | lib/hashring/hashring.cc:36-38 | a negative weight gives the negative double, rounded down |
| RingRounding.CodeRingSize | lib/hashring/hashring.cc:22-64 | so the ring the code builds is never empty, and has between 4(38n+1) and 160n points for n nodes on default virtual nodes |
| RingRounding.SixthAndSeventh | lib/hashring/hashring.cc:36-38 | a node of six equal ones gets 40 virtual nodes, one of seven gets 39 |
| RingRounding.SixToSevenDisrupts | lib/hashring/hashring.cc:36-67 | so a seventh equal node can move keys between the first six, for some digest without shared points |
| Decimal.ParseShown | src/ledger.cc:60 | a printed decimal, of any sign and number of places, parses to the number printed |
| Numerals.DigitsAppend | src/ledger.cc:60 | digits in front of n others count 10^n times as much |
| Numerals.DigitAlone | src/ledger.cc:60 | a digit counts its place in the row from 0 to 9 |
| Numerals.PowTenMeans | src/ledger.cc:60 | the powers of ten are 10 for one and products for sums |
| Numerals.ParsesIffNumeral | src/ledger.cc:60 | a text is parsed to a number if and only if it is a sign, digits with an optional point, and an optional power of ten, and the number is the one these denote |
| Numerals.ScansIffNumeral | src/ledger.cc:38-43 | a number is read off the front of a text if and only if such a numeral stands there and does not go on |
| Numerals.SignedNumber | src/ledger.cc:106 | a plus in front of a number changes nothing, a minus negates it |
| MetricLine.ScannedTokens | src/ledger.cc:38-43 | a scan that reaches the type has read whole, bounded, non-empty tokens without their separators, from the start of the line |
| MetricLine.AcceptedShape | src/ledger.cc:38-107 | an accepted line's name is non-empty and is the routing prefix, the sign test looks at the first character of the parsed value, and a numeric value is the one its text stands for |
| MetricLine.PrintedLineRoundTrip | src/ledger.cc:38-93 | scanning a printed record recovers exactly the record, with or without a rate |
| LineGrammar.DividedMeans | src/ledger.cc:38-93 | a line of a name, a value, a type and a rest, each within its buffer, means what its type says: `ms`, `g`, `s` or else a count, blanks before the type aside, with the number its value is, or is bad without one |
| LineGrammar.UndividedIsBad | src/ledger.cc:38-56 | a line that does not fall apart so is bad |
| LineGrammar.RateRead | src/ledger.cc:38-43 | a numeral after the bar and the at sign, with white space allowed before it, is the rate |
| LineGrammar.RateWritten | src/ledger.cc:30-43 | any rate other than 1 was written so |
| TimerStatistics.AscendingUnique | src/ledger.cc:148-149 | a collection of samples has one ascending order only |
| TimerStatistics.ThresholdInRange | src/ledger.cc:175 | a nearest whole number never exceeds the samples, is at most half off, and is all of them at 100 |
| PercentileRounding.DoubleThresholdNearest | src/ledger.cc:175 | the number of samples the code computes in doubles is a nearest whole number, whichever way ties go |
| PercentileRounding.HalfGoesDown | src/ledger.cc:175 | 29 percent of 50 samples, an exact half, is rounded down |
| PercentileRounding.HalfGoesUp | src/ledger.cc:175 | half of 3 samples is rounded up |
| PercentileRounding.RankDecidedIffNoHalf | src/ledger.cc:175 | every nearest whole number is the one rounded half up, whatever the rounding does with ties, if and only if p * n leaves other than 50 on division by 100 |
| TimerStatistics.PercentileNameMeans | src/ledger.cc:189-193 | the name of a percentile is the numeral of the percentage without sign and leading zeros |
| TimerStatistics.AddPercentile | src/ledger.cc:169-198 | one turn of the percentile loop adds the entries of that percentile, or none when it covers no sample |
| TimerStatistics.Summarise | src/ledger.cc:147-205 | the loops over one timer compute the figures the lemmas below describe |
| Percentiles.KthSmallest | src/ledger.cc:179 | entry k of the sorted samples has fewer than k samples below it and at least k not above it |
| Percentiles.LeastSum | src/ledger.cc:182-185 | the sum of the first k sorted samples is the least sum of any k of them, and is one |
| Percentiles.PercentileFigures | src/ledger.cc:166-205 | for two or more samples and any nearest k > 0: count, k-th smallest value, least sum and its mean are reported, with lower <= mean_p <= upper_p <= upper and mean_p <= mean |
| Percentiles.ReportedIffCovering | src/ledger.cc:174-198 | a configured percentile has its entries if and only if it covers a sample or there is just one |
| Percentiles.WholeSetFigures | src/ledger.cc:151-161 | upper, lower, count and mean are the largest and smallest sample, the weighted count, and the sum over the number of samples |
| Percentiles.MeanMonotone | src/ledger.cc:186 | the mean of the first k sorted samples grows with k |
| Percentiles.PercentilesMonotone | src/ledger.cc:169-198 | of two percentiles reported the larger reports no smaller count, bound or mean, and 100 reports the figures of the whole set |
| Percentiles.SingleSample | src/ledger.cc:172-198 | with one sample each percentile reports no samples, sum 0 and the mean 0/0 |
| LedgerModel.Ledger.Buffer | src/ledger.cc:22-122 | the new contents are the old ones with the line counted, filed under its kind, or counted bad |
| LedgerModel.Ledger.Process | src/ledger.cc:125-213 | rates for every counter and figures for every timer are put into the ledger; everything else stays |
| LedgerModel.Ledger.Copy | include/statsdcc/ledger.h:53-62 | a copy has everything but the frequencies |
| LedgerModel.Ledger.Assign | include/statsdcc/ledger.h:75-85 | an assigned ledger has everything but keeps its own frequencies |
| LedgerModel.Ledger.CountBadLines | include/statsdcc/ledger.h:113-118 | the bad-lines counter truncated, or 0 if there is none |
| LedgerModel.TruncatedMeans | include/statsdcc/ledger.h:113-118 | the cast drops the fraction, towards zero |
| LineEffects.GaugeLine | src/ledger.cc:103-113 | a gauge line sets its gauge to the number its value denotes, or adds that number if it is written with a sign, counts itself, and does nothing else |
| LineEffects.TimerLine | src/ledger.cc:98-101 | a timer line appends its number to the samples and adds 1/rate to their count, and nothing else |
| LineEffects.CounterLine | src/ledger.cc:118-120 | a counter line, or one of unknown type, adds its number over the rate, and nothing else |
| LineEffects.SetLine | src/ledger.cc:114-116 | a set line puts the text of its value into its set, and does nothing else |
| LineEffects.AcceptedIffFine | src/ledger.cc:54-93 | a line is accepted if and only if it falls apart, has a type, and has a numeral for its value unless it is a set's |
| LineEffects.BadLine | src/ledger.cc:89-93 | any other line adds 1 to the counter NAME.bad_lines_seen and to metrics_processed, and does nothing else |
| LineEffects.PrintedGauge | src/ledger.cc:103-113 | a printed decimal sets a gauge, with a plus in front it is added, with a minus taken off |
| Amounts.SigmaMeans | src/ledger.cc:99-119 | a sum is the ordinary sum if all its terms are numbers, and not finite if and only if one term is not, as after a rate of 0 |
| LedgerMeaning.CountersMean | src/ledger.cc:89-120 | after any stream counter k exists if and only if a line counted towards it, and is the sum of value/rate over its lines, rates of 0 included, bad lines counting 1 for their own key |
| LedgerMeaning.TimersMean | src/ledger.cc:98-101 | timer k is the accepted values of its lines in order, and its counter the sum of 1/rate |
| LedgerMeaning.SetsMean | src/ledger.cc:114-116 | set k is the set of value texts of its lines |
| LedgerMeaning.GaugesMean | src/ledger.cc:103-113 | a gauge is its last unsigned value plus the signed changes since, whatever came before that |
| LedgerMeaning.GaugesMeanFromZero | src/ledger.cc:103-113 | a gauge never written outright is the sum of its signed changes |
| LedgerMeaning.FrequenciesMean | src/ledger.cc:95 | frequency k is the number of accepted lines named k |
| LedgerMeaning.LinesAccountedFor | src/ledger.cc:33-95 | metrics_processed is the number of lines, and is the sum of the frequencies plus the bad lines |
| LedgerMeaning.BadLinesCounted | src/ledger.cc:89-93 | the bad-lines figure is the number of bad lines when no accepted counter line uses its name |
| LedgerOrder.BufferedBook | src/ledger.cc:98-101 | any stream leaves timers and their counters with one set of names, no timer empty, none nameless |
| LedgerOrder.SnapshotComplete | src/ledger.cc:124-213 | a processed copy has rate * interval = counter for each counter and the figures of each timer's samples; its nameless branch is never taken |
| LedgerOrder.NamelessTimer | src/ledger.cc:144-145 | a nameless timer would get two zeros |
| LedgerOrder.OrderIndependence | src/ledger.cc:97-209 | streams that are permutations of each other give, processed, the same counters, rates, timer data, sets and frequencies |
| GaugeOrder.GaugesOrderFree | src/ledger.cc:103-113 | lines of which no two clash over a gauge, a write against another value or against a change, give the same gauges in every order |
| GaugeOrder.ClashShows | src/ledger.cc:103-113 | two lines that clash give different gauges in the two orders |
| Sharding.SplitInTwo | src/ledger.cc:95-121 | two ledgers fed a stream split by name together are the ledger of the stream in arrival order |
| Sharding.ShardsMerge | lib/consumers/aggregator_consumer.cc:27-53 | so are any number of ledgers, gauges and timer orders included |
| Sharding.ShardsDisjoint | lib/consumers/aggregator_consumer.cc:27-53 | and no name is in two of them, but for the bad-lines counter |
| Routing.NamedLine | lib/consumers/aggregator_consumer.cc:27-53 | a line goes to the worker the text before its first colon hashes to, and is queued as it is up to a NUL |
| Routing.NamelessLine | lib/consumers/aggregator_consumer.cc:21-53 | one without a colon is replaced by a line that counts 1 for NAME.bad_keys and goes to the worker that name hashes to |
| Routing.EnqueuedRoutedByName | lib/consumers/aggregator_consumer.cc:27-53 | whatever a ledger accepts was sent to the worker its own name hashes to, the substituted bad-keys line included |
| Routing.BadKeysMetricAccepted | lib/consumers/aggregator_consumer.cc:21-22 | the line substituted for one without a name counts 1 for the bad-keys counter |
| WorkerInvariants.StepKeepsInv | src/workers/aggregator/worker.cc:45-82 | every step of every thread keeps the invariant of a worker: ledgers match their lines, queue order, join window, interrupts, published figures |
| WorkerInvariants.ExecKeepsInv | src/workers/aggregator/worker.cc:45-82 | so does every sequence of steps |
| WorkerInvariants.ProcessAlwaysPossible | src/workers/aggregator/worker.cc:56-58 | the processing step is never blocked when the flag test has passed |
| WorkerTheorems.LinesConserved | include/statsdcc/workers/aggregator/worker.h:61-68 | lines submitted = dropped + queued + in hand + metrics_processed of the current and every flushed ledger, in every reachable state |
| WorkerFigures.DroppedIffFull | include/statsdcc/workers/aggregator/worker.h:61-68 | in every run a line is dropped if and only if it comes when 10000 are waiting, and the others are taken in order |
| WorkerFigures.StatusShown | src/workers/aggregator/worker.cc:68-76 | between two flushes the published figures are those of the last flushed lines: how many a second, how many of each name, how many bad |
| LedgerMerge.AppendMerges | src/ledger.cc:95-121 | the ledgers of two streams put together hold the counters, timers in order and sets of the one stream after the other |
| Conservation.LedgersConserved | src/workers/aggregator/worker.cc:46-82 | all flushed ledgers of a worker in order, its current one and the lines to come hold the counters, timers and sets of the lines accepted, in every reachable state |
| GaugeFlushes.GaugesMergeIff | src/ledger.cc:103-113 | they also hold its gauges if and only if the second stream changes no gauge, without writing it, that stood at other than 0 after the first |
| GaugeFlushes.WorkerGaugesIff | src/workers/aggregator/worker.cc:60-77 | all ledgers of a worker together hold the gauges of the lines it has buffered, in every reachable state, if and only if for no gauge the last ledger to touch it changes it so |
| Conservation.CountsConserved | src/workers/aggregator/worker.cc:46-82 | so each counter over all of them is its total over the lines accepted |
| WorkerTheorems.FlusherWindow | src/workers/aggregator/worker.cc:60-66 | at most two live flushers, one outside the moment between spawn and join and while a line is buffered; flush i is done before flush i+2 exists |
| WorkerTheorems.FlushesNeedInterrupts | src/workers/aggregator/worker.cc:56-78 | flushes never outnumber the interrupts that came outside the flush section: one inside it is absorbed |
| WorkerTheorems.AtMostOneBufferBeforeFlush | src/workers/aggregator/worker.cc:45-82 | once the flag is set outside the flush section at most one line is buffered before the next flush |
| WorkerTheorems.LaterFlushesNotEmpty | src/workers/aggregator/worker.cc:56-81 | every flushed ledger but possibly the first holds a line |
| FirstFlush.FirstFlushEmptyIff | src/workers/aggregator/worker.cc:45-82 | in every run the first flushed ledger holds no line if and only if an interrupt came before the first test of the flag |
| FirstFlush.FirstFlushCanBeEmpty | src/workers/aggregator/worker.cc:56-81 | a run whose first flush is empty |
| WorkerTheorems.FlushedLedgersComplete | src/workers/aggregator/worker.cc:56-66 | each flushed ledger was processed after its last line: rates for all counters, figures for all timers, its lines counted |
| PipelineInvariants.RunKeepsInv | src/workers/aggregator/worker.cc:45-82 | every state of every run of the whole aggregator meets the system invariant |
| PipelineTheorems.WorkerReachable | src/workers/aggregator/worker.cc:45-82 | in every run each worker is in a state its own machine reaches, so the theorems about one worker hold of all |
| PipelineTheorems.BackendsExclusive | include/statsdcc/backend_container.h:67-74 | at most one flush of any worker is inside the backend loop |
| PipelineTheorems.BackendsSeeWholeFlushes | include/statsdcc/backend_container.h:67-74 | deliveries come in whole blocks, one per finished flush, each backend once and in order, and no flush finishes twice |
| PipelineTheorems.BackendsGivenLedgers | include/statsdcc/backend_container.h:67-74 | every delivery hands a backend the processed copy of the ledger of that flush's lines |
| PipelineTheorems.FlushOrderWindow | include/statsdcc/thread_guard.h:24-29 | flush i of a worker has gone through all backends before its flush i+2 enters them |
| Overtaking.OvertakenIffWaiting | include/statsdcc/backend_container.h:67-74 | from any state in which flush i+1 has been started, some continuation has it enter the backends while flush i has not, if and only if flush i waits for the lock |
| Overtaking.NewerFlushCanOvertake | src/workers/aggregator/worker.cc:60-66 | a run of the whole aggregator, lock included, in which that happens |
| Overtaking.LockComesFree | include/statsdcc/backend_container.h:67-74 | from every state the lock can come free, without any waiting flush having moved |
| Overtaking.SpawnedCanJoin | include/statsdcc/thread_guard.h:24-29 | a worker waiting for its old flusher can be released, whoever has the lock |
| Draining.QuietRunsEnd | src/workers/aggregator/worker.cc:45-82 | while no line arrives and no flag is raised a run has at most as many steps as there is work left, and neither input nor drops change |
| Draining.StuckIffAtRest | src/workers/aggregator/worker.cc:45-82 | in every reachable state no thread can move if and only if all queues and hands are empty and all flushes delivered: no deadlock |
| Draining.ComesToRest | src/workers/aggregator/worker.cc:45-82 | from every reachable state the aggregator comes to rest so |
| Draining.ComesToAgree | src/workers/aggregator/worker.cc:45-82 | and unless a line was dropped all ledgers then hold the counters, timers and sets of one ledger fed everything received |
| PipelineTheorems.ShardingTransparent | lib/consumers/aggregator_consumer.cc:27-53 | for every number of workers and every interleaving without drop and flush, once the queues drain the ledgers merge to that of one worker fed the whole stream in order |
| PipelineTheorems.ShardedNamesDisjoint | lib/consumers/aggregator_consumer.cc:27-53 | and no two workers hold one name, but for the bad-lines counter |
| Conservation.FlushesTransparent | src/workers/aggregator/worker.cc:46-82 | with any interleaving and any flushes, all ledgers of all workers merge to the counters, timers in order of arrival and sets of one ledger fed everything received |
| Conservation.CountsEndToEnd | src/workers/aggregator/worker.cc:46-82 | so a counter over all ledgers of all workers is its total over everything received |
| NamelessLines.NamelessCounted | lib/consumers/aggregator_consumer.cc:21-53 | over all workers and flushes the counter NAME.bad_keys is the number of lines received without a colon |
| GaugeFlushes.SystemGaugesIff | src/workers/aggregator/worker.cc:46-82 | and its gauges if and only if no worker's flushes lose one |
| GaugeFlushes.GaugesCanBeLost | src/workers/aggregator/worker.cc:60-77 | a run of the whole aggregator in which a flush between a write and a signed change leaves -1 where 4 is right |
| WorkerObjects.BackendContainer.constructor | include/statsdcc/backend_container.h:28-51 | the backends are those configured, in their fixed order, with the lock free |
| WorkerObjects.BackendContainer.Flush | include/statsdcc/backend_container.h:67-74 | what was handed before stays, and each backend, in order, is handed this ledger once, with the lock free again |
| WorkerObjects.Worker.Submit | include/statsdcc/workers/aggregator/worker.h:61-68 | the line joins a queue with room, else the drop count goes up |
| WorkerObjects.Worker.RaiseInterrupt | include/statsdcc/workers/aggregator/worker.h:52-54 | the flag is set and nothing else changes |
| WorkerObjects.Worker.ProcessLedger | src/workers/aggregator/worker.cc:57-58 | processing the ledger is the machine's step, from any state that meets the invariant |
| WorkerObjects.Worker.StartFlusher | src/workers/aggregator/worker.cc:60-66 | starting a flusher with a copy of the ledger is the machine's step, from any state |
| WorkerObjects.Worker.JoinFlusher | include/statsdcc/thread_guard.h:24-29 | taking over the guard waits for the old flusher to do what it has left and is then the machine's step |
| WorkerObjects.Worker.RenewLedger | src/workers/aggregator/worker.cc:72-76 | replacing the ledger and resetting the count is the machine's step, from any state |
| WorkerObjects.Worker.FlushLedger | src/workers/aggregator/worker.cc:57-77 | the flush section performs the machine's steps in order, the old flusher doing what it has left while it is waited for, and keeps the invariant |
| WorkerObjects.Worker.Round | src/workers/aggregator/worker.cc:46-82 | one turn of the loop performs the machine's steps from pop to buffer and keeps its invariant |
| ConsumerObjects.AggregatorConsumer.Consume | lib/consumers/aggregator_consumer.cc:27-53 | the worker that owns the name is submitted the line, cut at a NUL or replaced; the others are untouched |
| ConsumerObjects.Clock.InterruptAll | include/statsdcc/clock.h:31-35 | every worker is interrupted, and nothing else happens to it |
| ConsumerObjects.ReadLines | lib/net/servers/socket/udp_server.cc:106-112 | the loop yields the lines of the packet's text up to a NUL |
| ConsumerObjects.PacketRoundTrip | lib/net/servers/socket/udp_server.cc:108-112 | lines put in a packet each with its newline come out as they were |
| ConsumerObjects.PacketRestored | lib/net/servers/socket/udp_server.cc:108-112 | no line holds a newline, and the lines restore the text up to a missing final newline |
| NameNormaliser.NameFromTheFront | include/statsdcc/backends/carbon.h:48-56 | taken from the front, a run of white space gives one underscore, a slash a dash, a letter, digit, `_`, `-` or `.` itself, and anything else nothing |
| NameNormaliser.ProcessNameIsOnePass | include/statsdcc/backends/carbon.h:48-56 | the three replacements equal one pass from left to right |
| NameNormaliser.NamesUnchanged | include/statsdcc/backends/carbon.h:48-56 | only letters, digits, `_`, `-` and `.` come out, names made of them are unchanged and no others are, and twice is once |
| NameNormaliser.DistributesOverConcatenation | include/statsdcc/backends/carbon.h:48-56 | normalising a concatenation part by part is right if and only if white space does not meet at the seam |
| CarbonBackendModel.Carbon.BuildBuffers | lib/backends/carbon.cc:50-172 | the lines built are exactly those of the ledger, each buffer is the text of the lines its destination owns, and numStats counts the keys |
| CarbonBackendModel.Carbon.FlushStats | lib/backends/carbon.cc:31-188 | each destination with a buffer is sent it once, over a connection that exists afterwards, and no other is sent anything |
| CarbonContents.EmittedIff | lib/backends/carbon.cc:50-172 | a line is emitted under a key if and only if it is the rate or count line of a counter, the line of a timer's figure, of a gauge, of a set or of the flush itself, with that one's prefix, name and value |
| CarbonContents.BuffersSay | lib/backends/carbon.cc:61-172 | and each of these lines stands in the buffer of the destination that owns its key |
| CarbonContents.RouteOwns | lib/backends/carbon.cc:62 | a key's lines go to a shard with the nearest point after the first four bytes of the key's digest |
| CarbonContents.OwnSaid | lib/backends/carbon.cc:140-158 | a flush says how many keys it has and how long it took |
| CarbonBackendModel.BuffersPartition | lib/backends/carbon.cc:61-172 | the buffers of all destinations hold all lines between them, none twice |
| CarbonBackendModel.LineCount | lib/backends/carbon.cc:50-172 | a flush sends two lines a counter, one for each timer figure, gauge, set and status figure, and two of its own |
| CarbonPipeline.EveryFlushCanBeSent | lib/backends/carbon.cc:59 | in every run every flushed ledger has the rates the backend looks up, and the number of lines sent for it is as given |
| CarbonPipeline.CounterSent | lib/backends/carbon.cc:51-79 | for a flushed ledger, the owner of a counter is sent the sum over its lines as .count and that over the interval as .rate |
| CarbonPipeline.TimerSent | lib/backends/carbon.cc:82-104 | the owner of a timer is sent each figure worked out from its samples, under the figure's name |
| CarbonPipeline.GaugeSent | lib/backends/carbon.cc:107-122 | the owner of a gauge is sent the value it ended with |
| CarbonPipeline.SetSent | lib/backends/carbon.cc:125-138 | the owner of a set is sent the number of different texts |
| CarbonPipeline.StatusSent | lib/backends/carbon.cc:160-172 | the number of lines taken in and the time their processing took are sent under the worker's own names |
| ProxyMachine.ProxyRunsKeepInv | src/workers/proxy/worker.cc:61-109 | every interleaving of taking, judging and printing, and routing lines by any number of threads keeps what is sent, printed and counted matching the lines, and the lines themselves |
| ProxyTheorems.ProxyLinesConserved | src/workers/proxy/worker.cc:68-108 | lines submitted = dropped + queued + in hand + blacklisted + without destination + bad + sent |
| ProxyTheorems.ProxyDropsIffFull | include/statsdcc/workers/proxy/worker.h:50-57 | in every run a line is dropped if and only if it comes when 10000 are waiting |
| ProxyTheorems.ProxyDelivers | src/workers/proxy/worker.cc:77-105 | at rest the lines sent are the accepted ones with a colon that no blacklist entry matches, the bad lines are those without, and all unmatched ones are printed if that is configured |
| ProxyTheorems.ProxySilentIff | src/workers/proxy/worker.cc:95-108 | nothing is sent or counted bad if and only if there is no destination or nothing passes the blacklist |
| ProxyTheorems.ProxySendsTo | src/workers/proxy/worker.cc:97-103 | a line is sent where the text before its first colon hashes to |
| ProxyTheorems.ProxySendsByName | src/workers/proxy/worker.cc:77-105 | everything sent was accepted, is not blacklisted and goes where its name hashes, so one aggregator owns each name |
| ProxyTheorems.ProxyPrintsKept | src/workers/proxy/worker.cc:77-93 | everything accepted but the blacklisted lines is printed once, if that is configured |
| ProxyTheorems.SingleThreadKeepsOrder | src/workers/proxy/worker.cc:45-52 | one thread sends and prints the lines in the order they were accepted |
| ProxyTheorems.ThreadsReorder | src/workers/proxy/worker.cc:91-105 | two threads can print any two lines in their order and send them in the opposite one |
| ProxyTheorems.GaugeCanGoBack | src/workers/proxy/worker.cc:69-105 | so a gauge can end at its older value behind a proxy with two threads |
| ProxyTheorems.GaugesKeptIff | src/workers/proxy/worker.cc:45-52 | for any number of threads and any blacklist the gauges of what is sent are those of the lines in their own order, in every run at rest, if and only if there is one thread or no two lines that can be forwarded clash over a gauge |
| ProxyFleet.FleetMerges | src/workers/proxy/worker.cc:97-105 | for any threads, aggregators, workers, interleavings and datagram orders, with nothing lost or flushed, all ledgers merge to one ledger of the forwarded lines in some order |
| ProxyFleet.FleetTransparent | src/workers/proxy/worker.cc:97-105 | so all processed figures but the gauges are those of one ledger fed the accepted lines in their order |
| FleetFlushes.FlushedFleetMerges | src/workers/proxy/worker.cc:97-105 | and with flushes anywhere all ledgers of all aggregators merge to the counters, timers and sets of one ledger of the forwarded lines in some order |
| FleetFlushes.FlushedFleetTransparent | src/workers/proxy/worker.cc:97-105 | so their counters and sets, and the samples of each timer, are those of one ledger fed the accepted lines |
| FleetFlushes.FlushedFleetInHandledOrder | src/workers/proxy/worker.cc:97-105 | with datagrams delivered in order the samples of each timer come in the order the proxy handled them |
| FleetFlushes.FlushedFleetGaugesIff | src/workers/proxy/worker.cc:97-105 | and the gauges are right if and only if no worker's flushes lose one |
| ProxyFleet.FleetInHandledOrder | src/workers/proxy/worker.cc:97-105 | with datagrams delivered in order the ledgers merge to exactly that of the forwarded lines in the order the proxy handled them, gauges and timer order included |
| ProxyFleet.SingleThreadFleet | src/workers/proxy/worker.cc:97-105 | and behind a single thread to that of the accepted lines in their own order |
| ProxyObjects.ProxyWorker.Consume | include/statsdcc/consumers/proxy_consumer.h:29-40 | the line, cut at a NUL, is submitted |
| ProxyObjects.ProxyWorker.Submit | include/statsdcc/workers/proxy/worker.h:50-57 | the line joins a queue with room, else the drop count goes up |
| ProxyObjects.ProxyWorker.TakeLine | src/workers/proxy/worker.cc:69-75 | the oldest line is taken, or nothing changes |
| ProxyObjects.ProxyWorker.JudgeLine | src/workers/proxy/worker.cc:77-93 | the blacklist scan drops a line if and only if an entry matches it, and performs the machine's step |
| ProxyObjects.ProxyWorker.RouteLine | src/workers/proxy/worker.cc:95-108 | the routing performs the machine's step for the line in hand |
| ProxyObjects.ProxyWorker.Turn | src/workers/proxy/worker.cc:68-109 | one turn of any thread, whatever the others have in hand, takes a line and sees it through, or changes nothing |
| ProxyObjects.ProxyWorker.Run | src/workers/proxy/worker.cc:68-109 | a thread that makes any number of turns while the others stand still has taken and seen through a line in each turn that found one |

## Left out

- WorkerObjects.Worker.Round: no other thread moves during the round but the flusher it waits for. The methods it calls are steps from any state, and the machine interleaves them.
- WorkerObjects.Worker.FlushLedger: no other thread moves during the section but the flusher it waits for, likewise.
- ProxyObjects.ProxyWorker.Run: the other threads stand still; ProxyMachine interleaves them.
- RingDisruption.HandOverHappens: assumes labels that fit the 1024-byte buffer and fewer shards than there are words; RingLabels.DisruptionIffSwitch covers labels cut short.
- RingDisruption.DisruptionIffHandOver: assumes the same, as a label cut short can coincide with another.
- RingLabels.DisruptionIffSwitch: assumes fewer labels in all than there are words.
- RingRounding.DoubleShareNear: assumes weights and node counts whose product is below 2^53 / 200, which holds for 32-bit weights and up to 16384 nodes.
- Percentiles.PercentileFigures: assumes two samples or more; Percentiles.SingleSample covers one.
- MetricLine.PrintedLineRoundTrip: rates are texts that are one number from end to end; LineGrammar.RateRead covers the others.
- CarbonBackendModel.Carbon.BuildBuffers: leaves the order of the lines in a buffer open, as the walk over a map does.
- NamelessLines.NamelessCounted: assumes that no line received is itself a counter line of that name.
- ProxyFleet.FleetMerges: assumes that no datagram is lost and no ledger flushed, and that all aggregators share the bad-lines name; FleetFlushes.FlushedFleetMerges covers flushes.
- ProxyFleet.FleetTransparent: assumes the same; FleetFlushes.FlushedFleetTransparent covers flushes.
- Conservation.FlushesTransparent: says nothing of gauges, which start from 0 in every new ledger; GaugeFlushes.SystemGaugesIff does.
- Conservation.LedgersConserved: says nothing of gauges; GaugeFlushes.WorkerGaugesIff does.
- LedgerMerge.AppendMerges: says nothing of gauges; GaugeFlushes.GaugesMergeIff does.
- Telling infinities and NaN apart, rounding in the ledger's sums, and the hexadecimal, `inf` and `nan` forms of numbers.
- Overflow of `int` and 64-bit counters, and of the node weights' total.
- Shutdown: `done`, destructors and the races around them; runs are those while the program is up.
- Sockets, packets lost or cut short, timeouts, name resolution: input is a packet's text, output a log.
- `Connection::write` and reconnecting: what a connection is asked to write is recorded, not what arrives.
- The Repeater backend, which strips a character once per destination, and the Stdout backend.
- The TCP server, whose call to the consumer is commented out.
- The HTTP status pages, `/proc` reading, logging, command line options, and reading configuration as JSON.
- Failure to allocate memory or to start a thread.
- `get_metrics_frequency`, a read of the published map under its mutex.
