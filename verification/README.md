# metriken: verified models of the query engine and the exposition builder

Dafny models of five parts of metriken, each proved against a reference that is
written without the streaming, caching or byte surgery the program uses.

**The batched rate engine** (`metriken-query/src/batch_rate.rs`). `RateSpec` says what
a counter's grid rate is, from its whole sample list: reset-adjusted totals,
interpolated edges, the hold past the last sample, fixed spans and `rate`'s
`range_start`. `SeriesRate` takes one sample at a time with its nine-sample probe,
trimmed queue and cached edge, and emits exactly that. `Coverage` says what the runs
of a member's rows are and which of them hold a time; `RowTrack` answers the same
while rows are still arriving. `UnionSpec` says which member answers each point of a
process group's series; `UnionStage` passes on exactly those points, whatever order
members emit and settle in, and `CombineSeries` (the per-series path) computes the
same list by a merge. `StageCompare` finds exactly the conflicting rows while
forgetting rows. `Aggregate`, `Grouping` and `Flush` are the group accumulators,
their blocks, and the flush that feeds finished blocks early; `GroupBands` a group's band
down to its members' reads. `UnitRead` is one result
series (its members' rates and stage), and `GridRates` the whole read: chunks,
partitions, series ended early, units combined, groups flushed, and the read given up
when an ended series has another row. Its one theorem covers every cutting into
chunks, every layout of partitions and every choice of series ended.

**Display reduction** (`metriken-query/src/display.rs`): the streaming `BucketReducer`,
the whole-series `reduce_boxplot`, and what a grouped query shows: `GroupDisplay` for any
grid, `DisplayQuery` for the grid the program makes of the query.

**The group builder** (`metriken-exposition/src/group_builder.rs`). The registry is a
history: what every metric's store holds at each moment, values changing at any time
and metadata only with its version. Every read takes the next moment, so every
interleaving of mutations with the builder's reads is covered. `Skeleton` and
`SkeletonBuild` are the cache of wide groups; `Occupants` and `LongGroups` the slots'
occupants and the long groups.

**WAL rows** (`metriken-model/src/wal.rs`): `MessagePack` and `Wal`, down to bytes.

**Content versions** (`metriken-core/src/traits.rs`): `ContentVersion`.

**What the references mean.** The references above are functions the program's parts
share, so each is also said from outside: `RateMeaning`, `CoverageMeaning`,
`UnionMeaning`, `GroupMeaning`, `DisplayMeaning` and `MembershipMeaning` say what they
give of readings, rows, gaps, points, values and slots alone.

Values are reals where the program uses f64, u64 is a subset of the integers with its
checked and saturating operations written out, and unstable sorts are sorts by a total
order.

## Where the code and its documentation differ

- `reduce_boxplot` promises at most `budget` points. It gives one more exactly when the
  points fill every epoch-aligned bucket from the first point's to the last's and those
  two are `budget` buckets apart (`BoxplotReduction.OverBudget`; it happens:
  `BoxplotReduction.BudgetExceeded`).
- `bucket_of` moves a time just before a boundary past it by a share of the time itself,
  which from 1e15 widths on is whole buckets. Outputs of every series within a limit are
  in time order if and only if the limit is at most 1e15 widths
  (`Display.OutputInTime`); beyond it, points half a microsecond apart at a step of one
  are put out in the wrong order (`Display.OutputOutOfTime`). A series on the query's
  grid never is when its step is 20 microseconds or more, or a whole number of nanoseconds
  (`Display.GridInTime`, `DisplayQuery.GroupInTime`). A fraction of a nanosecond is cut off
  the grid's step and not the width (`DisplayQuery.FractionMisorders`); exactly when every
  group of a query is in order is `DisplayQuery.OrderKept`.
- `bucket_width` allows a series one bucket more than the budget, and a second if its grid
  begins before the range unless the width is whole steps. The grid goes on for a
  microsecond past the range's end, and a point there can be one more: with a budget of one
  over 5 to 6 microseconds at a step of one (`DisplayQuery.SlackAddsPoint`), and over a
  second begun just before a step of one second (`DisplayQuery.BothEndsAddPoints`). The
  bound holds for every group if and only if the grid's points, each its own bucket when
  the grid fits the budget, or else the buckets from the first point's to the last's, are
  no more than it (`DisplayQuery.DocumentedKept`); what holds of every query is
  `DisplayQuery.MostAtMost`.
- A long slot is to get a new key when its occupant changes. A slot without metadata
  gets one whenever its metric's version changes; a slot whose own `id` is not its number
  can get one though its labels stay, or keep its key though they change
  (`Occupancy.KeepsSameLabels` says exactly when the promise holds).
- A group of fixed members that are built with a caller's own and then without is a hit
  whose counts differ: it is left out of that build and evicted, though no member
  changed, and comes back in the next (`SkeletonBuilding.OwnThenNone`). With fixed members
  a hit is left out if and only if the cached schema was built with a caller's own
  (`SkeletonBuilding.GroupCache.Build`, `SkeletonBuilding.FixedIsServed`).
- Registered membership is said to have no window between the passes. The slots with
  metadata can change there: replaced by as many others, a hit's values are emitted under
  the old slots' descriptors (`SlotChanges.SlotReplaced`). Values are those of the
  descriptors, whatever they are, if and only if the walk reads the entries described
  (`SlotChanges.BindsExactly`), as it does while the metric's version stays
  (`SkeletonBuilding.ServedValues`).
- A window's right edge is read at the first sample of its time and its left edge at the
  last, so rates leave out what the counter rises by among samples at one grid point; they
  add up to the whole increase if and only if there is no such rise
  (`RateProps.RatesConserve`).

## Model

| member | source | states |
|---|---|---|
| RateSpec.LenIsCount | metriken-query/src/batch_rate.rs:896-902 | the closed form of the grid's length is the number of points at or before its end |
| RateSpec.IndexOfTime | metriken-query/src/batch_rate.rs:892-894 | `index` undoes the time of a grid point, for every grid and point |
| RateSpec.PointAppend | metriken-query/src/batch_rate.rs:706-762 | a later sample changes no point at or before the last sample, in both span modes and with samples at equal times |
| RateSpec.PointsAppend | metriken-query/src/batch_rate.rs:706-762 | the same for every point decided so far |
| RateSpec.PointAfterFirst | metriken-query/src/batch_rate.rs:779-862 | a point lies strictly after the first sample and is stamped with its grid time |
| RateSpec.PointsRise | metriken-query/src/batch_rate.rs:706-762 | points come in strictly increasing grid index, each at its grid time |
| RateMeaning.TotalIs | metriken-query/src/batch_rate.rs:682-704 | a total is the last reading less the first, and the readings just before each reset |
| RateMeaning.TotalWithoutReset | metriken-query/src/batch_rate.rs:682-704 | without a reset it is the last reading less the first |
| RateMeaning.EdgeAtSample | metriken-query/src/batch_rate.rs:779-822 | at a sample's own time a right edge is the first such sample's total and window, a left edge the last's |
| RateMeaning.EdgeBetween | metriken-query/src/batch_rate.rs:779-822 | between two samples an edge is on the line between their totals, and has a window, on the lines between theirs, when both have one and they are within twice the typical spacing |
| RateMeaning.EdgeOutside | metriken-query/src/batch_rate.rs:779-822 | outside the samples there is no edge |
| RateMeaning.WindowEndIs | metriken-query/src/batch_rate.rs:722-740 | a window ends at its point's time, or at the last sample when the range ends within the typical spacing of it |
| RateMeaning.WindowStartIs | metriken-query/src/promql/streaming/rate.rs:149-163 | a window starts a span before its end; of a `rate`, there if a sample is within reach, else at the next sample before the end, else nowhere |
| RateMeaning.PointOfIs | metriken-query/src/batch_rate.rs:824-862 | all of a point: when there is one, its value times the seconds is the increase, its flag, when its band is given, and that the band's ends are attained |
| RateMeaning.RateHas | metriken-query/src/batch_rate.rs:706-762 | a rate has a point at exactly the grid points whose window gives one |
| RateMeaning.FixedPoint | metriken-query/src/batch_rate.rs:706-862 | with a fixed span there is a point at a time exactly when the window is within the samples, and its value is the increase over it |
| RateMeaning.MedianIs | metriken-query/src/batch_rate.rs:657-680 | a median is at most a number exactly when more than half of the numbers are |
| RateMeaning.TypicalIs | metriken-query/src/batch_rate.rs:657-680 | the typical spacing is the median of the gaps of the first nine samples, at least 1 |
| StreamingRate.DroppableAfterTrim | metriken-query/src/batch_rate.rs:764-768 | what a trim lets go is not read by any later window's start or edges |
| StreamingRate.RangeStartOfTail | metriken-query/src/promql/streaming/rate.rs:149-163 | `range_start` over the trimmed queue is `range_start` over all samples |
| StreamingRate.LeftEdgeOfTail | metriken-query/src/batch_rate.rs:779-862 | the left edge read from the trimmed queue or the cache is the whole list's |
| StreamingRate.RightEdgeOfTail | metriken-query/src/batch_rate.rs:779-822 | the right edge read from the trimmed queue is the whole list's |
| StreamingRate.CacheAppend | metriken-query/src/batch_rate.rs:691-695 | the cached edge stays right across a new sample, which clears it at its own time |
| StreamingRate.SeriesRate.Ingest | metriken-query/src/batch_rate.rs:682-704 | taking a sample keeps queue, total and cache those of the samples so far |
| StreamingRate.SeriesRate.Trim | metriken-query/src/batch_rate.rs:764-768 | every sample with a successor at or before the window's start is dropped, and no other |
| StreamingRate.SeriesRate.WindowOf | metriken-query/src/batch_rate.rs:722-755 | each grid point's window end and start: the span, the hold past the last sample, `range_start`, or none |
| StreamingRate.SeriesRate.Advance | metriken-query/src/batch_rate.rs:706-762 | every point the samples allow is decided, none twice, none early |
| StreamingRate.SeriesRate.Settle | metriken-query/src/batch_rate.rs:657-680 | the probe's median spacing is the typical spacing of the whole list, and its samples are evaluated |
| StreamingRate.SeriesRate.Push | metriken-query/src/batch_rate.rs:634-647 | one more sample: what is emitted is new and at or after the first undecided point; the state stays that of all samples so far |
| StreamingRate.SeriesRate.Finish | metriken-query/src/batch_rate.rs:650-655 | decides every point; nothing more if already done |
| StreamingRate.SeriesRate.EndEarly | metriken-query/src/batch_rate.rs:613-616 | what finishing would emit, and marks the series ended |
| StreamingRate.SeriesRate.FinishedIsRate | metriken-query/src/batch_rate.rs:541-655 | refinement: after any pushes and the end, what was emitted is the rate of the whole sample list |
| StreamingRate.SeriesRate.EmittedRise | metriken-query/src/batch_rate.rs:602-607 | at any moment, emitted points are in increasing index, on the grid and after the first sample |
| StreamingRate.SeriesRate.EmittedBefore | metriken-query/src/batch_rate.rs:602-607 | a series that can emit more has emitted only before its pending point |
| StreamingRate.SeriesRate.NextPoint | metriken-query/src/batch_rate.rs:594-607 | the pending point is the first undecided one; without a last sample nothing was taken |
| StreamingRate.SeriesRate.SaysOfSamples | metriken-query/src/batch_rate.rs:594-627 | of a series that can emit, the last time and the spacing are those of its samples: typical from nine on, the mean before |
| RateProps.RateIsNotNegative | metriken-query/src/batch_rate.rs:824-862 | every rate is at least zero, whatever resets the counter had |
| RateProps.EdgesRise | metriken-query/src/batch_rate.rs:779-822 | the interpolated total at a window's end is at least that at its start |
| RateProps.StepIncrease | metriken-query/src/batch_rate.rs:824-862 | one step's rate times the step is the increase over the step, from the last sample at its start to the first at its end |
| RateProps.RatesAddUp | metriken-query/src/batch_rate.rs:706-862 | with span equal to step, consecutive rates times the step add up to the increase from one step before the first to the last, less the rises among samples at one grid point between |
| RateProps.RatesConserve | metriken-query/src/batch_rate.rs:706-862 | conservation: to the whole increase exactly when at each grid point between all samples have one total, and never to more |
| RateMeaning.ReadingsConserve | metriken-query/src/batch_rate.rs:634-862 | conservation from readings to emitted points: read at the windows' edges, the emitted rates times the step add up to the last reading less the first, and what resets lost |
| RateProps.BandHoldsEveryRate | metriken-query/src/batch_rate.rs:839-851 | a banded point holds increase over elapsed for every choice of read instants in its edges' windows, and its own value |
| RateProps.PointBandHolds | metriken-query/src/batch_rate.rs:824-862 | the same for every point of every series' rate, with the increase of that point's own window |
| Coverage.NoHole | metriken-query/src/promql/streaming/per_source.rs:281-305 | a gap within twice a lower bound of either side's gaps is no hole, so the shortcuts skip only gaps that are none |
| Coverage.HoleIsDecided | metriken-query/src/promql/streaming/per_source.rs:166-170 | eight gaps after it decide a gap, whatever rows follow |
| Coverage.RunsAreApart | metriken-query/src/promql/streaming/per_source.rs:371-376 | runs are disjoint, in time order, and end at the last row |
| Coverage.RunsGrow | metriken-query/src/promql/streaming/per_source.rs:261-326 | more decided gaps only lengthen the last run and add later ones |
| Coverage.AnswerIsFinal | metriken-query/src/promql/streaming/per_source.rs:338-370 | at a ready time the runs kept answer `holds` and `covers`, for every window, as all the runs do |
| CoverageMeaning.HoleIs | metriken-query/src/promql/streaming/per_source.rs:373-416 | a gap is a hole when, on each side of it that has gaps, more than half of the next eight are less than half as long, and one side has |
| CoverageMeaning.HoldsIs | metriken-query/src/promql/streaming/per_source.rs:145-156 | rows hold a time exactly when rows of one run go from before it to within an interval of it and no later run has begun |
| CoverageMeaning.CoversIs | metriken-query/src/promql/streaming/per_source.rs:158-162 | they cover a window exactly when besides the run goes back to the window's start |
| RowTracking.TimesDetermineRows | metriken-query/src/promql/streaming/per_source.rs:172-174 | the rows are determined by their times, so the order they were merged in does not matter |
| RowTracking.SmallIsNoHole | metriken-query/src/promql/streaming/per_source.rs:279-284 | a gap within twice the smallest gap seen is no hole |
| RowTracking.IsHole | metriken-query/src/promql/streaming/per_source.rs:285-312 | deciding by smallest gaps first gives what the medians give |
| RowTracking.RunsOf | metriken-query/src/promql/streaming/per_source.rs:377-416 | `runs` gives the reference runs, its floor shortcut included |
| RowTracking.RowTrack.Decide | metriken-query/src/promql/streaming/per_source.rs:261-318 | exactly the gaps with eight after them, or all at the end, are decided as the reference decides them |
| RowTracking.RowTrack.Push | metriken-query/src/promql/streaming/per_source.rs:213-223 | a row of the scan, with the rows around the scan that come before it merged in |
| RowTracking.RowTrack.Finish | metriken-query/src/promql/streaming/per_source.rs:227-236 | the rows accepted are exactly the times offered, in order, every gap decided |
| RowTracking.RowTrack.ForgetBefore | metriken-query/src/promql/streaming/per_source.rs:346-353 | the leading runs no answer at or after the time reads are dropped, and no other |
| RowTracking.RowTrack.ReadyIsFinal | metriken-query/src/promql/streaming/per_source.rs:338-370 | an answer at a ready time is the answer by the runs of all the rows there will ever be |
| UnionSpec.ChoiceIsBest | metriken-query/src/batch_rate.rs:409-424 | the choice covers its window if any member with a point does, and is the first-ranked that does; else the first-ranked whose rows hold the time |
| UnionSpec.RawAnswer | metriken-query/src/promql/streaming/per_source.rs:524-530 | at the members' own rows a time is answered by the first-ranked member that covers it, else the first-ranked that holds it, with its point or none |
| UnionSpec.CombinedRises | metriken-query/src/batch_rate.rs:389-432 | a unit's points are in strictly increasing grid index: none twice |
| UnionSpec.CombinedSkips | metriken-query/src/batch_rate.rs:318-326 | grid points no member has a point at add nothing |
| UnionMeaning.ChoiceIs | metriken-query/src/batch_rate.rs:409-424 | a point is chosen exactly when it is the answering member's: of those that may answer the first that covers the window, else the first that holds the time |
| UnionMeaning.CombinedIs | metriken-query/src/batch_rate.rs:389-434 | a unit has at each grid point exactly the answering member's point, coverage said of rows and gaps |
| UnionStaging.StageUnit.Emit | metriken-query/src/batch_rate.rs:453-467 | a member's next point is held, and no answer given changes |
| UnionStaging.StageUnit.Row | metriken-query/src/batch_rate.rs:382-386 | a member's row changes no answer given |
| UnionStaging.StageUnit.EndMember | metriken-query/src/batch_rate.rs:350-354 | the member's rows are all its rows |
| UnionStaging.StageUnit.First | metriken-query/src/batch_rate.rs:320-325 | the least index any member holds a point at |
| UnionStaging.StageUnit.Pick | metriken-query/src/batch_rate.rs:409-424 | the two searches give the reference choice |
| UnionStaging.StageUnit.ClaimIsFinal | metriken-query/src/batch_rate.rs:399-420 | at an index every member has passed, what a member offers is what it offers read whole |
| UnionStaging.StageUnit.TryAnswer | metriken-query/src/batch_rate.rs:394-432 | one round: answered only when every member has passed it and can decide its coverage |
| UnionStaging.StageUnit.Settle | metriken-query/src/batch_rate.rs:389-434 | for every interleaving, what was passed on is the reference list so far whatever arrives later; nothing before a bound on held and coming points; and nothing answerable stays held |
| UnionStaging.StageUnit.HeldNs | metriken-query/src/batch_rate.rs:446-450 | nothing held is before it, so it bounds what can still be passed on |
| UnionStaging.StageUnit.Finish | metriken-query/src/batch_rate.rs:438-443 | every held point is answered and the whole output is the reference list of the members' points and rows |
| SeriesCombining.OnlyMember | metriken-query/src/promql/streaming/per_source.rs:542-546 | when one member answers all it holds and none else answers, its list as it is is the answer |
| SeriesCombining.CombineSeries | metriken-query/src/promql/streaming/per_source.rs:495-547 | the merge gives each time's point of the member chosen there, for every window function, on the grid (the streaming stage's list) and at the members' own rows |
| SeriesCombining.RowsAreOnGrid | metriken-query/src/promql/streaming/per_source.rs:465-468 | points in time order at any rows are points of the grid of every nanosecond |
| StageComparing.ConflictsMore | metriken-query/src/batch_rate.rs:228-254 | a row adds exactly its conflicts with the other members' rows |
| StageComparing.ConflictIs | metriken-query/src/batch_rate.rs:228-254 | a conflict is of two rows of different sources, of one time and window and of different values, named in order |
| StageComparing.Pop | metriken-query/src/batch_rate.rs:276-292 | a row every other source's member has read past, or before the bound, can be let go |
| StageComparing.MetAmongHeld | metriken-query/src/batch_rate.rs:236-247 | a row meets among the rows held exactly what it meets among all rows |
| StageComparing.Conflicts | metriken-query/src/batch_rate.rs:236-242 | the search from the first row at the time finds a conflicting row if there is one |
| StageComparing.StageCompare.Take | metriken-query/src/batch_rate.rs:228-264 | exactness: after any row, what was found are exactly the conflicts among all rows so far |
| StageComparing.StageCompare.Forget | metriken-query/src/batch_rate.rs:276-292 | every row that can still meet another source's is held, and no member's first held row is one that cannot |
| StageComparing.StageCompare.End | metriken-query/src/batch_rate.rs:355-359 | ending a member keeps what was found exact |
| StageComparing.StageCompare.ReadTo | metriken-query/src/batch_rate.rs:296-306 | letting go of rows before the bound keeps what was found exact |
| Aggregate.PartitionsMerge | metriken-query/src/batch_rate.rs:1055-1072 | merging partitions' accumulators is adding every member to one |
| Aggregate.EdgesSurvive | metriken-query/src/batch_rate.rs:1037-1072 | edges survive exactly when all members agree on them |
| Aggregate.PointOfMembers | metriken-query/src/batch_rate.rs:1055-1088 | any split over partitions and any order gives one point |
| Aggregate.CompactIsSlot | metriken-query/src/batch_rate.rs:1104-1174 | the compact accumulator is the slot without what displays do not read, for every op |
| Aggregate.CompactPointIsSlotPoint | metriken-query/src/batch_rate.rs:1159-1174 | same value, band and flags for every op |
| Aggregate.CompactIgnoresOrder | metriken-query/src/batch_rate.rs:1124-1137 | the order members are added in does not matter |
| Aggregate.CompactsMerge | metriken-query/src/batch_rate.rs:1139-1153 | merging two compacts is adding all members to one |
| Aggregate.BandHoldsAggregate | metriken-query/src/batch_rate.rs:970-1001 | a sum's or average's band holds the aggregate of every choice of values in the members' bands |
| GroupBands.BandHoldsReads | metriken-query/src/batch_rate.rs:824-1001 | the band of a sum or average of rates holds the aggregate of the true rates for every independent choice of every member's read instants in its edges' windows |
| Aggregate.ValueOfMembers | metriken-query/src/batch_rate.rs:970-983 | a group's value is its members' total, mean, least, greatest or number |
| Aggregate.BandGiven | metriken-query/src/batch_rate.rs:984-992 | a band is given exactly for sums and averages with a banded member and none interpolated |
| GroupMeaning.GroupPointIs | metriken-query/src/batch_rate.rs:970-1088 | all of a group's point: value, flag, when its band is given and that it is the total or mean of the members' band edges, and its edges |
| Grouping.EmitMembers | metriken-query/src/batch_rate.rs:1362-1373 | a point adds itself to its group at its index and changes nothing else |
| Grouping.PartsAreWhole | metriken-query/src/batch_rate.rs:1202-1219 | the partitions' members of a group are the group's |
| GroupMeaning.MembersAre | metriken-query/src/batch_rate.rs:1176-1230 | a group's members at a grid point are the points of its series that have one there, in series order |
| GroupMeaning.ReadingsAre | metriken-query/src/batch_rate.rs:1289-1331 | a group's readings: in increasing grid index, one for each grid point that has members whose point the scalar ops keep, with the time, value, band and flag the ops give; and no other |
| GroupMeaning.ScaledReading | metriken-query/src/batch_rate.rs:1322-1327 | with ops that multiply by a number each reading is that many times its members' value, at its grid point's time |
| Grouping.Grouped.Emit | metriken-query/src/batch_rate.rs:1362-1373 | the group's accumulator at the index gains the point; every other accumulator stays |
| Grouping.Grouped.TakeBlock | metriken-query/src/batch_rate.rs:1226-1230 | the block is handed over and freed, the others stay |
| Flushing.GroupFlush.TakeMerged | metriken-query/src/batch_rate.rs:1299-1314 | the merged block holds each index's accumulator over all partitions |
| Flushing.GroupFlush.FeedBlock | metriken-query/src/batch_rate.rs:1315-1330 | the reducer gets the block's points in order, after the scalar ops, none empty |
| Flushing.GroupFlush.Feed | metriken-query/src/batch_rate.rs:1289-1331 | what the reducer was fed is the group's points in the blocks fed; what is left is left exact |
| UnitReading.PointsBeforeTime | metriken-query/src/batch_rate.rs:1355-1360 | no more grid points are before a grid point's time than its index |
| UnitReading.PointsBeforeIs | metriken-query/src/batch_rate.rs:1362-1374 | the grid points before a time are exactly the first that many |
| UnitReading.UnitRead.Take | metriken-query/src/batch_rate.rs:1633-1676 | a row reaches coverage and, in range, the rate; after an early end it gives the read up, in a union also when out of range; nothing is given before the bound |
| UnitReading.UnitRead.EndMember | metriken-query/src/batch_rate.rs:1600-1611 | a member's rate and coverage end; nothing is given before the bound |
| UnitReading.UnitRead.Settle | metriken-query/src/batch_rate.rs:1699-1701 | held points are passed on by the members' pending points; nothing before the bound |
| UnitReading.UnitRead.EarliestBounds | metriken-query/src/batch_rate.rs:1347-1353 | no member emits before its earliest point when later samples are at or after `w` |
| UnitReading.UnitRead.EarliestPointIs | metriken-query/src/batch_rate.rs:1345-1354 | it is the first undecided grid point, or, before the first sample, a span and a step before the bound |
| UnitReading.UnitRead.BoundedIsSafe | metriken-query/src/batch_rate.rs:1726-1786 | with nothing to come or held before `t`, no point among those before `t` is given any more |
| UnitReading.UnitRead.Finish | metriken-query/src/batch_rate.rs:1787-1794 | the unit's whole output is that of its members read whole |
| GridReading.GridRead.EmitAll | metriken-query/src/batch_rate.rs:1362-1373 | points at or after the blocks fed keep every sink and every reducer exact |
| GridReading.GridRead.Take | metriken-query/src/batch_rate.rs:1627-1681 | one row keeps the whole read's invariant, or marks the read given up |
| GridReading.GridRead.RunChunk | metriken-query/src/batch_rate.rs:1590-1705 | one chunk: series ended, rows taken, and no point left held that can be answered |
| GridReading.GridRead.SeriesBounds | metriken-query/src/batch_rate.rs:1726-1754 | the bound computed for a series is one |
| GridReading.GridRead.SilentIs | metriken-query/src/batch_rate.rs:1730-1742 | a series is silent exactly when ten spacings and ten steps have passed between its last sample and the bound |
| GridReading.MedianSpacingIs | metriken-query/src/batch_rate.rs:1718-1727 | the spacing of a series that has none is the median of the others' |
| GridReading.GridRead.EndSilent | metriken-query/src/batch_rate.rs:1729-1751 | a series is ended exactly when it is silent and no row need follow |
| GridReading.GridRead.FeedGroup | metriken-query/src/batch_rate.rs:1783-1786 | flush safety: blocks before a group's bound are fed, and no later point lands in them |
| GridReading.GridRead.FlushBefore | metriken-query/src/batch_rate.rs:1708-1787 | after a chunk, ending and feeding keep the whole read's invariant; each group is fed up to a point one of its series may still give or one of its units holds |
| GridReading.GridRead.Run | metriken-query/src/batch_rate.rs:1589-1793 | every chunk read, or given up only when a scan left a series' later rows unknown |
| GridReading.GridRead.EndAll | metriken-query/src/batch_rate.rs:1787-1797 | every unit's points are those of its members read whole |
| GridReading.GridRates | metriken-query/src/batch_rate.rs:1376-1866 | refinement: for every cutting into chunks, partition layout and choice of early endings, whenever it answers, each group's display is the reduction of its units' points, each unit's from its members read whole; it gives up exactly at the first chunk with a row that resumes a series ended early |
| Display.BucketReducer.Push | metriken-query/src/display.rs:492-549 | the buckets closed and the open one are those of all points pushed |
| Display.BucketReducer.Finish | metriken-query/src/display.rs:556-573 | the output is the offline grouping of all points pushed |
| Display.RunsAreBuckets | metriken-query/src/display.rs:455-458 | for time-ordered points every bucket's points are one run: each output is of all and only its bucket's points |
| Display.ReducedInOrder | metriken-query/src/display.rs:361-405 | every output has min, lo, median, hi and max in order, for bands around one half |
| Display.NoSpikeLost | metriken-query/src/display.rs:361-405 | every point lies within some output's extremes |
| Display.NoSpikeInvented | metriken-query/src/display.rs:361-405 | every output's extremes are points of the series |
| DisplayMeaning.QuantileBetween | metriken-query/src/display.rs:408-422 | between two ranks a quantile is on the line between their values |
| DisplayMeaning.QuantileAt | metriken-query/src/display.rs:408-422 | at rank k it is the value of rank k; outside 0 to 1 an end |
| DisplayMeaning.MiddleOf | metriken-query/src/display.rs:408-422 | a median is the middle value, or midway between the two in the middle |
| DisplayMeaning.MedianHalves | metriken-query/src/display.rs:408-422 | at least half of the values are at or below the median, and at least half at or above |
| DisplayMeaning.BoxplotIs | metriken-query/src/display.rs:361-405 | all of a boxplot: extremes, quantiles and median of the sorted values, the medians of the band edges there are, its flag |
| DisplayMeaning.SummaryIs | metriken-query/src/display.rs:523-549 | a bucket's output is the point itself when alone, else the boxplot of its points at the bucket's boundary |
| DisplayMeaning.BucketIs | metriken-query/src/display.rs:451-458 | a time is in the bucket whose bounds it is in once moved forward by 1e-4 of a bucket, or by 1e-15 of itself when that is more |
| Display.OutputInTime | metriken-query/src/display.rs:455-549 | at any width, output times of all series of times below a limit strictly increase exactly when the limit is at most 1e15 widths |
| Display.GridInTime | metriken-query/src/display.rs:415-549 | output times of every series with points a step apart, at times a u64 of nanoseconds can give, strictly increase |
| Display.OutputOutOfTime | metriken-query/src/display.rs:455-458 | at a width the program makes, three points off the grid whose outputs are out of order |
| Display.BucketWidth | metriken-query/src/display.rs:436-449 | the width is at least the span over the budget, no more than the step when the grid fits, and none without budget or range |
| DisplayMeaning.Ladder | metriken-query/src/display.rs:338-357 | the widths are 1, 2, 5, 10, 15, 20 and 30 seconds, 1 to 30 minutes, 1 to 12 hours and a day |
| DisplayMeaning.RungsDivide | metriken-query/src/display.rs:338-341 | each divides a minute, an hour or a day evenly |
| DisplayMeaning.WidthIsLeast | metriken-query/src/display.rs:338-357 | a width is the least of them that is no less than what is asked, or the least number of days |
| DisplayMeaning.BucketWidthIs | metriken-query/src/display.rs:436-449 | a query's width is that of its span over its budget, or its step when that is smaller and fits |
| Display.WithinBudget | metriken-query/src/display.rs:432-435 | any points in the range give at most budget + 1 outputs where the shift of a boundary is constant, and anywhere one more for each 1e15 of the budget or part of it |
| Display.GridBudget | metriken-query/src/display.rs:426-435 | points a step apart give at most n + 1 outputs over n steps when the grid fits, or n widths, at all times a u64 of nanoseconds can give |
| DisplayQuery.GroupInTime | metriken-query/src/promql/streaming/dispatch.rs:92-121 | on the grid the program makes, what a query shows of a group is in strictly increasing time, whatever its members gave, at steps of 20 microseconds or more or of whole nanoseconds |
| DisplayQuery.NanosIs | metriken-query/src/promql/mod.rs:632-651 | a time in nanoseconds is the nearest whole number a u64 has |
| DisplayQuery.OrderKept | metriken-query/src/display.rs:455-549 | of any query, every group is in strictly increasing time exactly when no grid point is at or before the stamp of an earlier bucket that holds two |
| DisplayQuery.FractionMisorders | metriken-query/src/promql/streaming/dispatch.rs:104-121 | a step of 1.5 nanoseconds, of which some group is not |
| DisplayQuery.GroupOutput | metriken-query/src/batch_rate.rs:1289-1331 | and no more points than the grid has buckets |
| DisplayQuery.FullOutput | metriken-query/src/batch_rate.rs:1289-1331 | as many as that for some group |
| DisplayQuery.BoundKept | metriken-query/src/display.rs:432-435 | so a bound holds for every group exactly when the grid's buckets are no more than it |
| DisplayQuery.DocumentedKept | metriken-query/src/display.rs:432-435 | exactly when the documented bound holds, by the grid's length or its first and last buckets |
| DisplayQuery.MostAtMost | metriken-query/src/promql/mod.rs:619-651 | every query: budget + 1 and the steps in a microsecond, when the grid fits; else budget + 2, or + 3 when the grid starts before the range |
| DisplayQuery.NonePastEnd | metriken-query/src/display.rs:432-435 | with no grid point past the range's end, budget + 1, or + 2 when the grid starts before the range |
| DisplayQuery.SlackAddsPoint | metriken-query/src/promql/mod.rs:619-651 | three outputs for a budget of one: the slack adds a grid point |
| DisplayQuery.BothEndsAddPoints | metriken-query/src/promql/streaming/dispatch.rs:104-121 | three outputs for a budget of one at a step of a second: the grid starts before the range and ends past it |
| Display.AloneInBucket | metriken-query/src/display.rs:426-431 | when the grid fits the budget, points a step apart are in different buckets |
| BoxplotReduction.ReduceBoxplot | metriken-query/src/display.rs:268-335 | one boxplot per bucket of consecutive points, at its boundary; every point in exactly one; each sample itself when the series fits |
| BoxplotReduction.OutputRises | metriken-query/src/display.rs:318-334 | output times strictly increase for time-ordered points |
| BoxplotReduction.OverBudget | metriken-query/src/display.rs:240-335 | at most budget + 1 outputs, and more than the budget exactly when the points fill the buckets from the first's to the last's, `budget` apart |
| BoxplotReduction.BudgetExceeded | metriken-query/src/display.rs:240-242 | a budget of one exceeded by two points |
| BoxplotReduction.SpikeIsKept | metriken-query/src/display.rs:325-331 | every point lies within its bucket's extremes, which are its values |
| DisplayMeaning.PlainBucketIs | metriken-query/src/display.rs:313-314 | a whole series' buckets are by their bounds, without a shift |
| DisplayMeaning.BucketPointIs | metriken-query/src/display.rs:316-334 | each output is the boxplot of its points, bands and flags, stamped where its bucket starts |
| DisplayMeaning.WholeIs | metriken-query/src/display.rs:283-301 | samples that fit are put out as they are |
| SkeletonCache.ReadAfterVersion | metriken-exposition/src/group_builder.rs:1645-1655 | labels read after the version are those of the version at any later time that has it |
| SkeletonCache.HitIsFresh | metriken-exposition/src/group_builder.rs:1782-1806 | descriptors whose versions are read again unchanged have the store's labels of that moment |
| SkeletonCache.FixedWalk | metriken-exposition/src/group_builder.rs:1532-1549 | the members of a metric with fixed membership depend on no store, and all belong |
| MembershipMeaning.WalkedIs | metriken-exposition/src/group_builder.rs:1526-1611 | the slots walked ascend and are exactly the first `entries`, those below a prefix, those of a set that exist, or those the store lists |
| MembershipMeaning.KindsAre | metriken-exposition/src/group_builder.rs:330-337 | which metrics have fixed members, which those of slots with metadata, and which value list each is in |
| MembershipMeaning.BelongsIs | metriken-exposition/src/group_builder.rs:560-713 | which walked slots are members by their values: not a `Present` counter at 0, not a slot without a value |
| MembershipMeaning.MembersAre | metriken-exposition/src/group_builder.rs:1722-1779 | the members read are the slots walked at one moment that are members by the values read of them |
| MembershipMeaning.FixedColumnIs | metriken-exposition/src/group_builder.rs:1526-1611 | a column's fixed members are exactly the slots of its metrics' memberships and its scalars |
| MembershipMeaning.NamedOnce | metriken-exposition/src/group_builder.rs:1526-1611 | each once |
| SkeletonBuilding.GroupCache.FoldMetric | metriken-exposition/src/group_builder.rs:1722-1779 | what the first pass folds of a metric: exactly its members as read, its version read before them |
| SkeletonBuilding.GroupCache.BuildMetric | metriken-exposition/src/group_builder.rs:560-713 | descriptors and values one to one, each value read of its descriptor's member, each label after the version |
| SkeletonBuilding.GroupCache.ReadMetric | metriken-exposition/src/group_builder.rs:715-768 | the values of a hit: exactly the members as read, each value its member's |
| SkeletonBuilding.ServedFresh | metriken-exposition/src/group_builder.rs:317-330 | freshness: a schema served on a hit has the labels of the moments, within the first pass, at which the versions were the identity's |
| SkeletonBuilding.ServedValues | metriken-exposition/src/group_builder.rs:841-862 | on a hit, value i of a column is read of the member descriptor i names, with fixed members, or slots whose metadata version was kept until the walk listed them |
| SlotChanges.BindsExactly | metriken-exposition/src/group_builder.rs:330-337 | a walk gives values of the members described, whatever they are, exactly when it reads their entries in order |
| SlotChanges.SlotReplaced | metriken-exposition/src/group_builder.rs:330-337 | a hit whose slot was replaced between the passes: the new slot's value under the old descriptor |
| SkeletonBuilding.FixedIsServed | metriken-exposition/src/group_builder.rs:847-872 | with fixed members, a hit's counts match the cached schema's if and only if it was built without a caller's own members |
| SkeletonBuilding.OneIdentity | metriken-exposition/src/group_builder.rs:1722-1779 | while no metadata changes, every pass over fixed members folds one identity |
| SkeletonBuilding.OwnThenNone | metriken-exposition/src/group_builder.rs:860-872 | the run: built with a caller's own members it is emitted; next, without, a hit left out and evicted; next emitted again |
| SkeletonBuilding.GroupCache.Serve | metriken-exposition/src/group_builder.rs:841-878 | a hit emits the cached schema with one walk's values when the counts match, nothing when there are none, and else evicts |
| SkeletonBuilding.GroupCache.Rebuild | metriken-exposition/src/group_builder.rs:817-840 | a miss emits and stores what one walk built, under that walk's identity; nothing is stored when there are no values |
| SkeletonBuilding.GroupCache.Build | metriken-exposition/src/group_builder.rs:469-891 | any build under any mutations: a hit exactly when the identity folded is the cached one; the stored identity is its schema's; counts match; values, read after the first pass, bind to their descriptors, those of slots with metadata while its version is kept; a hit's labels are those of the first pass; with fixed members it is left out exactly when the schema was built with a caller's own |
| MembershipMeaning.BuildFixed | metriken-exposition/src/group_builder.rs:469-891 | a group of fixed members is emitted when it has one; what is emitted describes exactly those slots, each value read of the slot described, and then a caller's own |
| Occupancy.SameLabelsIs | metriken-exposition/src/group_builder.rs:1386-1395 | what the label comparison amounts to |
| Occupancy.KeepsUid | metriken-exposition/src/group_builder.rs:1372-1412 | over any run, a slot that had a uid has the same key later exactly when it had that uid all along |
| Occupancy.KeepsSameLabels | metriken-exposition/src/group_builder.rs:1251-1258 | without a uid, it keeps its occupant exactly while its labels stay, if and only if it has metadata whose `id`, if any, is its number |
| Occupancy.UnlabelledSlotIsReplaced | metriken-exposition/src/group_builder.rs:1386-1395 | a slot without metadata is replaced though its labels are the same |
| Occupancy.EnterBooked | metriken-exposition/src/group_builder.rs:1372-1412 | a new key is one never given; a key given stays with its slot and labels |
| Occupancy.KeysAreDistinct | metriken-exposition/src/group_builder.rs:1248-1258 | no two slots have one key |
| Occupancy.ResolvedAgrees | metriken-exposition/src/group_builder.rs:1372-1412 | a resolved occupant has its metadata's uid, or without one its labels; a new one has its labels exactly |
| Occupancy.DecimalIs | metriken-exposition/src/group_builder.rs:1372-1412 | a slot's number is spelled in decimal, without leading zeros |
| Occupancy.LabelsAre | metriken-exposition/src/group_builder.rs:1372-1412 | a slot's labels are its metadata's, and its number as `id` unless that has one |
| Occupancy.UidIs | metriken-exposition/src/group_builder.rs:1372-1384 | its uid is the metadata's `__uid__` |
| LongGroups.LongGroup.OccupantOf | metriken-exposition/src/group_builder.rs:1331-1369 | a slot has one place a build; its occupant is the cached one when the version is unchanged, else resolved from the metadata read |
| LongGroups.WalkIsComplete | metriken-exposition/src/group_builder.rs:993-1064 | a column's cells are of exactly the slots its metric's membership selects by the values read |
| MembershipMeaning.CellsAre | metriken-exposition/src/group_builder.rs:993-1064 | a column's cells are of exactly the slots its metric walks that are members |
| LongGroups.LongGroup.Write | metriken-exposition/src/group_builder.rs:1010-1016 | one cell takes the value read; every other stays |
| LongGroups.LongGroup.Walk | metriken-exposition/src/group_builder.rs:993-1064 | one metric's column: its version before its slots, every value read recorded |
| LongGroups.SlotsAscend | metriken-exposition/src/group_builder.rs:1128-1129 | sorted, every slot walked is there once, strictly ascending |
| LongGroups.WidenedIsMember | metriken-exposition/src/group_builder.rs:1131-1139 | an occupant's lists have exactly the columns' widths and hold what each metric read of the slot, or nothing |
| LongGroups.LongGroup.Build | metriken-exposition/src/group_builder.rs:941-1156 | any build under any mutations: occupants ascend by slot, each walked slot once, cells exact; a key is bound to one slot and label map forever; an unchanged uid keeps its key and a changed one gets a key never used; for one metric of slots uid and labels are those of the metadata at a moment of this build |
| MessagePack.UintTrip | metriken-model/src/wal.rs:178-179 | reading back an unsigned integer written in its shortest format, for every width |
| MessagePack.SintTrip | metriken-model/src/wal.rs:117-119 | the same for signed integers |
| MessagePack.HeaderTrip | metriken-model/src/wal.rs:171-176 | the same for array, map and string headers |
| WalRows.MapTrip | metriken-model/src/schema.rs:61-75 | a map written in key order and inserted pair by pair is the map |
| WalRows.SchemaTrip | metriken-model/src/schema.rs:77-97 | a schema of three or four lists decodes to itself |
| WalRows.RoundTrip | metriken-model/src/wal.rs:131-133 | decoding an encoded row gives the row, of six elements or seven |
| WalRows.HeadSplits | metriken-model/src/wal.rs:165-184 | after an encoded row's head is nil exactly when it has no schema |
| WalRows.SchemaNilOffset | metriken-model/src/wal.rs:168-184 | the offset found is where the payload's head ends, if nil is there |
| WalRows.SpliceIsEncode | metriken-model/src/wal.rs:147-162 | the splice gives the bytes of encoding the row with the schema |
| WalRows.EncodeWithSchema | metriken-model/src/wal.rs:147-162 | for every row, schema-less or not, and every schema: the bytes of the row with the schema; an error only when the payload does not decode |
| WalRows.UintFormat | metriken-model/src/wal.rs:178-179 | an unsigned integer's first byte, length and value (MessagePack specification, "Formats": int format family) |
| WalRows.KnownRow | metriken-model/src/wal.rs:131-133 | the bytes of one row |
| ContentVersion.SnapshotTrip | metriken-core/src/traits.rs:42-52 | the bytes hashed determine the canonical snapshot |
| ContentVersion.CanonicalDecides | metriken-core/src/traits.rs:25-34 | two snapshots have one canonical form exactly when their contents are equal |
| ContentVersion.BytesDecideContents | metriken-core/src/traits.rs:20-54 | the bytes hashed are equal exactly when the contents are, in whatever order they are listed |
| ContentVersion.VersionByContent | metriken-core/src/traits.rs:24-54 | the sorts and nested folds give the hash of the canonical bytes |
| ContentVersion.VersionIgnoresOrder | metriken-core/src/traits.rs:20-23 | equal contents have one version |
| ContentVersion.KnownBytes | metriken-core/src/traits.rs:42-52 | the bytes of one snapshot |
| ContentVersion.KnownHashes | metriken-core/src/traits.rs:35-41 | the published answers of the 64-bit FNV-1a to no bytes and to one |

## Left out

- f64 rounding, NaN and summation order: values are reals; the source says last bits may differ.
- Counts the source keeps in u32 are naturals.
- StreamingRate.SeriesRate.Ingest: the fields a sample updates are grouped in one record; the object is otherwise the source's, field by field.
- Sinks are not called back: an operation returns what the source's emits to its sink, and the caller passes it on in the same order.
- GridReading.GridRates: partitions run one after another, since they share no state, and a unit's members keep read-wide indices; the layout of units over partitions is any layout, not only the one the source computes.
- GridReading.GridRates: the outputs for plain series, for groups without display and for series displayed without groups are not modelled; only the grouped display feeds early.
- GridReading.GridRates: when a series is silent is said at each chunk by `EndSilent`, not by a formula over the whole scan.
- GridReading.GridRates: conflicts are found beside it (`StageComparing`), not inside it; scalar ops are any function of a point.
- StageComparing.StageCompare.Take: one unit's members; names are their places in name order, and labels are those of the unit.
- UnionStaging.StageUnit.Settle: one unit's members; the source loops over its units.
- SeriesCombining.CombineSeries: the combination of histograms is not modelled.
- RowTracking.RowTrack.Push: rows read around the scan lie before those read after it, as the source's two reads do.
- RowTracking.RunsOf: rows at distinct times, as its callers pass them.
- RateProps.RatesAddUp: fixed spans of one step; windows of another length overlap or leave gaps.
- DisplayQuery.DocumentedKept: when the grid fits the budget, steps are whole numbers of nanoseconds; for others the exact bound is the count of buckets in DisplayQuery.BoundKept.
- SkeletonBuilding.GroupCache.Build: one group's metrics; reads of other groups only let time pass. An identity is a list of records, not a 128-bit hash of them, so collisions are left out. Values of a value-derived (`Present`) column can be bound to another member's descriptor when one member leaves as another arrives between the passes, as the source says; so only counts are claimed for it.
- SkeletonBuilding.GroupCache.Build: the registry's metrics and their kinds are fixed; names, windows and guards are not modelled, and a metric's own metadata is a constant of it.
- LongGroups.LongGroup.Build: the columns' descriptors, hash and window are not modelled; labels are compared with the store's only for a single metric of slots, since labels are taken from whichever metric walks a slot first.
- WalRows.EncodeWithSchema: counts below 2^32, maps in key order, strings as their bytes without UTF-8 checks; structs written as maps are not decoded.
- ContentVersion.VersionByContent: collisions of the hash itself are possible and not modelled.
- Arrow and parquet decoding, the buffer pool and PromQL: a scan is a sequence of chunks.
- `metriken-query/src/archive.rs`, the metric registry, Prometheus text and charts: glue and simple mappings.
