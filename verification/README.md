# Verified model of the cryptodata pipeline

This project models, in Dafny 4.11, the parts of `cryptodata` on which the trustworthiness of its bars,
files and books rests, and proves what they guarantee: for every input, every interleaving and every
reachable state of the model.

It has five parts.

1. **The consolidated tape.** `merge_trades` with its binary heap (`HeapQueue`, `MergeTrades`), the
   median/MAD outlier filter (`Stats`, `RobustFilter`), `build_agg_bars` (`ConsolidatedBars`), the streaming
   per-venue builder (`VenueBuilder`), the legacy bar combiner (`AggregateSecond`), the venue bitmask
   (`Provenance`), resampling (`Resample`), and the dataset's own checks and coverage metric (`Checks`). The
   theorems connect them: the four independent ways of making bars agree wherever they should, and the
   builders satisfy the checker, or fail it exactly as described.
2. **Writer and compactor.** The lock protocol of `PartitionedParquetWriter` for any number of threads
   (`Writer`) and the class as one thread sees it (`SequentialWriter`); `compact_partition` as single
   file-system steps with new parts arriving and a crash possible between any two of them (`Compact`); and
   point-in-time reads on top (`AsOf`).
3. **The token bucket** under interleaved acquirers (`TokenBucket`).
4. **L2 books**: the two `stream_book` state machines (`KrakenBook`, `CoinbaseBook`, over `Books`) and their
   checker and reader (`BookQuality`).
5. **`symbol_map`** as a bitemporal state machine (`SymbolMap`).

`Orders`, `Seqs`, `Grouping`, `Division` and `Gathering` hold what the parts share: total orders and sorting,
comprehensions and sums, cutting a sequence into groups by key, floor division, and multisets of rows.

Conventions. Prices, sizes and volumes are exact reals; timestamps are integers and Dafny's division by a
positive number is Python's `//`. Code that computes a value is a function; code that loops over or updates
state is a method or a class whose contract ties it to such a function; what the function means is then
proved as lemmas. A clock reading is a parameter. No lemma relies on automatic induction: every
induction is written out. `dafny verify dfyconfig.toml` checks the whole project.

Where the code does less than its documentation, or than one might expect, the model follows the code:

- `merge_trades` asks only for inputs sorted by `ts_ns` but promises the order `(ts_ns, recv_ns, venue)`. The
  output has that order if and only if every input has it (`MergeTheorems.MergeOrder`); time order alone is
  not enough (`MergeTheorems.TimeOrderIsNotEnough`).
- `check_agg_within_venue_range` says that a breach means wrong logic or inputs. A correct build on valid
  inputs can breach it, under any configuration, when the filter drops a venue's last print of a second
  (`DroppedPrint.DroppedLastPrintBreaches`; the quality record `data/meta/quality/2026-05-12.json:480-486`
  reports such a breach). It does so exactly when the second's last survivor is priced beyond the last price of
  every venue trading in the second (`VenueAgreement.RangeCheckSilentIff`).
- `compact_partition` interrupted between writing the merged file and unlinking its inputs leaves copies that
  no later run removes, because a merged file is never an input again; each interruption can add one more
  copy of every row (`Compact.RowsNeverLost`, `Compact.CopiesPersist`, `Compact.EveryInterruptionCopies`).
- `sources_mask` after resampling is described as union-like; the maximum is the union if and only if one bar
  of the window already has every venue (`ResampledRows.MaxIsUnionIff`).
- `retire_mapping` keeps the past mappings as they were, but the retired rows' `effective_to_ns` and note do
  change in past reads (`SymbolMap.RetireShowsInPast`).
- Coinbase's book is never cleared, not even by a new snapshot message, so levels from before it can be emitted
  (`CoinbaseBook.StaleLevelEmitted`); `CoinbaseBook.EmissionIsFreshIff` says exactly when none is.
- The writer's module promises that a crash loses at most the last partial batch. It can lose the partial batches
  of any number of past hours, because a buffer is looked at only when its own hour gets another row or all are
  flushed (`Writer.ManyBatchesLost`). It loses no more than one batch exactly when no more than one key has
  unwritten rows (`Writer.LosesOneBatchIff`), which an append keeps so exactly when it is of the open key or
  flushes at once (`SequentialWriter.AppendKeepsOneOpenIff`); the most it can lose is `Writer.CrashLoses`.
- `get_bars(asof=a)` promises what a query at that moment saw. Rows are stamped before their file is written, so
  a row can land after `a` and still be in every later read as of `a` (`AsOf.LateLandingShows`);
  `AsOf.ReproducesIff` says exactly when the promise holds.

## Model

| member | source | states |
|---|---|---|
| `HeapQueue.HeapPush` | cryptodata/core/consolidated.py:60-64 | pushing keeps the heap order, and the heap's entries become the old ones and the new one; entries have distinct ranks, so two trade dicts are never compared |
| `HeapQueue.HeapPop` | cryptodata/core/consolidated.py:65-66 | popping returns an entry that ranks at or below every entry, keeps the heap order, and removes just that entry |
| `MergeTrades.Refill` | cryptodata/core/consolidated.py:68-70 | the next trade of the popped source, if there is one, becomes that source's only heap entry |
| `MergeTrades.MergeTrades` | cryptodata/core/consolidated.py:46-71 | the heap-driven loops compute the merge that always takes the least head of all sources |
| `MergeTheorems.ProjectionIsSource` | cryptodata/core/consolidated.py:46-71 | the output restricted to one input list is that list, in order |
| `MergeTheorems.VenueRestriction` | cryptodata/core/consolidated.py:46-71 | when each trade carries its dict key as its venue, selecting a venue's trades from the output gives back its list |
| `MergeTheorems.MergeConserves` | cryptodata/core/consolidated.py:46-71 | nothing is lost, invented or duplicated |
| `MergeTheorems.MergeOrder` | cryptodata/core/consolidated.py:46-54 | the output is sorted by time iff every input is, and by (time, receive time, venue) iff every input is |
| `MergeTheorems.MergedInOrder` | cryptodata/core/consolidated.py:53-58 | from feeds in that order, of any two trades of the stream the earlier one has the smaller `ts_ns`, or else the smaller `recv_ns` (`ts_ns` if missing), or else the venue (empty if missing) that comes first character by character |
| `MergeTheorems.EarlierHeadFirst` | cryptodata/core/consolidated.py:60-70 | of two heads, the one with the smaller time, or else received first, or else of the venue that sorts first, or else listed first in the dict, is emitted before anything of the other's source |
| `MergeTheorems.TimeOrderIsNotEnough` | cryptodata/core/consolidated.py:47-54 | inputs sorted by time alone, as documented, can give an output out of the documented key order |
| `MergeTheorems.DictOrderIrrelevant` | cryptodata/core/consolidated.py:53-59 | the output does not depend on the iteration order of the dict |
| `Stats.SortSorts` | cryptodata/core/consolidated.py:79-84 | sorting gives an ascending rearrangement |
| `Stats.MedianIsMiddle` | cryptodata/core/consolidated.py:79-84 | the median is the middle of the ascending values, of an even number the mean of the middle two |
| `Stats.MedianPermutation` | cryptodata/core/consolidated.py:79-84 | the median depends only on the multiset of values |
| `Stats.MajorityHoldsMedian` | cryptodata/core/consolidated.py:79 | a strict majority of values in an interval holds the median there, whatever the rest are |
| `Stats.HalfBelowMedian` | cryptodata/core/consolidated.py:84 | at least half of the values, rounded up, are at or below the median |
| `RobustFilter.UntouchedIff` | cryptodata/core/consolidated.py:80-92 | a second is left as it is if and only if fewer venues than the minimum trade in it or no price is farther from the median than the threshold |
| `RobustFilter.SurvivorsAre` | cryptodata/core/consolidated.py:74-92 | with at least `min_venues` distinct venues the survivors are, in order, exactly the trades within `mad_k * 1.4826 * MAD` of the median, or, when the MAD is zero, within a thousandth of it or 1e-12; with fewer all survive; the MAD is the median distance from the median |
| `RobustFilter.HalfSurvives` | cryptodata/core/consolidated.py:83-92 | with `mad_k * 1.4826 >= 1` at least half of a second's trades, rounded up, survive |
| `RobustFilter.CoverageIff` | cryptodata/core/consolidated.py:83-92 | the filter never empties a nonempty second if and only if `mad_k * 1.4826 >= 1`, for every venue minimum |
| `RobustFilter.NarrowBandEmpties` | cryptodata/core/consolidated.py:83-92 | for a smaller `mad_k` there is a second with enough venues of which no trade survives |
| `RobustFilter.MajorityHoldsBoth` | cryptodata/core/consolidated.py:78-84 | a strict majority of prices in [lo, hi] holds the median in it and the MAD at or below its width |
| `RobustFilter.Breakdown` | cryptodata/core/consolidated.py:74-92 | when the filter engages, every survivor's price is within `mad_k * 1.4826` widths of the majority's interval, or, at zero MAD, within the relative guard of a median inside it, whatever the minority prints are |
| `RobustFilter.OrderIrrelevant` | cryptodata/core/consolidated.py:74-92 | which trades survive, and the reported median, do not depend on arrival order |
| `ConsolidatedBars.BucketTrades` | cryptodata/core/consolidated.py:126-143 | the first loop leaves exactly the admitted trades, in order, in the bucket of their second, and the set of their venues |
| `ConsolidatedBars.AdmitsIff` | cryptodata/core/consolidated.py:130-140 | a trade counts exactly when its venue is not excluded, its size is positive, and it arrives no later than the budget of milliseconds, if one other than zero is given, cut to whole nanoseconds |
| `ConsolidatedBars.SourcesMask` | cryptodata/core/consolidated.py:163-166 | the mask loop ORs the bits of the surviving venues, unknown venues contributing nothing |
| `ConsolidatedBars.RollSecond` | cryptodata/core/consolidated.py:151-184 | one pass of the second loop: the bar of the survivors, or none, and the diagnostics |
| `ConsolidatedBars.BuildAggBars` | cryptodata/core/consolidated.py:95-188 | the builder's bars and diagnostics are those of the seconds in increasing order, each filtered and rolled up on its own |
| `TapeTheorems.BarOrigin` | cryptodata/core/consolidated.py:148-180 | every bar of the tape is the roll-up of the surviving admitted trades of its second |
| `TapeTheorems.TapeBarIs` | cryptodata/core/consolidated.py:158-180 | a bar column by column: whole second, first and last survivor's price, bounds, total size, their weighted mean, their number, "agg", the symbol and the build's clock reading |
| `TapeTheorems.DiagsAre` | cryptodata/core/consolidated.py:152-184 | one diagnostic per second with an admitted trade: how many there were, how many survived, how many were dropped, and their median price |
| `TapeTheorems.BarExists` | cryptodata/core/consolidated.py:148-180 | every second with a survivor has its bar |
| `TapeTheorems.TapeIncreases` | cryptodata/core/consolidated.py:150 | the tape's seconds strictly increase, whatever the order of the input |
| `TapeTheorems.BarBreakdown` | cryptodata/core/consolidated.py:148-180 | under a strict majority in [lo, hi] the bar's open, high, low, close and vwap all obey the survivors' bound |
| `TapeTheorems.EverySecondCovered` | cryptodata/core/consolidated.py:150-157 | with `mad_k * 1.4826 >= 1` the tape has exactly one bar per second with an admitted trade: the empty-second branch is unreachable |
| `TapeTheorems.MaskTellsVenues` | cryptodata/core/consolidated.py:145-178 | with the builder's own index, or a given one that covers every admitted venue, decoding a bar's mask gives exactly the venues with a surviving trade in its second |
| `TapeTheorems.TapePassesChecks` | cryptodata/quality/checks.py:58-107 | a tape of positively priced trades in any order raises no OHLC and no timestamp issue |
| `TapeTheorems.VenueBarsPassPriceCheck` | cryptodata/core/aggregate.py:119-158 | a venue's bars of positive prices and non-negative sizes raise no OHLC issue |
| `TapeTheorems.VenueBarsPassTimestampCheckIff` | cryptodata/core/aggregate.py:108-110 | they raise no timestamp issue if and only if the trades' seconds never go back |
| `TapeTheorems.BucketingRefinesStreaming` | cryptodata/core/consolidated.py:126-180 | on one venue's stream in time order, with nothing to exclude and a venue minimum of two or more, the bucketing builder gives the streaming builder's bars but for venue, mask and stamp |
| `VenueBuilder.BarsFromTrades` | cryptodata/core/aggregate.py:100-158 | the loop over `current`, `cum_pxv` and `cum_v` emits one bar per stretch of consecutive trades of one second, each the roll-up of its stretch |
| `VenueBuilder.OneBarPerSecond` | cryptodata/core/aggregate.py:106-111 | on trades in time order there is one bar per second traded, seconds increasing, each the roll-up of all trades of its second |
| `VenueBuilder.VenueBarIs` | cryptodata/core/aggregate.py:119-158 | a venue's bar column by column, from the stretch of trades it was made of |
| `Tape.RollWithin` | cryptodata/core/consolidated.py:161-176 | open, high, low, close and vwap of a bar lie wherever all its trades' prices lie, ordered low to high |
| `Tape.BarColumns` | cryptodata/core/consolidated.py:158-176 | first and last price, the extremes reached, the total of sizes, and the mean price weighted by size, or the last price without size |
| `Tape.SecondIs` | cryptodata/core/consolidated.py:141 | a trade's second starts at a multiple of 1,000,000,000 ns at or before it, less than that earlier |
| `Tape.VwapCarries` | cryptodata/core/aggregate.py:123-124 | vwap times volume is the turnover, also when nothing has size |
| `Grouping.SortedBucketsAreRuns` | cryptodata/core/consolidated.py:141-150 | bucketing by key and cutting where the key changes agree on every stream whose keys never decrease |
| `Grouping.BucketsAreRunsOnlyIfSorted` | cryptodata/core/aggregate.py:131-132 | the streaming cut has increasing keys only on such streams |
| `Grouping.RunsOfRuns` | cryptodata/core/resample.py:43-44 | cutting by a fine key, then the pieces by a coarser key, then joining, is cutting by the coarse key |
| `AggregateSecond.AggregateSecond` | cryptodata/core/aggregate.py:28-97 | for a band of one MAD or more there is a combined bar exactly when some bar has volume and is not excluded; from three such bars on, wherever a strict majority of their closes lies, the combined close is confined around it |
| `AggregateSecond.KeptAre` | cryptodata/core/aggregate.py:54-65 | from three bars on the kept ones are, in order, exactly those whose close is within `outlier_sigma * 1.4826 * MAD` of the median close, or, when the MAD is zero, within a thousandth of it or 1e-12; of fewer all are kept |
| `AggregateSecond.CombinedColumns` | cryptodata/core/aggregate.py:69-97 | open, close and vwap of the combined bar times its volume are the sums of the kept bars' times theirs; high and low are reached and bound all; labels are the first kept bar's |
| `AggregateSecond.BlendsEverySecondIff` | cryptodata/core/aggregate.py:51-66 | the combiner never drops a second that has an eligible bar if and only if `outlier_sigma * 1.4826 >= 1` |
| `AggregateSecond.HalfKept` | cryptodata/core/aggregate.py:54-62 | then at least half of the bars, rounded up, are kept |
| `AggregateSecond.KeptConfined` | cryptodata/core/aggregate.py:54-62 | from three bars on, with a strict majority of closes in [lo, hi], every kept close is within `outlier_sigma * 1.4826` widths of it, or, at zero MAD, within the relative guard of a median inside it |
| `AggregateSecond.CloseBreakdown` | cryptodata/core/aggregate.py:54-73 | and so is the volume-weighted close of the combined bar, whatever the minority of venues report |
| `AggregateSecond.BlendBars` | cryptodata/core/aggregate.py:69-97 | the mask and trade-count loops over the kept bars |
| `CrossVenue.VenueBarAt` | cryptodata/core/aggregate.py:100-158 | a venue in time order has at most one bar in a second: the roll-up of its trades there |
| `CrossVenue.MergedSecondConserves` | cryptodata/core/consolidated.py:46-71 | a second of the merged stream is a rearrangement of the venues' trades of that second |
| `CrossVenue.Homomorphism` | cryptodata/core/consolidated.py:158-180 | where nothing is excluded or dropped, the consolidated high, low, volume, trade count and vwap are the maximum, minimum, sum, sum and volume-weighted mean of the venues' own bars |
| `VenueAgreement.LegacyAgreement` | cryptodata/core/aggregate.py:28-97 | where neither builder drops anything, tape and legacy combiner agree on time, symbol, venue, high, low, volume, vwap, trades and mask |
| `VenueAgreement.TwoVenuesClean` | cryptodata/core/consolidated.py:80-82 | a second of at most two venues loses nothing to the filter |
| `VenueAgreement.TwoVenueAgreement` | cryptodata/core/aggregate.py:54-65 | so in every second of at most two venues the two agree, whatever the thresholds |
| `VenueAgreement.LastPrintIsVenues` | cryptodata/core/consolidated.py:174 | the last print of a merged second is the last print of its venue in that second |
| `VenueAgreement.CloseIsVenueCloseIff` | cryptodata/core/consolidated.py:174 | the consolidated close is the close of a venue's bar of the second if and only if the last survivor trades at some venue's last price there |
| `VenueAgreement.CloseIsVenueClose` | cryptodata/core/consolidated.py:174 | it is, and lies within the venues' range, in particular when the last survivor is its own venue's last print |
| `VenueAgreement.CleanKeepsLast` | cryptodata/core/consolidated.py:174 | as it always is in a second where nothing is excluded or dropped |
| `VenueAgreement.OutsideRangeIff` | cryptodata/quality/checks.py:241-267 | a bar is reported if and only if its close is beyond the last price of every venue trading in its second by more than the slack, all to the same side |
| `VenueAgreement.RangeCheckSilentIff` | cryptodata/quality/checks.py:241-267 | the range check is silent on a tape if and only if there are fewer than two venues or no second's last survivor is beyond the last price of every venue trading in it |
| `VenueAgreement.RangeCheckSilent` | cryptodata/quality/checks.py:241-267 | a tape on which every second loses nothing, or has a last survivor at a venue's last price, raises no range issue |
| `VenueAgreement.CoverageIsFull` | cryptodata/quality/report.py:129-146 | with every trade admitted and `mad_k * 1.4826 >= 1` the tape scores exactly 100 per cent of the venues' seconds |
| `DroppedPrint.DroppedLastPrintBreaches` | cryptodata/quality/checks.py:241-267 | whatever the thresholds, the excluded venues and the lag budget, some proper input with every trade admitted makes the range check report a breach |
| `Checks.OhlcSilentIff` | cryptodata/quality/checks.py:58-85 | the OHLC check is silent exactly on frames all of whose bars are sound |
| `Checks.OhlcReports` | cryptodata/quality/checks.py:58-85 | each defect is reported exactly when some row has it, with the number of rows and its severity, at slacks of 1e-9 and 1e-6 |
| `Checks.TimestampSilentIff` | cryptodata/quality/checks.py:88-107 | the timestamp check is silent exactly on strictly increasing whole seconds |
| `Checks.TimestampReports` | cryptodata/quality/checks.py:88-107 | so are steps back, repeated times, and times off the whole second |
| `Checks.CheckAggWithinVenueRange` | cryptodata/quality/checks.py:241-267 | folding `lo` and `hi` over the frames counts exactly the bars whose close is outside the least and greatest venue close of their second |
| `Checks.AggCoverageOfUnion` | cryptodata/quality/report.py:129-146 | the loop computes the share of the union of the venues' seconds that the tape has, rounded, and the size of the union |
| `Checks.CoverageIs` | cryptodata/quality/report.py:138-146 | the score is the tape's share of the venues' seconds in per cent to the nearest hundredth, and none without any |
| `Provenance.IndexDependsOnSet` | cryptodata/core/symbols.py:78-80 | the venue index depends only on the set of venues, not on order or repetition |
| `Provenance.BitNumber` | cryptodata/core/symbols.py:78-80 | a venue's entry is one shifted by the number of venues that come before it character by character |
| `Provenance.MaskOfOneMore` | cryptodata/core/consolidated.py:165-166 | a venue the index knows adds its entry to the mask, one it does not know adds nothing |
| `Provenance.DecodeEncode` | cryptodata/core/symbols.py:78-80 | decoding a mask gives back exactly the venues encoded |
| `Provenance.MaskDependsOnSet` | cryptodata/core/consolidated.py:163-166 | a mask depends only on the set of venues encoded |
| `Provenance.FitsInt32` | cryptodata/core/symbols.py:78-80 | all masks over an index fit a signed 32-bit column if and only if it has at most 31 venues |
| `Resample.WindowOfWindow` | cryptodata/core/resample.py:41-43 | the coarse window of a fine window's left edge is the coarse window of the timestamp |
| `Resample.WindowIs` | cryptodata/core/resample.py:41-43 | windows start at multiples of their length, contain their left edge and not their right |
| `ResampleTheorems.RowCarries` | cryptodata/core/resample.py:38-46 | a row's vwap times volume is the turnover of its bars, also at zero volume |
| `ResampleTheorems.JoinRows` | cryptodata/core/resample.py:38-53 | aggregating the rows of fine windows gives the row of all their bars, on every column |
| `ResampleTheorems.ResamplingComposes` | cryptodata/core/resample.py:26-53 | resampling to T1 and then to a multiple T2 is resampling to T2, on every column, for frames in time order with non-negative volumes |
| `ResampleTheorems.ResamplingIsDirect` | cryptodata/core/resample.py:26-53 | resampling a venue's one-second bars gives the bars its trades would give directly for the longer window, on every column |
| `ResampledRows.RowOrigin` | cryptodata/core/resample.py:43-47 | every resampled row aggregates exactly the bars of its window |
| `ResampledRows.ResampledVenuesContribute` | cryptodata/core/resample.py:21 | every venue decoded from a resampled tape mask has a surviving trade in the window |
| `ResampledRows.MaxIsUnionIff` | cryptodata/core/resample.py:21 | the maximum mask is the union if and only if one bar of the window has all its venues |
| `ResampledRows.MaxLosesVenue` | cryptodata/core/resample.py:21 | for masks 1 and 2 it is not |
| `ResampledRows.LatestStamp` | cryptodata/core/resample.py:22 | a row's write stamp is null only if all its bars' are, and otherwise the latest of theirs |
| `ResampledRows.StampsStayVisible` | cryptodata/core/resample.py:22 | no resampled row is stamped after a cutoff if and only if no bar was |
| `ResampledRows.ResampledPermutation` | cryptodata/core/resample.py:11-23 | the windows and the columns high, low, volume, trades, mask, stamp and, where there is volume, vwap do not depend on the order in which rows are listed |
| `TokenBucket.Bucket.PerMinute` | cryptodata/core/ratelimit.py:20-24 | the rate, the capacity with or without a burst, and a full bucket |
| `TokenBucket.Bucket.Try` | cryptodata/core/ratelimit.py:27-36 | one pass of the loop updates tokens and time and grants, sleeps, or fails dividing by a zero rate |
| `TokenBucket.Bucket.Acquire` | cryptodata/core/ratelimit.py:26-36 | the loop of one acquirer, for any attempts of others during its sleeps and any delays beyond them |
| `TokenBucket.AcquiringIsRun` | cryptodata/core/ratelimit.py:26-36 | its attempts and the others' are a run of single attempts whose last is its own and decides, so what holds of every run holds here |
| `TokenBucket.LevelStaysInRange` | cryptodata/core/ratelimit.py:28-34 | in every run of interleaved acquirers over a monotone clock the level stays between zero and the capacity |
| `TokenBucket.WindowBound` | cryptodata/core/ratelimit.py:26-36 | in every run and every window [s, s + w] the amount granted is at most capacity + w * rate |
| `TokenBucket.WindowBoundTightIff` | cryptodata/core/ratelimit.py:26-36 | the bound is reached by some run, for windows of every length, if and only if the bucket can hold something or the window earns nothing |
| `TokenBucket.TokensAddUp` | cryptodata/core/ratelimit.py:29-34 | tokens left, granted and lost to the cap add up to tokens at the start and earned, for any rate, clock and amounts |
| `TokenBucket.LoneAcquireSleepsOnce` | cryptodata/core/ratelimit.py:32-36 | within the capacity an acquirer left alone during its first sleep is served after at most that one full sleep |
| `TokenBucket.StarvesIff` | cryptodata/core/ratelimit.py:26-36 | others can keep an acquirer from being served through any number of sleeps if and only if it is not served at once: the limiter is not fair |
| `TokenBucket.OversizedNeverGranted` | cryptodata/core/ratelimit.py:30-34 | beyond the capacity nobody is served, in any state |
| `TokenBucket.OversizedSleepsForever` | cryptodata/core/ratelimit.py:26-36 | such an acquirer keeps sleeping, however often it wakes and whatever others do |
| `Writer.RowsConserved` | cryptodata/storage/parquet.py:65-124 | in every run of any number of threads, accepted rows are, as multisets, the buffered, in-flight and on-disk rows |
| `Writer.HourDeterminesDate` | cryptodata/storage/parquet.py:32-40 | rows of one hour bucket share their date |
| `Writer.PathDeterminesKey` | cryptodata/storage/parquet.py:112-117 | two buffers of different keys are never written to the same path |
| `Writer.FilesPartitioned` | cryptodata/storage/parquet.py:96-124 | in every run every part file holds rows of one table, symbol, venue and hour, all in the date of its directory |
| `Writer.FlushAllFlushesAll` | cryptodata/storage/parquet.py:88-92 | when a flush_all returns and nothing was appended meanwhile, no row is buffered, whatever other threads flushed; once all are idle every accepted row is on disk, once |
| `Writer.BuffersBounded` | cryptodata/storage/parquet.py:71-82 | in every run a buffer holds at most `batch_rows - 1` rows plus one for each thread yet to flush its key |
| `Writer.AppendStepFlushesIff` | cryptodata/storage/parquet.py:71-82 | after an append the thread has the row's key to flush exactly when its buffer holds `batch_rows` rows or was opened at least `batch_seconds` seconds before the clock reading |
| `Writer.QuietBuffersShort` | cryptodata/storage/parquet.py:71-82 | whenever no thread is busy every buffer is short of a batch |
| `Writer.EveryRun` | cryptodata/storage/parquet.py:50-124 | all of these, for every run of any number of threads from an empty writer |
| `Writer.CrashLoses` | cryptodata/storage/parquet.py:5-6 | a crash at any moment of any run loses the buffered and in-flight rows and no others: at most `batch_rows - 1` rows and one per thread for each buffer and each thread, and less than a batch per buffer when all threads are idle |
| `Writer.LosesOneBatchIff` | cryptodata/storage/parquet.py:5-6 | at any moment of any run a crash loses rows of one partition and hour only if and only if at most one key has unwritten rows; with all threads idle, if and only if at most one buffer is open |
| `Writer.OneBatchIsPartial` | cryptodata/storage/parquet.py:5-6 | and then, with all threads idle, it loses fewer rows than make a batch |
| `Writer.ManyBatchesLost` | cryptodata/storage/parquet.py:5-6 | otherwise the promise that a crash loses no more than the last partial batch fails: for every n some run leaves one venue with n open buffers of n hours, a row in each, all idle and nothing on disk |
| `SequentialWriter.AppendKeepsOneOpenIff` | cryptodata/storage/parquet.py:65-82 | with at most one buffer open, an append keeps it so if and only if no other key is open or the row fills its own buffer at once |
| `SequentialWriter.AppendsKeepOneOpenIff` | cryptodata/storage/parquet.py:84-86 | over a whole stream of rows at most one buffer is ever open if and only if every append does |
| `SequentialWriter.PartitionedParquetWriter.constructor` | cryptodata/storage/parquet.py:57-61 | an empty writer satisfies the machine's invariants |
| `SequentialWriter.PartitionedParquetWriter.FlushKey` | cryptodata/storage/parquet.py:96-124 | the key's rows, if any, move from the buffer to one new part file; nothing else changes |
| `SequentialWriter.PartitionedParquetWriter.Append` | cryptodata/storage/parquet.py:65-82 | the row joins its buffer; if that then holds `batch_rows` rows, or was opened at least `batch_seconds` seconds ago, and only then, the buffer goes and its rows are one new file in the directory of the first row's date; the invariants hold and every buffer is short of a batch |
| `SequentialWriter.PartitionedParquetWriter.AddRow` | cryptodata/storage/parquet.py:71-80 | the part under the lock: the row joins the buffer of its key, opened if need be, and the answer is whether it holds `batch_rows` rows or is `batch_seconds` seconds old |
| `SequentialWriter.PartitionedParquetWriter.AppendMany` | cryptodata/storage/parquet.py:84-86 | the rows are appended one after the other, for a clock that moves on between part names |
| `SequentialWriter.PartitionedParquetWriter.FlushAll` | cryptodata/storage/parquet.py:88-92 | all buffers are gone and the accepted rows are exactly those on disk |
| `SequentialWriter.AppendIsRun` | cryptodata/storage/parquet.py:65-82 | `append` is a run of the thread machine: an append step and, if due, pop and write |
| `SequentialWriter.FlushesAreRun` | cryptodata/storage/parquet.py:91-92 | flushing a list of keys is a run of the thread machine |
| `Compact.RunKeeps` | cryptodata/storage/compact.py:15-42 | in every run with crashes and new parts, what is stored is exactly what was written, plus the copies of interrupted runs, plus what the current run has copied and not yet unlinked |
| `Compact.RowsNeverLost` | cryptodata/storage/compact.py:15-42 | at every step each row is there at least as often as written and at most once more per interrupted run and for the run under way: between once and twice if none was interrupted |
| `Compact.ExactIff` | cryptodata/storage/compact.py:39-42 | between runs the directory holds exactly the rows written if and only if no run was interrupted with rows still to unlink |
| `Compact.CopiesPersist` | cryptodata/storage/compact.py:21-23 | whatever runs follow, the directory holds all rows written plus every copy left so far, and each file that is not a part, merged ones among them, stays as it is |
| `Compact.EveryInterruptionCopies` | cryptodata/storage/compact.py:21-40 | from any idle directory with two or more parts that hold rows, k interrupted runs can add k copies of every row in the parts |
| `Compact.WholeRun` | cryptodata/storage/compact.py:15-42 | a run nobody interrupts replaces the parts by one file of their rows |
| `Compact.IsPartIff` | cryptodata/storage/compact.py:21 | the inputs are the files named `part-`, anything, `.parquet` |
| `Compact.MergedFileIs` | cryptodata/storage/compact.py:21-40 | the merged file holds their rows, file after file in the order of their names, and only it and the other files are left |
| `Compact.CompactedConserves` | cryptodata/storage/compact.py:27-40 | which keeps the multiset of rows |
| `Compact.SecondRunIdle` | cryptodata/storage/compact.py:21-23 | a second run at once changes nothing |
| `Compact.PartitionDir.CompactPartition` | cryptodata/storage/compact.py:15-42 | the method leaves that directory, returns the number of files merged, or zero and no change for fewer than two, and keeps the rows |
| `AsOf.ReadStableIff` | cryptodata/query/bars.py:59-74 | over any history of appends and compactions, interrupted ones included, in any order of listing, a read returns the same rows equally often if and only if no selected row was appended and no interrupted run left a copy of one; with none interrupted, if and only if none was appended |
| `AsOf.AnswerIs` | cryptodata/query/bars.py:59-74 | a listed row is in the answer, as often as listed, exactly when it is of the symbol and one of the venues, at or after the start and before the end, and there is no cutoff or it is unstamped or stamped by the cutoff |
| `AsOf.RangesJoin` | cryptodata/query/bars.py:66-68 | reading [a, b) and [b, c) gives together what reading [a, c) gives |
| `AsOf.PastReadsFinal` | cryptodata/query/bars.py:60-62 | once all writes stamped at or before `a` have landed, the answer to a read as of `a` stays the same if and only if no interrupted run leaves a copy of a selected row |
| `AsOf.ReproducesIff` | cryptodata/query/bars.py:48-52 | a later read as of `a` returns what a query without a cutoff returned at some moment if and only if nothing that query could see is stamped after `a`, no selected row stamped at or before `a`, or unstamped, landed afterwards, and no interrupted run left a copy of one |
| `AsOf.LateLandingShows` | cryptodata/core/consolidated.py:124 | for any table: a row stamped at or before `a` whose file lands after a query was answered is in every later read as of `a`, once more at least than in that query's answer |
| `AsOf.PastFramesFinal` | cryptodata/query/bars.py:85-91 | and so is the resampled frame made of it: on every column that does not depend on the order of rows of one second, in whatever order they are listed, and on all columns if rows of one second are copies of each other |
| `AsOf.CutoffMonotone` | cryptodata/query/bars.py:60-62 | a later cutoff sees everything an earlier one does, and no cutoff sees everything |
| `AsOf.ReadsAreExactUpToCopies` | cryptodata/query/bars.py:64-76 | also in the middle of a compaction and after crashes a read returns exactly the selected rows written, at least as often as written |
| `AsOf.ResampledReadVisible` | cryptodata/query/bars.py:85-88 | no resampled row of a read as of `a` is stamped after `a` |
| `Books.ReplayIsLastWrite` | cryptodata/sources/kraken.py:143-151 | the incrementally kept side holds at each price the size last written, unless that was zero |
| `Books.BestAreBest` | cryptodata/sources/kraken.py:155-156 | sorting and slicing gives the best levels: the right number, in strict order, none better left out |
| `Books.SameReplayIff` | cryptodata/sources/coinbase.py:129-136 | forgetting an earlier part of the log changes nothing if and only if the later part writes every price the earlier left live |
| `KrakenBook.Stream.OnEntry` | cryptodata/sources/kraken.py:132-165 | one element of a frame: clear on snapshot, apply bids then asks, emit if five seconds have passed for the pair |
| `KrakenBook.Stream.OnFrame` | cryptodata/sources/kraken.py:130-165 | a frame's elements one after the other |
| `KrakenBook.EmissionIsReplay` | cryptodata/sources/kraken.py:132-165 | every snapshot emitted in any run holds exactly the best levels of what was last written since the pair's last snapshot frame |
| `KrakenBook.EmissionsSpaced` | cryptodata/sources/kraken.py:152-154 | two emissions for a pair are at least five seconds apart, even if the clock is stepped back |
| `KrakenBook.EmitsWhenDue` | cryptodata/sources/kraken.py:152-165 | in every run an event emits one snapshot exactly when its pair is known and it is received at least 5,000,000,000 ns after every earlier event that emitted for the pair, and after zero; otherwise none |
| `CoinbaseBook.Stream.OnEvent` | cryptodata/sources/coinbase.py:125-153 | one event: apply its updates, set the throttle, emit if the product has a canonical symbol |
| `CoinbaseBook.Stream.Run` | cryptodata/sources/coinbase.py:115-153 | all events of a connection one after the other |
| `CoinbaseBook.SidesIndependent` | cryptodata/sources/coinbase.py:129-136 | interleaved updates act on the two sides independently |
| `CoinbaseBook.EmissionIsReplay` | cryptodata/sources/coinbase.py:125-153 | every snapshot emitted in any run holds exactly the best levels of what was last written since the stream began |
| `CoinbaseBook.BookIsFreshIff` | cryptodata/sources/coinbase.py:125-153 | the book is the one the product's last snapshot message started if and only if every price live from before has been written since |
| `CoinbaseBook.EmissionIsFreshIff` | cryptodata/sources/coinbase.py:125-153 | an emission is what a book cleared by that message would show if and only if no level in it was last written before it |
| `CoinbaseBook.StaleLevelEmitted` | cryptodata/sources/coinbase.py:125-153 | for every mapped product an emission on a snapshot message can show at its top a bid which that message does not contain |
| `CoinbaseBook.EmissionsSpaced` | cryptodata/sources/coinbase.py:137-139 | two emissions for a product are at least five seconds apart |
| `CoinbaseBook.EmitsWhenDue` | cryptodata/sources/coinbase.py:137-153 | in every run an event of a subscribed product passes the throttle exactly when it is received at least 5,000,000,000 ns after every earlier event of the product that passed, and after zero, and emits one snapshot exactly when it passes and the product has a canonical symbol |
| `CoinbaseBook.MappedEmitsWhenDue` | cryptodata/sources/coinbase.py:137-153 | so for a product with a canonical symbol the earlier emissions alone decide |
| `BookQuality.BookQuality` | cryptodata/query/books.py:90-117 | the counters equal the number of snapshots with each defect |
| `BookQuality.CountedAre` | cryptodata/query/books.py:101-117 | what a snapshot counts as: an empty side and nothing else; or else best bid at or above best ask, a bid above an earlier one, an ask below an earlier one, a level with no positive price or a negative size, a price twice on a side |
| `BookQuality.KrakenPassesQuality` | cryptodata/query/books.py:101-117 | for valid frames only empty sides and crossed tops can be counted |
| `BookQuality.CoinbasePassesQuality` | cryptodata/query/books.py:101-117 | the same for Coinbase |
| `BookQuality.BookTop` | cryptodata/query/books.py:68-87 | the reader gives one row per two-sided snapshot, in order |
| `BookQuality.TopIs` | cryptodata/query/books.py:77-81 | the row holds both best levels, the price halfway between, the spread in basis points of it, and the bid's surplus of size as a share of both |
| `BookQuality.TopIsBestOfLog` | cryptodata/query/books.py:77-78 | its bid is the greatest live bid of the log and its ask the least live ask, with the sizes last written |
| `BookQuality.TopMatchesQuality` | cryptodata/query/books.py:79-81 | its spread is non-positive exactly for snapshots the checker counts as crossed; its imbalance is strictly between -1 and 1 |
| `SymbolMap.SymbolTable.SeedSymbolMap` | cryptodata/core/corrections.py:112-137 | seeding inserts the configured pairs whose key is new, at time zero by default, and returns the number of rows |
| `SymbolMap.SeededRow` | cryptodata/core/corrections.py:119-136 | an inserted row is open, carries the columns configured for its pair and the seed's note |
| `SymbolMap.SymbolTable.RetireMapping` | cryptodata/core/corrections.py:140-147 | no row comes or goes; a row changes if and only if it is an open row of the pair, and then only in its end time and, if one is given, its note |
| `SymbolMap.SeedChangesIff` | cryptodata/core/corrections.py:130-135 | a seed changes the mappings at `a` if and only if it inserts a row effective by then |
| `SymbolMap.RetireChangesIff` | cryptodata/core/corrections.py:143-147 | a retirement changes the mappings at `a` if and only if it cuts off an open row visible at `a` |
| `SymbolMap.HistoryImmutable` | cryptodata/core/corrections.py:155-163 | operations effective at T or later leave the mappings of every earlier moment as they were |
| `SymbolMap.RetireShowsInPast` | cryptodata/core/corrections.py:144 | the rows of earlier moments stay the same rows, and change, in end time and note, if and only if one of them is closed |
| `SymbolMap.SeedNoOpIff` | cryptodata/core/corrections.py:115-117 | a seed changes nothing if and only if all its keys are there |
| `SymbolMap.ReseedIsNoOp` | cryptodata/core/corrections.py:115-117 | seeding again at the same effective time changes nothing, whatever happened in between: it does not revive what was retired |
| `SymbolMap.AbsentIff` | cryptodata/core/corrections.py:155-163 | after retiring at `to`, the pair is absent at `a >= to` if and only if no row closed before still covers `a` |
| `SymbolMap.EarlierCutoffLeavesPairVisible` | cryptodata/core/corrections.py:140-147 | such a row can exist |
| `SymbolMap.RetiredUntilReseeded` | cryptodata/core/corrections.py:117-118 | with no earlier cutoff beyond `to`, a pair retired at `to` stays absent from `to` on until it is re-seeded |

## Left out

- Floating-point rounding: prices, sizes, tokens and clock readings in seconds are exact reals, so summation
  order and the last digits of a mean are not modelled; the slacks of the checks are kept as they are.
- NaN and infinite prices or sizes, and trades without a price.
- The `venues` list in the builder's diagnostics and its `symbol` column; all other columns are modelled.
- `heapq` is Python's; its push and pop are modelled as the library documents its algorithm, on a sequence.
- pandas: windows that do not divide a day, the weekly rule, anchoring, re-sorting of unsorted frames and
  empty windows; a frame is a sequence of rows in time order, as the query delivers it.
- `get_bars` beyond its row filter and per-venue resampling: filling, time-zone conversion, column selection,
  and the order of rows that tie on venue and time.
- Parquet encoding, schemas and casts, DuckDB and its views: a table is a multiset of rows, a directory a map
  from file names to rows.
- Part-file names are assumed unique and writes assumed to succeed and to be atomic; both are preconditions of
  the steps that create a file. A crash inside a single file write is not modelled.
- Only one compaction of a directory is under way at a time, and a part name, once used, is not used again
  while a compaction lists it.
- `compact_all`, which visits directories one by one.
- The venue adapters other than the two book state machines, JSON parsing, reconnects and subscription depths;
  an update's side is one of the two that Coinbase documents.
- `asset_class`, `base` and `quote` are taken from the configuration entry rather than cut from the symbol's
  name, and the correction record that `retire_mapping` also writes is not modelled.
- `_completeness`, gap, flatline, dispersion and quote checks, the score and its grades, `clean_pct`, health
  tracking, metrics, scripts and notebooks.
- AsOf.PastFramesFinal: promises open, close and the vwap of a window without volume only where rows of one
  second are copies of each other; otherwise they depend on the order in which the database lists such rows.
- Writer.RowsConserved: `time.time_ns` as a source of part names is abstracted to a name that is free.
