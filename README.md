# Stock chart data pipeline, in Dafny

A model of the data pipeline inside `StockChartApp` (`chart-app/app_stock_chart.py`), a
Tkinter/matplotlib stock chart. The modelled part covers:

- which bar interval and regrouping rule each time window asks for, and when a window change
  downloads again;
- the download worker's `csv` cache: the weekend snap, the cache file name, the one-minute
  bypass, store-and-prune, the seven-day start-up sweep, and the message the worker posts;
- how the queue's messages replace the loaded data;
- the trading-day regrouping of 2 or 3 bars by position, with its routing and fallback;
- the window filter and the 1D session grid of 391 one-minute slots;
- the simple moving averages;
- the volume profile's bins;
- the crosshair's index, date label and volume readout.

A price series (a DataFrame) is a `seq<Bar>`. A bar has an integer timestamp, `real` open,
high, low, close and volume, an optional `periodStart`, and its moving-average columns.
Timestamps are seconds since 0001-01-01 00:00 on the exchange's local clock. Days are
proleptic Gregorian ordinals, with day 1 = 0001-01-01, a Monday.

The app object is the class `App.ChartApp`. It has the widget variables, the raw and
regrouped bars, the interval and rule of the data, the metadata of the last download, and
the chart and profile on screen. The `csv` directory is the class `App.CacheDir`, a map
from file name to contents and modification time. The worker's queue is the class
`App.MessageQueue`. Everything pure is a function: the policies, the regrouping, the
filter, the grid, the averages, the profile, the label and the worker's decisions.
The methods are proved against those functions.

Modules, in dependency order:

- `Wrappers` (Option, Result)
- `Calendar` (ordinals, weekdays, `DateOffset` month shifts)
- `Text` (`int()`, `strftime`, `split`, `upper`, `strip`)
- `Bars`
- `Resampling`
- `WindowPolicy`
- `Indicators`
- `Display`
- `VolumeProfile`
- `DataCache`
- `Cursor`
- `App`

The clock, the data provider, the metadata service and pandas' calendar `resample` are
parameters.

## Model

| member | source | states |
|---|---|---|
| Calendar.DaysInMonth | chart-app/app_stock_chart.py:1324 | `calendar.monthrange`'s month length: 28 to 31 days, and 29 exactly for February of a leap year |
| Calendar.ToOrdinal | chart-app/app_stock_chart.py:1317-1318 | a valid date's day number lies inside its year's range of day numbers, and is positive from year 1 on |
| Calendar.FromOrdinal | chart-app/app_stock_chart.py:1317-1326 | every day number is the number of exactly one valid date, with year at least 1 |
| Calendar.OrdinalRoundTrip | chart-app/app_stock_chart.py:1317-1326 | date to day number and back gives the same date |
| Calendar.OrdinalInjective | chart-app/app_stock_chart.py:1317-1326 | two valid dates with the same day number are equal |
| Calendar.WeekdayNext | chart-app/app_stock_chart.py:225-228 | `weekday()` advances by one each day and wraps from Sunday (6) to Monday (0) |
| Calendar.InstantSplit | chart-app/app_stock_chart.py:997 | an instant is its day's midnight plus its second of the day |
| Calendar.DateOf | chart-app/app_stock_chart.py:997 | `.date()` of an instant is the valid date whose number is the instant's day |
| Calendar.ShiftMonthsBack | chart-app/app_stock_chart.py:842-853 | `DateOffset(months=k)` backwards: exactly k months earlier; the day is kept, or clipped to the shorter month's last day |
| Calendar.ShiftBackNotLater | chart-app/app_stock_chart.py:842-853 | shifting months back never gives a later date, and shifting by zero changes nothing |
| Calendar.MonthsBefore | chart-app/app_stock_chart.py:842-853 | the month-shifted cutoff is never after the instant, and equals it for zero months |
| Calendar.EarlierMonthEarlierDay | chart-app/app_stock_chart.py:842-853 | a date in an earlier month has a smaller day number |
| Calendar.StartOfYear | chart-app/app_stock_chart.py:847-850 | the YTD anchor is never after the instant |
| Calendar.StartOfYearIsNewYear | chart-app/app_stock_chart.py:847-850 | the YTD anchor is midnight of 1 January of the instant's year |
| Calendar.DaysSinceNewYear | chart-app/app_stock_chart.py:343-345 | `(today - datetime(today.year, 1, 1)).days`: less than the year's length, and counting back that many days reaches 1 January |
| Calendar.NewYearOrdinal | chart-app/app_stock_chart.py:343-345 | 1 January's day number is today's minus the days since New Year |
| Text.ParseNat | chart-app/app_stock_chart.py:382 | `int()` on a string of digits succeeds exactly when the string is a non-empty run of ASCII digits, with their decimal value |
| Text.NatText | chart-app/app_stock_chart.py:229 | a number's decimal digits are non-empty, all digits, and parse back to the number |
| Text.PadLeft | chart-app/app_stock_chart.py:229 | zero padding for `%Y`, `%m` and `%d`: the width is reached, the text is kept at the end, and zeros come before it |
| Text.LeadingZeros | chart-app/app_stock_chart.py:229 | zeros in front of a run of digits do not change its value |
| Text.PaddedReadsBack | chart-app/app_stock_chart.py:229 | a zero-padded number reads back as the number |
| Text.DateText | chart-app/app_stock_chart.py:229 | `strftime('%Y-%m-%d')`: for a four-digit year ten characters with dashes at 4 and 7, whose year, month and day fields read back as the date's |
| Text.DateFields | chart-app/app_stock_chart.py:229 | fields of widths 4, 2 and 2 joined by dashes sit at their places |
| Text.ClockText | chart-app/app_stock_chart.py:1345 | `strftime('%H:%M')`: five characters with ':' at 2, whose fields read back as the hour and the minute |
| Text.TakeWord | chart-app/app_stock_chart.py:1472 | the first word is a prefix with no whitespace, and stops at whitespace or at the end |
| Text.FirstWord | chart-app/app_stock_chart.py:1472 | `split()[0]` is missing exactly when the text is all whitespace, and is otherwise a non-empty run without whitespace |
| Text.LeadingSpaces | chart-app/app_stock_chart.py:1472 | the whitespace a text starts with: all of it is whitespace, and the character after it is not |
| Text.FirstWordIsFirstRun | chart-app/app_stock_chart.py:1472 | the word `split()[0]` returns is the longest whitespace-free run after the leading whitespace |
| Text.UpperChar | chart-app/app_stock_chart.py:128 | `upper()` of one character maps a-z onto A-Z and leaves every other character alone |
| Text.Upper | chart-app/app_stock_chart.py:128 | `upper()` keeps the length |
| Text.UpperAt | chart-app/app_stock_chart.py:128 | `upper()` works character by character and keeps whitespace where it is |
| Text.DropLeadingSpaceIsSuffix | chart-app/app_stock_chart.py:128 | dropping the leading whitespace leaves a suffix that does not start with whitespace, and everything dropped was whitespace |
| Text.DropTrailingSpaceIsPrefix | chart-app/app_stock_chart.py:128 | dropping the trailing whitespace leaves a prefix that does not end with whitespace, and everything dropped was whitespace |
| Text.Strip | chart-app/app_stock_chart.py:128 | `strip()` never lengthens the entry (its exact slice is StripIsSlice) |
| Text.StripIsSlice | chart-app/app_stock_chart.py:128-130 | `strip()` is the slice between the leading and trailing whitespace, with non-space ends, and is empty exactly when the entry is all whitespace, so `fetch_data` returns |
| Bars.Times | chart-app/app_stock_chart.py:985 | a series' index lists each bar's timestamp, in order |
| Bars.SumVolumeConcat | chart-app/app_stock_chart.py:401 | the total volume of two series is the sum of their totals |
| Bars.MaxHighIsMaximum | chart-app/app_stock_chart.py:1466 | `df['high'].max()` bounds every high and is one of them |
| Bars.MinLowIsMinimum | chart-app/app_stock_chart.py:1465 | `df['low'].min()` bounds every low and is one of them |
| Bars.MinTimeIsMinimum | chart-app/app_stock_chart.py:859 | `df.index.min()` bounds every timestamp and is one of them |
| Bars.MaxTimeIsMaximum | chart-app/app_stock_chart.py:841 | `df.index.max()` bounds every timestamp and is one of them |
| Bars.Clamp | chart-app/app_stock_chart.py:1266 | `max(0, min(k, n − 1))`, for the cursor's index and for the bins at :1487-1488: k inside the range, 0 below it and n − 1 above it |
| Resampling.Aggregate | chart-app/app_stock_chart.py:394-402 | the agg dict: stamped with the last member's timestamp, `period_start` the first member's, first open, last close, summed volume, and a range covering every member |
| Resampling.AggregateRange | chart-app/app_stock_chart.py:394-402 | an aggregated group's high is the greatest high of the group and its low the least low |
| Resampling.CountResample | chart-app/app_stock_chart.py:386-414 | regrouping by position never adds bars, and gives no bars exactly when there were none |
| Resampling.CountResampleCount | chart-app/app_stock_chart.py:390 | there is one output bar per group of the `index // n` grouping |
| Resampling.GroupCountIsCeiling | chart-app/app_stock_chart.py:390 | the number of groups is the ceiling of N / n |
| Resampling.CountResampleLength | chart-app/app_stock_chart.py:390-410 | N bars regrouped by n give ceil(N / n) bars |
| Resampling.CountResampleNth | chart-app/app_stock_chart.py:390-410 | output bar g aggregates the first n bars left after g groups |
| Resampling.DropGroupsIsSuffix | chart-app/app_stock_chart.py:390 | the bars left after g groups are the series from position g·n on |
| Resampling.CountResampleGroup | chart-app/app_stock_chart.py:390-414 | output bar g aggregates exactly positions g·n up to min(g·n + n, N) − 1, so the last group may be partial |
| Resampling.MemberOfGroup | chart-app/app_stock_chart.py:398-399 | each bar of a group lies between the group's low and high |
| Resampling.CountResampleBounds | chart-app/app_stock_chart.py:398-399 | every input bar lies inside the low and high of the output bar of its group |
| Resampling.CountResampleVolume | chart-app/app_stock_chart.py:401 | regrouping keeps the total volume |
| Resampling.PrependIncreasing | chart-app/app_stock_chart.py:413 | a bar earlier than an increasing series' head keeps the series strictly increasing |
| Resampling.CountResampleStamps | chart-app/app_stock_chart.py:395-405 | output bar g is stamped with the timestamp of position min(g·n + n, N) − 1, its group's last, and its `period_start` is that of position g·n, its group's first |
| Resampling.CountResamplePeriodStarts | chart-app/app_stock_chart.py:395-405 | every output bar's timestamp is its group's last and its `period_start` its group's first; on an increasing series `period_start` lies between the series' first timestamp and the bar's own |
| Resampling.CountResampleOrdered | chart-app/app_stock_chart.py:395-413 | regrouping a strictly increasing series gives a strictly increasing series |
| Resampling.SevenBarsByThree | chart-app/app_stock_chart.py:390-410 | seven bars in groups of three give bars for positions 0-2, 3-5 and the partial group of position 6 |
| Resampling.RouteOf | chart-app/app_stock_chart.py:378-382 | only rules ending in "D" regroup by count and only when the prefix parses; a prefix that does not parse falls back; other non-empty rules go to calendar periods; no rule (or "") does nothing |
| Resampling.Resample | chart-app/app_stock_chart.py:373-424 | no rule and the fallback pass the bars through unchanged; calendar rules use the calendar resampler; only "0D" is left without a modelled result |
| Resampling.CountRuleShape | chart-app/app_stock_chart.py:378-390 | the rule "nD" for n ≥ 1 regroups by n positions into ceil(N / n) bars |
| WindowPolicy.YtdThreshold | chart-app/app_stock_chart.py:341-350 | YTD asks for hourly bars exactly when at most 90 days have passed since 1 January |
| WindowPolicy.YtdByDate | chart-app/app_stock_chart.py:341-350 | stated on dates: YTD is hourly exactly when today is at most 90 days after this year's 1 January |
| WindowPolicy.IntervalSettings | chart-app/app_stock_chart.py:321-358 | every window asks for 1m, 5m, 1h or 1d bars, and a rule comes only with daily or five-minute bars |
| WindowPolicy.PolicyMatchesTable | chart-app/app_stock_chart.py:321-358 | every window maps to its (interval, rule) pair: 10Y (1d, 1ME), 5Y (1d, 1W), 3Y (1d, 3D), 2Y (1d, 2D), 1WK (5m, 10min), 1D (1m), 1Y and 6M (1d), 3M and 1M (1h); the YTD rule; unknown windows (1d, none); 1WK never gets the shadowed hourly branch |
| WindowPolicy.WindowsCovered | chart-app/app_stock_chart.py:740 | every window button has its own branch in the policy (YTD its date rule) |
| WindowPolicy.MinuteBarsOnlyForOneDay | chart-app/app_stock_chart.py:351-352 | one-minute bars are asked for exactly by the 1D window |
| WindowPolicy.PolicyRulesAreRouted | chart-app/app_stock_chart.py:321-358 | the policy's rules route 2Y and 3Y to count groups of 2 and 3, 10Y, 5Y and 1WK to calendar periods, and the rest to no resampling |
| WindowPolicy.PolicyRuleIsSafe | chart-app/app_stock_chart.py:378-417 | no rule the policy produces takes the fallback or a zero group size |
| WindowPolicy.PolicyProducesPolicyRules | chart-app/app_stock_chart.py:321-358 | every window's rule is one of the policy's rules |
| WindowPolicy.NeedsRefetch | chart-app/app_stock_chart.py:367 | data in an interval the policy never asks for is always downloaded again; for 1D exactly when the data is not one-minute bars |
| WindowPolicy.SameIntervalNoRefetch | chart-app/app_stock_chart.py:360-371 | switching between windows that share an interval does not download again |
| WindowPolicy.WindowSwitchExamples | chart-app/app_stock_chart.py:367 | 2Y to 3Y regroups in place; leaving 1D always downloads again |
| WindowPolicy.ShouldAutoRefresh | chart-app/app_stock_chart.py:189-191 | the tick fires only where the window's interval is one-minute bars |
| WindowPolicy.AutoRefreshFetchesMinuteBars | chart-app/app_stock_chart.py:189-193 | an auto-refresh tick that fires asks for one-minute bars without a rule |
| Indicators.RollingMean | chart-app/app_stock_chart.py:1373 | `rolling(window=w).mean()` is defined exactly from position w − 1 on |
| Indicators.WithMovingAverages | chart-app/app_stock_chart.py:1373-1379 | computing the averages keeps one bar per bar |
| Indicators.MovingAveragesOnlyAddColumns | chart-app/app_stock_chart.py:1373-1379 | each bar keeps its time, prices, volume and `period_start`; only the ma5 to ma200 columns change, and other columns are kept |
| Indicators.MovingAveragesKeepTimes | chart-app/app_stock_chart.py:1373-1379 | adding the averages keeps the index |
| Indicators.MovingAverageDefinedFrom | chart-app/app_stock_chart.py:1373-1379 | `ma_w` at position i is missing when i < w − 1, and is otherwise the mean close of positions i − w + 1 to i |
| Indicators.SumCloseBetween | chart-app/app_stock_chart.py:1373-1379 | closes within bounds sum to within count times the bounds |
| Indicators.MeanBetween | chart-app/app_stock_chart.py:1373-1379 | a mean of values within bounds is within the bounds |
| Indicators.MovingAverageWithinCloses | chart-app/app_stock_chart.py:1373-1379 | a moving average lies between the least and greatest close of its window |
| Indicators.MovingAveragesAreCausal | chart-app/app_stock_chart.py:427 | later bars do not change earlier averages |
| Indicators.SumCloseSameCloses | chart-app/app_stock_chart.py:1373-1379 | series with the same closes have the same sum of closes |
| Indicators.SameClosesSameAverages | chart-app/app_stock_chart.py:1373-1379 | the averages depend on the closes alone |
| Indicators.ReassignTwice | chart-app/app_stock_chart.py:1373-1379 | assigning the same columns twice is assigning them once |
| Indicators.MovingAveragesIdempotent | chart-app/app_stock_chart.py:1373-1379 | recomputing the averages on a series that has them changes nothing |
| Display.MonthsBack | chart-app/app_stock_chart.py:842-853 | the windows measured in months or years go back at least one month |
| Display.WindowStart | chart-app/app_stock_chart.py:840-860 | the cutoff: seven days before the latest bar for 1WK, 1 January of its year for YTD, k months before it for 10Y to 1M, and the earliest bar for 1D and unknown windows; never after the latest bar |
| Display.KeepFrom | chart-app/app_stock_chart.py:863 | `df[df.index >= start]` keeps exactly the bars at or after the cutoff |
| Display.KeepFromIsSuffix | chart-app/app_stock_chart.py:863 | on an increasing series the kept bars are the suffix from the first bar at or after the cutoff, in order |
| Display.FirstBeforeLast | chart-app/app_stock_chart.py:841-859 | the earliest timestamp is not after the latest |
| Display.FilterByWindow | chart-app/app_stock_chart.py:840-863 | the filter only removes bars: every bar shown is in the series |
| Display.FilterKeepsLatest | chart-app/app_stock_chart.py:840-863 | the latest bar always survives, so the filter never empties a series; 1D and unknown windows keep every bar |
| Display.FilterCutoff | chart-app/app_stock_chart.py:840-863 | a bar is shown exactly when it is in the series at or after the window's cutoff |
| Display.BarAt | chart-app/app_stock_chart.py:1008 | `reindex` finds the bar with the slot's timestamp, and finds none exactly when no bar has it |
| Display.Gapless | chart-app/app_stock_chart.py:985 | outside 1D the chart shows the filtered bars one per position |
| Display.SessionGrid | chart-app/app_stock_chart.py:993-1010 | the 1D chart is aligned: every shown bar sits at its own timestamp |
| Display.SessionGridSpan | chart-app/app_stock_chart.py:997-1004 | the grid has 391 slots from 09:30 to 16:00 of the first bar's day |
| Display.SessionGridSlot | chart-app/app_stock_chart.py:1008 | a slot holds a bar exactly when a bar has the slot's timestamp, and that bar comes from the series |
| Display.SessionGridDropsOffGrid | chart-app/app_stock_chart.py:1008 | a bar whose timestamp is not on the grid is not shown |
| Display.SessionGridIncreasing | chart-app/app_stock_chart.py:1004 | the grid's timestamps rise one minute per slot |
| Display.ChartView | chart-app/app_stock_chart.py:976-1010 | the chart drawn is aligned and non-empty |
| Display.ChartViewDrawn | chart-app/app_stock_chart.py:976-990 | a non-empty history is always drawn, and outside 1D it shows exactly the filtered bars |
| VolumeProfile.BinCount | chart-app/app_stock_chart.py:1470-1477 | the bin count is positive, and is 100 unless it is the integer value of the mode's first word |
| VolumeProfile.TakeWordBeforeSpace | chart-app/app_stock_chart.py:1472 | the first word of a word followed by whitespace is that word |
| VolumeProfile.BinCountOfMode | chart-app/app_stock_chart.py:1472 | a mode of a positive number followed by whitespace gives that number of bins |
| VolumeProfile.MenuModes | chart-app/app_stock_chart.py:787 | the menu's modes "100 Bins", "200 Bins" and "400 Bins" give 100, 200 and 400 bins |
| VolumeProfile.HundredsMode | chart-app/app_stock_chart.py:1472 | "d00 Bins" gives d·100 bins |
| VolumeProfile.ThreeDigits | chart-app/app_stock_chart.py:1472 | three digits parse to their decimal value |
| VolumeProfile.BinCountFallback | chart-app/app_stock_chart.py:1473-1477 | a mode without a first word, with a first word that is not an integer, or with 0 gives 100 bins |
| VolumeProfile.Trunc | chart-app/app_stock_chart.py:1485-1486 | `int()` truncates toward zero |
| VolumeProfile.TruncMonotone | chart-app/app_stock_chart.py:1485-1486 | truncation keeps the order of non-negative values |
| VolumeProfile.BinOf | chart-app/app_stock_chart.py:1485-1488 | a price's clamped bin is a valid bin |
| VolumeProfile.Zeros | chart-app/app_stock_chart.py:1482 | the profile starts with n zero bins |
| VolumeProfile.Spread | chart-app/app_stock_chart.py:1493-1495 | spreading a share keeps the number of bins |
| VolumeProfile.Deposit | chart-app/app_stock_chart.py:1490-1495 | one bar's deposit keeps the number of bins |
| VolumeProfile.Accumulate | chart-app/app_stock_chart.py:1484-1495 | the binning loop yields n bins |
| VolumeProfile.ProfileOf | chart-app/app_stock_chart.py:1465-1495 | no profile exactly when the price range is zero; otherwise one bin per bin count, starting at the lowest low, each (high − low) / n tall; an empty series gives n zero bins |
| VolumeProfile.SumUpdate | chart-app/app_stock_chart.py:1491 | adding to one bin adds to the total |
| VolumeProfile.SumSpread | chart-app/app_stock_chart.py:1494-1495 | spreading a share over k bins adds k shares to the total |
| VolumeProfile.DepositConserves | chart-app/app_stock_chart.py:1490-1495 | one bar adds exactly its volume to the profile's total |
| VolumeProfile.SpreadConserves | chart-app/app_stock_chart.py:1493-1495 | a bar spread over several bins adds exactly its volume |
| VolumeProfile.SharesAddUp | chart-app/app_stock_chart.py:1493 | k shares of volume / k add up to the volume |
| VolumeProfile.SumZeros | chart-app/app_stock_chart.py:1482 | the empty profile totals zero |
| VolumeProfile.BinsInOrder | chart-app/app_stock_chart.py:1485-1488 | a bar's low falls in a bin no higher than its high's |
| VolumeProfile.AccumulateConserves | chart-app/app_stock_chart.py:1484-1495 | the bins total the volume of the bars binned |
| VolumeProfile.ProfileConservesVolume | chart-app/app_stock_chart.py:1465-1495 | the profile's bins total the volume of the bars |
| VolumeProfile.AccumulateIsSumOfShares | chart-app/app_stock_chart.py:1484-1495 | each bin holds the sum, over the bars, of that bar's share for the bin |
| VolumeProfile.SumSharesConcat | chart-app/app_stock_chart.py:1484 | a bin's shares from two series add up |
| VolumeProfile.SumSharesPermutation | chart-app/app_stock_chart.py:1484 | a bin's sum of shares does not depend on the order of the bars |
| VolumeProfile.ExtremesOfPermutation | chart-app/app_stock_chart.py:1465-1466 | the lowest low and the highest high do not depend on the order of the bars |
| VolumeProfile.ProfileOrderIndependent | chart-app/app_stock_chart.py:1465-1495 | the profile does not depend on the order of the bars |
| VolumeProfile.DepositRow | chart-app/app_stock_chart.py:1490-1495 | the loop body updates the bin array in place exactly as one bar's deposit |
| VolumeProfile.BuildProfile | chart-app/app_stock_chart.py:1465-1495 | the imperative binning loop over an array computes the profile |
| DataCache.EffectiveDay | chart-app/app_stock_chart.py:224-229 | the weekend snap gives a weekday at most two days back; weekdays are kept; every day skipped is a weekend day |
| DataCache.EffectiveDayIdempotent | chart-app/app_stock_chart.py:224-229 | snapping twice is snapping once |
| DataCache.WeekendSharesFriday | chart-app/app_stock_chart.py:224-229 | Saturday and Sunday share Friday's cache file |
| DataCache.GlobOfName | chart-app/app_stock_chart.py:289 | a prefix, anything, then ".csv" matches the prefix's glob and `*.csv` |
| DataCache.CacheFileNameDate | chart-app/app_stock_chart.py:229-231 | for a four-digit year the name is the pair's prefix, the day's date text and ".csv" |
| DataCache.CacheNamesDistinct | chart-app/app_stock_chart.py:229-231 | two days with four-digit years share a cache file name only when they are the same day |
| DataCache.SameDateText | chart-app/app_stock_chart.py:229 | two four-digit-year dates with the same text are the same date |
| DataCache.CacheFileNameMatches | chart-app/app_stock_chart.py:231-289 | every cache file name matches its pair's glob and `*.csv` |
| DataCache.Present | chart-app/app_stock_chart.py:252 | `dropna` keeps the bars of the complete rows and no others, and all rows when every row is complete |
| DataCache.PresentConcat | chart-app/app_stock_chart.py:252 | `dropna` keeps the file's order: the surviving rows of an earlier part come before those of a later part |
| DataCache.ReadCache | chart-app/app_stock_chart.py:237-256 | a cache read fails exactly when the file is missing or unreadable |
| DataCache.PresentOfAllRows | chart-app/app_stock_chart.py:252 | complete rows all survive `dropna` |
| DataCache.WrittenReadsBack | chart-app/app_stock_chart.py:239-287 | a file written reads back as the bars written |
| DataCache.Pruned | chart-app/app_stock_chart.py:289-293 | pruning keeps exactly the kept file and the names outside the glob, untouched |
| DataCache.StoreAndPrune | chart-app/app_stock_chart.py:285-293 | after a store today's file holds the bars, and no file is added besides it |
| DataCache.StoreAndPruneLeavesOneFile | chart-app/app_stock_chart.py:286-293 | after a store the pair's only file is today's and it holds the bars; other files are untouched |
| DataCache.Swept | chart-app/app_stock_chart.py:109-118 | the sweep deletes exactly the `*.csv` files modified before now − 7 days and touches nothing else |
| DataCache.StaleNames | chart-app/app_stock_chart.py:112-118 | the counted files are exactly the stale ones |
| DataCache.SweepKeepsRecent | chart-app/app_stock_chart.py:109-118 | a recent file survives, and a second sweep deletes nothing more |
| DataCache.HistoryRequest | chart-app/app_stock_chart.py:258-274 | 1m asks for one day of minutes; 1h starts 729 days back and 2m-90m 59 days back, failing before year 1; others start on 2000-01-01; all end on the cache day |
| DataCache.LookbackTable | chart-app/app_stock_chart.py:266-272 | the look-back is 729 days for 1h, 59 for 2m-90m and none for daily, weekly and monthly bars |
| DataCache.Downloaded | chart-app/app_stock_chart.py:260-274 | a date-span download never fails (`get_stock_history` turns errors into no bars); a minute download's exception becomes the error text |
| DataCache.Get | chart-app/app_stock_chart.py:305-307 | `dict.get` gives the value when the key is present and the default otherwise |
| DataCache.MetadataOf | chart-app/app_stock_chart.py:295-309 | the defaults when the info call raised; otherwise shortName, else longName, else the ticker; previousClose or 0.0; currentPrice when truthy, else regularMarketPrice when truthy, else 0.0; and the whole info dictionary |
| DataCache.Report | chart-app/app_stock_chart.py:312-315 | the worker reports an error exactly when there are no bars, and otherwise sends the bars with their interval |
| DataCache.Obtain | chart-app/app_stock_chart.py:233-283 | one-minute bars never come from the cache |
| DataCache.Worker | chart-app/app_stock_chart.py:217-319 | a data message always carries the requested interval and some bars |
| DataCache.Posted | chart-app/app_stock_chart.py:311-319 | a posted data message carries the requested interval and some bars |
| DataCache.MinuteDataBypassesCache | chart-app/app_stock_chart.py:236-286 | one-minute fetches leave the directory alone, and their message does not depend on it |
| DataCache.CacheHitAnswers | chart-app/app_stock_chart.py:237-253 | a readable cache file answers: nothing is downloaded, the directory is unchanged, and the message carries the file's bars |
| DataCache.UnreadableIsMiss | chart-app/app_stock_chart.py:254-256 | an unreadable cache file is a miss, just as a missing one |
| DataCache.MissDownloads | chart-app/app_stock_chart.py:258-274 | on a miss the bars come from the provider |
| DataCache.MissStoresDownload | chart-app/app_stock_chart.py:285-315 | a miss with bars stores and prunes and posts them; a miss without bars changes nothing and posts the "No data found" error |
| Cursor.CountAt | chart-app/app_stock_chart.py:1334 | `loc` finds some row exactly when a bar has the timestamp |
| Cursor.RowAt | chart-app/app_stock_chart.py:1334-1341 | `loc` gives a row exactly when one bar has the timestamp, and that bar is in the history |
| Cursor.RowAtOfIncreasing | chart-app/app_stock_chart.py:1334 | in an increasing history `loc` of a bar's timestamp gives that bar |
| Cursor.Label | chart-app/app_stock_chart.py:1313-1348 | the rule chosen always gives a label that can be written out |
| Cursor.WeekLabel | chart-app/app_stock_chart.py:1313-1319 | weekly data or 5Y: the label runs from the Monday of the cursor's week to the Friday four days later |
| Cursor.MonthLabel | chart-app/app_stock_chart.py:1321-1327 | monthly data or 10Y, when the weekly rule does not apply: the label is the cursor's month, day 1 to its last day |
| Cursor.RegroupedBarLabel | chart-app/app_stock_chart.py:1329-1341 | on 2Y and 3Y a regrouped bar's label runs from its group's first bar to its own date |
| Cursor.IntradayLabels | chart-app/app_stock_chart.py:1343-1348 | otherwise intervals with 'm' or 'h' show date and time, and daily bars the date alone |
| Cursor.LabelText | chart-app/app_stock_chart.py:1313-1348 | a single day's label is its date text, an intraday one adds a space and the clock text, and a range starts with its first day's date text and " / " |
| Cursor.VolumeAsWritten | chart-app/app_stock_chart.py:1362-1366 | the volume read as written: the unfiltered history's bar at the screen position, or an index error past its end |
| Cursor.VolumeUnderCursor | chart-app/app_stock_chart.py:1362-1366 | the volume of the bar shown under the cursor, and none for a gap |
| Cursor.AsWrittenReadsEarlierBar | chart-app/app_stock_chart.py:1363 | whenever the window filters bars out, the lookup as written reads a bar k positions earlier than the one under the cursor |
| Cursor.VolumeLookupsAgree | chart-app/app_stock_chart.py:1363 | both lookups agree when the window keeps every bar |
| Cursor.VolumeLookupMismatch | chart-app/app_stock_chart.py:1363 | bars on days 0, 8 and 9 under the 1WK window: the chart drops the first, and at position 0 the lookup as written shows its volume (10) instead of the shown bar's (20) |
| Cursor.CursorReadout | chart-app/app_stock_chart.py:1260-1366 | the readout has the index clamped into the dates (0 below, the last above), the label of that date, and, when volume is shown, the volume as written: the unfiltered history at that index, or an index error |
| App.CacheDir.Write | chart-app/app_stock_chart.py:287 | `to_csv` replaces or adds exactly that one file |
| App.CacheDir.RemoveOthers | chart-app/app_stock_chart.py:289-293 | the unlink loop leaves the directory pruned to the kept file and the names outside the glob |
| App.CacheDir.CleanupOldCache | chart-app/app_stock_chart.py:102-125 | the sweep loop leaves the swept directory, and its counter is the number of stale files |
| App.MessageQueue.Put | chart-app/app_stock_chart.py:313-315 | the message is appended at the back |
| App.MessageQueue.GetNowait | chart-app/app_stock_chart.py:155 | gives the front message and removes it, or nothing on an empty queue |
| App.Receive | chart-app/app_stock_chart.py:161-169 | a data message with bars replaces the loaded bars, interval and info; any other message leaves the loaded data as it was |
| App.Drain | chart-app/app_stock_chart.py:152-181 | after a drain the loaded data is the start or what one of the messages with bars loaded |
| App.LastApplied | chart-app/app_stock_chart.py:161-175 | the last data message with bars, if any, and none exactly when no message applies |
| App.LastAppliedSnoc | chart-app/app_stock_chart.py:161-175 | a new message becomes the last applied one exactly when it applies |
| App.DrainSnoc | chart-app/app_stock_chart.py:154-175 | draining one more message is receiving it after the others |
| App.DrainConcat | chart-app/app_stock_chart.py:154-175 | draining two batches is draining them one after the other |
| App.DrainKeepsLast | chart-app/app_stock_chart.py:161-181 | after draining, the loaded data is the last data message with bars, or unchanged when there was none |
| App.RegroupedByWindow | chart-app/app_stock_chart.py:373-427 | the history each window shows: groups of 2 and 3 bars for 2Y and 3Y, calendar periods for 10Y, 5Y and 1WK, the raw bars otherwise, always with the averages |
| App.Regrouped | chart-app/app_stock_chart.py:373-427 | without a rule the history keeps the raw bars' timestamps |
| App.Earliest | chart-app/app_stock_chart.py:1115 | `df.index.min()` of the chart is one of its timestamps and bounds them all |
| App.ProfileFor | chart-app/app_stock_chart.py:1111-1117 | the profile drawn has one bin per bin count, and is absent only when some raw bar lies at or after the chart's first timestamp |
| App.DrawnProfile | chart-app/app_stock_chart.py:1111-1119 | the profile is built from the raw bars from the chart's first timestamp on |
| App.StartupPlan | chart-app/app_stock_chart.py:91-93 | "SPY" needs no clean-up, and the 1Y window asks for daily bars without a rule |
| App.ChartApp.constructor | chart-app/app_stock_chart.py:31-71 | the initial state: "SPY" entered, window 1Y, interval 1d, no rule, no data, toggles on, "100 Bins", prices 0.0 |
| App.ChartApp.FetchData | chart-app/app_stock_chart.py:127-150 | a blank entry does nothing; otherwise the job is the cleaned ticker with the given interval, or the window's interval and rule when none is given; the data and chart are untouched |
| App.ChartApp.Crosshair | chart-app/app_stock_chart.py:1260-1366 | the readout over the chart on screen: none for an empty chart, the label of the cursor's date, and the volume of the history's bar at the screen position, or an index error past its end |
| App.ChartApp.UpdateChart | chart-app/app_stock_chart.py:976-1010 | afterwards the chart and the profile match the history, and nothing is redrawn when the window shows nothing |
| App.ChartApp.Redraw | chart-app/app_stock_chart.py:1105-1119 | the chart becomes the one given, and the profile is built from the raw bars or is absent when switched off |
| App.ChartApp.ApplyResampling | chart-app/app_stock_chart.py:373-428 | with raw bars the history becomes the regrouped bars with averages and the chart matches it; with none nothing changes |
| App.ChartApp.OnWindowChange | chart-app/app_stock_chart.py:360-371 | the window and its rule are taken; a different interval starts a download of the entry's ticker, which becomes the current ticker, with the data, chart, profile and other controls unchanged; the same interval regroups in place and changes no other control |
| App.ChartApp.AutoRefreshTick | chart-app/app_stock_chart.py:187-195 | a tick downloads one-minute bars exactly when the toggle is on, a ticker is loaded, the window is 1D and the entry is not blank, and then sets the ticker and no rule; otherwise nothing changes; the data and chart never change |
| App.ChartApp.DownloadWorker | chart-app/app_stock_chart.py:217-319 | the worker leaves the directory as `Worker` computes it and posts its message |
| App.ChartApp.StoreDownload | chart-app/app_stock_chart.py:285-293 | a non-empty download of anything but minute bars is written and the pair's other files deleted |
| App.ChartApp.Handle | chart-app/app_stock_chart.py:161-181 | a data message with bars replaces the loaded data and regroups; any other message changes nothing |
| App.ChartApp.Take | chart-app/app_stock_chart.py:163-169 | the message's bars, interval, company, prices and info replace the loaded ones, and nothing else changes |
| App.ChartApp.TakeBars | chart-app/app_stock_chart.py:164-166 | the bars, interval and company name are taken from the message |
| App.ChartApp.TakeQuote | chart-app/app_stock_chart.py:167-169 | the previous close, price and info are taken from the message |
| App.ChartApp.ProcessQueue | chart-app/app_stock_chart.py:152-185 | the queue is emptied; the loaded data ends as the last data message with bars left it and the chart shows it, or nothing changes when no message had bars |
| App.ChartApp.HandleNext | chart-app/app_stock_chart.py:154-175 | one turn of the loop keeps the drained state in step with the messages taken |
| App.ChartApp.Startup | chart-app/app_stock_chart.py:91-100 | start-up asks for SPY's daily bars, sets the ticker and no rule, keeps the data and chart, and sweeps the cache |

## Left out

- Time zones: `tz_convert('US/Eastern')` and daylight saving are not modelled. Timestamps are
  exchange-local wall-clock seconds.
- Floating point: prices and volumes are `real`. Rounding, NaN and the `f"{:,}"` number
  formats are not modelled.
- The CSV format and `to_numeric` coercion: a file is its rows, with None for a row that
  `dropna` removes, or unreadable.
- The network: the yfinance history and `t.info` calls are parameters of the worker.
  `chart-app/stock_util.py` is not part of this model, except for what `get_stock_history`
  returns on failure.
- Threads, `queue.Queue` timing and the `root.after` timers: the worker, the queue drain
  and the auto-refresh tick are separate sequential methods. A fetch returns the job it
  would start instead of starting a thread.
- The MACD, RSI and Bollinger band columns (finta) are library code that is not visible.
- pandas' calendar `resample(rule).agg(...).dropna()` for 1ME, 1W and 10min: an opaque
  function that the app object holds.
- Resampling.Resample: for the rule "0D" the group ids come from a floor division by zero,
  whose outcome in pandas is not modelled. The policy never produces "0D"
  (WindowPolicy.PolicyRuleIsSafe), and the app only holds policy rules.
- Text.ParseNat: `int()`'s signs, surrounding whitespace, underscores and non-ASCII digits
  are not modelled. The modes in the menu are plain digits.
- Text.NatText: years before 1000 are zero-padded to four digits, which `%Y` does not do on
  every platform.
- Text.Upper and Text.UpperChar: cover ASCII letters only; `str.upper()` on other scripts is not modelled.
- Text.Strip: covers ASCII whitespace only; Unicode whitespace is not modelled.
- Glob metacharacters in tickers and case-insensitive file systems are not modelled: a name
  matches `<ticker>_<interval>_*.csv` by plain prefix and suffix.
- Per-file `unlink` errors in the sweep and the prune, and `to_csv` failures, are not
  modelled. A missing `csv` directory is the same as an empty one.
- Everything on screen except the chart's data: widgets, fonts, the info panel, titles,
  axis ticks, the candles and the y-limits.
- The `int(x + 0.5)` cursor rounding: the cursor position is an integer input.
- Cursor.CursorReadout: the price label and the label positions of `_update_crosshair` are
  not modelled.
- The volume profile's drawing (`barh`), and the bin edges list, which only the drawing uses.
- Stale download results: every message on the queue is applied in order, as the code does,
  even one for a ticker or interval the user has since left.
- Indicators.WithMovingAverages: the seven columns are assigned together, not one statement
  at a time; the order of the assignments changes nothing.
- WindowPolicy.IntervalSettings takes the days since 1 January as a parameter instead of
  reading the clock; WindowPolicy.YtdByDate relates it to the date.
- App.ChartApp.AutoRefreshTick: exceptions raised by the fetch, which the loop swallows,
  are not modelled.

## Findings

| source | as written | input that shows it | evidently intended | confidence | as-written member | corrected member |
|---|---|---|---|---|---|---|
| chart-app/app_stock_chart.py:1363 | the crosshair reads `history_df['volume'].iloc[safe_idx]`, indexing the unfiltered history by a position in the filtered chart | bars on days 0, 8 and 9 under the 1WK window: the filter drops the first, and with the cursor at position 0 the label shows the dropped bar's volume (10), not the shown bar's (20) | the volume of the bar under the cursor, the displayed frame's row at `safe_idx` | not executed | Cursor.VolumeAsWritten, Cursor.VolumeLookupMismatch | Cursor.VolumeUnderCursor |
