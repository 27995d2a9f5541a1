# Potty-training statistics engine, in Dafny

This project models the statistics engine of the potty-training tracker, found in
`database.py`. The engine reads the recorded events of the two types `Pee` and
`Poo`. Each event has a timestamp and a location, and the store returns them in
ascending order of timestamp. From these the engine builds one dictionary:

- per type, the maximum, mean, median and standard deviation of the gaps between
  consecutive events, in hours, each rounded to one decimal;
- per type, the share of events at each location;
- per type, the share of events in the morning, the evening and the night;
- zero defaults when a type has fewer than two events;
- under `daily_averages`, for each type, the mean gap per calendar date. Each gap is
  filed under the date of the earlier event of its pair.

Modules, one per concern:

- `Events`: events, timestamps as seconds on the event's wall clock, their date and hour.
- `Numbers`: `round(x, 1)` (ties to even), sum, mean, max, median (by sorting) and
  sample variance, on exact reals.
- `Roots`: the rounded standard deviation `round(stdev, 1)`, computed exactly from an
  integer square root. It is proved equal to `round(x, 1)` for the exact root `x`
  of the variance.
- `Grouping`: what `defaultdict(int)` and `defaultdict(list)` hold after counting or
  appending. Includes the partition lemmas: the groups account for every item exactly once.
- `Intervals`: `calculate_intervals`.
- `Daily`: `get_daily_averages_by_type`. A `method` with the source's grouping loop,
  proved against the pure `DailyAverageMap`.
- `Distribution`: `get_location_stats` and `get_time_of_day_distribution`, as counting
  loops proved against pure share functions.
- `Statistics`: `get_statistics`.
  - A `method` with the loop over the two types, proved equal to the pure `Summary`.
  - Lemmas on what each dictionary entry holds.
- `Scenarios`: concrete event lists and the values the dictionary then holds.

The store is the parameter `fetch: string -> seq<Event>`: `fetch(name)` stands for
what `get_events_by_type(name)` returns.

`get_location_stats` never divides by zero. With no events `location_counts` is
empty, so the comprehension at database.py:70 does no division and returns `{}`.
`Distribution.LocationStats` therefore has no precondition, and it returns the empty
map for no events.

## Model

| member | source | states |
|---|---|---|
| Events.DateOf | database.py:57 | the date of a timestamp is the day whose 86400 seconds contain it, also before 1970 |
| Events.HourOf | database.py:75 | the hour is in 0..23, and the timestamp lies in that hour of its own date |
| Numbers.RoundHalfEven | database.py:97-100 | `round` gives an integer within 1/2 of its argument, and an even one on a tie |
| Numbers.Round1Near | database.py:97 | `round(x, 1)` is within 0.05 of `x` and has one decimal place |
| Numbers.Round1Monotone | database.py:97-99 | rounding to one decimal never reverses an order |
| Numbers.Round1Exact | database.py:61 | a value with one decimal place is unchanged by `round(x, 1)` |
| Numbers.Max | database.py:97 | `max` of a non-empty list is one of its elements and no element exceeds it |
| Numbers.MeanAtMostMax | database.py:97-98 | the mean never exceeds the maximum |
| Numbers.MeanAtLeast | database.py:98 | a lower bound on every element bounds the mean |
| Numbers.Insert | database.py:99 | inserting into a sorted list keeps it sorted and adds exactly that element |
| Numbers.Sorted | database.py:99 | the sorted list that `median` uses is ascending and a permutation of its input |
| Numbers.MedianAtMostMax | database.py:97-99 | the median never exceeds the maximum |
| Numbers.MedianAtLeast | database.py:99 | a lower bound on every element bounds the median |
| Numbers.Variance | database.py:100 | the sample variance of two or more values is never negative |
| Roots.ISqrtBounds | database.py:100 | the integer square root `r` of `n` satisfies `r*r <= n < (r+1)*(r+1)` |
| Roots.ISqrtUnique | database.py:100 | only one `r` satisfies that bracket, so the integer square root is determined by it |
| Roots.RoundedSqrt1IsRoundOfRoot | database.py:100 | for any exact root `x >= 0` of `v`, the computed rounded root equals `round(x, 1)` |
| Roots.RoundedSqrt1NonNegative | database.py:100 | the rounded root is never negative |
| Grouping.Count | database.py:66-68 | a key's count is at most the number of items, and positive exactly when the key occurs |
| Grouping.Select | database.py:51-58 | a key's group has one value per occurrence of the key, each taken from the values |
| Grouping.SelectSnoc | database.py:58 | appending one keyed item extends only the group of its key |
| Grouping.CountsPartition | database.py:66-68 | over distinct keys covering every item, the counts add up to the number of items |
| Grouping.GroupsPartition | database.py:51-58 | over distinct keys covering every item, the groups pooled together are exactly the values |
| Grouping.TallyStep | database.py:68 | counting one more key increments only that key's entry, from 0 when absent |
| Grouping.TallyCounts | database.py:66-68 | the counting dictionary holds exactly the keys that occur, each with its number of occurrences |
| Intervals.CalculateIntervals | database.py:40-47 | no gaps for fewer than two events, else one per consecutive pair; gap `i` is the time from event `i` to event `i+1` in hours |
| Intervals.IntervalsNonNegative | database.py:44-47 | events in ascending order give no negative gap |
| Intervals.IntervalsSnoc | database.py:44-47 | one more event adds exactly one gap, measured from the previous last event |
| Intervals.IntervalsTotal | database.py:44-47 | the gaps add up to the time from the first event to the last |
| Daily.PairDates | database.py:53-57 | one date per gap, and each gap is filed under the calendar day that contains the earlier event of its pair: `date * 86400 <= timestamp < (date + 1) * 86400` |
| Daily.DayBucketNonEmpty | database.py:58 | a date's bucket is non-empty exactly when some pair starts on it |
| Daily.DailyBuckets | database.py:51-58 | no bucket in the grouped dictionary is empty |
| Daily.DailyAverages | database.py:49-63 | the grouping loop and the comprehension give the daily averages. The keys are exactly the dates of the earlier events of the pairs, and fewer than two events give an empty dictionary |
| Daily.DailyAverageKeys | database.py:60-63 | the dates present are exactly the dates of `events[0..N-2]` and no others |
| Daily.FiledGroups | database.py:53-58 | after `i` passes the dictionary holds exactly the dates seen so far, each with its gaps in order |
| Daily.FiledIsDailyBuckets | database.py:53-58 | after the loop the dictionary is the map of daily buckets |
| Daily.GroupStepKeys | database.py:58 | one pass adds the date of its pair to the dates present, and no other |
| Daily.GroupStepValues | database.py:58 | one pass appends its gap to its date's list and leaves every other date's list unchanged, so the dictionary stays the grouping of the gaps seen so far |
| Daily.DayBucketsPartition | database.py:53-58 | the buckets pooled together are exactly the gaps: none lost, none counted twice |
| Daily.DailyAverageOfBucket | database.py:60-62 | a date's value is the rounded mean of its bucket, which holds one gap per pair starting that day |
| Daily.DailyAveragesNonNegative | database.py:60-62 | with ascending events no daily average is negative |
| Daily.SingleDay | database.py:53-63 | when every pair starts on one date, that date is the only key and holds the rounded mean of all gaps |
| Distribution.ShareAdd | database.py:70 | unrounded percentages of disjoint counts add up |
| Distribution.LocationStats | database.py:65-70 | the counting loop gives one percentage per distinct location of the events; an empty list gives `{}` |
| Distribution.LocationKeys | database.py:66-70 | the location keys are exactly the distinct locations of the events |
| Distribution.SumOfSharesIsShareOfSum | database.py:70 | the unrounded shares of several keys are the share of their total count |
| Distribution.LocationSharesSumTo100 | database.py:66-70 | the unrounded percentages add up to exactly 100; the rounded ones to within 0.05 per location of 100 |
| Distribution.RoundedSumNear | database.py:70 | the rounded percentages differ from the unrounded ones by at most 0.05 each |
| Distribution.PeriodsAreClockBands | database.py:74-81 | an event is morning exactly when its second of the day lies in [05:00, 12:00), evening exactly when it lies in [12:00, 18:00), and night exactly otherwise |
| Distribution.TimeOfDayDistribution | database.py:72-87 | the counting loop gives the three guarded percentages under exactly the keys `morning`, `evening` and `night`; all are 0 for no events |
| Distribution.PeriodsPartition | database.py:74-81 | every event lands in exactly one period: `morning + evening + night == len(events)` |
| Distribution.TimeOfDaySharesSum | database.py:82-87 | for events, the unrounded shares add up to 100 and the rounded ones to within 0.15 of 100; for none, all three are 0 |
| Distribution.PeriodBands | database.py:75-81 | morning is seconds-of-day [5h, 12h), evening [12h, 18h), night the rest |
| Statistics.Lower | database.py:97 | lower-casing keeps the length |
| Statistics.LowerTypeNames | database.py:97 | the type names lower-case to `pee` and `poo` |
| Statistics.FieldNameInjective | database.py:97-102 | the six field suffixes are pairwise distinct |
| Statistics.KeyTextInjective | database.py:97-115 | distinct dictionary keys are spelled as distinct strings, so no assignment overwrites another key |
| Statistics.EntriesStep | database.py:92-109 | each pass of the loop adds the entries of one more type |
| Statistics.EntriesOfBothTypes | database.py:92 | the loop over `Pee` then `Poo` leaves the entries of both |
| Statistics.SixUpdates | database.py:97-102 | six successive assignments add the same entries as one union |
| Statistics.UpdateIsUnion | database.py:112 | assigning `daily_averages` adds that one entry |
| Statistics.AddTypeEntries | database.py:93-109 | one pass assigns the six entries of its type (values or defaults) and keeps every other entry |
| Statistics.GetStatistics | database.py:89-117 | the loop and the final assignment build exactly the dictionary `Summary` |
| Statistics.StatisticsIdempotent | database.py:89-117 | two calls on an unchanged store return the same dictionary |
| Statistics.EntriesForAt | database.py:97-109 | each of a type's six keys holds its field's value |
| Statistics.EntriesForKeys | database.py:97-109 | a type contributes exactly its six keys |
| Statistics.EntriesForOnlyOwnKeys | database.py:97-109 | a type's entries hold no key of the other type and not `daily_averages` |
| Statistics.SummaryEntry | database.py:92-115 | every per-type key is present and holds the value its own pass computed; nothing later overwrites it |
| Statistics.SummaryDaily | database.py:112-115 | `daily_averages` is present and holds the daily averages of both types |
| Statistics.SummaryHasKey | database.py:92-115 | every key, the twelve per-type ones and `daily_averages`, is present whatever the store holds |
| Statistics.Entry | database.py:96-109 | the entry of each type and statistic in the returned dictionary is the value that type's pass computed for that statistic |
| Statistics.ScalarEntries | database.py:97-107 | the `max`, `avg`, `median` and `std` entries of a type are the four numbers its pass computed |
| Statistics.DefaultsWhenFewEvents | database.py:103-109 | fewer than two events give zeros, `{Inside: 0, Outside: 0}` and three zero periods |
| Statistics.MaxDominates | database.py:97-99 | with intervals, the rounded maximum is at least every rounded interval, the rounded mean and the rounded median |
| Statistics.RoundedMaxDominates | database.py:97-99 | rounding keeps the maximum on top of the mean, the median and every element |
| Statistics.SingleInterval | database.py:96-100 | two events give max = avg = median = the rounded single gap, and std 0 |
| Statistics.SingletonStatistics | database.py:97-99 | of one value, the maximum, mean and median are that value |
| Statistics.SpreadIsRoundedStdev | database.py:100 | with two or more intervals, `std` is `round(x, 1)` for the exact square root `x` of the sample variance |
| Statistics.LocationsOverEvents | database.py:101 | the location breakdown counts the events, not the intervals: its keys are every event's location |
| Statistics.TimesOfDayOverEvents | database.py:102 | the time-of-day breakdown counts the events, and its three shares add up to 100 within rounding |
| Statistics.NonNegativeWhenAscending | database.py:96-100 | with ascending events, max, avg, median and std are never negative |
| Statistics.RoundedNonNegative | database.py:97-99 | rounding keeps the maximum, mean and median of non-negative values non-negative |
| Statistics.DailyOfDates | database.py:112-115 | `daily_averages[type]` holds one entry per date on which a pair starts, and none for fewer than two events |
| Statistics.DailySectionLookup | database.py:112-115 | `daily_averages` has the sub-keys `pee` and `poo`, each holding that type's daily averages |
| Statistics.DailyOfNonNegative | database.py:112-115 | with ascending events no daily average in the dictionary is negative |
| Scenarios.TwoEventsMeasure | database.py:96-102 | events at 06:00 and 10:00 give gap statistics 4.0, std 0, a 50/50 location split and 100% morning |
| Scenarios.ScenarioTwoEvents | database.py:89-117 | the same events read back from the dictionary, with a daily average of 4.0 |
| Scenarios.ScenarioNoEvents | database.py:103-115 | a type with no events gets the six defaults and no daily averages |
| Scenarios.RootOfFifty | database.py:100 | `round(sqrt(50), 1)` is 7.1 |
| Scenarios.ThreeEventsMeasure | database.py:96-100 | gaps of 2 and 12 hours give max 12.0, avg and median 7.0 and std 7.1 |
| Scenarios.ScenarioThreeEvents | database.py:89-117 | the same events read back from the dictionary, with a daily average of 7.0 |

## Left out

- The store: `add_event`, `get_events_by_type` and the Supabase client (database.py:1-38) are network I/O. The store is the parameter `fetch`. Its ascending order is a hypothesis of the lemmas that need it, not a precondition: the source computes on any order.
- The four store reads of one `get_statistics` call are taken to return the same events. A concurrent insert between them is not modelled.
- Timestamps: ISO parsing by `datetime.fromisoformat` and time zones are left out. A timestamp is an integer count of seconds on the event's own wall clock, and a date is a day number rather than the ISO string that keys `daily_averages`.
- Floating point: all values are exact reals. `round(x, 1)` is modelled as ties-to-even on the exact value, so binary representation effects on ties are not captured. The standard deviation is computed exactly rather than by a floating-point square root.
- Statistics.SpreadIsRoundedStdev: relates `std` to an exact root of the variance given as an argument, because Dafny's reals have no square-root function.
- Python's distinction between the integer `0` of the default branch and the float `0.0` is dropped; all values are reals.
- Dictionary order (insertion order of Python dicts) is not modelled; maps are unordered.
- Keys are structured values. `Statistics.KeyText` renders them as the source's strings, and `str.lower` is modelled for ASCII only.
- Scenarios.ScenarioTwoEvents: the location and time-of-day breakdowns are stated on the values behind the dictionary (`StatsOf`) rather than read back through `Entry`. `Statistics.SummaryEntry` connects the two for every field.
- Scenarios.ScenarioNoEvents: the same, for the two zero breakdowns.
- `app.py`, `api/index.py` and `static/script.js` are web routing, a request adapter and browser code; they are not part of this model.
