/**
 * `get_daily_averages_by_type`: every interval is filed under the calendar
 * date of the EARLIER event of its pair, and each date's intervals are
 * averaged and rounded to one decimal.
 */
module Daily {
  import opened Events
  import opened Numbers
  import opened Grouping
  import opened Intervals

  /** The date each interval is filed under: that of the earlier event of its pair. */
  function PairDates(events: seq<Event>): (ds: seq<Date>)
    ensures |ds| == if |events| < 2 then 0 else |events| - 1
    ensures forall i :: 0 <= i < |ds| ==> ds[i] * SecondsPerDay <= events[i].timestamp < (ds[i] + 1) * SecondsPerDay
    ensures forall i :: 0 <= i < |ds| ==> ds[i] == DateOf(events[i].timestamp)
  {
    if |events| < 2 then []
    else seq(|events| - 1, i requires 0 <= i < |events| - 1 => DateOf(events[i].timestamp))
  }

  /** The intervals filed under date `d`, in the order they occur. */
  function DayBucket(events: seq<Event>, d: Date): seq<real>
  {
    Select(PairDates(events), CalculateIntervals(events), d)
  }

  /** A date has a non-empty bucket exactly when some pair starts on it. */
  lemma DayBucketNonEmpty(events: seq<Event>, d: Date)
    ensures |DayBucket(events, d)| > 0 <==> d in PairDates(events)
  {
  }

  /** The `defaultdict(list)` after the loop: the bucket of every date on which some pair starts. */
  function DailyBuckets(events: seq<Event>): (buckets: map<Date, seq<real>>)
    ensures forall d :: d in buckets ==> |buckets[d]| > 0
  {
    map d | d in PairDates(events) :: DayBucket(events, d)
  }

  /** The closing comprehension: each bucket replaced by its mean, rounded to one decimal. */
  function AverageEach(buckets: map<Date, seq<real>>): map<Date, real>
    requires forall d :: d in buckets ==> |buckets[d]| > 0
  {
    map d | d in buckets :: Round1(Mean(buckets[d]))
  }

  /** The daily averages as a dictionary: one entry per date on which some pair starts. */
  function DailyAverageMap(events: seq<Event>): map<Date, real>
  {
    AverageEach(DailyBuckets(events))
  }

  /** The `defaultdict(list)` after the first `i` passes of the loop: each pair's interval appended under its date. */
  ghost function Filed(events: seq<Event>, i: nat): map<Date, seq<real>>
    requires i <= |PairDates(events)|
  {
    if i == 0 then map[]
    else
      var prev := Filed(events, i - 1);
      var date := DateOf(events[i - 1].timestamp);
      prev[date := (if date in prev then prev[date] else []) + [Hours(events[i].timestamp - events[i - 1].timestamp)]]
  }

  /** The grouping loop followed by the averaging comprehension (database.py, lines 51-63). */
  method DailyAverages(events: seq<Event>) returns (averages: map<Date, real>)
    ensures averages == DailyAverageMap(events)
    ensures averages.Keys == set i | 0 <= i < |events| - 1 :: DateOf(events[i].timestamp)
    ensures |events| < 2 ==> averages == map[]
  {
    var daily: map<Date, seq<real>> := map[];
    var i := 0;
    while i < |events| - 1
      invariant 0 <= i <= |PairDates(events)|
      invariant daily == Filed(events, i)
    {
      var interval := Hours(events[i + 1].timestamp - events[i].timestamp);
      var date := DateOf(events[i].timestamp);
      daily := daily[date := (if date in daily then daily[date] else []) + [interval]];
      i := i + 1;
    }
    assert i == |PairDates(events)|;
    FiledIsDailyBuckets(events);
    averages := AverageEach(daily);
    DailyAverageKeys(events);
    if |events| < 2 {
      assert averages.Keys == {};
    }
  }

  /** The dates present are exactly the dates of the earlier events of the pairs; no other date appears. */
  lemma DailyAverageKeys(events: seq<Event>)
    ensures DailyAverageMap(events).Keys == set i | 0 <= i < |events| - 1 :: DateOf(events[i].timestamp)
  {
    var dates := PairDates(events);
    var spec := set i | 0 <= i < |events| - 1 :: DateOf(events[i].timestamp);
    forall d | d in spec ensures d in dates {
      var i :| 0 <= i < |events| - 1 && d == DateOf(events[i].timestamp);
      assert dates[i] == d;
    }
    forall d | d in dates ensures d in spec {
      var i :| 0 <= i < |dates| && dates[i] == d;
    }
    assert DailyAverageMap(events).Keys == DailyBuckets(events).Keys;
  }

  /**
   * `daily` groups the first `i` items: it holds exactly their keys, each with
   * the values filed under it, in order.
   */
  ghost predicate GroupedUpTo(ks: seq<Date>, vs: seq<real>, i: nat, daily: map<Date, seq<real>>)
    requires |ks| == |vs| && i <= |ks|
  {
    && (forall d :: d in daily <==> d in ks[..i])
    && (forall d :: Select(ks[..i], vs[..i], d) == if d in daily then daily[d] else [])
  }

  /** After every pass, the dictionary groups exactly the intervals seen so far under their dates. */
  lemma {:induction false} FiledGroups(events: seq<Event>, i: nat)
    requires i <= |PairDates(events)|
    ensures GroupedUpTo(PairDates(events), CalculateIntervals(events), i, Filed(events, i))
  {
    var ks, vs := PairDates(events), CalculateIntervals(events);
    if i > 0 {
      var prev, cur := Filed(events, i - 1), Filed(events, i);
      FiledGroups(events, i - 1);
      assert ks[i - 1] == DateOf(events[i - 1].timestamp);
      assert vs[i - 1] == Hours(events[i].timestamp - events[i - 1].timestamp);
      assert cur == prev[ks[i - 1] := (if ks[i - 1] in prev then prev[ks[i - 1]] else []) + [vs[i - 1]]];
      GroupStepKeys(ks, i - 1, prev, cur);
      GroupStepValues(ks, vs, i - 1, prev, cur);
    } else {
      assert ks[..0] == [] && vs[..0] == [];
    }
  }

  /** Once every pair is filed, the dictionary is the map of daily buckets. */
  lemma FiledIsDailyBuckets(events: seq<Event>)
    ensures Filed(events, |PairDates(events)|) == DailyBuckets(events)
  {
    var n := |PairDates(events)|;
    FiledGroups(events, n);
    assert PairDates(events)[..n] == PairDates(events);
    assert CalculateIntervals(events)[..n] == CalculateIntervals(events);
    GroupedIsDailyBuckets(events, Filed(events, n));
  }

  /** Filing item `i` under its key adds its key to those present. */
  lemma GroupStepKeys(ks: seq<Date>, i: nat, daily: map<Date, seq<real>>, grown: map<Date, seq<real>>)
    requires i < |ks|
    requires forall d :: d in daily <==> d in ks[..i]
    requires grown.Keys == daily.Keys + {ks[i]}
    ensures forall d :: d in grown <==> d in ks[..i + 1]
  {
    assert ks[..i + 1] == ks[..i] + [ks[i]];
  }

  /** Filing item `i` under its key appends its value to that key's group and leaves every other group as it was. */
  lemma GroupStepValues(ks: seq<Date>, vs: seq<real>, i: nat, daily: map<Date, seq<real>>, grown: map<Date, seq<real>>)
    requires |ks| == |vs| && i < |ks|
    requires forall d :: Select(ks[..i], vs[..i], d) == if d in daily then daily[d] else []
    requires grown == daily[ks[i] := (if ks[i] in daily then daily[ks[i]] else []) + [vs[i]]]
    ensures forall d :: Select(ks[..i + 1], vs[..i + 1], d) == if d in grown then grown[d] else []
  {
    assert ks[..i + 1] == ks[..i] + [ks[i]];
    assert vs[..i + 1] == vs[..i] + [vs[i]];
    forall d ensures Select(ks[..i + 1], vs[..i + 1], d) == if d in grown then grown[d] else [] {
      SelectSnoc(ks[..i], vs[..i], ks[i], vs[i], d);
    }
  }

  lemma GroupedIsDailyBuckets(events: seq<Event>, daily: map<Date, seq<real>>)
    requires forall d :: d in daily <==> d in PairDates(events)
    requires forall d :: Select(PairDates(events), CalculateIntervals(events), d) == if d in daily then daily[d] else []
    ensures daily == DailyBuckets(events)
  {
    var spec := DailyBuckets(events);
    forall d ensures d in daily <==> d in spec {
      assert d in daily <==> d in PairDates(events);
    }
    forall d | d in daily ensures daily[d] == spec[d] {
      assert Select(PairDates(events), CalculateIntervals(events), d) == daily[d];
    }
  }

  /**
   * The buckets partition the intervals: over any duplicate-free enumeration of
   * the dates present, the buckets pooled together are exactly the intervals.
   */
  lemma DayBucketsPartition(events: seq<Event>, keys: seq<Date>)
    requires NoDuplicates(keys)
    requires forall d :: d in keys <==> d in DailyAverageMap(events)
    ensures Pooled(keys, PairDates(events), CalculateIntervals(events)) == multiset(CalculateIntervals(events))
  {
    var dates := PairDates(events);
    forall i | 0 <= i < |dates| ensures dates[i] in keys {
      assert dates[i] in DailyAverageMap(events);
    }
    GroupsPartition(keys, dates, CalculateIntervals(events));
  }

  /** A date's bucket holds one interval per pair starting that day, and its entry is their rounded mean. */
  lemma DailyAverageOfBucket(events: seq<Event>, d: Date)
    requires d in DailyAverageMap(events)
    ensures |DayBucket(events, d)| == Count(PairDates(events), d) > 0
    ensures DailyAverageMap(events)[d] == Round1(Sum(DayBucket(events, d)) / |DayBucket(events, d)| as real)
  {
  }

  /** With events in ascending order, no daily average is negative. */
  lemma DailyAveragesNonNegative(events: seq<Event>, d: Date)
    requires Ascending(events)
    requires d in DailyAverageMap(events)
    ensures DailyAverageMap(events)[d] >= 0.0
  {
    var bucket := DayBucket(events, d);
    IntervalsNonNegative(events);
    assert forall j :: 0 <= j < |bucket| ==> bucket[j] in CalculateIntervals(events);
    assert forall j :: 0 <= j < |bucket| ==> bucket[j] >= 0.0;
    MeanAtLeast(bucket, 0.0);
    Round1Monotone(0.0, Mean(bucket));
    Round1Exact(0);
  }

  /**
   * When every pair starts on the same date, the dictionary has that one date,
   * holding the rounded mean of all the intervals.
   */
  lemma SingleDay(events: seq<Event>, d: Date)
    requires |events| >= 2
    requires forall i :: 0 <= i < |events| - 1 ==> DateOf(events[i].timestamp) == d
    ensures DailyAverageMap(events) == map[d := Round1(Mean(CalculateIntervals(events)))]
  {
    var intervals := CalculateIntervals(events);
    SingleDayBuckets(events, d);
    AverageOne(d, intervals);
  }

  lemma AverageOne(d: Date, bucket: seq<real>)
    requires |bucket| > 0
    ensures AverageEach(map[d := bucket]) == map[d := Round1(Mean(bucket))]
  {
  }

  lemma SingleDayBuckets(events: seq<Event>, d: Date)
    requires |events| >= 2
    requires forall i :: 0 <= i < |events| - 1 ==> DateOf(events[i].timestamp) == d
    ensures DailyBuckets(events) == map[d := CalculateIntervals(events)]
  {
    var dates := PairDates(events);
    SelectAll(dates, CalculateIntervals(events), d);
    assert dates[0] == d;
    forall e | e in dates ensures e == d {
    }
  }
}
