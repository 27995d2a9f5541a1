/**
 * `get_statistics`: for each of the two fixed event types it computes the
 * intervals and fills six entries of one flat dictionary, with fixed zero
 * defaults when a type has fewer than two events, and then nests the daily
 * averages of both types under `daily_averages`.
 *
 * The event store is the parameter `fetch`: `fetch(name)` is what
 * `get_events_by_type(name)` returns.
 *
 * The dictionary's keys are modelled as structured values (`StatKey`);
 * `KeyText` renders each as the string the source builds, and distinct keys
 * render as distinct strings (`KeyTextInjective`).
 */
module Statistics {
  import opened Events
  import opened Numbers
  import opened Intervals
  import opened Daily
  import opened Distribution
  import opened Roots

  /** The two event types the statistics cover. */
  datatype EventType = Pee | Poo

  /** The type's name, as stored with its events. */
  function Name(t: EventType): string
  {
    match t
    case Pee => "Pee"
    case Poo => "Poo"
  }

  /** The types in the order the source visits them. */
  const EventTypes: seq<EventType> := [Pee, Poo]

  /** The six statistics kept per type. */
  datatype Field = MaxInterval | AvgInterval | MedianInterval | StdInterval | LocationShare | TimeShare

  function FieldName(f: Field): string
  {
    match f
    case MaxInterval => "max"
    case AvgInterval => "avg"
    case MedianInterval => "median"
    case StdInterval => "std"
    case LocationShare => "location"
    case TimeShare => "time_dist"
  }

  /** A key of the statistics dictionary. */
  datatype StatKey = TypeStat(eventType: EventType, field: Field) | DailyKey

  function LowerChar(c: char): char
  {
    if 'A' <= c <= 'Z' then (c as int + 32) as char else c
  }

  /** `str.lower` on ASCII text. */
  function Lower(s: string): (r: string)
    ensures |r| == |s|
  {
    if |s| == 0 then "" else [LowerChar(s[0])] + Lower(s[1..])
  }

  /** The key as the source spells it: the lower-cased type name, an underscore and the field; or `daily_averages`. */
  function KeyText(k: StatKey): string
  {
    match k
    case TypeStat(t, f) => Lower(Name(t)) + "_" + FieldName(f)
    case DailyKey => "daily_averages"
  }

  lemma LowerTypeNames()
    ensures Lower("Pee") == "pee" && Lower("Poo") == "poo"
  {
    assert Lower("e") == "e";
    assert Lower("ee") == "ee";
    assert Lower("o") == "o";
    assert Lower("oo") == "oo";
  }

  /** The field names are pairwise distinct. */
  lemma FieldNameInjective(f: Field, g: Field)
    requires f != g
    ensures FieldName(f) != FieldName(g)
  {
    var a, b := FieldName(f), FieldName(g);
    assert |a| != |b| || a[0] != b[0];
  }

  /** Distinct keys are spelled differently, so the structured keys lose nothing. */
  lemma KeyTextInjective(a: StatKey, b: StatKey)
    requires a != b
    ensures KeyText(a) != KeyText(b)
  {
    LowerTypeNames();
    if a.DailyKey? || b.DailyKey? {
      assert KeyText(a)[0] != KeyText(b)[0];
    } else if a.eventType != b.eventType {
      assert KeyText(a)[1] != KeyText(b)[1];
    } else {
      assert KeyText(a)[4..] == FieldName(a.field);
      assert KeyText(b)[4..] == FieldName(b.field);
      FieldNameInjective(a.field, b.field);
    }
  }

  /** A value of the statistics dictionary. */
  datatype Stat =
    | Scalar(value: real)
    | Breakdown(shares: map<string, real>)
    | PerType(byType: map<string, map<Date, real>>)

  /** The zero location breakdown that stands in when a type has too few events. */
  const NoLocations: map<string, real> := map["Inside" := 0.0, "Outside" := 0.0]

  /** The zero time-of-day breakdown that stands in when a type has too few events. */
  const NoTimesOfDay: map<string, real> := map["morning" := 0.0, "evening" := 0.0, "night" := 0.0]

  /** The six values one pass of the loop computes for a type. */
  datatype TypeStats = TypeStats(
    max: real, avg: real, median: real, std: real,
    location: map<string, real>, timeDist: map<string, real>)

  /** The fixed values of a type with no intervals. */
  const Defaults: TypeStats := TypeStats(0.0, 0.0, 0.0, 0.0, NoLocations, NoTimesOfDay)

  /** `round(stdev(intervals), 1)`, or 0 for a single interval, as the source guards it. */
  function Spread(intervals: seq<real>): real
  {
    if |intervals| > 1 then RoundedSqrt1(Variance(intervals)) else 0.0
  }

  /** What one pass computes from a type's events: rounded interval statistics and breakdowns, or the defaults. */
  function Measure(events: seq<Event>): TypeStats
  {
    var intervals := CalculateIntervals(events);
    if |intervals| > 0 then
      TypeStats(Round1(Max(intervals)), Round1(Mean(intervals)), Round1(Median(intervals)),
                Spread(intervals), LocationShares(events), TimeOfDayShares(events))
    else Defaults
  }

  /** The dictionary value of field `f` among a type's values. */
  function FieldStat(s: TypeStats, f: Field): Stat
  {
    match f
    case MaxInterval => Scalar(s.max)
    case AvgInterval => Scalar(s.avg)
    case MedianInterval => Scalar(s.median)
    case StdInterval => Scalar(s.std)
    case LocationShare => Breakdown(s.location)
    case TimeShare => Breakdown(s.timeDist)
  }

  /** The six keys of type `t`, each holding its field's value. */
  function EntriesFor(t: EventType, s: TypeStats): map<StatKey, Stat>
  {
    map[TypeStat(t, MaxInterval) := Scalar(s.max),
        TypeStat(t, AvgInterval) := Scalar(s.avg),
        TypeStat(t, MedianInterval) := Scalar(s.median),
        TypeStat(t, StdInterval) := Scalar(s.std),
        TypeStat(t, LocationShare) := Breakdown(s.location),
        TypeStat(t, TimeShare) := Breakdown(s.timeDist)]
  }

  /** The six entries one type contributes to the dictionary. */
  function TypeEntries(t: EventType, events: seq<Event>): map<StatKey, Stat>
  {
    EntriesFor(t, Measure(events))
  }

  /** The entries of the types `types`, each type's entries added after those of the types before it. */
  function EntriesOf(types: seq<EventType>, fetch: string -> seq<Event>): map<StatKey, Stat>
  {
    if |types| == 0 then map[]
    else EntriesOf(types[..|types| - 1], fetch) + TypeEntries(types[|types| - 1], fetch(Name(types[|types| - 1])))
  }

  /** The daily averages of both types, under the lower-cased names. */
  function DailySection(fetch: string -> seq<Event>): Stat
  {
    PerType(map["pee" := DailyAverageMap(fetch("Pee")), "poo" := DailyAverageMap(fetch("Poo"))])
  }

  /** The whole statistics dictionary: the entries of `Pee`, those of `Poo`, and `daily_averages`. */
  function Summary(fetch: string -> seq<Event>): map<StatKey, Stat>
  {
    TypeEntries(Pee, fetch("Pee")) + TypeEntries(Poo, fetch("Poo")) + map[DailyKey := DailySection(fetch)]
  }

  lemma EntriesStep(types: seq<EventType>, t: nat, fetch: string -> seq<Event>)
    requires t < |types|
    ensures EntriesOf(types[..t + 1], fetch) == EntriesOf(types[..t], fetch) + TypeEntries(types[t], fetch(Name(types[t])))
  {
    assert types[..t + 1][..t] == types[..t];
  }

  /** The loop over both types leaves the entries of `Pee` followed by those of `Poo`. */
  lemma EntriesOfBothTypes(fetch: string -> seq<Event>)
    ensures EntriesOf(EventTypes, fetch) == TypeEntries(Pee, fetch("Pee")) + TypeEntries(Poo, fetch("Poo"))
  {
    EntriesStep(EventTypes, 0, fetch);
    EntriesStep(EventTypes, 1, fetch);
    assert EventTypes[..0] == [] && EventTypes[..2] == EventTypes;
    TwoUnions(EntriesOf(EventTypes[..0], fetch), EntriesOf(EventTypes[..1], fetch), EntriesOf(EventTypes, fetch),
              TypeEntries(Pee, fetch("Pee")), TypeEntries(Poo, fetch("Poo")));
  }

  lemma TwoUnions<K, V>(e0: map<K, V>, e1: map<K, V>, e2: map<K, V>, a: map<K, V>, b: map<K, V>)
    requires e0 == map[] && e1 == e0 + a && e2 == e1 + b
    ensures e2 == a + b
  {
    assert e1 == a;
  }

  /** Six successive assignments into a dictionary add the same entries as one union with their display. */
  lemma SixUpdates<K, V>(m: map<K, V>, k1: K, k2: K, k3: K, k4: K, k5: K, k6: K, v1: V, v2: V, v3: V, v4: V, v5: V, v6: V)
    ensures m[k1 := v1][k2 := v2][k3 := v3][k4 := v4][k5 := v5][k6 := v6]
         == m + map[k1 := v1, k2 := v2, k3 := v3, k4 := v4, k5 := v5, k6 := v6]
  {
  }

  lemma UpdateIsUnion<K, V>(m: map<K, V>, k: K, v: V)
    ensures m[k := v] == m + map[k := v]
  {
  }

  /**
   * One pass of the loop over the types (database.py, lines 93-109): the six
   * entries of type `t` are assigned into `stats`, every other entry kept.
   */
  method AddTypeEntries(stats: map<StatKey, Stat>, t: EventType, events: seq<Event>)
    returns (updated: map<StatKey, Stat>)
    ensures updated == stats + TypeEntries(t, events)
  {
    var intervals := CalculateIntervals(events);
    var s: TypeStats;
    if |intervals| > 0 {
      var std := if |intervals| > 1 then RoundedSqrt1(Variance(intervals)) else 0.0;
      var location := LocationStats(events);
      var timeDist := TimeOfDayDistribution(events);
      s := TypeStats(Round1(Max(intervals)), Round1(Mean(intervals)), Round1(Median(intervals)), std, location, timeDist);
    } else {
      s := Defaults;
    }
    assert s == Measure(events);
    updated := stats;
    updated := updated[TypeStat(t, MaxInterval) := Scalar(s.max)];
    updated := updated[TypeStat(t, AvgInterval) := Scalar(s.avg)];
    updated := updated[TypeStat(t, MedianInterval) := Scalar(s.median)];
    updated := updated[TypeStat(t, StdInterval) := Scalar(s.std)];
    updated := updated[TypeStat(t, LocationShare) := Breakdown(s.location)];
    updated := updated[TypeStat(t, TimeShare) := Breakdown(s.timeDist)];
    SixUpdates(stats, TypeStat(t, MaxInterval), TypeStat(t, AvgInterval), TypeStat(t, MedianInterval),
               TypeStat(t, StdInterval), TypeStat(t, LocationShare), TypeStat(t, TimeShare),
               Scalar(s.max), Scalar(s.avg), Scalar(s.median), Scalar(s.std), Breakdown(s.location), Breakdown(s.timeDist));
  }

  /** `get_statistics` (database.py, lines 89-117): the loop over the types, then the daily averages. */
  method GetStatistics(fetch: string -> seq<Event>) returns (stats: map<StatKey, Stat>)
    ensures stats == Summary(fetch)
  {
    stats := map[];
    var eventTypes := EventTypes;
    for i := 0 to |eventTypes|
      invariant stats == EntriesOf(eventTypes[..i], fetch)
    {
      var t := eventTypes[i];
      stats := AddTypeEntries(stats, t, fetch(Name(t)));
      EntriesStep(eventTypes, i, fetch);
    }
    assert eventTypes[..|eventTypes|] == EventTypes;
    EntriesOfBothTypes(fetch);
    var peeDaily := DailyAverages(fetch("Pee"));
    var pooDaily := DailyAverages(fetch("Poo"));
    UpdateIsUnion(stats, DailyKey, PerType(map["pee" := peeDaily, "poo" := pooDaily]));
    stats := stats[DailyKey := PerType(map["pee" := peeDaily, "poo" := pooDaily])];
  }

  /** Two calls with no event added in between return the same dictionary. */
  method StatisticsIdempotent(fetch: string -> seq<Event>) returns (first: map<StatKey, Stat>, second: map<StatKey, Stat>)
    ensures first == second
  {
    first := GetStatistics(fetch);
    second := GetStatistics(fetch);
  }

  // ----- What the dictionary holds -----

  /** Each of the six keys of a type is among its entries, holding its field's value. */
  lemma EntriesForAt(t: EventType, s: TypeStats, f: Field)
    ensures TypeStat(t, f) in EntriesFor(t, s)
    ensures EntriesFor(t, s)[TypeStat(t, f)] == FieldStat(s, f)
  {
  }

  /** A type's entries have exactly the six keys of that type and no other. */
  lemma EntriesForKeys(t: EventType, s: TypeStats)
    ensures EntriesFor(t, s).Keys
         == {TypeStat(t, MaxInterval), TypeStat(t, AvgInterval), TypeStat(t, MedianInterval),
             TypeStat(t, StdInterval), TypeStat(t, LocationShare), TypeStat(t, TimeShare)}
  {
  }

  /** A type's entries hold no key of the other type and not `daily_averages`. */
  lemma EntriesForOnlyOwnKeys(t: EventType, s: TypeStats, k: StatKey)
    requires k.DailyKey? || k.eventType != t
    ensures k !in EntriesFor(t, s)
  {
    EntriesForKeys(t, s);
  }

  lemma UnionLookupLeft<K, V>(m: map<K, V>, n: map<K, V>, k: K)
    requires k in m && k !in n
    ensures k in m + n && (m + n)[k] == m[k]
  {
  }

  lemma UnionLookupRight<K, V>(m: map<K, V>, n: map<K, V>, k: K)
    requires k in n
    ensures k in m + n && (m + n)[k] == n[k]
  {
  }

  /** The values the loop computes for type `t` from its events. */
  function StatsOf(fetch: string -> seq<Event>, t: EventType): TypeStats
  {
    Measure(fetch(Name(t)))
  }

  /**
   * Each per-type key holds the value of its field among the values the pass
   * of its type computed: the other type and `daily_averages` never overwrite it.
   */
  lemma SummaryEntry(fetch: string -> seq<Event>, t: EventType, f: Field)
    ensures TypeStat(t, f) in Summary(fetch)
    ensures Summary(fetch)[TypeStat(t, f)] == FieldStat(StatsOf(fetch, t), f)
  {
    var k := TypeStat(t, f);
    var ps, qs := StatsOf(fetch, Pee), StatsOf(fetch, Poo);
    var pee, poo := EntriesFor(Pee, ps), EntriesFor(Poo, qs);
    var daily := map[DailyKey := DailySection(fetch)];
    assert Summary(fetch) == pee + poo + daily;
    if t == Pee {
      EntriesForAt(Pee, ps, f);
      EntriesForOnlyOwnKeys(Poo, qs, k);
      UnionLookupLeft(pee, poo, k);
    } else {
      EntriesForAt(Poo, qs, f);
      UnionLookupRight(pee, poo, k);
    }
    UnionLookupLeft(pee + poo, daily, k);
  }

  /** The key `daily_averages` nests the daily averages of both types under `pee` and `poo`. */
  lemma SummaryDaily(fetch: string -> seq<Event>)
    ensures DailyKey in Summary(fetch)
    ensures Summary(fetch)[DailyKey] == DailySection(fetch)
  {
    var pee, poo := TypeEntries(Pee, fetch("Pee")), TypeEntries(Poo, fetch("Poo"));
    UnionLookupRight(pee + poo, map[DailyKey := DailySection(fetch)], DailyKey);
  }

  /** Every key, per-type or `daily_averages`, is present in the dictionary, whatever the store holds. */
  lemma SummaryHasKey(fetch: string -> seq<Event>, k: StatKey)
    ensures k in Summary(fetch)
  {
    match k
    case TypeStat(t, f) => SummaryEntry(fetch, t, f);
    case DailyKey => SummaryDaily(fetch);
  }

  /** The value the dictionary holds for one statistic of one type. */
  function Entry(fetch: string -> seq<Event>, t: EventType, f: Field): (e: Stat)
    ensures e == FieldStat(StatsOf(fetch, t), f)
  {
    SummaryEntry(fetch, t, f);
    Summary(fetch)[TypeStat(t, f)]
  }

  /** The four numeric entries of type `t` in the dictionary are the ones its pass computed. */
  lemma ScalarEntries(fetch: string -> seq<Event>, t: EventType)
    ensures Entry(fetch, t, MaxInterval) == Scalar(StatsOf(fetch, t).max)
    ensures Entry(fetch, t, AvgInterval) == Scalar(StatsOf(fetch, t).avg)
    ensures Entry(fetch, t, MedianInterval) == Scalar(StatsOf(fetch, t).median)
    ensures Entry(fetch, t, StdInterval) == Scalar(StatsOf(fetch, t).std)
  {
    var s := StatsOf(fetch, t);
    ScalarField(s, MaxInterval, s.max);
    ScalarField(s, AvgInterval, s.avg);
    ScalarField(s, MedianInterval, s.median);
    ScalarField(s, StdInterval, s.std);
  }

  lemma ScalarField(s: TypeStats, f: Field, x: real)
    requires f == MaxInterval ==> x == s.max
    requires f == AvgInterval ==> x == s.avg
    requires f == MedianInterval ==> x == s.median
    requires f == StdInterval ==> x == s.std
    requires f !in {LocationShare, TimeShare}
    ensures FieldStat(s, f) == Scalar(x)
  {
  }

  // ----- What one pass computes -----

  /** A type with fewer than two events (no intervals) gets the fixed zero defaults. */
  lemma DefaultsWhenFewEvents(events: seq<Event>)
    requires |events| < 2
    ensures Measure(events) == TypeStats(0.0, 0.0, 0.0, 0.0, map["Inside" := 0.0, "Outside" := 0.0],
                                         map["morning" := 0.0, "evening" := 0.0, "night" := 0.0])
  {
  }

  /** With two or more events the maximum is at least the mean, the median and every rounded interval. */
  lemma MaxDominates(events: seq<Event>)
    requires |events| >= 2
    ensures forall i :: 0 <= i < |CalculateIntervals(events)| ==> Round1(CalculateIntervals(events)[i]) <= Measure(events).max
    ensures Measure(events).avg <= Measure(events).max
    ensures Measure(events).median <= Measure(events).max
  {
    RoundedMaxDominates(CalculateIntervals(events));
  }

  /** Rounding keeps the maximum on top of the mean, the median and every element. */
  lemma RoundedMaxDominates(s: seq<real>)
    requires |s| > 0
    ensures Round1(Mean(s)) <= Round1(Max(s))
    ensures Round1(Median(s)) <= Round1(Max(s))
    ensures forall i :: 0 <= i < |s| ==> Round1(s[i]) <= Round1(Max(s))
  {
    MeanAtMostMax(s);
    Round1Monotone(Mean(s), Max(s));
    MedianAtMostMax(s);
    Round1Monotone(Median(s), Max(s));
    forall i | 0 <= i < |s| ensures Round1(s[i]) <= Round1(Max(s)) {
      Round1Monotone(s[i], Max(s));
    }
  }

  /**
   * Exactly two events give one interval: max, mean and median all equal it
   * rounded, and the standard deviation is 0.
   */
  lemma SingleInterval(events: seq<Event>)
    requires |events| == 2
    ensures var gap := Hours(events[1].timestamp - events[0].timestamp);
      Measure(events).max == Measure(events).avg == Measure(events).median == Round1(gap)
    ensures Measure(events).std == 0.0
  {
    SingletonStatistics(CalculateIntervals(events));
  }

  /** Of a single value, the maximum, mean and median are that value. */
  lemma SingletonStatistics(s: seq<real>)
    requires |s| == 1
    ensures Max(s) == s[0] && Mean(s) == s[0] && Median(s) == s[0]
  {
    assert s == [s[0]];
    assert Sum(s) == s[0] by {
      assert s[..0] == [];
    }
  }

  /**
   * With two or more intervals the spread is `round(x, 1)` for the exact
   * square root `x` of their sample variance.
   */
  lemma SpreadIsRoundedStdev(intervals: seq<real>, x: real)
    requires |intervals| >= 2
    requires x >= 0.0 && x * x == Variance(intervals)
    ensures Spread(intervals) == Round1(x)
  {
    RoundedSqrt1IsRoundOfRoot(Variance(intervals), x);
  }

  /**
   * The location breakdown counts the EVENTS, not the intervals: every
   * location of every event, the last one included, is a key, and no other.
   */
  lemma LocationsOverEvents(events: seq<Event>)
    requires |events| >= 2
    ensures Measure(events).location.Keys == set e | e in events :: e.location
  {
    LocationKeys(events);
  }

  /**
   * The time-of-day breakdown also counts the events: the three periods
   * cover them all, so their percentages add up to 100 up to rounding.
   */
  lemma TimesOfDayOverEvents(events: seq<Event>)
    requires |events| >= 2
    ensures Measure(events).timeDist == TimeOfDayShares(events)
    ensures var d := Measure(events).timeDist;
      99.85 <= d["morning"] + d["evening"] + d["night"] <= 100.15
  {
    TimeOfDaySharesSum(events);
  }

  /** With the events in ascending order, as the store returns them, no interval statistic is negative. */
  lemma NonNegativeWhenAscending(events: seq<Event>)
    requires Ascending(events)
    ensures Measure(events).max >= 0.0 && Measure(events).avg >= 0.0
    ensures Measure(events).median >= 0.0 && Measure(events).std >= 0.0
  {
    var intervals := CalculateIntervals(events);
    if |intervals| > 0 {
      IntervalsNonNegative(events);
      RoundedNonNegative(intervals);
      if |intervals| > 1 {
        RoundedSqrt1NonNegative(Variance(intervals));
      }
    }
  }

  /** Rounding keeps the maximum, the mean and the median of non-negative values non-negative. */
  lemma RoundedNonNegative(s: seq<real>)
    requires |s| > 0
    requires forall i :: 0 <= i < |s| ==> s[i] >= 0.0
    ensures Round1(Max(s)) >= 0.0 && Round1(Mean(s)) >= 0.0 && Round1(Median(s)) >= 0.0
  {
    Round1Exact(0);
    MeanAtLeast(s, 0.0);
    MedianAtLeast(s, 0.0);
    Round1Monotone(0.0, Max(s));
    Round1Monotone(0.0, Mean(s));
    Round1Monotone(0.0, Median(s));
  }

  // ----- Daily averages -----

  /** The daily averages the dictionary nests for one type, under its lower-cased name. */
  function DailyOf(fetch: string -> seq<Event>, t: EventType): map<Date, real>
  {
    SummaryDaily(fetch);
    LowerTypeNames();
    Summary(fetch)[DailyKey].byType[Lower(Name(t))]
  }

  /**
   * Daily averages are computed for every type whatever its number of events:
   * one entry for each date on which a pair of consecutive events starts, and
   * none when the type has fewer than two events.
   */
  lemma DailyOfDates(fetch: string -> seq<Event>, t: EventType)
    ensures DailyOf(fetch, t) == DailyAverageMap(fetch(Name(t)))
    ensures DailyOf(fetch, t).Keys == set i | 0 <= i < |fetch(Name(t))| - 1 :: DateOf(fetch(Name(t))[i].timestamp)
    ensures |fetch(Name(t))| < 2 ==> DailyOf(fetch, t) == map[]
  {
    SummaryDaily(fetch);
    DailySectionLookup(fetch, t);
    DailyAverageKeys(fetch(Name(t)));
  }

  lemma DailySectionLookup(fetch: string -> seq<Event>, t: EventType)
    ensures Lower(Name(t)) in DailySection(fetch).byType
    ensures DailySection(fetch).byType[Lower(Name(t))] == DailyAverageMap(fetch(Name(t)))
  {
    LowerTypeNames();
  }

  /** With the events in ascending order, no daily average in the dictionary is negative. */
  lemma DailyOfNonNegative(fetch: string -> seq<Event>, t: EventType)
    requires Ascending(fetch(Name(t)))
    ensures forall d :: d in DailyOf(fetch, t) ==> DailyOf(fetch, t)[d] >= 0.0
  {
    DailyOfDates(fetch, t);
    forall d | d in DailyAverageMap(fetch(Name(t))) ensures DailyAverageMap(fetch(Name(t)))[d] >= 0.0 {
      DailyAveragesNonNegative(fetch(Name(t)), d);
    }
  }
}
