/**
 * Worked examples: concrete event lists and the values the model gives them,
 * proved below.  Day 19723 is 2024-01-01.
 */
module Scenarios {
  import opened Events
  import opened Numbers
  import opened Grouping
  import opened Intervals
  import opened Daily
  import opened Distribution
  import opened Roots
  import opened Statistics

  /** 2024-01-01, as a count of days since 1970-01-01. */
  const NewYear2024: Date := 19723

  /** An event at a whole hour of a given day. */
  function At(day: Date, hour: int, location: string): Event
  {
    Event(day * SecondsPerDay + hour * SecondsPerHour, location)
  }

  // ----- Two events, four hours apart -----

  function TwoEvents(): seq<Event>
  {
    [At(NewYear2024, 6, "Inside"), At(NewYear2024, 10, "Outside")]
  }

  lemma TwoEventsIntervals()
    ensures CalculateIntervals(TwoEvents()) == [4.0]
  {
  }

  lemma TwoEventsLocations()
    ensures LocationShares(TwoEvents()) == map["Inside" := 50.0, "Outside" := 50.0]
  {
    var locs := Locations(TwoEvents());
    assert locs == ["Inside", "Outside"];
    assert "Inside" != "Outside" by {
      assert "Inside"[0] != "Outside"[0];
    }
    assert Count(locs, "Inside") == 1 by {
      assert locs[..1] == ["Inside"] && locs[..1][..0] == [];
    }
    assert Count(locs, "Outside") == 1 by {
      assert locs[..1] == ["Inside"] && locs[..1][..0] == [];
    }
    Round1Exact(500);
  }

  lemma TwoEventsTimesOfDay()
    ensures TimeOfDayShares(TwoEvents()) == map["morning" := 100.0, "evening" := 0.0, "night" := 0.0]
  {
    var ps := Periods(TwoEvents());
    assert ps == [Morning, Morning];
    assert ps[..1] == [Morning] && ps[..1][..0] == [];
    Round1Exact(1000);
    Round1Exact(0);
  }

  lemma TwoEventsDaily()
    ensures DailyAverageMap(TwoEvents()) == map[NewYear2024 := 4.0]
  {
    TwoEventsIntervals();
    SingleDay(TwoEvents(), NewYear2024);
    assert Mean([4.0]) == 4.0 by {
      assert [4.0][..0] == [];
    }
    Round1Exact(40);
  }

  /**
   * Two events four hours apart on 2024-01-01: every interval statistic is
   * 4.0 and the spread 0; the locations split evenly; both events fall in the
   * morning.
   */
  lemma TwoEventsMeasure()
    ensures Measure(TwoEvents()) == TypeStats(4.0, 4.0, 4.0, 0.0,
                                              map["Inside" := 50.0, "Outside" := 50.0],
                                              map["morning" := 100.0, "evening" := 0.0, "night" := 0.0])
  {
    SingleInterval(TwoEvents());
    Round1Exact(40);
    TwoEventsLocations();
    TwoEventsTimesOfDay();
  }

  /** The same two events, read back from the dictionary and the values behind it, with the day's average of 4.0. */
  lemma ScenarioTwoEvents(fetch: string -> seq<Event>)
    requires fetch("Pee") == TwoEvents()
    ensures Entry(fetch, Pee, MaxInterval) == Scalar(4.0)
    ensures Entry(fetch, Pee, AvgInterval) == Scalar(4.0)
    ensures Entry(fetch, Pee, MedianInterval) == Scalar(4.0)
    ensures Entry(fetch, Pee, StdInterval) == Scalar(0.0)
    ensures StatsOf(fetch, Pee).location == map["Inside" := 50.0, "Outside" := 50.0]
    ensures StatsOf(fetch, Pee).timeDist == map["morning" := 100.0, "evening" := 0.0, "night" := 0.0]
    ensures DailyOf(fetch, Pee) == map[NewYear2024 := 4.0]
  {
    assert StatsOf(fetch, Pee) == Measure(TwoEvents());
    TwoEventsMeasure();
    ScalarEntries(fetch, Pee);
    DailyOfDates(fetch, Pee);
    TwoEventsDaily();
  }

  /** No events of a type: the six zero defaults, and no daily averages. */
  lemma ScenarioNoEvents(fetch: string -> seq<Event>)
    requires fetch("Poo") == []
    ensures Entry(fetch, Poo, MaxInterval) == Scalar(0.0)
    ensures Entry(fetch, Poo, AvgInterval) == Scalar(0.0)
    ensures Entry(fetch, Poo, MedianInterval) == Scalar(0.0)
    ensures Entry(fetch, Poo, StdInterval) == Scalar(0.0)
    ensures StatsOf(fetch, Poo).location == map["Inside" := 0.0, "Outside" := 0.0]
    ensures StatsOf(fetch, Poo).timeDist == map["morning" := 0.0, "evening" := 0.0, "night" := 0.0]
    ensures DailyOf(fetch, Poo) == map[]
  {
    assert StatsOf(fetch, Poo) == Measure([]);
    DefaultsWhenFewEvents([]);
    ScalarEntries(fetch, Poo);
    DailyOfDates(fetch, Poo);
  }

  // ----- Three events on one day, at 06:00, 08:00 and 20:00 -----

  function ThreeEvents(): seq<Event>
  {
    [At(NewYear2024, 6, "Inside"), At(NewYear2024, 8, "Inside"), At(NewYear2024, 20, "Outside")]
  }

  lemma ThreeEventsIntervals()
    ensures CalculateIntervals(ThreeEvents()) == [2.0, 12.0]
  {
  }

  /** Of the gaps 2 and 12 the maximum is 12. */
  lemma GapMax()
    ensures Max([2.0, 12.0]) == 12.0
  {
    var s := [2.0, 12.0];
    assert s[..1] == [2.0] && s[..1][..0] == [];
  }

  /** Of the gaps 2 and 12 the mean is 7. */
  lemma GapMean()
    ensures Mean([2.0, 12.0]) == 7.0
  {
    var s := [2.0, 12.0];
    assert s[..1] == [2.0] && s[..1][..0] == [];
    assert Sum(s) == 14.0;
  }

  /** Of the gaps 2 and 12 the median is 7, the mean of the two middle values. */
  lemma GapMedian()
    ensures Median([2.0, 12.0]) == 7.0
  {
    var s := [2.0, 12.0];
    assert Sorted([12.0]) == [12.0] by {
      assert [12.0][1..] == [];
    }
    assert Sorted(s) == [2.0, 12.0] by {
      assert s[1..] == [12.0];
    }
  }

  /** Of the gaps 2 and 12 the sample variance is 50: the squared deviations 25 + 25 over one degree of freedom. */
  lemma GapVariance()
    ensures Variance([2.0, 12.0]) == 50.0
  {
    var s := [2.0, 12.0];
    GapMean();
    assert SquaredDeviations(s, 7.0) == 50.0;
  }

  /** The square root of 50 is 7.07…, which rounds to 7.1. */
  lemma RootOfFifty()
    ensures RoundedSqrt1(50.0) == 7.1
  {
    ISqrtUnique(5000, 70);
    assert (100.0 * 50.0).Floor == 5000;
    assert HalfSquare(70) == 4970.25;
  }

  /**
   * Three events on 2024-01-01 at 06:00, 08:00 and 20:00: the gaps are 2 and
   * 12 hours, so the maximum is 12.0, mean and median 7.0 and the standard
   * deviation 7.1.
   */
  lemma ThreeEventsMeasure()
    ensures Measure(ThreeEvents()).max == 12.0
    ensures Measure(ThreeEvents()).avg == 7.0
    ensures Measure(ThreeEvents()).median == 7.0
    ensures Measure(ThreeEvents()).std == 7.1
  {
    ThreeEventsIntervals();
    GapMax();
    GapMean();
    GapMedian();
    GapVariance();
    RootOfFifty();
    Round1Exact(120);
    Round1Exact(70);
  }

  lemma ThreeEventsDaily()
    ensures DailyAverageMap(ThreeEvents()) == map[NewYear2024 := 7.0]
  {
    ThreeEventsIntervals();
    GapMean();
    Round1Exact(70);
    SingleDay(ThreeEvents(), NewYear2024);
  }

  /** The same three events, read back from the dictionary: both gaps count towards that day's average of 7.0. */
  lemma ScenarioThreeEvents(fetch: string -> seq<Event>)
    requires fetch("Pee") == ThreeEvents()
    ensures Entry(fetch, Pee, MaxInterval) == Scalar(12.0)
    ensures Entry(fetch, Pee, AvgInterval) == Scalar(7.0)
    ensures Entry(fetch, Pee, MedianInterval) == Scalar(7.0)
    ensures Entry(fetch, Pee, StdInterval) == Scalar(7.1)
    ensures DailyOf(fetch, Pee) == map[NewYear2024 := 7.0]
  {
    assert StatsOf(fetch, Pee) == Measure(ThreeEvents());
    ThreeEventsMeasure();
    ScalarEntries(fetch, Pee);
    DailyOfDates(fetch, Pee);
    ThreeEventsDaily();
  }
}
