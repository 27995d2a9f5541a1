/**
 * `get_location_stats` and `get_time_of_day_distribution`: how the events of
 * one type spread over locations and over three periods of the day, as
 * percentages rounded to one decimal.
 */
module Distribution {
  import opened Events
  import opened Numbers
  import opened Grouping

  /** `count / total * 100` before rounding. */
  function Share(count: nat, total: nat): real
    requires total > 0
  {
    count as real / total as real * 100.0
  }

  /** `round(count / total * 100, 1)`. */
  function Percent(count: nat, total: nat): real
    requires total > 0
  {
    Round1(Share(count, total))
  }

  lemma ShareAdd(a: nat, b: nat, total: nat)
    requires total > 0
    ensures Share(a, total) + Share(b, total) == Share(a + b, total)
  {
    var t := total as real;
    assert a as real / t + b as real / t == (a + b) as real / t;
  }

  lemma ShareWhole(total: nat)
    requires total > 0
    ensures Share(total, total) == 100.0
  {
  }

  // ----- Location frequency -----

  /** The location percentages: one entry per location that occurs, its share of all events. */
  function LocationShares(events: seq<Event>): map<string, real>
  {
    map loc | loc in Locations(events) :: Percent(Count(Locations(events), loc), |events|)
  }

  /**
   * The counting loop and the percentage comprehension (database.py, lines
   * 65-70).  An empty event list gives an empty dictionary: the comprehension
   * then has nothing to divide.
   */
  method LocationStats(events: seq<Event>) returns (shares: map<string, real>)
    ensures shares == LocationShares(events)
    ensures shares.Keys == set e | e in events :: e.location
    ensures |events| == 0 ==> shares == map[]
  {
    ghost var locs := Locations(events);
    var counts: map<string, nat> := map[];
    for i := 0 to |events|
      invariant counts == Tally(locs[..i])
    {
      var loc := events[i].location;
      TallyStep(locs, i);
      counts := counts[loc := (if loc in counts then counts[loc] else 0) + 1];
    }
    assert locs[..|events|] == locs;
    TallyCounts(locs);
    var total := |events|;
    shares := map loc | loc in counts :: Percent(counts[loc], total);
    LocationKeys(events);
  }

  /** The keys are exactly the distinct locations of the events. */
  lemma LocationKeys(events: seq<Event>)
    ensures LocationShares(events).Keys == set e | e in events :: e.location
  {
    var locs := Locations(events);
    forall loc | loc in locs ensures exists e :: e in events && e.location == loc {
      var i :| 0 <= i < |locs| && locs[i] == loc;
      assert events[i] in events;
    }
    forall e | e in events ensures e.location in locs {
      var i :| 0 <= i < |events| && events[i] == e;
      assert locs[i] == e.location;
    }
  }

  /** The unrounded shares of the keys `keys`, added up. */
  function SumOfShares(keys: seq<string>, ks: seq<string>, total: nat): real
    requires total > 0
  {
    if |keys| == 0 then 0.0
    else SumOfShares(keys[..|keys| - 1], ks, total) + Share(Count(ks, keys[|keys| - 1]), total)
  }

  lemma {:induction false} SumOfSharesIsShareOfSum(keys: seq<string>, ks: seq<string>, total: nat)
    requires total > 0
    ensures SumOfShares(keys, ks, total) == Share(SumOfCounts(keys, ks), total)
  {
    if |keys| > 0 {
      var init := keys[..|keys| - 1];
      SumOfSharesIsShareOfSum(init, ks, total);
      ShareAdd(SumOfCounts(init, ks), Count(ks, keys[|keys| - 1]), total);
    }
  }

  /** The entries of `m` at the keys `keys`, added up. */
  function SumAt(keys: seq<string>, m: map<string, real>): real
    requires forall k :: k in keys ==> k in m
  {
    if |keys| == 0 then 0.0 else SumAt(keys[..|keys| - 1], m) + m[keys[|keys| - 1]]
  }

  /**
   * Over any duplicate-free enumeration of the locations, the unrounded
   * percentages add up to exactly 100, and the rounded ones that the
   * dictionary holds to within 0.05 per location of 100.
   */
  lemma LocationSharesSumTo100(events: seq<Event>, keys: seq<string>)
    requires |events| > 0
    requires NoDuplicates(keys)
    requires forall k :: k in keys <==> k in LocationShares(events)
    ensures SumOfShares(keys, Locations(events), |events|) == 100.0
    ensures 100.0 - 0.05 * |keys| as real <= SumAt(keys, LocationShares(events)) <= 100.0 + 0.05 * |keys| as real
  {
    var locs, shares := Locations(events), LocationShares(events);
    forall i | 0 <= i < |locs| ensures locs[i] in keys {
      assert locs[i] in shares;
    }
    CountsPartition(keys, locs);
    SumOfSharesIsShareOfSum(keys, locs, |events|);
    ShareWhole(|events|);
    forall k | k in keys ensures k in shares && shares[k] == Percent(Count(locs, k), |events|) {
    }
    RoundedSumNear(keys, locs, |events|, shares);
  }

  lemma {:induction false} RoundedSumNear(keys: seq<string>, ks: seq<string>, total: nat, m: map<string, real>)
    requires total > 0
    requires forall k :: k in keys ==> k in m && m[k] == Percent(Count(ks, k), total)
    ensures SumOfShares(keys, ks, total) - 0.05 * |keys| as real <= SumAt(keys, m)
    ensures SumAt(keys, m) <= SumOfShares(keys, ks, total) + 0.05 * |keys| as real
  {
    if |keys| > 0 {
      RoundedSumNear(keys[..|keys| - 1], ks, total, m);
      Round1Near(Share(Count(ks, keys[|keys| - 1]), total));
    }
  }

  // ----- Time of day -----

  /** The three periods of the day that events are bucketed into. */
  datatype Period = Morning | Evening | Night

  /** The bucket of an hour: [5, 12) is morning, [12, 18) evening, every other hour night. */
  function PeriodOf(hour: int): Period
  {
    if 5 <= hour < 12 then Morning
    else if 12 <= hour < 18 then Evening
    else Night
  }

  /** The period of each event, in order. */
  function Periods(events: seq<Event>): (ps: seq<Period>)
    ensures |ps| == |events|
    ensures forall i :: 0 <= i < |events| ==> ps[i] == PeriodOf(HourOf(events[i].timestamp))
  {
    seq(|events|, i requires 0 <= i < |events| => PeriodOf(HourOf(events[i].timestamp)))
  }

  /**
   * Each event's period is fixed by its second of the day: morning from 05:00
   * up to noon, evening from noon up to 18:00, night for the rest.
   */
  lemma PeriodsAreClockBands(events: seq<Event>)
    ensures forall i :: 0 <= i < |events| ==>
      (Periods(events)[i] == Morning <==> 5 * SecondsPerHour <= events[i].timestamp % SecondsPerDay < 12 * SecondsPerHour)
    ensures forall i :: 0 <= i < |events| ==>
      (Periods(events)[i] == Evening <==> 12 * SecondsPerHour <= events[i].timestamp % SecondsPerDay < 18 * SecondsPerHour)
    ensures forall i :: 0 <= i < |events| ==>
      (Periods(events)[i] == Night <==> events[i].timestamp % SecondsPerDay < 5 * SecondsPerHour
                                        || 18 * SecondsPerHour <= events[i].timestamp % SecondsPerDay)
  {
    var ps := Periods(events);
    forall i | 0 <= i < |events|
      ensures var s := events[i].timestamp % SecondsPerDay;
        && (ps[i] == Morning <==> 5 * SecondsPerHour <= s < 12 * SecondsPerHour)
        && (ps[i] == Evening <==> 12 * SecondsPerHour <= s < 18 * SecondsPerHour)
        && (ps[i] == Night <==> s < 5 * SecondsPerHour || 18 * SecondsPerHour <= s)
    {
      PeriodBands(events[i].timestamp);
    }
  }

  /** The bucket percentage as the source guards it: 0 when there are no events. */
  function GuardedPercent(count: nat, total: nat): real
  {
    if total > 0 then Percent(count, total) else 0.0
  }

  /** The time-of-day dictionary: the share of events in each period. */
  function TimeOfDayShares(events: seq<Event>): map<string, real>
  {
    var ps, total := Periods(events), |events|;
    map["morning" := GuardedPercent(Count(ps, Morning), total),
        "evening" := GuardedPercent(Count(ps, Evening), total),
        "night" := GuardedPercent(Count(ps, Night), total)]
  }

  /** The counting loop and the guarded percentages (database.py, lines 72-87). */
  method TimeOfDayDistribution(events: seq<Event>) returns (dist: map<string, real>)
    ensures dist == TimeOfDayShares(events)
    ensures dist.Keys == {"morning", "evening", "night"}
    ensures |events| == 0 ==> dist["morning"] == dist["evening"] == dist["night"] == 0.0
  {
    ghost var ps := Periods(events);
    var morning, evening, night := 0, 0, 0;
    for i := 0 to |events|
      invariant morning == Count(ps[..i], Morning)
      invariant evening == Count(ps[..i], Evening)
      invariant night == Count(ps[..i], Night)
    {
      var hour := HourOf(events[i].timestamp);
      assert ps[..i + 1] == ps[..i] + [ps[i]];
      CountSnoc(ps[..i], ps[i], Morning);
      CountSnoc(ps[..i], ps[i], Evening);
      CountSnoc(ps[..i], ps[i], Night);
      if 5 <= hour < 12 {
        morning := morning + 1;
      } else if 12 <= hour < 18 {
        evening := evening + 1;
      } else {
        night := night + 1;
      }
    }
    assert ps[..|events|] == ps;
    var total := |events|;
    dist := map["morning" := if total > 0 then Percent(morning, total) else 0.0,
                "evening" := if total > 0 then Percent(evening, total) else 0.0,
                "night" := if total > 0 then Percent(night, total) else 0.0];
  }

  /** Every event lands in exactly one period, so the three counts add up to the number of events. */
  lemma PeriodsPartition(events: seq<Event>)
    ensures Count(Periods(events), Morning) + Count(Periods(events), Evening) + Count(Periods(events), Night) == |events|
  {
    var keys := [Morning, Evening, Night];
    var ps := Periods(events);
    forall i | 0 <= i < |ps| ensures ps[i] in keys {
    }
    CountsPartition(keys, ps);
    assert keys[..2] == [Morning, Evening] && keys[..2][..1] == [Morning] && keys[..2][..1][..0] == [];
    assert SumOfCounts(keys, ps) == SumOfCounts([Morning, Evening], ps) + Count(ps, Night);
    assert SumOfCounts([Morning, Evening], ps) == SumOfCounts([Morning], ps) + Count(ps, Evening);
    assert SumOfCounts([Morning], ps) == SumOfCounts([], ps) + Count(ps, Morning);
  }

  /**
   * For a non-empty list the unrounded period shares add up to exactly 100 and
   * the rounded ones to within 0.15 of 100; for an empty list all three are 0.
   */
  lemma TimeOfDaySharesSum(events: seq<Event>)
    ensures |events| > 0 ==>
      Share(Count(Periods(events), Morning), |events|) + Share(Count(Periods(events), Evening), |events|)
        + Share(Count(Periods(events), Night), |events|) == 100.0
    ensures var d := TimeOfDayShares(events);
      |events| > 0 ==> 99.85 <= d["morning"] + d["evening"] + d["night"] <= 100.15
    ensures var d := TimeOfDayShares(events);
      |events| == 0 ==> d["morning"] == d["evening"] == d["night"] == 0.0
  {
    if |events| > 0 {
      var ps, total := Periods(events), |events|;
      var m, e, n := Count(ps, Morning), Count(ps, Evening), Count(ps, Night);
      PeriodsPartition(events);
      ShareAdd(m, e, total);
      ShareAdd(m + e, n, total);
      ShareWhole(total);
      Round1Near(Share(m, total));
      Round1Near(Share(e, total));
      Round1Near(Share(n, total));
      var d := TimeOfDayShares(events);
      assert d["morning"] == Round1(Share(m, total));
      assert d["evening"] == Round1(Share(e, total));
      assert d["night"] == Round1(Share(n, total));
    }
  }

  /** A period expressed on the clock: the second of the day the timestamp falls on. */
  lemma PeriodBands(timestamp: int)
    ensures var s := timestamp % SecondsPerDay;
      && (PeriodOf(HourOf(timestamp)) == Morning <==> 5 * 3600 <= s < 12 * 3600)
      && (PeriodOf(HourOf(timestamp)) == Evening <==> 12 * 3600 <= s < 18 * 3600)
      && (PeriodOf(HourOf(timestamp)) == Night <==> s < 5 * 3600 || 18 * 3600 <= s)
  {
  }
}
