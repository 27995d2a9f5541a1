/** `calculate_intervals`: the gaps between consecutive events of one type, in hours. */
module Intervals {
  import opened Events
  import opened Numbers

  /**
   * The gap between each event and the next: fewer than two events give no
   * gaps, otherwise there is one gap per consecutive pair.
   */
  function CalculateIntervals(events: seq<Event>): (r: seq<real>)
    ensures |r| == if |events| < 2 then 0 else |events| - 1
    ensures forall i :: 0 <= i < |r| ==> r[i] == Hours(events[i + 1].timestamp - events[i].timestamp)
  {
    if |events| < 2 then []
    else [Hours(events[1].timestamp - events[0].timestamp)] + CalculateIntervals(events[1..])
  }

  /** Events in ascending order are never a negative number of hours apart. */
  lemma IntervalsNonNegative(events: seq<Event>)
    requires Ascending(events)
    ensures forall i :: 0 <= i < |CalculateIntervals(events)| ==> CalculateIntervals(events)[i] >= 0.0
  {
  }

  /** One more event adds exactly one gap, measured from the previous last event. */
  lemma {:induction false} IntervalsSnoc(events: seq<Event>, e: Event)
    requires |events| > 0
    ensures CalculateIntervals(events + [e])
         == CalculateIntervals(events) + [Hours(e.timestamp - events[|events| - 1].timestamp)]
  {
    var ext := events + [e];
    var n := |events|;
    var lhs, front := CalculateIntervals(ext), CalculateIntervals(events);
    var rhs := front + [Hours(e.timestamp - events[n - 1].timestamp)];
    assert |lhs| == n == |rhs|;
    forall i | 0 <= i < n ensures lhs[i] == rhs[i] {
      assert lhs[i] == Hours(ext[i + 1].timestamp - ext[i].timestamp);
      if i < n - 1 {
        assert ext[i] == events[i] && ext[i + 1] == events[i + 1];
        assert rhs[i] == front[i];
      } else {
        assert ext[i] == events[n - 1] && ext[i + 1] == e;
      }
    }
  }

  /** The gaps add up to the time from the first event to the last. */
  lemma {:induction false} IntervalsTotal(events: seq<Event>)
    requires |events| >= 2
    ensures Sum(CalculateIntervals(events)) == Hours(events[|events| - 1].timestamp - events[0].timestamp)
  {
    var n := |events|;
    var init := events[..n - 1];
    assert events == init + [events[n - 1]];
    IntervalsSnoc(init, events[n - 1]);
    var iv := CalculateIntervals(events);
    assert iv[..|iv| - 1] == CalculateIntervals(init);
    if n > 2 {
      IntervalsTotal(init);
    }
  }
}
