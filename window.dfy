/** The time-window filter: keep the events created strictly inside
    (start, start + duration), in their original order. */
module Window {
  import opened Events

  /** Both bounds are excluded: the event must come after the start and
      before the end. A duration of zero or less admits nothing. */
  predicate InWindow(t: Instant, start: Instant, duration: int)
  {
    start < t < start + duration
  }

  /** The events of `es` inside the window, in order (specification of the filter). */
  function Filtered(es: seq<Event>, start: Instant, duration: int): seq<Event>
  {
    if es == [] then []
    else
      var last := es[|es| - 1];
      Filtered(es[..|es| - 1], start, duration) + (if InWindow(last.createdAt, start, duration) then [last] else [])
  }

  /** `a` is `b` with some elements left out and the rest in the same order. */
  predicate IsSubsequence<T(==)>(a: seq<T>, b: seq<T>)
  {
    if a == [] then true
    else if b == [] then false
    else
      (a[|a| - 1] == b[|b| - 1] && IsSubsequence(a[..|a| - 1], b[..|b| - 1]))
      || IsSubsequence(a, b[..|b| - 1])
  }

  /** The filter keeps every in-window event as often as it occurs and drops
      every other one. */
  lemma {:induction false} FilteredCounts(es: seq<Event>, start: Instant, duration: int)
    ensures forall e :: multiset(Filtered(es, start, duration))[e]
                        == if InWindow(e.createdAt, start, duration) then multiset(es)[e] else 0
  {
    if es != [] {
      var init, last := es[..|es| - 1], es[|es| - 1];
      FilteredCounts(init, start, duration);
      assert es == init + [last];
    }
  }

  /** An event is in the filter's output iff it is in the input and strictly
      inside the window. */
  lemma FilteredMembers(es: seq<Event>, start: Instant, duration: int)
    ensures forall e :: e in Filtered(es, start, duration) <==> e in es && InWindow(e.createdAt, start, duration)
  {
    FilteredCounts(es, start, duration);
    forall e
      ensures e in Filtered(es, start, duration) <==> e in es && InWindow(e.createdAt, start, duration)
    {
      assert e in Filtered(es, start, duration) <==> multiset(Filtered(es, start, duration))[e] > 0;
      assert e in es <==> multiset(es)[e] > 0;
    }
  }

  /** The filter keeps the input's order. */
  lemma {:induction false} FilteredIsSubsequence(es: seq<Event>, start: Instant, duration: int)
    ensures IsSubsequence(Filtered(es, start, duration), es)
  {
    if es != [] {
      var init, last := es[..|es| - 1], es[|es| - 1];
      var f := Filtered(init, start, duration);
      FilteredIsSubsequence(init, start, duration);
      if InWindow(last.createdAt, start, duration) {
        var r := f + [last];
        assert r[..|r| - 1] == f;
      } else if f != [] {
        assert Filtered(es, start, duration) == f;
      }
    }
  }

  /** filterEventsForTime: one pass over the events, appending those inside the window. */
  method FilterEventsForTime(unfiltered: seq<Event>, startTime: Instant, duration: int) returns (events: seq<Event>)
    ensures events == Filtered(unfiltered, startTime, duration)
  {
    var endTime := startTime + duration;
    events := [];
    for i := 0 to |unfiltered|
      invariant events == Filtered(unfiltered[..i], startTime, duration)
    {
      var e := unfiltered[i];
      assert unfiltered[..i + 1][..i] == unfiltered[..i];
      if startTime < e.createdAt && e.createdAt < endTime {
        events := events + [e];
      }
    }
    assert unfiltered[..|unfiltered|] == unfiltered;
  }
}
