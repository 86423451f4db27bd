/** The order in which GET /orders/:id/tracking shows an order's events. */
module Tracking {
  import opened StoreTypes

  /** Newest first: no event is followed by a more recent one. */
  predicate NewestFirst(events: seq<TrackingEvent>) {
    forall i, j :: 0 <= i < j < |events| ==> events[i].timestamp >= events[j].timestamp
  }

  /** The first n events of `a` are newest first. */
  ghost predicate PrefixNewestFirst(a: array<TrackingEvent>, n: nat)
    requires n <= a.Length
    reads a
  {
    forall p, q :: 0 <= p < q < n ==> a[p].timestamp >= a[q].timestamp
  }

  /** `trackingEvents.sort((a, b) => b.timestamp - a.timestamp)` (lines 697-699):
      sorts the listed events in place, newest first, by insertion. */
  method SortNewestFirst(a: array<TrackingEvent>)
    modifies a
    ensures NewestFirst(a[..])
    ensures multiset(a[..]) == old(multiset(a[..]))
  {
    var i := 0;
    while i < a.Length
      invariant 0 <= i <= a.Length
      invariant PrefixNewestFirst(a, i)
      invariant multiset(a[..]) == old(multiset(a[..]))
    {
      InsertNewest(a, i);
      i := i + 1;
    }
  }

  /** Moves a[i] towards the front past every older event, so that the first
      i + 1 events are newest first. */
  method InsertNewest(a: array<TrackingEvent>, i: nat)
    requires i < a.Length && PrefixNewestFirst(a, i)
    modifies a
    ensures PrefixNewestFirst(a, i + 1)
    ensures multiset(a[..]) == old(multiset(a[..]))
  {
    var j := i;
    while j > 0 && a[j - 1].timestamp < a[j].timestamp
      invariant 0 <= j <= i
      invariant forall p, q :: 0 <= p < q <= i && q != j ==> a[p].timestamp >= a[q].timestamp
      invariant multiset(a[..]) == old(multiset(a[..]))
    {
      SwapWithPrevious(a, j);
      j := j - 1;
    }
    forall p | 0 <= p < j ensures a[p].timestamp >= a[j].timestamp {
      if p < j - 1 { assert a[p].timestamp >= a[j - 1].timestamp; }
    }
  }

  /** Exchanges a[j - 1] and a[j]. */
  method SwapWithPrevious(a: array<TrackingEvent>, j: nat)
    requires 0 < j < a.Length
    modifies a
    ensures a[j - 1] == old(a[j]) && a[j] == old(a[j - 1])
    ensures forall m :: 0 <= m < a.Length && m != j - 1 && m != j ==> a[m] == old(a[m])
    ensures multiset(a[..]) == old(multiset(a[..]))
  {
    a[j - 1], a[j] := a[j], a[j - 1];
  }
}
