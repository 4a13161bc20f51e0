/** The time lines of the grid viewer: ranges and events sorted by time, and the parts of them
    that a window of time selects. */
module Timelines {
  import opened ListSort
  import S = Sequences

  /** The elements from `lo` on and before `hi`; none when `hi` is not after `lo`. */
  function Slice<T>(s: seq<T>, lo: nat, hi: nat): seq<T> {
    if lo < hi && lo <= |s| then if hi <= |s| then s[lo..hi] else s[lo..] else []
  }

  // ---- ranges ----

  datatype DataRange = DataRange(start: real, end: real, value: string)

  function StartOf(r: DataRange): real {
    r.start
  }

  predicate Holds(r: DataRange, key: real) {
    r.start <= key <= r.end
  }

  predicate Meets(r: DataRange, start: real, end: real) {
    r.start <= end && start <= r.end
  }

  predicate Covered(ranges: seq<DataRange>, key: real) {
    exists r :: r in ranges && Holds(r, key)
  }

  /** Each range ends before the next one begins. */
  predicate InOrder(ranges: seq<DataRange>) {
    && (forall i :: 0 <= i < |ranges| ==> ranges[i].start <= ranges[i].end)
    && (forall i, j :: 0 <= i < j < |ranges| ==> ranges[i].end < ranges[j].start)
  }

  predicate Disjoint(ranges: seq<DataRange>) {
    && (forall i :: 0 <= i < |ranges| ==> ranges[i].start <= ranges[i].end)
    && (forall i, j :: 0 <= i < j < |ranges| ==> !Meets(ranges[i], ranges[j].start, ranges[j].end))
  }

  /** Ranges that do not overlap are in order exactly when they are sorted by their starts. */
  lemma SortedIsInOrder(ranges: seq<DataRange>)
    ensures InOrder(ranges) <==> Disjoint(ranges) && SortedBy(ranges, StartOf)
  {
    if Disjoint(ranges) && SortedBy(ranges, StartOf) {
      forall i, j | 0 <= i < j < |ranges| ensures ranges[i].end < ranges[j].start {
        assert !Meets(ranges[i], ranges[j].start, ranges[j].end);
        Ordered(ranges, StartOf, i, j);
      }
    }
  }

  /** Whether a window is met by no range but those the slice has: when one end of the window is
      in a gap, no range may lie beyond it, and when both are, none between them. */
  predicate NothingBeyond(ranges: seq<DataRange>, start: real, end: real) {
    if Covered(ranges, start) then
      Covered(ranges, end) || ranges[|ranges| - 1].start <= end
    else if Covered(ranges, end) then
      start <= ranges[0].end
    else
      forall r :: r in ranges ==> !(start < r.start && r.end < end)
  }

  class TimelineDataRange {
    var name: string
    var ranges: seq<DataRange>

    constructor (name: string)
      ensures this.name == name && ranges == []
    {
      this.name := name;
      ranges := [];
    }

    method AddRange(range: DataRange)
      modifies this
      ensures ranges == old(ranges) + [range] && name == old(name)
    {
      ranges := ranges + [range];
    }

    method Sort()
      modifies this
      ensures SortedBy(ranges, StartOf) && multiset(ranges) == multiset(old(ranges)) && name == old(name)
      ensures forall at :: WithKey(ranges, StartOf, at) == WithKey(old(ranges), StartOf, at)
    {
      ranges := SortBy(ranges, StartOf);
    }

    /** The place of a range that holds the key, or -1; among ranges in order, the only one. */
    method Search(key: real) returns (i: int)
      ensures -1 <= i < |ranges| && (i >= 0 ==> Holds(ranges[i], key))
      ensures InOrder(ranges) ==> (i == -1 <==> !Covered(ranges, key))
      ensures InOrder(ranges) && i >= 0 ==> forall k :: 0 <= k < |ranges| && Holds(ranges[k], key) ==> k == i
    {
      var l, u := 0, |ranges| - 1;
      while l <= u
        invariant 0 <= l <= u + 1 <= |ranges|
        invariant InOrder(ranges) ==> forall k :: 0 <= k < l ==> ranges[k].end < key
        invariant InOrder(ranges) ==> forall k :: u < k < |ranges| ==> key < ranges[k].start
      {
        i := (l + u) / 2;
        if ranges[i].start <= key <= ranges[i].end {
          assert ranges[i] in ranges && Holds(ranges[i], key);
          return;
        } else if key < ranges[i].start {
          u := i - 1;
        } else {
          l := i + 1;
        }
      }
      i := -1;
    }

    /** The places of the ranges that the window selects. */
    method GetRangesBounds(start: real, end: real) returns (lo: nat, hi: nat)
      ensures hi <= |ranges| && (InOrder(ranges) ==> AreBounds(ranges, start, end, lo, hi))
      ensures InOrder(ranges) && start <= end ==> lo <= hi && Selects(ranges, start, end, lo, hi)
    {
      var s := Search(start);
      var e := Search(end);
      if s == -1 && e == -1 {
        lo, hi := 0, 0;
      } else if s == -1 {
        lo, hi := 0, e + 1;
      } else if e == -1 {
        lo, hi := s, |ranges|;
      } else {
        lo, hi := s, e + 1;
      }
    }

    /** The ranges that meet the window, exactly when none lies beyond an end that is in a gap. */
    method GetRanges(start: real, end: real) returns (r: seq<DataRange>)
      ensures InOrder(ranges) ==>
                exists lo: nat, hi: nat :: AreBounds(ranges, start, end, lo, hi) && r == Slice(ranges, lo, hi)
      ensures InOrder(ranges) && start <= end ==>
                (r == S.Filter(ranges, x => Meets(x, start, end)) <==> NothingBeyond(ranges, start, end))
    {
      var s := Search(start);
      var e := Search(end);
      ghost var lo, hi := 0, 0;
      if s == -1 && e == -1 {
        r := [];
      } else if s == -1 {
        r := Slice(ranges, 0, e + 1);
        lo, hi := 0, e + 1;
      } else if e == -1 {
        r := Slice(ranges, s, |ranges|);
        lo, hi := s, |ranges|;
      } else {
        r := Slice(ranges, s, e + 1);
        lo, hi := s, e + 1;
      }
      if InOrder(ranges) {
        assert AreBounds(ranges, start, end, lo, hi) && r == Slice(ranges, lo, hi);
      }
      if InOrder(ranges) && start <= end {
        assert Selects(ranges, start, end, lo, hi) && r == ranges[lo..hi];
        SelectedIsMeeting(ranges, start, end, lo, hi);
      }
    }
  }

  /** From the range that holds the start, or the first if none does but one holds the end, to the
      range that holds the end, or the last; whatever the order of the two ends. */
  predicate AreBounds(ranges: seq<DataRange>, start: real, end: real, lo: nat, hi: nat) {
    if Covered(ranges, start) || Covered(ranges, end) then
      && (if Covered(ranges, start) then lo < |ranges| && Holds(ranges[lo], start) else lo == 0)
      && (if Covered(ranges, end) then 0 < hi <= |ranges| && Holds(ranges[hi - 1], end) else hi == |ranges|)
    else lo == 0 && hi == 0
  }

  /** What a window selects: with both ends covered, the ranges it meets; with one, all of them
      and perhaps others; with none, nothing. */
  predicate Selects(ranges: seq<DataRange>, start: real, end: real, lo: nat, hi: nat) {
    && lo <= hi <= |ranges|
    && (Covered(ranges, start) || Covered(ranges, end) ==>
          forall k :: 0 <= k < |ranges| && Meets(ranges[k], start, end) ==> lo <= k < hi)
    && (Covered(ranges, start) ==> forall k :: lo <= k < |ranges| ==> start <= ranges[k].end)
    && (Covered(ranges, end) ==> forall k :: 0 <= k < hi ==> ranges[k].start <= end)
    && (!Covered(ranges, start) && Covered(ranges, end) ==> lo == 0)
    && (Covered(ranges, start) && !Covered(ranges, end) ==> hi == |ranges|)
    && (!Covered(ranges, start) && !Covered(ranges, end) ==> lo == hi)
  }

  lemma SelectedIsMeeting(ranges: seq<DataRange>, start: real, end: real, lo: nat, hi: nat)
    requires InOrder(ranges) && start <= end && Selects(ranges, start, end, lo, hi)
    ensures ranges[lo..hi] == S.Filter(ranges, x => Meets(x, start, end)) <==> NothingBeyond(ranges, start, end)
  {
    var keep := x => Meets(x, start, end);
    S.FilterKeeps(ranges, keep);
    if NothingBeyond(ranges, start, end) {
      forall k | 0 <= k < |ranges| ensures keep(ranges[k]) <==> lo <= k < hi {
        assert ranges[0].end <= ranges[k].end && ranges[k].start <= ranges[|ranges| - 1].start;
        if keep(ranges[k]) {
          assert Holds(ranges[k], start) || Holds(ranges[k], end) || (start < ranges[k].start && ranges[k].end < end);
        }
      }
      S.FilterIsSlice(ranges, keep, lo, hi);
    } else if Covered(ranges, start) || Covered(ranges, end) {
      var r :| r in ranges && (Holds(r, start) || Holds(r, end));
      var k :| 0 <= k < |ranges| && ranges[k] == r;
      assert Meets(ranges[k], start, end);
      var other := if Covered(ranges, start) then |ranges| - 1 else 0;
      assert lo <= other < hi;
      assert ranges[lo..hi][other - lo] == ranges[other] && !keep(ranges[other]);
    } else {
      var r :| r in ranges && start < r.start && r.end < end;
      assert keep(r);
    }
  }

  // ---- events ----

  datatype Event<T> = Event(at: real, value: T)

  function TimeOf<T>(e: Event<T>): real {
    e.at
  }

  predicate Within<T>(e: Event<T>, start: real, end: real) {
    start <= e.at <= end
  }

  /** The place where the event at `key` is, or else where it would be. */
  predicate IsPlace<T>(events: seq<Event<T>>, key: real, i: nat) {
    && i <= |events|
    && (forall k :: 0 <= k < i ==> events[k].at <= key)
    && (forall k :: i < k < |events| ==> key <= events[k].at)
    && (i < |events| ==> key <= events[i].at)
    && (HasEventAt(events, key) ==> i < |events| && events[i].at == key)
  }

  predicate HasEventAt<T>(events: seq<Event<T>>, key: real) {
    exists k :: 0 <= k < |events| && events[k].at == key
  }

  /** No two events have this time. */
  predicate AtMostOne<T>(events: seq<Event<T>>, key: real) {
    forall i, j :: 0 <= i < j < |events| ==> !(events[i].at == key && events[j].at == key)
  }

  class TimelineEvent<T(!new)> {
    var name: string
    var events: seq<Event<T>>

    constructor (name: string)
      ensures this.name == name && events == []
    {
      this.name := name;
      events := [];
    }

    method AddEvent(event: Event<T>)
      modifies this
      ensures events == old(events) + [event] && name == old(name)
    {
      events := events + [event];
    }

    method Sort()
      modifies this
      ensures SortedBy(events, TimeOf) && multiset(events) == multiset(old(events)) && name == old(name)
      ensures forall at :: WithKey(events, TimeOf, at) == WithKey(old(events), TimeOf, at)
    {
      events := SortBy(events, TimeOf);
    }

    /** The place of an event at `key`, or of the first event after it when there is none. */
    method Search(key: real) returns (l: nat)
      ensures l <= |events|
      ensures SortedBy(events, TimeOf) ==> IsPlace(events, key, l)
    {
      l := 0;
      var u := |events| - 1;
      while l <= u
        invariant 0 <= l <= u + 1 <= |events|
        invariant SortedBy(events, TimeOf) ==> forall k :: 0 <= k < l ==> events[k].at < key
        invariant SortedBy(events, TimeOf) ==> forall k :: u < k < |events| ==> key < events[k].at
      {
        var i := (l + u) / 2;
        if SortedBy(events, TimeOf) {
          AroundPlace(events, i);
        }
        if key == events[i].at {
          return i;
        } else if key < events[i].at {
          u := i - 1;
        } else {
          l := i + 1;
        }
      }
    }

    method GetEventsBounds(start: real, end: real) returns (lo: nat, hi: nat)
      ensures SortedBy(events, TimeOf) ==> IsPlace(events, start, lo) && hi >= 1 && IsPlace(events, end, hi - 1)
    {
      lo := Search(start);
      var e := Search(end);
      hi := e + 1;
    }

    /** A stretch of the events that has all those strictly inside the window, none before it and
        at most one after it. If no two events are at the same end of the window, these are all
        events in the window, and after them the first one after it when none is at its end. */
    method GetEvents(start: real, end: real) returns (r: seq<Event<T>>)
      ensures SortedBy(events, TimeOf) && start <= end ==>
                exists lo, hi :: 0 <= lo <= hi <= |events| && r == events[lo..hi] &&
                  IsWindow(events, start, end, lo, hi)
      ensures SortedBy(events, TimeOf) && start <= end && AtMostOne(events, start) && AtMostOne(events, end) ==>
                WithFirstAfter(r, S.Filter(events, e => Within(e, start, end)), events, end)
    {
      var s := Search(start);
      var e := Search(end);
      r := Slice(events, s, e + 1);
      if SortedBy(events, TimeOf) && start <= end {
        var lo, hi := SliceIsWindow(events, start, end, s, e);
        assert r == events[lo..hi];
      }
      if SortedBy(events, TimeOf) && start <= end && AtMostOne(events, start) && AtMostOne(events, end) {
        SliceOfEvents(events, start, end, s, e);
      }
    }
  }

  /** Places from which on, and up to which, stands what is inside a window. */
  predicate IsWindow<T>(events: seq<Event<T>>, start: real, end: real, lo: nat, hi: nat)
    requires lo <= hi <= |events|
  {
    && (forall k :: 0 <= k < |events| && start < events[k].at < end ==> lo <= k < hi)
    && (forall k :: lo <= k < hi ==> start <= events[k].at)
    && (forall k :: lo <= k < hi - 1 ==> events[k].at <= end)
  }

  lemma SliceIsWindow<T>(events: seq<Event<T>>, start: real, end: real, s: nat, e: nat) returns (lo: nat, hi: nat)
    requires start <= end && IsPlace(events, start, s) && IsPlace(events, end, e)
    ensures lo <= hi <= |events| && Slice(events, s, e + 1) == events[lo..hi] && IsWindow(events, start, end, lo, hi)
  {
    lo, hi := s, if e + 1 < s then s else if e < |events| then e + 1 else |events|;
  }

  /** The place behind the events up to `key`. */
  function Past<T>(events: seq<Event<T>>, key: real, i: nat): nat {
    if HasEventAt(events, key) then i + 1 else i
  }

  lemma SliceOfEvents<T(!new)>(events: seq<Event<T>>, start: real, end: real, s: nat, e: nat)
    requires start <= end && AtMostOne(events, start) && AtMostOne(events, end)
    requires IsPlace(events, start, s) && IsPlace(events, end, e)
    ensures WithFirstAfter(Slice(events, s, e + 1), S.Filter(events, e => Within(e, start, end)), events, end)
  {
    PlaceSplits(events, start, s);
    PlaceSplits(events, end, e);
    PlacesInOrder(events, start, end, s, e);
    var past := Past(events, end, e);
    S.FilterIsSlice(events, e => Within(e, start, end), s, past);
    UpToFirstAfter(events, end, s, e);
  }

  lemma PlacesInOrder<T>(events: seq<Event<T>>, start: real, end: real, s: nat, e: nat)
    requires start <= end && IsPlace(events, start, s) && IsPlace(events, end, e)
    requires AtMostOne(events, start) && AtMostOne(events, end)
    ensures s <= e
  {
    PlaceSplits(events, start, s);
    PlaceSplits(events, end, e);
  }

  lemma UpToFirstAfter<T>(events: seq<Event<T>>, end: real, s: nat, e: nat)
    requires s <= e && IsPlace(events, end, e) && AtMostOne(events, end)
    ensures WithFirstAfter(Slice(events, s, e + 1), events[s..Past(events, end, e)], events, end)
  {
    PlaceSplits(events, end, e);
    if e < |events| && !HasEventAt(events, end) {
      assert IsFirstAfter(events, end, e);
      assert Slice(events, s, e + 1) == events[s..e] + [events[e]];
    }
  }

  lemma AroundPlace<T(!new)>(events: seq<Event<T>>, i: nat)
    requires SortedBy(events, TimeOf) && i < |events|
    ensures forall k :: 0 <= k <= i ==> events[k].at <= events[i].at
    ensures forall k :: i <= k < |events| ==> events[i].at <= events[k].at
  {
    forall k | 0 <= k < |events|
      ensures (k <= i ==> events[k].at <= events[i].at) && (i <= k ==> events[i].at <= events[k].at)
    {
      Ordered(events, TimeOf, k, i);
      Ordered(events, TimeOf, i, k);
    }
  }

  /** Only what stands before the place of a key is earlier, and only what stands behind it is later. */
  lemma PlaceSplits<T>(events: seq<Event<T>>, key: real, i: nat)
    requires IsPlace(events, key, i) && AtMostOne(events, key)
    ensures forall k :: 0 <= k < |events| ==> (events[k].at < key <==> k < i)
    ensures forall k :: 0 <= k < |events| ==> (events[k].at > key <==> Past(events, key, i) <= k)
  {
    forall k | 0 <= k < |events| && events[k].at == key ensures k == i {
      assert HasEventAt(events, key);
    }
  }

  /** The events inside, and unless some event is at `end` the first one after it, if there is one. */
  predicate WithFirstAfter<T(==)>(r: seq<Event<T>>, inside: seq<Event<T>>, events: seq<Event<T>>, end: real) {
    if HasEventAt(events, end) || (forall k :: 0 <= k < |events| ==> events[k].at < end) then r == inside
    else exists i :: 0 <= i < |events| && IsFirstAfter(events, end, i) && r == inside + [events[i]]
  }

  predicate IsFirstAfter<T>(events: seq<Event<T>>, end: real, i: nat) {
    i < |events| && end < events[i].at && forall k :: 0 <= k < i ==> events[k].at < end
  }

  /** A window with both ends in gaps around a range selects nothing, though it meets the range. */
  lemma BothEndsInGaps(r: DataRange, start: real, end: real, lo: nat, hi: nat)
    requires start < r.start <= r.end < end && Selects([r], start, end, lo, hi)
    ensures InOrder([r]) && !NothingBeyond([r], start, end)
    ensures S.Filter([r], x => Meets(x, start, end)) == [r] && [r][lo..hi] == []
  {
    assert [r][0] == r;
    assert !Covered([r], start) && !Covered([r], end);
    assert r in [r];
    S.FilterAll([r], x => Meets(x, start, end));
  }
}
