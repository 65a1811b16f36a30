/**
 Weekly performance counts: the period, its division into weeks, and the number of events in each.
 Instants are whole microseconds since the start of 1970 in UTC.
*/
module Weeks {
  import opened JsMap
  import opened Prelude

  const DAY := 86400000000
  const WEEK := 604800000000

  datatype Week = Week(from: int, to: int, count: nat)

  /** The bucket the queries group an instant into; division rounds down. */
  function Bucket(start: int, t: int): int {
    (t - start) / WEEK
  }

  /** The rounded-up number of weeks, never negative. */
  function Length(start: int, end: int): nat {
    if end <= start then 0 else (end - start + WEEK - 1) / WEEK
  }

  function Min(a: int, b: int): int {
    if a < b then a else b
  }

  function WeekAt(start: int, end: int, counts: map<int, nat>, i: nat): Week {
    Week(start + i * WEEK, Min(start + (i + 1) * WEEK, end), if i in counts then counts[i] else 0)
  }

  function PerformanceWeeks(start: int, end: int, values: seq<(int, nat)>): seq<Week> {
    seq(Length(start, end), i requires 0 <= i < Length(start, end) => WeekAt(start, end, LastOf(values), i))
  }

  // ---- The weeks tile the period ----

  /** Weeks that follow each other without gap or overlap from the start to the end of a period. */
  predicate Tiles(w: seq<Week>, start: int, end: int) {
    && (w == [] <==> end <= start)
    && (w != [] ==> w[0].from == start && w[|w| - 1].to == end)
    && (forall i :: 0 <= i < |w| ==> w[i].from < w[i].to <= w[i].from + WEEK)
    && (forall i :: 0 <= i < |w| - 1 ==> w[i].to == w[i + 1].from && w[i].to == w[i].from + WEEK)
  }

  lemma WeeksTile(start: int, end: int, values: seq<(int, nat)>)
    ensures Tiles(PerformanceWeeks(start, end, values), start, end)
  {
    hide LastOf;
  }

  /** An instant of the period lies in exactly the week of its bucket. */
  lemma InWeekOfBucket(start: int, end: int, t: int, i: nat)
    requires start <= t < end
    ensures 0 <= Bucket(start, t) < Length(start, end)
    ensures i < Length(start, end) ==>
      (Bucket(start, t) == i <==> start + i * WEEK <= t < Min(start + (i + 1) * WEEK, end))
  {
  }

  // ---- The counts ----

  function CountBetween(events: seq<int>, from: int, to: int): nat {
    if events == [] then 0
    else CountBetween(events[..|events| - 1], from, to) + if from <= events[|events| - 1] < to then 1 else 0
  }

  function CountBucket(events: seq<int>, start: int, end: int, b: int): nat {
    if events == [] then 0
    else
      var t := events[|events| - 1];
      CountBucket(events[..|events| - 1], start, end, b) + if start <= t < end && Bucket(start, t) == b then 1 else 0
  }

  /** The events of the period counted by bucket; buckets without one are left out. */
  ghost predicate Groups(counts: map<int, nat>, events: seq<int>, start: int, end: int) {
    forall b :: (b in counts <==> CountBucket(events, start, end, b) > 0)
      && (b in counts ==> counts[b] == CountBucket(events, start, end, b))
  }

  method CountByWeek(events: seq<int>, start: int, end: int) returns (weekCounts: map<int, nat>)
    ensures Groups(weekCounts, events, start, end)
  {
    weekCounts := map[];
    for k := 0 to |events|
      invariant Groups(weekCounts, events[..k], start, end)
    {
      assert events[..k + 1][..k] == events[..k];
      if start <= events[k] < end {
        var bucket := Bucket(start, events[k]);
        weekCounts := weekCounts[bucket := (if bucket in weekCounts then weekCounts[bucket] else 0) + 1];
      }
    }
    assert events[..|events|] == events;
  }

  lemma {:induction false} BucketCountIsWeekCount(events: seq<int>, start: int, end: int, i: nat)
    requires i < Length(start, end)
    ensures CountBucket(events, start, end, i)
      == CountBetween(events, start + i * WEEK, Min(start + (i + 1) * WEEK, end))
  {
    if events != [] {
      BucketCountIsWeekCount(events[..|events| - 1], start, end, i);
      var t := events[|events| - 1];
      if start <= t < end {
        InWeekOfBucket(start, end, t, i);
      }
    }
  }

  /** The count of a week is the number of events in it. */
  lemma {:induction false} WeekCountsItsEvents(events: seq<int>, start: int, end: int, values: seq<(int, nat)>, i: nat)
    requires Groups(LastOf(values), events, start, end) && i < |PerformanceWeeks(start, end, values)|
    ensures var w := PerformanceWeeks(start, end, values)[i]; w.count == CountBetween(events, w.from, w.to)
  {
    BucketCountIsWeekCount(events, start, end, i);
  }

  lemma {:induction false} CountsJoin(events: seq<int>, a: int, b: int, c: int)
    requires a <= b <= c
    ensures CountBetween(events, a, b) + CountBetween(events, b, c) == CountBetween(events, a, c)
  {
    if events != [] {
      CountsJoin(events[..|events| - 1], a, b, c);
    }
  }

  lemma {:induction false} NothingBetween(events: seq<int>, a: int, b: int)
    requires b <= a
    ensures CountBetween(events, a, b) == 0
  {
    if events != [] {
      NothingBetween(events[..|events| - 1], a, b);
    }
  }

  function Total(weeks: seq<Week>): nat {
    if weeks == [] then 0 else Total(weeks[..|weeks| - 1]) + weeks[|weeks| - 1].count
  }

  lemma {:induction false} WeeksGrow(w: seq<Week>, start: int, end: int, i: nat)
    requires Tiles(w, start, end) && i < |w|
    ensures start <= w[i].from
  {
    if i > 0 {
      WeeksGrow(w, start, end, i - 1);
      assert w[i - 1].to == w[i - 1 + 1].from;
    }
  }

  lemma {:induction false} TotalUpTo(events: seq<int>, start: int, end: int, values: seq<(int, nat)>, n: nat)
    requires Groups(LastOf(values), events, start, end) && n <= |PerformanceWeeks(start, end, values)|
    ensures var w := PerformanceWeeks(start, end, values);
      Total(w[..n]) == if n == 0 then 0 else CountBetween(events, start, w[n - 1].to)
  {
    hide LastOf, Groups, PerformanceWeeks, CountBetween;
    if n > 0 {
      var w := PerformanceWeeks(start, end, values);
      TotalUpTo(events, start, end, values, n - 1);
      WeekCountsItsEvents(events, start, end, values, n - 1);
      assert w[..n][..n - 1] == w[..n - 1];
      WeeksTile(start, end, values);
      WeeksGrow(w, start, end, n - 1);
      CountsJoin(events, start, w[n - 1].from, w[n - 1].to);
      NothingBetween(events, start, start);
    }
  }

  /** No event of the period is lost or counted twice. */
  lemma {:induction false} CountsAreConserved(events: seq<int>, start: int, end: int, values: seq<(int, nat)>)
    requires Groups(LastOf(values), events, start, end)
    ensures Total(PerformanceWeeks(start, end, values)) == CountBetween(events, start, end)
  {
    hide LastOf, Groups;
    var w := PerformanceWeeks(start, end, values);
    TotalUpTo(events, start, end, values, |w|);
    WeeksTile(start, end, values);
    assert w[..|w|] == w;
    if w == [] {
      NothingBetween(events, start, end);
    }
  }

  // ---- The default period ----

  function Day(t: int): int {
    t / DAY
  }

  /** 0 for Sunday; the first of January 1970 was a Thursday. */
  function DayOfWeek(t: int): int {
    (Day(t) + 4) % 7
  }

  function TrendRange(from: Option<int>, to: Option<int>, now: int): (int, int) {
    var end := (Day(now) + 1) * DAY;
    var monday := (Day(now) - (DayOfWeek(now) + 6) % 7 - 77) * DAY;
    (if from.Some? then from.value else monday, if to.Some? then Min(to.value, end) else end)
  }

  /**
   Without bounds the period starts on a Monday at midnight, a whole number of weeks from Monday the
   fifth of January 1970, and has twelve weeks, the last one with the current time, up to the next midnight.
  */
  lemma DefaultIsTwelveWeeks(now: int)
    ensures var (start, end) := TrendRange(None, None, now);
      && Length(start, end) == 12
      && start % 86400000000 == 0 && (start / 86400000000 - 4) % 7 == 0
      && end % 86400000000 == 0 && now < end <= now + 86400000000
      && start <= now && Bucket(start, now) == 11
  {
    var d := Day(now);
    var back := (DayOfWeek(now) + 6) % 7;
    var (start, end) := TrendRange(None, None, now);
    assert start == (d - back - 77) * DAY;
    assert Day(start) == d - back - 77;
    assert d * DAY <= now < (d + 1) * DAY;
  }

  /** Given bounds are kept, except that the period never reaches past the next midnight. */
  lemma BoundsAreKept(from: Option<int>, to: Option<int>, now: int)
    ensures var (start, end) := TrendRange(from, to, now);
      var midnight := now + 86400000000 - now % 86400000000;
      && (from.Some? ==> start == from.value)
      && end <= midnight && (to.Some? && to.value <= midnight ==> end == to.value)
      && (to.None? || to.value > midnight ==> end == midnight)
  {
  }
}
