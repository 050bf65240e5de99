/** The milestone trend buckets of the analytics route. Times are milliseconds since the epoch. */
module TrendBuckets {
  import opened Numbers
  import opened Wrappers

  datatype GroupBy = Day | Week

  const DAY_IN_MS := 24 * 60 * 60 * 1000
  const WEEK_IN_MS := 7 * DAY_IN_MS

  datatype Event = Event(timestamp: int, success: bool)

  datatype Bucket = Bucket(bucketStart: int, bucketEnd: int, total: nat, successes: nat, failures: nat)

  function BucketDuration(groupBy: GroupBy): int {
    if groupBy == Week then WEEK_IN_MS else DAY_IN_MS
  }

  /** The events inside a range of times, ends included, of which only successes, only failures, or all. */
  function Count(events: seq<Event>, from: int, to: int, success: Option<bool>): nat {
    if events == [] then 0
    else
      var last := events[|events| - 1];
      Count(events[..|events| - 1], from, to, success)
      + (if from <= last.timestamp <= to && (success.Some? ==> last.success == success.value) then 1 else 0)
  }

  predicate Contains(bucket: Bucket, time: int) {
    bucket.bucketStart <= time <= bucket.bucketEnd
  }

  /** How many buckets the range takes. */
  function BucketCount(from: int, to: int, duration: int): nat
    requires from <= to && duration > 0
  {
    (to - from) / duration + 1
  }

  /** Where bucket number i starts. */
  function StartOf(from: int, duration: int, i: int): int {
    from + i * duration
  }

  lemma {:induction false} StartOfNext(from: int, duration: int, i: int)
    ensures StartOf(from, duration, i + 1) == StartOf(from, duration, i) + duration
  {
  }

  lemma {:induction false} StartsAscend(from: int, duration: int, i: int, j: int)
    requires duration > 0 && i <= j
    ensures StartOf(from, duration, i) <= StartOf(from, duration, j)
  {
    assert i * duration <= j * duration;
  }

  lemma {:induction false} StartOfFirst(from: int, duration: int)
    ensures StartOf(from, duration, 0) == from
  {
  }

  /** Where the last bucket would end if it were not cut off at the end of the range. */
  function Horizon(from: int, to: int, duration: int): int
    requires from <= to && duration > 0
  {
    StartOf(from, duration, BucketCount(from, to, duration)) - 1
  }

  /** Buckets laid end to end: they start with the range, each follows the one before without gap or
      overlap, and the last ends with the range. */
  ghost predicate Partition(buckets: seq<Bucket>, from: int, to: int) {
    && buckets != [] && buckets[0].bucketStart == from && buckets[|buckets| - 1].bucketEnd == to
    && (forall i :: 0 <= i < |buckets| ==> buckets[i].bucketStart <= buckets[i].bucketEnd)
    && (forall i :: 0 <= i < |buckets| - 1 ==> buckets[i + 1].bucketStart == buckets[i].bucketEnd + 1)
  }

  /** In a partition every time of the range lies in exactly one bucket, and no other time in any. */
  lemma {:induction false} ExactlyOneBucket(buckets: seq<Bucket>, from: int, to: int, time: int)
    requires Partition(buckets, from, to)
    ensures from <= time <= to <==> exists i :: 0 <= i < |buckets| && Contains(buckets[i], time)
    ensures forall i, j :: 0 <= i < j < |buckets| ==> !(Contains(buckets[i], time) && Contains(buckets[j], time))
  {
    StartsGrow(buckets, from, to);
    if from <= time <= to {
      var i := LastStartBefore(buckets, from, to, time);
      assert Contains(buckets[i], time);
    }
    forall i | 0 <= i < |buckets| && Contains(buckets[i], time) ensures from <= time <= to {
    }
  }

  lemma {:induction false} StartsGrow(buckets: seq<Bucket>, from: int, to: int)
    requires Partition(buckets, from, to)
    ensures forall i, j :: 0 <= i < j < |buckets| ==> buckets[i].bucketEnd < buckets[j].bucketStart
    ensures forall i :: 0 <= i < |buckets| ==> from <= buckets[i].bucketStart && buckets[i].bucketEnd <= to
  {
    forall i, j | 0 <= i < j < |buckets| ensures buckets[i].bucketEnd < buckets[j].bucketStart {
      EndsBefore(buckets, from, to, i, j);
    }
    forall i | 0 <= i < |buckets| ensures from <= buckets[i].bucketStart && buckets[i].bucketEnd <= to {
      if i > 0 {
        EndsBefore(buckets, from, to, 0, i);
      }
      if i < |buckets| - 1 {
        EndsBefore(buckets, from, to, i, |buckets| - 1);
      }
    }
  }

  lemma {:induction false} EndsBefore(buckets: seq<Bucket>, from: int, to: int, i: nat, j: nat)
    requires Partition(buckets, from, to) && i < j < |buckets|
    ensures buckets[i].bucketEnd < buckets[j].bucketStart
    decreases j
  {
    var before := j - 1;
    assert buckets[before + 1].bucketStart == buckets[before].bucketEnd + 1;
    if i < before {
      EndsBefore(buckets, from, to, i, before);
    }
  }

  lemma {:induction false} LastStartBefore(buckets: seq<Bucket>, from: int, to: int, time: int) returns (i: nat)
    requires Partition(buckets, from, to) && from <= time <= to
    ensures i < |buckets| && buckets[i].bucketStart <= time <= buckets[i].bucketEnd
  {
    i := 0;
    while buckets[i].bucketEnd < time
      invariant i < |buckets| && buckets[i].bucketStart <= time
      decreases |buckets| - i
    {
      assert i < |buckets| - 1;
      assert buckets[i + 1].bucketStart == buckets[i].bucketEnd + 1;
      i := i + 1;
    }
  }

  lemma {:induction false} CountSnoc(events: seq<Event>, event: Event, from: int, to: int, success: Option<bool>)
    ensures Count(events + [event], from, to, success)
         == Count(events, from, to, success)
            + (if from <= event.timestamp <= to && (success.Some? ==> event.success == success.value) then 1 else 0)
  {
    assert (events + [event])[..|events|] == events;
  }

  // --- building the buckets ---

  /** What bucket number i of the range must say after these events. */
  predicate BucketFits(bucket: Bucket, from: int, to: int, duration: int, i: nat, events: seq<Event>) {
    var start := StartOf(from, duration, i);
    && bucket.bucketStart == start && bucket.bucketEnd == Min(start + duration - 1, to)
    && bucket.total == Count(events, start, start + duration - 1, None)
    && bucket.successes == Count(events, start, start + duration - 1, Some(true))
    && bucket.failures == Count(events, start, start + duration - 1, Some(false))
  }

  predicate BucketsFit(buckets: seq<Bucket>, from: int, to: int, duration: int, events: seq<Event>) {
    forall i :: 0 <= i < |buckets| ==> BucketFits(buckets[i], from, to, duration, i, events)
  }

  /** The number of the bucket in which an event is looked up, rounded down as `Math.floor` does. */
  lemma {:induction false} IndexOfTime(from: int, duration: int, time: int, i: int)
    requires duration > 0
    ensures (time - from) / duration == i <==> StartOf(from, duration, i) <= time < StartOf(from, duration, i) + duration
  {
    var q := (time - from) / duration;
    QuotientStarts(from, duration, time);
    if i < q {
      StartOfNext(from, duration, i);
      StartsAscend(from, duration, i + 1, q);
    } else if i > q {
      StartOfNext(from, duration, q);
      StartsAscend(from, duration, q + 1, i);
    }
  }

  lemma {:induction false} QuotientStarts(from: int, duration: int, time: int)
    requires duration > 0
    ensures var q := (time - from) / duration; StartOf(from, duration, q) <= time < StartOf(from, duration, q) + duration
  {
  }

  lemma {:induction false} OneMoreEvent(buckets: seq<Bucket>, from: int, to: int, duration: int, events: seq<Event>, event: Event)
    requires duration > 0 && BucketsFit(buckets, from, to, duration, events)
    ensures var i := (event.timestamp - from) / duration;
            BucketsFit(if 0 <= i < |buckets| then buckets[i := Counted(buckets[i], event)] else buckets,
                       from, to, duration, events + [event])
  {
    hide Count, StartOf, BucketFits;
    var i := (event.timestamp - from) / duration;
    var after := if 0 <= i < |buckets| then buckets[i := Counted(buckets[i], event)] else buckets;
    forall k | 0 <= k < |after| ensures BucketFits(after[k], from, to, duration, k, events + [event]) {
      assert BucketFits(buckets[k], from, to, duration, k, events);
      IndexOfTime(from, duration, event.timestamp, k);
      OneBucketMore(buckets[k], from, to, duration, k, events, event);
    }
  }

  lemma {:induction false} OneBucketMore(bucket: Bucket, from: int, to: int, duration: int, k: nat, events: seq<Event>, event: Event)
    requires BucketFits(bucket, from, to, duration, k, events)
    ensures var start := StartOf(from, duration, k);
            BucketFits(if start <= event.timestamp < start + duration then Counted(bucket, event) else bucket,
                       from, to, duration, k, events + [event])
  {
    hide Count, StartOf;
    var start := StartOf(from, duration, k);
    CountSnoc(events, event, start, start + duration - 1, None);
    CountSnoc(events, event, start, start + duration - 1, Some(true));
    CountSnoc(events, event, start, start + duration - 1, Some(false));
  }

  function Counted(bucket: Bucket, event: Event): Bucket {
    if event.success then bucket.(total := bucket.total + 1, successes := bucket.successes + 1)
    else bucket.(total := bucket.total + 1, failures := bucket.failures + 1)
  }

  lemma {:induction false} EmptyBucketFits(from: int, to: int, duration: int, i: nat)
    ensures BucketFits(Bucket(StartOf(from, duration, i), Min(StartOf(from, duration, i) + duration - 1, to), 0, 0, 0),
                       from, to, duration, i, [])
  {
  }

  /** The map of the code has the buckets' starts as its keys; here bucket number i stands for the key
      `StartOf(from, duration, i)`, and looking up a start that no bucket has finds nothing. */
  method BuildTrendBuckets(from: int, to: int, groupBy: GroupBy, events: seq<Event>) returns (buckets: seq<Bucket>)
    ensures from > to ==> buckets == []
    ensures from <= to ==> |buckets| == BucketCount(from, to, BucketDuration(groupBy))
    ensures BucketsFit(buckets, from, to, BucketDuration(groupBy), events)
    ensures from <= to ==> Widths(buckets, if groupBy.Week? then 604_800_000 else 86_400_000)
  {
    hide Count, StartOf, BucketFits, BucketCount, Widths;
    var bucketDuration := BucketDuration(groupBy);
    buckets := [];
    var cursor := from;
    StartOfFirst(from, bucketDuration);
    while cursor <= to
      invariant cursor == StartOf(from, bucketDuration, |buckets|)
      invariant |buckets| > 0 ==> cursor - bucketDuration <= to && from <= to
      invariant |buckets| == 0 ==> cursor == from
      invariant BucketsFit(buckets, from, to, bucketDuration, [])
    {
      var bucketEnd := Min(cursor + bucketDuration - 1, to);
      EmptyBucketFits(from, to, bucketDuration, |buckets|);
      StartOfNext(from, bucketDuration, |buckets|);
      buckets := buckets + [Bucket(cursor, bucketEnd, 0, 0, 0)];
      cursor := cursor + bucketDuration;
    }
    if from <= to {
      CountOfBuckets(from, to, bucketDuration, |buckets|);
    }
    assert events[..0] == [];
    for k := 0 to |events|
      invariant |buckets| == if from <= to then BucketCount(from, to, bucketDuration) else 0
      invariant BucketsFit(buckets, from, to, bucketDuration, events[..k])
    {
      var event := events[k];
      assert events[..k + 1] == events[..k] + [event];
      OneMoreEvent(buckets, from, to, bucketDuration, events[..k], event);
      var bucketIndex := (event.timestamp - from) / bucketDuration;
      if !(0 <= bucketIndex < |buckets|) {
        continue;
      }
      var bucket := buckets[bucketIndex];
      bucket := bucket.(total := bucket.total + 1);
      if event.success {
        bucket := bucket.(successes := bucket.successes + 1);
      } else {
        bucket := bucket.(failures := bucket.failures + 1);
      }
      buckets := buckets[bucketIndex := bucket];
    }
    assert events[..|events|] == events;
    if from <= to {
      EvenWidths(buckets, from, to, bucketDuration, events);
    }
  }

  /** Every bucket but the last is as many milliseconds wide, both ends included. */
  predicate Widths(buckets: seq<Bucket>, width: int) {
    forall i :: 0 <= i < |buckets| - 1 ==> buckets[i].bucketEnd - buckets[i].bucketStart + 1 == width
  }

  lemma {:induction false} EvenWidths(buckets: seq<Bucket>, from: int, to: int, duration: int, events: seq<Event>)
    requires from <= to && duration > 0 && |buckets| == BucketCount(from, to, duration)
    requires BucketsFit(buckets, from, to, duration, events)
    ensures Widths(buckets, duration)
  {
    hide Count, StartOf;
    var n := |buckets|;
    IndexOfTime(from, duration, to, n - 1);
    forall i | 0 <= i < n - 1 ensures buckets[i].bucketEnd - buckets[i].bucketStart + 1 == duration {
      assert BucketFits(buckets[i], from, to, duration, i, events);
      StartOfNext(from, duration, i);
      StartsAscend(from, duration, i + 1, n - 1);
    }
  }

  lemma {:induction false} CountOfBuckets(from: int, to: int, duration: int, n: nat)
    requires from <= to && duration > 0 && n > 0
    requires StartOf(from, duration, n) > to && StartOf(from, duration, n) - duration <= to
    ensures n == BucketCount(from, to, duration)
  {
    hide StartOf;
    IndexOfTime(from, duration, to, n - 1);
    StartOfNext(from, duration, n - 1);
  }

  // --- what the buckets say ---

  /** For every range the buckets partition it, whatever its length and the grouping. */
  lemma {:induction false} BucketsPartitionRange(buckets: seq<Bucket>, from: int, to: int, duration: int, events: seq<Event>)
    requires from <= to && duration > 0 && |buckets| == BucketCount(from, to, duration)
    requires BucketsFit(buckets, from, to, duration, events)
    ensures Partition(buckets, from, to)
  {
    hide Count, StartOf;
    var n := |buckets|;
    IndexOfTime(from, duration, to, n - 1);
    StartOfFirst(from, duration);
    assert BucketFits(buckets[0], from, to, duration, 0, events);
    assert BucketFits(buckets[n - 1], from, to, duration, n - 1, events);
    forall i | 0 <= i < n ensures buckets[i].bucketStart <= buckets[i].bucketEnd {
      assert BucketFits(buckets[i], from, to, duration, i, events);
      StartsAscend(from, duration, i, n - 1);
    }
    forall i | 0 <= i < n - 1 ensures buckets[i + 1].bucketStart == buckets[i].bucketEnd + 1 {
      assert BucketFits(buckets[i], from, to, duration, i, events);
      assert BucketFits(buckets[i + 1], from, to, duration, i + 1, events);
      StartOfNext(from, duration, i);
      StartsAscend(from, duration, i + 1, n - 1);
    }
  }

  /** The numbers of the events inside the range of times that succeeded as asked. */
  function Inside(events: seq<Event>, from: int, to: int, success: Option<bool>): set<nat> {
    set k: nat | k < |events| && from <= events[k].timestamp <= to && (success == None || success == Some(events[k].success))
  }

  lemma {:induction false} CountIs(events: seq<Event>, from: int, to: int, success: Option<bool>)
    ensures Count(events, from, to, success) == |Inside(events, from, to, success)|
    decreases |events|
  {
    if events != [] {
      var n: nat := |events| - 1;
      CountIs(events[..n], from, to, success);
      var before := Inside(events[..n], from, to, success);
      assert Inside(events, from, to, success) == if n in Inside(events, from, to, success) then before + {n} else before;
    }
  }

  /** Splitting events by whether they succeeded splits their number. */
  lemma {:induction false} CountSplits(events: seq<Event>, from: int, to: int)
    ensures Count(events, from, to, None) == Count(events, from, to, Some(true)) + Count(events, from, to, Some(false))
    decreases |events|
  {
    if events != [] {
      CountSplits(events[..|events| - 1], from, to);
    }
  }

  /** Adjoining ranges add up. */
  lemma {:induction false} CountJoins(events: seq<Event>, from: int, mid: int, to: int, success: Option<bool>)
    requires from <= mid + 1 && mid <= to
    ensures Count(events, from, mid, success) + Count(events, mid + 1, to, success) == Count(events, from, to, success)
    decreases |events|
  {
    if events != [] {
      CountJoins(events[..|events| - 1], from, mid, to, success);
    }
  }

  function SumTotals(buckets: seq<Bucket>): nat {
    if buckets == [] then 0 else SumTotals(buckets[..|buckets| - 1]) + buckets[|buckets| - 1].total
  }

  lemma {:induction false} TotalsAddUp(buckets: seq<Bucket>, from: int, to: int, duration: int, events: seq<Event>)
    requires duration > 0 && BucketsFit(buckets, from, to, duration, events)
    ensures SumTotals(buckets) == Count(events, from, StartOf(from, duration, |buckets|) - 1, None)
    decreases |buckets|
  {
    hide Count, StartOf;
    StartOfFirst(from, duration);
    if buckets == [] {
      CountNothing(events, from, None);
    } else {
      var n := |buckets| - 1;
      assert BucketFits(buckets[n], from, to, duration, n, events);
      assert BucketsFit(buckets[..n], from, to, duration, events);
      TotalsAddUp(buckets[..n], from, to, duration, events);
      StartOfNext(from, duration, n);
      StartsAscend(from, duration, 0, n);
      CountJoins(events, from, StartOf(from, duration, n) - 1, StartOf(from, duration, n + 1) - 1, None);
    }
  }

  lemma {:induction false} CountNothing(events: seq<Event>, from: int, success: Option<bool>)
    ensures Count(events, from, from - 1, success) == 0
    decreases |events|
  {
    if events != [] {
      CountNothing(events[..|events| - 1], from, success);
    }
  }

  /** The totals. In every bucket the total is the successes plus the failures. Together the buckets count
      each event from the start of the range up to the horizon of the last bucket once, and no other; so
      they count exactly the events of the range if and only if no event lies between its end and that
      horizon, where the last bucket counts on past the end it shows. */
  lemma {:induction false} TotalsCountEvents(buckets: seq<Bucket>, from: int, to: int, duration: int, events: seq<Event>)
    requires from <= to && duration > 0 && |buckets| == BucketCount(from, to, duration)
    requires BucketsFit(buckets, from, to, duration, events)
    ensures forall i :: 0 <= i < |buckets| ==> buckets[i].total == buckets[i].successes + buckets[i].failures
    ensures SumTotals(buckets) == Count(events, from, Horizon(from, to, duration), None)
    ensures SumTotals(buckets) == Count(events, from, to, None) <==> Count(events, to + 1, Horizon(from, to, duration), None) == 0
  {
    hide Count, SumTotals, StartOf;
    forall i | 0 <= i < |buckets| ensures buckets[i].total == buckets[i].successes + buckets[i].failures {
      assert BucketFits(buckets[i], from, to, duration, i, events);
      CountSplits(events, StartOf(from, duration, i), StartOf(from, duration, i) + duration - 1);
    }
    TotalsAddUp(buckets, from, to, duration, events);
    IndexOfTime(from, duration, to, |buckets| - 1);
    StartOfNext(from, duration, |buckets| - 1);
    CountJoins(events, from, to, Horizon(from, to, duration), None);
  }

  /** With all events in the range the events of a bucket's slot are those between the ends it shows. */
  lemma {:induction false} SlotIsShown(buckets: seq<Bucket>, from: int, to: int, duration: int, events: seq<Event>, i: nat, success: Option<bool>)
    requires from <= to && duration > 0 && |buckets| == BucketCount(from, to, duration)
    requires BucketsFit(buckets, from, to, duration, events) && i < |buckets|
    requires forall k :: 0 <= k < |events| ==> from <= events[k].timestamp <= to
    ensures var start := StartOf(from, duration, i);
            Count(events, start, start + duration - 1, success) == Count(events, buckets[i].bucketStart, buckets[i].bucketEnd, success)
  {
    hide Count, BucketCount, StartOf;
    assert BucketFits(buckets[i], from, to, duration, i, events);
    var start := StartOf(from, duration, i);
    if start + duration - 1 > to {
      BucketsPartitionRange(buckets, from, to, duration, events);
      CountJoins(events, start, to, start + duration - 1, success);
      NoneOutside(events, from, to, to + 1, start + duration - 1, success);
    }
  }

  /** When every event lies in the range, as the route asks its source for, each bucket counts exactly the
      events, the successful and the other ones between the start and the end that it shows, and the totals add
      up to all events. */
  lemma {:induction false} EveryEventInItsBucket(buckets: seq<Bucket>, from: int, to: int, duration: int, events: seq<Event>)
    requires from <= to && duration > 0 && |buckets| == BucketCount(from, to, duration)
    requires BucketsFit(buckets, from, to, duration, events)
    requires forall k :: 0 <= k < |events| ==> from <= events[k].timestamp <= to
    ensures SumTotals(buckets) == |events|
    ensures forall i :: 0 <= i < |buckets| ==>
              var b := buckets[i];
              && b.total == |Inside(events, b.bucketStart, b.bucketEnd, None)|
              && b.successes == |Inside(events, b.bucketStart, b.bucketEnd, Some(true))|
              && b.failures == |Inside(events, b.bucketStart, b.bucketEnd, Some(false))|
  {
    hide Count, SumTotals, BucketCount, StartOf, Inside;
    TotalsCountEvents(buckets, from, to, duration, events);
    AllInRange(events, from, to);
    NoneOutside(events, from, to, to + 1, Horizon(from, to, duration), None);
    forall i | 0 <= i < |buckets|
      ensures var b := buckets[i];
              && b.total == |Inside(events, b.bucketStart, b.bucketEnd, None)|
              && b.successes == |Inside(events, b.bucketStart, b.bucketEnd, Some(true))|
              && b.failures == |Inside(events, b.bucketStart, b.bucketEnd, Some(false))|
    {
      var b := buckets[i];
      assert BucketFits(b, from, to, duration, i, events);
      SlotIsShown(buckets, from, to, duration, events, i, None);
      SlotIsShown(buckets, from, to, duration, events, i, Some(true));
      SlotIsShown(buckets, from, to, duration, events, i, Some(false));
      CountIs(events, b.bucketStart, b.bucketEnd, None);
      CountIs(events, b.bucketStart, b.bucketEnd, Some(true));
      CountIs(events, b.bucketStart, b.bucketEnd, Some(false));
    }
  }

  lemma {:induction false} AllInRange(events: seq<Event>, from: int, to: int)
    requires forall k :: 0 <= k < |events| ==> from <= events[k].timestamp <= to
    ensures Count(events, from, to, None) == |events|
    decreases |events|
  {
    if events != [] {
      AllInRange(events[..|events| - 1], from, to);
    }
  }

  lemma {:induction false} NoneOutside(events: seq<Event>, from: int, to: int, low: int, high: int, success: Option<bool>)
    requires forall k :: 0 <= k < |events| ==> from <= events[k].timestamp <= to
    requires to < low
    ensures Count(events, low, high, success) == 0
    decreases |events|
  {
    if events != [] {
      NoneOutside(events[..|events| - 1], from, to, low, high, success);
    }
  }

  lemma {:induction false} CountedSomewhere(events: seq<Event>, low: int, high: int, k: nat)
    requires k < |events| && low <= events[k].timestamp <= high
    ensures Count(events, low, high, None) >= 1
    decreases |events|
  {
    if k < |events| - 1 {
      CountedSomewhere(events[..|events| - 1], low, high, k);
    }
  }

  /** The last bucket counts, besides the events between its ends, every event from the end of the range up
      to the horizon, and those events lie in no bucket. */
  lemma {:induction false} LastBucketCountsPastItsEnd(buckets: seq<Bucket>, from: int, to: int, duration: int, events: seq<Event>)
    requires from <= to && duration > 0 && |buckets| == BucketCount(from, to, duration)
    requires BucketsFit(buckets, from, to, duration, events)
    ensures var last := buckets[|buckets| - 1];
            last.total == Count(events, last.bucketStart, last.bucketEnd, None) + Count(events, to + 1, Horizon(from, to, duration), None)
    ensures forall k :: 0 <= k < |events| && to < events[k].timestamp <= Horizon(from, to, duration) ==>
              Count(events, to + 1, Horizon(from, to, duration), None) >= 1
              && forall i :: 0 <= i < |buckets| ==> !Contains(buckets[i], events[k].timestamp)
  {
    hide Count, StartOf;
    var n := |buckets| - 1;
    var horizon := Horizon(from, to, duration);
    BucketsPartitionRange(buckets, from, to, duration, events);
    assert BucketFits(buckets[n], from, to, duration, n, events);
    StartOfNext(from, duration, n);
    CountJoins(events, StartOf(from, duration, n), to, horizon, None);
    forall k | 0 <= k < |events| && to < events[k].timestamp <= horizon
      ensures Count(events, to + 1, horizon, None) >= 1
              && forall i :: 0 <= i < |buckets| ==> !Contains(buckets[i], events[k].timestamp)
    {
      CountedSomewhere(events, to + 1, horizon, k);
      ExactlyOneBucket(buckets, from, to, events[k].timestamp);
    }
  }
}
