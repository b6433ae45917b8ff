/** The range-data collator: buffers one point batch per sensor and, once
    every expected sensor has reported (or a sensor reports twice), crops the
    buffered batches to a time window, merges them into one batch whose point
    times are relative to the window's end, and sorts it by time. */
module RangeDataCollation {
  import opened SensorIds

  /** An absolute time: signed 64-bit ticks. */
  type Time = t: int | -0x8000_0000_0000_0000 <= t <= 0x7fff_ffff_ffff_ffff

  /** The latest representable time, the start value of the oldest-time search. */
  const kTimeMax: Time := 0x7fff_ffff_ffff_ffff

  datatype Vec3 = Vec3(x: real, y: real, z: real)

  /** A point and its time relative to its batch's time, in ticks. */
  datatype TimedPoint = TimedPoint(position: Vec3, time: int)

  /** One sensor's batch: its absolute time, the sensor origin, the points
      in order and one intensity per point. */
  datatype TimedPointCloudData = TimedPointCloudData(time: Time, origin: Vec3, ranges: seq<TimedPoint>,
                                                     intensities: seq<real>)

  /** A merged point: its time relative to the merged batch's time, its
      intensity and the index of its sensor origin. */
  datatype RangeMeasurement = RangeMeasurement(pointTime: TimedPoint, intensity: real, originIndex: nat)

  /** A merged batch: its time, the origins of the contributing batches and the points. */
  datatype TimedPointCloudOriginData = TimedPointCloudOriginData(time: Time, origins: seq<Vec3>,
                                                                 ranges: seq<RangeMeasurement>)

  datatype Option<T> = None | Some(value: T)

  /** The batch a call returns while it waits for the other sensors. */
  const kEmpty := TimedPointCloudOriginData(0, [], [])

  /** The absolute time of one point of `d`. */
  function AbsoluteTime(d: TimedPointCloudData, p: TimedPoint): int
  {
    d.time + p.time
  }

  predicate WellFormed(d: TimedPointCloudData)
  {
    |d.intensities| == |d.ranges|
  }

  predicate AllWellFormed(pending: map<string, TimedPointCloudData>)
  {
    forall id :: id in pending ==> WellFormed(pending[id])
  }

  // ---------------------------------------------------------------------
  // Intensities on entry

  /** `xs` resized to `n` entries: the first ones kept, any new ones `fill`. */
  function Resized(xs: seq<real>, n: nat, fill: real): (r: seq<real>)
    ensures |r| == n
    ensures forall i :: 0 <= i < |xs| && i < n ==> r[i] == xs[i]
    ensures forall i :: |xs| <= i < n ==> r[i] == fill
  {
    if |xs| >= n then xs[..n] else xs + seq(n - |xs|, _ => fill)
  }

  /** The batch as stored: as many intensities as points. */
  function WithIntensities(d: TimedPointCloudData, fill: real): (r: TimedPointCloudData)
    ensures WellFormed(r)
    ensures r.time == d.time && r.origin == d.origin && r.ranges == d.ranges
  {
    d.(intensities := Resized(d.intensities, |d.ranges|, fill))
  }

  // ---------------------------------------------------------------------
  // Cropping one batch

  /** How many points at the front of `points` are `early`. */
  function LeadingRun(points: seq<TimedPoint>, early: TimedPoint -> bool): (n: nat)
    ensures n <= |points|
    ensures forall k :: 0 <= k < n ==> early(points[k])
    ensures n < |points| ==> !early(points[n])
  {
    if points == [] || !early(points[0]) then 0 else 1 + LeadingRun(points[1..], early)
  }

  /** Where the overlap starts: after the leading points earlier than `start`. */
  function OverlapBegin(d: TimedPointCloudData, start: Time): (b: nat)
    ensures b <= |d.ranges|
  {
    LeadingRun(d.ranges, p => AbsoluteTime(d, p) < start)
  }

  /** Where the overlap ends: after the run of points from the overlap start
      that are at or before `end`. */
  function OverlapEnd(d: TimedPointCloudData, start: Time, end: Time): (e: nat)
    ensures OverlapBegin(d, start) <= e <= |d.ranges|
  {
    var b := OverlapBegin(d, start);
    b + LeadingRun(d.ranges[b..], p => AbsoluteTime(d, p) <= end)
  }

  /** The overlap bounds: every point before `b` is earlier than `start`,
      and the point at `b` is not; every point in `[b, e)` is at or before
      `end`, and the point at `e` is after it. */
  lemma OverlapBounds(d: TimedPointCloudData, start: Time, end: Time)
    ensures var b, e := OverlapBegin(d, start), OverlapEnd(d, start, end);
            && (forall k :: 0 <= k < b ==> AbsoluteTime(d, d.ranges[k]) < start)
            && (b < |d.ranges| ==> AbsoluteTime(d, d.ranges[b]) >= start)
            && (forall k :: b <= k < e ==> AbsoluteTime(d, d.ranges[k]) <= end)
            && (e < |d.ranges| ==> AbsoluteTime(d, d.ranges[e]) > end)
  {
    var b := OverlapBegin(d, start);
    var tail := d.ranges[b..];
    var n := LeadingRun(tail, p => AbsoluteTime(d, p) <= end);
    forall k | b <= k < b + n
      ensures AbsoluteTime(d, d.ranges[k]) <= end
    {
      assert d.ranges[k] == tail[k - b];
    }
    if b + n < |d.ranges| {
      assert d.ranges[b + n] == tail[n];
    }
  }

  /** Finds the overlap of `d` with the window `[start, end]` by advancing
      two cursors over its points. */
  method FindOverlap(d: TimedPointCloudData, start: Time, end: Time) returns (b: nat, e: nat)
    ensures b == OverlapBegin(d, start) && e == OverlapEnd(d, start, end)
  {
    OverlapBounds(d, start, end);
    b := 0;
    while b < |d.ranges| && AbsoluteTime(d, d.ranges[b]) < start
      invariant b <= |d.ranges|
      invariant forall k :: 0 <= k < b ==> AbsoluteTime(d, d.ranges[k]) < start
    {
      b := b + 1;
    }
    e := b;
    while e < |d.ranges| && AbsoluteTime(d, d.ranges[e]) <= end
      invariant b <= e <= |d.ranges|
      invariant forall k :: b <= k < e ==> AbsoluteTime(d, d.ranges[k]) <= end
    {
      e := e + 1;
    }
  }

  /** The points `[b, e)` of `d` with their intensities, tagged with
      `originIndex`, each re-timed relative to `end`: same instant, same
      position, same intensity. */
  function Copied(d: TimedPointCloudData, b: nat, e: nat, originIndex: nat, end: Time): (r: seq<RangeMeasurement>)
    requires b <= e <= |d.ranges| && WellFormed(d)
    ensures |r| == e - b
    ensures forall k :: 0 <= k < |r| ==>
              && r[k].pointTime.time + end == AbsoluteTime(d, d.ranges[b + k])
              && r[k].pointTime.position == d.ranges[b + k].position
              && r[k].intensity == d.intensities[b + k]
              && r[k].originIndex == originIndex
  {
    seq(e - b, k requires 0 <= k < e - b =>
      RangeMeasurement(TimedPoint(d.ranges[b + k].position, d.ranges[b + k].time + (d.time - end)),
                       d.intensities[b + k], originIndex))
  }

  /** Appends the copied points one by one. */
  method AppendCopied(ranges: seq<RangeMeasurement>, d: TimedPointCloudData, b: nat, e: nat, originIndex: nat,
                      end: Time)
    returns (r: seq<RangeMeasurement>)
    requires b <= e <= |d.ranges| && WellFormed(d)
    ensures r == ranges + Copied(d, b, e, originIndex, end)
  {
    r := ranges;
    for i := b to e
      invariant r == ranges + Copied(d, b, i, originIndex, end)
    {
      var point := RangeMeasurement(TimedPoint(d.ranges[i].position, d.ranges[i].time + (d.time - end)),
                                    d.intensities[i], originIndex);
      r := r + [point];
      assert Copied(d, b, i + 1, originIndex, end) == Copied(d, b, i, originIndex, end) + [point];
    }
  }

  /** What stays buffered of `d` after the window: nothing when every point
      was used, `d` itself when none was, and otherwise the points from the
      overlap end on, with the same time and origin and their intensities. */
  function Slot(d: TimedPointCloudData, start: Time, end: Time): (r: Option<TimedPointCloudData>)
    requires WellFormed(d)
    ensures var e := OverlapEnd(d, start, end);
            && (r.None? <==> e == |d.ranges|)
            && (r.Some? ==> && WellFormed(r.value) && r.value.time == d.time && r.value.origin == d.origin
                            && r.value.ranges == d.ranges[e..] && r.value.intensities == d.intensities[e..])
  {
    var e := OverlapEnd(d, start, end);
    if e == |d.ranges| then None
    else if e == 0 then Some(d)
    else Some(TimedPointCloudData(d.time, d.origin, d.ranges[e..], d.intensities[e..]))
  }

  /** The pending map with the slot of `id` set to `slot`. */
  function UpdateSlot(pending: map<string, TimedPointCloudData>, id: string, slot: Option<TimedPointCloudData>)
    : map<string, TimedPointCloudData>
  {
    match slot
    case None => pending - {id}
    case Some(d) => pending[id := d]
  }

  // ---------------------------------------------------------------------
  // Merging all batches

  /** The merge so far: origins, merged points (not yet sorted), and the
      pending map. */
  datatype Merged = Merged(origins: seq<Vec3>, ranges: seq<RangeMeasurement>,
                           pending: map<string, TimedPointCloudData>)

  /** Crops the batch `d` of sensor `id` into the merge. */
  function CropBatch(m: Merged, id: string, d: TimedPointCloudData, start: Time, end: Time): Merged
    requires WellFormed(d)
  {
    var b, e := OverlapBegin(d, start), OverlapEnd(d, start, end);
    Merged(if b < e then m.origins + [d.origin] else m.origins,
           if b < e then m.ranges + Copied(d, b, e, |m.origins|, end) else m.ranges,
           UpdateSlot(m.pending, id, Slot(d, start, end)))
  }

  predicate Covers(ids: seq<string>, pending: map<string, TimedPointCloudData>)
  {
    forall i :: 0 <= i < |ids| ==> ids[i] in pending && WellFormed(pending[ids[i]])
  }

  /** The batches of `ids`, in that order, cropped to `[start, end]` and merged. */
  function MergeAll(ids: seq<string>, pending: map<string, TimedPointCloudData>, start: Time, end: Time): Merged
    requires Covers(ids, pending)
  {
    if ids == [] then Merged([], [], pending)
    else
      var last := |ids| - 1;
      CropBatch(MergeAll(ids[..last], pending, start, end), ids[last], pending[ids[last]], start, end)
  }

  /** Some point of `ranges` names origin `i`. */
  ghost predicate Named(ranges: seq<RangeMeasurement>, i: nat)
  {
    exists k :: 0 <= k < |ranges| && ranges[k].originIndex == i
  }

  /** Every point names one of the origins, and every origin is named by a point. */
  ghost predicate OriginsMatch(m: Merged)
  {
    && (forall k :: 0 <= k < |m.ranges| ==> m.ranges[k].originIndex < |m.origins|)
    && (forall i :: 0 <= i < |m.origins| ==> Named(m.ranges, i))
  }

  /** Every point is at or before the window end: its time relative to the end is not positive. */
  predicate NotAfterEnd(m: Merged)
  {
    forall k :: 0 <= k < |m.ranges| ==> m.ranges[k].pointTime.time <= 0
  }

  /** Every merged point names an origin of the merge, and every origin is
      named by some point: an origin is added only with at least one point. */
  lemma {:induction false} MergeOrigins(ids: seq<string>, pending: map<string, TimedPointCloudData>,
                                        start: Time, end: Time)
    requires Covers(ids, pending)
    ensures OriginsMatch(MergeAll(ids, pending, start, end))
  {
    if ids != [] {
      var last := |ids| - 1;
      var prev := MergeAll(ids[..last], pending, start, end);
      MergeOrigins(ids[..last], pending, start, end);
      var d := pending[ids[last]];
      var b, e := OverlapBegin(d, start), OverlapEnd(d, start, end);
      if b < e {
        var m := MergeAll(ids, pending, start, end);
        var added := Copied(d, b, e, |prev.origins|, end);
        assert m.ranges == prev.ranges + added && m.origins == prev.origins + [d.origin];
        forall k | 0 <= k < |m.ranges|
          ensures m.ranges[k].originIndex < |m.origins|
        {
          if k >= |prev.ranges| {
            assert m.ranges[k] == added[k - |prev.ranges|];
          } else {
            assert m.ranges[k] == prev.ranges[k];
          }
        }
        assert m.ranges[|prev.ranges|] == added[0];
        forall i | 0 <= i < |m.origins|
          ensures Named(m.ranges, i)
        {
          if i < |prev.origins| {
            assert Named(prev.ranges, i);
            var k :| 0 <= k < |prev.ranges| && prev.ranges[k].originIndex == i;
            assert m.ranges[k] == prev.ranges[k];
          }
        }
      }
    }
  }

  /** Every merged point is at or before the window end: its time relative
      to the end is not positive. */
  lemma {:induction false} MergeNotAfterEnd(ids: seq<string>, pending: map<string, TimedPointCloudData>,
                                            start: Time, end: Time)
    requires Covers(ids, pending)
    ensures NotAfterEnd(MergeAll(ids, pending, start, end))
  {
    if ids != [] {
      var last := |ids| - 1;
      var prev := MergeAll(ids[..last], pending, start, end);
      MergeNotAfterEnd(ids[..last], pending, start, end);
      var d := pending[ids[last]];
      var b, e := OverlapBegin(d, start), OverlapEnd(d, start, end);
      OverlapBounds(d, start, end);
      if b < e {
        var m := MergeAll(ids, pending, start, end);
        var added := Copied(d, b, e, |prev.origins|, end);
        assert m.ranges == prev.ranges + added;
        forall k | 0 <= k < |m.ranges|
          ensures m.ranges[k].pointTime.time <= 0
        {
          if k >= |prev.ranges| {
            assert m.ranges[k] == added[k - |prev.ranges|];
            assert AbsoluteTime(d, d.ranges[b + (k - |prev.ranges|)]) <= end;
          } else {
            assert m.ranges[k] == prev.ranges[k];
          }
        }
      }
    }
  }

  /** In `after`, the slot of each sensor of `ids` is what `Slot` says of its
      batch in `pending`; the slots of other sensors are as in `pending`. */
  ghost predicate SlotsUpdated(ids: seq<string>, pending: map<string, TimedPointCloudData>,
                         after: map<string, TimedPointCloudData>, start: Time, end: Time)
    requires Covers(ids, pending)
  {
    && (forall id :: id in ids ==>
          var slot := Slot(pending[id], start, end);
          (id in after <==> slot.Some?) && (id in after ==> after[id] == slot.value))
    && (forall id :: id !in ids ==> (id in after <==> id in pending) && (id in after ==> after[id] == pending[id]))
  }

  /** After the merge, the slot of a merged sensor is what `Slot` says; the
      slots of other sensors are untouched. */
  lemma {:induction false} MergeSlots(ids: seq<string>, pending: map<string, TimedPointCloudData>,
                                      start: Time, end: Time)
    requires Covers(ids, pending)
    requires forall i, j :: 0 <= i < j < |ids| ==> ids[i] != ids[j]
    ensures SlotsUpdated(ids, pending, MergeAll(ids, pending, start, end).pending, start, end)
  {
    if ids != [] {
      var last := |ids| - 1;
      MergeSlots(ids[..last], pending, start, end);
      forall id | id in ids && id != ids[last]
        ensures id in ids[..last]
      {
        var j :| 0 <= j < |ids| && ids[j] == id;
        assert ids[..last][j] == id;
      }
    }
  }

  /** How many points of the batches of `ids` fall before the window start. */
  function Dropped(ids: seq<string>, pending: map<string, TimedPointCloudData>, start: Time): nat
    requires Covers(ids, pending)
  {
    if ids == [] then 0
    else Dropped(ids[..|ids| - 1], pending, start) + OverlapBegin(pending[ids[|ids| - 1]], start)
  }

  /** How many points of the batches of `ids` stay buffered. */
  function Remaining(ids: seq<string>, pending: map<string, TimedPointCloudData>, start: Time, end: Time): nat
    requires Covers(ids, pending)
  {
    if ids == [] then 0
    else
      var slot := Slot(pending[ids[|ids| - 1]], start, end);
      Remaining(ids[..|ids| - 1], pending, start, end) + (if slot.Some? then |slot.value.ranges| else 0)
  }

  /** How many points the batches of `ids` hold. */
  function Total(ids: seq<string>, pending: map<string, TimedPointCloudData>): nat
    requires Covers(ids, pending)
  {
    if ids == [] then 0 else Total(ids[..|ids| - 1], pending) + |pending[ids[|ids| - 1]].ranges|
  }

  /** No point is lost or duplicated: each is dropped, merged or still buffered. */
  lemma {:induction false} MergeConservesPoints(ids: seq<string>, pending: map<string, TimedPointCloudData>,
                                                start: Time, end: Time)
    requires Covers(ids, pending)
    ensures |MergeAll(ids, pending, start, end).ranges| + Dropped(ids, pending, start) + Remaining(ids, pending, start, end)
            == Total(ids, pending)
  {
    if ids != [] {
      MergeConservesPoints(ids[..|ids| - 1], pending, start, end);
    }
  }

  /** One more sensor of the merge order. */
  lemma MergeStep(ids: seq<string>, pending: map<string, TimedPointCloudData>, start: Time, end: Time, k: nat)
    requires Covers(ids, pending) && k < |ids|
    ensures Covers(ids[..k], pending) && Covers(ids[..k + 1], pending)
    ensures MergeAll(ids[..k + 1], pending, start, end)
            == CropBatch(MergeAll(ids[..k], pending, start, end), ids[k], pending[ids[k]], start, end)
  {
    assert ids[..k + 1][..k] == ids[..k];
  }

  /** The merge of the whole pending map, visited in ascending identifier order. */
  function Crop(pending: map<string, TimedPointCloudData>, start: Time, end: Time): Merged
    requires AllWellFormed(pending)
  {
    MergeAll(SortedIds(pending.Keys), pending, start, end)
  }

  /** The window's merge: every point is at or before the end and names an
      origin, and every origin comes with at least one point. */
  lemma CropPoints(pending: map<string, TimedPointCloudData>, start: Time, end: Time)
    requires AllWellFormed(pending)
    ensures NotAfterEnd(Crop(pending, start, end)) && OriginsMatch(Crop(pending, start, end))
  {
    var ids := SortedIds(pending.Keys);
    assert Crop(pending, start, end) == MergeAll(ids, pending, start, end);
    MergeOrigins(ids, pending, start, end);
    MergeNotAfterEnd(ids, pending, start, end);
  }

  /** Every buffered sensor's slot in `after` is what `Slot` says of its
      batch in `pending`, and no sensor gains a slot. */
  predicate SlotsCropped(pending: map<string, TimedPointCloudData>, after: map<string, TimedPointCloudData>,
                         start: Time, end: Time)
    requires AllWellFormed(pending)
  {
    && (forall id :: id in pending ==>
          var slot := Slot(pending[id], start, end);
          (id in after <==> slot.Some?) && (id in after ==> after[id] == slot.value))
    && after.Keys <= pending.Keys && AllWellFormed(after)
  }

  /** After the window's merge every buffered sensor's slot is what `Slot`
      says, and no sensor gains a slot. */
  lemma CropSlots(pending: map<string, TimedPointCloudData>, start: Time, end: Time)
    requires AllWellFormed(pending)
    ensures SlotsCropped(pending, Crop(pending, start, end).pending, start, end)
  {
    var ids := SortedIds(pending.Keys);
    assert Crop(pending, start, end) == MergeAll(ids, pending, start, end);
    SortedDistinct(ids);
    MergeSlots(ids, pending, start, end);
  }

  // ---------------------------------------------------------------------
  // Sorting by time

  predicate SortedByTime(rs: seq<RangeMeasurement>)
  {
    forall i, j :: 0 <= i < j < |rs| ==> rs[i].pointTime.time <= rs[j].pointTime.time
  }

  /** Sorts the merged points by their corrected time, in place. */
  method SortByTime(a: array<RangeMeasurement>)
    modifies a
    ensures SortedByTime(a[..]) && multiset(a[..]) == multiset(old(a[..]))
  {
    var i := 0;
    while i < a.Length
      invariant i <= a.Length
      invariant forall p, q :: 0 <= p < q < i ==> a[p].pointTime.time <= a[q].pointTime.time
      invariant multiset(a[..]) == multiset(old(a[..]))
    {
      InsertLast(a, i);
      i := i + 1;
    }
  }

  /** Moves `a[i]` left into the sorted prefix `a[..i]`. */
  method InsertLast(a: array<RangeMeasurement>, i: nat)
    requires i < a.Length
    requires forall p, q :: 0 <= p < q < i ==> a[p].pointTime.time <= a[q].pointTime.time
    modifies a
    ensures forall p, q :: 0 <= p < q <= i ==> a[p].pointTime.time <= a[q].pointTime.time
    ensures multiset(a[..]) == multiset(old(a[..]))
  {
    var j := i;
    while j > 0 && a[j - 1].pointTime.time > a[j].pointTime.time
      invariant 0 <= j <= i
      invariant Sifting(a, i, j)
      invariant multiset(a[..]) == multiset(old(a[..]))
    {
      SwapDown(a, i, j);
      j := j - 1;
    }
  }

  /** While `a[i]` moves left and sits at `j`: the other points of
      `a[..i + 1]` are in order, and those right of `j` are later than it. */
  ghost predicate Sifting(a: array<RangeMeasurement>, i: nat, j: nat)
    requires j <= i < a.Length
    reads a
  {
    && (forall p, q :: 0 <= p < q <= i && p != j && q != j ==> a[p].pointTime.time <= a[q].pointTime.time)
    && (forall q :: j < q <= i ==> a[j].pointTime.time < a[q].pointTime.time)
  }

  /** One step of `InsertLast`: swaps the moving point with its later left
      neighbour. */
  method SwapDown(a: array<RangeMeasurement>, i: nat, j: nat)
    requires 0 < j <= i < a.Length
    requires a[j - 1].pointTime.time > a[j].pointTime.time
    requires Sifting(a, i, j)
    modifies a
    ensures Sifting(a, i, j - 1)
    ensures multiset(a[..]) == multiset(old(a[..]))
  {
    a[j - 1], a[j] := a[j], a[j - 1];
  }

  /** The merged points sorted by corrected time: sorts a copy in place. */
  method SortRanges(ranges: seq<RangeMeasurement>) returns (sorted: seq<RangeMeasurement>)
    ensures SortedByTime(sorted) && multiset(sorted) == multiset(ranges)
  {
    var a := new RangeMeasurement[|ranges|](i requires 0 <= i < |ranges| => ranges[i]);
    assert a[..] == ranges;
    SortByTime(a);
    sorted := a[..];
  }

  // ---------------------------------------------------------------------
  // The collator

  /** The oldest of the buffered batch times, starting from the latest time. */
  method OldestTimestamp(ids: seq<string>, pending: map<string, TimedPointCloudData>) returns (oldest: Time)
    requires forall i :: 0 <= i < |ids| ==> ids[i] in pending
    ensures forall i :: 0 <= i < |ids| ==> oldest <= pending[ids[i]].time
    ensures ids == [] ==> oldest == kTimeMax
    ensures ids != [] ==> exists i :: 0 <= i < |ids| && oldest == pending[ids[i]].time
  {
    oldest := kTimeMax;
    for i := 0 to |ids|
      invariant forall j :: 0 <= j < i ==> oldest <= pending[ids[j]].time
      invariant i == 0 ==> oldest == kTimeMax
      invariant i > 0 ==> exists j :: 0 <= j < i && oldest == pending[ids[j]].time
    {
      var t := pending[ids[i]].time;
      if t < oldest {
        oldest := t;
      }
    }
  }

  /** `t` is the time of the oldest buffered batch. */
  predicate IsOldest(t: Time, pending: map<string, TimedPointCloudData>)
  {
    (forall id :: id in pending ==> t <= pending[id].time) && (exists id :: id in pending && t == pending[id].time)
  }

  /** A map insertion that keeps an existing entry. */
  function Emplace(pending: map<string, TimedPointCloudData>, id: string, d: TimedPointCloudData)
    : (r: map<string, TimedPointCloudData>)
    ensures id in r && r.Keys == pending.Keys + {id}
    ensures r[id] == if id in pending then pending[id] else d
    ensures forall other :: other in pending && other != id ==> r[other] == pending[other]
  {
    if id in pending then pending else pending[id := d]
  }

  /** `result` is the merge of `pending` over `[start, end]`: tagged with
      `end`, the origins in traversal order, the points sorted by corrected
      time and otherwise exactly the merged ones. */
  ghost predicate Emitted(result: TimedPointCloudOriginData, pending: map<string, TimedPointCloudData>,
                          start: Time, end: Time)
    requires AllWellFormed(pending)
  {
    var m := Crop(pending, start, end);
    && result.time == end && result.origins == m.origins
    && SortedByTime(result.ranges) && multiset(result.ranges) == multiset(m.ranges)
  }

  /** A repeated report of `id`: the window `[start, end]` runs from the old
      end to the time of the batch buffered for `id`; `result` is the merge
      of the buffered batches `p0`, and `stored` takes the slot of `id`
      only if the merge freed it. */
  ghost predicate FlushedRepeat(p0: map<string, TimedPointCloudData>, end0: Time, id: string,
                                stored: TimedPointCloudData, result: TimedPointCloudOriginData,
                                p: map<string, TimedPointCloudData>, start: Time, end: Time)
    requires AllWellFormed(p0)
  {
    && id in p0 && start == end0 && end == p0[id].time
    && Emitted(result, p0, start, end)
    && p == Emplace(Crop(p0, start, end).pending, id, stored)
  }

  /** The last missing sensor reported: the window `[start, end]` runs from
      the old end to the oldest buffered time, and `result` is the merge of
      the buffered batches `p0`. */
  ghost predicate FlushedAll(p0: map<string, TimedPointCloudData>, end0: Time, result: TimedPointCloudOriginData,
                             p: map<string, TimedPointCloudData>, start: Time, end: Time)
    requires AllWellFormed(p0)
  {
    && start == end0 && IsOldest(end, p0)
    && Emitted(result, p0, start, end)
    && p == Crop(p0, start, end).pending
  }

  /** Once every expected sensor is buffered (as many entries as expected
      sensors, all of them expected), every expected sensor is buffered. */
  lemma {:induction false} AllReported(keys: set<string>, expected: set<string>)
    requires keys <= expected && |keys| == |expected|
    ensures keys == expected
  {
    if keys != expected {
      assert !(expected <= keys);
      var x :| x in expected && x !in keys;
      SubsetNoLarger(keys, expected - {x});
    }
  }

  lemma {:induction false} SubsetNoLarger(a: set<string>, b: set<string>)
    requires a <= b
    ensures |a| <= |b|
  {
    if a != {} {
      var x :| x in a;
      SubsetNoLarger(a - {x}, b - {x});
    }
  }

  class RangeDataCollator {
    const expectedSensorIds: set<string>
    const defaultIntensity: real
    var pending: map<string, TimedPointCloudData>
    var currentStart: Time
    var currentEnd: Time

    /** Only expected sensors are buffered, each with one intensity per point. */
    ghost predicate Valid()
      reads this
    {
      pending.Keys <= expectedSensorIds && AllWellFormed(pending)
    }

    /** A collator for `expectedSensorIds`, nothing buffered, the window at `initialTime`. */
    constructor (expectedSensorIds: set<string>, initialTime: Time, defaultIntensity: real)
      ensures Valid() && pending == map[]
      ensures this.expectedSensorIds == expectedSensorIds && this.defaultIntensity == defaultIntensity
      ensures currentStart == initialTime && currentEnd == initialTime
    {
      this.expectedSensorIds := expectedSensorIds;
      this.defaultIntensity := defaultIntensity;
      pending := map[];
      currentStart := initialTime;
      currentEnd := initialTime;
    }

    /** Crops every buffered batch to `[currentStart, currentEnd]`, merges
        the overlaps in identifier order, updates each slot and sorts the
        merged points by corrected time. */
    method CropAndMerge() returns (result: TimedPointCloudOriginData)
      requires Valid()
      modifies this
      ensures Valid() && currentStart == old(currentStart) && currentEnd == old(currentEnd)
      ensures pending == Crop(old(pending), currentStart, currentEnd).pending
      ensures Emitted(result, old(pending), currentStart, currentEnd)
    {
      var ids := SortedIds(pending.Keys);
      SortedDistinct(ids);
      CropSlots(pending, currentStart, currentEnd);
      var origins, ranges := CropSensors(ids);
      var sorted := SortRanges(ranges);
      result := TimedPointCloudOriginData(currentEnd, origins, sorted);
    }

    /** Crops the buffered batches of `ids`, each once and in that order, into one merge. */
    method CropSensors(ids: seq<string>) returns (origins: seq<Vec3>, ranges: seq<RangeMeasurement>)
      requires Covers(ids, pending)
      requires forall i, j :: 0 <= i < |ids| && 0 <= j < |ids| && i != j ==> ids[i] != ids[j]
      modifies this
      ensures currentStart == old(currentStart) && currentEnd == old(currentEnd)
      ensures Merged(origins, ranges, pending) == MergeAll(ids, old(pending), currentStart, currentEnd)
    {
      ghost var pending0 := pending;
      origins, ranges := [], [];
      for k := 0 to |ids|
        invariant currentStart == old(currentStart) && currentEnd == old(currentEnd)
        invariant MergeAll(ids[..k], pending0, currentStart, currentEnd) == Merged(origins, ranges, pending)
        invariant forall j :: k <= j < |ids| ==> ids[j] in pending && pending[ids[j]] == pending0[ids[j]]
      {
        MergeStep(ids, pending0, currentStart, currentEnd, k);
        origins, ranges := CropSensor(ids[k], origins, ranges);
      }
      assert ids[..|ids|] == ids;
    }

    /** Crops the buffered batch of `id` into the merge so far: copies its
        overlap, under a new origin, when there is one, and updates its slot. */
    method CropSensor(id: string, origins: seq<Vec3>, ranges: seq<RangeMeasurement>)
      returns (newOrigins: seq<Vec3>, newRanges: seq<RangeMeasurement>)
      requires id in pending && WellFormed(pending[id])
      modifies this
      ensures currentStart == old(currentStart) && currentEnd == old(currentEnd)
      ensures Merged(newOrigins, newRanges, pending)
              == CropBatch(Merged(origins, ranges, old(pending)), id, old(pending)[id], currentStart, currentEnd)
      ensures forall other :: other != id ==> (other in pending <==> other in old(pending))
      ensures forall other :: other != id && other in pending ==> pending[other] == old(pending)[other]
    {
      var data := pending[id];
      var b, e := FindOverlap(data, currentStart, currentEnd);
      newOrigins, newRanges := origins, ranges;
      if b < e {
        var originIndex := |origins|;
        newOrigins := origins + [data.origin];
        newRanges := AppendCopied(ranges, data, b, e, originIndex, currentEnd);
      }
      if e == |data.ranges| {
        pending := pending - {id};
      } else if e == 0 {
        assert pending == pending[id := data];
      } else {
        pending := pending[id := TimedPointCloudData(data.time, data.origin, data.ranges[e..], data.intensities[e..])];
      }
    }

    /** Takes one batch from `sensorId`.  A sensor already buffered moves the
        window to that buffered batch's time and merges, then buffers the new
        batch only if the sensor's slot was freed.  Otherwise the batch is
        buffered, and once every expected sensor is buffered the window moves
        to the oldest buffered time and merges; until then the result is
        empty. */
    method AddRangeData(sensorId: string, data: TimedPointCloudData) returns (result: TimedPointCloudOriginData)
      requires Valid() && sensorId in expectedSensorIds
      modifies this
      ensures Valid()
      ensures sensorId in old(pending) ==>
                FlushedRepeat(old(pending), old(currentEnd), sensorId, WithIntensities(data, defaultIntensity),
                              result, pending, currentStart, currentEnd)
      ensures sensorId !in old(pending) ==>
                var buffered := Emplace(old(pending), sensorId, WithIntensities(data, defaultIntensity));
                if |buffered| != |expectedSensorIds| then
                  && result == kEmpty && pending == buffered
                  && currentStart == old(currentStart) && currentEnd == old(currentEnd)
                else
                  && buffered.Keys == expectedSensorIds
                  && FlushedAll(buffered, old(currentEnd), result, pending, currentStart, currentEnd)
    {
      var stored := WithIntensities(data, defaultIntensity);
      if sensorId in pending {
        result := FlushRepeat(sensorId, stored);
        return;
      }
      pending := Emplace(pending, sensorId, stored);
      if |expectedSensorIds| != |pending| {
        return kEmpty;
      }
      AllReported(pending.Keys, expectedSensorIds);
      result := FlushAll();
    }

    /** A sensor reported again: the window moves to its buffered batch's
        time, the buffered batches are merged, and the new batch is buffered
        if the sensor's slot was freed. */
    method FlushRepeat(sensorId: string, stored: TimedPointCloudData) returns (result: TimedPointCloudOriginData)
      requires Valid() && sensorId in pending && sensorId in expectedSensorIds && WellFormed(stored)
      modifies this
      ensures Valid()
      ensures FlushedRepeat(old(pending), old(currentEnd), sensorId, stored, result, pending, currentStart, currentEnd)
    {
      currentStart := currentEnd;
      currentEnd := pending[sensorId].time;
      result := CropAndMerge();
      pending := Emplace(pending, sensorId, stored);
    }

    /** Every expected sensor is buffered: the window moves to the oldest
        buffered time and the buffered batches are merged. */
    method FlushAll() returns (result: TimedPointCloudOriginData)
      requires Valid() && pending != map[]
      modifies this
      ensures Valid()
      ensures FlushedAll(old(pending), old(currentEnd), result, pending, currentStart, currentEnd)
    {
      currentStart := currentEnd;
      var ids := SortedIds(pending.Keys);
      var oldest := OldestTimestamp(ids, pending);
      currentEnd := oldest;
      result := CropAndMerge();
    }
  }

  /** A buffered batch none of whose points is later than its own time is
      used up when the window moves to that time, so the sensor's next batch
      is buffered. */
  lemma NextBatchBuffered(pending: map<string, TimedPointCloudData>, id: string, d: TimedPointCloudData, start: Time)
    requires AllWellFormed(pending) && id in pending
    requires forall k :: 0 <= k < |pending[id].ranges| ==> pending[id].ranges[k].time <= 0
    ensures var end := pending[id].time;
            Emplace(Crop(pending, start, end).pending, id, d)[id] == d
  {
    var end := pending[id].time;
    var batch := pending[id];
    OverlapBounds(batch, start, end);
    assert forall k :: 0 <= k < |batch.ranges| ==> AbsoluteTime(batch, batch.ranges[k]) <= end;
    assert Slot(batch, start, end).None?;
    CropSlots(pending, start, end);
    assert id !in Crop(pending, start, end).pending;
  }

  /** A buffered batch with a point later than its own time is not used up
      when a window starting no later than that time moves to it: its slot keeps the points from the
      overlap end on, and `emplace` leaves that slot in place, so the
      sensor's next batch is not buffered. */
  lemma NextBatchDropped(pending: map<string, TimedPointCloudData>, id: string, d: TimedPointCloudData, start: Time)
    requires AllWellFormed(pending) && id in pending
    requires start <= pending[id].time
    requires exists k :: 0 <= k < |pending[id].ranges| && pending[id].ranges[k].time > 0
    ensures var end := pending[id].time;
            var after := Crop(pending, start, end).pending;
            && id in after
            && after[id].time == pending[id].time
            && after[id].ranges == pending[id].ranges[OverlapEnd(pending[id], start, end)..]
            && Emplace(after, id, d)[id] == after[id]
  {
    var end := pending[id].time;
    var batch := pending[id];
    var k :| 0 <= k < |batch.ranges| && batch.ranges[k].time > 0;
    OverlapBounds(batch, start, end);
    assert AbsoluteTime(batch, batch.ranges[k]) > end;
    assert OverlapBegin(batch, start) <= k;
    assert OverlapEnd(batch, start, end) <= k;
    CropSlots(pending, start, end);
  }
}
