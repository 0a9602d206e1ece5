/** The queue-length job (`update:queuecalculation`): for every rating of every area,
    the mean waiting time of the trainings that qualify, written onto the area's
    rating association. */
module QueueCalculation {
  import opened Php
  import opened TrainingStatus

  /** A row of the area/rating association, as loaded with its area: `queueLength`
      is the in-memory attribute, `storedQueueLength` the value in the database. */
  class AreaRating {
    const areaId: nat
    const ratingId: nat
    var queueLength: Option<real>
    var storedQueueLength: Option<real>

    constructor (areaId: nat, ratingId: nat, stored: Option<real>)
      ensures this.areaId == areaId && this.ratingId == ratingId
      ensures queueLength == stored && storedQueueLength == stored
    {
      this.areaId := areaId;
      this.ratingId := ratingId;
      queueLength := stored;
      storedQueueLength := stored;
    }
  }

  /** An area with the association rows of its ratings. */
  datatype Area = Area(id: nat, ratings: seq<AreaRating>)

  function Abs(x: int): nat {
    if x < 0 then -x else x
  }

  /** Whether `t` enters the mean of the (area, rating) pair: it belongs to the rating and
      the area, has both timestamps, targets that single rating, which is a network
      rating, and has status -1. */
  predicate Measured(t: Training, areaId: nat, ratingId: nat, networkRatings: set<nat>)
    reads t
  {
    && ratingId in t.ratings && t.areaId == areaId
    && t.createdAt.Some? && t.startedAt.Some?
    && |t.ratings| == 1 && t.ratings[0] in networkRatings
    && t.status == -1
  }

  /** The waiting time of `t`: the absolute distance between creation and start, less the
      paused time. It is not clamped, so it can be negative. */
  function WaitingTime(t: Training): int
    reads t
    requires t.createdAt.Some? && t.startedAt.Some?
  {
    Abs(t.startedAt.value - t.createdAt.value) - t.pausedLength
  }

  /** The waiting time is not clamped: it is negative exactly when the paused time
      exceeds the distance between creation and start. */
  lemma WaitingTimeCanBeNegative(t: Training)
    requires t.createdAt.Some? && t.startedAt.Some?
    ensures WaitingTime(t) < 0 <==> t.pausedLength > Abs(t.startedAt.value - t.createdAt.value)
  {
  }

  /** The waiting times of the trainings measured for the pair, in the order of `ts`. */
  function Waits(ts: seq<Training>, areaId: nat, ratingId: nat, networkRatings: set<nat>): seq<int>
    reads ts
  {
    if ts == [] then []
    else
      var t := ts[|ts| - 1];
      Waits(ts[..|ts| - 1], areaId, ratingId, networkRatings)
        + (if Measured(t, areaId, ratingId, networkRatings) then [WaitingTime(t)] else [])
  }

  function Sum(w: seq<int>): int {
    if w == [] then 0 else Sum(w[..|w| - 1]) + w[|w| - 1]
  }

  function Min(w: seq<int>): int
    requires w != []
  {
    if |w| == 1 then w[0]
    else var m := Min(w[..|w| - 1]); if w[|w| - 1] < m then w[|w| - 1] else m
  }

  function Max(w: seq<int>): int
    requires w != []
  {
    if |w| == 1 then w[0]
    else var m := Max(w[..|w| - 1]); if w[|w| - 1] > m then w[|w| - 1] else m
  }

  /** The queue length of a pair: the mean of its waiting times, or none when it has none. */
  function QueueLength(w: seq<int>): Option<real> {
    if w == [] then None else Some(Sum(w) as real / |w| as real)
  }

  lemma {:induction false} WaitsAppend(a: seq<Training>, b: seq<Training>, areaId: nat, ratingId: nat, networkRatings: set<nat>)
    ensures Waits(a + b, areaId, ratingId, networkRatings)
         == Waits(a, areaId, ratingId, networkRatings) + Waits(b, areaId, ratingId, networkRatings)
  {
    if b == [] {
      assert a + b == a;
    } else {
      var b' := b[..|b| - 1];
      assert (a + b)[..|a + b| - 1] == a + b';
      assert (a + b)[|a + b| - 1] == b[|b| - 1];
      WaitsAppend(a, b', areaId, ratingId, networkRatings);
    }
  }

  /** Every measured training contributes its own entry, at its own position, so equal
      waiting times of two trainings are both counted. */
  lemma MeasuredContributes(ts: seq<Training>, k: nat, areaId: nat, ratingId: nat, networkRatings: set<nat>)
    requires k < |ts| && Measured(ts[k], areaId, ratingId, networkRatings)
    ensures Waits(ts, areaId, ratingId, networkRatings)
      == Waits(ts[..k], areaId, ratingId, networkRatings) + [WaitingTime(ts[k])]
         + Waits(ts[k + 1..], areaId, ratingId, networkRatings)
  {
    assert ts == ts[..k] + [ts[k]] + ts[k + 1..];
    WaitsAppend(ts[..k] + [ts[k]], ts[k + 1..], areaId, ratingId, networkRatings);
    WaitsAppend(ts[..k], [ts[k]], areaId, ratingId, networkRatings);
    assert [ts[k]][..0] == [];
  }

  /** A training that is not measured has no influence on the pair's waiting times. */
  lemma UnmeasuredIgnored(ts: seq<Training>, k: nat, areaId: nat, ratingId: nat, networkRatings: set<nat>)
    requires k < |ts| && !Measured(ts[k], areaId, ratingId, networkRatings)
    ensures Waits(ts[..k] + ts[k + 1..], areaId, ratingId, networkRatings)
         == Waits(ts, areaId, ratingId, networkRatings)
  {
    assert ts == ts[..k] + [ts[k]] + ts[k + 1..];
    WaitsAppend(ts[..k] + [ts[k]], ts[k + 1..], areaId, ratingId, networkRatings);
    WaitsAppend(ts[..k], [ts[k]], areaId, ratingId, networkRatings);
    WaitsAppend(ts[..k], ts[k + 1..], areaId, ratingId, networkRatings);
    assert [ts[k]][..0] == [];
  }

  lemma {:induction false} MinIsLowerBound(w: seq<int>, k: nat)
    requires k < |w|
    ensures Min(w) <= w[k]
  {
    if |w| > 1 && k < |w| - 1 {
      MinIsLowerBound(w[..|w| - 1], k);
    }
  }

  lemma {:induction false} MaxIsUpperBound(w: seq<int>, k: nat)
    requires k < |w|
    ensures w[k] <= Max(w)
  {
    if |w| > 1 && k < |w| - 1 {
      MaxIsUpperBound(w[..|w| - 1], k);
    }
  }

  lemma {:induction false} SumAtLeast(w: seq<int>, lo: int)
    requires forall k :: 0 <= k < |w| ==> lo <= w[k]
    ensures |w| * lo <= Sum(w)
  {
    if w != [] {
      var a := w[..|w| - 1];
      SumAtLeast(a, lo);
      assert |w| * lo == |a| * lo + lo;
    }
  }

  lemma {:induction false} SumAtMost(w: seq<int>, hi: int)
    requires forall k :: 0 <= k < |w| ==> w[k] <= hi
    ensures Sum(w) <= |w| * hi
  {
    if w != [] {
      var a := w[..|w| - 1];
      SumAtMost(a, hi);
      assert |w| * hi == |a| * hi + hi;
    }
  }

  lemma DivideBounds(s: int, n: int, lo: int, hi: int)
    requires n > 0 && n * lo <= s <= n * hi
    ensures lo as real <= s as real / n as real <= hi as real
  {
  }

  /** A stored queue length lies between the shortest and the longest waiting time. */
  lemma QueueLengthBounds(w: seq<int>)
    requires w != []
    ensures QueueLength(w).Some?
    ensures Min(w) as real <= QueueLength(w).value <= Max(w) as real
  {
    forall k | 0 <= k < |w| ensures Min(w) <= w[k] <= Max(w) {
      MinIsLowerBound(w, k);
      MaxIsUpperBound(w, k);
    }
    SumAtLeast(w, Min(w));
    SumAtMost(w, Max(w));
    DivideBounds(Sum(w), |w|, Min(w), Max(w));
  }

  /** Waiting times of 10, 20 and 30 seconds give a queue length of 20 seconds. */
  lemma MeanOfThree()
    ensures QueueLength([10, 20, 30]) == Some(20.0)
  {
    assert [10, 20, 30][..2] == [10, 20];
    assert [10, 20][..1] == [10];
    assert [10][..0] == [];
  }

  /** The inner loop of the job: the sum and number of the pair's waiting times. */
  method MeasureQueue(ts: seq<Training>, areaId: nat, ratingId: nat, networkRatings: set<nat>)
    returns (sum: int, count: nat)
    ensures sum == Sum(Waits(ts, areaId, ratingId, networkRatings))
    ensures count == |Waits(ts, areaId, ratingId, networkRatings)|
  {
    sum, count := 0, 0;
    var i := 0;
    while i < |ts|
      invariant i <= |ts|
      invariant sum == Sum(Waits(ts[..i], areaId, ratingId, networkRatings))
      invariant count == |Waits(ts[..i], areaId, ratingId, networkRatings)|
    {
      var t := ts[i];
      assert ts[..i + 1][..i] == ts[..i] && ts[..i + 1][i] == t;
      ghost var before := Waits(ts[..i], areaId, ratingId, networkRatings);
      if ratingId in t.ratings && t.areaId == areaId && t.createdAt.Some? && t.startedAt.Some? {
        if |t.ratings| == 1 && t.ratings[0] in networkRatings {
          if t.status == -1 {
            var waitingTime := Abs(t.startedAt.value - t.createdAt.value);
            waitingTime := waitingTime - t.pausedLength;
            assert (before + [waitingTime])[..|before|] == before;
            sum := sum + waitingTime;
            count := count + 1;
          }
        }
      }
      assert before + [] == before;
      i := i + 1;
    }
    assert ts[..i] == ts;
  }

  /** The pair's association row after the job: the mean is written and saved when
      there is one; otherwise the attribute is set to none but not saved. */
  ghost predicate Settled(p: AreaRating, ts: seq<Training>, networkRatings: set<nat>, storedBefore: Option<real>)
    reads p, ts
  {
    var w := Waits(ts, p.areaId, p.ratingId, networkRatings);
    && p.queueLength == QueueLength(w)
    && p.storedQueueLength == (if w == [] then storedBefore else QueueLength(w))
  }

  method UpdatePivot(p: AreaRating, areaId: nat, ts: seq<Training>, networkRatings: set<nat>)
    requires p.areaId == areaId
    modifies p
    ensures Settled(p, ts, networkRatings, old(p.storedQueueLength))
  {
    var sum, count := MeasureQueue(ts, areaId, p.ratingId, networkRatings);
    if count != 0 {
      var average := sum as real / count as real;
      p.queueLength := Some(average);
      p.storedQueueLength := p.queueLength;
    } else {
      p.queueLength := None;
    }
  }

  function Pivots(areas: seq<Area>): set<AreaRating> {
    set a, p | a in areas && p in a.ratings :: p
  }

  predicate RowsBelongToAreas(areas: seq<Area>) {
    forall a, p :: a in areas && p in a.ratings ==> p.areaId == a.id
  }

  method HandleArea(area: Area, ts: seq<Training>, networkRatings: set<nat>)
    requires forall p :: p in area.ratings ==> p.areaId == area.id
    modifies set p | p in area.ratings
    ensures forall p :: p in area.ratings ==> Settled(p, ts, networkRatings, old(p.storedQueueLength))
  {
    var j := 0;
    while j < |area.ratings|
      invariant j <= |area.ratings|
      invariant forall p :: p in area.ratings[..j] ==> Settled(p, ts, networkRatings, old(p.storedQueueLength))
      invariant forall p :: p in area.ratings && p !in area.ratings[..j] ==> p.storedQueueLength == old(p.storedQueueLength)
    {
      var p := area.ratings[j];
      assert forall q :: q in area.ratings[..j + 1] <==> q in area.ratings[..j] || q == p;
      UpdatePivot(p, area.id, ts, networkRatings);
      j := j + 1;
    }
    assert area.ratings[..j] == area.ratings;
  }

  /** The job: every association row of every area ends settled for its own (area, rating)
      pair, whatever the other pairs hold. */
  method Handle(areas: seq<Area>, ts: seq<Training>, networkRatings: set<nat>)
    requires RowsBelongToAreas(areas)
    modifies Pivots(areas)
    ensures forall p :: p in Pivots(areas) ==> Settled(p, ts, networkRatings, old(p.storedQueueLength))
  {
    var i := 0;
    while i < |areas|
      invariant i <= |areas|
      invariant forall p :: p in Pivots(areas) ==>
        if p in Pivots(areas[..i]) then Settled(p, ts, networkRatings, old(p.storedQueueLength))
        else p.storedQueueLength == old(p.storedQueueLength)
    {
      assert areas[..i + 1] == areas[..i] + [areas[i]];
      assert Pivots(areas[..i + 1]) == Pivots(areas[..i]) + set p | p in areas[i].ratings;
      HandleArea(areas[i], ts, networkRatings);
      i := i + 1;
    }
    assert areas[..i] == areas;
  }
}
