/** The batch schedule of `get_embeddings`: how the loop at lines 62-104 of
    the source cuts N records into batches for a configured batch count B.
    `Schedule` is the schedule the loop follows as written, including the
    batch whose slice would run past the records; `CorrectedSchedule` is the
    evidently intended one, which never does. */
module Batching {
  import opened Outcomes
  import opened Numbers

  /** Records `start` up to (not including) `start + count` of the input. */
  datatype Span = Span(start: nat, count: nat)

  /** The batches the loop runs, in order, and the batch whose slice runs
      past the records if the loop reaches one. */
  datatype Plan = Plan(spans: seq<Span>, overrun: Option<Span>)

  /** `ceil(numRecords / numBatches)`, computed exactly: the least size
      whose `numBatches` copies cover all the records. */
  function BatchSize(numRecords: nat, numBatches: nat): (size: nat)
    requires numBatches >= 1
    ensures size * numBatches >= numRecords
    ensures size > 0 ==> (size - 1) * numBatches < numRecords
    ensures numRecords > 0 ==> size > 0
  {
    var total := numRecords + numBatches - 1;
    var q := total / numBatches;
    assert total == q * numBatches + total % numBatches;
    assert q > 0 ==> (q - 1) * numBatches == q * numBatches - numBatches;
    q
  }

  /** The size of batch number `batch` (counted from 1) once
      `numProcessed` records are done: the last configured batch takes the
      rest, every other batch takes `BatchSize`. */
  function NumToProcess(batch: nat, numProcessed: nat, numRecords: nat, numBatches: nat): (count: nat)
    requires numBatches >= 1 && numProcessed <= numRecords
    ensures numProcessed < numRecords ==> count >= 1
    ensures batch == numBatches ==> numProcessed + count == numRecords
    ensures batch != numBatches ==> count * numBatches >= numRecords && (count - 1) * numBatches < numRecords
  {
    if batch == numBatches then numRecords - numProcessed else BatchSize(numRecords, numBatches)
  }

  /** The loop state that can be reached: while records remain, the batch
      number is at most B and every earlier batch took `BatchSize`. */
  predicate Cursor(numRecords: nat, numBatches: nat, numProcessed: nat, batch: nat)
    requires numBatches >= 1
  {
    numProcessed <= numRecords && 1 <= batch <= numBatches + 1 &&
    (numProcessed < numRecords ==>
       batch <= numBatches && numProcessed == (batch - 1) * BatchSize(numRecords, numBatches))
  }

  lemma MulSucc(x: nat, s: nat)
    ensures x * s + s == (x + 1) * s
  {
  }

  /** A batch that fits leads to a reachable loop state. */
  lemma CursorAdvances(n: nat, b: nat, processed: nat, batch: nat, count: nat)
    requires b >= 1 && Cursor(n, b, processed, batch) && processed < n
    requires count == NumToProcess(batch, processed, n, b) || count == n - processed
    requires processed + count <= n
    ensures Cursor(n, b, processed + count, batch + 1)
  {
    if processed + count < n && batch < b {
      if count != n - processed {
        MulSucc(batch - 1, BatchSize(n, b));
      }
    }
  }

  /** The rest of the schedule from a reachable loop state, batch by batch
      as the source's loop takes them. */
  function PlanFrom(n: nat, b: nat, processed: nat, batch: nat): (p: Plan)
    requires b >= 1 && Cursor(n, b, processed, batch)
    ensures |p.spans| <= b + 1 - batch
    decreases b + 1 - batch
  {
    if processed >= n then Plan([], None)
    else
      var count := NumToProcess(batch, processed, n, b);
      if processed + count > n then Plan([], Some(Span(processed, count)))
      else
        CursorAdvances(n, b, processed, batch, count);
        var rest := PlanFrom(n, b, processed + count, batch + 1);
        Plan([Span(processed, count)] + rest.spans, rest.overrun)
  }

  /** The schedule of a whole run: from record 0, batch 1. */
  function Schedule(numRecords: nat, numBatches: nat): (p: Plan)
    requires numBatches >= 1
    ensures |p.spans| <= numBatches
    ensures numRecords == 0 ==> p == Plan([], None)
  {
    PlanFrom(numRecords, numBatches, 0, 1)
  }

  /** `spans` are non-empty, contiguous and in order, and exactly tile
      `from .. to`. */
  predicate Tiles(spans: seq<Span>, from: nat, to: nat)
    decreases |spans|
  {
    if |spans| == 0 then from == to
    else spans[0].start == from && spans[0].count >= 1 && Tiles(spans[1..], spans[0].start + spans[0].count, to)
  }

  /** Where the scheduled batches stop: at the end of the records, or where
      the overrunning batch would start. */
  function Stop(p: Plan, numRecords: nat): nat
  {
    if p.overrun.Some? then p.overrun.value.start else numRecords
  }

  /** Where the schedule stops, as the source computes it: its batches
      tile the records up to the stop; an overrunning batch starts inside
      the records, ends past them, takes `BatchSize` records and is not
      batch B. */
  lemma {:induction false} PlanFromEnds(n: nat, b: nat, processed: nat, batch: nat)
    requires b >= 1 && Cursor(n, b, processed, batch)
    ensures var p := PlanFrom(n, b, processed, batch);
      Tiles(p.spans, processed, Stop(p, n)) &&
      Stop(p, n) <= n &&
      (p.overrun.Some? ==> p.overrun.value.start < n < p.overrun.value.start + p.overrun.value.count) &&
      (p.overrun.Some? ==> p.overrun.value.count == BatchSize(n, b) && batch + |p.spans| != b)
    decreases b + 1 - batch
  {
    if processed < n {
      var count := NumToProcess(batch, processed, n, b);
      if processed + count <= n {
        CursorAdvances(n, b, processed, batch, count);
        PlanFromEnds(n, b, processed + count, batch + 1);
        var p := PlanFrom(n, b, processed, batch);
        var rest := PlanFrom(n, b, processed + count, batch + 1);
        assert p.spans[1..] == rest.spans;
      }
    }
  }

  /** The batch sizes of the schedule as the source computes it: every
      batch but batch B takes exactly `BatchSize` records, batch B takes
      the rest, and no batch is larger than `BatchSize`. */
  lemma {:induction false} PlanFromCounts(n: nat, b: nat, processed: nat, batch: nat)
    requires b >= 1 && Cursor(n, b, processed, batch)
    ensures forall k :: 0 <= k < |PlanFrom(n, b, processed, batch).spans| ==>
      var span := PlanFrom(n, b, processed, batch).spans[k];
      span.count <= BatchSize(n, b) &&
      span.count == (if batch + k == b then n - span.start else BatchSize(n, b))
    decreases b + 1 - batch
  {
    var p := PlanFrom(n, b, processed, batch);
    if processed < n {
      var s := BatchSize(n, b);
      var count := NumToProcess(batch, processed, n, b);
      if batch == b {
        MulSucc(b - 1, s);
        assert count <= s;
      }
      if processed + count <= n {
        CursorAdvances(n, b, processed, batch, count);
        var rest := PlanFrom(n, b, processed + count, batch + 1);
        PlanFromCounts(n, b, processed + count, batch + 1);
        assert p.spans == [Span(processed, count)] + rest.spans;
        assert p.spans[1..] == rest.spans;
        forall k | 0 <= k < |p.spans|
          ensures p.spans[k].count <= s
          ensures p.spans[k].count == (if batch + k == b then n - p.spans[k].start else s)
        {
          if k > 0 {
            assert p.spans[k] == rest.spans[k - 1];
            assert batch + 1 + (k - 1) == batch + k;
          }
        }
      }
    }
  }

  /** The shape of the schedule as the source computes it: both of the
      above. */
  lemma PlanFromShape(n: nat, b: nat, processed: nat, batch: nat)
    requires b >= 1 && Cursor(n, b, processed, batch)
    ensures var p := PlanFrom(n, b, processed, batch);
      Tiles(p.spans, processed, Stop(p, n)) &&
      Stop(p, n) <= n &&
      (p.overrun.Some? ==> p.overrun.value.start < n < p.overrun.value.start + p.overrun.value.count) &&
      (p.overrun.Some? ==> p.overrun.value.count == BatchSize(n, b) && batch + |p.spans| != b) &&
      (forall k :: 0 <= k < |p.spans| && batch + k != b ==> p.spans[k].count == BatchSize(n, b)) &&
      (forall k :: 0 <= k < |p.spans| && batch + k == b ==> p.spans[k].count == n - p.spans[k].start) &&
      (forall k :: 0 <= k < |p.spans| ==> p.spans[k].count <= BatchSize(n, b))
  {
    PlanFromEnds(n, b, processed, batch);
    PlanFromCounts(n, b, processed, batch);
  }

  /** Tiling spans, index by index: the first starts at `from`, each
      starts where the one before ends, and the last ends at `to`. */
  lemma {:induction false} TilesAdjacent(spans: seq<Span>, from: nat, to: nat)
    requires Tiles(spans, from, to)
    ensures |spans| == 0 ==> from == to
    ensures |spans| > 0 ==> spans[0].start == from && spans[|spans| - 1].start + spans[|spans| - 1].count == to
    ensures forall k :: 0 <= k < |spans| - 1 ==> spans[k + 1].start == spans[k].start + spans[k].count
    ensures forall k :: 0 <= k < |spans| ==> spans[k].count >= 1
    decreases |spans|
  {
    if |spans| > 0 {
      var tail := spans[1..];
      TilesAdjacent(tail, spans[0].start + spans[0].count, to);
      forall k | 0 <= k < |spans| - 1 ensures spans[k + 1].start == spans[k].start + spans[k].count {
        assert spans[k + 1] == tail[k];
        if k > 0 {
          assert spans[k] == tail[k - 1];
        }
      }
      forall k | 0 < k < |spans| ensures spans[k].count >= 1 {
        assert spans[k] == tail[k - 1];
      }
      if |spans| > 1 {
        assert spans[|spans| - 1] == tail[|tail| - 1];
      }
    }
  }

  /** The schedule batch by batch, as the loop walks it: batch k+1 starts
      where batch k ends, batch B takes the rest and every other batch the
      batch size; the batches stop at the last record, or where a batch of
      the batch size, not batch B, would run past it. */
  lemma ScheduleIndexed(n: nat, b: nat)
    requires b >= 1
    ensures var p := Schedule(n, b);
      |p.spans| <= b &&
      (|p.spans| == 0 ==> Stop(p, n) == 0) &&
      (|p.spans| > 0 ==> p.spans[0].start == 0 && p.spans[|p.spans| - 1].start + p.spans[|p.spans| - 1].count == Stop(p, n)) &&
      (forall k :: 0 <= k < |p.spans| - 1 ==> p.spans[k + 1].start == p.spans[k].start + p.spans[k].count) &&
      (forall k :: 0 <= k < |p.spans| ==> 1 <= p.spans[k].count && p.spans[k].start + p.spans[k].count <= n) &&
      (forall k :: 0 <= k < |p.spans| ==> p.spans[k].count == if k + 1 == b then n - p.spans[k].start else BatchSize(n, b)) &&
      (p.overrun.None? ==> Stop(p, n) == n) &&
      (p.overrun.Some? ==> p.overrun.value.start == Stop(p, n) && Stop(p, n) < n < Stop(p, n) + BatchSize(n, b) &&
                           p.overrun.value.count == BatchSize(n, b) && |p.spans| + 1 != b)
  {
    var p := Schedule(n, b);
    PlanFromShape(n, b, 0, 1);
    TilesAdjacent(p.spans, 0, Stop(p, n));
    TilesWithin(p.spans, 0, Stop(p, n));
  }

  /** Where batch k+1 of a plan starts: at span k, or where the plan stops
      once its batches are used up. */
  function StartOf(p: Plan, k: nat, numRecords: nat): nat
  {
    if k < |p.spans| then p.spans[k].start else Stop(p, numRecords)
  }

  /** The plan the batch loop walks, batch by batch: batch 1 starts at
      record 0 and batch k+1 where batch k ends; batch B takes the rest and
      every other batch `size` records, each inside the records; the
      batches stop at the last record, or at an overrun of `size` records
      that is not batch B and starts where they stop. */
  predicate PlanSteps(p: Plan, n: nat, b: nat, size: nat)
  {
    StartOf(p, 0, n) == 0 &&
    (forall k :: 0 <= k < |p.spans| ==>
       1 <= p.spans[k].count && p.spans[k].start + p.spans[k].count <= n &&
       p.spans[k].count == (if k + 1 == b then n - p.spans[k].start else size)) &&
    (forall k :: 0 < k <= |p.spans| ==> StartOf(p, k, n) == p.spans[k - 1].start + p.spans[k - 1].count) &&
    (p.overrun.None? ==> Stop(p, n) == n) &&
    (p.overrun.Some? ==> p.overrun.value.start == Stop(p, n) && Stop(p, n) < n < Stop(p, n) + size &&
                         p.overrun.value.count == size && |p.spans| + 1 != b)
  }

  /** One step of such a plan: the batch after `k` batches starts where
      they end and takes the batch size, or the rest when it is batch B;
      that slice is either the plan's next batch or its overrun. */
  lemma PlanNext(p: Plan, n: nat, b: nat, size: nat, k: nat)
    requires PlanSteps(p, n, b, size) && k <= |p.spans| && StartOf(p, k, n) < n
    ensures var count := if k + 1 == b then n - StartOf(p, k, n) else size;
      if StartOf(p, k, n) + count > n then
        k == |p.spans| && p.overrun == Some(Span(StartOf(p, k, n), count))
      else
        k < |p.spans| && p.spans[k] == Span(StartOf(p, k, n), count) &&
        StartOf(p, k + 1, n) == StartOf(p, k, n) + count
  {
    if k < |p.spans| {
      assert StartOf(p, k + 1, n) == p.spans[k].start + p.spans[k].count;
    }
  }

  /** Such a plan is walked to its end once all records are covered. */
  lemma PlanEnd(p: Plan, n: nat, b: nat, size: nat, k: nat)
    requires PlanSteps(p, n, b, size) && k <= |p.spans| && StartOf(p, k, n) >= n
    ensures k == |p.spans| && p.overrun.None?
  {
  }

  /** The schedule is such a plan, with the batch size as `size`. */
  lemma ScheduleSteps(n: nat, b: nat)
    requires b >= 1
    ensures PlanSteps(Schedule(n, b), n, b, BatchSize(n, b))
  {
    var p := Schedule(n, b);
    ScheduleIndexed(n, b);
    forall k | 0 < k <= |p.spans|
      ensures StartOf(p, k, n) == p.spans[k - 1].start + p.spans[k - 1].count
    {
      assert k - 1 < |p.spans| - 1 || k == |p.spans|;
    }
  }

  /** The batches of `xs` the spans describe. */
  function Slices<T>(xs: seq<T>, spans: seq<Span>): (batches: seq<seq<T>>)
    requires forall k :: 0 <= k < |spans| ==> spans[k].start + spans[k].count <= |xs|
    ensures |batches| == |spans|
    ensures forall k :: 0 <= k < |spans| ==> batches[k] == xs[spans[k].start..spans[k].start + spans[k].count]
    decreases |spans|
  {
    if |spans| == 0 then [] else [xs[spans[0].start..spans[0].start + spans[0].count]] + Slices(xs, spans[1..])
  }

  function Flatten<T>(parts: seq<seq<T>>): seq<T>
    decreases |parts|
  {
    if |parts| == 0 then [] else parts[0] + Flatten(parts[1..])
  }

  /** Tiling spans lie inside the tiled range, each after the one before. */
  lemma {:induction false} TilesWithin(spans: seq<Span>, from: nat, to: nat)
    requires Tiles(spans, from, to)
    ensures from <= to
    ensures forall k :: 0 <= k < |spans| ==> from <= spans[k].start && spans[k].start + spans[k].count <= to
    ensures forall j, k :: 0 <= j < k < |spans| ==> spans[j].start + spans[j].count <= spans[k].start
    decreases |spans|
  {
    if |spans| > 0 {
      TilesWithin(spans[1..], spans[0].start + spans[0].count, to);
      forall k | 0 < k < |spans| ensures spans[k] == spans[1..][k - 1] { }
    }
  }

  /** Concatenating the batches of tiling spans gives back the tiled range,
      in order: every record is in exactly one batch. */
  lemma {:induction false} TilesFlatten<T>(xs: seq<T>, spans: seq<Span>, from: nat, to: nat)
    requires Tiles(spans, from, to) && to <= |xs|
    ensures from <= to
    ensures forall k :: 0 <= k < |spans| ==> spans[k].start + spans[k].count <= |xs|
    ensures Flatten(Slices(xs, spans)) == xs[from..to]
    decreases |spans|
  {
    TilesWithin(spans, from, to);
    if |spans| > 0 {
      TilesFlatten(xs, spans[1..], spans[0].start + spans[0].count, to);
      assert Slices(xs, spans)[1..] == Slices(xs, spans[1..]);
      var mid := spans[0].start + spans[0].count;
      assert xs[from..to] == xs[from..mid] + xs[mid..to];
    }
  }

  /** When the loop reaches no overrunning batch, its batches start at
      record 0, are contiguous and in order, and together hold every
      record exactly once. */
  lemma ScheduleCovers<T>(xs: seq<T>, numBatches: nat)
    requires numBatches >= 1 && Schedule(|xs|, numBatches).overrun.None?
    ensures var spans := Schedule(|xs|, numBatches).spans;
      Tiles(spans, 0, |xs|) &&
      (forall k :: 0 <= k < |spans| ==> spans[k].start + spans[k].count <= |xs|) &&
      Flatten(Slices(xs, spans)) == xs
  {
    PlanFromShape(|xs|, numBatches, 0, 1);
    TilesFlatten(xs, Schedule(|xs|, numBatches).spans, 0, |xs|);
    assert xs[0..|xs|] == xs;
  }

  // ---- The overrun, as written and corrected ----

  /** Five records in four batches: batches of two, and batch 3 slices
      records 4 .. 6 of 5, before batch 4 (which would take the rest) is
      reached. */
  lemma OverrunFiveRecordsFourBatches()
    ensures BatchSize(5, 4) == 2
    ensures Schedule(5, 4) == Plan([Span(0, 2), Span(2, 2)], Some(Span(4, 2)))
  {
    assert BatchSize(5, 4) == 2;
    assert PlanFrom(5, 4, 4, 3) == Plan([], Some(Span(4, 2)));
    assert PlanFrom(5, 4, 2, 2) == Plan([Span(2, 2)], Some(Span(4, 2)));
  }

  /** Four records in three batches: two batches run and batch 3 is never
      reached. */
  lemma FourRecordsThreeBatches()
    ensures Schedule(4, 3) == Plan([Span(0, 2), Span(2, 2)], None)
  {
    assert BatchSize(4, 3) == 2;
    assert PlanFrom(4, 3, 4, 3) == Plan([], None);
    assert PlanFrom(4, 3, 2, 2) == Plan([Span(2, 2)], None);
  }

  /** The evidently intended schedule: a batch other than batch B takes
      `BatchSize` records or, if fewer remain, the rest. */
  function CorrectedPlanFrom(n: nat, b: nat, processed: nat, batch: nat): (spans: seq<Span>)
    requires b >= 1 && Cursor(n, b, processed, batch)
    decreases b + 1 - batch
  {
    if processed >= n then []
    else
      var count := if batch == b then n - processed else Min(BatchSize(n, b), n - processed);
      CursorAdvances(n, b, processed, batch, count);
      [Span(processed, count)] + CorrectedPlanFrom(n, b, processed + count, batch + 1)
  }

  function CorrectedSchedule(numRecords: nat, numBatches: nat): seq<Span>
    requires numBatches >= 1
  {
    CorrectedPlanFrom(numRecords, numBatches, 0, 1)
  }

  lemma {:induction false} CorrectedPlanFromShape(n: nat, b: nat, processed: nat, batch: nat)
    requires b >= 1 && Cursor(n, b, processed, batch)
    ensures var spans := CorrectedPlanFrom(n, b, processed, batch);
      Tiles(spans, processed, n) && |spans| <= b + 1 - batch &&
      (forall k :: 0 <= k < |spans| ==> spans[k].count <= BatchSize(n, b))
    decreases b + 1 - batch
  {
    if processed < n {
      var s := BatchSize(n, b);
      var count := if batch == b then n - processed else Min(s, n - processed);
      if batch == b {
        MulSucc(b - 1, s);
      }
      CursorAdvances(n, b, processed, batch, count);
      var rest := CorrectedPlanFrom(n, b, processed + count, batch + 1);
      CorrectedPlanFromShape(n, b, processed + count, batch + 1);
      var spans := CorrectedPlanFrom(n, b, processed, batch);
      assert spans == [Span(processed, count)] + rest;
      assert spans[1..] == rest;
      forall k | 0 < k < |spans| ensures spans[k].count <= s {
        assert spans[k] == rest[k - 1];
      }
    }
  }

  /** For every record count and every B >= 1, the corrected schedule runs
      at most B batches, tiles all the records from 0, and takes every
      record exactly once. */
  lemma CorrectedScheduleCovers<T>(xs: seq<T>, numBatches: nat)
    requires numBatches >= 1
    ensures var spans := CorrectedSchedule(|xs|, numBatches);
      Tiles(spans, 0, |xs|) && |spans| <= numBatches &&
      (forall k :: 0 <= k < |spans| ==> spans[k].start + spans[k].count <= |xs|) &&
      Flatten(Slices(xs, spans)) == xs
  {
    CorrectedPlanFromShape(|xs|, numBatches, 0, 1);
    TilesFlatten(xs, CorrectedSchedule(|xs|, numBatches), 0, |xs|);
    assert xs[0..|xs|] == xs;
  }

  /** Wherever the loop as written reaches no overrunning batch, it runs
      exactly the corrected schedule. */
  lemma {:induction false} PlanFromAgreesWhenInBounds(n: nat, b: nat, processed: nat, batch: nat)
    requires b >= 1 && Cursor(n, b, processed, batch)
    requires PlanFrom(n, b, processed, batch).overrun.None?
    ensures PlanFrom(n, b, processed, batch).spans == CorrectedPlanFrom(n, b, processed, batch)
    decreases b + 1 - batch
  {
    if processed < n {
      var count := NumToProcess(batch, processed, n, b);
      CursorAdvances(n, b, processed, batch, count);
      PlanFromAgreesWhenInBounds(n, b, processed + count, batch + 1);
    }
  }
}
