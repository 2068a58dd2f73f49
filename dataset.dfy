/**
  `VideoFrameDataset.__getitem__`: one row of the benchmark table, plus the
  frames of its video sampled at a fixed step.
 */
module Dataset {
  import opened Wrappers

  /** A row of the benchmark table. */
  datatype Row = Row(videoPath: string, question: string, answer: string, options: seq<string>)

  /** The `meta` dict of a sample. */
  datatype Meta = Meta(videoPath: string, question: string, answer: string, options: seq<string>, numFrames: nat)

  /**
    A loaded sample. A decoded frame stands for itself only through its
    index in the video, so `frames` holds those indices.
   */
  datatype Sample = Sample(frames: seq<nat>, meta: Meta)

  /** Python's `range(start, stop, step)` for a positive step, as a list. */
  function Range(start: nat, stop: nat, step: nat): seq<nat>
    requires step > 0
    decreases stop - start
  {
    if start >= stop then [] else [start] + Range(start + step, stop, step)
  }

  /**
    `range(start, stop, step)` holds `start + k * step` at position `k`,
    every element lies below `stop`, and there are
    `ceil((stop - start) / step)` of them.
   */
  lemma RangeShape(start: nat, stop: nat, step: nat)
    requires step > 0
    ensures start <= stop ==> |Range(start, stop, step)| == (stop - start + step - 1) / step
    ensures start > stop ==> Range(start, stop, step) == []
    ensures forall k :: 0 <= k < |Range(start, stop, step)| ==>
      Range(start, stop, step)[k] == start + k * step < stop
  {
    RangeLength(start, stop, step);
    RangeElements(start, stop, step);
  }

  lemma {:induction false} RangeLength(start: nat, stop: nat, step: nat)
    requires step > 0
    ensures start <= stop ==> |Range(start, stop, step)| == (stop - start + step - 1) / step
    decreases stop - start
  {
    if start < stop {
      RangeLength(start + step, stop, step);
      CeilStep(start, stop, step);
      if start + step > stop {
        assert Range(start + step, stop, step) == [];
      }
    }
  }

  lemma {:induction false} RangeElements(start: nat, stop: nat, step: nat)
    requires step > 0
    ensures forall k :: 0 <= k < |Range(start, stop, step)| ==>
      Range(start, stop, step)[k] == start + k * step < stop
    decreases stop - start
  {
    var r := Range(start, stop, step);
    if start < stop {
      RangeElements(start + step, stop, step);
      var rest := Range(start + step, stop, step);
      forall k | 0 <= k < |r| ensures r[k] == start + k * step < stop {
        if k > 0 {
          assert r[k] == rest[k - 1];
          MulSucc(k, step);
        }
      }
    }
  }

  /** One step fewer from `start` leaves one element fewer in the range. */
  lemma CeilStep(start: nat, stop: nat, step: nat)
    requires step > 0 && start < stop
    ensures start + step <= stop ==>
      (stop - start + step - 1) / step == (stop - (start + step) + step - 1) / step + 1
    ensures start + step > stop ==> (stop - start + step - 1) / step == 1
  {
    if start + step <= stop {
      var x := stop - (start + step);
      assert stop - start + step - 1 == (x + step - 1) + step;
      DivStep(x + step - 1, step);
    } else {
      DivOne(stop - start + step - 1, step);
    }
  }

  lemma MulSucc(k: int, step: int)
    ensures (k - 1) * step + step == k * step
  {
  }

  lemma DivStep(x: nat, d: nat)
    requires d > 0
    ensures (x + d) / d == x / d + 1
  {
    var q, r := x / d, x % d;
    assert x + d == (q + 1) * d + r;
    DivUnique(x + d, d, q + 1, r);
  }

  lemma DivOne(x: nat, d: nat)
    requires d > 0 && d <= x < 2 * d
    ensures x / d == 1
  {
    DivUnique(x, d, 1, x - d);
  }

  /** Euclidean division is determined by quotient and remainder. */
  lemma DivUnique(x: int, d: int, q: int, r: int)
    requires d > 0 && 0 <= r < d && x == q * d + r
    ensures x / d == q
  {
    var k := x / d;
    assert x == k * d + x % d;
    assert (q - k) * d == x % d - r;
    MulBound(q - k, d, x % d - r);
  }

  lemma MulBound(a: int, d: int, e: int)
    requires d > 0 && a * d == e && -d < e < d
    ensures a == 0
  {
  }

  /**
    The frames sampled from a video of `length` frames are exactly the
    multiples of `step` below `length`, in strictly increasing order, and
    there are `ceil(length / step)` of them.
   */
  lemma SampledFrames(length: nat, step: nat)
    requires step > 0
    ensures |Range(0, length, step)| == (length + step - 1) / step
    ensures forall k :: 0 <= k < |Range(0, length, step)| ==>
      Range(0, length, step)[k] == k * step < length
    ensures forall a, b :: 0 <= a < b < |Range(0, length, step)| ==>
      Range(0, length, step)[a] < Range(0, length, step)[b]
    ensures forall j :: 0 <= j < length && j % step == 0 ==> j in Range(0, length, step)
  {
    var r := Range(0, length, step);
    RangeShape(0, length, step);
    forall a, b | 0 <= a < b < |r| ensures r[a] < r[b] {
      MulMonotone(a, b, step);
    }
    forall j | 0 <= j < length && j % step == 0 ensures j in r {
      var k := j / step;
      MultipleOf(j, step);
      CeilBound(j, length, step);
      assert r[k] == k * step;
    }
  }

  lemma MultipleOf(j: nat, step: nat)
    requires step > 0 && j % step == 0
    ensures (j / step) * step == j
  {
  }

  lemma MulMonotone(a: nat, b: nat, d: nat)
    requires a < b && d > 0
    ensures a * d < b * d
  {
  }

  lemma CeilBound(j: nat, length: nat, step: nat)
    requires step > 0 && j < length
    ensures j / step < (length + step - 1) / step
  {
    assert j + step <= length + step - 1;
    DivMonotone(j + step, length + step - 1, step);
    DivStep(j, step);
  }

  lemma DivMonotone(x: nat, y: nat, d: nat)
    requires d > 0 && x <= y
    ensures x / d <= y / d
  {
    var qx, qy := x / d, y / d;
    assert x == qx * d + x % d && y == qy * d + y % d;
    assert (qx - qy) * d < d;
    MulBelow(qx - qy, d);
  }

  lemma MulBelow(a: int, d: int)
    requires d > 0 && a * d < d
    ensures a <= 0
  {
  }

  /**
    What `__getitem__` returns: `None` when the video cannot be read
    (`video` is `None`) or when the step is 0 (`range` rejects it);
    otherwise the frames at `range(0, len(vr), step)` and the row's fields.
   */
  function Load(row: Row, video: Option<nat>, step: nat): Option<Sample> {
    if video.None? || step == 0 then None
    else
      var frames := Range(0, video.value, step);
      Some(Sample(frames, Meta(row.videoPath, row.question, row.answer, row.options, |frames|)))
  }

  /**
    `VideoFrameDataset.__getitem__`. `video` is the frame count of the
    decoded video, or `None` when `VideoReader` raised; `step` is the
    native frame rate divided by `Constants.FpsTarget` and rounded, which
    needs the file's own frame rate and so is given.
   */
  method GetItem(row: Row, video: Option<nat>, step: nat) returns (s: Option<Sample>)
    ensures s.None? <==> video.None? || step == 0
    ensures s.Some? ==> s.value.meta.numFrames == |s.value.frames|
    ensures s == Load(row, video, step)
  {
    if video.None? || step == 0 {
      return None;
    }
    var length := video.value;
    var frameBuffers: seq<nat> := [];
    var i := 0;
    while i < length
      invariant frameBuffers + Range(i, length, step) == Range(0, length, step)
      decreases length - i
    {
      assert Range(i, length, step) == [i] + Range(i + step, length, step);
      frameBuffers := frameBuffers + [i];
      i := i + step;
    }
    assert frameBuffers == Range(0, length, step) by {
      assert Range(i, length, step) == [];
      assert frameBuffers + [] == frameBuffers;
    }
    var meta := Meta(row.videoPath, row.question, row.answer, row.options, |frameBuffers|);
    s := Some(Sample(frameBuffers, meta));
  }
}
