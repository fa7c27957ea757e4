/** The two Python built-ins the task loop relies on, `range(0, stop, step)`
    and slicing with step 1, stated over integer indices. */
module PyBuiltins {
  import opened Arith

  /** The exceptions the modelled code can raise. */
  datatype Error =
    | RangeStepZero   // `range()` with a step of 0 raises ValueError
    | PoolTooSmall    // `multiprocessing.Pool(n)` with n < 1 raises ValueError

  datatype Result<+T> = Ok(value: T) | Err(error: Error)

  /** The half-open index interval `[lo, hi)` a slice selects. */
  datatype Window = Window(lo: nat, hi: nat) {
    function Len(): int { hi - lo }
    predicate Contains(x: int) { lo <= x < hi }
  }

  /** The values `start, start + step, ...` strictly below `stop`, for a positive step. */
  function RangeFrom(start: int, stop: int, step: int): (r: seq<int>)
    requires step > 0
    ensures |r| == 0 <==> start >= stop
    ensures forall k :: 0 <= k < |r| ==> start <= r[k] < stop
    ensures |r| > 0 ==> r[0] == start && stop <= r[|r| - 1] + step
    decreases stop - start
  {
    if start >= stop then [] else [start] + RangeFrom(start + step, stop, step)
  }

  /** Element `k` of the progression is `start + k * step`. */
  lemma {:induction false} RangeFromValue(start: int, stop: int, step: int, k: nat)
    requires step > 0 && k < |RangeFrom(start, stop, step)|
    ensures RangeFrom(start, stop, step)[k] == start + k * step
    decreases k
  {
    if k > 0 {
      RangeFromValue(start + step, stop, step, k - 1);
      NextMultiple(k - 1, step);
    }
  }

  /** `range(0, stop, step)` for a non-negative `stop`. A negative step counts
      downwards from 0, which is already at or below `stop`, so nothing is produced. */
  function Range(stop: nat, step: int): (r: Result<seq<int>>)
    ensures r.Err? <==> step == 0
    ensures r.Ok? && step < 0 ==> r.value == []
  {
    if step == 0 then Err(RangeStepZero)
    else if step < 0 then Ok([])
    else Ok(RangeFrom(0, stop, step))
  }

  /** A positive-step range from 0 has ceil(stop / step) elements `k * step`. */
  lemma RangeLength(stop: nat, step: int)
    requires step > 0
    ensures Range(stop, step).Ok?
    ensures |Range(stop, step).value| == CeilDiv(stop, step)
    ensures forall k :: 0 <= k < |Range(stop, step).value| ==> Range(stop, step).value[k] == k * step
  {
    var r := RangeFrom(0, stop, step);
    forall k | 0 <= k < |r|
      ensures r[k] == k * step
    {
      RangeFromValue(0, stop, step, k);
    }
    if |r| > 0 {
      assert (|r| - 1) * step + step == |r| * step;
    }
    CeilDivUnique(stop, step, |r|);
  }

  /** One slice bound normalised the Python way: negative values count from the end,
      then the result is clamped into `[0, len]`. */
  function SliceIndex(len: nat, i: int): (r: nat)
    ensures r <= len
    ensures 0 <= i ==> r == Min(i, len)
  {
    if i < 0 then (if len + i < 0 then 0 else len + i)
    else if i > len then len
    else i
  }

  /** The positions `xs[start:stop]` selects from a sequence of length `len`. */
  function SliceWindow(len: nat, start: int, stop: int): (w: Window)
    ensures w.lo <= w.hi <= len
    ensures 0 <= start <= stop ==> w == Window(Min(start, len), Min(stop, len))
  {
    var lo := SliceIndex(len, start);
    var hi := SliceIndex(len, stop);
    Window(lo, if hi < lo then lo else hi)
  }

  /** `xs[0:stop]`; a negative `stop` drops that many elements from the end. */
  function Prefix<T>(xs: seq<T>, stop: int): (p: seq<T>)
    ensures p <= xs
    ensures 0 <= stop ==> |p| == Min(stop, |xs|)
    ensures stop < 0 ==> |p| == (if |xs| + stop < 0 then 0 else |xs| + stop)
  {
    var w := SliceWindow(|xs|, 0, stop);
    xs[w.lo..w.hi]
  }
}
