/** The scaling driver of the benchmark: the parallelism degrees it tests, the
    batch of tasks each degree dispatches, and the work volume the reported
    rate divides by the elapsed time. */
module Driver {
  import opened Arith
  import opened PyBuiltins
  import opened Partition

  /** Degrees tested when none are named on the command line. */
  const DefaultDegrees: seq<int> := [1, 4, 16, 32, 64]

  /** The degrees to test: the command-line arguments, or the defaults when there are none. */
  function Degrees(args: seq<int>): (d: seq<int>)
    ensures d != []
    ensures args != [] ==> d == args
    ensures args == [] ==> d == DefaultDegrees
  {
    if args == [] then DefaultDegrees else args
  }

  /** `extract_args[0:nmax]` with `nmax = 2 * nproc`, the tasks one degree
      dispatches. */
  function Batch(tasks: seq<Task>, nproc: int): (b: seq<Task>)
    ensures b <= tasks
    ensures nproc >= 0 ==> |b| == Min(2 * nproc, |tasks|)
  {
    Prefix(tasks, 2 * nproc)
  }

  /** Spectra times wavelength points a list of tasks asks the kernel for,
      counting the rows a task reaches past the last spectrum. */
  function Work(ts: seq<Task>): int
    decreases |ts|
  {
    if ts == [] then 0 else ts[0].specCount * ts[0].wave.Len() + Work(ts[1..])
  }

  /** One measured degree: the degree, the batch it dispatched and the volume
      credited to it. The elapsed time and the float rate are not modelled. */
  datatype Point = Point(nproc: int, batch: seq<Task>, volume: int)

  /** How a run ended: after its last degree, or by an exception. */
  datatype Outcome = Completed | Raised(error: Error)

  /** The points of a run in the order measured, and how the run ended. */
  datatype Report = Report(points: seq<Point>, outcome: Outcome)

  /** One pass of the degree loop: the degree is kept, the first `2 * nproc`
      tasks (or all of them) form the batch, and the volume, the numerator of
      the reported rate `nmax * bundlesize * numwave`, is credited for
      `2 * nproc` tasks whatever the batch holds. */
  function Measure(cfg: Config, tasks: seq<Task>, nproc: int): (p: Point)
    ensures p.nproc == nproc
    ensures p.batch <= tasks
    ensures nproc >= 0 ==> |p.batch| == Min(2 * nproc, |tasks|)
    ensures p.volume == 2 * nproc * cfg.bundleSize * cfg.numWave
  {
    Point(nproc, Batch(tasks, nproc), 2 * nproc * cfg.bundleSize * cfg.numWave)
  }

  /** The loop over the degrees. A degree below 1 makes the pool constructor
      raise, which ends the run after the points already measured. */
  function Sweep(cfg: Config, tasks: seq<Task>, degrees: seq<int>): (r: Report)
    ensures |r.points| <= |degrees|
    ensures forall i :: 0 <= i < |r.points| ==>
      degrees[i] >= 1 && r.points[i] == Measure(cfg, tasks, degrees[i])
    ensures r.outcome.Completed? <==> forall i :: 0 <= i < |degrees| ==> degrees[i] >= 1
    ensures r.outcome.Completed? ==> |r.points| == |degrees|
    ensures r.outcome.Raised? ==>
      r.outcome.error == PoolTooSmall && |r.points| < |degrees| && degrees[|r.points|] < 1
    decreases |degrees|
  {
    if degrees == [] then Report([], Completed)
    else if degrees[0] < 1 then Report([], Raised(PoolTooSmall))
    else
      var rest := Sweep(cfg, tasks, degrees[1..]);
      Report([Measure(cfg, tasks, degrees[0])] + rest.points, rest.outcome)
  }

  /** The whole benchmark after option parsing: build the task list, then
      measure every degree in turn. */
  function Benchmark(cfg: Config, args: seq<int>): (r: Report)
    ensures ExtractArgs(cfg).Err? ==> r == Report([], Raised(RangeStepZero))
    ensures r.outcome.Completed? <==>
      !SetupFails(cfg) && forall i :: 0 <= i < |Degrees(args)| ==> Degrees(args)[i] >= 1
    ensures r.outcome.Completed? ==> |r.points| == |Degrees(args)|
    ensures ExtractArgs(cfg).Ok? && r.outcome.Raised? ==>
      r.outcome.error == PoolTooSmall && |r.points| < |Degrees(args)| && Degrees(args)[|r.points|] < 1
    ensures ExtractArgs(cfg).Ok? ==> |r.points| <= |Degrees(args)| && forall i :: 0 <= i < |r.points| ==>
      Degrees(args)[i] >= 1 && r.points[i] == Measure(cfg, ExtractArgs(cfg).value, Degrees(args)[i])
    ensures !SetupFails(cfg) && args == [] ==>
      r.outcome == Completed && |r.points| == |DefaultDegrees|
  {
    match ExtractArgs(cfg)
    case Err(e) => Report([], Raised(e))
    case Ok(tasks) => Sweep(cfg, tasks, Degrees(args))
  }

  // ---------------------------------------------------------------------
  // Properties of the batches and the volume.

  /** A degree's batch is the first `min(2 * nproc, |tasks|)` tasks, in list
      order, so its ids are `0 .. |batch| - 1`. */
  lemma BatchIsPrefix(cfg: Config, tasks: seq<Task>, nproc: int)
    requires ExtractArgs(cfg) == Ok(tasks)
    requires nproc >= 1
    ensures |Batch(tasks, nproc)| == Min(2 * nproc, |tasks|)
    ensures forall k :: 0 <= k < |Batch(tasks, nproc)| ==>
      Batch(tasks, nproc)[k] == tasks[k] && Batch(tasks, nproc)[k].id == k
  {
    TaskIdsConsecutive(cfg, tasks);
  }

  /** A larger degree dispatches a batch extending the smaller degree's batch. */
  lemma BatchesNest(tasks: seq<Task>, p: int, q: int)
    requires 0 <= p <= q
    ensures Batch(tasks, p) <= Batch(tasks, q)
  {
  }

  /** Work of tasks of `b` spectra whose windows are at most `n` long is at
      most `b * n` per task, with equality when every window is `n` long. */
  lemma {:induction false} WorkBound(ts: seq<Task>, b: int, n: int)
    requires b >= 0
    requires forall k :: 0 <= k < |ts| ==> ts[k].specCount == b && 0 <= ts[k].wave.Len() <= n
    ensures Work(ts) <= |ts| * (b * n)
    ensures (forall k :: 0 <= k < |ts| ==> ts[k].wave.Len() == n) ==> Work(ts) == |ts| * (b * n)
    decreases |ts|
  {
    if ts != [] {
      WorkBound(ts[1..], b, n);
      MulMono(b, ts[0].wave.Len(), n);
      NextMultiple(|ts| - 1, b * n);
    }
  }

  /** When the chunk size divides the grid every window is a whole chunk. */
  lemma FullWindows(cfg: Config, tasks: seq<Task>)
    requires ExtractArgs(cfg) == Ok(tasks)
    requires cfg.numWave > 0 && cfg.nwave % cfg.numWave == 0
    ensures forall k :: 0 <= k < |tasks| ==> tasks[k].wave.Len() == cfg.numWave
  {
    forall k | 0 <= k < |tasks|
      ensures tasks[k].wave.Len() == cfg.numWave
    {
      var q, j := TaskCell(cfg, tasks, k);
      ChunkFull(j, WindowCount(cfg), cfg.numWave, cfg.nwave);
    }
  }

  /** When it does not, the last task's window is the remainder
      `nwave % numWave`, shorter than a chunk. */
  lemma ShortLastWindow(cfg: Config, tasks: seq<Task>)
    requires ExtractArgs(cfg) == Ok(tasks)
    requires |tasks| > 0
    requires cfg.nwave % cfg.numWave != 0
    ensures tasks[|tasks| - 1].wave.Len() == cfg.nwave % cfg.numWave < cfg.numWave
  {
    GridSize(cfg, tasks);
    var q, j := TaskCell(cfg, tasks, |tasks| - 1);
    CellLast(RowCount(cfg), WindowCount(cfg), q, j);
    ChunkShort(WindowCount(cfg), cfg.numWave, cfg.nwave);
    ChunkInside(j, WindowCount(cfg), cfg.numWave, cfg.nwave);
  }

  /** Each task of a batch asks for `bundleSize` spectra over at most `numWave`
      wavelength points. */
  lemma BatchShape(cfg: Config, tasks: seq<Task>, nproc: int)
    requires ExtractArgs(cfg) == Ok(tasks)
    requires nproc >= 1
    ensures forall k :: 0 <= k < |Batch(tasks, nproc)| ==>
      Batch(tasks, nproc)[k].specCount == cfg.bundleSize && 0 <= Batch(tasks, nproc)[k].wave.Len() <= cfg.numWave
  {
    var batch := Batch(tasks, nproc);
    forall k | 0 <= k < |batch|
      ensures batch[k].specCount == cfg.bundleSize && 0 <= batch[k].wave.Len() <= cfg.numWave
    {
      assert batch[k] == tasks[k];
      var q, j := TaskCell(cfg, tasks, k);
      ChunkInside(j, WindowCount(cfg), cfg.numWave, cfg.nwave);
    }
  }

  /** The volume credited to a degree never falls short of the work its batch
      asks for. It overstates the work whenever the task list runs out before
      `2 * nproc`, and it is exact when the batch is full and every window is a
      whole chunk. */
  lemma VolumeCredit(cfg: Config, tasks: seq<Task>, nproc: int)
    requires ExtractArgs(cfg) == Ok(tasks)
    requires cfg.bundleSize > 0 && cfg.numWave > 0 && nproc >= 1
    ensures Work(Measure(cfg, tasks, nproc).batch) <= Measure(cfg, tasks, nproc).volume
    ensures |tasks| < 2 * nproc ==>
      Work(Measure(cfg, tasks, nproc).batch) < Measure(cfg, tasks, nproc).volume
    ensures 2 * nproc <= |tasks| && cfg.nwave % cfg.numWave == 0 ==>
      Work(Measure(cfg, tasks, nproc).batch) == Measure(cfg, tasks, nproc).volume
  {
    var b, n := cfg.bundleSize, cfg.numWave;
    var batch := Batch(tasks, nproc);
    assert Measure(cfg, tasks, nproc).batch == batch;
    BatchShape(cfg, tasks, nproc);
    WorkBound(batch, b, n);
    MulAtLeast(b, n);
    MulAssoc(2 * nproc, b, n);
    UnitsBound(Work(batch), |batch|, 2 * nproc, b * n);
    if 2 * nproc <= |tasks| && cfg.nwave % n == 0 {
      FullWindows(cfg, tasks);
      assert forall k :: 0 <= k < |batch| ==> batch[k] == tasks[k];
    }
  }
}
