/** The work partitioner of the multiprocessing extraction benchmark: the
    nested loop that turns the spectrum axis (in bundles) and the wavelength
    axis (in chunks) into an ordered list of extraction tasks
    `(iarg, specmin, bundlesize, w[i:i+numwave])`.

    The model follows the loop literally (`InnerLoop`, `OuterLoop`,
    `ExtractArgs`) and proves it equal to an independent row-major closed
    form (`TaskAt`), from which the cover and ordering properties follow. */
module Partition {
  import opened Arith
  import opened PyBuiltins

  /** Length of the wavelength grid the benchmark extracts on. */
  const WaveCount: nat := 2000
  /** Option defaults for `--numwave` and `--bundlesize`. */
  const DefaultNumWave: int := 200
  const DefaultBundleSize: int := 25

  /** The run's domain: `nspec` spectra of the PSF, a wavelength grid of
      `nwave` points, and the two (unchecked) integer options. */
  datatype Config = Config(nspec: nat, nwave: nat, bundleSize: int, numWave: int)

  /** One sub-extraction: spectra `[specMin, specMin + specCount)` over the
      wavelength positions `wave`. `specCount` is the bundle size as given,
      not clamped to the number of spectra. */
  datatype Task = Task(id: nat, specMin: int, specCount: int, wave: Window) {
    predicate Covers(s: int, x: int) {
      specMin <= s < specMin + specCount && wave.Contains(x)
    }
  }

  /** One pass of the inner loop: a task per wavelength start, numbered from `iarg`. */
  function InnerLoop(cfg: Config, iarg: nat, specMin: int, starts: seq<int>): (row: seq<Task>)
    ensures |row| == |starts|
    decreases |starts|
  {
    if starts == [] then []
    else
      [Task(iarg, specMin, cfg.bundleSize, SliceWindow(cfg.nwave, starts[0], starts[0] + cfg.numWave))]
      + InnerLoop(cfg, iarg + 1, specMin, starts[1..])
  }

  /** The `j`-th task of a pass has id `iarg + j` and the slice `w[starts[j]:starts[j] + numWave]`. */
  lemma {:induction false} InnerLoopAt(cfg: Config, iarg: nat, specMin: int, starts: seq<int>, j: nat)
    requires j < |starts|
    ensures InnerLoop(cfg, iarg, specMin, starts)[j]
      == Task(iarg + j, specMin, cfg.bundleSize, SliceWindow(cfg.nwave, starts[j], starts[j] + cfg.numWave))
    decreases j
  {
    if j > 0 {
      InnerLoopAt(cfg, iarg + 1, specMin, starts[1..], j - 1);
    }
  }

  /** The outer loop over the spectrum starts; the inner `range()` is evaluated
      afresh on every pass, so its error only surfaces once a pass runs. */
  function OuterLoop(cfg: Config, iarg: nat, specStarts: seq<int>): (r: Result<seq<Task>>)
    ensures r.Err? <==> |specStarts| > 0 && cfg.numWave == 0
    ensures r.Err? ==> r.error == RangeStepZero
    decreases |specStarts|
  {
    if specStarts == [] then Ok([])
    else
      match Range(cfg.nwave, cfg.numWave)
      case Err(e) => Err(e)
      case Ok(waveStarts) =>
        var row := InnerLoop(cfg, iarg, specStarts[0], waveStarts);
        match OuterLoop(cfg, iarg + |row|, specStarts[1..])
        case Err(e) => Err(e)
        case Ok(rest) => Ok(row + rest)
  }

  /** The setup raises exactly when the outer `range()` has step 0, or when the
      outer loop runs at least once and the inner `range()` has step 0. */
  predicate SetupFails(cfg: Config) {
    cfg.bundleSize == 0 || (cfg.bundleSize > 0 && cfg.nspec > 0 && cfg.numWave == 0)
  }

  /** The list `extract_args` the setup loop builds. */
  function ExtractArgs(cfg: Config): (r: Result<seq<Task>>)
    ensures r.Err? <==> SetupFails(cfg)
    ensures r.Err? ==> r.error == RangeStepZero
  {
    match Range(cfg.nspec, cfg.bundleSize)
    case Err(e) => Err(e)
    case Ok(specStarts) => OuterLoop(cfg, 0, specStarts)
  }

  // ---------------------------------------------------------------------
  // Reference definition: the task grid in closed form.

  /** Number of spectrum bundles: ceil(nspec / bundleSize), none for a negative step. */
  function RowCount(cfg: Config): nat {
    if cfg.bundleSize > 0 then CeilDiv(cfg.nspec, cfg.bundleSize) else 0
  }

  /** Number of wavelength chunks: ceil(nwave / numWave), none for a negative step. */
  function WindowCount(cfg: Config): nat {
    if cfg.numWave > 0 then CeilDiv(cfg.nwave, cfg.numWave) else 0
  }

  /** The `j`-th wavelength chunk, cut short at the end of the grid. */
  function WindowAt(cfg: Config, j: nat): Window
    requires cfg.numWave > 0
  {
    Window(j * cfg.numWave, Min(j * cfg.numWave + cfg.numWave, cfg.nwave))
  }

  /** Task `k` of a row-major grid with `WindowCount(cfg)` columns. */
  function TaskAt(cfg: Config, k: nat): Task
    requires WindowCount(cfg) > 0
  {
    var w := WindowCount(cfg);
    Task(k, (k / w) * cfg.bundleSize, cfg.bundleSize, WindowAt(cfg, k % w))
  }

  // ---------------------------------------------------------------------
  // The loop equals the closed form.

  /** The outer loop once the inner `range()` is known to give `ws`: one inner
      pass per spectrum start, the passes concatenated. */
  function Passes(cfg: Config, iarg: nat, specStarts: seq<int>, ws: seq<int>): seq<Task>
    decreases |specStarts|
  {
    if specStarts == [] then []
    else InnerLoop(cfg, iarg, specStarts[0], ws) + Passes(cfg, iarg + |ws|, specStarts[1..], ws)
  }

  /** Re-evaluating the inner `range()` on every pass changes nothing once it succeeds. */
  lemma {:induction false} OuterLoopPasses(cfg: Config, iarg: nat, specStarts: seq<int>, ws: seq<int>)
    requires Range(cfg.nwave, cfg.numWave) == Ok(ws)
    ensures OuterLoop(cfg, iarg, specStarts) == Ok(Passes(cfg, iarg, specStarts, ws))
    decreases |specStarts|
  {
    if specStarts != [] {
      OuterLoopPasses(cfg, iarg + |ws|, specStarts[1..], ws);
    }
  }

  /** Task `k` of the passes sits in pass `RowOf(k, |ws|)` at inner position `ColOf(k, |ws|)`. */
  lemma {:induction false} PassesCell(cfg: Config, iarg: nat, specStarts: seq<int>, ws: seq<int>, k: nat)
    requires k < |Passes(cfg, iarg, specStarts, ws)|
    ensures |ws| > 0 && RowOf(k, |ws|) < |specStarts|
    ensures Passes(cfg, iarg, specStarts, ws)[k]
      == Task(iarg + k, specStarts[RowOf(k, |ws|)], cfg.bundleSize,
              SliceWindow(cfg.nwave, ws[ColOf(k, |ws|)], ws[ColOf(k, |ws|)] + cfg.numWave))
    decreases |specStarts|
  {
    var w := |ws|;
    var row := InnerLoop(cfg, iarg, specStarts[0], ws);
    var rest := Passes(cfg, iarg + w, specStarts[1..], ws);
    if k < w {
      assert Passes(cfg, iarg, specStarts, ws)[k] == row[k];
      InnerLoopAt(cfg, iarg, specStarts[0], ws, k);
      RowColStep(k, w);
    } else {
      PassesCell(cfg, iarg + w, specStarts[1..], ws, k - w);
      RowColStep(k, w);
      var q, j := RowOf(k - w, w), ColOf(k - w, w);
      assert Passes(cfg, iarg, specStarts, ws)[k] == rest[k - w];
      assert specStarts[1..][q] == specStarts[q + 1];
      assert rest[k - w] == Task(iarg + k, specStarts[q + 1], cfg.bundleSize,
                                 SliceWindow(cfg.nwave, ws[j], ws[j] + cfg.numWave));
    }
  }

  /** Every pass adds one task per inner start. */
  lemma {:induction false} PassesLength(cfg: Config, iarg: nat, specStarts: seq<int>, ws: seq<int>)
    ensures |Passes(cfg, iarg, specStarts, ws)| == |specStarts| * |ws|
    decreases |specStarts|
  {
    if specStarts != [] {
      PassesLength(cfg, iarg + |ws|, specStarts[1..], ws);
      NextMultiple(|specStarts| - 1, |ws|);
    }
  }

  /** The wavelength starts of the inner loop select exactly the chunks `WindowAt`. */
  lemma InnerStarts(cfg: Config)
    requires cfg.numWave != 0
    ensures Range(cfg.nwave, cfg.numWave).Ok?
    ensures |Range(cfg.nwave, cfg.numWave).value| == WindowCount(cfg)
    ensures forall j :: 0 <= j < |Range(cfg.nwave, cfg.numWave).value| ==>
      && cfg.numWave > 0
      && SliceWindow(cfg.nwave, Range(cfg.nwave, cfg.numWave).value[j],
                     Range(cfg.nwave, cfg.numWave).value[j] + cfg.numWave) == WindowAt(cfg, j)
  {
    var ws := Range(cfg.nwave, cfg.numWave).value;
    if cfg.numWave > 0 {
      RangeLength(cfg.nwave, cfg.numWave);
      assert ws == RangeFrom(0, cfg.nwave, cfg.numWave);
      forall j | 0 <= j < |ws|
        ensures SliceWindow(cfg.nwave, ws[j], ws[j] + cfg.numWave) == WindowAt(cfg, j)
      {
        assert ws[j] == j * cfg.numWave;
        assert ws[j] < cfg.nwave;
      }
    }
  }

  /** The size of the grid alone, without its contents. */
  lemma GridSize(cfg: Config, tasks: seq<Task>)
    requires ExtractArgs(cfg) == Ok(tasks)
    ensures |tasks| == RowCount(cfg) * WindowCount(cfg)
  {
    var specStarts := Range(cfg.nspec, cfg.bundleSize).value;
    if cfg.bundleSize < 0 || cfg.nspec == 0 {
      if cfg.bundleSize > 0 {
        CeilDivBounds(cfg.nspec, cfg.bundleSize);
      }
      assert specStarts == [];
    } else {
      RangeLength(cfg.nspec, cfg.bundleSize);
      var ws := Range(cfg.nwave, cfg.numWave).value;
      InnerStarts(cfg);
      OuterLoopPasses(cfg, 0, specStarts, ws);
      PassesLength(cfg, 0, specStarts, ws);
    }
  }

  /** Row `q` and column `j` of task `k` in the grid, and the task they give. */
  lemma TaskCell(cfg: Config, tasks: seq<Task>, k: nat) returns (q: nat, j: nat)
    requires ExtractArgs(cfg) == Ok(tasks)
    requires k < |tasks|
    ensures cfg.bundleSize > 0 && cfg.numWave > 0
    ensures WindowCount(cfg) > 0 && q == RowOf(k, WindowCount(cfg)) && j == ColOf(k, WindowCount(cfg))
    ensures j < WindowCount(cfg) && q < RowCount(cfg)
    ensures k == q * WindowCount(cfg) + j
    ensures tasks[k] == Task(k, q * cfg.bundleSize, cfg.bundleSize, WindowAt(cfg, j))
  {
    var specStarts := Range(cfg.nspec, cfg.bundleSize).value;
    assert specStarts != [];
    RangeLength(cfg.nspec, cfg.bundleSize);
    var ws := Range(cfg.nwave, cfg.numWave).value;
    InnerStarts(cfg);
    OuterLoopPasses(cfg, 0, specStarts, ws);
    PassesCell(cfg, 0, specStarts, ws, k);
    var w := |ws|;
    q, j := RowOf(k, w), ColOf(k, w);
    RowColSplit(k, w);
  }

  /** The setup loop builds exactly the row-major grid of `RowCount * WindowCount`
      tasks: task `k` has id `k`, spectra starting at `(k / W) * bundleSize` and
      the `(k % W)`-th wavelength chunk, where `W` is the chunk count. */
  lemma ExtractArgsRowMajor(cfg: Config, tasks: seq<Task>)
    requires ExtractArgs(cfg) == Ok(tasks)
    ensures |tasks| == RowCount(cfg) * WindowCount(cfg)
    ensures forall k :: 0 <= k < |tasks| ==> WindowCount(cfg) > 0 && tasks[k] == TaskAt(cfg, k)
  {
    GridSize(cfg, tasks);
    forall k | 0 <= k < |tasks|
      ensures WindowCount(cfg) > 0 && tasks[k] == TaskAt(cfg, k)
    {
      var q, j := TaskCell(cfg, tasks, k);
      RowColIsDivMod(k, WindowCount(cfg));
    }
  }

  // ---------------------------------------------------------------------
  // Properties of the task list.

  /** Ids are `0, 1, ..., |tasks| - 1` in list order. */
  lemma TaskIdsConsecutive(cfg: Config, tasks: seq<Task>)
    requires ExtractArgs(cfg) == Ok(tasks)
    ensures forall k :: 0 <= k < |tasks| ==> tasks[k].id == k
  {
    ExtractArgsRowMajor(cfg, tasks);
  }

  /** The task count is ceil(nspec / bundleSize) * ceil(nwave / numWave), and
      zero when there are no spectra or no wavelengths. */
  lemma TaskCount(cfg: Config, tasks: seq<Task>)
    requires ExtractArgs(cfg) == Ok(tasks)
    ensures cfg.bundleSize > 0 && cfg.numWave > 0 ==>
      |tasks| == CeilDiv(cfg.nspec, cfg.bundleSize) * CeilDiv(cfg.nwave, cfg.numWave)
    ensures cfg.nspec == 0 || cfg.nwave == 0 ==> tasks == []
    ensures cfg.bundleSize < 0 || cfg.numWave < 0 ==> tasks == []
  {
    ExtractArgsRowMajor(cfg, tasks);
    if cfg.bundleSize > 0 {
      CeilDivBounds(cfg.nspec, cfg.bundleSize);
    }
    if cfg.numWave > 0 {
      CeilDivBounds(cfg.nwave, cfg.numWave);
    }
  }

  /** A bundle at least as large as the spectrum count gives exactly one row
      of tasks, all starting at spectrum 0 and together one per chunk. */
  lemma SingleRowWindow(cfg: Config, tasks: seq<Task>)
    requires ExtractArgs(cfg) == Ok(tasks)
    requires cfg.bundleSize >= cfg.nspec > 0
    ensures RowCount(cfg) == 1
    ensures |tasks| == WindowCount(cfg)
    ensures forall k :: 0 <= k < |tasks| ==> tasks[k].specMin == 0
  {
    ExtractArgsRowMajor(cfg, tasks);
    CeilDivBounds(cfg.nspec, cfg.bundleSize);
    forall k | 0 <= k < |tasks|
      ensures tasks[k].specMin == 0
    {
      DivModUnique(k, WindowCount(cfg), 0, k);
    }
  }

  /** Every task asks for `bundleSize` spectra starting at a multiple of
      `bundleSize` below `nspec`. */
  lemma RowFields(cfg: Config, tasks: seq<Task>)
    requires ExtractArgs(cfg) == Ok(tasks)
    ensures forall k :: 0 <= k < |tasks| ==>
      && cfg.bundleSize > 0
      && tasks[k].specCount == cfg.bundleSize
      && tasks[k].specMin % cfg.bundleSize == 0
      && 0 <= tasks[k].specMin < cfg.nspec
  {
    forall k | 0 <= k < |tasks|
      ensures cfg.bundleSize > 0
      ensures tasks[k].specCount == cfg.bundleSize
      ensures tasks[k].specMin % cfg.bundleSize == 0
      ensures 0 <= tasks[k].specMin < cfg.nspec
    {
      var q, j := TaskCell(cfg, tasks, k);
      var b := cfg.bundleSize;
      DivModUnique(q * b, b, q, 0);
      CeilDivBounds(cfg.nspec, b);
      MulLess(q, RowCount(cfg), b);
    }
  }

  /** The row window is not clamped: when the bundle size does not divide the
      spectrum count, the last task reaches past `nspec` (by less than a bundle). */
  lemma LastBundleOverhangs(cfg: Config, tasks: seq<Task>)
    requires ExtractArgs(cfg) == Ok(tasks)
    requires |tasks| > 0
    requires cfg.bundleSize > 0
    requires cfg.nspec % cfg.bundleSize != 0
    ensures cfg.nspec < tasks[|tasks| - 1].specMin + tasks[|tasks| - 1].specCount < cfg.nspec + cfg.bundleSize
  {
    var b := cfg.bundleSize;
    var rows, w := RowCount(cfg), WindowCount(cfg);
    GridSize(cfg, tasks);
    var q, j := TaskCell(cfg, tasks, |tasks| - 1);
    CellLast(rows, w, q, j);
    CeilDivBounds(cfg.nspec, b);
    NextMultiple(rows - 1, b);
    if rows * b == cfg.nspec {
      DivModUnique(cfg.nspec, b, rows, 0);
    }
  }

  /** Two neighbouring tasks either continue one bundle, with meeting
      windows, or start the next bundle at wavelength 0 after a window
      that ended at `nwave`. */
  lemma Neighbours(cfg: Config, tasks: seq<Task>, k: nat)
    requires ExtractArgs(cfg) == Ok(tasks)
    requires 0 < k < |tasks|
    ensures tasks[k - 1].specMin != tasks[k].specMin ==>
      tasks[k].wave.lo == 0 && tasks[k - 1].wave.hi == cfg.nwave
    ensures tasks[k - 1].specMin == tasks[k].specMin ==>
      tasks[k - 1].wave.hi == tasks[k].wave.lo && tasks[k - 1].wave.Len() == cfg.numWave
  {
    var q, j := TaskCell(cfg, tasks, k - 1);
    var q', j' := TaskCell(cfg, tasks, k);
    CellNext(k, WindowCount(cfg), q, j, q', j');
    ChunkInside(j, WindowCount(cfg), cfg.numWave, cfg.nwave);
    NextMultiple(q, cfg.bundleSize);
  }

  /** Along one bundle of spectra the wavelength windows tile `[0, nwave)`:
      each is non-empty, the first of a bundle starts at 0, consecutive ones
      meet, all but the last are `numWave` long, and the last ends at `nwave`. */
  lemma WindowsTileAxis(cfg: Config, tasks: seq<Task>)
    requires ExtractArgs(cfg) == Ok(tasks)
    ensures forall k :: 0 <= k < |tasks| ==> tasks[k].wave.lo < tasks[k].wave.hi <= cfg.nwave
    ensures |tasks| > 0 ==> tasks[0].wave.lo == 0 && tasks[|tasks| - 1].wave.hi == cfg.nwave
    ensures forall k :: 0 < k < |tasks| && tasks[k - 1].specMin != tasks[k].specMin ==>
      tasks[k].wave.lo == 0 && tasks[k - 1].wave.hi == cfg.nwave
    ensures forall k :: 0 < k < |tasks| && tasks[k - 1].specMin == tasks[k].specMin ==>
      tasks[k - 1].wave.hi == tasks[k].wave.lo && tasks[k - 1].wave.Len() == cfg.numWave
  {
    forall k | 0 <= k < |tasks|
      ensures tasks[k].wave.lo < tasks[k].wave.hi <= cfg.nwave
    {
      var q, j := TaskCell(cfg, tasks, k);
      ChunkInside(j, WindowCount(cfg), cfg.numWave, cfg.nwave);
    }
    if |tasks| > 0 {
      var w := WindowCount(cfg);
      var q, j := TaskCell(cfg, tasks, 0);
      CellUnique(0, w, 0, 0, q, j);
      GridSize(cfg, tasks);
      var q', j' := TaskCell(cfg, tasks, |tasks| - 1);
      CellLast(RowCount(cfg), w, q', j');
      ChunkInside(j', w, cfg.numWave, cfg.nwave);
    }
    forall k | 0 < k < |tasks|
      ensures tasks[k - 1].specMin != tasks[k].specMin ==>
        tasks[k].wave.lo == 0 && tasks[k - 1].wave.hi == cfg.nwave
      ensures tasks[k - 1].specMin == tasks[k].specMin ==>
        tasks[k - 1].wave.hi == tasks[k].wave.lo && tasks[k - 1].wave.Len() == cfg.numWave
    {
      Neighbours(cfg, tasks, k);
    }
  }

  /** Every spectrum/wavelength pair of the domain lies in some task. */
  lemma CoverExists(cfg: Config, tasks: seq<Task>, s: int, x: int)
    requires ExtractArgs(cfg) == Ok(tasks)
    requires cfg.bundleSize > 0 && cfg.numWave > 0
    requires 0 <= s < cfg.nspec && 0 <= x < cfg.nwave
    ensures exists k :: 0 <= k < |tasks| && tasks[k].Covers(s, x)
  {
    var rows, w := RowCount(cfg), WindowCount(cfg);
    var r := Locate(s, cfg.bundleSize, cfg.nspec);
    var j := Locate(x, cfg.numWave, cfg.nwave);
    var k := r * w + j;
    GridIndexBound(r, w, j, rows);
    GridSize(cfg, tasks);
    var q', j' := TaskCell(cfg, tasks, k);
    CellUnique(k, w, r, j, q', j');
    assert tasks[k].Covers(s, x);
  }

  /** No spectrum/wavelength pair lies in two different tasks. */
  lemma CoverUnique(cfg: Config, tasks: seq<Task>, s: int, x: int, k1: nat, k2: nat)
    requires ExtractArgs(cfg) == Ok(tasks)
    requires k1 < |tasks| && k2 < |tasks|
    requires tasks[k1].Covers(s, x) && tasks[k2].Covers(s, x)
    ensures k1 == k2
  {
    var q1, j1 := TaskCell(cfg, tasks, k1);
    var q2, j2 := TaskCell(cfg, tasks, k2);
    var b, n := cfg.bundleSize, cfg.numWave;
    CellUnique(s, b, q1, s - q1 * b, q2, s - q2 * b);
    CellUnique(x, n, j1, x - j1 * n, j2, x - j2 * n);
  }
}
