# Work partitioning and batch selection of the multiprocessing extraction benchmark

`code/extract-mp-pool.py` is a strong-scaling benchmark for DESI spectral
extraction. It cuts the extraction of a PSF's spectra into independent
sub-extractions. It then runs a prefix of that task list on a process pool
for each requested pool size, in the order given, and reports the time and
rate for each size.

The model covers the integer logic of that script:

- **The setup loop** (lines 73-79). The outer loop walks the spectra in
  bundles of `bundlesize` with `range(0, nspec, bundlesize)`. The inner loop
  walks the wavelength grid in chunks of `numwave` with
  `range(0, len(w), numwave)`. Each step appends the tuple
  `(iarg, specmin, bundlesize, w[i:i+numwave])` and increments `iarg`.
  `Partition.InnerLoop`, `Partition.OuterLoop` and `Partition.ExtractArgs`
  follow the loop literally, including Python's `range()` semantics
  (`PyBuiltins.Range`). A step of 0 raises `ValueError`. A negative step
  from 0 yields nothing. The inner `range()` is evaluated only when an outer
  pass runs. The wavelength slice is modelled as the index window Python's
  slicing selects (`PyBuiltins.SliceWindow`). The float contents of `w` are
  not modelled.
- **A closed-form reference** (`Partition.TaskAt`). Task `k` of a row-major
  grid with `W = ceil(nwave / numwave)` columns has spectra starting at
  `(k / W) * bundlesize` and the wavelength window
  `[(k % W) * numwave, min((k % W + 1) * numwave, nwave))`.
  `Partition.ExtractArgsRowMajor` proves the loop equal to this closed form.
  The counting, ordering, tiling and cover properties follow from it.
- **The degree loop** (lines 44-45 and 89-100). The degrees come from the
  command line, or default to `(1, 4, 16, 32, 64)`. For each degree `nproc`,
  in order, the script sets `nmax = 2*nproc` and builds a pool of `nproc`
  processes. It maps the kernel over `extract_args[0:nmax]` and credits the
  batch with `nmax * bundlesize * numwave` work units. `Driver.Sweep` and
  `Driver.Benchmark` record, per degree, the batch that would be dispatched
  and the credited volume. They stop with `PoolTooSmall` at the first degree
  below 1, where `multiprocessing.Pool` raises `ValueError`.

The wavelength grid always has 2000 points (`Partition.WaveCount`, line 62).
The model takes its length as a parameter `nwave`, so that the properties
hold for any grid length.

Three behaviours of the code are easy to miss; the model keeps them as
written:

- The code passes `bundlesize` unclamped, so the last bundle can reach past
  `nspec` (`Partition.LastBundleOverhangs`).
- The rate numerator uses `nmax = 2*nproc` before the prefix is clamped to
  the task count, so it is strictly larger than the dispatched work
  whenever the task list is shorter than `nmax` (`Driver.VolumeCredit`).
- The code does not check the size options. A `bundlesize` of 0 always
  raises from `range()`; a `numwave` of 0 raises only once an outer pass
  runs, that is when `nspec > 0` and `bundlesize > 0`. A negative size gives
  no tasks (`Partition.ExtractArgs`, `Partition.TaskCount`).

## Model

| member | source | states |
|---|---|---|
| PyBuiltins.RangeFrom | code/extract-mp-pool.py:75-76 | a positive-step progression is empty exactly when start >= stop, its values lie in [start, stop), it starts at start and its last value is within one step of stop |
| PyBuiltins.RangeFromValue | code/extract-mp-pool.py:75-76 | element k of the progression is start + k * step |
| PyBuiltins.Range | code/extract-mp-pool.py:75-76 | range(0, stop, step) raises exactly when step is 0, and is empty for a negative step |
| PyBuiltins.RangeLength | code/extract-mp-pool.py:75-76 | for a positive step the range has ceil(stop / step) elements and element k is k * step |
| PyBuiltins.SliceIndex | code/extract-mp-pool.py:77 | a slice bound lands in [0, len] and a non-negative bound is clamped to len |
| PyBuiltins.SliceWindow | code/extract-mp-pool.py:77 | w[start:stop] selects positions within [0, len), namely [min(start, len), min(stop, len)) for 0 <= start <= stop |
| PyBuiltins.Prefix | code/extract-mp-pool.py:97 | xs[0:stop] is a prefix of xs of length min(stop, len(xs)), and a negative stop drops that many elements from the end |
| Partition.InnerLoop | code/extract-mp-pool.py:76-79 | one inner pass appends exactly one task per wavelength start |
| Partition.InnerLoopAt | code/extract-mp-pool.py:76-79 | task j of an inner pass has id iarg + j, the pass's specmin, bundlesize spectra, and the slice w[i:i+numwave] of the j-th start i |
| Partition.OuterLoop | code/extract-mp-pool.py:75-79 | the outer loop raises (RangeStepZero) exactly when at least one pass runs and numwave is 0 |
| Partition.ExtractArgs | code/extract-mp-pool.py:73-79 | building extract_args raises exactly when bundlesize is 0, or when bundlesize > 0, nspec > 0 and numwave is 0 |
| Partition.OuterLoopPasses | code/extract-mp-pool.py:75-79 | re-evaluating the inner range() on every pass gives the same list as the passes over one fixed list of starts |
| Partition.PassesCell | code/extract-mp-pool.py:74-79 | task k lies in pass RowOf(k, W) at inner position ColOf(k, W), with id iarg + k |
| Partition.PassesLength | code/extract-mp-pool.py:75-79 | the passes hold (number of spectrum starts) * (number of wavelength starts) tasks |
| Partition.InnerStarts | code/extract-mp-pool.py:76-77 | the inner starts select exactly the chunks [j * numwave, min(j * numwave + numwave, nwave)), ceil(nwave / numwave) of them |
| Partition.GridSize | code/extract-mp-pool.py:73-79 | extract_args has RowCount * WindowCount tasks |
| Partition.TaskCell | code/extract-mp-pool.py:73-79 | task k sits at row q and column j of the grid, with k = q * W + j, and is (k, q * bundlesize, bundlesize, chunk j) |
| Partition.ExtractArgsRowMajor | code/extract-mp-pool.py:73-79 | extract_args equals the row-major closed form TaskAt: ceil(nspec/bundlesize) * ceil(nwave/numwave) tasks, task k with specmin (k / W) * bundlesize and chunk k % W |
| Partition.TaskIdsConsecutive | code/extract-mp-pool.py:74-79 | the k-th task has iarg == k |
| Partition.TaskCount | code/extract-mp-pool.py:75-76 | the task count is ceil(nspec/bundlesize) * ceil(nwave/numwave); it is 0 when nspec or nwave is 0 or a size option is negative |
| Partition.SingleRowWindow | code/extract-mp-pool.py:75-76 | bundlesize >= nspec > 0 gives one row window: one task per wavelength chunk, all with specmin 0 |
| Partition.RowFields | code/extract-mp-pool.py:75-77 | every task asks for bundlesize spectra starting at a multiple of bundlesize strictly below nspec |
| Partition.LastBundleOverhangs | code/extract-mp-pool.py:75-77 | when bundlesize does not divide nspec, the last task's spectra end past nspec, by less than one bundle |
| Partition.Neighbours | code/extract-mp-pool.py:75-77 | consecutive tasks either stay in one bundle with meeting windows of full length, or start a new bundle at wavelength 0 after a window ending at nwave |
| Partition.WindowsTileAxis | code/extract-mp-pool.py:76-77 | along each bundle the windows are non-empty, start at 0, meet end to end, are numwave long except the last, and the last ends at nwave |
| Partition.CoverExists | code/extract-mp-pool.py:75-77 | every (spectrum, wavelength) pair of the domain lies in some task |
| Partition.CoverUnique | code/extract-mp-pool.py:75-77 | no (spectrum, wavelength) pair lies in two different tasks |
| Driver.Degrees | code/extract-mp-pool.py:44-45 | the degrees are the arguments given, or (1, 4, 16, 32, 64) when none are given; never empty |
| Driver.Measure | code/extract-mp-pool.py:90-99 | one pass of the degree loop keeps the degree, takes a prefix of extract_args of length min(2*nproc, len(extract_args)) as the batch, and credits 2*nproc*bundlesize*numwave whatever the batch holds |
| Driver.Batch | code/extract-mp-pool.py:90-97 | the batch for nproc is a prefix of extract_args of length min(2*nproc, len(extract_args)) |
| Driver.Sweep | code/extract-mp-pool.py:89-100 | degrees are measured in the given order; each measured degree is >= 1 and gets its batch and volume; the run ends with PoolTooSmall exactly when some degree is below 1, right at the first such degree |
| Driver.Benchmark | code/extract-mp-pool.py:73-100 | a setup error ends the run with no points; otherwise the degrees, or the defaults, are measured in order, each measured degree being >= 1; the run completes exactly when setup succeeds and every degree is >= 1, and then every degree is measured; after a successful setup a failure is PoolTooSmall at the first degree below 1, after the degrees before it; with no arguments and a valid setup all five default degrees are measured |
| Driver.BatchIsPrefix | code/extract-mp-pool.py:90-97 | the batch is the first min(2*nproc, len(extract_args)) tasks in list order, with ids 0 to its length minus 1 |
| Driver.BatchesNest | code/extract-mp-pool.py:90-97 | a larger degree's batch extends a smaller degree's batch |
| Driver.WorkBound | code/extract-mp-pool.py:97-99 | tasks of bundlesize spectra over windows of at most numwave points ask for at most bundlesize * numwave units each, exactly that when every window is full |
| Driver.FullWindows | code/extract-mp-pool.py:76-77 | when numwave divides nwave every window is numwave long |
| Driver.ShortLastWindow | code/extract-mp-pool.py:76-77 | when numwave does not divide nwave the last window holds nwave % numwave points |
| Driver.BatchShape | code/extract-mp-pool.py:77-97 | every batched task asks for bundlesize spectra over at most numwave points |
| Driver.VolumeCredit | code/extract-mp-pool.py:90-99 | the credited volume 2*nproc*bundlesize*numwave is at least the batch's work, strictly more when the task list is shorter than 2*nproc, and equal when the batch is full and numwave divides nwave |
| Scenarios.SmallRun | code/extract-mp-pool.py:73-99 | 50 spectra in bundles of 25 over 100 points in chunks of 50 give four tasks; degrees (1, 2) dispatch two and four tasks, credited 2500 and 5000 units |
| Scenarios.DefaultChunks | code/extract-mp-pool.py:62 | the 2000-point grid in default chunks of 200 gives ten chunks |
| Scenarios.DefaultRun | code/extract-mp-pool.py:32-33 | with the default options there are ten tasks per bundle, and with more than 300 spectra degree 64 dispatches a full batch of 128 |
| Scenarios.OverhangRun | code/extract-mp-pool.py:75-77 | 30 spectra in bundles of 25 give a second task asking for spectra 25 to 49 |
| Scenarios.ZeroDegreeRun | code/extract-mp-pool.py:89-91 | degrees (2, 0, 1) measure degree 2 and then stop with PoolTooSmall |
| Scenarios.ZeroChunkRun | code/extract-mp-pool.py:75-76 | numwave 0 raises once a pass runs, and with no spectra the loop finishes with an empty list |

## Left out

- Option parsing, the default PSF path and PSF loading (lines 29-54): command-line and file I/O. The model takes `nspec`, the two size options and the degree list as already-parsed integers. The `int()` conversion of degree strings is not modelled.
- The random image, the inverse variance, the `ex2d` warm-up call and `wrap_ex2d` (lines 57-70): numpy and an external extraction kernel. The model records which tasks a batch holds, not what the kernel returns.
- The float values of the wavelength grid (line 62): only the grid's length matters to the partitioning.
- `multiprocessing.Pool` and `p.map` (lines 91, 97): concurrency. Only the pool's refusal of a size below 1 is modelled. An exception raised by `ex2d` inside `p.map` (line 97) would also end the run; the model assumes every kernel call returns, and `Completed` in `Driver.Sweep` and `Driver.Benchmark` holds only under that assumption.
- Wall-clock timing, the float division that produces `rate`, and all printing (lines 81-88, 94-100): clock, floating point and output. Only the integer numerator of the rate (the volume of `Driver.Measure`) is modelled. A zero elapsed time would raise `ZeroDivisionError`; that case is not modelled.
- `code/legendre_bench.py`: a floating-point Legendre-recurrence benchmark, not part of this model.
- Driver.VolumeCredit: stated only for positive size options. With a negative size the task list is empty, and the credited volume can be negative.
- Partition.CoverExists: stated only for positive size options. A negative size yields no tasks and covers nothing (`Partition.TaskCount`).
