/** Concrete runs of the benchmark worked through the general lemmas. */
module Scenarios {
  import opened Arith
  import opened PyBuiltins
  import opened Partition
  import opened Driver

  /** 50 spectra in bundles of 25 over 100 points in chunks of 50 give two
      bundles of two chunks; degrees 1 and 2 dispatch two and all four tasks. */
  lemma SmallRun(cfg: Config)
    requires cfg == Config(50, 100, 25, 50)
    ensures ExtractArgs(cfg) == Ok([
      Task(0, 0, 25, Window(0, 50)), Task(1, 0, 25, Window(50, 100)),
      Task(2, 25, 25, Window(0, 50)), Task(3, 25, 25, Window(50, 100))])
    ensures Benchmark(cfg, [1, 2]) == Report([
      Point(1, ExtractArgs(cfg).value[..2], 2500),
      Point(2, ExtractArgs(cfg).value, 5000)], Completed)
  {
    var tasks := ExtractArgs(cfg).value;
    ExtractArgsRowMajor(cfg, tasks);
    assert WindowCount(cfg) == 2;
    assert RowCount(cfg) == 2;
    assert tasks[0] == TaskAt(cfg, 0) == Task(0, 0, 25, Window(0, 50));
    assert tasks[1] == TaskAt(cfg, 1) == Task(1, 0, 25, Window(50, 100));
    assert tasks[2] == TaskAt(cfg, 2) == Task(2, 25, 25, Window(0, 50));
    assert tasks[3] == TaskAt(cfg, 3) == Task(3, 25, 25, Window(50, 100));
    assert |tasks| == 4;
    assert tasks == [
      Task(0, 0, 25, Window(0, 50)), Task(1, 0, 25, Window(50, 100)),
      Task(2, 25, 25, Window(0, 50)), Task(3, 25, 25, Window(50, 100))];
    var r := Benchmark(cfg, [1, 2]);
    assert r.points[0] == Measure(cfg, tasks, 1);
    assert r.points[1] == Measure(cfg, tasks, 2);
    assert Batch(tasks, 1) == tasks[..2];
    assert Batch(tasks, 2) == tasks;
  }

  /** The defaults cut the 2000-point grid into ten chunks of 200. */
  lemma DefaultChunks(nspec: nat)
    ensures WindowCount(Config(nspec, WaveCount, DefaultBundleSize, DefaultNumWave)) == 10
  {
  }

  /** With the default options there are ten tasks per bundle of 25 spectra;
      with more than 300 spectra the largest default degree, 64, dispatches
      a full batch of 128 tasks. */
  lemma DefaultRun(cfg: Config)
    requires cfg.nwave == WaveCount && cfg.bundleSize == DefaultBundleSize && cfg.numWave == DefaultNumWave
    ensures ExtractArgs(cfg).Ok?
    ensures |ExtractArgs(cfg).value| == CeilDiv(cfg.nspec, DefaultBundleSize) * 10
    ensures cfg.nspec > 300 ==> |Batch(ExtractArgs(cfg).value, DefaultDegrees[4])| == 128
  {
    var tasks := ExtractArgs(cfg).value;
    DefaultChunks(cfg.nspec);
    TaskCount(cfg, tasks);
    if cfg.nspec > 300 {
      EnoughBundles(cfg.nspec);
    }
  }

  /** More than 300 spectra make at least 13 bundles of 25. */
  lemma EnoughBundles(nspec: nat)
    requires nspec > 300
    ensures CeilDiv(nspec, DefaultBundleSize) * 10 >= 128
  {
    var c := CeilDiv(nspec, DefaultBundleSize);
    CeilDivBounds(nspec, DefaultBundleSize);
    if c < 13 {
      MulMono(DefaultBundleSize, c, 12);
      assert false;
    }
  }

  /** 30 spectra in bundles of 25: the second bundle asks for spectra 25 to 49. */
  lemma OverhangRun(cfg: Config)
    requires cfg == Config(30, 100, 25, 100)
    ensures ExtractArgs(cfg) == Ok([
      Task(0, 0, 25, Window(0, 100)), Task(1, 25, 25, Window(0, 100))])
  {
    var tasks := ExtractArgs(cfg).value;
    ExtractArgsRowMajor(cfg, tasks);
    assert WindowCount(cfg) == 1;
    assert RowCount(cfg) == 2;
    assert tasks[0] == TaskAt(cfg, 0) == Task(0, 0, 25, Window(0, 100));
    assert tasks[1] == TaskAt(cfg, 1) == Task(1, 25, 25, Window(0, 100));
    assert |tasks| == 2;
    assert tasks == [Task(0, 0, 25, Window(0, 100)), Task(1, 25, 25, Window(0, 100))];
  }

  /** A degree of 0 stops the run after the degrees before it. */
  lemma ZeroDegreeRun()
    ensures Benchmark(Config(50, 100, 25, 50), [2, 0, 1]).outcome == Raised(PoolTooSmall)
    ensures |Benchmark(Config(50, 100, 25, 50), [2, 0, 1]).points| == 1
  {
  }

  /** A chunk size of 0 raises as soon as the outer loop runs, but not
      when there are no spectra to loop over. */
  lemma ZeroChunkRun()
    ensures ExtractArgs(Config(50, 100, 25, 0)) == Err(RangeStepZero)
    ensures ExtractArgs(Config(0, 100, 25, 0)) == Ok([])
  {
  }
}
