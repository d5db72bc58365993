/** The resource sampler's run (monitor.py `monitor` and `save_results`):
    teardown, start, a start power reading, one sample per loop iteration,
    an end power reading and the printed average, teardown again, and the
    summary of the column means. How many iterations the wall clock allows
    is an input: the sequence of ticks. */
module Sampler {
  import opened Base
  import Stats
  import opened Workload
  import opened ProcessMetrics
  import opened Energy

  /** What one loop iteration observes: the timestamp text, the engine's
      pipeline output, and what the power reading sees. */
  datatype Tick = Tick(timestamp: string, process: CommandOutput, energy: EnergyProbe)

  /** One record of `metrics_data`. */
  datatype Sample = Sample(timestamp: string, cpu: real, memoryMb: real, powerMw: real)

  /** What one iteration reads, in the order the loop reads it: the
      engine's reading and, when that does not raise, the power. */
  datatype Observation = Observation(timestamp: string, reading: ReadResult, powerMw: real)

  function Observe(tick: Tick): Observation
  {
    Observation(tick.timestamp, GetProcessMetrics(tick.process), GetEnergyMetrics(tick.energy))
  }

  /** The readings of every iteration the wall clock allows. */
  function Observations(ticks: seq<Tick>): (observed: seq<Observation>)
    ensures |observed| == |ticks|
    ensures forall k :: 0 <= k < |ticks| ==> observed[k] == Observe(ticks[k])
  {
    seq(|ticks|, k requires 0 <= k < |ticks| => Observe(ticks[k]))
  }

  /** The engine reading of this iteration raises, which nothing in the loop
      catches. */
  predicate Raises(o: Observation)
  {
    o.reading.ValueError?
  }

  /** The record an iteration appends when its reading does not raise. */
  function SampleOf(o: Observation): Sample
    requires !Raises(o)
  {
    Sample(o.timestamp, o.reading.reading.cpu, o.reading.reading.memoryMb, o.powerMw)
  }

  function Cpus(series: seq<Sample>): (xs: seq<real>)
    ensures |xs| == |series|
    ensures forall k :: 0 <= k < |series| ==> xs[k] == series[k].cpu
  {
    seq(|series|, k requires 0 <= k < |series| => series[k].cpu)
  }

  function Memories(series: seq<Sample>): (xs: seq<real>)
    ensures |xs| == |series|
    ensures forall k :: 0 <= k < |series| ==> xs[k] == series[k].memoryMb
  {
    seq(|series|, k requires 0 <= k < |series| => series[k].memoryMb)
  }

  function Powers(series: seq<Sample>): (xs: seq<real>)
    ensures |xs| == |series|
    ensures forall k :: 0 <= k < |series| ==> xs[k] == series[k].powerMw
  {
    seq(|series|, k requires 0 <= k < |series| => series[k].powerMw)
  }

  /** The sampling loop: each iteration appends exactly one record and
      counts one measurement, accumulating its power; the first reading
      that raises ends the loop with the exception. */
  method CollectSamples(observed: seq<Observation>) returns (series: seq<Sample>, accumulated: real, measurements: nat, raised: bool)
    ensures measurements == |series| <= |observed|
    ensures forall k :: 0 <= k < |series| ==> !Raises(observed[k]) && series[k] == SampleOf(observed[k])
    ensures accumulated == Stats.Sum(Powers(series))
    ensures raised <==> exists k :: 0 <= k < |observed| && Raises(observed[k])
    ensures raised ==> |series| < |observed| && Raises(observed[|series|])
    ensures !raised ==> |series| == |observed|
  {
    series, accumulated, measurements, raised := [], 0.0, 0, false;
    var i := 0;
    while i < |observed|
      invariant i <= |observed|
      invariant |series| == i && measurements == i
      invariant forall k :: 0 <= k < i ==> !Raises(observed[k]) && series[k] == SampleOf(observed[k])
      invariant accumulated == Stats.Sum(Powers(series))
    {
      if Raises(observed[i]) {
        raised := true;
        return;
      }
      var sample := SampleOf(observed[i]);
      accumulated := accumulated + sample.powerMw;
      measurements := measurements + 1;
      assert Powers(series + [sample]) == Powers(series) + [sample.powerMw];
      Stats.SumAppend(Powers(series), sample.powerMw);
      series := series + [sample];
      i := i + 1;
    }
  }

  /** The printed average power: the accumulated power per measurement,
      or 0 when nothing was measured. */
  function AveragePower(accumulated: real, measurements: nat): (r: real)
    ensures measurements == 0 ==> r == 0.0
    ensures measurements > 0 ==> r * measurements as real == accumulated
  {
    if measurements > 0 then accumulated / measurements as real else 0.0
  }

  /** The JSON summary `save_results` writes. */
  datatype RunSummary = RunSummary(
    engine: string,
    testType: string,
    duration: int,
    interval: int,
    samples: nat,
    cpuAverage: real,
    memoryAverage: real,
    powerAverageMw: real)

  function TestTypeName(test: TestType): string
  {
    match test
    case Idle => "idle"
    case Load => "load"
  }

  /** `save_results`: nothing for an empty series; otherwise the sample
      count and the mean (column sum over sample count) of each column,
      each lying within its column. */
  function SaveResults(engine: string, test: TestType, duration: int, interval: int, series: seq<Sample>): (r: Option<RunSummary>)
    ensures r.None? <==> series == []
    ensures r.Some? ==>
              r.value.engine == engine && r.value.testType == TestTypeName(test)
              && r.value.duration == duration && r.value.interval == interval
              && r.value.samples == |series|
    ensures r.Some? ==>
              r.value.cpuAverage == Stats.Sum(Cpus(series)) / |series| as real
              && r.value.memoryAverage == Stats.Sum(Memories(series)) / |series| as real
              && r.value.powerAverageMw == Stats.Sum(Powers(series)) / |series| as real
    ensures r.Some? ==> Stats.Min(Cpus(series)) <= r.value.cpuAverage <= Stats.Max(Cpus(series))
    ensures r.Some? ==> Stats.Min(Memories(series)) <= r.value.memoryAverage <= Stats.Max(Memories(series))
    ensures r.Some? ==> Stats.Min(Powers(series)) <= r.value.powerAverageMw <= Stats.Max(Powers(series))
  {
    if series == [] then None
    else
      Some(RunSummary(engine, TestTypeName(test), duration, interval, |series|,
                      Stats.Mean(Cpus(series)), Stats.Mean(Memories(series)), Stats.Mean(Powers(series))))
  }

  /** A series whose every record reads the same is summarised by exactly
      that reading. */
  lemma SteadySeriesSummary(engine: string, test: TestType, duration: int, interval: int,
                            series: seq<Sample>, cpu: real, memoryMb: real, powerMw: real)
    requires series != []
    requires forall k :: 0 <= k < |series| ==>
               series[k].cpu == cpu && series[k].memoryMb == memoryMb && series[k].powerMw == powerMw
    ensures var r := SaveResults(engine, test, duration, interval, series);
      r.Some? && r.value.cpuAverage == cpu && r.value.memoryAverage == memoryMb
      && r.value.powerAverageMw == powerMw
  {
    Stats.MeanConstant(Cpus(series), cpu);
    Stats.MeanConstant(Memories(series), memoryMb);
    Stats.MeanConstant(Powers(series), powerMw);
  }

  /** The printed average and the saved power column mean agree. */
  lemma PrintedAverageIsSaved(engine: string, test: TestType, duration: int, interval: int, series: seq<Sample>)
    requires series != []
    ensures SaveResults(engine, test, duration, interval, series).value.powerAverageMw
            == AveragePower(Stats.Sum(Powers(series)), |series|)
  {
  }

  /** What one `monitor` call did: every command issued in order, the start
      and end power readings and the printed average (when reached), the
      records gathered, whether it ended with an exception, and the summary
      saved. */
  datatype MonitorRun = MonitorRun(
    issued: seq<Command>,
    startPower: Option<real>,
    series: seq<Sample>,
    endPower: Option<real>,
    averagePower: Option<real>,
    raised: bool,
    summary: Option<RunSummary>)

  /** The environment came up: the opening teardown found its tool and the
      start completed. */
  predicate EnvironmentUp(engine: string, test: TestType, duration: int, installed: Installed, launchOk: bool)
  {
    installed(StopTool(engine)) && Started(engine, test, duration, installed, launchOk)
  }

  /** The teardown and start around the sampling, `finally` included: the
      commands issued in order (teardown, then the start when the teardown
      did not raise, then teardown again), which open and close with the
      teardown commands; it raises exactly when the environment did not
      come up. */
  function Bracket(engine: string, test: TestType, duration: int, installed: Installed, launchOk: bool): (b: Trace)
    ensures b.raised <==> !EnvironmentUp(engine, test, duration, installed, launchOk)
    ensures b.issued == Teardown(engine, test, installed).issued
                        + (if Teardown(engine, test, installed).raised then []
                           else StartEnvironment(engine, test, duration, installed, launchOk).issued)
                        + Teardown(engine, test, installed).issued
    ensures var stop := Teardown(engine, test, installed).issued;
      |b.issued| >= 2 * |stop| && b.issued[..|stop|] == stop && b.issued[|b.issued| - |stop|..] == stop
  {
    var teardown := Teardown(engine, test, installed);
    var stop := teardown.issued;
    // a raising teardown raises again in `finally`
    var start := if teardown.raised then Trace([], true) else StartEnvironment(engine, test, duration, installed, launchOk);
    var issued := stop + start.issued + stop;
    assert issued[..|stop|] == stop;
    assert issued[|issued| - |stop|..] == stop;
    Trace(issued, start.raised)
  }

  /** `monitor`: the environment is torn down first and, through `finally`,
      last on every path; a teardown or start that raises, or a raising
      reading, ends the run with the exception and without a summary;
      otherwise the summary is the one `save_results` computes, and its
      power mean is the printed average. */
  method Monitor(engine: string, test: TestType, duration: int, interval: int, installed: Installed, launchOk: bool,
                 startProbe: EnergyProbe, ticks: seq<Tick>, endProbe: EnergyProbe) returns (run: MonitorRun)
    ensures run.issued == Bracket(engine, test, duration, installed, launchOk).issued
    ensures run.raised <==> Bracket(engine, test, duration, installed, launchOk).raised
                            || exists k :: 0 <= k < |ticks| && Raises(Observe(ticks[k]))
    ensures run.startPower ==
              (if Bracket(engine, test, duration, installed, launchOk).raised then None else Some(GetEnergyMetrics(startProbe)))
    ensures Bracket(engine, test, duration, installed, launchOk).raised ==> run.series == []
    ensures |run.series| <= |ticks|
    ensures forall k :: 0 <= k < |run.series| ==> !Raises(Observe(ticks[k])) && run.series[k] == SampleOf(Observe(ticks[k]))
    ensures !run.raised ==> |run.series| == |ticks|
    ensures run.endPower.Some? <==> !run.raised
    ensures run.endPower.Some? ==> run.endPower.value == GetEnergyMetrics(endProbe)
    ensures run.averagePower.Some? <==> !run.raised
    ensures run.summary.Some? <==> !run.raised && run.series != []
    ensures !run.raised ==> run.summary == SaveResults(engine, test, duration, interval, run.series)
    ensures run.summary.Some? ==> run.summary.value.samples == |ticks|
    ensures run.summary.Some? ==> run.averagePower == Some(run.summary.value.powerAverageMw)
  {
    var bracket := Bracket(engine, test, duration, installed, launchOk);
    if bracket.raised {
      return MonitorRun(bracket.issued, None, [], None, None, true, None);
    }
    var startPower := GetEnergyMetrics(startProbe);
    var series, accumulated, measurements, raised := CollectSamples(Observations(ticks));
    if raised {
      return MonitorRun(bracket.issued, Some(startPower), series, None, None, true, None);
    }
    var endPower := GetEnergyMetrics(endProbe);
    var average := AveragePower(accumulated, measurements);
    var summary := SaveResults(engine, test, duration, interval, series);
    if series != [] {
      PrintedAverageIsSaved(engine, test, duration, interval, series);
    }
    run := MonitorRun(bracket.issued, Some(startPower), series, Some(endPower), Some(average), false, summary);
  }
}
