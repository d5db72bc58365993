/** The data shaping of the dashboard (graphics/js/app.js): the loaders that
    turn fetched result files into the three data sets, and the pivots the
    three charts draw from. JavaScript objects with string keys keep their
    insertion order; they are association lists here, with distinct keys. */
module Dashboard {
  import opened Base
  import opened Text
  import Startup

  // ---------------------------------------------------------------------
  // Objects as association lists
  // ---------------------------------------------------------------------

  function Keys<V>(kvs: seq<(string, V)>): (ks: seq<string>)
    ensures |ks| == |kvs|
    ensures forall k :: 0 <= k < |kvs| ==> ks[k] == kvs[k].0
  {
    seq(|kvs|, k requires 0 <= k < |kvs| => kvs[k].0)
  }

  predicate DistinctKeys<V>(kvs: seq<(string, V)>)
  {
    forall i, j :: 0 <= i < j < |kvs| ==> kvs[i].0 != kvs[j].0
  }

  /** `obj[key]`: the value stored under the key, `None` for `undefined`. */
  function Lookup<V>(kvs: seq<(string, V)>, key: string): (r: Option<V>)
    ensures r.None? <==> forall k :: 0 <= k < |kvs| ==> kvs[k].0 != key
    ensures r.Some? ==> exists k :: 0 <= k < |kvs| && kvs[k] == (key, r.value)
  {
    if kvs == [] then None
    else if kvs[0].0 == key then Some(kvs[0].1)
    else
      var r := Lookup(kvs[1..], key);
      assert forall k :: 1 <= k < |kvs| ==> kvs[k] == kvs[1..][k - 1];
      r
  }

  /** With distinct keys every entry is found under its own key. */
  lemma {:induction false} LookupEntry<V>(kvs: seq<(string, V)>, i: nat)
    requires DistinctKeys(kvs) && i < |kvs|
    ensures Lookup(kvs, kvs[i].0) == Some(kvs[i].1)
  {
    if i > 0 {
      LookupEntry(kvs[1..], i - 1);
    }
  }

  /** The object a loader builds by visiting the engines in order and
      storing what each contributes, skipping those that contribute
      nothing. */
  function EntriesFor<V>(contribution: string -> Option<V>, engines: seq<string>): (entries: seq<(string, V)>)
    requires forall i, j :: 0 <= i < j < |engines| ==> engines[i] != engines[j]
    ensures DistinctKeys(entries)
    ensures forall k :: 0 <= k < |entries| ==> contribution(entries[k].0) == Some(entries[k].1)
    ensures forall e :: Lookup(entries, e) == (if e in engines then contribution(e) else None)
  {
    if engines == [] then []
    else
      var e := engines[0];
      var rest := EntriesFor(contribution, engines[1..]);
      assert e !in engines[1..];
      assert forall x :: x in engines <==> x == e || x in engines[1..];
      match contribution(e)
      case Some(m) =>
        ConsEntry(rest, e, m);
        [(e, m)] + rest
      case None => rest
  }

  /** Storing a new key in front of an object finds it there and leaves
      every other key's value alone. */
  lemma ConsEntry<V>(rest: seq<(string, V)>, e: string, m: V)
    requires DistinctKeys(rest) && Lookup(rest, e).None?
    ensures DistinctKeys([(e, m)] + rest)
    ensures forall k :: 1 <= k < |rest| + 1 ==> ([(e, m)] + rest)[k] == rest[k - 1]
    ensures forall x :: Lookup([(e, m)] + rest, x) == if x == e then Some(m) else Lookup(rest, x)
  {
    assert ([(e, m)] + rest)[1..] == rest;
  }

  // ---------------------------------------------------------------------
  // Loading: fetched files as inputs
  // ---------------------------------------------------------------------

  /** How fetching and decoding one result file ended: its decoded
      content, a response that was not ok, or a thrown error (network or
      invalid JSON). */
  datatype Fetch<T> = Fetched(value: T) | NotOk | Threw

  /** The engines every loader asks for, in this order. */
  const DashboardEngines: seq<string> :=
    ["colima", "docker-desktop", "podman-desktop", "rancher-desktop", "orbstack"]

  /** The build tests the build loader asks for, in this order. */
  const BuildTests: seq<string> := ["java", "ml", "simple"]

  /** The decoded content of a fetch that succeeded; nothing otherwise. */
  function Content<T>(f: Fetch<T>): (r: Option<T>)
    ensures r.Some? <==> f.Fetched?
    ensures r.Some? ==> f == Fetched(r.value)
  {
    match f
    case Fetched(x) => Some(x)
    case _ => None
  }

  /** The startup summary as the dashboard reads it back. */
  datatype StartupStats = StartupStats(min: real, max: real, average: real)
  datatype StartupRecord = StartupRecord(engine: string, results: StartupStats)

  /** What fetching each named file yields, in the order of the names. */
  function FetchEach<T>(fetch: string -> Fetch<T>, names: seq<string>): (rs: seq<Option<T>>)
    ensures |rs| == |names|
    ensures forall k :: 0 <= k < |names| ==> rs[k] == Content(fetch(names[k]))
  {
    seq(|names|, k requires 0 <= k < |names| => Content(fetch(names[k])))
  }

  /** `loadStartupData`: one record per engine whose file loaded, in the
      engine order; the others are skipped. */
  function LoadStartupData(fetch: string -> Fetch<StartupRecord>): (records: seq<StartupRecord>)
    ensures |records| <= |DashboardEngines|
    ensures forall r :: r in records <==> exists e :: e in DashboardEngines && fetch(e) == Fetched(r)
  {
    var rs := FetchEach(fetch, DashboardEngines);
    assert forall r :: Some(r) in rs <==> exists e :: e in DashboardEngines && fetch(e) == Fetched(r) by {
      forall r | Some(r) in rs
        ensures exists e :: e in DashboardEngines && fetch(e) == Fetched(r)
      {
        var k :| 0 <= k < |rs| && rs[k] == Some(r);
        assert DashboardEngines[k] in DashboardEngines;
      }
      forall e | e in DashboardEngines
        ensures Content(fetch(e)) in rs
      {
        var k :| 0 <= k < |DashboardEngines| && DashboardEngines[k] == e;
        assert rs[k] == Content(fetch(e));
      }
    }
    Somes(rs)
  }

  /** The startup records follow the engine order one to one: record `k`
      is the content of the file of engine `origin[k]`, the engines of
      successive records come strictly later in the engine order (so no
      engine has two records), and every engine whose file loaded has a
      record. */
  lemma StartupRecordsInEngineOrder(fetch: string -> Fetch<StartupRecord>) returns (origin: seq<nat>)
    ensures |origin| == |LoadStartupData(fetch)|
    ensures forall k :: 0 <= k < |origin| ==>
              origin[k] < |DashboardEngines|
              && fetch(DashboardEngines[origin[k]]) == Fetched(LoadStartupData(fetch)[k])
    ensures forall k, l :: 0 <= k < l < |origin| ==> origin[k] < origin[l]
    ensures forall i :: 0 <= i < |DashboardEngines| && fetch(DashboardEngines[i]).Fetched? ==> i in origin
  {
    var rs := FetchEach(fetch, DashboardEngines);
    origin := SomesOrigins(rs);
  }

  /** One bar group of the startup chart. */
  datatype StartupBar = StartupBar(name: string, min: real, max: real, average: real)

  /** The startup chart data: one bar group per record, in order, named
      after its engine, with the record's minimum, maximum and average. */
  function StartupChartData(records: seq<StartupRecord>): (bars: seq<StartupBar>)
    ensures |bars| == |records|
    ensures forall k :: 0 <= k < |records| ==>
              bars[k].name == records[k].engine && bars[k].min == records[k].results.min
              && bars[k].max == records[k].results.max && bars[k].average == records[k].results.average
  {
    seq(|records|, k requires 0 <= k < |records| =>
      StartupBar(records[k].engine, records[k].results.min, records[k].results.max, records[k].results.average))
  }

  /** The record the dashboard reads from a summary the prober wrote. */
  function RecordOf(s: Startup.StartupSummary): StartupRecord
  {
    StartupRecord(s.engine, StartupStats(s.min, s.max, s.average))
  }

  /** A bar drawn from a prober summary is ordered: its minimum is at most
      its average, which is at most its maximum, and both ends are measured
      times. */
  lemma ProberBarsOrdered(engine: string, times: seq<real>)
    requires times != []
    ensures var bar := StartupChartData([RecordOf(Startup.Summarize(engine, times).value)])[0];
      bar.name == engine && bar.min <= bar.average <= bar.max && bar.min in times && bar.max in times
  {
  }

  // ---------------------------------------------------------------------
  // Build data
  // ---------------------------------------------------------------------

  /** One build result file. */
  datatype Build = Build(testType: string, buildTime: real)

  /** Engine name to its loaded build results, in load order. */
  type BuildData = seq<(string, seq<Build>)>

  /** What fetching each build file of one engine yields, in test order. */
  function FetchBuilds(fetch: (string, string) -> Fetch<Build>, engine: string, tests: seq<string>): (rs: seq<Option<Build>>)
    ensures |rs| == |tests|
    ensures forall k :: 0 <= k < |tests| ==> rs[k] == Content(fetch(engine, tests[k]))
  {
    seq(|tests|, k requires 0 <= k < |tests| => Content(fetch(engine, tests[k])))
  }

  /** The builds of one engine that loaded, in test order. */
  function EngineBuilds(fetch: (string, string) -> Fetch<Build>, engine: string): seq<Build>
  {
    Somes(FetchBuilds(fetch, engine, BuildTests))
  }

  /** What one engine contributes to the build data: its builds that
      loaded, unless none did. */
  function BuildsContribution(fetch: (string, string) -> Fetch<Build>, engine: string): Option<seq<Build>>
  {
    var builds := EngineBuilds(fetch, engine);
    if builds == [] then None else Some(builds)
  }

  /** `loadBuildData`. */
  function LoadBuildData(fetch: (string, string) -> Fetch<Build>): (data: BuildData)
    ensures DistinctKeys(data)
    ensures forall k :: 0 <= k < |data| ==> data[k].1 != []
    ensures forall e :: Lookup(data, e) ==
              (if e in DashboardEngines && EngineBuilds(fetch, e) != [] then Some(EngineBuilds(fetch, e)) else None)
  {
    EntriesFor(e => BuildsContribution(fetch, e), DashboardEngines)
  }

  /** `builds.find(b => b.test_type === t)`: the first build of that test
      type. */
  function FindBuild(builds: seq<Build>, t: string): (r: Option<Build>)
    ensures r.None? <==> forall j :: 0 <= j < |builds| ==> builds[j].testType != t
    ensures r.Some? ==> r.value.testType == t
    ensures r.Some? ==> exists j :: 0 <= j < |builds| && builds[j] == r.value
                                  && forall i :: 0 <= i < j ==> builds[i].testType != t
  {
    if builds == [] then None
    else if builds[0].testType == t then Some(builds[0])
    else
      var r := FindBuild(builds[1..], t);
      assert forall k :: 1 <= k < |builds| ==> builds[k] == builds[1..][k - 1];
      r
  }

  /** Some build of these has test type `t`. */
  predicate Offers(builds: seq<Build>, t: string)
  {
    exists j :: 0 <= j < |builds| && builds[j].testType == t
  }

  /** Some engine has a build of test type `t`. */
  predicate AnyOffers(data: BuildData, t: string)
  {
    exists i :: 0 <= i < |data| && Offers(data[i].1, t)
  }

  /** The strict order JavaScript's default `sort` leaves distinct strings
      in. */
  predicate StrictlySorted(xs: seq<string>)
  {
    forall i, j :: 0 <= i < j < |xs| ==> LexLess(xs[i], xs[j])
  }

  /** Adding one string to a strictly sorted list without duplicates. */
  function InsertSorted(xs: seq<string>, t: string): (r: seq<string>)
    requires StrictlySorted(xs)
    ensures StrictlySorted(r)
    ensures forall x :: x in r <==> x in xs || x == t
  {
    if xs == [] then [t]
    else if xs[0] == t then xs
    else if LexLess(t, xs[0]) then
      TransitiveHead(xs, t);
      [t] + xs
    else
      LexLessTotal(t, xs[0]);
      var rest := InsertSorted(xs[1..], t);
      assert forall x :: x in rest ==> LexLess(xs[0], x);
      [xs[0]] + rest
  }

  lemma TransitiveHead(xs: seq<string>, t: string)
    requires StrictlySorted(xs) && xs != [] && LexLess(t, xs[0])
    ensures forall j :: 0 <= j < |xs| ==> LexLess(t, xs[j])
  {
    forall j | 0 < j < |xs|
      ensures LexLess(t, xs[j])
    {
      LexLessTransitive(t, xs[0], xs[j]);
    }
  }

  lemma OffersCons(builds: seq<Build>)
    requires builds != []
    ensures forall x :: Offers(builds, x) <==> x == builds[0].testType || Offers(builds[1..], x)
  {
    forall x | Offers(builds[1..], x)
      ensures Offers(builds, x)
    {
      var j :| 0 <= j < |builds[1..]| && builds[1..][j].testType == x;
      assert builds[j + 1].testType == x;
    }
  }

  lemma AnyOffersCons(data: BuildData)
    requires data != []
    ensures forall x :: AnyOffers(data, x) <==> Offers(data[0].1, x) || AnyOffers(data[1..], x)
  {
    forall x | AnyOffers(data[1..], x)
      ensures AnyOffers(data, x)
    {
      var i :| 0 <= i < |data[1..]| && Offers(data[1..][i].1, x);
      assert data[i + 1] == data[1..][i];
    }
  }

  /** Adding the test types of one engine's builds. */
  function AddTypes(xs: seq<string>, builds: seq<Build>): (r: seq<string>)
    requires StrictlySorted(xs)
    ensures StrictlySorted(r)
    ensures forall x :: x in r <==> x in xs || Offers(builds, x)
    decreases builds
  {
    if builds == [] then xs
    else
      OffersCons(builds);
      AddTypes(InsertSorted(xs, builds[0].testType), builds[1..])
  }

  /** `getTestTypes`: the distinct test types of all engines' builds,
      sorted. */
  function TestTypes(data: BuildData): (types: seq<string>)
    ensures StrictlySorted(types)
    ensures forall t :: t in types <==> AnyOffers(data, t)
  {
    if data == [] then []
    else
      AnyOffersCons(data);
      AddTypes(TestTypes(data[1..]), data[0].1)
  }

  /** A strictly sorted list is determined by its elements: whatever order
      the types were collected in, sorting gives the same list. */
  lemma {:induction false} StrictlySortedUnique(a: seq<string>, b: seq<string>)
    requires StrictlySorted(a) && StrictlySorted(b)
    requires forall x :: x in a <==> x in b
    ensures a == b
  {
    SameElementsEmpty(a, b);
    if a != [] && b != [] {
      assert a[0] in b && b[0] in a;
      if a[0] != b[0] {
        var i :| 0 <= i < |a| && a[i] == b[0];
        var j :| 0 <= j < |b| && b[j] == a[0];
        LexLessAsymmetric(a[0], a[i]);
      }
      forall x | x in a[1..]
        ensures x in b[1..]
      {
        SortedTail(a, b, x);
      }
      forall x | x in b[1..]
        ensures x in a[1..]
      {
        SortedTail(b, a, x);
      }
      StrictlySortedUnique(a[1..], b[1..]);
    }
  }

  /** `getTestTypes` is the sorted listing of the test types: any strictly
      sorted list of exactly the offered types is that list. */
  lemma TestTypesCanonical(data: BuildData, xs: seq<string>)
    requires StrictlySorted(xs)
    requires forall t :: t in xs <==> AnyOffers(data, t)
    ensures xs == TestTypes(data)
  {
    StrictlySortedUnique(xs, TestTypes(data));
  }

  lemma SameElementsEmpty(a: seq<string>, b: seq<string>)
    requires forall x :: x in a <==> x in b
    ensures a == [] <==> b == []
  {
    if a != [] {
      assert a[0] in b;
    }
    if b != [] {
      assert b[0] in a;
    }
  }

  lemma SortedTail(a: seq<string>, b: seq<string>, x: string)
    requires StrictlySorted(a) && a != [] && b != [] && a[0] == b[0]
    requires forall y :: y in a <==> y in b
    requires x in a[1..]
    ensures x in b[1..]
  {
    var i :| 0 <= i < |a[1..]| && a[1..][i] == x;
    assert LexLess(a[0], a[i + 1]);
    LexLessIrreflexive(a[0]);
    assert x in b;
    var j :| 0 <= j < |b| && b[j] == x;
    assert j != 0;
    assert b[1..][j - 1] == x;
  }

  /** The build time an engine shows for a test type: that of its first
      build of the type, if it has one. */
  function TimeFor(data: BuildData, engine: string, t: string): Option<real>
  {
    match Lookup(data, engine)
    case None => None
    case Some(builds) =>
      match FindBuild(builds, t)
      case None => None
      case Some(b) => Some(b.buildTime)
  }

  /** The engine entries of one chart point for test type `t`. */
  function PointTimes(data: BuildData, t: string): (times: seq<(string, real)>)
    requires DistinctKeys(data)
    ensures DistinctKeys(times)
    ensures forall e :: Lookup(times, e) == TimeFor(data, e, t)
  {
    if data == [] then []
    else
      var rest := PointTimes(data[1..], t);
      assert forall e :: e != data[0].0 ==> Lookup(data, e) == Lookup(data[1..], e);
      assert Lookup(data[1..], data[0].0).None?;
      assert TimeFor(data[1..], data[0].0, t).None?;
      assert Lookup(rest, data[0].0).None?;
      match FindBuild(data[0].1, t)
      case Some(b) => [(data[0].0, b.buildTime)] + rest
      case None => rest
  }

  /** One point of the build chart: its name and a bar per engine. */
  datatype Point = Point(name: string, times: seq<(string, real)>)

  /** The `prepareChartData` of the build chart. With "all" there is one
      point per test type, in sorted order, named after it; otherwise
      exactly one point, named after the selected test. An engine has a bar
      on a point exactly when it has a build of that point's test type, and
      the bar is the build time of the first such build. */
  function PrepareBuildChart(data: BuildData, selected: string): (points: seq<Point>)
    requires DistinctKeys(data)
    ensures selected == "all" ==>
              |points| == |TestTypes(data)|
              && forall k :: 0 <= k < |points| ==> points[k].name == TestTypes(data)[k]
    ensures selected != "all" ==> |points| == 1 && points[0].name == selected
    ensures forall k :: 0 <= k < |points| ==>
              forall e :: Lookup(points[k].times, e) == TimeFor(data, e, points[k].name)
  {
    if selected == "all" then
      var types := TestTypes(data);
      seq(|types|, k requires 0 <= k < |types| => Point(types[k], PointTimes(data, types[k])))
    else
      [Point(selected, PointTimes(data, selected))]
  }

  /** In "all" mode no point is empty: its test type came from some
      engine's build, and that engine has a bar on it. */
  lemma EveryTypePointHasBar(data: BuildData, k: nat)
    requires DistinctKeys(data)
    requires k < |PrepareBuildChart(data, "all")|
    ensures PrepareBuildChart(data, "all")[k].times != []
  {
    var points := PrepareBuildChart(data, "all");
    var t := points[k].name;
    assert t in TestTypes(data);
    var i :| 0 <= i < |data| && Offers(data[i].1, t);
    LookupEntry(data, i);
    assert TimeFor(data, data[i].0, t).Some?;
    assert Lookup(points[k].times, data[i].0).Some?;
  }

  // ---------------------------------------------------------------------
  // Performance data
  // ---------------------------------------------------------------------

  /** The `metrics` object of one resource summary, as its key/value
      pairs. `Lookup` takes the first pair with a key, whereas `JSON.parse`
      keeps the last; the two agree because the summaries the sampler
      writes come from one Python dict literal with three distinct keys
      (monitor.py:229-233), so no key repeats. */
  type Metrics = seq<(string, real)>

  /** The performance data set: engine to metrics, for each state. */
  datatype PerformanceData = PerformanceData(idle: seq<(string, Metrics)>, load: seq<(string, Metrics)>)

  /** A resource summary file, as the loader sees it: its `metrics` when
      present and truthy. */
  type Report = Option<Metrics>

  /** The metrics a fetched report contributes. */
  function Contributed(f: Fetch<Report>): Option<Metrics>
  {
    match f
    case Fetched(report) => report
    case _ => None
  }

  /** The load metrics an engine contributes: both files of an engine are
      read inside one `try`, so a thrown error while reading the idle file
      skips its load file. */
  function LoadContribution(fetchIdle: string -> Fetch<Report>, fetchLoad: string -> Fetch<Report>, e: string): Option<Metrics>
  {
    if fetchIdle(e).Threw? then None else Contributed(fetchLoad(e))
  }

  /** `loadPerformanceData`: an engine is recorded under a state exactly
      when that state's file loaded with metrics, except that an error
      thrown while reading its idle file leaves out its load metrics too. */
  function LoadPerformanceData(fetchIdle: string -> Fetch<Report>, fetchLoad: string -> Fetch<Report>): (data: PerformanceData)
    ensures DistinctKeys(data.idle) && DistinctKeys(data.load)
    ensures forall e :: Lookup(data.idle, e) == (if e in DashboardEngines then Contributed(fetchIdle(e)) else None)
    ensures forall e :: Lookup(data.load, e) ==
              (if e in DashboardEngines && !fetchIdle(e).Threw? then Contributed(fetchLoad(e)) else None)
  {
    var idle := EntriesFor(e => Contributed(fetchIdle(e)), DashboardEngines);
    var load := EntriesFor(e => LoadContribution(fetchIdle, fetchLoad, e), DashboardEngines);
    PerformanceData(idle, load)
  }

  /** `data[state]` for the two states the charts ask for. */
  function StateData(data: PerformanceData, state: string): Option<seq<(string, Metrics)>>
  {
    if state == "idle" then Some(data.idle)
    else if state == "load" then Some(data.load)
    else None
  }

  /** `getMetricValue`: the stored value, or 0 when the state, the engine or
      the key is missing. */
  function GetMetricValue(data: PerformanceData, state: string, engine: string, key: string): (r: real)
    ensures StateData(data, state).Some? && Lookup(StateData(data, state).value, engine).Some?
            && Lookup(Lookup(StateData(data, state).value, engine).value, key).Some?
            ==> Lookup(Lookup(StateData(data, state).value, engine).value, key) == Some(r)
    ensures StateData(data, state).None? || Lookup(StateData(data, state).value, engine).None?
            || Lookup(Lookup(StateData(data, state).value, engine).value, key).None?
            ==> r == 0.0
    ensures r != 0.0 ==>
              StateData(data, state).Some? && Lookup(StateData(data, state).value, engine).Some?
              && Lookup(Lookup(StateData(data, state).value, engine).value, key) == Some(r)
  {
    match StateData(data, state)
    case None => 0.0
    case Some(engines) =>
      match Lookup(engines, engine)
      case None => 0.0
      case Some(metrics) => Lookup(metrics, key).GetOr(0.0)
  }

  /** The value a chart reads from the metrics recorded for an engine: the
      metric when recorded, 0 otherwise. */
  function MetricOf(recorded: Option<Metrics>, key: string): real
  {
    match recorded
    case Some(m) => Lookup(m, key).GetOr(0.0)
    case None => 0.0
  }

  /** What a chart shows for an engine and state is what its file held:
      the metric when the file loaded with metrics that have it, 0
      otherwise; the load value is 0 as well when reading the idle file
      threw. */
  lemma LoadedMetricShown(fetchIdle: string -> Fetch<Report>, fetchLoad: string -> Fetch<Report>,
                          engine: string, key: string)
    requires engine in DashboardEngines
    ensures var data := LoadPerformanceData(fetchIdle, fetchLoad);
      GetMetricValue(data, "idle", engine, key) == MetricOf(Contributed(fetchIdle(engine)), key)
    ensures var data := LoadPerformanceData(fetchIdle, fetchLoad);
      GetMetricValue(data, "load", engine, key)
      == (if fetchIdle(engine).Threw? then 0.0 else MetricOf(Contributed(fetchLoad(engine)), key))
  {
    IdleMetricShown(fetchIdle, fetchLoad, engine, key);
    LoadMetricShown(fetchIdle, fetchLoad, engine, key);
  }

  lemma IdleMetricShown(fetchIdle: string -> Fetch<Report>, fetchLoad: string -> Fetch<Report>,
                        engine: string, key: string)
    requires engine in DashboardEngines
    ensures GetMetricValue(LoadPerformanceData(fetchIdle, fetchLoad), "idle", engine, key)
            == MetricOf(Contributed(fetchIdle(engine)), key)
  {
    var data := LoadPerformanceData(fetchIdle, fetchLoad);
    assert Lookup(data.idle, engine) == Contributed(fetchIdle(engine));
    StateMetricShown(data, "idle", engine, key, Contributed(fetchIdle(engine)));
  }

  lemma LoadMetricShown(fetchIdle: string -> Fetch<Report>, fetchLoad: string -> Fetch<Report>,
                        engine: string, key: string)
    requires engine in DashboardEngines
    ensures GetMetricValue(LoadPerformanceData(fetchIdle, fetchLoad), "load", engine, key)
            == (if fetchIdle(engine).Threw? then 0.0 else MetricOf(Contributed(fetchLoad(engine)), key))
  {
    var recorded := LoadContribution(fetchIdle, fetchLoad, engine);
    LoadRecorded(fetchIdle, fetchLoad, engine);
    StateMetricShown(LoadPerformanceData(fetchIdle, fetchLoad), "load", engine, key, recorded);
  }

  lemma LoadRecorded(fetchIdle: string -> Fetch<Report>, fetchLoad: string -> Fetch<Report>, engine: string)
    requires engine in DashboardEngines
    ensures Lookup(LoadPerformanceData(fetchIdle, fetchLoad).load, engine)
            == LoadContribution(fetchIdle, fetchLoad, engine)
  {
  }

  /** The value shown for a state and an engine is read from the metrics
      recorded for them. */
  lemma StateMetricShown(data: PerformanceData, state: string, engine: string, key: string, recorded: Option<Metrics>)
    requires StateData(data, state).Some? && Lookup(StateData(data, state).value, engine) == recorded
    ensures GetMetricValue(data, state, engine, key) == MetricOf(recorded, key)
  {
  }

  /** One bar pair of a performance chart. */
  datatype PerformancePoint = PerformancePoint(name: string, idle: real, load: real)

  /** The `prepareChartData` of the performance charts: one bar pair per
      engine with idle metrics, in their order, each showing the engine's
      idle and load value of the metric. */
  function PreparePerformanceChart(data: PerformanceData, key: string): (points: seq<PerformancePoint>)
    ensures |points| == |data.idle|
    ensures forall k :: 0 <= k < |points| ==>
              points[k].name == data.idle[k].0
              && points[k].idle == GetMetricValue(data, "idle", data.idle[k].0, key)
              && points[k].load == GetMetricValue(data, "load", data.idle[k].0, key)
  {
    var engines := Keys(data.idle);
    seq(|engines|, k requires 0 <= k < |engines| =>
      PerformancePoint(engines[k], GetMetricValue(data, "idle", engines[k], key),
                       GetMetricValue(data, "load", engines[k], key)))
  }

  /** An engine with load metrics but no idle metrics is not charted. */
  lemma LoadOnlyEngineHidden(data: PerformanceData, key: string, engine: string)
    requires Lookup(data.idle, engine).None?
    ensures forall k :: 0 <= k < |PreparePerformanceChart(data, key)| ==>
              PreparePerformanceChart(data, key)[k].name != engine
  {
  }
}
