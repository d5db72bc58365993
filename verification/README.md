# Container engine benchmark: a Dafny model of its decision logic

The benchmark compares desktop container engines (Docker Desktop, Podman
Desktop, OrbStack, Rancher Desktop, colima) on macOS. Its three programs are
mostly orchestration around shell commands; this project models the decision
and aggregation logic that sits under that orchestration, with every external
effect turned into an input:

- the **resource sampler** (`monitor.py`): which commands bring a test workload
  up and tear it down, how the `ps | grep | awk` output is read, how the CPU
  power from `powermetrics` is apportioned to the engine, how the side file of
  power values is read, the sampling loop with its accumulator and printed
  average, and the column means `save_results` writes;
- the **startup prober** (`startup_benchmark.py`): the engine table, the
  liveness test, the readiness poll, the bounded stop wait, the start retry
  loop, the per-engine attempt loop and its summary;
- the **dashboard** (`graphics/js/app.js`): the loaders that drop missing
  results, and the pivots behind the startup, build and performance charts.

Command outputs, exit statuses, process lists, liveness answers, fetched files
and measured durations are parameters (sequences, or functions from an index
or a name). Python and JavaScript numbers are `real`s; strings are `seq<char>`.

Modules, one per file: `Base` (option type and the filter keeping present values), `Text` (Python/JavaScript string
operations used by the source), `Decimal` (`str` of integers and `float` of
decimal literals), `Stats` (sum, mean, min, max), `Workload` (start and
teardown commands), `ProcessMetrics` (engine process reading), `Energy` (power
apportionment and the power side file), `Sampler` (the monitoring run),
`Startup` (the startup prober) and `Dashboard` (the dashboard's data shaping).

Four behaviours of the code worth noting:

- a malformed non-empty reading of the engine's processes (including the lone
  `,` that `awk` prints when no process matches) raises `ValueError`, which
  the sampling loop does not catch; it does not degrade to a zero reading;
- `start_engine` makes at most three readiness checks (the `check_engine_ready`
  poll itself retries until its 300-second budget is spent); there is no
  separate count of start retries;
- a positive system CPU percentage is required for apportionment (`> 0`), so
  a negative reading also yields 0;
- the sampler's start and teardown handlers catch only `CalledProcessError`,
  so a missing executable (`docker-compose` on a colima host, say) raises
  `FileNotFoundError` straight through them, without fetching docker logs;
  the `finally` teardown then runs, and raises again when its own tool is
  the missing one.

## Model

| member | source | states |
|---|---|---|
| Workload.StartEnvironment | monitor.py:108-139 | the start raises exactly when a missing executable or a failing launch stops it; a load launch is preceded by the forced removal, and a missing removal executable raises before the launch; the docker logs of `stress-test` are fetched (as the last command) exactly when the launch ran and failed on an engine other than podman-desktop, whatever the test type; the command count is exact on every path |
| Workload.AllInstalledStart | monitor.py:125-139 | with every executable present the start raises exactly when the launch fails, the logs are fetched exactly on that failure off podman-desktop, and one command is issued for idle and two for load, plus the logs command |
| Workload.MissingComposeSkipsLogs | monitor.py:113-114 | colima's idle launch without a standalone `docker-compose` raises at once, without fetching any logs |
| Workload.StopCommands | monitor.py:143-156 | one teardown command for idle and two for load, each run by `podman` for podman-desktop and `docker` otherwise |
| Workload.Teardown | monitor.py:143-156 | the teardown issues all its commands, whatever their exit statuses, unless the stop tool is missing, in which case the first command raises |
| Workload.TeardownMatchesExactly | monitor.py:108-156 | the teardown commands name what the start command named (for idle the same compose invocation, for load the container named by `--name` as the last argument of both) exactly for engines other than podman-desktop, and for colima only under load |
| Workload.IdleTeardownMatches | monitor.py:110-116 | for idle runs the compose tool of teardown and start agree exactly when the engine is neither podman-desktop nor colima |
| Workload.LoadTeardownMatches | monitor.py:117-122 | for load runs both teardown commands name the launched container exactly when the engine is not podman-desktop |
| Workload.PodmanIdleStartsWithDocker | monitor.py:110-116 | the podman choice of the idle start is overwritten: podman-desktop starts with `docker compose up -d` but tears down with `podman compose down -v` |
| Workload.RemoveTargetsLaunched | monitor.py:117-129 | the forced removal before a load launch names the container the launch creates |
| Workload.LoadLifetimeIsDuration | monitor.py:119-122 | the launch has 14 words and its `--timeout` argument is the duration in seconds, reading back as the duration |
| Workload.LaunchedName | monitor.py:118-122 | the load launch names `stress-test-podman` for podman-desktop and `stress-test` for every other engine |
| Workload.TimeoutSeconds | monitor.py:119-121 | the `--timeout` argument is the duration's decimal text followed by `s`, and that text reads back as the duration |
| ProcessMetrics.SearchPattern | monitor.py:62-68 | the search substring is one of the five table values, and "Docker" for any engine outside the table |
| ProcessMetrics.GetProcessMetrics | monitor.py:70-81 | a subprocess error or blank output reads as zero CPU and memory; a `ValueError` only comes from non-blank output |
| ProcessMetrics.TotalsRead | monitor.py:71-77 | an `awk` line `c,m` of fixed-point totals (digits, optionally a point and more digits) reads as CPU c and memory m/1024 MB |
| ProcessMetrics.ReadComesFromPair | monitor.py:73-77 | a non-blank output that reads strips to `c,m`, two comma-free fields that both parse as numbers, and the reading is CPU c and memory m/1024 MB: no malformed line degrades to a reading |
| ProcessMetrics.PairReadBack | monitor.py:75-77 | a line that converts is two comma-free numbers joined by one comma, read as CPU and memory/1024 |
| ProcessMetrics.FieldsReadBack | monitor.py:75 | the unpacking succeeds only for exactly two fields that both convert with `float` |
| ProcessMetrics.ReadsExactlyPairs | monitor.py:73-77 | non-blank output reads exactly when it strips to two numbers joined by one comma; every other non-blank output raises `ValueError` |
| ProcessMetrics.NoMatchingProcessRaises | monitor.py:71-76 | the `,` printed when no process matches raises `ValueError` instead of reading as zero |
| Energy.FirstShare | monitor.py:37-56 | the result is the share of the first line that yields one, and 0 when no line does |
| Energy.GetEnergyMetrics | monitor.py:31-59 | a failing `powermetrics` yields 0 |
| Energy.FirstQualifyingLineApportions | monitor.py:37-56 | when the first line that yields a share is a `CPU Power` line of power p, read while the system CPU percentage s is positive and the engine's CPU percentage is c, the result is c/s of p |
| Energy.ApportionProportional | monitor.py:52 | the apportioned power times the system CPU percentage is the engine's CPU percentage times the total, and 0 for an idle engine |
| Energy.PowerLineRead | monitor.py:39-42 | a `CPU Power: <n> mW` line carries the marker, and its power is `float(n)` |
| Energy.FixedPowerLineRead | monitor.py:39-42 | a `CPU Power: <n> mW` line with a fixed-point number n has power n |
| Energy.IdleSystemYieldsZero | monitor.py:44-54 | when the system CPU percentage is never positive no power is apportioned |
| Energy.IdleLineYieldsNothing | monitor.py:45-46 | a line read while the system CPU percentage is not positive contributes nothing |
| Energy.UnmarkedLineSkipped | monitor.py:38-39 | a line without `CPU Power:` contributes nothing and the result is that of the following lines |
| Energy.UnparsedPowerSkipped | monitor.py:40-55 | a marked line whose power does not parse contributes nothing and the result is that of the following lines |
| Energy.EngineErrorSkipsLine | monitor.py:47-55 | a raising engine reading while a line is handled only moves the loop on to the next line |
| Energy.ReadLinesConcat | monitor.py:101 | for a file whose only line break is `\n`, the lines `readlines` yields concatenate back to the whole file |
| Energy.ReadLinesAppend | monitor.py:101 | appending one complete line to a file of complete lines appends it to what `readlines` yields |
| Energy.ReadPowerValue | monitor.py:96-106 | a missing or empty side file reads as 0 |
| Energy.LastAppendedValueIsRead | monitor.py:96-106 | after appending a fixed-point number (digits, optionally a point and more digits) as a line to a file of complete lines, that number is what is read |
| Sampler.CollectSamples | monitor.py:177-196 | one record and one measurement per iteration, each record built from the observation of its own iteration, the accumulator is the sum of the recorded powers, and the loop ends with an exception exactly at the first tick whose reading raises |
| Sampler.AveragePower | monitor.py:200 | with no measurement the average is 0; otherwise average times measurements is the accumulated power |
| Sampler.SaveResults | monitor.py:211-233 | no summary for an empty series; otherwise the sample count and, for CPU, memory and power, the column sum divided by the sample count, each between its column's minimum and maximum |
| Sampler.SteadySeriesSummary | monitor.py:228-233 | a series whose records all read the same is summarised by exactly that reading |
| Sampler.PrintedAverageIsSaved | monitor.py:200 | the printed average power equals the saved power column mean |
| Sampler.Bracket | monitor.py:158-161 | the run opens and closes with the teardown commands (the second through `finally`), with the start between them only when the first teardown did not raise, and it raises exactly when the environment did not come up |
| Sampler.Monitor | monitor.py:158-209 | the commands are those of the bracket; the run raises exactly when the bracket raises or a reading raises; without an exception every tick is sampled, the end power and average are recorded and the summary is `save_results`' one, counting one sample per loop iteration, whose power mean is the printed average |
| Startup.ParseEngine | startup_benchmark.py:27-33 | an engine found by name has that name |
| Startup.EngineTable | startup_benchmark.py:27-33 | every engine is found under its own name and listed once |
| Startup.AnyContains | startup_benchmark.py:46-47 | true exactly when some name contains the substring |
| Startup.IsEngineRunning | startup_benchmark.py:35-47 | colima runs exactly when its status output exists and contains "Running"; any other engine runs exactly when some process name contains its application name, ignoring case |
| Startup.CheckEngineReady | startup_benchmark.py:49-73 | every command issued has two words, the first `podman` for podman-desktop and `docker` otherwise |
| Startup.FirstVerdictDecides | startup_benchmark.py:54-71 | the first poll that decides anything (both commands succeed, or a binary is missing) decides the outcome |
| Startup.NoVerdictTimesOut | startup_benchmark.py:54-73 | when no poll decides anything the check times out |
| Startup.RetryStep | startup_benchmark.py:64-71 | a failing command leaves the outcome to the later polls |
| Startup.FailuresOnlyRetry | startup_benchmark.py:54-71 | when no binary is missing the check never raises, and it is ready exactly when some poll has both commands succeed |
| Startup.StopEngine | startup_benchmark.py:75-89 | at most 30 waits, one per check that still saw the engine running, ending early at the first check that does not |
| Startup.StartEngine | startup_benchmark.py:91-139 | at most three checks, all but the last timed out, one back-off fewer than checks; a time exactly when the last check was ready, none when the launch raised or all three checks timed out |
| Startup.TestEngine | startup_benchmark.py:141-193 | the times are the successful attempts' times in order, so no more than the attempts; per attempt the engine is stopped when it was running, started, and stopped again only after a success; the summary is that of the times, and the result is true exactly when a time was measured |
| Startup.Summarize | startup_benchmark.py:167-182 | no summary without times; otherwise the count, the mean as sum over count, minimum and maximum, with minimum and maximum among the times and bounding them and the mean, and the times in order |
| Startup.ThreeSuccessesSummary | startup_benchmark.py:172-182 | times 4.1, 3.9, 4.3 summarise to average 4.1, minimum 3.9, maximum 4.3, in attempt order |
| Startup.OneSuccessSummary | startup_benchmark.py:148-182 | when only the second of three attempts measures 5.0 the summary counts one time, which is the mean, minimum and maximum |
| Dashboard.EntriesFor | graphics/js/app.js:365-430 | the object built engine by engine has distinct keys, and an engine reads back exactly what it contributed, or undefined when it contributed nothing or is not listed |
| Dashboard.Lookup | graphics/js/app.js:212-215 | an absent key reads as undefined; a present one yields a stored value |
| Dashboard.LookupEntry | graphics/js/app.js:111 | with distinct keys each entry is found under its key |
| Dashboard.LoadStartupData | graphics/js/app.js:346-363 | at most five records, and exactly the records whose files loaded (their order and one record per engine are the next row) |
| Dashboard.StartupRecordsInEngineOrder | graphics/js/app.js:346-363 | record k is the content of the file of some engine, that engine comes strictly after the engine of record k-1 in the engine list (so no engine has two records), and every engine whose file loaded has a record |
| Dashboard.StartupChartData | graphics/js/app.js:19-24 | one bar group per record, in order, with the engine name and the record's minimum, maximum and average |
| Dashboard.ProberBarsOrdered | graphics/js/app.js:19-24 | a bar drawn from a prober summary has minimum ≤ average ≤ maximum, both ends measured times |
| Dashboard.LoadBuildData | graphics/js/app.js:365-396 | an engine is present exactly when one of its build results loaded, holding those results; no engine is present with an empty list |
| Dashboard.FindBuild | graphics/js/app.js:112 | the first build of the test type, or none when no build has it |
| Dashboard.InsertSorted | graphics/js/app.js:93-99 | adding a test type keeps the list strictly sorted and adds exactly that type |
| Dashboard.TestTypes | graphics/js/app.js:92-100 | strictly sorted, hence without duplicates, and holding exactly the test types of all engines' builds |
| Dashboard.TestTypesCanonical | graphics/js/app.js:92-100 | any strictly sorted list of exactly those test types is the one returned |
| Dashboard.StrictlySortedUnique | graphics/js/app.js:99 | two strictly sorted lists with the same elements are equal |
| Dashboard.PointTimes | graphics/js/app.js:111-116 | an engine has an entry exactly when it has a build of the test type, holding the first such build's time |
| Dashboard.PrepareBuildChart | graphics/js/app.js:103-135 | "all" gives one point per test type in sorted order; any other selection gives one point named after it; each point carries exactly the engines with a matching build and the first match's build time |
| Dashboard.EveryTypePointHasBar | graphics/js/app.js:104-119 | in "all" mode no point is empty |
| Dashboard.LoadPerformanceData | graphics/js/app.js:398-430 | an engine is recorded under idle exactly when its idle file loaded with metrics, and under load exactly when its load file did and reading the idle file did not throw |
| Dashboard.GetMetricValue | graphics/js/app.js:211-218 | when the state, the engine and the key are all present the result is the stored value, and when any of them is missing it is 0 |
| Dashboard.LoadedMetricShown | graphics/js/app.js:211-218 | the idle value charted for an engine is the metric its idle file held (0 when absent); the load value is the metric its load file held, and 0 whenever reading the idle file threw |
| Dashboard.PreparePerformanceChart | graphics/js/app.js:209-227 | one bar pair per engine with idle metrics, in order, carrying its idle and load values |
| Dashboard.LoadOnlyEngineHidden | graphics/js/app.js:209 | an engine without idle metrics is not charted |
| Text.Split | monitor.py:75 | at least one piece, no piece holds the separator, and joining the pieces gives the text back |
| Text.SplitJoin | monitor.py:38 | splitting undoes joining pieces free of the separator |
| Text.Strip | monitor.py:73 | the result is empty or starts and ends with a non-space |
| Text.StripIsMiddle | monitor.py:73 | the result is a slice of the text, and everything before and after that slice is whitespace |
| Text.Lower | startup_benchmark.py:46 | same length, with exactly the ASCII capitals lowered |
| Text.LexLessTransitive | graphics/js/app.js:99 | the default sort order is transitive |
| Text.LexLessTotal | graphics/js/app.js:99 | two different strings are ordered one way or the other |
| Decimal.ParseIntToString | monitor.py:122 | reading back the decimal text of an integer gives the integer |
| Decimal.ParseFixed | monitor.py:75 | the text of a whole number, optionally followed by a point and fraction digits d, reads as the whole number plus d over 10 to the number of digits |
| Decimal.ParseReal | monitor.py:42 | text that is blank after stripping does not parse |
| Stats.Mean | monitor.py:230-232 | the mean of a non-empty series lies between its minimum and maximum |
| Stats.MeanBounds | startup_benchmark.py:177 | the sum divided by the count lies between the minimum and maximum |
| Stats.SumBounds | monitor.py:230-232 | a series bounded by lo and hi sums to between count times lo and count times hi |
| Stats.Min | startup_benchmark.py:178 | the minimum is one of the readings and no reading is below it |
| Stats.Max | startup_benchmark.py:179 | the maximum is one of the readings and no reading is above it |
| Stats.SumAppend | monitor.py:185 | appending a reading adds it to the sum |
| Base.Somes | startup_benchmark.py:155-162 | the kept values are exactly the present ones, no more than the entries |
| Base.SomesAppend | startup_benchmark.py:157-158 | a further present entry appends its value and an absent one adds nothing |
| Base.SomesOrigins | graphics/js/app.js:350-359 | each kept value comes from an entry holding it, successive values from strictly later entries, and every present entry contributes |
| Stats.MeanConstant | startup_benchmark.py:177-179 | a series of equal readings has that reading as mean, minimum and maximum |

## Left out

- Subprocess and shell execution, `psutil`, file and network I/O: their
  results are inputs (`CommandOutput`, `EnergyProbe`, `Host`, `Poll`, `Fetch`
  values, the `Installed` set of executables, and functions of an index or a
  name). Other `OSError`s of `subprocess.run` (a permission error, say) are
  not modelled.
- Wall-clock time and sleeps: the warm-up, the 10-second start wait, the
  sampling interval, the readiness poll's 300-second budget and the back-off
  delays. The number of loop iterations and polls they allow is an input (the
  tick and poll sequences); start and end times are an input `elapsed`.
- `start_power_monitoring`: the background `top` sampler writing the side
  file runs concurrently and is never started by `monitor`; only the reading
  side (`read_power_value`) is modelled.
- Floating point: values are exact reals, so rounding in sums, means and
  `/ 1024` is not modelled, nor the `.1f`/`toFixed` formatting.
- Decimal.ParseReal: accepts finite decimal literals with an optional sign
  and exponent; Python's `inf`, `nan`, underscores and non-ASCII digits and
  spaces are not modelled.
- Text.Strip: strips ASCII whitespace only; the other Unicode whitespace
  Python's `str.strip` removes is not modelled.
- Energy.ReadLines: splits at `\n` only; the translation of `\r` and `\r\n`
  line endings that text-mode `readlines` performs is not modelled.
- ProcessMetrics.TotalsRead, Energy.LastAppendedValueIsRead and
  Energy.FixedPowerLineRead: cover fixed-point numbers only; an exponent form
  (as `awk` prints for very large totals) is parsed by `Decimal.ParseReal` but
  no round-trip lemma states it.
- Text.Lower: lowers ASCII letters only; Unicode case mapping is not
  modelled.
- Text.LexLess: orders by character code, which agrees with JavaScript's
  UTF-16 order for characters of the Basic Multilingual Plane only.
- CSV and JSON serialisation, file names, directory creation, timestamps
  and the log file `start_engine` writes (an error while writing it would
  also yield no time; that path is not modelled).
- Sampler.Monitor: which of the run's values were printed is not modelled;
  an exception ends the run after the final teardown, as in the source, and
  the remaining engines of an "all" sweep are not modelled.
- Startup.TestEngine: takes each attempt's `start_engine` result and prior
  liveness as inputs rather than calling `StartEngine` and `StopEngine`;
  the engine name looked up in the summary is `Id(e)`.
- Startup.StartEngine: takes the outcome of each readiness check as input;
  `CheckEngineReady` computes such an outcome from the polls.
- Unknown engine names: argparse restricts them, so the `KeyError` of the
  engine table and an unknown test type (which would leave the launch command
  unbound) are not modelled; engines are a datatype in the prober and test
  types a datatype in the sampler.
- The `main` functions and the "all engines" sweeps.
- Dashboard rendering: React components, Recharts, state hooks, the refresh
  timer, tooltips and colours.
- Dashboard.PrepareBuildChart: an engine named `name` would overwrite the
  point's name in JavaScript; the loaders only produce the five fixed engine
  names, so the collision is not modelled.
- Dashboard JSON values are modelled as reals; non-numeric metrics and build
  times are not modelled.
