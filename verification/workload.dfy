/** The test workload of the resource sampler (monitor.py): which commands
    `start_test_environment` and `stop_test_environment` issue for an engine
    and a test type. The commands are modelled as argument vectors; running
    them is left to the caller, whose outcome is an input. */
module Workload {
  import Base
  import Decimal

  /** An argument vector, as handed to `subprocess.run`. */
  type Command = seq<string>

  datatype TestType = Idle | Load

  const PodmanDesktop := "podman-desktop"
  const Colima := "colima"

  /** Name of the stress container the docker-side start and every teardown use. */
  const StressName := "stress-test"
  /** Name of the stress container the podman start creates. */
  const PodmanStressName := "stress-test-podman"

  /** `<tool> run -d --name <name> alexeiled/stress-ng ... --timeout "<duration>s"`:
      four CPU workers, two 1G memory workers, for `duration` seconds. */
  function StressRun(tool: string, name: string, duration: int): Command
  {
    [tool, "run", "-d", "--name", name, "alexeiled/stress-ng", "--cpu", "4", "--vm", "2",
     "--vm-bytes", "1G", "--timeout", Decimal.IntToString(duration) + "s"]
  }

  /** The workload launch command. For `Idle` the first `if` of the source
      picks podman compose for podman-desktop, but the following `if/else`
      assigns in both branches and so overwrites it: only colima differs. */
  function LaunchCommand(engine: string, test: TestType, duration: int): Command
  {
    match test
    case Idle =>
      if engine == Colima then ["docker-compose", "up", "-d"] else ["docker", "compose", "up", "-d"]
    case Load =>
      if engine == PodmanDesktop then StressRun("podman", PodmanStressName, duration)
      else StressRun("docker", StressName, duration)
  }

  /** The forced removal issued before a load launch (its failure is ignored). */
  function RemoveCommand(engine: string): Command
  {
    if engine == PodmanDesktop then ["podman", "rm", "-f", PodmanStressName]
    else ["docker", "rm", "-f", StressName]
  }

  /** The diagnostic command whose output is printed when the launch fails. */
  const DockerLogs: Command := ["docker", "logs", StressName]

  /** Which executables `subprocess.run` finds. Running a command whose
      executable is missing raises `FileNotFoundError`; the sampler's
      handlers catch only `CalledProcessError`, so that exception always
      propagates. */
  type Installed = string -> bool

  /** The command's executable is found, so it runs and exits with some
      status. */
  predicate Runs(installed: Installed, cmd: Command)
  {
    cmd != [] && installed(cmd[0])
  }

  /** The commands a step issued, in order (a command whose executable is
      missing counts: it is the one that raised), and whether it raised. */
  datatype Trace = Trace(issued: seq<Command>, raised: bool)

  /** The test environment came up: the forced removal (for load) and the
      launch found their executables, and the launch exited with status 0. */
  predicate Started(engine: string, test: TestType, duration: int, installed: Installed, launchOk: bool)
  {
    (test == Idle || Runs(installed, RemoveCommand(engine)))
    && Runs(installed, LaunchCommand(engine, test, duration)) && launchOk
  }

  /** The docker logs of the stress container are fetched: the launch ran
      and exited with a failure, and the engine is not podman-desktop. */
  predicate LogsFetched(engine: string, test: TestType, duration: int, installed: Installed, launchOk: bool)
  {
    (test == Idle || Runs(installed, RemoveCommand(engine)))
    && Runs(installed, LaunchCommand(engine, test, duration)) && !launchOk && engine != PodmanDesktop
  }

  /** `start_test_environment`, given which executables exist and whether
      the launch exits with status 0. A failed launch prints the docker logs
      of the stress container for every engine but podman-desktop (whatever
      the test type), then re-raises; a missing executable raises at once. */
  function StartEnvironment(engine: string, test: TestType, duration: int, installed: Installed, launchOk: bool): (t: Trace)
    ensures t.raised <==> !Started(engine, test, duration, installed, launchOk)
    ensures |t.issued| >= 1
    ensures test == Idle ==> t.issued[0] == LaunchCommand(engine, test, duration)
    ensures test == Load ==> t.issued[0] == RemoveCommand(engine)
    ensures test == Load && Runs(installed, RemoveCommand(engine)) ==>
              |t.issued| >= 2 && t.issued[1] == LaunchCommand(engine, test, duration)
    ensures test == Load && !Runs(installed, RemoveCommand(engine)) ==> t.issued == [RemoveCommand(engine)]
    ensures |t.issued| == (if test == Load && Runs(installed, RemoveCommand(engine)) then 2 else 1)
                          + (if LogsFetched(engine, test, duration, installed, launchOk) then 1 else 0)
    ensures t.issued[|t.issued| - 1] == DockerLogs <==> LogsFetched(engine, test, duration, installed, launchOk)
    ensures DockerLogs in t.issued <==> LogsFetched(engine, test, duration, installed, launchOk)
  {
    var launch := LaunchCommand(engine, test, duration);
    if test == Load && !Runs(installed, RemoveCommand(engine)) then
      Trace([RemoveCommand(engine)], true)
    else
      var prelude := if test == Load then [RemoveCommand(engine)] else [];
      if !Runs(installed, launch) then
        Trace(prelude + [launch], true)
      else
        var diagnostics := if !launchOk && engine != PodmanDesktop then [DockerLogs] else [];
        Trace(prelude + [launch] + diagnostics, !launchOk)
  }

  /** With every executable present the launch status alone decides: the
      start raises exactly when the launch fails, and the logs are fetched
      exactly when it fails on an engine other than podman-desktop. */
  lemma AllInstalledStart(engine: string, test: TestType, duration: int, installed: Installed, launchOk: bool)
    requires forall x :: installed(x)
    ensures var t := StartEnvironment(engine, test, duration, installed, launchOk);
      (t.raised <==> !launchOk)
      && (DockerLogs in t.issued <==> !launchOk && engine != PodmanDesktop)
      && |t.issued| == (if test == Load then 2 else 1) + (if !launchOk && engine != PodmanDesktop then 1 else 0)
  {
  }

  /** colima's idle launch without a standalone `docker-compose` raises at
      once: no logs are fetched, whatever else is installed. */
  lemma MissingComposeSkipsLogs(duration: int, installed: Installed, launchOk: bool)
    requires !installed("docker-compose")
    ensures var t := StartEnvironment(Colima, Idle, duration, installed, launchOk);
      t.raised && t.issued == [["docker-compose", "up", "-d"]] && DockerLogs !in t.issued
  {
  }

  /** The executable of every teardown command. */
  function StopTool(engine: string): string
  {
    if engine == PodmanDesktop then "podman" else "docker"
  }

  /** The teardown commands of `stop_test_environment`: compose down for
      idle, stop and rm of `stress-test` for load, all run by the engine's
      stop tool. */
  function StopCommands(engine: string, test: TestType): (cmds: seq<Command>)
    ensures |cmds| == (if test == Idle then 1 else 2)
    ensures forall k :: 0 <= k < |cmds| ==> |cmds[k]| >= 2 && cmds[k][0] == StopTool(engine)
  {
    var tool := StopTool(engine);
    match test
    case Idle => [[tool, "compose", "down", "-v"]]
    case Load => [[tool, "stop", StressName], [tool, "rm", StressName]]
  }

  /** `stop_test_environment`: exit statuses are not checked, but a missing
      stop tool raises at the first command. */
  function Teardown(engine: string, test: TestType, installed: Installed): (t: Trace)
    ensures t.raised <==> !installed(StopTool(engine))
    ensures !t.raised ==> t.issued == StopCommands(engine, test)
    ensures t.raised ==> t.issued == [StopCommands(engine, test)[0]]
  {
    var stop := StopCommands(engine, test);
    if Runs(installed, stop[0]) then Trace(stop, false) else Trace([stop[0]], true)
  }

  // ---------------------------------------------------------------------
  // Does the teardown undo what the start created?
  // ---------------------------------------------------------------------

  /** The argument following `--name` in a command, if any. */
  function NamedContainer(cmd: Command): (r: string)
    ensures r != "" ==> exists i :: 0 <= i < |cmd| - 1 && cmd[i] == "--name" && cmd[i + 1] == r
  {
    if |cmd| < 2 then "" else if cmd[0] == "--name" then cmd[1] else NamedContainer(cmd[1..])
  }

  /** The first `--name` flag decides the container name. */
  lemma {:induction false} NamedContainerAt(cmd: Command, i: nat)
    requires i + 1 < |cmd| && cmd[i] == "--name"
    requires forall j :: 0 <= j < i ==> cmd[j] != "--name"
    ensures NamedContainer(cmd) == cmd[i + 1]
  {
    if i > 0 {
      NamedContainerAt(cmd[1..], i - 1);
    }
  }

  /** The compose invocation (`docker compose`, `docker-compose`, ...) of an
      `up`/`down` command: everything before its last two words. */
  function ComposeTool(cmd: Command): Command
  {
    if |cmd| < 2 then cmd else cmd[..|cmd| - 2]
  }

  /** The teardown addresses what the start brought up: the same compose
      invocation for idle, and for load the container the launch named is
      the one both teardown commands stop and remove. */
  predicate TeardownMatchesStart(engine: string, test: TestType, duration: int)
  {
    var start := LaunchCommand(engine, test, duration);
    var stop := StopCommands(engine, test);
    match test
    case Idle => ComposeTool(stop[0]) == ComposeTool(start)
    case Load =>
      forall c :: c in stop ==> c[|c| - 1] == NamedContainer(start)
  }

  /** Only docker-side engines get a teardown that matches their start:
      podman-desktop never does (idle starts with docker compose, load
      starts `stress-test-podman` but stops `stress-test`), and colima's idle
      start uses the standalone `docker-compose` while its teardown uses
      `docker compose`. */
  lemma TeardownMatchesExactly(engine: string, test: TestType, duration: int)
    ensures TeardownMatchesStart(engine, test, duration)
      <==> engine != PodmanDesktop && (test == Load || engine != Colima)
  {
    match test
    case Idle => IdleTeardownMatches(engine, duration);
    case Load => LoadTeardownMatches(engine, duration);
  }

  lemma IdleTeardownMatches(engine: string, duration: int)
    ensures TeardownMatchesStart(engine, Idle, duration)
      <==> engine != PodmanDesktop && engine != Colima
  {
    var start := LaunchCommand(engine, Idle, duration);
    var stop := StopCommands(engine, Idle);
    if engine == Colima {
      assert ComposeTool(start) == ["docker-compose"];
      assert ComposeTool(stop[0]) == ["docker", "compose"];
    } else if engine == PodmanDesktop {
      assert ComposeTool(start) == ["docker", "compose"];
      assert ComposeTool(stop[0]) == ["podman", "compose"];
    } else {
      assert ComposeTool(start) == ["docker", "compose"] == ComposeTool(stop[0]);
    }
  }

  lemma LoadTeardownMatches(engine: string, duration: int)
    ensures TeardownMatchesStart(engine, Load, duration) <==> engine != PodmanDesktop
  {
    var stop := StopCommands(engine, Load);
    LaunchedName(engine, duration);
    if engine == PodmanDesktop {
      assert stop[0] in stop && stop[0][2] == StressName != PodmanStressName;
    }
  }

  /** The name a load launch gives its container. */
  lemma LaunchedName(engine: string, duration: int)
    ensures NamedContainer(LaunchCommand(engine, Load, duration))
            == if engine == PodmanDesktop then PodmanStressName else StressName
  {
    var tool := if engine == PodmanDesktop then "podman" else "docker";
    var name := if engine == PodmanDesktop then PodmanStressName else StressName;
    StressRunName(tool, name, duration);
  }

  lemma StressRunName(tool: string, name: string, duration: int)
    requires tool != "--name"
    ensures NamedContainer(StressRun(tool, name, duration)) == name
  {
    var c := StressRun(tool, name, duration);
    assert c[0] != "--name" && c[1] != "--name" && c[2] != "--name";
    assert c[3] == "--name";
    NamedContainerAt(c, 3);
  }

  /** The idle start for podman-desktop is docker's, not podman's. */
  lemma PodmanIdleStartsWithDocker(duration: int)
    ensures LaunchCommand(PodmanDesktop, Idle, duration) == ["docker", "compose", "up", "-d"]
    ensures StopCommands(PodmanDesktop, Idle) == [["podman", "compose", "down", "-v"]]
  {
  }

  /** The forced removal before a load launch always targets the container
      that launch is about to create. */
  lemma RemoveTargetsLaunched(engine: string, duration: int)
    ensures var rm := RemoveCommand(engine);
      rm[|rm| - 1] == NamedContainer(LaunchCommand(engine, Load, duration))
  {
    LaunchedName(engine, duration);
  }

  /** The stress workload's lifetime is the experiment duration: the value
      after `--timeout` reads back as `duration` seconds. */
  lemma LoadLifetimeIsDuration(engine: string, duration: int)
    ensures var c := LaunchCommand(engine, Load, duration);
      && |c| == 14 && c[12] == "--timeout"
      && var arg := c[13];
      && |arg| >= 2 && arg[|arg| - 1] == 's'
      && Decimal.ParseReal(arg[..|arg| - 1]) == Base.Some(duration as real)
  {
    var c := LaunchCommand(engine, Load, duration);
    assert |c| == 14 && c[12] == "--timeout" && c[13] == Decimal.IntToString(duration) + "s";
    TimeoutSeconds(duration);
  }

  /** The `<duration>s` argument ends in the unit and its number reads back
      as the duration. */
  lemma TimeoutSeconds(duration: int)
    ensures var arg := Decimal.IntToString(duration) + "s";
      && |arg| >= 2 && arg[|arg| - 1] == 's'
      && Decimal.ParseReal(arg[..|arg| - 1]) == Base.Some(duration as real)
  {
    var digits := Decimal.IntToString(duration);
    var arg := digits + "s";
    assert arg[..|arg| - 1] == digits;
    Decimal.ParseIntToString(duration);
  }
}
