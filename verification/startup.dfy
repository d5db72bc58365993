/** The startup prober (startup_benchmark.py): the engine table, the liveness
    and readiness checks, the bounded stop and start loops, the per-engine
    attempt loop and its summary. What the host answers (process names,
    command exit statuses, measured durations) is an input. */
module Startup {
  import opened Base
  import opened Text
  import Stats

  /** An argument vector, as handed to `subprocess.run`. */
  type Argv = seq<string>

  /** The engines the prober knows, in the order of its table. */
  datatype Engine = DockerDesktop | PodmanDesktop | OrbStack | RancherDesktop | Colima

  const Engines: seq<Engine> := [DockerDesktop, PodmanDesktop, OrbStack, RancherDesktop, Colima]

  /** The engine's name on the command line and in result file names. */
  function Id(e: Engine): string
  {
    match e
    case DockerDesktop => "docker-desktop"
    case PodmanDesktop => "podman-desktop"
    case OrbStack => "orbstack"
    case RancherDesktop => "rancher-desktop"
    case Colima => "colima"
  }

  /** The application name of the engine table. */
  function DisplayName(e: Engine): string
  {
    match e
    case DockerDesktop => "Docker Desktop"
    case PodmanDesktop => "Podman Desktop"
    case OrbStack => "OrbStack"
    case RancherDesktop => "Rancher Desktop"
    case Colima => "colima"
  }

  /** Looking an engine up by its command-line name. */
  function ParseEngine(s: string): (r: Option<Engine>)
    ensures r.Some? ==> Id(r.value) == s
  {
    if s == "docker-desktop" then Some(DockerDesktop)
    else if s == "podman-desktop" then Some(PodmanDesktop)
    else if s == "orbstack" then Some(OrbStack)
    else if s == "rancher-desktop" then Some(RancherDesktop)
    else if s == "colima" then Some(Colima)
    else None
  }

  /** Every engine is found under its own name, and the table lists each
      engine once. */
  lemma EngineTable(e: Engine)
    ensures ParseEngine(Id(e)) == Some(e)
    ensures e in Engines
    ensures forall i, j :: 0 <= i < j < |Engines| ==> Engines[i] != Engines[j]
  {
  }

  // ---------------------------------------------------------------------
  // is_engine_running
  // ---------------------------------------------------------------------

  /** What the host shows: the standard output of `colima status` (`None`
      when the binary is missing) and the names of the running processes. */
  datatype Host = Host(colimaStatus: Option<string>, processNames: seq<string>)

  /** Python's `any(sub in name for name in names)`. */
  function AnyContains(names: seq<string>, sub: string): (r: bool)
    ensures r <==> exists k :: 0 <= k < |names| && Contains(names[k], sub)
  {
    if names == [] then false
    else Contains(names[0], sub) || AnyContains(names[1..], sub)
  }

  function LowerAll(names: seq<string>): (r: seq<string>)
    ensures |r| == |names|
    ensures forall k :: 0 <= k < |names| ==> r[k] == Lower(names[k])
  {
    seq(|names|, k requires 0 <= k < |names| => Lower(names[k]))
  }

  /** `is_engine_running`: colima asks its own status, every other engine
      looks for its application name among the process names, ignoring
      case. */
  function IsEngineRunning(e: Engine, host: Host): (r: bool)
    ensures e == Colima ==>
              (r <==> host.colimaStatus.Some? && Contains(host.colimaStatus.value, "Running"))
    ensures e != Colima ==>
              (r <==> exists k :: 0 <= k < |host.processNames|
                                  && Contains(Lower(host.processNames[k]), Lower(DisplayName(e))))
  {
    if e == Colima then
      match host.colimaStatus
      case None => false
      case Some(out) => Contains(out, "Running")
    else
      var names := LowerAll(host.processNames);
      var found := AnyContains(names, Lower(DisplayName(e)));
      assert found ==> exists k :: 0 <= k < |host.processNames|
                                    && Contains(Lower(host.processNames[k]), Lower(DisplayName(e)));
      found
  }

  // ---------------------------------------------------------------------
  // check_engine_ready
  // ---------------------------------------------------------------------

  /** How a command ended: exit status 0, another status
      (`CalledProcessError` under `check=True`), or a missing binary
      (`FileNotFoundError`, which nothing in the poll catches). */
  datatype Exit = Success | Failure | Missing

  /** The two commands of one readiness poll. */
  datatype Poll = Poll(info: Exit, ps: Exit)

  datatype Readiness = Ready | TimedOut | Raised

  /** What one poll decides: ready, try again, or an escaping exception. */
  function PollVerdict(p: Poll): Option<Readiness>
  {
    match p.info
    case Missing => Some(Raised)
    case Failure => None
    case Success =>
      match p.ps
      case Missing => Some(Raised)
      case Failure => None
      case Success => Some(Ready)
  }

  /** The command prefix of the readiness poll. */
  function Cli(e: Engine): string
  {
    if e == PodmanDesktop then "podman" else "docker"
  }

  /** The commands one poll issues: `ps` only after `info` succeeded. */
  function PollCommands(e: Engine, p: Poll): seq<Argv>
  {
    if p.info == Success then [[Cli(e), "info"], [Cli(e), "ps"]] else [[Cli(e), "info"]]
  }

  datatype ReadyCheck = ReadyCheck(outcome: Readiness, issued: seq<Argv>)

  /** `check_engine_ready`, given the polls the timeout leaves room for:
      polling stops at the first poll that decides anything. */
  function CheckEngineReady(e: Engine, polls: seq<Poll>): (r: ReadyCheck)
    ensures forall c :: c in r.issued ==> |c| == 2 && c[0] == Cli(e)
  {
    if polls == [] then ReadyCheck(TimedOut, [])
    else
      var issued := PollCommands(e, polls[0]);
      match PollVerdict(polls[0])
      case Some(v) => ReadyCheck(v, issued)
      case None =>
        var rest := CheckEngineReady(e, polls[1..]);
        ReadyCheck(rest.outcome, issued + rest.issued)
  }

  /** The first poll that decides anything decides the outcome. */
  lemma {:induction false} FirstVerdictDecides(e: Engine, polls: seq<Poll>, k: nat)
    requires k < |polls| && PollVerdict(polls[k]).Some?
    requires forall j :: 0 <= j < k ==> PollVerdict(polls[j]).None?
    ensures CheckEngineReady(e, polls).outcome == PollVerdict(polls[k]).value
  {
    if k > 0 {
      var rest := polls[1..];
      assert forall j :: 0 <= j < k - 1 ==> rest[j] == polls[j + 1];
      FirstVerdictDecides(e, rest, k - 1);
    }
  }

  /** When no poll decides anything, the check times out. */
  lemma {:induction false} NoVerdictTimesOut(e: Engine, polls: seq<Poll>)
    requires forall j :: 0 <= j < |polls| ==> PollVerdict(polls[j]).None?
    ensures CheckEngineReady(e, polls).outcome == TimedOut
  {
    if polls != [] {
      var rest := polls[1..];
      assert forall j :: 0 <= j < |rest| ==> rest[j] == polls[j + 1];
      NoVerdictTimesOut(e, rest);
    }
  }

  /** A failing command only leads to another poll: when no binary is
      missing, the check is ready exactly when some poll has both commands
      succeed, and never raises. */
  lemma {:induction false} FailuresOnlyRetry(e: Engine, polls: seq<Poll>)
    requires forall k :: 0 <= k < |polls| ==>
               polls[k].info != Missing && (polls[k].info == Success ==> polls[k].ps != Missing)
    ensures CheckEngineReady(e, polls).outcome != Raised
    ensures CheckEngineReady(e, polls).outcome == Ready <==>
              exists k :: 0 <= k < |polls| && polls[k].info == Success && polls[k].ps == Success
  {
    if polls != [] {
      var rest := polls[1..];
      FailuresOnlyRetry(e, rest);
      if !(polls[0].info == Success && polls[0].ps == Success) {
        RetryStep(e, polls);
        ReadyPollShift(polls);
      }
    }
  }

  /** A poll that decides nothing leaves the outcome to the later polls. */
  lemma RetryStep(e: Engine, polls: seq<Poll>)
    requires polls != [] && PollVerdict(polls[0]).None?
    ensures CheckEngineReady(e, polls).outcome == CheckEngineReady(e, polls[1..]).outcome
  {
  }

  lemma ReadyPollShift(polls: seq<Poll>)
    requires polls != [] && !(polls[0].info == Success && polls[0].ps == Success)
    ensures (exists k :: 0 <= k < |polls| && polls[k].info == Success && polls[k].ps == Success)
            <==> (exists k :: 0 <= k < |polls[1..]| && polls[1..][k].info == Success && polls[1..][k].ps == Success)
  {
    assert forall k :: 1 <= k < |polls| ==> polls[k] == polls[1..][k - 1];
  }

  // ---------------------------------------------------------------------
  // stop_engine
  // ---------------------------------------------------------------------

  /** How many one-second waits `stop_engine` allows at most. */
  const StopWaits := 30

  /** The stop command: `colima stop`, or asking the application to quit. */
  function StopCommand(e: Engine): Argv
  {
    if e == Colima then ["colima", "stop"]
    else ["osascript", "-e", "quit app \"" + DisplayName(e) + "\""]
  }

  /** `stop_engine`, given what `is_engine_running` answers at each check:
      it waits while the engine still runs, at most 30 times, and never
      fails when the engine outlives the budget. */
  method StopEngine(e: Engine, runningAt: nat -> bool) returns (command: Argv, waits: nat)
    ensures command == StopCommand(e)
    ensures waits <= StopWaits
    ensures forall k :: 0 <= k < waits ==> runningAt(k)
    ensures waits < StopWaits ==> !runningAt(waits)
  {
    command := StopCommand(e);
    var timeout := StopWaits;
    waits := 0;
    while timeout > 0 && runningAt(waits)
      invariant 0 <= timeout <= StopWaits
      invariant waits == StopWaits - timeout
      invariant forall k :: 0 <= k < waits ==> runningAt(k)
    {
      waits := waits + 1;
      timeout := timeout - 1;
    }
  }

  // ---------------------------------------------------------------------
  // start_engine
  // ---------------------------------------------------------------------

  /** How many readiness checks `start_engine` makes at most. */
  const Retries := 3

  /** The start command: `colima start`, or opening the application. */
  function StartCommand(e: Engine): Argv
  {
    if e == Colima then ["colima", "start"] else ["open", "-a", DisplayName(e)]
  }

  datatype StartResult = StartResult(launch: Argv, time: Option<real>, checks: nat, backoffs: nat)

  /** `start_engine`, given whether the launch command itself raised, the
      outcome of each readiness check (`CheckEngineReady` over that check's
      polls) and the elapsed time it would measure:
      at most three checks, stopping at the first ready one, with a back-off
      between checks and none after the last; the time is reported exactly
      when a check found the engine ready, and any exception yields none. */
  method StartEngine(e: Engine, launchRaises: bool, outcomes: nat -> Readiness, elapsed: real)
    returns (r: StartResult)
    ensures r.launch == StartCommand(e)
    ensures launchRaises ==> r.time.None? && r.checks == 0 && r.backoffs == 0
    ensures !launchRaises ==> 1 <= r.checks <= Retries && r.backoffs == r.checks - 1
    ensures forall i :: 0 <= i < r.checks - 1 ==> outcomes(i) == TimedOut
    ensures r.time.Some? <==>
              !launchRaises && outcomes(r.checks - 1) == Ready
    ensures r.time.Some? ==> r.time.value == elapsed
    ensures (forall i :: 0 <= i < Retries ==> outcomes(i) == TimedOut) ==> r.time.None?
    ensures !launchRaises && r.time.None? && r.checks < Retries ==>
              outcomes(r.checks - 1) == Raised
  {
    var launch := StartCommand(e);
    if launchRaises {
      return StartResult(launch, None, 0, 0);
    }
    var attempt := 0;
    var backoffs := 0;
    while true
      invariant 0 <= attempt < Retries
      invariant backoffs == attempt
      invariant forall i :: 0 <= i < attempt ==> outcomes(i) == TimedOut
      decreases Retries - attempt
    {
      match outcomes(attempt) {
        case Ready =>
          return StartResult(launch, Some(elapsed), attempt + 1, backoffs);
        case Raised =>
          return StartResult(launch, None, attempt + 1, backoffs);
        case TimedOut =>
          if attempt == Retries - 1 {
            return StartResult(launch, None, attempt + 1, backoffs);
          }
          backoffs := backoffs + 1;
      }
      attempt := attempt + 1;
    }
  }

  // ---------------------------------------------------------------------
  // test_engine
  // ---------------------------------------------------------------------

  /** One attempt of `test_engine`: whether the engine was already running
      when it began, and what `start_engine` returned. */
  datatype Attempt = Attempt(runningBefore: bool, result: Option<real>)

  function Results(attempts: seq<Attempt>): (rs: seq<Option<real>>)
    ensures |rs| == |attempts|
    ensures forall k :: 0 <= k < |attempts| ==> rs[k] == attempts[k].result
  {
    seq(|attempts|, k requires 0 <= k < |attempts| => attempts[k].result)
  }

  /** How many attempts `range(1, repeat_count + 1)` makes. */
  function Iterations(repeatCount: int): nat
  {
    if repeatCount > 0 then repeatCount else 0
  }

  /** What the loop does to the engine, in order. */
  datatype Action = Stop | Start

  /** The summary `test_engine` writes. */
  datatype StartupSummary = StartupSummary(
    engine: string,
    repeatCount: nat,
    average: real,
    min: real,
    max: real,
    allTimes: seq<real>)

  /** No summary without a successful measurement; otherwise the count,
      mean, smallest and largest of the measured times, and the times
      themselves in order. */
  function Summarize(engine: string, times: seq<real>): (r: Option<StartupSummary>)
    ensures r.None? <==> times == []
    ensures r.Some? ==>
              r.value.engine == engine && r.value.repeatCount == |times| && r.value.allTimes == times
              && r.value.min in times && r.value.max in times
              && (forall k :: 0 <= k < |times| ==> r.value.min <= times[k] <= r.value.max)
              && r.value.average == Stats.Sum(times) / |times| as real
              && r.value.min <= r.value.average <= r.value.max
  {
    if times == [] then None
    else Some(StartupSummary(engine, |times|, Stats.Mean(times), Stats.Min(times), Stats.Max(times), times))
  }

  /** `test_engine`: every attempt stops a running engine first and then
      starts it; only a successful start is timed and followed by a stop (a
      failed one skips it); the result is whether any time was measured,
      with the summary of the measured times. */
  method TestEngine(e: Engine, repeatCount: int, attempts: seq<Attempt>)
    returns (passed: bool, times: seq<real>, actions: seq<Action>, summary: Option<StartupSummary>)
    requires |attempts| == Iterations(repeatCount)
    ensures times == Somes(Results(attempts))
    ensures |times| <= Iterations(repeatCount)
    ensures actions == ActionsOf(attempts)
    ensures summary == Summarize(Id(e), times)
    ensures passed <==> times != []
  {
    times := [];
    actions := [];
    var i := 0;
    while i < |attempts|
      invariant i <= |attempts|
      invariant times == Somes(Results(attempts[..i]))
      invariant actions == ActionsOf(attempts[..i])
    {
      var a := attempts[i];
      AppendAttempt(attempts, i);
      match a.result {
        case Some(t) =>
          times := times + [t];
        case None =>
      }
      actions := actions + AttemptActions(a);
      i := i + 1;
    }
    assert attempts[..|attempts|] == attempts;
    summary := Summarize(Id(e), times);
    passed := summary.Some?;
  }

  /** What one attempt does to the engine: stop it if it was running,
      start it, and stop it again only after a successful start. */
  function AttemptActions(a: Attempt): seq<Action>
  {
    (if a.runningBefore then [Stop] else []) + [Start] + (if a.result.Some? then [Stop] else [])
  }

  function ActionsOf(attempts: seq<Attempt>): seq<Action>
  {
    if attempts == [] then []
    else ActionsOf(attempts[..|attempts| - 1]) + AttemptActions(attempts[|attempts| - 1])
  }

  lemma AppendAttempt(attempts: seq<Attempt>, i: nat)
    requires i < |attempts|
    ensures Somes(Results(attempts[..i + 1]))
            == Somes(Results(attempts[..i])) + (if attempts[i].result.Some? then [attempts[i].result.value] else [])
    ensures ActionsOf(attempts[..i + 1]) == ActionsOf(attempts[..i]) + AttemptActions(attempts[i])
  {
    assert attempts[..i + 1][..i] == attempts[..i];
    assert Results(attempts[..i + 1]) == Results(attempts[..i]) + [attempts[i].result];
    SomesAppend(Results(attempts[..i]), attempts[i].result);
  }

  /** Three successful attempts measuring 4.1, 3.9 and 4.3 seconds average
      4.1, range from 3.9 to 4.3, and keep the attempt order. */
  lemma ThreeSuccessesSummary()
    ensures var s := Summarize("docker-desktop", Somes([Some(4.1), Some(3.9), Some(4.3)]));
      s.Some? && s.value.repeatCount == 3 && s.value.average == 4.1
      && s.value.min == 3.9 && s.value.max == 4.3 && s.value.allTimes == [4.1, 3.9, 4.3]
  {
    assert Somes([Some(4.1), Some(3.9), Some(4.3)]) == [4.1, 3.9, 4.3] by {
      SomesOfThree();
    }
    SummaryOfThree();
  }

  lemma SomesOfThree()
    ensures Somes([Some(4.1), Some(3.9), Some(4.3)]) == [4.1, 3.9, 4.3]
  {
    var results := [Some(4.1), Some(3.9), Some(4.3)];
    assert results[1..] == [Some(3.9), Some(4.3)] && results[1..][1..] == [Some(4.3)];
  }

  lemma SummaryOfThree()
    ensures Summarize("docker-desktop", [4.1, 3.9, 4.3])
            == Some(StartupSummary("docker-desktop", 3, 4.1, 3.9, 4.3, [4.1, 3.9, 4.3]))
  {
    var times := [4.1, 3.9, 4.3];
    var tail := [3.9, 4.3];
    assert times[1..] == tail && tail[1..] == [4.3];
    assert Stats.Mean(times) == 4.1 by {
      assert Stats.Sum(times) == 12.3;
    }
    assert Stats.Min(times) == 3.9 by {
      assert Stats.Min(tail) == 3.9;
    }
    assert Stats.Max(times) == 4.3 by {
      assert Stats.Max(tail) == 4.3;
    }
  }

  /** Of three attempts only the second, measuring 5.0 seconds, succeeds:
      the summary counts one time, which is its mean, minimum and maximum. */
  lemma OneSuccessSummary()
    ensures var s := Summarize("docker-desktop", Somes([None, Some(5.0), None]));
      s.Some? && s.value.repeatCount == 1 && s.value.average == 5.0
      && s.value.min == 5.0 && s.value.max == 5.0
  {
    assert Somes([None, Some(5.0), None]) == [5.0];
  }
}
