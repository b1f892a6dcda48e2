/** The test runner's bookkeeping: the bounded retry loop around one test
    command, the pass/fail report, the reading of the command line and the
    process exit code. Each test command's outcome on each attempt is a
    parameter; starting servers, sleeping and the interactive prompt are not
    modelled. */
module RunTests {
  import opened Wrappers
  import opened Strings
  import Decimal
  import Rounding

  const MaxRetries: nat := 3
  const RetryDelayMs: nat := 3000
  const TestTimeoutMs: nat := 120000

  /** The suites run when no specific test is named, in this order. */
  const DefaultPatterns: seq<string> := [
    "tests/api.spec.js",
    "tests/websocket.spec.js",
    "tests/ui.spec.js",
    "tests/location.spec.js",
    "tests/stability.spec.js"
  ]

  /** The command line of one attempt. */
  function TestCommand(pattern: string, uiMode: bool): (c: string)
    ensures StartsWith(c, "npx playwright test " + pattern)
    ensures EndsWith(c, " --timeout=" + Decimal.NatToString(TestTimeoutMs))
    ensures |c| == |"npx playwright test " + pattern| + (if uiMode then 5 else 0)
                   + |" --timeout=" + Decimal.NatToString(TestTimeoutMs)|
    ensures uiMode ==> c[|"npx playwright test " + pattern|..|"npx playwright test " + pattern| + 5] == " --ui"
  {
    var head := "npx playwright test " + pattern;
    var tail := " --timeout=" + Decimal.NatToString(TestTimeoutMs);
    var c := head + (if uiMode then " --ui" else "") + tail;
    assert c[..|head|] == head;
    assert uiMode ==> c[|head|..|head| + 5] == " --ui";
    assert c[|c| - |tail|..] == tail;
    c
  }

  /** What the retry loop does, in order. */
  datatype Step = Attempt(number: nat, command: string) | Delay(ms: nat)

  /** Attempts of `command` numbered from one, with a delay between
      consecutive attempts. */
  predicate Alternates(trace: seq<Step>, command: string) {
    forall i :: 0 <= i < |trace| ==>
      trace[i] == (if i % 2 == 0 then Attempt(i / 2 + 1, command) else Delay(RetryDelayMs))
  }

  /** `runTestsWithRetry`: runs the suite's command until it passes, at most
      `MaxRetries` times; `outcomes[i]` is whether attempt `i + 1` would pass. */
  method RunTestsWithRetry(pattern: string, uiMode: bool, outcomes: seq<bool>)
    returns (success: bool, attempts: nat, trace: seq<Step>)
    requires |outcomes| == MaxRetries
    ensures 1 <= attempts <= MaxRetries
    ensures success <==> exists i :: 0 <= i < MaxRetries && outcomes[i]
    ensures success ==> outcomes[attempts - 1]
    ensures forall i :: 0 <= i < attempts - 1 ==> !outcomes[i]
    ensures !success ==> attempts == MaxRetries
    ensures |trace| == 2 * attempts - 1 && Alternates(trace, TestCommand(pattern, uiMode))
  {
    var command := TestCommand(pattern, uiMode);
    success := false;
    attempts := 0;
    trace := [];
    while !success && attempts < MaxRetries
      invariant 0 <= attempts <= MaxRetries
      invariant success ==> attempts >= 1 && outcomes[attempts - 1]
      invariant !success && attempts >= 1 ==> !outcomes[attempts - 1]
      invariant forall i :: 0 <= i < attempts - 1 ==> !outcomes[i]
      invariant Alternates(trace, command)
      invariant |trace| == if attempts == 0 then 0
                           else if success || attempts == MaxRetries then 2 * attempts - 1
                           else 2 * attempts
      decreases MaxRetries - attempts
    {
      attempts := attempts + 1;
      trace := trace + [Attempt(attempts, command)];
      if outcomes[attempts - 1] {
        success := true;
      } else if attempts < MaxRetries {
        trace := trace + [Delay(RetryDelayMs)];
      }
    }
  }

  /** Whether a suite passes on one of its attempts. */
  predicate EventuallyPasses(outcomes: seq<bool>) {
    exists i :: 0 <= i < |outcomes| && outcomes[i]
  }

  /** The number of passing entries. */
  function CountPassed(results: seq<(string, bool)>): (n: nat)
    ensures n <= |results|
    decreases |results|
  {
    if |results| == 0 then 0
    else CountPassed(results[..|results| - 1]) + (if results[|results| - 1].1 then 1 else 0)
  }

  /** Every entry passed exactly when the passing count is the total. */
  lemma {:induction false} AllPassedIff(results: seq<(string, bool)>)
    ensures CountPassed(results) == |results| <==> forall i :: 0 <= i < |results| ==> results[i].1
    decreases |results|
  {
    if |results| > 0 {
      var prefix := results[..|results| - 1];
      AllPassedIff(prefix);
      assert forall i :: 0 <= i < |prefix| ==> prefix[i] == results[i];
    }
  }

  /** The summary `generateReport` prints; the pass rate is `NaN` (here `None`)
      when there are no entries, since it divides by the total. */
  datatype Report = Report(total: nat, passed: nat, failed: int, passRate: Option<int>)

  /** `generateReport`: tallies the entries in order. */
  method GenerateReport(results: seq<(string, bool)>) returns (r: Report)
    ensures r.total == |results|
    ensures r.passed == CountPassed(results)
    ensures r.failed == r.total - r.passed && r.failed >= 0
    ensures r.passRate.None? <==> r.total == 0
    ensures r.passRate.Some? ==> 0 <= r.passRate.value <= 100
    ensures r.total > 0 && r.passed == r.total ==> r.passRate == Some(100)
    ensures r.total > 0 && r.passed == 0 ==> r.passRate == Some(0)
    ensures r.total > 0 ==> r.passRate == Some(Rounding.Percent(r.passed as real, r.total as real))
  {
    var total := 0;
    var passed := 0;
    var i := 0;
    while i < |results|
      invariant 0 <= i <= |results|
      invariant total == i
      invariant passed == CountPassed(results[..i])
    {
      assert results[..i + 1][..i] == results[..i];
      total := total + 1;
      if results[i].1 {
        passed := passed + 1;
      }
      i := i + 1;
    }
    assert results[..i] == results;
    var rate := if total == 0 then None else Some(Rounding.Percent(passed as real, total as real));
    r := Report(total, passed, total - passed, rate);
  }

  /** `options`: every `--` argument with its two dashes removed, in order. */
  function Options(args: seq<string>): (opts: seq<string>)
    ensures |opts| <= |args|
    ensures forall o :: o in opts ==> exists a :: a in args && StartsWith(a, "--") && a[2..] == o
    ensures forall a :: a in args && StartsWith(a, "--") ==> a[2..] in opts
    decreases |args|
  {
    if |args| == 0 then []
    else
      var rest := Options(args[1..]);
      assert forall a :: a in args[1..] ==> a in args;
      assert forall a :: a in args ==> a == args[0] || a in args[1..];
      if StartsWith(args[0], "--") then [args[0][2..]] + rest else rest
  }

  /** Options keep the order and multiplicity of the arguments: appending an
      argument appends its option, if it is one. */
  lemma {:induction false} OptionsAppend(args: seq<string>, a: string)
    ensures Options(args + [a]) == Options(args) + (if StartsWith(a, "--") then [a[2..]] else [])
    decreases |args|
  {
    if |args| == 0 {
      assert args + [a] == [a];
      assert [a][1..] == [];
    } else {
      assert (args + [a])[0] == args[0];
      assert (args + [a])[1..] == args[1..] + [a];
      OptionsAppend(args[1..], a);
    }
  }

  /** `specificTests`: the first argument that is not an option. */
  function SpecificTests(args: seq<string>): (r: Option<string>)
    ensures r.None? <==> forall a :: a in args ==> StartsWith(a, "--")
    ensures r.Some? ==> exists i :: 0 <= i < |args| && args[i] == r.value && !StartsWith(args[i], "--")
                          && forall j :: 0 <= j < i ==> StartsWith(args[j], "--")
    decreases |args|
  {
    if |args| == 0 then None
    else if !StartsWith(args[0], "--") then Some(args[0])
    else
      var r := SpecificTests(args[1..]);
      assert forall a :: a in args ==> a == args[0] || a in args[1..];
      if r.Some? then
        var i :| 0 <= i < |args[1..]| && args[1..][i] == r.value && !StartsWith(args[1..][i], "--")
                 && forall j :: 0 <= j < i ==> StartsWith(args[1..][j], "--");
        assert args[i + 1] == r.value;
        assert forall j :: 1 <= j < i + 1 ==> args[j] == args[1..][j - 1];
        r
      else r
  }

  predicate UiMode(args: seq<string>) {
    "--ui-mode" in args || "--ui" in args
  }

  predicate Interactive(args: seq<string>) {
    "--interactive" in args
  }

  /** Which branch of the main routine runs. */
  datatype Mode = Specific(pattern: string) | UiOnly | AllDefault

  /** `if (specificTests)`: a suite is named when there is a first
      non-option argument and it is not the empty string. */
  predicate Named(args: seq<string>) {
    SpecificTests(args).Some? && SpecificTests(args).value != ""
  }

  function ModeOf(args: seq<string>): (m: Mode)
    ensures m.Specific? <==> Named(args)
    ensures m.Specific? ==> m.pattern == SpecificTests(args).value && m.pattern != ""
    ensures m.UiOnly? <==> !Named(args) && UiMode(args)
    ensures m.AllDefault? <==> !Named(args) && !UiMode(args)
  {
    if Named(args) then Specific(SpecificTests(args).value)
    else if UiMode(args) then UiOnly
    else AllDefault
  }

  /** An empty first argument is falsy, so it names no suite: alone it runs
      the default suites, and beside a UI flag it starts the UI. */
  lemma EmptyArgumentNamesNoSuite()
    ensures ModeOf([""]) == AllDefault
    ensures ModeOf(["--ui", ""]) == UiOnly
  {
    assert SpecificTests([""]) == Some("");
    assert SpecificTests(["--ui", ""]) == Some("");
  }

  /** The suites whose results are recorded, in the order they run. The
      interactive UI branch records none. */
  function Planned(m: Mode): seq<string> {
    match m
    case Specific(p) => [p]
    case UiOnly => []
    case AllDefault => DefaultPatterns
  }

  /** Whether the recorded suites run with ` --ui`: only a named suite takes
      the flag; the default suites never do. */
  function PlannedUi(args: seq<string>): bool {
    ModeOf(args).Specific? && UiMode(args)
  }

  /** The process exit code: 0 exactly when every recorded suite passed, which
      holds vacuously when none was recorded. */
  function ExitCode(results: seq<(string, bool)>): (code: int)
    ensures code == 0 || code == 1
    ensures code == 0 <==> forall i :: 0 <= i < |results| ==> results[i].1
  {
    AllPassedIff(results);
    if CountPassed(results) == |results| then 0 else 1
  }

  /** What a run leaves behind: the recorded results, the report (printed only
      after the default suites) and the exit code (none in interactive mode). */
  datatype Run = Run(results: seq<(string, bool)>, report: Option<Report>, exitCode: Option<int>)

  /** The main routine after the servers are up: `outcomes[k]` gives the
      attempt outcomes of the `k`-th planned suite. */
  method RunAll(args: seq<string>, outcomes: seq<seq<bool>>) returns (run: Run)
    requires |outcomes| == |Planned(ModeOf(args))|
    requires forall k :: 0 <= k < |outcomes| ==> |outcomes[k]| == MaxRetries
    ensures |run.results| == |Planned(ModeOf(args))|
    ensures forall k :: 0 <= k < |run.results| ==>
              run.results[k].0 == Planned(ModeOf(args))[k] && (run.results[k].1 <==> EventuallyPasses(outcomes[k]))
    ensures run.report.Some? <==> ModeOf(args).AllDefault?
    ensures run.exitCode.None? <==> Interactive(args)
    ensures run.exitCode == Some(0) <==>
              !Interactive(args) && forall k :: 0 <= k < |outcomes| ==> EventuallyPasses(outcomes[k])
    ensures run.exitCode.Some? ==> run.exitCode.value == ExitCode(run.results)
    ensures run.report.Some? ==>
              && run.report.value.total == |run.results|
              && run.report.value.passed == CountPassed(run.results)
              && run.report.value.failed == |run.results| - CountPassed(run.results)
              && (run.report.value.passRate.None? <==> |run.results| == 0)
              && (|run.results| > 0 ==>
                    run.report.value.passRate == Some(Rounding.Percent(CountPassed(run.results) as real, |run.results| as real)))
  {
    var planned := Planned(ModeOf(args));
    var results: seq<(string, bool)> := [];
    var k := 0;
    while k < |planned|
      invariant 0 <= k <= |planned|
      invariant |results| == k
      invariant forall j :: 0 <= j < k ==>
                  results[j].0 == planned[j] && (results[j].1 <==> EventuallyPasses(outcomes[j]))
    {
      var success, attempts, trace := RunTestsWithRetry(planned[k], PlannedUi(args), outcomes[k]);
      results := results + [(planned[k], success)];
      k := k + 1;
    }
    var report := None;
    if ModeOf(args).AllDefault? {
      var r := GenerateReport(results);
      report := Some(r);
    }
    var code := if Interactive(args) then None else Some(ExitCode(results));
    run := Run(results, report, code);
  }
}
