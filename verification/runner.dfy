/**
 * `run_test` and `main`: each test runs the reference and the candidate in
 * their own child, judges the pair, moves the counters and decides which
 * diagnostics to print; the exit status reports whether anything failed.
 */
module Runner {
  import opened CTypes
  import opened Wrappers
  import Arity
  import Signals
  import opened Capture
  import opened Compare
  import opened Counters
  import opened Snippet
  import Escape
  import Scanner

  /** One `run_test` call: its label, format and argument slots. */
  datatype TestCase = TestCase(name: string, format: CStr, slots: Arity.Slots)

  /** How the system calls fare for the reference run and for the candidate run of one test. */
  datatype RunEnv = RunEnv(reference: Os, candidate: Os)

  /** The decisions `run_test` prints: which diagnostics appear, and the snippet for a test that did not pass. */
  datatype Report = Report(verdict: Verdict, crashReason: string, expectedShown: bool,
                           hexShown: bool, snippet: Option<Snippet>)

  function ReferenceRun(t: TestCase, printf: Callable, env: RunEnv): Capture {
    SafeCapture(printf, "printf", t.format, t.slots, env.reference)
  }

  function CandidateRun(t: TestCase, ftPrintf: Callable, env: RunEnv): Capture {
    SafeCapture(ftPrintf, "ft_printf", t.format, t.slots, env.candidate)
  }

  /** The verdict of one test. */
  function TestVerdict(t: TestCase, printf: Callable, ftPrintf: Callable, env: RunEnv): Verdict {
    Judge(ReferenceRun(t, printf, env), CandidateRun(t, ftPrintf, env))
  }

  /** `run_test`. */
  method RunTest(c: Counters, t: TestCase, printf: Callable, ftPrintf: Callable, env: RunEnv)
    returns (c': Counters, report: Report)
    ensures report.verdict == TestVerdict(t, printf, ftPrintf, env)
    ensures c' == Record(c, report.verdict)
    ensures report.verdict == Crashed ==> report.crashReason == CandidateRun(t, ftPrintf, env).crashReason
    ensures report.expectedShown <==> report.verdict == Crashed && !ReferenceRun(t, printf, env).crashed
    ensures report.hexShown <==>
      && report.verdict.Failed? && !report.verdict.outputMatch
      && (ReferenceRun(t, printf, env).outputLen > 0 || CandidateRun(t, ftPrintf, env).outputLen > 0)
    ensures report.snippet.Some? <==> report.verdict != Passed
    ensures report.snippet.Some? ==> report.snippet.value.reference.callee == "printf"
    ensures report.snippet.Some? ==> report.snippet.value.candidate == report.snippet.value.reference.(callee := "ft_printf")
    // The snippet reproduces this test: its literal decodes to the test's format, its arguments are the test's slots.
    ensures report.snippet.Some? ==> Escape.Unescape(report.snippet.value.reference.format) == Some(t.format)
    ensures report.snippet.Some? ==> report.snippet.value.reference.args == Scanner.Scan(t.format, t.slots)
    ensures report.snippet.Some? ==>
      forall k :: 0 <= k < |report.snippet.value.reference.args| ==>
        Scanner.FromSlot(report.snippet.value.reference.args[k], t.slots[k])
  {
    var std := ReferenceRun(t, printf, env);
    var ft := CandidateRun(t, ftPrintf, env);
    if ft.crashed {
      var s := DebugSnippet(t.format, t.slots);
      report := Report(Crashed, ft.crashReason, !std.crashed, false, Some(s));
      c' := Record(c, Crashed);
      return;
    }
    var returnMatch := std.returnValue == ft.returnValue;
    var outputMatch := OutputMatch(std, ft);
    if returnMatch && outputMatch {
      report := Report(Passed, "", false, false, None);
      c' := Record(c, Passed);
    } else {
      var hex := !outputMatch && (std.outputLen > 0 || ft.outputLen > 0);
      var s := DebugSnippet(t.format, t.slots);
      report := Report(Failed(returnMatch, outputMatch), "", false, hex, Some(s));
      c' := Record(c, report.verdict);
    }
  }

  /**
   * Two implementations that behave the same on the forwarded arguments
   * pass, as long as both children could be started and waited for.
   */
  lemma SameBehaviourPasses(t: TestCase, printf: Callable, ftPrintf: Callable, env: RunEnv)
    requires env.reference == env.candidate
    requires env.reference.pipesOk && env.reference.forkOk && env.reference.waitOk
    requires printf(t.format, Arity.Forwarded(t.slots)) == ftPrintf(t.format, Arity.Forwarded(t.slots))
    requires CleanExit(printf(t.format, Arity.Forwarded(t.slots)))
    ensures TestVerdict(t, printf, ftPrintf, env) == Passed
  {
  }

  /** A candidate that dies of a segmentation fault is a crash, reported as such in `ft_printf`. */
  lemma SegfaultIsCrash(t: TestCase, printf: Callable, ftPrintf: Callable, env: RunEnv)
    requires env.candidate.pipesOk && env.candidate.forkOk && env.candidate.waitOk
    requires ftPrintf(t.format, Arity.Forwarded(t.slots)) == KilledBy(Signals.SIGSEGV)
    ensures TestVerdict(t, printf, ftPrintf, env) == Crashed
    ensures CandidateRun(t, ftPrintf, env).crashReason == "Segmentation fault (SIGSEGV) in ft_printf"
  {
  }

  /** The verdicts of the tests of a suite, in order. */
  function SuiteVerdicts(tests: seq<TestCase>, printf: Callable, ftPrintf: Callable, envs: seq<RunEnv>): (vs: seq<Verdict>)
    requires |envs| == |tests|
    ensures |vs| == |tests|
  {
    seq(|tests|, i requires 0 <= i < |tests| => TestVerdict(tests[i], printf, ftPrintf, envs[i]))
  }

  /** The i-th verdict of a suite is the verdict of its i-th test, whatever the other tests do. */
  lemma SuiteVerdictsAt(tests: seq<TestCase>, printf: Callable, ftPrintf: Callable, envs: seq<RunEnv>, i: nat)
    requires |envs| == |tests| && i < |tests|
    ensures SuiteVerdicts(tests, printf, ftPrintf, envs)[i] == TestVerdict(tests[i], printf, ftPrintf, envs[i])
  {
  }

  /**
   * `main` after the flag scan: the suites run their tests in order from
   * zeroed counters, and the exit status is 1 exactly when a test did not pass.
   */
  method RunSuite(tests: seq<TestCase>, printf: Callable, ftPrintf: Callable, envs: seq<RunEnv>)
    returns (verdicts: seq<Verdict>, c: Counters, exitCode: int)
    requires |envs| == |tests|
    ensures verdicts == SuiteVerdicts(tests, printf, ftPrintf, envs)
    ensures c == Tally(verdicts) && Consistent(c)
    ensures c.testNumber == |tests|
    ensures exitCode == 0 <==> forall i :: 0 <= i < |tests| ==> verdicts[i] == Passed
    ensures exitCode == 0 || exitCode == 1
  {
    verdicts := [];
    c := Initial;
    var i := 0;
    while i < |tests|
      invariant 0 <= i <= |tests|
      invariant verdicts == SuiteVerdicts(tests[..i], printf, ftPrintf, envs[..i])
      invariant c == Tally(verdicts)
    {
      var v;
      c, v := RunOne(c, tests[i], printf, ftPrintf, envs[i]);
      SuiteVerdictsExtend(tests, printf, ftPrintf, envs, i, verdicts, v);
      SuiteStep(verdicts, v);
      verdicts := verdicts + [v];
      i := i + 1;
    }
    assert tests[..i] == tests && envs[..i] == envs;
    SuiteOutcome(verdicts);
    exitCode := ExitCode(c);
  }

  /** The verdicts of the first i tests, followed by that of test i, are the verdicts of the first i + 1. */
  lemma SuiteVerdictsExtend(tests: seq<TestCase>, printf: Callable, ftPrintf: Callable, envs: seq<RunEnv>,
                            i: nat, before: seq<Verdict>, v: Verdict)
    requires |envs| == |tests| && i < |tests|
    requires before == SuiteVerdicts(tests[..i], printf, ftPrintf, envs[..i])
    requires v == TestVerdict(tests[i], printf, ftPrintf, envs[i])
    ensures before + [v] == SuiteVerdicts(tests[..i + 1], printf, ftPrintf, envs[..i + 1])
  {
    var after := SuiteVerdicts(tests[..i + 1], printf, ftPrintf, envs[..i + 1]);
    forall k | 0 <= k < i + 1
      ensures (before + [v])[k] == after[k]
    {
      assert tests[..i + 1][k] == tests[k] && envs[..i + 1][k] == envs[k];
      if k < i {
        assert tests[..i][k] == tests[k] && envs[..i][k] == envs[k];
      }
    }
  }

  /** One more verdict moves the tally as recording it does. */
  lemma SuiteStep(before: seq<Verdict>, v: Verdict)
    ensures Tally(before + [v]) == Record(Tally(before), v)
  {
    assert (before + [v])[..|before|] == before;
  }

  /** One step of the suite: `run_test`, keeping only the verdict. */
  method RunOne(c: Counters, t: TestCase, printf: Callable, ftPrintf: Callable, env: RunEnv)
    returns (c': Counters, v: Verdict)
    ensures v == TestVerdict(t, printf, ftPrintf, env)
    ensures c' == Record(c, v)
  {
    var report;
    c', report := RunTest(c, t, printf, ftPrintf, env);
    v := report.verdict;
  }

  /** What the counters after a whole run say about its verdicts. */
  lemma SuiteOutcome(vs: seq<Verdict>)
    ensures Consistent(Tally(vs)) && Tally(vs).testNumber == |vs|
    ensures ExitCode(Tally(vs)) == 0 <==> forall i :: 0 <= i < |vs| ==> vs[i] == Passed
  {
    TallyCounts(vs);
    ExitCodeZeroIffAllPassed(vs);
  }
}
