/**
 * The four test counters of the tester, how each verdict moves them, the
 * failure split `print_summary` prints and the exit status of `main`.
 */
module Counters {
  import opened Wrappers
  import opened Compare

  /** `test_number`, `tests_passed`, `tests_failed`, `tests_crashed`. */
  datatype Counters = Counters(testNumber: nat, passed: nat, failed: nat, crashed: nat)

  const Initial: Counters := Counters(0, 0, 0, 0)

  /** What holds of the counters between tests. */
  predicate Consistent(c: Counters) {
    c.passed + c.failed == c.testNumber && c.crashed <= c.failed
  }

  /**
   * The counter updates of `run_test`: the test number always moves on, and
   * exactly one of passed and failed moves with it; crashed moves only
   * together with failed.
   */
  function Record(c: Counters, v: Verdict): (c': Counters)
    ensures c'.testNumber == c.testNumber + 1
    ensures c'.passed == c.passed + (if v == Passed then 1 else 0)
    ensures c'.failed == c.failed + (if v == Passed then 0 else 1)
    ensures c'.crashed == c.crashed + (if v == Crashed then 1 else 0)
    ensures Consistent(c) ==> Consistent(c')
  {
    var c1 := c.(testNumber := c.testNumber + 1);
    match v
    case Crashed => c1.(crashed := c1.crashed + 1, failed := c1.failed + 1)
    case Passed => c1.(passed := c1.passed + 1)
    case Failed(_, _) => c1.(failed := c1.failed + 1)
  }

  /** The counters after the tests with the given verdicts ran, in order. */
  function Tally(vs: seq<Verdict>): Counters
    decreases |vs|
  {
    if |vs| == 0 then Initial else Record(Tally(vs[..|vs| - 1]), vs[|vs| - 1])
  }

  /** The number of verdicts satisfying `p`. */
  function Count(vs: seq<Verdict>, p: Verdict -> bool): (n: nat)
    ensures n <= |vs|
    decreases |vs|
  {
    if |vs| == 0 then 0 else Count(vs[..|vs| - 1], p) + (if p(vs[|vs| - 1]) then 1 else 0)
  }

  /** Each counter counts the verdicts of its kind. */
  lemma {:induction false} TallyCounts(vs: seq<Verdict>)
    ensures Tally(vs).testNumber == |vs|
    ensures Tally(vs).passed == Count(vs, v => v == Passed)
    ensures Tally(vs).failed == Count(vs, v => v != Passed)
    ensures Tally(vs).crashed == Count(vs, v => v == Crashed)
    ensures Consistent(Tally(vs))
    decreases |vs|
  {
    if |vs| > 0 {
      TallyCounts(vs[..|vs| - 1]);
    }
  }

  /** `return (tests_failed > 0) ? 1 : 0`. */
  function ExitCode(c: Counters): (code: int)
    ensures code == 0 || code == 1
    ensures Consistent(c) ==> (code == 0 <==> c.passed == c.testNumber)
  {
    if c.failed > 0 then 1 else 0
  }

  /** The tester exits with 0 exactly when every test passed. */
  lemma ExitCodeZeroIffAllPassed(vs: seq<Verdict>)
    ensures ExitCode(Tally(vs)) == 0 <==> forall i :: 0 <= i < |vs| ==> vs[i] == Passed
  {
    NoFailureIffAllPassed(vs);
  }

  /** No failure is counted exactly when every verdict is a pass. */
  lemma {:induction false} NoFailureIffAllPassed(vs: seq<Verdict>)
    ensures Tally(vs).failed == 0 <==> forall i :: 0 <= i < |vs| ==> vs[i] == Passed
    decreases |vs|
  {
    if |vs| > 0 {
      NoFailureIffAllPassed(vs[..|vs| - 1]);
      var last := vs[..|vs| - 1];
      if forall i :: 0 <= i < |last| ==> last[i] == Passed {
        if vs[|vs| - 1] == Passed {
          forall i | 0 <= i < |vs|
            ensures vs[i] == Passed
          {
            if i < |vs| - 1 {
              assert vs[i] == last[i];
            }
          }
        }
      } else {
        var j :| 0 <= j < |last| && last[j] != Passed;
        assert vs[j] != Passed;
      }
    }
  }

  /** The counts `print_summary` shows: crashed and failed-without-crash only when positive. */
  datatype Summary = Summary(total: nat, passed: nat, crashedLine: Option<nat>,
                             failedWithoutCrashLine: Option<nat>, allPassed: bool)

  function Summarize(c: Counters): (s: Summary)
    ensures s.total == c.testNumber && s.passed == c.passed
    ensures s.allPassed <==> c.failed == 0
    ensures Consistent(c) ==> (s.allPassed <==> c.passed == c.testNumber)
    ensures s.crashedLine.Some? <==> c.crashed > 0
    ensures s.crashedLine.Some? ==> s.crashedLine.value == c.crashed
    ensures s.failedWithoutCrashLine.Some? <==> c.failed > c.crashed
    ensures s.failedWithoutCrashLine.Some? ==> s.failedWithoutCrashLine.value + c.crashed == c.failed
  {
    Summary(c.testNumber, c.passed,
            if c.crashed > 0 then Some(c.crashed) else None,
            if c.failed - c.crashed > 0 then Some(c.failed - c.crashed) else None,
            c.failed == 0)
  }

  /** The failed-without-crash figure is the number of plain failures: crashes are never counted twice. */
  lemma {:induction false} FailedWithoutCrashCounts(vs: seq<Verdict>)
    ensures Tally(vs).failed - Tally(vs).crashed == Count(vs, (v: Verdict) => v.Failed?)
    decreases |vs|
  {
    if |vs| > 0 {
      FailedWithoutCrashCounts(vs[..|vs| - 1]);
    }
  }
}
