# A model of the ft_printf tester's harness logic

The tester (`test.c`) checks a candidate `ft_printf` against the C library's
`printf`. It runs each format string and up to three arguments once per
implementation, each run in a forked child. The child's output goes through
one pipe and its return value through a second pipe. The tester then
classifies how the child ended, compares the two results byte for byte, keeps
pass/fail/crash counters, and prints a reproduction program for any test that
did not pass.

This project models the decision rules inside that plumbing as pure Dafny
functions over immutable data:

- `Arity`: how many of the three `void*` slots the child forwards. It also
  covers how the `TEST`…`TEST3` macros fill the slots through `(void*)(long)`,
  so a value of 0 counts as a NULL slot.
- `Signals`: the closed signal-name lookup and the `"<name> in <function>"`
  crash reason.
- `Capture`: `safe_capture`. Pipe, fork and wait failures, death by signal,
  a non-zero exit and a clean exit each map to a `result_t`. A clean exit
  reads the return word and at most 4095 output bytes into the zeroed
  4096-byte buffer.
- `Compare`: the verdict of `run_test`, plus the 20-byte hex preview of
  `print_hex`.
- `Counters`: the four global counters, the failed-without-crash figure of
  `print_summary`, and the exit status of `main`.
- `Escape` and `Scanner`: the two loops of `generate_debug_snippet`. One
  escapes the format into a C literal. The other decides which slots the
  reproduction calls get, and how each is written.
- `Snippet` and `Runner`: `generate_debug_snippet`'s two calls, then
  `run_test` and the sequence of tests run by `main`.

The environment is modelled as follows:

- The operating system is an input. `Capture.Os` says which of `pipe`,
  `fork`, `waitpid` and the output `read` succeed.
- Each formatting function is a Dafny function value
  (`Capture.Callable`). It maps the format and the forwarded arguments to
  what the child then does: return a value after writing some bytes, die by
  a signal, or call `exit` itself.
- Argument slots are 64-bit `long` values, and 0 means NULL.
- Signal numbers are Linux's.

Three behaviours of the source are kept as written and pinned down by lemmas:

- **`%%` pairs.** The scanner does not skip a `%%` pair as a unit. The second
  `%` can start a conversion, so `%%d` consumes an argument
  (`Scanner.PercentPairIsNotSkipped`, `Scanner.PercentPairConsumesSlot`).
- **NULL slots at `%s` and `%p`.** A NULL slot at `%s` or `%p` is skipped
  without the scanner moving to the next slot, so the following conversion
  sees the same NULL. For `TEST2("%p %p", NULL, 0x123)` the reproduction
  calls get no argument, although the test forwards two
  (`Scanner.NullPointerSlotStalls`). As a result, the `", NULL"` branches of
  the `s` and `p` cases are never reached (`Scanner.ScanArgs`).
- **Crashed reference.** A crashed reference is compared as a zeroed record.
  A candidate that prints nothing and returns 0 therefore passes against it
  (`Compare.CrashedReferenceComparesAsEmpty`).

Three points where the source does something a reader may not expect:

- An unknown signal is reported as "Unknown signal", without its number.
- The output read asks for 4095 bytes, not the buffer's 4096.
- A missing return word leaves the return value at 0. It is not treated as
  a crash.

## Model

| member | source | states |
|---|---|---|
| CTypes.ToLong | test.c:346-353 | `(long)a` is the value congruent to `a` modulo 2^64 in the `long` range, and is `a` itself when `a` fits |
| CTypes.ToUnsignedLong | test.c:186-199 | `(unsigned long)` of a slot is its value modulo 2^64 |
| CTypes.ToUnsignedChar | test.c:170-171 | `%c` prints a slot as its value modulo 256 |
| CTypes.Decimal | test.c:117-118 | the `%d` numeral of an exit status: non-empty, digits only, no leading zero |
| CTypes.DecimalRoundTrip | test.c:117-118 | the numeral reads back to the number it was made from |
| Arity.Arity | test.c:70-78 | the number of forwarded arguments is one past the last non-NULL slot, or 0 when all three are NULL |
| Arity.ArityUnique | test.c:70-78 | no other count meets that description |
| Arity.Forwarded | test.c:70-78 | the callable receives exactly the first Arity slots, unchanged |
| Arity.Test1ZeroIsDropped | test.c:346-347 | `TEST1(..., a)` forwards nothing exactly when `a` is 0 modulo 2^64, as in `TEST1("%d", 0)` |
| Arity.Test2Arity | test.c:349-350 | `TEST2` forwards two values when the second is non-zero even if the first is NULL, one when only the first is non-zero, otherwise none |
| Arity.Test3Arity | test.c:352-353 | `TEST3` forwards all three values exactly when the third is non-zero |
| Signals.SignalName | test.c:98-106 | every signal outside SIGSEGV, SIGBUS, SIGABRT, SIGFPE and SIGILL is named "Unknown signal", and those five are not |
| Signals.SignalNameIdentifies | test.c:100-106 | the name of each of the five signals identifies it, and the fallback name identifies none |
| Signals.CrashReason | test.c:108-109 | the reason is the signal name, then " in ", then the function name |
| Capture.ReadOutput | test.c:112 | the single read returns at most 4095 bytes and no more than the pipe holds, or -1 on failure |
| Capture.FillBuffer | test.c:111-114 | the 4096-byte buffer starts with the bytes read and has a NUL right after them |
| Capture.PostMortem | test.c:89-119 | every post-mortem record is well formed: full buffer, length in 0..4095, NUL at the length, and a crashed record zeroed with a non-empty reason |
| Capture.SafeCapture | test.c:41-125 | pipe, fork and wait failures and abnormal exits crash with their own reasons; a signal crashes with the classifier's reason; not crashing is equivalent to a clean exit 0; a clean exit captures the return word (0 if none was sent) and the first 4095 written bytes |
| Capture.AbnormalExitReason | test.c:115-118 | the reason is "Abnormal exit (code ", the exit status as a decimal numeral without leading zeros that reads back to the status, and ")" |
| Capture.RunChild | test.c:62-83 | a call that returns sends its return value as the status word and exits with 0; a call killed by a signal leaves the child killed by that signal; a call that exits leaves its code modulo 256 as the exit status; only a return sends a word; the pipe holds what the call wrote |
| Capture.AbnormalExitReasonInjective | test.c:115-118 | distinct exit statuses give distinct abnormal-exit reasons |
| Capture.ReasonFitsBuffer | test.c:108-118 | every crash reason is shorter than the 256-byte `crash_reason` field for function names of up to 200 characters |
| Capture.ReturnValueIndependentOfOutput | test.c:111 | the status pipe is independent of the output: equal return values are captured equal whatever was printed |
| Compare.OutputMatch | test.c:311-312 | equal lengths followed by `memcmp` over the reference's length holds exactly when the captured outputs are equal |
| Compare.Judge | test.c:292-316 | a crashed candidate is a crash whatever the reference did; otherwise the test passes iff the return values are equal and the captured outputs are equal in length and content; a failure records which comparison failed |
| Compare.CrashedReferenceComparesAsEmpty | test.c:309-314 | against a crashed reference, a surviving candidate passes iff it returned 0 and printed nothing |
| Compare.TruncatedOutputsCompareEqual | test.c:110-114 | two clean runs with the same return value that agree on their first 4095 bytes pass, whatever they write after that, up to the 64 KiB a pipe holds |
| Compare.PreviewBytes | test.c:128-135 | the hex preview shows a prefix of the output of length min(len, 20), and nothing for a non-positive length |
| Compare.PreviewElidesExactly | test.c:130-133 | "..." is printed exactly when the preview leaves some captured byte out |
| Compare.HexTokens | test.c:130-132 | each shown byte becomes three characters: two hex digits and a space |
| Compare.HexLine | test.c:128-135 | the line is "  Hex: ", then the hex tokens of the shown bytes, then "..." exactly when more than 20 bytes were captured, then a newline |
| Compare.HexTokensRoundTrip | test.c:131 | the shown bytes can be read back from the hex dump |
| Counters.Record | test.c:282-319 | each test increments the test number by one and exactly one of passed/failed; crashed is incremented only with failed; consistency is preserved |
| Counters.TallyCounts | test.c:22-26 | after any sequence of tests the counters count the verdicts of each kind, and passed + failed = total with crashed <= failed |
| Counters.ExitCode | test.c:591 | the exit status is 0 or 1, and for consistent counters it is 0 exactly when every test passed |
| Counters.NoFailureIffAllPassed | test.c:529 | no failure is counted exactly when every verdict is a pass |
| Counters.ExitCodeZeroIffAllPassed | test.c:591 | the exit status is 0 exactly when every test passed |
| Counters.Summarize | test.c:516-529 | the summary shows the total and the passed count; it shows the crash count exactly when there are crashes; it shows the failed-without-crash line exactly when failures outnumber crashes, with failed minus crashed as its figure; and it reports all passed exactly when nothing failed, which for consistent counters is when passed equals the total |
| Counters.FailedWithoutCrashCounts | test.c:523-524 | failed minus crashed is the number of failures that were not crashes |
| Escape.EscapeChar | test.c:152-156 | `"`, `\`, newline and tab become a backslash escape of two characters; every other character is copied |
| Escape.Escape | test.c:151-157 | the escaped format is longer than the format by the number of characters needing an escape |
| Escape.UnescapeEscape | test.c:151-157 | the escaped literal decodes back to the format |
| Escape.EscapeInjective | test.c:215-221 | distinct formats give distinct literals |
| Escape.EscapePlain | test.c:151-157 | a format with nothing to escape is written unchanged |
| Scanner.Candidates | test.c:165-167 | every yielded character directly follows a `%` in the format and is not itself a `%`, and there is at most one per two characters of the format |
| Scanner.CandidatesAreStops | test.c:165-205 | the walk yields, in order, exactly the character after every `%` that is followed by a character other than `%`: jumping over a converted character never skips such a `%` |
| Scanner.Render | test.c:169-202 | `s` and `p` print NULL exactly for a NULL slot; every other rendering reads the slot through the case's cast; the kind of literal is fixed by the conversion, and for `s` and `p` also by whether the slot is NULL |
| Scanner.Consume | test.c:168-203 | at most three slots are taken; the k-th literal comes from the k-th remaining slot, and no NULL literal is produced; a first candidate that the guard and the switch accept takes the current slot, rendered by its case |
| Scanner.ScanArgs | test.c:161-206 | the scanning loop equals the walk followed by slot consumption; it emits at most three literals, the k-th from slot k, and never the unreachable NULL literal |
| Scanner.ScanStep | test.c:166-204 | one pass of the loop body moves forward, prints at most one literal and takes a slot exactly when it prints; what it prints, followed by the rest of the walk, is the rest of the walk from where it started |
| Scanner.ConsumeAccepted | test.c:165-203 | when the guard and the switch accept every candidate at the slot it meets, the slots go to the candidates one for one, up to three, each rendered by its case |
| Scanner.NullTolerantTakesEverySlot | test.c:168 | conversions of the `strchr` set take their slot even when it is NULL, so `TEST3("%d %d %d", 1, NULL, 3)` reproduces all three arguments |
| Scanner.RejectedCandidateKeepsSlot | test.c:168 | a character with no case, or a NULL slot at `s`/`p`, takes no slot, and the next conversion gets it |
| Scanner.PercentPairIsNotSkipped | test.c:166-205 | `%%` yields no candidate, but in `%%d` the second `%` starts a conversion |
| Scanner.PercentPairBeforeText | test.c:166-205 | after `%`-free text, a `%%` pair followed by a character c other than `%` yields c, as the space in `100%% complete` |
| Scanner.PercentPairConsumesSlot | test.c:161-206 | `%%d` with one argument consumes it as `%d` would |
| Scanner.NullPointerSlotStalls | test.c:195-201 | for `TEST2("%p %p", NULL, 0x123)` two arguments are forwarded but the reproduction call gets none |
| Scanner.CandidatesAfterPlain | test.c:165-205 | text without `%` in front of a format does not change what the walk yields |
| Snippet.DebugSnippet | test.c:138-277 | the `printf` and `ft_printf` calls of the reproduction program get the same literal and the same arguments; the literal decodes to the format; each argument comes from the slot of its position, and the arguments are those the scan of the format gives |
| Runner.RunTest | test.c:280-340 | the verdict is the judgement of the two captures; the counters move as Record says; the expected output is shown only on a crash with a surviving reference; the hex dumps appear only on an output mismatch with some output; a snippet exists iff the test did not pass, and it reproduces this test: the `printf` call's literal decodes to the test's format and its arguments are the scan of the test's format and slots, and the `ft_printf` call is the same call with only the function changed |
| Runner.SameBehaviourPasses | test.c:288-316 | two implementations that behave the same and exit cleanly pass when both children run normally |
| Runner.SegfaultIsCrash | test.c:95-109 | a candidate killed by SIGSEGV is a crash with the reason "Segmentation fault (SIGSEGV) in ft_printf" |
| Runner.SuiteVerdictsAt | test.c:575-587 | the i-th verdict of a suite is the verdict of its i-th test alone |
| Runner.RunSuite | test.c:575-591 | running the tests in order from zeroed counters gives the suite's verdicts, consistent counters that tally them, and exit status 0 exactly when every test passed |

## Left out

- Process plumbing is not modelled: `fork`, `pipe`, `dup2`, `close`, `waitpid`, `read`, `write`, `fflush` and `exit`. Their successes and failures are the `Os` input, and what the child does is the `CallOutcome` of the callable.
- The behaviour of `printf` and `ft_printf` is not modelled. They are parameters; `ft_printf.h` is not part of this model.
- A child that never terminates hangs the tester, because there is no timeout. Such children are not modelled.
- Capture.SafeCapture: a child that writes more than the pipe's capacity (`Capture.PipeCapacity`, 64 KiB on Linux) blocks in `write` and hangs the tester, because the parent reads only after `waitpid`. The model gives such a child the capture an unbounded pipe would give. The lemmas about long outputs ask for at most that many bytes.
- The stdio buffer that the child inherits from the parent across `fork` is not modelled. Neither is any output of the parent that is still buffered when the child flushes.
- The status word is assumed to arrive whole or not at all, because a 4-byte pipe write is atomic. A failed or empty read leaves the return value at 0.
- The output `read` is assumed to return everything available up to 4095 bytes, as Linux does for a pipe whose writer has exited. A shorter read allowed by POSIX is not modelled.
- `waitpid` reporting stopped or continued children is not modelled, because the call passes no options. Neither is a child left unreaped after a failed wait.
- Report text is not modelled: colours, the banner, the hints, the "Expected output" line, and the boilerplate of the reproduction program. Only the decisions of which diagnostics appear are modelled.
- Argument literals are kept as values, not as printed text. A `%s` argument is an opaque non-zero address.
- The `snprintf` truncation of `crash_reason` to 256 bytes is not modelled. `Capture.ReasonFitsBuffer` shows that it never applies to the function names used.
- The `--hints`/`-h` flag scan is not modelled.
- The test catalog is not modelled. A few of its entries appear in lemmas.
- Counters.Record: the counters are unbounded naturals, not 32-bit `int`s. The tester runs fewer than a hundred tests.
