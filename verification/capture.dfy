/**
 * The execution engine `safe_capture`: the child runs the callable with the
 * forwarded arguments, and the parent turns the child's termination status
 * and the two pipes' contents into a result record.
 *
 * The operating system is not modelled: whether `pipe`, `fork`, `waitpid`
 * and the output `read` succeed is an input (`Os`), and the callable is a
 * function from the format and the forwarded arguments to what the child
 * then does (`CallOutcome`).
 */
module Capture {
  import opened CTypes
  import opened Wrappers
  import Arity
  import Signals

  /** `sizeof(result.output)`. */
  const OutputCapacity: nat := 4096

  /** The most bytes the single output `read` asks for: one is kept for the NUL. */
  const ReadLimit: nat := OutputCapacity - 1

  /**
   * The bytes a Linux pipe holds by default. A child that writes more blocks
   * in `write`, because the parent reads only after `waitpid` has returned.
   */
  const PipeCapacity: nat := 65536

  const PipeFailedReason: string := "Pipe creation failed"
  const ForkFailedReason: string := "Fork failed"
  const WaitFailedReason: string := "Wait failed"

  /** What the child does once it calls the function under test. */
  datatype CallOutcome =
    | Returns(ret: Int32, written: seq<Byte>)    // returns; the child flushes, sends the word, calls exit(0)
    | KilledBy(sig: int)                         // a signal ends the child
    | ExitsWith(code: int, written: seq<Byte>)   // the callable calls exit(code) itself

  /** A printf-like function: the format and the arguments it is handed. */
  type Callable = (CStr, seq<Long>) -> CallOutcome

  /** Which of the system calls of the parent succeed. */
  datatype Os = Os(pipesOk: bool, forkOk: bool, waitOk: bool, outputReadOk: bool)

  /** The status `waitpid` reports for the child; an exit status is the code modulo 256. */
  datatype WaitStatus = Signaled(sig: int) | Exited(status: Byte)

  /** What the parent finds after the child has terminated. */
  datatype Child = Child(status: WaitStatus, statusWord: Option<Int32>, pipeBytes: seq<Byte>)

  /** `result_t`: `output` is the whole fixed-size buffer, `outputLen` how much of it was read. */
  datatype Capture = Capture(returnValue: Int32, output: seq<Byte>, outputLen: int,
                             crashed: bool, crashReason: string)

  /** The captured output proper. */
  function Text(c: Capture): seq<Byte>
    requires 0 <= c.outputLen <= |c.output|
  {
    c.output[..c.outputLen]
  }

  function Zeros(n: nat): (z: seq<Byte>)
    ensures |z| == n && forall i :: 0 <= i < n ==> z[i] == 0
  {
    seq(n, _ => 0)
  }

  /**
   * The shape every record `safe_capture` returns has: a full buffer, a
   * length that leaves room for the NUL, the NUL in place, and a crashed
   * record that is otherwise still the zero-initialised one.
   */
  predicate WellFormed(c: Capture) {
    && |c.output| == OutputCapacity
    && 0 <= c.outputLen <= ReadLimit
    && c.output[c.outputLen] == 0
    && (c.crashed ==> c.returnValue == 0 && c.outputLen == 0 && c.output == Zeros(OutputCapacity) && |c.crashReason| > 0)
    && (!c.crashed ==> c.crashReason == "")
  }

  /** `result_t result = {0}`. */
  function Blank(): Capture {
    Capture(0, Zeros(OutputCapacity), 0, false, "")
  }

  function Crash(reason: string): Capture {
    Blank().(crashed := true, crashReason := reason)
  }

  const AbnormalExitPrefix: string := "Abnormal exit (code "

  /** `"Abnormal exit (code %d)"`: the status can be read back from between the prefix and the closing parenthesis. */
  function AbnormalExitReason(status: nat): (reason: string)
    ensures |reason| > |AbnormalExitPrefix| + 1
    ensures reason[..|AbnormalExitPrefix|] == AbnormalExitPrefix && reason[|reason| - 1] == ')'
    ensures AllDigits(reason[|AbnormalExitPrefix|..|reason| - 1])
    ensures ParseDecimal(reason[|AbnormalExitPrefix|..|reason| - 1]) == status
    ensures |reason| - 1 - |AbnormalExitPrefix| > 1 ==> reason[|AbnormalExitPrefix|] != '0'
  {
    var reason := AbnormalExitPrefix + Decimal(status) + ")";
    assert reason[|AbnormalExitPrefix|..|reason| - 1] == Decimal(status);
    DecimalRoundTrip(status);
    reason
  }

  /** Different exit statuses give different reasons. */
  lemma AbnormalExitReasonInjective(a: nat, b: nat)
    ensures AbnormalExitReason(a) == AbnormalExitReason(b) ==> a == b
  {
  }

  /**
   * The child: call with the forwarded arguments, then terminate. Only a
   * return sends the status word; the exit status is 0 exactly for a clean
   * exit, and the pipe holds everything written before the child ended.
   */
  function RunChild(func: Callable, format: CStr, slots: Arity.Slots): (child: Child)
    ensures child.status.Signaled? <==> func(format, Arity.Forwarded(slots)).KilledBy?
    ensures child.status == Exited(0) <==> CleanExit(func(format, Arity.Forwarded(slots)))
    ensures child.statusWord.Some? <==> func(format, Arity.Forwarded(slots)).Returns?
    ensures child.pipeBytes == Written(func(format, Arity.Forwarded(slots)))
    ensures var o := func(format, Arity.Forwarded(slots));
      && (o.Returns? ==> child.statusWord == Some(o.ret) && child.status == Exited(0))
      && (o.KilledBy? ==> child.status == Signaled(o.sig))
      && (o.ExitsWith? ==> child.status == Exited(o.code % 0x100))
  {
    match func(format, Arity.Forwarded(slots))
    case Returns(ret, written) => Child(Exited(0), Some(ret), written)
    case KilledBy(sig) => Child(Signaled(sig), None, [])
    case ExitsWith(code, written) => Child(Exited(code % 0x100), None, written)
  }

  /** The value `read(2)` returns on the output pipe once the writer has exited: -1 on failure. */
  function ReadOutput(pipeBytes: seq<Byte>, ok: bool): (n: int)
    ensures ok ==> 0 <= n <= ReadLimit && n <= |pipeBytes|
    ensures !ok ==> n == -1
  {
    if ok then Min(|pipeBytes|, ReadLimit) else -1
  }

  /** The buffer after `read` stored `data` into the zeroed array and the NUL was written after it. */
  function FillBuffer(data: seq<Byte>): (buf: seq<Byte>)
    requires |data| <= ReadLimit
    ensures |buf| == OutputCapacity
    ensures buf[..|data|] == data
    ensures buf[|data|] == 0
  {
    (data + Zeros(OutputCapacity - |data|))[|data| := 0]
  }

  /** The post-mortem of a child the parent has waited for. */
  function PostMortem(child: Child, funcName: string, outputReadOk: bool): (r: Capture)
    ensures WellFormed(r)
  {
    match child.status
    case Signaled(sig) => Crash(Signals.CrashReason(sig, funcName))
    case Exited(status) =>
      if status == 0 then
        var n := ReadOutput(child.pipeBytes, outputReadOk);
        var len := if n < 0 then 0 else n;
        Blank().(returnValue := child.statusWord.GetOr(0),
                 output := FillBuffer(child.pipeBytes[..len]),
                 outputLen := len)
      else
        Crash(AbnormalExitReason(status))
  }

  /** A callable's run counts as a clean exit when the child's exit status is 0. */
  predicate CleanExit(o: CallOutcome) {
    o.Returns? || (o.ExitsWith? && o.code % 0x100 == 0)
  }

  function Written(o: CallOutcome): seq<Byte> {
    if o.KilledBy? then [] else o.written
  }

  /** `safe_capture(func, func_name, format, arg1, arg2, arg3)`. */
  function SafeCapture(func: Callable, funcName: string, format: CStr, slots: Arity.Slots, os: Os): (r: Capture)
    ensures WellFormed(r)
    // Setup and wait failures, each with its own reason.
    ensures !os.pipesOk ==> r.crashed && r.crashReason == PipeFailedReason
    ensures os.pipesOk && !os.forkOk ==> r.crashed && r.crashReason == ForkFailedReason
    ensures os.pipesOk && os.forkOk && !os.waitOk ==> r.crashed && r.crashReason == WaitFailedReason
    // Once waited for, the child's own fate decides.
    ensures os.pipesOk && os.forkOk && os.waitOk ==>
      var o := func(format, Arity.Forwarded(slots));
      && (o.KilledBy? ==> r.crashed && r.crashReason == Signals.CrashReason(o.sig, funcName))
      && (o.ExitsWith? && o.code % 0x100 != 0 ==> r.crashed && r.crashReason == AbnormalExitReason(o.code % 0x100))
    // A clean exit is the only way not to crash.
    ensures !r.crashed <==> os.pipesOk && os.forkOk && os.waitOk && CleanExit(func(format, Arity.Forwarded(slots)))
    // What a clean exit captures: the word sent on the status pipe, and up to 4095 bytes of output.
    ensures !r.crashed ==>
      var o := func(format, Arity.Forwarded(slots));
      && r.returnValue == (if o.Returns? then o.ret else 0)
      && Text(r) == (if os.outputReadOk then Written(o)[..Min(|Written(o)|, ReadLimit)] else [])
  {
    if !os.pipesOk then Crash(PipeFailedReason)
    else if !os.forkOk then Crash(ForkFailedReason)
    else
      var child := RunChild(func, format, slots);
      if !os.waitOk then Crash(WaitFailedReason)
      else PostMortem(child, funcName, os.outputReadOk)
  }

  /** Every crash reason fits the 256-byte `crash_reason` buffer for function names of up to 200 characters. */
  lemma ReasonFitsBuffer(func: Callable, funcName: string, format: CStr, slots: Arity.Slots, os: Os)
    requires |funcName| <= 200
    ensures |SafeCapture(func, funcName, format, slots, os).crashReason| < 256
  {
    var o := func(format, Arity.Forwarded(slots));
    if o.KilledBy? {
      Signals.SignalNameLength(o.sig);
    } else if o.ExitsWith? {
      DecimalBound(o.code % 0x100);
    }
  }

  lemma DecimalBound(n: nat)
    requires n < 1000
    ensures |Decimal(n)| <= 3
  {
    if n >= 10 {
      assert |Decimal(n)| == |Decimal(n / 10)| + 1;
      if n / 10 >= 10 {
        assert |Decimal(n / 10)| == |Decimal(n / 10 / 10)| + 1;
      }
    }
  }

  /**
   * The status pipe and the output pipe are independent: two callables that
   * return the same value report it alike whatever they printed.
   */
  lemma ReturnValueIndependentOfOutput(f: Callable, g: Callable, funcName: string, format: CStr, slots: Arity.Slots, os: Os)
    requires f(format, Arity.Forwarded(slots)).Returns? && g(format, Arity.Forwarded(slots)).Returns?
    requires f(format, Arity.Forwarded(slots)).ret == g(format, Arity.Forwarded(slots)).ret
    ensures SafeCapture(f, funcName, format, slots, os).returnValue == SafeCapture(g, funcName, format, slots, os).returnValue
  {
  }
}
