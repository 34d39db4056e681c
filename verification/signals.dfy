/**
 * The crash classifier: the name the harness gives to the signal that
 * killed a child, and the crash reason built from it.
 */
module Signals {
  import opened Wrappers

  // Signal numbers of Linux on x86 and ARM.
  const SIGILL: int := 4
  const SIGABRT: int := 6
  const SIGBUS: int := 7
  const SIGFPE: int := 8
  const SIGSEGV: int := 11

  const SegvName: string := "Segmentation fault (SIGSEGV)"
  const BusName: string := "Bus error (SIGBUS)"
  const AbortName: string := "Abort (SIGABRT)"
  const FpeName: string := "Floating point exception (SIGFPE)"
  const IllName: string := "Illegal instruction (SIGILL)"
  const UnknownName: string := "Unknown signal"

  predicate IsNamed(sig: int) {
    sig == SIGSEGV || sig == SIGBUS || sig == SIGABRT || sig == SIGFPE || sig == SIGILL
  }

  /** The switch over the signal number, "Unknown signal" for every other number. */
  function SignalName(sig: int): (name: string)
    ensures !IsNamed(sig) <==> name == UnknownName
    ensures |name| > 0
  {
    if sig == SIGSEGV then SegvName
    else if sig == SIGBUS then BusName
    else if sig == SIGABRT then AbortName
    else if sig == SIGFPE then FpeName
    else if sig == SIGILL then IllName
    else UnknownName
  }

  /** Reads a signal name back to its number; None for the fallback name. */
  function SignalOfName(name: string): Option<int> {
    if name == SegvName then Some(SIGSEGV)
    else if name == BusName then Some(SIGBUS)
    else if name == AbortName then Some(SIGABRT)
    else if name == FpeName then Some(SIGFPE)
    else if name == IllName then Some(SIGILL)
    else None
  }

  /** The five named signals are told apart by their names; every other signal is reported alike. */
  lemma SignalNameIdentifies(sig: int)
    ensures IsNamed(sig) ==> SignalOfName(SignalName(sig)) == Some(sig)
    ensures !IsNamed(sig) ==> SignalOfName(SignalName(sig)) == None
  {
  }

  /** `"%s in %s"` of the signal name and the name of the function that crashed. */
  function CrashReason(sig: int, funcName: string): (reason: string)
    ensures |reason| == |SignalName(sig)| + 4 + |funcName|
    ensures reason[..|SignalName(sig)|] == SignalName(sig)
    ensures reason[|SignalName(sig)|..|SignalName(sig)| + 4] == " in "
    ensures reason[|SignalName(sig)| + 4..] == funcName
  {
    SignalName(sig) + " in " + funcName
  }

  /** The longest signal name is 33 characters. */
  lemma SignalNameLength(sig: int)
    ensures |SignalName(sig)| <= 33
  {
  }
}
