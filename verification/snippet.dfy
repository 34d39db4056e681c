/**
 * The two calls of the reproduction program `generate_debug_snippet` prints
 * for a failing test: one to `printf`, one to `ft_printf`. The program text
 * around them is presentation and is not modelled.
 */
module Snippet {
  import opened CTypes
  import opened Wrappers
  import Arity
  import Escape
  import Scanner

  /** A call: the function, the escaped format literal and the argument literals. */
  datatype Call = Call(callee: string, format: string, args: seq<Scanner.Lit>)

  datatype Snippet = Snippet(reference: Call, candidate: Call)

  /**
   * Both calls are built by their own copy of the escape loop and of the
   * scanning loop; the two copies agree, so the calls differ only in the
   * function called. The literal decodes to the format, and each argument
   * comes from the slot of its position.
   */
  method DebugSnippet(format: CStr, slots: Arity.Slots) returns (s: Snippet)
    ensures s.reference.callee == "printf" && s.candidate.callee == "ft_printf"
    ensures s.reference.format == s.candidate.format
    ensures s.reference.args == s.candidate.args == Scanner.Scan(format, slots)
    ensures Escape.Unescape(s.reference.format) == Some(format)
    ensures |s.reference.args| <= 3
    ensures forall k :: 0 <= k < |s.reference.args| ==> Scanner.FromSlot(s.reference.args[k], slots[k])
  {
    var refArgs := Scanner.ScanArgs(format, slots);
    var candArgs := Scanner.ScanArgs(format, slots);
    Escape.UnescapeEscape(format);
    s := Snippet(Call("printf", Escape.Escape(format), refArgs),
                 Call("ft_printf", Escape.Escape(format), candArgs));
  }
}
