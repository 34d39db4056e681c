/**
 * The comparison `run_test` makes between the reference result and the
 * candidate's, and the bounded hex preview it prints for a differing output.
 */
module Compare {
  import opened CTypes
  import opened Wrappers
  import Arity
  import opened Capture

  /** A failure records which of the two comparisons failed (at least one did). */
  datatype Verdict = Crashed | Passed | Failed(returnMatch: bool, outputMatch: bool)

  /** `memcmp(a, b, n) == 0`. */
  predicate MemEqual(a: seq<Byte>, b: seq<Byte>, n: nat)
    requires n <= |a| && n <= |b|
  {
    forall i :: 0 <= i < n ==> a[i] == b[i]
  }

  /** Equal lengths, then `memcmp` over the reference's length. */
  function OutputMatch(std: Capture, ft: Capture): (m: bool)
    requires WellFormed(std) && WellFormed(ft)
    ensures m <==> Text(std) == Text(ft)
  {
    std.outputLen == ft.outputLen && MemEqual(std.output, ft.output, std.outputLen)
  }

  /**
   * The verdict of one test. A candidate crash decides it whatever the
   * reference did; otherwise the test passes exactly when the return values
   * are equal and the captured outputs are byte-for-byte the same.
   */
  function Judge(std: Capture, ft: Capture): (v: Verdict)
    requires WellFormed(std) && WellFormed(ft)
    ensures v == Crashed <==> ft.crashed
    ensures v == Passed <==> !ft.crashed && std.returnValue == ft.returnValue && Text(std) == Text(ft)
    ensures v.Failed? ==> v.returnMatch == (std.returnValue == ft.returnValue)
    ensures v.Failed? ==> v.outputMatch == (Text(std) == Text(ft))
  {
    if ft.crashed then Crashed
    else
      var returnMatch := std.returnValue == ft.returnValue;
      var outputMatch := OutputMatch(std, ft);
      if returnMatch && outputMatch then Passed else Failed(returnMatch, outputMatch)
  }

  /**
   * The comparison does not look at whether the reference crashed: a
   * crashed reference compares as return value 0 with no output, so a
   * candidate that prints nothing and returns 0 passes against it.
   */
  lemma CrashedReferenceComparesAsEmpty(std: Capture, ft: Capture)
    requires WellFormed(std) && WellFormed(ft)
    requires std.crashed && !ft.crashed
    ensures Judge(std, ft) == Passed <==> ft.returnValue == 0 && ft.outputLen == 0
  {
    if ft.returnValue == 0 && ft.outputLen == 0 {
      assert Text(std) == [] == Text(ft);
    }
  }

  /**
   * Output past the capture limit never takes part in the comparison: two
   * clean runs that return the same value and agree on their first 4095
   * output bytes pass, whatever follows up to the pipe's capacity (a child
   * that writes more never terminates).
   */
  lemma TruncatedOutputsCompareEqual(f: Callable, g: Callable, format: CStr, slots: Arity.Slots, os: Os)
    requires os.pipesOk && os.forkOk && os.waitOk
    requires f(format, Arity.Forwarded(slots)).Returns? && g(format, Arity.Forwarded(slots)).Returns?
    requires f(format, Arity.Forwarded(slots)).ret == g(format, Arity.Forwarded(slots)).ret
    requires ReadLimit <= |f(format, Arity.Forwarded(slots)).written| <= PipeCapacity
    requires ReadLimit <= |g(format, Arity.Forwarded(slots)).written| <= PipeCapacity
    requires f(format, Arity.Forwarded(slots)).written[..ReadLimit] == g(format, Arity.Forwarded(slots)).written[..ReadLimit]
    ensures Judge(SafeCapture(f, "printf", format, slots, os), SafeCapture(g, "ft_printf", format, slots, os)) == Passed
  {
  }

  // The hex preview of `print_hex`.

  /** `print_hex` shows at most this many bytes. */
  const PreviewLimit: nat := 20

  /** The bytes the preview loop visits: `i < len && i < 20`. */
  function PreviewBytes(data: seq<Byte>, len: int): (shown: seq<Byte>)
    requires len <= |data|
    ensures |shown| <= PreviewLimit
    ensures len >= 0 ==> |shown| == Min(len, PreviewLimit)
    ensures len < 0 ==> shown == []
    ensures shown <= data
  {
    if len <= 0 then [] else data[..Min(len, PreviewLimit)]
  }

  /** The preview is cut short, and "..." printed, exactly when some captured byte is not shown. */
  lemma PreviewElidesExactly(data: seq<Byte>, len: int)
    requires 0 <= len <= |data|
    ensures len > PreviewLimit <==> PreviewBytes(data, len) != data[..len]
  {
    if len > PreviewLimit {
      assert |PreviewBytes(data, len)| < |data[..len]|;
    }
  }

  /** An upper-case hexadecimal digit, as `%X` prints it. */
  function HexDigit(d: int): (c: char)
    requires 0 <= d < 16
  {
    if d < 10 then ('0' as int + d) as char else ('A' as int + d - 10) as char
  }

  function HexDigitValue(c: char): int {
    if '0' <= c <= '9' then c as int - '0' as int
    else if 'A' <= c <= 'F' then c as int - 'A' as int + 10
    else -1
  }

  /** `"%02X "` of one byte. */
  function HexToken(b: Byte): (t: string)
    ensures |t| == 3 && t[2] == ' '
  {
    [HexDigit(b / 16), HexDigit(b % 16), ' ']
  }

  function HexTokens(bs: seq<Byte>): (t: string)
    ensures |t| == 3 * |bs|
  {
    if |bs| == 0 then [] else HexToken(bs[0]) + HexTokens(bs[1..])
  }

  /** The line `print_hex` writes. */
  function HexLine(data: seq<Byte>, len: int): (line: string)
    requires len <= |data|
    ensures |line| == 8 + 3 * |PreviewBytes(data, len)| + (if len > PreviewLimit then 3 else 0)
    ensures line[..7] == "  Hex: "
    ensures line[7..7 + 3 * |PreviewBytes(data, len)|] == HexTokens(PreviewBytes(data, len))
    ensures len > PreviewLimit ==> line[|line| - 4..|line| - 1] == "..."
    ensures line[|line| - 1] == '\n'
  {
    "  Hex: " + HexTokens(PreviewBytes(data, len)) + (if len > PreviewLimit then "..." else "") + "\n"
  }

  /** Reads hex tokens back; None when the text is not a run of tokens. */
  function ParseHexTokens(t: string): Option<seq<Byte>>
    decreases |t|
  {
    if |t| == 0 then Some([])
    else if |t| < 3 || t[2] != ' ' then None
    else
      var hi := HexDigitValue(t[0]);
      var lo := HexDigitValue(t[1]);
      if hi < 0 || lo < 0 then None
      else match ParseHexTokens(t[3..])
        case None => None
        case Some(rest) => Some([hi * 16 + lo] + rest)
  }

  /** The hex dump loses nothing: the shown bytes can be read back from it. */
  lemma {:induction false} HexTokensRoundTrip(bs: seq<Byte>)
    ensures ParseHexTokens(HexTokens(bs)) == Some(bs)
    decreases |bs|
  {
    if |bs| > 0 {
      var t := HexTokens(bs);
      assert t[3..] == HexTokens(bs[1..]);
      HexTokensRoundTrip(bs[1..]);
      var b := bs[0];
      assert HexDigitValue(t[0]) == b / 16;
      assert HexDigitValue(t[1]) == b % 16;
      assert [b / 16 * 16 + b % 16] + bs[1..] == bs;
    }
  }
}
