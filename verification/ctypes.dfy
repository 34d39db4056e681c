/**
 * The C integer types the harness relies on, with the conversions between
 * them written out: Dafny integers are unbounded, C's are not.
 */
module CTypes {

  /** An `unsigned char`. */
  type Byte = b: int | 0 <= b < 0x100

  /** A 32-bit `int`. */
  type Int32 = x: int | -0x8000_0000 <= x < 0x8000_0000

  /** A 64-bit `long`, the width of a `void*` slot on the targets the tester is built for. */
  type Long = x: int | -0x8000_0000_0000_0000 <= x < 0x8000_0000_0000_0000

  const TwoTo64: int := 0x1_0000_0000_0000_0000

  /** A C string: the terminating NUL is implicit, so no NUL occurs inside. */
  type CStr = s: string | '\0' !in s

  function Min(a: int, b: int): int {
    if a <= b then a else b
  }

  /** `(long)a` on a two's-complement target: the value congruent to `a` modulo 2^64 in the `long` range. */
  function ToLong(a: int): (r: Long)
    ensures (r - a) % TwoTo64 == 0
    ensures -0x8000_0000_0000_0000 <= a < 0x8000_0000_0000_0000 ==> r == a
  {
    var m := a % TwoTo64;
    if m < 0x8000_0000_0000_0000 then m else m - TwoTo64
  }

  /** `(unsigned long)a`: the value congruent to `a` modulo 2^64 in [0, 2^64). */
  function ToUnsignedLong(a: int): (r: nat)
    ensures r < TwoTo64
    ensures (r - a) % TwoTo64 == 0
    ensures 0 <= a < TwoTo64 ==> r == a
  {
    a % TwoTo64
  }

  /** `(unsigned char)a`, which is how `%c` turns its `int` argument into the byte it prints. */
  function ToUnsignedChar(a: int): (r: Byte)
    ensures (r - a) % 0x100 == 0
    ensures 0 <= a < 0x100 ==> r == a
  {
    a % 0x100
  }

  /** A C `long` is NULL-as-pointer exactly when its 64-bit pattern is all zeros. */
  lemma ToLongZero(a: int)
    ensures ToLong(a) == 0 <==> a % TwoTo64 == 0
  {
  }

  // Decimal rendering of a non-negative number, as `%d` prints it.

  predicate IsDigit(c: char) {
    '0' <= c <= '9'
  }

  predicate AllDigits(s: string) {
    forall i :: 0 <= i < |s| ==> IsDigit(s[i])
  }

  function DigitChar(d: int): (c: char)
    requires 0 <= d < 10
    ensures IsDigit(c)
  {
    "0123456789"[d]
  }

  function DigitValue(c: char): (d: nat)
    requires IsDigit(c)
    ensures d < 10
  {
    (c as int) - ('0' as int)
  }

  /** The decimal numeral of `n`: at least one digit, digits only, no leading zero. */
  function Decimal(n: nat): (s: string)
    ensures |s| >= 1 && AllDigits(s)
    ensures |s| > 1 ==> s[0] != '0'
    decreases n
  {
    if n < 10 then [DigitChar(n)] else Decimal(n / 10) + [DigitChar(n % 10)]
  }

  /** Reads a decimal numeral back. */
  function ParseDecimal(s: string): nat
    requires AllDigits(s)
    decreases |s|
  {
    if |s| == 0 then 0 else ParseDecimal(s[..|s| - 1]) * 10 + DigitValue(s[|s| - 1])
  }

  lemma {:induction false} DecimalRoundTrip(n: nat)
    ensures ParseDecimal(Decimal(n)) == n
    decreases n
  {
    if n >= 10 {
      var s := Decimal(n);
      assert s[..|s| - 1] == Decimal(n / 10);
      DecimalRoundTrip(n / 10);
    }
  }
}
