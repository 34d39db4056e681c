/**
 * How many of the three `void*` argument slots the child forwards to the
 * formatting function, and how the TEST macros fill those slots.
 */
module Arity {
  import opened CTypes

  /** The three argument slots of one invocation; a slot holding 0 is NULL. */
  type Slots = s: seq<Long> | |s| == 3 witness [0, 0, 0]

  predicate IsNull(v: Long) {
    v == 0
  }

  /**
   * The if/else-if chain of the child: every slot from the returned count
   * on is NULL and the one just before it is not, so the count is one past
   * the last non-NULL slot (0 when all three are NULL).
   */
  function Arity(s: Slots): (n: nat)
    ensures n <= 3
    ensures n > 0 ==> !IsNull(s[n - 1])
    ensures forall i :: n <= i < 3 ==> IsNull(s[i])
  {
    if IsNull(s[0]) && IsNull(s[1]) && IsNull(s[2]) then 0
    else if IsNull(s[1]) && IsNull(s[2]) then 1
    else if IsNull(s[2]) then 2
    else 3
  }

  /** Only one count meets the description of Arity: it is unique. */
  lemma ArityUnique(s: Slots, n: nat)
    requires n <= 3
    requires n > 0 ==> !IsNull(s[n - 1])
    requires forall i :: n <= i < 3 ==> IsNull(s[i])
    ensures n == Arity(s)
  {
  }

  /** The argument list the callable receives. */
  function Forwarded(s: Slots): (args: seq<Long>)
    ensures |args| == Arity(s)
    ensures forall i :: 0 <= i < |args| ==> args[i] == s[i]
  {
    s[..Arity(s)]
  }

  // The TEST, TEST1, TEST2 and TEST3 macros: each value goes through `(void*)(long)`.

  function Test1(a: int): Slots {
    [ToLong(a), 0, 0]
  }

  function Test2(a: int, b: int): Slots {
    [ToLong(a), ToLong(b), 0]
  }

  function Test3(a: int, b: int, c: int): Slots {
    [ToLong(a), ToLong(b), ToLong(c)]
  }

  /** A TEST1 argument whose value is 0 (`TEST1("%d", 0)`, `TEST1("%c", '\0')`) is not forwarded at all. */
  lemma Test1ZeroIsDropped(a: int)
    ensures Forwarded(Test1(a)) == [] <==> a % TwoTo64 == 0
  {
    ToLongZero(a);
  }

  /** A TEST2 call forwards both values unless the second is 0, whatever the first is. */
  lemma Test2Arity(a: int, b: int)
    ensures Arity(Test2(a, b)) == (if ToLong(b) != 0 then 2 else if ToLong(a) != 0 then 1 else 0)
  {
  }

  /** A TEST3 call forwards all three values exactly when the third is not 0. */
  lemma Test3Arity(a: int, b: int, c: int)
    ensures Arity(Test3(a, b, c)) == 3 <==> c % TwoTo64 != 0
  {
    ToLongZero(c);
  }
}
