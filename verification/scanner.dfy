/**
 * The argument scanner of `generate_debug_snippet`: it walks the format and
 * decides, for each of the three slots, whether the reproduction call gets it
 * as an argument and how it is written there.
 *
 * The specification is split in two steps. `Candidates` is the walk: the
 * character after every `%` the scanner stops at, which does not depend on
 * the slots. `Consume` then hands those characters the slots in order.
 */
module Scanner {
  import opened CTypes
  import Arity

  /** The conversions the switch has a case for. */
  predicate IsConversion(c: char) {
    c in "csdiuxXp"
  }

  /**
   * The conversions whose slot is used even when it is NULL: the `strchr`
   * set "cdiuxX", which is every conversion but `s` and `p`.
   */
  predicate NullTolerant(c: char) {
    IsConversion(c) && c != 's' && c != 'p'
  }

  /** How a slot is written into the reproduction call. */
  datatype Lit =
    | CharLit(b: Byte)        // ", '%c'"
    | StrLit(addr: Long)      // ", \"%s\"" of the string at that address
    | NullLit                 // ", NULL"
    | SignedLit(n: Long)      // ", %ld"
    | UnsignedLit(v: nat)     // ", %lu"
    | HexLit(v: nat)          // ", 0x%lX", for both %x and %X
    | PtrLit(v: nat)          // ", (void*)0x%lX"

  /** The guard in front of the switch together with the switch having a case. */
  predicate Takes(c: char, slot: Long) {
    IsConversion(c) && (slot != 0 || NullTolerant(c))
  }

  /**
   * One case of the switch, with its casts. Only `s` and `p` print NULL, and
   * only for a NULL slot; every other rendering is a reading of the slot.
   */
  function Render(c: char, slot: Long): (lit: Lit)
    requires IsConversion(c)
    ensures lit == NullLit <==> (c == 's' || c == 'p') && slot == 0
    ensures lit != NullLit ==> FromSlot(lit, slot)
    ensures lit.CharLit? <==> c == 'c'
    ensures lit.StrLit? <==> c == 's' && slot != 0
    ensures lit.PtrLit? <==> c == 'p' && slot != 0
    ensures lit.SignedLit? <==> c == 'd' || c == 'i'
    ensures lit.UnsignedLit? <==> c == 'u'
    ensures lit.HexLit? <==> c == 'x' || c == 'X'
  {
    if c == 'c' then CharLit(ToUnsignedChar(slot))
    else if c == 's' then (if slot == 0 then NullLit else StrLit(slot))
    else if c == 'd' || c == 'i' then SignedLit(slot)
    else if c == 'u' then UnsignedLit(ToUnsignedLong(slot))
    else if c == 'x' || c == 'X' then HexLit(ToUnsignedLong(slot))
    else if slot == 0 then NullLit else PtrLit(ToUnsignedLong(slot))
  }

  /** `lit` is a rendering of the slot value `v` that some case of the switch produces for a non-NULL-rejecting guard. */
  predicate FromSlot(lit: Lit, v: Long) {
    match lit
    case CharLit(b) => b == ToUnsignedChar(v)
    case StrLit(a) => a == v && v != 0
    case NullLit => false
    case SignedLit(x) => x == v
    case UnsignedLit(x) => x == ToUnsignedLong(v)
    case HexLit(x) => x == ToUnsignedLong(v)
    case PtrLit(x) => x == ToUnsignedLong(v) && v != 0
  }

  /**
   * The walk of the format: a `%` followed by a character that is neither
   * the end nor another `%` yields that character and the walk resumes after
   * it; anything else, including the first `%` of a `%%` pair, moves on by
   * one character only.
   */
  function Candidates(f: string): (cs: seq<char>)
    ensures 2 * |cs| <= |f|
    ensures forall k :: 0 <= k < |cs| ==> cs[k] != '%'
    ensures forall k :: 0 <= k < |cs| ==> exists i :: 0 <= i < |f| - 1 && f[i] == '%' && f[i + 1] == cs[k]
    decreases |f|
  {
    if |f| == 0 then []
    else if f[0] == '%' && |f| > 1 && f[1] != '%' then [f[1]] + Candidates(f[2..])
    else Candidates(f[1..])
  }

  /** Position `i` holds a `%` followed by a character other than `%`. */
  predicate IsStop(f: string, i: int) {
    0 <= i < |f| - 1 && f[i] == '%' && f[i + 1] != '%'
  }

  /**
   * A reference for the walk that looks at every position instead of
   * jumping: the character after each stop from `i` on, left to right.
   */
  function StopChars(f: string, i: nat): seq<char>
    decreases |f| - i
  {
    if i >= |f| then [] else (if IsStop(f, i) then [f[i + 1]] else []) + StopChars(f, i + 1)
  }

  /**
   * The walk yields exactly the character after every `%` that is followed
   * by a character other than `%`, in order: jumping over the converted
   * character never skips a stop, because that character is not a `%`.
   */
  lemma {:induction false} CandidatesAreStops(f: string, i: nat)
    requires i <= |f|
    ensures Candidates(f[i..]) == StopChars(f, i)
    decreases |f| - i
  {
    if i < |f| {
      if IsStop(f, i) {
        AtStop(f, i);
        CandidatesAreStops(f, i + 2);
      } else {
        AtNonStop(f, i);
        CandidatesAreStops(f, i + 1);
      }
    }
  }

  /** At a stop, the walk and the reference both yield the next character and go on two positions later. */
  lemma AtStop(f: string, i: nat)
    requires IsStop(f, i)
    ensures Candidates(f[i..]) == [f[i + 1]] + Candidates(f[i + 2..])
    ensures StopChars(f, i) == [f[i + 1]] + StopChars(f, i + 2)
  {
    var rest := f[i..];
    assert rest[0] == '%' && rest[1] == f[i + 1] != '%';
    assert rest[2..] == f[i + 2..];
    assert StopChars(f, i + 1) == [] + StopChars(f, i + 2);
  }

  /** Anywhere else, both yield nothing and go on to the next position. */
  lemma AtNonStop(f: string, i: nat)
    requires i < |f| && !IsStop(f, i)
    ensures Candidates(f[i..]) == Candidates(f[i + 1..])
    ensures StopChars(f, i) == StopChars(f, i + 1)
  {
    var rest := f[i..];
    assert !(rest[0] == '%' && |rest| > 1 && rest[1] != '%');
    assert rest[1..] == f[i + 1..];
  }

  /**
   * Handing the slots from `idx` on to the candidates: a candidate the guard
   * and the switch accept takes the current slot; any other leaves the slot
   * for the next candidate. No more than three slots are ever taken, and the
   * k-th literal comes from slot idx + k.
   */
  function Consume(cs: seq<char>, slots: Arity.Slots, idx: nat): (lits: seq<Lit>)
    requires idx <= 3
    ensures |lits| <= 3 - idx && |lits| <= |cs|
    ensures forall k :: 0 <= k < |lits| ==> FromSlot(lits[k], slots[idx + k])
    ensures |cs| > 0 && idx < 3 && Takes(cs[0], slots[idx]) ==> |lits| > 0 && lits[0] == Render(cs[0], slots[idx])
    decreases |cs|
  {
    if |cs| == 0 || idx == 3 then []
    else if Takes(cs[0], slots[idx]) then [Render(cs[0], slots[idx])] + Consume(cs[1..], slots, idx + 1)
    else Consume(cs[1..], slots, idx)
  }

  /** The literals the scanner emits for a format. */
  function Scan(format: CStr, slots: Arity.Slots): seq<Lit> {
    Consume(Candidates(format), slots, 0)
  }

  /**
   * The scanning loop as written. It emits at most three literals, the k-th
   * from slot k, and never one of the NULL literals: the guard keeps NULL
   * slots away from the `s` and `p` cases.
   */
  method ScanArgs(format: CStr, slots: Arity.Slots) returns (args: seq<Lit>)
    ensures args == Scan(format, slots)
    ensures |args| <= 3
    ensures forall k :: 0 <= k < |args| ==> FromSlot(args[k], slots[k]) && args[k] != NullLit
  {
    var p := 0;
    var idx := 0;
    args := [];
    while p < |format| && idx < 3
      invariant 0 <= p <= |format|
      invariant 0 <= idx <= 3
      invariant args + Consume(Candidates(format[p..]), slots, idx) == Scan(format, slots)
      decreases |format| - p
    {
      var emitted, p', idx' := ScanStep(format, p, slots, idx);
      AppendAssoc(args, emitted, Consume(Candidates(format[p'..]), slots, idx'));
      args, p, idx := args + emitted, p', idx';
    }
    assert args + [] == args;
    ScanFacts(format, slots);
  }

  lemma AppendAssoc(a: seq<Lit>, b: seq<Lit>, c: seq<Lit>)
    ensures a + (b + c) == (a + b) + c
  {
  }

  /** What the scan emits: at most three literals, the k-th from slot k, none of them NULL. */
  lemma ScanFacts(format: CStr, slots: Arity.Slots)
    ensures |Scan(format, slots)| <= 3
    ensures forall k :: 0 <= k < |Scan(format, slots)| ==> FromSlot(Scan(format, slots)[k], slots[k]) && Scan(format, slots)[k] != NullLit
  {
  }

  /**
   * One pass of the loop body at position `p`: what it prints (at most one
   * literal), and where the position and the slot index go. Together with
   * the rest of the walk from the new position, it accounts for the rest of
   * the walk from `p`.
   */
  method ScanStep(format: CStr, p: nat, slots: Arity.Slots, idx: nat)
    returns (emitted: seq<Lit>, p': nat, idx': nat)
    requires p < |format| && idx < 3
    ensures p < p' <= |format|
    ensures idx' == idx + |emitted| && |emitted| <= 1
    ensures Consume(Candidates(format[p..]), slots, idx) == emitted + Consume(Candidates(format[p'..]), slots, idx')
  {
    emitted := [];
    idx' := idx;
    if format[p] == '%' && p + 1 < |format| && format[p + 1] != '%' {
      // The `p++` to the conversion character, then the `p++` past it.
      var conv := format[p + 1];
      StopStep(format, p, slots, idx);
      if slots[idx] != 0 || NullTolerant(conv) {
        if IsConversion(conv) {
          emitted := [Render(conv, slots[idx])];
          idx' := idx + 1;
        }
      }
      p' := p + 2;
    } else {
      PlainStep(format, p, slots, idx);
      p' := p + 1;
    }
  }

  /** One step of the loop at a stop: the candidate after the `%` takes the current slot or leaves it. */
  lemma StopStep(f: string, p: nat, slots: Arity.Slots, idx: nat)
    requires idx < 3 && p + 1 < |f| && f[p] == '%' && f[p + 1] != '%'
    ensures Consume(Candidates(f[p..]), slots, idx) ==
      if Takes(f[p + 1], slots[idx]) then [Render(f[p + 1], slots[idx])] + Consume(Candidates(f[p + 2..]), slots, idx + 1)
      else Consume(Candidates(f[p + 2..]), slots, idx)
  {
    var rest := f[p..];
    assert rest[2..] == f[p + 2..];
    assert Candidates(rest) == [f[p + 1]] + Candidates(f[p + 2..]);
  }

  /** One step of the loop anywhere else: the walk moves on by one character. */
  lemma PlainStep(f: string, p: nat, slots: Arity.Slots, idx: nat)
    requires idx <= 3 && p < |f| && !(f[p] == '%' && p + 1 < |f| && f[p + 1] != '%')
    ensures Consume(Candidates(f[p..]), slots, idx) == Consume(Candidates(f[p + 1..]), slots, idx)
  {
    assert f[p..][1..] == f[p + 1..];
  }

  /**
   * When the guard and the switch accept every candidate at the slot it
   * meets, the slots go to the candidates one for one, up to the third.
   */
  lemma {:induction false} ConsumeAccepted(cs: seq<char>, slots: Arity.Slots, idx: nat)
    requires idx <= 3
    requires forall k :: 0 <= k < |cs| && idx + k < 3 ==> Takes(cs[k], slots[idx + k])
    ensures |Consume(cs, slots, idx)| == Min(|cs|, 3 - idx)
    ensures forall k :: 0 <= k < |Consume(cs, slots, idx)| ==>
      Takes(cs[k], slots[idx + k]) && Consume(cs, slots, idx)[k] == Render(cs[k], slots[idx + k])
    decreases |cs|
  {
    if |cs| > 0 && idx < 3 {
      forall k | 0 <= k < |cs[1..]| && idx + 1 + k < 3
        ensures Takes(cs[1..][k], slots[idx + 1 + k])
      {
        assert cs[1..][k] == cs[k + 1];
      }
      ConsumeAccepted(cs[1..], slots, idx + 1);
    }
  }

  /**
   * The conversions of the `strchr` set take their slot even when it is
   * NULL: `TEST3("%d %d %d", 1, NULL, 3)` reproduces all three arguments.
   */
  lemma NullTolerantTakesEverySlot(cs: seq<char>, slots: Arity.Slots, idx: nat)
    requires idx <= 3
    requires forall k :: 0 <= k < |cs| ==> NullTolerant(cs[k])
    ensures |Consume(cs, slots, idx)| == Min(|cs|, 3 - idx)
    ensures forall k :: 0 <= k < |Consume(cs, slots, idx)| ==>
      Takes(cs[k], slots[idx + k]) && Consume(cs, slots, idx)[k] == Render(cs[k], slots[idx + k])
  {
    ConsumeAccepted(cs, slots, idx);
  }

  /** A candidate that no case of the switch handles, or a NULL slot at `s`/`p`, takes no slot. */
  lemma {:induction false} RejectedCandidateKeepsSlot(cs: seq<char>, slots: Arity.Slots, idx: nat)
    requires idx < 3 && |cs| > 0
    requires !IsConversion(cs[0]) || (slots[idx] == 0 && (cs[0] == 's' || cs[0] == 'p'))
    ensures Consume(cs, slots, idx) == Consume(cs[1..], slots, idx)
  {
  }

  /**
   * The walk does not skip a `%%` pair as a unit: the second `%` is looked
   * at again, so in `%%d` it starts a conversion.
   */
  lemma PercentPairIsNotSkipped()
    ensures Candidates("%%") == []
    ensures Candidates("%%d") == ['d']
  {
    assert "%%"[1..] == "%";
    assert "%"[1..] == [];
    assert "%%d"[1..] == "%d";
    assert "%d"[2..] == [];
  }

  /**
   * After `%`-free text, a `%%` pair followed by a character `c` other than
   * `%` yields `c`: in `100%% complete` the space after the pair is taken for
   * a conversion.
   */
  lemma PercentPairBeforeText(a: string, c: char, b: string)
    requires '%' !in a && c != '%'
    ensures Candidates(a + ['%', '%', c] + b) == [c] + Candidates(b)
  {
    var pair := ['%', '%', c] + b;
    assert a + ['%', '%', c] + b == a + pair;
    CandidatesAfterPlain(a, pair);
    assert pair[1..] == ['%', c] + b;
    CandidatesConversion(c, b);
  }

  /** A `%` and a character other than `%` yield that character, and the walk resumes after the pair. */
  lemma CandidatesConversion(c: char, rest: string)
    requires c != '%'
    ensures Candidates(['%', c] + rest) == [c] + Candidates(rest)
  {
    assert (['%', c] + rest)[2..] == rest;
  }

  /** Text without `%` in front of a format does not change its candidates. */
  lemma {:induction false} CandidatesAfterPlain(a: string, b: string)
    requires '%' !in a
    ensures Candidates(a + b) == Candidates(b)
    decreases |a|
  {
    if |a| > 0 {
      assert a[0] in a;
      assert (a + b)[0] == a[0] != '%';
      assert (a + b)[1..] == a[1..] + b;
      CandidatesAfterPlain(a[1..], b);
    } else {
      assert a + b == b;
    }
  }

  /** So `%%d` with one argument consumes it, as a `%d` would. */
  lemma PercentPairConsumesSlot()
    ensures Scan("%%d", Arity.Test1(5)) == [SignedLit(5)]
  {
    PercentPairIsNotSkipped();
    var slots := Arity.Test1(5);
    assert Takes('d', slots[0]);
    assert Consume(['d'], slots, 0) == [Render('d', slots[0])] + Consume([], slots, 1);
  }


  /**
   * A NULL slot at `%p` does not move the scanner on to the next slot, so the
   * next conversion meets the same NULL: for `TEST2("%p %p", NULL, 0x123)` the
   * reproduction call gets no arguments, although the test itself forwards two.
   */
  lemma NullPointerSlotStalls()
    ensures Arity.Arity(Arity.Test2(0, 0x123)) == 2
    ensures Scan("%p %p", Arity.Test2(0, 0x123)) == []
  {
    var f := "%p %p";
    assert f[2..] == " %p";
    assert f[2..][1..] == "%p";
    assert f[2..][1..][2..] == [];
    assert Candidates(f) == ['p', 'p'];
  }
}
