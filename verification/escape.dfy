/**
 * The loop of `generate_debug_snippet` that writes the format string into a
 * C string literal: `"`, `\`, newline and tab become two-character escapes,
 * every other character is copied.
 */
module Escape {
  import opened Wrappers

  predicate NeedsEscape(c: char) {
    c == '"' || c == '\\' || c == '\n' || c == '\t'
  }

  function EscapeChar(c: char): (e: string)
    ensures NeedsEscape(c) ==> |e| == 2 && e[0] == '\\'
    ensures !NeedsEscape(c) ==> e == [c]
  {
    if c == '"' then "\\\""
    else if c == '\\' then "\\\\"
    else if c == '\n' then "\\n"
    else if c == '\t' then "\\t"
    else [c]
  }

  /** The number of characters of `s` that need an escape. */
  function Specials(s: string): nat
    decreases |s|
  {
    if |s| == 0 then 0 else (if NeedsEscape(s[0]) then 1 else 0) + Specials(s[1..])
  }

  /** The escaped format, character by character from the front. */
  function Escape(s: string): (e: string)
    ensures |e| == |s| + Specials(s)
    decreases |s|
  {
    if |s| == 0 then [] else EscapeChar(s[0]) + Escape(s[1..])
  }

  /** Undoes Escape; None for text Escape never produces. */
  function Unescape(e: string): Option<string>
    decreases |e|
  {
    if |e| == 0 then Some([])
    else if e[0] == '\\' then
      if |e| < 2 then None
      else
        var c := if e[1] == '"' then '"' else if e[1] == '\\' then '\\'
                 else if e[1] == 'n' then '\n' else if e[1] == 't' then '\t' else '\0';
        if c == '\0' then None
        else match Unescape(e[2..])
          case None => None
          case Some(rest) => Some([c] + rest)
    else if NeedsEscape(e[0]) then None
    else match Unescape(e[1..])
      case None => None
      case Some(rest) => Some([e[0]] + rest)
  }

  /** The escaped text decodes to the format it came from. */
  lemma {:induction false} UnescapeEscape(s: string)
    ensures Unescape(Escape(s)) == Some(s)
    decreases |s|
  {
    if |s| > 0 {
      var e := Escape(s);
      var head := EscapeChar(s[0]);
      assert e == head + Escape(s[1..]);
      assert e[|head|..] == Escape(s[1..]);
      UnescapeEscape(s[1..]);
      assert [s[0]] + s[1..] == s;
    }
  }

  /** So escaping is one-to-one: distinct formats give distinct literals. */
  lemma EscapeInjective(s: string, t: string)
    ensures Escape(s) == Escape(t) ==> s == t
  {
    UnescapeEscape(s);
    UnescapeEscape(t);
  }

  /** A format with nothing to escape is copied unchanged. */
  lemma {:induction false} EscapePlain(s: string)
    requires forall i :: 0 <= i < |s| ==> !NeedsEscape(s[i])
    ensures Escape(s) == s
    decreases |s|
  {
    if |s| > 0 {
      EscapePlain(s[1..]);
      assert [s[0]] + s[1..] == s;
    }
  }
}
