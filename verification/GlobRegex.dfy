/** Compiling one glob segment to a regular expression (packages/kaos/src/internal.ts), the part of
    the regular expression grammar that the text stays in, and when the two mean the same. */
module GlobRegex {
  import opened Wrappers

  // ---- The compiler -------------------------------------------------------------------------

  predicate IsSpecial(c: char) {
    c in {'{', '}', '(', ')', '+', '.', '\\', '[', ']', '^', '$', '|'}
  }

  function Escape(c: char): string { if IsSpecial(c) then ['\\', c] else [c] }

  /** The first position of `c` at or after `from`. */
  function IndexOf(s: string, c: char, from: nat): (i: Option<nat>)
    ensures i.Some? ==> from <= i.value < |s| && s[i.value] == c
    decreases |s| - from
  {
    if from >= |s| then None
    else if s[from] == c then Some(from)
    else IndexOf(s, c, from + 1)
  }

  function DoubleBackslashes(s: string): string
    decreases |s|
  {
    if s == "" then "" else (if s[0] == '\\' then "\\\\" else [s[0]]) + DoubleBackslashes(s[1..])
  }

  function ClassText(inside: string): string {
    var text := DoubleBackslashes(inside);
    if text != "" && text[0] == '!' then "^" + text[1..]
    else if text != "" && text[0] == '^' then "\\" + text
    else text
  }

  /** The text that the first element of a segment compiles to, and that element's length. */
  function First(p: string): (r: (string, nat))
    requires p != ""
    ensures 1 <= r.1 <= |p|
  {
    if p[0] == '*' then ("[^/]*", 1)
    else if p[0] == '?' then ("[^/]", 1)
    else if p[0] == '[' then
      match IndexOf(p, ']', 1)
      case None => ("\\[", 1)
      case Some(end) => ("[" + ClassText(p[1..end]) + "]", end + 1)
    else if p[0] == '\\' then
      if |p| > 1 then (Escape(p[1]), 2) else ("\\\\", 1)
    else (Escape(p[0]), 1)
  }

  function Body(p: string): string
    decreases |p|
  {
    if p == "" then "" else First(p).0 + Body(p[First(p).1..])
  }

  method GlobPatternToRegex(pattern: string) returns (regex: string)
    ensures regex == "^" + Body(pattern) + "$"
  {
    hide Body, IndexOf, ClassText, Escape;
    regex := "^";
    var i: nat := 0;
    assert pattern[0..] == pattern;
    while i < |pattern|
      invariant 0 <= i <= |pattern|
      invariant regex + Body(pattern[i..]) == "^" + Body(pattern)
    {
      BodyStep(pattern, i, regex);
      ghost var piece, next := First(pattern[i..]).0, i + First(pattern[i..]).1;
      var ch := pattern[i];
      if ch == '*' {
        regex := regex + "[^/]*";
      } else if ch == '?' {
        regex := regex + "[^/]";
      } else if ch == '[' {
        var end := IndexOf(pattern[i..], ']', 1);
        if end.None? {
          regex := regex + "\\[";
        } else {
          var charClass := ClassText(pattern[i..][1..end.value]);
          regex := regex + ("[" + charClass + "]");
          i := i + end.value;
        }
      } else if ch == '\\' {
        if i + 1 < |pattern| {
          regex := regex + Escape(pattern[i + 1]);
          i := i + 1;
        } else {
          regex := regex + "\\\\";
        }
      } else {
        regex := regex + Escape(ch);
      }
      i := i + 1;
      assert i == next;
    }
    BodyDone(pattern[i..]);
    assert regex + "" == regex;
    regex := regex + "$";
  }

  lemma BodyStep(p: string, i: nat, before: string)
    requires i < |p|
    ensures var f := First(p[i..]);
            before + Body(p[i..]) == (before + f.0) + Body(p[i + f.1..])
  {
    var f := First(p[i..]);
    assert p[i..][f.1..] == p[i + f.1..];
    assert before + (f.0 + Body(p[i + f.1..])) == before + f.0 + Body(p[i + f.1..]);
  }

  lemma BodyDone(p: string)
    requires p == ""
    ensures Body(p) == ""
  {}
}
