/** Character classes: what the text in brackets says, and how the text that it compiles to reads as a
    class of a regular expression (packages/kaos/src/internal.ts). */
module GlobClass {
  import opened Wrappers
  import opened GlobRegex

  /** The characters of a class: single ones, and ranges from one to another. Only the place of a `-`
      makes a range; no other character means anything but itself. */
  predicate InClass(members: string, c: char)
    decreases |members|
  {
    if members == "" then false
    else if |members| >= 3 && members[1] == '-' then
      members[0] <= c <= members[2] || InClass(members[3..], c)
    else members[0] == c || InClass(members[1..], c)
  }

  /** No range runs backwards. */
  predicate Ordered(members: string)
    decreases |members|
  {
    if members == "" then true
    else if |members| >= 3 && members[1] == '-' then
      members[0] <= members[2] && Ordered(members[3..])
    else Ordered(members[1..])
  }

  /** A class as a segment has it: negated by a leading `!`. */
  function IsNegated(inside: string): bool { inside != "" && inside[0] == '!' }

  function Members(inside: string): string { if IsNegated(inside) then inside[1..] else inside }

  // ---- In a regular expression --------------------------------------------------------------

  /** The characters with a meaning of their own in a regular expression (SyntaxCharacter in section
      22.2.1 of the ECMAScript language specification). */
  predicate IsSyntax(c: char) {
    c in {'^', '$', '\\', '.', '*', '+', '?', '(', ')', '[', ']', '{', '}', '|'}
  }

  /** The members up to the closing bracket, and how much text they take, the bracket included. A
      backslash makes the next character literal. */
  function ParseMembers(t: string): (r: Option<(string, nat)>)
    ensures r.Some? ==> 1 <= r.value.1 <= |t|
    decreases |t|
  {
    if t == "" then None
    else if t[0] == ']' then Some(("", 1))
    else if t[0] == '\\' then
      if |t| < 2 || !IsSyntax(t[1]) then None
      else
        var rest := ParseMembers(t[2..]);
        if rest.None? then None else Some(([t[1]] + rest.value.0, rest.value.1 + 2))
    else
      var rest := ParseMembers(t[1..]);
      if rest.None? then None else Some(([t[0]] + rest.value.0, rest.value.1 + 1))
  }

  /** What follows an opening bracket: a leading `^` negates the class. */
  function ParseClass(t: string): (r: Option<(bool, string, nat)>)
    ensures r.Some? ==> 1 <= r.value.2 <= |t|
  {
    var negated := t != "" && t[0] == '^';
    var rest := ParseMembers(if negated then t[1..] else t);
    if rest.None? then None
    else Some((negated, rest.value.0, rest.value.1 + if negated then 1 else 0))
  }

  /** The text that negation and members compile to. */
  function TextOf(negated: bool, members: string): string {
    if negated then "^" + DoubleBackslashes(members)
    else if members != "" && members[0] == '^' then "\\" + DoubleBackslashes(members)
    else DoubleBackslashes(members)
  }

  lemma ClassTextIs(inside: string)
    ensures ClassText(inside) == TextOf(IsNegated(inside), Members(inside))
  {
    if inside != "" {
      assert DoubleBackslashes(inside)
          == (if inside[0] == '\\' then "\\\\" else [inside[0]]) + DoubleBackslashes(inside[1..]);
    }
  }

  lemma {:induction false} MembersReadBack(members: string, rest: string)
    requires ']' !in members
    ensures ParseMembers(DoubleBackslashes(members) + "]" + rest)
         == Some((members, |DoubleBackslashes(members)| + 1))
    decreases |members|
  {
    var tail := DoubleBackslashes(members) + "]" + rest;
    if members == "" {
      assert tail == "]" + rest;
    } else {
      var first := if members[0] == '\\' then "\\\\" else [members[0]];
      var more := DoubleBackslashes(members[1..]) + "]" + rest;
      assert tail == first + more;
      assert tail[|first|..] == more;
      assert members[0] in members;
      MembersReadBack(members[1..], rest);
      assert [members[0]] + members[1..] == members;
    }
  }

  /** The class that the text says is the class that the segment says. */
  lemma ClassReadsBack(negated: bool, members: string, rest: string)
    requires ']' !in members
    ensures ParseClass(TextOf(negated, members) + "]" + rest)
         == Some((negated, members, |TextOf(negated, members)| + 1))
  {
    var doubled := DoubleBackslashes(members);
    MembersReadBack(members, rest);
    if negated {
      NegatedReadsBack(doubled, members, rest);
    } else if members != "" && members[0] == '^' {
      CaretReadsBack(members, rest);
    } else {
      PlainStart(members, rest);
    }
  }

  lemma NegatedReadsBack(doubled: string, members: string, rest: string)
    requires ParseMembers(doubled + "]" + rest) == Some((members, |doubled| + 1))
    ensures ParseClass("^" + doubled + "]" + rest) == Some((true, members, |doubled| + 2))
  {
    hide ParseMembers;
    assert ("^" + doubled + "]" + rest)[1..] == doubled + "]" + rest;
  }

  /** An escaped leading `^` is a `^`. */
  lemma CaretReadsBack(members: string, rest: string)
    requires ']' !in members && members != "" && members[0] == '^'
    ensures ParseClass("\\" + DoubleBackslashes(members) + "]" + rest)
         == Some((false, members, |DoubleBackslashes(members)| + 2))
  {
    var doubled := DoubleBackslashes(members[1..]);
    CaretFirst(members);
    hide *;
    MembersReadBack(members[1..], rest);
    EscapedCaret(doubled, members[1..], rest);
    Regroup(doubled, rest);
  }

  lemma CaretFirst(members: string)
    requires members != "" && members[0] == '^' && ']' !in members
    ensures DoubleBackslashes(members) == "^" + DoubleBackslashes(members[1..])
    ensures "^" + members[1..] == members && ']' !in members[1..]
  {}

  lemma Regroup(doubled: string, rest: string)
    ensures "\\" + ("^" + doubled) + "]" + rest == "\\^" + doubled + "]" + rest
    ensures |"^" + doubled| == |doubled| + 1
  {}

  lemma EscapedCaret(doubled: string, members: string, rest: string)
    requires ParseMembers(doubled + "]" + rest) == Some((members, |doubled| + 1))
    ensures ParseClass("\\^" + doubled + "]" + rest)
         == Some((false, "^" + members, |doubled| + 3))
  {
    assert ("\\^" + doubled + "]" + rest)[2..] == doubled + "]" + rest;
  }

  lemma PlainStart(members: string, rest: string)
    requires members == "" || members[0] != '^'
    ensures (DoubleBackslashes(members) + "]" + rest)[0] != '^'
  {}
}
