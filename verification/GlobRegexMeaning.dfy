/** The compiled text read back as a regular expression, against what the glob segment says. */
module GlobRegexMeaning {
  import opened Wrappers
  import opened GlobRegex
  import opened GlobClass

  // ---- Glob segments ------------------------------------------------------------------------

  /** The elements of a segment. A backslash makes the next character literal; `Quoted` keeps apart
      the two characters, `*` and `?`, that the compiler then copies into the regular expression as
      they are. */
  datatype Token =
    | Star
    | AnyChar
    | Lit(c: char)
    | Quoted(c: char)
    | Class(negated: bool, members: string)

  function Tokens(p: string): seq<Token>
    decreases |p|
  {
    if p == "" then [] else [FirstToken(p)] + Tokens(p[First(p).1..])
  }

  function FirstToken(p: string): Token
    requires p != ""
  {
    if p[0] == '*' then Star
    else if p[0] == '?' then AnyChar
    else if p[0] == '[' && IndexOf(p, ']', 1).Some? then
      var inside := p[1..IndexOf(p, ']', 1).value];
      Class(IsNegated(inside), Members(inside))
    else if p[0] == '\\' && |p| > 1 then
      if p[1] == '*' || p[1] == '?' then Quoted(p[1]) else Lit(p[1])
    else Lit(p[0])
  }

  /** Wildcard semantics: `*` takes any run of characters, `?` any one character, a class any one that
      is in it, or not in it. */
  predicate GlobAccepts(toks: seq<Token>, name: string)
    decreases |toks|
  {
    if toks == [] then name == ""
    else match toks[0]
         case Star => exists k :: 0 <= k <= |name| && GlobAccepts(toks[1..], name[k..])
         case AnyChar => name != "" && GlobAccepts(toks[1..], name[1..])
         case Lit(c) => name != "" && name[0] == c && GlobAccepts(toks[1..], name[1..])
         case Quoted(c) => name != "" && name[0] == c && GlobAccepts(toks[1..], name[1..])
         case Class(negated, members) =>
           name != "" && InClass(members, name[0]) != negated && GlobAccepts(toks[1..], name[1..])
  }

  // ---- Regular expressions ------------------------------------------------------------------

  datatype Atom = Chr(c: char) | OneOf(negated: bool, members: string)

  /** `[^/]` */
  const NON_SLASH := OneOf(true, "/")

  datatype Quantifier = One | ZeroOrMore | ZeroOrOne

  datatype Item = Item(atom: Atom, quantifier: Quantifier)

  /** Reads one atom: a class, an escaped special character, or an ordinary character. A range that
      runs backwards is a syntax error. */
  function ParseAtom(t: string): (r: Option<(Atom, nat)>)
    ensures r.Some? ==> 1 <= r.value.1 <= |t|
  {
    if |t| >= 1 && t[0] == '[' then
      var c := ParseClass(t[1..]);
      if c.None? || !Ordered(c.value.1) then None
      else Some((OneOf(c.value.0, c.value.1), c.value.2 + 1))
    else if |t| >= 2 && t[0] == '\\' && IsSyntax(t[1]) then Some((Chr(t[1]), 2))
    else if |t| >= 1 && !IsSyntax(t[0]) then Some((Chr(t[0]), 1))
    else None
  }

  /** Reads the quantifier of an atom; a question mark after it only makes it lazy. */
  function ParseQuantifier(t: string): (r: (Quantifier, nat))
    ensures r.1 <= |t|
  {
    if t == "" || (t[0] != '*' && t[0] != '?') then (One, 0)
    else
      var q := if t[0] == '*' then ZeroOrMore else ZeroOrOne;
      if |t| > 1 && t[1] == '?' then (q, 2) else (q, 1)
  }

  /** The text between `^` and the final `$`; None is a syntax error, or text outside the part
      of the grammar that the compiler uses. */
  function ParseItems(t: string): Option<seq<Item>>
    decreases |t|
  {
    if t == "$" then Some([])
    else
      var a := ParseAtom(t);
      if a.None? then None
      else
        var afterAtom := t[a.value.1..];
        var q := ParseQuantifier(afterAtom);
        var rest := ParseItems(afterAtom[q.1..]);
        if rest.None? then None else Some([Item(a.value.0, q.0)] + rest.value)
  }

  function ParseRegex(t: string): Option<seq<Item>> {
    if t != "" && t[0] == '^' then ParseItems(t[1..]) else None
  }

  predicate AtomAccepts(a: Atom, c: char) {
    match a
    case Chr(d) => c == d
    case OneOf(negated, members) => InClass(members, c) != negated
  }

  predicate RegexAccepts(items: seq<Item>, name: string)
    decreases |items| + |name|
  {
    if items == [] then name == ""
    else
      var first := name != "" && AtomAccepts(items[0].atom, name[0]);
      match items[0].quantifier
      case One => first && RegexAccepts(items[1..], name[1..])
      case ZeroOrOne =>
        RegexAccepts(items[1..], name) || (first && RegexAccepts(items[1..], name[1..]))
      case ZeroOrMore =>
        RegexAccepts(items[1..], name) || (first && RegexAccepts(items, name[1..]))
  }

  // ---- Text and tokens ----------------------------------------------------------------------

  function TokenText(t: Token): string {
    match t
    case Star => "[^/]*"
    case AnyChar => "[^/]"
    case Lit(c) => Escape(c)
    case Quoted(c) => [c]
    case Class(negated, members) => "[" + TextOf(negated, members) + "]"
  }

  /** The text of the elements, and the closing `$`. */
  function Text(toks: seq<Token>): string
    decreases |toks|
  {
    if toks == [] then "$" else TokenText(toks[0]) + Text(toks[1..])
  }

  /** A literal is never a bare `*` or `?`, a quoted character always is, and a class ends at the
      first closing bracket. */
  ghost predicate ProperToken(t: Token) {
    match t
    case Lit(c) => c != '*' && c != '?'
    case Quoted(c) => c == '*' || c == '?'
    case Class(_, members) => ']' !in members
    case _ => true
  }

  ghost predicate Proper(toks: seq<Token>) {
    forall i :: 0 <= i < |toks| ==> ProperToken(toks[i])
  }

  lemma {:induction false} IndexOfFirst(s: string, c: char, from: nat)
    ensures IndexOf(s, c, from).Some? ==>
              forall i :: from <= i < IndexOf(s, c, from).value ==> s[i] != c
    decreases |s| - from
  {
    if from < |s| && s[from] != c {
      IndexOfFirst(s, c, from + 1);
    }
  }

  lemma FirstTokenText(p: string)
    requires p != ""
    ensures First(p).0 == TokenText(FirstToken(p)) && ProperToken(FirstToken(p))
  {
    if p[0] == '[' && IndexOf(p, ']', 1).Some? {
      var inside := p[1..IndexOf(p, ']', 1).value];
      IndexOfFirst(p, ']', 1);
      ClassTextIs(inside);
      assert forall i :: 0 <= i < |inside| ==> inside[i] == p[i + 1];
    }
  }

  lemma {:induction false} BodyIsText(p: string)
    ensures Body(p) + "$" == Text(Tokens(p)) && Proper(Tokens(p))
    decreases |p|
  {
    hide First, FirstToken, TokenText, ProperToken, IndexOf;
    if p != "" {
      var rest := p[First(p).1..];
      FirstTokenText(p);
      BodyIsText(rest);
      assert First(p).0 + Body(rest) + "$" == First(p).0 + (Body(rest) + "$");
      var toks := Tokens(p);
      assert toks[1..] == Tokens(rest);
      forall i | 0 <= i < |toks|
        ensures ProperToken(toks[i])
      {
        assert i > 0 ==> toks[i] == toks[1..][i - 1];
      }
    }
  }

  // ---- Reading the text back ----------------------------------------------------------------

  function PlainItem(t: Token): Item
    requires !t.Quoted?
  {
    Item(AtomOf(t), if t.Star? then ZeroOrMore else One)
  }

  ghost predicate NoQuoted(toks: seq<Token>) { forall i :: 0 <= i < |toks| ==> !toks[i].Quoted? }

  /** No class has a range that runs backwards. */
  ghost predicate AllOrdered(toks: seq<Token>) {
    forall i :: 0 <= i < |toks| && toks[i].Class? ==> Ordered(toks[i].members)
  }

  function PlainItems(toks: seq<Token>): seq<Item>
    requires NoQuoted(toks)
  {
    seq(|toks|, i requires 0 <= i < |toks| => PlainItem(toks[i]))
  }

  function AtomOf(t: Token): Atom
    requires !t.Quoted?
  {
    match t
    case Lit(c) => Chr(c)
    case Class(negated, members) => OneOf(negated, members)
    case _ => NON_SLASH
  }

  /** The text of a token without its `*`. */
  function AtomText(t: Token): string
    requires !t.Quoted?
  {
    match t
    case Lit(c) => Escape(c)
    case Class(negated, members) => "[" + TextOf(negated, members) + "]"
    case _ => "[^/]"
  }

  lemma NonSlashReadsBack(rest: string)
    ensures ParseClass("^/]" + rest) == Some((true, "/", 3))
  {
    assert DoubleBackslashes("/") == "/" by { assert "/"[1..] == ""; }
    assert TextOf(true, "/") == "^/";
    ClassReadsBack(true, "/", rest);
    assert "^/" + "]" + rest == "^/]" + rest;
  }

  lemma LitReadsBack(c: char, rest: string)
    requires c != '*' && c != '?'
    ensures ParseAtom(Escape(c) + rest) == Some((Chr(c), |Escape(c)|))
    ensures (Escape(c) + rest)[|Escape(c)|..] == rest
    ensures Escape(c) + rest != "$"
  {}

  lemma BracketReadsBack(text: string, rest: string, c: (bool, string, nat))
    requires ParseClass(text + "]" + rest) == Some(c) && c.2 == |text| + 1
    ensures ParseAtom("[" + text + "]" + rest)
         == if Ordered(c.1) then Some((OneOf(c.0, c.1), |"[" + text + "]"|)) else None
    ensures ("[" + text + "]" + rest)[|"[" + text + "]"|..] == rest
    ensures "[" + text + "]" + rest != "$"
  {
    hide ParseClass, Ordered;
    assert ("[" + text + "]" + rest)[1..] == text + "]" + rest;
  }

  /** A token's atom reads back, unless it is a class with a range that runs backwards. */
  lemma AtomReadsBack(t: Token, rest: string)
    requires ProperToken(t) && !t.Quoted?
    ensures ParseAtom(AtomText(t) + rest)
         == if t.Class? && !Ordered(t.members) then None
            else Some((AtomOf(t), |AtomText(t)|))
    ensures (AtomText(t) + rest)[|AtomText(t)|..] == rest
    ensures AtomText(t) + rest != "$"
  {
    hide ParseAtom, ParseClass, Escape;
    if t.Lit? {
      LitReadsBack(t.c, rest);
    } else if t.Class? {
      var text := TextOf(t.negated, t.members);
      ClassReadsBack(t.negated, t.members, rest);
      BracketReadsBack(text, rest, (t.negated, t.members, |text| + 1));
    } else {
      NonSlashReadsBack(rest);
      assert "^/" + "]" + rest == "^/]" + rest;
      BracketReadsBack("^/", rest, (true, "/", 3));
      assert "[" + "^/" + "]" == "[^/]";
    }
  }

  lemma TextStart(toks: seq<Token>)
    requires Proper(toks)
    ensures Text(toks) != ""
    ensures toks != [] && toks[0].Quoted? ==> Text(toks)[0] == toks[0].c
    ensures toks == [] || !toks[0].Quoted? ==> Text(toks)[0] != '*' && Text(toks)[0] != '?'
    ensures toks != [] && toks[0].Quoted? ==> Text(toks)[1..] == Text(toks[1..])
  {
    if toks != [] {
      assert ProperToken(toks[0]);
    }
  }

  /** After the text of a plain token comes its own `*`, if it is a star, and then the rest. */
  lemma TokenSplits(t: Token, rest: string)
    requires !t.Quoted?
    ensures TokenText(t) + rest == AtomText(t) + ((if t.Star? then "*" else "") + rest)
  {
    assert t.Star? ==> "[^/]*" + rest == "[^/]" + ("*" + rest);
    assert !t.Star? ==> "" + rest == rest;
  }

  /** One atom off the front of the text of tokens that start with a plain one. */
  lemma ReadOne(toks: seq<Token>)
    requires Proper(toks) && toks != [] && !toks[0].Quoted?
    ensures var tail := (if toks[0].Star? then "*" else "") + Text(toks[1..]);
            var q := ParseQuantifier(tail);
            ParseItems(Text(toks)) ==
              if toks[0].Class? && !Ordered(toks[0].members) then None
              else
                var rest := ParseItems(tail[q.1..]);
                if rest.None? then None else Some([Item(AtomOf(toks[0]), q.0)] + rest.value)
  {
    hide ParseAtom, ParseQuantifier, AtomText, TokenText, Ordered;
    var tail := (if toks[0].Star? then "*" else "") + Text(toks[1..]);
    assert ProperToken(toks[0]);
    TokenSplits(toks[0], Text(toks[1..]));
    AtomReadsBack(toks[0], tail);
  }

  lemma ProperTail(toks: seq<Token>)
    requires toks != [] && Proper(toks)
    ensures Proper(toks[1..]) && (NoQuoted(toks) ==> NoQuoted(toks[1..]) && !toks[0].Quoted?)
    ensures AllOrdered(toks)
       <==> (toks[0].Class? ==> Ordered(toks[0].members)) && AllOrdered(toks[1..])
  {
    hide Ordered;
    assert forall i :: 0 <= i < |toks[1..]| ==> toks[1..][i] == toks[i + 1];
    if AllOrdered(toks[1..]) {
      forall i | 0 < i < |toks| && toks[i].Class?
        ensures Ordered(toks[i].members)
      {
        assert toks[1..][i - 1].Class?;
      }
    }
  }

  /** What follows an atom: its own `*` if it is a star, then the tokens `toks`. The quantifier
      swallows `n` quoted wildcards, none of them only when there is no quantifier at all. */
  lemma ReadQuantifier(star: bool, toks: seq<Token>) returns (n: nat)
    requires Proper(toks)
    ensures n <= 2 && n <= |toks| && forall i :: 0 <= i < n ==> toks[i].Quoted?
    ensures var tail := (if star then "*" else "") + Text(toks);
            var q := ParseQuantifier(tail);
            && tail[q.1..] == Text(toks[n..])
            && (q.0.One? <==> n == 0 && !star)
            && (star ==> q.0.ZeroOrMore?)
  {
    assert toks[0..] == toks;
    if star {
      n := if toks != [] && toks[0] == Quoted('?') then 1 else 0;
      StarTail(toks);
    } else {
      assert "" + Text(toks) == Text(toks);
      n := if toks == [] || !toks[0].Quoted? then 0
           else if |toks| > 1 && toks[1] == Quoted('?') then 2 else 1;
      PlainTail(toks);
    }
  }

  lemma StarTail(toks: seq<Token>)
    requires Proper(toks)
    ensures var q := ParseQuantifier("*" + Text(toks));
            && q.0.ZeroOrMore?
            && ("*" + Text(toks))[q.1..]
               == if toks != [] && toks[0] == Quoted('?') then Text(toks[1..]) else Text(toks)
  {
    hide Text, Proper;
    var text := Text(toks);
    TextStart(toks);
    assert ("*" + text)[1..] == text && ("*" + text)[2..] == text[1..];
  }

  lemma PlainTail(toks: seq<Token>)
    requires Proper(toks)
    ensures var q := ParseQuantifier(Text(toks));
            if toks == [] || !toks[0].Quoted? then q.0.One? && Text(toks)[q.1..] == Text(toks)
            else !q.0.One? && Text(toks)[q.1..]
                 == if |toks| > 1 && toks[1] == Quoted('?') then Text(toks[2..]) else Text(toks[1..])
  {
    var text := Text(toks);
    TextStart(toks);
    QuantifierOf(text);
    if toks != [] && toks[0].Quoted? {
      QuotedIsWildcard(toks, 0);
      ProperTail(toks);
      TextStart(toks[1..]);
      if |toks| > 1 {
        if toks[1].Quoted? {
          QuotedIsWildcard(toks, 1);
        }
        assert toks[1..][1..] == toks[2..] && toks[1..][0] == toks[1];
      }
      hide *;
      assert |text| > 1 ==> text[2..] == text[1..][1..] && text[1] == text[1..][0];
    }
  }

  lemma QuantifierOf(text: string)
    ensures text == "" || (text[0] != '*' && text[0] != '?') ==>
              ParseQuantifier(text) == (One, 0) && text[0..] == text
    ensures text != "" && (text[0] == '*' || text[0] == '?') ==>
              !ParseQuantifier(text).0.One?
              && ParseQuantifier(text).1 == if |text| > 1 && text[1] == '?' then 2 else 1
  {}

  lemma QuotedIsWildcard(toks: seq<Token>, i: nat)
    requires Proper(toks) && i < |toks| && toks[i].Quoted?
    ensures toks[i].c == '*' || toks[i].c == '?'
  {
    assert ProperToken(toks[i]);
  }

  /** One token off the front of the text, with the quoted wildcards its quantifier swallows. */
  lemma ReadToken(toks: seq<Token>) returns (n: nat, q: Quantifier)
    requires Proper(toks) && toks != [] && !toks[0].Quoted?
    ensures n < |toks| && forall i :: 0 <= i < n ==> toks[1..][i].Quoted?
    ensures n > 0 ==> toks[1].Quoted?
    ensures (q.One? <==> n == 0 && !toks[0].Star?) && (toks[0].Star? ==> q.ZeroOrMore?)
    ensures ParseItems(Text(toks)) ==
              if toks[0].Class? && !Ordered(toks[0].members) then None
              else
                var rest := ParseItems(Text(toks[1..][n..]));
                if rest.None? then None else Some([Item(AtomOf(toks[0]), q)] + rest.value)
  {
    hide ParseItems, Text, TokenText, ParseQuantifier, Proper, Ordered;
    ReadOne(toks);
    ProperTail(toks);
    n := ReadQuantifier(toks[0].Star?, toks[1..]);
    q := ParseQuantifier((if toks[0].Star? then "*" else "") + Text(toks[1..])).0;
  }

  /** The text of a segment without quoted wildcards reads back as one item for each token. */
  lemma {:induction false} PlainReadsBack(toks: seq<Token>)
    requires Proper(toks) && NoQuoted(toks) && AllOrdered(toks)
    ensures ParseItems(Text(toks)) == Some(PlainItems(toks))
    decreases |toks|
  {
    hide Proper, ParseItems, Text, AllOrdered, Ordered;
    if toks == [] {
      TextEmpty();
    } else {
      ProperTail(toks);
      PlainReadsBack(toks[1..]);
      var n, _ := ReadToken(toks);
      assert toks[1..][0..] == toks[1..];
      assert PlainItems(toks) == [PlainItem(toks[0])] + PlainItems(toks[1..]);
    }
  }

  lemma TextEmpty()
    ensures Text([]) == "$" && ParseItems("$") == Some([])
  {}

  /** A range that runs backwards makes the whole a syntax error. */
  lemma {:induction false} UnorderedFails(toks: seq<Token>)
    requires Proper(toks) && !AllOrdered(toks)
    ensures ParseItems(Text(toks)).None?
    decreases |toks|
  {
    if toks[0].Quoted? {
      QuotedFirst(toks);
    } else {
      hide ParseItems, Text, Proper, Ordered;
      ProperTail(toks);
      var n, _ := ReadToken(toks);
      if !toks[0].Class? || Ordered(toks[0].members) {
        UnorderedLater(toks[1..], n);
        UnorderedFails(toks[1..][n..]);
      }
    }
  }

  lemma UnorderedLater(toks: seq<Token>, n: nat)
    requires n <= |toks| && forall i :: 0 <= i < n ==> toks[i].Quoted?
    requires Proper(toks) && !AllOrdered(toks)
    ensures Proper(toks[n..]) && !AllOrdered(toks[n..])
  {
    hide Ordered;
    var i :| 0 <= i < |toks| && toks[i].Class? && !Ordered(toks[i].members);
    assert toks[n..][i - n] == toks[i];
    assert forall k :: 0 <= k < |toks[n..]| ==> toks[n..][k] == toks[k + n];
  }

  lemma QuotedFirst(toks: seq<Token>)
    requires Proper(toks) && toks != [] && toks[0].Quoted?
    ensures ParseItems(Text(toks)).None?
  {
    assert ProperToken(toks[0]);
    TextStart(toks);
    assert Text(toks) != "$";
  }

  lemma StarUnfolds(toks: seq<Token>, name: string)
    requires toks != [] && toks[0].Star?
    ensures GlobAccepts(toks, name) <==>
            GlobAccepts(toks[1..], name) || (name != "" && GlobAccepts(toks, name[1..]))
  {
    assert name[0..] == name;
    if GlobAccepts(toks, name) && !GlobAccepts(toks[1..], name) {
      var k :| 0 <= k <= |name| && GlobAccepts(toks[1..], name[k..]);
      assert name[1..][k - 1..] == name[k..];
    }
    if name != "" && GlobAccepts(toks, name[1..]) {
      var k :| 0 <= k <= |name[1..]| && GlobAccepts(toks[1..], name[1..][k..]);
      assert name[1..][k..] == name[k + 1..];
    }
  }

  /** On names without a slash, those items accept what the wildcards accept. */
  lemma {:induction false} PlainItemsMean(toks: seq<Token>, name: string)
    requires NoQuoted(toks) && '/' !in name
    ensures RegexAccepts(PlainItems(toks), name) <==> GlobAccepts(toks, name)
    decreases |toks| + |name|
  {
    if toks != [] {
      var items := PlainItems(toks);
      assert items[0] == PlainItem(toks[0]) && items[1..] == PlainItems(toks[1..]);
      if toks[0].Star? {
        StarUnfolds(toks, name);
        PlainItemsMean(toks[1..], name);
      }
      if name != "" {
        assert name[0] in name;
        PlainItemsMean(toks[1..], name[1..]);
        if toks[0].Star? {
          PlainItemsMean(toks, name[1..]);
        }
      }
    }
  }

  // ---- What quoting a wildcard does ---------------------------------------------------------

  function QuotedCount(toks: seq<Token>): nat
    decreases |toks|
  {
    if toks == [] then 0 else (if toks[0].Quoted? then 1 else 0) + QuotedCount(toks[1..])
  }

  /** No name the segment accepts is shorter than this. */
  function GlobLength(toks: seq<Token>): nat
    decreases |toks|
  {
    if toks == [] then 0 else (if toks[0].Star? then 0 else 1) + GlobLength(toks[1..])
  }

  function RegexLength(items: seq<Item>): nat
    decreases |items|
  {
    if items == [] then 0 else (if items[0].quantifier.One? then 1 else 0) + RegexLength(items[1..])
  }

  lemma {:induction false} GlobAcceptsLong(toks: seq<Token>, name: string)
    requires GlobAccepts(toks, name)
    ensures |name| >= GlobLength(toks)
    decreases |toks|
  {
    if toks != [] {
      if toks[0].Star? {
        var k :| 0 <= k <= |name| && GlobAccepts(toks[1..], name[k..]);
        GlobAcceptsLong(toks[1..], name[k..]);
      } else {
        GlobAcceptsLong(toks[1..], name[1..]);
      }
    }
  }

  /** Some character of a name is accepted. An empty class, or one of nothing but the slash, accepts
      none. */
  ghost predicate Satisfiable(a: Atom) { exists c: char :: c != '/' && AtomAccepts(a, c) }

  /** An atom that must take a character and can take none. */
  ghost predicate Stuck(items: seq<Item>) {
    exists i :: 0 <= i < |items| && items[i].quantifier.One? && !Satisfiable(items[i].atom)
  }

  lemma {:induction false} ShortestAccepted(items: seq<Item>) returns (name: string)
    requires !Stuck(items)
    ensures RegexAccepts(items, name) && |name| == RegexLength(items) && '/' !in name
    decreases |items|
  {
    if items == [] {
      name := "";
    } else {
      var rest := items[1..];
      assert forall i :: 0 <= i < |rest| ==> rest[i] == items[i + 1];
      name := ShortestAccepted(rest);
      if items[0].quantifier.One? {
        assert Satisfiable(items[0].atom);
        var c: char :| c != '/' && AtomAccepts(items[0].atom, c);
        assert ([c] + name)[1..] == name;
        name := [c] + name;
      }
    }
  }

  /** Each quoted wildcard ends up as a quantifier: it stands for no character of its own and
      makes the one before it optional. */
  lemma {:induction false} QuotedShortens(toks: seq<Token>)
    requires Proper(toks) && ParseItems(Text(toks)).Some?
    ensures RegexLength(ParseItems(Text(toks)).value) + QuotedCount(toks) <= GlobLength(toks)
    decreases |toks|
  {
    if toks == [] {
      TextEmpty();
    } else if toks[0].Quoted? {
      QuotedFirst(toks);
    } else {
      hide ParseItems, Text, Ordered;
      ProperTail(toks);
      var rest := toks[1..];
      var n, _ := ReadToken(toks);
      var later := rest[n..];
      SwallowedCount(rest, n);
      QuotedShortens(later);
      var items := ParseItems(Text(toks)).value;
      assert items[1..] == ParseItems(Text(later)).value;
    }
  }

  lemma {:induction false} SwallowedCount(toks: seq<Token>, n: nat)
    requires n <= |toks| && forall i :: 0 <= i < n ==> toks[i].Quoted?
    requires Proper(toks)
    ensures QuotedCount(toks) == n + QuotedCount(toks[n..])
    ensures GlobLength(toks) == n + GlobLength(toks[n..])
    ensures Proper(toks[n..])
    decreases n
  {
    hide Proper;
    if n == 0 {
      assert toks[0..] == toks;
    } else {
      ProperTail(toks);
      assert toks[1..][n - 1..] == toks[n..];
      assert forall i :: 0 <= i < n - 1 ==> toks[1..][i] == toks[i + 1];
      SwallowedCount(toks[1..], n - 1);
    }
  }

  lemma {:induction false} QuotedCountZero(toks: seq<Token>)
    ensures QuotedCount(toks) == 0 <==> NoQuoted(toks)
    decreases |toks|
  {
    if toks != [] {
      QuotedCountZero(toks[1..]);
      assert forall i :: 0 <= i < |toks[1..]| ==> toks[1..][i] == toks[i + 1];
      assert NoQuoted(toks) ==> !toks[0].Quoted?;
    }
  }

  // ---- Expressions that accept nothing ------------------------------------------------------

  /** A token that must take a character and can take none. */
  ghost predicate StuckToken(t: Token) { !t.Quoted? && !t.Star? && !Satisfiable(AtomOf(t)) }

  lemma {:induction false} StuckAcceptsNothing(items: seq<Item>, name: string)
    requires Stuck(items) && '/' !in name
    ensures !RegexAccepts(items, name)
    decreases |items| + |name|
  {
    var i :| 0 <= i < |items| && items[i].quantifier.One? && !Satisfiable(items[i].atom);
    if i > 0 {
      assert items[1..][i - 1] == items[i];
      StuckAcceptsNothing(items[1..], name);
    }
    if name != "" {
      assert name[0] in name && name[0] != '/';
      if i > 0 {
        StuckAcceptsNothing(items[1..], name[1..]);
      }
      if items[0].quantifier.ZeroOrMore? {
        StuckAcceptsNothing(items, name[1..]);
      }
    }
  }

  lemma {:induction false} StuckGlob(toks: seq<Token>, i: nat, name: string)
    requires i < |toks| && StuckToken(toks[i]) && '/' !in name
    ensures !GlobAccepts(toks, name)
    decreases i
  {
    if i > 0 {
      assert toks[1..][i - 1] == toks[i];
      forall k | 0 <= k <= |name|
        ensures !GlobAccepts(toks[1..], name[k..])
      {
        StuckGlob(toks[1..], i - 1, name[k..]);
      }
    } else if name != "" {
      assert name[0] in name && name[0] != '/';
      StuckTakesNothing(toks[0], name[0]);
    }
  }

  lemma StuckTakesNothing(t: Token, c: char)
    requires StuckToken(t) && c != '/'
    ensures t.Lit? || t.Class?
    ensures t.Lit? ==> t.c != c
    ensures t.Class? ==> InClass(t.members, c) == t.negated
  {
    assert !AtomAccepts(AtomOf(t), c);
    assert "/"[1..] == "";
    assert InClass("/", c) <==> c == '/';
  }

  lemma StuckCons(first: Item, more: seq<Item>)
    ensures Stuck([first] + more)
       <==> (first.quantifier.One? && !Satisfiable(first.atom)) || Stuck(more)
  {
    hide Satisfiable;
    var items := [first] + more;
    assert items[0] == first && forall i :: 0 <= i < |more| ==> items[i + 1] == more[i];
  }

  /** An item that is stuck comes from a token that is. */
  lemma {:induction false} StuckFromToken(toks: seq<Token>) returns (i: nat)
    requires Proper(toks) && ParseItems(Text(toks)).Some?
    requires Stuck(ParseItems(Text(toks)).value)
    ensures i < |toks| && StuckToken(toks[i])
    decreases |toks|
  {
    i := 0;
    if toks == [] {
      TextEmpty();
    } else if toks[0].Quoted? {
      QuotedFirst(toks);
    } else {
      hide ParseItems, Text, Ordered, Satisfiable, Stuck;
      ProperTail(toks);
      var rest := toks[1..];
      var n, q := ReadToken(toks);
      var more := ParseItems(Text(rest[n..])).value;
      StuckCons(Item(AtomOf(toks[0]), q), more);
      if Stuck(more) {
        SwallowedCount(rest, n);
        var j := StuckFromToken(rest[n..]);
        i := j + n + 1;
      }
    }
  }

  // ---- The exact condition ------------------------------------------------------------------

  /** The compiled segment is a regular expression, and on names without a slash it accepts what
      the wildcards accept. */
  ghost predicate CompilesFaithfully(p: string) {
    var r := ParseRegex("^" + Body(p) + "$");
    r.Some? && forall name: string :: '/' !in name ==>
      (RegexAccepts(r.value, name) <==> GlobAccepts(Tokens(p), name))
  }

  lemma RegexText(p: string)
    ensures ParseRegex("^" + Body(p) + "$") == ParseItems(Text(Tokens(p)))
    ensures Proper(Tokens(p))
  {
    hide ParseItems, Text, Body, Tokens;
    BodyIsText(p);
    assert ("^" + Body(p) + "$")[1..] == Body(p) + "$";
  }

  lemma NothingQuotedIsFaithful(p: string)
    requires NoQuoted(Tokens(p)) && AllOrdered(Tokens(p))
    ensures CompilesFaithfully(p)
  {
    hide Tokens, Body, ParseItems, Text, RegexAccepts, GlobAccepts, ParseRegex, Proper, AllOrdered;
    var toks := Tokens(p);
    RegexText(p);
    PlainReadsBack(toks);
    forall name: string | '/' !in name
      ensures RegexAccepts(PlainItems(toks), name) <==> GlobAccepts(toks, name)
    {
      PlainItemsMean(toks, name);
    }
  }

  lemma StuckIsFaithful(p: string)
    requires ParseRegex("^" + Body(p) + "$").Some?
    requires Stuck(ParseRegex("^" + Body(p) + "$").value)
    ensures CompilesFaithfully(p)
  {
    hide Tokens, Body, ParseItems, Text, RegexAccepts, GlobAccepts, ParseRegex, Proper, Stuck,
         StuckToken;
    var toks, items := Tokens(p), ParseRegex("^" + Body(p) + "$").value;
    RegexText(p);
    var i := StuckFromToken(toks);
    forall name: string | '/' !in name
      ensures !RegexAccepts(items, name) && !GlobAccepts(toks, name)
    {
      StuckAcceptsNothing(items, name);
      StuckGlob(toks, i, name);
    }
  }

  /** A segment compiles faithfully exactly when no range in it runs backwards, and no backslash in it
      precedes a `*` or a `?`; or when both the segment and the expression accept nothing at all. */
  lemma FaithfulIff(p: string)
    ensures CompilesFaithfully(p) <==>
              && AllOrdered(Tokens(p))
              && (NoQuoted(Tokens(p))
                  || (ParseRegex("^" + Body(p) + "$").Some?
                      && Stuck(ParseRegex("^" + Body(p) + "$").value)))
  {
    hide Tokens, Body, ParseItems, Text, RegexAccepts, GlobAccepts, ParseRegex, Proper, AllOrdered,
         Stuck;
    var toks := Tokens(p);
    var r := ParseRegex("^" + Body(p) + "$");
    RegexText(p);
    if !AllOrdered(toks) {
      UnorderedFails(toks);
    } else if NoQuoted(toks) {
      NothingQuotedIsFaithful(p);
    } else if r.Some? && Stuck(r.value) {
      StuckIsFaithful(p);
    } else if CompilesFaithfully(p) {
      QuotedShortens(toks);
      QuotedCountZero(toks);
      var short := ShortestAccepted(r.value);
      assert GlobAccepts(toks, short);
      GlobAcceptsLong(toks, short);
    }
  }

  /** Where every class has something to accept, quoting is all that matters. */
  lemma FaithfulIffNothingQuoted(p: string)
    requires forall i :: 0 <= i < |Tokens(p)| ==> !StuckToken(Tokens(p)[i])
    ensures CompilesFaithfully(p) <==> AllOrdered(Tokens(p)) && NoQuoted(Tokens(p))
  {
    hide CompilesFaithfully, StuckToken, Stuck;
    FaithfulIff(p);
    RegexText(p);
    if ParseRegex("^" + Body(p) + "$").Some? && Stuck(ParseRegex("^" + Body(p) + "$").value) {
      var i := StuckFromToken(Tokens(p));
    }
  }

  /** The smallest instance: the segment `a\\*`, which names one file, compiles to `^a*$`. */
  lemma QuotedStarExample()
    ensures "^" + Body("a\\*") + "$" == "^a*$"
    ensures Tokens("a\\*") == [Lit('a'), Quoted('*')]
    ensures GlobAccepts([Lit('a'), Quoted('*')], "a*") && !GlobAccepts([Lit('a'), Quoted('*')], "aa")
    ensures ParseRegex("^a*$") == Some([Item(Chr('a'), ZeroOrMore)])
    ensures RegexAccepts([Item(Chr('a'), ZeroOrMore)], "aa")
  {
    var q := "\\*";
    assert First(q) == ("*", 2) && FirstToken(q) == Quoted('*') && q[2..] == "";
    assert Tokens("") == [] && [Quoted('*')] + [] == [Quoted('*')];
    assert Tokens(q) == [Quoted('*')];
    var p := "a\\*";
    assert First(p) == ("a", 1) && FirstToken(p) == Lit('a') && p[1..] == q;
    assert [Lit('a')] + [Quoted('*')] == [Lit('a'), Quoted('*')];
    var t := "a*$";
    assert "^a*$"[1..] == t && t[1..] == "*$" && "*$"[1..] == "$";
    assert ParseItems("$") == Some([]);
    assert ParseAtom(t) == Some((Chr('a'), 1)) && ParseQuantifier("*$") == (ZeroOrMore, 1);
    assert ParseItems(t) == Some([Item(Chr('a'), ZeroOrMore)] + []);
    assert [Item(Chr('a'), ZeroOrMore)] + [] == [Item(Chr('a'), ZeroOrMore)];
  }

  /** A leading `!` negates. */
  lemma NegatedExample()
    ensures Tokens("[!a-c]") == [Class(true, "a-c")] && Body("[!a-c]") == "[^a-c]"
    ensures InClass("a-c", 'b') && !InClass("a-c", 'd')
  {
    assert "!a-c"[1..] == "a-c" && "a-c"[3..] == "";
    OneClass("[!a-c]", "!a-c");
    assert "a-c"[1..] == "-c" && "-c"[1..] == "c" && "c"[1..] == "";
    hide Tokens, Body, IndexOf;
    assert DoubleBackslashes("c") == "c";
    assert DoubleBackslashes("-c") == "-c";
    assert DoubleBackslashes("a-c") == "a-c";
  }

  /** A leading `^` does not. */
  lemma CaretExample()
    ensures Tokens("[^a]") == [Class(false, "^a")] && Body("[^a]") == "[\\^a]"
    ensures InClass("^a", 'a') && InClass("^a", '^') && !InClass("^a", 'b')
  {
    assert "^a"[1..] == "a" && "a"[1..] == "";
    OneClass("[^a]", "^a");
    assert DoubleBackslashes("a") == "a";
    assert DoubleBackslashes("^a") == "^a";
  }

  lemma OneClass(p: string, inside: string)
    requires p == "[" + inside + "]" && ']' !in inside
    ensures Tokens(p) == [Class(IsNegated(inside), Members(inside))]
    ensures Body(p) == "[" + TextOf(IsNegated(inside), Members(inside)) + "]"
  {
    ClosingBracket(p, inside, 1);
    assert p[1..|p| - 1] == inside && p[|p|..] == "";
    ClassTextIs(inside);
  }

  lemma {:induction false} ClosingBracket(p: string, inside: string, from: nat)
    requires p == "[" + inside + "]" && ']' !in inside && 1 <= from < |p|
    ensures IndexOf(p, ']', from) == Some(|p| - 1)
    decreases |p| - from
  {
    if from < |p| - 1 {
      assert p[from] == inside[from - 1];
      ClosingBracket(p, inside, from + 1);
    }
  }
}
