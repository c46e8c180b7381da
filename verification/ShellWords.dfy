/** How a POSIX shell cuts a command into tokens (token recognition and quote removal, sections 2.2
    and 2.3 of the POSIX Shell Command Language). Input in which an unquoted character would start
    an expansion, a comment, a redirection or a second command has no tokens here. */
module ShellWords {
  import opened Wrappers

  /** A word, or the beginning of one: what it comes to without its quotes, and as it is written. */
  datatype Piece = Piece(text: string, raw: string) {
    function Plus(moreText: string, moreRaw: string): Piece {
      Piece(text + moreText, raw + moreRaw)
    }
  }

  const NOTHING := Piece("", "")

  datatype Token = Word(piece: Piece) | AndIf

  datatype Mode = Between | InWord | Single | Double

  predicate Blank(c: char) { c == ' ' || c == '\t' }

  /** Characters that mean something besides themselves when they are not quoted. */
  predicate Special(c: char) {
    c in {'|', '&', ';', '<', '>', '(', ')', '$', '`', '\\', '"', '\'', ' ', '\t', '\n', '*', '?',
          '[', '~'}
  }

  function Then(tokens: seq<Token>, rest: Option<seq<Token>>): Option<seq<Token>> {
    if rest.None? then None else Some(tokens + rest.value)
  }

  lemma ThenNothing(rest: Option<seq<Token>>)
    ensures Then([], rest) == rest
  {
    assert rest.Some? ==> [] + rest.value == rest.value;
  }

  lemma ThenThen(a: seq<Token>, b: seq<Token>, rest: Option<seq<Token>>)
    ensures Then(a, Then(b, rest)) == Then(a + b, rest)
  {
    assert rest.Some? ==> a + (b + rest.value) == a + b + rest.value;
  }

  /** `word` is what there is of the current word. */
  function Tokens(s: string, mode: Mode, word: Piece): Option<seq<Token>>
    decreases |s|, if mode.InWord? then 1 else if mode.Between? then 2 else 0
  {
    match mode
    case Between =>
      if s == "" then Some([])
      else if Blank(s[0]) then Tokens(s[1..], Between, NOTHING)
      else if |s| >= 2 && s[0] == '&' && s[1] == '&' then Then([AndIf], Tokens(s[2..], Between, NOTHING))
      else if s[0] == '&' || s[0] == '#' then None
      else Tokens(s, InWord, NOTHING)
    case InWord =>
      if s == "" then Some([Word(word)])
      else if Blank(s[0]) then Then([Word(word)], Tokens(s[1..], Between, NOTHING))
      else if |s| >= 2 && s[0] == '&' && s[1] == '&' then
        Then([Word(word), AndIf], Tokens(s[2..], Between, NOTHING))
      else if s[0] == '\'' || s[0] == '"' then
        Tokens(s[1..], if s[0] == '"' then Double else Single, word.Plus("", [s[0]]))
      else if s[0] == '\\' then
        if |s| == 1 then None
        else Tokens(s[2..], InWord, word.Plus(if s[1] == '\n' then "" else [s[1]], s[..2]))
      else if Special(s[0]) then None
      else Tokens(s[1..], InWord, word.Plus([s[0]], [s[0]]))
    case Single =>
      if s == "" then None
      else if s[0] == '\'' then Tokens(s[1..], InWord, word.Plus("", [s[0]]))
      else Tokens(s[1..], Single, word.Plus([s[0]], [s[0]]))
    case Double =>
      if s == "" || s[0] == '$' || s[0] == '`' then None
      else if s[0] == '"' then Tokens(s[1..], InWord, word.Plus("", [s[0]]))
      else if s[0] == '\\' && |s| >= 2 && s[1] in "$`\"\\\n" then
        Tokens(s[2..], Double, word.Plus(if s[1] == '\n' then "" else [s[1]], s[..2]))
      else Tokens(s[1..], Double, word.Plus([s[0]], [s[0]]))
  }

  lemma PlusPlus(w: Piece, a: string, b: string, c: string, d: string)
    ensures w.Plus(a, b).Plus(c, d) == w.Plus(a + c, b + d)
  {
    assert w.text + a + c == w.text + (a + c) && w.raw + b + d == w.raw + (b + d);
  }

  // ---- One character ------------------------------------------------------------------------

  lemma ReadPlain(c: char, s: string, word: Piece)
    requires !Special(c)
    ensures Tokens([c] + s, InWord, word) == Tokens(s, InWord, word.Plus([c], [c]))
  {
    assert ([c] + s)[1..] == s;
  }

  lemma ReadQuoted(c: char, s: string, word: Piece)
    ensures Tokens([c] + s, Single, word)
         == if c == '\'' then Tokens(s, InWord, word.Plus("", "'"))
            else Tokens(s, Single, word.Plus([c], [c]))
  {
    assert ([c] + s)[1..] == s;
  }

  lemma OpenQuote(s: string, word: Piece)
    ensures Tokens("'" + s, InWord, word) == Tokens(s, Single, word.Plus("", "'"))
  {
    assert ("'" + s)[1..] == s;
  }

  /** A quote between double quotes. */
  lemma QuoteInQuotes(s: string, word: Piece)
    ensures Tokens("\"'\"" + s, InWord, word) == Tokens(s, InWord, word.Plus("'", "\"'\""))
  {
    var s0, s1, s2 := "\"'\"" + s, "'\"" + s, "\"" + s;
    assert s0[1..] == s1 && s1[1..] == s2 && s2[1..] == s;
    var w1 := word.Plus("", "\"");
    var w2 := w1.Plus("'", "'");
    assert Tokens(s0, InWord, word) == Tokens(s1, Double, w1);
    assert Tokens(s1, Double, w1) == Tokens(s2, Double, w2);
    PlusPlus(word, "", "\"", "'", "'");
    PlusPlus(word, "'", "\"'", "", "\"");
    assert "" + "'" == "'" && "\"" + "'" == "\"'";
    assert "'" + "" == "'" && "\"'" + "\"" == "\"'\"";
  }

  /** What follows a word: nothing, or a blank. */
  predicate Ends(rest: string) { rest == "" || Blank(rest[0]) }

  lemma WordEnds(rest: string, word: Piece)
    requires Ends(rest)
    ensures Tokens(rest, InWord, word) == Then([Word(word)], Tokens(rest, Between, NOTHING))
  {
    assert [Word(word)] + [] == [Word(word)];
  }

  lemma WordBegins(s: string)
    requires s != "" && !Blank(s[0]) && s[0] != '&' && s[0] != '#'
    ensures Tokens(s, Between, NOTHING) == Tokens(s, InWord, NOTHING)
  {}

  lemma SkipBlank(s: string)
    ensures Tokens(" " + s, Between, NOTHING) == Tokens(s, Between, NOTHING)
  {
    assert (" " + s)[1..] == s;
  }

  lemma ReadAndIf(s: string)
    ensures Tokens("&&" + s, Between, NOTHING) == Then([AndIf], Tokens(s, Between, NOTHING))
  {
    assert ("&&" + s)[2..] == s;
  }
}
