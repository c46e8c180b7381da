/** The command line sent to a remote shell (packages/kaos/src/ssh.ts), and the proof that the
    shell reads back the words it was built from. */
module ShellCommand {
  import opened Wrappers
  import opened ShellWords

  predicate Letter(c: char) { 'A' <= c <= 'Z' || 'a' <= c <= 'z' }

  predicate Safe(c: char) {
    Letter(c) || IsDigit(c) || c in {'_', '.', '/', ':', '=', '@', '%', '^', ',', '+', '-'}
  }

  /** Every quote of the argument closes the quotes, stands in double quotes, and opens them
      again. */
  function Escaped(arg: string): string {
    if arg == "" then ""
    else (if arg[0] == '\'' then "'\"'\"'" else [arg[0]]) + Escaped(arg[1..])
  }

  function ShellQuote(arg: string): string {
    if arg == "" then "''"
    else if forall i :: 0 <= i < |arg| ==> Safe(arg[i]) then arg
    else "'" + Escaped(arg) + "'"
  }

  function Join(words: seq<string>): string {
    if words == [] then ""
    else if |words| == 1 then words[0]
    else words[0] + " " + Join(words[1..])
  }

  /** `KEY=value`, with only the value quoted. */
  function Assignment(entry: (string, string)): string { entry.0 + "=" + ShellQuote(entry.1) }

  predicate ValidName(key: string) {
    key != "" && (Letter(key[0]) || key[0] == '_')
    && forall i :: 0 <= i < |key| ==> Letter(key[i]) || IsDigit(key[i]) || key[i] == '_'
  }

  datatype Built = Command(text: string) | InvalidName(key: string)

  // ---- One word -----------------------------------------------------------------------------

  lemma SafeIsPlain(c: char)
    requires Safe(c)
    ensures !Special(c) && !Blank(c) && c != '&' && c != '#'
  {}

  lemma {:induction false} LiteralRun(text: string, rest: string, word: Piece)
    requires forall i :: 0 <= i < |text| ==> Safe(text[i])
    ensures Tokens(text + rest, InWord, word) == Tokens(rest, InWord, word.Plus(text, text))
    decreases |text|
  {
    hide Tokens, Safe, Special;
    if text == "" {
      assert text + rest == rest && word.Plus("", "") == word;
    } else {
      assert text + rest == [text[0]] + (text[1..] + rest);
      var c := [text[0]];
      assert c + text[1..] == text;
      PlusPlus(word, c, c, text[1..], text[1..]);
      SafeIsPlain(text[0]);
      ReadPlain(text[0], text[1..] + rest, word);
      LiteralRun(text[1..], rest, word.Plus(c, c));
    }
  }

  lemma {:induction false} QuotedRun(arg: string, rest: string, word: Piece)
    ensures Tokens(Escaped(arg) + "'" + rest, Single, word)
         == Tokens(rest, InWord, word.Plus(arg, Escaped(arg) + "'"))
    decreases |arg|
  {
    hide Tokens;
    if arg == "" {
      assert Escaped(arg) + "'" + rest == "'" + rest && "" + "'" == "'";
      ReadQuoted('\'', rest, word);
    } else {
      var tail := Escaped(arg[1..]) + "'" + rest;
      var c, d := [arg[0]], if arg[0] == '\'' then "'\"'\"'" else [arg[0]];
      assert c + arg[1..] == arg && d + (Escaped(arg[1..]) + "'") == Escaped(arg) + "'";
      assert Escaped(arg) + "'" + rest == d + tail;
      PlusPlus(word, c, d, arg[1..], Escaped(arg[1..]) + "'");
      QuotedRun(arg[1..], rest, word.Plus(c, d));
      if arg[0] == '\'' {
        QuoteReads(tail, word);
      } else {
        ReadQuoted(arg[0], tail, word);
      }
    }
  }

  /** A quote of the argument: out of the quotes, into double quotes, and back. */
  lemma QuoteReads(tail: string, word: Piece)
    ensures Tokens("'\"'\"'" + tail, Single, word)
         == Tokens(tail, Single, word.Plus("'", "'\"'\"'"))
  {
    hide Tokens;
    assert "'\"'\"'" + tail == "'" + ("\"'\"" + ("'" + tail));
    var w1 := word.Plus("", "'");
    var w2 := w1.Plus("'", "\"'\"");
    ReadQuoted('\'', "\"'\"" + ("'" + tail), word);
    QuoteInQuotes("'" + tail, w1);
    OpenQuote(tail, w2);
    PlusPlus(word, "", "'", "'", "\"'\"");
    PlusPlus(word, "'", "'\"'\"", "", "'");
    assert "" + "'" == "'" && "'" + "\"'\"" == "'\"'\"";
    assert "'" + "" == "'" && "'\"'\"" + "'" == "'\"'\"'";
  }

  lemma WrappedReads(arg: string, rest: string, word: Piece)
    ensures Tokens("'" + Escaped(arg) + "'" + rest, InWord, word)
         == Tokens(rest, InWord, word.Plus(arg, "'" + Escaped(arg) + "'"))
  {
    hide *;
    var text := Escaped(arg) + "'";
    Regroup(Escaped(arg), rest);
    OpenQuote(text + rest, word);
    QuotedRun(arg, rest, word.Plus("", "'"));
    PlusPlus(word, "", "'", arg, text);
    assert "" + arg == arg;
  }

  lemma Regroup(s: string, rest: string)
    ensures "'" + s + "'" == "'" + (s + "'")
    ensures "'" + s + "'" + rest == "'" + (s + "'" + rest)
  {}

  /** The shell reads a quoted argument as the argument, wherever in a word it stands. */
  lemma QuoteReadsBack(arg: string, rest: string, word: Piece)
    ensures Tokens(ShellQuote(arg) + rest, InWord, word)
         == Tokens(rest, InWord, word.Plus(arg, ShellQuote(arg)))
  {
    hide Tokens, Escaped;
    if arg == "" {
      assert ShellQuote(arg) + rest == "'" + ("'" + rest);
      OpenQuote("'" + rest, word);
      ReadQuoted('\'', rest, word.Plus("", "'"));
      PlusPlus(word, "", "'", "", "'");
      assert "" + "" == "" && "'" + "'" == "''";
    } else if forall i :: 0 <= i < |arg| ==> Safe(arg[i]) {
      LiteralRun(arg, rest, word);
    } else {
      WrappedReads(arg, rest, word);
    }
  }

  /** A piece of text that the shell reads, up to the next blank, as one word. */
  ghost predicate ReadsAs(text: string, word: string) {
    forall rest: string :: Ends(rest) ==>
      Tokens(text + rest, Between, NOTHING)
      == Then([Word(Piece(word, text))], Tokens(rest, Between, NOTHING))
  }

  lemma ArgumentReadsAs(arg: string)
    ensures ReadsAs(ShellQuote(arg), arg)
  {
    hide Tokens, Escaped, Safe;
    forall rest: string | Ends(rest)
      ensures Tokens(ShellQuote(arg) + rest, Between, NOTHING)
           == Then([Word(Piece(arg, ShellQuote(arg)))], Tokens(rest, Between, NOTHING))
    {
      var s := ShellQuote(arg) + rest;
      QuoteReadsBack(arg, rest, NOTHING);
      WordEnds(rest, Piece(arg, ShellQuote(arg)));
      assert NOTHING.Plus(arg, ShellQuote(arg)) == Piece(arg, ShellQuote(arg));
      assert s[0] == '\'' || Safe(s[0]);
      if s[0] != '\'' {
        SafeIsPlain(s[0]);
      }
      WordBegins(s);
    }
  }

  lemma AssignmentReadsAs(entry: (string, string))
    requires ValidName(entry.0)
    ensures ReadsAs(Assignment(entry), entry.0 + "=" + entry.1)
  {
    hide Tokens, ShellQuote;
    var name := entry.0 + "=";
    forall rest: string | Ends(rest)
      ensures Tokens(Assignment(entry) + rest, Between, NOTHING)
           == Then([Word(Piece(name + entry.1, Assignment(entry)))], Tokens(rest, Between, NOTHING))
    {
      var s := Assignment(entry) + rest;
      assert s == name + (ShellQuote(entry.1) + rest);
      assert forall i :: 0 <= i < |name| ==> Safe(name[i]);
      LiteralRun(name, ShellQuote(entry.1) + rest, NOTHING);
      assert NOTHING.Plus(name, name) == Piece(name, name);
      QuoteReadsBack(entry.1, rest, Piece(name, name));
      WordEnds(rest, Piece(name + entry.1, Assignment(entry)));
      assert Safe(s[0]);
      WordBegins(s);
    }
  }

  // ---- The whole command --------------------------------------------------------------------

  function Quoted(args: seq<string>): (texts: seq<string>)
    ensures |texts| == |args|
  {
    seq(|args|, i requires 0 <= i < |args| => ShellQuote(args[i]))
  }

  function Assignments(env: seq<(string, string)>): (texts: seq<string>)
    ensures |texts| == |env|
  {
    seq(|env|, i requires 0 <= i < |env| => Assignment(env[i]))
  }

  /** The words an environment stands for: `KEY=value`, nothing quoted. */
  function EnvWords(env: seq<(string, string)>): (words: seq<string>)
    ensures |words| == |env|
  {
    seq(|env|, i requires 0 <= i < |env| => env[i].0 + "=" + env[i].1)
  }

  function Words(words: seq<string>, texts: seq<string>): (tokens: seq<Token>)
    requires |words| == |texts|
    ensures |tokens| == |words|
  {
    seq(|words|, i requires 0 <= i < |words| => Word(Piece(words[i], texts[i])))
  }

  /** The words of the command itself: the environment's, then the arguments. */
  function SimpleCommand(args: seq<string>, env: seq<(string, string)>): seq<Token> {
    Words(EnvWords(env), Assignments(env)) + Words(args, Quoted(args))
  }

  /** What the shell should see. */
  function Intended(args: seq<string>, cwd: string, env: seq<(string, string)>): seq<Token> {
    (if cwd == "" then []
     else [Word(Piece("cd", "cd")), Word(Piece(cwd, ShellQuote(cwd))), AndIf])
    + SimpleCommand(args, env)
  }

  function WithEnv(env: seq<(string, string)>, command: string): string {
    if env == [] then command else Join(Assignments(env)) + " " + command
  }

  function WithCwd(cwd: string, command: string): string {
    if cwd == "" then command else "cd " + ShellQuote(cwd) + " && " + command
  }

  lemma {:induction false} WordsReadBack(texts: seq<string>, words: seq<string>, rest: string)
    requires texts != [] && |texts| == |words| && Ends(rest)
    requires forall i :: 0 <= i < |texts| ==> ReadsAs(texts[i], words[i])
    ensures Tokens(Join(texts) + rest, Between, NOTHING)
         == Then(Words(words, texts), Tokens(rest, Between, NOTHING))
    decreases |texts|
  {
    hide Tokens;
    var first := [Word(Piece(words[0], texts[0]))];
    assert Words(words, texts) == first + Words(words[1..], texts[1..]);
    if |texts| > 1 {
      var more := Join(texts[1..]) + rest;
      assert Join(texts) + rest == texts[0] + (" " + more);
      SkipBlank(more);
      WordsReadBack(texts[1..], words[1..], rest);
      assert Tokens(texts[0] + (" " + more), Between, NOTHING)
          == Then(first, Tokens(more, Between, NOTHING));
      ThenThen(first, Words(words[1..], texts[1..]), Tokens(rest, Between, NOTHING));
    } else {
      assert Words(words, texts) == first;
    }
  }

  lemma ArgsReadBack(args: seq<string>)
    ensures Tokens(Join(Quoted(args)), Between, NOTHING) == Some(Words(args, Quoted(args)))
  {
    var tokens := Words(args, Quoted(args));
    if args == [] {
      assert tokens == [];
    } else {
      forall i | 0 <= i < |args|
        ensures ReadsAs(Quoted(args)[i], args[i])
      {
        ArgumentReadsAs(args[i]);
      }
      WordsReadBack(Quoted(args), args, "");
      assert Join(Quoted(args)) + "" == Join(Quoted(args));
      assert tokens + [] == tokens;
    }
  }

  lemma EnvReadsBack(env: seq<(string, string)>, command: string)
    requires forall i :: 0 <= i < |env| ==> ValidName(env[i].0)
    ensures Tokens(WithEnv(env, command), Between, NOTHING)
         == Then(Words(EnvWords(env), Assignments(env)), Tokens(command, Between, NOTHING))
  {
    hide Tokens, Assignment, ReadsAs;
    if env == [] {
      assert Words(EnvWords(env), Assignments(env)) == [];
      ThenNothing(Tokens(command, Between, NOTHING));
    } else {
      forall i | 0 <= i < |env|
        ensures ReadsAs(Assignments(env)[i], EnvWords(env)[i])
      {
        AssignmentReadsAs(env[i]);
      }
      WordsReadBack(Assignments(env), EnvWords(env), " " + command);
      SkipBlank(command);
      assert WithEnv(env, command) == Join(Assignments(env)) + (" " + command);
    }
  }

  lemma AndReadsBack(text: string, word: string, command: string)
    requires ReadsAs(text, word)
    ensures Tokens(text + " && " + command, Between, NOTHING)
         == Then([Word(Piece(word, text)), AndIf], Tokens(command, Between, NOTHING))
  {
    var next, first := " " + command, [Word(Piece(word, text))];
    var rest := " " + ("&&" + next);
    assert text + " && " + command == text + rest;
    assert Tokens(text + rest, Between, NOTHING) == Then(first, Tokens(rest, Between, NOTHING));
    hide Tokens, ReadsAs;
    SkipBlank("&&" + next);
    ReadAndIf(next);
    SkipBlank(command);
    ThenThen(first, [AndIf], Tokens(command, Between, NOTHING));
    assert first + [AndIf] == [Word(Piece(word, text)), AndIf];
  }

  lemma CdReadsBack(rest: string)
    ensures Tokens("cd" + (" " + rest), Between, NOTHING)
         == Then([Word(Piece("cd", "cd"))], Tokens(rest, Between, NOTHING))
  {
    assert ShellQuote("cd") == "cd";
    ArgumentReadsAs("cd");
    hide ShellQuote, Safe, Tokens;
    SkipBlank(rest);
  }

  lemma CwdReadsBack(cwd: string, command: string)
    requires cwd != ""
    ensures Tokens(WithCwd(cwd, command), Between, NOTHING)
         == Then([Word(Piece("cd", "cd")), Word(Piece(cwd, ShellQuote(cwd))), AndIf],
                 Tokens(command, Between, NOTHING))
  {
    hide ShellQuote, Tokens, ReadsAs;
    var text := ShellQuote(cwd);
    var s, cd, dir := text + " && " + command, Word(Piece("cd", "cd")), Word(Piece(cwd, text));
    assert WithCwd(cwd, command) == "cd" + (" " + s);
    ArgumentReadsAs(cwd);
    AndReadsBack(text, cwd, command);
    CdReadsBack(s);
    ThenThen([cd], [dir, AndIf], Tokens(command, Between, NOTHING));
    assert [cd] + [dir, AndIf] == [cd, dir, AndIf];
  }

  /** The shell splits the command into `cd`, the directory and `&&`, if there is a directory,
      then the assignments and the arguments, one word each and each unchanged. */
  lemma CommandReadsBack(args: seq<string>, cwd: string, env: seq<(string, string)>)
    requires forall i :: 0 <= i < |env| ==> ValidName(env[i].0)
    ensures Tokens(WithCwd(cwd, WithEnv(env, Join(Quoted(args)))), Between, NOTHING)
         == Some(Intended(args, cwd, env))
  {
    var command := WithEnv(env, Join(Quoted(args)));
    ArgsReadBack(args);
    EnvReadsBack(env, Join(Quoted(args)));
    assert Tokens(command, Between, NOTHING) == Some(SimpleCommand(args, env)) by {
      hide Tokens, WithEnv, Words, Assignments, EnvWords, Quoted;
    }
    hide Tokens, WithEnv, SimpleCommand, Quoted;
    if cwd != "" {
      CwdReadsBack(cwd, command);
    } else {
      assert [] + SimpleCommand(args, env) == SimpleCommand(args, env);
    }
  }

  // ---- One command line, one meaning --------------------------------------------------------

  lemma SimpleCommandTexts(args: seq<string>, env: seq<(string, string)>, i: nat)
    requires i < |env| + |args|
    ensures |SimpleCommand(args, env)| == |env| + |args|
    ensures SimpleCommand(args, env)[i].Word?
    ensures SimpleCommand(args, env)[i].piece.text == (EnvWords(env) + args)[i]
    ensures SimpleCommand(args, env)[i].piece.raw == (Assignments(env) + Quoted(args))[i]
  {}

  lemma SimpleCommandDetermines(args: seq<string>, env: seq<(string, string)>,
                                args2: seq<string>, env2: seq<(string, string)>)
    requires SimpleCommand(args, env) == SimpleCommand(args2, env2)
    ensures EnvWords(env) + args == EnvWords(env2) + args2
  {
    var t, t2 := SimpleCommand(args, env), SimpleCommand(args2, env2);
    assert |t| == |env| + |args| && |t2| == |env2| + |args2|;
    hide SimpleCommand;
    forall i | 0 <= i < |env| + |args|
      ensures (EnvWords(env) + args)[i] == (EnvWords(env2) + args2)[i]
    {
      SimpleCommandTexts(args, env, i);
      SimpleCommandTexts(args2, env2, i);
    }
  }

  lemma SimpleCommandHasNoAnd(args: seq<string>, env: seq<(string, string)>)
    ensures AndIf !in SimpleCommand(args, env)
  {}

  lemma IntendedParts(args: seq<string>, cwd: string, env: seq<(string, string)>)
    ensures var t := Intended(args, cwd, env);
            if cwd == "" then t == SimpleCommand(args, env) && AndIf !in t
            else |t| >= 3 && t[1] == Word(Piece(cwd, ShellQuote(cwd))) && t[2] == AndIf
                 && t[3..] == SimpleCommand(args, env)
  {
    SimpleCommandHasNoAnd(args, env);
    hide SimpleCommand;
  }

  /** A command line stands for one directory and one list of words only. */
  lemma CommandDetermines(args: seq<string>, cwd: string, env: seq<(string, string)>,
                          args2: seq<string>, cwd2: string, env2: seq<(string, string)>)
    requires forall i :: 0 <= i < |env| ==> ValidName(env[i].0)
    requires forall i :: 0 <= i < |env2| ==> ValidName(env2[i].0)
    requires WithCwd(cwd, WithEnv(env, Join(Quoted(args))))
          == WithCwd(cwd2, WithEnv(env2, Join(Quoted(args2))))
    ensures cwd == cwd2 && EnvWords(env) + args == EnvWords(env2) + args2
  {
    hide *;
    CommandReadsBack(args, cwd, env);
    CommandReadsBack(args2, cwd2, env2);
    IntendedParts(args, cwd, env);
    IntendedParts(args2, cwd2, env2);
    SimpleCommandDetermines(args, env, args2, env2);
  }

  // ---- Which word is the command ------------------------------------------------------------

  /** A word that the shell takes for an assignment in front of a command (section 2.10.2, rule 7):
      as written, a name and an equals sign. No character of a name is a quote, so both are
      unquoted. */
  predicate AssignmentWord(raw: string) {
    exists n :: 0 < n < |raw| && raw[n] == '=' && ValidName(raw[..n])
  }

  /** Words that the shell takes for its own syntax where a command begins (section 2.4). */
  const RESERVED := {"!", "{", "}", "case", "do", "done", "elif", "else", "esac", "fi", "for", "if",
                     "in", "then", "until", "while"}

  /** Word `k` is the name of the command: everything before it is an assignment, it is not, and it
      is not read as a reserved word. */
  ghost predicate NamesCommand(t: seq<Token>, k: nat) {
    && k < |t| && t[k].Word? && !AssignmentWord(t[k].piece.raw)
    && (forall i :: 0 <= i < k ==> t[i].Word? && AssignmentWord(t[i].piece.raw))
    && (k == 0 ==> t[k].piece.raw !in RESERVED)
  }

  predicate AllSafe(arg: string) { forall i :: 0 <= i < |arg| ==> Safe(arg[i]) }

  lemma QuotedIsNoAssignment(arg: string)
    ensures AssignmentWord(ShellQuote(arg)) <==> AllSafe(arg) && AssignmentWord(arg)
  {
    var raw := ShellQuote(arg);
    if raw != "" && raw[0] == '\'' {
      forall n | 0 < n < |raw|
        ensures !ValidName(raw[..n])
      {
        assert raw[..n][0] == '\'';
      }
      assert arg == "" || !AllSafe(arg);
    }
  }

  lemma QuotedIsNoReserved(arg: string)
    ensures ShellQuote(arg) in RESERVED <==> AllSafe(arg) && arg in RESERVED
  {
    var raw := ShellQuote(arg);
    if raw != "" && raw[0] == '\'' {
      assert forall w :: w in RESERVED ==> w[0] != '\'';
    }
  }

  lemma AssignmentIsAssignment(entry: (string, string))
    requires ValidName(entry.0)
    ensures AssignmentWord(Assignment(entry))
  {
    var raw, n := Assignment(entry), |entry.0|;
    assert raw[n] == '=' && raw[..n] == entry.0;
  }

  /** The first argument is the command that the shell runs, with the assignments for its
      environment, if and only if it is not of the form NAME=value without a character that needs
      quotes, nor, when nothing comes before it, a reserved word. */
  lemma FirstArgumentRunsIff(args: seq<string>, env: seq<(string, string)>)
    requires args != [] && forall i :: 0 <= i < |env| ==> ValidName(env[i].0)
    ensures NamesCommand(SimpleCommand(args, env), |env|) <==>
              !(AllSafe(args[0]) && AssignmentWord(args[0]))
              && !(env == [] && AllSafe(args[0]) && args[0] in RESERVED)
  {
    hide SimpleCommand, AssignmentWord, AllSafe, ShellQuote, Assignment;
    SimpleCommandTexts(args, env, |env|);
    forall i | 0 <= i < |env|
      ensures SimpleCommand(args, env)[i].Word?
      ensures AssignmentWord(SimpleCommand(args, env)[i].piece.raw)
    {
      SimpleCommandTexts(args, env, i);
      AssignmentIsAssignment(env[i]);
    }
    QuotedIsNoAssignment(args[0]);
    QuotedIsNoReserved(args[0]);
  }

  /** Without an environment the argument `A=b` is an assignment, and no command is named. */
  lemma AssignmentExample()
    ensures !NamesCommand(SimpleCommand(["A=b"], []), 0)
  {
    var arg := "A=b";
    assert arg[1] == '=' && arg[..1] == "A" && ValidName("A");
    assert AssignmentWord(arg) && AllSafe(arg);
    FirstArgumentRunsIff([arg], []);
  }

  /** Word by word: `cd`, the directory and `&&` if there is a directory, then every `KEY=value` of the
      environment and every argument, in order, nothing missing and nothing between. */
  ghost predicate SaysExactly(t: seq<Token>, args: seq<string>, cwd: string,
                              env: seq<(string, string)>)
  {
    var k := if cwd == "" then 0 else 3;
    && |t| == k + |env| + |args|
    && (cwd != "" ==> t[0].Word? && t[0].piece.text == "cd" && t[1].Word? && t[1].piece.text == cwd
                      && t[2].AndIf?)
    && (forall i :: 0 <= i < |env| ==>
          t[k + i].Word? && t[k + i].piece.text == env[i].0 + "=" + env[i].1)
    && forall i :: 0 <= i < |args| ==>
         t[k + |env| + i].Word? && t[k + |env| + i].piece.text == args[i]
  }

  lemma IntendedSaysExactly(args: seq<string>, cwd: string, env: seq<(string, string)>)
    ensures SaysExactly(Intended(args, cwd, env), args, cwd, env)
  {
    hide ShellQuote, Assignment;
  }

  /** An environment is an object's entries in order; None when there is none. */
  method BuildExecCommand(args: seq<string>, cwd: string, env: Option<seq<(string, string)>>)
    returns (r: Built)
    ensures r.InvalidName? <==>
              exists i :: 0 <= i < |env.GetOr([])| && !ValidName(env.GetOr([])[i].0)
    ensures r.InvalidName? ==>
              exists i :: 0 <= i < |env.GetOr([])| && r.key == env.GetOr([])[i].0
                          && !ValidName(r.key)
                          && forall j :: 0 <= j < i ==> ValidName(env.GetOr([])[j].0)
    ensures r.Command? ==>
              Tokens(r.text, Between, NOTHING) == Some(Intended(args, cwd, env.GetOr([])))
    ensures r.Command? ==>
              SaysExactly(Tokens(r.text, Between, NOTHING).value, args, cwd, env.GetOr([]))
  {
    IntendedSaysExactly(args, cwd, env.GetOr([]));
    hide SaysExactly;
    hide Tokens, Join, ValidName, Intended, ShellQuote;
    var command := Join(Quoted(args));
    if env.Some? {
      var entries := env.value;
      var assignments: seq<string> := [];
      for i := 0 to |entries|
        invariant assignments == Assignments(entries[..i])
        invariant forall j :: 0 <= j < i ==> ValidName(entries[j].0)
      {
        if !ValidName(entries[i].0) {
          assert !ValidName(env.GetOr([])[i].0);
          return InvalidName(entries[i].0);
        }
        assignments := assignments + [Assignment(entries[i])];
        assert Assignments(entries[..i + 1]) == Assignments(entries[..i]) + [Assignment(entries[i])];
      }
      assert entries[..|entries|] == entries;
      if |assignments| > 0 {
        command := Join(assignments) + " " + command;
      }
    }
    CommandReadsBack(args, cwd, env.GetOr([]));
    if cwd != "" {
      command := "cd " + ShellQuote(cwd) + " && " + command;
    }
    return Command(command);
  }
}
