/** Lines of a file: the split after each 0x0a that every reader of packages/kaos/src/local.ts
    must agree on, and its laws. The element type is a byte or a code point. */
module Lines {
  import opened Wrappers

  const LF := 0x0A

  /** The lines of `s`, each with its terminator; only the last may lack one. */
  function Split(s: seq<int>): (lines: seq<seq<int>>)
    ensures s == [] <==> lines == []
    decreases |s|
  {
    if s == [] then []
    else
      var n := LineLength(s);
      [s[..n]] + Split(s[n..])
  }

  /** The length of the first line. */
  function LineLength(s: seq<int>): (n: nat)
    requires s != []
    ensures 1 <= n <= |s|
    ensures LF !in s[..n - 1]
    ensures n < |s| ==> s[n - 1] == LF
    decreases |s|
  {
    if s[0] == LF || |s| == 1 then 1 else 1 + LineLength(s[1..])
  }

  ghost predicate IsLine(l: seq<int>) { l != [] && LF !in l[..|l| - 1] }

  predicate EndsWithLf(s: seq<int>) { s != [] && s[|s| - 1] == LF }

  function CountLf(s: seq<int>): nat
    decreases |s|
  {
    if s == [] then 0 else (if s[0] == LF then 1 else 0) + CountLf(s[1..])
  }

  lemma {:induction false} CountConcat(a: seq<int>, b: seq<int>)
    ensures CountLf(a + b) == CountLf(a) + CountLf(b)
    decreases |a|
  {
    if a == [] {
      assert a + b == b;
    } else {
      assert (a + b)[1..] == a[1..] + b;
      CountConcat(a[1..], b);
    }
  }

  lemma {:induction false} CountNone(s: seq<int>)
    ensures CountLf(s) == 0 <==> LF !in s
    decreases |s|
  {
    if s != [] {
      CountNone(s[1..]);
      assert s == [s[0]] + s[1..];
    }
  }

  /** A line ends at the first 0x0a or at the end. */
  lemma {:induction false} LineLengthIs(s: seq<int>, n: nat)
    requires 1 <= n <= |s| && LF !in s[..n - 1] && (n == |s| || s[n - 1] == LF)
    ensures LineLength(s) == n
  {
    var k := LineLength(s);
    if k < n {
      TerminatorBefore(s, k, n);
    } else if n < k {
      TerminatorBefore(s, n, k);
    }
  }

  lemma TerminatorBefore(s: seq<int>, k: int, n: int)
    requires 1 <= k < n <= |s| && s[k - 1] == LF
    ensures LF in s[..n - 1]
  {
    assert s[..n - 1][k - 1] == LF;
  }

  lemma SplitFirst(l: seq<int>, rest: seq<int>)
    requires IsLine(l) && (EndsWithLf(l) || rest == [])
    ensures Split(l + rest) == [l] + Split(rest)
  {
    var s := l + rest;
    assert s[..|l| - 1] == l[..|l| - 1];
    LineLengthIs(s, |l|);
    assert s[..|l|] == l && s[|l|..] == rest;
  }

  /** The split is the only way to cut a file into terminated lines with at most the last
      unterminated. */
  lemma {:induction false} SplitIsUnique(lines: seq<seq<int>>)
    requires forall i :: 0 <= i < |lines| ==> IsLine(lines[i])
    requires forall i :: 0 <= i < |lines| - 1 ==> EndsWithLf(lines[i])
    ensures Split(Flatten(lines)) == lines
    decreases |lines|
  {
    if lines != [] {
      var rest := lines[1..];
      forall i | 0 <= i < |rest| - 1
        ensures EndsWithLf(rest[i])
      {
        assert rest[i] == lines[i + 1];
      }
      SplitIsUnique(rest);
      if |lines| > 1 {
        assert EndsWithLf(lines[0]);
      }
      SplitFirst(lines[0], Flatten(rest));
    }
  }

  lemma FlattenCons(l: seq<int>, rest: seq<seq<int>>)
    ensures Flatten([l] + rest) == l + Flatten(rest)
  {
    assert ([l] + rest)[1..] == rest;
  }

  lemma SplitCons(s: seq<int>)
    requires s != []
    ensures Split(s) == [s[..LineLength(s)]] + Split(s[LineLength(s)..])
  {}

  lemma {:induction false} SplitFlatten(s: seq<int>)
    ensures Flatten(Split(s)) == s
    decreases |s|
  {
    hide Split, Flatten, LineLength;
    if s == [] {
      NothingToFlatten();
    } else {
      var n := LineLength(s);
      var rest := s[n..];
      SplitFlatten(rest);
      SplitCons(s);
      FlattenCons(s[..n], Split(rest));
      assert s == s[..n] + rest;
    }
  }

  lemma NothingToFlatten()
    ensures Flatten(Split([])) == []
  {}

  lemma FirstIsLine(s: seq<int>)
    requires s != []
    ensures IsLine(s[..LineLength(s)])
    ensures LineLength(s) < |s| ==> EndsWithLf(s[..LineLength(s)])
  {
    assert s[..LineLength(s)][..LineLength(s) - 1] == s[..LineLength(s) - 1];
  }

  lemma {:induction false} SplitIsLines(s: seq<int>, i: nat)
    requires i < |Split(s)|
    ensures IsLine(Split(s)[i])
    ensures i < |Split(s)| - 1 ==> EndsWithLf(Split(s)[i])
    decreases |s|
  {
    var n := LineLength(s);
    assert Split(s) == [s[..n]] + Split(s[n..]);
    FirstIsLine(s);
    hide Split, LineLength, IsLine, EndsWithLf;
    if i > 0 {
      SplitIsLines(s[n..], i - 1);
    } else {
      assert |Split(s[n..])| > 0 ==> s[n..] != [];
    }
  }

  lemma FirstLine(s: seq<int>) returns (l: seq<int>, rest: seq<int>)
    requires s != []
    ensures s == l + rest && IsLine(l)
    ensures Split(s) == [l] + Split(rest)
    ensures if rest == [] then l == s else EndsWithLf(l) && EndsWithLf(rest) == EndsWithLf(s)
  {
    hide LineLength;
    var n := LineLength(s);
    l, rest := s[..n], s[n..];
    assert l[..n - 1] == s[..n - 1];
    assert Split(s) == [l] + Split(rest);
  }

  /** Splitting commutes with cutting after a terminator. */
  lemma {:induction false} SplitConcat(a: seq<int>, b: seq<int>)
    requires a == [] || EndsWithLf(a)
    ensures Split(a + b) == Split(a) + Split(b)
    decreases |a|
  {
    hide Split, LineLength;
    if a == [] {
      assert a + b == b;
      SplitEmpty();
    } else {
      var l, rest := FirstLine(a);
      SplitConcat(rest, b);
      assert a + b == l + (rest + b);
      SplitFirst(l, rest + b);
    }
  }

  lemma SplitEmpty()
    ensures Split([]) == []
  {}

  lemma CountLine(l: seq<int>)
    requires IsLine(l)
    ensures CountLf(l) == if EndsWithLf(l) then 1 else 0
  {
    var n := |l| - 1;
    assert l == l[..n] + [l[n]];
    CountConcat(l[..n], [l[n]]);
    CountNone(l[..n]);
  }

  lemma CountNothing()
    ensures CountLf([]) == 0
  {}

  lemma {:induction false} LineCount(s: seq<int>)
    ensures |Split(s)| == CountLf(s) + if s == [] || EndsWithLf(s) then 0 else 1
    decreases |s|
  {
    hide Split, CountLf, IsLine;
    if s == [] {
      CountNothing();
    } else {
      var l, rest := FirstLine(s);
      LineCount(rest);
      CountConcat(l, rest);
      CountLine(l);
      CountNothing();
      assert s[|s| - 1] == if rest == [] then l[|l| - 1] else rest[|rest| - 1];
    }
  }

  /** Line number `k` (from 0) of `s` starts at offset `at`. */
  ghost predicate LineStarts(s: seq<int>, at: nat, k: nat) {
    at <= |s| && (at == 0 || s[at - 1] == LF) && |Split(s[..at])| == k
  }

  lemma LineCutOut(s: seq<int>, at: nat, end: nat)
    requires at < end <= |s| && (at == 0 || s[at - 1] == LF)
    requires LF !in s[at..end - 1]
    ensures s == s[..at] + (s[at..end] + s[end..]) && s[..end] == s[..at] + s[at..end]
    ensures s[..at] == [] || EndsWithLf(s[..at])
    ensures IsLine(s[at..end]) && (EndsWithLf(s[at..end]) <==> s[end - 1] == LF)
  {
    assert s[at..end][..end - at - 1] == s[at..end - 1];
  }

  lemma InTheMiddle<T>(a: seq<T>, x: T, b: seq<T>)
    ensures (a + ([x] + b))[|a|] == x && |a + ([x] + b)| == |a| + 1 + |b|
  {}

  /** Finding the end of line `k` determines that line and where the next one starts. */
  lemma SplitAround(head: seq<int>, l: seq<int>, tail: seq<int>)
    requires head == [] || EndsWithLf(head)
    requires IsLine(l) && (EndsWithLf(l) || tail == [])
    ensures Split(head + (l + tail)) == Split(head) + ([l] + Split(tail))
    ensures EndsWithLf(l) ==> |Split(head + l)| == |Split(head)| + 1
  {
    hide *;
    SplitConcat(head, l + tail);
    SplitFirst(l, tail);
    SplitConcat(head, l);
    SplitOne(l);
  }

  lemma LineFound(s: seq<int>, at: nat, k: nat, end: nat)
    requires LineStarts(s, at, k) && at < end <= |s|
    requires LF !in s[at..end - 1] && (s[end - 1] == LF || end == |s|)
    ensures k < |Split(s)| && Split(s)[k] == s[at..end]
    ensures k == 0 <==> at == 0
    ensures s[end - 1] == LF ==> LineStarts(s, end, k + 1)
    ensures end == |s| ==> |Split(s)| == k + 1
  {
    hide Split, IsLine, EndsWithLf;
    LineCutOut(s, at, end);
    SplitAround(s[..at], s[at..end], s[end..]);
    SplitEmptyIff(s[..at]);
    SplitEmptyIff(s[end..]);
    InTheMiddle(Split(s[..at]), s[at..end], Split(s[end..]));
  }

  lemma SplitEmptyIff(s: seq<int>)
    ensures Split(s) == [] <==> s == []
  {}

  lemma SplitOne(l: seq<int>)
    requires IsLine(l)
    ensures Split(l) == [l]
  {
    SplitFirst(l, []);
    SplitEmpty();
    assert l + [] == l;
  }
}
