/** The backward tail reader of packages/kaos/src/local.ts, which does not look at how many bytes a
    read returns: where it starts, and when that is where it should. */
module TextTail {
  import opened Wrappers
  import opened Utf8
  import opened Lines

  function LastLines<T>(lines: seq<T>, n: nat): seq<T> {
    if n >= |lines| then lines else lines[|lines| - n..]
  }

  /** The offset at which the last `tailCount` lines begin. */
  function TailStart(s: seq<byte>, tailCount: nat): (at: nat)
    ensures at <= |s|
  {
    TailFits(s, tailCount);
    |s| - |Flatten(LastLines(Split(s), tailCount))|
  }

  lemma TailFits(s: seq<byte>, tailCount: nat)
    ensures var tail := LastLines(Split(s), tailCount);
            |Flatten(tail)| <= |s| && s[|s| - |Flatten(tail)|..] == Flatten(tail)
  {
    var lines := Split(s);
    var tail := LastLines(lines, tailCount);
    hide Split, Flatten;
    SplitFlatten(s);
    assert lines == lines[..|lines| - |tail|] + tail;
    FlattenConcat(lines[..|lines| - |tail|], tail);
  }

  lemma {:induction false} LaterLines(s: seq<byte>, k: nat)
    requires k <= |Split(s)|
    ensures Split(Flatten(Split(s)[k..])) == Split(s)[k..]
    decreases k
  {
    hide Flatten, LineLength, Split;
    SplitFlatten(s);
    if k == 0 {
      assert Split(s)[0..] == Split(s);
    } else {
      SplitEmptyIff(s);
      SplitCons(s);
      var rest := s[LineLength(s)..];
      LaterLines(rest, k - 1);
      assert Split(s)[k..] == Split(rest)[k - 1..];
    }
  }

  lemma TailIsSplit(s: seq<byte>, tailCount: nat)
    ensures var tail := LastLines(Split(s), tailCount);
            Split(Flatten(tail)) == tail
  {
    hide Split, Flatten;
    var lines := Split(s);
    assert lines[0..] == lines;
    LaterLines(s, if tailCount >= |lines| then 0 else |lines| - tailCount);
  }

  /** It is the one offset from which the file splits into those lines. */
  lemma TailStartIs(s: seq<byte>, tailCount: nat, at: nat)
    requires at <= |s|
    ensures Split(s[at..]) == LastLines(Split(s), tailCount) <==> at == TailStart(s, tailCount)
  {
    hide Split, Flatten, LastLines;
    TailFits(s, tailCount);
    TailIsSplit(s, tailCount);
    SplitFlatten(s[at..]);
  }

  // ---- Counting from the end ----------------------------------------------------------------

  function CountFrom(s: seq<byte>, i: nat): nat
    requires i <= |s|
  {
    CountLf(s[i..])
  }

  lemma CountSuffixEmpty(s: seq<byte>)
    ensures CountFrom(s, |s|) == 0
  {}

  lemma CountWhole(s: seq<byte>)
    ensures CountFrom(s, 0) == CountLf(s)
  {
    assert s[0..] == s;
  }

  lemma CountSuffix(s: seq<byte>, i: nat)
    requires i < |s|
    ensures CountFrom(s, i) == (if s[i] == LF then 1 else 0) + CountFrom(s, i + 1)
  {
    assert s[i..][1..] == s[i + 1..];
  }

  /** How many terminators the backward scan has to meet before the tail is complete. */
  function Needed(s: seq<byte>, tailCount: nat): nat {
    if EndsWithLf(s) then tailCount + 1 else tailCount
  }

  /** The terminator just before `at` is the `need`-th from the end. */
  ghost predicate TailAt(s: seq<byte>, need: nat, at: nat) {
    1 <= at <= |s| && s[at - 1] == LF && CountFrom(s, at - 1) == need
  }

  lemma FewLines(s: seq<byte>, tailCount: nat)
    requires tailCount > 0
    requires s == [] || CountFrom(s, 0) < Needed(s, tailCount)
    ensures TailStart(s, tailCount) == 0
  {
    LineCount(s);
    CountWhole(s);
    assert s[0..] == s;
    hide Split;
    TailStartIs(s, tailCount, 0);
  }

  lemma TailSplit(s: seq<byte>, tailCount: nat, at: nat)
    requires tailCount > 0 && TailAt(s, Needed(s, tailCount), at)
    ensures TailStart(s, tailCount) == at
  {
    hide Split, TailStart;
    var head, tail := s[..at], s[at..];
    assert s == head + tail;
    SplitConcat(head, tail);
    CountSuffix(s, at - 1);
    LineCount(tail);
    if EndsWithLf(s) {
      assert tail != [];
      assert EndsWithLf(tail);
    } else {
      assert tail != [] && !EndsWithLf(tail);
    }
    assert |Split(tail)| == tailCount;
    assert Split(s)[|Split(head)|..] == Split(tail);
    TailStartIs(s, tailCount, at);
  }

  // ---- Short reads --------------------------------------------------------------------------

  /** What the buffers held: where a read fell short they kept the zeros they were made of. */
  ghost predicate Zeroed(contents: seq<byte>, seen: seq<byte>) {
    |seen| == |contents|
    && forall i :: 0 <= i < |seen| ==> seen[i] == contents[i] || seen[i] == 0
  }

  /** A terminator that matters: at or behind the one just before the tail, and not the last byte of
      the file. */
  ghost predicate TailArrives(contents: seq<byte>, seen: seq<byte>, tailCount: nat)
    requires |seen| == |contents|
  {
    var at := TailStart(contents, tailCount);
    at > 0 ==> forall i :: at - 1 <= i < |contents| - 1 && contents[i] == LF ==> seen[i] == LF
  }

  /** Terminators from `i` on, leaving out the last byte of the file: the scan needs `tailCount` of
      these, whether or not the file ends in one. */
  function InnerFrom(s: seq<byte>, i: nat): nat
    requires i <= |s|
    decreases |s| - i
  {
    if i + 1 >= |s| then 0 else (if s[i] == LF then 1 else 0) + InnerFrom(s, i + 1)
  }

  lemma {:induction false} CountInner(s: seq<byte>, i: nat)
    requires i <= |s|
    ensures CountFrom(s, i) == InnerFrom(s, i) + if i < |s| && EndsWithLf(s) then 1 else 0
    decreases |s| - i
  {
    hide CountFrom;
    if i == |s| {
      CountSuffixEmpty(s);
    } else {
      CountInner(s, i + 1);
      CountSuffix(s, i);
    }
  }

  lemma {:induction false} FindInner(s: seq<byte>, n: nat) returns (k: nat)
    requires 0 < n <= InnerFrom(s, 0)
    ensures k + 1 < |s| && s[k] == LF && InnerFrom(s, k) == n
  {
    k := 0;
    while InnerFrom(s, k) > n || s[k] != LF
      invariant k <= |s| && InnerFrom(s, k) >= n
      decreases |s| - k
    {
      k := k + 1;
    }
  }

  /** The tail begins behind the `tailCount`-th inner terminator from the end, or at 0. */
  lemma TailByInner(s: seq<byte>, tailCount: nat, at: nat)
    requires tailCount > 0
    ensures at == TailStart(s, tailCount) <==>
              if InnerFrom(s, 0) < tailCount then at == 0
              else 1 <= at < |s| && s[at - 1] == LF && InnerFrom(s, at - 1) == tailCount
  {
    hide TailStart, CountFrom;
    CountInner(s, 0);
    if InnerFrom(s, 0) < tailCount {
      FewLines(s, tailCount);
    } else {
      var k := FindInner(s, tailCount);
      CountInner(s, k);
      TailSplit(s, tailCount, k + 1);
      if 1 <= at < |s| && s[at - 1] == LF && InnerFrom(s, at - 1) == tailCount {
        CountInner(s, at - 1);
        TailSplit(s, tailCount, at);
      }
    }
  }

  lemma {:induction false} FewerSeen(contents: seq<byte>, seen: seq<byte>, i: nat)
    requires Zeroed(contents, seen) && i <= |contents|
    ensures InnerFrom(seen, i) <= InnerFrom(contents, i)
    ensures InnerFrom(seen, i) == InnerFrom(contents, i) <==>
              forall j :: i <= j < |contents| - 1 && contents[j] == LF ==> seen[j] == LF
    decreases |contents| - i
  {
    if i + 1 < |contents| {
      FewerSeen(contents, seen, i + 1);
    }
  }

  lemma TailSurvivesIff(contents: seq<byte>, seen: seq<byte>, tailCount: nat)
    requires Zeroed(contents, seen) && tailCount > 0
    ensures TailStart(seen, tailCount) == TailStart(contents, tailCount) <==>
              TailArrives(contents, seen, tailCount)
  {
    hide TailStart, InnerFrom;
    var at := TailStart(contents, tailCount);
    TailByInner(contents, tailCount, at);
    TailByInner(seen, tailCount, at);
    FewerSeen(contents, seen, 0);
    if at > 0 {
      FewerSeen(contents, seen, at - 1);
      FewerAbove(seen, at - 1);
    }
  }

  lemma {:induction false} FewerAbove(s: seq<byte>, i: nat)
    requires i <= |s|
    ensures InnerFrom(s, i) <= InnerFrom(s, 0)
    decreases i
  {
    if i > 0 {
      FewerAbove(s, i - 1);
    }
  }

  /** A buffer of zeros with what a read returned at its front. */
  function Block(contents: seq<byte>, pos: nat, bytesRead: nat, size: nat): (buf: seq<byte>)
    requires pos + size <= |contents| && bytesRead <= size
    ensures |buf| == size
  {
    contents[pos..pos + bytesRead] + seq(size - bytesRead, _ => 0)
  }

  /** Within the file a read returns at least one byte. */
  type BytesRead = n: nat | n >= 1 witness 1

  function Min(a: nat, b: nat): nat { if a < b then a else b }

  /** The buffers of all blocks up to `end`, one after the other. `got` is how many bytes the read at
      an offset returns, if it asks for that many. */
  function SeenUpTo(contents: seq<byte>, end: nat, blockSize: nat, got: nat -> BytesRead): (s: seq<byte>)
    requires end <= |contents| && blockSize > 0
    ensures |s| == end
    decreases end
  {
    if end == 0 then []
    else
      var size := Min(blockSize, end);
      SeenUpTo(contents, end - size, blockSize, got)
      + Block(contents, end - size, Min(got(end - size), size), size)
  }

  /** What the backward scan gets to see of a file. */
  function Seen(contents: seq<byte>, blockSize: nat, got: nat -> BytesRead): (s: seq<byte>)
    requires blockSize > 0
    ensures |s| == |contents|
  {
    SeenUpTo(contents, |contents|, blockSize, got)
  }

  lemma BlockIsZeroed(contents: seq<byte>, pos: nat, bytesRead: nat, size: nat)
    requires pos + size <= |contents| && bytesRead <= size
    ensures Zeroed(contents[pos..pos + size], Block(contents, pos, bytesRead, size))
    ensures bytesRead == size ==>
              Block(contents, pos, bytesRead, size) == contents[pos..pos + size]
  {}

  lemma JoinZeroed(a: seq<byte>, b: seq<byte>, c: seq<byte>, d: seq<byte>)
    requires Zeroed(a, b) && Zeroed(c, d)
    ensures Zeroed(a + c, b + d)
  {}

  lemma {:induction false} SeenIsZeroed(contents: seq<byte>, end: nat, blockSize: nat,
                                        got: nat -> BytesRead)
    requires end <= |contents| && blockSize > 0
    ensures Zeroed(contents[..end], SeenUpTo(contents, end, blockSize, got))
    decreases end
  {
    if end > 0 {
      var size := Min(blockSize, end);
      var pos := end - size;
      SeenIsZeroed(contents, pos, blockSize, got);
      BlockIsZeroed(contents, pos, Min(got(pos), size), size);
      hide Zeroed, Block;
      JoinZeroed(contents[..pos], SeenUpTo(contents, pos, blockSize, got),
                 contents[pos..end], Block(contents, pos, Min(got(pos), size), size));
      assert contents[..end] == contents[..pos] + contents[pos..end];
    }
  }

  lemma {:induction false} WholeIsSeen(contents: seq<byte>, end: nat, blockSize: nat,
                                       got: nat -> BytesRead)
    requires end <= |contents| && blockSize > 0 && Whole(got, blockSize)
    ensures SeenUpTo(contents, end, blockSize, got) == contents[..end]
    decreases end
  {
    if end > 0 {
      var size := Min(blockSize, end);
      var pos := end - size;
      WholeIsSeen(contents, pos, blockSize, got);
      BlockIsZeroed(contents, pos, Min(got(pos), size), size);
      hide Zeroed, Block;
      assert contents[..end] == contents[..pos] + contents[pos..end];
    }
  }

  lemma SeenWhole(contents: seq<byte>, blockSize: nat, got: nat -> BytesRead)
    requires blockSize > 0
    ensures Zeroed(contents, Seen(contents, blockSize, got))
    ensures Whole(got, blockSize) ==> Seen(contents, blockSize, got) == contents
  {
    hide SeenUpTo, Zeroed, Whole;
    assert contents[..|contents|] == contents;
    SeenIsZeroed(contents, |contents|, blockSize, got);
    if Whole(got, blockSize) {
      WholeIsSeen(contents, |contents|, blockSize, got);
    }
  }

  /** No read of a block falls short. */
  ghost predicate Whole(got: nat -> BytesRead, blockSize: nat) { forall p :: got(p) >= blockSize }

  /** The blocks still to be read are those below `pos`. */
  ghost predicate Below(contents: seq<byte>, blockSize: nat, got: nat -> BytesRead, pos: nat)
    requires blockSize > 0
  {
    pos <= |contents|
    && Seen(contents, blockSize, got)[..pos] == SeenUpTo(contents, pos, blockSize, got)
  }

  lemma AllBelow(contents: seq<byte>, blockSize: nat, got: nat -> BytesRead)
    requires blockSize > 0
    ensures Below(contents, blockSize, got, |contents|)
  {
    hide SeenUpTo;
    var s := Seen(contents, blockSize, got);
    assert s[..|s|] == s;
  }

  lemma NextBlock(contents: seq<byte>, blockSize: nat, got: nat -> BytesRead, end: nat)
    requires blockSize > 0 && 0 < end && Below(contents, blockSize, got, end)
    ensures var size := Min(blockSize, end);
            var buf := Block(contents, end - size, Min(got(end - size), size), size);
            && Below(contents, blockSize, got, end - size)
            && forall i :: 0 <= i < size ==>
                 Seen(contents, blockSize, got)[end - size + i] == buf[i]
  {
    var seen, size := Seen(contents, blockSize, got), Min(blockSize, end);
    var pos := end - size;
    var buf := Block(contents, pos, Min(got(pos), size), size);
    hide Seen, Block;
    assert seen[..end] == SeenUpTo(contents, pos, blockSize, got) + buf;
    assert seen[..pos] == seen[..end][..pos];
    assert forall k :: pos <= k < end ==> seen[k] == seen[..end][k] == buf[k - pos];
  }

  lemma TailFound(s: seq<byte>, need: nat, at: nat)
    requires 1 <= at <= |s| && s[at - 1] == LF && CountFrom(s, at - 1) == need
    ensures TailAt(s, need, at)
  {}

  /** The block scan, for any block size and whatever its reads return: stops where the last
      `tailCount` lines of what it sees begin, and that is where those of the file begin if and only
      if the terminators that matter arrive. */
  method FindTail(contents: seq<byte>, tailCount: nat, blockSize: nat, got: nat -> BytesRead)
    returns (startOffset: nat)
    requires tailCount > 0 && blockSize > 0
    ensures startOffset == TailStart(Seen(contents, blockSize, got), tailCount)
    ensures startOffset == TailStart(contents, tailCount)
       <==> TailArrives(contents, Seen(contents, blockSize, got), tailCount)
  {
    hide Split, CountFrom, TailStart, TailAt, Zeroed, Whole, Block, Seen, Below, TailArrives;
    ghost var seen := Seen(contents, blockSize, got);
    var pos: nat := |contents|;
    var foundLf: nat := 0;
    var needLf := tailCount;
    var sawTailBlock := false;
    startOffset := 0;
    CountSuffixEmpty(seen);
    AllBelow(contents, blockSize, got);
    SeenWhole(contents, blockSize, got);

    while pos > 0 && foundLf < needLf
      invariant pos <= |contents| && Below(contents, blockSize, got, pos)
      invariant needLf == if sawTailBlock then Needed(seen, tailCount) else tailCount
      invariant if sawTailBlock then pos < |contents| else pos == |contents|
      invariant foundLf < needLf ==> foundLf == CountFrom(seen, pos)
      invariant foundLf >= needLf ==> TailAt(seen, needLf, startOffset) && sawTailBlock
      decreases pos
    {
      NextBlock(contents, blockSize, got, pos);
      var readSize := Min(blockSize, pos);
      pos := pos - readSize;
      var buf := Block(contents, pos, Min(got(pos), readSize), readSize);
      if !sawTailBlock {
        sawTailBlock := true;
        var endsWithNewline := buf[readSize - 1] == LF;
        needLf := if endsWithNewline then tailCount + 1 else tailCount;
      }
      for i: nat := readSize downto 0
        invariant foundLf < needLf
        invariant foundLf == CountFrom(seen, pos + i)
      {
        CountSuffix(seen, pos + i);
        if buf[i] != LF {
          continue;
        }
        foundLf := foundLf + 1;
        if foundLf == needLf {
          startOffset := pos + i + 1;
          TailFound(seen, needLf, startOffset);
          break;
        }
      }
    }

    if foundLf < needLf {
      startOffset := 0;
      FewLines(seen, tailCount);
    } else {
      TailSplit(seen, tailCount, startOffset);
    }
    TailSurvivesIff(contents, seen, tailCount);
  }

  /** "a", a terminator and "b", of which the read of the one block returns the first byte only: the
      last line begins at 2, and the scan stops at 0. */
  lemma ShortReadExample()
    ensures var contents := [97, LF, 98];
            && TailStart(contents, 1) == 2
            && TailStart(Seen(contents, 3, _ => 1), 1) == 0
            && !TailArrives(contents, Seen(contents, 3, _ => 1), 1)
  {
    var contents, got: nat -> BytesRead := [97, LF, 98], _ => 1;
    var seen := Seen(contents, 3, got);
    assert SeenUpTo(contents, 0, 3, got) == [];
    assert seen == Block(contents, 0, 1, 3) == [97, 0, 0];
    hide TailStart, Seen;
    TailByInner(contents, 1, 2);
    TailByInner(seen, 1, 0);
  }
}
