/** Reading lines in `ignore` mode: decoding and splitting can be done in either order, up to an
    unterminated last line that decodes to nothing. */
module LossyLines {
  import opened Wrappers
  import opened Utf8
  import opened Utf8Decoder
  import opened Lines
  import opened TextFile
  import opened TextTail

  function DecodeEach(lines: seq<seq<byte>>): (texts: seq<seq<Scalar>>)
    ensures |texts| == |lines|
    decreases |lines|
  {
    if lines == [] then [] else [Decode(lines[0])] + DecodeEach(lines[1..])
  }

  function NonEmpty(texts: seq<seq<int>>): seq<seq<int>>
    decreases |texts|
  {
    if texts == [] then []
    else (if texts[0] == [] then [] else [texts[0]]) + NonEmpty(texts[1..])
  }

  function SplitBytes(s: seq<byte>): (lines: seq<seq<byte>>)
    ensures lines == Split(s)
    decreases |s|
  {
    if s == [] then [] else [s[..LineLength(s)]] + SplitBytes(s[LineLength(s)..])
  }

  lemma {:induction false} DecodeNoLf(s: seq<byte>)
    requires LF !in s
    ensures LF !in Decode(s)
    decreases |s|
  {
    hide IsChar, CharLength, CodePoint;
    if s != [] {
      var n := CharLength(s);
      if n > 0 {
        HeadNotLf(s);
        DecodeNoLf(s[n..]);
        assert Decode(s) == [CodePoint(s[..n])] + Decode(s[n..]);
      } else {
        DecodeNoLf(s[1..]);
      }
    }
  }

  lemma HeadNotLf(s: seq<byte>)
    requires LF !in s && CharLength(s) > 0
    ensures CodePoint(s[..CharLength(s)]) != LF
  {
    hide IsChar, CharLength, CodePoint, Encode;
    var c := s[..CharLength(s)];
    CharIsEncoded(c);
    assert c[0] == s[0] && s[0] in s;
    if CodePoint(c) == LF {
      EncodeLf();
    }
  }

  lemma EncodeLf()
    ensures Encode(LF) == [LF]
  {}

  lemma DecodeLf()
    ensures Decode([LF]) == [LF]
  {
    assert [LF][1..] == [];
  }

  /** A terminated line decodes to a terminated line. */
  lemma DecodeLine(l: seq<byte>)
    requires IsLine(l)
    ensures EndsWithLf(l) ==> IsLine(Decode(l)) && EndsWithLf(Decode(l))
    ensures !EndsWithLf(l) ==> LF !in Decode(l)
  {
    hide Decode;
    if EndsWithLf(l) {
      var body := l[..|l| - 1];
      assert l == body + [LF];
      DecodeCut(body, [LF]);
      DecodeLf();
      DecodeNoLf(body);
    } else {
      assert l == l[..|l| - 1] + [l[|l| - 1]];
      DecodeNoLf(l);
    }
  }

  /** Joining the decoded lines gives the decoded file. */
  lemma {:induction false} DecodedLinesJoin(s: seq<byte>)
    ensures Flatten(DecodeEach(SplitBytes(s))) == Decode(s)
    decreases |s|
  {
    hide Decode, LineLength;
    if s == [] {
      DecodeEmpty(s);
    } else {
      var n := LineLength(s);
      DecodedLinesJoin(s[n..]);
      assert s == s[..n] + s[n..];
      DecodeCut(s[..n], s[n..]);
      assert DecodeEach(SplitBytes(s))[1..] == DecodeEach(SplitBytes(s[n..]));
    }
  }

  /** Splitting the decoded file gives the decoded lines, except that an unterminated last line
      made of nothing but invalid bytes leaves no line at all. */
  lemma {:induction false} SplitOfDecoded(s: seq<byte>)
    ensures Split(Decode(s)) == NonEmpty(DecodeEach(SplitBytes(s)))
    decreases |s|
  {
    hide Decode, LineLength, Split;
    if s == [] {
      DecodeEmpty(s);
      SplitEmpty();
    } else {
      var n := LineLength(s);
      var l, rest := s[..n], s[n..];
      SplitOfDecoded(rest);
      assert s == l + rest;
      DecodeCut(l, rest);
      assert IsLine(l) by {
        assert l[..n - 1] == s[..n - 1];
      }
      DecodeLine(l);
      assert SplitBytes(s) == [l] + SplitBytes(rest);
      assert DecodeEach(SplitBytes(s)) == [Decode(l)] + DecodeEach(SplitBytes(rest));
      if rest == [] {
        DecodeEmpty(rest);
        SplitWhole(Decode(l));
        assert Decode(l) + [] == Decode(l);
      } else {
        assert EndsWithLf(l);
        SplitFirst(Decode(l), Decode(rest));
      }
    }
  }

  lemma SplitWhole(l: seq<int>)
    requires IsLine(l) || LF !in l
    ensures Split(l) == if l == [] then [] else [l]
  {
    if l == [] {
      SplitEmpty();
    } else {
      assert forall i :: 0 <= i < |l| - 1 ==> l[..|l| - 1][i] == l[i];
      SplitOne(l);
    }
  }

  lemma {:induction false} NonEmptyKeeps(texts: seq<seq<int>>)
    requires forall i :: 0 <= i < |texts| - 1 ==> texts[i] != []
    ensures NonEmpty(texts) == texts <==> texts == [] || texts[|texts| - 1] != []
    decreases |texts|
  {
    if |texts| > 1 {
      assert forall i :: 0 <= i < |texts[1..]| - 1 ==> texts[1..][i] == texts[i + 1];
      NonEmptyKeeps(texts[1..]);
      assert texts == [texts[0]] + texts[1..];
      assert NonEmpty(texts)[1..] == NonEmpty(texts[1..]);
    }
  }

  lemma {:induction false} DecodeEachAt(lines: seq<seq<byte>>, i: nat)
    requires i < |lines|
    ensures DecodeEach(lines)[i] == Decode(lines[i])
    decreases i
  {
    hide Decode;
    if i > 0 {
      DecodeEachAt(lines[1..], i - 1);
    }
  }

  /** Text-level and byte-level line counts agree exactly when the last line keeps something. */
  lemma SameLinesIff(s: seq<byte>)
    ensures Split(Decode(s)) == DecodeEach(SplitBytes(s)) <==>
            s == [] || Decode(SplitBytes(s)[|SplitBytes(s)| - 1]) != []
  {
    hide Decode, Split, SplitBytes, NonEmpty, DecodeEach;
    var lines := SplitBytes(s);
    SplitOfDecoded(s);
    SplitEmptyIff(s);
    forall i | 0 <= i < |lines| - 1
      ensures DecodeEach(lines)[i] != []
    {
      DecodeEachAt(lines, i);
      SplitIsLines(s, i);
      DecodeLine(lines[i]);
    }
    if lines != [] {
      DecodeEachAt(lines, |lines| - 1);
    }
    NonEmptyKeeps(DecodeEach(lines));
  }

  // ---- Reading the tail ---------------------------------------------------------------------

  /** Reads a range with as many positional reads as it takes. */
  method ReadRange(contents: seq<byte>, start: nat, length: nat) returns (data: seq<byte>)
    requires start + length <= |contents|
    ensures data == contents[start..start + length]
  {
    data := [];
    while |data| < length
      invariant |data| <= length && data == contents[start..start + |data|]
      decreases length - |data|
    {
      var n: nat :| 1 <= n <= length - |data|;
      data := data + contents[start + |data|..start + |data| + n];
    }
  }

  method SplitLinesKeepingTerminator(text: seq<int>) returns (lines: seq<seq<int>>)
    ensures lines == Split(text)
  {
    hide Split;
    lines := [];
    if |text| == 0 {
      SplitEmpty();
      return;
    }
    var start: nat := 0;
    assert text[..0] == [];
    SplitEmpty();
    for i := 0 to |text|
      invariant start <= i && lines == Split(text[..start])
      invariant LineStarts(text, start, |lines|)
      invariant LF !in text[start..i]
    {
      if text[i] == LF {
        NextLine(text, start, i + 1);
        lines := lines + [text[start..i + 1]];
        start := i + 1;
      } else {
        assert text[start..i + 1] == text[start..i] + [text[i]];
      }
    }
    if start < |text| {
      NextLine(text, start, |text|);
      lines := lines + [text[start..]];
    }
    assert text[..|text|] == text;
  }

  lemma NextLine(s: seq<int>, at: nat, end: nat)
    requires at < end <= |s| && LineStarts(s, at, |Split(s[..at])|)
    requires LF !in s[at..end - 1] && (s[end - 1] == LF || end == |s|)
    ensures Split(s[..end]) == Split(s[..at]) + [s[at..end]]
    ensures s[end - 1] == LF ==> LineStarts(s, end, |Split(s[..at])| + 1)
  {
    hide Split;
    var l := s[at..end];
    assert s[..end] == s[..at] + l;
    assert l[..|l| - 1] == s[at..end - 1];
    SplitConcat(s[..at], l);
    SplitOne(l);
  }

  /** A text decoder: given bytes, and whether a byte order mark is kept as text, it gives code
      points or throws. */
  type Decoder = (seq<byte>, bool) -> Option<seq<int>>

  function LinesOf(text: Option<seq<int>>): Option<seq<seq<int>>> {
    if text.None? then None else Some(Split(text.value))
  }

  /** readTailLines for any decoder and any reads, None standing for what the decoder throws. */
  method ReadTailLines(contents: seq<byte>, tailCount: int, decode: Decoder, blockSize: nat,
                       got: nat -> BytesRead)
    returns (lines: Option<seq<seq<int>>>)
    requires blockSize > 0
    ensures tailCount <= 0 || contents == [] ==> lines == Some([])
    ensures tailCount > 0 && contents != [] ==>
              var at := TailStart(Seen(contents, blockSize, got), tailCount);
              lines == LinesOf(decode(contents[at..], at != 0))
    ensures tailCount > 0 && contents != [] && Whole(got, blockSize) ==>
              var at := TailStart(contents, tailCount);
              lines == LinesOf(decode(contents[at..], at != 0))
  {
    hide Split, TailStart, Zeroed, TailArrives, Whole, Seen;
    if tailCount <= 0 || |contents| == 0 {
      return Some([]);
    }
    SeenWhole(contents, blockSize, got);
    var startOffset := FindTail(contents, tailCount, blockSize, got);
    var data := ReadRange(contents, startOffset, |contents| - startOffset);
    assert data == contents[startOffset..];
    var text := decode(data, startOffset != 0);
    if text.None? {
      return None;
    }
    var split := SplitLinesKeepingTerminator(text.value);
    return Some(split);
  }

  /** What `ignore` mode makes of the tail: the decodings of the last lines, without a last one that
      decodes to nothing. */
  lemma IgnoredTail(contents: seq<byte>, tailCount: nat)
    ensures Split(Decode(contents[TailStart(contents, tailCount)..]))
         == NonEmpty(DecodeEach(LastLines(SplitBytes(contents), tailCount)))
  {
    hide Decode, Split, NonEmpty, DecodeEach, TailStart;
    var data := contents[TailStart(contents, tailCount)..];
    TailStartIs(contents, tailCount, TailStart(contents, tailCount));
    SplitOfDecoded(data);
    assert SplitBytes(data) == LastLines(SplitBytes(contents), tailCount);
  }

  // ---- The line reader in `ignore` mode -----------------------------------------------------

  function DecodeLines(lines: seq<RawLine>): (texts: seq<seq<Scalar>>)
    ensures |texts| == |lines|
  {
    seq(|lines|, i requires 0 <= i < |lines| => Decode(lines[i].bytes))
  }

  /** The texts that the line reader yields for a whole file, joined, are the decoded file. */
  lemma LinesReadJoin(contents: seq<byte>)
    ensures Flatten(DecodeLines(Window(AllLines(contents), 1, None))) == Decode(contents)
  {
    hide Decode, Split, DecodeEach, SplitBytes, Flatten;
    var lines := Window(AllLines(contents), 1, None);
    assert lines == AllLines(contents);
    forall i | 0 <= i < |lines|
      ensures DecodeLines(lines)[i] == DecodeEach(SplitBytes(contents))[i]
    {
      DecodeEachAt(SplitBytes(contents), i);
    }
    assert DecodeLines(lines) == DecodeEach(SplitBytes(contents));
    DecodedLinesJoin(contents);
  }
}
