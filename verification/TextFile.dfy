/** An open file read in chunks of any size, and the forward line reader of
    packages/kaos/src/local.ts. */
module TextFile {
  import opened Wrappers
  import opened Utf8
  import opened Lines

  /** An open file. A read may return fewer bytes than asked for, but returns none only at the
      end of the file. */
  class FileHandle {
    const contents: seq<byte>
    var pos: nat

    ghost predicate Valid()
      reads this
    {
      pos <= |contents|
    }

    constructor (contents: seq<byte>)
      ensures Valid() && this.contents == contents && pos == 0
    {
      this.contents := contents;
      pos := 0;
    }

    method Read(limit: nat) returns (chunk: seq<byte>)
      requires Valid() && limit > 0
      modifies this
      ensures Valid() && pos == old(pos) + |chunk| && |chunk| <= limit
      ensures chunk == contents[old(pos)..pos]
      ensures chunk == [] <==> old(pos) == |contents|
    {
      if pos == |contents| {
        return [];
      }
      var n: nat :| 1 <= n <= limit && pos + n <= |contents|;
      chunk := contents[pos..pos + n];
      pos := pos + n;
    }
  }

  // ---- The line reader ----------------------------------------------------------------------

  /** A line as it is handed to the decoder: its bytes, and whether a leading byte order mark is
      to be kept as text. */
  datatype RawLine = RawLine(bytes: seq<byte>, ignoreBom: bool)

  /** Every line of the file; only the first can start with a byte order mark. */
  function AllLines(contents: seq<byte>): (lines: seq<RawLine>)
    ensures |lines| == |Split(contents)|
  {
    seq(|Split(contents)|, i requires 0 <= i < |Split(contents)| => LineNumber(contents, i))
  }

  function LineNumber(contents: seq<byte>, k: nat): RawLine
    requires k < |Split(contents)|
  {
    SplitBytes(contents, k);
    RawLine(Split(contents)[k], k != 0)
  }

  lemma {:induction false} SplitBytes(s: seq<byte>, k: nat)
    requires k < |Split(s)|
    ensures forall i :: 0 <= i < |Split(s)[k]| ==> 0 <= Split(s)[k][i] < 0x100
    decreases |s|
  {
    hide LineLength;
    if k > 0 {
      SplitBytes(s[LineLength(s)..], k - 1);
    }
  }

  /** Lines startLine .. startLine + maxLines - 1, counted from 1. At least one line is produced
      whenever there is one to produce, even for maxLines below 1. */
  function Window(lines: seq<RawLine>, startLine: int, maxLines: Option<int>): seq<RawLine> {
    var from := if startLine <= 1 then 0 else if startLine - 1 <= |lines| then startLine - 1
                else |lines|;
    var cap := if maxLines.None? then |lines| else if maxLines.value < 1 then 1
               else maxLines.value;
    if from + cap <= |lines| then lines[from..from + cap] else lines[from..]
  }

  /** Line by line: what comes out are the lines from `startLine` on, counted from 1, as many as there
      are or as the limit allows, but one in any case; each with its bytes, terminator included, and
      with a byte order mark kept everywhere but in the first line of the file. */
  ghost predicate Presents(contents: seq<byte>, out: seq<RawLine>, startLine: int,
                           maxLines: Option<int>)
  {
    var lines := Split(contents);
    var skipped := if startLine <= 1 then 0 else startLine - 1;
    var left := if skipped <= |lines| then |lines| - skipped else 0;
    && |out| == (if left == 0 || maxLines.None? || maxLines.value >= left then left
                 else if maxLines.value >= 1 then maxLines.value else 1)
    && forall i :: 0 <= i < |out| && skipped + i < |lines| ==>
         out[i].bytes == lines[skipped + i] && (out[i].ignoreBom <==> skipped + i > 0)
  }

  lemma WindowPresents(contents: seq<byte>, startLine: int, maxLines: Option<int>)
    ensures Presents(contents, Window(AllLines(contents), startLine, maxLines), startLine, maxLines)
  {
    hide Split;
  }

  method ReadUtf8Lines(contents: seq<byte>, startLine: int := 1, maxLines: Option<int> := None)
    returns (out: seq<RawLine>)
    ensures out == Window(AllLines(contents), startLine, maxLines)
    ensures Presents(contents, out, startLine, maxLines)
  {
    hide *;
    WindowPresents(contents, startLine, maxLines);
    var bufLength := 64 * 1024;
    var fh := new FileHandle(contents);
    var pending: seq<seq<byte>> := [];
    var pendingOffset: nat := 0;
    var fileOffset: nat := 0;
    var lineNo: nat := 1;
    out := [];
    ghost var at: nat := 0;
    NothingRead(contents, startLine, maxLines);

    while true
      invariant fresh(fh) && fh.Valid() && fh.contents == contents
      invariant fileOffset == fh.pos && lineNo >= 1
      invariant Reading(contents, at, lineNo - 1, pending, pendingOffset, fileOffset, fileOffset)
      invariant Emitted(contents, out, startLine, maxLines, lineNo - 1)
      decreases |contents| - fh.pos
    {
      var chunk := fh.Read(bufLength);
      if chunk == [] {
        break;
      }
      var lineStart: nat := 0;
      for i: nat := 0 to |chunk|
        invariant fresh(fh) && fh.Valid() && fh.pos == fileOffset + |chunk|
        invariant lineNo >= 1 && lineStart <= i && (lineStart > 0 ==> pending == [])
        invariant Reading(contents, at, lineNo - 1, pending, pendingOffset,
                          fileOffset + lineStart, fileOffset + i)
        invariant Emitted(contents, out, startLine, maxLines, lineNo - 1)
      {
        ByteOf(contents, fileOffset, chunk, i);
        if chunk[i] != LF {
          NoTerminator(contents, at, lineNo - 1, pending, pendingOffset, fileOffset + lineStart,
                       fileOffset + i);
          continue;
        }
        var piece := Subarray(chunk, lineStart, i + 1);
        var lineOffset := if pending == [] then fileOffset + lineStart else pendingOffset;
        var line := if pending == [] then piece else ConcatBytes(pending + [piece]);
        PieceOf(contents, fileOffset, chunk, lineStart, i + 1);
        Terminator(contents, at, lineNo - 1, pending, pendingOffset, fileOffset + lineStart,
                   fileOffset + i);
        assert AllLines(contents)[lineNo - 1] == RawLine(line, lineOffset != 0);
        Emit(contents, out, startLine, maxLines, lineNo - 1);
        if lineNo >= startLine {
          out := out + [RawLine(line, lineOffset != 0)];
          if maxLines.Some? && |out| >= maxLines.value {
            return;
          }
        }
        pending := [];
        lineStart := i + 1;
        lineNo := lineNo + 1;
        at := fileOffset + i + 1;
      }
      ghost var was, wasOffset := pending, pendingOffset;
      if lineStart < |chunk| {
        var tail := Subarray(chunk, lineStart, |chunk|);
        if pending == [] {
          pendingOffset := fileOffset + lineStart;
        }
        PieceOf(contents, fileOffset, chunk, lineStart, |chunk|);
        pending := pending + [tail];
      }
      Retain(contents, at, lineNo - 1, was, wasOffset, fileOffset + lineStart,
             fileOffset + |chunk|);
      fileOffset := fileOffset + |chunk|;
    }

    if pending != [] {
      var line := ConcatBytes(pending);
      Unterminated(contents, at, lineNo - 1, pending, pendingOffset);
      EmitLast(contents, out, startLine, maxLines, lineNo - 1);
      if lineNo >= startLine {
        out := out + [RawLine(line, pendingOffset != 0)];
      }
    } else {
      Finished(contents, at, lineNo - 1, pendingOffset);
      AllEmitted(contents, out, startLine, maxLines);
    }
  }

  /** Line `k` starts at `at`, has no terminator before `seen`, and is kept in the pending
      buffers up to `kept`. */
  ghost predicate Reading(contents: seq<byte>, at: nat, k: nat, pending: seq<seq<byte>>,
                          pendingOffset: nat, kept: nat, seen: nat) {
    && LineStarts(contents, at, k)
    && at <= kept <= seen <= |contents| && LF !in contents[at..seen]
    && Flatten(pending) == contents[at..kept]
    && (pending == [] <==> at == kept) && (pending != [] ==> pendingOffset == at)
  }

  function Subarray(data: seq<byte>, from: nat, to: nat): seq<byte>
    requires from <= to <= |data|
  {
    data[from..to]
  }

  function ConcatBytes(parts: seq<seq<byte>>): (r: seq<byte>)
    ensures r == Flatten(parts)
    decreases |parts|
  {
    if parts == [] then [] else parts[0] + ConcatBytes(parts[1..])
  }

  /** The first `done` lines have been seen, and the window part of them emitted. */
  ghost predicate Emitted(contents: seq<byte>, out: seq<RawLine>, startLine: int,
                          maxLines: Option<int>, done: nat) {
    var from := if startLine <= 1 then 0 else startLine - 1;
    && done <= |AllLines(contents)|
    && out == (if done <= from then [] else AllLines(contents)[from..done])
    && (maxLines.Some? ==> out == [] || |out| < maxLines.value)
  }

  lemma PieceOf(contents: seq<byte>, offset: nat, chunk: seq<byte>, from: nat, to: nat)
    requires offset + |chunk| <= |contents| && chunk == contents[offset..offset + |chunk|]
    requires from <= to <= |chunk|
    ensures Subarray(chunk, from, to) == Subarray(contents, offset + from, offset + to)
  {
    forall k | 0 <= k < to - from
      ensures chunk[from..to][k] == contents[offset + from..offset + to][k]
    {
      assert chunk[from + k] == contents[offset + (from + k)];
    }
  }

  lemma ByteOf(contents: seq<byte>, offset: nat, chunk: seq<byte>, i: nat)
    requires offset + |chunk| <= |contents| && chunk == contents[offset..offset + |chunk|]
    requires i < |chunk|
    ensures chunk[i] == contents[offset + i]
  {}

  lemma LineReady(contents: seq<byte>, at: nat, k: nat, end: nat)
    requires LineStarts(contents, at, k) && at < end <= |contents|
    requires LF !in contents[at..end - 1] && (contents[end - 1] == LF || end == |contents|)
    ensures k < |AllLines(contents)|
    ensures AllLines(contents)[k] == RawLine(contents[at..end], at != 0)
    ensures contents[end - 1] == LF ==> LineStarts(contents, end, k + 1)
    ensures end == |contents| ==> |AllLines(contents)| == k + 1
  {
    hide Split;
    LineFound(contents, at, k, end);
  }

  /** Emitting line `done`, if the window has begun, either completes the window or goes on. */
  lemma Emit(contents: seq<byte>, out: seq<RawLine>, startLine: int, maxLines: Option<int>,
             done: nat)
    requires Emitted(contents, out, startLine, maxLines, done) && done < |AllLines(contents)|
    ensures var out' := if done + 1 >= startLine then out + [AllLines(contents)[done]] else out;
            if done + 1 >= startLine && maxLines.Some? && |out'| >= maxLines.value
            then out' == Window(AllLines(contents), startLine, maxLines)
            else Emitted(contents, out', startLine, maxLines, done + 1)
  {
    hide AllLines;
  }

  lemma AllEmitted(contents: seq<byte>, out: seq<RawLine>, startLine: int, maxLines: Option<int>)
    requires Emitted(contents, out, startLine, maxLines, |AllLines(contents)|)
    ensures out == Window(AllLines(contents), startLine, maxLines)
  {
    hide AllLines;
  }

  lemma NothingRead(contents: seq<byte>, startLine: int, maxLines: Option<int>)
    ensures Reading(contents, 0, 0, [], 0, 0, 0)
    ensures Emitted(contents, [], startLine, maxLines, 0)
  {
    hide AllLines;
    assert contents[..0] == [];
  }

  lemma NoTerminator(contents: seq<byte>, at: nat, k: nat, pending: seq<seq<byte>>,
                     pendingOffset: nat, kept: nat, seen: nat)
    requires Reading(contents, at, k, pending, pendingOffset, kept, seen)
    requires seen < |contents| && contents[seen] != LF
    ensures Reading(contents, at, k, pending, pendingOffset, kept, seen + 1)
  {
    hide Split, Flatten;
    assert contents[at..seen + 1] == contents[at..seen] + [contents[seen]];
  }

  lemma PieceJoins(contents: seq<byte>, at: nat, kept: nat, end: nat)
    requires at <= kept <= end <= |contents|
    ensures contents[at..end] == contents[at..kept] + contents[kept..end]
  {}

  lemma Terminator(contents: seq<byte>, at: nat, k: nat, pending: seq<seq<byte>>,
                   pendingOffset: nat, kept: nat, seen: nat)
    requires Reading(contents, at, k, pending, pendingOffset, kept, seen)
    requires seen < |contents| && contents[seen] == LF
    ensures k < |AllLines(contents)|
    ensures var piece := Subarray(contents, kept, seen + 1);
            var line := if pending == [] then piece else ConcatBytes(pending + [piece]);
            var offset := if pending == [] then kept else pendingOffset;
            AllLines(contents)[k] == RawLine(line, offset != 0)
    ensures Reading(contents, seen + 1, k + 1, [], pendingOffset, seen + 1, seen + 1)
  {
    hide Split, Flatten, ConcatBytes, AllLines, LineStarts;
    LineReady(contents, at, k, seen + 1);
    FlattenNothing();
    if pending != [] {
      JoinedLine(contents, at, kept, seen + 1, pending);
    }
  }

  lemma JoinedLine(contents: seq<byte>, at: nat, kept: nat, end: nat, pending: seq<seq<byte>>)
    requires at <= kept <= end <= |contents| && Flatten(pending) == contents[at..kept]
    ensures ConcatBytes(pending + [contents[kept..end]]) == contents[at..end]
  {
    hide Flatten, ConcatBytes;
    FlattenSnoc(pending, contents[kept..end]);
    PieceJoins(contents, at, kept, end);
  }

  lemma FlattenNothing()
    ensures Flatten<byte>([]) == []
  {}

  lemma Retain(contents: seq<byte>, at: nat, k: nat, pending: seq<seq<byte>>,
               pendingOffset: nat, kept: nat, seen: nat)
    requires Reading(contents, at, k, pending, pendingOffset, kept, seen)
    ensures var pending' := if kept < seen then pending + [Subarray(contents, kept, seen)] else pending;
            var offset' := if kept < seen && pending == [] then kept else pendingOffset;
            Reading(contents, at, k, pending', offset', seen, seen)
  {
    hide Split, Flatten;
    FlattenSnoc(pending, contents[kept..seen]);
    assert contents[at..seen] == contents[at..kept] + contents[kept..seen];
  }

  lemma Unterminated(contents: seq<byte>, at: nat, k: nat, pending: seq<seq<byte>>,
                     pendingOffset: nat)
    requires Reading(contents, at, k, pending, pendingOffset, |contents|, |contents|)
    requires pending != []
    ensures |AllLines(contents)| == k + 1
    ensures AllLines(contents)[k] == RawLine(ConcatBytes(pending), pendingOffset != 0)
  {
    hide Split, Flatten, AllLines;
    LineReady(contents, at, k, |contents|);
  }

  lemma Finished(contents: seq<byte>, at: nat, k: nat, pendingOffset: nat)
    requires Reading(contents, at, k, [], pendingOffset, |contents|, |contents|)
    ensures |AllLines(contents)| == k
  {
    hide Split;
    assert contents[..at] == contents;
  }

  lemma EmitLast(contents: seq<byte>, out: seq<RawLine>, startLine: int, maxLines: Option<int>,
                 done: nat)
    requires Emitted(contents, out, startLine, maxLines, done)
    requires |AllLines(contents)| == done + 1
    ensures var out' := if done + 1 >= startLine then out + [AllLines(contents)[done]] else out;
            out' == Window(AllLines(contents), startLine, maxLines)
  {
    hide AllLines, Window;
    var out' := if done + 1 >= startLine then out + [AllLines(contents)[done]] else out;
    Emit(contents, out, startLine, maxLines, done);
    if !(done + 1 >= startLine && maxLines.Some? && |out'| >= maxLines.value) {
      AllEmitted(contents, out', startLine, maxLines);
    }
  }

  lemma WindowLength(lines: seq<RawLine>, startLine: int, maxLines: int)
    ensures var left := if startLine <= 1 then |lines| else |lines| - (startLine - 1);
            |Window(lines, startLine, Some(maxLines))| ==
            (if left <= 0 then 0 else if maxLines < 1 then 1
             else if maxLines <= left then maxLines else left)
  {}

  /** No more lines come than the limit allows, a negative one allowing none, exactly when it is at
      least 1 or there is nothing to read: the reader compares only after it has emitted a line. */
  lemma LimitHolds(lines: seq<RawLine>, startLine: int, maxLines: int)
    ensures |Window(lines, startLine, Some(maxLines))| <= (if maxLines < 0 then 0 else maxLines)
       <==> maxLines >= 1 || lines == [] || startLine > |lines|
  {
    hide Window;
    WindowLength(lines, startLine, maxLines);
  }

  /** A file of one byte, read with a limit of 0: its one line comes. */
  lemma LimitExample()
    ensures |Window(AllLines([97]), 1, Some(0))| == 1
  {
    LineCount([97]);
    CountNone([97]);
    WindowLength(AllLines([97]), 1, 0);
  }
}
