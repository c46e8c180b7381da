/** The one-pass scanner of packages/kaos/src/local.ts: line count, terminator style, NUL bytes
    and UTF-8 validity, all carried across chunk boundaries. */
module TextScan {
  import opened Utf8
  import opened Utf8Validator
  import opened Lines
  import opened TextFile

  const CR := 0x0D

  predicate EndsWithCr(s: seq<byte>) { s != [] && s[|s| - 1] == CR }

  predicate CrLfAt(s: seq<byte>, i: nat) { i + 1 < |s| && s[i] == CR && s[i + 1] == LF }

  /** A line feed that no carriage return precedes. */
  predicate BareLfAt(s: seq<byte>, i: nat) { i < |s| && s[i] == LF && (i == 0 || s[i - 1] != CR) }

  /** A carriage return that some other byte than a line feed follows. */
  predicate InnerCrAt(s: seq<byte>, i: nat) { i + 1 < |s| && s[i] == CR && s[i + 1] != LF }

  /** A carriage return that no line feed follows, be it the last byte. */
  predicate LoneCrAt(s: seq<byte>, i: nat) {
    i < |s| && s[i] == CR && (i + 1 < |s| ==> s[i + 1] != LF)
  }

  ghost predicate HasCrLf(s: seq<byte>) { exists i :: CrLfAt(s, i) }

  ghost predicate HasBareLf(s: seq<byte>) { exists i :: BareLfAt(s, i) }

  ghost predicate HasInnerCr(s: seq<byte>) { exists i :: InnerCrAt(s, i) }

  ghost predicate HasLoneCr(s: seq<byte>) { exists i :: LoneCrAt(s, i) }

  lemma CrLfSnoc(s: seq<byte>, b: byte)
    ensures HasCrLf(s + [b]) <==> HasCrLf(s) || (EndsWithCr(s) && b == LF)
  {
    var t := s + [b];
    if i: nat :| CrLfAt(s, i) {
      assert CrLfAt(t, i);
    }
    if EndsWithCr(s) && b == LF {
      assert CrLfAt(t, |s| - 1);
    }
    if i: nat :| CrLfAt(t, i) {
      assert i + 1 < |s| ==> CrLfAt(s, i);
    }
  }

  lemma BareLfSnoc(s: seq<byte>, b: byte)
    ensures HasBareLf(s + [b]) <==> HasBareLf(s) || (!EndsWithCr(s) && b == LF)
  {
    var t := s + [b];
    if i: nat :| BareLfAt(s, i) {
      assert BareLfAt(t, i);
    }
    if !EndsWithCr(s) && b == LF {
      assert BareLfAt(t, |s|);
    }
    if i: nat :| BareLfAt(t, i) {
      assert i < |s| ==> BareLfAt(s, i);
    }
  }

  lemma InnerCrSnoc(s: seq<byte>, b: byte)
    ensures HasInnerCr(s + [b]) <==> HasInnerCr(s) || (EndsWithCr(s) && b != LF)
  {
    var t := s + [b];
    if i: nat :| InnerCrAt(s, i) {
      assert InnerCrAt(t, i);
    }
    if EndsWithCr(s) && b != LF {
      assert InnerCrAt(t, |s| - 1);
    }
    if i: nat :| InnerCrAt(t, i) {
      assert i + 1 < |s| ==> InnerCrAt(s, i);
    }
  }

  lemma LoneCrAtEnd(s: seq<byte>)
    ensures HasLoneCr(s) <==> HasInnerCr(s) || EndsWithCr(s)
  {
    if i: nat :| InnerCrAt(s, i) {
      assert LoneCrAt(s, i);
    }
    if EndsWithCr(s) {
      assert LoneCrAt(s, |s| - 1);
    }
    if i: nat :| LoneCrAt(s, i) {
      assert i + 1 < |s| ==> InnerCrAt(s, i);
    }
  }

  class LineEndingFlags {
    var hasCrLf: bool
    var hasLf: bool
    var hasLoneCr: bool

    constructor ()
      ensures !hasCrLf && !hasLf && !hasLoneCr
    {
      hasCrLf, hasLf, hasLoneCr := false, false, false;
    }

    /** The flags describe the bytes of `seen`, a trailing carriage return left open. */
    ghost predicate Describe(seen: seq<byte>)
      reads this
    {
      && (hasCrLf <==> HasCrLf(seen))
      && (hasLf <==> HasBareLf(seen))
      && (hasLoneCr <==> HasInnerCr(seen))
    }
  }

  method UpdateLineEndingFlags(flags: LineEndingFlags, chunk: seq<byte>, prevWasCr: bool,
                               ghost seen: seq<byte>) returns (lastWasCr: bool)
    requires flags.Describe(seen) && prevWasCr == EndsWithCr(seen)
    modifies flags
    ensures flags.Describe(seen + chunk) && lastWasCr == EndsWithCr(seen + chunk)
  {
    hide HasCrLf, HasBareLf, HasInnerCr;
    lastWasCr := prevWasCr;
    assert seen + chunk[..0] == seen;
    for i := 0 to |chunk|
      invariant flags.Describe(seen + chunk[..i]) && lastWasCr == EndsWithCr(seen + chunk[..i])
    {
      var byte := chunk[i];
      CrLfSnoc(seen + chunk[..i], byte);
      BareLfSnoc(seen + chunk[..i], byte);
      InnerCrSnoc(seen + chunk[..i], byte);
      assert seen + chunk[..i] + [byte] == seen + chunk[..i + 1];
      if byte == 0x0D {
        if lastWasCr {
          flags.hasLoneCr := true;
        }
        lastWasCr := true;
      } else if byte == 0x0A {
        if lastWasCr {
          flags.hasCrLf := true;
        } else {
          flags.hasLf := true;
        }
        lastWasCr := false;
      } else {
        if lastWasCr {
          flags.hasLoneCr := true;
        }
        lastWasCr := false;
      }
    }
    assert chunk[..|chunk|] == chunk;
  }

  /** The inner loop of the scan. */
  method CountBytes(chunk: seq<byte>, lines: nat, nul: bool, ghost seen: seq<byte>)
    returns (totalLines: nat, hasNul: bool)
    requires lines == CountLf(seen) && nul == (0 in seen)
    ensures totalLines == CountLf(seen + chunk) && hasNul == (0 in seen + chunk)
  {
    totalLines, hasNul := lines, nul;
    assert seen + chunk[..0] == seen;
    for i := 0 to |chunk|
      invariant totalLines == CountLf(seen + chunk[..i])
      invariant hasNul == (0 in seen + chunk[..i])
    {
      CountSnoc(seen + chunk[..i], chunk[i]);
      assert seen + chunk[..i] + [chunk[i]] == seen + chunk[..i + 1];
      if chunk[i] == 0 {
        hasNul := true;
      }
      if chunk[i] == 0x0A {
        totalLines := totalLines + 1;
      }
    }
    assert chunk[..|chunk|] == chunk;
  }

  datatype ScanResult =
    | Scanned(totalLines: nat, endsWithNewline: bool, hasNul: bool,
              hasCrLf: bool, hasLf: bool, hasLoneCr: bool)
    | InvalidUtf8

  /** The scan fails exactly on input that is not UTF-8, and otherwise reports the number of
      lines the line reader emits and properties of the file as a whole. */
  method ScanTextFile(contents: seq<byte>) returns (r: ScanResult)
    ensures r.InvalidUtf8? <==> !WellFormed(contents)
    ensures r.Scanned? ==>
      && r.totalLines == |AllLines(contents)|
      && r.endsWithNewline == EndsWithLf(contents)
      && r.hasNul == (0 in contents)
      && r.hasCrLf == HasCrLf(contents)
      && r.hasLf == HasBareLf(contents)
      && r.hasLoneCr == HasLoneCr(contents)
  {
    hide HasCrLf, HasBareLf, HasInnerCr, HasLoneCr, WellFormed, CountLf, Split, AllLines, Run,
         EndsWithCr, EndsWithLf, Before;
    var fh := new FileHandle(contents);
    var flags := new LineEndingFlags();
    var validator := new Validator();
    var totalLines: nat := 0;
    var totalBytes: nat := 0;
    var endsWithNewline, hasNul, prevWasCr := false, false, false;
    Nothing(contents);

    while true
      invariant fresh(fh) && fresh(flags) && fresh(validator)
      invariant fh.Valid() && fh.contents == contents && totalBytes == fh.pos
      invariant validator.Valid() && validator.written == Before(contents, fh.pos)
      invariant flags.Describe(Before(contents, fh.pos))
      invariant prevWasCr == EndsWithCr(Before(contents, fh.pos))
      invariant totalLines == CountLf(Before(contents, fh.pos))
      invariant hasNul == (0 in Before(contents, fh.pos))
      invariant endsWithNewline == EndsWithLf(Before(contents, fh.pos))
      decreases |contents| - fh.pos
    {
      ghost var start := fh.pos;
      var chunk := fh.Read(64 * 1024);
      if chunk == [] {
        break;
      }
      BeforeGrows(contents, start, fh.pos);
      var ok := validator.Write(chunk);
      if !ok {
        Rest(contents, fh.pos);
        return InvalidUtf8;
      }
      totalLines, hasNul := CountBytes(chunk, totalLines, hasNul, Before(contents, start));
      prevWasCr := UpdateLineEndingFlags(flags, chunk, prevWasCr, Before(contents, start));
      totalBytes := totalBytes + |chunk|;
      endsWithNewline := chunk[|chunk| - 1] == 0x0A;
    }

    Rest(contents, fh.pos);
    if prevWasCr {
      flags.hasLoneCr := true;
    }
    LoneCrAtEnd(contents);
    var ok := validator.End();
    if !ok {
      return InvalidUtf8;
    }
    LineCount(contents);
    if totalBytes > 0 && !endsWithNewline {
      totalLines := totalLines + 1;
    }
    r := Scanned(totalLines, endsWithNewline, hasNul, flags.hasCrLf, flags.hasLf, flags.hasLoneCr);
  }

  /** What has been read when the handle stands at `n`. */
  function Before(contents: seq<byte>, n: nat): seq<byte>
    requires n <= |contents|
  {
    contents[..n]
  }

  lemma BeforeGrows(contents: seq<byte>, m: nat, n: nat)
    requires m < n <= |contents|
    ensures Before(contents, n) == Before(contents, m) + contents[m..n]
    ensures EndsWithLf(Before(contents, n)) == (contents[m..n][n - m - 1] == LF)
  {}

  lemma Rest(contents: seq<byte>, n: nat)
    requires n <= |contents|
    ensures Before(contents, n) + contents[n..] == contents
    ensures WellFormed(contents) ==> exists t: seq<byte> :: WellFormed(Before(contents, n) + t)
    ensures n == |contents| ==> Before(contents, n) == contents
  {
    hide WellFormed;
    assert Before(contents, n) + contents[n..] == contents;
  }

  lemma Nothing(contents: seq<byte>)
    ensures Before(contents, 0) == []
    ensures !HasCrLf([]) && !HasBareLf([]) && !HasInnerCr([]) && !EndsWithCr([])
    ensures CountLf([]) == 0 && !EndsWithLf([])
  {}

  lemma CountSnoc(s: seq<byte>, b: byte)
    ensures CountLf(s + [b]) == CountLf(s) + if b == LF then 1 else 0
  {
    CountConcat(s, [b]);
  }
}
