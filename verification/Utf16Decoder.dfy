/** The lossy UTF-16LE decoder of packages/kaos/src/internal.ts, against the encoding of section 2.1
    of RFC 2781. */
module Utf16Decoder {
  import opened Utf8
  import opened Utf8Decoder

  /** One code unit, low octet first. */
  function Octets(unit: int): (c: seq<byte>)
    requires 0 <= unit < 0x10000
    ensures |c| == 2
  {
    [unit % 0x100, unit / 0x100]
  }

  function Encode16(n: Scalar): (c: seq<byte>)
    ensures |c| == if n < 0x10000 then 2 else 4
  {
    if n < 0x10000 then Octets(n)
    else
      var u := n - 0x10000;
      Octets(0xD800 + u / 0x400) + Octets(0xDC00 + u % 0x400)
  }

  function EncodeAll16(text: seq<Scalar>): seq<byte>
    decreases |text|
  {
    if text == [] then [] else Encode16(text[0]) + EncodeAll16(text[1..])
  }

  ghost predicate StartsWith(s: seq<byte>, n: Scalar) { Encode16(n) <= s }

  /** Keep every character whose encoding is next in the input; skip a code unit that starts none,
      and an odd octet at the end. */
  ghost function Decode16(s: seq<byte>): seq<Scalar>
    decreases |s|
  {
    if |s| < 2 then []
    else if n: Scalar :| StartsWith(s, n) then [n] + Decode16(s[|Encode16(n)|..])
    else Decode16(s[2..])
  }

  function Unit(lo: byte, hi: byte): int { lo + hi * 0x100 }

  lemma OctetsOfUnit(lo: byte, hi: byte)
    ensures 0 <= Unit(lo, hi) < 0x10000 && Octets(Unit(lo, hi)) == [lo, hi]
  {}

  lemma UnitOfOctets(unit: int)
    requires 0 <= unit < 0x10000
    ensures Unit(Octets(unit)[0], Octets(unit)[1]) == unit
  {}

  /** What the first code units of the input must be for a character to start there. */
  lemma StartsWithIff(s: seq<byte>, n: Scalar)
    requires |s| >= 2
    ensures StartsWith(s, n) <==>
              if n < 0x10000 then Unit(s[0], s[1]) == n
              else |s| >= 4 && Unit(s[0], s[1]) == 0xD800 + (n - 0x10000) / 0x400
                   && Unit(s[2], s[3]) == 0xDC00 + (n - 0x10000) % 0x400
  {
    hide Octets, Unit;
    OctetsOfUnit(s[0], s[1]);
    if n < 0x10000 {
      UnitOfOctets(n);
      assert StartsWith(s, n) ==> s[0] == Encode16(n)[0] && s[1] == Encode16(n)[1];
      assert s[..2] == [s[0], s[1]];
    } else {
      var u := n - 0x10000;
      UnitOfOctets(0xD800 + u / 0x400);
      UnitOfOctets(0xDC00 + u % 0x400);
      var c := Encode16(n);
      assert StartsWith(s, n) ==> s[0] == c[0] && s[1] == c[1] && s[2] == c[2] && s[3] == c[3];
      if |s| >= 4 {
        OctetsOfUnit(s[2], s[3]);
        assert s[..4] == [s[0], s[1]] + [s[2], s[3]];
      }
    }
  }

  lemma StartIsUnique(s: seq<byte>, m: Scalar, n: Scalar)
    requires StartsWith(s, m) && StartsWith(s, n)
    ensures m == n
  {
    assert |s| >= 2;
    hide Unit, StartsWith;
    StartsWithIff(s, m);
    StartsWithIff(s, n);
  }

  lemma DecodeKeeps(s: seq<byte>, n: Scalar)
    requires StartsWith(s, n)
    ensures s == Encode16(n) + s[|Encode16(n)|..]
    ensures Decode16(s) == [n] + Decode16(s[|Encode16(n)|..])
  {
    hide Encode16;
    forall m: Scalar | StartsWith(s, m)
      ensures m == n
    {
      StartIsUnique(s, m, n);
    }
  }

  lemma DecodeShort(s: seq<byte>)
    requires |s| < 2
    ensures Decode16(s) == []
  {}

  lemma DecodeSkips(s: seq<byte>)
    requires |s| >= 2 && forall n: Scalar :: !StartsWith(s, n)
    ensures Decode16(s) == Decode16(s[2..])
  {}

  method DecodeUtf16LeIgnore(data: seq<byte>) returns (output: seq<Scalar>)
    ensures output == Decode16(data)
  {
    hide Decode16, Encode16, StartsWith, Unit;
    output := [];
    var i := 0;
    while i + 1 < |data|
      invariant 0 <= i <= |data|
      invariant output + Decode16(data[i..]) == Decode16(data)
    {
      var codeUnit := Unit(data[i], data[i + 1]);
      OneUnit(data, i);
      if 0xD800 <= codeUnit <= 0xDBFF {
        if i + 3 < |data| {
          var low := Unit(data[i + 2], data[i + 3]);
          if 0xDC00 <= low <= 0xDFFF {
            output := output + [0x10000 + (codeUnit - 0xD800) * 0x400 + (low - 0xDC00)];
            i := i + 4;
            continue;
          }
        }
        i := i + 2;
        continue;
      }
      if 0xDC00 <= codeUnit <= 0xDFFF {
        i := i + 2;
        continue;
      }
      output := output + [codeUnit];
      i := i + 2;
    }
    DecodeShort(data[i..]);
  }

  lemma OneUnit(data: seq<byte>, i: nat)
    requires i + 1 < |data|
    ensures var unit := Unit(data[i], data[i + 1]);
            0 <= unit < 0x10000
            && if 0xD800 <= unit <= 0xDBFF then
                 if i + 3 < |data| && 0xDC00 <= Unit(data[i + 2], data[i + 3]) <= 0xDFFF then
                   var n := 0x10000 + (unit - 0xD800) * 0x400
                            + (Unit(data[i + 2], data[i + 3]) - 0xDC00);
                   IsScalar(n) && Decode16(data[i..]) == [n] + Decode16(data[i + 4..])
                 else Decode16(data[i..]) == Decode16(data[i + 2..])
               else if 0xDC00 <= unit <= 0xDFFF then
                 Decode16(data[i..]) == Decode16(data[i + 2..])
               else Decode16(data[i..]) == [unit] + Decode16(data[i + 2..])
  {
    hide Decode16, Encode16, StartsWith, Unit;
    var s := data[i..];
    OctetsOfUnit(s[0], s[1]);
    var unit := Unit(s[0], s[1]);
    assert s[2..] == data[i + 2..];
    if 0xD800 <= unit <= 0xDFFF {
      if unit <= 0xDBFF && |s| >= 4 && 0xDC00 <= Unit(s[2], s[3]) <= 0xDFFF {
        var n: Scalar := 0x10000 + (unit - 0xD800) * 0x400 + (Unit(s[2], s[3]) - 0xDC00);
        StartsWithIff(s, n);
        DecodeKeeps(s, n);
        assert s[4..] == data[i + 4..];
      } else {
        forall n: Scalar
          ensures !StartsWith(s, n)
        {
          StartsWithIff(s, n);
        }
        DecodeSkips(s);
      }
    } else {
      StartsWithIff(s, unit);
      DecodeKeeps(s, unit);
    }
  }

  // ---- What the decoder promises ------------------------------------------------------------

  lemma {:induction false} Decode16UndoesEncode(text: seq<Scalar>)
    ensures Decode16(EncodeAll16(text)) == text
    decreases |text|
  {
    hide Decode16, Encode16;
    if text == [] {
      DecodeShort([]);
    } else {
      var c, rest := Encode16(text[0]), EncodeAll16(text[1..]);
      assert StartsWith(c + rest, text[0]);
      assert (c + rest)[|c|..] == rest;
      DecodeKeeps(c + rest, text[0]);
      Decode16UndoesEncode(text[1..]);
    }
  }

  /** What is kept, re-encoded, is left of the input in order. */
  lemma {:induction false} Decode16OnlyDeletes(s: seq<byte>)
    ensures IsSubsequence(EncodeAll16(Decode16(s)), s)
    decreases |s|
  {
    hide Encode16, StartsWith;
    if |s| >= 2 {
      if n: Scalar :| StartsWith(s, n) {
        var c := Encode16(n);
        DecodeKeeps(s, n);
        Decode16OnlyDeletes(s[|c|..]);
        var rest := EncodeAll16(Decode16(s[|c|..]));
        KeepPrefix(c, rest, s[|c|..]);
        assert EncodeAll16([n] + Decode16(s[|c|..])) == c + rest;
      } else {
        Decode16OnlyDeletes(s[2..]);
        assert s[1..][1..] == s[2..];
        DropFirst(EncodeAll16(Decode16(s)), s[1..]);
        DropFirst(EncodeAll16(Decode16(s)), s);
      }
    }
  }

  /** Nothing is dropped exactly when the input is the encoding of some text. */
  lemma Lossless16IffEncoded(s: seq<byte>)
    ensures EncodeAll16(Decode16(s)) == s <==> exists text :: EncodeAll16(text) == s
  {
    if text :| EncodeAll16(text) == s {
      Decode16UndoesEncode(text);
    }
  }

  /** The example of section 5 of RFC 2781, and its octets, the low one first. */
  lemma SurrogateExample()
    ensures Encode16(0x12345) == [0x08, 0xD8, 0x45, 0xDF]
  {}
}
