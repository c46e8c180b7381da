/** The lossy UTF-8 decoder of packages/kaos/src/internal.ts (`errors: 'ignore'`). A JavaScript
    string built with String.fromCodePoint is given as the sequence of its code points. */
module Utf8Decoder {
  import opened Utf8

  /** Keep every character of the grammar, skip every byte that starts none. */
  function Decode(s: seq<byte>): seq<Scalar>
    decreases |s|
  {
    if s == [] then []
    else
      var n := CharLength(s);
      if n > 0 then [CodePoint(s[..n])] + Decode(s[n..]) else Decode(s[1..])
  }

  method DecodeUtf8Ignore(data: seq<byte>) returns (output: seq<Scalar>)
    ensures output == Decode(data)
  {
    hide Decode, CharLength, IsChar, Append;
    output := [];
    var i := 0;
    while i < |data|
      invariant 0 <= i <= |data|
      invariant output + Decode(data[i..]) == Decode(data)
    {
      var b0 := data[i];
      var b1, b2, b3 := At(data, i + 1), At(data, i + 2), At(data, i + 3);
      if b0 <= 0x7F {
        One(data, i);
        output := output + [b0];
        i := i + 1;
        continue;
      }
      if 0xC2 <= b0 <= 0xDF {
        Two(data, i);
        if IsContinuation(b1) {
          output := output + [Append(b0 % 0x20, b1)];
          i := i + 2;
          continue;
        }
        i := i + 1;
        continue;
      }
      if 0xE0 <= b0 <= 0xEF {
        Three(data, i);
        var validSecond :=
          || (b0 == 0xE0 && 0xA0 <= b1 <= 0xBF)
          || (0xE1 <= b0 <= 0xEC && IsContinuation(b1))
          || (b0 == 0xED && 0x80 <= b1 <= 0x9F)
          || (0xEE <= b0 <= 0xEF && IsContinuation(b1));
        if validSecond && IsContinuation(b2) {
          output := output + [Append(Append(b0 % 0x10, b1), b2)];
          i := i + 3;
          continue;
        }
        i := i + 1;
        continue;
      }
      if 0xF0 <= b0 <= 0xF4 {
        Four(data, i);
        var validSecond :=
          || (b0 == 0xF0 && 0x90 <= b1 <= 0xBF)
          || (0xF1 <= b0 <= 0xF3 && IsContinuation(b1))
          || (b0 == 0xF4 && 0x80 <= b1 <= 0x8F);
        if validSecond && IsContinuation(b2) && IsContinuation(b3) {
          output := output + [Append(Append(Append(b0 % 8, b1), b2), b3)];
          i := i + 4;
          continue;
        }
        i := i + 1;
        continue;
      }
      Other(data, i);
      i := i + 1;
    }
    DecodeEmpty(data[i..]);
  }

  /** `data[i]`, with -1 for undefined, which lies in none of the ranges tested. */
  function At(data: seq<byte>, i: nat): int { if i < |data| then data[i] else -1 }

  predicate IsContinuation(b: int) { 0x80 <= b <= 0xBF }

  lemma DecodeEmpty(s: seq<byte>)
    requires s == []
    ensures Decode(s) == []
  {}

  lemma Keep(data: seq<byte>, i: nat, n: nat)
    requires i + n <= |data| && 1 <= n <= 4 && IsChar(data[i..i + n])
    ensures Decode(data[i..]) == [CodePoint(data[i..i + n])] + Decode(data[i + n..])
  {
    hide IsChar;
    var s := data[i..];
    assert s[..n] == data[i..i + n] && s[n..] == data[i + n..];
    UniquePrefix(s, n);
  }

  lemma Skip(data: seq<byte>, i: nat)
    requires i < |data| && CharLength(data[i..]) == 0
    ensures Decode(data[i..]) == Decode(data[i + 1..])
  {
    assert data[i..][1..] == data[i + 1..];
  }

  lemma One(data: seq<byte>, i: nat)
    requires i < |data| && data[i] <= 0x7F
    ensures Decode(data[i..]) == [data[i]] + Decode(data[i + 1..])
  {
    Keep(data, i, 1);
  }

  lemma Two(data: seq<byte>, i: nat)
    requires i < |data| && 0xC2 <= data[i] <= 0xDF
    ensures if IsContinuation(At(data, i + 1))
            then var code := Append(data[i] % 0x20, data[i + 1]);
                 IsScalar(code) && Decode(data[i..]) == [code] + Decode(data[i + 2..])
            else Decode(data[i..]) == Decode(data[i + 1..])
  {
    if IsContinuation(At(data, i + 1)) {
      var c := data[i..i + 2];
      assert c == [data[i], data[i + 1]];
      Keep(data, i, 2);
    } else {
      LengthFromLead(data[i..]);
      Skip(data, i);
    }
  }

  predicate ThreeFollows(b0: int, b1: int) {
    || (b0 == 0xE0 && 0xA0 <= b1 <= 0xBF)
    || (0xE1 <= b0 <= 0xEC && IsContinuation(b1))
    || (b0 == 0xED && 0x80 <= b1 <= 0x9F)
    || (0xEE <= b0 <= 0xEF && IsContinuation(b1))
  }

  lemma Three(data: seq<byte>, i: nat)
    requires i < |data| && 0xE0 <= data[i] <= 0xEF
    ensures if ThreeFollows(data[i], At(data, i + 1)) && IsContinuation(At(data, i + 2))
            then var code := Append(Append(data[i] % 0x10, data[i + 1]), data[i + 2]);
                 IsScalar(code) && Decode(data[i..]) == [code] + Decode(data[i + 3..])
            else Decode(data[i..]) == Decode(data[i + 1..])
  {
    hide Append;
    if ThreeFollows(data[i], At(data, i + 1)) && IsContinuation(At(data, i + 2)) {
      var c := data[i..i + 3];
      assert c == [data[i], data[i + 1], data[i + 2]];
      Keep(data, i, 3);
    } else {
      LengthFromLead(data[i..]);
      Skip(data, i);
    }
  }

  predicate FourFollows(b0: int, b1: int) {
    || (b0 == 0xF0 && 0x90 <= b1 <= 0xBF)
    || (0xF1 <= b0 <= 0xF3 && IsContinuation(b1))
    || (b0 == 0xF4 && 0x80 <= b1 <= 0x8F)
  }

  lemma Four(data: seq<byte>, i: nat)
    requires i < |data| && 0xF0 <= data[i] <= 0xF4
    ensures if FourFollows(data[i], At(data, i + 1)) && IsContinuation(At(data, i + 2))
               && IsContinuation(At(data, i + 3))
            then var code := Append(Append(Append(data[i] % 8, data[i + 1]), data[i + 2]),
                                    data[i + 3]);
                 IsScalar(code) && Decode(data[i..]) == [code] + Decode(data[i + 4..])
            else Decode(data[i..]) == Decode(data[i + 1..])
  {
    hide Append;
    if FourFollows(data[i], At(data, i + 1)) && IsContinuation(At(data, i + 2))
       && IsContinuation(At(data, i + 3)) {
      var c := data[i..i + 4];
      assert c == [data[i], data[i + 1], data[i + 2], data[i + 3]];
      Keep(data, i, 4);
    } else {
      LengthFromLead(data[i..]);
      Skip(data, i);
    }
  }

  lemma Other(data: seq<byte>, i: nat)
    requires i < |data| && (0x80 <= data[i] < 0xC2 || 0xF4 < data[i])
    ensures Decode(data[i..]) == Decode(data[i + 1..])
  {
    LengthFromLead(data[i..]);
    Skip(data, i);
  }

  /** No character is a proper prefix of another. */
  lemma UniquePrefix(s: seq<byte>, n: nat)
    requires n <= |s| && IsChar(s[..n])
    ensures CharLength(s) == n
  {
    LeadDecides(s[..n]);
    LengthFromLead(s);
    LeadDecides(s[..CharLength(s)]);
  }

  lemma LeadDecides(c: seq<byte>)
    requires IsChar(c)
    ensures |c| == if c[0] < 0x80 then 1 else if c[0] < 0xE0 then 2 else if c[0] < 0xF0 then 3 else 4
  {}

  lemma LengthFromLead(s: seq<byte>)
    ensures CharLength(s) > 0 ==>
              CharLength(s) == (if s[0] < 0x80 then 1 else if s[0] < 0xE0 then 2
                                else if s[0] < 0xF0 then 3 else 4)
    ensures CharLength(s) > 1 ==> 0xC2 <= s[0] <= 0xF4
  {
    if CharLength(s) > 0 {
      LeadDecides(s[..CharLength(s)]);
    }
  }

  // ---- What the decoder promises ------------------------------------------------------------

  lemma CharLengthOfEncode(n: Scalar, rest: seq<byte>)
    ensures CharLength(Encode(n) + rest) == |Encode(n)|
    ensures (Encode(n) + rest)[..|Encode(n)|] == Encode(n)
    ensures (Encode(n) + rest)[|Encode(n)|..] == rest
  {
    hide Encode, IsChar, CharLength;
    EncodeIsChar(n);
    assert (Encode(n) + rest)[..|Encode(n)|] == Encode(n);
    UniquePrefix(Encode(n) + rest, |Encode(n)|);
  }

  /** The decoder undoes the encoder, on every text. */
  lemma {:induction false} DecodeUndoesEncode(text: seq<Scalar>)
    ensures Decode(EncodeAll(text)) == text
    ensures WellFormed(EncodeAll(text))
    decreases |text|
  {
    hide Encode, CharLength, CodePoint, IsChar;
    if text != [] {
      DecodeUndoesEncode(text[1..]);
      CharLengthOfEncode(text[0], EncodeAll(text[1..]));
      EncodeIsChar(text[0]);
    }
  }

  /** A character that is kept comes back as it was. */
  lemma KeptFirst(s: seq<byte>)
    requires CharLength(s) > 0
    ensures EncodeAll(Decode(s)) == s[..CharLength(s)] + EncodeAll(Decode(s[CharLength(s)..]))
  {
    CharIsEncoded(s[..CharLength(s)]);
    DecodeHead(s);
    hide Encode, CodePoint, IsChar, CharLength, Decode;
  }

  lemma WellFormedHead(s: seq<byte>)
    requires s != []
    ensures CharLength(s) > 0 ==> (WellFormed(s) <==> WellFormed(s[CharLength(s)..]))
    ensures CharLength(s) == 0 ==> !WellFormed(s) && Decode(s) == Decode(s[1..])
  {
    hide CharLength, CodePoint;
  }

  lemma SamePrefix(s: seq<byte>, n: nat, rest: seq<byte>)
    requires n <= |s|
    ensures s[..n] + rest == s <==> rest == s[n..]
  {
    assert s == s[..n] + s[n..];
    assert (s[..n] + rest)[n..] == rest;
  }

  /** Nothing is dropped exactly when the grammar of RFC 3629 accepts the input. */
  lemma {:induction false} LosslessIffWellFormed(s: seq<byte>)
    ensures EncodeAll(Decode(s)) == s <==> WellFormed(s)
    ensures |EncodeAll(Decode(s))| <= |s|
    decreases |s|
  {
    if s != [] {
      hide *;
      var n := CharLength(s);
      WellFormedHead(s);
      if n > 0 {
        LosslessIffWellFormed(s[n..]);
        KeptFirst(s);
        SamePrefix(s, n, EncodeAll(Decode(s[n..])));
      } else {
        LosslessIffWellFormed(s[1..]);
      }
    }
  }

  lemma DecodeHead(s: seq<byte>)
    requires CharLength(s) > 0
    ensures Decode(s) != [] && Decode(s)[0] == CodePoint(s[..CharLength(s)])
    ensures Decode(s)[1..] == Decode(s[CharLength(s)..])
  {}

  /** `a` can be had from `b` by deleting elements. */
  predicate IsSubsequence<T(==)>(a: seq<T>, b: seq<T>)
    decreases |b|
  {
    a == [] || (b != [] && ((a[0] == b[0] && IsSubsequence(a[1..], b[1..]))
                            || IsSubsequence(a, b[1..])))
  }

  lemma DropFirst<T>(a: seq<T>, b: seq<T>)
    requires b != [] && IsSubsequence(a, b[1..])
    ensures IsSubsequence(a, b)
  {}

  lemma {:induction false} KeepPrefix<T>(p: seq<T>, a: seq<T>, b: seq<T>)
    requires IsSubsequence(a, b)
    ensures IsSubsequence(p + a, p + b)
    decreases |p|
  {
    if p == [] {
      assert p + a == a && p + b == b;
    } else {
      KeepPrefix(p[1..], a, b);
      assert (p + a)[1..] == p[1..] + a && (p + b)[1..] == p[1..] + b;
    }
  }

  /** The decoder only ever deletes: what it keeps, re-encoded, is left of the input in order. */
  lemma {:induction false} DecodeOnlyDeletes(s: seq<byte>)
    ensures IsSubsequence(EncodeAll(Decode(s)), s)
    decreases |s|
  {
    hide Encode, CodePoint, IsChar;
    if s != [] {
      var n := CharLength(s);
      if n > 0 {
        DecodeOnlyDeletes(s[n..]);
        KeptFirst(s);
        hide IsSubsequence;
        KeepPrefix(s[..n], EncodeAll(Decode(s[n..])), s[n..]);
        assert s == s[..n] + s[n..];
      } else {
        DecodeOnlyDeletes(s[1..]);
        hide EncodeAll, CharLength;
        assert Decode(s) == Decode(s[1..]);
        hide Decode;
        DropFirst(EncodeAll(Decode(s)), s);
      }
    }
  }

  /** Decoding is a projection: its result decodes to itself. */
  lemma DecodeIsIdempotent(s: seq<byte>)
    ensures Decode(EncodeAll(Decode(s))) == Decode(s)
    ensures WellFormed(EncodeAll(Decode(s)))
  {
    DecodeUndoesEncode(Decode(s));
  }

  /** No character can span the cut: the byte before it is ASCII, or the byte after it is not a
      continuation byte. */
  predicate IsBoundary(a: seq<byte>, b: seq<byte>) {
    a == [] || b == [] || a[|a| - 1] <= 0x7F || !IsTail(b[0])
  }

  /** Decoding commutes with cutting the input at a boundary, well-formed or not. */
  lemma {:induction false} DecodeCut(a: seq<byte>, b: seq<byte>)
    requires IsBoundary(a, b)
    ensures Decode(a + b) == Decode(a) + Decode(b)
    decreases |a|
  {
    hide CodePoint, IsChar;
    if a == [] {
      assert a + b == b;
    } else {
      var n := CharLength(a);
      SameCharLength(a, b);
      if n > 0 {
        assert (a + b)[..n] == a[..n] && (a + b)[n..] == a[n..] + b;
        DecodeCut(a[n..], b);
      } else {
        assert (a + b)[1..] == a[1..] + b;
        DecodeCut(a[1..], b);
      }
    }
  }

  lemma SameCharLength(a: seq<byte>, b: seq<byte>)
    requires a != [] && IsBoundary(a, b)
    ensures CharLength(a + b) == CharLength(a)
  {
    hide IsChar;
    var n := CharLength(a);
    if n > 0 {
      assert (a + b)[..n] == a[..n];
      UniquePrefix(a + b, n);
    } else {
      forall k | 0 <= k <= |a + b|
        ensures !IsChar((a + b)[..k])
      {
        if k <= |a| {
          assert (a + b)[..k] == a[..k];
        } else if IsChar((a + b)[..k]) {
          InsideChar((a + b)[..k], |a|);
        }
      }
    }
  }

  lemma InsideChar(c: seq<byte>, i: nat)
    requires IsChar(c) && 0 < i < |c|
    ensures IsTail(c[i]) && c[i - 1] > 0x7F
  {}
}
