/** UTF-8 as RFC 3629 defines it: the encoding of section 3 and the byte grammar of section 4,
    written independently of each other and proved to describe the same strings. */
module Utf8 {
  type byte = b: int | 0 <= b < 0x100

  /** A code point that UTF-8 may carry: no surrogates, nothing above U+10FFFF. */
  type Scalar = n: int | 0 <= n < 0xD800 || 0xE000 <= n < 0x110000

  predicate IsScalar(n: int) { 0 <= n < 0xD800 || 0xE000 <= n < 0x110000 }

  // ---- Section 3: encoding ------------------------------------------------------------------

  /** Six bits at a time, from the low end; a tail octet holds six bits. */
  function Encode(n: Scalar): (c: seq<byte>)
    ensures 1 <= |c| <= 4
  {
    var n1 := n / 0x40;
    var n2 := n1 / 0x40;
    var n3 := n2 / 0x40;
    if n < 0x80 then [n as byte]
    else if n < 0x800 then [(0xC0 + n1) as byte, Tail(n)]
    else if n < 0x10000 then [(0xE0 + n2) as byte, Tail(n1), Tail(n)]
    else [(0xF0 + n3) as byte, Tail(n2), Tail(n1), Tail(n)]
  }

  function Tail(n: int): byte { 0x80 + n % 0x40 }

  function EncodeAll(text: seq<Scalar>): seq<byte>
    decreases |text|
  {
    if text == [] then [] else Encode(text[0]) + EncodeAll(text[1..])
  }

  // ---- Section 4: the grammar ---------------------------------------------------------------

  predicate IsTail(b: byte) { 0x80 <= b <= 0xBF }

  /** UTF8-1, UTF8-2, UTF8-3 and UTF8-4 */
  predicate IsChar(c: seq<byte>) {
    match |c|
    case 1 => c[0] <= 0x7F
    case 2 => 0xC2 <= c[0] <= 0xDF && IsTail(c[1])
    case 3 =>
      && ( || (c[0] == 0xE0 && 0xA0 <= c[1] <= 0xBF)
           || (0xE1 <= c[0] <= 0xEC && IsTail(c[1]))
           || (c[0] == 0xED && 0x80 <= c[1] <= 0x9F)
           || (0xEE <= c[0] <= 0xEF && IsTail(c[1])))
      && IsTail(c[2])
    case 4 =>
      && ( || (c[0] == 0xF0 && 0x90 <= c[1] <= 0xBF)
           || (0xF1 <= c[0] <= 0xF3 && IsTail(c[1]))
           || (c[0] == 0xF4 && 0x80 <= c[1] <= 0x8F))
      && IsTail(c[2]) && IsTail(c[3])
    case _ => false
  }

  /** The length of the character that `s` starts with, or 0. */
  function CharLength(s: seq<byte>): (n: nat)
    ensures n <= 4 && n <= |s|
    ensures n > 0 ==> IsChar(s[..n])
    ensures n == 0 ==> forall k :: 0 <= k <= |s| ==> !IsChar(s[..k])
  {
    if |s| >= 1 && IsChar(s[..1]) then 1
    else if |s| >= 2 && IsChar(s[..2]) then 2
    else if |s| >= 3 && IsChar(s[..3]) then 3
    else if |s| >= 4 && IsChar(s[..4]) then 4
    else 0
  }

  /** UTF8-octets: a sequence of characters and nothing else. */
  predicate WellFormed(s: seq<byte>)
    decreases |s|
  {
    s == [] || (CharLength(s) > 0 && WellFormed(s[CharLength(s)..]))
  }

  /** The code point of one character: the payload bits of its octets, high bits first. */
  function CodePoint(c: seq<byte>): (n: Scalar)
    requires IsChar(c)
  {
    Payload(c)
  }

  function Payload(c: seq<byte>): int
    requires 1 <= |c| <= 4
  {
    match |c|
    case 1 => c[0]
    case 2 => Append(c[0] % 0x20, c[1])
    case 3 => Append(Append(c[0] % 0x10, c[1]), c[2])
    case 4 => Append(Append(Append(c[0] % 8, c[1]), c[2]), c[3])
  }

  /** `(n << 6) | (b & 0x3f)` */
  function Append(n: int, b: byte): int { n * 0x40 + b % 0x40 }

  lemma AppendTail(n: int)
    ensures Append(n / 0x40, Tail(n)) == n && IsTail(Tail(n))
  {}

  lemma TailAppend(n: int, b: byte)
    requires IsTail(b)
    ensures Append(n, b) / 0x40 == n && Tail(Append(n, b)) == b
    ensures 0x40 * n <= Append(n, b) == 0x40 * n + (b - 0x80)
  {}

  /** Section 3 produces only what section 4 admits, and decoding undoes it. */
  lemma EncodeIsChar(n: Scalar)
    ensures IsChar(Encode(n)) && CodePoint(Encode(n)) == n
  {
    hide Append;
    var n1 := n / 0x40;
    var n2 := n1 / 0x40;
    AppendTail(n);
    AppendTail(n1);
    AppendTail(n2);
    if n < 0x800 {
      assert IsChar(Encode(n));
    } else if n < 0x10000 {
      ThreeIsChar(n2, n1 % 0x40, n % 0x40);
    } else {
      FourIsChar(n2 / 0x40, n2 % 0x40, n1 % 0x40, n % 0x40);
    }
  }

  lemma ThreeIsChar(a: int, b: int, c: int)
    requires 0 <= a < 0x10 && 0 <= b < 0x40 && 0 <= c < 0x40
    requires a == 0 ==> b >= 0x20
    requires a == 0xD ==> b < 0x20
    ensures IsChar([0xE0 + a, 0x80 + b, 0x80 + c])
  {}

  lemma FourIsChar(a: int, b: int, c: int, d: int)
    requires 0 <= a <= 4 && 0 <= b < 0x40 && 0 <= c < 0x40 && 0 <= d < 0x40
    requires a == 0 ==> b >= 0x10
    requires a == 4 ==> b < 0x10
    ensures IsChar([0xF0 + a, 0x80 + b, 0x80 + c, 0x80 + d])
  {}

  /** Section 4 admits only what section 3 produces: no overlong form, no surrogate. */
  lemma CharIsEncoded(c: seq<byte>)
    requires IsChar(c)
    ensures Encode(CodePoint(c)) == c
  {
    hide Append, Tail;
    match |c|
    case 1 =>
    case 2 =>
      TailAppend(c[0] % 0x20, c[1]);
    case 3 =>
      TailAppend(c[0] % 0x10, c[1]);
      TailAppend(Append(c[0] % 0x10, c[1]), c[2]);
    case 4 =>
      TailAppend(c[0] % 8, c[1]);
      TailAppend(Append(c[0] % 8, c[1]), c[2]);
      TailAppend(Append(Append(c[0] % 8, c[1]), c[2]), c[3]);
  }

  /** Two of the examples in section 7 of RFC 3629: a character of each of two lengths. */
  lemma EncodedExamples()
    ensures Encode(0x2262) == [0xE2, 0x89, 0xA2] && Encode(0x233B4) == [0xF0, 0xA3, 0x8E, 0xB4]
  {}
}
