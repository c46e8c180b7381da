/** What a CRC-32 is for: the checksum is the remainder of the message polynomial over GF(2).
    A polynomial is the set of exponents whose coefficient is 1, so addition is symmetric
    difference; a register holds the coefficient of x^i in bit 31 - i (the reflected order). */
module CrcPolynomial {
  import opened Crc32

  type Poly = set<nat>

  /** The IEEE 802.3 generator of degree 32. */
  const GENERATOR: Poly := {32, 26, 23, 22, 16, 12, 11, 10, 8, 7, 5, 4, 2, 1, 0}

  function Plus(a: Poly, b: Poly): Poly { (a - b) + (b - a) }

  function TimesX(a: Poly, n: nat := 1): Poly { set i | i in a :: i + n }

  function If(b: bool, a: Poly): Poly { if b then a else {} }

  /** `q` times the generator; the coefficients of `q` are listed from the highest degree. */
  ghost function Product(q: seq<bool>): Poly
    decreases |q|
  {
    if q == [] then {}
    else Plus(TimesX(Product(q[..|q| - 1])), If(q[|q| - 1], GENERATOR))
  }

  function Bit(c: bv32, j: nat): bool { Lsb(Halves(c, j)) }

  predicate Coefficient(c: bv32, i: nat) { i < 32 && Bit(c, 31 - i) }

  ghost function Register(c: bv32): Poly { set i: nat | i < 32 && Coefficient(c, i) }

  /** The message as a polynomial times x^32, its first bit being the highest coefficient. */
  ghost function MessagePoly(bits: seq<bool>): Poly {
    set k: nat | k < |bits| && bits[k] :: 31 + |bits| - k
  }

  /** The initial register in front of the message. */
  ghost function Dividend(start: Poly, bits: seq<bool>): Poly {
    Plus(TimesX(start, |bits|), MessagePoly(bits))
  }

  /** `r` has degree below 32 and differs from `v` by a multiple of the generator, the
      quotient having `n` coefficients. */
  ghost predicate IsRemainder(v: Poly, n: nat, r: Poly) {
    (forall i :: i in r ==> i < 32) && exists q: seq<bool> :: |q| == n && v == Plus(Product(q), r)
  }

  // ---- One bit ------------------------------------------------------------------------------

  lemma {:induction false} BitXor(a: bv32, b: bv32, j: nat)
    ensures Bit(Xor(a, b), j) == (Bit(a, j) != Bit(b, j))
    decreases j
  {
    hide Xor, Half, Lsb;
    HalfXor(a, b);
    LsbXor(a, b);
    if j > 0 {
      BitXor(Half(a), Half(b), j - 1);
    }
  }

  lemma BitTop(c: bv32)
    ensures !Bit(c, 32)
  {
    hide Lsb;
    HalvesWord(c);
    LsbZero();
  }

  lemma LsbZero()
    ensures !Lsb(0)
  {}

  lemma BitHalf(c: bv32, j: nat)
    ensures Bit(Half(c), j) == Bit(c, j + 1)
  {
    hide Half, Lsb;
  }

  lemma Nibble(w: bv32)
    ensures Bit(w, 0) == (w & 1 != 0)
    ensures Bit(w, 1) == (w & 2 != 0)
    ensures Bit(w, 2) == (w & 4 != 0)
    ensures Bit(w, 3) == (w & 8 != 0)
  {
    assert Halves(w, 1) == Half(w);
    assert Halves(w, 2) == Halves(Half(w), 1) == Half(Half(w));
    assert Halves(w, 3) == Halves(Half(w), 2) == Halves(Half(Half(w)), 1) == Half(Half(Half(w)));
  }

  lemma BitByFour(w: bv32, j: nat)
    ensures Bit(w, 4 + j) == Bit(w >> 4, j)
  {
    hide Half, Lsb;
    HalvesAdd(w, 4, j);
    HalvesByFour(w);
  }

  /** The generator constant without its k low hexadecimal digits. */
  function Tail(k: nat): bv32
    requires k < 8
  {
    match k
    case 0 => 0xEDB88320
    case 1 => 0xEDB8832
    case 2 => 0xEDB883
    case 3 => 0xEDB88
    case 4 => 0xEDB8
    case 5 => 0xEDB
    case 6 => 0xED
    case 7 => 0xE
  }

  lemma TailDigit(k: nat, j: nat)
    requires k < 8 && j < 4
    ensures Bit(Tail(k), j) == (31 - 4 * k - j in GENERATOR)
    ensures k < 7 ==> Tail(k) >> 4 == Tail(k + 1)
  {
    hide Bit;
    Nibble(Tail(k));
  }

  /** 0xEDB88320 is the generator without its leading term, in the register's bit order. */
  lemma {:induction false} GeneratorBit(k: nat, j: nat)
    requires k < 8 && j < 32 - 4 * k
    ensures Bit(Tail(k), j) == (31 - 4 * k - j in GENERATOR)
    decreases j
  {
    hide Tail, Bit;
    if j < 4 {
      TailDigit(k, j);
    } else {
      TailDigit(k, 0);
      BitByFour(Tail(k), j - 4);
      GeneratorBit(k + 1, j - 4);
    }
  }

  /** Feeding a bit multiplies by x, adds the bit at x^32, and subtracts the generator
      when that leaves a term of degree 32. */
  lemma FeedBitDivides(c: bv32, b: bool)
    ensures Register(FeedBit(c, b))
         == Plus(Plus(TimesX(Register(c)), If(b, {32})), If(Lsb(c) != b, GENERATOR))
  {
    hide FeedBit, Bit, Lsb, Register;
    forall i: nat
      ensures i in Register(FeedBit(c, b))
          <==> i in Plus(Plus(TimesX(Register(c)), If(b, {32})), If(Lsb(c) != b, GENERATOR))
    {
      FeedBitCoefficient(c, b, i);
      TimesXIn(c, i);
      if i >= 32 {
        BitLow(c);
      }
    }
  }

  lemma FeedBitCoefficient(c: bv32, b: bool, i: nat)
    ensures i in Register(FeedBit(c, b))
       <==> i < 32 && ((0 < i && Bit(c, 32 - i)) != (Lsb(c) != b && i in GENERATOR))
  {
    hide FeedBit, Bit, Lsb, Xor, Half;
    if i < 32 {
      FeedBitCases(c, b);
      BitXor(0xEDB88320, Half(c), 31 - i);
      BitHalf(c, 31 - i);
      GeneratorBit(0, 31 - i);
      BitTop(c);
    }
  }

  lemma BitLow(c: bv32)
    ensures Bit(c, 0) == Lsb(c)
  {}

  lemma TimesXIn(c: bv32, i: nat)
    ensures i in TimesX(Register(c)) <==> 0 < i <= 32 && Bit(c, 32 - i)
  {
    hide Bit;
    if 0 < i <= 32 && Bit(c, 32 - i) {
      assert i - 1 in Register(c);
    }
  }

  // ---- The whole division -------------------------------------------------------------------

  lemma PlusLaws(a: Poly, b: Poly, c: Poly)
    ensures Plus(Plus(a, b), c) == Plus(a, Plus(b, c))
    ensures Plus(a, b) == Plus(b, a)
    ensures Plus(Plus(a, b), b) == a
  {}

  lemma TimesXPlus(a: Poly, b: Poly, n: nat)
    ensures TimesX(Plus(a, b), n) == Plus(TimesX(a, n), TimesX(b, n))
  {
    forall i: nat
      ensures i in TimesX(Plus(a, b), n) <==> i in Plus(TimesX(a, n), TimesX(b, n))
    {
      TimesXMember(Plus(a, b), n, i);
      TimesXMember(a, n, i);
      TimesXMember(b, n, i);
    }
  }

  lemma TimesXMember(a: Poly, n: nat, i: nat)
    ensures i in TimesX(a, n) <==> n <= i && i - n in a
  {
    if n <= i && i - n in a {
      assert (i - n) + n in TimesX(a, n);
    }
  }

  lemma TimesXTwice(a: Poly, m: nat, n: nat)
    ensures TimesX(TimesX(a, m), n) == TimesX(a, m + n)
  {
    forall i: nat
      ensures i in TimesX(TimesX(a, m), n) <==> i in TimesX(a, m + n)
    {
      TimesXMember(TimesX(a, m), n, i);
      if n <= i {
        TimesXMember(a, m, i - n);
      }
      TimesXMember(a, m + n, i);
    }
  }

  lemma MessagePolyStep(bits: seq<bool>)
    requires bits != []
    ensures MessagePoly(bits)
         == Plus(TimesX(If(bits[0], {32}), |bits| - 1), MessagePoly(bits[1..]))
  {
    var n := |bits|;
    var top := TimesX(If(bits[0], {32}), n - 1);
    var rest := MessagePoly(bits[1..]);
    forall i: nat
      ensures i in MessagePoly(bits) <==> i in Plus(top, rest)
    {
      TimesXMember(If(bits[0], {32}), n - 1, i);
      MessagePolyMember(bits, i);
      MessagePolyMember(bits[1..], i);
    }
  }

  lemma MessagePolyMember(bits: seq<bool>, i: nat)
    ensures i in MessagePoly(bits) <==> 32 <= i < 32 + |bits| && bits[31 + |bits| - i]
  {
    if 32 <= i < 32 + |bits| && bits[31 + |bits| - i] {
      var k: nat := 31 + |bits| - i;
      assert 31 + |bits| - k == i;
    }
  }

  lemma DividendStep(start: Poly, bits: seq<bool>)
    requires bits != []
    ensures Dividend(start, bits)
         == Dividend(Plus(TimesX(start), If(bits[0], {32})), bits[1..])
  {
    var n := |bits| - 1;
    var top := If(bits[0], {32});
    MessagePolyStep(bits);
    TimesXPlus(TimesX(start), top, n);
    TimesXTwice(start, 1, n);
    PlusLaws(TimesX(start, n + 1), TimesX(top, n), MessagePoly(bits[1..]));
  }

  /** Long division, the quotient so far being `q`. */
  lemma {:induction false} Division(c: bv32, q: seq<bool>, bits: seq<bool>) returns (q': seq<bool>)
    ensures |q'| == |q| + |bits|
    ensures Dividend(Plus(Product(q), Register(c)), bits)
         == Plus(Product(q'), Register(Feed(c, bits)))
    decreases |bits|
  {
    hide FeedBit, Register, Lsb, TimesX;
    if bits == [] {
      q' := q;
      DividendEmpty(Plus(Product(q), Register(c)));
    } else {
      var b := bits[0];
      var next := q + [Lsb(c) != b];
      DivisionStep(c, q, b);
      DividendStep(Plus(Product(q), Register(c)), bits);
      q' := Division(FeedBit(c, b), next, bits[1..]);
    }
  }

  lemma DividendEmpty(v: Poly)
    ensures Dividend(v, []) == v
  {
    forall i: nat
      ensures i in TimesX(v, 0) <==> i in v
    {
      TimesXMember(v, 0, i);
    }
    assert TimesX(v, 0) == v;
    assert MessagePoly([]) == {};
  }

  lemma DivisionStep(c: bv32, q: seq<bool>, b: bool)
    ensures Plus(TimesX(Plus(Product(q), Register(c))), If(b, {32}))
         == Plus(Product(q + [Lsb(c) != b]), Register(FeedBit(c, b)))
  {
    hide FeedBit, Register, Lsb, TimesX;
    var g := If(Lsb(c) != b, GENERATOR);
    var xq, xr, top := TimesX(Product(q)), TimesX(Register(c)), If(b, {32});
    assert (q + [Lsb(c) != b])[..|q|] == q;
    assert Product(q + [Lsb(c) != b]) == Plus(xq, g);
    FeedBitDivides(c, b);
    TimesXPlus(Product(q), Register(c), 1);
    PlusShuffle(xq, xr, top, g);
  }

  lemma PlusShuffle(a: Poly, r: Poly, t: Poly, g: Poly)
    ensures Plus(Plus(a, r), t) == Plus(Plus(a, g), Plus(Plus(r, t), g))
  {}

  // ---- The remainder is unique --------------------------------------------------------------

  ghost function Differences(p: seq<bool>, q: seq<bool>): (d: seq<bool>)
    requires |p| == |q|
    ensures |d| == |p|
  {
    seq(|p|, i requires 0 <= i < |p| => p[i] != q[i])
  }

  lemma {:induction false} ProductPlus(p: seq<bool>, q: seq<bool>)
    requires |p| == |q|
    ensures Product(Differences(p, q)) == Plus(Product(p), Product(q))
    decreases |p|
  {
    hide TimesX;
    if p != [] {
      var n := |p| - 1;
      var d := Differences(p, q);
      assert d[..n] == Differences(p[..n], q[..n]);
      ProductPlus(p[..n], q[..n]);
      TimesXPlus(Product(p[..n]), Product(q[..n]), 1);
      PlusPairs(TimesX(Product(p[..n])), TimesX(Product(q[..n])), p[n], q[n]);
    }
  }

  lemma PlusPairs(a: Poly, b: Poly, s: bool, t: bool)
    ensures Plus(Plus(a, b), If(s != t, GENERATOR))
         == Plus(Plus(a, If(s, GENERATOR)), Plus(b, If(t, GENERATOR)))
  {}

  /** A nonzero multiple of the generator has a term of degree 32 or more. */
  lemma {:induction false} MultipleIsLarge(q: seq<bool>, k: nat) returns (i: nat)
    requires k < |q| && q[k]
    ensures 32 <= i && i in Product(q)
    decreases |q|
  {
    hide TimesX, If, Plus;
    var n := |q| - 1;
    var p := q[..n];
    if j: nat :| j < n && p[j] {
      var e := MultipleIsLarge(p, j);
      i := e + 1;
      ShiftedOut(Product(p), e, q[n]);
    } else {
      ProductZero(p);
      i := 32;
      GeneratorAlone();
    }
  }

  lemma GeneratorAlone()
    ensures 32 in Plus(TimesX({}), If(true, GENERATOR))
  {}

  lemma ShiftedOut(a: Poly, e: nat, t: bool)
    requires 32 <= e && e in a
    ensures e + 1 in Plus(TimesX(a), If(t, GENERATOR))
  {
    TimesXMember(a, 1, e + 1);
  }

  lemma SmallMultipleIsZero(q: seq<bool>)
    requires forall i :: i in Product(q) ==> i < 32
    ensures Product(q) == {}
  {
    if k: nat :| k < |q| && q[k] {
      var _ := MultipleIsLarge(q, k);
    } else {
      ProductZero(q);
    }
  }

  lemma {:induction false} ProductZero(q: seq<bool>)
    requires forall k :: 0 <= k < |q| ==> !q[k]
    ensures Product(q) == {}
    decreases |q|
  {
    if q != [] {
      ProductZero(q[..|q| - 1]);
    }
  }

  lemma RemainderUnique(v: Poly, n: nat, r: Poly, s: Poly)
    requires IsRemainder(v, n, r) && IsRemainder(v, n, s)
    ensures r == s
  {
    hide Product, TimesX;
    var p: seq<bool> :| |p| == n && v == Plus(Product(p), r);
    var q: seq<bool> :| |q| == n && v == Plus(Product(q), s);
    ProductPlus(p, q);
    SameSum(Product(p), r, Product(q), s);
    SmallMultipleIsZero(Differences(p, q));
  }

  lemma SameSum(a: Poly, r: Poly, b: Poly, s: Poly)
    requires Plus(a, r) == Plus(b, s)
    ensures Plus(a, b) == Plus(r, s)
    ensures Plus(r, s) == {} ==> r == s
  {
    forall i: nat
      ensures i in Plus(a, b) <==> i in Plus(r, s)
    {
      assert i in Plus(a, r) <==> i in Plus(b, s);
    }
    if Plus(r, s) == {} {
      forall i: nat
        ensures i in r <==> i in s
      {
        assert i !in Plus(r, s);
      }
    }
  }

  /** The register after the whole message is the remainder, and nothing else is. */
  lemma CrcIsRemainder(buf: seq<bv8>, prev: bv32, r: Poly)
    ensures IsRemainder(Dividend(Register(Conditioned(prev)), MessageBits(buf)), 8 * |buf|, r)
       <==> r == Register(Conditioned(Crc(buf, prev)))
  {
    hide Feed, MessageBits, Xor, Register, Dividend, Product;
    var c := Conditioned(prev);
    var bits := MessageBits(buf);
    var last := Feed(c, bits);
    XorLaws(last, 0xFFFFFFFF, 0);
    ProductEmpty(Register(c));
    var q := Division(c, [], bits);
    RegisterIsSmall(last);
    assert IsRemainder(Dividend(Register(c), bits), |bits|, Register(last));
    if IsRemainder(Dividend(Register(c), bits), |bits|, r) {
      RemainderUnique(Dividend(Register(c), bits), |bits|, r, Register(last));
    }
  }

  lemma ProductEmpty(a: Poly)
    ensures Plus(Product([]), a) == a
  {}

  lemma RegisterIsSmall(c: bv32)
    ensures forall i :: i in Register(c) ==> i < 32
  {}
}
