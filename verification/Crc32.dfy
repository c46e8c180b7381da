/** Table-driven CRC-32 (packages/minidb/src/crc32.ts): the lazily built 256-entry table, the
    byte loop, and what the checksum means. JavaScript's signed and unsigned 32-bit views hold
    the same bits, so the register is a bv32 throughout. */
module Crc32 {

  // ---- The register -------------------------------------------------------------------------

  /** One turn of the inner loop of buildTable. The constant is written out because the solver
      handles a literal far better than a named bit-vector constant. */
  function Shift(c: bv32): bv32 {
    if c & 1 == 1 then 0xEDB88320 ^ (c >> 1) else c >> 1
  }

  function Unshift(c: bv32): bv32 {
    if c >> 31 == 1 then ((c ^ 0xEDB88320) << 1) | 1 else c << 1
  }

  function Shifts(c: bv32, n: nat): bv32
    decreases n
  {
    if n == 0 then c else Shifts(Shift(c), n - 1)
  }

  function Xor(a: bv32, b: bv32): bv32 { a ^ b }

  function Half(w: bv32): bv32 { w >> 1 }

  function Upper(w: bv32): bv32 { w >> 8 }

  function LowByte(w: bv32): bv8 { (w & 0xFF) as bv8 }

  function Word(b: bv8): bv32 { b as bv32 }

  function Lsb(w: bv32): bool { w & 1 == 1 }

  function BitWord(b: bool): bv32 { if b then 1 else 0 }

  lemma ShiftIsReversible(c: bv32)
    ensures Unshift(Shift(c)) == c
    ensures Shift(Unshift(c)) == c
  {
    UnshiftBits(c);
  }

  lemma UnshiftBits(c: bv32)
    ensures (((c ^ 0xEDB88320) << 1) | 1) & 1 == 1
    ensures c >> 31 == 1 ==> 0xEDB88320 ^ ((((c ^ 0xEDB88320) << 1) | 1) >> 1) == c
    ensures (c << 1) & 1 != 1
    ensures c >> 31 != 1 ==> (c << 1) >> 1 == c
  {}

  lemma XorLaws(a: bv32, b: bv32, c: bv32)
    ensures Xor(Xor(a, b), c) == Xor(a, Xor(b, c))
    ensures Xor(a, b) == Xor(b, a)
    ensures Xor(Xor(a, b), b) == a
    ensures Xor(a, 0) == a
  {}

  lemma ShiftCases(c: bv32)
    ensures Shift(c) == if Lsb(c) then Xor(0xEDB88320, Half(c)) else Half(c)
  {}

  lemma HalfXor(a: bv32, b: bv32)
    ensures Half(Xor(a, b)) == Xor(Half(a), Half(b))
  {
    HalfXorRaw(a, b);
  }

  lemma HalfXorRaw(a: bv32, b: bv32)
    ensures (a ^ b) >> 1 == (a >> 1) ^ (b >> 1)
  {}

  lemma LsbXor(a: bv32, b: bv32)
    ensures Lsb(Xor(a, b)) == (Lsb(a) != Lsb(b))
  {
    LsbXorRaw(a, b);
  }

  lemma LsbXorRaw(a: bv32, b: bv32)
    ensures (a ^ b) & 1 == (a & 1) ^ (b & 1)
  {}

  lemma LsbBitWord(b: bool)
    ensures Lsb(BitWord(b)) == b && Half(BitWord(b)) == 0
  {}

  /** The step on a register with a bit xored in. */
  lemma FeedBitCases(c: bv32, b: bool)
    ensures FeedBit(c, b) == if Lsb(c) != b then Xor(0xEDB88320, Half(c)) else Half(c)
  {
    hide Shift, Xor, Half, Lsb, BitWord;
    ShiftCases(Xor(c, BitWord(b)));
    HalfXor(c, BitWord(b));
    LsbXor(c, BitWord(b));
    LsbBitWord(b);
    XorLaws(Half(c), 0, 0);
  }

  /** The step is linear in the bits it does not test. */
  lemma ShiftAbsorbs(c: bv32, w: bv32)
    ensures Shift(Xor(c, w)) == Xor(FeedBit(c, Lsb(w)), Half(w))
  {
    hide *;
    FeedBitCases(c, Lsb(w));
    ShiftCases(Xor(c, w));
    HalfXor(c, w);
    LsbXor(c, w);
    XorLaws(0xEDB88320, Half(c), Half(w));
  }

  // ---- Messages as bits ---------------------------------------------------------------------

  /** Bit-serial division: one message bit enters, one shift follows (RFC 1952, section 8). */
  function FeedBit(c: bv32, b: bool): bv32 { Shift(Xor(c, BitWord(b))) }

  function Feed(c: bv32, bits: seq<bool>): bv32
    decreases |bits|
  {
    if bits == [] then c else Feed(FeedBit(c, bits[0]), bits[1..])
  }

  /** The n low bits of a word, least significant first: the order RFC 1952 packs bytes in. */
  function LowBits(w: bv32, n: nat): (bits: seq<bool>)
    ensures |bits| == n
    decreases n
  {
    if n == 0 then [] else [Lsb(w)] + LowBits(Half(w), n - 1)
  }

  function Halves(w: bv32, n: nat): bv32
    decreases n
  {
    if n == 0 then w else Halves(Half(w), n - 1)
  }

  function MessageBits(buf: seq<bv8>): (bits: seq<bool>)
    ensures |bits| == 8 * |buf|
    decreases |buf|
  {
    if buf == [] then [] else LowBits(Word(buf[0]), 8) + MessageBits(buf[1..])
  }

  lemma {:induction false} FeedConcat(c: bv32, a: seq<bool>, b: seq<bool>)
    ensures Feed(c, a + b) == Feed(Feed(c, a), b)
    decreases |a|
  {
    hide FeedBit;
    if a == [] {
      assert a + b == b;
    } else {
      assert (a + b)[1..] == a[1..] + b;
      FeedConcat(FeedBit(c, a[0]), a[1..], b);
    }
  }

  /** Xoring a word in at once and feeding its low bits one by one differ only in the part of
      the word that has not been reached yet. */
  lemma {:induction false} FeedWord(c: bv32, w: bv32, n: nat)
    ensures Shifts(Xor(c, w), n) == Xor(Feed(c, LowBits(w, n)), Halves(w, n))
    decreases n
  {
    hide Shift, Xor, Half, Lsb, BitWord;
    if n > 0 {
      ShiftAbsorbs(c, w);
      FeedWord(FeedBit(c, Lsb(w)), Half(w), n - 1);
      assert LowBits(w, n)[1..] == LowBits(Half(w), n - 1);
    }
  }

  lemma {:induction false} HalvesAdd(w: bv32, m: nat, n: nat)
    ensures Halves(w, m + n) == Halves(Halves(w, m), n)
    decreases m
  {
    hide Half;
    if m > 0 {
      HalvesAdd(Half(w), m - 1, n);
    }
  }

  lemma HalvesByFour(w: bv32)
    ensures Halves(w, 4) == w >> 4
  {
    assert Halves(w, 4) == Halves(Half(w), 3) == Halves(Half(Half(w)), 2)
        == Halves(Half(Half(Half(w))), 1) == Half(Half(Half(Half(w))));
  }

  function Quarter(w: bv32): bv32 { w >> 4 }

  lemma HalvesQuarter(w: bv32)
    ensures Halves(w, 4) == Quarter(w)
  {
    HalvesByFour(w);
  }

  lemma HalvesByte(w: bv32)
    ensures Halves(w, 8) == Upper(w)
  {
    hide *;
    HalvesAdd(w, 4, 4);
    HalvesQuarter(w);
    HalvesQuarter(Quarter(w));
    QuarterTwice(w);
  }

  lemma QuarterTwice(w: bv32)
    ensures Quarter(Quarter(w)) == Upper(w)
  {}

  lemma HalvesWord(w: bv32)
    ensures Halves(w, 32) == 0
  {
    HalvesAdd(w, 8, 24);
    HalvesAdd(w >> 8, 8, 16);
    HalvesAdd((w >> 8) >> 8, 8, 8);
    HalvesByte(w);
    HalvesByte(w >> 8);
    HalvesByte((w >> 8) >> 8);
    HalvesByte(((w >> 8) >> 8) >> 8);
    assert (((w >> 8) >> 8) >> 8) >> 8 == 0;
  }

  lemma WordFitsInByte(b: bv8)
    ensures Upper(Word(b)) == 0
  {}

  lemma FeedByte(c: bv32, b: bv8)
    ensures Feed(c, LowBits(Word(b), 8)) == ByteStep(c, b)
  {
    hide Shift, Xor, Half, Lsb, Word, Upper;
    FeedWord(c, Word(b), 8);
    HalvesByte(Word(b));
    WordFitsInByte(b);
    XorLaws(Feed(c, LowBits(Word(b), 8)), 0, 0);
  }

  // ---- The table and the byte loop ----------------------------------------------------------

  /** One iteration of the byte loop, without the table. */
  function ByteStep(c: bv32, b: bv8): bv32 { Shifts(Xor(c, Word(b)), 8) }

  /** crc32 without the table: condition the register, feed every bit, condition it again. */
  function Crc(buf: seq<bv8>, prev: bv32): bv32 {
    Xor(Feed(Xor(prev, 0xFFFFFFFF), MessageBits(buf)), 0xFFFFFFFF)
  }

  ghost predicate IsTable(t: seq<bv32>) {
    |t| == 256 && forall n :: 0 <= n < 256 ==> t[n] == Shifts(Word(n as bv8), 8)
  }

  lemma ByteIndex(b: bv8)
    ensures 0 <= b as int < 256
    ensures (b as int) as bv8 == b
  {}

  /** Why a table over one byte is enough: the other three bytes pass through a byte step
      unchanged, eight places lower. */
  lemma TableStep(c: bv32, b: bv8)
    ensures ByteStep(c, b) == Xor(Shifts(Word(LowByte(Xor(c, Word(b)))), 8), Upper(c))
  {
    hide Shift, Half, Lsb, Xor, Word, Upper, LowByte;
    var x := Xor(c, Word(b));
    var lo := Word(LowByte(x));
    var hi := Xor(x, lo);
    assert Xor(lo, hi) == x && Xor(lo, 0) == lo by {
      XorLaws(x, lo, 0);
      XorLaws(lo, hi, 0);
      XorLaws(lo, 0, 0);
    }
    FeedWord(lo, hi, 8);
    FeedWord(lo, 0, 8);
    HalvesByte(hi);
    HalvesByte(0);
    SplitByte(c, b);
    SameLowBits(hi);
    XorLaws(Feed(lo, LowBits(0, 8)), 0, 0);
  }

  lemma SplitByte(c: bv32, b: bv8)
    ensures var x := Xor(c, Word(b)); var hi := Xor(x, Word(LowByte(x)));
            hi & 0xFF == 0 && Upper(hi) == Upper(c) && Upper(0) == 0
  {}

  lemma SameLowBits(w: bv32)
    requires w & 0xFF == 0
    ensures LowBits(w, 8) == LowBits(0, 8)
  {
  }

  /** The module-level TABLE and the functions that use it. */
  class Checksum {
    var table: array?<bv32>

    ghost predicate Valid()
      reads this, table
    {
      table != null ==> IsTable(table[..])
    }

    constructor ()
      ensures Valid() && table == null
    {
      table := null;
    }

    static method BuildTable() returns (t: array<bv32>)
      ensures fresh(t) && IsTable(t[..])
    {
      hide Word;
      t := new bv32[256];
      for n := 0 to 256
        invariant forall m :: 0 <= m < n ==> t[m] == Shifts(Word(m as bv8), 8)
      {
        var c := Word(n as bv8);
        for k := 0 to 8
          invariant Shifts(c, 8 - k) == Shifts(Word(n as bv8), 8)
        {
          c := if c & 1 == 1 then 0xEDB88320 ^ (c >> 1) else c >> 1;
        }
        t[n] := c;
      }
    }

    /** Builds the table on first use and never again, whatever the call order. */
    method Crc32(buf: seq<bv8>, prev: bv32 := 0) returns (r: bv32)
      requires Valid()
      modifies this`table
      ensures Valid() && table != null
      ensures old(table) != null ==> table == old(table)
      ensures r == Crc(buf, prev)
    {
      hide ByteStep, Word, Upper, LowByte, Xor;
      if table == null {
        table := BuildTable();
      }
      var c := Conditioned(prev);
      for i := 0 to |buf|
        invariant table != null && IsTable(table[..])
        invariant old(table) != null ==> table == old(table)
        invariant Feed(c, MessageBits(buf[i..])) == Feed(Xor(prev, 0xFFFFFFFF), MessageBits(buf))
      {
        MessageStep(c, buf[i..]);
        assert buf[i..][1..] == buf[i + 1..];
        TableStep(c, buf[i]);
        ByteIndex(LowByte(Xor(c, Word(buf[i]))));
        var index := LowByte(Xor(c, Word(buf[i]))) as int;
        assert table[..][index] == table[index];
        c := Xor(table[index], Upper(c));
      }
      r := Conditioned(c);
    }
  }

  /** `x ^ 0xffffffff`, at the start and at the end of crc32. */
  function Conditioned(c: bv32): bv32 { Xor(c, 0xFFFFFFFF) }

  lemma MessageStep(c: bv32, buf: seq<bv8>)
    requires buf != []
    ensures Feed(c, MessageBits(buf)) == Feed(ByteStep(c, buf[0]), MessageBits(buf[1..]))
  {
    hide FeedBit, Word, ByteStep;
    FeedConcat(c, LowBits(Word(buf[0]), 8), MessageBits(buf[1..]));
    FeedByte(c, buf[0]);
  }

  // ---- Streaming ----------------------------------------------------------------------------

  lemma {:induction false} MessageBitsConcat(a: seq<bv8>, b: seq<bv8>)
    ensures MessageBits(a + b) == MessageBits(a) + MessageBits(b)
    decreases |a|
  {
    hide Word;
    if a == [] {
      assert a + b == b;
    } else {
      assert (a + b)[1..] == a[1..] + b;
      MessageBitsConcat(a[1..], b);
    }
  }

  /** Continuing from a previous checksum is the checksum of the whole. */
  lemma StreamingComposes(a: seq<bv8>, b: seq<bv8>, prev: bv32)
    ensures Crc(a + b, prev) == Crc(b, Crc(a, prev))
    ensures Crc([], prev) == prev
  {
    hide FeedBit, Xor;
    var start := Xor(prev, 0xFFFFFFFF);
    MessageBitsConcat(a, b);
    FeedConcat(start, MessageBits(a), MessageBits(b));
    XorLaws(Feed(start, MessageBits(a)), 0xFFFFFFFF, 0);
    XorLaws(prev, 0xFFFFFFFF, 0);
  }

  // ---- Error detection ----------------------------------------------------------------------

  lemma ShiftInjective(a: bv32, b: bv32)
    requires Shift(a) == Shift(b)
    ensures a == b
  {
    hide Shift, Unshift;
    ShiftIsReversible(a);
    ShiftIsReversible(b);
  }

  lemma {:induction false} ShiftsInjective(a: bv32, b: bv32, n: nat)
    requires Shifts(a, n) == Shifts(b, n)
    ensures a == b
    decreases n
  {
    hide Shift;
    if n > 0 {
      ShiftsInjective(Shift(a), Shift(b), n - 1);
      ShiftInjective(a, b);
    }
  }

  lemma XorInjective(a: bv32, b: bv32, m: bv32)
    requires Xor(a, m) == Xor(b, m)
    ensures a == b
  {
    hide Xor;
    XorLaws(a, m, 0);
    XorLaws(b, m, 0);
  }

  /** A difference in the register survives any common suffix. */
  lemma {:induction false} FeedInjective(c: bv32, d: bv32, bits: seq<bool>)
    requires Feed(c, bits) == Feed(d, bits)
    ensures c == d
    decreases |bits|
  {
    hide Shift, Xor, BitWord;
    if bits != [] {
      FeedInjective(FeedBit(c, bits[0]), FeedBit(d, bits[0]), bits[1..]);
      ShiftInjective(Xor(c, BitWord(bits[0])), Xor(d, BitWord(bits[0])));
      XorInjective(c, d, BitWord(bits[0]));
    }
  }

  function PushBit(w: bv32, b: bool): bv32 { (w << 1) | BitWord(b) }

  /** The word whose low bits are `bits`. */
  function FromBits(bits: seq<bool>): bv32
    decreases |bits|
  {
    if bits == [] then 0 else PushBit(FromBits(bits[1..]), bits[0])
  }

  lemma PushBitHalf(w: bv32, b: bool)
    requires w >> 31 == 0
    ensures Half(PushBit(w, b)) == w
    ensures Lsb(PushBit(w, b)) == b
  {}

  lemma HalvesTop(w: bv32, n: nat)
    requires n <= 31 && Halves(w, n) == 0
    ensures w >> 31 == 0
  {
    hide Half, Upper;
    HalvesAdd(w, n, 31 - n);
    HalvesZero(31 - n);
    HalvesThirtyOne(w);
  }

  lemma {:induction false} HalvesZero(n: nat)
    ensures Halves(0, n) == 0
  {
    if n > 0 {
      HalvesZero(n - 1);
    }
  }

  lemma HalvesThirtyOne(w: bv32)
    ensures Halves(w, 31) == w >> 31
  {
    hide Half, Upper;
    HalvesAdd(w, 8, 23);
    HalvesAdd(Upper(w), 8, 15);
    HalvesAdd(Upper(Upper(w)), 8, 7);
    HalvesAdd(Upper(Upper(Upper(w))), 4, 3);
    HalvesByte(w);
    HalvesByte(Upper(w));
    HalvesByte(Upper(Upper(w)));
    HalvesByFour(Upper(Upper(Upper(w))));
    HalvesByThree(Upper(Upper(Upper(w))) >> 4);
    ShiftThirtyOne(w);
  }

  lemma HalvesByThree(w: bv32)
    ensures Halves(w, 3) == w >> 3
  {
    assert Halves(w, 3) == Halves(Half(w), 2) == Halves(Half(Half(w)), 1) == Half(Half(Half(w)));
  }

  lemma ShiftThirtyOne(w: bv32)
    ensures (Upper(Upper(Upper(w))) >> 4) >> 3 == w >> 31
  {}

  lemma {:induction false} FromBitsRoundTrip(bits: seq<bool>)
    requires |bits| <= 32
    ensures LowBits(FromBits(bits), |bits|) == bits
    ensures Halves(FromBits(bits), |bits|) == 0
    decreases |bits|
  {
    hide Half, Lsb, PushBit;
    if bits != [] {
      var w := FromBits(bits[1..]);
      FromBitsRoundTrip(bits[1..]);
      HalvesTop(w, |bits| - 1);
      PushBitHalf(w, bits[0]);
    }
  }

  /** The register determines the last 32 or fewer bits fed into a known register. */
  lemma FeedDeterminesBits(c: bv32, x: seq<bool>, y: seq<bool>)
    requires |x| == |y| <= 32
    requires Feed(c, x) == Feed(c, y)
    ensures x == y
  {
    hide FeedBit, Xor;
    var n := |x|;
    FromBitsRoundTrip(x);
    FromBitsRoundTrip(y);
    FeedWord(c, FromBits(x), n);
    FeedWord(c, FromBits(y), n);
    ShiftsInjective(Xor(c, FromBits(x)), Xor(c, FromBits(y)), n);
    XorLaws(c, FromBits(x), 0);
    XorLaws(c, FromBits(y), 0);
    XorInjective(FromBits(x), FromBits(y), c);
  }

  /** The two bit strings agree outside the window of `len` bits that starts at `start`. */
  ghost predicate AgreeOutside(x: seq<bool>, y: seq<bool>, start: nat, len: nat) {
    |x| == |y| && forall k :: 0 <= k < |x| && (k < start || start + len <= k) ==> x[k] == y[k]
  }

  lemma BurstBetween(c: bv32, p: seq<bool>, x: seq<bool>, y: seq<bool>, s: seq<bool>)
    requires |x| == |y| <= 32
    requires Feed(c, p + x + s) == Feed(c, p + y + s)
    ensures x == y
  {
    hide FeedBit;
    FeedConcat(c, p + x, s);
    FeedConcat(c, p, x);
    FeedConcat(c, p + y, s);
    FeedConcat(c, p, y);
    FeedInjective(Feed(Feed(c, p), x), Feed(Feed(c, p), y), s);
    FeedDeterminesBits(Feed(c, p), x, y);
  }

  lemma BurstOfBits(c: bv32, x: seq<bool>, y: seq<bool>, start: nat)
    requires AgreeOutside(x, y, start, 32)
    requires Feed(c, x) == Feed(c, y)
    ensures x == y
  {
    hide Feed;
    var n := |x|;
    var lo := if start <= n then start else n;
    var hi := if start + 32 <= n then start + 32 else n;
    assert x[..lo] == y[..lo];
    assert x[hi..] == y[hi..];
    assert x == x[..lo] + x[lo..hi] + x[hi..];
    assert y == x[..lo] + y[lo..hi] + x[hi..];
    BurstBetween(c, x[..lo], x[lo..hi], y[lo..hi], x[hi..]);
  }

  lemma LowBitsInjective(a: bv8, b: bv8)
    requires LowBits(Word(a), 8) == LowBits(Word(b), 8)
    ensures a == b
  {
    hide Half, Lsb, Upper, Xor, Word;
    FeedByte(0, a);
    FeedByte(0, b);
    ShiftsInjective(Xor(0, Word(a)), Xor(0, Word(b)), 8);
    XorLaws(0, Word(a), 0);
    XorLaws(0, Word(b), 0);
    XorInjective(Word(a), Word(b), 0);
    WordInjective(a, b);
  }

  lemma WordInjective(a: bv8, b: bv8)
    requires Word(a) == Word(b)
    ensures a == b
  {}

  lemma {:induction false} MessageBitsInjective(a: seq<bv8>, b: seq<bv8>)
    requires |a| == |b| && MessageBits(a) == MessageBits(b)
    ensures a == b
    decreases |a|
  {
    hide LowBits, Word;
    if a != [] {
      assert MessageBits(a)[..8] == LowBits(Word(a[0]), 8);
      assert MessageBits(b)[..8] == LowBits(Word(b[0]), 8);
      assert MessageBits(a)[8..] == MessageBits(a[1..]);
      assert MessageBits(b)[8..] == MessageBits(b[1..]);
      LowBitsInjective(a[0], b[0]);
      MessageBitsInjective(a[1..], b[1..]);
      assert a == [a[0]] + a[1..] && b == [b[0]] + b[1..];
    }
  }

  /** Every burst error of at most 32 consecutive bits changes the checksum, wherever it falls
      and whatever surrounds it. */
  lemma BurstDetected(a: seq<bv8>, b: seq<bv8>, prev: bv32, start: nat)
    requires |a| == |b|
    requires AgreeOutside(MessageBits(a), MessageBits(b), start, 32)
    ensures Crc(a, prev) == Crc(b, prev) <==> a == b
  {
    hide FeedBit, Xor;
    var c := Xor(prev, 0xFFFFFFFF);
    if Crc(a, prev) == Crc(b, prev) {
      XorInjective(Feed(c, MessageBits(a)), Feed(c, MessageBits(b)), 0xFFFFFFFF);
      BurstOfBits(c, MessageBits(a), MessageBits(b), start);
      MessageBitsInjective(a, b);
    }
  }

  /** The byte form: damage confined to four consecutive bytes. */
  lemma WindowDetected(prefix: seq<bv8>, x: seq<bv8>, y: seq<bv8>, suffix: seq<bv8>, prev: bv32)
    requires |x| == |y| <= 4
    ensures Crc(prefix + x + suffix, prev) == Crc(prefix + y + suffix, prev) <==> x == y
  {
    hide Feed, MessageBits, Xor;
    var c := Xor(prev, 0xFFFFFFFF);
    MessageBitsConcat(prefix + x, suffix);
    MessageBitsConcat(prefix, x);
    MessageBitsConcat(prefix + y, suffix);
    MessageBitsConcat(prefix, y);
    if Crc(prefix + x + suffix, prev) == Crc(prefix + y + suffix, prev) {
      XorInjective(Feed(c, MessageBits(prefix + x + suffix)),
                   Feed(c, MessageBits(prefix + y + suffix)), 0xFFFFFFFF);
      BurstBetween(c, MessageBits(prefix), MessageBits(x), MessageBits(y), MessageBits(suffix));
      MessageBitsInjective(x, y);
    }
  }

  // ---- Four bytes fill the register ---------------------------------------------------------

  function WordBytes(w: bv32): (q: seq<bv8>)
    ensures |q| == 4
  {
    [LowByte(w), LowByte(Upper(w)), LowByte(Upper(Upper(w))), LowByte(Upper(Upper(Upper(w))))]
  }

  lemma LowBitsByte(w: bv32, n: nat)
    ensures LowBits(w, 8 + n) == LowBits(Word(LowByte(w)), 8) + LowBits(Upper(w), n)
  {
    hide Half, Lsb, Word, LowByte, Upper;
    LowBitsSplit(w, 8, n);
    HalvesByte(w);
    LowByteBits(w);
  }

  lemma {:induction false} LowBitsSplit(w: bv32, m: nat, n: nat)
    ensures LowBits(w, m + n) == LowBits(w, m) + LowBits(Halves(w, m), n)
    decreases m
  {
    hide Half, Lsb;
    if m > 0 {
      LowBitsSplit(Half(w), m - 1, n);
    }
  }

  lemma LowByteBits(w: bv32)
    ensures LowBits(w, 8) == LowBits(Word(LowByte(w)), 8)
  {
  }

  lemma WordBytesBits(w: bv32)
    ensures MessageBits(WordBytes(w)) == LowBits(w, 32)
  {
    hide Half, Lsb, Word, LowByte, Upper;
    var w1 := Upper(w);
    var w2 := Upper(w1);
    var w3 := Upper(w2);
    LowBitsByte(w, 24);
    LowBitsByte(w1, 16);
    LowBitsByte(w2, 8);
    LowBitsByte(w3, 0);
    MessageBitsConcat([LowByte(w)], [LowByte(w1), LowByte(w2), LowByte(w3)]);
    MessageBitsConcat([LowByte(w1)], [LowByte(w2), LowByte(w3)]);
    MessageBitsConcat([LowByte(w2)], [LowByte(w3)]);
  }

  function Unshifts(c: bv32, n: nat): bv32
    decreases n
  {
    if n == 0 then c else Unshift(Unshifts(c, n - 1))
  }

  lemma {:induction false} ShiftsUnshifts(c: bv32, n: nat)
    ensures Shifts(Unshifts(c, n), n) == c
    decreases n
  {
    hide Shift, Unshift;
    if n > 0 {
      ShiftIsReversible(Unshifts(c, n - 1));
      ShiftsUnshifts(c, n - 1);
    }
  }

  lemma FeedReaches(c: bv32, goal: bv32)
    ensures Feed(c, LowBits(Xor(c, Unshifts(goal, 32)), 32)) == goal
  {
    hide Shift, Unshift, Xor, FeedBit, Upper, Half, Lsb;
    var u := Unshifts(goal, 32);
    var w := Xor(c, u);
    FeedWord(c, w, 32);
    HalvesWord(w);
    XorLaws(Feed(c, LowBits(w, 32)), 0, 0);
    ShiftsUnshifts(goal, 32);
    assert Xor(c, w) == u by {
      XorLaws(c, u, 0);
      XorLaws(u, c, 0);
      XorLaws(c, w, 0);
    }
  }

  /** From any starting checksum, the four-byte continuations and the checksums they lead to
      are in one-to-one correspondence. */
  lemma FourBytesReachEveryCrcOnce(prev: bv32, target: bv32)
    ensures exists q: seq<bv8> :: |q| == 4 && Crc(q, prev) == target
    ensures forall q: seq<bv8>, r: seq<bv8> ::
              |q| == |r| == 4 && Crc(q, prev) == Crc(r, prev) ==> q == r
  {
    hide Xor, Feed, MessageBits, WordBytes;
    var c := Xor(prev, 0xFFFFFFFF);
    var goal := Xor(target, 0xFFFFFFFF);
    var w := Xor(c, Unshifts(goal, 32));
    WordBytesBits(w);
    FeedReaches(c, goal);
    XorLaws(target, 0xFFFFFFFF, 0);
    assert Crc(WordBytes(w), prev) == target;
    forall q: seq<bv8>, r: seq<bv8> | |q| == |r| == 4 && Crc(q, prev) == Crc(r, prev)
      ensures q == r
    {
      WindowDetected([], q, r, [], prev);
      assert [] + q + [] == q && [] + r + [] == r;
    }
  }

  // ---- The check value ----------------------------------------------------------------------

  lemma EightShifts(c: bv32)
    ensures Shifts(c, 8) == Shift(Shift(Shift(Shift(Shift(Shift(Shift(Shift(c))))))))
  {
    hide Shift;
    assert Shifts(c, 8) == Shifts(Shift(Shift(c)), 6);
    assert Shifts(Shift(Shift(c)), 6) == Shifts(Shift(Shift(Shift(Shift(c)))), 4);
  }

  function ByteSteps(c: bv32, buf: seq<bv8>): bv32
    decreases |buf|
  {
    if buf == [] then c else ByteSteps(ByteStep(c, buf[0]), buf[1..])
  }

  lemma {:induction false} FeedIsByteSteps(c: bv32, buf: seq<bv8>)
    ensures Feed(c, MessageBits(buf)) == ByteSteps(c, buf)
    decreases |buf|
  {
    hide ByteStep, FeedBit;
    if buf != [] {
      MessageStep(c, buf);
      FeedIsByteSteps(ByteStep(c, buf[0]), buf[1..]);
    }
  }

  /** The register after each digit. */
  lemma DigitSteps()
    ensures ByteStep(0xFFFFFFFF, 0x31) == 0x7C231048
    ensures ByteStep(0x7C231048, 0x32) == 0xB0ACBB32
    ensures ByteStep(0xB0ACBB32, 0x33) == 0x77B79C2D
    ensures ByteStep(0x77B79C2D, 0x34) == 0x641C1F5C
    ensures ByteStep(0x641C1F5C, 0x35) == 0x340AC5E3
    ensures ByteStep(0x340AC5E3, 0x36) == 0xF68D2C9E
    ensures ByteStep(0xF68D2C9E, 0x37) == 0xAFFC9660
    ensures ByteStep(0xAFFC9660, 0x38) == 0x651F2550
    ensures ByteStep(0x651F2550, 0x39) == 0x340BC6D9
  {
    EightShifts(Xor(0xFFFFFFFF, Word(0x31)));
    EightShifts(Xor(0x7C231048, Word(0x32)));
    EightShifts(Xor(0xB0ACBB32, Word(0x33)));
    EightShifts(Xor(0x77B79C2D, Word(0x34)));
    EightShifts(Xor(0x641C1F5C, Word(0x35)));
    EightShifts(Xor(0x340AC5E3, Word(0x36)));
    EightShifts(Xor(0xF68D2C9E, Word(0x37)));
    EightShifts(Xor(0xAFFC9660, Word(0x38)));
    EightShifts(Xor(0x651F2550, Word(0x39)));
  }

  lemma OneByteOn(c: bv32, next: bv32, buf: seq<bv8>, k: nat)
    requires k < |buf| && ByteStep(c, buf[k]) == next
    ensures ByteSteps(c, buf[k..]) == ByteSteps(next, buf[k + 1..])
  {
    hide ByteStep;
    assert buf[k..][1..] == buf[k + 1..];
  }

  lemma DigitsFed(digits: seq<bv8>)
    requires digits == [0x31, 0x32, 0x33, 0x34, 0x35, 0x36, 0x37, 0x38, 0x39]
    ensures ByteSteps(0xFFFFFFFF, digits) == 0x340BC6D9
  {
    hide ByteStep, ByteSteps;
    DigitSteps();
    OneByteOn(0xFFFFFFFF, 0x7C231048, digits, 0);
    OneByteOn(0x7C231048, 0xB0ACBB32, digits, 1);
    OneByteOn(0xB0ACBB32, 0x77B79C2D, digits, 2);
    OneByteOn(0x77B79C2D, 0x641C1F5C, digits, 3);
    OneByteOn(0x641C1F5C, 0x340AC5E3, digits, 4);
    OneByteOn(0x340AC5E3, 0xF68D2C9E, digits, 5);
    OneByteOn(0xF68D2C9E, 0xAFFC9660, digits, 6);
    OneByteOn(0xAFFC9660, 0x651F2550, digits, 7);
    OneByteOn(0x651F2550, 0x340BC6D9, digits, 8);
    assert digits[0..] == digits && digits[9..] == [];
    NoByte(0x340BC6D9);
  }

  lemma NoByte(c: bv32)
    ensures ByteSteps(c, []) == c
  {}

  /** The checksum of the digits from 1 to 9, by which implementations are told apart. */
  lemma CheckValue()
    ensures Crc([0x31, 0x32, 0x33, 0x34, 0x35, 0x36, 0x37, 0x38, 0x39], 0) == 0xCBF43926
  {
    hide Feed, MessageBits, ByteSteps;
    var digits: seq<bv8> := [0x31, 0x32, 0x33, 0x34, 0x35, 0x36, 0x37, 0x38, 0x39];
    FeedIsByteSteps(0xFFFFFFFF, digits);
    DigitsFed(digits);
  }
}
