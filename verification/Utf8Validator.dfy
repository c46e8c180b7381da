/** The streaming validator of packages/kaos/src/local.ts: a byte automaton whose state survives
    from one chunk to the next. */
module Utf8Validator {
  import opened Utf8
  import opened Utf8Decoder

  /** `needed` more bytes, the next of them between `lower` and `upper`; or a thrown error. */
  datatype State = Reading(needed: nat, lower: int, upper: int) | Failed

  const IDLE := Reading(0, 0x80, 0xBF)

  function Lead(b: byte): State {
    if b <= 0x7F then IDLE
    else if 0xC2 <= b <= 0xDF then Reading(1, 0x80, 0xBF)
    else if b == 0xE0 then Reading(2, 0xA0, 0xBF)
    else if 0xE1 <= b <= 0xEC then Reading(2, 0x80, 0xBF)
    else if b == 0xED then Reading(2, 0x80, 0x9F)
    else if 0xEE <= b <= 0xEF then Reading(2, 0x80, 0xBF)
    else if b == 0xF0 then Reading(3, 0x90, 0xBF)
    else if 0xF1 <= b <= 0xF3 then Reading(3, 0x80, 0xBF)
    else if b == 0xF4 then Reading(3, 0x80, 0x8F)
    else Failed
  }

  function Next(st: State, b: byte): State {
    match st
    case Failed => Failed
    case Reading(needed, lower, upper) =>
      if needed == 0 then Lead(b)
      else if lower <= b <= upper then Reading(needed - 1, 0x80, 0xBF)
      else Failed
  }

  function Run(st: State, s: seq<byte>): State
    decreases |s|
  {
    if s == [] then st else Run(Next(st, s[0]), s[1..])
  }

  class Validator {
    var needed: nat
    var lower: int
    var upper: int
    /** Everything written so far without an error. */
    ghost var written: seq<byte>

    ghost predicate Valid()
      reads this
    {
      Reading(needed, lower, upper) == Run(IDLE, written)
    }

    /** The bounds are reset between characters. */
    lemma Reset()
      requires Valid()
      ensures needed == 0 ==> lower == 0x80 && upper == 0xBF
    {
      RunIsProper(written);
    }

    constructor ()
      ensures Valid() && written == []
    {
      needed, lower, upper := 0, 0x80, 0xBF;
      written := [];
    }

    /** False stands for the thrown TypeError. It comes as soon as what was written has no
        well-formed continuation, and not before. */
    method Write(chunk: seq<byte>) returns (ok: bool)
      requires Valid()
      modifies this
      ensures ok <==> exists t: seq<byte> :: WellFormed(old(written) + chunk + t)
      ensures ok ==> Valid() && written == old(written) + chunk
    {
      hide Run, WellFormed;
      Reset();
      for i := 0 to |chunk|
        invariant Valid() && written == old(written) + chunk[..i]
        invariant needed == 0 ==> lower == 0x80 && upper == 0xBF
      {
        var byte := chunk[i];
        RunSnoc(IDLE, written, byte);
        DeadEnd(written + [byte], chunk[i + 1..]);
        assert written + [byte] + chunk[i + 1..] == old(written) + chunk;
        written := written + [byte];
        if needed == 0 {
          if byte <= 0x7F {
            continue;
          }
          if 0xC2 <= byte <= 0xDF {
            needed := 1;
          } else if byte == 0xE0 {
            needed, lower := 2, 0xA0;
          } else if 0xE1 <= byte <= 0xEC {
            needed := 2;
          } else if byte == 0xED {
            needed, upper := 2, 0x9F;
          } else if 0xEE <= byte <= 0xEF {
            needed := 2;
          } else if byte == 0xF0 {
            needed, lower := 3, 0x90;
          } else if 0xF1 <= byte <= 0xF3 {
            needed := 3;
          } else if byte == 0xF4 {
            needed, upper := 3, 0x8F;
          } else {
            return false;
          }
        } else {
          if byte < lower || byte > upper {
            return false;
          }
          lower, upper := 0x80, 0xBF;
          needed := needed - 1;
        }
      }
      ok := true;
      assert chunk[..|chunk|] == chunk;
      Viable(written);
    }

    /** False stands for the thrown TypeError. */
    method End() returns (ok: bool)
      requires Valid()
      ensures ok <==> WellFormed(written)
    {
      hide Run, WellFormed;
      AcceptsIffWellFormed(written);
      RunIsProper(written);
      ok := needed == 0;
    }
  }

  lemma {:induction false} RunConcat(st: State, a: seq<byte>, b: seq<byte>)
    ensures Run(st, a + b) == Run(Run(st, a), b)
    decreases |a|
  {
    hide Next;
    if a == [] {
      assert a + b == b;
    } else {
      assert (a + b)[1..] == a[1..] + b;
      RunConcat(Next(st, a[0]), a[1..], b);
    }
  }

  lemma RunSnoc(st: State, a: seq<byte>, b: byte)
    ensures Run(st, a + [b]) == Next(Run(st, a), b)
  {
    hide Next;
    RunConcat(st, a, [b]);
  }

  ghost predicate Proper(st: State) {
    st.Reading? ==> st.needed <= 3 && 0x80 <= st.lower <= st.upper <= 0xBF
                    && (st.needed == 0 ==> st == IDLE)
  }

  lemma {:induction false} RunIsProper(s: seq<byte>)
    ensures Proper(Run(IDLE, s))
    decreases |s|
  {
    hide Run;
    if s == [] {
      RunNothing(IDLE);
    } else {
      var n := |s| - 1;
      RunIsProper(s[..n]);
      RunSnoc(IDLE, s[..n], s[n]);
      assert s[..n] + [s[n]] == s;
    }
  }

  lemma RunNothing(st: State)
    ensures Run(st, []) == st
  {}

  lemma {:induction false} RunFailed(s: seq<byte>)
    ensures Run(Failed, s) == Failed
    decreases |s|
  {
    if s != [] {
      RunFailed(s[1..]);
    }
  }

  /** A character takes the automaton from idle to idle. */
  lemma RunChar(c: seq<byte>)
    requires IsChar(c)
    ensures Run(IDLE, c) == IDLE
  {
    RunStep(IDLE, c);
    if |c| > 1 {
      var st1 := Next(IDLE, c[0]);
      RunStep(st1, c[1..]);
      if |c| > 2 {
        var st2 := Next(st1, c[1]);
        RunStep(st2, c[2..]);
        if |c| > 3 {
          RunStep(Next(st2, c[2]), c[3..]);
        }
      }
    }
  }

  lemma RunStep(st: State, s: seq<byte>)
    requires s != []
    ensures Run(st, s) == Run(Next(st, s[0]), s[1..])
  {}

  /** Back at idle, the automaton has read a character first. */
  lemma FirstReturn(s: seq<byte>)
    requires s != [] && Run(IDLE, s) == IDLE
    ensures CharLength(s) > 0
  {
    RunStep(IDLE, s);
    var st1 := Next(IDLE, s[0]);
    RunFailed(s[1..]);
    if st1 == IDLE {
      assert IsChar(s[..1]);
    } else {
      RunStep(st1, s[1..]);
      var st2 := Next(st1, s[1]);
      RunFailed(s[2..]);
      if st1.needed == 1 {
        assert IsChar(s[..2]);
      } else {
        RunStep(st2, s[2..]);
        var st3 := Next(st2, s[2]);
        RunFailed(s[3..]);
        if st1.needed == 2 {
          assert IsChar(s[..3]);
        } else {
          RunStep(st3, s[3..]);
          RunFailed(s[4..]);
          assert IsChar(s[..4]);
        }
      }
    }
  }

  /** The automaton accepts the language of section 4 of RFC 3629. */
  lemma {:induction false} AcceptsIffWellFormed(s: seq<byte>)
    ensures Run(IDLE, s) == IDLE <==> WellFormed(s)
    decreases |s|
  {
    hide Run, IsChar;
    if s == [] {
      RunNothing(IDLE);
    } else {
      var n := CharLength(s);
      if n > 0 {
        assert s == s[..n] + s[n..];
        RunConcat(IDLE, s[..n], s[n..]);
        RunChar(s[..n]);
        AcceptsIffWellFormed(s[n..]);
      } else if Run(IDLE, s) == IDLE {
        FirstReturn(s);
      }
    }
  }

  /** Bytes that complete the character being read. */
  function Completion(st: State): seq<byte>
    requires Proper(st) && st.Reading?
  {
    if st.needed == 0 then [] else [st.lower as byte] + seq(st.needed - 1, _ => 0x80)
  }

  lemma Completes(st: State)
    requires Proper(st) && st.Reading?
    ensures Run(st, Completion(st)) == IDLE
  {
    var t := Completion(st);
    if st.needed > 0 {
      RunStep(st, t);
      if st.needed > 1 {
        var st1 := Next(st, t[0]);
        RunStep(st1, t[1..]);
        if st.needed > 2 {
          RunStep(Next(st1, t[1]), t[2..]);
        }
      }
    }
  }

  /** An automaton that has not failed can still accept. */
  lemma Viable(s: seq<byte>)
    requires Run(IDLE, s) != Failed
    ensures exists t: seq<byte> :: WellFormed(s + t)
  {
    hide Run, Completion;
    RunIsProper(s);
    var t := Completion(Run(IDLE, s));
    Completes(Run(IDLE, s));
    RunConcat(IDLE, s, t);
    AcceptsIffWellFormed(s + t);
  }

  lemma DeadEnd(s: seq<byte>, rest: seq<byte>)
    ensures Run(IDLE, s) == Failed ==> !exists t: seq<byte> :: WellFormed(s + rest + t)
  {
    hide Run, WellFormed;
    if Run(IDLE, s) == Failed {
      forall t: seq<byte>
        ensures !WellFormed(s + rest + t)
      {
        RunConcat(IDLE, s, rest + t);
        RunFailed(rest + t);
        AcceptsIffWellFormed(s + rest + t);
        assert s + rest + t == s + (rest + t);
      }
    }
  }

  /** The validator accepts exactly the inputs of which the lossy decoder drops nothing. */
  lemma ValidatorAgreesWithDecoder(s: seq<byte>)
    ensures Run(IDLE, s) == IDLE <==> EncodeAll(Decode(s)) == s
  {
    hide Run, WellFormed, EncodeAll;
    AcceptsIffWellFormed(s);
    LosslessIffWellFormed(s);
  }
}
