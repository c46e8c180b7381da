/** Exactly when the deltas of a stream may be reordered freely. */
module StreamReordering {
  import opened Wrappers
  import opened StreamAssembly
  import opened StreamProjection
  import opened StreamContent

  /** Whatever deltas are interleaved with `base`, only their order within each index matters. */
  ghost predicate OrderFree(base: seq<StreamPart>) {
    forall s: seq<StreamPart>, t: seq<StreamPart> ::
      (Routed(s) && Routed(t) && NonDeltas(s) == base && NonDeltas(t) == base
       && forall k :: IndexDeltas(s, k) == IndexDeltas(t, k))
      ==> Assembled(s) == Assembled(t)
  }

  predicate NoDeltas(s: seq<StreamPart>) { forall p :: p in s ==> !p.ToolCallPart? }

  lemma {:induction false} HeadersOfNonDeltas(s: seq<StreamPart>)
    ensures Headers(NonDeltas(s)) == Headers(s) && NoDeltas(NonDeltas(s))
    decreases |s|
  {
    if s != [] {
      HeadersOfNonDeltas(Init(s));
      assert s == Init(s) + [Last(s)];
      Snoc(Init(s), Last(s));
      Snoc(NonDeltas(Init(s)), Last(s));
      assert NonDeltas(Init(s)) + [] == NonDeltas(Init(s));
      hide Headers;
    }
  }

  lemma {:induction false} AppendKeepsTexts(s: seq<StreamPart>, rest: seq<StreamPart>, k: Index)
    requires NoDeltas(rest)
    ensures NonDeltas(s + rest) == NonDeltas(s) + rest
    ensures IndexDeltas(s + rest, k) == IndexDeltas(s, k)
    decreases |rest|
  {
    if rest == [] {
      assert s + rest == s;
    } else {
      assert Init(s + rest) == s + Init(rest) && Last(s + rest) == Last(rest);
      AppendKeepsTexts(s, Init(rest), k);
      assert rest == Init(rest) + [Last(rest)];
      assert !Last(rest).ToolCallPart?;
    }
  }

  lemma {:induction false} AppendKeepsCalls(s: seq<StreamPart>, rest: seq<StreamPart>, k: Index)
    requires NoDeltas(rest)
    ensures Headers(s + rest) == Headers(s) + Headers(rest)
    ensures forall o :: Deltas(s + rest, o) == Deltas(s, o)
    ensures LatestHeader(s, k).Some? ==>
              LatestHeader(s + rest, k).Some?
              && LatestHeader(s + rest, k).value >= LatestHeader(s, k).value
    decreases |rest|
  {
    hide AfterHeader;
    if rest == [] {
      assert s + rest == s;
    } else {
      assert Init(s + rest) == s + Init(rest) && Last(s + rest) == Last(rest);
      AppendKeepsCalls(s, Init(rest), k);
      assert !Last(rest).ToolCallPart?;
    }
  }

  lemma AppendPlain(s: seq<StreamPart>, rest: seq<StreamPart>, k: Index)
    requires NoDeltas(rest)
    ensures NonDeltas(s + rest) == NonDeltas(s) + rest
    ensures IndexDeltas(s + rest, k) == IndexDeltas(s, k)
    ensures Headers(s + rest) == Headers(s) + Headers(rest)
    ensures forall o :: Deltas(s + rest, o) == Deltas(s, o)
    ensures LatestHeader(s, k).Some? ==>
              LatestHeader(s + rest, k).Some?
              && LatestHeader(s + rest, k).value >= LatestHeader(s, k).value
  {
    hide *;
    AppendKeepsTexts(s, rest, k);
    AppendKeepsCalls(s, rest, k);
  }

  lemma {:induction false} PlainHasNoDeltas(s: seq<StreamPart>, o: nat, k: Index)
    requires NoDeltas(s)
    ensures Deltas(s, o) == [] && NonDeltas(s) == s && IndexDeltas(s, k) == []
    decreases |s|
  {
    assert [] + s == s;
    AppendPlain([], s, k);
  }

  function Delta(k: Index): StreamPart { ToolCallPart(Some("x"), Some(k)) }

  /** One delta in the middle of a stream without any other. */
  function Single(before: seq<StreamPart>, k: Index, after: seq<StreamPart>): seq<StreamPart> {
    before + [Delta(k)] + after
  }

  lemma SingleTexts(before: seq<StreamPart>, after: seq<StreamPart>, k: Index, o: nat, q: Index,
                    i: nat)
    requires NoDeltas(before) && NoDeltas(after) && LatestHeader(before, k) == Some(o)
    ensures var s := Single(before, k, after);
            && IndexDeltas(s, q) == (if q == k then ["x"] else [])
            && Deltas(s, i) == (if i == o then ["x"] else [])
            && NonDeltas(s) == before + after && Headers(s) == Headers(before + after)
  {
    hide LatestHeader, Headers, AfterHeader;
    var mid := before + [Delta(k)];
    assert Init(mid) == before && Last(mid) == Delta(k);
    PlainHasNoDeltas(before, i, q);
    AppendPlain(mid, after, q);
    AppendPlain(before, after, q);
    SnocDeltas(before, Delta(k), i);
    Snoc(before, Delta(k));
    assert [] + ["x"] == ["x"];
    assert before + [] == before && Headers(before) + [] == Headers(before);
  }

  lemma SingleRouted(before: seq<StreamPart>, after: seq<StreamPart>, k: Index)
    requires NoDeltas(before) && NoDeltas(after) && LatestHeader(before, k).Some?
    ensures Routed(Single(before, k, after))
  {
    hide LatestHeader, Headers;
    var s := Single(before, k, after);
    var n := |before|;
    assert forall i :: 0 <= i < n ==> s[i] == before[i] && s[i] in before;
    assert forall i :: n < i < |s| ==> s[i] == after[i - n - 1] && s[i] in after;
    assert s[n] == Delta(k) && s[..n] == before;
  }

  /** A header whose index an earlier one already has. */
  lemma {:induction false} FirstClash(s: seq<StreamPart>) returns (j: nat, k: Index)
    requires !DistinctIndices(s)
    ensures j < |s| && s[j].ToolCall? && s[j].streamIndex == Some(k)
    ensures LatestHeader(s[..j], k).Some?
    decreases |s|
  {
    if !DistinctIndices(Init(s)) {
      j, k := FirstClash(Init(s));
      assert Init(s)[..j] == s[..j];
    } else {
      assert s == Init(s) + [Last(s)];
      Snoc(Init(s), Last(s));
      var a, b :| 0 <= a < b < |Headers(s)| && Headers(s)[a].streamIndex.Some?
                  && Headers(s)[a].streamIndex == Headers(s)[b].streamIndex;
      j, k := |s| - 1, Headers(s)[a].streamIndex.value;
      assert s[..j] == Init(s);
      HasLatest(Init(s), a, k);
    }
  }

  lemma {:induction false} HasLatest(s: seq<StreamPart>, o: nat, k: Index)
    requires o < |Headers(s)| && Headers(s)[o].streamIndex == Some(k)
    ensures LatestHeader(s, k).Some? && LatestHeader(s, k).value >= o
    decreases |s|
  {
    if !(Last(s).ToolCall? && Last(s).streamIndex == Some(k)) {
      HasLatest(Init(s), o, k);
    }
  }

  lemma MessagesDiffer(s: seq<StreamPart>, t: seq<StreamPart>, o: nat)
    requires Headers(s) == Headers(t) && o < |Headers(s)|
    requires Deltas(s, o) == ["x"] && Deltas(t, o) == []
    ensures Assembled(s) != Assembled(t)
  {
    hide Headers, Deltas, Assembled;
    ToolCallsAreProjections(s);
    ToolCallsAreProjections(t);
    var h := Headers(s)[o].args;
    assert Concat(["x"]) == "x" && |h.GetOr("") + "x"| == |h.GetOr("")| + 1;
    assert Projection(s, o).args != Projection(t, o).args;
  }

  lemma NotOrderFree(base: seq<StreamPart>, s: seq<StreamPart>, t: seq<StreamPart>)
    requires Routed(s) && Routed(t) && NonDeltas(s) == base && NonDeltas(t) == base
    requires forall k :: IndexDeltas(s, k) == IndexDeltas(t, k)
    requires Assembled(s) != Assembled(t)
    ensures !OrderFree(base)
  {}

  /** A delta for the earlier of two calls with one index, moved behind the header of the later. */
  lemma ReusedIndexMatters(base: seq<StreamPart>)
    requires NoDeltas(base) && !DistinctIndices(base)
    ensures !OrderFree(base)
  {
    var j, k := FirstClash(base);
    var before, after := base[..j], base[j..];
    assert base == before + after && base + [] == base;
    assert NoDeltas(before) && NoDeltas(after) && NoDeltas([]);
    hide *;
    LaterOwner(before, after, k);
    var o, o2 := LatestHeader(before, k).value, LatestHeader(base, k).value;
    var s, t := Single(before, k, after), Single(base, k, []);
    forall q: Index
      ensures IndexDeltas(s, q) == IndexDeltas(t, q)
    {
      SingleTexts(before, after, k, o, q, o);
      SingleTexts(base, [], k, o2, q, o);
    }
    SingleTexts(before, after, k, o, k, o);
    SingleTexts(base, [], k, o2, k, o);
    SingleRouted(before, after, k);
    SingleRouted(base, [], k);
    MessagesDiffer(s, t, o);
    NotOrderFree(base, s, t);
  }

  lemma LaterOwner(before: seq<StreamPart>, after: seq<StreamPart>, k: Index)
    requires NoDeltas(after) && LatestHeader(before, k).Some?
    requires after != [] && after[0].ToolCall? && after[0].streamIndex == Some(k)
    ensures LatestHeader(before + after, k).Some?
    ensures LatestHeader(before + after, k).value > LatestHeader(before, k).value
  {
    hide LatestHeader, Headers;
    var head := before + [after[0]];
    SnocLatest(before, after[0], k);
    AppendPlain(head, after[1..], k);
    assert head + after[1..] == before + after;
  }

  lemma OrderFreeIfDistinct(base: seq<StreamPart>)
    requires DistinctIndices(base)
    ensures OrderFree(base)
  {
    forall s: seq<StreamPart>, t: seq<StreamPart>
      | Routed(s) && Routed(t) && NonDeltas(s) == base && NonDeltas(t) == base
        && forall k :: IndexDeltas(s, k) == IndexDeltas(t, k)
      ensures Assembled(s) == Assembled(t)
    {
      HeadersOfNonDeltas(s);
      ReorderingDeltas(s, t);
    }
  }

  /** Given the other parts of a stream, deltas may be reordered across indices without changing
      the message, if and only if no two of its calls share an index. */
  lemma OrderFreeIff(base: seq<StreamPart>)
    requires NoDeltas(base)
    ensures OrderFree(base) <==> DistinctIndices(base)
  {
    if DistinctIndices(base) {
      OrderFreeIfDistinct(base);
    } else {
      ReusedIndexMatters(base);
    }
  }
}
