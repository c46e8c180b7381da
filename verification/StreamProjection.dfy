/** What the streaming loop computes, said without its pending slot and index map: each tool call
    is its header plus the deltas it owns, and the content is the maximal runs of the rest. */
module StreamProjection {
  import opened Wrappers
  import opened StreamAssembly

  // ---- Ownership of deltas ------------------------------------------------------------------

  /** The tool-call headers of a stream, in order. */
  function Headers(s: seq<StreamPart>): (h: seq<StreamPart>)
    ensures forall o :: 0 <= o < |h| ==> h[o].ToolCall?
    decreases |s|
  {
    if s == [] then []
    else Headers(Init(s)) + if Last(s).ToolCall? then [Last(s)] else []
  }

  /** The position, among the headers, of the last header that carries index `k`. */
  function LatestHeader(s: seq<StreamPart>, k: Index): (o: Option<nat>)
    ensures o.Some? ==> o.value < |Headers(s)| && Headers(s)[o.value].streamIndex == Some(k)
    decreases |s|
  {
    if s == [] then None
    else if Last(s).ToolCall? && Last(s).streamIndex == Some(k) then Some(|Headers(Init(s))|)
    else LatestHeader(Init(s), k)
  }

  /** Nothing but owned deltas has come since the last header. */
  predicate AfterHeader(s: seq<StreamPart>)
    decreases |s|, 0
  {
    s != [] && (Last(s).ToolCall? || (Owner(Init(s), Last(s)).Some? && AfterHeader(Init(s))))
  }

  /** The tool call that delta `p`, arriving after `s`, belongs to: the latest call with its
      index, or else the call being streamed right now; None for an orphan and for parts that
      are not deltas. */
  function Owner(s: seq<StreamPart>, p: StreamPart): (o: Option<nat>)
    ensures o.Some? ==> p.ToolCallPart? && o.value < |Headers(s)|
    decreases |s|, 1
  {
    if !p.ToolCallPart? then None
    else if p.index.Some? && LatestHeader(s, p.index.value).Some? then
      LatestHeader(s, p.index.value)
    else if AfterHeader(s) && |Headers(s)| > 0 then Some(|Headers(s)| - 1)
    else None
  }

  /** The argument texts that belong to call `o`, in stream order. */
  function Deltas(s: seq<StreamPart>, o: nat): seq<string>
    decreases |s|
  {
    if s == [] then []
    else Deltas(Init(s), o) +
         if Owner(Init(s), Last(s)) == Some(o) && Last(s).argsPart.Some?
         then [Last(s).argsPart.value] else []
  }

  function Concat(texts: seq<string>): string
    decreases |texts|
  {
    if texts == [] then "" else Concat(Init(texts)) + Last(texts)
  }

  /** A header's own text followed by its deltas; null only if all of them are. */
  function Arguments(header: Option<string>, deltas: seq<string>): Option<string> {
    if deltas == [] then header else Some(header.GetOr("") + Concat(deltas))
  }

  function Projection(s: seq<StreamPart>, o: nat): StoredCall
    requires o < |Headers(s)|
  {
    var h := Headers(s)[o];
    StoredCall(h.id, h.name, Arguments(h.args, Deltas(s, o)), h.extras)
  }

  /** The parts that are not owned deltas. */
  function Strip(s: seq<StreamPart>): seq<StreamPart>
    decreases |s|
  {
    if s == [] then []
    else Strip(Init(s)) + if Owner(Init(s), Last(s)).Some? then [] else [Last(s)]
  }

  // ---- Tool calls ---------------------------------------------------------------------------

  function PendingCall(st: State): seq<StoredCall> {
    if st.pending.Some? && st.pending.value.ToolCall? then [Stored(st.pending.value)] else []
  }

  ghost predicate CallsMatch(s: seq<StreamPart>, calls: seq<StoredCall>) {
    |calls| == |Headers(s)| && forall o :: 0 <= o < |calls| ==> calls[o] == Projection(s, o)
  }

  /** How the slot and the map encode the projection. */
  ghost predicate Tracks(s: seq<StreamPart>, st: State) {
    && st.Valid()
    && (AfterHeader(s) <==> st.pending.Some? && st.pending.value.ToolCall?)
    && (AfterHeader(s) ==> |Headers(s)| > 0)
    && CallsMatch(s, st.toolCalls + PendingCall(st))
    && (forall k :: LatestHeader(s, k) ==
                    if PendingAt(st.pending, k) then Some(|st.toolCalls|)
                    else if k in st.indexMap then Some(st.indexMap[k]) else None)
  }

  lemma ArgumentsStep(header: Option<string>, deltas: seq<string>, more: string)
    ensures Arguments(header, deltas + [more]) == AppendArgs(Arguments(header, deltas), Some(more))
  {
    assert Init(deltas + [more]) == deltas;
    if deltas == [] {
      assert Concat(deltas + [more]) == more;
      assert header.None? ==> "" + more == more;
    } else {
      var h := header.GetOr("");
      assert h + (Concat(deltas) + more) == h + Concat(deltas) + more;
    }
  }

  /** How each piece of the projection grows by one part. */
  lemma Snoc(s: seq<StreamPart>, p: StreamPart)
    ensures Init(s + [p]) == s && Last(s + [p]) == p
    ensures Headers(s + [p]) == Headers(s) + if p.ToolCall? then [p] else []
    ensures AfterHeader(s + [p]) <==> p.ToolCall? || (Owner(s, p).Some? && AfterHeader(s))
    ensures Strip(s + [p]) == Strip(s) + if Owner(s, p).Some? then [] else [p]
  {
    assert Init(s + [p]) == s;
    hide Owner;
  }

  lemma SnocDeltas(s: seq<StreamPart>, p: StreamPart, o: nat)
    ensures Deltas(s + [p], o) ==
            Deltas(s, o) + if Owner(s, p) == Some(o) && p.argsPart.Some?
                           then [p.argsPart.value] else []
  {
    assert Init(s + [p]) == s;
    hide Owner;
  }

  lemma SnocLatest(s: seq<StreamPart>, p: StreamPart, k: Index)
    ensures LatestHeader(s + [p], k) ==
            if p.ToolCall? && p.streamIndex == Some(k) then Some(|Headers(s)|)
            else LatestHeader(s, k)
  {
    assert Init(s + [p]) == s;
  }

  lemma ProjectionStep(s: seq<StreamPart>, p: StreamPart, o: nat)
    requires o < |Headers(s)|
    ensures o < |Headers(s + [p])|
    ensures Projection(s + [p], o) ==
            if Owner(s, p) == Some(o)
            then Projection(s, o).(args := AppendArgs(Projection(s, o).args, p.argsPart))
            else Projection(s, o)
  {
    hide Owner, Headers, Deltas, Strip, AfterHeader;
    Snoc(s, p);
    SnocDeltas(s, p, o);
    assert Deltas(s, o) + [] == Deltas(s, o);
    if Owner(s, p) == Some(o) && p.argsPart.Some? {
      ArgumentsStep(Headers(s)[o].args, Deltas(s, o), p.argsPart.value);
    }
  }

  lemma NewProjection(s: seq<StreamPart>, p: StreamPart)
    requires p.ToolCall?
    ensures |Headers(s + [p])| == |Headers(s)| + 1
    ensures Projection(s + [p], |Headers(s)|) == Stored(p)
  {
    Snoc(s, p);
    SnocDeltas(s, p, |Headers(s)|);
    FutureDeltas(s, |Headers(s)|);
  }

  lemma {:induction false} FutureDeltas(s: seq<StreamPart>, o: nat)
    requires |Headers(s)| <= o
    ensures Deltas(s, o) == []
    decreases |s|
  {
    if s != [] {
      FutureDeltas(Init(s), o);
    }
  }

  lemma TracksHeader(s: seq<StreamPart>, st: State, p: StreamPart)
    requires Tracks(s, st) && p.ToolCall?
    ensures Tracks(s + [p], Step(st, p))
  {
    hide Owner, Headers, Projection, Strip, AfterHeader, LatestHeader;
    var st' := Step(st, p);
    var calls, calls' := st.toolCalls + PendingCall(st), st'.toolCalls + PendingCall(st');
    Snoc(s, p);
    NewProjection(s, p);
    assert st'.toolCalls == calls;
    forall o | 0 <= o < |calls|
      ensures calls'[o] == Projection(s + [p], o)
    {
      ProjectionStep(s, p, o);
    }
    forall k
      ensures LatestHeader(s + [p], k) ==
              if PendingAt(st'.pending, k) then Some(|st'.toolCalls|)
              else if k in st'.indexMap then Some(st'.indexMap[k]) else None
    {
      SnocLatest(s, p, k);
    }
  }

  lemma TracksOther(s: seq<StreamPart>, st: State, p: StreamPart)
    requires Tracks(s, st) && !p.ToolCall? && Owner(s, p).None?
    ensures Tracks(s + [p], Step(st, p))
  {
    hide Headers, Projection, Strip, AfterHeader, LatestHeader;
    var st' := Step(st, p);
    var calls, calls' := st.toolCalls + PendingCall(st), st'.toolCalls + PendingCall(st');
    Snoc(s, p);
    forall o | 0 <= o < |calls|
      ensures calls'[o] == Projection(s + [p], o)
    {
      ProjectionStep(s, p, o);
    }
    forall k
      ensures LatestHeader(s + [p], k) ==
              if PendingAt(st'.pending, k) then Some(|st'.toolCalls|)
              else if k in st'.indexMap then Some(st'.indexMap[k]) else None
    {
      SnocLatest(s, p, k);
    }
  }

  lemma TracksDelta(s: seq<StreamPart>, st: State, p: StreamPart)
    requires Tracks(s, st) && Owner(s, p).Some?
    ensures Tracks(s + [p], Step(st, p))
  {
    hide Headers, Projection, Strip, AfterHeader, LatestHeader;
    var st' := Step(st, p);
    var calls, calls' := st.toolCalls + PendingCall(st), st'.toolCalls + PendingCall(st');
    Snoc(s, p);
    forall o | 0 <= o < |calls|
      ensures calls'[o] == Projection(s + [p], o)
    {
      ProjectionStep(s, p, o);
    }
    forall k
      ensures LatestHeader(s + [p], k) ==
              if PendingAt(st'.pending, k) then Some(|st'.toolCalls|)
              else if k in st'.indexMap then Some(st'.indexMap[k]) else None
    {
      SnocLatest(s, p, k);
    }
  }

  lemma {:induction false} RunTracks(s: seq<StreamPart>)
    ensures Tracks(s, Run(s))
    decreases |s|
  {
    if s != [] {
      var p := Last(s);
      RunTracks(Init(s));
      assert Init(s) + [p] == s;
      if p.ToolCall? {
        TracksHeader(Init(s), Run(Init(s)), p);
      } else if Owner(Init(s), p).Some? {
        TracksDelta(Init(s), Run(Init(s)), p);
      } else {
        TracksOther(Init(s), Run(Init(s)), p);
      }
    }
  }

  /** For every stream whatsoever, the tool calls of the message are the headers in order, each
      with exactly the deltas it owns. */
  lemma ToolCallsAreProjections(s: seq<StreamPart>)
    ensures |Assembled(s).toolCalls| == |Headers(s)|
    ensures forall o :: 0 <= o < |Headers(s)| ==> Assembled(s).toolCalls[o] == Projection(s, o)
  {
    hide Headers, Projection, LatestHeader, Run;
    RunTracks(s);
    var st := Run(s);
    assert Assembled(s).toolCalls == st.toolCalls + PendingCall(st);
  }
}
