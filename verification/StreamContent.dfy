/** The content half of the message: what merging keeps, which parts it joins, and why only the
    order within one tool call's deltas matters. */
module StreamContent {
  import opened Wrappers
  import opened StreamAssembly
  import opened StreamProjection

  // ---- Conservation -------------------------------------------------------------------------

  function Texts(s: seq<StreamPart>): string
    decreases |s|
  {
    if s == [] then "" else Texts(Init(s)) + if Last(s).Text? then Last(s).text else ""
  }

  function Thinks(s: seq<StreamPart>): string
    decreases |s|
  {
    if s == [] then "" else Thinks(Init(s)) + if Last(s).Think? then Last(s).think else ""
  }

  function Signatures(s: seq<StreamPart>): seq<string>
    decreases |s|
  {
    if s == [] then []
    else Signatures(Init(s)) + if Last(s).Think? && Last(s).encrypted.Some?
                               then [Last(s).encrypted.value] else []
  }

  function OnlyMedia(s: seq<StreamPart>): seq<StreamPart>
    decreases |s|
  {
    if s == [] then [] else OnlyMedia(Init(s)) + if Last(s).Media? then [Last(s)] else []
  }

  ghost predicate SameMatter(a: seq<StreamPart>, b: seq<StreamPart>) {
    Texts(a) == Texts(b) && Thinks(a) == Thinks(b) && Signatures(a) == Signatures(b)
    && OnlyMedia(a) == OnlyMedia(b)
  }

  function Pending(st: State): seq<StreamPart> {
    if st.pending.Some? then [st.pending.value] else []
  }

  lemma MatterSnoc(s: seq<StreamPart>, p: StreamPart)
    ensures Texts(s + [p]) == Texts(s) + if p.Text? then p.text else ""
    ensures Thinks(s + [p]) == Thinks(s) + if p.Think? then p.think else ""
    ensures Signatures(s + [p]) ==
            Signatures(s) + if p.Think? && p.encrypted.Some? then [p.encrypted.value] else []
    ensures OnlyMedia(s + [p]) == OnlyMedia(s) + if p.Media? then [p] else []
  {
    assert Init(s + [p]) == s;
  }

  /** Joining two neighbours neither loses nor reorders anything. */
  lemma MergeKeepsMatter(s: seq<StreamPart>, a: StreamPart, b: StreamPart)
    requires CanMerge(a, b)
    ensures SameMatter(s + [Merged(a, b)], s + [a] + [b])
  {
    hide Texts, Thinks, Signatures, OnlyMedia;
    MatterSnoc(s, Merged(a, b));
    MatterSnoc(s, a);
    MatterSnoc(s + [a], b);
  }

  lemma SnocKeepsMatter(a: seq<StreamPart>, b: seq<StreamPart>, p: StreamPart)
    requires SameMatter(a, b)
    ensures SameMatter(a + [p], b + [p])
  {
    hide Texts, Thinks, Signatures, OnlyMedia;
    MatterSnoc(a, p);
    MatterSnoc(b, p);
  }

  lemma StepKeepsMatter(st: State, p: StreamPart)
    requires st.Valid()
    ensures SameMatter(Step(st, p).content + Pending(Step(st, p)), st.content + Pending(st) + [p])
  {
    hide Texts, Thinks, Signatures, OnlyMedia;
    var carried := st.content + Pending(st);
    if IsRouted(st, p) {
      MatterSnoc(carried, p);
    } else if st.pending.None? {
      assert carried + [p] == st.content + [p];
    } else if CanMerge(st.pending.value, p) {
      MergeKeepsMatter(st.content, st.pending.value, p);
    } else if IsContentPart(st.pending.value) {
    } else {
      MatterSnoc(st.content, st.pending.value);
      SnocKeepsMatter(st.content, carried, p);
    }
  }

  lemma {:induction false} RunKeepsMatter(s: seq<StreamPart>)
    ensures SameMatter(Run(s).content + Pending(Run(s)), s)
    decreases |s|
  {
    hide Texts, Thinks, Signatures, OnlyMedia, Step;
    if s != [] {
      var st := Run(Init(s));
      RunKeepsMatter(Init(s));
      StepKeepsMatter(st, Last(s));
      SnocKeepsMatter(st.content + Pending(st), Init(s), Last(s));
      assert Init(s) + [Last(s)] == s;
    } else {
      assert Run(s).content + Pending(Run(s)) == s;
    }
  }

  /** Text, thinking, reasoning signatures and media all reach the message, in stream order. */
  lemma MergingConserves(s: seq<StreamPart>)
    ensures SameMatter(Assembled(s).content, s)
  {
    hide Texts, Thinks, Signatures, OnlyMedia, Run;
    var st := Run(s);
    RunKeepsMatter(s);
    if st.pending.None? {
      assert st.content + Pending(st) == st.content;
    } else if !IsContentPart(st.pending.value) {
      MatterSnoc(st.content, st.pending.value);
    }
  }

  // ---- Maximal runs -------------------------------------------------------------------------

  /** `b` continues the content part that ends with `a`: text after text, or thinking after
      thinking that has not been signed yet. */
  predicate Joinable(a: StreamPart, b: StreamPart) {
    (a.Text? && b.Text?) || (a.Think? && b.Think? && a.encrypted.None?)
  }

  predicate IsRun(g: seq<StreamPart>) {
    g != [] && forall i :: 0 <= i < |g| - 1 ==> Joinable(g[i], g[i + 1])
  }

  /** One content part in place of a run of them. */
  function Join(g: seq<StreamPart>): StreamPart
    requires g != []
  {
    if g[0].Text? then Text(Texts(g))
    else if g[0].Think? && Last(g).Think? then Think(Thinks(g), Last(g).encrypted)
    else g[0]
  }

  function OnlyContent(s: seq<StreamPart>): seq<StreamPart>
    decreases |s|
  {
    if s == [] then []
    else OnlyContent(Init(s)) + if IsContentPart(Last(s)) then [Last(s)] else []
  }

  /** `gs` cuts `s` into runs that cannot be joined any further. */
  ghost predicate MaximalRuns(s: seq<StreamPart>, gs: seq<seq<StreamPart>>) {
    && Flatten(gs) == s
    && (forall i :: 0 <= i < |gs| ==> IsRun(gs[i]))
    && (forall i :: 0 <= i < |gs| - 1 ==> !Joinable(Last(gs[i]), gs[i + 1][0]))
  }

  function JoinAll(gs: seq<seq<StreamPart>>): (js: seq<StreamPart>)
    requires forall i :: 0 <= i < |gs| ==> gs[i] != []
    ensures |js| == |gs|
  {
    seq(|gs|, i requires 0 <= i < |gs| => Join(gs[i]))
  }

  ghost predicate Encodes(gs: seq<seq<StreamPart>>, st: State) {
    && (forall i :: 0 <= i < |gs| ==> IsRun(gs[i]))
    && OnlyContent(JoinAll(gs)) == st.content + OnlyContent(Pending(st))
    && (st.pending.None? <==> gs == [])
    && (st.pending.Some? && IsContentPart(st.pending.value) ==> Join(Last(gs)) == st.pending.value)
    && (st.pending.Some? && !IsContentPart(st.pending.value) ==>
          !IsContentPart(Last(Last(gs))) && !IsContentPart(Join(Last(gs))))
  }

  lemma {:induction false} RunShape(g: seq<StreamPart>, i: nat)
    requires IsRun(g) && i < |g|
    ensures g[0].Text? <==> g[i].Text?
    ensures g[0].Think? <==> g[i].Think?
    ensures !g[0].Text? && !g[0].Think? ==> |g| == 1
    decreases i
  {
    if i > 0 {
      RunShape(g, i - 1);
      assert Joinable(g[i - 1], g[i - 1 + 1]);
    }
    if |g| > 1 {
      assert Joinable(g[0], g[0 + 1]);
    }
  }

  lemma JoinSnoc(g: seq<StreamPart>, p: StreamPart)
    requires IsRun(g) && Joinable(Last(g), p)
    ensures IsRun(g + [p])
    ensures CanMerge(Join(g), p) && Join(g + [p]) == Merged(Join(g), p)
  {
    hide Texts, Thinks;
    RunShape(g, |g| - 1);
    MatterSnoc(g, p);
  }

  lemma JoinOne(p: StreamPart)
    ensures IsRun([p]) && Join([p]) == p
  {
    MatterSnoc([], p);
    assert [] + [p] == [p];
    assert p.Text? ==> "" + p.text == p.text;
    assert p.Think? ==> "" + p.think == p.think;
  }

  lemma OnlyContentSnoc(s: seq<StreamPart>, p: StreamPart)
    ensures OnlyContent(s + [p]) == OnlyContent(s) + if IsContentPart(p) then [p] else []
  {
    assert Init(s + [p]) == s;
  }

  /** The groups after one more part that is not an owned delta. */
  function Extended(gs: seq<seq<StreamPart>>, p: StreamPart): seq<seq<StreamPart>>
    requires forall i :: 0 <= i < |gs| ==> gs[i] != []
  {
    if gs != [] && Joinable(Last(Last(gs)), p) then Init(gs) + [Last(gs) + [p]] else gs + [[p]]
  }

  lemma JoinedIsMaximal(s: seq<StreamPart>, gs: seq<seq<StreamPart>>, p: StreamPart)
    requires MaximalRuns(s, gs) && gs != [] && Joinable(Last(Last(gs)), p)
    ensures MaximalRuns(s + [p], Init(gs) + [Last(gs) + [p]])
  {
    var hs := Init(gs) + [Last(gs) + [p]];
    JoinSnoc(Last(gs), p);
    assert Init(hs) == Init(gs);
    FlattenLast(gs);
    FlattenLast(hs);
    assert Flatten(hs) == Flatten(Init(gs)) + (Last(gs) + [p]);
    assert Flatten(Init(gs)) + (Last(gs) + [p]) == Flatten(gs) + [p];
  }

  lemma AddedIsMaximal(s: seq<StreamPart>, gs: seq<seq<StreamPart>>, p: StreamPart)
    requires MaximalRuns(s, gs) && (gs != [] ==> !Joinable(Last(Last(gs)), p))
    ensures MaximalRuns(s + [p], gs + [[p]])
  {
    JoinOne(p);
    FlattenSnoc(gs, [p]);
    assert Init(gs + [[p]]) == gs;
  }

  lemma JoinAllSnoc(gs: seq<seq<StreamPart>>, g: seq<StreamPart>)
    requires g != [] && forall i :: 0 <= i < |gs| ==> gs[i] != []
    ensures JoinAll(gs + [g]) == JoinAll(gs) + [Join(g)]
  {}

  lemma OnlyContentOne(p: StreamPart)
    ensures OnlyContent([p]) == if IsContentPart(p) then [p] else []
  {
    OnlyContentSnoc([], p);
    assert [] + [p] == [p];
  }

  lemma LastGroup(gs: seq<seq<StreamPart>>, st: State)
    requires Encodes(gs, st) && gs != []
    ensures JoinAll(gs) == JoinAll(Init(gs)) + [Join(Last(gs))]
    ensures OnlyContent(JoinAll(Init(gs))) == st.content
  {
    hide Join;
    var g := Last(gs);
    assert Init(gs) + [g] == gs;
    JoinAllSnoc(Init(gs), g);
    OnlyContentSnoc(JoinAll(Init(gs)), Join(g));
    OnlyContentOne(st.pending.value);
    var front, t := OnlyContent(JoinAll(Init(gs))), OnlyContent(Pending(st));
    assert front + t == st.content + t;
    assert front == (front + t)[..|front|];
    assert st.content == (st.content + t)[..|front|];
  }

  lemma EncodesJoin(gs: seq<seq<StreamPart>>, st: State, p: StreamPart)
    requires Encodes(gs, st) && gs != [] && Joinable(Last(Last(gs)), p)
    requires CanMerge(st.pending.value, p)
    ensures Encodes(Extended(gs, p), st.(pending := Some(Merged(st.pending.value, p))))
  {
    hide Join, OnlyContent;
    var g := Last(gs);
    var js := JoinAll(Init(gs));
    RunShape(g, |g| - 1);
    LastGroup(gs, st);
    JoinSnoc(g, p);
    JoinAllSnoc(Init(gs), g + [p]);
    OnlyContentSnoc(js, Join(g + [p]));
    OnlyContentOne(Join(g + [p]));
    assert IsContentPart(st.pending.value);
  }

  lemma EncodesFlush(gs: seq<seq<StreamPart>>, st: State, p: StreamPart)
    requires Encodes(gs, st) && gs != [] && !Joinable(Last(Last(gs)), p)
    ensures Encodes(Extended(gs, p), Flush(st, st.pending.value).(pending := Some(p)))
  {
    hide Join, OnlyContent;
    JoinOne(p);
    OnlyContentOne(p);
    OnlyContentOne(st.pending.value);
    JoinAllSnoc(gs, [p]);
    OnlyContentSnoc(JoinAll(gs), p);
    var hs := Extended(gs, p);
    assert Last(hs) == [p];
    var st' := Flush(st, st.pending.value);
    assert st'.content == OnlyContent(JoinAll(gs));
  }

  lemma EncodesFirst(st: State, p: StreamPart)
    requires Encodes([], st)
    ensures Encodes([[p]], st.(pending := Some(p)))
  {
    hide Join;
    JoinOne(p);
    OnlyContentOne(p);
    JoinAllSnoc([], [p]);
    assert JoinAll([[p]]) == [p];
    OnlyContentEmpty(st);
  }

  lemma OnlyContentEmpty(st: State)
    requires Encodes([], st)
    ensures st.content == []
  {}

  lemma NotRouted(s: seq<StreamPart>, st: State, p: StreamPart)
    requires Tracks(s, st) && Owner(s, p).None?
    ensures !IsRouted(st, p)
    ensures p.ToolCallPart? ==> !(st.pending.Some? && st.pending.value.ToolCall?)
  {
    hide Headers, LatestHeader, AfterHeader, Projection;
  }

  /** The slot merges with the next part exactly when the last group can be extended by it. */
  lemma PendingJoins(gs: seq<seq<StreamPart>>, st: State, p: StreamPart)
    requires Encodes(gs, st) && gs != []
    requires p.ToolCallPart? ==> !st.pending.value.ToolCall?
    ensures CanMerge(st.pending.value, p) <==> Joinable(Last(Last(gs)), p)
  {
    hide OnlyContent, Texts, Thinks;
    var g := Last(gs);
    RunShape(g, |g| - 1);
  }

  /** A part that is not an owned delta extends the groups by one part. */
  lemma EncodesStep(s: seq<StreamPart>, gs: seq<seq<StreamPart>>, st: State, p: StreamPart)
    requires Tracks(s, st) && Encodes(gs, st) && Owner(s, p).None?
    ensures Encodes(Extended(gs, p), Step(st, p))
  {
    hide Headers, LatestHeader, AfterHeader, Join, OnlyContent, CanMerge, Joinable;
    NotRouted(s, st, p);
    if gs == [] {
      EncodesFirst(st, p);
      assert [] + [[p]] == [[p]];
    } else {
      PendingJoins(gs, st, p);
      if Joinable(Last(Last(gs)), p) {
        EncodesJoin(gs, st, p);
      } else {
        EncodesFlush(gs, st, p);
      }
    }
  }

  /** An owned delta changes a tool call and nothing else. */
  lemma EncodesDelta(s: seq<StreamPart>, gs: seq<seq<StreamPart>>, st: State, p: StreamPart)
    requires Tracks(s, st) && Encodes(gs, st) && Owner(s, p).Some?
    ensures Encodes(gs, Step(st, p))
  {
    hide Headers, LatestHeader, AfterHeader, Projection, Join, OnlyContent;
    if st.pending.Some? {
      OnlyContentOne(st.pending.value);
      if CanMerge(st.pending.value, p) {
        OnlyContentOne(Merged(st.pending.value, p));
      }
    }
  }

  lemma {:induction false} RunEncodes(s: seq<StreamPart>) returns (gs: seq<seq<StreamPart>>)
    ensures MaximalRuns(Strip(s), gs) && Encodes(gs, Run(s))
    decreases |s|
  {
    hide Owner, Join, Tracks, Encodes, MaximalRuns, Step;
    if s == [] {
      gs := [];
      NoRuns();
    } else {
      var p := Last(s);
      assert Init(s) + [p] == s;
      gs := RunEncodes(Init(s));
      RunTracks(Init(s));
      Snoc(Init(s), p);
      if Owner(Init(s), p).Some? {
        EncodesDelta(Init(s), gs, Run(Init(s)), p);
        assert Strip(s) == Strip(Init(s));
      } else {
        MaximalNonempty(Strip(Init(s)), gs);
        EncodesStep(Init(s), gs, Run(Init(s)), p);
        if gs != [] && Joinable(Last(Last(gs)), p) {
          JoinedIsMaximal(Strip(Init(s)), gs, p);
        } else {
          AddedIsMaximal(Strip(Init(s)), gs, p);
        }
        gs := Extended(gs, p);
      }
    }
  }

  lemma MaximalNonempty(s: seq<StreamPart>, gs: seq<seq<StreamPart>>)
    requires MaximalRuns(s, gs)
    ensures forall i :: 0 <= i < |gs| ==> gs[i] != []
  {}

  lemma NoRuns()
    ensures MaximalRuns([], []) && Encodes([], INITIAL)
  {
    assert JoinAll([]) == [];
  }

  /** For every stream, the content of the message is what the maximal runs of the parts that
      are not owned deltas join into. In a run every thinking part but the last is unsigned, so
      nothing is ever added to a signed one. */
  lemma ContentIsMaximalRuns(s: seq<StreamPart>) returns (gs: seq<seq<StreamPart>>)
    ensures MaximalRuns(Strip(s), gs)
    ensures Assembled(s).content == OnlyContent(JoinAll(gs))
  {
    hide Strip, Run, Join;
    gs := RunEncodes(s);
    var st := Run(s);
    if st.pending.Some? {
      OnlyContentOne(st.pending.value);
    }
  }

  // ---- Order independence -------------------------------------------------------------------

  lemma {:induction false} HeadersSurviveStrip(s: seq<StreamPart>)
    ensures Headers(Strip(s)) == Headers(s)
    decreases |s|
  {
    hide Owner;
    if s != [] {
      HeadersSurviveStrip(Init(s));
      assert Init(s) + [Last(s)] == s;
      Snoc(Init(s), Last(s));
      if Owner(Init(s), Last(s)).None? {
        SnocHeaders(Strip(Init(s)), Last(s));
      } else {
        assert Strip(s) == Strip(Init(s));
      }
    }
  }

  lemma SnocHeaders(s: seq<StreamPart>, p: StreamPart)
    ensures Headers(s + [p]) == Headers(s) + if p.ToolCall? then [p] else []
  {
    assert Init(s + [p]) == s;
  }

  lemma {:induction false} MaximalRunsUnique(s: seq<StreamPart>, gs: seq<seq<StreamPart>>,
                                             hs: seq<seq<StreamPart>>)
    requires MaximalRuns(s, gs) && MaximalRuns(s, hs)
    ensures gs == hs
    decreases |gs|
  {
    if gs == [] {
      FlattenEmpty(hs);
    } else if hs == [] {
      FlattenEmpty(gs);
    } else {
      var g, h := Last(gs), Last(hs);
      FlattenLast(gs);
      FlattenLast(hs);
      assert s == Flatten(Init(gs)) + g == Flatten(Init(hs)) + h;
      LastRunNotLonger(s, gs, hs);
      LastRunNotLonger(s, hs, gs);
      var n := |s| - |g|;
      assert g == s[n..] && h == s[n..];
      assert Flatten(Init(gs)) == s[..n] && Flatten(Init(hs)) == s[..n];
      MaximalRunsUnique(s[..n], Init(gs), Init(hs));
      assert gs == Init(gs) + [g] && hs == Init(hs) + [h];
    }
  }

  lemma FlattenEmpty(gs: seq<seq<StreamPart>>)
    requires Flatten(gs) == [] && forall i :: 0 <= i < |gs| ==> gs[i] != []
    ensures gs == []
  {}

  lemma LastRunNotLonger(s: seq<StreamPart>, gs: seq<seq<StreamPart>>, hs: seq<seq<StreamPart>>)
    requires MaximalRuns(s, gs) && MaximalRuns(s, hs) && gs != [] && hs != []
    ensures |Last(gs)| <= |Last(hs)|
  {
    if |Last(gs)| > |Last(hs)| {
      LongerRunJoins(gs, hs);
    }
  }

  /** A run that reaches back over a boundary of another cut joins what that boundary parts. */
  lemma LongerRunJoins(gs: seq<seq<StreamPart>>, hs: seq<seq<StreamPart>>)
    requires Flatten(gs) == Flatten(hs) && gs != [] && hs != []
    requires IsRun(Last(gs)) && forall i :: 0 <= i < |hs| ==> hs[i] != []
    requires |Last(gs)| > |Last(hs)|
    ensures |hs| > 1 && Joinable(Last(hs[|hs| - 2]), hs[|hs| - 1][0])
  {
    var s, g, h := Flatten(gs), Last(gs), Last(hs);
    FlattenLast(gs);
    FlattenLast(hs);
    hide Flatten;
    assert s == Flatten(Init(gs)) + g == Flatten(Init(hs)) + h;
    var n := |s| - |h|;
    assert Init(hs) != [];
    var e := Last(Init(hs));
    FlattenLast(Init(hs));
    assert Flatten(Init(hs)) == Flatten(Init(Init(hs))) + e;
    assert Last(e) == s[n - 1] && h[0] == s[n];
    var i := |g| - |h| - 1;
    assert g[i] == s[n - 1] && g[i + 1] == s[n];
    assert Joinable(g[i], g[i + 1]);
  }

  /** The message depends on a stream only through its other parts and the deltas of each call:
      how the deltas of different calls interleave is irrelevant. */
  lemma MessageDependsOnProjections(s: seq<StreamPart>, t: seq<StreamPart>)
    requires Strip(s) == Strip(t)
    requires forall o :: 0 <= o < |Headers(s)| ==> Deltas(s, o) == Deltas(t, o)
    ensures Assembled(s) == Assembled(t)
  {
    hide Strip, Headers, Deltas, Assembled, Arguments, MaximalRuns;
    var gs := ContentIsMaximalRuns(s);
    var hs := ContentIsMaximalRuns(t);
    MaximalRunsUnique(Strip(s), gs, hs);
    HeadersSurviveStrip(s);
    HeadersSurviveStrip(t);
    ToolCallsAreProjections(s);
    ToolCallsAreProjections(t);
    assert Assembled(s).toolCalls == Assembled(t).toolCalls;
  }

  /** Every delta carries the index of an earlier header. */
  ghost predicate Routed(s: seq<StreamPart>) {
    forall i :: 0 <= i < |s| && s[i].ToolCallPart? ==>
      s[i].index.Some? && LatestHeader(s[..i], s[i].index.value).Some?
  }

  /** No two calls share an index. */
  ghost predicate DistinctIndices(s: seq<StreamPart>) {
    forall a, b :: 0 <= a < b < |Headers(s)| && Headers(s)[a].streamIndex.Some? ==>
      Headers(s)[a].streamIndex != Headers(s)[b].streamIndex
  }

  function NonDeltas(s: seq<StreamPart>): seq<StreamPart>
    decreases |s|
  {
    if s == [] then [] else NonDeltas(Init(s)) + if Last(s).ToolCallPart? then [] else [Last(s)]
  }

  /** The texts of the deltas that carry index `k`. */
  function IndexDeltas(s: seq<StreamPart>, k: Index): seq<string>
    decreases |s|
  {
    if s == [] then []
    else IndexDeltas(Init(s), k) +
         if Last(s).ToolCallPart? && Last(s).index == Some(k) && Last(s).argsPart.Some?
         then [Last(s).argsPart.value] else []
  }

  lemma RoutedInit(s: seq<StreamPart>)
    requires s != [] && Routed(s)
    ensures Routed(Init(s))
    ensures Last(s).ToolCallPart? ==>
              Last(s).index.Some? && LatestHeader(Init(s), Last(s).index.value).Some?
  {
    hide LatestHeader;
    assert s[|s| - 1] == Last(s);
    forall i | 0 <= i < |Init(s)| && s[i].ToolCallPart?
      ensures s[i].index.Some? && LatestHeader(Init(s)[..i], s[i].index.value).Some?
    {
      assert Init(s)[..i] == s[..i];
    }
  }

  lemma DistinctInit(s: seq<StreamPart>)
    requires s != [] && DistinctIndices(s)
    ensures DistinctIndices(Init(s))
  {
    var h := Headers(Init(s));
    forall a, b | 0 <= a < b < |h| && h[a].streamIndex.Some?
      ensures h[a].streamIndex != h[b].streamIndex
    {
      assert h[a] == Headers(s)[a] && h[b] == Headers(s)[b];
    }
  }

  lemma {:induction false} RoutedStrip(s: seq<StreamPart>)
    requires Routed(s)
    ensures Strip(s) == NonDeltas(s)
    decreases |s|
  {
    hide LatestHeader, Headers, AfterHeader, Routed;
    if s != [] {
      RoutedInit(s);
      RoutedStrip(Init(s));
    }
  }

  lemma {:induction false} UnusedIndex(s: seq<StreamPart>, k: Index)
    requires Routed(s) && LatestHeader(s, k).None?
    ensures IndexDeltas(s, k) == []
    decreases |s|
  {
    hide Routed;
    if s != [] {
      RoutedInit(s);
      UnusedIndex(Init(s), k);
    }
  }

  /** With distinct indices, the deltas a call owns are those that carry its index. */
  lemma {:induction false} RoutedDeltas(s: seq<StreamPart>, k: Index)
    requires Routed(s) && DistinctIndices(s) && LatestHeader(s, k).Some?
    ensures Deltas(s, LatestHeader(s, k).value) == IndexDeltas(s, k)
    decreases |s|
  {
    hide Routed, DistinctIndices, AfterHeader;
    var o := LatestHeader(s, k).value;
    RoutedInit(s);
    DistinctInit(s);
    if Last(s).ToolCall? && Last(s).streamIndex == Some(k) {
      FutureDeltas(Init(s), o);
      if LatestHeader(Init(s), k).Some? {
        ClashingHeader(s, k);
      } else {
        UnusedIndex(Init(s), k);
      }
    } else {
      RoutedDeltas(Init(s), k);
    }
  }

  lemma ClashingHeader(s: seq<StreamPart>, k: Index)
    requires s != [] && Last(s).ToolCall? && Last(s).streamIndex == Some(k)
    requires LatestHeader(Init(s), k).Some?
    ensures !DistinctIndices(s)
  {
    var o := LatestHeader(Init(s), k).value;
    assert Headers(s)[o] == Headers(Init(s))[o];
    assert Headers(s)[|Headers(Init(s))|] == Last(s);
  }

  /** When every delta carries the index of an earlier header and no index is reused, any
      reordering that keeps each index's own deltas in order, and each delta after its header,
      gives the same message. */
  lemma ReorderingDeltas(s: seq<StreamPart>, t: seq<StreamPart>)
    requires Routed(s) && Routed(t) && DistinctIndices(s)
    requires NonDeltas(s) == NonDeltas(t)
    requires forall k :: IndexDeltas(s, k) == IndexDeltas(t, k)
    ensures Assembled(s) == Assembled(t)
  {
    hide Strip, Headers, Deltas, Assembled, Routed, LatestHeader, IndexDeltas;
    RoutedStrip(s);
    RoutedStrip(t);
    HeadersSurviveStrip(s);
    HeadersSurviveStrip(t);
    forall o | 0 <= o < |Headers(s)|
      ensures Deltas(s, o) == Deltas(t, o)
    {
      OwnedByIndex(s, o);
      OwnedByIndex(t, o);
    }
    MessageDependsOnProjections(s, t);
  }

  /** Call `o` owns the deltas of its index, or none when it has no index. */
  lemma OwnedByIndex(s: seq<StreamPart>, o: nat)
    requires Routed(s) && DistinctIndices(s) && o < |Headers(s)|
    ensures Deltas(s, o) == match Headers(s)[o].streamIndex
                            case Some(k) => IndexDeltas(s, k)
                            case None => []
  {
    hide Deltas, Routed, IndexDeltas;
    match Headers(s)[o].streamIndex {
      case Some(k) =>
        HeaderHasLatest(s, o, k);
        RoutedDeltas(s, k);
      case None =>
        UnindexedOwnsNothing(s, o);
    }
  }

  lemma {:induction false} HeaderHasLatest(s: seq<StreamPart>, o: nat, k: Index)
    requires DistinctIndices(s) && o < |Headers(s)| && Headers(s)[o].streamIndex == Some(k)
    ensures LatestHeader(s, k) == Some(o)
    decreases |s|
  {
    hide DistinctIndices;
    DistinctInit(s);
    if o < |Headers(Init(s))| {
      assert Headers(s)[o] == Headers(Init(s))[o];
      HeaderHasLatest(Init(s), o, k);
      if Last(s).ToolCall? && Last(s).streamIndex == Some(k) {
        ClashingHeader(s, k);
      }
    }
  }

  lemma {:induction false} UnindexedOwnsNothing(s: seq<StreamPart>, o: nat)
    requires Routed(s) && o < |Headers(s)| && Headers(s)[o].streamIndex.None?
    ensures Deltas(s, o) == []
    decreases |s|
  {
    hide Routed, AfterHeader;
    RoutedInit(s);
    if o < |Headers(Init(s))| {
      assert Headers(s)[o] == Headers(Init(s))[o];
      UnindexedOwnsNothing(Init(s), o);
    } else {
      FutureDeltas(Init(s), o);
    }
  }

  // ---- The empty and the think-only response ------------------------------------------------

  /** Which of the kinds the final checks look for occur in a list of parts. */
  datatype Kinds = Kinds(content: bool, think: bool, ink: bool) {
    function Or(k: Kinds): Kinds { Kinds(content || k.content, think || k.think, ink || k.ink) }
  }

  ghost function KindOf(p: StreamPart): Kinds {
    Kinds(IsContentPart(p), p.Think?, p.Text? && HasInk(p.text))
  }

  ghost function Summary(s: seq<StreamPart>): Kinds
    decreases |s|
  {
    if s == [] then Kinds(false, false, false) else Summary(Init(s)).Or(KindOf(Last(s)))
  }

  lemma {:induction false} SummaryMeans(s: seq<StreamPart>)
    ensures Summary(s).content <==> exists p :: p in s && IsContentPart(p)
    ensures Summary(s).think <==> exists p :: p in s && p.Think?
    ensures Summary(s).ink <==> exists p :: p in s && p.Text? && HasInk(p.text)
    decreases |s|
  {
    hide IsContentPart, HasInk;
    if s != [] {
      SummaryMeans(Init(s));
      assert s == Init(s) + [Last(s)];
      assert forall p :: p in s <==> p in Init(s) || p == Last(s);
    }
  }

  lemma SummarySnoc(s: seq<StreamPart>, p: StreamPart)
    ensures Summary(s + [p]) == Summary(s).Or(KindOf(p))
  {
    assert Init(s + [p]) == s;
  }

  lemma InkConcat(a: string, b: string)
    ensures HasInk(a + b) <==> HasInk(a) || HasInk(b)
  {
    hide IsBlank;
    if i :| 0 <= i < |a| && !IsBlank(a[i]) {
      assert (a + b)[i] == a[i];
    }
    if i :| 0 <= i < |b| && !IsBlank(b[i]) {
      assert (a + b)[|a| + i] == b[i];
    }
  }

  lemma MergedKind(a: StreamPart, b: StreamPart)
    requires CanMerge(a, b)
    ensures KindOf(Merged(a, b)) == KindOf(a).Or(KindOf(b))
  {
    hide HasInk;
    if a.Text? {
      InkConcat(a.text, b.text);
    }
  }

  lemma StepSummary(st: State, p: StreamPart)
    requires st.Valid()
    ensures Summary(Step(st, p).content + Pending(Step(st, p)))
         == Summary(st.content + Pending(st)).Or(KindOf(p))
  {
    hide Summary, HasInk, Merged;
    var c := st.content;
    if IsRouted(st, p) {
    } else if st.pending.None? {
      assert c + Pending(st) == c;
      SummarySnoc(c, p);
    } else if CanMerge(st.pending.value, p) {
      SummarySnoc(c, st.pending.value);
      SummarySnoc(c, Merged(st.pending.value, p));
      MergedKind(st.pending.value, p);
    } else {
      SummarySnoc(c, st.pending.value);
      SummarySnoc(c, p);
      SummarySnoc(c + [st.pending.value], p);
    }
  }

  lemma {:induction false} RunSummary(s: seq<StreamPart>)
    ensures Summary(Run(s).content + Pending(Run(s))) == Summary(s)
    decreases |s|
  {
    hide KindOf, Step;
    if s != [] {
      RunSummary(Init(s));
      StepSummary(Run(Init(s)), Last(s));
    } else {
      assert Run(s).content + Pending(Run(s)) == s;
    }
  }

  lemma AssembledSummary(s: seq<StreamPart>)
    ensures Summary(Assembled(s).content) == Summary(s)
  {
    hide Summary, HasInk, Run;
    RunSummary(s);
    var st := Run(s);
    if st.pending.None? {
      assert st.content + Pending(st) == st.content;
    } else {
      SummarySnoc(st.content, st.pending.value);
    }
  }

  lemma {:induction false} HeadersEmpty(s: seq<StreamPart>)
    ensures Headers(s) == [] <==> forall p :: p in s ==> !p.ToolCall?
    decreases |s|
  {
    if s != [] {
      HeadersEmpty(Init(s));
      assert s == Init(s) + [Last(s)];
      assert forall p :: p in s <==> p in Init(s) || p == Last(s);
    }
  }

  /** The message has nothing but content parts in its content. */
  lemma {:induction false} RunContentParts(s: seq<StreamPart>)
    ensures forall p :: p in Run(s).content ==> IsContentPart(p)
    decreases |s|
  {
    if s != [] {
      RunContentParts(Init(s));
    }
  }

  lemma ContentEmpty(s: seq<StreamPart>)
    ensures Assembled(s).content == [] <==> !Summary(s).content
  {
    hide Summary, Run;
    AssembledSummary(s);
    RunContentParts(s);
    var c := Assembled(s).content;
    SummaryMeans(c);
    if c != [] {
      assert c[0] in c && IsContentPart(c[0]);
    }
  }

  /** The response is rejected as empty exactly when the stream held nothing but orphan deltas,
      and as think-only exactly when it held thinking, no call, and only blank text. */
  lemma VerdictOfStream(s: seq<StreamPart>)
    ensures Verdict(Assembled(s)).EmptyResponse? <==> forall p :: p in s ==> p.ToolCallPart?
    ensures Verdict(Assembled(s)).ThinkOnlyResponse? <==>
            (forall p :: p in s ==> !p.ToolCall?) && (exists p :: p in s && p.Think?)
            && !exists p :: p in s && p.Text? && HasInk(p.text)
  {
    hide Summary, Run, Headers, HasInk, Assembled, Projection;
    ContentEmpty(s);
    AssembledSummary(s);
    SummaryMeans(s);
    SummaryMeans(Assembled(s).content);
    HeadersEmpty(s);
    ToolCallsAreProjections(s);
    assert Assembled(s).toolCalls == [] <==> Headers(s) == [];
    assert (exists p :: p in s && p.Think?) ==> Summary(s).think;
    ThinkIsContent(s);
  }

  lemma ThinkIsContent(s: seq<StreamPart>)
    ensures Summary(s).think ==> Summary(s).content
  {
    SummaryMeans(s);
  }
}
