/** The whole of `generate` (packages/kosong/src/generate.ts): what comes out of a stream, said of the
    stream itself. */
module StreamGenerate {
  import opened Wrappers
  import opened StreamAssembly
  import opened StreamProjection
  import opened StreamContent

  /** Nothing but deltas: none of them can have an owner. */
  ghost predicate Bare(stream: seq<StreamPart>) { forall p :: p in stream ==> p.ToolCallPart? }

  /** Thinking, but no call and no text to be seen. */
  ghost predicate OnlyThinks(stream: seq<StreamPart>) {
    (forall p :: p in stream ==> !p.ToolCall?) && (exists p :: p in stream && p.Think?)
    && !exists p :: p in stream && p.Text? && HasInk(p.text)
  }

  /** The message has one call for each header, with the deltas that belong to it, and the maximal
      runs of everything else, joined. */
  ghost predicate Carries(m: Message, stream: seq<StreamPart>, runs: seq<seq<StreamPart>>) {
    && |m.toolCalls| == |Headers(stream)|
    && (forall o :: 0 <= o < |Headers(stream)| ==> m.toolCalls[o] == Projection(stream, o))
    && MaximalRuns(Strip(stream), runs)
    && m.content == OnlyContent(JoinAll(runs))
  }

  lemma OutcomeOfStream(stream: seq<StreamPart>) returns (runs: seq<seq<StreamPart>>)
    ensures var r := Verdict(Assembled(stream));
            && (r.EmptyResponse? <==> Bare(stream))
            && (r.ThinkOnlyResponse? <==> OnlyThinks(stream))
            && (r.Generated? ==> Carries(r.message, stream, runs))
  {
    hide Headers, Projection, Strip, OnlyContent, JoinAll, MaximalRuns, HasInk, Assembled;
    VerdictOfStream(stream);
    ToolCallsAreProjections(stream);
    runs := ContentIsMaximalRuns(stream);
  }

  /** Both rejections, and otherwise the message. */
  method Generate(stream: seq<StreamPart>) returns (r: Outcome)
    ensures r.EmptyResponse? <==> Bare(stream)
    ensures r.ThinkOnlyResponse? <==> OnlyThinks(stream)
    ensures r.Generated? ==> exists runs :: Carries(r.message, stream, runs)
  {
    hide Carries, Bare, OnlyThinks;
    ghost var runs := OutcomeOfStream(stream);
    var a := new Assembler();
    for i := 0 to |stream|
      invariant fresh(a) && (a.pending == null || fresh(a.pending))
      invariant a.Abs() == Run(stream[..i])
    {
      assert stream[..i + 1][..i] == stream[..i];
      a.Consume(stream[i]);
    }
    assert stream[..|stream|] == stream;
    if a.pending != null {
      a.FlushPart(a.pending.part);
    }
    r := Verdict(Message(a.content, a.toolCalls));
  }
}
