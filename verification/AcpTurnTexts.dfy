/** Exactly when the cards of a turn can be relied on to show whole argument texts. */
module AcpTurnTexts {
  import opened Wrappers
  import opened AcpWire
  import opened AcpTurn
  import opened AcpTurnSafety

  /** A delta or start shows, on its own card, all that its call has brought so far. */
  ghost predicate ShowsWhole(active: Option<int>, inputs: seq<Input>, input: Input) {
    CallOf(input).Some? ==>
      var wire, n := Run(active, inputs + [input]).wire, |Run(active, inputs).wire|;
      && n < |wire|
      && Some(ShownText(wire[n])) == CardText(inputs + [input], CallOf(input).value)
  }

  ghost predicate AlwaysWhole(active: Option<int>, inputs: seq<Input>)
    decreases |inputs|
  {
    inputs == [] || (AlwaysWhole(active, Init(inputs))
                     && ShowsWhole(active, Init(inputs), Last(inputs)))
  }

  // ---- Streams that differ in argument texts only -------------------------------------------

  function BodyWith(body: Body, text: string): Body {
    match body
    case Started(s) => Started(s.(args := text))
    case Delta(d) => Delta(d.(argsPart := Some(text)))
    case other => other
  }

  function WithText(input: Input, text: string): (r: Input)
    ensures CallOf(r) == CallOf(input)
  {
    match input
    case Arrives(e) =>
      if IsFromMainAgent(e) then Arrives(e.(body := BodyWith(e.body, text))) else input
    case KickFails(_) => input
  }

  ghost predicate SameShape(a: seq<Input>, b: seq<Input>) {
    |a| == |b| && forall i :: 0 <= i < |a| ==> WithText(a[i], "") == WithText(b[i], "")
  }

  lemma ShapeInit(a: seq<Input>, b: seq<Input>)
    requires SameShape(a, b) && a != []
    ensures SameShape(Init(a), Init(b)) && WithText(Last(a), "") == WithText(Last(b), "")
  {}

  lemma ShapeCall(a: Input, b: Input)
    requires WithText(a, "") == WithText(b, "")
    ensures CallOf(a) == CallOf(b)
    ensures CallOf(a).Some? ==> (a.event.body.Delta? <==> b.event.body.Delta?)
  {}

  lemma {:induction false} ShapeDecides(a: seq<Input>, b: seq<Input>)
    requires SameShape(a, b)
    ensures forall c :: LastTurn(a, c) == LastTurn(b, c)
    ensures forall call :: CardText(a, call).Some? <==> CardText(b, call).Some?
    ensures NoStaleDeltas(a) <==> NoStaleDeltas(b)
    decreases |a|
  {
    if a != [] {
      ShapeInit(a, b);
      ShapeCall(Last(a), Last(b));
      hide SameShape, WithText;
      ShapeDecides(Init(a), Init(b));
    }
  }

  ghost predicate Alike(s: State, t: State) {
    s.settled == t.settled && s.subscribed == t.subscribed && s.ownTurnStarted == t.ownTurnStarted
  }

  lemma StartedAlike(s: State, e: ToolStarted)
    ensures Alike(OnStarted(s, e), s)
  {
    hide AcpToolCallId, PlanFromDisplay, ToolCallStart, ToolCallStartedUpgrade;
  }

  lemma DeltaAlike(s: State, d: ToolDelta)
    ensures Alike(OnDelta(s, d), s)
  {
    hide AcpToolCallId, ToolCallLazyCreate;
  }

  lemma DispatchAlike(s: State, t: State, a: Event, b: Event)
    requires Alike(s, t) && WithText(Arrives(a), "") == WithText(Arrives(b), "")
    ensures Alike(Dispatch(s, a), Dispatch(t, b))
  {
    hide OnStarted, OnDelta, AcpToolCallId, StopReasonOf, IsAuthErrorCode, ToolResultContent;
    match a.body
    case Started(e) =>
      assert b.body.Started? && (IsFromMainAgent(a) <==> IsFromMainAgent(b));
      StartedAlike(s, e);
      StartedAlike(t, b.body.started);
    case Delta(d) =>
      assert b.body.Delta? && (IsFromMainAgent(a) <==> IsFromMainAgent(b));
      DeltaAlike(s, d);
      DeltaAlike(t, b.body.delta);
    case _ =>
  }

  lemma StepAlike(s: State, t: State, a: Input, b: Input, active: Option<int>)
    requires Alike(s, t) && WithText(a, "") == WithText(b, "")
    ensures Alike(Step(s, a, active), Step(t, b, active))
  {
    hide Dispatch;
    if a.Arrives? {
      DispatchAlike(Observe(s, a.event, active), Observe(t, b.event, active), a.event, b.event);
    }
  }

  lemma {:induction false} RunAlike(active: Option<int>, a: seq<Input>, b: seq<Input>)
    requires SameShape(a, b)
    ensures Alike(Run(active, a), Run(active, b))
    decreases |a|
  {
    if a != [] {
      ShapeInit(a, b);
      hide SameShape, WithText, Step;
      RunAlike(active, Init(a), Init(b));
      StepAlike(Run(active, Init(a)), Run(active, Init(b)), Last(a), Last(b), active);
    }
  }

  lemma SameSubscribed(active: Option<int>, a: seq<Input>, b: seq<Input>)
    requires SameShape(a, b)
    ensures Run(active, a).subscribed == Run(active, b).subscribed
  {
    RunAlike(active, a, b);
  }

  // ---- Sufficiency --------------------------------------------------------------------------

  lemma {:induction false} WholeUnlessStale(active: Option<int>, inputs: seq<Input>)
    requires Run(active, inputs).subscribed && NoStaleDeltas(inputs)
    ensures AlwaysWhole(active, inputs)
    decreases |inputs|
  {
    if inputs != [] {
      hide Step;
      StartedGrows(Run(active, Init(inputs)), Last(inputs), active);
      WholeUnlessStale(active, Init(inputs));
      assert inputs == Init(inputs) + [Last(inputs)];
      if CallOf(Last(inputs)).Some? {
        CardsShowTheWholeText(active, Init(inputs), Last(inputs));
      }
    }
  }

  // ---- Necessity ----------------------------------------------------------------------------

  /** The same event, with a text if it is about turn `u` and without one otherwise. */
  function Marked(input: Input, u: int): Input {
    WithText(input, if CallOf(input).Some? && CallOf(input).value.0 == u then "x" else "")
  }

  function MarkedAll(inputs: seq<Input>, u: int): (r: seq<Input>)
    ensures |r| == |inputs|
  {
    seq(|inputs|, i requires 0 <= i < |inputs| => Marked(inputs[i], u))
  }

  lemma MarkedShape(inputs: seq<Input>, u: int)
    ensures SameShape(MarkedAll(inputs, u), inputs)
  {}

  lemma MarkedSnoc(inputs: seq<Input>, input: Input, u: int)
    ensures MarkedAll(inputs + [input], u) == MarkedAll(inputs, u) + [Marked(input, u)]
  {}

  /** In the marked stream exactly the cards of turn `u` have a text to show. */
  lemma {:induction false} MarkedText(inputs: seq<Input>, u: int, call: (int, string))
    ensures var text := CardText(MarkedAll(inputs, u), call);
            text.Some? ==> (text.value == "" <==> call.0 != u)
    decreases |inputs|
  {
    if inputs != [] {
      assert inputs == Init(inputs) + [Last(inputs)];
      MarkedSnoc(Init(inputs), Last(inputs), u);
      MarkedText(Init(inputs), u, call);
      hide MarkedAll;
    }
  }

  lemma {:induction false} TurnHasText(inputs: seq<Input>, callId: string)
    requires LastTurn(inputs, callId).Some?
    ensures CardText(inputs, (LastTurn(inputs, callId).value, callId)).Some?
    decreases |inputs|
  {
    if CallOf(Last(inputs)).None? || CallOf(Last(inputs)).value.1 != callId {
      TurnHasText(Init(inputs), callId);
    }
  }

  lemma {:induction false} TextHasTurn(inputs: seq<Input>, call: (int, string))
    requires CardText(inputs, call).Some?
    ensures LastTurn(inputs, call.1).Some?
    decreases |inputs|
  {
    if CallOf(Last(inputs)) != Some(call) {
      TextHasTurn(Init(inputs), call);
    }
  }

  lemma MarkedDelta(input: Input, u: int)
    requires CallOf(input).Some? && input.event.body.Delta?
    ensures var r := Marked(input, u);
            && CallOf(r) == CallOf(input) && r.event.body.Delta?
            && (CallOf(input).value.0 != u ==> r.event.body.delta.argsPart == Some(""))
  {}

  lemma StaleShows(active: Option<int>, inputs: seq<Input>, input: Input, u: int)
    requires Run(active, inputs + [input]).subscribed && NoStaleDeltas(inputs)
    requires CallOf(input).Some? && input.event.body.Delta?
    requires input.event.body.delta.argsPart == Some("")
    requires var call := CallOf(input).value;
             && CardText(inputs, call) == Some("") && LastTurn(inputs, call.1) == Some(u)
             && CardText(inputs, (u, call.1)) != Some("")
    ensures !ShowsWhole(active, inputs, input)
  {
    var call := CallOf(input).value;
    var later := inputs + [input];
    assert Init(later) == inputs && Last(later) == input;
    var before := Run(active, inputs);
    hide Step, AcpToolCallId, NoStaleDeltas, Created, Announced;
    StartedGrows(before, input, active);
    RunAccumulates(active, inputs);
    RunConsistent(active, inputs);
    ConsistentMeans(before);
    AnnouncedHasText(inputs, call);
    CardsAreAnnounced(active, inputs, call);
    ArgsSet(before, input, active);
    PushedFirst(before, input, active);
    assert HoldsLast(inputs, before.args, call.1);
    hide Accumulates, Consistent, Run;
    assert NewText(before, input) == before.args[call.1] + "";
    assert "" + "" == "";
  }

  /** At the first stale delta, the marked stream puts another turn's text on the card. */
  lemma FirstStaleDelta(active: Option<int>, inputs: seq<Input>, input: Input, u: int)
    requires Run(active, inputs + [input]).subscribed && NoStaleDeltas(inputs)
    requires CallOf(input).Some? && input.event.body.Delta?
    requires var call := CallOf(input).value;
             && CardText(inputs, call).Some? && LastTurn(inputs, call.1) == Some(u) && u != call.0
    ensures SameShape(MarkedAll(inputs + [input], u), inputs + [input])
    ensures !ShowsWhole(active, MarkedAll(inputs, u), Marked(input, u))
  {
    hide *;
    var call := CallOf(input).value;
    var marked := MarkedAll(inputs, u);
    MarkedShape(inputs, u);
    MarkedShape(inputs + [input], u);
    MarkedSnoc(inputs, input, u);
    MarkedDelta(input, u);
    ShapeDecides(marked, inputs);
    SameSubscribed(active, marked + [Marked(input, u)], inputs + [input]);
    MarkedText(inputs, u, call);
    TurnHasText(inputs, call.1);
    MarkedText(inputs, u, (u, call.1));
    StaleShows(active, marked, Marked(input, u), u);
  }

  lemma SubscribedInit(active: Option<int>, inputs: seq<Input>)
    requires inputs != [] && Run(active, inputs).subscribed
    ensures Run(active, Init(inputs)).subscribed
  {
    hide Step;
    StartedGrows(Run(active, Init(inputs)), Last(inputs), active);
  }

  lemma StaleMeans(inputs: seq<Input>)
    requires inputs != [] && NoStaleDeltas(Init(inputs)) && !NoStaleDeltas(inputs)
    ensures CallOf(Last(inputs)).Some? && Last(inputs).event.body.Delta?
    ensures var call := CallOf(Last(inputs)).value;
            && CardText(Init(inputs), call).Some? && LastTurn(Init(inputs), call.1).Some?
            && LastTurn(Init(inputs), call.1) != Some(call.0)
  {
    TextHasTurn(Init(inputs), CallOf(Last(inputs)).value);
  }

  lemma NotWholeAtAll(active: Option<int>, inputs: seq<Input>, input: Input)
    requires !AlwaysWhole(active, inputs) || !ShowsWhole(active, inputs, input)
    ensures !AlwaysWhole(active, inputs + [input])
  {
    assert Init(inputs + [input]) == inputs;
    hide ShowsWhole;
  }

  lemma SameShapeSnoc(a: seq<Input>, b: seq<Input>, input: Input)
    requires SameShape(a, b)
    ensures SameShape(a + [input], b + [input])
  {}

  lemma {:induction false} StaleIsNotWhole(active: Option<int>, inputs: seq<Input>)
    returns (others: seq<Input>)
    requires inputs != [] && Run(active, inputs).subscribed && !NoStaleDeltas(inputs)
    ensures SameShape(others, inputs) && !AlwaysWhole(active, others)
    decreases |inputs|
  {
    var before, input := Init(inputs), Last(inputs);
    assert inputs == before + [input];
    assert !NoStaleDeltas(before) ==> before != [];
    hide *;
    if NoStaleDeltas(before) {
      StaleMeans(inputs);
      var u := LastTurn(before, CallOf(input).value.1).value;
      others := MarkedAll(inputs, u);
      FirstStaleDelta(active, before, input, u);
      MarkedSnoc(before, input, u);
      NotWholeAtAll(active, MarkedAll(before, u), Marked(input, u));
    } else {
      SubscribedInit(active, inputs);
      var first := StaleIsNotWhole(active, before);
      others := first + [input];
      SameShapeSnoc(first, before, input);
      NotWholeAtAll(active, first, input);
    }
  }

  /** Whatever texts the events of a turn carry, every delta and start shows the whole text of its
      call, if and only if no delta comes for a call whose id a later turn has used since. */
  lemma WholeTextsIff(active: Option<int>, inputs: seq<Input>)
    requires Run(active, inputs).subscribed
    ensures (forall others :: SameShape(others, inputs) ==> AlwaysWhole(active, others))
       <==> NoStaleDeltas(inputs)
  {
    if NoStaleDeltas(inputs) {
      forall others | SameShape(others, inputs)
        ensures AlwaysWhole(active, others)
      {
        RunAlike(active, others, inputs);
        ShapeDecides(others, inputs);
        WholeUnlessStale(active, others);
      }
    } else {
      var others := StaleIsNotWhole(active, inputs);
    }
  }
}
