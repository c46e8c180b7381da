/** What the turn listener promises its client, over every sequence of events. */
module AcpTurnSafety {
  import opened Wrappers
  import opened AcpWire
  import opened AcpTurn

  // ---- Create before update -----------------------------------------------------------------

  /** `u` may follow `before`: a card is created once, and changed by deltas and upgrades only
      after that. */
  ghost predicate Admissible(before: seq<Update>, u: Update) {
    && (u.Create? ==> !Created(before, u.id))
    && (u.DeltaUpdate? || u.UpgradeUpdate? ==> Created(before, u.id))
  }

  ghost predicate Orderly(wire: seq<Update>) {
    forall j :: 0 <= j < |wire| ==> Admissible(wire[..j], wire[j])
  }

  ghost predicate Consistent(st: State) {
    && Orderly(st.wire)
    && (st.subscribed ==> forall id :: id in st.started <==> Created(st.wire, id))
    && (st.subscribed <==> !st.settled)
    && |st.settlements| == if st.settled then 1 else 0
  }

  lemma OrderlySnoc(wire: seq<Update>, u: Update)
    requires Orderly(wire) && Admissible(wire, u)
    ensures Orderly(wire + [u])
  {
    var w := wire + [u];
    forall j | 0 <= j < |w|
      ensures Admissible(w[..j], w[j])
    {
      assert w[..j] == wire[..j];
      assert j == |wire| ==> wire[..j] == wire;
    }
  }

  /** Pushing one update that creates no card. */
  lemma PushPlain(st: State, u: Update)
    requires Consistent(st) && Admissible(st.wire, u) && !u.Create?
    ensures Consistent(Push(st, [u]))
  {
    hide Created, Orderly;
    OrderlySnoc(st.wire, u);
    forall id
      ensures Created(st.wire + [u], id) <==> Created(st.wire, id)
    {
      CreatedSnoc(st.wire, u, id);
    }
  }

  /** Pushing the card of a call not seen before. */
  lemma PushCreate(st: State, u: Update)
    requires Consistent(st) && st.subscribed && u.Create? && u.id !in st.started
    ensures Consistent(Push(st.(started := st.started + {u.id}), [u]))
  {
    hide Created, Orderly;
    OrderlySnoc(st.wire, u);
    forall id
      ensures Created(st.wire + [u], id) <==> id in st.started + {u.id}
    {
      CreatedSnoc(st.wire, u, id);
    }
  }

  lemma PushPlan(st: State, display: Option<Display>)
    requires Consistent(st)
    ensures Consistent(Push(st, PlanFromDisplay(display)))
  {
    hide Consistent;
    var plan := PlanFromDisplay(display);
    if plan == [] {
      assert st.wire + plan == st.wire;
    } else {
      assert Admissible(st.wire, plan[0]);
      PushPlain(st, plan[0]);
    }
  }

  lemma StartedConsistent(st: State, e: ToolStarted)
    requires Consistent(st) && st.subscribed
    ensures Consistent(OnStarted(st, e))
  {
    hide Created, Orderly, AcpToolCallId, PlanFromDisplay;
    var id := AcpToolCallId(e.turnId, e.callId);
    var st1 := st.(args := st.args[e.callId := e.args]);
    var u := if id in st.started then ToolCallStartedUpgrade(e) else ToolCallStart(e);
    if id in st.started {
      assert st.started + {id} == st.started;
      PushPlain(st1, u);
    } else {
      PushCreate(st1, u);
    }
    var st2 := Push(st1.(started := st.started + {id}), [u]);
    PushPlan(st2, e.display);
    assert st2.wire + PlanFromDisplay(e.display) == st.wire + ([u] + PlanFromDisplay(e.display));
  }

  lemma DeltaConsistent(st: State, e: ToolDelta)
    requires Consistent(st) && st.subscribed
    ensures Consistent(OnDelta(st, e))
  {
    hide Created, Orderly, AcpToolCallId;
    var id := AcpToolCallId(e.turnId, e.callId);
    var part := e.argsPart.GetOr("");
    if id !in st.started {
      PushCreate(st.(args := st.args[e.callId := part]), ToolCallLazyCreate(e));
    } else {
      var text := (if e.callId in st.args then st.args[e.callId] else "") + part;
      PushPlain(st.(args := st.args[e.callId := text]), DeltaUpdate(id, text));
    }
  }

  lemma StepConsistent(st: State, input: Input, active: Option<int>)
    requires Consistent(st)
    ensures Consistent(Step(st, input, active))
  {
    hide OnStarted, OnDelta, AcpToolCallId;
    match input
    case KickFails(_) =>
    case Arrives(e) =>
      if st.subscribed {
        var st1 := Observe(st, e, active);
        ObserveConsistent(st, e, active);
        hide Observe, Consistent;
        match e.body
        case AssistantDelta(_, text) => PushPlain(st1, MessageChunk(text));
        case ThinkingDelta(_, text) => PushPlain(st1, ThoughtChunk(text));
        case Started(s) => StartedConsistent(st1, s);
        case Delta(d) => DeltaConsistent(st1, d);
        case Progress(t, c, _, text) => PushPlain(st1, ProgressUpdate(AcpToolCallId(t, c), text));
        case Result(t, c, isError, output) =>
          PushPlain(st1, ResultUpdate(AcpToolCallId(t, c), if isError then Failed else Completed,
                                      ToolResultContent(output)));
        case TurnEnded(_, reason, code) =>
          SettleConsistent(st1, if reason.ReasonFailed? && IsAuthErrorCode(code) then RejectedAuth
                                else Resolved(StopReasonOf(reason, code)));
        case ErrorEvent(_) => SettleConsistent(st1, RejectedBusy);
        case _ =>
      }
  }

  lemma ObserveConsistent(st: State, e: Event, active: Option<int>)
    requires Consistent(st) && st.subscribed
    ensures Consistent(Observe(st, e, active)) && Observe(st, e, active).subscribed
    ensures !Observe(st, e, active).settled && Observe(st, e, active).wire == st.wire
    ensures Observe(st, e, active).started == st.started
    ensures Observe(st, e, active).args == st.args
  {
    hide Created, Orderly;
  }

  lemma SettleConsistent(st: State, how: Settlement)
    requires Consistent(st)
    ensures !st.settled ==> Consistent(Settle(st, how))
  {
    hide Created, Orderly;
  }

  lemma {:induction false} RunConsistent(active: Option<int>, inputs: seq<Input>)
    ensures Consistent(Run(active, inputs))
    decreases |inputs|
  {
    hide Step;
    if inputs == [] {
      InitialConsistent(active);
    } else {
      RunConsistent(active, inputs[..|inputs| - 1]);
      StepConsistent(Run(active, inputs[..|inputs| - 1]), inputs[|inputs| - 1], active);
    }
  }

  lemma InitialConsistent(active: Option<int>)
    ensures Consistent(Initial(active))
  {}

  /** Over every event sequence: each wire id is created at most once, and before every delta and
      upgrade of that id. */
  lemma CreateBeforeUpdate(active: Option<int>, inputs: seq<Input>)
    ensures var wire := Run(active, inputs).wire;
            && (forall i, j :: 0 <= i < j < |wire| && wire[i].Create? && wire[j].Create? ==>
                  wire[i].id != wire[j].id)
            && (forall j :: 0 <= j < |wire| && (wire[j].DeltaUpdate? || wire[j].UpgradeUpdate?) ==>
                  exists i :: 0 <= i < j && wire[i].Create? && wire[i].id == wire[j].id)
  {
    RunConsistent(active, inputs);
    var wire := Run(active, inputs).wire;
    hide Run;
    forall i, j | 0 <= i < j < |wire| && wire[i].Create? && wire[j].Create?
      ensures wire[i].id != wire[j].id
    {
      assert wire[..j][i] == wire[i];
      assert Admissible(wire[..j], wire[j]);
    }
    forall j | 0 <= j < |wire| && (wire[j].DeltaUpdate? || wire[j].UpgradeUpdate?)
      ensures exists i :: 0 <= i < j && wire[i].Create? && wire[i].id == wire[j].id
    {
      assert Admissible(wire[..j], wire[j]);
      var i :| 0 <= i < |wire[..j]| && wire[..j][i].Create? && wire[..j][i].id == wire[j].id;
      assert wire[i] == wire[..j][i];
    }
  }

  // ---- Results and progress -----------------------------------------------------------------

  /** The main agent's call that a delta or a start is about. */
  function CallOf(input: Input): Option<(int, string)> {
    if input.Arrives? && IsFromMainAgent(input.event) then
      match input.event.body
      case Started(s) => Some((s.turnId, s.callId))
      case Delta(d) => Some((d.turnId, d.callId))
      case _ => None
    else None
  }

  ghost predicate Announced(inputs: seq<Input>, call: (int, string)) {
    exists k :: 0 <= k < |inputs| && CallOf(inputs[k]) == Some(call)
  }

  lemma AnnouncedSnoc(inputs: seq<Input>, input: Input, call: (int, string))
    ensures Announced(inputs + [input], call) <==>
            Announced(inputs, call) || CallOf(input) == Some(call)
  {
    var s := inputs + [input];
    assert s[|inputs|] == input;
    if k :| 0 <= k < |inputs| && CallOf(inputs[k]) == Some(call) {
      assert s[k] == inputs[k];
    }
  }

  lemma StartedGrows(st: State, input: Input, active: Option<int>)
    requires Step(st, input, active).subscribed
    ensures st.subscribed
    ensures Step(st, input, active).started ==
            match CallOf(input)
            case None => st.started
            case Some(call) => st.started + {AcpToolCallId(call.0, call.1)}
  {
    hide AcpToolCallId, PlanFromDisplay;
    if input.Arrives? && input.event.body.Delta? {
      var id := AcpToolCallId(input.event.body.delta.turnId, input.event.body.delta.callId);
      assert id in st.started ==> st.started + {id} == st.started;
    }
  }

  /** While the turn runs, the cards on the wire are those of the calls announced so far. */
  lemma {:induction false} CardsAreAnnounced(active: Option<int>, inputs: seq<Input>,
                                             call: (int, string))
    requires Run(active, inputs).subscribed
    ensures Created(Run(active, inputs).wire, AcpToolCallId(call.0, call.1)) <==>
            Announced(inputs, call)
    decreases |inputs|
  {
    hide Step, AcpToolCallId, Created;
    RunConsistent(active, inputs);
    if inputs != [] {
      var before := Run(active, Init(inputs));
      StartedGrows(before, Last(inputs), active);
      CardsAreAnnounced(active, Init(inputs), call);
      RunConsistent(active, Init(inputs));
      assert inputs == Init(inputs) + [Last(inputs)];
      AnnouncedSnoc(Init(inputs), Last(inputs), call);
      if CallOf(Last(inputs)).Some? {
        var other := CallOf(Last(inputs)).value;
        WireIdInjective(call.0, call.1, other.0, other.1);
      }
    }
  }

  /** A result or progress update follows its card whenever a delta or a start came first. */
  lemma ResultsFollowCards(active: Option<int>, inputs: seq<Input>, e: Event)
    requires Run(active, inputs).subscribed && IsFromMainAgent(e)
    requires e.body.Result? || e.body.Progress?
    ensures var call := (e.body.turnId, e.body.callId);
            Announced(inputs, call) <==>
            Created(Run(active, inputs + [Arrives(e)]).wire, AcpToolCallId(call.0, call.1))
  {
    hide AcpToolCallId;
    var call := (e.body.turnId, e.body.callId);
    var later := inputs + [Arrives(e)];
    assert Init(later) == inputs;
    assert Run(active, later) == Step(Run(active, inputs), Arrives(e), active);
    CardsAreAnnounced(active, later, call);
    AnnouncedSnoc(inputs, Arrives(e), call);
  }

  // ---- Settling -----------------------------------------------------------------------------

  lemma StepAfterSettling(st: State, input: Input, active: Option<int>)
    requires st.settled && !st.subscribed
    ensures Step(st, input, active) == st
  {}

  /** The promise settles at most once, and nothing is sent after that. */
  lemma {:induction false} SettlesOnce(active: Option<int>, inputs: seq<Input>, more: seq<Input>)
    ensures |Run(active, inputs).settlements| <= 1
    ensures Run(active, inputs).settled ==> Run(active, inputs + more) == Run(active, inputs)
    decreases |more|
  {
    hide Step;
    RunConsistent(active, inputs);
    if more == [] {
      assert inputs + more == inputs;
    } else {
      assert Init(inputs + more) == inputs + Init(more);
      SettlesOnce(active, inputs, Init(more));
      if Run(active, inputs).settled {
        StepAfterSettling(Run(active, inputs), Last(more), active);
      }
    }
  }

  // ---- The text on the card -----------------------------------------------------------------

  /** What the card of a call should show: the arguments of its last start, or else of its first
      delta, and every delta since. None before the call is announced. */
  function CardText(inputs: seq<Input>, call: (int, string)): Option<string>
    decreases |inputs|
  {
    if inputs == [] then None
    else
      var before := CardText(Init(inputs), call);
      if CallOf(Last(inputs)) != Some(call) then before
      else match Last(inputs).event.body
           case Started(s) => Some(s.args)
           case Delta(d) => Some(before.GetOr("") + d.argsPart.GetOr(""))
  }

  /** The turn of the last delta or start that carried the SDK's id `callId`. */
  function LastTurn(inputs: seq<Input>, callId: string): Option<int>
    decreases |inputs|
  {
    if inputs == [] then None
    else if CallOf(Last(inputs)).Some? && CallOf(Last(inputs)).value.1 == callId
    then Some(CallOf(Last(inputs)).value.0)
    else LastTurn(Init(inputs), callId)
  }

  /** Turns may reuse a call id, but once one has, no delta comes for the earlier turn's call. */
  ghost predicate NoStaleDeltas(inputs: seq<Input>)
    decreases |inputs|
  {
    inputs == [] ||
    (&& NoStaleDeltas(Init(inputs))
     && (CallOf(Last(inputs)).Some? && Last(inputs).event.body.Delta? ==>
           var call := CallOf(Last(inputs)).value;
           CardText(Init(inputs), call).Some? ==> LastTurn(Init(inputs), call.1) == Some(call.0)))
  }

  lemma {:induction false} AnnouncedHasText(inputs: seq<Input>, call: (int, string))
    ensures CardText(inputs, call).Some? <==> Announced(inputs, call)
    decreases |inputs|
  {
    if inputs != [] {
      AnnouncedHasText(Init(inputs), call);
      assert inputs == Init(inputs) + [Last(inputs)];
      AnnouncedSnoc(Init(inputs), Last(inputs), call);
    }
  }

  /** The accumulator of a call id holds the text of the call that used the id last. */
  ghost predicate Accumulates(inputs: seq<Input>, st: State) {
    forall c: string :: HoldsLast(inputs, st.args, c)
  }

  ghost predicate HoldsLast(inputs: seq<Input>, args: map<string, string>, c: string) {
    LastTurn(inputs, c).Some? ==>
      c in args && CardText(inputs, (LastTurn(inputs, c).value, c)) == Some(args[c])
  }

  /** An input about another call id leaves the text of this one alone. */
  lemma OtherText(inputs: seq<Input>, args: map<string, string>, args': map<string, string>,
                  c: string)
    requires inputs != [] && (CallOf(Last(inputs)).Some? ==> CallOf(Last(inputs)).value.1 != c)
    requires HoldsLast(Init(inputs), args, c)
    requires c in args ==> c in args' && args'[c] == args[c]
    ensures HoldsLast(inputs, args', c)
  {}

  lemma OwnText(inputs: seq<Input>, args: map<string, string>, text: string)
    requires inputs != [] && CallOf(Last(inputs)).Some?
    requires CardText(inputs, CallOf(Last(inputs)).value) == Some(text)
    ensures HoldsLast(inputs, args[CallOf(Last(inputs)).value.1 := text],
                      CallOf(Last(inputs)).value.1)
  {}

  /** The text that a delta or start leaves in the accumulator of its call id. */
  function NewText(st: State, input: Input): string
    requires CallOf(input).Some?
  {
    var call := CallOf(input).value;
    match input.event.body
    case Started(s) => s.args
    case Delta(d) =>
      (if AcpToolCallId(call.0, call.1) in st.started && call.1 in st.args
       then st.args[call.1] else "") + d.argsPart.GetOr("")
  }

  lemma NewTextIsWhole(active: Option<int>, inputs: seq<Input>, input: Input)
    requires Run(active, inputs).subscribed && NoStaleDeltas(inputs + [input])
    requires Accumulates(inputs, Run(active, inputs)) && CallOf(input).Some?
    ensures CardText(inputs + [input], CallOf(input).value)
         == Some(NewText(Run(active, inputs), input))
  {
    var st, call := Run(active, inputs), CallOf(input).value;
    assert Init(inputs + [input]) == inputs && Last(inputs + [input]) == input;
    hide AcpToolCallId, Consistent, Created, Announced;
    RunConsistent(active, inputs);
    ConsistentMeans(st);
    CardsAreAnnounced(active, inputs, call);
    AnnouncedHasText(inputs, call);
    assert HoldsLast(inputs, st.args, call.1);
    hide Run, Accumulates;
  }

  lemma ArgsStep(active: Option<int>, inputs: seq<Input>)
    requires inputs != [] && Run(active, inputs).subscribed && NoStaleDeltas(inputs)
    requires Accumulates(Init(inputs), Run(active, Init(inputs)))
    ensures Accumulates(inputs, Run(active, inputs))
    ensures CallOf(Last(inputs)).Some? ==>
              var call := CallOf(Last(inputs)).value;
              && call.1 in Run(active, inputs).args
              && Some(Run(active, inputs).args[call.1]) == CardText(inputs, call)
  {
    hide AcpToolCallId, Observe, Created, Step, Consistent, NoStaleDeltas, NewText;
    var before, input := Run(active, Init(inputs)), Last(inputs);
    StartedGrows(before, input, active);
    if CallOf(input).Some? {
      var call := CallOf(input).value;
      ArgsSet(before, input, active);
      assert inputs == Init(inputs) + [input];
      NewTextIsWhole(active, Init(inputs), input);
      OwnText(inputs, before.args, NewText(before, input));
    } else {
      ArgsKept(before, input, active);
    }
    var after := Run(active, inputs).args;
    hide CardText, LastTurn, HoldsLast;
    forall c: string
      ensures HoldsLast(inputs, after, c)
    {
      if CallOf(input).None? || CallOf(input).value.1 != c {
        OtherText(inputs, before.args, after, c);
      }
    }
  }

  lemma ConsistentMeans(st: State)
    requires Consistent(st) && st.subscribed
    ensures forall id :: id in st.started <==> Created(st.wire, id)
  {}

  lemma ArgsSet(st: State, input: Input, active: Option<int>)
    requires st.subscribed && CallOf(input).Some?
    ensures Step(st, input, active).args
         == st.args[CallOf(input).value.1 := NewText(st, input)]
  {
    hide AcpToolCallId, PlanFromDisplay;
    match input.event.body
    case Started(_) =>
    case Delta(d) => assert "" + d.argsPart.GetOr("") == d.argsPart.GetOr("");
  }

  lemma ArgsKept(st: State, input: Input, active: Option<int>)
    requires CallOf(input).None? && Step(st, input, active).subscribed
    ensures Step(st, input, active).args == st.args
  {
    hide AcpToolCallId;
  }

  lemma {:induction false} RunAccumulates(active: Option<int>, inputs: seq<Input>)
    requires Run(active, inputs).subscribed && NoStaleDeltas(inputs)
    ensures Accumulates(inputs, Run(active, inputs))
    decreases |inputs|
  {
    hide Step, Accumulates;
    if inputs == [] {
      NothingAccumulated(active);
    } else {
      StartedGrows(Run(active, Init(inputs)), Last(inputs), active);
      RunAccumulates(active, Init(inputs));
      ArgsStep(active, inputs);
    }
  }

  lemma NothingAccumulated(active: Option<int>)
    ensures Accumulates([], Initial(active))
  {}

  /** The text an update puts on its card. */
  function ShownText(u: Update): string {
    match u
    case Create(_, _, _, _, content) =>
      if content != [] && content[|content| - 1].TextContent? then content[|content| - 1].text
      else ""
    case UpgradeUpdate(_, _, _, content) =>
      if content != [] && content[|content| - 1].TextContent? then content[|content| - 1].text
      else ""
    case DeltaUpdate(_, text) => text
    case _ => ""
  }

  /** Content is replaced, not appended, on the client, so every update has to carry all of it:
      each delta and start of a call shows the whole text of that call. */
  lemma CardsShowTheWholeText(active: Option<int>, inputs: seq<Input>, input: Input)
    requires Run(active, inputs + [input]).subscribed && NoStaleDeltas(inputs + [input])
    requires CallOf(input).Some?
    ensures var wire := Run(active, inputs + [input]).wire;
            var n := |Run(active, inputs).wire|;
            && n < |wire|
            && (wire[n].Create? || wire[n].UpgradeUpdate? || wire[n].DeltaUpdate?)
            && wire[n].id == AcpToolCallId(CallOf(input).value.0, CallOf(input).value.1)
            && Some(ShownText(wire[n])) == CardText(inputs + [input], CallOf(input).value)
  {
    hide AcpToolCallId, PlanFromDisplay, Created, Observe, Accumulates, NoStaleDeltas;
    var later := inputs + [input];
    assert Init(later) == inputs && Last(later) == input;
    StartedGrows(Run(active, inputs), input, active);
    StaleInit(later);
    RunAccumulates(active, inputs);
    ArgsStep(active, later);
    RunConsistent(active, inputs);
    ObserveConsistent(Run(active, inputs), input.event, active);
    PushedFirst(Run(active, inputs), input, active);
  }

  lemma StaleInit(inputs: seq<Input>)
    requires inputs != [] && NoStaleDeltas(inputs)
    ensures NoStaleDeltas(Init(inputs))
  {}

  /** The update for a delta or start shows what the accumulator then holds. */
  lemma PushedFirst(st: State, input: Input, active: Option<int>)
    requires st.subscribed && CallOf(input).Some? && Consistent(st)
    ensures var st' := Step(st, input, active);
            var call := CallOf(input).value;
            var n := |st.wire|;
            && n < |st'.wire| && call.1 in st'.args
            && (st'.wire[n].Create? || st'.wire[n].UpgradeUpdate? || st'.wire[n].DeltaUpdate?)
            && st'.wire[n].id == AcpToolCallId(call.0, call.1)
            && ShownText(st'.wire[n]) == st'.args[call.1]
  {
    hide AcpToolCallId, PlanFromDisplay, Created, Observe, Orderly;
    ObserveConsistent(st, input.event, active);
  }

  function ExampleDelta(t: int, part: string): Input {
    Arrives(Event(None, Delta(ToolDelta(t, "c", None, Some(part)))))
  }

  /** Why reuse matters: accumulators are keyed by the SDK's id alone, so a delta for the first
      turn's call after a second turn has used the id shows the second call's text. */
  lemma StaleDeltaExample()
    ensures var inputs := [ExampleDelta(1, "a"), ExampleDelta(2, "x"), ExampleDelta(1, "b")];
            && !NoStaleDeltas(inputs)
            && CardText(inputs, (1, "c")) == Some("ab")
            && Last(Run(None, inputs).wire) == DeltaUpdate(AcpToolCallId(1, "c"), "xb")
  {
    hide AcpToolCallId, ToolCallLazyCreate;
    var one := AcpToolCallId(1, "c");
    var d1, d2, d3 := ExampleDelta(1, "a"), ExampleDelta(2, "x"), ExampleDelta(1, "b");
    var inputs := [d1, d2, d3];
    assert Init(inputs) == [d1, d2] && Init([d1, d2]) == [d1] && Init([d1]) == [];
    assert "" + "a" == "a" && "" + "x" == "x" && "a" + "b" == "ab" && "x" + "b" == "xb";
    assert CardText([], (1, "c")) == None;
    assert CardText([d1], (1, "c")) == Some("a");
    assert CardText([d1, d2], (1, "c")) == Some("a");
    assert LastTurn([d1, d2], "c") == Some(2);
    WireIdInjective(1, "c", 2, "c");
    var s0, s1, s2 := Run(None, []), Run(None, [d1]), Run(None, [d1, d2]);
    assert s0 == Initial(None);
    assert s1 == Step(s0, d1, None) && s1.subscribed && one in s1.started;
    assert s2 == Step(s1, d2, None) && s2.subscribed && one in s2.started;
    assert "c" in s2.args && s2.args["c"] == "x";
    assert Run(None, inputs) == Step(s2, d3, None);
  }
}
