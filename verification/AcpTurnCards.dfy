/** When a client whose connection may fail can be sent updates of a card it does not have, during a
    live turn. Pushes are not awaited, and a card is noted down as created before its push is known
    to have succeeded. */
module AcpTurnCards {
  import opened Wrappers
  import opened AcpWire
  import opened AcpTurn
  import opened AcpTurnSafety
  import opened AcpTurnTexts

  // ---- How long the listener stays subscribed -----------------------------------------------

  /** A turn of the main agent starts, other than the one that was active before the prompt. */
  predicate IsOwnStart(active: Option<int>, input: Input) {
    input.Arrives? && input.event.body.TurnStarted? && IsFromMainAgent(input.event)
    && active != Some(input.event.body.turnId)
  }

  ghost predicate OwnStarted(active: Option<int>, inputs: seq<Input>) {
    exists k :: 0 <= k < |inputs| && IsOwnStart(active, inputs[k])
  }

  /** The kick-off fails, the main agent's turn ends, or it reports being busy before a turn of the
      prompt's own has started. */
  predicate Settles(input: Input, ownStarted: bool) {
    match input
    case KickFails(_) => true
    case Arrives(e) =>
      (e.agentId.None? || e.agentId.value == "main")
      && (e.body.TurnEnded? || (e.body == ErrorEvent("turn.agent_busy") && !ownStarted))
  }

  /** Nothing has settled the prompt yet. */
  ghost predicate Open(active: Option<int>, inputs: seq<Input>) {
    forall k :: 0 <= k < |inputs| ==> !Settles(inputs[k], OwnStarted(active, inputs[..k]))
  }

  lemma OwnStartedSnoc(active: Option<int>, inputs: seq<Input>)
    requires inputs != []
    ensures OwnStarted(active, inputs)
       <==> OwnStarted(active, Init(inputs)) || IsOwnStart(active, Last(inputs))
  {
    var n := |inputs| - 1;
    if k :| 0 <= k < n && IsOwnStart(active, inputs[k]) {
      assert inputs[..n][k] == inputs[k];
    }
  }

  lemma OpenSnoc(active: Option<int>, inputs: seq<Input>)
    requires inputs != []
    ensures Open(active, inputs) <==> Open(active, Init(inputs))
                                      && !Settles(Last(inputs), OwnStarted(active, Init(inputs)))
  {
    hide OwnStarted, Settles;
    var n := |inputs| - 1;
    assert forall k :: 0 <= k < n ==> inputs[..n][k] == inputs[k]
                                      && inputs[..n][..k] == inputs[..k];
  }

  lemma StepOpen(st: State, input: Input, active: Option<int>)
    requires st.subscribed && !st.settled
    ensures var st' := Step(st, input, active);
            && (st'.subscribed <==> !Settles(input, st.ownTurnStarted))
            && (st'.subscribed ==> !st'.settled)
            && (st'.ownTurnStarted <==> st.ownTurnStarted || IsOwnStart(active, input))
  {
    hide OnStarted, OnDelta, AcpToolCallId, ToolResultContent, StopReasonOf, IsAuthErrorCode;
    if input.Arrives? {
      var observed := Observe(st, input.event, active);
      match input.event.body
      case Started(s) => StartedAlike(observed, s);
      case Delta(d) => DeltaAlike(observed, d);
      case _ =>
    }
  }

  /** The listener is subscribed exactly until the first input that settles the prompt. */
  lemma {:induction false} SubscribedIff(active: Option<int>, inputs: seq<Input>)
    ensures Run(active, inputs).subscribed <==> Open(active, inputs)
    ensures Open(active, inputs) ==>
              !Run(active, inputs).settled
              && (Run(active, inputs).ownTurnStarted <==> OwnStarted(active, inputs))
    decreases |inputs|
  {
    hide Step, OwnStarted, Open, Settles, IsOwnStart;
    if inputs == [] {
      NothingSettled(active);
    } else {
      var st := Run(active, Init(inputs));
      SubscribedIff(active, Init(inputs));
      OwnStartedSnoc(active, inputs);
      OpenSnoc(active, inputs);
      if st.subscribed {
        StepOpen(st, Last(inputs), active);
      } else {
        UnsubscribedStays(st, Last(inputs), active);
      }
    }
  }

  lemma NothingSettled(active: Option<int>)
    ensures Open(active, []) && !OwnStarted(active, [])
  {}

  lemma UnsubscribedStays(st: State, input: Input, active: Option<int>)
    requires !st.subscribed
    ensures !Step(st, input, active).subscribed
  {}

  // ---- Which inputs change a card -----------------------------------------------------------

  /** The call on whose card an event of the main agent has something to show. */
  function Concerns(input: Input): Option<(int, string)> {
    if input.Arrives? && IsFromMainAgent(input.event) then
      match input.event.body
      case Progress(t, c, isStatus, text) => if isStatus && text != "" then Some((t, c)) else None
      case Result(t, c, _, _) => Some((t, c))
      case _ => CallOf(input)
    else None
  }

  /** A delta or start of a call that has had one before, or a result or progress report. */
  ghost predicate Changes(inputs: seq<Input>, input: Input) {
    Concerns(input).Some? && (CallOf(input).Some? ==> Announced(inputs, Concerns(input).value))
  }

  /** A result or progress report for a call that no delta or start has announced. */
  ghost predicate Orphan(inputs: seq<Input>, input: Input) {
    Concerns(input).Some? && CallOf(input).None? && !Announced(inputs, Concerns(input).value)
  }

  /** The input at `k` finds the prompt open and changes a card. */
  ghost predicate ChangesAt(active: Option<int>, inputs: seq<Input>, k: nat) {
    k < |inputs| && Open(active, inputs[..k]) && Changes(inputs[..k], inputs[k])
  }

  ghost predicate OrphanAt(active: Option<int>, inputs: seq<Input>, k: nat) {
    k < |inputs| && Open(active, inputs[..k]) && Orphan(inputs[..k], inputs[k])
  }

  function CardId(call: (int, string)): string { AcpToolCallId(call.0, call.1) }

  /** `after` continues `before` with one update of the given card, or with none of any card. */
  ghost predicate Sends(before: seq<Update>, after: seq<Update>, card: Option<string>) {
    var n := |before|;
    && before <= after
    && (forall j :: n < j < |after| ==> !NeedsCard(after[j]))
    && (n < |after| && NeedsCard(after[n]) <==> card.Some?)
    && (card.Some? ==> after[n].id == card.value)
  }

  function CardChanged(st: State, input: Input): Option<string> {
    if st.subscribed && Concerns(input).Some?
       && (CallOf(input).Some? ==> CardId(Concerns(input).value) in st.started)
    then Some(CardId(Concerns(input).value)) else None
  }

  lemma StartedSends(st: State, e: ToolStarted)
    ensures var id := AcpToolCallId(e.turnId, e.callId);
            Sends(st.wire, OnStarted(st, e).wire, if id in st.started then Some(id) else None)
  {
    hide AcpToolCallId, InferToolKind, CardContent;
  }

  lemma DeltaSends(st: State, e: ToolDelta)
    ensures var id := AcpToolCallId(e.turnId, e.callId);
            Sends(st.wire, OnDelta(st, e).wire, if id in st.started then Some(id) else None)
  {
    hide AcpToolCallId, InferToolKind;
  }

  lemma DispatchSends(st: State, e: Event)
    requires st.subscribed
    ensures Sends(st.wire, Dispatch(st, e).wire, CardChanged(st, Arrives(e)))
  {
    hide OnStarted, OnDelta, AcpToolCallId, ToolResultContent, StopReasonOf, IsAuthErrorCode;
    match e.body
    case Started(s) => StartedSends(st, s);
    case Delta(d) => DeltaSends(st, d);
    case _ =>
  }

  lemma StepSends(st: State, input: Input, active: Option<int>)
    ensures Sends(st.wire, Step(st, input, active).wire, CardChanged(st, input))
  {
    assert input.KickFails? ==> Concerns(input).None?;
    hide Dispatch, Concerns, CallOf;
    if input.Arrives? && st.subscribed {
      DispatchSends(Observe(st, input.event, active), input.event);
    }
  }

  lemma {:induction false} RunGrows(active: Option<int>, inputs: seq<Input>, k: nat)
    requires k <= |inputs|
    ensures Run(active, inputs[..k]).wire <= Run(active, inputs).wire
    decreases |inputs|
  {
    hide Step;
    if k == |inputs| {
      assert inputs[..k] == inputs;
    } else {
      assert Init(inputs)[..k] == inputs[..k];
      RunGrows(active, Init(inputs), k);
      StepSends(Run(active, Init(inputs)), Last(inputs), active);
    }
  }

  /** While the prompt is open, a call's card is among those noted down if it was announced. */
  lemma StartedIffAnnounced(active: Option<int>, inputs: seq<Input>, call: (int, string))
    requires Open(active, inputs)
    ensures Run(active, inputs).subscribed
    ensures CardId(call) in Run(active, inputs).started <==> Announced(inputs, call)
    ensures Created(Run(active, inputs).wire, CardId(call)) <==> Announced(inputs, call)
  {
    hide AcpToolCallId, Open, Created, Announced;
    SubscribedIff(active, inputs);
    RunConsistent(active, inputs);
    ConsistentMeans(Run(active, inputs));
    CardsAreAnnounced(active, inputs, call);
  }

  lemma RunSnoc(active: Option<int>, inputs: seq<Input>, k: nat)
    requires k < |inputs|
    ensures Run(active, inputs[..k + 1]) == Step(Run(active, inputs[..k]), inputs[k], active)
  {
    hide Step;
    assert inputs[..k + 1][..k] == inputs[..k];
  }

  /** An input that changes a card sends an update of that card there and then. */
  lemma ChangeIsSent(active: Option<int>, inputs: seq<Input>, k: nat)
    requires ChangesAt(active, inputs, k)
    ensures var n, wire := |Run(active, inputs[..k]).wire|, Run(active, inputs).wire;
            && n < |wire| && wire[..n] == Run(active, inputs[..k]).wire
            && NeedsCard(wire[n]) && wire[n].id == CardId(Concerns(inputs[k]).value)
  {
    var st := Run(active, inputs[..k]);
    StartedIffAnnounced(active, inputs[..k], Concerns(inputs[k]).value);
    hide Step, AcpToolCallId, Open, Announced, NeedsCard;
    StepSends(st, inputs[k], active);
    RunSnoc(active, inputs, k);
    RunGrows(active, inputs, k + 1);
  }

  /** And every update of a card on the wire comes from such an input. */
  lemma {:induction false} SentByChange(active: Option<int>, inputs: seq<Input>, j: nat)
    returns (k: nat)
    requires j < |Run(active, inputs).wire| && NeedsCard(Run(active, inputs).wire[j])
    ensures k < |inputs| && ChangesAt(active, inputs, k)
    ensures |Run(active, inputs[..k]).wire| == j
    decreases |inputs|
  {
    hide Step, AcpToolCallId, Open, Announced, NeedsCard, Concerns;
    k := |inputs| - 1;
    var before := Run(active, inputs[..k]);
    StepSends(before, inputs[k], active);
    if j < |before.wire| {
      var was := k;
      k := SentByChange(active, inputs[..was], j);
      assert inputs[..was][..k] == inputs[..k];
    } else {
      SubscribedIff(active, inputs[..k]);
      StartedIffAnnounced(active, inputs[..k], Concerns(inputs[k]).value);
    }
  }

  // ---- What a client can be missing ---------------------------------------------------------

  lemma CardBefore(wire: seq<Update>, j: nat) returns (i: nat)
    requires j < |wire| && NeedsCard(wire[j]) && Created(wire[..j], wire[j].id)
    ensures i < j && wire[i].Create? && wire[i].id == wire[j].id
  {
    i :| 0 <= i < |wire[..j]| && wire[..j][i].Create? && wire[..j][i].id == wire[j].id;
    assert wire[..j][i] == wire[i];
  }

  /** A change of a card: if the push that created it is the only one to fail, or if nothing has
      created it, the client is sent an update of a card it does not have. */
  lemma OneFailureIsEnough(active: Option<int>, inputs: seq<Input>, k: nat) returns (p: nat)
    requires ChangesAt(active, inputs, k)
    ensures !ClientHasCards(Run(active, inputs).wire, FailAt(p))
  {
    var wire, j := Run(active, inputs).wire, |Run(active, inputs[..k]).wire|;
    ChangeIsSent(active, inputs, k);
    CreateBeforeUpdate(active, inputs);
    hide Run, ChangesAt;
    if Created(wire[..j], wire[j].id) {
      p := CardBefore(wire, j);
      assert !HasCard(wire, FailAt(p), j);
    } else {
      p := |wire|;
      NoCardBefore(wire, FailAt(p), j);
    }
  }

  lemma NoCardBefore(wire: seq<Update>, fails: Faults, j: nat)
    requires j < |wire| && NeedsCard(wire[j]) && !Created(wire[..j], wire[j].id)
    ensures !HasCard(wire, fails, j)
  {
    assert forall i :: 0 <= i < j ==> wire[..j][i] == wire[i];
  }

  /** Whatever pushes fail, every update of a card that reaches the client finds a card that
      reached it, if and only if no input changes a card while the prompt is open. */
  lemma ClientHasCardsIff(active: Option<int>, inputs: seq<Input>)
    ensures (forall fails: Faults :: ClientHasCards(Run(active, inputs).wire, fails))
       <==> forall k :: 0 <= k < |inputs| ==> !ChangesAt(active, inputs, k)
  {
    var wire := Run(active, inputs).wire;
    hide Run, ChangesAt;
    if k :| 0 <= k < |inputs| && ChangesAt(active, inputs, k) {
      var p := OneFailureIsEnough(active, inputs, k);
    } else {
      forall j | 0 <= j < |wire|
        ensures !NeedsCard(wire[j])
      {
        if NeedsCard(wire[j]) {
          var k := SentByChange(active, inputs, j);
        }
      }
    }
  }

  /** As long as no card is lost, every delta and upgrade that reaches the client finds its card,
      and so does everything else if no orphan arrives. */
  lemma LandedCardsSuffice(active: Option<int>, inputs: seq<Input>, fails: Faults)
    requires CardsLand(Run(active, inputs).wire, fails)
    ensures var wire := Run(active, inputs).wire;
            forall j :: 0 <= j < |wire| && (wire[j].DeltaUpdate? || wire[j].UpgradeUpdate?) ==>
              HasCard(wire, fails, j)
    ensures (forall k :: 0 <= k < |inputs| ==> !OrphanAt(active, inputs, k)) ==>
              ClientHasCards(Run(active, inputs).wire, fails)
  {
    var wire := Run(active, inputs).wire;
    CreateBeforeUpdate(active, inputs);
    hide Run, ChangesAt, OrphanAt, NeedsCard;
    if forall k :: 0 <= k < |inputs| ==> !OrphanAt(active, inputs, k) {
      forall j | 0 <= j < |wire| && NeedsCard(wire[j])
        ensures HasCard(wire, fails, j)
      {
        var k := SentByChange(active, inputs, j);
        ChangeHasCard(active, inputs, k);
        var i := CardBefore(wire, j);
      }
    }
  }

  lemma ChangeHasCard(active: Option<int>, inputs: seq<Input>, k: nat)
    requires ChangesAt(active, inputs, k)
    ensures var wire, j := Run(active, inputs).wire, |Run(active, inputs[..k]).wire|;
            j < |wire| && NeedsCard(wire[j])
            && (Created(wire[..j], wire[j].id) <==> !OrphanAt(active, inputs, k))
  {
    hide Run, AcpToolCallId, Open, Created, Announced, NeedsCard, Concerns;
    ChangeIsSent(active, inputs, k);
    StartedIffAnnounced(active, inputs[..k], Concerns(inputs[k]).value);
  }

  /** Over all patterns of failures that spare the cards: exactly the orphans matter. */
  lemma LandedCardsSufficeIff(active: Option<int>, inputs: seq<Input>)
    ensures (forall fails: Faults :: CardsLand(Run(active, inputs).wire, fails) ==>
               ClientHasCards(Run(active, inputs).wire, fails))
       <==> forall k :: 0 <= k < |inputs| ==> !OrphanAt(active, inputs, k)
  {
    var wire := Run(active, inputs).wire;
    if k :| 0 <= k < |inputs| && OrphanAt(active, inputs, k) {
      var none: Faults := FailAt(|wire|);
      ChangeHasCard(active, inputs, k);
      hide Run, OrphanAt, NeedsCard;
      NoCardBefore(wire, none, |Run(active, inputs[..k]).wire|);
      assert CardsLand(wire, none) && !ClientHasCards(wire, none);
    } else {
      forall fails: Faults | CardsLand(wire, fails)
        ensures ClientHasCards(wire, fails)
      {
        LandedCardsSuffice(active, inputs, fails);
      }
    }
  }

  /** Two deltas of one call, the first of them lost. */
  lemma LostCreateExample()
    ensures var inputs := [ExampleDelta(1, "a"), ExampleDelta(1, "b")];
            ChangesAt(None, inputs, 1) && !ClientHasCards(Run(None, inputs).wire, FailAt(0))
  {
    var d1, d2 := ExampleDelta(1, "a"), ExampleDelta(1, "b");
    var inputs := [d1, d2];
    assert inputs[..1] == [d1] && CallOf([d1][0]) == Some((1, "c"));
    assert Changes([d1], d2) && Open(None, [d1]);
    hide ClientHasCards, Run;
    TwoDeltas(d1, d2);
    SecondIsLost(Run(None, inputs).wire);
  }

  lemma TwoDeltas(d1: Input, d2: Input)
    requires d1 == ExampleDelta(1, "a") && d2 == ExampleDelta(1, "b")
    ensures |Run(None, [d1, d2]).wire| == 2 && Run(None, [d1, d2]).wire[1].DeltaUpdate?
  {
    hide AcpToolCallId, ToolCallLazyCreate;
    var id := AcpToolCallId(1, "c");
    assert Init([d1, d2]) == [d1] && Init([d1]) == [];
    assert Run(None, []) == Initial(None);
    var s1 := Step(Initial(None), d1, None);
    assert Run(None, [d1]) == s1 && s1.subscribed && id in s1.started;
    assert Run(None, [d1, d2]) == Step(s1, d2, None);
  }

  lemma SecondIsLost(wire: seq<Update>)
    requires |wire| == 2 && wire[1].DeltaUpdate?
    ensures !ClientHasCards(wire, FailAt(0))
  {
    assert !HasCard(wire, FailAt(0), 1);
  }

  /** A result, with nothing lost and nothing before it. */
  lemma OrphanExample()
    ensures var inputs := [Arrives(Event(None, Result(1, "c", false, None)))];
            OrphanAt(None, inputs, 0) && !ClientHasCards(Run(None, inputs).wire, FailAt(1))
  {
    hide AcpToolCallId;
    var result := Arrives(Event(None, Result(1, "c", false, None)));
    assert Init([result]) == [] && [result][..0] == [];
    assert Run(None, [result]) == Step(Initial(None), result, None);
    assert !HasCard(Run(None, [result]).wire, FailAt(1), 0);
  }
}
