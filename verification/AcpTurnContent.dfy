/** What the client of a live turn is sent, kind by kind, and how the prompt is answered: nothing of
    what the main agent says while the prompt is open is lost, reordered or sent as something else. */
module AcpTurnContent {
  import opened Wrappers
  import opened AcpWire
  import opened AcpTurn
  import opened AcpTurnSafety
  import opened AcpTurnCards

  // ---- Listening ----------------------------------------------------------------------------

  /** What `g` makes of an event, if it is the main agent's. */
  function Main<T>(e: Event, g: Body -> Option<T>): seq<T> {
    if e.agentId.None? || e.agentId.value == "main" then Listed(g(e.body)) else []
  }

  /** What `g` makes of the main agent's events that arrive while the prompt is open. */
  ghost function Heard<T>(active: Option<int>, inputs: seq<Input>, g: Body -> Option<T>): seq<T>
    decreases |inputs|
  {
    if inputs == [] then []
    else
      Heard(active, Init(inputs), g)
      + if Open(active, Init(inputs)) && Last(inputs).Arrives? then Main(Last(inputs).event, g)
        else []
  }

  // ---- What each kind of update is made of --------------------------------------------------

  function Said(b: Body): Option<string> { if b.AssistantDelta? then Some(b.text) else None }

  function Thought(b: Body): Option<string> { if b.ThinkingDelta? then Some(b.text) else None }

  /** The output, as one text if there is any. */
  function ResultOf(b: Body): Option<Outcome> {
    match b
    case Result(t, c, isError, output) =>
      Some(Outcome(AcpToolCallId(t, c), isError,
                   match output
                   case None => []
                   case Some(text) => if text == "" then [] else [TextContent(text)]))
    case _ => None
  }

  function TitleShown(u: Update): Option<(string, string)> {
    if u.ProgressUpdate? then Some((u.id, u.title)) else None
  }

  function StatusOf(b: Body): Option<(string, string)> {
    match b
    case Progress(t, c, isStatus, text) =>
      if isStatus && text != "" then Some((AcpToolCallId(t, c), text)) else None
    case _ => None
  }

  function PlanShown(u: Update): Option<seq<PlanEntry>> {
    if u.Plan? then Some(u.entries) else None
  }

  function PlanOf(b: Body): Option<seq<PlanEntry>> {
    if b.Started? && PlanFromDisplay(b.started.display) != []
    then Some(PlanFromDisplay(b.started.display)[0].entries) else None
  }

  function CardOf(b: Body): Option<Card> {
    match b
    case Started(s) =>
      var shown := match s.display
                   case Some(CardDisplay(body)) => [DisplayContent(body)]
                   case _ => [];
      Some(Card(AcpToolCallId(s.turnId, s.callId),
                if s.description.Some? then s.description.value else s.name,
                InferToolKind(s.name), shown + [TextContent(s.args)]))
    case _ => None
  }

  /** A card that is still being written, new or with more text. */
  function DraftShown(u: Update): Option<string> {
    if u.DeltaUpdate? || (u.Create? && u.status.Pending?) then Some(u.id) else None
  }

  function DraftOf(b: Body): Option<string> {
    if b.Delta? then Some(AcpToolCallId(b.delta.turnId, b.delta.callId)) else None
  }

  function Nothing(b: Body): Option<string> { None }

  // ---- Each event, by itself ----------------------------------------------------------------

  /** What an event adds to the wire. */
  function Sent(st: State, e: Event): seq<Update> {
    if !IsFromMainAgent(e) then []
    else
      match e.body
      case AssistantDelta(_, text) => [MessageChunk(text)]
      case ThinkingDelta(_, text) => [ThoughtChunk(text)]
      case Started(s) =>
        [if AcpToolCallId(s.turnId, s.callId) in st.started then ToolCallStartedUpgrade(s)
         else ToolCallStart(s)]
        + PlanFromDisplay(s.display)
      case Delta(d) =>
        var id := AcpToolCallId(d.turnId, d.callId);
        [if id in st.started then DeltaUpdate(id, NewText(st, Arrives(e)))
         else ToolCallLazyCreate(d)]
      case Progress(t, c, isStatus, text) =>
        if isStatus && text != "" then [ProgressUpdate(AcpToolCallId(t, c), text)] else []
      case Result(t, c, isError, output) =>
        [ResultUpdate(AcpToolCallId(t, c), if isError then Failed else Completed,
                      ToolResultContent(output))]
      case _ => []
  }

  lemma DispatchSent(st: State, e: Event)
    ensures Dispatch(st, e).wire == st.wire + Sent(st, e)
  {
    hide AcpToolCallId, ToolResultContent, StopReasonOf, IsAuthErrorCode, PlanFromDisplay,
         ToolCallStart, ToolCallStartedUpgrade, ToolCallLazyCreate;
    assert st.wire + [] == st.wire;
  }

  lemma KeptTwo<T>(u: Update, v: Update, f: Update -> Option<T>)
    ensures Kept([u] + [v], f) == Listed(f(u)) + Listed(f(v))
  {
    KeptConcat([u], [v], f);
    KeptOne(u, f);
    KeptOne(v, f);
  }

  /** An event sends one update at most, or a card and a plan. */
  lemma KeptShort<T>(sent: seq<Update>, f: Update -> Option<T>)
    requires |sent| <= 2
    ensures Kept(sent, f) == if sent == [] then []
                             else if |sent| == 1 then Listed(f(sent[0]))
                             else Listed(f(sent[0])) + Listed(f(sent[1]))
  {
    if |sent| == 1 {
      KeptOne(sent[0], f);
      assert sent == [sent[0]];
    } else if |sent| == 2 {
      KeptTwo(sent[0], sent[1], f);
      assert sent == [sent[0]] + [sent[1]];
    }
  }

  lemma SentIsShort(st: State, e: Event)
    ensures |Sent(st, e)| <= 2
  {
    hide AcpToolCallId, ToolResultContent, NewText, ToolCallStart, ToolCallStartedUpgrade,
         ToolCallLazyCreate;
  }

  /** In any state, `f` keeps of what an event sends what `g` makes of it. */
  ghost predicate Echoes<T>(f: Update -> Option<T>, g: Body -> Option<T>) {
    forall st: State, e: Event :: Kept(Sent(st, e), f) == Main(e, g)
  }

  lemma ObserveWire(st: State, e: Event, active: Option<int>)
    ensures Observe(st, e, active).wire == st.wire
  {}

  lemma {:induction false} KeptIsHeard<T>(active: Option<int>, inputs: seq<Input>,
                                          f: Update -> Option<T>, g: Body -> Option<T>)
    requires Echoes(f, g)
    ensures Kept(Run(active, inputs).wire, f) == Heard(active, inputs, g)
    decreases |inputs|
  {
    hide Dispatch, Sent, Open, Observe;
    if inputs != [] {
      var st := Run(active, Init(inputs));
      KeptIsHeard(active, Init(inputs), f, g);
      SubscribedIff(active, Init(inputs));
      if Last(inputs).Arrives? {
        var e := Last(inputs).event;
        var observed := Observe(st, e, active);
        ObserveWire(st, e, active);
        DispatchSent(observed, e);
        KeptConcat(st.wire, Sent(observed, e), f);
      }
    }
  }

  lemma MessageEcho(st: State, e: Event)
    ensures Kept(Sent(st, e), MessageText) == Main(e, Said)
  {
    hide Kept, AcpToolCallId, ToolResultContent, NewText;
    SentIsShort(st, e);
    KeptShort(Sent(st, e), MessageText);
  }

  lemma ThoughtEcho(st: State, e: Event)
    ensures Kept(Sent(st, e), ThoughtText) == Main(e, Thought)
  {
    hide Kept, AcpToolCallId, ToolResultContent, NewText;
    SentIsShort(st, e);
    KeptShort(Sent(st, e), ThoughtText);
  }

  lemma ResultEcho(st: State, e: Event)
    ensures Kept(Sent(st, e), ResultShown) == Main(e, ResultOf)
  {
    hide Kept, AcpToolCallId, NewText;
    SentIsShort(st, e);
    KeptShort(Sent(st, e), ResultShown);
  }

  lemma TitleEcho(st: State, e: Event)
    ensures Kept(Sent(st, e), TitleShown) == Main(e, StatusOf)
  {
    hide Kept, AcpToolCallId, ToolResultContent, NewText;
    SentIsShort(st, e);
    KeptShort(Sent(st, e), TitleShown);
  }

  lemma PlanEcho(st: State, e: Event)
    ensures Kept(Sent(st, e), PlanShown) == Main(e, PlanOf)
  {
    hide Kept, AcpToolCallId, ToolResultContent, NewText;
    SentIsShort(st, e);
    KeptShort(Sent(st, e), PlanShown);
  }

  lemma CardEcho(st: State, e: Event)
    ensures Kept(Sent(st, e), CardShown) == Main(e, CardOf)
  {
    hide Kept, AcpToolCallId, ToolResultContent, NewText, InferToolKind;
    SentIsShort(st, e);
    KeptShort(Sent(st, e), CardShown);
  }

  lemma DraftEcho(st: State, e: Event)
    ensures Kept(Sent(st, e), DraftShown) == Main(e, DraftOf)
  {
    hide Kept, AcpToolCallId, ToolResultContent, NewText, InferToolKind;
    SentIsShort(st, e);
    KeptShort(Sent(st, e), DraftShown);
  }

  lemma UserEcho(st: State, e: Event)
    ensures Kept(Sent(st, e), UserText) == Main(e, Nothing)
  {
    hide Kept, AcpToolCallId, ToolResultContent, NewText;
    SentIsShort(st, e);
    KeptShort(Sent(st, e), UserText);
  }

  // ---- All of it ----------------------------------------------------------------------------

  /** Kind by kind, and in order, the wire holds what the main agent brought while the prompt was
      open: texts as messages, thinking as thoughts, each result with its call, its status and its
      content, each status report as a title, each todo list as a plan, each start as a card in
      progress, each delta as a card being written; and nothing as the user's. */
  ghost predicate TellsAll(active: Option<int>, inputs: seq<Input>, wire: seq<Update>) {
    && Kept(wire, MessageText) == Heard(active, inputs, Said)
    && Kept(wire, ThoughtText) == Heard(active, inputs, Thought)
    && Kept(wire, ResultShown) == Heard(active, inputs, ResultOf)
    && Kept(wire, TitleShown) == Heard(active, inputs, StatusOf)
    && Kept(wire, PlanShown) == Heard(active, inputs, PlanOf)
    && Kept(wire, CardShown) == Heard(active, inputs, CardOf)
    && Kept(wire, DraftShown) == Heard(active, inputs, DraftOf)
    && Kept(wire, UserText) == []
  }

  lemma {:induction false} HeardNothing(active: Option<int>, inputs: seq<Input>)
    ensures Heard(active, inputs, Nothing) == []
    decreases |inputs|
  {
    hide Open;
    if inputs != [] {
      HeardNothing(active, Init(inputs));
    }
  }

  lemma AllEcho()
    ensures Echoes(MessageText, Said) && Echoes(ThoughtText, Thought)
    ensures Echoes(ResultShown, ResultOf) && Echoes(TitleShown, StatusOf)
    ensures Echoes(PlanShown, PlanOf) && Echoes(CardShown, CardOf)
    ensures Echoes(DraftShown, DraftOf) && Echoes(UserText, Nothing)
  {
    hide Kept, Sent, Main;
    forall st: State, e: Event
      ensures Kept(Sent(st, e), MessageText) == Main(e, Said)
      ensures Kept(Sent(st, e), ThoughtText) == Main(e, Thought)
      ensures Kept(Sent(st, e), ResultShown) == Main(e, ResultOf)
      ensures Kept(Sent(st, e), TitleShown) == Main(e, StatusOf)
      ensures Kept(Sent(st, e), PlanShown) == Main(e, PlanOf)
      ensures Kept(Sent(st, e), CardShown) == Main(e, CardOf)
      ensures Kept(Sent(st, e), DraftShown) == Main(e, DraftOf)
      ensures Kept(Sent(st, e), UserText) == Main(e, Nothing)
    {
      MessageEcho(st, e);
      ThoughtEcho(st, e);
      ResultEcho(st, e);
      TitleEcho(st, e);
      PlanEcho(st, e);
      CardEcho(st, e);
      DraftEcho(st, e);
      UserEcho(st, e);
    }
  }

  lemma WireTellsAll(active: Option<int>, inputs: seq<Input>)
    ensures TellsAll(active, inputs, Run(active, inputs).wire)
  {
    AllEcho();
    HeardNothing(active, inputs);
    hide Kept, Heard, Echoes, Run;
    KeptIsHeard(active, inputs, MessageText, Said);
    KeptIsHeard(active, inputs, ThoughtText, Thought);
    KeptIsHeard(active, inputs, ResultShown, ResultOf);
    KeptIsHeard(active, inputs, TitleShown, StatusOf);
    KeptIsHeard(active, inputs, PlanShown, PlanOf);
    KeptIsHeard(active, inputs, CardShown, CardOf);
    KeptIsHeard(active, inputs, DraftShown, DraftOf);
    KeptIsHeard(active, inputs, UserText, Nothing);
  }

  /** The first delta of a call makes its card: pending, under the name it brings or else as a tool,
      with the text it brings. */
  lemma FirstDeltaCard(active: Option<int>, inputs: seq<Input>, k: nat)
    requires k < |inputs| && Open(active, inputs[..k]) && inputs[k].Arrives?
    requires IsFromMainAgent(inputs[k].event) && inputs[k].event.body.Delta?
    requires !Announced(inputs[..k], CallOf(inputs[k]).value)
    ensures var d := inputs[k].event.body.delta;
            Run(active, inputs[..k + 1]).wire == Run(active, inputs[..k]).wire
              + [Create(AcpToolCallId(d.turnId, d.callId),
                        if d.name.Some? then d.name.value else "tool",
                        if d.name.Some? && d.name.value != "" then InferToolKind(d.name.value)
                        else OtherKind,
                        Pending,
                        [TextContent(if d.argsPart.Some? then d.argsPart.value else "")])]
  {
    hide AcpToolCallId, InferToolKind, Announced, Open;
    StartedIffAnnounced(active, inputs[..k], CallOf(inputs[k]).value);
    RunSnoc(active, inputs, k);
    hide Run;
  }

  /** The turn that the adapter takes for the current one. */
  function TurnSeen(active: Option<int>, inputs: seq<Input>): Option<int>
    decreases |inputs|
  {
    if inputs == [] then active
    else if Last(inputs).Arrives? && IsFromMainAgent(Last(inputs).event)
            && TurnOf(Last(inputs).event.body).Some?
    then TurnOf(Last(inputs).event.body)
    else TurnSeen(active, Init(inputs))
  }

  lemma StepTurn(st: State, input: Input, active: Option<int>)
    requires Step(st, input, active).subscribed
    ensures Step(st, input, active).currentTurnId
         == if input.Arrives? && IsFromMainAgent(input.event) && TurnOf(input.event.body).Some?
            then TurnOf(input.event.body) else st.currentTurnId
  {
    hide AcpToolCallId, ToolResultContent, PlanFromDisplay, TurnOf;
  }

  /** While the prompt is open, that is the turn of the main agent's last event with a turn, or the
      one that was active before. */
  lemma {:induction false} CurrentTurnIsSeen(active: Option<int>, inputs: seq<Input>)
    requires Open(active, inputs)
    ensures Run(active, inputs).currentTurnId == TurnSeen(active, inputs)
    decreases |inputs|
  {
    hide Step, Open;
    if inputs != [] {
      SubscribedIff(active, inputs);
      OpenSnoc(active, inputs);
      CurrentTurnIsSeen(active, Init(inputs));
      StepTurn(Run(active, Init(inputs)), Last(inputs), active);
    }
  }

  // ---- The answer ---------------------------------------------------------------------------

  /** What a settling input calls for: an authentication error wherever one is reported, a refusal
      for what a filter or a block has stopped, and the end of the turn for any other failure. */
  ghost predicate Answers(input: Input, how: Settlement) {
    match input
    case KickFails(authCode) => how == if authCode then RejectedAuth else RejectedInternal
    case Arrives(e) =>
      match e.body
      case TurnEnded(_, reason, code) =>
        (match reason
         case ReasonCompleted => how == Resolved(EndTurn)
         case ReasonCancelled => how == Resolved(Cancelled)
         case ReasonBlocked => how == Resolved(Refusal)
         case ReasonFailed =>
           if code in {Some("auth.login_required"), Some("provider.auth_error")}
           then how == RejectedAuth
           else how == Resolved(if code == Some("provider.filtered") then Refusal else EndTurn))
      case _ => how == RejectedBusy
  }

  /** The input at `k` is the one that settles the prompt. */
  ghost predicate SettledAt(active: Option<int>, inputs: seq<Input>, k: nat) {
    k < |inputs| && Open(active, inputs[..k])
    && Settles(inputs[k], OwnStarted(active, inputs[..k]))
  }

  /** The prompt has no answer as long as it is open, and then the one that the input which settled
      it calls for. */
  ghost predicate Answered(active: Option<int>, inputs: seq<Input>, answers: seq<Settlement>) {
    if Open(active, inputs) then answers == []
    else
      |answers| == 1
      && exists k :: 0 <= k < |inputs| && SettledAt(active, inputs, k)
                     && Answers(inputs[k], answers[0])
  }

  lemma StepAnswers(st: State, input: Input, active: Option<int>)
    requires st.subscribed && !st.settled
    ensures var st' := Step(st, input, active);
            if Settles(input, st.ownTurnStarted)
            then |st'.settlements| == |st.settlements| + 1
                 && st.settlements <= st'.settlements
                 && Answers(input, st'.settlements[|st.settlements|])
            else st'.settlements == st.settlements
  {
    hide OnStarted, OnDelta, AcpToolCallId, ToolResultContent;
    if input.Arrives? {
      var observed := Observe(st, input.event, active);
      match input.event.body
      case Started(s) => StartedSettles(observed, s);
      case Delta(d) => DeltaSettles(observed, d);
      case _ =>
    }
  }

  lemma StartedSettles(st: State, s: ToolStarted)
    ensures OnStarted(st, s).settlements == st.settlements
  {
    hide AcpToolCallId, PlanFromDisplay, ToolCallStart, ToolCallStartedUpgrade;
  }

  lemma DeltaSettles(st: State, d: ToolDelta)
    ensures OnDelta(st, d).settlements == st.settlements
  {
    hide AcpToolCallId, ToolCallLazyCreate;
  }

  lemma {:induction false} RunIsAnswered(active: Option<int>, inputs: seq<Input>)
    ensures Answered(active, inputs, Run(active, inputs).settlements)
    decreases |inputs|
  {
    hide Step, Open, Settles, OwnStarted, Answers;
    if inputs == [] {
      NothingSettled(active);
    } else {
      var n := |inputs| - 1;
      var before, st := inputs[..n], Run(active, inputs[..n]);
      RunIsAnswered(active, before);
      SubscribedIff(active, before);
      OpenSnoc(active, inputs);
      if Open(active, before) {
        StepAnswers(st, inputs[n], active);
        assert Settles(inputs[n], st.ownTurnStarted) ==> SettledAt(active, inputs, n);
      } else {
        var k :| 0 <= k < |before| && SettledAt(active, before, k)
                 && Answers(before[k], st.settlements[0]);
        assert before[..k] == inputs[..k] && SettledAt(active, inputs, k);
        RunConsistent(active, before);
        StepAfterSettling(st, inputs[n], active);
      }
    }
  }

  /** One prompt: all that its promise and its subscription ever see. */
  method RunTurnBody(active: Option<int>, inputs: seq<Input>)
    returns (wire: seq<Update>, settlements: seq<Settlement>)
    ensures wire == Run(active, inputs).wire && settlements == Run(active, inputs).settlements
    ensures TellsAll(active, inputs, wire) && Answered(active, inputs, settlements)
  {
    hide Dispatch, Observe, TellsAll, Answered;
    WireTellsAll(active, inputs);
    RunIsAnswered(active, inputs);
    var listener := new TurnListener(active);
    for i := 0 to |inputs|
      invariant fresh(listener) && listener.initialActiveTurnId == active
      invariant listener.Abs() == Run(active, inputs[..i])
    {
      assert inputs[..i + 1][..i] == inputs[..i];
      match inputs[i] {
        case Arrives(e) =>
          if listener.subscribed {
            listener.OnEvent(e);
          }
        case KickFails(auth) =>
          listener.OnKickFailed(auth);
      }
    }
    assert inputs[..|inputs|] == inputs;
    wire, settlements := listener.wire, listener.settlements;
  }
}
