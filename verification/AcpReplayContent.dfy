/** The conversation that a replay shows: what every message of the stored history conveys, and what of
    it is left when pushes fail (packages/acp-adapter/src/session.ts). */
module AcpReplayContent {
  import opened Wrappers
  import opened AcpWire
  import opened AcpReplay
  import opened AcpLostCards

  // ---- What a message conveys ---------------------------------------------------------------

  /** The assistant messages: each opens a turn of its own. */
  function Turns(history: seq<Message>): nat
    decreases |history|
  {
    if history == [] then 0 else Turns(Init(history)) + if Last(history).Assistant? then 1 else 0
  }

  /** The turn of the last assistant message that has a call with this id. */
  function CallerTurn(history: seq<Message>, callId: string): Option<nat>
    decreases |history|
  {
    if history == [] then None
    else if Calls(Last(history), callId) then Some(Turns(history))
    else CallerTurn(Init(history), callId)
  }

  /** The parts as chunks, in order: a text that is not empty, as the user's or as the agent's, and
      thinking that is not empty if it is the agent's. */
  function Chunks(parts: seq<Part>, user: bool): seq<Update>
    decreases |parts|
  {
    if parts == [] then []
    else
      (match parts[0]
       case TextPart(text) =>
         if text == "" then [] else if user then [UserChunk(text)] else [MessageChunk(text)]
       case ThinkPart(think) => if think == "" || user then [] else [ThoughtChunk(think)]
       case MediaPart(_) => [])
      + Chunks(parts[1..], user)
  }

  /** One card for each call, in progress, under the tool's name and with its arguments. */
  function Cards(turn: nat, calls: seq<Call>): (cards: seq<Update>)
    ensures |cards| == |calls|
  {
    seq(|calls|, i requires 0 <= i < |calls| =>
          Create(AcpToolCallId(turn, calls[i].id), calls[i].name, InferToolKind(calls[i].name),
                 InProgress, [TextContent(calls[i].args)]))
  }

  /** What a message after `before` says: its parts, then its calls; or the result of the call it
      answers, on the card of the last such call. */
  function Conveys(before: seq<Message>, m: Message): seq<Update> {
    match m
    case User(parts) => Chunks(parts, true)
    case Assistant(parts, calls) => Chunks(parts, false) + Cards(Turns(before) + 1, calls)
    case Tool(callId, isError, parts) =>
      if callId.GetOr("") == "" || CallerTurn(before, callId.value).None? then []
      else [ResultUpdate(AcpToolCallId(CallerTurn(before, callId.value).value, callId.value),
                         if isError then Failed else Completed, ToolContent(parts))]
    case OtherRole => []
  }

  function Conveyed(history: seq<Message>): seq<Update>
    decreases |history|
  {
    if history == [] then [] else Conveyed(Init(history)) + Conveys(Init(history), Last(history))
  }

  /** The content of a result, part by part. */
  lemma {:induction false} ToolContentLaws(a: seq<Part>, b: seq<Part>, text: string, kind: string)
    ensures ToolContent(a + b) == ToolContent(a) + ToolContent(b)
    ensures ToolContent([TextPart(text)]) == if text == "" then [] else [TextContent(text)]
    ensures ToolContent([ThinkPart(text)]) == [TextContent("[think]")]
    ensures ToolContent([MediaPart(kind)]) == [TextContent("[" + kind + "]")]
    decreases |a|
  {
    if a == [] {
      assert a + b == b;
      assert ToolContent([]) == [];
      assert [TextContent(text)] + [] == [TextContent(text)];
    } else {
      assert (a + b)[1..] == a[1..] + b;
      ToolContentLaws(a[1..], b, text, kind);
    }
  }

  // ---- One message --------------------------------------------------------------------------

  /** `after` is `before` and a beginning of `more`; all of it, if nothing failed. */
  ghost predicate Goes(before: State, after: State, more: seq<Update>) {
    && before.pushed <= after.pushed <= before.pushed + more
    && (after.ok ==> after.pushed == before.pushed + more)
    && after.turnId == before.turnId
  }

  lemma GoesOn(a: State, b: State, c: State, more: seq<Update>, rest: seq<Update>)
    requires b.ok && Goes(a, b, more) && Goes(b, c, rest)
    ensures Goes(a, c, more + rest)
  {
    assert a.pushed + more + rest == a.pushed + (more + rest);
  }

  lemma PushGoes(st: State, u: Update, fails: Faults)
    ensures Goes(st, Push(st, u, fails), [u])
  {}

  lemma StopsHere(a: State, more: seq<Update>)
    requires !a.ok
    ensures Goes(a, a, more)
  {}

  lemma StopsLater(a: State, b: State, more: seq<Update>, rest: seq<Update>)
    requires !b.ok && Goes(a, b, more)
    ensures Goes(a, b, more + rest)
  {
    assert a.pushed + more + rest == a.pushed + (more + rest);
  }

  lemma {:induction false} PartsGo(st: State, parts: seq<Part>, user: bool, fails: Faults)
    ensures Goes(st, PushParts(st, parts, user, fails), Chunks(parts, user))
    ensures PushParts(st, parts, user, fails).turnOf == st.turnOf
    ensures st.ok && NoFaults(fails) ==> PushParts(st, parts, user, fails).ok
    decreases |parts|
  {
    if !st.ok {
      StopsHere(st, Chunks(parts, user));
    } else if parts == [] {
      assert st.pushed + [] == st.pushed;
    } else {
      var us := if user then UserPart(parts[0]) else AssistantPart(parts[0]);
      var next := if us == [] then st else Push(st, us[0], fails);
      var rest := Chunks(parts[1..], user);
      assert Chunks(parts, user) == us + rest;
      PartsGo(next, parts[1..], user, fails);
      hide Chunks, PushParts, UserPart, AssistantPart;
      if us == [] {
        assert us + rest == rest;
      } else {
        PushGoes(st, us[0], fails);
        assert us == [us[0]];
        if next.ok {
          GoesOn(st, next, PushParts(next, parts[1..], user, fails), us, rest);
        } else {
          StopsLater(st, next, us, rest);
          PartsStop(next, parts[1..], user, fails);
        }
      }
    }
  }

  lemma PartsStop(st: State, parts: seq<Part>, user: bool, fails: Faults)
    requires !st.ok
    ensures PushParts(st, parts, user, fails) == st
  {}

  lemma CardsFirst(turn: nat, calls: seq<Call>)
    requires calls != []
    ensures Cards(turn, calls) == [CallStart(turn, calls[0])] + Cards(turn, calls[1..])
  {
    hide AcpToolCallId, InferToolKind;
    assert [] + [TextContent(calls[0].args)] == [TextContent(calls[0].args)];
  }

  /** The calls that are recorded: those that were reached. */
  ghost predicate Records(before: State, after: State, calls: seq<Call>) {
    forall c: string ::
      (c in after.turnOf ==> (c in before.turnOf && after.turnOf[c] == before.turnOf[c])
                             || (IsCalled(calls, c) && after.turnOf[c] == before.turnId))
      && (c in before.turnOf ==> c in after.turnOf)
      && (after.ok && IsCalled(calls, c) ==> c in after.turnOf && after.turnOf[c] == before.turnId)
  }

  predicate IsCalled(calls: seq<Call>, c: string) {
    exists k :: 0 <= k < |calls| && calls[k].id == c
  }

  lemma {:induction false} CallsGo(st: State, calls: seq<Call>, fails: Faults)
    ensures Goes(st, PushCalls(st, calls, fails), Cards(st.turnId, calls))
    ensures st.ok && NoFaults(fails) ==> PushCalls(st, calls, fails).ok
    decreases |calls|
  {
    hide CallStart;
    if !st.ok {
      StopsHere(st, Cards(st.turnId, calls));
    } else if calls == [] {
      assert st.pushed + [] == st.pushed;
    } else {
      var recorded := st.(turnOf := st.turnOf[calls[0].id := st.turnId]);
      var u := CallStart(st.turnId, calls[0]);
      var next := Push(recorded, u, fails);
      CardsFirst(st.turnId, calls);
      CallsGo(next, calls[1..], fails);
      CallsStop(next, calls[1..], fails);
      hide Cards, PushCalls;
      PushGoes(recorded, u, fails);
      if next.ok {
        GoesOn(recorded, next, PushCalls(next, calls[1..], fails), [u],
               Cards(st.turnId, calls[1..]));
      } else {
        StopsLater(recorded, next, [u], Cards(st.turnId, calls[1..]));
      }
    }
  }

  lemma {:induction false} CallsRecord(st: State, calls: seq<Call>, fails: Faults)
    ensures Records(st, PushCalls(st, calls, fails), calls)
    decreases |calls|
  {
    hide CallStart;
    if st.ok && calls != [] {
      var next := Push(st.(turnOf := st.turnOf[calls[0].id := st.turnId]),
                       CallStart(st.turnId, calls[0]), fails);
      CallsRecord(next, calls[1..], fails);
      var after := PushCalls(next, calls[1..], fails);
      forall c: string
        ensures IsCalled(calls, c) <==> c == calls[0].id || IsCalled(calls[1..], c)
      {
        CalledFirst(calls, c);
      }
      hide PushCalls, IsCalled;
    }
  }

  lemma CalledFirst(calls: seq<Call>, c: string)
    requires calls != []
    ensures IsCalled(calls, c) <==> c == calls[0].id || IsCalled(calls[1..], c)
  {
    if k :| 0 <= k < |calls| && calls[k].id == c {
      assert k > 0 ==> calls[1..][k - 1].id == c;
    }
    if k :| 0 <= k < |calls[1..]| && calls[1..][k].id == c {
      assert calls[k + 1].id == c;
    }
  }

  function TurnRecorded(st: State, c: string): Option<nat> {
    if c in st.turnOf then Some(st.turnOf[c]) else None
  }

  /** The message sends a beginning of what it conveys. */
  ghost predicate SendsBeginning(before: seq<Message>, st: State, m: Message, fails: Faults) {
    st.pushed <= ReplayOne(st, m, fails).pushed <= st.pushed + Conveys(before, m)
  }

  /** A message does so unless it answers a call, and then exactly if no other card is recorded for
      that call than the one it should go to. */
  lemma OneSends(before: seq<Message>, st: State, m: Message, fails: Faults)
    requires st.ok && st.turnId == Turns(before)
    requires m.Tool? && m.callId.GetOr("") != "" ==>
               TurnRecorded(st, m.callId.value) in {None, CallerTurn(before, m.callId.value)}
    ensures SendsBeginning(before, st, m, fails)
    ensures ReplayOne(st, m, fails).turnId == Turns(before + [m])
    ensures NoFaults(fails)
            && (m.Tool? && m.callId.GetOr("") != "" ==>
                  TurnRecorded(st, m.callId.value) == CallerTurn(before, m.callId.value)) ==>
              ReplayOne(st, m, fails).pushed == st.pushed + Conveys(before, m)
  {
    NextTurn(before, m);
    hide PushParts, PushCalls, AcpToolCallId, ToolContent, Chunks, Cards, CallerTurn, Turns, NoFaults;
    assert st.pushed + [] == st.pushed;
    match m
    case User(parts) => PartsGo(st, parts, true, fails);
    case Assistant(parts, calls) =>
      AssistantGoes(st.(turnId := st.turnId + 1), parts, calls, fails);
    case _ =>
  }

  lemma AssistantGoes(st: State, parts: seq<Part>, calls: seq<Call>, fails: Faults)
    ensures Goes(st, PushCalls(PushParts(st, parts, false, fails), calls, fails),
                 Chunks(parts, false) + Cards(st.turnId, calls))
    ensures st.ok && NoFaults(fails) ==>
              PushCalls(PushParts(st, parts, false, fails), calls, fails).ok
  {
    hide PushParts, PushCalls, Chunks, Cards, NoFaults;
    var st1 := PushParts(st, parts, false, fails);
    PartsGo(st, parts, false, fails);
    CallsGo(st1, calls, fails);
    if st1.ok {
      GoesOn(st, st1, PushCalls(st1, calls, fails), Chunks(parts, false), Cards(st.turnId, calls));
    } else {
      CallsStop(st1, calls, fails);
      StopsLater(st, st1, Chunks(parts, false), Cards(st.turnId, calls));
    }
  }

  // ---- Without failures ---------------------------------------------------------------------

  /** Every call is recorded with the turn of its last caller. */
  ghost predicate Knows(history: seq<Message>, st: State) {
    forall c: string :: TurnRecorded(st, c) == CallerTurn(history, c)
  }

  lemma OneIsKnown(before: seq<Message>, st: State, m: Message, fails: Faults)
    requires st.ok && st.turnId == Turns(before) && Knows(before, st) && NoFaults(fails)
    ensures Knows(before + [m], ReplayOne(st, m, fails))
  {
    hide PushParts, PushCalls, AcpToolCallId, ToolContent, CallerTurn, NoFaults;
    var after := ReplayOne(st, m, fails);
    forall c: string
      ensures CallerTurn(before + [m], c)
           == if Calls(m, c) then Some(Turns(before) + 1) else CallerTurn(before, c)
    {
      NextCaller(before, m, c);
    }
    match m
    case User(parts) => PartsGo(st, parts, true, fails);
    case Assistant(parts, calls) =>
      var next := st.(turnId := st.turnId + 1);
      var st1 := PushParts(next, parts, false, fails);
      PartsGo(next, parts, false, fails);
      CallsGo(st1, calls, fails);
      CallsRecord(st1, calls, fails);
      assert after.ok;
      hide Goes;
    case _ =>
  }

  lemma NextCaller(before: seq<Message>, m: Message, c: string)
    ensures CallerTurn(before + [m], c)
         == if Calls(m, c) then Some(Turns(before) + 1) else CallerTurn(before, c)
  {
    OnlyAssistantsCall(m, c);
    NextTurn(before, m);
    assert Init(before + [m]) == before && Last(before + [m]) == m;
    hide Calls, Turns;
  }

  lemma NextTurn(before: seq<Message>, m: Message)
    ensures Turns(before + [m]) == Turns(before) + if m.Assistant? then 1 else 0
  {
    assert Init(before + [m]) == before;
  }

  /** With no failure, the replay pushes what the history conveys: nothing more and nothing less,
      in order. */
  lemma {:induction false} ReplayConveys(history: seq<Message>, fails: Faults)
    requires NoFaults(fails)
    ensures var st := Replay(history, fails);
            && st.ok && st.turnId == Turns(history) && Knows(history, st)
            && st.pushed == Conveyed(history)
    decreases |history|
  {
    hide ReplayOne, Conveys, Knows;
    if history == [] {
      NothingKnown(fails);
    } else {
      var n := |history| - 1;
      var st := Replay(history[..n], fails);
      ReplayConveys(history[..n], fails);
      KnowsLast(history[..n], st, history[n]);
      OneSends(history[..n], st, history[n], fails);
      OneIsKnown(history[..n], st, history[n], fails);
      assert history == history[..n] + [history[n]];
      KnowsStill(history, ReplayOne(st, history[n], fails));
    }
  }

  lemma NothingKnown(fails: Faults)
    ensures Knows([], Replay([], fails))
  {}

  lemma KnowsLast(before: seq<Message>, st: State, m: Message)
    requires Knows(before, st)
    ensures m.Tool? && m.callId.GetOr("") != "" ==>
              TurnRecorded(st, m.callId.value) == CallerTurn(before, m.callId.value)
  {}

  lemma KnowsStill(history: seq<Message>, st: State)
    requires Knows(history, st)
    ensures Knows(history, st.(ok := true))
  {}

  // ---- Kind by kind -------------------------------------------------------------------------

  function Texts(parts: seq<Part>): seq<string>
    decreases |parts|
  {
    if parts == [] then []
    else (if parts[0].TextPart? && parts[0].text != "" then [parts[0].text] else [])
         + Texts(parts[1..])
  }

  function Thoughts(parts: seq<Part>): seq<string>
    decreases |parts|
  {
    if parts == [] then []
    else (if parts[0].ThinkPart? && parts[0].think != "" then [parts[0].think] else [])
         + Thoughts(parts[1..])
  }

  /** What `g` finds in each message, knowing those before it. */
  function Gathered<T>(history: seq<Message>, g: (seq<Message>, Message) -> seq<T>): seq<T>
    decreases |history|
  {
    if history == [] then [] else Gathered(Init(history), g) + g(Init(history), Last(history))
  }

  function Asked(before: seq<Message>, m: Message): seq<string> {
    if m.User? then Texts(m.parts) else []
  }

  function Said(before: seq<Message>, m: Message): seq<string> {
    if m.Assistant? then Texts(m.parts) else []
  }

  function Thought(before: seq<Message>, m: Message): seq<string> {
    if m.Assistant? then Thoughts(m.parts) else []
  }

  /** A tool message that answers a call, failed exactly if it is an error. */
  function Answer(before: seq<Message>, m: Message): seq<Outcome> {
    if m.Tool? && m.callId.GetOr("") != "" && CallerTurn(before, m.callId.value).Some? then
      [Outcome(AcpToolCallId(CallerTurn(before, m.callId.value).value, m.callId.value), m.isError,
               ToolContent(m.parts))]
    else []
  }

  /** User texts as the user's, assistant texts as messages, thinking as thoughts, and one result for
      each tool message that answers a call. */
  ghost predicate ShowsConversation(history: seq<Message>, wire: seq<Update>) {
    && Kept(wire, UserText) == Gathered(history, Asked)
    && Kept(wire, MessageText) == Gathered(history, Said)
    && Kept(wire, ThoughtText) == Gathered(history, Thought)
    && Kept(wire, ResultShown) == Gathered(history, Answer)
  }

  lemma {:induction false} KeptChunks(parts: seq<Part>, user: bool)
    ensures Kept(Chunks(parts, user), UserText) == if user then Texts(parts) else []
    ensures Kept(Chunks(parts, user), MessageText) == if user then [] else Texts(parts)
    ensures Kept(Chunks(parts, user), ThoughtText) == if user then [] else Thoughts(parts)
    ensures Kept(Chunks(parts, user), ResultShown) == []
    decreases |parts|
  {
    if parts != [] {
      var first, rest := Chunks([parts[0]], user), Chunks(parts[1..], user);
      KeptChunks(parts[1..], user);
      KeptOneChunk(parts[0], user);
      ChunksFirst(parts, user);
      KeptConcat(first, rest, UserText);
      KeptConcat(first, rest, MessageText);
      KeptConcat(first, rest, ThoughtText);
      KeptConcat(first, rest, ResultShown);
      TextsFirst(parts);
      hide *;
    }
  }

  lemma TextsFirst(parts: seq<Part>)
    requires parts != []
    ensures Texts(parts) == Texts([parts[0]]) + Texts(parts[1..])
    ensures Thoughts(parts) == Thoughts([parts[0]]) + Thoughts(parts[1..])
    ensures var none: seq<string> := []; none + none == none
  {
    assert [parts[0]][1..] == [] && Texts([]) == [] && Thoughts([]) == [];
  }

  lemma KeptOneChunk(p: Part, user: bool)
    ensures Kept(Chunks([p], user), UserText) == if user then Texts([p]) else []
    ensures Kept(Chunks([p], user), MessageText) == if user then [] else Texts([p])
    ensures Kept(Chunks([p], user), ThoughtText) == if user then [] else Thoughts([p])
    ensures Kept(Chunks([p], user), ResultShown) == []
  {
    OneChunk(p, user);
    OneText(p);
    var c := Chunks([p], user);
    hide Chunks, Texts, Thoughts;
    if c != [] {
      KeptOne(c[0], UserText);
      KeptOne(c[0], MessageText);
      KeptOne(c[0], ThoughtText);
      KeptOne(c[0], ResultShown);
      hide Kept;
    }
  }

  lemma OneText(p: Part)
    ensures Texts([p]) == if p.TextPart? && p.text != "" then [p.text] else []
    ensures Thoughts([p]) == if p.ThinkPart? && p.think != "" then [p.think] else []
  {
    assert [p][1..] == [] && Texts([]) == [] && Thoughts([]) == [];
  }

  lemma OneChunk(p: Part, user: bool)
    ensures Chunks([p], user)
         == if p.TextPart? && p.text != "" then
              [if user then UserChunk(p.text) else MessageChunk(p.text)]
            else if p.ThinkPart? && p.think != "" && !user then [ThoughtChunk(p.think)]
            else []
  {
    assert [p][1..] == [] && Chunks([], user) == [];
  }

  lemma ChunksFirst(parts: seq<Part>, user: bool)
    requires parts != []
    ensures Chunks(parts, user) == Chunks([parts[0]], user) + Chunks(parts[1..], user)
  {
    assert [parts[0]][1..] == [] && Chunks([], user) == [];
  }

  /** Cards are none of these. */
  lemma {:induction false} KeptCards(cards: seq<Update>)
    requires forall i :: 0 <= i < |cards| ==> cards[i].Create?
    ensures Kept(cards, UserText) == [] && Kept(cards, MessageText) == []
    ensures Kept(cards, ThoughtText) == [] && Kept(cards, ResultShown) == []
    decreases |cards|
  {
    if cards != [] {
      KeptCards(Init(cards));
    }
  }

  lemma KeptNone<T>(f: Update -> Option<T>)
    ensures Kept([], f) == []
  {}

  lemma AssistantIsShown(before: seq<Message>, parts: seq<Part>, calls: seq<Call>)
    ensures var sent := Conveys(before, Assistant(parts, calls));
            && Kept(sent, UserText) == [] && Kept(sent, MessageText) == Texts(parts)
            && Kept(sent, ThoughtText) == Thoughts(parts) && Kept(sent, ResultShown) == []
  {
    hide Kept, Chunks, AcpToolCallId, Texts, Thoughts, InferToolKind;
    var chunks, cards := Chunks(parts, false), Cards(Turns(before) + 1, calls);
    KeptChunks(parts, false);
    KeptCards(cards);
    hide *;
    KeptConcat(chunks, cards, UserText);
    KeptConcat(chunks, cards, MessageText);
    KeptConcat(chunks, cards, ThoughtText);
    KeptConcat(chunks, cards, ResultShown);
    Nothing(Texts(parts));
    Nothing(Thoughts(parts));
    AssistantConveys(before, parts, calls);
  }

  lemma Nothing(s: seq<string>)
    ensures s + [] == s
  {}

  lemma AssistantConveys(before: seq<Message>, parts: seq<Part>, calls: seq<Call>)
    ensures Conveys(before, Assistant(parts, calls))
         == Chunks(parts, false) + Cards(Turns(before) + 1, calls)
  {}

  lemma AnswerIsShown(before: seq<Message>, m: Message)
    requires m.Tool?
    ensures var sent := Conveys(before, m);
            && Kept(sent, UserText) == [] && Kept(sent, MessageText) == []
            && Kept(sent, ThoughtText) == [] && Kept(sent, ResultShown) == Answer(before, m)
  {
    hide Kept, AcpToolCallId, ToolContent, CallerTurn;
    var sent := Conveys(before, m);
    if sent == [] {
      KeptNone(UserText);
      KeptNone(MessageText);
      KeptNone(ThoughtText);
      KeptNone(ResultShown);
    } else {
      assert sent == [sent[0]];
      KeptOne(sent[0], UserText);
      KeptOne(sent[0], MessageText);
      KeptOne(sent[0], ThoughtText);
      KeptOne(sent[0], ResultShown);
    }
  }

  lemma MessageIsShown(before: seq<Message>, m: Message)
    ensures Kept(Conveys(before, m), UserText) == Asked(before, m)
    ensures Kept(Conveys(before, m), MessageText) == Said(before, m)
    ensures Kept(Conveys(before, m), ThoughtText) == Thought(before, m)
    ensures Kept(Conveys(before, m), ResultShown) == Answer(before, m)
  {
    hide Kept, Chunks, Texts, Thoughts, Cards, AcpToolCallId, ToolContent, CallerTurn;
    match m
    case User(parts) => KeptChunks(parts, true);
    case Assistant(parts, calls) => AssistantIsShown(before, parts, calls);
    case Tool(_, _, _) => AnswerIsShown(before, m);
    case OtherRole =>
      KeptNone(UserText);
      KeptNone(MessageText);
      KeptNone(ThoughtText);
      KeptNone(ResultShown);
  }

  lemma {:induction false} KeptIsGathered<T>(history: seq<Message>, f: Update -> Option<T>,
                                             g: (seq<Message>, Message) -> seq<T>)
    requires forall before, m :: Kept(Conveys(before, m), f) == g(before, m)
    ensures Kept(Conveyed(history), f) == Gathered(history, g)
    decreases |history|
  {
    hide Conveys;
    if history != [] {
      KeptIsGathered(Init(history), f, g);
      KeptConcat(Conveyed(Init(history)), Conveys(Init(history), Last(history)), f);
    }
  }

  lemma ConversationIsShown(history: seq<Message>)
    ensures ShowsConversation(history, Conveyed(history))
  {
    hide Kept, Conveys, Conveyed, Gathered, Asked, Said, Thought, Answer;
    forall before: seq<Message>, m: Message
      ensures Kept(Conveys(before, m), UserText) == Asked(before, m)
      ensures Kept(Conveys(before, m), MessageText) == Said(before, m)
      ensures Kept(Conveys(before, m), ThoughtText) == Thought(before, m)
      ensures Kept(Conveys(before, m), ResultShown) == Answer(before, m)
    {
      MessageIsShown(before, m);
    }
    KeptIsGathered(history, UserText, Asked);
    KeptIsGathered(history, MessageText, Said);
    KeptIsGathered(history, ThoughtText, Thought);
    KeptIsGathered(history, ResultShown, Answer);
  }

  // ---- With failures ------------------------------------------------------------------------

  /** The call is recorded before anything is pushed that could fail. */
  predicate CallsAtOnce(m: Message, c: string) {
    m.Assistant? && Chunks(m.parts, false) == [] && m.calls != [] && m.calls[0].id == c
  }

  /** Two messages or more have this call, and the last of them pushes something before it comes to
      it. */
  predicate CalledLate(history: seq<Message>, c: string)
    decreases |history|
  {
    history != [] &&
    if Calls(Last(history), c)
    then CallerTurn(Init(history), c).Some? && !CallsAtOnce(Last(history), c)
    else CalledLate(Init(history), c)
  }

  /** A tool message answers such a call. */
  ghost predicate AnsweredLate(history: seq<Message>) {
    exists j :: 0 <= j < |history| && AnswersLate(history[..j], history[j])
  }

  predicate AnswersLate(before: seq<Message>, m: Message) {
    m.Tool? && m.callId.GetOr("") != "" && CalledLate(before, m.callId.value)
  }

  /** Every message sends a beginning of what it conveys. */
  ghost predicate AllBegin(history: seq<Message>, fails: Faults) {
    forall k :: 0 <= k < |history| ==>
      SendsBeginning(history[..k], Replay(history[..k], fails), history[k], fails)
  }

  /** A recorded turn is that of the last caller, unless that one calls late. */
  ghost predicate NearlyKnows(history: seq<Message>, st: State) {
    forall c: string :: c in st.turnOf ==>
      TurnRecorded(st, c) == CallerTurn(history, c)
      || (CallerTurn(history, c).Some? && CalledLate(history, c))
  }

  lemma AtOnceIsRecorded(st: State, parts: seq<Part>, calls: seq<Call>, c: string, fails: Faults)
    requires st.ok && CallsAtOnce(Assistant(parts, calls), c)
    ensures var after := PushCalls(PushParts(st, parts, false, fails), calls, fails);
            c in after.turnOf && after.turnOf[c] == st.turnId
  {
    hide CallStart, Chunks;
    PartsGo(st, parts, false, fails);
    NoChunksOk(st, parts, fails);
    var st1 := PushParts(st, parts, false, fails);
    var next := Push(st1.(turnOf := st1.turnOf[c := st1.turnId]), CallStart(st1.turnId, calls[0]),
                     fails);
    CallsRecord(next, calls[1..], fails);
  }

  lemma {:induction false} NoChunksOk(st: State, parts: seq<Part>, fails: Faults)
    requires st.ok && Chunks(parts, false) == []
    ensures PushParts(st, parts, false, fails) == st
    decreases |parts|
  {
    if parts != [] {
      NoChunksOk(st, parts[1..], fails);
    }
  }

  lemma OneIsNearlyKnown(before: seq<Message>, st: State, m: Message, fails: Faults)
    requires st.ok && st.turnId == Turns(before) && NearlyKnows(before, st)
    ensures NearlyKnows(before + [m], ReplayOne(st, m, fails))
  {
    hide PushParts, PushCalls, AcpToolCallId, ToolContent, CallerTurn, CalledLate, CallsAtOnce;
    var after := ReplayOne(st, m, fails);
    forall c: string | c in after.turnOf
      ensures TurnRecorded(after, c) == CallerTurn(before + [m], c)
              || (CallerTurn(before + [m], c).Some? && CalledLate(before + [m], c))
    {
      NextCaller(before, m, c);
      NextLate(before, m, c);
      match m
      case User(parts) => PartsGo(st, parts, true, fails);
      case Assistant(parts, calls) =>
        var next := st.(turnId := st.turnId + 1);
        PartsGo(next, parts, false, fails);
        CallsRecord(PushParts(next, parts, false, fails), calls, fails);
        if CallsAtOnce(m, c) {
          AtOnceIsRecorded(next, parts, calls, c, fails);
        }
      case _ =>
    }
  }

  lemma NextLate(before: seq<Message>, m: Message, c: string)
    ensures CalledLate(before + [m], c)
       <==> if Calls(m, c) then CallerTurn(before, c).Some? && !CallsAtOnce(m, c)
            else CalledLate(before, c)
  {
    assert Init(before + [m]) == before;
  }

  lemma {:induction false} ReplayNearlyKnows(history: seq<Message>, fails: Faults)
    requires !AnsweredLate(history)
    ensures var st := Replay(history, fails);
            st.ok && st.turnId == Turns(history) && NearlyKnows(history, st)
    ensures AllBegin(history, fails)
    decreases |history|
  {
    hide ReplayOne, NearlyKnows, SendsBeginning, AnswersLate;
    if history == [] {
      NothingNearlyKnown(fails);
    } else {
      var n := |history| - 1;
      var before, st := history[..n], Replay(history[..n], fails);
      forall j | 0 <= j < n
        ensures before[..j] == history[..j] && before[j] == history[j]
      {}
      ReplayNearlyKnows(before, fails);
      assert !AnswersLate(history[..n], history[n]);
      NearlyEnough(before, st, history[n]);
      OneSends(before, st, history[n], fails);
      OneIsNearlyKnown(before, st, history[n], fails);
      assert history == before + [history[n]];
      NearlyKnowsStill(history, ReplayOne(st, history[n], fails));
    }
  }

  lemma NothingNearlyKnown(fails: Faults)
    ensures NearlyKnows([], Replay([], fails))
  {}

  lemma NearlyEnough(before: seq<Message>, st: State, m: Message)
    requires NearlyKnows(before, st) && !AnswersLate(before, m)
    ensures m.Tool? && m.callId.GetOr("") != "" ==>
              TurnRecorded(st, m.callId.value) in {None, CallerTurn(before, m.callId.value)}
  {}

  lemma NearlyKnowsStill(history: seq<Message>, st: State)
    requires NearlyKnows(history, st)
    ensures NearlyKnows(history, st.(ok := true))
  {}

  /** The last caller of a call made late, and what comes after it. */
  lemma {:induction false} LateCaller(history: seq<Message>, c: string) returns (i: nat)
    requires CalledLate(history, c)
    ensures i < |history| && Calls(history[i], c) && !CallsAtOnce(history[i], c)
    ensures CallerTurn(history[..i], c).Some?
    ensures CallerTurn(history, c) == Some(Turns(history[..i]) + 1)
    ensures forall x :: i < x < |history| ==> !Calls(history[x], c)
    decreases |history|
  {
    hide CallsAtOnce, Calls;
    var n := |history| - 1;
    if Calls(history[n], c) {
      i := n;
      OnlyAssistantsCall(history[n], c);
    } else {
      i := LateCaller(history[..n], c);
      assert history[..n][..i] == history[..i];
    }
  }

  lemma OnlyAssistantsCall(m: Message, c: string)
    ensures Calls(m, c) ==> m.Assistant?
  {}

  /** When the first push of a message that calls late fails, that call is not recorded. */
  lemma LateIsNotRecorded(st: State, m: Message, c: string, fails: Faults)
    requires st.ok && Calls(m, c) && !CallsAtOnce(m, c) && fails(|st.pushed|)
    ensures TurnRecorded(ReplayOne(st, m, fails), c) == TurnRecorded(st, c)
  {
    hide CallStart, Chunks;
    var next := st.(turnId := st.turnId + 1);
    if Chunks(m.parts, false) == [] {
      NoChunksOk(next, m.parts, fails);
      var u := CallStart(next.turnId, m.calls[0]);
      CallsStop(Push(next.(turnOf := next.turnOf[m.calls[0].id := next.turnId]), u, fails),
                m.calls[1..], fails);
    } else {
      PartsFail(next, m.parts, fails);
      PartsGo(next, m.parts, false, fails);
      CallsStop(PushParts(next, m.parts, false, fails), m.calls, fails);
    }
  }

  lemma {:induction false} PartsFail(st: State, parts: seq<Part>, fails: Faults)
    requires st.ok && Chunks(parts, false) != [] && fails(|st.pushed|)
    ensures !PushParts(st, parts, false, fails).ok
    decreases |parts|
  {
    var us := AssistantPart(parts[0]);
    if us == [] {
      PartsFail(st, parts[1..], fails);
    } else {
      PartsStop(Push(st, us[0], fails), parts[1..], false, fails);
    }
  }

  lemma OneKeepsTurn(st: State, m: Message, c: string, fails: Faults)
    requires !Calls(m, c)
    ensures TurnRecorded(ReplayOne(st, m, fails), c) == TurnRecorded(st, c)
  {
    hide PushParts, PushCalls, AcpToolCallId, ToolContent;
    match m
    case User(parts) => PartsGo(st, parts, true, fails);
    case Assistant(parts, calls) =>
      var next := st.(turnId := st.turnId + 1);
      PartsGo(next, parts, false, fails);
      CallsRecord(PushParts(next, parts, false, fails), calls, fails);
    case _ =>
  }

  lemma {:induction false} RunKeepsTurn(history: seq<Message>, i: nat, c: string, fails: Faults)
    requires i <= |history| && forall x :: i <= x < |history| ==> !Calls(history[x], c)
    ensures TurnRecorded(Replay(history, fails), c) == TurnRecorded(Replay(history[..i], fails), c)
    decreases |history|
  {
    hide ReplayOne, Calls;
    if i == |history| {
      assert history[..i] == history;
    } else {
      var n := |history| - 1;
      assert history[..n][..i] == history[..i];
      RunKeepsTurn(history[..n], i, c, fails);
      OneKeepsTurn(Replay(history[..n], fails), history[n], c, fails);
    }
  }

  lemma {:induction false} CallerIsEarlier(history: seq<Message>, c: string)
    ensures CallerTurn(history, c).Some? ==> CallerTurn(history, c).value <= Turns(history)
    decreases |history|
  {
    if history != [] {
      CallerIsEarlier(Init(history), c);
    }
  }

  /** A result for the wrong card is no beginning of the result for the right one. */
  lemma WrongCard(before: seq<Message>, st: State, m: Message, fails: Faults)
    requires m.Tool? && m.callId.GetOr("") != "" && TurnRecorded(st, m.callId.value).Some?
    requires CallerTurn(before, m.callId.value).Some?
    requires TurnRecorded(st, m.callId.value) != CallerTurn(before, m.callId.value)
    ensures !SendsBeginning(before, st, m, fails)
  {
    hide AcpToolCallId, ToolContent, CallerTurn;
    var c := m.callId.value;
    var sent := ReplayOne(st, m, fails).pushed;
    WireIdInjective(st.turnOf[c], c, CallerTurn(before, c).value, c);
    var right := st.pushed + Conveys(before, m);
    assert |sent| == |st.pushed| + 1 == |right|;
    assert sent[|st.pushed|].id != right[|st.pushed|].id;
  }

  /** One failing push is enough. */
  lemma AnsweredLateGoesWrong(history: seq<Message>) returns (p: nat)
    requires AnsweredLate(history)
    ensures !AllBegin(history, FailAt(p))
  {
    var j :| 0 <= j < |history| && AnswersLate(history[..j], history[j]);
    var before, c := history[..j], history[j].callId.value;
    var i := LateCaller(before, c);
    assert before[..i] == history[..i] && before[..i + 1][..i] == history[..i];
    var st := Replay(history[..i], NoFault);
    p := |st.pushed|;
    var fails := FailAt(p);
    hide ReplayOne, Conveyed, Calls, CallsAtOnce, CallerTurn, SendsBeginning, Turns;
    FailsLater(p, p);
    ReplayBelow(history[..i], fails);
    ReplayConveys(history[..i], NoFault);
    assert TurnRecorded(st, c) == CallerTurn(history[..i], c);
    LateIsNotRecorded(st, history[i], c, fails);
    ReplayStep(before, i, fails);
    RunKeepsTurn(before, i + 1, c, fails);
    CallerIsEarlier(history[..i], c);
    WrongCard(before, Replay(before, fails), history[j], fails);
  }

  lemma ReplayStep(history: seq<Message>, i: nat, fails: Faults)
    requires i < |history|
    ensures Replay(history[..i + 1], fails)
         == ReplayOne(Replay(history[..i], fails), history[i], fails).(ok := true)
  {
    hide ReplayOne;
    assert history[..i + 1][..i] == history[..i];
  }

  /** Whatever pushes fail, every message sends a beginning of what it conveys, if and only if no
      tool message answers a call that was made before and then again, late. */
  lemma AllBeginIff(history: seq<Message>)
    ensures (forall fails: Faults :: AllBegin(history, fails)) <==> !AnsweredLate(history)
  {
    hide AllBegin, AnsweredLate;
    if AnsweredLate(history) {
      var p := AnsweredLateGoesWrong(history);
    } else {
      forall fails: Faults
        ensures AllBegin(history, fails)
      {
        ReplayNearlyKnows(history, fails);
      }
    }
  }

  /** A call made, made again after a text, and answered: if the text is lost, the result goes to the
      first card. */
  lemma AnsweredLateExample()
    ensures var call := Call("c", "Bash", "");
            AnsweredLate([Assistant([], [call]), Assistant([TextPart("so")], [call]),
                          Tool(Some("c"), false, [])])
  {
    var call := Call("c", "Bash", "");
    var m1, m2, m3 := Assistant([], [call]), Assistant([TextPart("so")], [call]),
                      Tool(Some("c"), false, []);
    var history := [m1, m2, m3];
    assert history[..2] == [m1, m2] && Init([m1, m2]) == [m1];
    assert Calls(m1, "c") && Calls(m2, "c") by {
      assert m1.calls[0].id == "c" && m2.calls[0].id == "c";
    }
    OneChunk(TextPart("so"), false);
    assert AnswersLate(history[..2], history[2]);
  }

  method ReplayHistory(history: seq<Message>, fails: Faults) returns (pushed: seq<Update>)
    ensures pushed == Replay(history, fails).pushed
    ensures NoFaults(fails) ==> pushed == Conveyed(history)
    ensures NoFaults(fails) ==> ShowsConversation(history, pushed)
  {
    hide ReplayOne, NoFaults, ShowsConversation;
    var r := new Replayer(fails);
    for i := 0 to |history|
      invariant fresh(r) && r.fails == fails && r.Abs(true) == Replay(history[..i], fails)
    {
      assert history[..i + 1][..i] == history[..i];
      var _ := r.ReplayMessage(history[i]);
    }
    assert history[..|history|] == history;
    pushed := r.pushed;
    if NoFaults(fails) {
      ReplayConveys(history, fails);
      ConversationIsShown(history);
    }
  }
}
