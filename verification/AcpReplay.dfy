/** Replaying a stored history to a reattached client (packages/acp-adapter/src/session.ts): the
    same wire protocol, with synthetic turn numbers and pushes that may fail. */
module AcpReplay {
  import opened Wrappers
  import opened AcpWire

  datatype Part = TextPart(text: string) | ThinkPart(think: string) | MediaPart(kind: string)

  datatype Call = Call(id: string, name: string, args: string)

  datatype Message =
    | User(parts: seq<Part>)
    | Assistant(parts: seq<Part>, calls: seq<Call>)
    | Tool(callId: Option<string>, isError: bool, parts: seq<Part>)
    | OtherRole

  /** Every push is recorded, whether it then fails or not; `ok` is false while an error is
      making its way out of the message being replayed. */
  datatype State = State(turnId: nat, turnOf: map<string, nat>, pushed: seq<Update>, ok: bool)

  function Push(st: State, u: Update, fails: Faults): State {
    st.(pushed := st.pushed + [u], ok := !fails(|st.pushed|))
  }

  function UserPart(p: Part): seq<Update> {
    if p.TextPart? && p.text != "" then [UserChunk(p.text)] else []
  }

  function AssistantPart(p: Part): seq<Update> {
    if p.TextPart? && p.text != "" then [MessageChunk(p.text)]
    else if p.ThinkPart? && p.think != "" then [ThoughtChunk(p.think)]
    else []
  }

  /** What one part of a tool message adds to the content of its result. */
  function PartContent(p: Part): seq<Content> {
    match p
    case TextPart(text) => if text == "" then [] else [TextContent(text)]
    case ThinkPart(_) => [TextContent("[think]")]
    case MediaPart(kind) => [TextContent("[" + kind + "]")]
  }

  function ToolContent(parts: seq<Part>): seq<Content>
    decreases |parts|
  {
    if parts == [] then [] else PartContent(parts[0]) + ToolContent(parts[1..])
  }

  function PushParts(st: State, parts: seq<Part>, user: bool, fails: Faults): State
    decreases |parts|
  {
    if parts == [] || !st.ok then st
    else
      var us := if user then UserPart(parts[0]) else AssistantPart(parts[0]);
      PushParts(if us == [] then st else Push(st, us[0], fails), parts[1..], user, fails)
  }

  function CallStart(turnId: nat, c: Call): Update {
    ToolCallStart(ToolStarted(turnId, c.id, c.name, None, c.args, None))
  }

  /** The call is recorded before its card is pushed. */
  function PushCalls(st: State, calls: seq<Call>, fails: Faults): State
    decreases |calls|
  {
    if calls == [] || !st.ok then st
    else
      var recorded := st.(turnOf := st.turnOf[calls[0].id := st.turnId]);
      PushCalls(Push(recorded, CallStart(st.turnId, calls[0]), fails), calls[1..], fails)
  }

  function ReplayOne(st: State, m: Message, fails: Faults): State {
    match m
    case User(parts) => PushParts(st, parts, true, fails)
    case Assistant(parts, calls) =>
      PushCalls(PushParts(st.(turnId := st.turnId + 1), parts, false, fails), calls, fails)
    case Tool(callId, isError, parts) =>
      if callId.None? || callId.value == "" || callId.value !in st.turnOf then st
      else Push(st, ResultUpdate(AcpToolCallId(st.turnOf[callId.value], callId.value),
                                 if isError then Failed else Completed, ToolContent(parts)), fails)
    case OtherRole => st
  }

  /** A failed push ends its message; the next message starts afresh. */
  function Replay(history: seq<Message>, fails: Faults): State
    decreases |history|
  {
    if history == [] then State(0, map[], [], true)
    else
      var n := |history| - 1;
      ReplayOne(Replay(history[..n], fails), history[n], fails).(ok := true)
  }

  // ---- In place -----------------------------------------------------------------------------

  /** An entry for each part that is not an empty text, a placeholder where it is no text. */
  method ToolMessageContent(parts: seq<Part>) returns (result: seq<Content>)
    ensures result == ToolContent(parts)
  {
    result := [];
    ContentEnd(parts);
    hide ToolContent;
    for i := 0 to |parts|
      invariant result + ToolContent(parts[i..]) == ToolContent(parts)
    {
      ContentStep(result, parts, i);
      match parts[i] {
        case TextPart(text) =>
          if text != "" {
            result := result + [TextContent(text)];
          }
        case ThinkPart(_) =>
          result := result + [TextContent("[think]")];
        case MediaPart(kind) =>
          result := result + [TextContent("[" + kind + "]")];
      }
    }
  }

  lemma ContentEnd(parts: seq<Part>)
    ensures ToolContent(parts[0..]) == ToolContent(parts)
    ensures ToolContent(parts[|parts|..]) == []
  {
    assert parts[0..] == parts;
  }

  lemma ContentStep(done: seq<Content>, parts: seq<Part>, i: nat)
    requires i < |parts|
    ensures done + ToolContent(parts[i..])
         == done + PartContent(parts[i]) + ToolContent(parts[i + 1..])
    ensures done + [] == done
  {
    hide PartContent;
    assert parts[i..][1..] == parts[i + 1..];
  }

  class Replayer {
    const fails: Faults
    var turnId: nat
    var toolCallTurnIds: map<string, nat>
    var pushed: seq<Update>

    function Abs(ok: bool): State
      reads this
    {
      State(turnId, toolCallTurnIds, pushed, ok)
    }

    constructor (fails: Faults)
      ensures this.fails == fails && Abs(true) == Replay([], fails)
    {
      this.fails := fails;
      turnId, toolCallTurnIds, pushed := 0, map[], [];
    }

    /** False stands for a rejected sessionUpdate. */
    method SessionUpdate(u: Update) returns (ok: bool)
      modifies this`pushed
      ensures Abs(ok) == Push(old(Abs(true)), u, fails)
    {
      ok := !fails(|pushed|);
      pushed := pushed + [u];
    }

    method SendParts(parts: seq<Part>, user: bool) returns (ok: bool)
      modifies this`pushed
      ensures Abs(ok) == PushParts(old(Abs(true)), parts, user, fails)
    {
      hide UserPart, AssistantPart;
      ghost var start := Abs(true);
      ok := true;
      for i := 0 to |parts|
        invariant ok
        invariant turnId == old(turnId) && toolCallTurnIds == old(toolCallTurnIds)
        invariant PushParts(Abs(true), parts[i..], user, fails)
               == PushParts(start, parts, user, fails)
      {
        assert parts[i..][1..] == parts[i + 1..];
        var us := if user then UserPart(parts[i]) else AssistantPart(parts[i]);
        if us != [] {
          ok := SessionUpdate(us[0]);
          if !ok {
            return;
          }
        }
      }
    }

    method SendCalls(calls: seq<Call>) returns (ok: bool)
      modifies this`pushed, this`toolCallTurnIds
      ensures Abs(ok) == PushCalls(old(Abs(true)), calls, fails)
    {
      hide CallStart;
      ghost var start := Abs(true);
      ok := true;
      for i := 0 to |calls|
        invariant ok && turnId == old(turnId)
        invariant PushCalls(Abs(true), calls[i..], fails) == PushCalls(start, calls, fails)
      {
        assert calls[i..][1..] == calls[i + 1..];
        toolCallTurnIds := toolCallTurnIds[calls[i].id := turnId];
        ok := SessionUpdate(CallStart(turnId, calls[i]));
        if !ok {
          return;
        }
      }
    }

    method ReplayMessage(m: Message) returns (ok: bool)
      modifies this
      ensures Abs(ok) == ReplayOne(old(Abs(true)), m, fails)
    {
      hide PushParts, PushCalls;
      ok := true;
      match m {
        case User(parts) =>
          ok := SendParts(parts, true);
        case Assistant(parts, calls) =>
          turnId := turnId + 1;
          ok := SendParts(parts, false);
          CallsStop(Abs(ok), calls, fails);
          if ok {
            ok := SendCalls(calls);
          }
        case Tool(callId, isError, parts) =>
          if callId.None? || callId.value == "" || callId.value !in toolCallTurnIds {
            return;
          }
          var content := ToolMessageContent(parts);
          ok := SessionUpdate(ResultUpdate(AcpToolCallId(toolCallTurnIds[callId.value],
                                                         callId.value),
                                           if isError then Failed else Completed, content));
        case OtherRole =>
      }
    }
  }

  lemma CallsStop(st: State, calls: seq<Call>, fails: Faults)
    ensures !st.ok ==> PushCalls(st, calls, fails) == st
  {}

  // ---- What a client sees -------------------------------------------------------------------

  /** Recorded calls have been pushed, and every update of a card follows the card. */
  ghost predicate Sound(st: State) {
    && (forall c :: c in st.turnOf ==> Created(st.pushed, AcpToolCallId(st.turnOf[c], c)))
    && (forall j :: 0 <= j < |st.pushed| && NeedsCard(st.pushed[j]) ==>
          Created(st.pushed[..j], st.pushed[j].id))
  }

  lemma PushSound(st: State, u: Update, fails: Faults)
    requires Sound(st) && (NeedsCard(u) ==> Created(st.pushed, u.id))
    ensures Sound(Push(st, u, fails))
  {
    hide Created, AcpToolCallId;
    var wire := st.pushed + [u];
    forall c | c in st.turnOf
      ensures Created(wire, AcpToolCallId(st.turnOf[c], c))
    {
      CreatedSnoc(st.pushed, u, AcpToolCallId(st.turnOf[c], c));
    }
    forall j | 0 <= j < |wire| && NeedsCard(wire[j])
      ensures Created(wire[..j], wire[j].id)
    {
      assert wire[..j] == st.pushed[..j];
      assert j == |st.pushed| ==> st.pushed[..j] == st.pushed;
    }
  }

  lemma PushCallSound(st: State, c: Call, fails: Faults)
    requires Sound(st)
    ensures Sound(Push(st.(turnOf := st.turnOf[c.id := st.turnId]), CallStart(st.turnId, c), fails))
  {
    hide Created, AcpToolCallId;
    PushSound(st, CallStart(st.turnId, c), fails);
    CreatedSnoc(st.pushed, CallStart(st.turnId, c), AcpToolCallId(st.turnId, c.id));
  }

  lemma {:induction false} PartsSound(st: State, parts: seq<Part>, user: bool, fails: Faults)
    requires Sound(st)
    ensures Sound(PushParts(st, parts, user, fails))
    ensures PushParts(st, parts, user, fails).turnId == st.turnId
    ensures PushParts(st, parts, user, fails).turnOf == st.turnOf
    decreases |parts|
  {
    hide Sound;
    if parts != [] && st.ok {
      var us := if user then UserPart(parts[0]) else AssistantPart(parts[0]);
      if us != [] {
        PushSound(st, us[0], fails);
      }
      PartsSound(if us == [] then st else Push(st, us[0], fails), parts[1..], user, fails);
    }
  }

  lemma {:induction false} CallsSound(st: State, calls: seq<Call>, fails: Faults)
    requires Sound(st)
    ensures Sound(PushCalls(st, calls, fails))
    decreases |calls|
  {
    hide Sound, CallStart;
    if calls != [] && st.ok {
      PushCallSound(st, calls[0], fails);
      CallsSound(Push(st.(turnOf := st.turnOf[calls[0].id := st.turnId]),
                      CallStart(st.turnId, calls[0]), fails), calls[1..], fails);
    }
  }

  lemma OneMessageSound(st: State, m: Message, fails: Faults)
    requires Sound(st)
    ensures Sound(ReplayOne(st, m, fails))
  {
    hide PushParts, PushCalls, Created, AcpToolCallId, ToolContent;
    match m
    case User(parts) => PartsSound(st, parts, true, fails);
    case Assistant(parts, calls) =>
      var st1 := st.(turnId := st.turnId + 1);
      PartsSound(st1, parts, false, fails);
      hide Sound;
      CallsSound(PushParts(st1, parts, false, fails), calls, fails);
    case Tool(callId, isError, parts) =>
      if callId.Some? && callId.value in st.turnOf {
        PushSound(st, ResultUpdate(AcpToolCallId(st.turnOf[callId.value], callId.value),
                                   if isError then Failed else Completed, ToolContent(parts)),
                  fails);
      }
    case OtherRole =>
  }

  lemma {:induction false} ReplaySound(history: seq<Message>, fails: Faults)
    ensures Sound(Replay(history, fails))
    decreases |history|
  {
    hide ReplayOne, Created, AcpToolCallId;
    if history != [] {
      var n := |history| - 1;
      ReplaySound(history[..n], fails);
      OneMessageSound(Replay(history[..n], fails), history[n], fails);
    }
  }

  /** Whatever pushes fail, a result is only ever pushed for an id whose card was pushed before;
      with no failures, the client always has the card. */
  lemma ResultsFollowCards(history: seq<Message>, fails: Faults)
    ensures var wire := Replay(history, fails).pushed;
            forall j :: 0 <= j < |wire| && NeedsCard(wire[j]) ==>
              exists i :: 0 <= i < j && wire[i].Create? && wire[i].id == wire[j].id
  {
    ReplaySound(history, fails);
    var wire := Replay(history, fails).pushed;
    hide Replay;
    forall j | 0 <= j < |wire| && NeedsCard(wire[j])
      ensures exists i :: 0 <= i < j && wire[i].Create? && wire[i].id == wire[j].id
    {
      var i :| 0 <= i < |wire[..j]| && wire[..j][i].Create? && wire[..j][i].id == wire[j].id;
      assert wire[i] == wire[..j][i];
    }
  }

  /** A card whose push failed is not sent again, so its result can reach a client that has no
      such card. */
  lemma LostCardExample()
    ensures var history := [Assistant([], [Call("c", "Bash", "")]), Tool(Some("c"), false, [])];
            var wire := Replay(history, n => n == 0).pushed;
            |wire| == 2 && wire[0].Create? && wire[1].ResultUpdate? && wire[1].id == wire[0].id
  {}

  // ---- One card for each call ---------------------------------------------------------------

  ghost predicate NoFaults(fails: Faults) { forall n :: !fails(n) }

  ghost predicate UniqueCards(wire: seq<Update>) {
    forall i, j :: 0 <= i < j < |wire| && wire[i].Create? && wire[j].Create? ==>
      wire[i].id != wire[j].id
  }

  ghost function Ids(calls: seq<Call>): (ids: seq<string>)
    ensures |ids| == |calls| && forall i :: 0 <= i < |ids| ==> ids[i] == calls[i].id
  {
    seq(|calls|, i requires 0 <= i < |calls| => calls[i].id)
  }

  lemma UniqueSnoc(wire: seq<Update>, u: Update)
    ensures UniqueCards(wire + [u])
       <==> UniqueCards(wire) && !(u.Create? && Created(wire, u.id))
  {
    var w := wire + [u];
    assert forall i :: 0 <= i < |wire| ==> w[i] == wire[i];
    assert w[|wire|] == u;
    assert u.Create? && Created(wire, u.id) ==>
             exists i :: 0 <= i < |wire| && w[i].Create? && w[i].id == w[|wire|].id;
  }

  /** No card belongs to a turn that is yet to come. */
  ghost predicate NoneLater(st: State) {
    forall t: int, c: string :: t > st.turnId ==> !Created(st.pushed, AcpToolCallId(t, c))
  }

  /** The cards of the current turn are those of the calls in `done`. */
  ghost predicate TurnCards(st: State, done: seq<string>) {
    forall c: string :: Created(st.pushed, AcpToolCallId(st.turnId, c)) <==> c in done
  }

  lemma PushKeepsCards(st: State, u: Update, fails: Faults)
    requires !u.Create?
    ensures NoneLater(st) ==> NoneLater(Push(st, u, fails))
    ensures TurnCards(st, []) ==> TurnCards(Push(st, u, fails), [])
    ensures UniqueCards(Push(st, u, fails).pushed) <==> UniqueCards(st.pushed)
  {
    hide Created, AcpToolCallId;
    UniqueSnoc(st.pushed, u);
    forall id: string
      ensures Created(st.pushed + [u], id) <==> Created(st.pushed, id)
    {
      CreatedSnoc(st.pushed, u, id);
    }
  }

  lemma PushCallCards(st: State, call: Call, done: seq<string>, fails: Faults)
    requires NoneLater(st) && TurnCards(st, done)
    ensures var st1 := Push(st.(turnOf := st.turnOf[call.id := st.turnId]),
                            CallStart(st.turnId, call), fails);
            && NoneLater(st1) && TurnCards(st1, done + [call.id])
            && (UniqueCards(st1.pushed) <==> UniqueCards(st.pushed) && call.id !in done)
  {
    hide Created, AcpToolCallId;
    var u := CallStart(st.turnId, call);
    UniqueSnoc(st.pushed, u);
    forall t: int, c: string
      ensures Created(st.pushed + [u], AcpToolCallId(t, c))
         <==> Created(st.pushed, AcpToolCallId(t, c)) || (t == st.turnId && c == call.id)
    {
      CreatedSnoc(st.pushed, u, AcpToolCallId(t, c));
      WireIdInjective(t, c, st.turnId, call.id);
    }
  }

  lemma {:induction false} PartsKeepCards(st: State, parts: seq<Part>, user: bool, fails: Faults)
    ensures var st1 := PushParts(st, parts, user, fails);
            && st1.turnId == st.turnId
            && (NoneLater(st) ==> NoneLater(st1))
            && (UniqueCards(st1.pushed) <==> UniqueCards(st.pushed))
            && (st.ok && NoFaults(fails) ==> st1.ok)
            && (TurnCards(st, []) ==> TurnCards(st1, []))
    decreases |parts|
  {
    hide NoneLater, UniqueCards, TurnCards;
    if parts != [] && st.ok {
      var us := if user then UserPart(parts[0]) else AssistantPart(parts[0]);
      if us != [] {
        PushKeepsCards(st, us[0], fails);
      }
      PartsKeepCards(if us == [] then st else Push(st, us[0], fails), parts[1..], user, fails);
    }
  }

  lemma DistinctSnoc(done: seq<string>, id: string, rest: seq<string>)
    ensures Distinct(done + [id] + rest) ==> id !in done
    ensures Distinct(done) && id !in done ==> Distinct(done + [id])
  {
    var all := done + [id] + rest;
    assert all[|done|] == id;
    assert forall i :: 0 <= i < |done| ==> all[i] == done[i];
  }

  lemma NextTurnHasNoCards(st: State)
    requires NoneLater(st)
    ensures NoneLater(st.(turnId := st.turnId + 1))
    ensures TurnCards(st.(turnId := st.turnId + 1), [])
  {
    hide Created, AcpToolCallId;
  }

  lemma {:induction false} CallsCards(st: State, calls: seq<Call>, done: seq<string>,
                                      fails: Faults)
    requires NoneLater(st) && TurnCards(st, done)
    ensures var st1 := PushCalls(st, calls, fails);
            && NoneLater(st1)
            && (UniqueCards(st.pushed) && Distinct(done + Ids(calls)) ==>
                  UniqueCards(st1.pushed))
            && (st.ok && NoFaults(fails) && UniqueCards(st1.pushed) ==>
                  UniqueCards(st.pushed) && (Distinct(done) ==> Distinct(done + Ids(calls))))
    decreases |calls|
  {
    hide NoneLater, TurnCards, UniqueCards, CallStart;
    assert calls == [] ==> done + Ids(calls) == done;
    if calls != [] && st.ok {
      PushCallCards(st, calls[0], done, fails);
      var id := calls[0].id;
      assert done + Ids(calls) == done + [id] + Ids(calls[1..]);
      DistinctSnoc(done, id, Ids(calls[1..]));
      CallsCards(Push(st.(turnOf := st.turnOf[id := st.turnId]), CallStart(st.turnId, calls[0]),
                      fails),
                 calls[1..], done + [id], fails);
    }
  }

  ghost predicate DistinctCalls(m: Message) { m.Assistant? ==> Distinct(Ids(m.calls)) }

  lemma AssistantCards(st: State, parts: seq<Part>, calls: seq<Call>, fails: Faults)
    requires NoneLater(st) && st.ok
    ensures var st1 := ReplayOne(st, Assistant(parts, calls), fails);
            && NoneLater(st1)
            && (UniqueCards(st.pushed) && Distinct(Ids(calls)) ==> UniqueCards(st1.pushed))
            && (NoFaults(fails) && UniqueCards(st1.pushed) ==>
                  UniqueCards(st.pushed) && Distinct(Ids(calls)))
  {
    var next := st.(turnId := st.turnId + 1);
    var st1 := PushParts(next, parts, false, fails);
    assert ReplayOne(st, Assistant(parts, calls), fails) == PushCalls(st1, calls, fails);
    assert [] + Ids(calls) == Ids(calls) && Distinct<string>([]);
    hide *;
    NextTurnHasNoCards(st);
    PartsKeepCards(next, parts, false, fails);
    CallsCards(st1, calls, [], fails);
  }

  lemma OneMessageCards(st: State, m: Message, fails: Faults)
    requires NoneLater(st) && st.ok
    ensures var st1 := ReplayOne(st, m, fails);
            && NoneLater(st1)
            && (UniqueCards(st.pushed) && DistinctCalls(m) ==> UniqueCards(st1.pushed))
            && (NoFaults(fails) && UniqueCards(st1.pushed) ==>
                  UniqueCards(st.pushed) && DistinctCalls(m))
  {
    hide PushParts, PushCalls, UniqueCards, AcpToolCallId, ToolContent, NoneLater, TurnCards,
         Distinct, Ids, NoFaults, Push;
    match m
    case User(parts) => PartsKeepCards(st, parts, true, fails);
    case Assistant(parts, calls) => AssistantCards(st, parts, calls, fails);
    case Tool(callId, isError, parts) =>
      if callId.Some? && callId.value in st.turnOf {
        PushKeepsCards(st, ResultUpdate(AcpToolCallId(st.turnOf[callId.value], callId.value),
                                        if isError then Failed else Completed, ToolContent(parts)),
                       fails);
      }
    case OtherRole =>
  }

  lemma {:induction false} ReplayCards(history: seq<Message>, fails: Faults)
    ensures var st := Replay(history, fails);
            && NoneLater(st) && st.ok
            && ((forall m :: m in history ==> DistinctCalls(m)) ==> UniqueCards(st.pushed))
            && (NoFaults(fails) && UniqueCards(st.pushed) ==>
                  forall m :: m in history ==> DistinctCalls(m))
    decreases |history|
  {
    if history != [] {
      var n := |history| - 1;
      ReplayCards(history[..n], fails);
      hide ReplayOne, UniqueCards, DistinctCalls;
      OneMessageCards(Replay(history[..n], fails), history[n], fails);
      assert history == history[..n] + [history[n]];
      assert forall m :: m in history ==> m in history[..n] || m == history[n];
    }
  }

  /** No id is created twice exactly when no assistant message repeats a call id; the same id in
      two messages is no clash, because each message has a turn number of its own. Failing pushes
      cannot bring a second card about. */
  lemma CardsOnceIffIdsDistinct(history: seq<Message>, fails: Faults)
    ensures (forall m :: m in history ==> DistinctCalls(m)) ==>
              UniqueCards(Replay(history, fails).pushed)
    ensures NoFaults(fails) ==>
              (UniqueCards(Replay(history, fails).pushed) <==>
               forall m :: m in history ==> DistinctCalls(m))
  {
    ReplayCards(history, fails);
  }

  /** One message with two calls of one id. */
  lemma RepeatedCallExample()
    ensures var call := Call("c", "Bash", "");
            !UniqueCards(Replay([Assistant([], [call, call])], _ => false).pushed)
  {
    hide AcpToolCallId;
    var call, none: Faults := Call("c", "Bash", ""), _ => false;
    var m := Assistant([], [call, call]);
    var st := Replay([], none);
    assert [m][..0] == [] && [call, call][1..] == [call] && [call][1..] == [];
    var wire := Replay([m], none).pushed;
    assert wire == ReplayOne(st, m, none).pushed;
    var next, u := st.(turnId := 1), CallStart(1, call);
    var once := Push(next.(turnOf := next.turnOf["c" := 1]), u, none);
    assert PushCalls(once, [call], none) == PushCalls(Push(once, u, none), [], none) by {
      assert once.turnOf["c" := 1] == once.turnOf;
    }
    assert PushCalls(next, [call, call], none) == PushCalls(once, [call], none);
    assert |wire| == 2 && wire[0] == wire[1] == CallStart(1, call);
  }
}
