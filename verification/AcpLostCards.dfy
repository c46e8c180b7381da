/** When a client whose connection may fail can be sent the result of a call whose card it never
    got. */
module AcpLostCards {
  import opened Wrappers
  import opened AcpWire
  import opened AcpReplay

  /** Some tool message answers a call of an earlier assistant message. */
  ghost predicate Answered(history: seq<Message>) {
    exists i, j :: 0 <= i < j < |history| && Answers(history[i], history[j])
  }

  predicate Answers(m: Message, tool: Message) {
    tool.Tool? && tool.callId.Some? && tool.callId.value != ""
    && Calls(m, tool.callId.value)
  }

  predicate Calls(m: Message, callId: string) {
    m.Assistant? && exists k :: 0 <= k < |m.calls| && m.calls[k].id == callId
  }

  lemma CardsSuffice(history: seq<Message>, fails: Faults)
    requires CardsLand(Replay(history, fails).pushed, fails)
    ensures ClientHasCards(Replay(history, fails).pushed, fails)
  {
    ResultsFollowCards(history, fails);
    hide Replay;
  }

  // ---- Without an answered call -------------------------------------------------------------

  ghost predicate Called(history: seq<Message>, callId: string) {
    exists i :: 0 <= i < |history| && Calls(history[i], callId)
  }

  /** Recorded calls were made by a message of the history; with none answered there is no
      result. */
  ghost predicate Quiet(history: seq<Message>, st: State) {
    && (forall c :: c in st.turnOf ==> Called(history, c))
    && (!Answered(history) ==> forall j :: 0 <= j < |st.pushed| ==> !NeedsCard(st.pushed[j]))
  }

  /** No result among the updates of `st1` past those of `st`. */
  ghost predicate NoNewResult(st: State, st1: State) {
    st.pushed <= st1.pushed
    && forall j :: |st.pushed| <= j < |st1.pushed| ==> !NeedsCard(st1.pushed[j])
  }

  lemma {:induction false} PartsAreNoResults(st: State, parts: seq<Part>, user: bool, fails: Faults)
    ensures NoNewResult(st, PushParts(st, parts, user, fails))
    ensures PushParts(st, parts, user, fails).turnOf == st.turnOf
    decreases |parts|
  {
    if parts != [] && st.ok {
      var us := if user then UserPart(parts[0]) else AssistantPart(parts[0]);
      PartsAreNoResults(if us == [] then st else Push(st, us[0], fails), parts[1..], user, fails);
    }
  }

  lemma {:induction false} CallsAreNoResults(st: State, calls: seq<Call>, fails: Faults)
    ensures NoNewResult(st, PushCalls(st, calls, fails))
    ensures forall c :: c in PushCalls(st, calls, fails).turnOf ==>
              c in st.turnOf || exists k :: 0 <= k < |calls| && calls[k].id == c
    decreases |calls|
  {
    hide CallStart;
    if calls != [] && st.ok {
      var st1 := Push(st.(turnOf := st.turnOf[calls[0].id := st.turnId]),
                      CallStart(st.turnId, calls[0]), fails);
      CallStartCreates(st.turnId, calls[0]);
      CallsAreNoResults(st1, calls[1..], fails);
      forall c | c in PushCalls(st, calls, fails).turnOf && c !in st.turnOf
        ensures exists k :: 0 <= k < |calls| && calls[k].id == c
      {
        if c != calls[0].id {
          var k :| 0 <= k < |calls[1..]| && calls[1..][k].id == c;
          assert calls[k + 1].id == c;
        }
      }
    }
  }

  lemma CallStartCreates(t: nat, c: Call)
    ensures CallStart(t, c).Create? && CallStart(t, c).id == AcpToolCallId(t, c.id)
  {}

  lemma LongerHistory(history: seq<Message>, m: Message, c: string)
    ensures Called(history, c) || Calls(m, c) ==> Called(history + [m], c)
    ensures Answered(history) ==> Answered(history + [m])
    ensures m.Tool? && m.callId == Some(c) && c != "" && Called(history, c) ==>
              Answered(history + [m])
  {
    hide Calls;
    var longer := history + [m];
    assert longer[|history|] == m;
    assert forall i :: 0 <= i < |history| ==> longer[i] == history[i];
    if m.Tool? && m.callId == Some(c) && c != "" && Called(history, c) {
      var i :| 0 <= i < |history| && Calls(history[i], c);
      assert Answers(longer[i], longer[|history|]);
    }
  }

  lemma OneIsQuiet(history: seq<Message>, m: Message, st: State, fails: Faults)
    requires Quiet(history, st)
    ensures Quiet(history + [m], ReplayOne(st, m, fails))
  {
    hide PushParts, PushCalls, AcpToolCallId, ToolContent, Called, Answered;
    forall c: string
      ensures Called(history, c) || Calls(m, c) ==> Called(history + [m], c)
    {
      LongerHistory(history, m, c);
    }
    LongerHistory(history, m, "");
    match m
    case User(parts) => PartsAreNoResults(st, parts, true, fails);
    case Assistant(parts, calls) =>
      var next := st.(turnId := st.turnId + 1);
      PartsAreNoResults(next, parts, false, fails);
      CallsAreNoResults(PushParts(next, parts, false, fails), calls, fails);
    case Tool(callId, isError, parts) =>
      if callId.Some? {
        LongerHistory(history, m, callId.value);
      }
    case OtherRole =>
  }

  lemma {:induction false} ReplayIsQuiet(history: seq<Message>, fails: Faults)
    ensures Quiet(history, Replay(history, fails))
    decreases |history|
  {
    hide ReplayOne, Quiet;
    if history == [] {
      NothingIsQuiet(fails);
    } else {
      var n := |history| - 1;
      ReplayIsQuiet(history[..n], fails);
      OneIsQuiet(history[..n], history[n], Replay(history[..n], fails), fails);
      assert history == history[..n] + [history[n]];
      SameQuiet(history, ReplayOne(Replay(history[..n], fails), history[n], fails));
    }
  }

  lemma NothingIsQuiet(fails: Faults)
    ensures Quiet([], Replay([], fails))
  {}

  lemma SameQuiet(history: seq<Message>, st: State)
    requires Quiet(history, st)
    ensures Quiet(history, st.(ok := true))
  {}

  // ---- Running without faults up to a point -------------------------------------------------

  function NoFault(n: nat): bool { false }

  ghost predicate Clear(fails: Faults, from: nat, to: nat) {
    forall n :: from <= n < to ==> !fails(n)
  }

  lemma {:induction false} PartsBelow(st: State, parts: seq<Part>, user: bool, fails: Faults)
    requires Clear(fails, |st.pushed|, |PushParts(st, parts, user, NoFault).pushed|)
    ensures PushParts(st, parts, user, fails) == PushParts(st, parts, user, NoFault)
    decreases |parts|
  {
    if parts != [] && st.ok {
      var us := if user then UserPart(parts[0]) else AssistantPart(parts[0]);
      if us == [] {
        PartsBelow(st, parts[1..], user, fails);
      } else {
        PartsAreNoResults(Push(st, us[0], NoFault), parts[1..], user, NoFault);
        assert !fails(|st.pushed|);
        PartsBelow(Push(st, us[0], fails), parts[1..], user, fails);
      }
    }
  }

  lemma {:induction false} CallsBelow(st: State, calls: seq<Call>, fails: Faults)
    requires Clear(fails, |st.pushed|, |PushCalls(st, calls, NoFault).pushed|)
    ensures PushCalls(st, calls, fails) == PushCalls(st, calls, NoFault)
    decreases |calls|
  {
    hide CallStart;
    if calls != [] && st.ok {
      var recorded := st.(turnOf := st.turnOf[calls[0].id := st.turnId]);
      var u := CallStart(st.turnId, calls[0]);
      CallsAreNoResults(Push(recorded, u, NoFault), calls[1..], NoFault);
      assert !fails(|st.pushed|);
      CallsBelow(Push(recorded, u, fails), calls[1..], fails);
    }
  }

  lemma OneGrows(st: State, m: Message, fails: Faults)
    ensures st.pushed <= ReplayOne(st, m, fails).pushed
  {
    hide PushParts, PushCalls, AcpToolCallId, ToolContent;
    match m
    case User(parts) => PartsAreNoResults(st, parts, true, fails);
    case Assistant(parts, calls) =>
      var next := st.(turnId := st.turnId + 1);
      PartsAreNoResults(next, parts, false, fails);
      CallsAreNoResults(PushParts(next, parts, false, fails), calls, fails);
    case _ =>
  }

  lemma OneBelow(st: State, m: Message, fails: Faults)
    requires Clear(fails, |st.pushed|, |ReplayOne(st, m, NoFault).pushed|)
    ensures ReplayOne(st, m, fails) == ReplayOne(st, m, NoFault)
  {
    hide PushParts, PushCalls, AcpToolCallId, ToolContent;
    match m
    case User(parts) => PartsBelow(st, parts, true, fails);
    case Assistant(parts, calls) =>
      var next := st.(turnId := st.turnId + 1);
      var st1 := PushParts(next, parts, false, NoFault);
      PartsAreNoResults(next, parts, false, NoFault);
      CallsAreNoResults(st1, calls, NoFault);
      PartsBelow(next, parts, false, fails);
      CallsBelow(st1, calls, fails);
    case _ =>
  }

  lemma {:induction false} ReplayBelow(history: seq<Message>, fails: Faults)
    requires Clear(fails, 0, |Replay(history, NoFault).pushed|)
    ensures Replay(history, fails) == Replay(history, NoFault)
    decreases |history|
  {
    hide ReplayOne;
    if history != [] {
      var n := |history| - 1;
      var st := Replay(history[..n], NoFault);
      OneGrows(st, history[n], NoFault);
      ReplayBelow(history[..n], fails);
      OneBelow(st, history[n], fails);
    }
  }

  lemma {:induction false} ReplayGrows(history: seq<Message>, j: nat, fails: Faults)
    requires j <= |history|
    ensures Replay(history[..j], fails).pushed <= Replay(history, fails).pushed
    decreases |history|
  {
    hide ReplayOne;
    if j == |history| {
      assert history[..j] == history;
    } else {
      var n := |history| - 1;
      assert history[..n][..j] == history[..j];
      ReplayGrows(history[..n], j, fails);
      OneGrows(Replay(history[..n], fails), history[n], fails);
    }
  }

  // ---- The lost card ------------------------------------------------------------------------

  /** A card with this id has been pushed at place `p` at most. */
  ghost predicate OnlyAt(pushed: seq<Update>, id: string, p: nat) {
    forall i :: 0 <= i < |pushed| && pushed[i].Create? && pushed[i].id == id ==> i == p
  }

  /** The card of call `c` of turn `t` was pushed once, at place `p`, and results go to it. */
  ghost predicate Lost(st: State, t: nat, c: string, p: nat) {
    && c in st.turnOf && st.turnOf[c] == t && t <= st.turnId && p < |st.pushed|
    && OnlyAt(st.pushed, AcpToolCallId(t, c), p)
  }

  lemma {:induction false} PartsOnlyAt(st: State, parts: seq<Part>, user: bool, fails: Faults,
                                       id: string, p: nat)
    requires OnlyAt(st.pushed, id, p)
    ensures OnlyAt(PushParts(st, parts, user, fails).pushed, id, p)
    ensures PushParts(st, parts, user, fails).turnId == st.turnId
    decreases |parts|
  {
    if parts != [] && st.ok {
      var us := if user then UserPart(parts[0]) else AssistantPart(parts[0]);
      PartsOnlyAt(if us == [] then st else Push(st, us[0], fails), parts[1..], user, fails, id, p);
    }
  }

  lemma {:induction false} CallsOnlyAt(st: State, calls: seq<Call>, fails: Faults, t: nat,
                                       c: string, p: nat)
    requires OnlyAt(st.pushed, AcpToolCallId(t, c), p)
    requires forall k :: 0 <= k < |calls| ==> calls[k].id != c
    ensures OnlyAt(PushCalls(st, calls, fails).pushed, AcpToolCallId(t, c), p)
    ensures PushCalls(st, calls, fails).turnId == st.turnId
    ensures c in st.turnOf ==> c in PushCalls(st, calls, fails).turnOf
                               && PushCalls(st, calls, fails).turnOf[c] == st.turnOf[c]
    decreases |calls|
  {
    hide CallStart, AcpToolCallId;
    if calls != [] && st.ok {
      CallStartCreates(st.turnId, calls[0]);
      WireIdInjective(t, c, st.turnId, calls[0].id);
      CallsOnlyAt(Push(st.(turnOf := st.turnOf[calls[0].id := st.turnId]),
                       CallStart(st.turnId, calls[0]), fails), calls[1..], fails, t, c, p);
    }
  }

  lemma OneKeepsLost(st: State, m: Message, fails: Faults, t: nat, c: string, p: nat)
    requires Lost(st, t, c, p) && !Calls(m, c)
    ensures Lost(ReplayOne(st, m, fails), t, c, p)
  {
    hide PushParts, PushCalls, AcpToolCallId, ToolContent;
    var id := AcpToolCallId(t, c);
    OneGrows(st, m, fails);
    match m
    case User(parts) =>
      PartsOnlyAt(st, parts, true, fails, id, p);
      PartsAreNoResults(st, parts, true, fails);
    case Assistant(parts, calls) =>
      var next := st.(turnId := st.turnId + 1);
      var st1 := PushParts(next, parts, false, fails);
      PartsOnlyAt(next, parts, false, fails, id, p);
      PartsAreNoResults(next, parts, false, fails);
      CallsOnlyAt(st1, calls, fails, t, c, p);
    case _ =>
  }

  lemma {:induction false} RunKeepsLost(history: seq<Message>, i: nat, fails: Faults, t: nat,
                                        c: string, p: nat)
    requires i <= |history| && Lost(Replay(history[..i], fails), t, c, p)
    requires forall x :: i <= x < |history| ==> !Calls(history[x], c)
    ensures Lost(Replay(history, fails), t, c, p)
    decreases |history|
  {
    hide ReplayOne, Lost, Calls;
    if i == |history| {
      assert history[..i] == history;
    } else {
      var n := |history| - 1;
      assert history[..n][..i] == history[..i];
      RunKeepsLost(history[..n], i, fails, t, c, p);
      OneKeepsLost(Replay(history[..n], fails), history[n], fails, t, c, p);
      SameLost(ReplayOne(Replay(history[..n], fails), history[n], fails), t, c, p);
    }
  }

  lemma SameLost(st: State, t: nat, c: string, p: nat)
    requires Lost(st, t, c, p)
    ensures Lost(st.(ok := true), t, c, p)
  {}

  lemma {:induction false} CallsConcat(st: State, a: seq<Call>, b: seq<Call>, fails: Faults)
    ensures PushCalls(st, a + b, fails) == PushCalls(PushCalls(st, a, fails), b, fails)
    decreases |a|
  {
    hide CallStart;
    if a == [] {
      assert a + b == b;
    } else if st.ok {
      assert (a + b)[1..] == a[1..] + b;
      CallsConcat(Push(st.(turnOf := st.turnOf[a[0].id := st.turnId]), CallStart(st.turnId, a[0]),
                       fails), a[1..], b, fails);
    }
  }

  lemma {:induction false} NoFaultGoesOn(st: State, parts: seq<Part>, user: bool, calls: seq<Call>)
    requires st.ok
    ensures PushParts(st, parts, user, NoFault).ok && PushCalls(st, calls, NoFault).ok
    decreases |parts| + |calls|
  {
    hide CallStart;
    if parts != [] {
      var us := if user then UserPart(parts[0]) else AssistantPart(parts[0]);
      NoFaultGoesOn(if us == [] then st else Push(st, us[0], NoFault), parts[1..], user, []);
    }
    if calls != [] {
      NoFaultGoesOn(Push(st.(turnOf := st.turnOf[calls[0].id := st.turnId]),
                         CallStart(st.turnId, calls[0]), NoFault), [], user, calls[1..]);
    }
  }

  lemma FirstCall(calls: seq<Call>, c: string) returns (k: nat)
    requires exists k :: 0 <= k < |calls| && calls[k].id == c
    ensures k < |calls| && calls[k].id == c && forall x :: 0 <= x < k ==> calls[x].id != c
  {
    k := 0;
    while calls[k].id != c
      invariant k < |calls| && forall x :: 0 <= x < k ==> calls[x].id != c
      invariant exists x :: k <= x < |calls| && calls[x].id == c
      decreases |calls| - k
    {
      k := k + 1;
    }
  }

  /** One message with a call `c`: when the first push to fail is that of its card, nothing else
      is sent for it, and yet it is recorded. */
  lemma CardIsLost(st: State, m: Message, c: string) returns (p: nat)
    requires Calls(m, c) && NoneLater(st) && st.ok
    ensures |st.pushed| <= p
    ensures Lost(ReplayOne(st, m, FailAt(p)), st.turnId + 1, c, p)
  {
    var t, id := st.turnId + 1, AcpToolCallId(st.turnId + 1, c);
    var next := st.(turnId := t);
    var st1 := PushParts(next, m.parts, false, NoFault);
    var k := FirstCall(m.calls, c);
    var before, call, after := m.calls[..k], m.calls[k], m.calls[k + 1..];
    var st2 := PushCalls(st1, before, NoFault);
    p := |st2.pushed|;
    NoCardYet(st, c, p);
    hide PushParts, PushCalls, AcpToolCallId, NoneLater, NoFault, CallStart;
    PartsAreNoResults(next, m.parts, false, NoFault);
    CallsAreNoResults(st1, before, NoFault);
    NoFaultGoesOn(next, m.parts, false, []);
    NoFaultGoesOn(st1, [], false, before);
    PartsBelow(next, m.parts, false, FailAt(p));
    CallsBelow(st1, before, FailAt(p));
    PartsOnlyAt(next, m.parts, false, NoFault, id, p);
    CallsOnlyAt(st1, before, NoFault, t, c, p);
    assert m.calls == before + ([call] + after);
    CallsConcat(st1, before, [call] + after, FailAt(p));
    FailingCall(st2, call, after, p);
  }

  lemma NoCardYet(st: State, c: string, p: nat)
    requires NoneLater(st)
    ensures OnlyAt(st.pushed, AcpToolCallId(st.turnId + 1, c), p)
  {
    hide AcpToolCallId;
    assert !Created(st.pushed, AcpToolCallId(st.turnId + 1, c));
  }

  lemma FailingCall(st: State, call: Call, after: seq<Call>, p: nat)
    requires st.ok && p == |st.pushed| && OnlyAt(st.pushed, AcpToolCallId(st.turnId, call.id), p)
    ensures Lost(PushCalls(st, [call] + after, FailAt(p)), st.turnId, call.id, p)
  {
    hide AcpToolCallId;
    assert ([call] + after)[1..] == after;
    CallStartCreates(st.turnId, call);
    hide CallStart;
  }

  lemma LastCaller(history: seq<Message>, j: nat, c: string) returns (i: nat)
    requires j <= |history| && exists i :: 0 <= i < j && Calls(history[i], c)
    ensures i < j && Calls(history[i], c)
    ensures forall x :: i < x < j ==> !Calls(history[x], c)
    decreases j
  {
    if Calls(history[j - 1], c) {
      i := j - 1;
    } else {
      i := LastCaller(history, j - 1, c);
    }
  }

  lemma ReplaySnoc(history: seq<Message>, m: Message, fails: Faults)
    ensures Replay(history + [m], fails)
         == ReplayOne(Replay(history, fails), m, fails).(ok := true)
  {
    hide ReplayOne;
    assert (history + [m])[..|history|] == history;
  }

  /** The last message with a call `c` loses its card. */
  lemma LastCardIsLost(before: seq<Message>, m: Message, after: seq<Message>, c: string)
    returns (t: nat, p: nat)
    requires Calls(m, c) && forall x :: 0 <= x < |after| ==> !Calls(after[x], c)
    ensures Lost(Replay(before + [m] + after, FailAt(p)), t, c, p)
  {
    hide *;
    var st := Replay(before, NoFault);
    ReplayCards(before, NoFault);
    p := CardIsLost(st, m, c);
    t := st.turnId + 1;
    FailsLater(|st.pushed|, p);
    ReplayBelow(before, FailAt(p));
    ReplaySnoc(before, m, FailAt(p));
    SameLost(ReplayOne(st, m, FailAt(p)), t, c, p);
    var all, n := before + [m] + after, |before| + 1;
    assert all[..n] == before + [m];
    assert forall x :: n <= x < |all| ==> all[x] == after[x - n];
    RunKeepsLost(all, n, FailAt(p), t, c, p);
  }

  lemma FailsLater(n: nat, p: nat)
    requires n <= p
    ensures Clear(FailAt(p), 0, n)
  {}

  lemma AnsweredParts(history: seq<Message>)
    returns (before: seq<Message>, m: Message, after: seq<Message>, tool: Message,
             rest: seq<Message>, c: string)
    requires Answered(history)
    ensures history == before + [m] + after + [tool] + rest
    ensures Calls(m, c) && forall x :: 0 <= x < |after| ==> !Calls(after[x], c)
    ensures tool.Tool? && tool.callId == Some(c) && c != ""
  {
    var i0, j :| 0 <= i0 < j < |history| && Answers(history[i0], history[j]);
    tool := history[j];
    c := tool.callId.value;
    hide Calls;
    var i := LastCaller(history, j, c);
    before, m, after, rest := history[..i], history[i], history[i + 1..j], history[j + 1..];
  }

  lemma AnsweredCanBeLost(history: seq<Message>) returns (fails: Faults)
    requires Answered(history)
    ensures !ClientHasCards(Replay(history, fails).pushed, fails)
  {
    hide *;
    var before, m, after, tool, rest, c := AnsweredParts(history);
    var t, p := LastCardIsLost(before, m, after, c);
    fails := FailAt(p);
    var asked := before + [m] + after;
    var st := Replay(asked, fails);
    ReplaySnoc(asked, tool, fails);
    ResultOfLost(st, tool, t, c, p);
    assert history[..|asked| + 1] == asked + [tool];
    ReplayGrows(history, |asked| + 1, fails);
    ResultWithoutCard(st.pushed, Replay(history, fails).pushed, AcpToolCallId(t, c), p);
  }

  lemma ResultOfLost(st: State, m: Message, t: nat, c: string, p: nat)
    requires Lost(st, t, c, p) && m.Tool? && m.callId == Some(c) && c != ""
    ensures var wire := ReplayOne(st, m, FailAt(p)).pushed;
            && |wire| == |st.pushed| + 1 && st.pushed <= wire
            && wire[|st.pushed|].ResultUpdate? && wire[|st.pushed|].id == AcpToolCallId(t, c)
    ensures p < |st.pushed| && OnlyAt(st.pushed, AcpToolCallId(t, c), p)
  {
    hide AcpToolCallId, ToolContent;
  }

  lemma ResultWithoutCard(before: seq<Update>, wire: seq<Update>, id: string, p: nat)
    requires before <= wire && p < |before| < |wire| && OnlyAt(before, id, p)
    requires wire[|before|].ResultUpdate? && wire[|before|].id == id
    ensures !ClientHasCards(wire, FailAt(p))
  {
    assert forall i :: 0 <= i < |before| ==> wire[i] == before[i];
    assert forall i :: 0 <= i < |before| && wire[i].Create? && wire[i].id == id ==> FailAt(p)(i);
    assert !FailAt(p)(|before|);
  }

  /** Whatever pushes fail, every result that reaches the client finds a card that reached it, if
      and only if no tool message answers a call of an earlier assistant message. */
  lemma ClientHasCardsIff(history: seq<Message>)
    ensures (forall fails: Faults :: ClientHasCards(Replay(history, fails).pushed, fails))
       <==> !Answered(history)
  {
    if Answered(history) {
      var fails := AnsweredCanBeLost(history);
    } else {
      forall fails: Faults
        ensures ClientHasCards(Replay(history, fails).pushed, fails)
      {
        ReplayIsQuiet(history, fails);
      }
    }
  }
}
