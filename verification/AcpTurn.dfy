/** One prompt turn of the ACP adapter (packages/acp-adapter/src/session.ts): the event listener
    that turns the SDK's event stream, in which argument deltas come before the call they belong
    to, into updates a client can apply in order. */
module AcpTurn {
  import opened Wrappers
  import opened AcpWire

  const MAIN_AGENT_ID := "main"
  const TURN_AGENT_BUSY := "turn.agent_busy"

  datatype Reason = ReasonCompleted | ReasonCancelled | ReasonFailed | ReasonBlocked

  datatype Body =
    | TurnStarted(turnId: int)
    | TurnEnded(turnId: int, reason: Reason, errorCode: Option<string>)
    | ErrorEvent(code: string)
    | AssistantDelta(turnId: int, text: string)
    | ThinkingDelta(turnId: int, text: string)
    | Started(started: ToolStarted)
    | Delta(delta: ToolDelta)
    | Progress(turnId: int, callId: string, isStatus: bool, text: string)
    | Result(turnId: int, callId: string, isError: bool, output: Option<string>)
    | OtherEvent(turn: Option<int>)

  datatype Event = Event(agentId: Option<string>, body: Body)

  /** An event of the subscription, or the kick-off promise rejecting. */
  datatype Input = Arrives(event: Event) | KickFails(authCode: bool)

  datatype StopReason = EndTurn | Cancelled | Refusal

  datatype Settlement = Resolved(stop: StopReason) | RejectedBusy | RejectedAuth | RejectedInternal

  function StopReasonOf(reason: Reason, errorCode: Option<string>): StopReason {
    match reason
    case ReasonCompleted => EndTurn
    case ReasonCancelled => Cancelled
    case ReasonFailed => if errorCode == Some("provider.filtered") then Refusal else EndTurn
    case ReasonBlocked => Refusal
  }

  predicate IsAuthErrorCode(code: Option<string>) {
    code == Some("auth.login_required") || code == Some("provider.auth_error")
  }

  predicate IsFromMainAgent(e: Event) { e.agentId.None? || e.agentId.value == MAIN_AGENT_ID }

  function TurnOf(b: Body): Option<int> {
    match b
    case TurnStarted(t) => Some(t)
    case TurnEnded(t, _, _) => Some(t)
    case ErrorEvent(_) => None
    case AssistantDelta(t, _) => Some(t)
    case ThinkingDelta(t, _) => Some(t)
    case Started(s) => Some(s.turnId)
    case Delta(d) => Some(d.turnId)
    case Progress(t, _, _, _) => Some(t)
    case Result(t, _, _, _) => Some(t)
    case OtherEvent(t) => t
  }

  // ---- The listener as a function -----------------------------------------------------------

  /** `settlements` lists every resolve and reject of the promise, though only the first would
      have an effect. */
  datatype State = State(
    settled: bool, subscribed: bool, args: map<string, string>, started: set<string>,
    currentTurnId: Option<int>, ownTurnStarted: bool,
    wire: seq<Update>, settlements: seq<Settlement>)

  function Initial(active: Option<int>): State {
    State(false, true, map[], {}, active, false, [], [])
  }

  function Push(st: State, updates: seq<Update>): State { st.(wire := st.wire + updates) }

  /** Bookkeeping for every event, before the dispatch. */
  function Observe(st: State, e: Event, active: Option<int>): State {
    var own := e.body.TurnStarted? && IsFromMainAgent(e)
               && (active.None? || e.body.turnId != active.value);
    var st1 := if own then st.(ownTurnStarted := true) else st;
    if TurnOf(e.body).Some? && IsFromMainAgent(e)
    then st1.(currentTurnId := TurnOf(e.body)) else st1
  }

  function Settle(st: State, how: Settlement): State {
    st.(settled := true, subscribed := false, args := map[], started := {},
        currentTurnId := None, settlements := st.settlements + [how])
  }

  function OnStarted(st: State, e: ToolStarted): State {
    var id := AcpToolCallId(e.turnId, e.callId);
    var st1 := st.(args := st.args[e.callId := e.args], started := st.started + {id});
    Push(st1, [if id in st.started then ToolCallStartedUpgrade(e) else ToolCallStart(e)]
              + PlanFromDisplay(e.display))
  }

  function OnDelta(st: State, e: ToolDelta): State {
    var id := AcpToolCallId(e.turnId, e.callId);
    var part := e.argsPart.GetOr("");
    if id !in st.started then
      Push(st.(args := st.args[e.callId := part], started := st.started + {id}),
           [ToolCallLazyCreate(e)])
    else
      var text := (if e.callId in st.args then st.args[e.callId] else "") + part;
      Push(st.(args := st.args[e.callId := text]), [DeltaUpdate(id, text)])
  }

  function Dispatch(st: State, e: Event): State {
    match e.body
    case ErrorEvent(code) =>
      if st.settled || !IsFromMainAgent(e) || code != TURN_AGENT_BUSY || st.ownTurnStarted then st
      else Settle(st, RejectedBusy)
    case AssistantDelta(_, text) =>
      if IsFromMainAgent(e) then Push(st, [MessageChunk(text)]) else st
    case ThinkingDelta(_, text) =>
      if IsFromMainAgent(e) then Push(st, [ThoughtChunk(text)]) else st
    case Started(s) => if IsFromMainAgent(e) then OnStarted(st, s) else st
    case Delta(d) => if IsFromMainAgent(e) then OnDelta(st, d) else st
    case Progress(t, c, isStatus, text) =>
      if IsFromMainAgent(e) && isStatus && text != ""
      then Push(st, [ProgressUpdate(AcpToolCallId(t, c), text)]) else st
    case Result(t, c, isError, output) =>
      if IsFromMainAgent(e)
      then Push(st, [ResultUpdate(AcpToolCallId(t, c), if isError then Failed else Completed,
                                  ToolResultContent(output))])
      else st
    case TurnEnded(_, reason, code) =>
      if st.settled || !IsFromMainAgent(e) then st
      else Settle(st, if reason.ReasonFailed? && IsAuthErrorCode(code) then RejectedAuth
                      else Resolved(StopReasonOf(reason, code)))
    case _ => st
  }

  function Step(st: State, input: Input, active: Option<int>): State {
    match input
    case Arrives(e) => if st.subscribed then Dispatch(Observe(st, e, active), e) else st
    case KickFails(auth) =>
      if st.settled then st
      else st.(settled := true, subscribed := false,
               settlements := st.settlements + [if auth then RejectedAuth else RejectedInternal])
  }

  function Run(active: Option<int>, inputs: seq<Input>): State
    decreases |inputs|
  {
    if inputs == [] then Initial(active)
    else Step(Run(active, inputs[..|inputs| - 1]), inputs[|inputs| - 1], active)
  }

  // ---- The listener in place ----------------------------------------------------------------

  class TurnListener {
    const initialActiveTurnId: Option<int>
    var settled: bool
    var subscribed: bool
    var argsByToolCall: map<string, string>
    var startedToolCalls: set<string>
    var currentTurnId: Option<int>
    var hasReceivedOwnTurnStarted: bool
    var wire: seq<Update>
    var settlements: seq<Settlement>

    function Abs(): State
      reads this
    {
      State(settled, subscribed, argsByToolCall, startedToolCalls, currentTurnId,
            hasReceivedOwnTurnStarted, wire, settlements)
    }

    constructor (active: Option<int>)
      ensures Abs() == Initial(active) && initialActiveTurnId == active
    {
      initialActiveTurnId, currentTurnId := active, active;
      settled, subscribed, hasReceivedOwnTurnStarted := false, true, false;
      argsByToolCall, startedToolCalls := map[], {};
      wire, settlements := [], [];
    }

    method SessionUpdate(u: Update)
      modifies this`wire
      ensures wire == old(wire) + [u]
    {
      wire := wire + [u];
    }

    method Finish(how: Settlement)
      modifies this
      ensures Abs() == Settle(old(Abs()), how)
    {
      settled := true;
      argsByToolCall := map[];
      startedToolCalls := {};
      currentTurnId := None;
      subscribed := false;
      settlements := settlements + [how];
    }

    /** The branch for `tool.call.started`. */
    method OnToolCallStarted(s: ToolStarted)
      modifies this`argsByToolCall, this`startedToolCalls, this`wire
      ensures Abs() == OnStarted(old(Abs()), s)
    {
      hide ToolCallStart, ToolCallStartedUpgrade, AcpToolCallId, PlanFromDisplay;
      argsByToolCall := argsByToolCall[s.callId := s.args];
      var startedWireId := AcpToolCallId(s.turnId, s.callId);
      if startedWireId in startedToolCalls {
        SessionUpdate(ToolCallStartedUpgrade(s));
      } else {
        startedToolCalls := startedToolCalls + {startedWireId};
        SessionUpdate(ToolCallStart(s));
      }
      wire := wire + PlanFromDisplay(s.display);
      assert startedToolCalls == old(startedToolCalls) + {startedWireId};
    }

    /** The branch for `tool.call.delta`. */
    method OnToolCallDelta(d: ToolDelta)
      modifies this`argsByToolCall, this`startedToolCalls, this`wire
      ensures Abs() == OnDelta(old(Abs()), d)
    {
      hide ToolCallLazyCreate, AcpToolCallId;
      var deltaWireId := AcpToolCallId(d.turnId, d.callId);
      if deltaWireId !in startedToolCalls {
        var initial := d.argsPart.GetOr("");
        argsByToolCall := argsByToolCall[d.callId := initial];
        startedToolCalls := startedToolCalls + {deltaWireId};
        SessionUpdate(ToolCallLazyCreate(d));
        return;
      }
      if d.callId !in argsByToolCall {
        argsByToolCall := argsByToolCall[d.callId := ""];
      }
      argsByToolCall := argsByToolCall[d.callId := argsByToolCall[d.callId]
                                                   + d.argsPart.GetOr("")];
      SessionUpdate(DeltaUpdate(deltaWireId, argsByToolCall[d.callId]));
    }

    /** The event listener; not called again once it has unsubscribed. */
    method OnEvent(e: Event)
      requires subscribed
      modifies this
      ensures Abs() == Dispatch(Observe(old(Abs()), e, initialActiveTurnId), e)
    {
      hide OnStarted, OnDelta, AcpToolCallId, StopReasonOf, IsAuthErrorCode;
      var fromMain := IsFromMainAgent(e);
      if e.body.TurnStarted? && fromMain
         && (initialActiveTurnId.None? || e.body.turnId != initialActiveTurnId.value) {
        hasReceivedOwnTurnStarted := true;
      }
      if TurnOf(e.body).Some? && fromMain {
        currentTurnId := TurnOf(e.body);
      }
      match e.body {
        case ErrorEvent(code) =>
          if settled || !fromMain || code != TURN_AGENT_BUSY || hasReceivedOwnTurnStarted {
            return;
          }
          Finish(RejectedBusy);
        case AssistantDelta(_, text) =>
          if fromMain {
            SessionUpdate(MessageChunk(text));
          }
        case ThinkingDelta(_, text) =>
          if fromMain {
            SessionUpdate(ThoughtChunk(text));
          }
        case Started(s) =>
          if fromMain {
            OnToolCallStarted(s);
          }
        case Delta(d) =>
          if fromMain {
            OnToolCallDelta(d);
          }
        case Progress(t, c, isStatus, text) =>
          if fromMain && isStatus && text != "" {
            SessionUpdate(ProgressUpdate(AcpToolCallId(t, c), text));
          }
        case Result(t, c, isError, output) =>
          if fromMain {
            SessionUpdate(ResultUpdate(AcpToolCallId(t, c),
                                       if isError then Failed else Completed,
                                       ToolResultContent(output)));
          }
        case TurnEnded(_, reason, code) =>
          if settled || !fromMain {
            return;
          }
          if reason.ReasonFailed? && IsAuthErrorCode(code) {
            Finish(RejectedAuth);
          } else {
            Finish(Resolved(StopReasonOf(reason, code)));
          }
        case _ =>
      }
    }

    method OnKickFailed(auth: bool)
      modifies this
      ensures Abs() == Step(old(Abs()), KickFails(auth), initialActiveTurnId)
    {
      if settled {
        return;
      }
      settled := true;
      subscribed := false;
      settlements := settlements + [if auth then RejectedAuth else RejectedInternal];
    }
  }
}
